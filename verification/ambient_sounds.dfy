/** The ambient-audio driver (`AmbientSounds`) as a two-channel state machine:
    birds by day, crickets by night, silence by a snowy day. Audio elements
    become abstract channel records; promises, event listeners and animation
    frames become fields saying what is pending. */
module AmbientSounds {
  import opened Wrappers
  import Celestial
  import opened RealArith

  /** Which channel the scene asks for. */
  datatype Key = DayKey | NightKey | Mute

  /** The component's default `volume` prop. */
  const DefaultVolume: real := 0.6

  /** Length of a fade, in milliseconds. */
  const FadeDuration: real := 350.0

  /** A fade in progress: the volume when it started and the volume it aims for. */
  datatype Fade = Fade(from: real, target: real)

  /** One audio element with the refs that belong to it: `fade` is the pending
      animation frame of a fade, `readyListener` a `canplaythrough` listener
      waiting to start a fade to the given volume. `paused` is false once
      playback has been requested. */
  datatype Channel = Channel(volume: real, muted: bool, paused: bool, time: real,
                             fade: Option<Fade>, readyListener: Option<real>)

  /** A channel that is silent and has nothing pending. */
  predicate Stopped(ch: Channel)
  {
    ch.paused && ch.muted && ch.volume == 0.0 && ch.time == 0.0
    && ch.fade.None? && ch.readyListener.None?
  }

  /** A channel asked to play and not muted. */
  predicate Audible(ch: Channel)
  {
    !ch.muted && !ch.paused
  }

  /** `timeOfDay !== 'day'`: every phase but `day` counts as night. */
  predicate IsNight(p: Celestial.Phase)
  {
    !Celestial.IsDaytime(p)
  }

  lemma IsNightPhases(p: Celestial.Phase)
    ensures IsNight(p) <==> p in {Celestial.Dawn, Celestial.Morning, Celestial.Afternoon,
                                 Celestial.Dusk, Celestial.Night}
  {
  }

  /** The channel the scene asks for: night wins over snow; a snowy day is mute. */
  function DesiredKey(isNight: bool, showSnow: bool): (k: Key)
    ensures isNight ==> k == NightKey
    ensures k == Mute <==> !isNight && showSnow
    ensures k == DayKey <==> !isNight && !showSnow
  {
    if isNight then NightKey
    else if showSnow then Mute
    else DayKey
  }

  /** From the phase: crickets in every phase but `day`, birds in the `day`
      phase unless it snows, silence on a snowy `day`. */
  lemma DesiredKeyFollowsPhase(p: Celestial.Phase, showSnow: bool)
    ensures DesiredKey(IsNight(p), showSnow) == NightKey <==> p != Celestial.Day
    ensures DesiredKey(IsNight(p), showSnow) == DayKey <==> p == Celestial.Day && !showSnow
    ensures DesiredKey(IsNight(p), showSnow) == Mute <==> p == Celestial.Day && showSnow
  {
  }

  /** `stopNow`: cancel the fade, drop the ready listener, pause, rewind, and
      leave the element muted at volume 0. */
  function StopNow(ch: Channel): (r: Channel)
    ensures Stopped(r) && !Audible(r)
    ensures forall e :: Tick(r, e) == r
    ensures OnReady(r) == r
  {
    Channel(0.0, true, true, 0.0, None, None)
  }

  /** `fadeTo`: cancel any running fade and start one from the current volume. */
  function FadeTo(ch: Channel, target: real): (r: Channel)
    ensures r.fade == Some(Fade(ch.volume, target))
    ensures r == ch.(fade := r.fade)
    ensures Tick(r, 0.0).volume == ch.volume
    ensures forall e :: e >= 0.0 ==> Between(Tick(r, e).volume, ch.volume, target)
    ensures forall e :: Tick(r, e).fade.None? <==> e >= FadeDuration
  {
    ch.(fade := Some(Fade(ch.volume, target)))
  }

  /** `ensurePlay`: unmute and request playback; when the element can already
      play through (`ready`) fade in at once, otherwise leave a one-shot
      listener that will. The not-ready branch does not touch a fade already
      running. */
  function EnsurePlay(ch: Channel, target: real, ready: bool): (r: Channel)
    ensures Audible(r)
    ensures r.volume == ch.volume && r.time == ch.time
    ensures ready ==> r.fade == Some(Fade(ch.volume, target)) && r.readyListener.None?
    ensures !ready ==> r.fade == ch.fade && r.readyListener == Some(target)
  {
    var unmuted := ch.(muted := false, readyListener := None, paused := false);
    if ready then FadeTo(unmuted, target)
    else unmuted.(readyListener := Some(target))
  }

  /** The `canplaythrough` event: a waiting listener starts its fade and removes itself. */
  function OnReady(ch: Channel): (r: Channel)
    ensures ch.readyListener.None? ==> r == ch
    ensures ch.readyListener.Some? ==>
              r.readyListener.None? && r.fade == Some(Fade(ch.volume, ch.readyListener.value))
              && !r.paused
  {
    match ch.readyListener
    case None => ch
    case Some(t) => FadeTo(ch.(paused := false, readyListener := None), t)
  }

  /** A play request that had to wait ends, once the element is ready, in the
      same state as one that found it ready at once. */
  lemma ReadyListenerCompletesPlay(ch: Channel, target: real)
    ensures OnReady(EnsurePlay(ch, target, false)) == EnsurePlay(ch, target, true)
  {
  }

  /** Fraction of the fade elapsed, `Math.min(1, elapsed / dur)`. */
  function FadeProgress(elapsed: real): (p: real)
    ensures p <= 1.0
    ensures elapsed >= 0.0 ==> 0.0 <= p
    ensures p == 1.0 <==> elapsed >= FadeDuration
  {
    if elapsed / FadeDuration < 1.0 then elapsed / FadeDuration else 1.0
  }

  /** The easing curve as written: `2p²` below one half, `1 - (1 - 2p)²/2` above. */
  function Eased(p: real): (e: real)
    ensures 0.0 <= p <= 1.0 ==> 0.0 <= e <= 1.0
  {
    if p < 0.5 then
      assert 0.0 <= p ==> 0.0 <= p * p <= p by { if 0.0 <= p { SquareAtMostSelf(p); } }
      2.0 * p * p
    else
      var u := -2.0 * p + 1.0;
      assert 0.5 <= p <= 1.0 ==> 0.0 <= u * u <= 1.0 by {
        if 0.5 <= p <= 1.0 {
          SquareAtMostSelf(-u);
          assert u * u == (-u) * (-u);
        }
      }
      1.0 - u * u / 2.0
  }

  /** The volume a tick sets: `from + (target - from) * eased`. */
  function FadeVolume(f: Fade, p: real): (v: real)
    ensures 0.0 <= p <= 1.0 ==> Between(v, f.from, f.target)
  {
    var e := Eased(p);
    assert 0.0 <= p <= 1.0 ==> Between(f.from + (f.target - f.from) * e, f.from, f.target) by {
      if 0.0 <= p <= 1.0 {
        StepBetween(f.from, f.target, e);
      }
    }
    f.from + (f.target - f.from) * e
  }

  /** One animation-frame tick of the running fade, `elapsed` milliseconds after
      it started. The last tick drops the pending frame and, for a fade to 0,
      pauses, mutes and rewinds. */
  function Tick(ch: Channel, elapsed: real): (r: Channel)
    ensures ch.fade.None? ==> r == ch
    ensures ch.fade.Some? && elapsed >= 0.0 ==> Between(r.volume, ch.fade.value.from, ch.fade.value.target)
    ensures ch.fade.Some? ==> (r.fade.None? <==> elapsed >= FadeDuration)
    ensures ch.fade.Some? && elapsed >= FadeDuration && ch.fade.value.target == 0.0 ==>
              r.paused && r.muted && r.time == 0.0
  {
    match ch.fade
    case None => ch
    case Some(f) =>
      var p := FadeProgress(elapsed);
      var v := FadeVolume(f, p);
      if p < 1.0 then ch.(volume := v)
      else if f.target == 0.0 then ch.(volume := v, fade := None, paused := true, muted := true, time := 0.0)
      else ch.(volume := v, fade := None)
  }

  /** As written, a completed fade stops half-way: the last tick leaves the
      volume at the midpoint of `from` and `target`, not at `target`, and the
      curve jumps to the target at the half-way instant and falls back. */
  lemma FadeEndsHalfway(ch: Channel, elapsed: real)
    requires ch.fade.Some? && elapsed >= FadeDuration
    ensures Tick(ch, elapsed).volume == (ch.fade.value.from + ch.fade.value.target) / 2.0
    ensures Tick(ch, elapsed).fade.None?
    ensures ch.fade.value.from != ch.fade.value.target ==>
              Tick(ch, elapsed).volume != ch.fade.value.target
    ensures Eased(0.5) == 1.0 && Eased(1.0) == 0.5
  {
  }

  /** The easing as evidently intended (ease-in-out quadratic): `1 - (2 - 2p)²/2` above one half. */
  function EasedIntended(p: real): (e: real)
    ensures 0.0 <= p <= 1.0 ==> 0.0 <= e <= 1.0
    ensures p == 1.0 ==> e == 1.0
    ensures p == 0.0 ==> e == 0.0
  {
    if p < 0.5 then
      assert 0.0 <= p ==> 0.0 <= p * p <= p by { if 0.0 <= p { SquareAtMostSelf(p); } }
      2.0 * p * p
    else
      var u := -2.0 * p + 2.0;
      assert 0.5 <= p <= 1.0 ==> 0.0 <= u * u <= 1.0 by {
        if 0.5 <= p <= 1.0 {
          SquareAtMostSelf(u);
        }
      }
      1.0 - u * u / 2.0
  }

  /** The intended curve never turns back, so the intended fade moves steadily
      from `from` towards `target` and ends exactly at `target`. */
  lemma {:induction false} EasedIntendedMonotone(p: real, q: real)
    requires 0.0 <= p <= q <= 1.0
    ensures EasedIntended(p) <= EasedIntended(q)
  {
    if q < 0.5 {
      SquareMonotone(p, q);
    } else if p >= 0.5 {
      SquareMonotone(2.0 - 2.0 * q, 2.0 - 2.0 * p);
    } else {
      SquareMonotone(p, 0.5);
      assert EasedIntended(p) == 2.0 * p * p <= 0.5;
      var w := 2.0 - 2.0 * q;
      SquareAtMostSelf(w);
      assert EasedIntended(q) == 1.0 - w * w / 2.0 >= 0.5;
    }
  }

  /** The intended fade's last volume is the target. */
  function FadeVolumeIntended(f: Fade, p: real): (v: real)
    ensures 0.0 <= p <= 1.0 ==> Between(v, f.from, f.target)
    ensures p == 1.0 ==> v == f.target
  {
    var e := EasedIntended(p);
    assert 0.0 <= p <= 1.0 ==> Between(f.from + (f.target - f.from) * e, f.from, f.target) by {
      if 0.0 <= p <= 1.0 {
        StepBetween(f.from, f.target, e);
      }
    }
    f.from + (f.target - f.from) * e
  }

  /** Both channels and the component's refs. */
  datatype AudioState = AudioState(birds: Channel, crickets: Channel, started: bool, current: Option<Key>)

  /** Each element as created on mount: muted at volume 0 with playback requested. */
  const MountedChannel := Channel(0.0, true, false, 0.0, None, None)

  const Mounted := AudioState(MountedChannel, MountedChannel, false, None)

  /** At most one channel can be heard. */
  predicate AtMostOneAudible(s: AudioState)
  {
    !(Audible(s.birds) && Audible(s.crickets))
  }

  /** Freshly mounted, nothing can be heard yet: both elements are muted, no
      key is applied, and audio is not started. */
  lemma MountedIsSilent()
    ensures AtMostOneAudible(Mounted)
    ensures !Audible(Mounted.birds) && !Audible(Mounted.crickets)
    ensures !Mounted.started && Mounted.current.None?
  {
  }

  /** The phase the component sees when it mounts: the position hook starts in
      `day` and its first update lands only on a later render. */
  const MountIsNight: bool := IsNight(Celestial.InitialState.timeOfDay)

  /** `applyDesired`: play the asked-for channel and stop the other (both for
      mute), then remember the key. `birdsReady`/`cricketsReady` say whether each
      element can already play through. */
  function ApplyDesired(s: AudioState, isNight: bool, showSnow: bool, volume: real,
                        birdsReady: bool, cricketsReady: bool): (r: AudioState)
    ensures r.current == Some(DesiredKey(isNight, showSnow))
    ensures r.started == s.started
    ensures AtMostOneAudible(r)
    ensures DesiredKey(isNight, showSnow) == DayKey ==> Audible(r.birds) && Stopped(r.crickets)
    ensures DesiredKey(isNight, showSnow) == NightKey ==> Audible(r.crickets) && Stopped(r.birds)
    ensures DesiredKey(isNight, showSnow) == Mute ==> Stopped(r.birds) && Stopped(r.crickets)
    ensures DesiredKey(isNight, showSnow) == DayKey ==>
              (birdsReady ==> r.birds.fade == Some(Fade(s.birds.volume, volume)))
              && (!birdsReady ==> r.birds.readyListener == Some(volume))
    ensures DesiredKey(isNight, showSnow) == NightKey ==>
              (cricketsReady ==> r.crickets.fade == Some(Fade(s.crickets.volume, volume)))
              && (!cricketsReady ==> r.crickets.readyListener == Some(volume))
  {
    var key := DesiredKey(isNight, showSnow);
    match key
    case DayKey =>
      s.(birds := EnsurePlay(s.birds, volume, birdsReady), crickets := StopNow(s.crickets), current := Some(key))
    case NightKey =>
      s.(crickets := EnsurePlay(s.crickets, volume, cricketsReady), birds := StopNow(s.birds), current := Some(key))
    case Mute =>
      s.(birds := StopNow(s.birds), crickets := StopNow(s.crickets), current := Some(key))
  }

  /** The first user interaction after a blocked autoplay, as written: mark the
      driver started and apply the desired channel. The listener is created by
      the mount effect, so the key it applies is computed from the props and the
      phase of the first render (`mountShowSnow`, `mountVolume`, `MountIsNight`),
      not from the current ones: a visit that starts at night unlocks to birds. */
  function Unlock(s: AudioState, mountShowSnow: bool, mountVolume: real,
                  birdsReady: bool, cricketsReady: bool): (r: AudioState)
    ensures r.started
    ensures r.current == Some(DesiredKey(MountIsNight, mountShowSnow))
    ensures r.current != Some(NightKey)
    ensures AtMostOneAudible(r)
    ensures !mountShowSnow ==> Audible(r.birds) && Stopped(r.crickets)
    ensures mountShowSnow ==> Stopped(r.birds) && Stopped(r.crickets)
    ensures !mountShowSnow && birdsReady ==> r.birds.fade == Some(Fade(s.birds.volume, mountVolume))
    ensures !mountShowSnow && !birdsReady ==> r.birds.readyListener == Some(mountVolume)
  {
    ApplyDesired(s.(started := true), MountIsNight, mountShowSnow, mountVolume, birdsReady, cricketsReady)
  }

  /** On a visit whose phase is anything but `day`, the scene asks for
      crickets, yet the first click after a blocked autoplay starts the birds
      and silences the crickets. The key-change effect does not repair it
      until the phase changes again, because it only runs when `isNight` changes. */
  lemma NightVisitUnlocksBirds(p: Celestial.Phase, birdsReady: bool, cricketsReady: bool)
    requires p != Celestial.Day
    ensures DesiredKey(IsNight(p), false) == NightKey
    ensures var r := Unlock(Mounted, false, DefaultVolume, birdsReady, cricketsReady);
            Audible(r.birds) && Stopped(r.crickets) && r.current == Some(DayKey)
  {
  }

  /** The unlock as evidently intended: the key is read from the current phase
      and props, as the key-change effect does. */
  function UnlockIntended(s: AudioState, isNight: bool, showSnow: bool, volume: real,
                          birdsReady: bool, cricketsReady: bool): (r: AudioState)
    ensures r.started
    ensures r.current == Some(DesiredKey(isNight, showSnow))
    ensures AtMostOneAudible(r)
    ensures isNight ==>
              (cricketsReady ==> r.crickets.fade == Some(Fade(s.crickets.volume, volume)))
              && (!cricketsReady ==> r.crickets.readyListener == Some(volume))
    ensures !isNight && !showSnow ==>
              (birdsReady ==> r.birds.fade == Some(Fade(s.birds.volume, volume)))
              && (!birdsReady ==> r.birds.readyListener == Some(volume))
  {
    ApplyDesired(s.(started := true), isNight, showSnow, volume, birdsReady, cricketsReady)
  }

  /** The intended unlock plays the channel of the current phase: crickets
      exactly when the phase is not `day`, birds exactly on a snowless `day`.
      It agrees with the code on every visit that is still in the mount-time
      phase. */
  lemma IntendedUnlockFollowsPhase(s: AudioState, p: Celestial.Phase, showSnow: bool, volume: real,
                                   birdsReady: bool, cricketsReady: bool)
    ensures var r := UnlockIntended(s, IsNight(p), showSnow, volume, birdsReady, cricketsReady);
            && (Audible(r.crickets) <==> p != Celestial.Day)
            && (Audible(r.birds) <==> p == Celestial.Day && !showSnow)
    ensures UnlockIntended(s, MountIsNight, showSnow, volume, birdsReady, cricketsReady)
            == Unlock(s, showSnow, volume, birdsReady, cricketsReady)
  {
  }

  /** The effect run when `isNight` or `showSnow` changes: nothing before start,
      nothing when the desired key is already current, else `applyDesired`. */
  function Reapply(s: AudioState, isNight: bool, showSnow: bool, volume: real,
                   birdsReady: bool, cricketsReady: bool): (r: AudioState)
    ensures !s.started ==> r == s
    ensures s.current == Some(DesiredKey(isNight, showSnow)) ==> r == s
    ensures s.started ==> r.current == Some(DesiredKey(isNight, showSnow))
    ensures s.started && s.current != Some(DesiredKey(isNight, showSnow)) ==> AtMostOneAudible(r)
    ensures s.started && s.current != Some(DesiredKey(isNight, showSnow)) ==>
              r == ApplyDesired(s, isNight, showSnow, volume, birdsReady, cricketsReady)
  {
    if !s.started then s
    else if s.current == Some(DesiredKey(isNight, showSnow)) then s
    else ApplyDesired(s, isNight, showSnow, volume, birdsReady, cricketsReady)
  }

  /** Re-running the effect with an unchanged scene changes nothing. */
  lemma ReapplyIdempotent(s: AudioState, isNight: bool, showSnow: bool, volume: real,
                          birdsReady: bool, cricketsReady: bool)
    ensures var r := Reapply(s, isNight, showSnow, volume, birdsReady, cricketsReady);
            Reapply(r, isNight, showSnow, volume, birdsReady, cricketsReady) == r
  {
  }

  /** The effect run when `volume` changes: re-fade only the channel the current
      key plays; mute (or no key yet) changes nothing. */
  function OnVolume(s: AudioState, volume: real): (r: AudioState)
    ensures r.current == s.current && r.started == s.started
    ensures s.current != Some(DayKey) || !s.started ==> r.birds == s.birds
    ensures s.current != Some(NightKey) || !s.started ==> r.crickets == s.crickets
    ensures s.started && s.current == Some(DayKey) ==> r.birds.fade == Some(Fade(s.birds.volume, volume))
    ensures s.started && s.current == Some(NightKey) ==> r.crickets.fade == Some(Fade(s.crickets.volume, volume))
  {
    if !s.started then s
    else match s.current
      case Some(DayKey) => s.(birds := FadeTo(s.birds, volume))
      case Some(NightKey) => s.(crickets := FadeTo(s.crickets, volume))
      case _ => s
  }

  /** A volume change never wakes a silenced channel. */
  lemma OnVolumeKeepsStopped(s: AudioState, volume: real)
    requires s.current == Some(Mute)
    ensures OnVolume(s, volume) == s
  {
  }

  /** Teardown: pause both elements, drop the ready listeners and cancel the fades. */
  function Unmount(s: AudioState): (r: AudioState)
    ensures r.birds.fade.None? && r.birds.readyListener.None? && r.birds.paused
    ensures r.crickets.fade.None? && r.crickets.readyListener.None? && r.crickets.paused
  {
    s.(birds := s.birds.(paused := true, readyListener := None, fade := None),
       crickets := s.crickets.(paused := true, readyListener := None, fade := None))
  }

  /** After teardown no callback can change either channel: animation ticks and
      `canplaythrough` events find nothing pending. */
  lemma NothingFiresAfterUnmount(s: AudioState, elapsed: real)
    ensures Tick(Unmount(s).birds, elapsed) == Unmount(s).birds
    ensures Tick(Unmount(s).crickets, elapsed) == Unmount(s).crickets
    ensures OnReady(Unmount(s).birds) == Unmount(s).birds
    ensures OnReady(Unmount(s).crickets) == Unmount(s).crickets
  {
  }
}
