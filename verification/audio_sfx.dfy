/**
 * The sound-effect hook (hooks/useAudioSfx.ts). Each tone request passes a
 * gate: nothing plays while muted or without an audio context, and a request
 * less than 40 ms after the last tone that played is dropped. The clock
 * (`Date.now()`) is a parameter; the oscillator and gain envelope that make
 * the sound are not modelled.
 */
module AudioSfx {

  /** Minimum spacing, in milliseconds, between two tones that play. */
  const RateLimitMs: int := 40

  datatype Wave = Square | Sine | Sawtooth | Triangle

  /** The arguments of `playTone`: frequency (Hz), waveform, duration (s), peak gain. */
  datatype Tone = Tone(frequency: int, wave: Wave, duration: real, gain: real)

  const Thud := Tone(150, Square, 0.1, 0.15)
  const Click := Tone(600, Triangle, 0.05, 0.05)
  const Carriage := Tone(120, Sawtooth, 0.3, 0.2)
  const Bell := Tone(800, Sine, 0.6, 0.1)
  const Scratch := Tone(100, Sawtooth, 0.1, 0.2)

  /** `setTimeout` delays of the follow-up tones, in milliseconds. */
  const ClickDelayMs: int := 10
  const BellDelayMs: int := 100

  /**
   * A follow-up tone scheduled with `setTimeout`, due at a clock time. The
   * callback keeps the `playTone` of the render that scheduled it, and so
   * the `isMuted` of that render; the audio context and `lastPlayTime` are
   * refs and are read when it fires.
   */
  datatype Timer = Timer(due: int, tone: Tone, muted: bool)

  /** A tone that actually played, and when. */
  datatype Sounded = Sounded(at: int, tone: Tone)

  /** The gate of `playTone`: does a request at `now` play? */
  predicate Admits(muted: bool, hasContext: bool, lastPlayTime: int, now: int) {
    !muted && hasContext && now - lastPlayTime >= RateLimitMs
  }

  /**
   * A history of played tones as the gate allows it: the first at least
   * 40 ms after time 0 (the initial `lastPlayTime`), each next one at least
   * 40 ms after its predecessor.
   */
  ghost predicate Spaced(log: seq<Sounded>) {
    && (|log| > 0 ==> log[0].at >= RateLimitMs)
    && forall i :: 0 < i < |log| ==> log[i - 1].at + RateLimitMs <= log[i].at
  }

  /** In a spaced history any two played tones are at least 40 ms apart per tone between them. */
  lemma {:induction false} SpacedPairwise(log: seq<Sounded>)
    requires Spaced(log)
    ensures forall i, j :: 0 <= i < j < |log| ==> log[j].at - log[i].at >= RateLimitMs * (j - i)
    ensures |log| > 0 ==> log[0].at >= RateLimitMs
  {
    if |log| > 1 {
      var init := log[..|log| - 1];
      assert Spaced(init) by {
        forall i | 0 < i < |init| ensures init[i - 1].at + RateLimitMs <= init[i].at {
          assert init[i - 1] == log[i - 1] && init[i] == log[i];
        }
      }
      SpacedPairwise(init);
      forall i, j | 0 <= i < j < |log|
        ensures log[j].at - log[i].at >= RateLimitMs * (j - i)
      {
        if j < |log| - 1 {
          assert log[j].at - log[i].at == init[j].at - init[i].at;
        } else if i < j - 1 {
          assert log[j - 1].at - log[i].at == init[j - 1].at - init[i].at;
        }
      }
    }
  }

  /**
   * One instance of the hook. `muted` is the `isMuted` argument of the
   * current render, `hasContext` whether an audio context was created on
   * mount, `lastPlayTime` the ref of the same name; `log` records the tones
   * that played.
   */
  class Sfx {
    var muted: bool
    var hasContext: bool
    var lastPlayTime: int
    ghost var log: seq<Sounded>

    ghost predicate Valid()
      reads this
    {
      && Spaced(log)
      && lastPlayTime == (if log == [] then 0 else log[|log| - 1].at)
    }

    /** Mounting the hook: `lastPlayTime` starts at 0. */
    constructor (muted: bool, hasContext: bool)
      ensures Valid() && log == []
      ensures this.muted == muted && this.hasContext == hasContext && lastPlayTime == 0
    {
      this.muted := muted;
      this.hasContext := hasContext;
      lastPlayTime := 0;
      log := [];
    }

    /** A re-render with a new `isMuted`; the ref keeps its value. */
    method SetMuted(muted: bool)
      requires Valid()
      modifies this`muted
      ensures Valid() && this.muted == muted
    {
      this.muted := muted;
    }

    /**
     * `playTone` as defined in a render whose `isMuted` is `isMuted`: the
     * tone plays exactly when the gate admits it, and only then moves
     * `lastPlayTime`.
     */
    method PlayToneOf(isMuted: bool, tone: Tone, now: int) returns (played: bool)
      requires Valid()
      modifies this`lastPlayTime, this`log
      ensures Valid()
      ensures played == Admits(isMuted, hasContext, old(lastPlayTime), now)
      ensures lastPlayTime == (if played then now else old(lastPlayTime))
      ensures log == old(log) + (if played then [Sounded(now, tone)] else [])
    {
      played := false;
      if isMuted || !hasContext {
        return;
      }
      if now - lastPlayTime < RateLimitMs {
        return;
      }
      lastPlayTime := now;
      played := true;
      log := log + [Sounded(now, tone)];
    }

    /** `playTone` of the current render. */
    method PlayTone(tone: Tone, now: int) returns (played: bool)
      requires Valid()
      modifies this`lastPlayTime, this`log
      ensures Valid()
      ensures played == Admits(muted, hasContext, old(lastPlayTime), now)
      ensures lastPlayTime == (if played then now else old(lastPlayTime))
      ensures log == old(log) + (if played then [Sounded(now, tone)] else [])
    {
      played := PlayToneOf(muted, tone, now);
    }

    /** `playKeySound`: the thud now, the click scheduled 10 ms later. */
    method PlayKeySound(now: int) returns (thud: bool, followUp: Timer)
      requires Valid()
      modifies this`lastPlayTime, this`log
      ensures Valid()
      ensures thud == Admits(muted, hasContext, old(lastPlayTime), now)
      ensures lastPlayTime == (if thud then now else old(lastPlayTime))
      ensures log == old(log) + (if thud then [Sounded(now, Thud)] else [])
      ensures followUp == Timer(now + ClickDelayMs, Click, muted)
    {
      thud := PlayTone(Thud, now);
      followUp := Timer(now + ClickDelayMs, Click, muted);
    }

    /** `playEnterSound`: the carriage slide now, the bell scheduled 100 ms later. */
    method PlayEnterSound(now: int) returns (carriage: bool, followUp: Timer)
      requires Valid()
      modifies this`lastPlayTime, this`log
      ensures Valid()
      ensures carriage == Admits(muted, hasContext, old(lastPlayTime), now)
      ensures lastPlayTime == (if carriage then now else old(lastPlayTime))
      ensures log == old(log) + (if carriage then [Sounded(now, Carriage)] else [])
      ensures followUp == Timer(now + BellDelayMs, Bell, muted)
    {
      carriage := PlayTone(Carriage, now);
      followUp := Timer(now + BellDelayMs, Bell, muted);
    }

    /** `playBackspaceSound`: one scratch tone, no follow-up. */
    method PlayBackspaceSound(now: int) returns (scratch: bool)
      requires Valid()
      modifies this`lastPlayTime, this`log
      ensures Valid()
      ensures scratch == Admits(muted, hasContext, old(lastPlayTime), now)
      ensures lastPlayTime == (if scratch then now else old(lastPlayTime))
      ensures log == old(log) + (if scratch then [Sounded(now, Scratch)] else [])
    {
      scratch := PlayTone(Scratch, now);
    }

    /**
     * A due timer fires: its tone goes through the gate with the mute flag
     * captured when it was scheduled, whatever the current one is.
     */
    method Fire(timer: Timer, now: int) returns (played: bool)
      requires Valid()
      modifies this`lastPlayTime, this`log
      ensures Valid()
      ensures played == Admits(timer.muted, hasContext, old(lastPlayTime), now)
      ensures lastPlayTime == (if played then now else old(lastPlayTime))
      ensures log == old(log) + (if played then [Sounded(now, timer.tone)] else [])
    {
      played := PlayToneOf(timer.muted, timer.tone, now);
    }

    /** Every two tones this hook has played are at least 40 ms apart. */
    lemma PlayedTonesSpaced()
      requires Valid()
      ensures forall i, j :: 0 <= i < j < |log| ==> log[j].at - log[i].at >= RateLimitMs
    {
      SpacedPairwise(log);
    }
  }

  /** Muted, or without an audio context, nothing plays, at any time. */
  lemma SilentWhenMutedOrNoContext(muted: bool, hasContext: bool, lastPlayTime: int, now: int)
    requires muted || !hasContext
    ensures !Admits(muted, hasContext, lastPlayTime, now)
  {
  }

  /** With `lastPlayTime` still 0, the first request at time 40 or later plays. */
  lemma FirstRequestPlays(now: int)
    requires now >= RateLimitMs
    ensures Admits(false, true, 0, now)
  {
  }

  /**
   * The click of a key sound is due 10 ms after the thud; if the thud
   * played, the click plays only when its timer fires 40 ms or more after
   * the thud, so a click whose timer fires on time never plays after a
   * thud that played.
   */
  lemma ClickSwallowedByThud(muted: bool, hasContext: bool, thudAt: int, firedAt: int)
    requires firedAt < thudAt + RateLimitMs
    ensures !Admits(muted, hasContext, thudAt, firedAt)
    ensures !Admits(muted, hasContext, thudAt, thudAt + ClickDelayMs)
  {
  }

  /**
   * The bell of an enter sound is due 100 ms after the carriage request.
   * With a clock that has not gone back, and no other tone played in
   * between, the carriage tone never blocks the bell, whether or not the
   * carriage itself played.
   */
  lemma BellNotBlockedByCarriage(lastPlayTime: int, carriageAt: int, firedAt: int)
    requires lastPlayTime <= carriageAt
    requires firedAt >= carriageAt + BellDelayMs
    ensures var after := if Admits(false, true, lastPlayTime, carriageAt) then carriageAt else lastPlayTime;
      Admits(false, true, after, firedAt)
  {
  }

}
