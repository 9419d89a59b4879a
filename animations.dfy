/**
 * The animation state machine (src/c/animations.c, types in
 * src/c/animations.h). An `AnimationState` holds the animation kind, its
 * progress and fade, whether it is running, its frame timer and the layer to
 * redraw. Each frame the timer callback advances the progress by 0.02, fades
 * out over the last 0.3, stops at 1.0 and otherwise re-registers a 33 ms
 * timer. Timers and layers are opaque handles; registering and cancelling
 * timers and marking the layer dirty are recorded as events. Progress and fade
 * are single-precision floats in the source and exact reals here.
 */
module Animations {
  import opened Options
  import opened Common
  import Sideload
  import RandomPop
  import Matrix

  /** `AnimationType`: `ANIM_NONE` and the three load animations. */
  datatype AnimationType = AnimNone | AnimWaveFill | AnimRandomPop | AnimMatrix

  /** An `AppTimer *`: `NULL`, or the handle `app_timer_register` returned. */
  datatype Timer = NoTimer | Handle(id: nat)

  /** The platform calls the state machine makes. */
  datatype Event = Cancel(id: nat) | Register(id: nat, ms: int) | MarkDirty(layer: nat)

  /** The fields of an `AnimationState`, as a value. */
  datatype Anim = Anim(kind: AnimationType, progress: real, fade: real, active: bool, timer: Timer, layer: Option<nat>)

  /** The frame period of the animation timer, in milliseconds. */
  const FRAME_MS: int := 33

  /** Progress gained per frame. */
  const STEP: real := 0.02

  /** The three kinds that animate; every other kind stops on its first update. */
  predicate Animates(k: AnimationType)
  {
    k == AnimWaveFill || k == AnimRandomPop || k == AnimMatrix
  }

  // ---------------------------------------------------------------------------
  // The transitions, on values; the class below performs them in place
  // ---------------------------------------------------------------------------

  /** `animations_init`: no animation, progress 0, full fade, inactive, no timer, no layer. */
  function Initial(): Anim
  {
    Anim(AnimNone, 0.0, 1.0, false, NoTimer, None)
  }

  /** Cancelling the timer if there is one. */
  function CancelIfSet(t: Timer): (es: seq<Event>)
    ensures t == NoTimer <==> es == []
    ensures t.Handle? ==> es == [Cancel(t.id)]
  {
    if t.Handle? then [Cancel(t.id)] else []
  }

  /** `animations_stop`: cancel and clear the timer, then deactivate. */
  function AfterStop(a: Anim): (Anim, seq<Event>)
  {
    (a.(active := false, timer := NoTimer), CancelIfSet(a.timer))
  }

  /** `animations_start_load` apart from the reseed: cancel any timer, reset, activate and register a new frame timer `handle`. */
  function AfterStart(a: Anim, kind: AnimationType, handle: nat): (Anim, seq<Event>)
  {
    (Anim(kind, 0.0, 1.0, true, Handle(handle), a.layer), CancelIfSet(a.timer) + [Register(handle, FRAME_MS)])
  }

  /** The fade set once the progress reaches 0.7: falling linearly from 1 to 0 over the next 0.3, never below 0. */
  function FadeOut(p: real): real
  {
    var f := 1.0 - (p - 0.7) / 0.3;
    if f < 0.0 then 0.0 else f
  }

  /** `animations_update`. */
  function AfterUpdate(a: Anim): (Anim, seq<Event>)
  {
    if !a.active then (a, [])
    else if !Animates(a.kind) then AfterStop(a)
    else
      var p := a.progress + STEP;
      var b := a.(progress := p, fade := if p >= 0.7 then FadeOut(p) else a.fade);
      if p >= 1.0 then AfterStop(b) else (b, [])
  }

  /** `animation_timer_callback` for the timer that fired, with `handle` the timer a re-registration would return. */
  function AfterCallback(a: Anim, handle: nat): (Anim, seq<Event>)
  {
    var u := AfterUpdate(a);
    var b := u.0;
    var redraw := if b.layer.Some? then [MarkDirty(b.layer.value)] else [];
    if b.active then (b.(timer := Handle(handle)), u.1 + redraw + [Register(handle, FRAME_MS)])
    else (b, u.1 + redraw)
  }

  /** The reseed of `animations_start_load`: the time `t`, as `uint32_t`, plus the low byte of the value `v` just drawn. */
  function Reseed(v: bv32, t: bv32): bv32
  {
    t + (v & 0xFF)
  }

  /** `animations_draw`: nothing when inactive, otherwise the one generator `kind` names, fed with the state's fade. */
  function FrameFills(a: Anim, g: GridParams, waveRow: real, cellProgress: int -> real, view: (int, int) -> Matrix.ColumnView,
                      waveSeed: bv32, popSeed: bv32, matrixSeed: bv32): seq<Fill>
  {
    if !a.active then []
    else match a.kind
      case AnimWaveFill => Sideload.Fills(g, waveRow, a.fade, waveSeed)
      case AnimRandomPop => RandomPop.Fills(g, cellProgress, a.fade, popSeed)
      case AnimMatrix => Matrix.Fills(g, view, matrixSeed)
      case AnimNone => []
  }

  // ---------------------------------------------------------------------------
  // The state, updated in place
  // ---------------------------------------------------------------------------

  class AnimationState {
    var kind: AnimationType
    var progress: real
    var fade: real
    var active: bool
    var timer: Timer
    var layer: Option<nat>
    /** The platform calls made so far, in order. */
    ghost var log: seq<Event>

    function Snapshot(): Anim
      reads this
    {
      Anim(kind, progress, fade, active, timer, layer)
    }

    /** Storage for the state; `Init` then sets it as `animations_init` does. */
    constructor ()
      ensures Snapshot() == Initial() && log == []
    {
      kind := AnimNone;
      progress := 0.0;
      fade := 1.0;
      active := false;
      timer := NoTimer;
      layer := None;
      log := [];
    }

    /** `animations_init`, with `now` the value of `time(NULL)` and `rng` the file-local generator. */
    method Init(rng: Lcg, now: int)
      modifies this, rng
      ensures Snapshot() == Initial() && log == old(log)
      ensures rng.seed == U32(now)
    {
      kind := AnimNone;
      progress := 0.0;
      fade := 1.0;
      active := false;
      timer := NoTimer;
      layer := None;
      rng.seed := U32(now);
    }

    /** `animations_start_load`, with `now` the value of `time(NULL)` and `handle` what `app_timer_register` returns. */
    method StartLoad(rng: Lcg, k: AnimationType, now: int, handle: nat)
      modifies this, rng
      ensures Snapshot() == AfterStart(old(Snapshot()), k, handle).0
      ensures log == old(log) + AfterStart(old(Snapshot()), k, handle).1
      ensures rng.seed == Reseed(Step(old(rng.seed)), U32(now))
    {
      if timer.Handle? {
        log := log + [Cancel(timer.id)];
      }
      kind := k;
      progress := 0.0;
      fade := 1.0;
      active := true;
      var v := rng.Next();
      rng.seed := Reseed(v, U32(now));
      timer := Handle(handle);
      log := log + [Register(handle, FRAME_MS)];
    }

    /** `animations_stop`. */
    method Stop()
      modifies this
      ensures Snapshot() == AfterStop(old(Snapshot())).0
      ensures log == old(log) + AfterStop(old(Snapshot())).1
    {
      if timer.Handle? {
        log := log + [Cancel(timer.id)];
        timer := NoTimer;
      }
      active := false;
    }

    /** `animations_update`. */
    method Update()
      modifies this
      ensures Snapshot() == AfterUpdate(old(Snapshot())).0
      ensures log == old(log) + AfterUpdate(old(Snapshot())).1
    {
      if !active {
        return;
      }
      if kind == AnimWaveFill || kind == AnimRandomPop || kind == AnimMatrix {
        progress := progress + STEP;
        if progress >= 0.7 {
          fade := 1.0 - (progress - 0.7) / 0.3;
          if fade < 0.0 {
            fade := 0.0;
          }
        }
        if progress >= 1.0 {
          Stop();
        }
      } else {
        Stop();
      }
    }

    /** `animation_timer_callback`, with `handle` what `app_timer_register` returns. */
    method TimerCallback(handle: nat)
      modifies this
      ensures Snapshot() == AfterCallback(old(Snapshot()), handle).0
      ensures log == old(log) + AfterCallback(old(Snapshot()), handle).1
    {
      Update();
      if layer.Some? {
        log := log + [MarkDirty(layer.value)];
      }
      if active {
        timer := Handle(handle);
        log := log + [Register(handle, FRAME_MS)];
      }
    }

    /**
     * `animations_draw`. The generators take the floating-point quantities
     * they derive from this state's progress as inputs (`waveRow`,
     * `cellProgress`, `view`); each has its own file-local generator.
     */
    method Draw(g: GridParams, waveRow: real, cellProgress: int -> real, view: (int, int) -> Matrix.ColumnView,
                waveRng: Lcg, popRng: Lcg, matrixRng: Lcg) returns (fills: seq<Fill>)
      modifies waveRng, popRng, matrixRng
      ensures fills == FrameFills(Snapshot(), g, waveRow, cellProgress, view, old(waveRng.seed), old(popRng.seed), old(matrixRng.seed))
      ensures waveRng.seed == old(waveRng.seed) && popRng.seed == old(popRng.seed) && matrixRng.seed == old(matrixRng.seed)
    {
      fills := [];
      if !active {
        return;
      }
      match kind
      case AnimWaveFill =>
        fills := Sideload.Draw(waveRng, g, waveRow, fade);
      case AnimRandomPop =>
        fills := RandomPop.Draw(popRng, g, cellProgress, fade);
      case AnimMatrix =>
        fills := Matrix.Draw(matrixRng, g, view);
      case AnimNone =>
    }

    /** `animations_is_active`. */
    method IsActive() returns (b: bool)
      ensures b == Snapshot().active
    {
      b := active;
    }
  }

  // ---------------------------------------------------------------------------
  // Properties of the state machine
  // ---------------------------------------------------------------------------

  /**
   * The invariant every transition keeps: the progress is non-negative and
   * the fade is the one the progress dictates; a running animation has a
   * timer and is below progress 1; a stopped one has none.
   */
  predicate Valid(a: Anim)
  {
    && 0.0 <= a.progress
    && a.fade == (if a.progress >= 0.7 then FadeOut(a.progress) else 1.0)
    && (a.active ==> a.timer.Handle? && a.progress < 1.0)
    && (!a.active ==> a.timer == NoTimer)
  }

  lemma InitialValid()
    ensures Valid(Initial())
  {
  }

  lemma StartValid(a: Anim, k: AnimationType, handle: nat)
    ensures Valid(AfterStart(a, k, handle).0)
  {
  }

  lemma StopValid(a: Anim)
    requires Valid(a)
    ensures Valid(AfterStop(a).0)
  {
  }

  lemma UpdateValid(a: Anim)
    requires Valid(a)
    ensures Valid(AfterUpdate(a).0)
  {
  }

  lemma CallbackValid(a: Anim, handle: nat)
    requires Valid(a)
    ensures Valid(AfterCallback(a, handle).0)
  {
    UpdateValid(a);
  }

  /** Stopping leaves the state inactive without a timer and touches nothing else; a second stop changes nothing and calls nothing. */
  lemma StopIdempotent(a: Anim)
    ensures var s := AfterStop(a).0;
            && !s.active && s.timer == NoTimer
            && s.(active := a.active, timer := a.timer) == a
            && AfterStop(s) == (s, [])
  {
  }

  /** Starting cancels the old timer, if any, before registering the new one, and resets the animation to its start. */
  lemma StartOrder(a: Anim, k: AnimationType, handle: nat)
    ensures var (s, es) := AfterStart(a, k, handle);
            && s.kind == k && s.progress == 0.0 && s.fade == 1.0 && s.active && s.timer == Handle(handle)
            && es[|es| - 1] == Register(handle, FRAME_MS)
            && (a.timer.Handle? <==> |es| == 2)
            && (a.timer.Handle? ==> es[0] == Cancel(a.timer.id))
  {
  }

  /** Updating a stopped animation changes nothing and calls nothing. */
  lemma UpdateInactive(a: Anim)
    requires !a.active
    ensures AfterUpdate(a) == (a, [])
  {
  }

  /** Updating a running animation of a kind that does not animate, `ANIM_NONE` among them, stops it. */
  lemma UpdateNonAnimatingStops(a: Anim)
    requires a.active && !Animates(a.kind)
    ensures AfterUpdate(a) == AfterStop(a)
    ensures !AfterUpdate(a).0.active
  {
  }

  /** A running animation advances by one step per update, and stops exactly when the advanced progress reaches 1. */
  lemma UpdateAdvances(a: Anim)
    requires a.active && Animates(a.kind)
    ensures AfterUpdate(a).0.progress == a.progress + STEP
    ensures !AfterUpdate(a).0.active <==> a.progress + STEP >= 1.0
  {
  }

  /** The callback registers a new timer if and only if the animation is still running after its update, and marks the layer dirty whenever there is one. */
  lemma CallbackRegistersIffActive(a: Anim, handle: nat)
    requires Valid(a)
    ensures var (b, es) := AfterCallback(a, handle);
            && (Register(handle, FRAME_MS) in es <==> AfterUpdate(a).0.active)
            && (AfterUpdate(a).0.active <==> b.timer == Handle(handle))
            && (a.layer.Some? ==> MarkDirty(a.layer.value) in es)
            && (a.layer == None ==> forall e :: e in es ==> !e.MarkDirty?)
  {
    var u := AfterUpdate(a);
    assert u.0.layer == a.layer;
    assert forall e :: e in u.1 ==> e.Cancel?;
  }

  /** After `animations_start_load(ANIM_NONE)` the state reports active until its first update, which stops it and cancels the new timer. */
  lemma StartNoneStopsAtOnce(a: Anim, handle: nat)
    ensures AfterStart(a, AnimNone, handle).0.active
    ensures AfterUpdate(AfterStart(a, AnimNone, handle).0) == (AfterStart(a, AnimNone, handle).0.(active := false, timer := NoTimer), [Cancel(handle)])
  {
  }

  /** The fade stays within [0, 1], never rises as the progress grows, and is 0 from progress 1 on. */
  lemma FadeShape(p: real, q: real)
    requires 0.0 <= p <= q
    ensures var fp := if p >= 0.7 then FadeOut(p) else 1.0;
            var fq := if q >= 0.7 then FadeOut(q) else 1.0;
            && 0.0 <= fp <= 1.0
            && fq <= fp
            && (q >= 1.0 ==> fq == 0.0)
  {
  }

  /** The seed `animations_start_load` sets is at most 255 above the time, modulo 2^32. */
  lemma ReseedNearTime(v: bv32, t: bv32)
    ensures Reseed(v, t) - t <= 0xFF
  {
    var low := v & 0xFF;
    assert low <= 0xFF;
    assert (t + low) - t == low;
  }

  /** A stopped animation draws nothing, whatever its kind. */
  lemma InactiveDrawsNothing(a: Anim, g: GridParams, waveRow: real, cellProgress: int -> real, view: (int, int) -> Matrix.ColumnView,
                             waveSeed: bv32, popSeed: bv32, matrixSeed: bv32)
    requires !a.active || a.kind == AnimNone
    ensures FrameFills(a, g, waveRow, cellProgress, view, waveSeed, popSeed, matrixSeed) == []
  {
  }
  /** The state after `n` successive `animations_update` calls. */
  function Ticks(a: Anim, n: nat): Anim
    decreases n
  {
    if n == 0 then a else AfterUpdate(Ticks(a, n - 1)).0
  }

  /**
   * A running animation of an animating kind keeps its kind, stays running
   * exactly as long as its progress advanced by one step per update is below
   * 1, and while running its progress is the start progress plus one step per
   * update.
   */
  lemma {:induction false} TicksExact(a: Anim, n: nat)
    requires a.active && Animates(a.kind) && a.progress < 1.0
    ensures Ticks(a, n).kind == a.kind
    ensures Ticks(a, n).active <==> a.progress + n as real * STEP < 1.0
    ensures Ticks(a, n).active ==> Ticks(a, n).progress == a.progress + n as real * STEP
    decreases n
  {
    if n > 0 {
      TicksExact(a, n - 1);
      var b := Ticks(a, n - 1);
      if !b.active {
        assert Ticks(a, n) == b;
      }
    }
  }

  /** Counted in exact arithmetic, a started run stays active for 49 updates and the 50th stops it. */
  lemma RunLength(a: Anim, k: AnimationType, handle: nat, n: nat)
    requires Animates(k)
    ensures Ticks(AfterStart(a, k, handle).0, n).active <==> n < 50
  {
    TicksExact(AfterStart(a, k, handle).0, n);
  }
}
