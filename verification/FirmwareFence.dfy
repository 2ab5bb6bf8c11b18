/** The completion fence between asynchronous firmware setup and driver removal
    (0003-wait-for-pcie-firmware-setup.patch), as a protocol of threads over shared state. */
module FirmwareFence {
  import opened Errno

  /** The patched order and fence, and what they replace. `fenced`: removal waits for the completion.
      `signalFirst`: failed setup signals before it releases the driver, not after. */
  datatype Variant = Variant(fenced: bool, signalFirst: bool)

  /** The firmware loader's callback: it has `uses` accesses to the device state left and will succeed or
      fail; a failing one hands over to its own release of the driver. */
  datatype Setup = Working(uses: nat, fails: bool) | Handing | Ended

  /** A thread in device_release_driver. Thread 0 belongs to the failing setup and starts idle. */
  datatype Release = Idle | Want | Locked | Removing | Unlocking | Finished

  datatype State = State(
    setup: Setup,
    threads: seq<Release>,
    lock: Option<nat>,     // holder of the device lock
    bound: bool,           // the driver is bound; its remove has not freed the state
    completed: bool,       // fw_setup_done
    freed: nat,            // how often the state was freed
    touchedFreed: bool)    // somebody used the state after it was freed

  datatype Action = SetupStep | ReleaseStep(i: nat)

  /** One step of the setup callback. */
  function StepSetup(v: Variant, s: State): Option<State>
    requires |s.threads| > 0
  {
    match s.setup
    case Working(uses, fails) =>
      if uses > 0 then
        Some(s.(setup := Working(uses - 1, fails), touchedFreed := s.touchedFreed || s.freed > 0))
      else if !fails then
        Some(s.(setup := Ended, completed := true, touchedFreed := s.touchedFreed || s.freed > 0))
      else if v.signalFirst then
        Some(s.(setup := Ended, completed := true, threads := s.threads[0 := Want],
                touchedFreed := s.touchedFreed || s.freed > 0))
      else Some(s.(setup := Handing, threads := s.threads[0 := Want]))
    case Handing =>
      if s.threads[0] == Finished
      then Some(s.(setup := Ended, completed := true, touchedFreed := s.touchedFreed || s.freed > 0))
      else None
    case Ended => None
  }

  /** One step of a thread releasing the driver. */
  function StepRelease(v: Variant, s: State, i: nat): Option<State>
    requires i < |s.threads|
  {
    match s.threads[i]
    case Idle => None
    case Want => if s.lock == None then Some(s.(threads := s.threads[i := Locked], lock := Some(i))) else None
    case Locked => Some(s.(threads := s.threads[i := if s.bound then Removing else Unlocking]))
    case Removing =>
      if v.fenced && !s.completed then None
      else Some(s.(threads := s.threads[i := Unlocking], bound := false, freed := s.freed + 1,
                   touchedFreed := s.touchedFreed || s.freed > 0))
    case Unlocking => Some(s.(threads := s.threads[i := Finished], lock := None))
    case Finished => None
  }

  function Step(v: Variant, s: State, a: Action): Option<State>
    requires |s.threads| > 0
  {
    match a
    case SetupStep => StepSetup(v, s)
    case ReleaseStep(i) => if i < |s.threads| then StepRelease(v, s, i) else None
  }

  /** The probe has returned, nobody removes yet; `removers` threads will want to. */
  predicate Initial(s: State) {
    && s.setup.Working? && |s.threads| > 0
    && s.threads[0] == Idle && (forall i :: 1 <= i < |s.threads| ==> s.threads[i] == Want)
    && s.lock == None && s.bound && !s.completed && s.freed == 0 && !s.touchedFreed
  }

  /** The state after these actions; an action that cannot happen now is skipped. */
  function Run(v: Variant, s: State, actions: seq<Action>): (r: State)
    requires |s.threads| > 0
    ensures |r.threads| == |s.threads|
  {
    if actions == [] then s
    else
      var t := Run(v, s, actions[..|actions| - 1]);
      var next := Step(v, t, actions[|actions| - 1]);
      if next == None then t else next.value
  }

  const PATCHED: Variant := Variant(true, true)

  predicate Holds(r: Release) {
    r == Locked || r == Removing || r == Unlocking
  }

  /** What every reachable state of the patched protocol satisfies. */
  predicate Invariant(s: State) {
    && |s.threads| > 0
    && !s.touchedFreed && s.freed == (if s.bound then 0 else 1)
    && (s.completed <==> s.setup == Ended) && s.setup != Handing
    && (!s.completed ==> s.bound && s.threads[0] == Idle)
    && (s.lock.Some? ==> s.lock.value < |s.threads|)
    && (forall i :: 0 <= i < |s.threads| ==> (Holds(s.threads[i]) <==> s.lock == Some(i)))
    && (forall i :: 0 <= i < |s.threads| && s.threads[i] == Removing ==> s.bound)
    && (forall i :: 1 <= i < |s.threads| ==> s.threads[i] != Idle)
  }

  lemma StepKeepsInvariant(s: State, a: Action)
    requires |s.threads| > 0 && Invariant(s)
    ensures Step(PATCHED, s, a).Some? ==> Invariant(Step(PATCHED, s, a).value)
  {
    hide Invariant, StepSetup, StepRelease;
    if a.SetupStep? {
      SetupKeepsInvariant(s);
    } else if a.i < |s.threads| {
      ReleaseKeepsInvariant(s, a.i);
    }
  }

  lemma SetupKeepsInvariant(s: State)
    requires |s.threads| > 0 && Invariant(s)
    ensures StepSetup(PATCHED, s).Some? ==> Invariant(StepSetup(PATCHED, s).value)
  {
  }

  lemma ReleaseKeepsInvariant(s: State, i: nat)
    requires i < |s.threads| && Invariant(s)
    ensures StepRelease(PATCHED, s, i).Some? ==> Invariant(StepRelease(PATCHED, s, i).value)
  {
  }

  /** In every interleaving the device state is freed at most once and never used after it was freed. */
  lemma {:induction false} NeverTouchedAfterFree(s: State, actions: seq<Action>)
    requires Initial(s)
    ensures var t := Run(PATCHED, s, actions);
      Invariant(t) && !t.touchedFreed && t.freed <= 1 && (t.freed == 1 ==> t.completed)
  {
    if actions != [] {
      NeverTouchedAfterFree(s, actions[..|actions| - 1]);
      StepKeepsInvariant(Run(PATCHED, s, actions[..|actions| - 1]), actions[|actions| - 1]);
    }
  }

  /** Everybody is through. */
  predicate Settled(s: State) {
    s.setup == Ended && forall i :: 0 <= i < |s.threads| ==> s.threads[i] == Idle || s.threads[i] == Finished
  }

  /** No reachable state is stuck: as long as somebody is not through, somebody can move. */
  lemma NoDeadlock(s: State, actions: seq<Action>) returns (a: Action)
    requires Initial(s)
    ensures var t := Run(PATCHED, s, actions); Settled(t) || Step(PATCHED, t, a).Some?
  {
    NeverTouchedAfterFree(s, actions);
    var t := Run(PATCHED, s, actions);
    a := SetupStep;
    if t.setup == Ended {
      if t.lock.Some? {
        a := ReleaseStep(t.lock.value);
      } else if i :| 0 <= i < |t.threads| && t.threads[i] == Want {
        a := ReleaseStep(i);
      }
    }
  }

  // ---------- Every run ends ----------

  function Left(r: Release): nat {
    match r
    case Idle => 5 case Want => 4 case Locked => 3 case Removing => 2 case Unlocking => 1 case Finished => 0
  }

  function Total(threads: seq<Release>): nat {
    if threads == [] then 0 else Total(threads[..|threads| - 1]) + Left(threads[|threads| - 1])
  }

  /** Steps that can still happen at most. */
  function Measure(s: State): nat {
    Total(s.threads) + match s.setup case Working(uses, _) => uses + 2 case Handing => 1 case Ended => 0
  }

  lemma {:induction false} TotalDrops(threads: seq<Release>, i: nat, r: Release)
    requires i < |threads| && Left(r) < Left(threads[i])
    ensures Total(threads[i := r]) < Total(threads)
    decreases |threads|
  {
    var n := |threads| - 1;
    if i < n {
      TotalDrops(threads[..n], i, r);
      assert threads[i := r][..n] == threads[..n][i := r];
    } else {
      assert threads[i := r][..n] == threads[..n];
    }
  }

  /** Every step, of any thread and in any state, uses up some of the measure: no run goes on for ever. */
  lemma EveryStepCounts(v: Variant, s: State, a: Action)
    requires |s.threads| > 0 && Step(v, s, a).Some?
    requires s.setup.Working? ==> s.threads[0] == Idle
    ensures Measure(Step(v, s, a).value) < Measure(s)
  {
    hide Measure, StepSetup, StepRelease;
    match a
    case SetupStep => SetupCounts(v, s);
    case ReleaseStep(i) => ReleaseCounts(v, s, i);
  }

  lemma SetupCounts(v: Variant, s: State)
    requires |s.threads| > 0 && StepSetup(v, s).Some?
    requires s.setup.Working? ==> s.threads[0] == Idle
    ensures Measure(StepSetup(v, s).value) < Measure(s)
  {
    hide Total;
    if s.setup.Working? && s.setup.uses == 0 && s.setup.fails {
      TotalDrops(s.threads, 0, Want);
    }
  }

  lemma ReleaseCounts(v: Variant, s: State, i: nat)
    requires i < |s.threads| && StepRelease(v, s, i).Some?
    ensures Measure(StepRelease(v, s, i).value) < Measure(s)
  {
    hide Total;
    var r := StepRelease(v, s, i).value.threads[i];
    assert StepRelease(v, s, i).value.threads == s.threads[i := r];
    TotalDrops(s.threads, i, r);
  }

  /** How many of these actions happen in a run. */
  function Happened(v: Variant, s: State, actions: seq<Action>): nat
    requires |s.threads| > 0
  {
    if actions == [] then 0
    else
      var front := actions[..|actions| - 1];
      Happened(v, s, front) + if Step(v, Run(v, s, front), actions[|actions| - 1]).Some? then 1 else 0
  }

  /** Until setup is over its own release has not begun. */
  predicate NotHanded(s: State) {
    |s.threads| > 0 && (s.setup.Working? ==> s.threads[0] == Idle)
  }

  lemma StepKeepsNotHanded(v: Variant, s: State, a: Action)
    requires NotHanded(s)
    ensures Step(v, s, a).Some? ==> NotHanded(Step(v, s, a).value)
  {
  }

  /** In a run of any variant no more steps happen than the measure of its initial state. */
  lemma {:induction false} RunsEnd(v: Variant, s: State, actions: seq<Action>)
    requires Initial(s)
    ensures NotHanded(Run(v, s, actions))
    ensures Happened(v, s, actions) + Measure(Run(v, s, actions)) <= Measure(s)
  {
    hide Measure, Step;
    if actions != [] {
      var front, a := actions[..|actions| - 1], actions[|actions| - 1];
      RunsEnd(v, s, front);
      var t := Run(v, s, front);
      if Step(v, t, a).Some? {
        EveryStepCounts(v, t, a);
        StepKeepsNotHanded(v, t, a);
      }
    }
  }

  /** From every reachable state of the patched protocol everybody gets through. */
  lemma {:induction false} EverybodyFinishes(s: State, actions: seq<Action>) returns (more: seq<Action>)
    requires Initial(s)
    ensures actions <= more && Settled(Run(PATCHED, s, more))
    decreases Measure(Run(PATCHED, s, actions))
  {
    hide Measure, Step, Settled;
    var t := Run(PATCHED, s, actions);
    var a := NoDeadlock(s, actions);
    more := actions;
    if !Settled(t) {
      var longer := actions + [a];
      assert longer[..|longer| - 1] == actions;
      RunsEnd(PATCHED, s, actions);
      EveryStepCounts(PATCHED, t, a);
      more := EverybodyFinishes(s, longer);
    }
  }

  // ---------- Why both halves of the patch are needed ----------

  /** A variant is right if no run touches freed state and none gets stuck. */
  ghost predicate Right(v: Variant) {
    forall s: State, actions: seq<Action> :: Initial(s) ==>
      var t := Run(v, s, actions);
      !t.touchedFreed && (Settled(t) || exists a :: Step(v, t, a).Some?)
  }

  /** Taking a possible action continues a run. */
  lemma RunMore(v: Variant, s: State, actions: seq<Action>, t: State, a: Action, next: State) returns (more: seq<Action>)
    requires |s.threads| > 0 && Run(v, s, actions) == t && Step(v, t, a) == Some(next)
    ensures Run(v, s, more) == next
  {
    more := actions + [a];
    assert more[..|actions|] == actions;
  }

  /** Without the fence a remover frees the state under a callback that still works. */
  lemma UnfencedTouchesFreed(v: Variant)
    requires !v.fenced
    ensures !Right(v)
  {
    var s0 := State(Working(1, false), [Idle, Want], None, true, false, 0, false);
    var s1 := s0.(threads := s0.threads[1 := Locked], lock := Some(1));
    var s2 := s1.(threads := s1.threads[1 := Removing]);
    var s3 := s2.(threads := s2.threads[1 := Unlocking], bound := false, freed := 1);
    var s4 := s3.(setup := Working(0, false), touchedFreed := true);
    var r := ReleaseStep(1);
    var actions := RunMore(v, s0, [], s0, r, s1);
    hide Run;
    actions := RunMore(v, s0, actions, s1, r, s2);
    actions := RunMore(v, s0, actions, s2, r, s3);
    actions := RunMore(v, s0, actions, s3, SetupStep, s4);
    assert Initial(s0) && Run(v, s0, actions).touchedFreed;
  }

  /** With the fence, signalling only after the release deadlocks with a remover that waits under the lock. */
  lemma LateSignalDeadlocks(v: Variant)
    requires v.fenced && !v.signalFirst
    ensures !Right(v)
  {
    var s0 := State(Working(0, true), [Idle, Want], None, true, false, 0, false);
    var s1 := s0.(threads := s0.threads[1 := Locked], lock := Some(1));
    var s2 := s1.(threads := s1.threads[1 := Removing]);
    var s3 := s2.(setup := Handing, threads := s2.threads[0 := Want]);
    var r := ReleaseStep(1);
    var actions := RunMore(v, s0, [], s0, r, s1);
    hide Run;
    actions := RunMore(v, s0, actions, s1, r, s2);
    actions := RunMore(v, s0, actions, s2, SetupStep, s3);
    forall a ensures Step(v, s3, a).None? {
      if a.ReleaseStep? && a.i < 2 {
        assert a.i == 0 || a.i == 1;
      }
    }
    assert Initial(s0) && !Settled(s3);
  }

  /** The patched order and fence are right, and they are the only right variant. */
  lemma OnlyPatchedIsRight(v: Variant)
    ensures Right(v) <==> v == PATCHED
  {
    if v == PATCHED {
      forall s: State, actions: seq<Action> | Initial(s)
        ensures var t := Run(v, s, actions); !t.touchedFreed && (Settled(t) || exists a :: Step(v, t, a).Some?)
      {
        NeverTouchedAfterFree(s, actions);
        var a := NoDeadlock(s, actions);
      }
    } else if !v.fenced {
      UnfencedTouchesFreed(v);
    } else {
      LateSignalDeadlocks(v);
    }
  }
}
