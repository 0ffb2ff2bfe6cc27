/**
 The completion synchronizer: actions registered before a start each report once through `process`, and
 the completion handler fires when the reports have caught up with the list of actions. A managed
 synchronizer runs its actions one after the other, taking each off the list.
 */
module Synchronization {
  import opened Wrappers

  datatype State<A> = State(
    actions: seq<A>,
    managed: bool,
    counter: nat,
    done: bool,
    visiting: nat,      // actions at the end of the list that a start has still to call
    ran: seq<A>,        // actions called, in order
    starts: nat,        // calls of the start handler
    completions: nat)   // calls of the completion handler
  {
    ghost predicate Valid() { visiting <= |actions| }
  }

  function Ready<A>(actions: seq<A>, managed: bool): State<A> {
    State(actions, managed, 0, false, 0, [], 0, 0)
  }

  // ----- one call

  /** Takes the first action off the list and calls it. */
  function Shift<A>(s: State<A>): State<A> {
    if |s.actions| == 0 then s else s.(actions := s.actions[1..], ran := s.ran + [s.actions[0]])
  }

  /** Up to the first action: an unmanaged start goes on with `Visit`. */
  function Start<A>(s: State<A>): State<A> {
    if s.counter == |s.actions| then s.(completions := s.completions + 1)
    else
      var t := s.(starts := s.starts + 1);
      if !t.managed then t.(visiting := |t.actions|) else Shift(t)
  }

  function Visit<A>(s: State<A>): State<A>
    requires s.Valid() && s.visiting > 0
  {
    s.(visiting := s.visiting - 1, ran := s.ran + [s.actions[|s.actions| - s.visiting]])
  }

  function Process<A>(s: State<A>): State<A> {
    var t := s.(counter := s.counter + 1);
    if t.counter >= |t.actions| then t.(done := true, completions := t.completions + 1)
    else if t.managed then Shift(t)
    else t
  }

  // ----- runs: every called action reports once, at any later time

  datatype Step = Visiting | Processing

  ghost predicate Enabled<A>(s: State<A>, step: Step) {
    match step
    case Visiting => s.Valid() && s.visiting > 0
    case Processing => s.counter < |s.ran|
  }

  ghost function Next<A>(s: State<A>, step: Step): State<A>
    requires Enabled(s, step)
  {
    match step
    case Visiting => Visit(s)
    case Processing => Process(s)
  }

  ghost function Run<A>(s: State<A>, steps: seq<Step>): Option<State<A>> {
    var n := |steps|;
    if n == 0 then Some(s)
    else
      var t := Run(s, steps[..n - 1]);
      if t.Some? && Enabled(t.value, steps[n - 1]) then Some(Next(t.value, steps[n - 1])) else None
  }

  ghost predicate IsOver<A>(s: State<A>) {
    !Enabled(s, Visiting) && !Enabled(s, Processing)
  }

  function Reports(steps: seq<Step>): nat {
    var n := |steps|;
    if n == 0 then 0 else Reports(steps[..n - 1]) + (if steps[n - 1] == Processing then 1 else 0)
  }

  /**
   Unmanaged, with at least one action: in every interleaving of calls and reports the completion handler
   has fired exactly when every action has reported, and then once; `done` says the same. The run ends,
   and it ends with all actions called and completed.
   */
  lemma {:induction false} UnmanagedCompletesOnce<A>(actions: seq<A>, steps: seq<Step>)
    requires |actions| >= 1
    requires Run(Start(Ready(actions, false)), steps).Some?
    ensures var s := Run(Start(Ready(actions, false)), steps).value;
            && s.actions == actions && s.starts == 1 && !s.managed
            && s.counter == Reports(steps) <= |actions|
            && s.completions == (if Reports(steps) == |actions| then 1 else 0)
            && (s.done <==> Reports(steps) == |actions|)
    ensures var s := Run(Start(Ready(actions, false)), steps).value;
            && s.Valid() && s.ran == actions[..|actions| - s.visiting] && s.counter <= |s.ran|
            && |steps| == |s.ran| + s.counter <= 2 * |actions|
            && (IsOver(s) ==> s.ran == actions && s.completions == 1)
  {
    UnmanagedRun(actions, steps);
  }

  ghost predicate UnmanagedAccounted<A>(s: State<A>, actions: seq<A>, reports: nat) {
    && s.actions == actions && s.starts == 1 && !s.managed && s.Valid()
    && s.ran == actions[..|actions| - s.visiting]
    && s.counter == reports <= |s.ran|
    && s.completions == (if reports == |actions| then 1 else 0)
    && (s.done <==> reports == |actions|)
  }

  lemma UnmanagedStep<A>(s: State<A>, actions: seq<A>, reports: nat, step: Step)
    requires UnmanagedAccounted(s, actions, reports) && Enabled(s, step)
    ensures UnmanagedAccounted(Next(s, step), actions, reports + (if step.Processing? then 1 else 0))
  {
  }

  lemma {:induction false} UnmanagedRun<A>(actions: seq<A>, steps: seq<Step>)
    requires |actions| >= 1
    requires Run(Start(Ready(actions, false)), steps).Some?
    ensures var s := Run(Start(Ready(actions, false)), steps).value;
            UnmanagedAccounted(s, actions, Reports(steps)) && |steps| == |s.ran| + s.counter
  {
    var n := |steps|;
    if n != 0 {
      UnmanagedRun(actions, steps[..n - 1]);
      UnmanagedStep(Run(Start(Ready(actions, false)), steps[..n - 1]).value, actions, Reports(steps[..n - 1]), steps[n - 1]);
    }
  }

  /**
   Managed, with at least one action: the list shrinks while the counter grows, so completion fires, once,
   when half of the actions, rounded up, have run; the others never run.
   */
  lemma {:induction false} ManagedRunsHalf<A>(actions: seq<A>, steps: seq<Step>)
    requires |actions| >= 1
    requires Run(Start(Ready(actions, true)), steps).Some?
    ensures var s := Run(Start(Ready(actions, true)), steps).value;
            var k := |s.ran|;
            && 1 <= k <= (|actions| + 1) / 2
            && s.ran == actions[..k] && s.actions == actions[k..] && s.managed && s.visiting == 0
            && s.counter == Reports(steps) == (if s.done then k else k - 1)
    ensures var s := Run(Start(Ready(actions, true)), steps).value;
            && (s.done <==> Reports(steps) == (|actions| + 1) / 2)
            && s.completions == (if s.done then 1 else 0)
            && (IsOver(s) ==> s.done)
  {
    var n := |steps|;
    if n != 0 {
      ManagedRunsHalf(actions, steps[..n - 1]);
    }
  }

  /** A managed synchronizer runs all its actions before completing exactly when there is just one. */
  lemma ManagedRunsAll<A>(actions: seq<A>, steps: seq<Step>)
    requires |actions| >= 1
    requires Run(Start(Ready(actions, true)), steps).Some?
    requires IsOver(Run(Start(Ready(actions, true)), steps).value)
    ensures Run(Start(Ready(actions, true)), steps).value.ran == actions <==> |actions| == 1
  {
    ManagedRunsHalf(actions, steps);
  }

  /** Without actions a start completes at once, without announcing itself and without setting `done`. */
  lemma NothingToStart<A>(managed: bool)
    ensures var s := Start(Ready<A>([], managed));
            s.completions == 1 && s.starts == 0 && !s.done && IsOver(s)
  {
  }

  // ----- too many reports

  function ProcessTimes<A>(s: State<A>, k: nat): State<A> {
    if k == 0 then s else Process(ProcessTimes(s, k - 1))
  }

  /** Nothing guards against surplus reports: each one after the last action's fires completion again. */
  lemma {:induction false} SurplusReportsCompleteAgain<A>(s: State<A>, k: nat)
    requires !s.managed && s.counter == 0 && !s.done
    requires |s.actions| >= 1
    ensures var t := ProcessTimes(s, k);
            && t == s.(counter := k, done := t.done, completions := t.completions)
            && (t.done <==> k >= |s.actions|)
            && t.completions - s.completions == if k >= |s.actions| then k - |s.actions| + 1 else 0
  {
    if k != 0 {
      SurplusReportsCompleteAgain(s, k - 1);
    }
  }

  // ----- actions that report before they return

  /** A report together with those of the actions it starts that report synchronously. */
  ghost function Processed<A>(s: State<A>, synchronous: A -> bool): (t: State<A>)
    ensures s.Valid() && (s.managed ==> s.visiting == 0) ==> t.Valid()
    ensures t.managed == s.managed && t.visiting == s.visiting
    ensures !s.managed ==> t.actions == s.actions
    decreases |s.actions|
  {
    var t := Process(s);
    if |t.ran| > |s.ran| && synchronous(t.ran[|t.ran| - 1]) then Processed(t, synchronous) else t
  }

  /** The rest of an unmanaged start. */
  ghost function Visited<A>(s: State<A>, synchronous: A -> bool): State<A>
    requires s.Valid() && !s.managed
    decreases s.visiting
  {
    if s.visiting == 0 then s
    else
      var t := Visit(s);
      Visited(if synchronous(t.ran[|t.ran| - 1]) then Processed(t, synchronous) else t, synchronous)
  }

  /** One turn of the loop of a start. */
  lemma VisitedStep<A>(s: State<A>, synchronous: A -> bool)
    requires s.Valid() && !s.managed && s.visiting > 0
    ensures var t := Visit(s);
            && t.ran == s.ran + [s.actions[|s.actions| - s.visiting]]
            && Visited(s, synchronous)
                 == Visited(if synchronous(s.actions[|s.actions| - s.visiting]) then Processed(t, synchronous) else t, synchronous)
  {
    var t := Visit(s);
    assert t.ran[|t.ran| - 1] == s.actions[|s.actions| - s.visiting];
  }

  ghost function Started<A>(s: State<A>, synchronous: A -> bool): State<A>
    requires s.visiting == 0
  {
    var t := Start(s);
    if !s.managed then Visited(t, synchronous)
    else if |t.ran| > |s.ran| && synchronous(t.ran[|t.ran| - 1]) then Processed(t, synchronous)
    else t
  }

  lemma RunSnoc<A>(s: State<A>, steps: seq<Step>, step: Step)
    ensures Run(s, steps + [step]) ==
              var t := Run(s, steps);
              if t.Some? && Enabled(t.value, step) then Some(Next(t.value, step)) else None
  {
    assert (steps + [step])[..|steps|] == steps;
  }

  lemma {:induction false} RunConcat<A>(s: State<A>, first: seq<Step>, second: seq<Step>)
    requires Run(s, first).Some?
    ensures Run(s, first + second) == Run(Run(s, first).value, second)
  {
    var n := |second|;
    if n == 0 {
      assert first + second == first;
    } else {
      var front := second[..n - 1];
      RunConcat(s, first, front);
      RunSnoc(s, first + front, second[n - 1]);
      assert first + second == first + front + [second[n - 1]];
      RunSnoc(Run(s, first).value, front, second[n - 1]);
      assert second == front + [second[n - 1]];
    }
  }

  lemma RunStep<A>(s: State<A>, step: Step)
    requires Enabled(s, step)
    ensures Run(s, [step]) == Some(Next(s, step))
  {
    assert [step][..0] == [];
  }

  lemma {:induction false} ProcessedIsRun<A>(s: State<A>, synchronous: A -> bool) returns (steps: seq<Step>)
    requires Enabled(s, Processing)
    ensures Run(s, steps) == Some(Processed(s, synchronous))
    decreases |s.actions|
  {
    var t := Process(s);
    RunStep(s, Processing);
    steps := [Processing];
    if |t.ran| > |s.ran| && synchronous(t.ran[|t.ran| - 1]) {
      var rest := ProcessedIsRun(t, synchronous);
      RunConcat(s, steps, rest);
      steps := steps + rest;
    }
  }

  lemma {:induction false} VisitedIsRun<A>(s: State<A>, synchronous: A -> bool) returns (steps: seq<Step>)
    requires s.Valid() && !s.managed && s.counter <= |s.ran|
    ensures Run(s, steps) == Some(Visited(s, synchronous))
    decreases s.visiting
  {
    steps := [];
    if s.visiting != 0 {
      var t := Visit(s);
      RunStep(s, Visiting);
      steps := [Visiting];
      if synchronous(t.ran[|t.ran| - 1]) {
        RunStep(t, Processing);
        RunConcat(s, steps, [Processing]);
        steps := steps + [Processing];
        t := Process(t);
      }
      var rest := VisitedIsRun(t, synchronous);
      RunConcat(s, steps, rest);
      steps := steps + rest;
    }
  }

  /** Whatever actions report before they return, a start is one of the runs above. */
  lemma StartedIsRun<A>(s: State<A>, synchronous: A -> bool) returns (steps: seq<Step>)
    requires s.visiting == 0 && s.counter <= |s.ran|
    ensures Run(Start(s), steps) == Some(Started(s, synchronous))
  {
    var t := Start(s);
    if !s.managed {
      steps := VisitedIsRun(t, synchronous);
    } else if |t.ran| > |s.ran| && synchronous(t.ran[|t.ran| - 1]) {
      steps := ProcessedIsRun(t, synchronous);
    } else {
      steps := [];
    }
  }

  // ----- the synchronizer itself

  class Synchronizer<A> {
    var actions: seq<A>
    var isManaged: bool
    var counter: nat
    var done: bool

    // What the synchronizer called: actions, start handler, completion handler.
    var ran: seq<A>
    var starts: nat
    var completions: nat

    // What the loop of a start has still to call.
    ghost var visiting: nat

    ghost function View(): State<A>
      reads this
    {
      State(actions, isManaged, counter, done, visiting, ran, starts, completions)
    }

    constructor ()
      ensures View() == Ready([], false)
    {
      actions, isManaged, counter, done := [], false, 0, false;
      ran, starts, completions, visiting := [], 0, 0, 0;
    }

    method Managed()
      modifies this
      ensures View() == old(View()).(managed := true)
    {
      isManaged := true;
    }

    method Action(action: A)
      modifies this
      ensures View() == old(View()).(actions := old(actions) + [action])
    {
      actions := actions + [action];
    }

    method Reset()
      modifies this
      ensures View() == old(View()).(actions := [], counter := 0, done := false)
    {
      actions, counter, done := [], 0, false;
    }

    method RunFirst(synchronous: A -> bool)
      requires |actions| > 0 && visiting == 0 && isManaged
      modifies this
      ensures var t := Shift(old(View()));
              View() == if synchronous(old(actions)[0]) then Processed(t, synchronous) else t
      decreases |actions|, 0
    {
      var action := actions[0];
      actions := actions[1..];
      ran := ran + [action];
      if synchronous(action) {
        Process(synchronous);
      }
    }

    /** `synchronous` tells which actions call `process` before they return. */
    method Process(synchronous: A -> bool)
      requires isManaged ==> visiting == 0
      modifies this
      ensures View() == Processed(old(View()), synchronous)
      decreases |actions|, 1
    {
      counter := counter + 1;
      if counter >= |actions| {
        done := true;
        completions := completions + 1;
        return;
      }
      if isManaged {
        if |actions| > 0 {
          RunFirst(synchronous);
        }
      }
    }

    /** One turn of the loop: the action is called, and may report before it returns. */
    method RunOne(i: nat, synchronous: A -> bool)
      requires i < |actions| && visiting == |actions| - i && !isManaged
      modifies this
      ensures View() ==
                var t := Visit(old(View()));
                if synchronous(old(actions)[i]) then Processed(t, synchronous) else t
    {
      ran := ran + [actions[i]];
      visiting := visiting - 1;
      if synchronous(actions[i]) {
        Process(synchronous);
      }
    }

    method RunAll(synchronous: A -> bool)
      requires !isManaged && visiting == |actions|
      modifies this
      ensures View() == Visited(old(View()), synchronous)
    {
      var i := 0;
      ghost var end := Visited(View(), synchronous);
      while i < |actions|
        invariant 0 <= i <= |actions| && visiting == |actions| - i && !isManaged
        invariant Visited(View(), synchronous) == end
        decreases visiting
      {
        VisitedStep(View(), synchronous);
        RunOne(i, synchronous);
        i := i + 1;
      }
    }

    method Start(synchronous: A -> bool)
      requires visiting == 0
      modifies this
      ensures View() == Started(old(View()), synchronous)
    {
      if counter == |actions| {
        completions := completions + 1;
        return;
      }
      starts := starts + 1;
      if !isManaged {
        visiting := |actions|;
        RunAll(synchronous);
        return;
      }
      if |actions| > 0 {
        RunFirst(synchronous);
      }
    }
  }
}
