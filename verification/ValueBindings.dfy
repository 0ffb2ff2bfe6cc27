/**
 Bindings that change the value: a consumer sets another property to something computed from its own
 value, or to nothing. A cycle of them need not come to rest. It does when one assignment of values
 to all properties agrees with every binding: a set then only ever carries values of that assignment.
 */
module ValueBindings {
  import opened Wrappers
  import P = PropertyGraph

  /** What a consumer sets its target to; `None` when it leaves it alone. */
  datatype Binding<N, !T> = Binding(target: N, transform: T -> Option<T>)

  type Network<N, !T> = map<N, seq<Binding<N, T>>>

  ghost predicate IsNetwork<N, T>(g: Network<N, T>, values: map<N, Option<T>>) {
    && values.Keys == g.Keys
    && forall n, i :: n in g && 0 <= i < |g[n]| ==> g[n][i].target in g
  }

  /** Given `x`, the binding sets its target to what is assigned to it, or leaves it alone. */
  ghost predicate Agrees<N, T>(binding: Binding<N, T>, x: T, goal: map<N, T>) {
    binding.transform(x).Some? ==> binding.target in goal && binding.transform(x).value == goal[binding.target]
  }

  ghost predicate Consistent<N, T>(g: Network<N, T>, goal: map<N, T>) {
    && goal.Keys == g.Keys
    && forall n, i :: n in g && 0 <= i < |g[n]| ==> Agrees(g[n][i], goal[n], goal)
  }

  ghost function Others<N, T>(values: map<N, Option<T>>, goal: map<N, T>): set<N> {
    set n | n in values && n in goal && values[n] != Some(goal[n])
  }

  /** Some properties took their assigned values, and the rest is as before. */
  ghost predicate Spreads<N, T>(before: map<N, Option<T>>, after: map<N, Option<T>>, goal: map<N, T>) {
    && after.Keys == before.Keys
    && forall n :: n in before && n in goal ==> after[n] == before[n] || after[n] == Some(goal[n])
  }

  /** The setter: nothing on an equal value, else set it and run all consumers. */
  ghost function Propagate<N, T>(g: Network<N, T>, goal: map<N, T>, values: map<N, Option<T>>, node: N, x: T): (r: map<N, Option<T>>)
    requires IsNetwork(g, values) && Consistent(g, goal) && node in g && x == goal[node]
    ensures Spreads(values, r, goal)
    decreases Others(values, goal), 0
  {
    if values[node] == Some(x) then values
    else
      var set' := values[node := Some(x)];
      assert node in Others(values, goal) && node !in Others(set', goal);
      assert Others(set', goal) < Others(values, goal);
      PropagateAll(g, goal, set', g[node], x)
  }

  ghost function PropagateAll<N, T>(g: Network<N, T>, goal: map<N, T>, values: map<N, Option<T>>,
      bindings: seq<Binding<N, T>>, x: T): (r: map<N, Option<T>>)
    requires IsNetwork(g, values) && Consistent(g, goal)
    requires forall i :: 0 <= i < |bindings| ==> bindings[i].target in g && Agrees(bindings[i], x, goal)
    ensures Spreads(values, r, goal)
    decreases Others(values, goal), |bindings| + 1
  {
    if |bindings| == 0 then values
    else
      assert Agrees(bindings[0], x, goal);
      var first := match bindings[0].transform(x)
                   case None => values
                   case Some(y) => Propagate(g, goal, values, bindings[0].target, y);
      assert Others(first, goal) <= Others(values, goal);
      PropagateAll(g, goal, first, bindings[1..], x)
  }

  // ----- the same, seen as spreading the mark of holding the assigned value

  /** The targets of the bindings that set something, given `x`. */
  ghost function Targets<N, T>(bindings: seq<Binding<N, T>>, x: T): seq<N> {
    if |bindings| == 0 then []
    else (if bindings[0].transform(x).Some? then [bindings[0].target] else []) + Targets(bindings[1..], x)
  }

  ghost function Active<N, T>(g: Network<N, T>, goal: map<N, T>): P.Graph<N>
    requires goal.Keys == g.Keys
  {
    map n | n in g :: Targets(g[n], goal[n])
  }

  ghost function Marks<N, T>(values: map<N, Option<T>>, goal: map<N, T>): map<N, Option<()>> {
    map n | n in values :: if n in goal && values[n] == Some(goal[n]) then Some(()) else None
  }

  lemma {:induction false} TargetsAreBound<N, T>(bindings: seq<Binding<N, T>>, x: T, nodes: set<N>)
    requires forall i :: 0 <= i < |bindings| ==> bindings[i].target in nodes
    ensures forall i :: 0 <= i < |Targets(bindings, x)| ==> Targets(bindings, x)[i] in nodes
  {
    if |bindings| != 0 {
      TargetsAreBound(bindings[1..], x, nodes);
    }
  }

  lemma ActiveIsGraph<N, T>(g: Network<N, T>, goal: map<N, T>, values: map<N, Option<T>>)
    requires IsNetwork(g, values) && Consistent(g, goal)
    ensures P.IsGraph(Active(g, goal), Marks(values, goal))
  {
    forall n | n in g ensures forall i :: 0 <= i < |Targets(g[n], goal[n])| ==> Targets(g[n], goal[n])[i] in g.Keys {
      TargetsAreBound(g[n], goal[n], g.Keys);
    }
  }

  lemma {:induction false} PropagateMarks<N, T>(g: Network<N, T>, goal: map<N, T>, values: map<N, Option<T>>, node: N, x: T)
    requires IsNetwork(g, values) && Consistent(g, goal) && node in g && x == goal[node]
    ensures P.IsGraph(Active(g, goal), Marks(values, goal))
    ensures Marks(Propagate(g, goal, values, node, x), goal) ==
              P.Propagate(Active(g, goal), {}, Marks(values, goal), node, ())
    decreases Others(values, goal), 0
  {
    ActiveIsGraph(g, goal, values);
    if values[node] != Some(x) {
      var set' := values[node := Some(x)];
      assert node in Others(values, goal) && node !in Others(set', goal);
      assert Others(set', goal) < Others(values, goal);
      assert Marks(set', goal) == Marks(values, goal)[node := Some(())];
      PropagateAllMarks(g, goal, set', g[node], x);
    }
  }

  lemma {:induction false} PropagateAllMarks<N, T>(g: Network<N, T>, goal: map<N, T>, values: map<N, Option<T>>,
      bindings: seq<Binding<N, T>>, x: T)
    requires IsNetwork(g, values) && Consistent(g, goal)
    requires forall i :: 0 <= i < |bindings| ==> bindings[i].target in g && Agrees(bindings[i], x, goal)
    ensures P.IsGraph(Active(g, goal), Marks(values, goal))
    ensures forall i :: 0 <= i < |Targets(bindings, x)| ==> Targets(bindings, x)[i] in Active(g, goal)
    ensures Marks(PropagateAll(g, goal, values, bindings, x), goal) ==
              P.PropagateAll(Active(g, goal), {}, Marks(values, goal), Targets(bindings, x), ())
    decreases Others(values, goal), |bindings| + 1
  {
    ActiveIsGraph(g, goal, values);
    TargetsAreBound(bindings, x, g.Keys);
    if |bindings| != 0 {
      match bindings[0].transform(x)
      case None =>
        PropagateAllMarks(g, goal, values, bindings[1..], x);
        assert Targets(bindings, x) == Targets(bindings[1..], x);
      case Some(y) =>
        var first := Propagate(g, goal, values, bindings[0].target, y);
        assert Others(first, goal) <= Others(values, goal);
        PropagateMarks(g, goal, values, bindings[0].target, y);
        PropagateAllMarks(g, goal, first, bindings[1..], x);
        assert Targets(bindings, x)[1..] == Targets(bindings[1..], x);
    }
  }

  /**
   Whatever the cycles, a set that agrees with a consistent assignment terminates, and exactly those
   properties take their assigned values that are reachable over the bindings that set something,
   through properties that do not hold theirs already.
   */
  lemma PropagationReachesGoal<N, T>(g: Network<N, T>, goal: map<N, T>, values: map<N, Option<T>>, node: N, x: T, n: N)
    requires IsNetwork(g, values) && Consistent(g, goal) && node in g && x == goal[node] && n in g
    ensures Propagate(g, goal, values, node, x)[n] ==
              if P.Reaches(Active(g, goal), P.Free(Marks(values, goal), {}, ()), node, n) then Some(goal[n]) else values[n]
  {
    PropagateMarks(g, goal, values, node, x);
    P.PropagationIsReachability(Active(g, goal), {}, Marks(values, goal), node, (), n);
    var r := Propagate(g, goal, values, node, x);
    assert Marks(r, goal)[n] == P.Propagate(Active(g, goal), {}, Marks(values, goal), node, ())[n];
  }

  // ----- the format of a script and the two radio buttons that choose it

  datatype Widget = Format | Groovy | Kotlin

  datatype Value = Script(groovy: bool) | Checked(checked: bool)

  /** `format` drives each button by a comparison; a checked button sets `format` to its constant. */
  function Radios(): Network<Widget, Value> {
    map[Format := [Binding(Groovy, (v: Value) => if v.Script? then Some(Checked(v.groovy)) else None),
                   Binding(Kotlin, (v: Value) => if v.Script? then Some(Checked(!v.groovy)) else None)],
        Groovy := [Binding(Format, (v: Value) => if v == Checked(true) then Some(Script(true)) else None)],
        Kotlin := [Binding(Format, (v: Value) => if v == Checked(true) then Some(Script(false)) else None)]]
  }

  function Chosen(groovy: bool): map<Widget, Value> {
    map[Format := Script(groovy), Groovy := Checked(groovy), Kotlin := Checked(!groovy)]
  }

  ghost function Held(groovy: bool): map<Widget, Option<Value>> {
    map w | w in Chosen(groovy) :: Some(Chosen(groovy)[w])
  }

  lemma ChoiceIsConsistent(groovy: bool, values: map<Widget, Option<Value>>)
    requires values.Keys == {Format, Groovy, Kotlin}
    ensures IsNetwork(Radios(), values) && Consistent(Radios(), Chosen(groovy))
  {
  }

  lemma ActiveRadios(groovy: bool)
    ensures Active(Radios(), Chosen(groovy))[Format] == [Groovy, Kotlin]
    ensures Active(Radios(), Chosen(groovy))[if groovy then Groovy else Kotlin] == [Format]
  {
    var g, goal := Radios(), Chosen(groovy);
    var first, second := g[Format][0], g[Format][1];
    assert g[Format][1..] == [second];
    assert Targets([second], goal[Format]) == [Kotlin] by {
      assert [second][1..] == [];
    }
    var button := if groovy then Groovy else Kotlin;
    assert g[button][1..] == [];
  }

  lemma RadiosReach(groovy: bool, node: Widget, n: Widget)
    requires node == Format || node == (if groovy then Groovy else Kotlin)
    ensures P.Reaches(Active(Radios(), Chosen(groovy)), {Format, Groovy, Kotlin}, node, n)
  {
    ActiveRadios(groovy);
    var active := Active(Radios(), Chosen(groovy));
    assert active.Keys == {Format, Groovy, Kotlin};
    var chain := if node == n then [n] else if node == Format || n == Format then [node, n] else [node, Format, n];
    assert P.IsChain(active, {Format, Groovy, Kotlin}, chain, node, n);
  }

  lemma OthersAreFree(before: bool, groovy: bool)
    requires before != groovy
    ensures P.Free(Marks(Held(before), Chosen(groovy)), {}, ()) == {Format, Groovy, Kotlin}
  {
    var marks := Marks(Held(before), Chosen(groovy));
    assert marks.Keys == {Format, Groovy, Kotlin};
    assert forall n :: n in marks ==> marks[n] == None;
  }

  lemma WidgetSettles(before: bool, groovy: bool, node: Widget, n: Widget)
    requires before != groovy
    requires node == Format || node == (if groovy then Groovy else Kotlin)
    ensures IsNetwork(Radios(), Held(before)) && Consistent(Radios(), Chosen(groovy)) && n in Radios() && n in Chosen(groovy)
    ensures Propagate(Radios(), Chosen(groovy), Held(before), node, Chosen(groovy)[node])[n] == Some(Chosen(groovy)[n])
  {
    ChoiceIsConsistent(groovy, Held(before));
    OthersAreFree(before, groovy);
    RadiosReach(groovy, node, n);
    PropagationReachesGoal(Radios(), Chosen(groovy), Held(before), node, Chosen(groovy)[node], n);
  }

  /**
   Setting the format, or checking a button, comes to rest with the format and both buttons on the
   choice, whatever was chosen before.
   */
  lemma ChoosingSettles(before: bool, groovy: bool, node: Widget)
    requires node == Format || node == (if groovy then Groovy else Kotlin)
    ensures IsNetwork(Radios(), Held(before)) && Consistent(Radios(), Chosen(groovy))
    ensures Propagate(Radios(), Chosen(groovy), Held(before), node, Chosen(groovy)[node]) == Held(groovy)
  {
    ChoiceIsConsistent(groovy, Held(before));
    var r := Propagate(Radios(), Chosen(groovy), Held(before), node, Chosen(groovy)[node]);
    forall n: Widget ensures n in r && r[n] == Some(Chosen(groovy)[n]) {
      assert n in {Format, Groovy, Kotlin} by {
        match n
        case Format =>
        case Groovy =>
        case Kotlin =>
      }
      if before == groovy {
        assert r == Held(before);
      } else {
        WidgetSettles(before, groovy, node, n);
      }
    }
    HeldByAll(r, groovy);
  }

  lemma HeldByAll(values: map<Widget, Option<Value>>, groovy: bool)
    requires forall w: Widget :: w in Chosen(groovy) && w in values && values[w] == Some(Chosen(groovy)[w])
    ensures values == Held(groovy)
  {
  }
}
