/**
 Reactive properties. A property notifies its consumers synchronously when its value changes; binding
 properties with `consume(other.set)` gives a graph that may contain cycles, and only the equality
 check of the setter stops a value from going round.
 */
module PropertyGraph {
  import opened Wrappers

  /** The consumers of every property, in the order they were added. */
  type Graph<N> = map<N, seq<N>>

  ghost predicate IsGraph<N, T>(g: Graph<N>, values: map<N, Option<T>>) {
    && values.Keys == g.Keys
    && forall n, i :: n in g && 0 <= i < |g[n]| ==> g[n][i] in g
  }

  ghost function Others<N, T>(values: map<N, Option<T>>, x: T): set<N> {
    set n | n in values && values[n] != Some(x)
  }

  /** Some properties took the value `x`, none of them vetoing it, and the rest is as before. */
  ghost predicate Spreads<N, T>(before: map<N, Option<T>>, after: map<N, Option<T>>, vetoing: set<N>, x: T) {
    && after.Keys == before.Keys
    && forall n :: n in before ==>
         after[n] == before[n] || (before[n] != Some(x) && n !in vetoing && after[n] == Some(x))
  }

  /** Setting `x` on one property: nothing on an equal value or a veto, else set it and notify all consumers. */
  ghost function Propagate<N, T>(g: Graph<N>, vetoing: set<N>, values: map<N, Option<T>>, node: N, x: T): (r: map<N, Option<T>>)
    requires IsGraph(g, values) && node in g
    ensures Spreads(values, r, vetoing, x)
    decreases Others(values, x), 0
  {
    if values[node] == Some(x) || node in vetoing then values
    else
      var set' := values[node := Some(x)];
      assert node in Others(values, x) && node !in Others(set', x);
      assert Others(set', x) < Others(values, x);
      PropagateAll(g, vetoing, set', g[node], x)
  }

  ghost function PropagateAll<N, T>(g: Graph<N>, vetoing: set<N>, values: map<N, Option<T>>, targets: seq<N>, x: T): (r: map<N, Option<T>>)
    requires IsGraph(g, values) && forall i :: 0 <= i < |targets| ==> targets[i] in g
    ensures Spreads(values, r, vetoing, x)
    decreases Others(values, x), |targets| + 1
  {
    if |targets| == 0 then values
    else
      var first := Propagate(g, vetoing, values, targets[0], x);
      assert Others(first, x) <= Others(values, x);
      PropagateAll(g, vetoing, first, targets[1..], x)
  }

  // ----- completeness: what took the value has passed it on

  ghost predicate Settled<N, T>(values: map<N, Option<T>>, vetoing: set<N>, n: N, x: T) {
    n in values && (values[n] == Some(x) || n in vetoing)
  }

  ghost predicate PassedOn<N, T>(g: Graph<N>, vetoing: set<N>, before: map<N, Option<T>>, after: map<N, Option<T>>, x: T) {
    forall n, i :: n in g && n in before && n in after && before[n] != after[n] && 0 <= i < |g[n]| ==>
      Settled(after, vetoing, g[n][i], x)
  }

  lemma {:induction false} PropagatePassesOn<N, T>(g: Graph<N>, vetoing: set<N>, values: map<N, Option<T>>, node: N, x: T)
    requires IsGraph(g, values) && node in g
    ensures PassedOn(g, vetoing, values, Propagate(g, vetoing, values, node, x), x)
    ensures Settled(Propagate(g, vetoing, values, node, x), vetoing, node, x)
    decreases Others(values, x), 0
  {
    if !(values[node] == Some(x) || node in vetoing) {
      var set' := values[node := Some(x)];
      assert node in Others(values, x) && node !in Others(set', x);
      assert Others(set', x) < Others(values, x);
      PropagateAllPassesOn(g, vetoing, set', g[node], x);
    }
  }

  lemma {:induction false} PropagateAllPassesOn<N, T>(g: Graph<N>, vetoing: set<N>, values: map<N, Option<T>>, targets: seq<N>, x: T)
    requires IsGraph(g, values) && forall i :: 0 <= i < |targets| ==> targets[i] in g
    ensures PassedOn(g, vetoing, values, PropagateAll(g, vetoing, values, targets, x), x)
    ensures forall i :: 0 <= i < |targets| ==> Settled(PropagateAll(g, vetoing, values, targets, x), vetoing, targets[i], x)
    decreases Others(values, x), |targets| + 1
  {
    if |targets| != 0 {
      var first := Propagate(g, vetoing, values, targets[0], x);
      assert Others(first, x) <= Others(values, x);
      PropagatePassesOn(g, vetoing, values, targets[0], x);
      PropagateAllPassesOn(g, vetoing, first, targets[1..], x);
    }
  }

  // ----- soundness: what took the value is reachable

  /** A chain of bindings from `a` to `b` through properties of `free` only. */
  ghost predicate IsChain<N>(g: Graph<N>, free: set<N>, older chain: seq<N>, a: N, b: N) {
    && |chain| > 0 && chain[0] == a && chain[|chain| - 1] == b
    && (forall i :: 0 <= i < |chain| ==> chain[i] in free && chain[i] in g)
    && (forall i :: 0 <= i < |chain| - 1 ==> chain[i + 1] in g[chain[i]])
  }

  ghost predicate Reaches<N>(g: Graph<N>, free: set<N>, a: N, b: N) {
    exists chain :: IsChain(g, free, chain, a, b)
  }

  /** The properties that would take the value. */
  ghost function Free<N, T>(values: map<N, Option<T>>, vetoing: set<N>, x: T): set<N> {
    set n | n in values && values[n] != Some(x) && n !in vetoing
  }

  lemma ChainGrows<N>(g: Graph<N>, free: set<N>, a: N, b: N, c: N)
    requires a in free && a in g && b in g[a] && Reaches(g, free, b, c)
    ensures Reaches(g, free, a, c)
  {
    var chain :| IsChain(g, free, chain, b, c);
    assert IsChain(g, free, [a] + chain, a, c);
  }

  lemma ChainWidens<N>(g: Graph<N>, free: set<N>, more: set<N>, a: N, b: N)
    requires Reaches(g, free, a, b) && free <= more
    ensures Reaches(g, more, a, b)
  {
    var chain :| IsChain(g, free, chain, a, b);
    assert IsChain(g, more, chain, a, b);
  }

  ghost predicate TookFrom<N, T>(g: Graph<N>, free: set<N>, before: map<N, Option<T>>, after: map<N, Option<T>>, source: N) {
    forall n :: n in before && n in after && before[n] != after[n] ==> Reaches(g, free, source, n)
  }

  lemma {:induction false} PropagateStaysInReach<N, T>(g: Graph<N>, vetoing: set<N>, values: map<N, Option<T>>, node: N, x: T)
    requires IsGraph(g, values) && node in g
    ensures TookFrom(g, Free(values, vetoing, x), values, Propagate(g, vetoing, values, node, x), node)
    decreases Others(values, x), 0
  {
    if !(values[node] == Some(x) || node in vetoing) {
      var set' := values[node := Some(x)];
      var free := Free(values, vetoing, x);
      assert node in Others(values, x) && node !in Others(set', x);
      assert Others(set', x) < Others(values, x);
      assert IsChain(g, free, [node], node, node);
      var r := PropagateAll(g, vetoing, set', g[node], x);
      forall n | n in values && values[n] != r[n] && n != node ensures Reaches(g, free, node, n) {
        var i := PropagateAllStaysInReach(g, vetoing, set', g[node], x, n);
        ChainWidens(g, Free(set', vetoing, x), free, g[node][i], n);
        ChainGrows(g, free, node, g[node][i], n);
      }
    }
  }

  /** A property that changed was reached from one of the targets. */
  lemma {:induction false} PropagateAllStaysInReach<N, T>(
      g: Graph<N>, vetoing: set<N>, values: map<N, Option<T>>, targets: seq<N>, x: T, n: N) returns (i: nat)
    requires IsGraph(g, values) && forall k :: 0 <= k < |targets| ==> targets[k] in g
    requires n in values && values[n] != PropagateAll(g, vetoing, values, targets, x)[n]
    ensures i < |targets| && Reaches(g, Free(values, vetoing, x), targets[i], n)
    decreases Others(values, x), |targets| + 1
  {
    var first := Propagate(g, vetoing, values, targets[0], x);
    assert Others(first, x) <= Others(values, x);
    if values[n] != first[n] {
      i := 0;
      PropagateStaysInReach(g, vetoing, values, targets[0], x);
    } else {
      var k := PropagateAllStaysInReach(g, vetoing, first, targets[1..], x, n);
      i := k + 1;
      ChainWidens(g, Free(first, vetoing, x), Free(values, vetoing, x), targets[i], n);
    }
  }

  // ----- the main results

  /** Along a chain of properties that would take the value, all do. */
  lemma {:induction false} ChainTakesValue<N, T>(
      g: Graph<N>, vetoing: set<N>, before: map<N, Option<T>>, after: map<N, Option<T>>, x: T, chain: seq<N>, a: N, b: N)
    requires IsGraph(g, before) && Spreads(before, after, vetoing, x) && PassedOn(g, vetoing, before, after, x)
    requires IsChain(g, Free(before, vetoing, x), chain, a, b)
    requires Settled(after, vetoing, a, x)
    ensures after[b] == Some(x)
    decreases |chain|
  {
    if |chain| > 1 {
      assert chain[1] in g[chain[0]];
      var i :| 0 <= i < |g[a]| && g[a][i] == chain[1];
      assert Settled(after, vetoing, g[a][i], x);
      ChainTakesValue(g, vetoing, before, after, x, chain[1..], chain[1], b);
    }
  }

  /**
   For every finite graph of bindings, cyclic or not, setting a value terminates, and exactly those
   properties take it that are reachable from the set one through properties that neither hold the
   value already nor veto it.
   */
  lemma PropagationIsReachability<N, T>(
      g: Graph<N>, vetoing: set<N>, values: map<N, Option<T>>, node: N, x: T, n: N)
    requires IsGraph(g, values) && node in g && n in g
    ensures Propagate(g, vetoing, values, node, x)[n] ==
              if Reaches(g, Free(values, vetoing, x), node, n) then Some(x) else values[n]
  {
    var r := Propagate(g, vetoing, values, node, x);
    PropagatePassesOn(g, vetoing, values, node, x);
    PropagateStaysInReach(g, vetoing, values, node, x);
    if Reaches(g, Free(values, vetoing, x), node, n) {
      var chain :| IsChain(g, Free(values, vetoing, x), chain, node, n);
      ChainTakesValue(g, vetoing, values, r, x, chain, node, n);
    }
  }

  ghost predicate Symmetric<N>(g: Graph<N>) {
    forall a, b :: a in g && b in g && b in g[a] ==> a in g[b]
  }

  /** Bound properties hold the same value. */
  ghost predicate Agreed<N, T>(g: Graph<N>, values: map<N, Option<T>>) {
    forall a, b :: a in g && b in g && b in g[a] && a in values && b in values ==> values[a] == values[b]
  }

  lemma {:induction false} AgreedAlongChain<N, T>(g: Graph<N>, values: map<N, Option<T>>, chain: seq<N>, a: N, b: N)
    requires IsGraph(g, values) && Agreed(g, values) && IsChain(g, g.Keys, chain, a, b)
    ensures forall i :: 0 <= i < |chain| ==> values[chain[i]] == values[a]
    decreases |chain|
  {
    if |chain| > 1 {
      assert chain[1] in g[chain[0]];
      AgreedAlongChain(g, values, chain[1..], chain[1], b);
    }
  }

  /**
   On two-way bindings whose properties agreed before, the whole connected component takes the value,
   and nothing else changes.
   */
  lemma ComponentTakesValue<N, T>(g: Graph<N>, values: map<N, Option<T>>, node: N, x: T, n: N)
    requires IsGraph(g, values) && node in g && n in g
    requires Agreed(g, values)
    ensures Propagate(g, {}, values, node, x)[n] == if Reaches(g, g.Keys, node, n) then Some(x) else values[n]
  {
    var free := Free(values, {}, x);
    PropagationIsReachability(g, {}, values, node, x, n);
    if Reaches(g, g.Keys, node, n) {
      var chain :| IsChain(g, g.Keys, chain, node, n);
      AgreedAlongChain(g, values, chain, node, n);
      if values[node] != Some(x) {
        assert IsChain(g, free, chain, node, n);
      } else {
        assert chain[|chain| - 1] == n;
      }
    } else if Reaches(g, free, node, n) {
      ChainWidens(g, free, g.Keys, node, n);
    }
  }

  /** Two-way bindings keep agreeing, whatever is set. */
  lemma SetKeepsAgreement<N, T>(g: Graph<N>, values: map<N, Option<T>>, node: N, x: T)
    requires IsGraph(g, values) && node in g && Symmetric(g) && Agreed(g, values)
    ensures Agreed(g, Propagate(g, {}, values, node, x))
  {
    var r := Propagate(g, {}, values, node, x);
    PropagatePassesOn(g, {}, values, node, x);
    forall a, b | a in g && b in g && b in g[a] ensures r[a] == r[b] {
      EndsOfBinding(g, values, r, a, b, x);
    }
  }

  lemma EndsOfBinding<N, T>(g: Graph<N>, values: map<N, Option<T>>, r: map<N, Option<T>>, a: N, b: N, x: T)
    requires IsGraph(g, values) && Spreads(values, r, {}, x) && PassedOn(g, {}, values, r, x)
    requires a in g && b in g && b in g[a] && a in g[b] && values[a] == values[b]
    ensures r[a] == r[b]
  {
    var i :| 0 <= i < |g[a]| && g[a][i] == b;
    var k :| 0 <= k < |g[b]| && g[b][k] == a;
    assert r[a] != values[a] ==> Settled(r, {}, g[a][i], x);
    assert r[b] != values[b] ==> Settled(r, {}, g[b][k], x);
  }

  // ----- binding two properties

  /** `a.consume(b.set)`: the binding is added, and a pending value of `a` is pushed to `b` at once. */
  ghost function Bound<N>(g: Graph<N>, a: N, b: N): Graph<N>
    requires a in g
  {
    g[a := g[a] + [b]]
  }

  ghost function Pushed<N, T>(g: Graph<N>, values: map<N, Option<T>>, b: N, pending: Option<T>): map<N, Option<T>>
    requires IsGraph(g, values) && b in g
  {
    match pending
    case None => values
    case Some(x) => Propagate(g, {}, values, b, x)
  }

  lemma BoundBothWays<N, T>(g: Graph<N>, values: map<N, Option<T>>, a: N, b: N)
    requires IsGraph(g, values) && Symmetric(g) && a in g && b in g
    ensures IsGraph(Bound(g, a, b), values)
    ensures IsGraph(Bound(Bound(g, a, b), b, a), values) && Symmetric(Bound(Bound(g, a, b), b, a))
    ensures b in Bound(Bound(g, a, b), b, a)[a]
    ensures forall p, q :: p in g && q in g[p] ==> q in Bound(g, a, b)[p] && q in Bound(Bound(g, a, b), b, a)[p]
  {
  }

  /**
   Binding two properties both ways makes the bindings agree exactly when one of the two was set
   before, or both hold the same value: a value given to the constructor only is not pending.
   */
  lemma TwoWayBindingAgrees<N, T>(g: Graph<N>, values: map<N, Option<T>>, a: N, b: N, pendingA: Option<T>, pendingB: Option<T>)
    requires IsGraph(g, values) && Symmetric(g) && Agreed(g, values)
    requires a in g && b in g
    requires (pendingA.Some? ==> pendingA == values[a]) && (pendingB.Some? ==> pendingB == values[b])
    ensures var g1 := Bound(g, a, b);
            var g2 := Bound(g1, b, a);
            && IsGraph(g1, values) && IsGraph(g2, values) && Symmetric(g2)
            && var v1 := Pushed(g1, values, b, pendingA);
               var v2 := Pushed(g2, v1, a, if pendingA.Some? then pendingA else pendingB);
               Agreed(g2, v2) <==> pendingA.Some? || pendingB.Some? || values[a] == values[b]
  {
    var g1 := Bound(g, a, b);
    var g2 := Bound(g1, b, a);
    BoundBothWays(g, values, a, b);
    var v1 := Pushed(g1, values, b, pendingA);
    var v2 := Pushed(g2, v1, a, if pendingA.Some? then pendingA else pendingB);
    if pendingA.Some? {
      PropagatePassesOn(g1, {}, values, b, pendingA.value);
      assert v2 == v1;
      NewBindingAgrees(g, g1, values, v1, a, b, pendingA.value);
    } else if pendingB.Some? {
      PropagatePassesOn(g2, {}, values, a, pendingB.value);
      NewBindingAgrees(g, g2, values, v2, a, b, pendingB.value);
    }
  }

  /** Old bindings keep agreeing when a value spreads over them, and the new one agrees on that value. */
  lemma NewBindingAgrees<N, T>(g: Graph<N>, more: Graph<N>, values: map<N, Option<T>>, r: map<N, Option<T>>, a: N, b: N, x: T)
    requires IsGraph(g, values) && IsGraph(more, values) && Symmetric(g) && Agreed(g, values)
    requires a in g && b in g
    requires forall p, q :: p in g && q in g[p] ==> q in more[p]
    requires Spreads(values, r, {}, x) && PassedOn(more, {}, values, r, x)
    requires r[a] == Some(x) == r[b]
    ensures Agreed(Bound(Bound(g, a, b), b, a), r)
  {
    var g2 := Bound(Bound(g, a, b), b, a);
    forall p, q | p in g2 && q in g2 && q in g2[p] ensures r[p] == r[q] {
      if q in g[p] {
        EndsOfBinding(more, values, r, p, q, x);
      }
    }
  }

  // ----- the property object

  /** A property whose consumers are the setters of other properties. */
  class Property<T(==)> {
    var value: Option<T>
    var previous: Option<T>
    var pending: Option<T>
    var beforeUpdate: seq<T -> bool>
    var afterUpdate: seq<Property<T>>
    var onClear: seq<nat>  // the actions to run when the property is cleared
    var ran: seq<nat>      // those that have run

    /** The value given here is not pending: a later consumer is not notified of it. */
    constructor (value: Option<T>)
      ensures this.value == value && previous == None && pending == None
      ensures beforeUpdate == [] && afterUpdate == [] && onClear == [] && ran == []
    {
      this.value, previous, pending := value, None, None;
      beforeUpdate, afterUpdate, onClear, ran := [], [], [], [];
    }

    ghost predicate Vetoes(x: T)
      reads this`beforeUpdate
    {
      exists i :: 0 <= i < |beforeUpdate| && !beforeUpdate[i](x)
    }

    method IsVetoed(x: T) returns (vetoed: bool)
      ensures vetoed <==> Vetoes(x)
    {
      var i := 0;
      while i < |beforeUpdate|
        invariant 0 <= i <= |beforeUpdate|
        invariant forall k :: 0 <= k < i ==> beforeUpdate[k](x)
      {
        if !beforeUpdate[i](x) {
          return true;
        }
        i := i + 1;
      }
      return false;
    }

    method Prevent(action: T -> bool)
      modifies this`beforeUpdate
      ensures beforeUpdate == old(beforeUpdate) + [action]
    {
      beforeUpdate := beforeUpdate + [action];
    }

    /** The setter: the value of every property of the graph afterwards is what `Propagate` says. */
    method Set(x: T, ghost graph: set<Property<T>>)
      requires this in graph && Closed(graph)
      modifies graph`value, graph`previous, graph`pending
      ensures Bindings(graph) == old(Bindings(graph)) && Vetoing(graph, x) == old(Vetoing(graph, x))
      ensures Values(graph) == Propagate(Bindings(graph), Vetoing(graph, x), old(Values(graph)), this, x)
      ensures Recorded(old(Record(graph)), Record(graph), x)
      ensures !Vetoes(x) || old(value) == Some(x) ==> pending == value == Some(x)
      decreases Others(Values(graph), x), 0
    {
      ghost var before := Values(graph);
      if value == Some(x) {
        Take(x, previous, graph);
        assert Values(graph) == before;
        return;
      }
      var vetoed := IsVetoed(x);
      if vetoed {
        return;
      }
      Take(x, value, graph);
      assert this in Others(before, x) && this !in Others(Values(graph), x);
      assert Others(Values(graph), x) < Others(before, x);
      ghost var taken, record := Values(graph), Record(graph);
      Notify(x, graph);
      RecordedTransitive(old(Record(graph)), record, Record(graph), before, taken, Values(graph), Vetoing(graph, x), x);
    }

    /** The writes of the setter to its own fields. */
    method Take(x: T, newPrevious: Option<T>, ghost graph: set<Property<T>>)
      requires this in graph
      requires newPrevious == if value == Some(x) then previous else value
      modifies this`value, this`previous, this`pending
      ensures Bindings(graph) == old(Bindings(graph)) && Vetoing(graph, x) == old(Vetoing(graph, x))
      ensures Values(graph) == old(Values(graph))[this := Some(x)]
      ensures Recorded(old(Record(graph)), Record(graph), x)
      ensures value == pending == Some(x)
    {
      previous := newPrevious;
      value := Some(x);
      pending := Some(x);
    }

    /** The consumers in turn; the setters they are read the graph as the earlier ones left it. */
    method Notify(x: T, ghost graph: set<Property<T>>)
      requires this in graph && Closed(graph)
      modifies graph`value, graph`previous, graph`pending
      ensures Bindings(graph) == old(Bindings(graph)) && Vetoing(graph, x) == old(Vetoing(graph, x))
      ensures Values(graph) == PropagateAll(Bindings(graph), Vetoing(graph, x), old(Values(graph)), afterUpdate, x)
      ensures Recorded(old(Record(graph)), Record(graph), x)
      decreases Others(Values(graph), x), 1
    {
      ghost var before, recorded := Values(graph), Record(graph);
      ghost var g, vetoing, targets := Bindings(graph), Vetoing(graph, x), afterUpdate;
      var i := 0;
      assert targets[0..] == targets;
      while i < |afterUpdate|
        invariant 0 <= i <= |targets|
        invariant Bindings(graph) == g && Vetoing(graph, x) == vetoing
        invariant Spreads(before, Values(graph), vetoing, x)
        invariant PropagateAll(g, vetoing, Values(graph), targets[i..], x) == PropagateAll(g, vetoing, before, targets, x)
        invariant Recorded(recorded, Record(graph), x)
      {
        ghost var values, middle := Values(graph), Record(graph);
        NotifyStep(g, vetoing, before, values, targets, i, x);
        afterUpdate[i].Set(x, graph);
        assert Values(graph) == Propagate(g, vetoing, values, targets[i], x);
        RecordedTransitive(recorded, middle, Record(graph), before, values, Values(graph), vetoing, x);
        i := i + 1;
      }
    }

    /** `consume(other.set)`. */
    method Consume(other: Property<T>, ghost graph: set<Property<T>>)
      requires this in graph && other in graph && Closed(graph)
      modifies this`afterUpdate, graph`value, graph`previous, graph`pending
      ensures afterUpdate == old(afterUpdate) + [other]
      ensures Closed(graph) && Bindings(graph) == Bound(old(Bindings(graph)), this, other)
      ensures Values(graph) ==
                match old(pending)
                case None => old(Values(graph))
                case Some(x) => Propagate(Bindings(graph), Vetoing(graph, x), old(Values(graph)), other, x)
    {
      afterUpdate := afterUpdate + [other];
      assert Bindings(graph) == Bound(old(Bindings(graph)), this, other);
      if pending.Some? {
        other.Set(pending.value, graph);
      }
    }

    method Cleared(action: nat)
      modifies this`onClear
      ensures onClear == old(onClear) + [action]
    {
      onClear := onClear + [action];
    }

    /** Forgets the value without notifying consumers of it, and runs the clear actions in order. */
    method Clear()
      modifies this`value, this`previous, this`pending, this`ran
      ensures value == None && pending == None && previous == old(value)
      ensures ran == old(ran) + onClear
    {
      previous := value;
      pending, value := None, None;
      for i := 0 to |onClear|
        invariant ran == old(ran) + onClear[..i]
        invariant value == None && pending == None && previous == old(value)
      {
        ran := ran + [onClear[i]];
        assert onClear[..i + 1] == onClear[..i] + [onClear[i]];
      }
      assert onClear[..|onClear|] == onClear;
    }
  }

  ghost predicate Closed<T>(graph: set<Property<T>>)
    reads graph`afterUpdate
  {
    forall p, i :: p in graph && 0 <= i < |p.afterUpdate| ==> p.afterUpdate[i] in graph
  }

  ghost function Values<T>(graph: set<Property<T>>): map<Property<T>, Option<T>>
    reads graph`value
  {
    map p | p in graph :: p.value
  }

  ghost function Bindings<T>(graph: set<Property<T>>): Graph<Property<T>>
    reads graph`afterUpdate
  {
    map p | p in graph :: p.afterUpdate
  }

  ghost function Vetoing<T>(graph: set<Property<T>>, x: T): set<Property<T>>
    reads graph`beforeUpdate
  {
    set p | p in graph && p.Vetoes(x)
  }

  /** The three recorded fields of every property. */
  datatype Fields<T> = Fields(value: Option<T>, previous: Option<T>, pending: Option<T>)

  ghost function Record<T>(graph: set<Property<T>>): map<Property<T>, Fields<T>>
    reads graph`value, graph`previous, graph`pending
  {
    map p | p in graph :: Fields(p.value, p.previous, p.pending)
  }

  /** A property that changed remembers its value and is pending; another one is at most pending anew. */
  ghost predicate Recorded<N, T>(before: map<N, Fields<T>>, after: map<N, Fields<T>>, x: T) {
    && after.Keys == before.Keys
    && forall p :: p in before ==>
         if after[p].value == before[p].value then
           && after[p].previous == before[p].previous
           && (after[p].pending == before[p].pending || after[p].pending == after[p].value == Some(x))
         else after[p] == Fields(Some(x), before[p].value, Some(x))
  }

  lemma RecordedTransitive<N, T>(a: map<N, Fields<T>>, b: map<N, Fields<T>>, c: map<N, Fields<T>>,
      va: map<N, Option<T>>, vb: map<N, Option<T>>, vc: map<N, Option<T>>, vetoing: set<N>, x: T)
    requires Recorded(a, b, x) && Recorded(b, c, x)
    requires va.Keys == a.Keys && forall p :: p in a ==> a[p].value == va[p]
    requires vb.Keys == b.Keys && forall p :: p in b ==> b[p].value == vb[p]
    requires vc.Keys == c.Keys && forall p :: p in c ==> c[p].value == vc[p]
    requires Spreads(vb, vc, vetoing, x)
    ensures Recorded(a, c, x)
  {
    forall p | p in a
      ensures if c[p].value == a[p].value then
                c[p].previous == a[p].previous && (c[p].pending == a[p].pending || c[p].pending == c[p].value == Some(x))
              else c[p] == Fields(Some(x), a[p].value, Some(x))
    {
      assert vb[p] == Some(x) ==> vc[p] == Some(x);
    }
  }

  /** One more consumer of the list is notified. */
  lemma NotifyStep<N, T>(g: Graph<N>, vetoing: set<N>, before: map<N, Option<T>>, values: map<N, Option<T>>,
      targets: seq<N>, i: nat, x: T)
    requires IsGraph(g, before) && (forall k :: 0 <= k < |targets| ==> targets[k] in g) && i < |targets|
    requires Spreads(before, values, vetoing, x)
    ensures Others(values, x) <= Others(before, x)
    ensures var after := Propagate(g, vetoing, values, targets[i], x);
            && Spreads(before, after, vetoing, x) && Spreads(values, after, vetoing, x)
            && PropagateAll(g, vetoing, values, targets[i..], x) == PropagateAll(g, vetoing, after, targets[i + 1..], x)
  {
    assert targets[i..][1..] == targets[i + 1..];
    var after := Propagate(g, vetoing, values, targets[i], x);
    assert Spreads(values, after, vetoing, x);
  }
}
