/**
 Credit-controlled streams. The consumer of a stream keeps a counter that starts at the window and
 goes down with every element; when it reaches half a window it is raised by a window and a further
 window of elements is requested from the source.

 The counter is atomic, but lowering it, raising it and requesting are three separate actions that
 signals of other elements may fall between. `Credit` is the state between any two of them.
 */
module CreditFlow {

  datatype Credit = Credit(
    window: nat,      // elements of one request
    counter: int,     // the AtomicInteger
    requested: nat,   // elements requested from the source so far
    emitted: nat,     // elements the source has emitted
    consumed: nat,    // elements that have lowered the counter
    raising: nat,     // consumers that saw half a window and have not raised the counter yet
    requesting: nat)  // consumers that have raised the counter and not requested yet

  datatype Action = Emit | Lower | Raise | Request

  /** On subscription a whole window is requested. */
  function Subscribed(window: nat): Credit {
    Credit(window, window, window, 0, 0, 0, 0)
  }

  predicate Enabled(c: Credit, action: Action) {
    match action
    case Emit => c.emitted < c.requested
    case Lower => c.consumed < c.emitted
    case Raise => c.raising > 0
    case Request => c.requesting > 0
  }

  function Next(c: Credit, action: Action): Credit
    requires Enabled(c, action)
  {
    match action
    case Emit => c.(emitted := c.emitted + 1)
    case Lower =>
      var lowered := c.(counter := c.counter - 1, consumed := c.consumed + 1);
      if lowered.counter == c.window / 2 then lowered.(raising := c.raising + 1) else lowered
    case Raise => c.(counter := c.counter + c.window, raising := c.raising - 1, requesting := c.requesting + 1)
    case Request => c.(requested := c.requested + c.window, requesting := c.requesting - 1)
  }

  predicate Runs(c: Credit, actions: seq<Action>)
    decreases |actions|
  {
    |actions| == 0 || (Enabled(c, actions[0]) && Runs(Next(c, actions[0]), actions[1..]))
  }

  function After(c: Credit, actions: seq<Action>): Credit
    requires Runs(c, actions)
    decreases |actions|
  {
    if |actions| == 0 then c else After(Next(c, actions[0]), actions[1..])
  }

  /** Elements the source may still deliver before the consumer asks again. */
  function Outstanding(c: Credit): int {
    c.requested - c.consumed
  }

  /** What the counter has been raised by and the source has not been asked for yet. */
  function Ahead(c: Credit): int {
    if c.requesting == 0 then 0 else c.window
  }

  /** The inductive invariant: the counter tracks the outstanding credit, a window ahead while a request is due. */
  ghost predicate Balanced(c: Credit) {
    && c.window >= 1
    && c.consumed <= c.emitted <= c.requested
    && Outstanding(c) <= c.window + c.window / 2
    && c.raising + c.requesting <= 1
    && c.counter == Outstanding(c) + Ahead(c)
    && (Outstanding(c) > c.window / 2 <==> c.raising + c.requesting == 0)
  }

  lemma NextKeepsBalance(c: Credit, action: Action)
    requires Balanced(c) && Enabled(c, action)
    ensures Balanced(Next(c, action)) && Next(c, action).window == c.window
  {
  }

  lemma {:induction false} RunsKeepBalance(c: Credit, actions: seq<Action>)
    requires Balanced(c) && Runs(c, actions)
    ensures Balanced(After(c, actions)) && After(c, actions).window == c.window
    decreases |actions|
  {
    if |actions| != 0 {
      NextKeepsBalance(c, actions[0]);
      RunsKeepBalance(Next(c, actions[0]), actions[1..]);
    }
  }

  /**
   For every window and every interleaving: at most one refill is under way, the outstanding credit
   is never negative and never above one and a half windows, it is above half a window whenever no
   refill is under way, and at least one action is always possible.
   */
  lemma CreditIsBounded(window: nat, actions: seq<Action>)
    requires window >= 1 && Runs(Subscribed(window), actions)
    ensures var c := After(Subscribed(window), actions);
            && c.raising + c.requesting <= 1
            && 0 <= Outstanding(c) <= window + window / 2
            && (c.raising + c.requesting == 0 ==> Outstanding(c) > window / 2 && c.counter == Outstanding(c))
            && exists action :: Enabled(c, action)
  {
    var c := After(Subscribed(window), actions);
    RunsKeepBalance(Subscribed(window), actions);
    assert Enabled(c, Emit) || Enabled(c, Lower) || Enabled(c, Raise) || Enabled(c, Request);
  }

  function Emissions(actions: seq<Action>): nat {
    if |actions| == 0 then 0 else (if actions[0].Emit? then 1 else 0) + Emissions(actions[1..])
  }

  /** Consumer actions that can still happen before the source emits again. */
  function Backlog(c: Credit): int {
    3 * (c.emitted - c.consumed) + 2 * c.raising + c.requesting
  }

  /** The source never stalls: of the actions of any run, at least a quarter (after the backlog) are emissions. */
  lemma {:induction false} SourceKeepsEmitting(c: Credit, actions: seq<Action>)
    requires Balanced(c) && Runs(c, actions)
    ensures |actions| <= 4 * Emissions(actions) + Backlog(c)
    decreases |actions|
  {
    if |actions| != 0 {
      NextKeepsBalance(c, actions[0]);
      SourceKeepsEmitting(Next(c, actions[0]), actions[1..]);
      assert Backlog(Next(c, actions[0])) <= Backlog(c) + (if actions[0].Emit? then 3 else -1);
    }
  }

  /** The operator around one source: it lowers, and when it must, raises and requests, per element. */
  class ChunkedSource {
    const chunksCount: nat
    var chunksCounter: int
    var requested: nat
    ghost var consumed: nat

    ghost function View(emitted: nat): Credit
      reads this
    {
      Credit(chunksCount, chunksCounter, requested, emitted, consumed, 0, 0)
    }

    /** `doOnSubscribe`: the counter starts at the window and the first window is requested. */
    constructor (chunksCount: nat)
      ensures this.chunksCount == chunksCount
      ensures View(0) == Subscribed(chunksCount)
    {
      this.chunksCount := chunksCount;
      chunksCounter := chunksCount;
      requested := chunksCount;
      consumed := 0;
    }

    /** `doOnNext`, and `ChunkedRequester.request`: consume one element, refill at half a window. */
    method OnNext(ghost emitted: nat)
      requires Balanced(View(emitted)) && consumed < emitted
      modifies this
      ensures Balanced(View(emitted))
      ensures consumed == old(consumed) + 1
      ensures requested == old(requested) + (if old(requested - consumed) == chunksCount / 2 + 1 then chunksCount else 0)
      ensures var lowered := Next(old(View(emitted)), Lower);
              View(emitted) == if lowered.raising == 0 then lowered else Next(Next(lowered, Raise), Request)
    {
      chunksCounter := chunksCounter - 1;
      consumed := consumed + 1;
      if chunksCounter == chunksCount / 2 {
        chunksCounter := chunksCounter + chunksCount;
        requested := requested + chunksCount;
      }
    }
  }
}
