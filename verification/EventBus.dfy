/**
 The event bus: subscriber lists per event type, and dispatch over a snapshot of them.
 Subscribers are identified by number; what a callback does to the bus while it runs is an
 arbitrary list of registrations and removals.
 */
module EventBus {
  import opened Basics

  const WILDCARD := "*"

  type Subscribers = map<string, seq<nat>>

  datatype BusOp = On(eventType: string, callback: nat) | Off(eventType: string, callback: nat)

  function Registered(subs: Subscribers, eventType: string): seq<nat> {
    if eventType in subs then subs[eventType] else []
  }

  /** Who receives an event: its own subscribers, then the wildcard ones. */
  function Collected(subs: Subscribers, eventType: string): seq<nat> {
    Registered(subs, eventType) + Registered(subs, WILDCARD)
  }

  function Applied(subs: Subscribers, op: BusOp): Subscribers {
    match op
    case On(t, c) => subs[t := Registered(subs, t) + [c]]
    case Off(t, c) => if t in subs then subs[t := RemoveFirst(subs[t], c)] else subs
  }

  function AppliedAll(subs: Subscribers, ops: seq<BusOp>): Subscribers {
    if ops == [] then subs else Applied(AppliedAll(subs, ops[..|ops| - 1]), ops[|ops| - 1])
  }

  /** Everything the callbacks of a dispatch do to the bus, in order. */
  function Reactions(callbacks: seq<nat>, reaction: nat -> seq<BusOp>): seq<BusOp> {
    if callbacks == [] then []
    else Reactions(callbacks[..|callbacks| - 1], reaction) + reaction(callbacks[|callbacks| - 1])
  }

  lemma {:induction false} AppliedAllConcat(subs: Subscribers, a: seq<BusOp>, b: seq<BusOp>)
    ensures AppliedAll(subs, a + b) == AppliedAll(AppliedAll(subs, a), b)
  {
    if b == [] {
      assert a + b == a;
    } else {
      assert (a + b)[..|a + b| - 1] == a + b[..|b| - 1];
      AppliedAllConcat(subs, a, b[..|b| - 1]);
    }
  }

  /** `now` is what `was` has become through the reactions of these callbacks. */
  predicate Reacted(was: Subscribers, now: Subscribers, callbacks: seq<nat>, reaction: nat -> seq<BusOp>) {
    now == AppliedAll(was, Reactions(callbacks, reaction))
  }

  lemma ReactionsStep(subs: Subscribers, now: Subscribers, callbacks: seq<nat>, c: nat, reaction: nat -> seq<BusOp>)
    requires Reacted(subs, now, callbacks, reaction)
    ensures Reacted(subs, AppliedAll(now, reaction(c)), callbacks + [c], reaction)
  {
    assert (callbacks + [c])[..|callbacks|] == callbacks;
    AppliedAllConcat(subs, Reactions(callbacks, reaction), reaction(c));
  }

  class EventBus {
    var subscribers: Subscribers

    constructor ()
      ensures subscribers == map[]
    {
      subscribers := map[];
    }

    method OnEvent(eventType: string, callback: nat)
      modifies this
      ensures subscribers == Applied(old(subscribers), On(eventType, callback))
    {
      if eventType !in subscribers {
        subscribers := subscribers[eventType := []];
      }
      subscribers := subscribers[eventType := subscribers[eventType] + [callback]];
    }

    method OffEvent(eventType: string, callback: nat)
      modifies this
      ensures subscribers == Applied(old(subscribers), Off(eventType, callback))
    {
      if eventType in subscribers && subscribers[eventType] != [] {
        subscribers := subscribers[eventType := RemoveFirst(subscribers[eventType], callback)];
      }
    }

    /** Applies what one callback does to the bus. */
    method React(ops: seq<BusOp>)
      modifies this
      ensures subscribers == AppliedAll(old(subscribers), ops)
    {
      for i := 0 to |ops|
        invariant subscribers == AppliedAll(old(subscribers), ops[..i])
      {
        assert ops[..i + 1][..i] == ops[..i];
        match ops[i] {
          case On(t, c) => OnEvent(t, c);
          case Off(t, c) => OffEvent(t, c);
        }
      }
      assert ops[..|ops|] == ops;
    }

    /**
     Delivers an event to exactly the subscribers registered when it was emitted, in order, whatever
     the callbacks add or remove meanwhile. Synchronous ones run inline; asynchronous ones are only
     scheduled, and not even that when no event loop is running.
     */
    method Emit(eventType: string, isAsync: nat -> bool, loopRuns: bool, reaction: nat -> seq<BusOp>)
      returns (called: seq<nat>, scheduled: seq<nat>)
      modifies this
      ensures called == OfKind(Collected(old(subscribers), eventType), isAsync, false)
      ensures scheduled == if loopRuns then OfKind(Collected(old(subscribers), eventType), isAsync, true) else []
      ensures subscribers == AppliedAll(old(subscribers), Reactions(called, reaction))
    {
      ghost var was := subscribers;
      var snapshot := Collected(subscribers, eventType);
      called, scheduled := [], [];
      for i := 0 to |snapshot|
        invariant called == OfKind(snapshot[..i], isAsync, false)
        invariant scheduled == if loopRuns then OfKind(snapshot[..i], isAsync, true) else []
        invariant Reacted(was, subscribers, called, reaction)
      {
        var callback := snapshot[i];
        assert snapshot[..i + 1][..i] == snapshot[..i];
        if isAsync(callback) {
          if loopRuns { scheduled := scheduled + [callback]; }
        } else {
          ReactionsStep(was, subscribers, called, callback, reaction);
          React(reaction(callback));
          called := called + [callback];
        }
      }
      assert snapshot[..|snapshot|] == snapshot;
    }
  }

  /** The synchronous or the asynchronous ones among some callbacks, in order. */
  function OfKind(callbacks: seq<nat>, isAsync: nat -> bool, wanted: bool): seq<nat> {
    if callbacks == [] then []
    else
      var last := callbacks[|callbacks| - 1];
      OfKind(callbacks[..|callbacks| - 1], isAsync, wanted) + if isAsync(last) == wanted then [last] else []
  }

  /** Each subscriber of the snapshot is called or scheduled, and nobody is both. */
  lemma {:induction false} EveryoneReachedOnce(callbacks: seq<nat>, isAsync: nat -> bool)
    ensures multiset(OfKind(callbacks, isAsync, false)) + multiset(OfKind(callbacks, isAsync, true))
         == multiset(callbacks)
  {
    if callbacks != [] {
      var n := |callbacks| - 1;
      EveryoneReachedOnce(callbacks[..n], isAsync);
      assert callbacks == callbacks[..n] + [callbacks[n]];
      OneMoreReached(callbacks[..n], callbacks[n], isAsync);
    }
  }

  lemma OneMoreReached(callbacks: seq<nat>, c: nat, isAsync: nat -> bool)
    requires multiset(OfKind(callbacks, isAsync, false)) + multiset(OfKind(callbacks, isAsync, true))
          == multiset(callbacks)
    ensures multiset(OfKind(callbacks + [c], isAsync, false)) + multiset(OfKind(callbacks + [c], isAsync, true))
         == multiset(callbacks + [c])
  {
    OfKindSnoc(callbacks, c, isAsync, false);
    OfKindSnoc(callbacks, c, isAsync, true);
  }

  /** Those of one kind among the first `n`. */
  function KindAmong(callbacks: seq<nat>, isAsync: nat -> bool, wanted: bool, n: nat): set<nat>
    requires n <= |callbacks|
  {
    set i: nat | i < n && isAsync(callbacks[i]) == wanted
  }

  lemma KindAmongStep(callbacks: seq<nat>, isAsync: nat -> bool, wanted: bool, n: nat)
    requires n < |callbacks|
    ensures |KindAmong(callbacks, isAsync, wanted, n + 1)| ==
            |KindAmong(callbacks, isAsync, wanted, n)| + if isAsync(callbacks[n]) == wanted then 1 else 0
  {
    assert KindAmong(callbacks, isAsync, wanted, n + 1) ==
           KindAmong(callbacks, isAsync, wanted, n) + if isAsync(callbacks[n]) == wanted then {n} else {};
  }

  /** Each subscriber is reached behind those of its kind that come before it in the snapshot. */
  lemma {:induction false} ReachedInOrder(callbacks: seq<nat>, isAsync: nat -> bool, wanted: bool, n: nat, i: nat)
    requires n <= |callbacks|
    ensures |OfKind(callbacks[..n], isAsync, wanted)| == |KindAmong(callbacks, isAsync, wanted, n)|
    ensures i < n && isAsync(callbacks[i]) == wanted ==>
              var p := |KindAmong(callbacks, isAsync, wanted, i)|;
              && p < |OfKind(callbacks[..n], isAsync, wanted)|
              && OfKind(callbacks[..n], isAsync, wanted)[p] == callbacks[i]
  {
    if n == 0 {
      assert KindAmong(callbacks, isAsync, wanted, 0) == {};
    } else {
      assert callbacks[..n][..n - 1] == callbacks[..n - 1];
      ReachedInOrder(callbacks, isAsync, wanted, n - 1, i);
      KindAmongStep(callbacks, isAsync, wanted, n - 1);
    }
  }

  // ---------- who is reached ----------

  /** How often a callback is listed. */
  function Times(xs: seq<nat>, c: nat): nat {
    var all: multiset<nat> := multiset(xs);
    all[c]
  }

  function Less(n: nat, taken: bool): nat {
    if taken && n > 0 then n - 1 else n
  }

  /** How often a callback is registered for a type after these operations, the bus being empty at first. */
  function Registrations(ops: seq<BusOp>, eventType: string, c: nat): nat {
    if ops == [] then 0
    else
      var before := Registrations(ops[..|ops| - 1], eventType, c);
      match ops[|ops| - 1]
      case On(t, d) => if t == eventType && d == c then before + 1 else before
      case Off(t, d) => Less(before, t == eventType && d == c)
  }

  lemma {:induction false} RemovedOnce(xs: seq<nat>, x: nat, c: nat)
    ensures Times(RemoveFirst(xs, x), c) == Less(Times(xs, c), c == x)
  {
    if xs != [] {
      assert xs == [xs[0]] + xs[1..];
      if xs[0] != x {
        RemovedOnce(xs[1..], x, c);
      }
    }
  }

  lemma {:induction false} RegisteredExactly(ops: seq<BusOp>, eventType: string, c: nat)
    ensures Times(Registered(AppliedAll(map[], ops), eventType), c) == Registrations(ops, eventType, c)
  {
    if ops != [] {
      RegisteredExactly(ops[..|ops| - 1], eventType, c);
      match ops[|ops| - 1]
      case On(t, d) =>
      case Off(t, d) => OffCounts(AppliedAll(map[], ops[..|ops| - 1]), t, d, eventType, c);
    }
  }

  lemma OffCounts(subs: Subscribers, t: string, d: nat, eventType: string, c: nat)
    ensures Times(Registered(Applied(subs, Off(t, d)), eventType), c) ==
            Less(Times(Registered(subs, eventType), c), t == eventType && d == c)
  {
    if t == eventType { RemovedOnce(Registered(subs, eventType), d, c); }
  }

  /**
   An event reaches a callback as often as it is then registered for the event's type and for all types, and
   first of all those registered for the type.
   */
  lemma ReachedAsRegistered(ops: seq<BusOp>, eventType: string, c: nat)
    ensures var subs := AppliedAll(map[], ops);
            && Times(Collected(subs, eventType), c) == Registrations(ops, eventType, c) + Registrations(ops, "*", c)
            && (eventType in subs ==> subs[eventType] <= Collected(subs, eventType))
  {
    RegisteredExactly(ops, eventType, c);
    RegisteredExactly(ops, "*", c);
  }

  lemma {:induction false} OfKindMember(callbacks: seq<nat>, isAsync: nat -> bool, wanted: bool, c: nat)
    ensures c in OfKind(callbacks, isAsync, wanted) <==> c in callbacks && isAsync(c) == wanted
  {
    if callbacks != [] {
      var n := |callbacks| - 1;
      OfKindMember(callbacks[..n], isAsync, wanted, c);
      assert callbacks == callbacks[..n] + [callbacks[n]];
      assert c in callbacks <==> c in callbacks[..n] || c == callbacks[n];
    }
  }

  lemma OfKindSnoc(callbacks: seq<nat>, c: nat, isAsync: nat -> bool, wanted: bool)
    ensures multiset(OfKind(callbacks + [c], isAsync, wanted)) ==
            multiset(OfKind(callbacks, isAsync, wanted)) + (if isAsync(c) == wanted then multiset{c} else multiset{})
  {
    assert (callbacks + [c])[..|callbacks|] == callbacks;
  }

  predicate AllEqual(xs: seq<nat>, x: nat) {
    forall i :: 0 <= i < |xs| ==> xs[i] == x
  }

  /** The position of the first `x`, or the length. */
  function IndexOf(xs: seq<nat>, x: nat): (i: nat)
    ensures i <= |xs|
    ensures i < |xs| ==> xs[i] == x
    ensures forall j :: 0 <= j < i ==> xs[j] != x
  {
    if xs == [] || xs[0] == x then 0 else 1 + IndexOf(xs[1..], x)
  }

  lemma {:induction false} RemoveFirstIs(xs: seq<nat>, x: nat)
    ensures RemoveFirst(xs, x) ==
            if IndexOf(xs, x) == |xs| then xs else xs[..IndexOf(xs, x)] + xs[IndexOf(xs, x) + 1..]
  {
    if xs != [] && xs[0] != x {
      RemoveFirstIs(xs[1..], x);
      var k := IndexOf(xs[1..], x);
      assert xs[1..][..k] == xs[1..k + 1] && [xs[0]] + xs[1..k + 1] == xs[..k + 1];
    }
  }

  lemma {:induction false} IndexOfAppended(xs: seq<nat>, x: nat)
    ensures IndexOf(xs + [x], x) == IndexOf(xs, x)
  {
    if xs != [] && xs[0] != x {
      assert (xs + [x])[1..] == xs[1..] + [x];
      IndexOfAppended(xs[1..], x);
    }
  }

  /**
   Removing a callback undoes registering it exactly when the type has no other callback
   registered after an earlier registration of the same one.
   */
  lemma OffUndoesOnExactly(subs: Subscribers, t: string, c: nat)
    ensures var xs := Registered(subs, t);
            Registered(Applied(Applied(subs, On(t, c)), Off(t, c)), t) == xs <==> AllEqual(xs[IndexOf(xs, c)..], c)
  {
    RemovedAgainExactly(Registered(subs, t), c);
  }

  lemma RemovedAgainExactly(xs: seq<nat>, c: nat)
    ensures RemoveFirst(xs + [c], c) == xs <==> AllEqual(xs[IndexOf(xs, c)..], c)
  {
    var k := IndexOf(xs, c);
    RemoveAppended(xs, c);
    if AllEqual(xs[k..], c) { EqualTailShifts(xs, c, k); }
    if xs == xs[..k] + (xs + [c])[k + 1..] { ShiftedTail(xs, c, k); }
  }

  lemma RemoveAppended(xs: seq<nat>, c: nat)
    ensures RemoveFirst(xs + [c], c) == xs[..IndexOf(xs, c)] + (xs + [c])[IndexOf(xs, c) + 1..]
  {
    RemoveFirstIs(xs + [c], c);
    IndexOfAppended(xs, c);
  }

  lemma EqualTailShifts(xs: seq<nat>, c: nat, k: nat)
    requires k <= |xs| && AllEqual(xs[k..], c)
    ensures xs == xs[..k] + (xs + [c])[k + 1..]
  {
    var r := xs[..k] + (xs + [c])[k + 1..];
    forall i | 0 <= i < |xs| ensures r[i] == xs[i] {
      if i >= k {
        assert xs[k..][i - k] == c;
        assert r[i] == (xs + [c])[i + 1];
        if i + 1 < |xs| { assert xs[k..][i + 1 - k] == c; }
      }
    }
  }

  lemma {:induction false} ShiftedTail(xs: seq<nat>, c: nat, k: nat)
    requires k <= |xs| && xs == xs[..k] + (xs + [c])[k + 1..]
    requires k < |xs| ==> xs[k] == c
    ensures AllEqual(xs[k..], c)
  {
    forall i | k <= i < |xs| ensures xs[i] == c {
      TailFrom(xs, c, k, i);
    }
  }

  lemma {:induction false} TailFrom(xs: seq<nat>, c: nat, k: nat, i: nat)
    requires k <= i < |xs| && xs == xs[..k] + (xs + [c])[k + 1..] && xs[k] == c
    ensures xs[i] == c
    decreases i
  {
    if i > k {
      TailFrom(xs, c, k, i - 1);
      assert xs[i - 1] == (xs[..k] + (xs + [c])[k + 1..])[i - 1] == (xs + [c])[i];
    }
  }
}
