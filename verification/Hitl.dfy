/**
 The human-in-the-loop handshake as a protocol between the event loop and other threads.
 Every step of the coroutine, of the loop's callback queue, of a dispatch in another thread and
 of unrelated subscribers is a transition; a run is any interleaving of them.
 */
module Hitl {
  import opened Basics

  type Value = Option<string>

  /** A `USER_INPUT_RECEIVED` event. */
  datatype Reply = Reply(node: string, value: Value)

  datatype Future = Unsettled | Result(value: Value) | Cancelled

  /** A subscriber of `USER_INPUT_RECEIVED`: this wait's closure, or somebody else's. */
  datatype Subscriber = Waiter | Other(id: nat)

  /**
   A dispatch under way: the snapshot taken, how many of it have been called, and whether the call
   of this wait's closure has found the future open but not yet passed the reply on.
   */
  datatype Flight = Flight(reply: Reply, snapshot: seq<Subscriber>, next: nat, held: bool, fallback: bool)

  datatype Pc =
    | Start
    | Subscribed          // registered, about to announce the question
    | Waiting             // suspended on the future
    | TimedOut            // the timer fired first; the coroutine has not run yet
    | Unsubscribed        // deregistered ahead of the fallback
    | Leaving(value: Value)     // returning, the `finally` still to run
    | Aborting            // cancelled, the `finally` still to run
    | Done(result: Value)
    | Aborted

  datatype State = State(
    pc: Pc,
    future: Future,
    queue: seq<Value>,            // `_resolve` calls waiting in the loop
    subs: seq<Subscriber>,
    others: seq<Subscriber>,      // what `subs` would be without this wait
    flights: seq<Flight>,
    queued: seq<Reply>,           // history: every reply ever passed to the loop
    fallbacks: nat)               // history: how many fallback events were emitted

  datatype Step =
    | Subscribe | Announce | RunQueued | Wake | Timeout | Unsubscribe | Fallback | Finally | Cancel
    | Emit(reply: Reply)          // another thread, or another wait, emits
    | Deliver(k: nat)             // dispatch k calls its next subscriber; this wait's closure tests the future
    | PassOn(k: nat)              // the closure hands the reply of dispatch k to the loop
    | OthersOn(id: nat) | OthersOff(id: nat)

  /** Replies are correlated by node id when both sides carry one. */
  predicate Correlated(node: string, r: Reply) {
    node == "" || r.node == "" || r.node == node
  }

  /** Control is with the loop: before the timer fires, and from then until the coroutine runs again. */
  predicate Suspended(pc: Pc) {
    pc == Waiting || pc == TimedOut
  }

  function Advance(f: Flight): Flight {
    f.(next := f.next + 1, held := false)
  }

  /** What a step does; `None` when it cannot be taken. */
  function Next(node: string, s: State, step: Step): Option<State> {
    match step
    case Subscribe =>
      if s.pc != Start then None else Some(s.(pc := Subscribed, subs := s.subs + [Waiter]))
    case Announce =>
      if s.pc != Subscribed then None else Some(s.(pc := Waiting))
    case RunQueued =>
      // the loop runs callbacks only while the coroutine is suspended or gone
      if s.queue == [] || !(Suspended(s.pc) || s.pc.Done? || s.pc.Aborted?) then None
      else Some(s.(queue := s.queue[1..],
                   future := if s.future == Unsettled then Result(s.queue[0]) else s.future))
    case Wake =>
      if s.pc != Waiting || !s.future.Result? then None else Some(s.(pc := Leaving(s.future.value)))
    case Timeout =>
      // since Python 3.12 the timer also wins over a result the coroutine has not yet woken up to
      if s.pc != Waiting then None
      else Some(s.(pc := TimedOut, future := if s.future == Unsettled then Cancelled else s.future))
    case Unsubscribe =>
      if s.pc != TimedOut then None else Some(s.(pc := Unsubscribed, subs := RemoveFirst(s.subs, Waiter)))
    case Fallback =>
      if s.pc != Unsubscribed then None
      else Some(s.(pc := Leaving(None), fallbacks := s.fallbacks + 1,
                   flights := s.flights + [Flight(Reply(node, None), s.subs, 0, false, true)]))
    case Finally =>
      if s.pc.Leaving? then Some(s.(pc := Done(s.pc.value), subs := RemoveFirst(s.subs, Waiter)))
      else if s.pc == Aborting then Some(s.(pc := Aborted, subs := RemoveFirst(s.subs, Waiter)))
      else None
    case Cancel =>
      // a cancellation can also come between the timer and the coroutine's wake-up
      if !Suspended(s.pc) then None
      else Some(s.(pc := Aborting, future := if s.future == Unsettled then Cancelled else s.future))
    case Emit(reply) =>
      Some(s.(flights := s.flights + [Flight(reply, s.subs, 0, false, false)]))
    case Deliver(k) =>
      if k >= |s.flights| || s.flights[k].held || s.flights[k].next >= |s.flights[k].snapshot| then None
      else
        var f := s.flights[k];
        if f.snapshot[f.next] != Waiter || s.future != Unsettled || !Correlated(node, f.reply)
        then Some(s.(flights := s.flights[k := Advance(f)]))
        else Some(s.(flights := s.flights[k := f.(held := true)]))
    case PassOn(k) =>
      if k >= |s.flights| || !s.flights[k].held then None
      else
        var f := s.flights[k];
        Some(s.(flights := s.flights[k := Advance(f)],
                queue := s.queue + [f.reply.value], queued := s.queued + [f.reply]))
    case OthersOn(id) =>
      Some(s.(subs := s.subs + [Other(id)], others := s.others + [Other(id)]))
    case OthersOff(id) =>
      Some(s.(subs := RemoveFirst(s.subs, Other(id)), others := RemoveFirst(s.others, Other(id))))
  }

  function Initial(subs: seq<Subscriber>): State {
    State(Start, Unsettled, [], subs, subs, [], [], 0)
  }

  /** The state after a list of steps, if all of them can be taken. */
  function After(node: string, subs: seq<Subscriber>, steps: seq<Step>): Option<State> {
    if steps == [] then Some(Initial(subs))
    else
      match After(node, subs, steps[..|steps| - 1])
      case None => None
      case Some(s) => Next(node, s, steps[|steps| - 1])
  }

  // ---------- the invariant ----------

  function Without(xs: seq<Subscriber>): seq<Subscriber> {
    if xs == [] then [] else Without(xs[..|xs| - 1]) + if xs[|xs| - 1] == Waiter then [] else [xs[|xs| - 1]]
  }

  function Waiters(xs: seq<Subscriber>): nat {
    if xs == [] then 0 else Waiters(xs[..|xs| - 1]) + if xs[|xs| - 1] == Waiter then 1 else 0
  }

  function Values(rs: seq<Reply>): (vs: seq<Value>)
    ensures |vs| == |rs|
  {
    seq(|rs|, i requires 0 <= i < |rs| => rs[i].value)
  }

  /** Is this wait's closure registered at this point of the coroutine? */
  predicate Registered(s: State) {
    match s.pc
    case Start => false
    case Unsubscribed => false
    case Done(_) => false
    case Aborted => false
    case Leaving(_) => s.fallbacks == 0
    case _ => true
  }

  predicate FutureOk(s: State) {
    && (s.future == Unsettled ==> s.queue == Values(s.queued))
    && (s.future.Result? ==> s.queued != [] && s.future.value == s.queued[0].value)
  }

  predicate PcOk(s: State) {
    match s.pc
    case Start => s.future == Unsettled && s.fallbacks == 0 && s.queued == []
    case Subscribed => s.future == Unsettled && s.fallbacks == 0
    case Waiting => s.future != Cancelled && s.fallbacks == 0
    case TimedOut => s.future != Unsettled && s.fallbacks == 0
    case Unsubscribed => s.future != Unsettled && s.fallbacks == 0
    case Leaving(v) => Outcome(s, v)
    case Done(v) => Outcome(s, v)
    case Aborting => s.future != Unsettled && s.fallbacks == 0
    case Aborted => s.future != Unsettled && s.fallbacks == 0
  }

  /** Either the future's result and no fallback, or one fallback and no value. */
  predicate Outcome(s: State, v: Value) {
    || (s.future == Result(v) && s.fallbacks == 0)
    || (s.future != Unsettled && v == None && s.fallbacks == 1)
  }

  predicate FlightsOk(node: string, s: State) {
    && (forall k :: 0 <= k < |s.flights| ==> s.flights[k].next <= |s.flights[k].snapshot|)
    && FallbacksOk(node, s)
    && (s.pc == Start ==> forall k :: 0 <= k < |s.flights| ==> Waiters(s.flights[k].snapshot) == 0)
  }

  /** A fallback event carries no value and was emitted when this wait was no longer registered. */
  predicate FallbacksOk(node: string, s: State) {
    forall k :: 0 <= k < |s.flights| && s.flights[k].fallback ==>
      s.flights[k].reply == Reply(node, None) && Waiters(s.flights[k].snapshot) == 0
  }

  /** A reply about to be passed on is a correlated one on its way to this wait's closure. */
  predicate HeldOk(node: string, s: State) {
    forall k :: 0 <= k < |s.flights| && s.flights[k].held ==>
      var f := s.flights[k];
      Correlated(node, f.reply) && f.next < |f.snapshot| && f.snapshot[f.next] == Waiter
  }

  predicate Inv(node: string, s: State) {
    && Without(s.subs) == s.others
    && Waiters(s.subs) == (if Registered(s) then 1 else 0)
    && FutureOk(s) && PcOk(s) && FlightsOk(node, s) && HeldOk(node, s)
    && (forall i :: 0 <= i < |s.queued| ==> Correlated(node, s.queued[i]))
    && (s.pc == Start ==> s.queued == [])
  }

  lemma {:induction false} NoWaiter(xs: seq<Subscriber>)
    requires Waiter !in xs
    ensures Without(xs) == xs && Waiters(xs) == 0
  {
    if xs != [] { NoWaiter(xs[..|xs| - 1]); }
  }

  lemma {:induction false} WaitersMember(xs: seq<Subscriber>)
    ensures Waiters(xs) > 0 <==> Waiter in xs
    ensures Waiters(xs) == 0 ==> Without(xs) == xs
  {
    if xs != [] {
      var front, last := xs[..|xs| - 1], xs[|xs| - 1];
      WaitersMember(front);
      assert xs == front + [last];
      assert Waiter in xs <==> Waiter in front || last == Waiter;
    }
  }

  lemma {:induction false} ConcatWithout(a: seq<Subscriber>, b: seq<Subscriber>)
    ensures Without(a + b) == Without(a) + Without(b) && Waiters(a + b) == Waiters(a) + Waiters(b)
  {
    if b == [] {
      assert a + b == a;
    } else {
      assert (a + b)[..|a + b| - 1] == a + b[..|b| - 1];
      ConcatWithout(a, b[..|b| - 1]);
    }
  }

  lemma {:induction false} RemoveWaiter(xs: seq<Subscriber>)
    ensures Without(RemoveFirst(xs, Waiter)) == Without(xs)
    ensures Waiters(RemoveFirst(xs, Waiter)) == if Waiters(xs) > 0 then Waiters(xs) - 1 else 0
  {
    if xs != [] {
      assert xs == [xs[0]] + xs[1..];
      ConcatWithout([xs[0]], xs[1..]);
      if xs[0] != Waiter {
        RemoveWaiter(xs[1..]);
        ConcatWithout([xs[0]], RemoveFirst(xs[1..], Waiter));
      }
    }
  }

  lemma {:induction false} RemoveOther(xs: seq<Subscriber>, id: nat)
    ensures Without(RemoveFirst(xs, Other(id))) == RemoveFirst(Without(xs), Other(id))
    ensures Waiters(RemoveFirst(xs, Other(id))) == Waiters(xs)
  {
    if xs != [] {
      assert xs == [xs[0]] + xs[1..];
      ConcatWithout([xs[0]], xs[1..]);
      var w := Without(xs[1..]);
      assert xs[0] != Waiter ==> Without(xs) == [xs[0]] + w && ([xs[0]] + w)[1..] == w;
      assert xs[0] == Waiter ==> Without(xs) == w;
      if xs[0] != Other(id) {
        RemoveOther(xs[1..], id);
        ConcatWithout([xs[0]], RemoveFirst(xs[1..], Other(id)));
      }
    }
  }

  lemma SubsKept(s: State, step: Step, node: string)
    requires Without(s.subs) == s.others && Waiters(s.subs) == (if Registered(s) then 1 else 0)
    requires PcOk(s) && Next(node, s, step).Some?
    ensures var t := Next(node, s, step).value;
            Without(t.subs) == t.others && Waiters(t.subs) == (if Registered(t) then 1 else 0)
  {
    if step.OthersOn? || step.OthersOff? {
      OthersKept(s, step, node);
    } else if step.Subscribe? || step.Unsubscribe? || step.Finally? {
      OwnKept(s, step, node);
    } else {
      UntouchedKept(s, step, node);
    }
  }

  lemma OwnKept(s: State, step: Step, node: string)
    requires step.Subscribe? || step.Unsubscribe? || step.Finally?
    requires Without(s.subs) == s.others && Waiters(s.subs) == (if Registered(s) then 1 else 0)
    requires PcOk(s) && Next(node, s, step).Some?
    ensures var t := Next(node, s, step).value;
            Without(t.subs) == t.others && Waiters(t.subs) == (if Registered(t) then 1 else 0)
  {
    if step.Subscribe? {
      ConcatWithout(s.subs, [Waiter]);
    } else {
      LeavingKept(s, step, node);
    }
  }

  lemma LeavingKept(s: State, step: Step, node: string)
    requires step.Unsubscribe? || step.Finally?
    requires Without(s.subs) == s.others && Waiters(s.subs) == (if Registered(s) then 1 else 0)
    requires PcOk(s) && Next(node, s, step).Some?
    ensures var t := Next(node, s, step).value;
            Without(t.subs) == t.others && Waiters(t.subs) == (if Registered(t) then 1 else 0)
  {
    RemoveWaiter(s.subs);
  }

  /** The remaining steps leave the list alone and this wait registered or not. */
  lemma UntouchedKept(s: State, step: Step, node: string)
    requires !step.OthersOn? && !step.OthersOff? && !step.Subscribe? && !step.Unsubscribe? && !step.Finally?
    requires PcOk(s) && Next(node, s, step).Some?
    ensures var t := Next(node, s, step).value;
            t.subs == s.subs && t.others == s.others && Registered(t) == Registered(s)
  {
  }

  lemma OthersKept(s: State, step: Step, node: string)
    requires step.OthersOn? || step.OthersOff?
    requires Without(s.subs) == s.others && Waiters(s.subs) == (if Registered(s) then 1 else 0)
    requires Next(node, s, step).Some?
    ensures var t := Next(node, s, step).value;
            Without(t.subs) == t.others && Waiters(t.subs) == (if Registered(t) then 1 else 0)
  {
    match step
    case OthersOn(id) =>
      ConcatWithout(s.subs, [Other(id)]);
    case OthersOff(id) => RemoveOther(s.subs, id);
  }

  lemma FutureKept(s: State, step: Step, node: string)
    requires FutureOk(s) && Next(node, s, step).Some?
    ensures FutureOk(Next(node, s, step).value)
  {
    var t := Next(node, s, step).value;
    if s.queued != t.queued {
      assert Values(t.queued) == Values(s.queued) + [t.queued[|s.queued|].value];
    }
  }

  lemma FallbacksKept(s: State, step: Step, node: string)
    requires FallbacksOk(node, s) && Waiters(s.subs) == (if Registered(s) then 1 else 0) && Next(node, s, step).Some?
    ensures FallbacksOk(node, Next(node, s, step).value)
  {
  }

  lemma FlightsKept(s: State, step: Step, node: string)
    requires FlightsOk(node, s) && HeldOk(node, s)
    requires Waiters(s.subs) == (if Registered(s) then 1 else 0) && Next(node, s, step).Some?
    ensures FlightsOk(node, Next(node, s, step).value)
  {
    FallbacksKept(s, step, node);
  }

  lemma HeldKept(s: State, step: Step, node: string)
    requires HeldOk(node, s) && Next(node, s, step).Some?
    ensures HeldOk(node, Next(node, s, step).value)
  {
  }

  lemma QueuedKept(s: State, step: Step, node: string)
    requires Inv(node, s) && Next(node, s, step).Some?
    ensures var t := Next(node, s, step).value;
            && (forall i :: 0 <= i < |t.queued| ==> Correlated(node, t.queued[i]))
            && (t.pc == Start ==> t.queued == [])
  {
    match step
    case PassOn(k) => WaitersMember(s.flights[k].snapshot);
    case _ =>
  }

  lemma InvKept(s: State, step: Step, node: string)
    requires Inv(node, s) && Next(node, s, step).Some?
    ensures Inv(node, Next(node, s, step).value)
  {
    SubsKept(s, step, node);
    FutureKept(s, step, node);
    FlightsKept(s, step, node);
    HeldKept(s, step, node);
    QueuedKept(s, step, node);
  }

  lemma {:induction false} InvHolds(node: string, subs: seq<Subscriber>, steps: seq<Step>)
    requires Waiter !in subs && After(node, subs, steps).Some?
    ensures Inv(node, After(node, subs, steps).value)
  {
    if steps == [] {
      NoWaiter(subs);
    } else {
      InvHolds(node, subs, steps[..|steps| - 1]);
      InvKept(After(node, subs, steps[..|steps| - 1]).value, steps[|steps| - 1], node);
    }
  }

  // ---------- what the handshake guarantees ----------

  lemma {:induction false} AfterPrefix(node: string, subs: seq<Subscriber>, steps: seq<Step>, i: nat)
    requires After(node, subs, steps).Some? && i <= |steps|
    ensures After(node, subs, steps[..i]).Some?
  {
    if i < |steps| {
      assert steps[..|steps| - 1][..i] == steps[..i];
      AfterPrefix(node, subs, steps[..|steps| - 1], i);
    } else {
      assert steps[..i] == steps;
    }
  }

  /** Once settled, the future never changes: it settles at most once. */
  lemma {:induction false} SettlesOnce(node: string, subs: seq<Subscriber>, steps: seq<Step>, i: nat)
    requires After(node, subs, steps).Some? && i <= |steps|
    ensures After(node, subs, steps[..i]).Some?
    ensures After(node, subs, steps[..i]).value.future != Unsettled ==>
              After(node, subs, steps).value.future == After(node, subs, steps[..i]).value.future
  {
    AfterPrefix(node, subs, steps, i);
    if i < |steps| {
      assert steps[..|steps| - 1][..i] == steps[..i];
      SettlesOnce(node, subs, steps[..|steps| - 1], i);
    } else {
      assert steps[..i] == steps;
    }
  }

  /**
   What a finished wait returns: the first correlated reply that was passed to the loop, and then no
   fallback was emitted; or nothing, after exactly one fallback event.
   */
  lemma ReturnedValue(node: string, subs: seq<Subscriber>, steps: seq<Step>)
    requires Waiter !in subs
    requires After(node, subs, steps).Some? && After(node, subs, steps).value.pc.Done?
    ensures var s := After(node, subs, steps).value;
            || (&& s.fallbacks == 0 && s.queued != []
                && (node == "" || s.queued[0].node == "" || s.queued[0].node == node)
                && s.pc.result == s.queued[0].value)
            || (s.fallbacks == 1 && s.pc.result == None)
  {
    InvHolds(node, subs, steps);
  }

  /**
   What the closure does when a dispatch reaches it: while the future is open a reply is on its way to the
   loop exactly when one side carries no node or both the same; any other reply is done with.
   */
  lemma DeliveredExactly(node: string, s: State, k: nat)
    requires k < |s.flights| && !s.flights[k].held && s.flights[k].next < |s.flights[k].snapshot|
    requires s.flights[k].snapshot[s.flights[k].next] == Waiter
    ensures Next(node, s, Deliver(k)).Some?
    ensures var f, t := s.flights[k], Next(node, s, Deliver(k)).value;
            && t.flights[k].reply == f.reply && t.queued == s.queued
            && (t.flights[k].held <==>
                  s.future == Unsettled && (node == "" || f.reply.node == "" || f.reply.node == node))
            && (!t.flights[k].held ==> t.flights[k].next == f.next + 1)
            && (t.flights[k].held ==>
                  Next(node, t, PassOn(k)).Some? && Next(node, t, PassOn(k)).value.queued == s.queued + [f.reply])
  {
  }

  /** Every reply anyone emits names another node. */
  predicate OthersOnly(node: string, steps: seq<Step>) {
    forall i :: 0 <= i < |steps| && steps[i].Emit? ==> steps[i].reply.node != "" && steps[i].reply.node != node
  }

  /** What is under way is for another node, but for this wait's own fallback. */
  predicate ForeignFlights(node: string, s: State) {
    forall k :: 0 <= k < |s.flights| && !s.flights[k].fallback ==>
      s.flights[k].reply.node != "" && s.flights[k].reply.node != node
  }

  lemma ForeignStep(node: string, s: State, step: Step)
    requires node != "" && Inv(node, s) && ForeignFlights(node, s) && Next(node, s, step).Some?
    requires step.Emit? ==> step.reply.node != "" && step.reply.node != node
    ensures var t := Next(node, s, step).value; ForeignFlights(node, t) && t.queued == s.queued
  {
    if step.PassOn? {
      var f := s.flights[step.k];
      assert Waiters(f.snapshot) == 0 by { assert f.fallback; }
      WaitersMember(f.snapshot);
      assert false;
    }
  }

  /** Replies to other nodes never reach a wait that names its own: it can only time out or be cancelled. */
  lemma {:induction false} OthersAreIgnored(node: string, subs: seq<Subscriber>, steps: seq<Step>)
    requires Waiter !in subs && node != "" && OthersOnly(node, steps) && After(node, subs, steps).Some?
    ensures var s := After(node, subs, steps).value;
            ForeignFlights(node, s) && s.queued == [] && !s.future.Result? && (s.pc.Done? ==> s.pc.result == None)
  {
    InvHolds(node, subs, steps);
    if steps != [] {
      var n := |steps| - 1;
      OthersAreIgnored(node, subs, steps[..n]);
      InvHolds(node, subs, steps[..n]);
      ForeignStep(node, After(node, subs, steps[..n]).value, steps[n]);
    }
  }

  /** Every exit, by reply, timeout or cancellation, leaves the subscriber list as without the wait. */
  lemma ExitRestoresSubscribers(node: string, subs: seq<Subscriber>, steps: seq<Step>)
    requires Waiter !in subs && After(node, subs, steps).Some?
    requires var pc := After(node, subs, steps).value.pc; pc.Done? || pc.Aborted?
    ensures var s := After(node, subs, steps).value; s.subs == s.others && Waiter !in s.subs
  {
    InvHolds(node, subs, steps);
    WaitersMember(After(node, subs, steps).value.subs);
  }

  /** Once it has deregistered, the wait is in no list. */
  lemma GoneFromList(node: string, subs: seq<Subscriber>, steps: seq<Step>)
    requires Waiter !in subs && After(node, subs, steps).Some? && After(node, subs, steps).value.pc == Unsubscribed
    ensures var s := After(node, subs, steps).value; s.subs == s.others && s.fallbacks == 0
  {
    InvHolds(node, subs, steps);
    WaitersMember(After(node, subs, steps).value.subs);
  }

  /** The fallback goes out to exactly the other subscribers of that moment. */
  lemma FallbackReachesOthers(node: string, subs: seq<Subscriber>, steps: seq<Step>)
    requires Waiter !in subs && After(node, subs, steps).Some? && After(node, subs, steps).value.pc == Unsubscribed
    ensures var s := After(node, subs, steps).value;
            Next(node, s, Fallback) == Some(s.(pc := Leaving(None), fallbacks := 1,
              flights := s.flights + [Flight(Reply(node, None), s.others, 0, false, true)]))
  {
    GoneFromList(node, subs, steps);
  }

  /** A wait that returned without a reply has sent its fallback. */
  lemma {:induction false} FallbackIsSent(node: string, subs: seq<Subscriber>, steps: seq<Step>)
    requires After(node, subs, steps).Some? && After(node, subs, steps).value.fallbacks > 0
    ensures var s := After(node, subs, steps).value; exists k :: 0 <= k < |s.flights| && s.flights[k].fallback
  {
    var n := |steps| - 1;
    var before, s := After(node, subs, steps[..n]).value, After(node, subs, steps).value;
    if before.fallbacks > 0 {
      FallbackIsSent(node, subs, steps[..n]);
      GoesOnStep(node, before, steps[n]);
      var k :| 0 <= k < |before.flights| && before.flights[k].fallback;
      assert s.flights[k].fallback;
    } else {
      assert s.flights[|s.flights| - 1].fallback;
    }
  }

  lemma OneMoreFrom(node: string, subs: seq<Subscriber>, steps: seq<Step>, step: Step) returns (more: seq<Step>)
    requires After(node, subs, steps).Some? && Next(node, After(node, subs, steps).value, step).Some?
    ensures steps <= more && |more| == |steps| + 1
    ensures After(node, subs, more) == Next(node, After(node, subs, steps).value, step)
  {
    more := steps + [step];
    assert more[..|steps|] == steps;
  }

  /** A wait that can be cancelled ends so, with every subscriber list as without it. */
  lemma CancelEnds(node: string, subs: seq<Subscriber>, steps: seq<Step>) returns (more: seq<Step>)
    requires Waiter !in subs && After(node, subs, steps).Some?
    requires var pc := After(node, subs, steps).value.pc; pc == Waiting || pc == TimedOut
    ensures steps <= more && After(node, subs, more).Some?
    ensures var s := After(node, subs, more).value; s.pc == Aborted && s.subs == s.others && Waiter !in s.subs
  {
    more := OneMoreFrom(node, subs, steps, Cancel);
    more := OneMoreFrom(node, subs, more, Finally);
    ExitRestoresSubscribers(node, subs, more);
  }

  /** The step the wait itself takes next, if it is in no one else's hands. */
  function NextOwn(pc: Pc): Step {
    match pc
    case Start => Subscribe
    case Subscribed => Announce
    case Waiting => Timeout
    case TimedOut => Unsubscribe
    case Unsubscribed => Fallback
    case _ => Finally
  }

  /** How many steps it is from the end then. */
  function ToEnd(pc: Pc): nat {
    match pc
    case Start => 6
    case Subscribed => 5
    case Waiting => 4
    case TimedOut => 3
    case Unsubscribed => 2
    case Leaving(_) => 1
    case Aborting => 1
    case _ => 0
  }

  lemma OwnStepTaken(node: string, s: State)
    requires ToEnd(s.pc) > 0
    ensures Next(node, s, NextOwn(s.pc)).Some?
    ensures ToEnd(Next(node, s, NextOwn(s.pc)).value.pc) < ToEnd(s.pc)
  {
  }

  /** From wherever interleaving has led, the wait can still be brought to its end: it never gets stuck. */
  lemma {:induction false} EveryWaitCanEnd(node: string, subs: seq<Subscriber>, steps: seq<Step>)
    returns (more: seq<Step>)
    requires After(node, subs, steps).Some?
    ensures steps <= more && |more| <= |steps| + 6 && After(node, subs, more).Some?
    ensures var pc := After(node, subs, more).value.pc; pc.Done? || pc == Aborted
    ensures |more| <= |steps| + ToEnd(After(node, subs, steps).value.pc)
    decreases ToEnd(After(node, subs, steps).value.pc)
  {
    var s := After(node, subs, steps).value;
    if ToEnd(s.pc) == 0 {
      more := steps;
    } else {
      OwnStepTaken(node, s);
      more := OneMoreFrom(node, subs, steps, NextOwn(s.pc));
      more := EveryWaitCanEnd(node, subs, more);
    }
  }

  /** The fallback event is never delivered to the wait that emitted it. */
  lemma FallbackNeverReenters(node: string, subs: seq<Subscriber>, steps: seq<Step>, k: nat)
    requires Waiter !in subs && After(node, subs, steps).Some?
    requires var s := After(node, subs, steps).value; k < |s.flights| && s.flights[k].fallback
    ensures var f := After(node, subs, steps).value.flights[k];
            f.reply == Reply(node, None) && Waiter !in f.snapshot
  {
    InvHolds(node, subs, steps);
    WaitersMember(After(node, subs, steps).value.flights[k].snapshot);
  }

  lemma {:induction false} QueuedGrows(node: string, subs: seq<Subscriber>, steps: seq<Step>, i: nat)
    requires After(node, subs, steps).Some? && i <= |steps|
    ensures After(node, subs, steps[..i]).Some?
    ensures After(node, subs, steps[..i]).value.queued <= After(node, subs, steps).value.queued
  {
    AfterPrefix(node, subs, steps, i);
    if i < |steps| {
      assert steps[..|steps| - 1][..i] == steps[..i];
      QueuedGrows(node, subs, steps[..|steps| - 1], i);
    } else {
      assert steps[..i] == steps;
    }
  }

  /**
   A reply passed on after the future has settled changes nothing: neither the future nor what the
   wait returns, which is the first reply queued before that point unless the timer won.
   */
  lemma LateReplyIsHarmless(node: string, subs: seq<Subscriber>, steps: seq<Step>, i: nat)
    requires Waiter !in subs && After(node, subs, steps).Some? && i <= |steps|
    ensures After(node, subs, steps[..i]).Some?
    ensures var early, late := After(node, subs, steps[..i]).value, After(node, subs, steps).value;
            early.future != Unsettled ==>
            && late.future == early.future
            && (late.pc.Done? && late.fallbacks == 0 ==>
                  early.queued != [] && late.pc.result == early.queued[0].value)
            && (late.pc.Done? && late.fallbacks > 0 ==> late.pc.result == None)
  {
    SettlesOnce(node, subs, steps, i);
    QueuedGrows(node, subs, steps, i);
    InvHolds(node, subs, steps[..i]);
    InvHolds(node, subs, steps);
  }

  /** The wait was cancelled and cannot return any more. */
  predicate Cancelling(pc: Pc) {
    pc == Aborting || pc == Aborted
  }

  /** The timer has fired: the fallback is on its way or was emitted. */
  predicate TimerFired(s: State) {
    s.pc == TimedOut || s.pc == Unsubscribed || s.fallbacks > 0
  }

  lemma PcHolds(node: string, subs: seq<Subscriber>, steps: seq<Step>)
    requires Waiter !in subs && After(node, subs, steps).Some?
    ensures PcOk(After(node, subs, steps).value)
  {
    InvHolds(node, subs, steps);
  }

  lemma TimerStep(node: string, s: State, step: Step)
    requires PcOk(s) && Next(node, s, step).Some? && !Cancelling(Next(node, s, step).value.pc)
    ensures !Cancelling(s.pc) && (TimerFired(Next(node, s, step).value) <==> TimerFired(s) || step == Timeout)
  {
  }

  lemma TimerLast(node: string, subs: seq<Subscriber>, steps: seq<Step>)
    requires Waiter !in subs && steps != [] && After(node, subs, steps).Some?
    requires !Cancelling(After(node, subs, steps).value.pc)
    ensures var n := |steps| - 1;
            && After(node, subs, steps[..n]).Some? && !Cancelling(After(node, subs, steps[..n]).value.pc)
            && (TimerFired(After(node, subs, steps).value) <==>
                  TimerFired(After(node, subs, steps[..n]).value) || steps[n] == Timeout)
  {
    var n := |steps| - 1;
    PcHolds(node, subs, steps[..n]);
    TimerStep(node, After(node, subs, steps[..n]).value, steps[n]);
  }

  /** As long as the wait can still return, its state shows whether the timer has fired. */
  lemma {:induction false} TimerFiredExactly(node: string, subs: seq<Subscriber>, steps: seq<Step>)
    requires Waiter !in subs && After(node, subs, steps).Some? && !Cancelling(After(node, subs, steps).value.pc)
    ensures TimerFired(After(node, subs, steps).value) <==> Timeout in steps
  {
    if steps != [] {
      var n := |steps| - 1;
      TimerLast(node, subs, steps);
      TimerFiredExactly(node, subs, steps[..n]);
      assert steps == steps[..n] + [steps[n]];
    }
  }

  /** A finished wait returns its first queued reply exactly when the timer did not fire, settled or not. */
  lemma ReplyReturnedExactly(node: string, subs: seq<Subscriber>, steps: seq<Step>)
    requires Waiter !in subs
    requires After(node, subs, steps).Some? && After(node, subs, steps).value.pc.Done?
    ensures var s := After(node, subs, steps).value;
            if Timeout in steps then s.fallbacks == 1 && s.pc.result == None
            else s.fallbacks == 0 && s.queued != [] && s.pc.result == s.queued[0].value
  {
    TimerFiredExactly(node, subs, steps);
    InvHolds(node, subs, steps);
  }

  /** From no subscribers, these steps lead to this state. */
  predicate Leads(node: string, steps: seq<Step>, s: State) {
    After(node, [], steps) == Some(s)
  }

  lemma OneMore(node: string, steps: seq<Step>, s: State, step: Step) returns (more: seq<Step>, t: State)
    requires Leads(node, steps, s) && Next(node, s, step).Some?
    ensures more == steps + [step] && t == Next(node, s, step).value && Leads(node, more, t)
  {
    more, t := steps + [step], Next(node, s, step).value;
    assert more[..|steps|] == steps;
  }

  function Arriving(node: string, v: Value, next: nat, held: bool): Flight {
    Flight(Reply(node, v), [Waiter], next, held, false)
  }

  /** The question is out and nothing has been answered. */
  lemma AskedIsReached(node: string) returns (steps: seq<Step>, s: State)
    ensures Leads(node, steps, s) && steps == [Subscribe, Announce]
    ensures s == State(Waiting, Unsettled, [], s.subs, s.others, [], [], 0) && s.subs == [Waiter] && s.others == []
  {
    steps, s := [], Initial([]);
    assert Leads(node, steps, s);
    steps, s := OneMore(node, steps, s, Subscribe);
    steps, s := OneMore(node, steps, s, Announce);
  }

  lemma BothInFlight(node: string, a: Value, b: Value) returns (steps: seq<Step>, s: State)
    ensures steps == [Subscribe, Announce, Emit(Reply(node, a)), Emit(Reply(node, b))]
    ensures Leads(node, steps, s) && s.pc == Waiting && s.future == Unsettled && s.queue == [] && s.queued == []
    ensures s.flights == [Arriving(node, a, 0, false), Arriving(node, b, 0, false)]
  {
    steps, s := AskedIsReached(node);
    steps, s := OneMore(node, steps, s, Emit(Reply(node, a)));
    assert s.flights == [Arriving(node, a, 0, false)];
    steps, s := OneMore(node, steps, s, Emit(Reply(node, b)));
  }

  /** Two dispatches have tested the open future before either passed its reply on. */
  lemma BothTested(node: string, a: Value, b: Value) returns (steps: seq<Step>, s: State)
    ensures steps == [Subscribe, Announce, Emit(Reply(node, a)), Emit(Reply(node, b)), Deliver(0), Deliver(1)]
    ensures Leads(node, steps, s) && s.pc == Waiting && s.future == Unsettled && s.queue == [] && s.queued == []
    ensures s.flights == [Arriving(node, a, 0, true), Arriving(node, b, 0, true)]
  {
    steps, s := BothInFlight(node, a, b);
    steps, s := OneMore(node, steps, s, Deliver(0));
    assert s.flights == [Arriving(node, a, 0, true), Arriving(node, b, 0, false)];
    steps, s := OneMore(node, steps, s, Deliver(1));
  }

  /** Two threads test the open future, the first reply settles it, and then the second is passed on. */
  function LateRun(node: string, a: Value, b: Value): seq<Step> {
    [Subscribe, Announce, Emit(Reply(node, a)), Emit(Reply(node, b)), Deliver(0), Deliver(1), PassOn(0),
     RunQueued, PassOn(1)]
  }

  /** Late replies happen. */
  lemma ReplyCanBeLate(node: string, a: Value, b: Value)
    ensures var early, late := After(node, [], LateRun(node, a, b)[..8]), After(node, [], LateRun(node, a, b));
            && early.Some? && early.value.future == Result(a) && early.value.queued == [Reply(node, a)]
            && late.Some? && late.value.future == Result(a) && late.value.queued == [Reply(node, a), Reply(node, b)]
  {
    var steps, s := BothTested(node, a, b);
    steps, s := OneMore(node, steps, s, PassOn(0));
    assert s.queue == [a] && s.queued == [Reply(node, a)];
    steps, s := OneMore(node, steps, s, RunQueued);
    assert steps == LateRun(node, a, b)[..8];
    steps, s := OneMore(node, steps, s, PassOn(1));
    assert steps == LateRun(node, a, b);
  }

  lemma OneSettled(node: string, a: Value) returns (steps: seq<Step>, s: State)
    ensures steps == [Subscribe, Announce, Emit(Reply(node, a)), Deliver(0), PassOn(0), RunQueued]
    ensures Leads(node, steps, s) && s.pc == Waiting && s.future == Result(a) && s.subs == [Waiter]
    ensures s.queued == [Reply(node, a)] && s.fallbacks == 0
  {
    steps, s := AskedIsReached(node);
    steps, s := OneMore(node, steps, s, Emit(Reply(node, a)));
    assert s.flights == [Arriving(node, a, 0, false)];
    steps, s := OneMore(node, steps, s, Deliver(0));
    assert s.flights == [Arriving(node, a, 0, true)];
    steps, s := OneMore(node, steps, s, PassOn(0));
    assert s.queue == [a];
    steps, s := OneMore(node, steps, s, RunQueued);
  }

  /** A reply settles the future, and the timer fires before the coroutine wakes up. */
  function LostRun(node: string, a: Value): seq<Step> {
    [Subscribe, Announce, Emit(Reply(node, a)), Deliver(0), PassOn(0), RunQueued, Timeout, Unsubscribe,
     Fallback, Finally]
  }

  /** A settled reply can be lost. */
  lemma ReplyCanBeLost(node: string, a: Value)
    ensures var end := After(node, [], LostRun(node, a));
            && end.Some? && end.value.pc == Done(None) && end.value.fallbacks == 1
            && end.value.future == Result(a) && end.value.queued == [Reply(node, a)]
  {
    var steps, s := OneSettled(node, a);
    steps, s := OneMore(node, steps, s, Timeout);
    steps, s := OneMore(node, steps, s, Unsubscribe);
    steps, s := OneMore(node, steps, s, Fallback);
    steps, s := OneMore(node, steps, s, Finally);
    assert steps == LostRun(node, a);
  }

  /** Every dispatch of the earlier state goes on in the later one: the same recipients, none unreached again. */
  predicate GoesOn(early: State, late: State) {
    |early.flights| <= |late.flights| && forall k :: 0 <= k < |early.flights| ==>
      late.flights[k].snapshot == early.flights[k].snapshot && early.flights[k].next <= late.flights[k].next
  }

  lemma GoesOnStep(node: string, s: State, step: Step)
    requires Next(node, s, step).Some?
    ensures GoesOn(s, Next(node, s, step).value)
  {
  }

  /** A registration or removal during a dispatch never changes who that dispatch still reaches. */
  lemma {:induction false} SnapshotFixed(node: string, subs: seq<Subscriber>, steps: seq<Step>, i: nat)
    requires After(node, subs, steps).Some? && i <= |steps|
    ensures After(node, subs, steps[..i]).Some?
    ensures GoesOn(After(node, subs, steps[..i]).value, After(node, subs, steps).value)
  {
    if i < |steps| {
      var n := |steps| - 1;
      assert steps[..n][..i] == steps[..i];
      SnapshotFixed(node, subs, steps[..n], i);
      GoesOnStep(node, After(node, subs, steps[..n]).value, steps[n]);
    } else {
      assert steps[..i] == steps;
    }
  }
}
