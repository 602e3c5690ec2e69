/**
 The two copies of the open question kept outside the wait: the orchestrator's, which goes into
 checkpoints, and the dashboard's, which draws the gate.
 */
module Gates {
  import opened Basics

  datatype Event = Await(question: string) | Answered

  /** What either observer does with an event, whatever it held before. */
  function Effect(e: Event): Option<string> {
    match e
    case Await(q) => Some(q)
    case Answered => None
  }

  /** A dispatch under way calls the observers in the order they registered. */
  datatype Dispatch = Dispatch(event: Event, called: nat)

  datatype State = State(first: Option<string>, second: Option<string>, dispatches: seq<Dispatch>)

  datatype Step = Emit(event: Event) | Call(k: nat)

  function Next(s: State, step: Step): Option<State> {
    match step
    case Emit(e) => Some(s.(dispatches := s.dispatches + [Dispatch(e, 0)]))
    case Call(k) =>
      if k >= |s.dispatches| || s.dispatches[k].called >= 2 then None
      else
        var d := s.dispatches[k];
        var moved := s.(dispatches := s.dispatches[k := d.(called := d.called + 1)]);
        Some(if d.called == 0 then moved.(first := Effect(d.event)) else moved.(second := Effect(d.event)))
  }

  /** No dispatch is under way. */
  predicate Quiet(s: State) {
    forall k :: 0 <= k < |s.dispatches| ==> s.dispatches[k].called == 2
  }

  function After(s: State, steps: seq<Step>): Option<State> {
    if steps == [] then Some(s)
    else
      match After(s, steps[..|steps| - 1])
      case None => None
      case Some(t) => Next(t, steps[|steps| - 1])
  }

  /** Nobody emits while a dispatch is under way. */
  predicate Serial(s: State, steps: seq<Step>) {
    forall i :: 0 <= i < |steps| && steps[i].Emit? ==>
      After(s, steps[..i]).Some? && Quiet(After(s, steps[..i]).value)
  }

  /** At most one dispatch is under way, and the copies differ only between its two calls. */
  predicate Synced(s: State) {
    && (forall k :: 0 <= k < |s.dispatches| - 1 ==> s.dispatches[k].called == 2)
    && (s.dispatches != [] ==> s.dispatches[|s.dispatches| - 1].called <= 2)
    && (s.dispatches == [] || s.dispatches[|s.dispatches| - 1].called != 1 ==> s.first == s.second)
    && (s.dispatches != [] && s.dispatches[|s.dispatches| - 1].called == 1 ==>
          s.first == Effect(s.dispatches[|s.dispatches| - 1].event))
  }

  lemma {:induction false} SerialSynced(steps: seq<Step>)
    requires var idle := State(None, None, []); Serial(idle, steps) && After(idle, steps).Some?
    ensures Synced(After(State(None, None, []), steps).value)
  {
    var idle := State(None, None, []);
    if steps != [] {
      var n := |steps| - 1;
      forall i | 0 <= i < n && steps[..n][i].Emit?
        ensures After(idle, steps[..n][..i]).Some? && Quiet(After(idle, steps[..n][..i]).value)
      {
        assert steps[..n][..i] == steps[..i];
        assert steps[i].Emit?;
      }
      SerialSynced(steps[..n]);
      var s := After(idle, steps[..n]).value;
      match steps[n]
      case Emit(e) =>
      case Call(k) =>
        assert k == |s.dispatches| - 1;
    }
  }

  /** In a fresh run without overlapping dispatches the copies agree after each dispatch. */
  lemma CopiesAgree(steps: seq<Step>)
    requires var idle := State(None, None, []); Serial(idle, steps) && After(idle, steps).Some?
    requires Quiet(After(State(None, None, []), steps).value)
    ensures var s := After(State(None, None, []), steps).value; s.first == s.second
  {
    SerialSynced(steps);
    var s := After(State(None, None, []), steps).value;
    if s.dispatches != [] {
      assert s.dispatches[|s.dispatches| - 1].called == 2;
    }
  }

  /** The dispatch whose call reached an observer last: observer 0 is called first, observer 1 second. */
  function Last(start: State, steps: seq<Step>, observer: nat): Option<nat> {
    if steps == [] then None
    else
      var before, n := After(start, steps[..|steps| - 1]), |steps| - 1;
      if before.Some? && steps[n].Call? && steps[n].k < |before.value.dispatches|
         && before.value.dispatches[steps[n].k].called == observer
      then Some(steps[n].k)
      else Last(start, steps[..n], observer)
  }

  /** The copy left by a dispatch, or the initial one when none has reached the observer. */
  function CopyLeftBy(s: State, last: Option<nat>, initially: Option<string>): Option<string> {
    if last.Some? && last.value < |s.dispatches| then Effect(s.dispatches[last.value].event) else initially
  }

  /** In every run, with any number of dispatches under way, each copy is the one its last dispatch left. */
  lemma {:induction false} LastDecides(start: State, steps: seq<Step>)
    requires After(start, steps).Some?
    ensures var s := After(start, steps).value;
            && s.first == CopyLeftBy(s, Last(start, steps, 0), start.first)
            && s.second == CopyLeftBy(s, Last(start, steps, 1), start.second)
            && (forall at :: Last(start, steps, at).Some? ==> Last(start, steps, at).value < |s.dispatches|)
  {
    if steps != [] {
      var n := |steps| - 1;
      LastDecides(start, steps[..n]);
    }
  }

  /**
   In every run, however many dispatches overlap, the copies agree exactly when the last dispatches to
   reach the two observers left the same.
   */
  lemma CopiesAgreeExactly(start: State, steps: seq<Step>)
    requires After(start, steps).Some?
    ensures var s := After(start, steps).value;
            s.first == s.second <==>
            CopyLeftBy(s, Last(start, steps, 0), start.first) == CopyLeftBy(s, Last(start, steps, 1), start.second)
  {
    LastDecides(start, steps);
  }

  /**
   Two overlapping dispatches, with `swapFirst` and `swapSecond` telling whether the later one
   overtakes the earlier one at each observer: the copies agree in the end exactly when both
   observers see the same order, or the events have the same effect.
   */
  lemma OverlapAgreesExactly(s: State, a: Event, b: Event, swapFirst: bool, swapSecond: bool)
    requires s.dispatches == []
    ensures var firstCalls := if swapFirst then [Call(1), Call(0)] else [Call(0), Call(1)];
            var secondCalls := if swapSecond then [Call(1), Call(0)] else [Call(0), Call(1)];
            var end := After(s, [Emit(a), Emit(b)] + firstCalls + secondCalls);
            && end.Some? && Quiet(end.value)
            && (end.value.first == end.value.second <==> swapFirst == swapSecond || Effect(a) == Effect(b))
  {
    AfterSix(s, Emit(a), Emit(b),
             if swapFirst then Call(1) else Call(0), if swapFirst then Call(0) else Call(1),
             if swapSecond then Call(1) else Call(0), if swapSecond then Call(0) else Call(1));
  }

  function Bind(s: Option<State>, step: Step): Option<State> {
    match s
    case None => None
    case Some(t) => Next(t, step)
  }

  lemma AfterSnoc(s: State, steps: seq<Step>, step: Step)
    ensures After(s, steps + [step]) == Bind(After(s, steps), step)
  {
    assert (steps + [step])[..|steps|] == steps;
  }

  lemma AfterPair(s: State, steps: seq<Step>, c: Step, d: Step)
    ensures After(s, steps + [c, d]) == Bind(Bind(After(s, steps), c), d)
  {
    assert steps + [c, d] == (steps + [c]) + [d];
    AfterSnoc(s, steps, c);
    AfterSnoc(s, steps + [c], d);
  }

  lemma AfterSix(s: State, a: Step, b: Step, c: Step, d: Step, e: Step, f: Step)
    ensures After(s, [a, b] + [c, d] + [e, f]) == Bind(Bind(Bind(Bind(Bind(Next(s, a), b), c), d), e), f)
  {
    AfterPair(s, [], a, b);
    assert [] + [a, b] == [a, b];
    AfterPair(s, [a, b], c, d);
    AfterPair(s, [a, b] + [c, d], e, f);
  }

  /**
   The thread answering an old question while the next one is being announced: the checkpoint
   loses a question the dashboard still shows.
   */
  lemma OverlapCanDisagree(q: string)
    ensures var end := After(State(None, None, []),
              [Emit(Await(q)), Emit(Answered)] + [Call(0), Call(1)] + [Call(1), Call(0)]);
            end.Some? && Quiet(end.value) && end.value.first == None && end.value.second == Some(q)
  {
    AfterSix(State(None, None, []), Emit(Await(q)), Emit(Answered), Call(0), Call(1), Call(1), Call(0));
  }
}
