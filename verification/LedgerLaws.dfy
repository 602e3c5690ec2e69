/**
 Invariants of the live ledger over every sequence of events.
 */
module LedgerLaws {
  import opened Basics
  import opened Ledger

  // ---------- the history of best scores ----------

  predicate Improving(minimize: bool, history: seq<real>) {
    forall i, j :: 0 <= i < j < |history| ==> Better(minimize, history[j], history[i])
  }

  predicate HistoryOk(s: Scores) {
    && |s.history| <= CAP
    && Improving(s.minimize, s.history)
    && (s.best.None? <==> s.history == [])
    && (s.best.Some? ==> s.history[|s.history| - 1] == s.best.value)
  }

  lemma BumpKeepsHistory(s: Scores, score: real)
    requires HistoryOk(s)
    ensures HistoryOk(Bumped(s, score))
    ensures !Better(s.minimize, score, Bumped(s, score).best.value)
  {
    if s.best.None? || Better(s.minimize, score, s.best.value) {
      ImprovingSnoc(s.minimize, s.history, score);
    }
  }

  lemma ImprovingSnoc(minimize: bool, history: seq<real>, score: real)
    requires Improving(minimize, history)
    requires history != [] ==> Better(minimize, score, history[|history| - 1])
    ensures Improving(minimize, history + [score])
    ensures forall k: nat :: k <= |history| ==> Improving(minimize, (history + [score])[k..])
  {
    forall i | 0 <= i < |history| ensures Better(minimize, score, history[i]) {
      assert i < |history| - 1 ==> Better(minimize, history[|history| - 1], history[i]);
    }
  }

  /** Every event keeps the history, direction changes and reseeding included. */
  lemma HandledKeepsHistory(l: Ledger, e: Event)
    requires HistoryOk(l.scores)
    ensures HistoryOk(Handled(l, e).scores)
  {
    match e
    case IdeaCompleted(_, score, _) => if score.Some? { BumpKeepsHistory(l.scores, score.value); }
    case IdeaMerged(_, score) => if score.Some? { BumpKeepsHistory(l.scores, score.value); }
    case ExecutorEnd(_, score, _) => if score.Some? { BumpKeepsHistory(l.scores, score.value); }
    case Convergence(score) => if score.Some? { BumpKeepsHistory(l.scores, score.value); }
    case _ =>
  }

  function After(l: Ledger, events: seq<Event>): Ledger {
    if events == [] then l else Handled(After(l, events[..|events| - 1]), events[|events| - 1])
  }

  /**
   Over any event sequence the best-score history is strictly improving in the current
   direction, at most 64 long, and ends at the best score, being empty exactly when there is none.
   */
  lemma {:induction false} HistoryAlways(events: seq<Event>)
    ensures HistoryOk(After(Empty(), events).scores)
  {
    if events != [] {
      HistoryAlways(events[..|events| - 1]);
      HandledKeepsHistory(After(Empty(), events[..|events| - 1]), events[|events| - 1]);
    }
  }

  /** A better score is put behind the history, of which only the last 64 are kept; any other changes nothing. */
  lemma BumpedExactly(s: Scores, score: real)
    ensures var t := Bumped(s, score);
            && t.minimize == s.minimize
            && if s.best.None? || (if s.minimize then score < s.best.value else score > s.best.value)
               then
                 && t.best == Some(score) && t.history != [] && |t.history| <= Cap(|s.history| + 1)
                 && t.history == (s.history + [score])[|s.history| + 1 - |t.history|..]
                 && (|s.history| <= 64 ==> |t.history| == Cap(|s.history| + 1))
               else t == s
  {
  }

  function Cap(n: nat): nat {
    if n < 64 then n else 64
  }

  /** A recomputed best is the score of a completed idea, and no completed idea is better. */
  lemma {:induction false} RecomputedIsBest(ideas: Ideas, ids: seq<string>, minimize: bool)
    ensures var b := BestOf(ideas, ids, minimize);
            && (b.None? <==> forall i :: 0 <= i < |ids| && ids[i] in ideas ==> !Scored(ideas[ids[i]]))
            && (b.Some? ==>
                  && (exists i :: 0 <= i < |ids| && ids[i] in ideas
                        && Scored(ideas[ids[i]]) && ideas[ids[i]].score == b)
                  && forall i :: 0 <= i < |ids| && ids[i] in ideas && Scored(ideas[ids[i]]) ==>
                       !Better(minimize, ideas[ids[i]].score.value, b.value))
  {
    if ids != [] {
      var n := |ids| - 1;
      RecomputedIsBest(ideas, ids[..n], minimize);
      var before := BestOf(ideas, ids[..n], minimize);
      assert forall i :: 0 <= i < n ==> ids[..n][i] == ids[i];
      if before.Some? {
        var i :| 0 <= i < n && ids[..n][i] in ideas && Scored(ideas[ids[..n][i]]) && ideas[ids[..n][i]].score == before;
        assert ids[i] in ideas && Scored(ideas[ids[i]]) && ideas[ids[i]].score == before;
      }
      assert ids[n] in ideas ==> ideas[ids[n]] == ideas[ids[n]];
    }
  }

  // ---------- the ledger's keys ----------

  /** `idea_order` lists the ledger's keys once each. */
  ghost predicate KeysOk(l: Ledger) {
    Distinct(l.order) && forall id :: id in l.order <==> id in l.ideas
  }

  lemma UpsertKeepsKeys(l: Ledger, id: string)
    requires KeysOk(l)
    ensures KeysOk(Upserted(l, id)) && id in Upserted(l, id).ideas
  {
  }

  lemma RecordKeepsKeys(l: Ledger, id: string, r: Record)
    requires KeysOk(l) && id in l.ideas
    ensures KeysOk(WithRecord(l, id, r))
  {
  }

  lemma {:induction false} SeededKeepsKeys(l: Ledger, entries: seq<(string, SeedNode)>)
    requires KeysOk(l)
    ensures KeysOk(Seeded(l, entries))
  {
    if entries != [] {
      var before := Seeded(l, entries[..|entries| - 1]);
      var (id, n) := entries[|entries| - 1];
      SeededKeepsKeys(l, entries[..|entries| - 1]);
      UpsertKeepsKeys(before, id);
      RecordKeepsKeys(Upserted(before, id), id, Record(n.hypothesis, n.status, n.score, n.parent, n.branch));
    }
  }

  lemma HandledKeepsKeys(l: Ledger, e: Event)
    requires KeysOk(l)
    ensures KeysOk(Handled(l, e))
  {
    match e
    case Seed(entries, m) => SeededKeepsKeys(l, entries);
    case TreeMeta(_) =>
    case Convergence(_) =>
    case _ => UpsertKeepsKeys(l, e.node);
  }

  lemma {:induction false} KeysCounted(ideas: Ideas, order: seq<string>)
    requires Distinct(order) && forall id :: id in order <==> id in ideas
    ensures |ideas| == |order|
  {
    assert ideas.Keys == set id | id in order;
    DistinctCardinality(order);
  }

  lemma {:induction false} DistinctCardinality(xs: seq<string>)
    requires Distinct(xs)
    ensures |set x | x in xs| == |xs|
  {
    if xs != [] {
      var n := |xs| - 1;
      DistinctCardinality(xs[..n]);
      assert xs == xs[..n] + [xs[n]];
      assert (set x | x in xs) == (set x | x in xs[..n]) + {xs[n]};
      assert xs[n] !in xs[..n];
    }
  }

  // ---------- what an event does ----------

  /** The idea an event is about. */
  function NodeOf(e: Event): Option<string> {
    match e
    case IdeaProposed(node, _, _) => Some(node)
    case IdeaCompleted(node, _, _) => Some(node)
    case IdeaPruned(node) => Some(node)
    case IdeaMerged(node, _) => Some(node)
    case ExecutorStart(node, _) => Some(node)
    case ExecutorEnd(node, _, _) => Some(node)
    case _ => None
  }

  /** The status an event gives to an idea that had status `s`. */
  function Outcome(e: Event, s: Status): Status {
    match e
    case IdeaProposed(_, _, _) => Proposed
    case IdeaCompleted(_, _, status) => Reported(status)
    case IdeaPruned(_) => Pruned
    case IdeaMerged(_, _) => Merged
    case ExecutorStart(_, _) => Running
    case ExecutorEnd(_, _, status) => if s == Running then Reported(status) else s
    case _ => s
  }

  /** A failure or a need to retry counts as such, and every other report of an end as done. */
  function Reported(status: Option<Status>): Status {
    if status == Some(Failed) then Failed else if status == Some(NeedsRetry) then NeedsRetry else Done
  }

  /** The score an event reports. */
  function ScoreOf(e: Event): Option<real> {
    match e
    case IdeaCompleted(_, score, _) => score
    case IdeaMerged(_, score) => score
    case ExecutorEnd(_, score, _) => score
    case Convergence(score) => score
    case _ => None
  }

  // ---------- the best score and the completed ideas ----------

  /** The score is missed by the best one kept. */
  predicate Beats(s: Scores, score: real) {
    s.best.None? || Better(s.minimize, score, s.best.value)
  }

  /** No completed idea beats the best score. */
  predicate Covers(l: Ledger) {
    forall id :: id in l.ideas && Scored(l.ideas[id]) ==> !Beats(l.scores, l.ideas[id].score.value)
  }

  /** Without reporting a score the event completes an idea whose stored score beats the best. */
  predicate RevivesBetter(l: Ledger, e: Event) {
    && NodeOf(e).Some? && ScoreOf(e).None?
    && var r := RecordOf(l, NodeOf(e).value);
       Outcome(e, r.status) in {Done, Merged} && r.score.Some? && Beats(l.scores, r.score.value)
  }

  lemma BumpBeatsLess(s: Scores, score: real, other: real)
    ensures !Beats(Bumped(s, score), score)
    ensures Beats(Bumped(s, score), other) ==> Beats(s, other)
  {
  }

  lemma RecomputedCovers(l: Ledger, minimize: bool)
    requires KeysOk(l)
    ensures Covers(l.(scores := Recomputed(l.ideas, l.order, minimize)))
  {
    RecomputedIsBest(l.ideas, l.order, minimize);
    forall id | id in l.ideas && Scored(l.ideas[id])
      ensures !Beats(Recomputed(l.ideas, l.order, minimize), l.ideas[id].score.value)
    {
      var i :| 0 <= i < |l.order| && l.order[i] == id;
    }
  }

  /** The record an event leaves of its idea. */
  lemma OwnRecord(l: Ledger, e: Event, node: string)
    requires NodeOf(e) == Some(node)
    ensures node in Handled(l, e).ideas && Handled(l, e).scores == BumpedIf(l.scores, ScoreOf(e))
    ensures var (r, s) := (RecordOf(l, node), Handled(l, e).ideas[node]);
            s.status == Outcome(e, r.status) && s.score == ScoreOr(ScoreOf(e), r).score
  {
  }

  /** No event leaves the best score worse than a score it reports. */
  lemma ReportedScoreCounts(l: Ledger, e: Event)
    requires ScoreOf(e).Some?
    ensures !Beats(Handled(l, e).scores, ScoreOf(e).value)
    ensures forall x: real :: Beats(Handled(l, e).scores, x) ==> Beats(l.scores, x)
  {
    forall x: real | Beats(Handled(l, e).scores, x) ensures Beats(l.scores, x) {
      BumpBeatsLess(l.scores, ScoreOf(e).value, x);
    }
    BumpBeatsLess(l.scores, ScoreOf(e).value, ScoreOf(e).value);
  }

  /** Only the tree's metadata and a reseed turn the direction, and only when they name one. */
  lemma DirectionExactly(l: Ledger, e: Event)
    ensures Handled(l, e).scores.minimize ==
            match e
            case TreeMeta(Some(m)) => m
            case Seed(_, Some(m)) => m
            case _ => l.scores.minimize
  {
  }

  lemma EventCoversExactly(l: Ledger, e: Event, node: string)
    requires Covers(l) && NodeOf(e) == Some(node)
    ensures Covers(Handled(l, e)) <==> !RevivesBetter(l, e)
  {
    OwnRecord(l, e, node);
    var after, r := Handled(l, e), RecordOf(l, node);
    forall id | id in after.ideas && id != node && Scored(after.ideas[id])
      ensures !Beats(after.scores, after.ideas[id].score.value)
    {
      EventTouchesItsIdeaOnly(l, e, id);
      if ScoreOf(e).Some? { BumpBeatsLess(l.scores, ScoreOf(e).value, after.ideas[id].score.value); }
    }
    if ScoreOf(e).Some? { BumpBeatsLess(l.scores, ScoreOf(e).value, ScoreOf(e).value); }
  }

  /**
   One event keeps every completed idea covered by the best score exactly when it does not complete,
   without a score of its own, an idea whose stored score is better.
   */
  lemma HandledCoversExactly(l: Ledger, e: Event)
    requires KeysOk(l) && Covers(l)
    ensures Covers(Handled(l, e)) <==> !RevivesBetter(l, e)
  {
    match e
    case Convergence(score) =>
      if score.Some? {
        forall id | id in l.ideas && Scored(l.ideas[id])
          ensures !Beats(Bumped(l.scores, score.value), l.ideas[id].score.value)
        {
          BumpBeatsLess(l.scores, score.value, l.ideas[id].score.value);
        }
      }
    case TreeMeta(m) =>
      if m.Some? { RecomputedCovers(l, m.value); }
    case Seed(entries, m) =>
      SeededKeepsKeys(l, entries);
      RecomputedCovers(CountersUpdated(Seeded(l, entries)), if m.Some? then m.value else l.scores.minimize);
    case _ =>
      EventCoversExactly(l, e, NodeOf(e).value);
  }

  lemma {:induction false} KeysAlways(events: seq<Event>)
    ensures KeysOk(After(Empty(), events))
  {
    if events != [] {
      KeysAlways(events[..|events| - 1]);
      HandledKeepsKeys(After(Empty(), events[..|events| - 1]), events[|events| - 1]);
    }
  }

  /** At some point of the sequence a better score is revived. */
  predicate Revived(events: seq<Event>, i: nat)
    requires i < |events|
  {
    RevivesBetter(After(Empty(), events[..i]), events[i])
  }

  lemma CoversStepExactly(events: seq<Event>, i: nat)
    requires i < |events| && Covers(After(Empty(), events[..i]))
    ensures Covers(After(Empty(), events[..i + 1])) <==> !Revived(events, i)
  {
    KeysAlways(events[..i]);
    HandledCoversExactly(After(Empty(), events[..i]), events[i]);
    assert events[..i + 1][..i] == events[..i];
  }

  lemma {:induction false} CoversUpTo(events: seq<Event>, n: nat)
    requires n <= |events| && forall i: nat :: i < n ==> !Revived(events, i)
    ensures Covers(After(Empty(), events[..n]))
  {
    if n > 0 {
      CoversUpTo(events, n - 1);
      CoversStepExactly(events, n - 1);
    }
  }

  /** The best score covers the completed ideas throughout exactly when no event revives a better one. */
  lemma BestCoversExactly(events: seq<Event>)
    ensures (forall i: nat :: i <= |events| ==> Covers(After(Empty(), events[..i]))) <==>
            (forall i: nat :: i < |events| ==> !Revived(events, i))
  {
    if forall i: nat :: i < |events| ==> !Revived(events, i) {
      forall i: nat | i <= |events| ensures Covers(After(Empty(), events[..i])) { CoversUpTo(events, i); }
    } else if forall i: nat :: i <= |events| ==> Covers(After(Empty(), events[..i])) {
      var i: nat :| i < |events| && Revived(events, i);
      CoversStepExactly(events, i);
      assert false;
    }
  }

  /** A retry scores 5, the direction turns to minimizing, and the idea completes without a score of its own. */
  function MissedRun(): seq<Event> {
    [ExecutorStart("1", None), ExecutorEnd("1", Some(5.0), Some(NeedsRetry)), TreeMeta(Some(true)),
     IdeaCompleted("1", None, None)]
  }

  lemma AfterSnoc(events: seq<Event>, e: Event)
    ensures After(Empty(), events + [e]) == Handled(After(Empty(), events), e)
  {
    assert (events + [e])[..|events|] == events;
  }

  lemma RetriedWithScore() returns (events: seq<Event>, l: Ledger)
    ensures events == MissedRun()[..2] && l == After(Empty(), events) && l.order == ["1"] && !l.scores.minimize
    ensures "1" in l.ideas && l.ideas["1"].status == NeedsRetry && l.ideas["1"].score == Some(5.0)
  {
    events := [ExecutorStart("1", None)];
    AfterSnoc([], events[0]);
    l := Handled(Empty(), events[0]);
    assert [] + events == events && After(Empty(), []) == Empty();
    var e := ExecutorEnd("1", Some(5.0), Some(NeedsRetry));
    AfterSnoc(events, e);
    events, l := events + [e], Handled(l, e);
  }

  /** Turning the direction leaves no best score, since the retried idea is not completed. */
  lemma TurnForgets(l: Ledger)
    requires l.order == ["1"] && !l.scores.minimize
    requires "1" in l.ideas && l.ideas["1"].status == NeedsRetry
    ensures Handled(l, TreeMeta(Some(true))) == l.(scores := Scores(None, [], true))
  {
    assert BestOf(l.ideas, ["1"], true) == None by { assert ["1"][..0] == []; }
  }

  /** The best score can miss a completed idea. */
  lemma BestCanMissCompleted()
    ensures var l := After(Empty(), MissedRun());
            && l.scores == Scores(None, [], true) && "1" in l.ideas
            && l.ideas["1"].status == Done && l.ideas["1"].score == Some(5.0) && !Covers(l)
  {
    var events, l := RetriedWithScore();
    var turn, done := TreeMeta(Some(true)), IdeaCompleted("1", None, None);
    AfterSnoc(events, turn);
    AfterSnoc(events + [turn], done);
    assert MissedRun() == events + [turn] + [done];
    TurnForgets(l);
    OwnRecord(Handled(l, turn), done, "1");
  }

  // ---------- the counters ----------

  predicate CountersOk(l: Ledger) {
    l.counters == Recounted(l.ideas, l.order)
  }

  predicate Counted(s: Status) {
    s == Running || s == Done || s == Merged || s == Pruned || s == Failed || s == NeedsRetry
  }

  lemma PlusCommutes(c: Counts, s: Status, t: Status)
    ensures Plus(Plus(c, s), t) == Plus(Plus(c, t), s)
  {
  }

  lemma {:induction false} CountsElsewhere(ideas: Ideas, ids: seq<string>, id: string, r: Record)
    requires id !in ids
    ensures CountsOf(ideas[id := r], ids) == CountsOf(ideas, ids)
  {
    if ids != [] {
      CountsElsewhere(ideas, ids[..|ids| - 1], id, r);
    }
  }

  /** Changing one record moves one unit from its old status to its new one. */
  lemma {:induction false} CountsMove(ideas: Ideas, ids: seq<string>, id: string, r: Record)
    requires Distinct(ids) && id in ids && id in ideas
    ensures Plus(CountsOf(ideas[id := r], ids), ideas[id].status) == Plus(CountsOf(ideas, ids), r.status)
  {
    var n := |ids| - 1;
    assert ids == ids[..n] + [ids[n]];
    if ids[n] == id {
      assert id !in ids[..n];
      CountsElsewhere(ideas, ids[..n], id, r);
      PlusCommutes(CountsOf(ideas, ids[..n]), r.status, ideas[id].status);
    } else {
      CountsMove(ideas, ids[..n], id, r);
      var s := StatusOf(ideas, ids[n]);
      PlusCommutes(CountsOf(ideas[id := r], ids[..n]), s, ideas[id].status);
      PlusCommutes(CountsOf(ideas, ids[..n]), s, r.status);
    }
  }

  /** An event adds or changes no record but that of its own idea, reseeding aside. */
  lemma EventTouchesItsIdeaOnly(l: Ledger, e: Event, id: string)
    requires !e.Seed? && NodeOf(e) != Some(id)
    ensures id in Handled(l, e).ideas <==> id in l.ideas
    ensures id in l.ideas ==> Handled(l, e).ideas[id] == l.ideas[id]
  {
  }

  /** What an event writes into the record of its idea: nothing but what it reports, and the status. */
  lemma EventWritesRecord(l: Ledger, e: Event, node: string)
    requires NodeOf(e) == Some(node)
    ensures node in Handled(l, e).ideas
    ensures var r := if node in l.ideas then l.ideas[node] else Record("", Proposed, None, None, None);
            var s := Handled(l, e).ideas[node];
            && s.status == Outcome(e, r.status)
            && s.score == (if ScoreOf(e).Some? then ScoreOf(e) else r.score)
            && s.hypothesis == (if e.IdeaProposed? then e.hypothesis else r.hypothesis)
            && s.parent == (if e.IdeaProposed? && e.parent.Some? && e.parent != Some("") then e.parent else r.parent)
            && s.branch == if e.ExecutorStart? && e.branch.Some? && e.branch != Some("") then e.branch else r.branch
  {
  }

  /** The last entry for an id. */
  function LastEntry(entries: seq<(string, SeedNode)>, id: string): Option<SeedNode> {
    if entries == [] then None
    else if entries[|entries| - 1].0 == id then Some(entries[|entries| - 1].1)
    else LastEntry(entries[..|entries| - 1], id)
  }

  /** Reseeding gives each listed idea the saved node listed last for it and leaves every other record alone. */
  lemma {:induction false} SeededExactly(l: Ledger, entries: seq<(string, SeedNode)>, id: string)
    ensures var s, entry := Seeded(l, entries), LastEntry(entries, id);
            match entry
            case None => (id in s.ideas <==> id in l.ideas) && (id in l.ideas ==> s.ideas[id] == l.ideas[id])
            case Some(n) =>
              id in s.ideas && s.ideas[id] == Record(n.hypothesis, n.status, n.score, n.parent, n.branch)
  {
    if entries != [] { SeededExactly(l, entries[..|entries| - 1], id); }
  }

  /** An event about a known idea moves one unit from the idea's old status to its outcome. */
  lemma EventMovesOneUnit(l: Ledger, e: Event, node: string)
    requires KeysOk(l) && NodeOf(e) == Some(node) && node in l.ideas
    ensures Handled(l, e).order == l.order
    ensures Plus(CountsOf(Handled(l, e).ideas, l.order), l.ideas[node].status) ==
            Plus(CountsOf(l.ideas, l.order), Outcome(e, l.ideas[node].status))
  {
    KnownIdeaUpdated(l, e, node);
    CountsMove(l.ideas, l.order, node, Handled(l, e).ideas[node]);
  }

  lemma KnownIdeaUpdated(l: Ledger, e: Event, node: string)
    requires NodeOf(e) == Some(node) && node in l.ideas
    ensures Handled(l, e).order == l.order && node in Handled(l, e).ideas
    ensures Handled(l, e).ideas == l.ideas[node := Handled(l, e).ideas[node]]
    ensures Handled(l, e).ideas[node].status == Outcome(e, l.ideas[node].status)
  {
  }

  /** The records in none of the counted states. */
  function UncountedIn(ideas: Ideas, ids: seq<string>): nat {
    if ids == [] then 0
    else UncountedIn(ideas, ids[..|ids| - 1]) + if Counted(StatusOf(ideas, ids[|ids| - 1])) then 0 else 1
  }

  lemma {:induction false} CountsPartition(ideas: Ideas, ids: seq<string>)
    ensures var c := CountsOf(ideas, ids);
            c.running + c.done + c.merged + c.pruned + c.failed + c.retry + UncountedIn(ideas, ids) == |ids|
  {
    if ids != [] {
      CountsPartition(ideas, ids[..|ids| - 1]);
    }
  }

  /**
   Proposing an idea keeps the counters right exactly when the id is new or its record was in
   none of the counted states: a re-proposal takes a record out of a bucket without recounting.
   */
  lemma ProposalKeepsCountersExactly(l: Ledger, node: string, hypothesis: string, parent: Option<string>)
    requires KeysOk(l) && CountersOk(l)
    ensures CountersOk(ProposedIn(l, node, hypothesis, parent)) <==>
            node !in l.ideas || !Counted(l.ideas[node].status)
  {
    var after := ProposedIn(l, node, hypothesis, parent);
    var r := after.ideas[node];
    if node in l.ideas {
      assert after.ideas == l.ideas[node := r] && after.order == l.order;
      assert after.ideas.Keys == l.ideas.Keys;
      CountsMove(l.ideas, l.order, node, r);
    } else {
      assert after.ideas == l.ideas[node := r] && after.order[..|l.order|] == l.order;
      CountsElsewhere(l.ideas, l.order, node, r);
    }
  }

  lemma HandledKeepsCounters(l: Ledger, e: Event)
    requires KeysOk(l) && CountersOk(l)
    requires e.IdeaProposed? ==> e.node !in l.ideas || !Counted(l.ideas[e.node].status)
    ensures CountersOk(Handled(l, e))
  {
    if e.IdeaProposed? {
      ProposalKeepsCountersExactly(l, e.node, e.hypothesis, e.parent);
    }
  }

  /** The ideas in order whose record has one of these statuses. */
  function WithStatus(ideas: Ideas, ids: seq<string>, statuses: set<Status>): set<string> {
    set id | id in ids && StatusOf(ideas, id) in statuses
  }

  lemma {:induction false} StatusesCounted(ideas: Ideas, ids: seq<string>, s: Status)
    requires Distinct(ids) && Counted(s)
    ensures CountOf(CountsOf(ideas, ids), s) == |WithStatus(ideas, ids, {s})|
  {
    if ids != [] {
      var n := |ids| - 1;
      StatusesCounted(ideas, ids[..n], s);
      WithStatusStep(ideas, ids, s);
      PlusCounts(CountsOf(ideas, ids[..n]), StatusOf(ideas, ids[n]), s);
    }
  }

  lemma PlusCounts(c: Counts, t: Status, s: Status)
    requires Counted(s)
    ensures CountOf(Plus(c, t), s) == CountOf(c, s) + if t == s then 1 else 0
  {
  }

  lemma WithStatusStep(ideas: Ideas, ids: seq<string>, s: Status)
    requires ids != [] && Distinct(ids)
    ensures var n := |ids| - 1;
            |WithStatus(ideas, ids, {s})| ==
            |WithStatus(ideas, ids[..n], {s})| + if StatusOf(ideas, ids[n]) == s then 1 else 0
  {
    var n := |ids| - 1;
    assert ids == ids[..n] + [ids[n]];
    assert ids[n] !in ids[..n];
    WithStatusSnoc(ideas, ids[..n], ids[n], s);
  }

  lemma WithStatusSnoc(ideas: Ideas, ids: seq<string>, id: string, s: Status)
    ensures WithStatus(ideas, ids + [id], {s}) ==
            WithStatus(ideas, ids, {s}) + if StatusOf(ideas, id) == s then {id} else {}
  {
  }

  /** How many of the counted records have the status. */
  function CountOf(c: Counts, s: Status): nat
    requires Counted(s)
  {
    match s
    case Running => c.running
    case Done => c.done
    case Merged => c.merged
    case Pruned => c.pruned
    case Failed => c.failed
    case NeedsRetry => c.retry
  }

  lemma TwoStatuses(ideas: Ideas, ids: seq<string>, s: Status, t: Status)
    requires s != t
    ensures |WithStatus(ideas, ids, {s, t})| == |WithStatus(ideas, ids, {s})| + |WithStatus(ideas, ids, {t})|
  {
    assert WithStatus(ideas, ids, {s, t}) == WithStatus(ideas, ids, {s}) + WithStatus(ideas, ids, {t});
    assert WithStatus(ideas, ids, {s}) !! WithStatus(ideas, ids, {t});
  }

  /** What each counter of a recounted ledger counts. */
  lemma RecountedExactly(l: Ledger)
    requires KeysOk(l) && CountersOk(l)
    ensures l.counters.proposed == |l.ideas|
    ensures l.counters.running == |WithStatus(l.ideas, l.order, {Running})|
    ensures l.counters.done == |WithStatus(l.ideas, l.order, {Done, Merged})|
    ensures l.counters.merged == |WithStatus(l.ideas, l.order, {Merged})|
    ensures l.counters.pruned == |WithStatus(l.ideas, l.order, {Pruned, Failed})|
    ensures l.counters.retry == |WithStatus(l.ideas, l.order, {NeedsRetry})|
  {
    forall s | Counted(s) ensures CountOf(CountsOf(l.ideas, l.order), s) == |WithStatus(l.ideas, l.order, {s})| {
      StatusesCounted(l.ideas, l.order, s);
    }
    TwoStatuses(l.ideas, l.order, Done, Merged);
    TwoStatuses(l.ideas, l.order, Pruned, Failed);
    var c := CountsOf(l.ideas, l.order);
    assert CountOf(c, Running) == c.running && CountOf(c, Done) == c.done && CountOf(c, Merged) == c.merged;
    assert CountOf(c, Pruned) == c.pruned && CountOf(c, Failed) == c.failed && CountOf(c, NeedsRetry) == c.retry;
  }

  /** After every event sequence proposing only new ids each counter counts what it is named for. */
  lemma CountersCount(events: seq<Event>)
    requires ProposesNewIds(events)
    ensures var l := After(Empty(), events);
            && l.counters.done == |WithStatus(l.ideas, l.order, {Done, Merged})|
            && l.counters.pruned == |WithStatus(l.ideas, l.order, {Pruned, Failed})|
            && l.counters.merged == |WithStatus(l.ideas, l.order, {Merged})|
            && l.counters.running == |WithStatus(l.ideas, l.order, {Running})|
            && l.counters.retry == |WithStatus(l.ideas, l.order, {NeedsRetry})|
  {
    LedgerInvariant(events);
    RecountedExactly(After(Empty(), events));
  }

  /** Every proposal in the sequence is of an id not in the ledger at that point. */
  predicate ProposesNewIds(events: seq<Event>) {
    forall i :: 0 <= i < |events| && events[i].IdeaProposed? ==>
      events[i].node !in After(Empty(), events[..i]).ideas
  }

  lemma {:induction false} LedgerInvariant(events: seq<Event>)
    requires ProposesNewIds(events)
    ensures KeysOk(After(Empty(), events)) && CountersOk(After(Empty(), events))
  {
    if events != [] {
      var n := |events| - 1;
      forall i | 0 <= i < n && events[..n][i].IdeaProposed?
        ensures events[..n][i].node !in After(Empty(), events[..n][..i]).ideas
      {
        assert events[..n][..i] == events[..i];
        assert events[i].IdeaProposed?;
      }
      LedgerInvariant(events[..n]);
      HandledKeepsKeys(After(Empty(), events[..n]), events[n]);
      HandledKeepsCounters(After(Empty(), events[..n]), events[n]);
    }
  }

  function BranchBudgetUsed(l: Ledger): nat {
    l.counters.done + l.counters.pruned + l.counters.retry
  }

  predicate Finished(s: Status) {
    s == Done || s == Merged || s == Pruned || s == Failed || s == NeedsRetry
  }

  ghost function FinishedIdeas(l: Ledger): set<string> {
    set id | id in l.ideas && Finished(l.ideas[id].status)
  }

  function FinishedIn(ideas: Ideas, ids: seq<string>): set<string> {
    set id | id in ids && Finished(StatusOf(ideas, id))
  }

  lemma FinishedInSnoc(ideas: Ideas, ids: seq<string>, id: string)
    ensures FinishedIn(ideas, ids + [id]) == FinishedIn(ideas, ids) + if Finished(StatusOf(ideas, id)) then {id} else {}
  {
  }

  lemma {:induction false} FinishedCounted(ideas: Ideas, ids: seq<string>)
    requires Distinct(ids)
    ensures var c := CountsOf(ideas, ids);
            c.done + c.merged + c.pruned + c.failed + c.retry == |FinishedIn(ideas, ids)|
  {
    if ids != [] {
      var n := |ids| - 1;
      FinishedCounted(ideas, ids[..n]);
      FinishedInSnoc(ideas, ids[..n], ids[n]);
      assert ids == ids[..n] + [ids[n]];
      assert ids[n] !in ids[..n];
    }
  }

  /**
   Conservation, over every event sequence that proposes only new ids: the counters and the
   records in no counted state add up to the ledger, and the branch budget used is the number of
   records with a finished status.
   */
  lemma LedgerConserved(events: seq<Event>)
    requires ProposesNewIds(events)
    ensures var l := After(Empty(), events);
            && l.counters.proposed == |l.ideas| == |l.order|
            && l.counters.running + l.counters.done + l.counters.pruned + l.counters.retry
               + UncountedIn(l.ideas, l.order) == |l.ideas|
            && BranchBudgetUsed(l) == |FinishedIdeas(l)|
  {
    LedgerInvariant(events);
    Conserved(After(Empty(), events));
  }

  lemma Conserved(l: Ledger)
    requires KeysOk(l) && CountersOk(l)
    ensures l.counters.proposed == |l.ideas| == |l.order|
    ensures l.counters.running + l.counters.done + l.counters.pruned + l.counters.retry
            + UncountedIn(l.ideas, l.order) == |l.ideas|
    ensures BranchBudgetUsed(l) == |FinishedIdeas(l)|
  {
    KeysCounted(l.ideas, l.order);
    CountsPartition(l.ideas, l.order);
    FinishedCounted(l.ideas, l.order);
    assert FinishedIdeas(l) == FinishedIn(l.ideas, l.order);
  }
}
