/**
 The live idea ledger of the dashboard: one record per idea, cached counters, and the history of
 best scores, all kept up to date by event handlers.
 */
module Ledger {
  import opened Basics

  datatype Status = Proposed | Running | Done | Merged | Pruned | Failed | NeedsRetry | OtherStatus(name: string)

  datatype Record = Record(
    hypothesis: string,
    status: Status,
    score: Option<real>,
    parent: Option<string>,
    branch: Option<string>)

  type Ideas = map<string, Record>

  datatype Counters = Counters(proposed: nat, running: nat, done: nat, pruned: nat, merged: nat, retry: nat)

  datatype Scores = Scores(best: Option<real>, history: seq<real>, minimize: bool)

  datatype Ledger = Ledger(ideas: Ideas, order: seq<string>, counters: Counters, scores: Scores)

  datatype SeedNode = SeedNode(
    hypothesis: string,
    status: Status,
    score: Option<real>,
    parent: Option<string>,
    branch: Option<string>)

  datatype Event =
    | IdeaProposed(node: string, hypothesis: string, parent: Option<string>)
    | IdeaCompleted(node: string, score: Option<real>, status: Option<Status>)
    | IdeaPruned(node: string)
    | IdeaMerged(node: string, score: Option<real>)
    | ExecutorStart(node: string, branch: Option<string>)
    | ExecutorEnd(node: string, score: Option<real>, status: Option<Status>)
    | Convergence(score: Option<real>)
    | TreeMeta(minimize: Option<bool>)
    | Seed(entries: seq<(string, SeedNode)>, minimize: Option<bool>)   // the root is not among the entries

  const CAP := 64

  // ---------- counting ----------

  /** How many records have each of the counted statuses. */
  datatype Counts = Counts(running: nat, done: nat, merged: nat, pruned: nat, failed: nat, retry: nat)

  function Plus(c: Counts, s: Status): Counts {
    match s
    case Running => c.(running := c.running + 1)
    case Done => c.(done := c.done + 1)
    case Merged => c.(merged := c.merged + 1)
    case Pruned => c.(pruned := c.pruned + 1)
    case Failed => c.(failed := c.failed + 1)
    case NeedsRetry => c.(retry := c.retry + 1)
    case _ => c
  }

  function StatusOf(ideas: Ideas, id: string): Status {
    if id in ideas then ideas[id].status else Proposed
  }

  function CountsOf(ideas: Ideas, ids: seq<string>): Counts {
    if ids == [] then Counts(0, 0, 0, 0, 0, 0)
    else Plus(CountsOf(ideas, ids[..|ids| - 1]), StatusOf(ideas, ids[|ids| - 1]))
  }

  function Recounted(ideas: Ideas, order: seq<string>): Counters {
    var c := CountsOf(ideas, order);
    Counters(|ideas|, c.running, c.done + c.merged, c.pruned + c.failed, c.merged, c.retry)
  }

  // ---------- best score ----------

  predicate Better(minimize: bool, candidate: real, incumbent: real) {
    if minimize then candidate < incumbent else candidate > incumbent
  }

  function Bumped(s: Scores, score: real): Scores {
    if s.best.None? || Better(s.minimize, score, s.best.value) then
      var longer := s.history + [score];
      s.(best := Some(score), history := if |longer| > CAP then longer[|longer| - CAP..] else longer)
    else s
  }

  function BumpedIf(s: Scores, score: Option<real>): Scores {
    if score.Some? then Bumped(s, score.value) else s
  }

  predicate Scored(r: Record) {
    (r.status == Done || r.status == Merged) && r.score.Some?
  }

  /** The best score of the completed ideas. */
  function BestOf(ideas: Ideas, ids: seq<string>, minimize: bool): Option<real> {
    if ids == [] then None
    else
      var before := BestOf(ideas, ids[..|ids| - 1], minimize);
      var id := ids[|ids| - 1];
      if id !in ideas || !Scored(ideas[id]) then before
      else if before.None? || Better(minimize, ideas[id].score.value, before.value) then ideas[id].score
      else before
  }

  function Recomputed(ideas: Ideas, order: seq<string>, minimize: bool): Scores {
    match BestOf(ideas, order, minimize)
    case None => Scores(None, [], minimize)
    case Some(b) => Scores(Some(b), [b], minimize)
  }

  // ---------- handlers as functions ----------

  function Blank(): Record {
    Record("", Proposed, None, None, None)
  }

  function Upserted(l: Ledger, id: string): Ledger {
    if id in l.ideas then l else l.(ideas := l.ideas[id := Blank()], order := l.order + [id])
  }

  function WithRecord(l: Ledger, id: string, r: Record): Ledger {
    l.(ideas := l.ideas[id := r])
  }

  function CountersUpdated(l: Ledger): Ledger {
    l.(counters := Recounted(l.ideas, l.order))
  }

  /** An executor's own classification, with anything unknown read as done. */
  function Classified(s: Option<Status>): Status {
    if s.Some? && s.value in {Done, Failed, NeedsRetry} then s.value else Done
  }

  function ScoreOr(score: Option<real>, r: Record): Record {
    if score.Some? then r.(score := score) else r
  }

  function Seeded(l: Ledger, entries: seq<(string, SeedNode)>): Ledger {
    if entries == [] then l
    else
      var before := Seeded(l, entries[..|entries| - 1]);
      var (id, n) := entries[|entries| - 1];
      WithRecord(Upserted(before, id), id, Record(n.hypothesis, n.status, n.score, n.parent, n.branch))
  }

  /** Most handlers: create the record if need be, note a score, rewrite the record, recount. */
  function Rewritten(l: Ledger, node: string, score: Option<real>, r: Record): Ledger {
    var u := Upserted(l, node);
    CountersUpdated(WithRecord(u.(scores := BumpedIf(u.scores, score)), node, r))
  }

  /** The record of an id, or the one a handler is about to create. */
  function RecordOf(l: Ledger, id: string): Record {
    if id in l.ideas then l.ideas[id] else Blank()
  }

  /** The record after an event about one idea other than its proposal. */
  function NewRecord(r: Record, e: Event): Record {
    match e
    case IdeaCompleted(_, score, status) => ScoreOr(score, r).(status := Classified(status))
    case IdeaPruned(_) => r.(status := Pruned)
    case IdeaMerged(_, score) => ScoreOr(score, r).(status := Merged)
    case ExecutorStart(_, branch) =>
      r.(status := Running, branch := if branch.Some? && branch.value != "" then branch else r.branch)
    case ExecutorEnd(_, score, status) =>
      if r.status == Running then ScoreOr(score, r).(status := Classified(status)) else ScoreOr(score, r)
    case _ => r
  }

  function ProposedIn(l: Ledger, node: string, hypothesis: string, parent: Option<string>): Ledger {
    var r := RecordOf(l, node);
    var p := if parent.Some? && parent.value != "" then parent else r.parent;
    var w := WithRecord(Upserted(l, node), node, r.(hypothesis := hypothesis, status := Proposed, parent := p));
    w.(counters := w.counters.(proposed := |w.ideas|))
  }

  function Handled(l: Ledger, e: Event): Ledger {
    match e
    case IdeaProposed(node, hypothesis, parent) => ProposedIn(l, node, hypothesis, parent)
    case IdeaCompleted(node, score, _) => Rewritten(l, node, score, NewRecord(RecordOf(l, node), e))
    case IdeaPruned(node) => Rewritten(l, node, None, NewRecord(RecordOf(l, node), e))
    case IdeaMerged(node, score) => Rewritten(l, node, score, NewRecord(RecordOf(l, node), e))
    case ExecutorStart(node, _) => Rewritten(l, node, None, NewRecord(RecordOf(l, node), e))
    case ExecutorEnd(node, score, _) => Rewritten(l, node, score, NewRecord(RecordOf(l, node), e))
    case Convergence(score) => l.(scores := BumpedIf(l.scores, score))
    case TreeMeta(m) =>
      if m.Some? && m.value != l.scores.minimize then l.(scores := Recomputed(l.ideas, l.order, m.value)) else l
    case Seed(entries, m) =>
      var seeded := CountersUpdated(Seeded(l, entries));
      seeded.(scores := Recomputed(seeded.ideas, seeded.order, if m.Some? then m.value else l.scores.minimize))
  }

  lemma {:induction false} SeededIgnoresScores(l: Ledger, scores: Scores, entries: seq<(string, SeedNode)>)
    ensures Seeded(l.(scores := scores), entries) == Seeded(l, entries).(scores := scores)
  {
    if entries != [] { SeededIgnoresScores(l, scores, entries[..|entries| - 1]); }
  }

  // ---------- the object ----------

  class RunState {
    var ideas: Ideas
    var ideaOrder: seq<string>
    var ideasProposed: nat
    var ideasRunning: nat
    var ideasDone: nat
    var ideasPruned: nat
    var ideasMerged: nat
    var ideasNeedsRetry: nat
    var bestScore: Option<real>
    var bestScoreHistory: seq<real>
    var minimize: bool

    constructor ()
      ensures View() == Empty()
    {
      ideas, ideaOrder := map[], [];
      ideasProposed, ideasRunning, ideasDone, ideasPruned, ideasMerged, ideasNeedsRetry := 0, 0, 0, 0, 0, 0;
      bestScore, bestScoreHistory, minimize := None, [], false;
    }

    ghost function View(): Ledger
      reads this
    {
      Ledger(ideas, ideaOrder,
             Counters(ideasProposed, ideasRunning, ideasDone, ideasPruned, ideasMerged, ideasNeedsRetry),
             Scores(bestScore, bestScoreHistory, minimize))
    }

    method Upsert(nodeId: string)
      modifies this`ideas, this`ideaOrder
      ensures View() == Upserted(old(View()), nodeId)
    {
      if nodeId !in ideas {
        ideas := ideas[nodeId := Blank()];
        ideaOrder := ideaOrder + [nodeId];
      }
    }

    method BumpBest(score: real)
      modifies this`bestScore, this`bestScoreHistory
      ensures View() == old(View()).(scores := Bumped(old(View()).scores, score))
    {
      if bestScore.None? || (if minimize then score < bestScore.value else score > bestScore.value) {
        bestScore := Some(score);
        bestScoreHistory := bestScoreHistory + [score];
        if |bestScoreHistory| > CAP {
          bestScoreHistory := bestScoreHistory[|bestScoreHistory| - CAP..];
        }
      }
    }

    method BumpBestIf(score: Option<real>)
      modifies this`bestScore, this`bestScoreHistory
      ensures View() == old(View()).(scores := BumpedIf(old(View()).scores, score))
    {
      if score.Some? { BumpBest(score.value); }
    }

    method RecomputeBestScore()
      modifies this`bestScore, this`bestScoreHistory
      ensures View() == old(View()).(scores := Recomputed(ideas, ideaOrder, minimize))
    {
      var best: Option<real> := None;
      for i := 0 to |ideaOrder|
        invariant best == BestOf(ideas, ideaOrder[..i], minimize)
      {
        assert ideaOrder[..i + 1][..i] == ideaOrder[..i];
        var id := ideaOrder[i];
        if id in ideas && Scored(ideas[id]) {
          if best.None? || Better(minimize, ideas[id].score.value, best.value) {
            best := ideas[id].score;
          }
        }
      }
      assert ideaOrder[..|ideaOrder|] == ideaOrder;
      bestScore := best;
      bestScoreHistory := if best.None? then [] else [best.value];
    }

    method CountStatuses() returns (c: Counts)
      ensures c == CountsOf(ideas, ideaOrder)
    {
      c := Counts(0, 0, 0, 0, 0, 0);
      for i := 0 to |ideaOrder|
        invariant c == CountsOf(ideas, ideaOrder[..i])
      {
        assert ideaOrder[..i + 1][..i] == ideaOrder[..i];
        c := Plus(c, StatusOf(ideas, ideaOrder[i]));
      }
      assert ideaOrder[..|ideaOrder|] == ideaOrder;
    }

    method Recount()
      modifies this`ideasProposed, this`ideasRunning, this`ideasDone
      modifies this`ideasPruned, this`ideasMerged, this`ideasNeedsRetry
      ensures View() == CountersUpdated(old(View()))
    {
      var c := CountStatuses();
      ideasProposed := |ideas|;
      ideasRunning := c.running;
      ideasDone := c.done + c.merged;
      ideasPruned := c.pruned + c.failed;
      ideasMerged := c.merged;
      ideasNeedsRetry := c.retry;
    }

    method SetRecord(id: string, r: Record)
      modifies this`ideas
      ensures View() == WithRecord(old(View()), id, r)
    {
      ideas := ideas[id := r];
    }

    method OnIdeaProposed(node: string, hypothesis: string, parent: Option<string>)
      modifies this
      ensures View() == Handled(old(View()), IdeaProposed(node, hypothesis, parent))
    {
      Upsert(node);
      var rec := ideas[node].(hypothesis := hypothesis, status := Proposed);
      if parent.Some? && parent.value != "" { rec := rec.(parent := parent); }
      SetRecord(node, rec);
      ideasProposed := |ideas|;
    }

    method OnIdeaCompleted(node: string, score: Option<real>, status: Option<Status>)
      modifies this
      ensures View() == Handled(old(View()), IdeaCompleted(node, score, status))
    {
      Upsert(node);
      var rec := ScoreOr(score, ideas[node]);
      BumpBestIf(score);
      SetRecord(node, rec.(status := Classified(status)));
      Recount();
    }

    method OnIdeaPruned(node: string)
      modifies this
      ensures View() == Handled(old(View()), IdeaPruned(node))
    {
      Upsert(node);
      SetRecord(node, ideas[node].(status := Pruned));
      Recount();
    }

    method OnIdeaMerged(node: string, score: Option<real>)
      modifies this
      ensures View() == Handled(old(View()), IdeaMerged(node, score))
    {
      Upsert(node);
      var rec := ScoreOr(score, ideas[node].(status := Merged));
      BumpBestIf(score);
      SetRecord(node, rec);
      Recount();
    }

    method OnExecutorStart(node: string, branch: Option<string>)
      modifies this
      ensures View() == Handled(old(View()), ExecutorStart(node, branch))
    {
      Upsert(node);
      var rec := ideas[node].(status := Running);
      if branch.Some? && branch.value != "" { rec := rec.(branch := branch); }
      SetRecord(node, rec);
      Recount();
    }

    method OnExecutorEnd(node: string, score: Option<real>, status: Option<Status>)
      modifies this
      ensures View() == Handled(old(View()), ExecutorEnd(node, score, status))
    {
      Upsert(node);
      var rec := ScoreOr(score, ideas[node]);
      BumpBestIf(score);
      if rec.status == Running { rec := rec.(status := Classified(status)); }
      SetRecord(node, rec);
      Recount();
    }

    method OnConvergence(score: Option<real>)
      modifies this
      ensures View() == Handled(old(View()), Convergence(score))
    {
      BumpBestIf(score);
    }

    method UpdateTreeMeta(direction: Option<bool>)
      modifies this
      ensures View() == Handled(old(View()), TreeMeta(direction))
    {
      if direction.Some? && direction.value != minimize {
        minimize := direction.value;
        RecomputeBestScore();
      }
    }

    method SeedFromTree(entries: seq<(string, SeedNode)>, direction: Option<bool>)
      modifies this
      ensures View() == Handled(old(View()), Seed(entries, direction))
    {
      ghost var was := View();
      if direction.Some? { minimize := direction.value; }
      ghost var directed := View();
      for i := 0 to |entries|
        invariant View() == Seeded(directed, entries[..i])
      {
        assert entries[..i + 1][..i] == entries[..i];
        var (id, n) := entries[i];
        Upsert(id);
        SetRecord(id, Record(n.hypothesis, n.status, n.score, n.parent, n.branch));
      }
      assert entries[..|entries|] == entries;
      SeededIgnoresScores(was, directed.scores, entries);
      Recount();
      RecomputeBestScore();
    }
  }

  function Empty(): Ledger {
    Ledger(map[], [], Counters(0, 0, 0, 0, 0, 0), Scores(None, [], false))
  }
}
