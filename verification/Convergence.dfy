/**
 Plateau detection: how long the current streak of experiments without improvement is, how fast
 the score is still moving, and which intervention that calls for.
 */
module Convergence {
  import opened Basics
  import opened IdeaTree

  datatype Config = Config(
    enabled: bool, minExperiments: int, windowSize: int, improvementThreshold: real,
    warnAfter: int, forceAfter: int, stopAfter: int)

  datatype Level = Warn | ParadigmShift | Stop

  datatype Signal = Signal(level: Level, velocity: real, streak: nat)

  /** A finished experiment. */
  datatype Finished = Finished(id: string, score: real)

  const LAST := 999_999   // sort key of experiments without a recorded completion

  // ---------- order of completion ----------

  predicate Counts(n: Node, root: string) {
    (n.status == Completed || n.status == Merged) && n.score.Some? && n.id != root
  }

  /** Finished experiments in dictionary order. */
  function DoneNodes(nodes: Nodes, order: seq<string>, root: string): seq<Finished> {
    if order == [] then []
    else
      var before := DoneNodes(nodes, order[..|order| - 1], root);
      var id := order[|order| - 1];
      if id in nodes && Counts(nodes[id], root)
      then before + [Finished(nodes[id].id, nodes[id].score.value)] else before
  }

  /** Position of a completed experiment, or the common last key. */
  function KeyOf(completion: seq<string>, id: string): nat {
    if completion == [] then LAST
    else if completion[0] == id then 0
    else
      var k := KeyOf(completion[1..], id);
      if id in completion then k + 1 else LAST
  }

  predicate TextBefore(a: string, b: string)
    decreases |a|
  {
    b != "" && (a == "" || a[0] < b[0] || (a[0] == b[0] && TextBefore(a[1..], b[1..])))
  }

  /** The sort order: by completion if any completion is recorded, by id otherwise. */
  predicate Before(completion: seq<string>, a: Finished, b: Finished) {
    if completion != [] then KeyOf(completion, a.id) < KeyOf(completion, b.id) else TextBefore(a.id, b.id)
  }

  /** Puts `x` behind everything that does not come after it. */
  function Insert(completion: seq<string>, sorted: seq<Finished>, x: Finished): (r: seq<Finished>)
    ensures |r| == |sorted| + 1
  {
    if sorted == [] || !Before(completion, x, sorted[|sorted| - 1]) then sorted + [x]
    else Insert(completion, sorted[..|sorted| - 1], x) + [sorted[|sorted| - 1]]
  }

  /** Python's stable `list.sort`. */
  function Sorted(completion: seq<string>, xs: seq<Finished>): (r: seq<Finished>)
    ensures |r| == |xs|
  {
    if xs == [] then [] else Insert(completion, Sorted(completion, xs[..|xs| - 1]), xs[|xs| - 1])
  }

  // ---------- improvement ----------

  /** How far a score is ahead of the trunk, in the direction of the metric. */
  function Gain(minimize: bool, score: real, trunk: real): real {
    if minimize then trunk - score else score - trunk
  }

  function Abs(x: real): real {
    if x < 0.0 then -x else x
  }

  function Threshold(cfg: Config, trunk: real): real {
    var t := Abs(trunk) * cfg.improvementThreshold;
    if t == 0.0 then cfg.improvementThreshold else t
  }

  predicate Improves(cfg: Config, minimize: bool, score: real, trunk: real) {
    Gain(minimize, score, trunk) > 0.0 && Gain(minimize, score, trunk) > Threshold(cfg, trunk)
  }

  /** Length of the longest suffix without a meaningful improvement. */
  function Streak(cfg: Config, minimize: bool, trunk: real, xs: seq<Finished>): (n: nat)
    ensures n <= |xs|
  {
    if xs == [] || Improves(cfg, minimize, xs[|xs| - 1].score, trunk) then 0
    else 1 + Streak(cfg, minimize, trunk, xs[..|xs| - 1])
  }

  // ---------- velocity ----------

  function MaxReal(a: real, b: real): real {
    if a < b then b else a
  }

  function BestGain(minimize: bool, trunk: real, xs: seq<Finished>): real {
    if xs == [] then 0.0
    else MaxReal(BestGain(minimize, trunk, xs[..|xs| - 1]), Gain(minimize, xs[|xs| - 1].score, trunk))
  }

  /** Where Python's `xs[-w:]` starts. */
  function WindowStart(n: nat, w: int): (i: nat)
    ensures i <= n
  {
    if w > 0 then (if n - w < 0 then 0 else n - w) else if -w < n then -w else n
  }

  function Velocity(cfg: Config, minimize: bool, trunk: real, sorted: seq<Finished>): real {
    if |sorted| < 2 then 0.0
    else
      var window := sorted[WindowStart(|sorted|, cfg.windowSize)..];
      if window == [] then 0.0 else BestGain(minimize, trunk, window) / (|window| as real)
  }

  function LevelFor(cfg: Config, n: nat): Option<Level> {
    if n >= cfg.stopAfter then Some(Stop)
    else if n >= cfg.forceAfter then Some(ParadigmShift)
    else if n >= cfg.warnAfter then Some(Warn)
    else None
  }

  // ---------- the detector ----------

  class Detector {
    const tree: IdeaTree
    const cfg: Config
    var trunk: Option<real>
    var minimize: bool
    var completion: seq<string>
    var streak: nat
    var totalDone: nat

    constructor (tree: IdeaTree, cfg: Config, trunk: Option<real>, minimize: bool)
      ensures this.tree == tree && this.cfg == cfg && this.trunk == trunk && this.minimize == minimize
      ensures completion == [] && streak == 0 && totalDone == 0
    {
      this.tree, this.cfg, this.trunk, this.minimize := tree, cfg, trunk, minimize;
      completion, streak, totalDone := [], 0, 0;
    }

    function Done(): seq<Finished>
      reads this, tree
    {
      Sorted(completion, DoneNodes(tree.nodes, tree.order, tree.rootId))
    }

    method RebuildState()
      modifies this`streak, this`totalDone
      ensures trunk.None? ==> streak == old(streak) && totalDone == old(totalDone)
      ensures trunk.Some? ==> streak == Streak(cfg, minimize, trunk.value, Done()) && totalDone == |Done()|
    {
      if trunk.None? { return; }
      var done := Done();
      totalDone := |done|;
      var consecutive := 0;
      var i := |done|;
      assert done[..i] == done;
      while i > 0
        invariant 0 <= i <= |done|
        invariant consecutive + Streak(cfg, minimize, trunk.value, done[..i])
               == Streak(cfg, minimize, trunk.value, done)
      {
        assert done[..i][..i - 1] == done[..i - 1];
        if Improves(cfg, minimize, done[i - 1].score, trunk.value) { break; }
        consecutive := consecutive + 1;
        i := i - 1;
      }
      streak := consecutive;
    }

    method ComputeVelocity() returns (velocity: real)
      ensures velocity == if trunk.None? then 0.0 else Velocity(cfg, minimize, trunk.value, Done())
    {
      if trunk.None? { return 0.0; }
      var done := Done();
      if |done| < 2 { return 0.0; }
      var window := done[WindowStart(|done|, cfg.windowSize)..];
      if window == [] { return 0.0; }
      var best := 0.0;
      for i := 0 to |window|
        invariant best == BestGain(minimize, trunk.value, window[..i])
      {
        assert window[..i + 1][..i] == window[..i];
        var delta := if minimize then trunk.value - window[i].score else window[i].score - trunk.value;
        best := MaxReal(best, delta);
      }
      assert window[..|window|] == window;
      return best / (|window| as real);
    }

    /** Records a completion and says whether it calls for an intervention. */
    method OnExperimentComplete(nodeId: string) returns (signal: Option<Signal>)
      modifies this`completion, this`streak, this`totalDone
      ensures !cfg.enabled || trunk.None? ==> signal.None? && completion == old(completion)
      ensures cfg.enabled && trunk.Some? ==>
                && completion == (if nodeId in old(completion) then old(completion) else old(completion) + [nodeId])
                && streak == Streak(cfg, minimize, trunk.value, Done()) && totalDone == |Done()|
                && signal == if totalDone < cfg.minExperiments || LevelFor(cfg, streak).None? then None
                             else Some(Signal(LevelFor(cfg, streak).value,
                                              Velocity(cfg, minimize, trunk.value, Done()), streak))
    {
      if !cfg.enabled { return None; }
      if trunk.None? { return None; }
      if nodeId !in completion {
        completion := completion + [nodeId];
      }
      RebuildState();
      if totalDone < cfg.minExperiments { return None; }
      var n := streak;
      var level: Level;
      if n >= cfg.stopAfter {
        level := Stop;
      } else if n >= cfg.forceAfter {
        level := ParadigmShift;
      } else if n >= cfg.warnAfter {
        level := Warn;
      } else {
        return None;
      }
      var velocity := ComputeVelocity();
      return Some(Signal(level, velocity, n));
    }
  }

  // ---------- laws ----------

  /** The streak is the length of the maximal suffix without improvement. */
  lemma {:induction false} StreakIsMaximalSuffix(cfg: Config, minimize: bool, trunk: real, xs: seq<Finished>)
    ensures var n := Streak(cfg, minimize, trunk, xs);
            && (forall i :: |xs| - n <= i < |xs| ==> !Improves(cfg, minimize, xs[i].score, trunk))
            && (n < |xs| ==> Improves(cfg, minimize, xs[|xs| - n - 1].score, trunk))
  {
    if xs != [] && !Improves(cfg, minimize, xs[|xs| - 1].score, trunk) {
      StreakIsMaximalSuffix(cfg, minimize, trunk, xs[..|xs| - 1]);
    }
  }

  /** Scores and trunk with the sign turned. */
  function Mirrored(xs: seq<Finished>): (r: seq<Finished>)
    ensures |r| == |xs|
  {
    seq(|xs|, i requires 0 <= i < |xs| => xs[i].(score := -xs[i].score))
  }

  /**
   A score is a meaningful improvement exactly when it is on the better side of the trunk by more than the
   threshold: relative to the trunk, or absolute where that would be nothing.
   */
  lemma ImprovesExactly(cfg: Config, minimize: bool, score: real, trunk: real)
    ensures var size := if trunk < 0.0 then -trunk else trunk;
            var t := if size * cfg.improvementThreshold == 0.0 then cfg.improvementThreshold
                     else size * cfg.improvementThreshold;
            Improves(cfg, minimize, score, trunk) <==>
              if minimize then score < trunk && score < trunk - t else score > trunk && score > trunk + t
  {
  }

  /** Minimizing is maximizing with every sign turned, for the streak and for the velocity. */
  lemma {:induction false} MinimizingMirrorsMaximizing(cfg: Config, trunk: real, xs: seq<Finished>)
    ensures Streak(cfg, true, trunk, xs) == Streak(cfg, false, -trunk, Mirrored(xs))
    ensures BestGain(true, trunk, xs) == BestGain(false, -trunk, Mirrored(xs))
    ensures Velocity(cfg, true, trunk, xs) == Velocity(cfg, false, -trunk, Mirrored(xs))
  {
    StreakMirrored(cfg, trunk, xs);
    BestGainMirrored(trunk, xs);
    var i := WindowStart(|xs|, cfg.windowSize);
    assert Mirrored(xs)[i..] == Mirrored(xs[i..]);
    BestGainMirrored(trunk, xs[i..]);
  }

  lemma {:induction false} StreakMirrored(cfg: Config, trunk: real, xs: seq<Finished>)
    ensures Streak(cfg, true, trunk, xs) == Streak(cfg, false, -trunk, Mirrored(xs))
  {
    if xs != [] {
      var n := |xs| - 1;
      assert Mirrored(xs)[..n] == Mirrored(xs[..n]);
      StreakMirrored(cfg, trunk, xs[..n]);
      ImprovesMirrored(cfg, xs[n].score, trunk);
    }
  }

  lemma ImprovesMirrored(cfg: Config, score: real, trunk: real)
    ensures Improves(cfg, true, score, trunk) <==> Improves(cfg, false, -score, -trunk)
  {
    assert Abs(-trunk) == Abs(trunk);
  }

  lemma {:induction false} BestGainMirrored(trunk: real, xs: seq<Finished>)
    ensures BestGain(true, trunk, xs) == BestGain(false, -trunk, Mirrored(xs))
  {
    if xs != [] {
      var n := |xs| - 1;
      assert Mirrored(xs)[..n] == Mirrored(xs[..n]);
      BestGainMirrored(trunk, xs[..n]);
    }
  }

  /** The best gain is the largest there is, in the direction of the metric, or none. */
  lemma {:induction false} BestGainIsLargest(minimize: bool, trunk: real, xs: seq<Finished>)
    ensures var g := BestGain(minimize, trunk, xs);
            && g >= 0.0
            && (forall i :: 0 <= i < |xs| ==> g >= if minimize then trunk - xs[i].score else xs[i].score - trunk)
            && (g > 0.0 ==> exists i :: 0 <= i < |xs| && xs[i].score == if minimize then trunk - g else trunk + g)
  {
    if xs != [] {
      var n := |xs| - 1;
      BestGainIsLargest(minimize, trunk, xs[..n]);
      assert forall i :: 0 <= i < n ==> xs[..n][i] == xs[i];
    }
  }

  /** The velocity is the best gain among the last `windowSize` experiments, per experiment. */
  lemma VelocityExactly(cfg: Config, minimize: bool, trunk: real, sorted: seq<Finished>)
    requires cfg.windowSize > 0
    ensures var n := if |sorted| < cfg.windowSize then |sorted| else cfg.windowSize;
            var v := Velocity(cfg, minimize, trunk, sorted);
            if |sorted| < 2 then v == 0.0
            else v * (n as real) == BestGain(minimize, trunk, sorted[|sorted| - n..])
  {
    var n := if |sorted| < cfg.windowSize then |sorted| else cfg.windowSize;
    if |sorted| >= 2 {
      var best := BestGain(minimize, trunk, sorted[|sorted| - n..]);
      VelocityOfWindow(cfg, minimize, trunk, sorted, n);
      DivideBack(best, n);
    }
  }

  lemma VelocityOfWindow(cfg: Config, minimize: bool, trunk: real, sorted: seq<Finished>, n: nat)
    requires |sorted| >= 2 && cfg.windowSize > 0 && n == if |sorted| < cfg.windowSize then |sorted| else cfg.windowSize
    ensures Velocity(cfg, minimize, trunk, sorted) ==
            BestGain(minimize, trunk, sorted[|sorted| - n..]) / (n as real)
  {
    assert WindowStart(|sorted|, cfg.windowSize) == |sorted| - n;
  }

  lemma DivideBack(a: real, n: int)
    requires n >= 1
    ensures a / (n as real) * (n as real) == a
  {
  }

  /** Each level begins at its limit, the stricter ones taking precedence. */
  lemma LevelExactly(cfg: Config, n: nat)
    ensures LevelFor(cfg, n) == Some(Stop) <==> n >= cfg.stopAfter
    ensures LevelFor(cfg, n) == Some(ParadigmShift) <==> cfg.forceAfter <= n < cfg.stopAfter
    ensures LevelFor(cfg, n) == Some(Warn) <==> cfg.warnAfter <= n < cfg.stopAfter && n < cfg.forceAfter
  {
  }

  lemma {:induction false} BestGainBound(minimize: bool, trunk: real, xs: seq<Finished>, bound: real)
    requires bound >= 0.0 && forall i :: 0 <= i < |xs| ==> Gain(minimize, xs[i].score, trunk) <= bound
    ensures 0.0 <= BestGain(minimize, trunk, xs) <= bound
  {
    if xs != [] {
      BestGainBound(minimize, trunk, xs[..|xs| - 1], bound);
    }
  }

  lemma DivideBound(a: real, b: real, n: int)
    requires a <= b && n >= 1
    ensures a / (n as real) <= b / (n as real)
  {
    assert a / (n as real) - b / (n as real) == (a - b) / (n as real);
  }

  /**
   A streak that fills the window bounds the velocity: at most the threshold divided by the
   window size, in both metric directions (a negative threshold counts as 0).
   */
  lemma StreakBoundsVelocity(cfg: Config, minimize: bool, trunk: real, sorted: seq<Finished>)
    requires 1 <= cfg.windowSize <= Streak(cfg, minimize, trunk, sorted)
    ensures Velocity(cfg, minimize, trunk, sorted) <=
            MaxReal(0.0, Threshold(cfg, trunk)) / (cfg.windowSize as real)
  {
    var w := cfg.windowSize;
    var bound := MaxReal(0.0, Threshold(cfg, trunk));
    var window := sorted[|sorted| - w..];
    StreakIsMaximalSuffix(cfg, minimize, trunk, sorted);
    forall i | 0 <= i < w ensures Gain(minimize, window[i].score, trunk) <= bound {
      assert !Improves(cfg, minimize, sorted[|sorted| - w + i].score, trunk);
    }
    BestGainBound(minimize, trunk, window, bound);
    DivideBound(BestGain(minimize, trunk, window), bound, w);
    DivideBound(0.0, bound, w);
  }

  function Rank(l: Option<Level>): nat {
    match l
    case None => 0
    case Some(Warn) => 1
    case Some(ParadigmShift) => 2
    case Some(Stop) => 3
  }

  /** A longer streak never lowers the level, however the three limits are ordered. */
  lemma LevelMonotone(cfg: Config, m: nat, n: nat)
    requires m <= n
    ensures Rank(LevelFor(cfg, m)) <= Rank(LevelFor(cfg, n))
  {
  }

  // ---------- the order really is that of completion ----------

  lemma {:induction false} InsertIsPermutation(completion: seq<string>, sorted: seq<Finished>, x: Finished)
    ensures multiset(Insert(completion, sorted, x)) == multiset(sorted) + multiset{x}
  {
    if sorted != [] && Before(completion, x, sorted[|sorted| - 1]) {
      InsertIsPermutation(completion, sorted[..|sorted| - 1], x);
      assert sorted == sorted[..|sorted| - 1] + [sorted[|sorted| - 1]];
    }
  }

  lemma {:induction false} SortedIsPermutation(completion: seq<string>, xs: seq<Finished>)
    ensures multiset(Sorted(completion, xs)) == multiset(xs)
  {
    if xs != [] {
      SortedIsPermutation(completion, xs[..|xs| - 1]);
      InsertIsPermutation(completion, Sorted(completion, xs[..|xs| - 1]), xs[|xs| - 1]);
      assert xs == xs[..|xs| - 1] + [xs[|xs| - 1]];
    }
  }

  predicate InOrder(completion: seq<string>, xs: seq<Finished>) {
    forall i, j :: 0 <= i < j < |xs| ==> KeyOf(completion, xs[i].id) <= KeyOf(completion, xs[j].id)
  }

  lemma {:induction false} InsertKeepsOrder(completion: seq<string>, sorted: seq<Finished>, x: Finished)
    requires completion != [] && InOrder(completion, sorted)
    ensures InOrder(completion, Insert(completion, sorted, x))
  {
    var r := Insert(completion, sorted, x);
    if sorted != [] && Before(completion, x, sorted[|sorted| - 1]) {
      var front, last := sorted[..|sorted| - 1], sorted[|sorted| - 1];
      InsertKeepsOrder(completion, front, x);
      InsertIsPermutation(completion, front, x);
      forall i | 0 <= i < |r| - 1 ensures KeyOf(completion, r[i].id) <= KeyOf(completion, last.id) {
        assert r[i] in multiset(Insert(completion, front, x));
        assert r[i] in front || r[i] == x;
      }
    }
  }

  /**
   Once a completion is recorded, the finished experiments are examined in the order of their
   completion, all of them once, and those without a recorded completion at key 999,999.
   */
  lemma {:induction false} ExaminedInCompletionOrder(completion: seq<string>, xs: seq<Finished>)
    requires completion != []
    ensures InOrder(completion, Sorted(completion, xs)) && multiset(Sorted(completion, xs)) == multiset(xs)
  {
    SortedIsPermutation(completion, xs);
    if xs != [] {
      ExaminedInCompletionOrder(completion, xs[..|xs| - 1]);
      InsertKeepsOrder(completion, Sorted(completion, xs[..|xs| - 1]), xs[|xs| - 1]);
    }
  }

  /** The experiments with one sort key, in order. */
  function WithKey(completion: seq<string>, xs: seq<Finished>, key: nat): seq<Finished> {
    if xs == [] then []
    else
      var last := xs[|xs| - 1];
      WithKey(completion, xs[..|xs| - 1], key) + if KeyOf(completion, last.id) == key then [last] else []
  }

  lemma WithKeySnoc(completion: seq<string>, xs: seq<Finished>, x: Finished, key: nat)
    ensures WithKey(completion, xs + [x], key) ==
            WithKey(completion, xs, key) + if KeyOf(completion, x.id) == key then [x] else []
  {
    assert (xs + [x])[..|xs|] == xs;
  }

  lemma {:induction false} InsertIsStable(completion: seq<string>, sorted: seq<Finished>, x: Finished, key: nat)
    requires completion != []
    ensures WithKey(completion, Insert(completion, sorted, x), key) == WithKey(completion, sorted + [x], key)
  {
    if sorted != [] && Before(completion, x, sorted[|sorted| - 1]) {
      var front, last := sorted[..|sorted| - 1], sorted[|sorted| - 1];
      InsertIsStable(completion, front, x, key);
      assert sorted == front + [last];
      WithKeySnoc(completion, Insert(completion, front, x), last, key);
      PassedBy(completion, front, last, x, key);
    }
  }

  /** An experiment passes only those with another key. */
  lemma PassedBy(completion: seq<string>, front: seq<Finished>, last: Finished, x: Finished, key: nat)
    requires KeyOf(completion, x.id) != KeyOf(completion, last.id)
    ensures WithKey(completion, front + [last] + [x], key) ==
            WithKey(completion, front + [x], key) + if KeyOf(completion, last.id) == key then [last] else []
  {
    WithKeySnoc(completion, front, x, key);
    WithKeySnoc(completion, front, last, key);
    WithKeySnoc(completion, front + [last], x, key);
  }

  /** Experiments that compare equal, such as all without a recorded completion, keep their order. */
  lemma {:induction false} SortIsStable(completion: seq<string>, xs: seq<Finished>, key: nat)
    requires completion != []
    ensures WithKey(completion, Sorted(completion, xs), key) == WithKey(completion, xs, key)
  {
    if xs != [] {
      var n := |xs| - 1;
      SortIsStable(completion, xs[..n], key);
      InsertIsStable(completion, Sorted(completion, xs[..n]), xs[n], key);
      WithKeySnoc(completion, Sorted(completion, xs[..n]), xs[n], key);
      assert xs == xs[..n] + [xs[n]];
    }
  }

  /** Text order: a proper prefix comes first, and otherwise the smaller character at the first difference. */
  lemma {:induction false} TextBeforeExactly(a: string, b: string)
    ensures TextBefore(a, b) <==>
            || (a <= b && a != b)
            || exists i :: 0 <= i < |a| && i < |b| && a[..i] == b[..i] && a[i] < b[i]
    decreases |a|
  {
    if a != "" && b != "" {
      if a[0] == b[0] {
        TextBeforeExactly(a[1..], b[1..]);
        assert a == [a[0]] + a[1..] && b == [b[0]] + b[1..];
        if i :| 0 <= i < |a| - 1 && i < |b| - 1 && a[1..][..i] == b[1..][..i] && a[1..][i] < b[1..][i] {
          assert a[..i + 1] == [a[0]] + a[1..][..i] && b[..i + 1] == [b[0]] + b[1..][..i];
          assert a[i + 1] < b[i + 1];
        }
        if i :| 0 <= i < |a| && i < |b| && a[..i] == b[..i] && a[i] < b[i] {
          assert a[1..][..i - 1] == a[..i][1..] && b[1..][..i - 1] == b[..i][1..];
          assert a[1..][i - 1] < b[1..][i - 1];
        }
      } else {
        TextDiffersAtOnce(a, b);
      }
    }
  }

  lemma TextDiffersAtOnce(a: string, b: string)
    requires a != "" && b != "" && a[0] != b[0]
    ensures !(a <= b)
    ensures (exists i :: 0 <= i < |a| && i < |b| && a[..i] == b[..i] && a[i] < b[i]) <==> a[0] < b[0]
  {
    forall i | 0 < i < |a| && i < |b| ensures a[..i] != b[..i] { SamePrefixSameStart(a, b, i); }
    if a[0] < b[0] { assert a[..0] == b[..0]; }
  }

  lemma SamePrefixSameStart(a: string, b: string, i: nat)
    requires 0 < i <= |a| && i <= |b|
    ensures a[..i] == b[..i] ==> a[0] == b[0]
  {
    assert a[..i][0] == a[0] && b[..i][0] == b[0];
  }

  /** Without any recorded completion the experiments are examined in the order of their ids. */
  predicate InIdOrder(xs: seq<Finished>) {
    forall i, j :: 0 <= i < j < |xs| ==> !TextBefore(xs[j].id, xs[i].id)
  }

  lemma {:induction false} TextBeforeTransitive(a: string, b: string, c: string)
    requires !TextBefore(b, a) && !TextBefore(c, b)
    ensures !TextBefore(c, a)
    decreases |a|
  {
    if a != "" && b != "" && c != "" && a[0] == b[0] == c[0] { TextBeforeTransitive(a[1..], b[1..], c[1..]); }
  }

  lemma {:induction false} TextBeforeAsymmetric(a: string, b: string)
    requires TextBefore(a, b)
    ensures !TextBefore(b, a)
    decreases |a|
  {
    if a != "" && b != "" && a[0] == b[0] { TextBeforeAsymmetric(a[1..], b[1..]); }
  }

  lemma {:induction false} InsertKeepsIdOrder(sorted: seq<Finished>, x: Finished)
    requires InIdOrder(sorted)
    ensures InIdOrder(Insert([], sorted, x))
  {
    var r := Insert([], sorted, x);
    if sorted != [] && TextBefore(x.id, sorted[|sorted| - 1].id) {
      var front, last := sorted[..|sorted| - 1], sorted[|sorted| - 1];
      InsertKeepsIdOrder(front, x);
      InsertIsPermutation([], front, x);
      TextBeforeAsymmetric(x.id, last.id);
      forall i | 0 <= i < |r| - 1 ensures !TextBefore(last.id, r[i].id) {
        assert r[i] in multiset(Insert([], front, x));
        assert r[i] in front || r[i] == x;
      }
    } else if sorted != [] {
      forall i | 0 <= i < |sorted| ensures !TextBefore(x.id, sorted[i].id) {
        if i < |sorted| - 1 { TextBeforeTransitive(sorted[i].id, sorted[|sorted| - 1].id, x.id); }
      }
    }
  }

  lemma {:induction false} ExaminedInIdOrder(xs: seq<Finished>)
    ensures InIdOrder(Sorted([], xs)) && multiset(Sorted([], xs)) == multiset(xs)
  {
    SortedIsPermutation([], xs);
    if xs != [] {
      ExaminedInIdOrder(xs[..|xs| - 1]);
      InsertKeepsIdOrder(Sorted([], xs[..|xs| - 1]), xs[|xs| - 1]);
    }
  }

  /** What is examined: one entry for each scored node that is completed or merged, the root aside. */
  lemma {:induction false} DoneExactly(nodes: Nodes, order: seq<string>, root: string, x: Finished)
    requires forall id :: id in nodes ==> nodes[id].id == id
    ensures x in DoneNodes(nodes, order, root) <==>
            && x.id in order && x.id in nodes && x.id != root && nodes[x.id].score == Some(x.score)
            && (nodes[x.id].status == Completed || nodes[x.id].status == Merged)
  {
    if order != [] {
      var n := |order| - 1;
      DoneExactly(nodes, order[..n], root, x);
      assert order == order[..n] + [order[n]];
    }
  }

  /** Experiments without a recorded completion share the last key. */
  lemma {:induction false} UnrecordedComeLast(completion: seq<string>, id: string)
    requires id !in completion
    ensures KeyOf(completion, id) == 999_999
  {
  }

  /** The key of a recorded completion is its position. */
  lemma {:induction false} KeyIsPosition(completion: seq<string>, i: nat)
    requires i < |completion| && forall j :: 0 <= j < i ==> completion[j] != completion[i]
    ensures KeyOf(completion, completion[i]) == i
  {
    if i > 0 {
      assert completion[1..][i - 1] == completion[i];
      KeyIsPosition(completion[1..], i - 1);
    }
  }
}
