/**
 The idea tree: nodes by id with parent and child links, and the mutations that keep it a tree.
 */
module IdeaTree {
  import opened Basics
  import opened PythonText

  datatype Status = Pending | Running | Completed | NeedsRetry | Merged | Pruned

  datatype Node = Node(
    id: string, parentId: Option<string>, childrenIds: seq<string>, depth: int,
    hypothesis: string, status: Status, insight: string, result: string,
    score: Option<real>, codeRef: Option<string>, relatedWork: string,
    evalStatus: Option<string>, stopReason: Option<string>, attempt: int)

  type Nodes = map<string, Node>

  // ---------- shape ----------

  type Parents = map<string, Option<string>>
  type Children = map<string, seq<string>>

  function ParentsOf(nodes: Nodes): Parents {
    map id | id in nodes :: nodes[id].parentId
  }

  function ChildrenOf(nodes: Nodes): Children {
    map id | id in nodes :: nodes[id].childrenIds
  }

  /** Every node but the root has a parent in the tree, of smaller rank: there are no cycles. */
  ghost predicate Ranked(parents: Parents, rank: map<string, nat>) {
    && parents.Keys == rank.Keys
    && forall id :: id in parents && parents[id].Some? ==>
         parents[id].value in parents && rank[parents[id].value] < rank[id]
  }

  /** Parent and child links agree exactly, and no child is listed twice. */
  ghost predicate Linked(parents: Parents, children: Children) {
    && parents.Keys == children.Keys
    && (forall p, c :: p in children && c in children[p] ==> c in parents && parents[c] == Some(p))
    && (forall c :: c in parents && parents[c].Some? ==>
          parents[c].value in children && c in children[parents[c].value])
    && (forall p :: p in children ==> Distinct(children[p]))
  }

  ghost predicate OnlyRoot(parents: Parents, root: string) {
    && root in parents
    && forall id :: id in parents ==> (parents[id].None? <==> id == root)
  }

  /** The ids from a node up to the root. */
  ghost function Path(parents: Parents, rank: map<string, nat>, id: string): seq<string>
    requires Ranked(parents, rank) && id in parents
    decreases rank[id]
  {
    if parents[id].None? then [id] else [id] + Path(parents, rank, parents[id].value)
  }

  /** A node lies in the subtree of `t` when its path to the root contains `t`. */
  ghost predicate InSubtree(parents: Parents, rank: map<string, nat>, t: string, id: string)
    requires Ranked(parents, rank) && id in parents
  {
    t in Path(parents, rank, id)
  }

  lemma {:induction false} PathFacts(parents: Parents, rank: map<string, nat>, id: string, t: string)
    requires Ranked(parents, rank) && id in parents
    ensures InSubtree(parents, rank, t, id) <==>
              t == id || (parents[id].Some? && InSubtree(parents, rank, t, parents[id].value))
    ensures InSubtree(parents, rank, t, id) ==> t in parents && rank[t] <= rank[id]
    decreases rank[id]
  {
    if parents[id].Some? {
      PathFacts(parents, rank, parents[id].value, t);
    }
  }

  /** Every path ends at the root, and steps from child to parent. */
  lemma {:induction false} PathEndsAtRoot(parents: Parents, rank: map<string, nat>, root: string, id: string)
    requires Ranked(parents, rank) && OnlyRoot(parents, root) && id in parents
    ensures var p := Path(parents, rank, id);
            && p != [] && p[0] == id && p[|p| - 1] == root
            && (forall i :: 0 <= i < |p| ==> p[i] in parents)
            && (forall i :: 0 <= i < |p| - 1 ==> parents[p[i]] == Some(p[i + 1]))
    decreases rank[id]
  {
    if parents[id].Some? {
      PathEndsAtRoot(parents, rank, root, parents[id].value);
    }
  }

  /** The subtree of `t` is `t` together with the subtrees of its children. */
  lemma {:induction false} SubtreeByChildren(parents: Parents, children: Children, rank: map<string, nat>,
                                             id: string, t: string)
    requires Ranked(parents, rank) && Linked(parents, children) && id in parents && t in parents
    ensures InSubtree(parents, rank, t, id) <==>
              id == t || exists c :: c in children[t] && InSubtree(parents, rank, c, id)
    decreases rank[id]
  {
    PathFacts(parents, rank, id, t);
    if InSubtree(parents, rank, t, id) && id != t {
      var p := parents[id].value;
      SubtreeByChildren(parents, children, rank, p, t);
      var c := if p == t then id else var c :| c in children[t] && InSubtree(parents, rank, c, p); c;
      PathFacts(parents, rank, id, c);
      assert c in children[t] && InSubtree(parents, rank, c, id);
    }
    if c :| c in children[t] && InSubtree(parents, rank, c, id) {
      SubtreeUp(parents, rank, id, c);
    }
  }

  /** If `c` is on a path, so is its parent. */
  lemma {:induction false} SubtreeUp(parents: Parents, rank: map<string, nat>, id: string, c: string)
    requires Ranked(parents, rank) && id in parents && InSubtree(parents, rank, c, id)
    requires c in parents && parents[c].Some?
    ensures InSubtree(parents, rank, parents[c].value, id)
    decreases rank[id]
  {
    PathFacts(parents, rank, id, c);
    PathFacts(parents, rank, id, parents[c].value);
    if c == id {
      PathFacts(parents, rank, parents[c].value, parents[c].value);
    } else {
      SubtreeUp(parents, rank, parents[id].value, c);
    }
  }

  // ---------- mutations ----------

  datatype Error = AlreadyExists | ParentMissing | NotFound | InvalidField

  datatype FieldUpdate =
    | Hypothesis(s: string) | StatusField(status: Status) | Insight(s: string) | ResultField(s: string)
    | Score(score: Option<real>) | CodeRef(ref: Option<string>) | RelatedWork(s: string)
    | EvalStatus(ref: Option<string>) | StopReason(ref: Option<string>) | Attempt(n: int)
    | OtherField

  function WithField(n: Node, u: FieldUpdate): Node {
    match u
    case Hypothesis(s) => n.(hypothesis := s)
    case StatusField(s) => n.(status := s)
    case Insight(s) => n.(insight := s)
    case ResultField(s) => n.(result := s)
    case Score(s) => n.(score := s)
    case CodeRef(r) => n.(codeRef := r)
    case RelatedWork(s) => n.(relatedWork := s)
    case EvalStatus(r) => n.(evalStatus := r)
    case StopReason(r) => n.(stopReason := r)
    case Attempt(k) => n.(attempt := k)
    case OtherField => n
  }

  /** Fields are set one by one until a field outside the whitelist is met. */
  function WithFields(n: Node, us: seq<FieldUpdate>): Node
    decreases us
  {
    if us == [] || us[0].OtherField? then n else WithFields(WithField(n, us[0]), us[1..])
  }

  predicate AllValid(us: seq<FieldUpdate>) {
    forall i :: 0 <= i < |us| ==> !us[i].OtherField?
  }

  /** What pruning writes into a node of the pruned subtree. */
  function PrunedNode(n: Node, isTarget: bool, reason: string): Node {
    var marked := n.(status := Pruned);
    if isTarget && reason != "" then marked.(insight := Strip(n.insight + "\n[Pruned: " + reason + "]")) else marked
  }

  // ---------- pruning as a function ----------

  /** All ids whose path to the root contains `t`. */
  ghost function Subtree(parents: Parents, rank: map<string, nat>, t: string): set<string>
    requires Ranked(parents, rank)
  {
    set id | id in parents && InSubtree(parents, rank, t, id)
  }

  ghost function Subtrees(parents: Parents, rank: map<string, nat>, ts: seq<string>): set<string>
    requires Ranked(parents, rank)
  {
    if ts == [] then {} else Subtrees(parents, rank, ts[..|ts| - 1]) + Subtree(parents, rank, ts[|ts| - 1])
  }

  function PrunedIn(nodes: Nodes, marked: set<string>, target: string, reason: string): Nodes {
    map id | id in nodes :: if id in marked then PrunedNode(nodes[id], id == target, reason) else nodes[id]
  }

  /** Marking two sets one after the other, when the second does not contain the target. */
  lemma PrunedInTwice(nodes: Nodes, a: set<string>, b: set<string>, target: string, reason: string)
    requires target !in b
    ensures PrunedIn(PrunedIn(nodes, a, target, reason), b, target, reason) == PrunedIn(nodes, a + b, target, reason)
  {
  }

  lemma PrunedInKeepsShape(nodes: Nodes, marked: set<string>, target: string, reason: string)
    ensures var pruned := PrunedIn(nodes, marked, target, reason);
            ParentsOf(pruned) == ParentsOf(nodes) && ChildrenOf(pruned) == ChildrenOf(nodes)
  {
  }

  lemma {:induction false} SubtreesMember(parents: Parents, rank: map<string, nat>, ts: seq<string>, id: string)
    requires Ranked(parents, rank) && id in parents
    ensures id in Subtrees(parents, rank, ts) <==> exists c :: c in ts && InSubtree(parents, rank, c, id)
  {
    if ts != [] {
      var n := |ts| - 1;
      SubtreesMember(parents, rank, ts[..n], id);
      assert ts == ts[..n] + [ts[n]];
    }
  }

  lemma SubtreeSplit(parents: Parents, children: Children, rank: map<string, nat>, t: string)
    requires Ranked(parents, rank) && Linked(parents, children) && t in parents
    ensures Subtree(parents, rank, t) == {t} + Subtrees(parents, rank, children[t])
  {
    forall id | id in parents
      ensures id in Subtree(parents, rank, t) <==> id == t || id in Subtrees(parents, rank, children[t])
    {
      SubtreeByChildren(parents, children, rank, id, t);
      SubtreesMember(parents, rank, children[t], id);
    }
    SubtreesInTree(parents, rank, children[t]);
  }

  lemma {:induction false} SubtreesInTree(parents: Parents, rank: map<string, nat>, ts: seq<string>)
    requires Ranked(parents, rank)
    ensures Subtrees(parents, rank, ts) <= parents.Keys
  {
    if ts != [] { SubtreesInTree(parents, rank, ts[..|ts| - 1]); }
  }

  lemma SubtreesSnoc(parents: Parents, rank: map<string, nat>, ts: seq<string>, i: nat)
    requires Ranked(parents, rank) && i < |ts|
    ensures Subtrees(parents, rank, ts[..i + 1]) == Subtrees(parents, rank, ts[..i]) + Subtree(parents, rank, ts[i])
  {
    assert ts[..i + 1][..i] == ts[..i];
  }

  /** Pruning descends: a child lies deeper than the target and the target not below it. */
  lemma ChildFacts(parents: Parents, children: Children, rank: map<string, nat>, nid: string, target: string, c: string)
    requires Ranked(parents, rank) && Linked(parents, children)
    requires nid in parents && target in parents && c in children[nid]
    requires nid == target || rank[target] < rank[nid]
    ensures c in parents && rank[target] < rank[c] && rank[nid] < rank[c]
    ensures target !in Subtree(parents, rank, c)
  {
    PathFacts(parents, rank, target, c);
  }

  /** Pruning has reached `nid` on its way down from `target`. */
  ghost predicate Descends(parents: Parents, children: Children, rank: map<string, nat>, bound: nat,
                           nid: string, target: string)
  {
    && Ranked(parents, rank) && Linked(parents, children)
    && nid in parents && target in parents && rank[nid] <= bound
    && (forall id :: id in rank ==> rank[id] <= bound)
    && (nid == target || rank[target] < rank[nid])
  }

  lemma DescendsToChild(parents: Parents, children: Children, rank: map<string, nat>, bound: nat, nid: string,
                        target: string, c: string)
    requires Descends(parents, children, rank, bound, nid, target) && c in children[nid]
    ensures Descends(parents, children, rank, bound, c, target) && rank[nid] < rank[c]
    ensures target !in Subtree(parents, rank, c)
  {
    ChildFacts(parents, children, rank, nid, target, c);
  }

  lemma MarkedFirst(nodes: Nodes, nid: string, target: string, reason: string)
    requires nid in nodes
    ensures nodes[nid := PrunedNode(nodes[nid], nid == target, reason)] == PrunedIn(nodes, {nid}, target, reason)
  {
  }

  /** The node first and then everything below it make up its subtree. */
  lemma PrunedBelow(nodes: Nodes, parents: Parents, children: Children, rank: map<string, nat>, bound: nat,
                    nid: string, target: string, reason: string)
    requires Descends(parents, children, rank, bound, nid, target)
    ensures PrunedIn(PrunedIn(nodes, {nid}, target, reason), Subtrees(parents, rank, children[nid]), target, reason) ==
            PrunedIn(nodes, Subtree(parents, rank, nid), target, reason)
  {
    forall c | c in children[nid] ensures target !in Subtree(parents, rank, c) {
      DescendsToChild(parents, children, rank, bound, nid, target, c);
    }
    NotInSubtrees(parents, rank, children[nid], target);
    PrunedInTwice(nodes, {nid}, Subtrees(parents, rank, children[nid]), target, reason);
    SubtreeSplit(parents, children, rank, nid);
  }

  lemma {:induction false} NotInSubtrees(parents: Parents, rank: map<string, nat>, ts: seq<string>, id: string)
    requires Ranked(parents, rank) && forall t :: t in ts ==> id !in Subtree(parents, rank, t)
    ensures id !in Subtrees(parents, rank, ts)
  {
    if ts != [] { NotInSubtrees(parents, rank, ts[..|ts| - 1], id); }
  }

  /** One more child's subtree marked. */
  lemma PrunedChild(nodes: Nodes, done: set<string>, parents: Parents, rank: map<string, nat>,
                    ids: seq<string>, i: nat, target: string, reason: string)
    requires Ranked(parents, rank) && i < |ids| && target !in Subtree(parents, rank, ids[i])
    ensures PrunedIn(PrunedIn(nodes, done, target, reason), Subtree(parents, rank, ids[i]), target, reason) ==
            PrunedIn(nodes, done + Subtree(parents, rank, ids[i]), target, reason)
    ensures Subtrees(parents, rank, ids[..i + 1]) == Subtrees(parents, rank, ids[..i]) + Subtree(parents, rank, ids[i])
  {
    PrunedInTwice(nodes, done, Subtree(parents, rank, ids[i]), target, reason);
    SubtreesSnoc(parents, rank, ids, i);
  }

  ghost predicate TreeOk(nodes: Nodes, order: seq<string>, rank: map<string, nat>, root: string) {
    && Ranked(ParentsOf(nodes), rank)
    && Linked(ParentsOf(nodes), ChildrenOf(nodes))
    && OnlyRoot(ParentsOf(nodes), root)
    && (forall id :: id in rank ==> rank[id] < |order|)
    && (forall id :: id in nodes <==> id in order)
    && Distinct(order) && order != [] && order[0] == root
    && (forall id :: id in nodes ==> nodes[id].id == id)
  }

  class IdeaTree {
    const rootId: string
    var nodes: Nodes
    var order: seq<string>   // dictionary order of `nodes`
    ghost var rank: map<string, nat>   // position at insertion

    ghost predicate Valid()
      reads this
    {
      TreeOk(nodes, order, rank, rootId)
    }

    constructor (root: Node)
      requires root.parentId == None && root.childrenIds == []
      ensures Valid() && rootId == root.id && nodes == map[root.id := root] && order == [root.id]
    {
      rootId := root.id;
      nodes := map[root.id := root];
      order := [root.id];
      rank := map[root.id := 0];
    }

    /** Adds a node under its parent; `AddKeepsTree` says when the result is a tree. */
    method AddNode(node: Node) returns (error: Option<Error>)
      modifies this
      ensures error == AddError(old(nodes), node)
      ensures error.Some? ==> nodes == old(nodes) && order == old(order) && rank == old(rank)
      ensures error.None? ==> nodes == Added(old(nodes), node) && order == old(order) + [node.id]
      ensures error.None? ==> rank == old(rank)[node.id := |old(order)|]
    {
      if node.id in nodes { return Some(AlreadyExists); }
      if node.parentId.Some? && node.parentId.value !in nodes { return Some(ParentMissing); }
      nodes := nodes[node.id := node];
      order := order + [node.id];
      if node.parentId.Some? {
        var parent := nodes[node.parentId.value];
        if node.id !in parent.childrenIds {
          nodes := nodes[node.parentId.value := parent.(childrenIds := parent.childrenIds + [node.id])];
        }
      }
      rank := rank[node.id := |order| - 1];
      return None;
    }

    method UpdateNode(nodeId: string, updates: seq<FieldUpdate>) returns (error: Option<Error>)
      modifies this`nodes
      ensures nodeId !in old(nodes) ==> error == Some(NotFound) && nodes == old(nodes)
      ensures nodeId in old(nodes) ==>
                && nodes == old(nodes)[nodeId := WithFields(old(nodes)[nodeId], updates)]
                && error == if AllValid(updates) then None else Some(InvalidField)
    {
      if nodeId !in nodes { return Some(NotFound); }
      error := None;
      ghost var was := nodes;
      var i := 0;
      assert was == was[nodeId := was[nodeId]] && updates[0..] == updates;
      while i < |updates|
        invariant 0 <= i <= |updates|
        invariant nodeId in nodes && nodes == was[nodeId := nodes[nodeId]]
        invariant WithFields(nodes[nodeId], updates[i..]) == WithFields(was[nodeId], updates)
        invariant AllValid(updates[..i])
      {
        assert updates[i..][1..] == updates[i + 1..];
        if updates[i].OtherField? {
          error := Some(InvalidField);
          break;
        }
        nodes := nodes[nodeId := WithField(nodes[nodeId], updates[i])];
        i := i + 1;
      }
    }

    method GetPathToRoot(nodeId: string) returns (path: seq<string>)
      requires Valid()
      ensures path == if nodeId in nodes then Path(ParentsOf(nodes), rank, nodeId) else []
    {
      path := [];
      if nodeId !in nodes { return; }
      var current := nodeId;
      while true
        invariant current in nodes
        invariant path + Path(ParentsOf(nodes), rank, current) == Path(ParentsOf(nodes), rank, nodeId)
        decreases rank[current]
      {
        path := path + [current];
        if nodes[current].parentId.None? { break; }
        current := nodes[current].parentId.value;
      }
    }

    /** The recursive worker of `PruneNode`. */
    method PruneFrom(nid: string, target: string, reason: string, ghost parents: Parents, ghost children: Children,
                     ghost ranks: map<string, nat>, ghost bound: nat)
      requires parents == ParentsOf(nodes) && children == ChildrenOf(nodes)
      requires Descends(parents, children, ranks, bound, nid, target)
      modifies this`nodes
      ensures nodes == PrunedIn(old(nodes), Subtree(parents, ranks, nid), target, reason)
      decreases bound - ranks[nid], 1
    {
      ghost var was := nodes;
      var n := nodes[nid];
      MarkedFirst(was, nid, target, reason);
      nodes := nodes[nid := PrunedNode(n, nid == target, reason)];
      PrunedInKeepsShape(was, {nid}, target, reason);
      PruneChildren(nid, n.childrenIds, target, reason, parents, children, ranks, bound);
      PrunedBelow(was, parents, children, ranks, bound, nid, target, reason);
    }

    /** The loop over the children. */
    method PruneChildren(ghost nid: string, ids: seq<string>, target: string, reason: string, ghost parents: Parents,
                         ghost children: Children, ghost ranks: map<string, nat>, ghost bound: nat)
      requires parents == ParentsOf(nodes) && children == ChildrenOf(nodes)
      requires Descends(parents, children, ranks, bound, nid, target) && ids == children[nid]
      modifies this`nodes
      ensures nodes == PrunedIn(old(nodes), Subtrees(parents, ranks, ids), target, reason)
      decreases bound - ranks[nid], 0
    {
      ghost var was := nodes;
      for i := 0 to |ids|
        invariant nodes == PrunedIn(was, Subtrees(parents, ranks, ids[..i]), target, reason)
      {
        var c := ids[i];
        DescendsToChild(parents, children, ranks, bound, nid, target, c);
        PrunedInKeepsShape(was, Subtrees(parents, ranks, ids[..i]), target, reason);
        PruneFrom(c, target, reason, parents, children, ranks, bound);
        PrunedChild(was, Subtrees(parents, ranks, ids[..i]), parents, ranks, ids, i, target, reason);
      }
      assert ids[..|ids|] == ids;
    }

    /**
     Marks exactly the nodes whose path to the root contains `nodeId`; changes no shape, no other
     node, and no insight but the pruned node's own.
     */
    method PruneNode(nodeId: string, reason: string) returns (error: Option<Error>)
      requires Valid()
      modifies this`nodes
      ensures error == if nodeId in old(nodes) then None else Some(NotFound)
      ensures nodes == PrunedIn(old(nodes), old(Subtree(ParentsOf(nodes), rank, nodeId)), nodeId, reason)
      ensures ParentsOf(nodes) == old(ParentsOf(nodes)) && ChildrenOf(nodes) == old(ChildrenOf(nodes))
    {
      PrunedInKeepsShape(nodes, Subtree(ParentsOf(nodes), rank, nodeId), nodeId, reason);
      if nodeId !in nodes {
        forall id | id in nodes ensures !InSubtree(ParentsOf(nodes), rank, nodeId, id) {
          PathFacts(ParentsOf(nodes), rank, id, nodeId);
        }
        return Some(NotFound);
      }
      PruneFrom(nodeId, nodeId, reason, ParentsOf(nodes), ChildrenOf(nodes), rank, |order|);
      return None;
    }
  }

  /** Updates touch no link. */
  lemma UpdateKeepsTree(nodes: Nodes, order: seq<string>, rank: map<string, nat>, root: string,
                        id: string, updates: seq<FieldUpdate>)
    requires TreeOk(nodes, order, rank, root) && id in nodes
    ensures TreeOk(nodes[id := WithFields(nodes[id], updates)], order, rank, root)
  {
    UpdatedShape(nodes, id, updates);
    SameShapeTreeOk(nodes, nodes[id := WithFields(nodes[id], updates)], order, rank, root);
  }

  lemma UpdatedShape(nodes: Nodes, id: string, updates: seq<FieldUpdate>)
    requires id in nodes
    ensures SameShape(nodes, nodes[id := WithFields(nodes[id], updates)])
  {
    WithFieldsKeepsLinks(nodes[id], updates);
  }

  /** The same ids, parents and children. */
  predicate SameShape(nodes: Nodes, after: Nodes) {
    && ParentsOf(after) == ParentsOf(nodes) && ChildrenOf(after) == ChildrenOf(nodes)
    && after.Keys == nodes.Keys && forall id :: id in nodes ==> after[id].id == nodes[id].id
  }

  lemma SameShapeTreeOk(nodes: Nodes, after: Nodes, order: seq<string>, rank: map<string, nat>, root: string)
    requires TreeOk(nodes, order, rank, root) && SameShape(nodes, after)
    ensures TreeOk(after, order, rank, root)
  {
  }

  /** The field that an update names has the value it gives. */
  predicate Holds(n: Node, u: FieldUpdate) {
    match u
    case Hypothesis(s) => n.hypothesis == s
    case StatusField(s) => n.status == s
    case Insight(s) => n.insight == s
    case ResultField(s) => n.result == s
    case Score(s) => n.score == s
    case CodeRef(r) => n.codeRef == r
    case RelatedWork(s) => n.relatedWork == s
    case EvalStatus(r) => n.evalStatus == r
    case StopReason(r) => n.stopReason == r
    case Attempt(k) => n.attempt == k
    case OtherField => true
  }

  predicate SameField(u: FieldUpdate, v: FieldUpdate) {
    match u
    case Hypothesis(_) => v.Hypothesis?
    case StatusField(_) => v.StatusField?
    case Insight(_) => v.Insight?
    case ResultField(_) => v.ResultField?
    case Score(_) => v.Score?
    case CodeRef(_) => v.CodeRef?
    case RelatedWork(_) => v.RelatedWork?
    case EvalStatus(_) => v.EvalStatus?
    case StopReason(_) => v.StopReason?
    case Attempt(_) => v.Attempt?
    case OtherField => v.OtherField?
  }

  lemma FieldWritten(n: Node, u: FieldUpdate, v: FieldUpdate)
    requires !u.OtherField?
    ensures Holds(WithField(n, u), u)
    ensures !SameField(u, v) ==> (Holds(WithField(n, u), v) <==> Holds(n, v))
  {
  }

  /** The first `i` updates are written; behind them the list ends or an unknown field stops it. */
  predicate Written(us: seq<FieldUpdate>, i: nat) {
    i <= |us| && (forall j :: 0 <= j < i ==> !us[j].OtherField?) && (i < |us| ==> us[i].OtherField?)
  }

  lemma WrittenTail(us: seq<FieldUpdate>, i: nat)
    requires Written(us, i) && i > 0
    ensures Written(us[1..], i - 1)
  {
  }

  /** A field that no written update names keeps its value. */
  lemma {:induction false} UnwrittenFieldKept(n: Node, us: seq<FieldUpdate>, i: nat, v: FieldUpdate)
    requires Written(us, i) && forall j :: 0 <= j < i ==> !SameField(us[j], v)
    ensures Holds(WithFields(n, us), v) <==> Holds(n, v)
    decreases i
  {
    if i > 0 {
      WrittenTail(us, i);
      FieldWritten(n, us[0], v);
      UnwrittenFieldKept(WithField(n, us[0]), us[1..], i - 1, v);
    }
  }

  /** A field ends with the value written to it last, up to the first unknown field. */
  lemma {:induction false} LastWriteHolds(n: Node, us: seq<FieldUpdate>, i: nat, k: nat)
    requires Written(us, i) && k < i && forall j :: k < j < i ==> !SameField(us[j], us[k])
    ensures Holds(WithFields(n, us), us[k])
    decreases i
  {
    WrittenTail(us, i);
    if k == 0 {
      FieldWritten(n, us[0], us[0]);
      UnwrittenFieldKept(WithField(n, us[0]), us[1..], i - 1, us[0]);
    } else {
      LastWriteHolds(WithField(n, us[0]), us[1..], i - 1, k - 1);
    }
  }

  /** The pruned node itself keeps what was noted of it, with the reason behind it; without a reason all of it. */
  lemma PrunedInsightExactly(n: Node, isTarget: bool, reason: string)
    ensures var p := PrunedNode(n, isTarget, reason);
            && p == n.(status := Pruned, insight := p.insight)
            && if isTarget && reason != "" then
                 var noted := n.insight + "\n[Pruned: " + reason + "]";
                 && |p.insight| <= |noted| && p.insight == noted[|noted| - |p.insight|..]
                 && (n.insight != "" && !IsSpace(n.insight[0]) ==> p.insight == noted)
               else p.insight == n.insight
  {
    var noted := n.insight + "\n[Pruned: " + reason + "]";
    assert noted[|noted| - 1] == ']' && !IsSpace(']');
    StripLeftKeepsEnd(noted);
    if n.insight != "" { assert noted[0] == n.insight[0]; }
  }

  lemma {:induction false} StripLeftKeepsEnd(s: string)
    requires s != "" && !IsSpace(s[|s| - 1])
    ensures var r := StripLeft(s); r != "" && |r| <= |s| && r == s[|s| - |r|..]
  {
    if IsSpace(s[0]) { StripLeftKeepsEnd(s[1..]); }
  }

  /** Pruning touches no link. */
  lemma PrunedTreeOk(nodes: Nodes, order: seq<string>, rank: map<string, nat>, root: string,
                     marked: set<string>, target: string, reason: string)
    requires TreeOk(nodes, order, rank, root)
    ensures TreeOk(PrunedIn(nodes, marked, target, reason), order, rank, root)
  {
    PrunedInKeepsShape(nodes, marked, target, reason);
    SameShapeTreeOk(nodes, PrunedIn(nodes, marked, target, reason), order, rank, root);
  }

  lemma {:induction false} WithFieldsKeepsLinks(n: Node, us: seq<FieldUpdate>)
    ensures var m := WithFields(n, us);
            m.id == n.id && m.parentId == n.parentId && m.childrenIds == n.childrenIds && m.depth == n.depth
    decreases us
  {
    if us != [] && !us[0].OtherField? { WithFieldsKeepsLinks(WithField(n, us[0]), us[1..]); }
  }

  function AddError(nodes: Nodes, node: Node): Option<Error> {
    if node.id in nodes then Some(AlreadyExists)
    else if node.parentId.Some? && node.parentId.value !in nodes then Some(ParentMissing)
    else None
  }

  /** An id that is taken is one error, a parent that is missing the other; anything else is added. */
  lemma AddErrorExactly(nodes: Nodes, node: Node)
    ensures AddError(nodes, node) == Some(AlreadyExists) <==> node.id in nodes
    ensures AddError(nodes, node) == Some(ParentMissing) <==>
            node.id !in nodes && node.parentId.Some? && node.parentId.value !in nodes
    ensures AddError(nodes, node) == None <==>
            node.id !in nodes && (node.parentId.Some? ==> node.parentId.value in nodes)
  {
  }

  /** The nodes after a successful addition. */
  function Added(nodes: Nodes, node: Node): Nodes
    requires AddError(nodes, node).None?
  {
    var grown := nodes[node.id := node];
    if node.parentId.None? then grown
    else
      var parent := grown[node.parentId.value];
      if node.id in parent.childrenIds then grown
      else grown[node.parentId.value := parent.(childrenIds := parent.childrenIds + [node.id])]
  }

  lemma AddedShape(nodes: Nodes, node: Node)
    requires AddError(nodes, node).None? && node.parentId.Some? && node.childrenIds == []
    requires forall p :: p in nodes ==> node.id !in nodes[p].childrenIds
    ensures var p := node.parentId.value;
            && ParentsOf(Added(nodes, node)) == ParentsOf(nodes)[node.id := node.parentId]
            && ChildrenOf(Added(nodes, node)) == ChildrenOf(nodes)[node.id := []][p := nodes[p].childrenIds + [node.id]]
  {
  }

  lemma GrownLinks(parents: Parents, children: Children, id: string, p: string)
    requires Linked(parents, children) && id !in parents && p in parents
    ensures Linked(parents[id := Some(p)], children[id := []][p := children[p] + [id]])
  {
    var parents', children' := parents[id := Some(p)], children[id := []][p := children[p] + [id]];
    forall q, c | q in children' && c in children'[q] ensures c in parents' && parents'[c] == Some(q) {
      if q == p { assert c in children[p] || c == id; }
    }
    forall c | c in parents' && parents'[c].Some?
      ensures parents'[c].value in children' && c in children'[parents'[c].value]
    {
      if c == id {
        assert children'[p][|children[p]|] == id;
      } else if parents[c].value == p {
        assert c in children[p];
      }
    }
    forall q | q in children' ensures Distinct(children'[q]) {
      if q == p { assert id !in children[p]; }
    }
  }

  lemma GrownRanks(parents: Parents, rank: map<string, nat>, id: string, p: string, n: nat)
    requires Ranked(parents, rank) && id !in parents && p in parents && rank[p] < n
    ensures Ranked(parents[id := Some(p)], rank[id := n])
  {
  }

  /** Adding a childless node with a parent keeps the shape a tree. */
  lemma AddKeepsTree(nodes: Nodes, order: seq<string>, rank: map<string, nat>, root: string, node: Node)
    requires AddError(nodes, node).None? && TreeOk(nodes, order, rank, root)
    requires node.parentId.Some? && node.childrenIds == []
    ensures TreeOk(Added(nodes, node), order + [node.id], rank[node.id := |order|], root)
  {
    var p := node.parentId.value;
    NotYetAChild(nodes, node.id);
    AddedShape(nodes, node);
    GrownLinks(ParentsOf(nodes), ChildrenOf(nodes), node.id, p);
    GrownRanks(ParentsOf(nodes), rank, node.id, p, |order|);
    GrownRoot(ParentsOf(nodes), root, node.id, p);
    GrownKeys(nodes, order, node);
    GrownBound(rank, node.id, |order|);
  }

  lemma GrownBound(rank: map<string, nat>, id: string, n: nat)
    requires forall x :: x in rank ==> rank[x] < n
    ensures var grown := rank[id := n]; forall x :: x in grown ==> grown[x] < n + 1
  {
  }

  lemma NotYetAChild(nodes: Nodes, id: string)
    requires Linked(ParentsOf(nodes), ChildrenOf(nodes)) && id !in nodes
    ensures forall p :: p in nodes ==> id !in nodes[p].childrenIds
  {
    forall p | p in nodes ensures id !in nodes[p].childrenIds {
      assert p in ChildrenOf(nodes) && nodes[p].childrenIds == ChildrenOf(nodes)[p];
      assert id !in ParentsOf(nodes);
    }
  }

  lemma GrownRoot(parents: Parents, root: string, id: string, p: string)
    requires OnlyRoot(parents, root) && id !in parents
    ensures OnlyRoot(parents[id := Some(p)], root)
  {
  }

  lemma GrownKeys(nodes: Nodes, order: seq<string>, node: Node)
    requires AddError(nodes, node).None?
    requires (forall id :: id in nodes <==> id in order) && Distinct(order)
    requires forall id :: id in nodes ==> nodes[id].id == id
    ensures var grown := Added(nodes, node);
            && (forall id :: id in grown <==> id in order + [node.id]) && Distinct(order + [node.id])
            && forall id :: id in grown ==> grown[id].id == id
  {
    assert Added(nodes, node).Keys == nodes.Keys + {node.id};
  }

  // ---------- runs ----------

  datatype Op = Add(node: Node) | Update(id: string, updates: seq<FieldUpdate>) | Prune(id: string, reason: string)

  /** The parts of a tree object. */
  datatype Tree = Tree(nodes: Nodes, order: seq<string>, rank: map<string, nat>)

  ghost predicate Ok(t: Tree, root: string) {
    TreeOk(t.nodes, t.order, t.rank, root)
  }

  /** The nodes of a tree whose path to the root contains `id`. */
  ghost function SubtreeIn(t: Tree, id: string): set<string> {
    if Ranked(ParentsOf(t.nodes), t.rank) then Subtree(ParentsOf(t.nodes), t.rank, id) else {}
  }

  /** One call of a mutating method; a call that fails leaves the tree as it is. */
  ghost function Step(t: Tree, op: Op): Tree {
    match op
    case Add(node) =>
      if AddError(t.nodes, node).Some? then t
      else Tree(Added(t.nodes, node), t.order + [node.id], t.rank[node.id := |t.order|])
    case Update(id, us) =>
      if id !in t.nodes then t else t.(nodes := t.nodes[id := WithFields(t.nodes[id], us)])
    case Prune(id, reason) => t.(nodes := PrunedIn(t.nodes, SubtreeIn(t, id), id, reason))
  }

  /** New nodes arrive without children and below some node. */
  predicate Proper(op: Op) {
    op.Add? ==> op.node.parentId.Some? && op.node.childrenIds == []
  }

  lemma StepOk(t: Tree, root: string, op: Op)
    requires Ok(t, root) && Proper(op)
    ensures Ok(Step(t, op), root)
  {
    match op
    case Add(node) =>
      if AddError(t.nodes, node).None? {
        AddKeepsTree(t.nodes, t.order, t.rank, root, node);
      }
    case Update(id, us) =>
      if id in t.nodes {
        UpdateKeepsTree(t.nodes, t.order, t.rank, root, id, us);
      }
    case Prune(id, reason) =>
      PrunedTreeOk(t.nodes, t.order, t.rank, root, SubtreeIn(t, id), id, reason);
  }

  ghost function After(t: Tree, ops: seq<Op>): Tree {
    if ops == [] then t else Step(After(t, ops[..|ops| - 1]), ops[|ops| - 1])
  }

  /** Any number of calls, starting from any tree, leaves a tree. */
  lemma {:induction false} AfterOk(t: Tree, root: string, ops: seq<Op>)
    requires Ok(t, root) && forall i :: 0 <= i < |ops| ==> Proper(ops[i])
    ensures Ok(After(t, ops), root)
  {
    if ops != [] {
      AfterOk(t, root, ops[..|ops| - 1]);
      StepOk(After(t, ops[..|ops| - 1]), root, ops[|ops| - 1]);
    }
  }

  /** The ids on the path of a node. */
  ghost function PathIn(t: Tree, id: string): seq<string> {
    if id in t.nodes && Ranked(ParentsOf(t.nodes), t.rank) then Path(ParentsOf(t.nodes), t.rank, id) else []
  }

  lemma PruneIsDual(t: Tree, root: string, id: string, reason: string, n: string)
    requires Ok(t, root)
    ensures var p := Step(t, Prune(id, reason));
            p.nodes.Keys == t.nodes.Keys && (n in t.nodes ==> MarkedExactly(t, p, id, n))
  {
    PruneKeepsPaths(t, root, id, reason, n);
    if n in t.nodes { PruneMarks(t, root, id, reason, n); }
  }

  lemma PruneKeepsPaths(t: Tree, root: string, id: string, reason: string, n: string)
    requires Ok(t, root)
    ensures var p := Step(t, Prune(id, reason));
            p.nodes.Keys == t.nodes.Keys && PathIn(p, n) == PathIn(t, n)
  {
    PrunedInKeepsShape(t.nodes, SubtreeIn(t, id), id, reason);
  }

  lemma PruneMarks(t: Tree, root: string, id: string, reason: string, n: string)
    requires Ok(t, root) && n in t.nodes
    ensures Step(t, Prune(id, reason)).nodes[n] ==
            if id in PathIn(t, n) then PrunedNode(t.nodes[n], n == id, reason) else t.nodes[n]
  {
  }

  /** How node `n` of `t` looks in `p` after pruning `id`. */
  ghost predicate MarkedExactly(t: Tree, p: Tree, id: string, n: string)
    requires n in t.nodes && n in p.nodes
  {
    && PathIn(p, n) == PathIn(t, n)
    && p.nodes[n].(status := t.nodes[n].status, insight := t.nodes[n].insight) == t.nodes[n]
    && (id !in PathIn(t, n) ==> p.nodes[n] == t.nodes[n])
    && (id in PathIn(t, n) ==> p.nodes[n].status == Pruned)
    && (n != id ==> p.nodes[n].insight == t.nodes[n].insight)
  }

  /**
   After any run, pruning `id` marks exactly the nodes whose path to the root contains it, and
   changes no path, no other field of a marked node but the insight of `id`, and no other node.
   */
  lemma PruneDuality(start: Tree, root: string, ops: seq<Op>, id: string, reason: string, n: string)
    requires Ok(start, root) && forall i :: 0 <= i < |ops| ==> Proper(ops[i])
    ensures var t := After(start, ops);
            var p := Step(t, Prune(id, reason));
            Ok(p, root) && p.nodes.Keys == t.nodes.Keys && (n in t.nodes ==> MarkedExactly(t, p, id, n))
  {
    AfterOk(start, root, ops);
    StepOk(After(start, ops), root, Prune(id, reason));
    PruneIsDual(After(start, ops), root, id, reason, n);
  }
}
