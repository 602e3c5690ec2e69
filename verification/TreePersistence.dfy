/**
 The idea tree on disk: nodes as dictionaries that leave out default values, the tree as one
 document with an ordered node table, and the re-queueing of interrupted nodes on resume.
 */
module TreePersistence {
  import opened Basics
  import opened IdeaTree

  datatype Json = JNull | JString(s: string) | JInt(i: int) | JReal(r: real) | JStrings(ss: seq<string>)

  /** The keys of a node dictionary. */
  datatype Key =
    | Id | ParentId | ChildrenIds | Depth | HypothesisKey | StatusKey | InsightKey | ResultKey | ScoreKey | ScoreDelta
    | CodeRefKey | RelatedWorkKey | EvalStatusKey | StopReasonKey | AttemptKey

  type Dict = map<Key, Json>

  datatype MetaKey =
    | BaselineScore | TrunkScore | TestBaselineScore | TestTrunkScore
    | EvalCmd | EvalCmdTest | EvalTimeout | EvalRetries
    | EvalRetryBaseDelay | EvalRetryMaxDelay | DatasetInfo | MetricDirection | SubmissionPath | SampleSubmissionPath
    | OtherMeta(name: string)

  type Meta = map<MetaKey, Json>

  function StatusName(s: Status): string {
    match s
    case Pending => "pending"
    case Running => "running"
    case Completed => "done"
    case NeedsRetry => "needs_retry"
    case Merged => "merged"
    case Pruned => "pruned"
  }

  function StatusOf(name: string): Status {
    if name == "running" then Running
    else if name == "done" then Completed
    else if name == "needs_retry" then NeedsRetry
    else if name == "merged" then Merged
    else if name == "pruned" then Pruned
    else Pending
  }

  function Optional(o: Option<string>): Json {
    if o.None? then JNull else JString(o.value)
  }

  /** `d[key] = value` when the condition holds. */
  function Put(d: Dict, condition: bool, key: Key, value: Json): Dict {
    if condition then d[key := value] else d
  }

  predicate Truthy(o: Option<string>) {
    o.Some? && o.value != ""
  }

  function ToDict(n: Node): Dict {
    var d0: Dict := map[
      Id := JString(n.id), ParentId := Optional(n.parentId), ChildrenIds := JStrings(n.childrenIds),
      Depth := JInt(n.depth), HypothesisKey := JString(n.hypothesis), StatusKey := JString(StatusName(n.status))];
    var d1 := Put(d0, n.insight != "", InsightKey, JString(n.insight));
    var d2 := Put(d1, n.result != "", ResultKey, JString(n.result));
    var d3 := Put(d2, n.score.Some?, ScoreKey, if n.score.Some? then JReal(n.score.value) else JNull);
    var d4 := Put(d3, n.codeRef.Some?, CodeRefKey, Optional(n.codeRef));
    var d5 := Put(d4, n.relatedWork != "", RelatedWorkKey, JString(n.relatedWork));
    var d6 := Put(d5, Truthy(n.evalStatus), EvalStatusKey, Optional(n.evalStatus));
    var d7 := Put(d6, Truthy(n.stopReason), StopReasonKey, Optional(n.stopReason));
    Put(d7, n.attempt != 0 && n.attempt != 1, AttemptKey, JInt(n.attempt))
  }

  function StringAt(d: Dict, key: Key, default: string): string {
    if key in d && d[key].JString? then d[key].s else default
  }

  function OptionalAt(d: Dict, key: Key): Option<string> {
    if key in d && d[key].JString? then Some(d[key].s) else None
  }

  function IntAt(d: Dict, key: Key, default: int): int {
    if key in d && d[key].JInt? then d[key].i else default
  }

  function RealAt(d: Dict, key: Key): Option<real> {
    if key in d && d[key].JReal? then Some(d[key].r) else None
  }

  /** A missing key reads as the field's default; the score also answers to its old name. */
  function FromDict(d: Dict): Option<Node> {
    if OptionalAt(d, Id).None? then None
    else Some(Node(
      OptionalAt(d, Id).value, OptionalAt(d, ParentId),
      if ChildrenIds in d && d[ChildrenIds].JStrings? then d[ChildrenIds].ss else [],
      IntAt(d, Depth, 0), StringAt(d, HypothesisKey, ""), StatusOf(StringAt(d, StatusKey, "pending")),
      StringAt(d, InsightKey, ""), StringAt(d, ResultKey, ""),
      if ScoreKey in d then RealAt(d, ScoreKey) else RealAt(d, ScoreDelta),
      OptionalAt(d, CodeRefKey), StringAt(d, RelatedWorkKey, ""),
      OptionalAt(d, EvalStatusKey), OptionalAt(d, StopReasonKey), IntAt(d, AttemptKey, 1)))
  }

  /** The values that are written out: not attempt 0, and no empty string where none is meant. */
  predicate Persistable(n: Node) {
    n.attempt != 0 && n.evalStatus != Some("") && n.stopReason != Some("")
  }

  lemma StatusRoundTrip(s: Status)
    ensures StatusOf(StatusName(s)) == s
  {
  }

  lemma IdBack(n: Node)
    ensures OptionalAt(ToDict(n), Id) == Some(n.id)
  {
  }

  lemma ParentBack(n: Node)
    ensures OptionalAt(ToDict(n), ParentId) == n.parentId
  {
  }

  lemma ChildrenBack(n: Node)
    ensures var d := ToDict(n); ChildrenIds in d && d[ChildrenIds] == JStrings(n.childrenIds)
  {
  }

  lemma PlainFieldsBack(n: Node)
    ensures var d := ToDict(n);
            && IntAt(d, Depth, 0) == n.depth
            && StringAt(d, HypothesisKey, "") == n.hypothesis
  {
  }

  lemma StatusBack(n: Node)
    ensures StringAt(ToDict(n), StatusKey, "pending") == StatusName(n.status)
  {
  }

  lemma TextFieldsBack(n: Node)
    ensures var d := ToDict(n);
            && StringAt(d, InsightKey, "") == n.insight
            && StringAt(d, ResultKey, "") == n.result
  {
  }

  lemma RelatedWorkBack(n: Node)
    ensures StringAt(ToDict(n), RelatedWorkKey, "") == n.relatedWork
  {
  }

  lemma OutcomeFieldsBack(n: Node)
    ensures var d := ToDict(n);
            && (if ScoreKey in d then RealAt(d, ScoreKey) else RealAt(d, ScoreDelta)) == n.score
            && OptionalAt(d, CodeRefKey) == n.codeRef
  {
  }

  lemma StopFieldsBack(n: Node)
    ensures var d := ToDict(n);
            && OptionalAt(d, EvalStatusKey) == (if n.evalStatus == Some("") then None else n.evalStatus)
            && OptionalAt(d, StopReasonKey) == (if n.stopReason == Some("") then None else n.stopReason)
            && IntAt(d, AttemptKey, 1) == if n.attempt == 0 then 1 else n.attempt
  {
  }

  /** What reading back a written node yields, whatever the node. */
  lemma NodeRoundTrip(n: Node)
    ensures FromDict(ToDict(n)) == Some(Restored(n))
  {
    IdBack(n);
    ParentBack(n);
    ChildrenBack(n);
    PlainFieldsBack(n);
    StatusBack(n);
    TextFieldsBack(n);
    RelatedWorkBack(n);
    OutcomeFieldsBack(n);
    StopFieldsBack(n);
    StatusRoundTrip(n.status);
  }

  lemma NodeRoundTripExactly(n: Node)
    ensures FromDict(ToDict(n)) == Some(n) <==> Persistable(n)
  {
    NodeRoundTrip(n);
  }

  /** Six keys are always written, the others only when there is something to say. */
  lemma KeysExactly(n: Node)
    ensures var d := ToDict(n);
            && {Id, ParentId, ChildrenIds, Depth, HypothesisKey, StatusKey} <= d.Keys && ScoreDelta !in d
            && (InsightKey in d <==> n.insight != "") && (ResultKey in d <==> n.result != "")
            && (ScoreKey in d <==> n.score.Some?) && (CodeRefKey in d <==> n.codeRef.Some?)
            && (RelatedWorkKey in d <==> n.relatedWork != "")
            && (EvalStatusKey in d <==> n.evalStatus.Some? && n.evalStatus != Some(""))
            && (StopReasonKey in d <==> n.stopReason.Some? && n.stopReason != Some(""))
            && (AttemptKey in d <==> n.attempt != 0 && n.attempt != 1)
  {
    AlwaysWritten(n);
    TextKeys(n);
    ScoreKeys(n);
    StopKeys(n);
  }

  lemma AlwaysWritten(n: Node)
    ensures var d := ToDict(n);
            {Id, ParentId, ChildrenIds, Depth, HypothesisKey, StatusKey} <= d.Keys && ScoreDelta !in d
  {
  }

  lemma TextKeys(n: Node)
    ensures var d := ToDict(n);
            (InsightKey in d <==> n.insight != "") && (ResultKey in d <==> n.result != "")
  {
  }

  lemma ScoreKeys(n: Node)
    ensures var d := ToDict(n);
            && (ScoreKey in d <==> n.score.Some?) && (CodeRefKey in d <==> n.codeRef.Some?)
            && (RelatedWorkKey in d <==> n.relatedWork != "")
  {
  }

  lemma StopKeys(n: Node)
    ensures var d := ToDict(n);
            && (EvalStatusKey in d <==> n.evalStatus.Some? && n.evalStatus != Some(""))
            && (StopReasonKey in d <==> n.stopReason.Some? && n.stopReason != Some(""))
            && (AttemptKey in d <==> n.attempt != 0 && n.attempt != 1)
  {
  }

  /** What a dictionary with nothing but an id reads as. */
  lemma DefaultsExactly(id: string)
    ensures FromDict(map[Id := JString(id)]) ==
            Some(Node(id, None, [], 0, "", Pending, "", "", None, None, "", None, None, 1))
  {
  }

  /** The score's old name is read when the new one is missing, and only then. */
  lemma OldScoreName(d: Dict, x: real)
    requires Id in d && d[Id].JString?
    ensures ScoreKey !in d && ScoreDelta in d && d[ScoreDelta] == JReal(x) ==> FromDict(d).value.score == Some(x)
    ensures ScoreKey in d && d[ScoreKey] == JReal(x) ==> FromDict(d).value.score == Some(x)
  {
  }

  // ---------- the whole tree ----------

  const DEFAULT_META: Meta := map[
    BaselineScore := JNull, TrunkScore := JNull, TestBaselineScore := JNull, TestTrunkScore := JNull,
    EvalCmd := JNull, EvalCmdTest := JNull, EvalTimeout := JNull, EvalRetries := JNull,
    EvalRetryBaseDelay := JNull, EvalRetryMaxDelay := JNull, DatasetInfo := JNull,
    MetricDirection := JString("maximize"), SubmissionPath := JNull, SampleSubmissionPath := JNull]

  /** A tree as far as it is saved; `order` is the dictionary order of its nodes. */
  datatype Saved = Saved(nodes: Nodes, order: seq<string>, root: string, maxDepth: Option<int>, meta: Meta)

  type Table = seq<(string, Dict)>

  /** The document: an ordered table of node dictionaries. */
  datatype Document = Document(meta: Meta, root: string, maxDepth: Option<int>, table: Table)

  /** What `IdeaTree.Valid` says of the parts that are saved. */
  ghost predicate Proper(t: Saved) {
    && (forall id :: id in t.order ==> id in t.nodes)
    && (forall id :: id in t.nodes ==> id in t.order)
    && Distinct(t.order) && t.order != [] && t.order[0] == t.root
  }

  function Save(t: Saved): Document
    requires forall id :: id in t.order ==> id in t.nodes
  {
    Document(t.meta, t.root, t.maxDepth,
             seq(|t.order|, i requires 0 <= i < |t.order| => (t.order[i], ToDict(t.nodes[t.order[i]]))))
  }

  /** `table[id]`, keys being unique. */
  function Lookup(table: Table, id: string): Option<Dict> {
    if table == [] then None
    else if table[|table| - 1].0 == id then Some(table[|table| - 1].1)
    else Lookup(table[..|table| - 1], id)
  }

  /** The nodes and their order after reading the table with the root already in place. */
  function Filled(table: Table, root: string, rootNode: Node): Option<(Nodes, seq<string>)> {
    if table == [] then Some((map[root := rootNode], [root]))
    else
      var last := table[|table| - 1];
      match Filled(table[..|table| - 1], root, rootNode)
      case None => None
      case Some(before) =>
        if last.0 == root then Some(before)
        else
          match FromDict(last.1)
          case None => None
          case Some(node) => Some((before.0[last.0 := node], before.1 + [last.0]))
  }

  function Loaded(data: Document): Option<Saved> {
    match Lookup(data.table, data.root)
    case None => None
    case Some(d) =>
      match FromDict(d)
      case None => None
      case Some(rootNode) =>
        match Filled(data.table, data.root, rootNode)
        case None => None
        case Some(f) => Some(Saved(f.0, f.1, data.root, data.maxDepth, DEFAULT_META + data.meta))
  }

  lemma {:induction false} FilledStaysNone(table: Table, i: nat, root: string, rootNode: Node)
    requires i <= |table| && Filled(table[..i], root, rootNode).None?
    ensures Filled(table, root, rootNode).None?
    decreases |table|
  {
    if i < |table| {
      assert table[..|table| - 1][..i] == table[..i];
      FilledStaysNone(table[..|table| - 1], i, root, rootNode);
    } else {
      assert table[..i] == table;
    }
  }

  /** Loading: the root is read first, then every other entry in table order. */
  method LoadJson(data: Document) returns (tree: Option<Saved>)
    ensures tree == Loaded(data)
  {
    var rootDict := Lookup(data.table, data.root);
    if rootDict.None? { return None; }
    var rootNode := FromDict(rootDict.value);
    if rootNode.None? { return None; }
    var nodes: Nodes := map[data.root := rootNode.value];
    var order := [data.root];
    for i := 0 to |data.table|
      invariant Filled(data.table[..i], data.root, rootNode.value) == Some((nodes, order))
    {
      var nid, ndata := data.table[i].0, data.table[i].1;
      assert data.table[..i + 1][..i] == data.table[..i];
      if nid != data.root {
        var node := FromDict(ndata);
        if node.None? {
          FilledStaysNone(data.table, i + 1, data.root, rootNode.value);
          return None;
        }
        nodes := nodes[nid := node.value];
        order := order + [nid];
      }
    }
    assert data.table[..|data.table|] == data.table;
    return Some(Saved(nodes, order, data.root, data.maxDepth, DEFAULT_META + data.meta));
  }

  // ---------- damaged documents ----------

  /** The dictionary names no node. */
  predicate Nameless(d: Dict) {
    Id !in d || !d[Id].JString?
  }

  lemma {:induction false} FilledFailsExactly(table: Table, root: string, rootNode: Node)
    ensures Filled(table, root, rootNode).None? <==>
            exists i :: 0 <= i < |table| && table[i].0 != root && Nameless(table[i].1)
  {
    if table != [] {
      var n := |table| - 1;
      FilledFailsExactly(table[..n], root, rootNode);
      assert forall i :: 0 <= i < n ==> table[..n][i] == table[i];
    }
  }

  lemma {:induction false} LookupExactly(table: Table, id: string)
    ensures Lookup(table, id).None? <==> forall i :: 0 <= i < |table| ==> table[i].0 != id
    ensures forall i :: 0 <= i < |table| && table[i].0 == id && (forall j :: i < j < |table| ==> table[j].0 != id) ==>
              Lookup(table, id) == Some(table[i].1)
  {
    if table != [] {
      var n := |table| - 1;
      LookupExactly(table[..n], id);
      assert forall i :: 0 <= i < n ==> table[..n][i] == table[i];
    }
  }

  /** Loading fails exactly when the root is not in the table, or any entry names no node. */
  lemma LoadFailsExactly(data: Document)
    requires forall i, j :: 0 <= i < j < |data.table| ==> data.table[i].0 != data.table[j].0
    ensures Loaded(data).None? <==>
            || (forall i :: 0 <= i < |data.table| ==> data.table[i].0 != data.root)
            || exists i :: 0 <= i < |data.table| && Nameless(data.table[i].1)
  {
    LookupExactly(data.table, data.root);
    var d := Lookup(data.table, data.root);
    if d.Some? && FromDict(d.value).Some? {
      FilledFailsExactly(data.table, data.root, FromDict(d.value).value);
    }
  }

  // ---------- round trip ----------

  /** A node as it comes back. */
  function Restored(n: Node): Node {
    n.(attempt := if n.attempt == 0 then 1 else n.attempt,
       evalStatus := if n.evalStatus == Some("") then None else n.evalStatus,
       stopReason := if n.stopReason == Some("") then None else n.stopReason)
  }

  function RestoredNodes(t: Saved, ids: seq<string>): Nodes
    requires forall id :: id in ids ==> id in t.nodes
  {
    map id | id in ids :: Restored(t.nodes[id])
  }

  lemma {:induction false} LookupSaved(t: Saved, i: nat)
    requires Proper(t) && 0 < i <= |t.order|
    ensures Lookup(Save(t).table[..i], t.root) == Some(ToDict(t.nodes[t.root]))
  {
    assert Save(t).table[..i][..i - 1] == Save(t).table[..i - 1];
    if i > 1 {
      assert t.order[i - 1] != t.order[0];
      LookupSaved(t, i - 1);
    }
  }

  /** The entry reads back as the given node. */
  predicate ReadsAs(entry: (string, Dict), id: string, n: Node) {
    entry.0 == id && FromDict(entry.1) == Some(n)
  }

  function Front(nodes: Nodes, ids: seq<string>): Nodes
    requires forall id :: id in ids ==> id in nodes
  {
    map id | id in ids :: nodes[id]
  }

  lemma FrontAll(nodes: Nodes, ids: seq<string>)
    requires forall id :: id in ids <==> id in nodes
    ensures Front(nodes, ids) == nodes
  {
  }

  lemma FrontSnoc(nodes: Nodes, ids: seq<string>, id: string)
    requires id in nodes && forall x :: x in ids ==> x in nodes
    ensures Front(nodes, ids + [id]) == Front(nodes, ids)[id := nodes[id]]
  {
  }

  /** How reading one more entry other than the root extends what has been read. */
  lemma FilledSnoc(table: Table, entry: (string, Dict), id: string, n: Node, root: string, rootNode: Node)
    requires id != root && Filled(table, root, rootNode).Some? && ReadsAs(entry, id, n)
    ensures var before := Filled(table, root, rootNode).value;
            Filled(table + [entry], root, rootNode) == Some((before.0[id := n], before.1 + [id]))
  {
    assert (table + [entry])[..|table|] == table;
  }

  lemma FilledRoot(entry: (string, Dict), root: string, n: Node)
    requires entry.0 == root
    ensures Filled([entry], root, n) == Some((map[root := n], [root]))
  {
    assert [entry][..0] == [];
  }

  /** A table whose entries read as `nodes` in `order`, the root first, fills up to those nodes. */
  lemma {:induction false} FilledOf(table: Table, order: seq<string>, nodes: Nodes, root: string)
    requires |table| == |order| > 0 && Distinct(order) && order[0] == root
    requires forall id :: id in order ==> id in nodes
    requires forall i :: 0 <= i < |table| ==> ReadsAs(table[i], order[i], nodes[order[i]])
    ensures Filled(table, root, nodes[root]) == Some((Front(nodes, order), order))
  {
    var n := |order| - 1;
    if n == 0 {
      assert ReadsAs(table[0], order[0], nodes[order[0]]);
      FilledRoot(table[0], root, nodes[root]);
      assert table == [table[0]] && order == [root];
      assert Front(nodes, [root]) == map[root := nodes[root]];
    } else {
      FilledOf(table[..n], order[..n], nodes, root);
      FilledStep(table, order, nodes, root);
    }
  }

  lemma FilledStep(table: Table, order: seq<string>, nodes: Nodes, root: string)
    requires |table| == |order| > 1 && order[|order| - 1] != root && root in nodes
    requires forall id :: id in order ==> id in nodes
    requires ReadsAs(table[|order| - 1], order[|order| - 1], nodes[order[|order| - 1]])
    requires Filled(table[..|order| - 1], root, nodes[root])
          == Some((Front(nodes, order[..|order| - 1]), order[..|order| - 1]))
    ensures Filled(table, root, nodes[root]) == Some((Front(nodes, order), order))
  {
    var n := |order| - 1;
    assert order == order[..n] + [order[n]];
    assert table == table[..n] + [table[n]];
    FilledFurther(table[..n], table[n], order[..n], order[n], nodes, root);
  }

  lemma FilledFurther(table: Table, entry: (string, Dict), ids: seq<string>, id: string, nodes: Nodes, root: string)
    requires id != root && root in nodes && id in nodes && forall x :: x in ids ==> x in nodes
    requires ReadsAs(entry, id, nodes[id]) && Filled(table, root, nodes[root]) == Some((Front(nodes, ids), ids))
    ensures Filled(table + [entry], root, nodes[root]) == Some((Front(nodes, ids + [id]), ids + [id]))
  {
    FilledSnoc(table, entry, id, nodes[id], root, nodes[root]);
    FrontSnoc(nodes, ids, id);
  }

  lemma SavedReadsAs(t: Saved, i: nat)
    requires Proper(t) && i < |t.order|
    ensures ReadsAs(Save(t).table[i], t.order[i], Restored(t.nodes[t.order[i]]))
  {
    NodeRoundTrip(t.nodes[t.order[i]]);
  }

  lemma FilledSaved(t: Saved)
    requires Proper(t)
    ensures Filled(Save(t).table, t.root, Restored(t.nodes[t.root])) == Some((RestoredNodes(t, t.order), t.order))
  {
    var table, order, restored := Save(t).table, t.order, RestoredNodes(t, t.order);
    forall i | 0 <= i < |order| ensures ReadsAs(table[i], order[i], restored[order[i]]) {
      SavedReadsAs(t, i);
      assert order[i] in restored;
    }
    FrontAll(restored, order);
    FilledOf(table, order, restored, t.root);
  }

  /** Loading after saving yields the same ids in order, with every node restored. */
  lemma LoadAfterSave(t: Saved)
    requires Proper(t)
    ensures Loaded(Save(t)) ==
            Some(t.(nodes := RestoredNodes(t, t.order), meta := DEFAULT_META + t.meta))
  {
    var n := |t.order|;
    LookupSaved(t, n);
    FilledSaved(t);
    NodeRoundTrip(t.nodes[t.root]);
    assert Save(t).table[..n] == Save(t).table && t.order[..n] == t.order;
  }

  /** Nothing in the tree is of the kind that is not written out. */
  predicate Survives(t: Saved) {
    (forall id :: id in t.nodes ==> Persistable(t.nodes[id])) && DEFAULT_META.Keys <= t.meta.Keys
  }

  lemma MetaSurvives(meta: Meta)
    ensures DEFAULT_META + meta == meta <==> DEFAULT_META.Keys <= meta.Keys
  {
    assert (DEFAULT_META + meta).Keys == DEFAULT_META.Keys + meta.Keys;
  }

  lemma NodesSurvive(t: Saved)
    requires Proper(t)
    ensures RestoredNodes(t, t.order) == t.nodes <==> forall id :: id in t.nodes ==> Persistable(t.nodes[id])
  {
    var r := RestoredNodes(t, t.order);
    assert r.Keys == t.nodes.Keys;
    forall id | id in t.nodes ensures r[id] == t.nodes[id] <==> Persistable(t.nodes[id]) {
    }
  }

  /** Load undoes save exactly when nothing in the tree is of the kind that is not written out. */
  lemma TreeRoundTripExactly(t: Saved)
    requires Proper(t)
    ensures Loaded(Save(t)) == Some(t) <==> Survives(t)
  {
    LoadAfterSave(t);
    MetaSurvives(t.meta);
    NodesSurvive(t);
  }

  // ---------- resume ----------

  function Requeued(n: Node): Node {
    if n.status == Running then n.(status := Pending) else n
  }

  function RequeuedIn(nodes: Nodes, ids: seq<string>): Nodes {
    map id | id in nodes :: if id in ids then Requeued(nodes[id]) else nodes[id]
  }

  lemma RequeuedStep(nodes: Nodes, ids: seq<string>, i: nat)
    requires i < |ids| && Distinct(ids) && ids[i] in nodes
    ensures var done := RequeuedIn(nodes, ids[..i]);
            && done[ids[i]] == nodes[ids[i]]
            && RequeuedIn(nodes, ids[..i + 1]) == done[ids[i] := Requeued(nodes[ids[i]])]
  {
    assert ids[..i + 1] == ids[..i] + [ids[i]];
    assert ids[i] !in ids[..i];
  }

  lemma RequeuedTreeOk(nodes: Nodes, order: seq<string>, rank: map<string, nat>, root: string)
    requires TreeOk(nodes, order, rank, root)
    ensures TreeOk(RequeuedIn(nodes, order), order, rank, root)
  {
    RequeuedShape(nodes, order);
    SameShapeTreeOk(nodes, RequeuedIn(nodes, order), order, rank, root);
  }

  lemma RequeuedShape(nodes: Nodes, ids: seq<string>)
    ensures SameShape(nodes, RequeuedIn(nodes, ids))
  {
  }

  /** Re-queues the nodes that were running when the run was interrupted. */
  method RequeueRunning(tree: IdeaTree)
    requires Distinct(tree.order) && forall id :: id in tree.order ==> id in tree.nodes
    modifies tree`nodes
    ensures tree.nodes == RequeuedIn(old(tree.nodes), tree.order)
  {
    ghost var was := tree.nodes;
    var ids := tree.order;
    assert was == RequeuedIn(was, ids[..0]);
    for i := 0 to |ids|
      invariant tree.nodes == RequeuedIn(was, ids[..i])
    {
      RequeuedStep(was, ids, i);
      var node := tree.nodes[ids[i]];
      assert tree.nodes[ids[i] := node] == tree.nodes;
      if node.status == Running {
        assert WithFields(node, [StatusField(Pending)]) == Requeued(node) by {
          assert [StatusField(Pending)][1..] == [];
        }
        var _ := tree.UpdateNode(ids[i], [StatusField(Pending)]);
      }
    }
    assert ids[..|ids|] == ids;
  }

  /** After loading and re-queueing no node is running, and only running nodes have changed. */
  lemma ResumeChangesRunningOnly(t: Saved, id: string)
    requires Proper(t) && Survives(t) && id in t.nodes
    ensures var back := Loaded(Save(t));
            && back.Some? && back.value.nodes.Keys == t.nodes.Keys
            && var n := Requeued(back.value.nodes[id]);
               && n.status != Running && n.(status := t.nodes[id].status) == t.nodes[id]
               && n.status == if t.nodes[id].status == Running then Pending else t.nodes[id].status
  {
    TreeRoundTripExactly(t);
  }
}
