/**
 Hierarchical ids ("1", "1.2", "1.2.1", ...): how the next one is minted, and why it is new.
 */
module IdeaIds {
  import opened Basics
  import opened Decimal
  import opened IdeaTree

  const ROOT := "ROOT"

  function ChildId(parent: string, k: nat): string {
    if parent == ROOT then Digits(k) else parent + "." + Digits(k)
  }

  predicate Numeral(s: string) {
    s != "" && AllDigits(s)
  }

  /** The number the pattern for children of `parent` finds in an id, if it matches. */
  function NumberIn(parent: string, cid: string): Option<nat> {
    if parent == ROOT then (if Numeral(cid) then Some(Value(cid)) else None)
    else
      var prefix := parent + ".";
      if prefix <= cid && Numeral(cid[|prefix|..]) then Some(Value(cid[|prefix|..])) else None
  }

  function MaxNumber(parent: string, cids: seq<string>): nat {
    if cids == [] then 0
    else
      var before := MaxNumber(parent, cids[..|cids| - 1]);
      match NumberIn(parent, cids[|cids| - 1])
      case Some(k) => if k > before then k else before
      case None => before
  }

  function NextId(nodes: Nodes, parent: string): string
    requires parent in nodes
  {
    ChildId(parent, MaxNumber(parent, nodes[parent].childrenIds) + 1)
  }

  method NextChildId(tree: IdeaTree, parentId: string) returns (id: Option<string>)
    requires tree.rootId == ROOT
    ensures id == if parentId in tree.nodes then Some(NextId(tree.nodes, parentId)) else None
  {
    if parentId !in tree.nodes { return None; }
    var cids := tree.nodes[parentId].childrenIds;
    var existingNums: seq<nat> := [];
    var largest: nat := 0;
    for i := 0 to |cids|
      invariant largest == MaxNumber(parentId, cids[..i])
    {
      assert cids[..i + 1][..i] == cids[..i];
      var m := NumberIn(parentId, cids[i]);
      if m.Some? {
        existingNums := existingNums + [m.value];
        if m.value > largest { largest := m.value; }
      }
    }
    assert cids[..|cids|] == cids;
    var nextNum := largest + 1;
    return Some(if parentId == tree.rootId then Digits(nextNum) else parentId + "." + Digits(nextNum));
  }

  // ---------- ids are uniquely readable ----------

  lemma ChildIdReadable(parent: string, k: nat)
    ensures NumberIn(parent, ChildId(parent, k)) == Some(k)
  {
    ValueOfDigits(k);
    if parent != ROOT {
      var prefix := parent + ".";
      assert (prefix + Digits(k))[|prefix|..] == Digits(k);
    }
  }

  /** A dot separates uniquely from a numeral that follows it. */
  lemma LastDot(p: string, a: string, q: string, b: string)
    requires AllDigits(a) && AllDigits(b) && p + "." + a == q + "." + b
    ensures p == q && a == b
  {
    var s := p + "." + a;
    DotThenDigits(p, a);
    DotThenDigits(q, b);
    assert |p| == |q|;
    assert p == s[..|p|] && q == s[..|q|];
    assert a == s[|p| + 1..] && b == s[|q| + 1..];
  }

  lemma DotThenDigits(p: string, a: string)
    requires AllDigits(a)
    ensures var s := p + "." + a;
            |p| < |s| && !IsDigit(s[|p|]) && forall i :: |p| < i < |s| ==> IsDigit(s[i])
  {
    var s := p + "." + a;
    forall i | |p| < i < |s| ensures IsDigit(s[i]) {
      assert s[i] == a[i - |p| - 1];
    }
  }

  lemma DottedIsNoNumeral(p: string, k: nat)
    requires p != ROOT
    ensures !AllDigits(ChildId(p, k))
  {
    DotThenDigits(p, Digits(k));
  }

  /** The id of a child determines the parent and the number. */
  lemma ChildIdInjective(p: string, k: nat, q: string, j: nat)
    requires ChildId(p, k) == ChildId(q, j)
    ensures p == q && k == j
  {
    if p != ROOT { DottedIsNoNumeral(p, k); }
    if q != ROOT { DottedIsNoNumeral(q, j); }
    if p != ROOT && q != ROOT {
      LastDot(p, Digits(k), q, Digits(j));
    }
    if Digits(k) == Digits(j) { DigitsInjective(k, j); }
  }

  lemma ChildIdNotRoot(parent: string, k: nat)
    ensures ChildId(parent, k) != ROOT
  {
    var id := ChildId(parent, k);
    var ds := Digits(k);
    assert id[|id| - 1] == ds[|ds| - 1];
  }

  lemma {:induction false} MaxNumberBounds(parent: string, cids: seq<string>, cid: string)
    requires cid in cids
    ensures NumberIn(parent, cid).Some? ==> NumberIn(parent, cid).value <= MaxNumber(parent, cids)
  {
    var n := |cids| - 1;
    assert cids == cids[..n] + [cids[n]];
    if cid in cids[..n] { MaxNumberBounds(parent, cids[..n], cid); }
  }

  /** What the pattern for children of a parent matches: its prefix, if it has one, and a number. */
  lemma NumberExactly(parent: string, cid: string, k: nat)
    ensures NumberIn(parent, cid) == Some(k) <==>
            exists s: string :: s != "" && AllDigits(s) && Value(s) == k
                                && cid == if parent == "ROOT" then s else parent + "." + s
  {
    if NumberIn(parent, cid) == Some(k) {
      var s := if parent == "ROOT" then cid else cid[|parent| + 1..];
      assert AllDigits(s) && cid == if parent == "ROOT" then s else parent + "." + s;
    }
    if s: string :| && s != "" && AllDigits(s) && Value(s) == k
                    && cid == (if parent == "ROOT" then s else parent + "." + s)
    {
      if parent != "ROOT" { assert cid[|parent + "."|..] == s; }
    }
  }

  lemma {:induction false} MaxNumberAttained(parent: string, cids: seq<string>)
    ensures var m := MaxNumber(parent, cids);
            m == 0 || exists i :: 0 <= i < |cids| && NumberIn(parent, cids[i]) == Some(m)
  {
    if cids != [] {
      var n := |cids| - 1;
      MaxNumberAttained(parent, cids[..n]);
      assert forall i :: 0 <= i < n ==> cids[..n][i] == cids[i];
    }
  }

  /** The next number is one more than the largest among the children's ids, starting from 1. */
  lemma NextIdExactly(nodes: Nodes, parent: string)
    requires parent in nodes
    ensures var cids, next := nodes[parent].childrenIds, NumberIn(parent, NextId(nodes, parent));
            && next.Some? && next.value >= 1
            && (forall i :: 0 <= i < |cids| && NumberIn(parent, cids[i]).Some? ==>
                  NumberIn(parent, cids[i]).value < next.value)
            && (next.value == 1 || exists i :: 0 <= i < |cids| && NumberIn(parent, cids[i]) == Some(next.value - 1))
  {
    var cids := nodes[parent].childrenIds;
    ChildIdReadable(parent, MaxNumber(parent, cids) + 1);
    MaxNumberAttained(parent, cids);
    forall i | 0 <= i < |cids| && NumberIn(parent, cids[i]).Some?
      ensures NumberIn(parent, cids[i]).value <= MaxNumber(parent, cids)
    {
      MaxNumberBounds(parent, cids, cids[i]);
    }
  }

  // ---------- trees of minted ids ----------

  /** Every node but the root carries an id minted for its parent. */
  ghost predicate Minted(nodes: Nodes) {
    forall id :: id in nodes && id != ROOT ==>
      nodes[id].parentId.Some? && exists k: nat :: id == ChildId(nodes[id].parentId.value, k)
  }

  /** The next id for any parent is absent from the whole tree. */
  lemma NextIdIsFresh(t: Tree, parent: string)
    requires Ok(t, ROOT) && Minted(t.nodes) && parent in t.nodes
    ensures NextId(t.nodes, parent) !in t.nodes
  {
    var n := MaxNumber(parent, t.nodes[parent].childrenIds) + 1;
    var id := ChildId(parent, n);
    ChildIdNotRoot(parent, n);
    if id in t.nodes {
      var k: nat :| id == ChildId(t.nodes[id].parentId.value, k);
      ChildIdInjective(parent, n, t.nodes[id].parentId.value, k);
      assert ParentsOf(t.nodes)[id] == Some(parent);
      assert id in ChildrenOf(t.nodes)[parent];
      ChildIdReadable(parent, n);
      MaxNumberBounds(parent, t.nodes[parent].childrenIds, id);
      assert false;
    }
  }

  /** A node proposed under `parent` with the next id; the rest of its fields are free. */
  function Proposed(nodes: Nodes, parent: string, draft: Node): Node
    requires parent in nodes
  {
    draft.(id := NextId(nodes, parent), parentId := Some(parent), childrenIds := [])
  }

  datatype Call =
    | Propose(parent: string, draft: Node)
    | Change(id: string, updates: seq<FieldUpdate>)
    | Discard(id: string, reason: string)

  /** What a call does as an operation on the tree; `None` when the parent does not exist. */
  function OpOf(t: Tree, call: Call): Option<Op> {
    match call
    case Propose(parent, draft) => if parent in t.nodes then Some(Add(Proposed(t.nodes, parent, draft))) else None
    case Change(id, updates) => Some(Update(id, updates))
    case Discard(id, reason) => Some(Prune(id, reason))
  }

  /** Adding a node with an id of its parent's pattern. */
  lemma AddKeepsMinted(nodes: Nodes, node: Node, parent: string, k: nat)
    requires Minted(nodes) && AddError(nodes, node) == None
    requires node.parentId == Some(parent) && node.id == ChildId(parent, k)
    ensures Minted(Added(nodes, node))
  {
  }

  lemma ProposalKeepsMinted(t: Tree, parent: string, draft: Node)
    requires Ok(t, ROOT) && Minted(t.nodes) && parent in t.nodes
    ensures var node := Proposed(t.nodes, parent, draft);
            AddError(t.nodes, node) == None && Minted(Added(t.nodes, node))
  {
    NextIdIsFresh(t, parent);
    AddKeepsMinted(t.nodes, Proposed(t.nodes, parent, draft), parent,
                   MaxNumber(parent, t.nodes[parent].childrenIds) + 1);
  }

  lemma CallKeepsMinted(t: Tree, call: Call)
    requires Ok(t, ROOT) && Minted(t.nodes) && OpOf(t, call).Some?
    ensures var op := OpOf(t, call).value;
            && Proper(op) && Minted(Step(t, op).nodes) && t.nodes.Keys <= Step(t, op).nodes.Keys
            && (op.Add? ==> AddError(t.nodes, op.node) == None)
  {
    match call
    case Propose(parent, draft) =>
      ProposalKeepsMinted(t, parent, draft);
    case Change(id, updates) =>
      ChangeKeepsMinted(t, id, updates);
    case Discard(id, reason) =>
      DiscardKeepsMinted(t, id, reason);
  }

  lemma ChangeKeepsMinted(t: Tree, id: string, updates: seq<FieldUpdate>)
    requires Minted(t.nodes)
    ensures var nodes := Step(t, Update(id, updates)).nodes; Minted(nodes) && nodes.Keys == t.nodes.Keys
  {
    if id in t.nodes { WithFieldsKeepsLinks(t.nodes[id], updates); }
  }

  lemma DiscardKeepsMinted(t: Tree, id: string, reason: string)
    requires Minted(t.nodes)
    ensures var nodes := Step(t, Prune(id, reason)).nodes; Minted(nodes) && nodes.Keys == t.nodes.Keys
  {
  }

  /** The tree after a run of calls; a proposal under a missing parent raises and changes nothing. */
  ghost function Run(t: Tree, calls: seq<Call>): Tree {
    if calls == [] then t
    else
      var before := Run(t, calls[..|calls| - 1]);
      match OpOf(before, calls[|calls| - 1])
      case None => before
      case Some(op) => Step(before, op)
  }

  lemma {:induction false} RunKeepsMinted(t: Tree, calls: seq<Call>)
    requires Ok(t, ROOT) && Minted(t.nodes)
    ensures Ok(Run(t, calls), ROOT) && Minted(Run(t, calls).nodes) && t.nodes.Keys <= Run(t, calls).nodes.Keys
  {
    if calls != [] {
      var n := |calls| - 1;
      RunKeepsMinted(t, calls[..n]);
      var before := Run(t, calls[..n]);
      if OpOf(before, calls[n]).Some? {
        CallKeepsMinted(before, calls[n]);
        StepOk(before, ROOT, OpOf(before, calls[n]).value);
      }
    }
  }

  /**
   However a tree was built by proposing, changing and discarding ideas, the next id minted for
   any node is absent from the whole tree, pruned nodes included, so adding it never raises.
   */
  lemma MintedIdsAreFresh(t: Tree, calls: seq<Call>, parent: string, draft: Node)
    requires Ok(t, ROOT) && Minted(t.nodes)
    ensures t.nodes.Keys <= Run(t, calls).nodes.Keys
    ensures var r := Run(t, calls);
            parent in r.nodes ==>
            && NextId(r.nodes, parent) !in r.nodes
            && AddError(r.nodes, Proposed(r.nodes, parent, draft)) == None
  {
    RunKeepsMinted(t, calls);
    if parent in Run(t, calls).nodes { NextIdIsFresh(Run(t, calls), parent); }
  }
}
