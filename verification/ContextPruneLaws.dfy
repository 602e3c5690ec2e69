/**
 What pruning keeps, and how it composes as the conversation grows.
 */
module ContextPruneLaws {
  import opened Messages
  import opened ContextPrune

  // ---------- one assistant turn ----------

  predicate IsReasoning(b: Block) {
    b.Thinking? || b.TextBlock?
  }

  /** The blocks other than text and thinking, in order. */
  function Actions(bs: seq<Block>): seq<Block> {
    if bs == [] then []
    else Actions(bs[..|bs| - 1]) + if IsReasoning(bs[|bs| - 1]) then [] else [bs[|bs| - 1]]
  }

  function TextCount(bs: seq<Block>): nat {
    if bs == [] then 0
    else TextCount(bs[..|bs| - 1]) + if bs[|bs| - 1].TextBlock? then 1 else 0
  }

  lemma {:induction false} TextCountExists(bs: seq<Block>)
    ensures HasText(bs) <==> TextCount(bs) > 0
  {
    if bs != [] {
      var n := |bs| - 1;
      TextCountExists(bs[..n]);
      if HasText(bs) && !bs[n].TextBlock? {
        var k :| 0 <= k < |bs| && bs[k].TextBlock?;
        assert bs[..n][k].TextBlock?;
      }
      if HasText(bs[..n]) {
        var k :| 0 <= k < n && bs[..n][k].TextBlock?;
        assert bs[k].TextBlock?;
      }
    }
  }

  lemma SnocFacts(bs: seq<Block>, b: Block)
    ensures Actions(bs + [b]) == Actions(bs) + if IsReasoning(b) then [] else [b]
    ensures TextCount(bs + [b]) == TextCount(bs) + if b.TextBlock? then 1 else 0
    ensures BlockUses(bs + [b]) == BlockUses(bs) + if b.ToolUse? then [b.id] else []
    ensures BlockResults(bs + [b]) == BlockResults(bs) + if b.ToolResult? then [b.useId] else []
    ensures Reasonless(bs + [b]) ==
            match b
            case Thinking(_, _) => Reasonless(bs)
            case TextBlock(_) => if HasText(bs) then Reasonless(bs) else Reasonless(bs) + [TextBlock(REASONING_STUB)]
            case _ => Reasonless(bs) + [b]
  {
    assert (bs + [b])[..|bs|] == bs;
  }

  lemma {:induction false} ReasonlessIds(bs: seq<Block>)
    ensures BlockUses(Reasonless(bs)) == BlockUses(bs) && BlockResults(Reasonless(bs)) == BlockResults(bs)
  {
    if bs != [] {
      var n := |bs| - 1;
      ReasonlessIds(bs[..n]);
      SnocFacts(Reasonless(bs[..n]), bs[n]);
      SnocFacts(Reasonless(bs[..n]), TextBlock(REASONING_STUB));
    }
  }

  lemma {:induction false} ReasonlessTexts(bs: seq<Block>)
    ensures var r := Reasonless(bs);
            && TextCount(r) == (if HasText(bs) then 1 else 0)
            && forall k :: 0 <= k < |r| ==> !r[k].Thinking? && (r[k].TextBlock? ==> r[k].text == REASONING_STUB)
  {
    if bs != [] {
      var n := |bs| - 1;
      ReasonlessTexts(bs[..n]);
      TextCountExists(bs[..n]);
      TextCountExists(bs);
      SnocFacts(Reasonless(bs[..n]), bs[n]);
      SnocFacts(Reasonless(bs[..n]), TextBlock(REASONING_STUB));
    }
  }

  lemma {:induction false} ReasonlessActions(bs: seq<Block>)
    ensures Actions(Reasonless(bs)) == Actions(bs)
  {
    if bs != [] {
      var n := |bs| - 1;
      ReasonlessActions(bs[..n]);
      SnocFacts(Reasonless(bs[..n]), bs[n]);
      SnocFacts(Reasonless(bs[..n]), TextBlock(REASONING_STUB));
    }
  }

  /**
   An assistant turn keeps its actions in order, loses all thinking, and has one text block,
   the stub, exactly when it had any text.
   */
  lemma ReasonlessKeepsActions(bs: seq<Block>)
    ensures var r := Reasonless(bs);
            && Actions(r) == Actions(bs)
            && TextCount(r) == (if HasText(bs) then 1 else 0)
            && (forall k :: 0 <= k < |r| ==> !r[k].Thinking? && (r[k].TextBlock? ==> r[k].text == REASONING_STUB))
            && BlockUses(r) == BlockUses(bs) && BlockResults(r) == BlockResults(bs)
  {
    ReasonlessIds(bs);
    ReasonlessTexts(bs);
    ReasonlessActions(bs);
  }

  lemma {:induction false} TextlessTurn(bs: seq<Block>)
    requires !HasText(bs)
    ensures Reasonless(bs) == Actions(bs)
  {
    if bs != [] {
      var n := |bs| - 1;
      assert !bs[n].TextBlock? && forall k :: 0 <= k < n ==> bs[..n][k] == bs[k];
      TextlessTurn(bs[..n]);
    }
  }

  /** What the stub and the actions around it make of a turn whose first text is at `k`. */
  function Collapsed(bs: seq<Block>, k: nat): seq<Block>
    requires k < |bs|
  {
    Actions(bs[..k]) + [TextBlock("[IDEATE reasoning elided post-commit]")] + Actions(bs[k + 1..])
  }

  lemma CollapsedSnoc(bs: seq<Block>, b: Block, k: nat)
    requires k < |bs| && HasText(bs) && Reasonless(bs) == Collapsed(bs, k)
    ensures Reasonless(bs + [b]) == Collapsed(bs + [b], k)
  {
    CollapsedGrows(bs, b, k);
    assert Reasonless(bs + [b]) == Reasonless(bs) + if IsReasoning(b) then [] else [b] by { SnocFacts(bs, b); }
  }

  lemma CollapsedGrows(bs: seq<Block>, b: Block, k: nat)
    requires k < |bs|
    ensures Collapsed(bs + [b], k) == Collapsed(bs, k) + if IsReasoning(b) then [] else [b]
  {
    assert (bs + [b])[..k] == bs[..k];
    assert (bs + [b])[k + 1..] == bs[k + 1..] + [b];
    assert Actions(bs[k + 1..] + [b]) == Actions(bs[k + 1..]) + if IsReasoning(b) then [] else [b] by {
      SnocFacts(bs[k + 1..], b);
    }
  }

  lemma CollapsedFirst(bs: seq<Block>, b: Block)
    requires !HasText(bs) && b.TextBlock?
    ensures Reasonless(bs + [b]) == Collapsed(bs + [b], |bs|)
  {
    SnocFacts(bs, b);
    TextlessTurn(bs);
    assert (bs + [b])[..|bs|] == bs;
    assert (bs + [b])[|bs| + 1..] == [];
  }

  /** The stub stands where the first text stood; everything else is the actions in order. */
  lemma {:induction false} StubStandsForFirstText(bs: seq<Block>, k: nat)
    requires k < |bs| && bs[k].TextBlock? && forall j :: 0 <= j < k ==> !bs[j].TextBlock?
    ensures Reasonless(bs) == Collapsed(bs, k)
  {
    var front, b := bs[..|bs| - 1], bs[|bs| - 1];
    assert bs == front + [b];
    if k == |front| {
      CollapsedFirst(front, b);
    } else {
      assert front[k] == bs[k];
      StubStandsForFirstText(front, k);
      CollapsedSnoc(front, b, k);
    }
  }

  /** A turn without thinking whose only text is one stub is left alone. */
  lemma {:induction false} ReasonlessFixed(bs: seq<Block>)
    requires forall k :: 0 <= k < |bs| ==> !bs[k].Thinking? && (bs[k].TextBlock? ==> bs[k].text == REASONING_STUB)
    requires TextCount(bs) <= 1
    ensures Reasonless(bs) == bs
  {
    if bs != [] {
      var n := |bs| - 1;
      ReasonlessFixed(bs[..n]);
      TextCountExists(bs[..n]);
      assert bs == bs[..n] + [bs[n]];
    }
  }

  lemma ReasonlessTwice(bs: seq<Block>)
    ensures Reasonless(Reasonless(bs)) == Reasonless(bs)
  {
    ReasonlessKeepsActions(bs);
    ReasonlessFixed(Reasonless(bs));
  }

  // ---------- the whole list ----------

  lemma {:induction false} StubKeepsIds(bs: seq<Block>, ids: set<string>)
    ensures BlockUses(StubResults(bs, ids)) == BlockUses(bs)
    ensures BlockResults(StubResults(bs, ids)) == BlockResults(bs)
  {
    SkeletonKeepsIds(bs, StubResults(bs, ids));
  }

  lemma PrunedMessageKeepsIds(m: Message, ids: set<string>)
    ensures SameIds(m, PrunedMessage(m, ids))
  {
    if m.content.Blocks? {
      ReasonlessKeepsActions(m.content.blocks);
      StubKeepsIds(m.content.blocks, ids);
    }
  }

  /**
   Pruning keeps the number of messages, every role, every call and every result id, and every
   message up to the anchor; so it keeps the pairing, and its absence.
   */
  lemma PrunedKeepsPairing(h: History)
    ensures |Pruned(h)| == |h| && Pruned(h)[..ScopeStart(h)] == h[..ScopeStart(h)]
    ensures forall i :: 0 <= i < |h| ==> SameIds(h[i], Pruned(h)[i])
    ensures Paired(Pruned(h)) <==> Paired(h)
  {
    var g := Pruned(h);
    forall i | 0 <= i < |h| ensures SameIds(h[i], g[i]) {
      PrunedMessageKeepsIds(h[i], SkillIds(h, ScopeStart(h)));
    }
    PairingDependsOnIds(h, g);
  }

  /** A call for the constraints view of the tree. */
  predicate AsksForConstraints(b: Block) {
    b.ToolUse? && b.name == "TreeView" && "format" in b.input && b.input["format"] == "constraints"
  }

  predicate ViewsConstraints(m: Message) {
    m.role == Assistant && exists k :: 0 <= k < |BlocksOf(m)| && AsksForConstraints(BlocksOf(m)[k])
  }

  /** A call that loads one of the two ideation skills. */
  predicate LoadsIdeation(b: Block) {
    && b.ToolUse? && b.name == "LoadSkill" && "skill_name" in b.input
    && (b.input["skill_name"] == "idea_drafting" || b.input["skill_name"] == "first_principles_probe")
  }

  /** There is such a turn, and message `i` stands behind all of them. */
  predicate Behind(h: History, i: nat) {
    (exists j :: 0 <= j < |h| && ViewsConstraints(h[j])) && forall j :: 0 <= j < |h| && ViewsConstraints(h[j]) ==> j < i
  }

  /** The call with this id is an ideation skill load made behind the last constraints view. */
  predicate LoadsSkill(h: History, id: string) {
    exists i, k :: 0 <= i < |h| && Behind(h, i) && h[i].role == Assistant && 0 <= k < |BlocksOf(h[i])|
      && LoadsIdeation(BlocksOf(h[i])[k]) && BlocksOf(h[i])[k].id == id
  }

  lemma BehindExactly(h: History, i: nat)
    requires i < |h|
    ensures Behind(h, i) <==> 0 < ScopeStart(h) <= i
  {
    var n := ScopeStart(h);
    forall j | 0 <= j < |h| ensures ViewsConstraints(h[j]) ==> j < n {
      if ViewsConstraints(h[j]) { ViewIsAnchor(h[j]); }
    }
    if n > 0 { ViewIsAnchor(h[n - 1]); }
  }

  lemma ViewIsAnchor(m: Message)
    ensures ViewsConstraints(m) <==> IsAnchor(m)
  {
    AnchorsAreViews();
  }

  lemma AnchorsAreViews()
    ensures forall m :: ViewsConstraints(m) <==> IsAnchor(m)
  {
    assert forall b :: AsksForConstraints(b) <==> IsConstraintsView(b);
  }

  lemma LoadsSkillExactly(h: History, id: string)
    requires ScopeStart(h) > 0
    ensures LoadsSkill(h, id) <==> id in SkillIds(h, ScopeStart(h))
  {
    forall i | 0 <= i < |h| ensures Behind(h, i) <==> ScopeStart(h) <= i { BehindExactly(h, i); }
    assert forall b :: LoadsIdeation(b) <==> IsSkillCall(b);
    if LoadsSkill(h, id) {
      var i, k :| 0 <= i < |h| && Behind(h, i) && h[i].role == Assistant && 0 <= k < |BlocksOf(h[i])|
        && LoadsIdeation(BlocksOf(h[i])[k]) && BlocksOf(h[i])[k].id == id;
      assert IsSkillCall(BlocksOf(h[i])[k]) && CallId(BlocksOf(h[i])[k]) == id;
    }
  }

  /**
   Behind the last constraints view a block of a user turn is replaced exactly when it answers a skill load
   made there, and then only its body; elsewhere nothing is.
   */
  lemma ElidedExactly(h: History, i: nat, k: nat)
    requires i < |h| && h[i].role == User && k < |BlocksOf(h[i])|
    ensures |BlocksOf(Pruned(h)[i])| == |BlocksOf(h[i])|
    ensures var b := BlocksOf(h[i])[k];
            BlocksOf(Pruned(h)[i])[k] ==
            if Behind(h, i) && b.ToolResult? && LoadsSkill(h, b.useId)
            then ToolResult(b.useId, Text("[skill body elided post-IDEATE]"), b.isError)
            else b
  {
    BehindExactly(h, i);
    if Behind(h, i) && BlocksOf(h[i])[k].ToolResult? { LoadsSkillExactly(h, BlocksOf(h[i])[k].useId); }
  }

  /** Behind it an assistant turn loses its reasoning but for one stub; elsewhere it is left as it was. */
  lemma ReasoningElidedExactly(h: History, i: nat)
    requires i < |h| && h[i].role == Assistant
    ensures var bs, cs := BlocksOf(h[i]), BlocksOf(Pruned(h)[i]);
            if !Behind(h, i) then Pruned(h)[i] == h[i]
            else if forall k :: 0 <= k < |bs| ==> !bs[k].TextBlock? then cs == Actions(bs)
            else exists k :: 0 <= k < |bs| && bs[k].TextBlock? && (forall j :: 0 <= j < k ==> !bs[j].TextBlock?)
                   && cs == Collapsed(bs, k)
  {
    BehindExactly(h, i);
    var bs := BlocksOf(h[i]);
    if Behind(h, i) && HasText(bs) {
      var k := FirstText(bs);
      StubStandsForFirstText(bs, k);
    } else if Behind(h, i) {
      TextlessTurn(bs);
    }
  }

  lemma {:induction false} FirstText(bs: seq<Block>) returns (k: nat)
    requires HasText(bs)
    ensures k < |bs| && bs[k].TextBlock? && forall j :: 0 <= j < k ==> !bs[j].TextBlock?
  {
    var n := |bs| - 1;
    if HasText(bs[..n]) {
      k := FirstText(bs[..n]);
      assert forall j :: 0 <= j < n ==> bs[..n][j] == bs[j];
    } else {
      k := n;
      assert forall j :: 0 <= j < n ==> !bs[..n][j].TextBlock? && bs[..n][j] == bs[j];
      assert exists j :: 0 <= j < |bs| && bs[j].TextBlock?;
    }
  }

  // ---------- the counts ----------

  /** Positions at which two block lists differ. */
  function Differing(a: seq<Block>, b: seq<Block>, n: nat): set<nat>
    requires n <= |a| == |b|
  {
    set k: nat | k < n && a[k] != b[k]
  }

  lemma {:induction false} ChangesCounted(a: seq<Block>, b: seq<Block>, n: nat)
    requires n <= |a| == |b|
    ensures Changes(a[..n], b[..n]) == |Differing(a, b, n)|
  {
    if n == 0 {
      assert Differing(a, b, 0) == {};
    } else {
      ChangesCounted(a, b, n - 1);
      assert a[..n][..n - 1] == a[..n - 1] && b[..n][..n - 1] == b[..n - 1];
      assert Differing(a, b, n) == Differing(a, b, n - 1) + if a[n - 1] != b[n - 1] then {n - 1} else {};
    }
  }

  /** Messages of the given role among the first `n` that differ in `g`. */
  function ChangedTurns(h: History, g: History, role: Role, n: nat): set<nat>
    requires n <= |h| == |g|
  {
    set i: nat | i < n && h[i].role == role && g[i] != h[i]
  }

  lemma ChangedTurnsStep(h: History, g: History, role: Role, n: nat)
    requires n < |h| == |g|
    ensures |ChangedTurns(h, g, role, n + 1)| ==
            |ChangedTurns(h, g, role, n)| + if h[n].role == role && g[n] != h[n] then 1 else 0
  {
    assert ChangedTurns(h, g, role, n + 1) ==
           ChangedTurns(h, g, role, n) + if h[n].role == role && g[n] != h[n] then {n} else {};
  }

  lemma {:induction false} RewrittenCounted(h: History, n: nat)
    requires 0 < ScopeStart(h) <= n <= |h|
    ensures RewrittenIn(h, ScopeStart(h), n) == |ChangedTurns(h, Pruned(h), Assistant, n)|
  {
    if n == ScopeStart(h) {
      assert ChangedTurns(h, Pruned(h), Assistant, n) == {};
    } else {
      RewrittenCounted(h, n - 1);
      ChangedTurnsStep(h, Pruned(h), Assistant, n - 1);
      if h[n - 1].role == Assistant { AssistantsIgnoreIds(h, n - 1); }
    }
  }

  lemma AssistantsIgnoreIds(h: History, i: nat)
    requires 0 < ScopeStart(h) <= i < |h| && h[i].role == Assistant
    ensures Pruned(h)[i] == PrunedMessage(h[i], {})
  {
  }

  /** Blocks of user messages among the first `n` that differ in `g`. */
  function ChangedBlocks(h: History, g: History, n: nat): set<(nat, nat)>
    requires n <= |h| == |g|
  {
    set i: nat, k: nat | i < n && h[i].role == User && k < |BlocksOf(h[i])|
      && k < |BlocksOf(g[i])| && BlocksOf(g[i])[k] != BlocksOf(h[i])[k] :: (i, k)
  }

  function PairsWith(i: nat, ks: set<nat>): set<(nat, nat)> {
    set k: nat | k in ks :: (i, k)
  }

  lemma {:induction false} PairsCounted(i: nat, ks: set<nat>)
    ensures |PairsWith(i, ks)| == |ks|
  {
    if ks == {} {
      assert PairsWith(i, ks) == {};
    } else {
      var k :| k in ks;
      PairsCounted(i, ks - {k});
      assert PairsWith(i, ks) == PairsWith(i, ks - {k}) + {(i, k)};
    }
  }

  lemma ChangedBlocksStep(h: History, g: History, n: nat)
    requires n < |h| == |g| && (h[n].role == User ==> |BlocksOf(h[n])| == |BlocksOf(g[n])|)
    ensures |ChangedBlocks(h, g, n + 1)| == |ChangedBlocks(h, g, n)| +
            if h[n].role == User then Changes(BlocksOf(h[n]), BlocksOf(g[n])) else 0
  {
    if h[n].role == User {
      var bs, cs := BlocksOf(h[n]), BlocksOf(g[n]);
      ChangesCounted(bs, cs, |bs|);
      assert bs[..|bs|] == bs && cs[..|cs|] == cs;
      PairsCounted(n, Differing(bs, cs, |bs|));
      UserBlocksAdded(h, g, n);
    } else {
      assert ChangedBlocks(h, g, n + 1) == ChangedBlocks(h, g, n);
    }
  }

  lemma UserBlocksAdded(h: History, g: History, n: nat)
    requires n < |h| == |g| && h[n].role == User && |BlocksOf(h[n])| == |BlocksOf(g[n])|
    ensures var more := PairsWith(n, Differing(BlocksOf(h[n]), BlocksOf(g[n]), |BlocksOf(h[n])|));
            ChangedBlocks(h, g, n + 1) == ChangedBlocks(h, g, n) + more && ChangedBlocks(h, g, n) !! more
  {
  }

  /** From `start` on, `g` has the user blocks of `h` with these results elided, and before it nothing changed. */
  predicate ElidedFrom(h: History, g: History, ids: set<string>, start: nat) {
    && |h| == |g| && (forall i :: 0 <= i < start && i < |h| ==> g[i] == h[i])
    && (forall i :: start <= i < |h| && h[i].role == User ==> BlocksOf(g[i]) == StubResults(BlocksOf(h[i]), ids))
  }

  lemma {:induction false} StubbedCounted(h: History, g: History, ids: set<string>, start: nat, n: nat)
    requires ElidedFrom(h, g, ids, start) && start <= n <= |h|
    ensures StubbedIn(h, ids, start, n) == |ChangedBlocks(h, g, n)|
  {
    if n == start {
      assert ChangedBlocks(h, g, n) == {};
    } else {
      StubbedCounted(h, g, ids, start, n - 1);
      ChangedBlocksStep(h, g, n - 1);
    }
  }

  lemma PrunedElides(h: History)
    requires ScopeStart(h) > 0
    ensures ElidedFrom(h, Pruned(h), SkillIds(h, ScopeStart(h)), ScopeStart(h))
  {
    forall i | ScopeStart(h) <= i < |h| && h[i].role == User
      ensures BlocksOf(Pruned(h)[i]) == StubResults(BlocksOf(h[i]), SkillIds(h, ScopeStart(h)))
    {
      SameUserBlocks(h, i);
    }
  }

  lemma SameUserBlocks(h: History, i: nat)
    requires 0 < ScopeStart(h) <= i < |h| && h[i].role == User
    ensures BlocksOf(Pruned(h)[i]) == StubResults(BlocksOf(h[i]), SkillIds(h, ScopeStart(h)))
  {
  }

  /** The statistics: where the last constraints view is, and how many turns and results were changed. */
  lemma StatsExactly(h: History)
    ensures var s := StatsOf(h);
            if exists j :: 0 <= j < |h| && ViewsConstraints(h[j])
            then
              && 0 <= s.anchor < |h| && ViewsConstraints(h[s.anchor])
              && (forall j :: s.anchor < j < |h| ==> !ViewsConstraints(h[j]))
              && s.rewrittenAssistants == |ChangedTurns(h, Pruned(h), Assistant, |h|)|
              && s.stubbedSkillResults == |ChangedBlocks(h, Pruned(h), |h|)|
            else s == Stats(-1, 0, 0) && Pruned(h) == h
  {
    AnchorsAreViews();
    if ScopeStart(h) > 0 {
      RewrittenCounted(h, |h|);
      PrunedElides(h);
      StubbedCounted(h, Pruned(h), SkillIds(h, ScopeStart(h)), ScopeStart(h), |h|);
    }
  }

  /** The blocks that decide anchors and skill loads are actions, which pruning keeps. */
  lemma {:induction false} ActionsContain(bs: seq<Block>, b: Block)
    requires !IsReasoning(b)
    ensures b in Actions(bs) <==> b in bs
  {
    if bs != [] {
      var n := |bs| - 1;
      ActionsContain(bs[..n], b);
      assert bs == bs[..n] + [bs[n]];
    }
  }

  lemma PrunedMessageKeepsCalls(m: Message, ids: set<string>, b: Block)
    requires b.ToolUse? && m.role == Assistant
    ensures b in BlocksOf(PrunedMessage(m, ids)) <==> b in BlocksOf(m)
  {
    if m.content.Blocks? {
      ReasonlessKeepsActions(m.content.blocks);
      ActionsContain(m.content.blocks, b);
      ActionsContain(Reasonless(m.content.blocks), b);
    }
  }

  lemma PrunedMessageAnchor(m: Message, ids: set<string>)
    ensures IsAnchor(PrunedMessage(m, ids)) <==> IsAnchor(m)
    ensures SkillIdsOf(PrunedMessage(m, ids)) == SkillIdsOf(m)
  {
    if m.role == Assistant {
      var p := PrunedMessage(m, ids);
      forall b: Block | b.ToolUse? ensures b in BlocksOf(p) <==> b in BlocksOf(m) {
        PrunedMessageKeepsCalls(m, ids, b);
      }
    }
  }

  /** The scope start is determined by where the anchors are. */
  lemma ScopeStartUnique(h: History, n: nat)
    requires n <= |h|
    requires n > 0 ==> IsAnchor(h[n - 1])
    requires forall i :: n <= i < |h| ==> !IsAnchor(h[i])
    ensures ScopeStart(h) == n
  {
  }

  lemma SkillIdsPointwise(h: History, start: nat, id: string)
    ensures id in SkillIds(h, start) <==> exists i :: start <= i < |h| && id in SkillIdsOf(h[i])
  {
    if id in SkillIds(h, start) {
      var i, k :| start <= i < |h| && h[i].role == Assistant && 0 <= k < |BlocksOf(h[i])|
        && IsSkillCall(BlocksOf(h[i])[k]) && CallId(BlocksOf(h[i])[k]) == id;
      assert id in SkillIdsOf(h[i]);
    }
    if exists i :: start <= i < |h| && id in SkillIdsOf(h[i]) {
      var i :| start <= i < |h| && id in SkillIdsOf(h[i]);
      var k :| 0 <= k < |BlocksOf(h[i])| && IsSkillCall(BlocksOf(h[i])[k]) && CallId(BlocksOf(h[i])[k]) == id;
    }
  }

  lemma SkillIdsSame(h: History, g: History, start: nat)
    requires |h| == |g| && forall i :: start <= i < |h| ==> SkillIdsOf(h[i]) == SkillIdsOf(g[i])
    ensures SkillIds(h, start) == SkillIds(g, start)
  {
    forall id ensures id in SkillIds(h, start) <==> id in SkillIds(g, start) {
      SkillIdsPointwise(h, start, id);
      SkillIdsPointwise(g, start, id);
    }
  }

  lemma PrunedMessageTwice(m: Message, ids: set<string>, more: set<string>)
    requires ids <= more
    ensures PrunedMessage(PrunedMessage(m, ids), more) == PrunedMessage(m, more)
  {
    if m.content.Blocks? {
      ReasonlessTwice(m.content.blocks);
      assert StubResults(StubResults(m.content.blocks, ids), more) == StubResults(m.content.blocks, more);
    }
  }

  predicate NoAnchor(s: History) {
    forall i :: 0 <= i < |s| ==> !IsAnchor(s[i])
  }

  /** Anchors and skill ids of a history do not depend on whether its front part was pruned. */
  lemma PrunedFront(m: History, s: History)
    ensures var early, late := Pruned(m) + s, m + s;
            && ScopeStart(early) == ScopeStart(late)
            && forall start: nat :: SkillIds(early, start) == SkillIds(late, start)
  {
    var early, late := Pruned(m) + s, m + s;
    var ids := SkillIds(m, ScopeStart(m));
    forall i | 0 <= i < |late|
      ensures (IsAnchor(early[i]) <==> IsAnchor(late[i])) && SkillIdsOf(early[i]) == SkillIdsOf(late[i])
    {
      if i < |m| { PrunedMessageAnchor(m[i], ids); }
    }
    ScopeStartUnique(early, ScopeStart(late));
    forall start: nat ensures SkillIds(early, start) == SkillIds(late, start) {
      SkillIdsSame(early, late, start);
    }
  }

  lemma ScopeOfExtension(m: History, s: History)
    requires NoAnchor(s)
    ensures ScopeStart(m + s) == ScopeStart(m)
    ensures SkillIds(m, ScopeStart(m)) <= SkillIds(m + s, ScopeStart(m))
  {
    ScopeStartUnique(m + s, ScopeStart(m));
    forall id | id in SkillIds(m, ScopeStart(m)) ensures id in SkillIds(m + s, ScopeStart(m)) {
      SkillIdsPointwise(m, ScopeStart(m), id);
      SkillIdsPointwise(m + s, ScopeStart(m), id);
      var i :| ScopeStart(m) <= i < |m| && id in SkillIdsOf(m[i]);
      assert (m + s)[i] == m[i];
    }
  }

  lemma PruneIncremental(m: History, s: History)
    requires NoAnchor(s)
    ensures Pruned(Pruned(m) + s) == Pruned(m + s)
  {
    var early, late := Pruned(m) + s, m + s;
    var start := ScopeStart(m);
    PrunedFront(m, s);
    ScopeOfExtension(m, s);
    var ids := SkillIds(m, start);
    var more := SkillIds(late, start);
    forall i | 0 <= i < |late| ensures Pruned(early)[i] == Pruned(late)[i] {
      if i < |m| { PrunedMessageTwice(m[i], ids, more); }
    }
  }

  lemma AnchorInTail(m: History, s: History)
    requires !NoAnchor(s)
    ensures ScopeStart(m + s) > |m|
  {
    var i :| 0 <= i < |s| && IsAnchor(s[i]);
    assert (m + s)[|m| + i] == s[i];
    assert ScopeStart(m + s) > |m| + i;
  }

  /**
   Pruning early makes no difference to pruning later exactly when no new constraints view came
   in between, or the early pruning had nothing to do.
   */
  lemma PruneIncrementalExactly(m: History, s: History)
    ensures Pruned(Pruned(m) + s) == Pruned(m + s) <==> NoAnchor(s) || Pruned(m) == m
  {
    if NoAnchor(s) {
      PruneIncremental(m, s);
    } else {
      AnchorInTail(m, s);
      PrunedFront(m, s);
      FrontUntouched(m, s);
      FrontUntouched(Pruned(m), s);
    }
  }

  /** An anchor in the tail shields everything before it. */
  lemma FrontUntouched(m: History, s: History)
    requires ScopeStart(m + s) > |m|
    ensures Pruned(m + s)[..|m|] == m
  {
  }

  lemma {:induction false} NoChanges(bs: seq<Block>)
    ensures Changes(bs, bs) == 0
  {
    if bs != [] { NoChanges(bs[..|bs| - 1]); }
  }

  lemma {:induction false} NothingCounted(h: History, ids: set<string>, start: nat, end: nat)
    requires start <= end <= |h|
    requires forall i :: start <= i < end ==> PrunedMessage(h[i], ids) == h[i]
    ensures RewrittenIn(h, start, end) == 0 && StubbedIn(h, ids, start, end) == 0
  {
    if start < end {
      NothingCounted(h, ids, start, end - 1);
      var m := h[end - 1];
      if m.role == User && m.content.Blocks? { NoChanges(m.content.blocks); }
    }
  }

  /** Pruning again changes nothing and reports the same anchor with zero counts. */
  lemma PruneIdempotent(m: History)
    ensures Pruned(Pruned(m)) == Pruned(m)
    ensures StatsOf(Pruned(m)) == Stats(ScopeStart(m) - 1, 0, 0)
  {
    PruneIncremental(m, []);
    PrunedFront(m, []);
    var g := Pruned(m);
    assert g + [] == g && m + [] == m;
    var start := ScopeStart(m);
    var ids := SkillIds(g, start);
    if start > 0 {
      forall i | start <= i < |g| ensures PrunedMessage(g[i], ids) == g[i] {
        assert Pruned(g)[i] == PrunedMessage(g[i], ids);
      }
      NothingCounted(g, ids, start, |g|);
    }
  }
}
