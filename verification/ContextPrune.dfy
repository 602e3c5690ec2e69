/**
 Pruning of ideation scratch work, in place on the message list: after the last call of
 `TreeView(format="constraints")`, reasoning is stubbed and loaded skill bodies are elided.
 */
module ContextPrune {
  import opened Messages

  const REASONING_STUB := "[IDEATE reasoning elided post-commit]"
  const SKILL_STUB := "[skill body elided post-IDEATE]"
  const IDEATE_SKILLS: set<string> := {"idea_drafting", "first_principles_probe"}

  datatype Stats = Stats(anchor: int, rewrittenAssistants: nat, stubbedSkillResults: nat)

  // ---------- the anchor ----------

  predicate InputIs(b: Block, key: string, value: string) {
    b.ToolUse? && key in b.input && b.input[key] == value
  }

  predicate IsConstraintsView(b: Block) {
    b.ToolUse? && b.name == "TreeView" && InputIs(b, "format", "constraints")
  }

  predicate IsAnchor(m: Message) {
    m.role == Assistant && exists k :: 0 <= k < |BlocksOf(m)| && IsConstraintsView(BlocksOf(m)[k])
  }

  /** One past the last anchor, or 0 when there is none. */
  function ScopeStart(h: History): (n: nat)
    ensures n <= |h|
    ensures n > 0 ==> IsAnchor(h[n - 1])
    ensures forall i :: n <= i < |h| ==> !IsAnchor(h[i])
  {
    if h == [] then 0
    else if IsAnchor(h[|h| - 1]) then |h|
    else ScopeStart(h[..|h| - 1])
  }

  // ---------- assistant turns ----------

  predicate HasText(bs: seq<Block>) {
    exists k :: 0 <= k < |bs| && bs[k].TextBlock?
  }

  /** Thinking dropped, all text collapsed into one stub at the place of the first. */
  function Reasonless(bs: seq<Block>): seq<Block> {
    if bs == [] then []
    else
      var n := |bs| - 1;
      var before := Reasonless(bs[..n]);
      match bs[n]
      case Thinking(_, _) => before
      case TextBlock(_) => if HasText(bs[..n]) then before else before + [TextBlock(REASONING_STUB)]
      case _ => before + [bs[n]]
  }

  // ---------- user turns ----------

  predicate IsSkillCall(b: Block) {
    b.ToolUse? && b.name == "LoadSkill" && "skill_name" in b.input && b.input["skill_name"] in IDEATE_SKILLS
  }

  /** Ids of the skill loads in assistant turns from `start` on. */
  function SkillIds(h: History, start: nat): set<string> {
    set i, k | start <= i < |h| && h[i].role == Assistant && 0 <= k < |BlocksOf(h[i])| && IsSkillCall(BlocksOf(h[i])[k])
      :: CallId(BlocksOf(h[i])[k])
  }

  function StubResult(b: Block, ids: set<string>): Block {
    if b.ToolResult? && b.useId in ids then b.(body := Text(SKILL_STUB)) else b
  }

  function StubResults(bs: seq<Block>, ids: set<string>): (r: seq<Block>)
    ensures |r| == |bs|
  {
    seq(|bs|, k requires 0 <= k < |bs| => StubResult(bs[k], ids))
  }

  function Changes(a: seq<Block>, b: seq<Block>): nat
    requires |a| == |b|
  {
    if a == [] then 0
    else Changes(a[..|a| - 1], b[..|b| - 1]) + if a[|a| - 1] == b[|b| - 1] then 0 else 1
  }

  // ---------- the whole list ----------

  function PrunedMessage(m: Message, ids: set<string>): Message {
    if !m.content.Blocks? then m
    else match m.role
      case Assistant => m.(content := Blocks(Reasonless(m.content.blocks)))
      case User => m.(content := Blocks(StubResults(m.content.blocks, ids)))
      case OtherRole => m
  }

  function Pruned(h: History): (r: History)
    ensures |r| == |h|
  {
    var start := ScopeStart(h);
    var ids := SkillIds(h, start);
    seq(|h|, i requires 0 <= i < |h| => if start == 0 || i < start then h[i] else PrunedMessage(h[i], ids))
  }

  function RewrittenIn(h: History, start: nat, end: nat): nat
    requires start <= end <= |h|
  {
    if start == end then 0
    else
      RewrittenIn(h, start, end - 1) +
      (if h[end - 1].role == Assistant && PrunedMessage(h[end - 1], {}) != h[end - 1] then 1 else 0)
  }

  function StubbedIn(h: History, ids: set<string>, start: nat, end: nat): nat
    requires start <= end <= |h|
  {
    if start == end then 0
    else
      StubbedIn(h, ids, start, end - 1) +
      (if h[end - 1].role == User then Changes(BlocksOf(h[end - 1]), StubResults(BlocksOf(h[end - 1]), ids)) else 0)
  }

  function StatsOf(h: History): Stats {
    var start := ScopeStart(h);
    if start == 0 then Stats(-1, 0, 0)
    else Stats(start - 1, RewrittenIn(h, start, |h|), StubbedIn(h, SkillIds(h, start), start, |h|))
  }

  // ---------- the code ----------

  method FindConstraintsAnchor(messages: array<Message>) returns (anchor: int)
    ensures anchor == ScopeStart(messages[..]) - 1
  {
    var i := messages.Length;
    assert messages[..i] == messages[..];
    while i > 0
      invariant 0 <= i <= messages.Length
      invariant ScopeStart(messages[..]) == ScopeStart(messages[..i])
    {
      var msg := messages[i - 1];
      assert messages[..i][..i - 1] == messages[..i - 1];
      if msg.role == Assistant && msg.content.Blocks? {
        var blocks := msg.content.blocks;
        for k := 0 to |blocks|
          invariant forall j :: 0 <= j < k ==> !IsConstraintsView(blocks[j])
        {
          if IsConstraintsView(blocks[k]) {
            assert IsConstraintsView(BlocksOf(messages[..i][i - 1])[k]);
            return i - 1;
          }
        }
      }
      assert !IsAnchor(messages[..i][i - 1]);
      i := i - 1;
    }
    return -1;
  }

  method CollectSkillToolUseIds(messages: array<Message>, start: nat) returns (ids: set<string>)
    requires start <= messages.Length
    ensures ids == SkillIds(messages[..], start)
  {
    ids := {};
    for i := start to messages.Length
      invariant ids == SkillIds(messages[..i], start)
    {
      var msg := messages[i];
      ghost var earlier := ids;
      if msg.role == Assistant && msg.content.Blocks? {
        var blocks := msg.content.blocks;
        for k := 0 to |blocks|
          invariant ids == earlier + SkillIdsIn(blocks[..k])
        {
          assert SkillIdsIn(blocks[..k + 1]) ==
                 SkillIdsIn(blocks[..k]) + if IsSkillCall(blocks[k]) then {blocks[k].id} else {} by {
            assert blocks[..k + 1][..k] == blocks[..k];
          }
          if IsSkillCall(blocks[k]) {
            ids := ids + {blocks[k].id};
          }
        }
        assert blocks[..|blocks|] == blocks;
      }
      SkillIdsStep(messages[..i + 1], start);
      assert messages[..i + 1][..i] == messages[..i];
    }
    assert messages[..messages.Length] == messages[..];
  }

  function SkillIdsIn(bs: seq<Block>): set<string> {
    set k | 0 <= k < |bs| && IsSkillCall(bs[k]) :: CallId(bs[k])
  }

  function SkillIdsOf(m: Message): set<string> {
    if m.role == Assistant then SkillIdsIn(BlocksOf(m)) else {}
  }

  lemma SkillIdsStep(h: History, start: nat)
    requires start < |h|
    ensures SkillIds(h, start) == SkillIds(h[..|h| - 1], start) + SkillIdsOf(h[|h| - 1])
  {
  }

  /** Stubs text, drops thinking, keeps everything else; says whether that changed the message. */
  method RewriteAssistantMessage(messages: array<Message>, i: nat) returns (modified: bool)
    requires i < messages.Length && messages[i].role == Assistant
    modifies messages
    ensures messages[..] == old(messages[..])[i := PrunedMessage(old(messages[i]), {})]
    ensures modified <==> messages[i] != old(messages[i])
  {
    var msg := messages[i];
    if !msg.content.Blocks? { return false; }
    var newBlocks;
    newBlocks, modified := DropReasoning(msg.content.blocks);
    if modified {
      messages[i] := msg.(content := Blocks(newBlocks));
    }
  }

  method DropReasoning(blocks: seq<Block>) returns (newBlocks: seq<Block>, modified: bool)
    ensures newBlocks == Reasonless(blocks)
    ensures modified <==> newBlocks != blocks
  {
    newBlocks := [];
    modified := false;
    var textStubEmitted := false;
    for k := 0 to |blocks|
      invariant newBlocks == Reasonless(blocks[..k])
      invariant textStubEmitted <==> HasText(blocks[..k])
      invariant |newBlocks| <= k
      invariant modified <==> newBlocks != blocks[..k]
    {
      var blk := blocks[k];
      ReasonlessStep(blocks, k, newBlocks);
      match blk {
        case Thinking(_, _) =>
          modified := true;
        case TextBlock(existing) =>
          if existing == REASONING_STUB {
            if !textStubEmitted {
              newBlocks := newBlocks + [blk];
              textStubEmitted := true;
            } else {
              modified := true;
            }
          } else {
            if !textStubEmitted {
              newBlocks := newBlocks + [TextBlock(REASONING_STUB)];
              textStubEmitted := true;
            }
            modified := true;
          }
        case _ =>
          newBlocks := newBlocks + [blk];
      }
    }
    assert blocks[..|blocks|] == blocks;
  }

  /** One more block: what the result becomes, and when it still equals the blocks seen. */
  lemma ReasonlessStep(blocks: seq<Block>, k: nat, before: seq<Block>)
    requires k < |blocks| && before == Reasonless(blocks[..k]) && |before| <= k
    ensures Reasonless(blocks[..k + 1]) ==
            match blocks[k]
            case Thinking(_, _) => before
            case TextBlock(_) => if HasText(blocks[..k]) then before else before + [TextBlock(REASONING_STUB)]
            case _ => before + [blocks[k]]
    ensures HasText(blocks[..k + 1]) <==> HasText(blocks[..k]) || blocks[k].TextBlock?
    ensures before != blocks[..k + 1]
    ensures forall b :: before + [b] == blocks[..k + 1] <==> b == blocks[k] && before == blocks[..k]
  {
    assert blocks[..k + 1][..k] == blocks[..k];
    assert blocks[..k + 1] == blocks[..k] + [blocks[k]];
    forall b ensures before + [b] == blocks[..k + 1] <==> b == blocks[k] && before == blocks[..k] {
      AppendEqualsExactly(before, b, blocks[..k], blocks[k]);
    }
  }

  lemma AppendEqualsExactly(a: seq<Block>, x: Block, b: seq<Block>, y: Block)
    ensures a + [x] == b + [y] <==> x == y && a == b
  {
    if a + [x] == b + [y] {
      assert |a| == |b| && (a + [x])[|a|] == (b + [y])[|b|];
      assert a == (a + [x])[..|a|] && b == (b + [y])[..|b|];
    }
  }

  /** Elides the bodies of the given skill loads; counts the results it changed. */
  method RewriteSkillToolResults(messages: array<Message>, i: nat, skillIds: set<string>) returns (stubbed: nat)
    requires i < messages.Length && messages[i].role == User
    modifies messages
    ensures messages[..] == old(messages[..])[i := PrunedMessage(old(messages[i]), skillIds)]
    ensures stubbed == Changes(BlocksOf(old(messages[i])), StubResults(BlocksOf(old(messages[i])), skillIds))
  {
    var msg := messages[i];
    stubbed := 0;
    if !msg.content.Blocks? { return; }
    var blocks := msg.content.blocks;
    ghost var target := StubResults(blocks, skillIds);
    var current := blocks;
    for k := 0 to |blocks|
      invariant |current| == |blocks|
      invariant forall j :: 0 <= j < |blocks| ==> current[j] == if j < k then target[j] else blocks[j]
      invariant stubbed == Changes(blocks[..k], target[..k])
    {
      var blk := blocks[k];
      assert blocks[..k + 1][..k] == blocks[..k] && target[..k + 1][..k] == target[..k];
      if blk.ToolResult? && blk.useId in skillIds && blk.body != Text(SKILL_STUB) {
        current := current[k := blk.(body := Text(SKILL_STUB))];
        stubbed := stubbed + 1;
      }
    }
    assert blocks[..|blocks|] == blocks && target[..|blocks|] == target && current == target;
    messages[i] := msg.(content := Blocks(current));
  }

  method PruneIdeateContext(messages: array<Message>) returns (stats: Stats)
    modifies messages
    ensures messages[..] == Pruned(old(messages[..]))
    ensures stats == StatsOf(old(messages[..]))
  {
    ghost var was := messages[..];
    var anchor := FindConstraintsAnchor(messages);
    if anchor == -1 {
      return Stats(-1, 0, 0);
    }
    var start := anchor + 1;
    var skillIds := CollectSkillToolUseIds(messages, start);
    var rewritten, stubbed := 0, 0;
    for i := start to messages.Length
      invariant forall j :: 0 <= j < i ==> messages[j] == Pruned(was)[j]
      invariant forall j :: i <= j < messages.Length ==> messages[j] == was[j]
      invariant rewritten == RewrittenIn(was, start, i)
      invariant stubbed == StubbedIn(was, skillIds, start, i)
    {
      assert Pruned(was)[i] == PrunedMessage(was[i], skillIds);
      var m, n := RewriteMessage(messages, i, skillIds);
      rewritten, stubbed := rewritten + m, stubbed + n;
    }
    return Stats(anchor, rewritten, stubbed);
  }

  /** The branch on the role; counts an assistant turn it changed and the results it elided. */
  method RewriteMessage(messages: array<Message>, i: nat, skillIds: set<string>) returns (rewritten: nat, stubbed: nat)
    requires i < messages.Length
    modifies messages
    ensures messages[..] == old(messages[..])[i := PrunedMessage(old(messages[i]), skillIds)]
    ensures rewritten == RewrittenIn(old(messages[..]), i, i + 1)
    ensures stubbed == StubbedIn(old(messages[..]), skillIds, i, i + 1)
  {
    rewritten, stubbed := 0, 0;
    match messages[i].role {
      case Assistant =>
        var modified := RewriteAssistantMessage(messages, i);
        if modified { rewritten := 1; }
      case User =>
        stubbed := RewriteSkillToolResults(messages, i, skillIds);
      case OtherRole =>
    }
  }
}
