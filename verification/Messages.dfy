/**
 Conversation histories and the property every provider demands of them:
 each `tool_use` block is answered by a `tool_result` in the very next message,
 exactly once, and no `tool_result` answers anything else.
 */
module Messages {

  datatype Role = User | Assistant | OtherRole

  /** The `content` of a tool result: plain text, or any other JSON value. */
  datatype Body = Text(text: string) | Structured(tag: int)

  datatype Block =
    | TextBlock(text: string)
    | Thinking(redacted: bool, tag: int)
    | ToolUse(id: string, name: string, input: map<string, string>)
    | ToolResult(useId: string, body: Body, isError: bool)
    | OtherBlock(tag: int)

  datatype Content = Str(text: string) | Blocks(blocks: seq<Block>) | Absent

  datatype Message = Message(role: Role, content: Content)

  type History = seq<Message>

  function UserText(text: string): Message {
    Message(User, Str(text))
  }

  function BlocksOf(m: Message): seq<Block> {
    if m.content.Blocks? then m.content.blocks else []
  }

  // ---------- tool ids of a message ----------

  function CallId(b: Block): string {
    if b.ToolUse? then b.id else ""
  }

  function BlockUses(bs: seq<Block>): seq<string> {
    if bs == [] then []
    else
      var rest := BlockUses(bs[..|bs| - 1]);
      var last := bs[|bs| - 1];
      if last.ToolUse? then rest + [last.id] else rest
  }

  function BlockResults(bs: seq<Block>): seq<string> {
    if bs == [] then []
    else
      var rest := BlockResults(bs[..|bs| - 1]);
      var last := bs[|bs| - 1];
      if last.ToolResult? then rest + [last.useId] else rest
  }

  function Uses(m: Message): seq<string> {
    if m.content.Blocks? then BlockUses(m.content.blocks) else []
  }

  function Results(m: Message): seq<string> {
    if m.content.Blocks? then BlockResults(m.content.blocks) else []
  }

  // ---------- pairing ----------

  /** Calls come from the assistant and results from the user. */
  predicate RoleOk(m: Message) {
    && (m.role != Assistant ==> Uses(m) == [])
    && (m.role != User ==> Results(m) == [])
  }

  /** `b` carries exactly one result for each call of `a`, and no other result. */
  predicate Answers(a: Message, b: Message) {
    multiset(Results(b)) == multiset(Uses(a))
  }

  /** Paired up to a tail whose calls may still be waiting for results. */
  predicate PairedOpen(h: History) {
    && (forall i :: 0 <= i < |h| ==> RoleOk(h[i]))
    && (h != [] ==> Results(h[0]) == [])
    && (forall i :: 0 < i < |h| ==> Answers(h[i - 1], h[i]))
  }

  /** The calls in front of position `i`, and the results at position `i`. */
  function UsesBefore(h: History, i: nat): seq<string>
    requires i <= |h|
  {
    if i == 0 then [] else Uses(h[i - 1])
  }

  function ResultsAt(h: History, i: nat): seq<string>
    requires i <= |h|
  {
    if i == |h| then [] else Results(h[i])
  }

  /** A history a provider accepts. */
  predicate Paired(h: History) {
    PairedOpen(h) && UsesBefore(h, |h|) == []
  }

  lemma EmptyMultiset(s: seq<string>)
    ensures multiset(s) == multiset{} <==> s == []
  {
    if s != [] { assert s[0] in multiset(s); }
  }

  lemma AwayFromCut(h: History, p: nat, q: nat)
    requires Paired(h) && p <= |h| && q <= |h|
    ensures var c := h[..p] + h[q..];
            && (forall i :: 0 <= i < |c| ==> RoleOk(c[i]))
            && (forall i :: 0 < i < |c| && i != p ==> Answers(c[i - 1], c[i]))
  {
    var c := h[..p] + h[q..];
    forall i | 0 <= i < |c| ensures RoleOk(c[i]) {
      assert c[i] == if i < p then h[i] else h[q + i - p];
    }
    forall i | 0 < i < |c| && i != p ensures Answers(c[i - 1], c[i]) {
      if i < p {
        assert c[i - 1] == h[i - 1] && c[i] == h[i];
      } else {
        assert c[i - 1] == h[q + i - p - 1] && c[i] == h[q + i - p];
      }
    }
  }

  /**
   Dropping the stretch between two positions keeps a paired history paired
   exactly when the results found after the cut answer the calls left in front of it.
   With `p == 0` this is about keeping a suffix, with `q == |h|` about keeping a prefix.
   */
  lemma CutIsPairedExactly(h: History, p: nat, q: nat)
    requires Paired(h) && p <= |h| && q <= |h|
    ensures Paired(h[..p] + h[q..]) <==> multiset(UsesBefore(h, p)) == multiset(ResultsAt(h, q))
  {
    var c := h[..p] + h[q..];
    EmptyMultiset(UsesBefore(h, p));
    EmptyMultiset(ResultsAt(h, q));
    AwayFromCut(h, p, q);
    if 0 < p && q < |h| {
      assert c[p - 1] == h[p - 1] && c[p] == h[q];
      assert Answers(c[p - 1], c[p]) <==> multiset(UsesBefore(h, p)) == multiset(ResultsAt(h, q));
      assert c[|c| - 1] == h[|h| - 1];
    } else if q < |h| {
      assert c[0] == h[q] && c[|c| - 1] == h[|h| - 1];
    } else if 0 < p {
      assert c == h[..p] && c[|c| - 1] == h[p - 1];
    }
  }

  /** Appending a message to an open history. */
  lemma PairedAppend(h: History, m: Message)
    requires PairedOpen(h) && RoleOk(m)
    requires multiset(Results(m)) == multiset(UsesBefore(h, |h|))
    ensures PairedOpen(h + [m])
    ensures UsesBefore(h + [m], |h| + 1) == Uses(m)
  {
    var c := h + [m];
    EmptyMultiset(Results(m));
    forall i | 0 < i < |c| ensures Answers(c[i - 1], c[i]) {
      if i < |h| {
        assert c[i - 1] == h[i - 1] && c[i] == h[i];
      }
    }
  }

  /** A paired history may be preceded by messages that neither call nor answer. */
  lemma PairedPrepend(ms: History, h: History)
    requires forall i :: 0 <= i < |ms| ==> Uses(ms[i]) == [] && Results(ms[i]) == []
    requires Paired(h)
    ensures Paired(ms + h)
  {
    var c := ms + h;
    forall i | 0 < i < |c| ensures Answers(c[i - 1], c[i]) {
      if i > |ms| {
        assert c[i - 1] == h[i - 1 - |ms|] && c[i] == h[i - |ms|];
      }
    }
  }

  // ---------- what a rewriting layer may touch ----------

  /** `b` with the text of a tool result blanked out. */
  function Skeleton(b: Block): Block {
    if b.ToolResult? then b.(body := Text("")) else b
  }

  /** Two messages that differ at most in the text of their tool results. */
  predicate SameButResultText(m: Message, n: Message) {
    && m.role == n.role
    && (m.content.Blocks? <==> n.content.Blocks?)
    && (!m.content.Blocks? ==> m == n)
    && (m.content.Blocks? ==>
          && |m.content.blocks| == |n.content.blocks|
          && forall k :: 0 <= k < |m.content.blocks| ==>
               Skeleton(m.content.blocks[k]) == Skeleton(n.content.blocks[k]))
  }

  predicate OnlyResultTextDiffers(h: History, g: History) {
    |h| == |g| && forall i :: 0 <= i < |h| ==> SameButResultText(h[i], g[i])
  }

  lemma {:induction false} SkeletonKeepsIds(a: seq<Block>, b: seq<Block>)
    requires |a| == |b|
    requires forall k :: 0 <= k < |a| ==> Skeleton(a[k]) == Skeleton(b[k])
    ensures BlockUses(a) == BlockUses(b) && BlockResults(a) == BlockResults(b)
  {
    if a != [] {
      var n := |a| - 1;
      SkeletonKeepsIds(a[..n], b[..n]);
      assert Skeleton(a[n]) == Skeleton(b[n]);
    }
  }

  lemma SameButResultTextIds(m: Message, n: Message)
    requires SameButResultText(m, n)
    ensures Uses(m) == Uses(n) && Results(m) == Results(n)
  {
    if m.content.Blocks? {
      SkeletonKeepsIds(m.content.blocks, n.content.blocks);
    }
  }

  predicate SameIds(m: Message, n: Message) {
    m.role == n.role && Uses(m) == Uses(n) && Results(m) == Results(n)
  }

  /** Histories alike in length, and message by message in role, kind of content, call and result ids. */
  predicate SameShape(h: History, g: History) {
    |h| == |g| && forall i :: 0 <= i < |h| ==>
      && SameIds(h[i], g[i])
      && (h[i].content.Blocks? <==> g[i].content.Blocks?)
      && (h[i].content.Absent? <==> g[i].content.Absent?)
  }

  /** Pairing is decided by roles, call ids and result ids alone. */
  lemma PairingDependsOnIds(h: History, g: History)
    requires |h| == |g| && forall i :: 0 <= i < |h| ==> SameIds(h[i], g[i])
    ensures PairedOpen(h) <==> PairedOpen(g)
    ensures Paired(h) <==> Paired(g)
  {
    forall i | 0 <= i < |h| ensures RoleOk(h[i]) <==> RoleOk(g[i]) {
      assert SameIds(h[i], g[i]);
    }
    forall i | 0 < i < |h| ensures Answers(h[i - 1], h[i]) <==> Answers(g[i - 1], g[i]) {
      assert SameIds(h[i - 1], g[i - 1]) && SameIds(h[i], g[i]);
    }
  }

  /** Rewriting result text never changes whether a history is paired. */
  lemma ResultTextIrrelevantToPairing(h: History, g: History)
    requires OnlyResultTextDiffers(h, g)
    ensures PairedOpen(h) <==> PairedOpen(g)
    ensures Paired(h) <==> Paired(g)
  {
    forall i | 0 <= i < |h| ensures SameIds(h[i], g[i]) {
      SameButResultTextIds(h[i], g[i]);
    }
    PairingDependsOnIds(h, g);
  }

  // ---------- turn order ----------

  /**
   The role expected at position `i` of a run without injected notes: `[u] (a u)*`
   before the first summary, `[u, a] (a u)*` after one.
   */
  function TurnRole(summarised: bool, i: nat): Role {
    if !summarised then (if i % 2 == 0 then User else Assistant)
    else if i == 0 then User
    else if i == 1 || i % 2 == 0 then Assistant
    else User
  }

  predicate TurnOk(m: Message, summarised: bool, i: nat) {
    m.role == TurnRole(summarised, i) && !m.content.Absent?
  }

  predicate InTurnOrder(h: History, summarised: bool) {
    && (summarised ==> |h| >= 2)
    && forall i :: 0 <= i < |h| ==> TurnOk(h[i], summarised, i)
  }

  /** A turn boundary: in order and ending on a user turn. */
  predicate AtBoundary(h: History, summarised: bool) {
    InTurnOrder(h, summarised) && |h| % 2 == if summarised then 0 else 1
  }
}
