/**
 Compaction layers 1-3: rewriting the text of tool results so that a history
 takes fewer tokens. Each layer is a loop over messages and blocks, proved
 against a function; the lemmas are about those functions.
 */
module Context {
  import opened Decimal
  import opened Messages

  function Max(a: int, b: int): int {
    if a < b then b else a
  }

  /**
   First index of the region that layers 2 and 3 spare: `max(0, n - keepRecent)`, and `n`
   when a negative `keepRecent` puts that past the end.
   */
  function Boundary(n: nat, keepRecent: int): (b: nat)
    ensures b <= n
  {
    if keepRecent < 0 then n else Max(0, n - keepRecent)
  }

  lemma TakeAll<T>(s: seq<T>)
    ensures s[..|s|] == s
  {
  }

  /** A block-wise rewriting of one message. */
  function Rewrite(m: Message, f: Block -> Block): (r: Message)
    ensures m.content.Blocks? ==> r.content.Blocks? && |r.content.blocks| == |m.content.blocks|
  {
    if m.content.Blocks? then
      m.(content := Blocks(seq(|m.content.blocks|, k requires 0 <= k < |m.content.blocks| => f(m.content.blocks[k]))))
    else m
  }

  // ---------- layer 1 ----------

  const MAX_CHARS: nat := 15_000
  const HEAD: nat := 10_000
  const TAIL: nat := 5_000

  function Marker(dropped: nat): string {
    "\n\n...[truncated " + Digits(dropped) + " chars]...\n\n"
  }

  function TruncateText(t: string): string {
    if |t| > MAX_CHARS
    then t[..HEAD] + Marker(|t| - HEAD - TAIL) + t[|t| - TAIL..]
    else t
  }

  function TruncateBlock(b: Block): Block {
    if b.ToolResult? && b.body.Text? then b.(body := Text(TruncateText(b.body.text))) else b
  }

  function Truncated(h: History): (r: History)
    ensures |r| == |h|
  {
    seq(|h|, i requires 0 <= i < |h| => Rewrite(h[i], TruncateBlock))
  }

  method TruncateLongToolResults(messages: History) returns (result: History)
    ensures result == Truncated(messages)
  {
    result := [];
    for i := 0 to |messages|
      invariant result == Truncated(messages)[..i]
    {
      var msg := messages[i];
      if msg.content.Blocks? {
        var blocks := msg.content.blocks;
        var newBlocks: seq<Block> := [];
        for k := 0 to |blocks|
          invariant |newBlocks| == k && forall j :: 0 <= j < k ==> newBlocks[j] == TruncateBlock(blocks[j])
        {
          var block := blocks[k];
          if block.ToolResult? && block.body.Text? && |block.body.text| > MAX_CHARS {
            var text := block.body.text;
            block := block.(body := Text(text[..HEAD] + Marker(|text| - HEAD - TAIL) + text[|text| - TAIL..]));
          }
          assert block == TruncateBlock(blocks[k]);
          newBlocks := newBlocks + [block];
        }
        assert msg.(content := Blocks(newBlocks)) == Rewrite(msg, TruncateBlock);
        result := result + [msg.(content := Blocks(newBlocks))];
      } else {
        result := result + [msg];
      }
    }
    TakeAll(Truncated(messages));
  }

  // ---------- layer 2 ----------

  const SNIPPED: string := "\n...[snipped — old tool result]"

  function SnipText(t: string): string {
    if |t| > 500 then t[..200] + SNIPPED else t
  }

  function SnipBlock(b: Block): Block {
    if b.ToolResult? && b.body.Text? then b.(body := Text(SnipText(b.body.text))) else b
  }

  function Snipped(h: History, keepRecent: int): (r: History)
    ensures |r| == |h|
  {
    seq(|h|, i requires 0 <= i < |h| => if i >= Boundary(|h|, keepRecent) then h[i] else Rewrite(h[i], SnipBlock))
  }

  method SnipOldToolResults(messages: History, keepRecent: int) returns (result: History)
    ensures result == Snipped(messages, keepRecent)
  {
    var boundary := Boundary(|messages|, keepRecent);
    result := [];
    for i := 0 to |messages|
      invariant result == Snipped(messages, keepRecent)[..i]
    {
      var msg := messages[i];
      if i >= boundary {
        result := result + [msg];
        continue;
      }
      if msg.content.Blocks? {
        var blocks := msg.content.blocks;
        var newBlocks: seq<Block> := [];
        for k := 0 to |blocks|
          invariant |newBlocks| == k && forall j :: 0 <= j < k ==> newBlocks[j] == SnipBlock(blocks[j])
        {
          var block := blocks[k];
          if block.ToolResult? && block.body.Text? && |block.body.text| > 500 {
            block := block.(body := Text(block.body.text[..200] + SNIPPED));
          }
          newBlocks := newBlocks + [block];
        }
        assert newBlocks == Rewrite(msg, SnipBlock).content.blocks;
        result := result + [msg.(content := Blocks(newBlocks))];
      } else {
        result := result + [msg];
      }
    }
    TakeAll(Snipped(messages, keepRecent));
  }

  // ---------- layer 3 ----------

  const REREAD: string := "[snipped — file was re-read later]"

  /** The path a block reads, or "" when it is not a `Read` call naming one. */
  function ReadPath(b: Block): string {
    if b.ToolUse? && b.name == "Read" && "file_path" in b.input then b.input["file_path"] else ""
  }

  function ReadsIn(bs: seq<Block>, path: string): nat {
    if bs == [] then 0
    else ReadsIn(bs[..|bs| - 1], path) + if ReadPath(bs[|bs| - 1]) == path then 1 else 0
  }

  /** How often one message reads a path. */
  function Reads(m: Message, path: string): nat {
    ReadsIn(BlocksOf(m), path)
  }

  lemma {:induction false} ReadsInSome(bs: seq<Block>, path: string)
    ensures ReadsIn(bs, path) > 0 <==> exists k :: 0 <= k < |bs| && ReadPath(bs[k]) == path
  {
    if bs != [] {
      var n := |bs| - 1;
      ReadsInSome(bs[..n], path);
      if ReadsIn(bs[..n], path) > 0 {
        var k :| 0 <= k < n && ReadPath(bs[..n][k]) == path;
        assert ReadPath(bs[k]) == path;
      }
      if exists k :: 0 <= k < n && ReadPath(bs[k]) == path {
        var k :| 0 <= k < n && ReadPath(bs[k]) == path;
        assert bs[..n][k] == bs[k];
      }
    }
  }

  function Repeat(i: nat, n: nat): (r: seq<nat>)
    ensures |r| == n && forall j :: 0 <= j < n ==> r[j] == i
  {
    seq(n, _ => i)
  }

  /** Message indices of the reads of `path` among the first `n` messages, with repetition. */
  function Positions(h: History, n: nat, path: string): seq<nat>
    requires n <= |h|
  {
    if n == 0 then [] else Positions(h, n - 1, path) + Repeat(n - 1, Reads(h[n - 1], path))
  }

  /**
   Message `i` reads `path` and that read is not the last one before position `n`: a later
   message reads it again, or message `i` itself does.
   */
  predicate Superseded(h: History, n: nat, i: nat, path: string)
    requires n <= |h|
  {
    && i < n
    && Reads(h[i], path) > 0
    && (Reads(h[i], path) > 1 || exists j :: i < j < n && Reads(h[j], path) > 0)
  }

  lemma {:induction false} PositionsMember(h: History, n: nat, path: string, i: nat)
    requires n <= |h|
    ensures i in Positions(h, n, path) <==> i < n && Reads(h[i], path) > 0
  {
    if n > 0 {
      PositionsMember(h, n - 1, path, i);
      var tail := Repeat(n - 1, Reads(h[n - 1], path));
      assert i in tail <==> i == n - 1 && Reads(h[i], path) > 0 by {
        if tail != [] { assert tail[0] == n - 1; }
      }
    }
  }

  lemma RepeatMember(x: nat, n: nat, i: nat)
    ensures i in Repeat(x, n) <==> i == x && n > 0
  {
    if n > 0 { assert Repeat(x, n)[0] == x; }
  }

  /** How often each of the first `n` messages reads the path. */
  function ReadCounts(h: History, n: nat, path: string): (cs: seq<nat>)
    requires n <= |h|
    ensures |cs| == n && forall j :: 0 <= j < n ==> cs[j] == Reads(h[j], path)
  {
    seq(n, j requires 0 <= j < n => Reads(h[j], path))
  }

  function PositionsOf(cs: seq<nat>): seq<nat> {
    if cs == [] then [] else PositionsOf(cs[..|cs| - 1]) + Repeat(|cs| - 1, cs[|cs| - 1])
  }

  lemma {:induction false} PositionsByCount(h: History, n: nat, path: string)
    requires n <= |h|
    ensures Positions(h, n, path) == PositionsOf(ReadCounts(h, n, path))
  {
    if n > 0 {
      PositionsByCount(h, n - 1, path);
      assert ReadCounts(h, n, path)[..n - 1] == ReadCounts(h, n - 1, path);
    }
  }

  predicate SupersededAt(cs: seq<nat>, i: nat) {
    i < |cs| && cs[i] > 0 && (cs[i] > 1 || exists j :: i < j < |cs| && cs[j] > 0)
  }

  lemma {:induction false} PositionsOfMember(cs: seq<nat>, i: nat)
    ensures i in PositionsOf(cs) <==> i < |cs| && cs[i] > 0
  {
    if cs != [] {
      var n := |cs| - 1;
      PositionsOfMember(cs[..n], i);
      RepeatMember(n, cs[n], i);
    }
  }

  lemma {:induction false} AllButLastByCount(cs: seq<nat>, i: nat)
    ensures AllButLast(PositionsOf(cs), i) <==> SupersededAt(cs, i)
  {
    if cs != [] {
      var n := |cs| - 1;
      AllButLastStep(PositionsOf(cs[..n]), n, cs[n], i);
      if cs[n] == 0 {
        AllButLastByCount(cs[..n], i);
      } else {
        PositionsOfMember(cs[..n], i);
      }
    }
  }

  /** All indices but the last are exactly the superseded ones. */
  lemma AllButLastSuperseded(h: History, n: nat, path: string, i: nat)
    requires n <= |h|
    ensures AllButLast(Positions(h, n, path), i) <==> Superseded(h, n, i, path)
  {
    PositionsByCount(h, n, path);
    AllButLastByCount(ReadCounts(h, n, path), i);
  }

  lemma AllButLastStep(before: seq<nat>, x: nat, c: nat, i: nat)
    ensures AllButLast(before + Repeat(x, c), i) <==>
            if c == 0 then AllButLast(before, i) else i in before || (i == x && c > 1)
  {
    var ps := before + Repeat(x, c);
    if c == 0 {
      assert ps == before;
    } else {
      assert ps[..|ps| - 1] == before + Repeat(x, c - 1);
      RepeatMember(x, c - 1, i);
    }
  }

  predicate AllButLast(ps: seq<nat>, i: nat) {
    ps != [] && i in ps[..|ps| - 1]
  }

  /** Block `k` of message `i` is a read whose result layer 3 discards. */
  predicate Stale(h: History, n: nat, i: nat, k: nat)
    requires n <= |h| && i < n && k < |BlocksOf(h[i])|
  {
    var path := ReadPath(BlocksOf(h[i])[k]);
    path != "" && Superseded(h, n, i, path)
  }

  /** Ids of all superseded reads among the first `n` messages. */
  function StaleIds(h: History, n: nat): set<string>
    requires n <= |h|
  {
    set i, k | 0 <= i < n && 0 <= k < |BlocksOf(h[i])| && Stale(h, n, i, k) :: CallId(BlocksOf(h[i])[k])
  }

  function DropBlock(b: Block, ids: set<string>): Block {
    if b.ToolResult? && b.useId in ids then b.(body := Text(REREAD)) else b
  }

  function RewriteById(h: History, ids: set<string>): (r: History)
    ensures |r| == |h|
  {
    seq(|h|, i requires 0 <= i < |h| => Rewrite(h[i], b => DropBlock(b, ids)))
  }

  function Dropped(h: History, keepRecent: int): (r: History)
    ensures |r| == |h|
  {
    RewriteById(h, StaleIds(h, Boundary(|h|, keepRecent)))
  }

  /** The read positions recorded so far, with a missing path reading as no position. */
  function Recorded(readPositions: map<string, seq<nat>>, path: string): seq<nat> {
    if path in readPositions then readPositions[path] else []
  }

  lemma {:induction false} NothingToDrop(h: History)
    ensures RewriteById(h, {}) == h
  {
    forall i | 0 <= i < |h| ensures RewriteById(h, {})[i] == h[i] {
      if h[i].content.Blocks? {
        assert Rewrite(h[i], b => DropBlock(b, {})).content.blocks == h[i].content.blocks;
      }
    }
  }

  /** Positions of the reads of `path` up to block `k` of message `i`. */
  function PositionsUpTo(h: History, i: nat, k: nat, path: string): seq<nat>
    requires i < |h| && k <= |BlocksOf(h[i])|
  {
    Positions(h, i, path) + Repeat(i, ReadsIn(BlocksOf(h[i])[..k], path))
  }

  lemma PositionsUpToStep(h: History, i: nat, k: nat, path: string)
    requires i < |h| && k < |BlocksOf(h[i])|
    ensures PositionsUpTo(h, i, k + 1, path) ==
            PositionsUpTo(h, i, k, path) + if ReadPath(BlocksOf(h[i])[k]) == path then [i] else []
  {
    var bs := BlocksOf(h[i]);
    assert bs[..k + 1][..k] == bs[..k];
  }

  /** The dictionary of the first pass after `k` blocks of message `i`. */
  ghost predicate Records(readPositions: map<string, seq<nat>>, h: History, i: nat, k: nat)
    requires i < |h| && k <= |BlocksOf(h[i])|
  {
    && "" !in readPositions
    && forall path :: path != "" ==> Recorded(readPositions, path) == PositionsUpTo(h, i, k, path)
  }

  /** The dictionary of the first pass after the first `n` messages. */
  ghost predicate RecordsAll(readPositions: map<string, seq<nat>>, h: History, n: nat)
    requires n <= |h|
  {
    && "" !in readPositions
    && forall path :: path != "" ==> Recorded(readPositions, path) == Positions(h, n, path)
  }

  lemma RecordsStep(readPositions: map<string, seq<nat>>, h: History, i: nat, k: nat)
    requires i < |h| && k < |BlocksOf(h[i])| && Records(readPositions, h, i, k)
    ensures var fp := ReadPath(BlocksOf(h[i])[k]);
            Records(if fp != "" then readPositions[fp := Recorded(readPositions, fp) + [i]] else readPositions,
                    h, i, k + 1)
  {
    var fp := ReadPath(BlocksOf(h[i])[k]);
    var next := if fp != "" then readPositions[fp := Recorded(readPositions, fp) + [i]] else readPositions;
    forall path | path != "" ensures Recorded(next, path) == PositionsUpTo(h, i, k + 1, path) {
      PositionsUpToStep(h, i, k, path);
    }
  }

  lemma RecordsEnd(readPositions: map<string, seq<nat>>, h: History, i: nat)
    requires i < |h| && Records(readPositions, h, i, |BlocksOf(h[i])|)
    ensures RecordsAll(readPositions, h, i + 1)
  {
    TakeAll(BlocksOf(h[i]));
  }

  method CollectReadPositions(messages: History, boundary: nat) returns (readPositions: map<string, seq<nat>>)
    requires boundary <= |messages|
    ensures RecordsAll(readPositions, messages, boundary)
  {
    readPositions := map[];
    for i := 0 to boundary
      invariant RecordsAll(readPositions, messages, i)
    {
      var blocks := BlocksOf(messages[i]);
      for k := 0 to |blocks|
        invariant Records(readPositions, messages, i, k)
      {
        RecordsStep(readPositions, messages, i, k);
        var fp := ReadPath(blocks[k]);
        if fp != "" {
          readPositions := readPositions[fp := Recorded(readPositions, fp) + [i]];
        }
      }
      RecordsEnd(readPositions, messages, i);
    }
  }

  /** Every superseded read of `path` has its id in `ids`. */
  predicate HasStaleOf(ids: set<string>, h: History, n: nat, path: string)
    requires n <= |h|
  {
    forall i, k | 0 <= i < n && 0 <= k < |BlocksOf(h[i])| ::
      Stale(h, n, i, k) && ReadPath(BlocksOf(h[i])[k]) == path ==> CallId(BlocksOf(h[i])[k]) in ids
  }

  lemma StaleIsRecorded(readPositions: map<string, seq<nat>>, h: History, n: nat, i: nat, k: nat)
    requires n <= |h| && RecordsAll(readPositions, h, n)
    requires i < n && k < |BlocksOf(h[i])| && Stale(h, n, i, k)
    ensures ReadPath(BlocksOf(h[i])[k]) in readPositions
  {
    PositionsMember(h, n, ReadPath(BlocksOf(h[i])[k]), i);
  }

  /** Ids of the reads of `path` in one message. */
  function ReadIds(m: Message, path: string): set<string> {
    set k | 0 <= k < |BlocksOf(m)| && ReadPath(BlocksOf(m)[k]) == path :: CallId(BlocksOf(m)[k])
  }

  method CollectReadIds(msg: Message, fp: string) returns (ids: set<string>)
    requires fp != ""
    ensures ids == ReadIds(msg, fp)
  {
    ids := {};
    var blocks := BlocksOf(msg);
    for k := 0 to |blocks|
      invariant ids == set l | 0 <= l < k && ReadPath(blocks[l]) == fp :: CallId(blocks[l])
    {
      if ReadPath(blocks[k]) == fp {
        ids := ids + {blocks[k].id};
      }
    }
  }

  /** The ids of all reads of `fp` at the condemned positions, that is at all but the last. */
  method SnipIdsOfPath(messages: History, boundary: nat, fp: string, indices: seq<nat>) returns (ids: set<string>)
    requires boundary <= |messages| && fp != ""
    requires indices == Positions(messages, boundary, fp)
    ensures ids <= StaleIds(messages, boundary)
    ensures HasStaleOf(ids, messages, boundary, fp)
  {
    ids := {};
    if |indices| > 1 {
      for x := 0 to |indices| - 1
        invariant ids <= StaleIds(messages, boundary)
        invariant forall y | 0 <= y < x :: indices[y] < boundary && ReadIds(messages[indices[y]], fp) <= ids
      {
        CondemnedIsStale(messages, boundary, fp, x);
        var found := CollectReadIds(messages[indices[x]], fp);
        ids := ids + found;
      }
    }
    CondemnedCoverStale(messages, boundary, fp, indices, ids);
  }

  /** Each position but the last holds only superseded reads of the path. */
  lemma CondemnedIsStale(h: History, n: nat, fp: string, x: nat)
    requires n <= |h| && fp != "" && x + 1 < |Positions(h, n, fp)|
    ensures var idx := Positions(h, n, fp)[x];
            idx < n && ReadIds(h[idx], fp) <= StaleIds(h, n)
  {
    var indices := Positions(h, n, fp);
    var idx := indices[x];
    assert AllButLast(indices, idx) by { assert indices[..|indices| - 1][x] == idx; }
    AllButLastSuperseded(h, n, fp, idx);
    forall id | id in ReadIds(h[idx], fp) ensures id in StaleIds(h, n) {
      var k :| 0 <= k < |BlocksOf(h[idx])| && ReadPath(BlocksOf(h[idx])[k]) == fp && CallId(BlocksOf(h[idx])[k]) == id;
      assert Stale(h, n, idx, k);
    }
  }

  lemma CondemnedCoverStale(h: History, n: nat, fp: string, indices: seq<nat>, ids: set<string>)
    requires n <= |h| && indices == Positions(h, n, fp)
    requires forall y | 0 <= y < |indices| - 1 :: indices[y] < n && ReadIds(h[indices[y]], fp) <= ids
    ensures HasStaleOf(ids, h, n, fp)
  {
    forall i, k | 0 <= i < n && 0 <= k < |BlocksOf(h[i])| && Stale(h, n, i, k) && ReadPath(BlocksOf(h[i])[k]) == fp
      ensures CallId(BlocksOf(h[i])[k]) in ids
    {
      SupersededIsCondemned(h, n, fp, i);
      assert CallId(BlocksOf(h[i])[k]) in ReadIds(h[i], fp);
    }
  }

  lemma SupersededIsCondemned(h: History, n: nat, fp: string, i: nat)
    requires n <= |h| && Superseded(h, n, i, fp)
    ensures var indices := Positions(h, n, fp);
            exists y :: 0 <= y < |indices| - 1 && indices[y] == i
  {
    var indices := Positions(h, n, fp);
    AllButLastSuperseded(h, n, fp, i);
    var y :| 0 <= y < |indices| - 1 && indices[..|indices| - 1][y] == i;
    assert indices[y] == i;
  }

  method CollectSnipIds(messages: History, boundary: nat, readPositions: map<string, seq<nat>>)
    returns (snipIds: set<string>)
    requires boundary <= |messages| && RecordsAll(readPositions, messages, boundary)
    ensures snipIds == StaleIds(messages, boundary)
  {
    snipIds := {};
    var todo := readPositions.Keys;
    while todo != {}
      invariant todo <= readPositions.Keys
      invariant snipIds <= StaleIds(messages, boundary)
      invariant forall fp | fp in readPositions && fp !in todo :: HasStaleOf(snipIds, messages, boundary, fp)
      decreases todo
    {
      var fp :| fp in todo;
      var ids := SnipIdsOfPath(messages, boundary, fp, readPositions[fp]);
      snipIds := snipIds + ids;
      todo := todo - {fp};
    }
    forall id | id in StaleIds(messages, boundary) ensures id in snipIds {
      var i, k :| 0 <= i < boundary && 0 <= k < |BlocksOf(messages[i])|
        && Stale(messages, boundary, i, k) && CallId(BlocksOf(messages[i])[k]) == id;
      StaleIsRecorded(readPositions, messages, boundary, i, k);
      assert HasStaleOf(snipIds, messages, boundary, ReadPath(BlocksOf(messages[i])[k]));
    }
  }

  /** The second pass of layer 3. */
  method SnipById(messages: History, snipIds: set<string>) returns (result: History)
    ensures result == RewriteById(messages, snipIds)
  {
    result := [];
    for i := 0 to |messages|
      invariant |result| == i && forall j :: 0 <= j < i ==> result[j] == RewriteById(messages, snipIds)[j]
    {
      var msg := messages[i];
      if msg.content.Blocks? {
        var blocks := msg.content.blocks;
        var newBlocks: seq<Block> := [];
        for k := 0 to |blocks|
          invariant |newBlocks| == k && forall j :: 0 <= j < k ==> newBlocks[j] == DropBlock(blocks[j], snipIds)
        {
          var block := blocks[k];
          if block.ToolResult? && block.useId in snipIds {
            block := block.(body := Text(REREAD));
          }
          newBlocks := newBlocks + [block];
        }
        assert newBlocks == Rewrite(msg, b => DropBlock(b, snipIds)).content.blocks;
        result := result + [msg.(content := Blocks(newBlocks))];
      } else {
        result := result + [msg];
      }
    }
  }

  method DropRedundantReads(messages: History, keepRecent: int) returns (result: History)
    ensures result == Dropped(messages, keepRecent)
  {
    var boundary := Boundary(|messages|, keepRecent);
    var readPositions := CollectReadPositions(messages, boundary);
    var snipIds := CollectSnipIds(messages, boundary, readPositions);
    if snipIds == {} {
      NothingToDrop(messages);
      return messages;
    }
    result := SnipById(messages, snipIds);
  }
}
