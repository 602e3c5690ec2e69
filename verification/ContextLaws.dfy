/**
 What the three result-rewriting layers promise: they touch result text only, layer 2 can be
 applied incrementally, layer 1 settles, and layer 3 keeps the newest read of a file.
 */
module ContextLaws {
  import opened Decimal
  import opened Messages
  import opened Context

  // ---------- all layers: only result text ----------

  lemma RewriteKeepsSkeleton(m: Message, f: Block -> Block)
    requires forall b :: Skeleton(f(b)) == Skeleton(b)
    ensures SameButResultText(m, Rewrite(m, f))
  {
  }

  lemma TruncateTouchesResultTextOnly(h: History)
    ensures OnlyResultTextDiffers(h, Truncated(h))
  {
    forall i | 0 <= i < |h| ensures SameButResultText(h[i], Truncated(h)[i]) {
      RewriteKeepsSkeleton(h[i], TruncateBlock);
    }
  }

  lemma SnipTouchesResultTextOnly(h: History, keepRecent: int)
    ensures OnlyResultTextDiffers(h, Snipped(h, keepRecent))
  {
    forall i | 0 <= i < |h| ensures SameButResultText(h[i], Snipped(h, keepRecent)[i]) {
      RewriteKeepsSkeleton(h[i], SnipBlock);
    }
  }

  lemma RewriteByIdTouchesResultTextOnly(h: History, ids: set<string>)
    ensures OnlyResultTextDiffers(h, RewriteById(h, ids))
  {
    forall i | 0 <= i < |h| ensures SameButResultText(h[i], RewriteById(h, ids)[i]) {
      RewriteKeepsSkeleton(h[i], b => DropBlock(b, ids));
    }
  }

  lemma DropTouchesResultTextOnly(h: History, keepRecent: int)
    ensures OnlyResultTextDiffers(h, Dropped(h, keepRecent))
  {
    RewriteByIdTouchesResultTextOnly(h, StaleIds(h, Boundary(|h|, keepRecent)));
  }

  /** None of the three layers changes length, roles, calls or result ids, nor the pairing. */
  lemma LayersKeepPairing(h: History, keepRecent: int)
    ensures var g := Dropped(Snipped(Truncated(h), keepRecent), keepRecent);
            OnlyResultTextDiffers(h, g) && (Paired(h) <==> Paired(g))
  {
    var t := Truncated(h);
    var s := Snipped(t, keepRecent);
    var g := Dropped(s, keepRecent);
    TruncateTouchesResultTextOnly(h);
    SnipTouchesResultTextOnly(t, keepRecent);
    DropTouchesResultTextOnly(s, keepRecent);
    forall i | 0 <= i < |h| ensures SameButResultText(h[i], g[i]) {
      assert SameButResultText(h[i], t[i]) && SameButResultText(t[i], s[i]) && SameButResultText(s[i], g[i]);
    }
    ResultTextIrrelevantToPairing(h, g);
  }

  // ---------- block by block ----------

  /** Layer 1 leaves its mark on every oversized result text and on nothing else. */
  lemma TruncatedBlock(h: History, i: nat, k: nat)
    requires i < |h| && k < |BlocksOf(h[i])|
    ensures k < |BlocksOf(Truncated(h)[i])|
    ensures var b, c := BlocksOf(h[i])[k], BlocksOf(Truncated(h)[i])[k];
            if b.ToolResult? && b.body.Text? && |b.body.text| > 15_000
            then
              var t := b.body.text;
              var marker := "\n\n...[truncated " + Digits(|t| - 15_000) + " chars]...\n\n";
              c == ToolResult(b.useId, Text(t[..10_000] + marker + t[|t| - 5_000..]), b.isError)
            else c == b
  {
    assert BlocksOf(Truncated(h)[i])[k] == TruncateBlock(BlocksOf(h[i])[k]);
  }

  /** Layer 2 shortens the long result texts in front of the spared messages, and those only. */
  lemma SnippedBlock(h: History, keepRecent: int, i: nat, k: nat)
    requires i < |h| && k < |BlocksOf(h[i])|
    ensures k < |BlocksOf(Snipped(h, keepRecent)[i])|
    ensures var b, c := BlocksOf(h[i])[k], BlocksOf(Snipped(h, keepRecent)[i])[k];
            if b.ToolResult? && b.body.Text? && |b.body.text| > 500 && (keepRecent < 0 || i < |h| - keepRecent)
            then c == ToolResult(b.useId, Text(b.body.text[..200] + "\n...[snipped — old tool result]"), b.isError)
            else c == b
  {
    assert i < Boundary(|h|, keepRecent) <==> keepRecent < 0 || i < |h| - keepRecent;
    assert BlocksOf(Rewrite(h[i], SnipBlock))[k] == SnipBlock(BlocksOf(h[i])[k]);
  }

  // ---------- layer 2 ----------

  lemma SnipBlockTwice(b: Block)
    ensures SnipBlock(SnipBlock(b)) == SnipBlock(b)
  {
    assert |SNIPPED| < 300;
  }

  lemma SnipMessageTwice(m: Message)
    ensures Rewrite(Rewrite(m, SnipBlock), SnipBlock) == Rewrite(m, SnipBlock)
  {
    if m.content.Blocks? {
      var once := Rewrite(m, SnipBlock);
      forall k | 0 <= k < |m.content.blocks|
        ensures Rewrite(once, SnipBlock).content.blocks[k] == once.content.blocks[k]
      {
        SnipBlockTwice(m.content.blocks[k]);
      }
      assert Rewrite(once, SnipBlock).content.blocks == once.content.blocks;
    }
  }

  /**
   Snipping as the history grows: snipping a prefix first makes no difference to the final
   snip, for any `keepRecent`, because the spared region only ever moves towards the end.
   */
  lemma SnipIncremental(m: History, s: History, keepRecent: int)
    ensures Snipped(Snipped(m, keepRecent) + s, keepRecent) == Snipped(m + s, keepRecent)
  {
    var early := Snipped(m, keepRecent) + s;
    var left := Snipped(early, keepRecent);
    var right := Snipped(m + s, keepRecent);
    assert |early| == |m + s|;
    forall i | 0 <= i < |left| ensures left[i] == right[i] {
      if i < |m| {
        assert early[i] == Snipped(m, keepRecent)[i] && (m + s)[i] == m[i];
        SnipMessageTwice(m[i]);
      } else {
        assert early[i] == s[i - |m|] && (m + s)[i] == s[i - |m|];
      }
    }
  }

  /** Layer 2 changes exactly the texts over 500 characters, and keeps the first 200 of each. */
  lemma SnipTextExactly(t: string)
    ensures SnipText(t) == t <==> |t| <= 500
    ensures |SnipText(t)| <= 500 && SnipText(t)[..if |t| < 200 then |t| else 200] == t[..if |t| < 200 then |t| else 200]
  {
    assert |SNIPPED| == 31;
  }

  lemma SnipIdempotent(m: History, keepRecent: int)
    ensures Snipped(Snipped(m, keepRecent), keepRecent) == Snipped(m, keepRecent)
  {
    SnipIncremental(m, [], keepRecent);
    assert Snipped(m, keepRecent) + [] == Snipped(m, keepRecent) && m + [] == m;
  }

  // ---------- layer 1 ----------

  /** `n` applications of layer 1 to one result text. */
  function Truncations(n: nat, t: string): string {
    if n == 0 then t else TruncateText(Truncations(n - 1, t))
  }

  lemma MarkerLength(n: nat)
    ensures |Marker(n)| == 28 + |Digits(n)|
  {
  }

  /** The number in the marker determines the marker. */
  lemma MarkerInjective(a: nat, b: nat)
    requires Marker(a) == Marker(b)
    ensures a == b
  {
    MarkerLength(a);
    MarkerLength(b);
    var p := "\n\n...[truncated ";
    assert Marker(a)[|p|..|p| + |Digits(a)|] == Digits(a);
    assert Marker(b)[|p|..|p| + |Digits(b)|] == Digits(b);
    DigitsInjective(a, b);
  }

  /** `t` cut down to its ends around a marker for `n` dropped characters. */
  function Clipped(t: string, n: nat): string
    requires |t| > MAX_CHARS
  {
    t[..HEAD] + Marker(n) + t[|t| - TAIL..]
  }

  /** The number of characters dropped from a text clipped around a marker for `n`. */
  function NextNumber(n: nat): nat {
    28 + |Digits(n)|
  }

  /** Truncating a clipped text changes nothing but the number in the marker. */
  lemma TruncateClipped(t: string, n: nat)
    requires |t| > MAX_CHARS
    ensures TruncateText(Clipped(t, n)) == Clipped(t, NextNumber(n))
    ensures |Clipped(t, n)| == MAX_CHARS + 28 + |Digits(n)|
  {
    MarkerLength(n);
    var c := Clipped(t, n);
    assert c[..HEAD] == t[..HEAD];
    assert c[|c| - TAIL..] == t[|t| - TAIL..];
  }

  lemma ClippedInjective(t: string, a: nat, b: nat)
    requires |t| > MAX_CHARS && Clipped(t, a) == Clipped(t, b)
    ensures a == b
  {
    TruncateClipped(t, a);
    TruncateClipped(t, b);
    MarkerLength(a);
    MarkerLength(b);
    assert Clipped(t, a)[HEAD..HEAD + |Marker(a)|] == Marker(a);
    assert Clipped(t, b)[HEAD..HEAD + |Marker(b)|] == Marker(b);
    MarkerInjective(a, b);
  }

  /** The number in the marker after `n + 1` applications. */
  function MarkerNumber(len: nat, n: nat): nat
    requires len > MAX_CHARS
  {
    if n == 0 then len - HEAD - TAIL else NextNumber(MarkerNumber(len, n - 1))
  }

  /** Every number of applications leaves the original head and tail around one marker. */
  lemma {:induction false} TruncationsClip(n: nat, t: string)
    requires |t| > MAX_CHARS
    ensures Truncations(n + 1, t) == Clipped(t, MarkerNumber(|t|, n))
  {
    if n == 0 {
      assert Truncations(0, t) == t;
    } else {
      TruncationsClip(n - 1, t);
      TruncateClipped(t, MarkerNumber(|t|, n - 1));
    }
  }

  lemma {:induction false} Pow10Grows(e: nat)
    ensures Pow10(e) > e
  {
    if e > 0 { Pow10Grows(e - 1); }
  }

  lemma {:induction false} Pow10Dominates(e: nat)
    requires e >= 3
    ensures Pow10(e - 1) > 28 + e
  {
    if e == 3 {
      assert Pow10(2) == 10 * Pow10(1) && Pow10(1) == 10 * Pow10(0);
    } else {
      Pow10Dominates(e - 1);
    }
  }

  lemma {:induction false} MarkerNumberDigits(len: nat, n: nat)
    requires len > MAX_CHARS
    ensures |Digits(MarkerNumber(len, n))| <= Max(2, |Digits(len - MAX_CHARS)|)
  {
    if n > 0 {
      MarkerNumberDigits(len, n - 1);
      var e := Max(2, |Digits(len - MAX_CHARS)|);
      if e == 2 {
        assert Pow10(2) == 10 * Pow10(1) && Pow10(1) == 10 * Pow10(0);
      } else {
        Pow10Dominates(e);
      }
      DigitsLength(MarkerNumber(len, n), e);
    }
  }

  /**
   However often layer 1 is applied, an oversized result keeps its original first 10,000 and
   last 5,000 characters, and is at most 15,000 characters plus one marker long.
   */
  lemma TruncationKeepsEnds(n: nat, t: string)
    requires |t| > MAX_CHARS && n >= 1
    ensures var r := Truncations(n, t);
            && |r| > MAX_CHARS
            && r[..HEAD] == t[..HEAD] && r[|r| - TAIL..] == t[|t| - TAIL..]
            && |r| <= MAX_CHARS + 28 + Max(2, |Digits(|t| - MAX_CHARS)|)
  {
    TruncationsClip(n - 1, t);
    ClippedKeepsEnds(n - 1, t);
  }

  lemma ClippedKeepsEnds(n: nat, t: string)
    requires |t| > MAX_CHARS
    ensures var c := Clipped(t, MarkerNumber(|t|, n));
            && |c| > MAX_CHARS
            && c[..HEAD] == t[..HEAD] && c[|c| - TAIL..] == t[|t| - TAIL..]
            && |c| <= MAX_CHARS + 28 + Max(2, |Digits(|t| - MAX_CHARS)|)
  {
    MarkerNumberDigits(|t|, n);
    ClippedEnds(t, MarkerNumber(|t|, n));
  }

  lemma ClippedEnds(t: string, k: nat)
    requires |t| > MAX_CHARS
    ensures var c := Clipped(t, k);
            && |c| == MAX_CHARS + 28 + |Digits(k)|
            && c[..HEAD] == t[..HEAD] && c[|c| - TAIL..] == t[|t| - TAIL..]
  {
    MarkerLength(k);
  }

  lemma TwoDigits(n: nat)
    ensures |Digits(n)| <= 2 <==> n < 100
    ensures |Digits(n)| <= 1 <==> n < 10
  {
    assert Pow10(2) == 10 * Pow10(1) && Pow10(1) == 10 * Pow10(0);
    DigitsLength(n, 2);
    DigitsLength(n, 1);
  }

  /** Layer 1 is not idempotent: it leaves a truncated text alone only at length 15,030. */
  lemma TruncateIdempotentExactly(t: string)
    ensures TruncateText(TruncateText(t)) == TruncateText(t) <==> |t| <= MAX_CHARS || |t| == 15_030
  {
    if |t| > MAX_CHARS {
      var d := |t| - MAX_CHARS;
      TruncateClipped(t, d);
      TwoDigits(d);
      if NextNumber(d) == d {
        if |Digits(d)| >= 3 {
          Pow10Dominates(|Digits(d)|);
          DigitsLength(d, |Digits(d)| - 1);
        }
      }
      if Clipped(t, NextNumber(d)) == Clipped(t, d) {
        ClippedInjective(t, NextNumber(d), d);
      }
    }
  }

  lemma NextNumberSettles(d: nat)
    ensures NextNumber(NextNumber(d)) == NextNumber(NextNumber(NextNumber(d))) <==> d < Pow10(71)
  {
    var d1 := NextNumber(d);
    var d2 := NextNumber(d1);
    DigitsLength(d, 71);
    TwoDigits(d1);
    TwoDigits(d2);
    if d1 >= 100 && |Digits(d2)| >= 3 {
      Pow10Dominates(|Digits(d2)|);
      DigitsLength(d2, |Digits(d2)| - 1);
    }
  }

  lemma MarkerNumbersUnfold(len: nat)
    requires len > MAX_CHARS
    ensures MarkerNumber(len, 2) == NextNumber(NextNumber(len - MAX_CHARS))
    ensures MarkerNumber(len, 3) == NextNumber(MarkerNumber(len, 2))
  {
    assert MarkerNumber(len, 0) == len - MAX_CHARS;
    assert MarkerNumber(len, 1) == NextNumber(MarkerNumber(len, 0));
  }

  lemma MarkerNumbersSettle(len: nat)
    requires len > MAX_CHARS
    ensures MarkerNumber(len, 2) == MarkerNumber(len, 3) <==> len - MAX_CHARS < Pow10(71)
  {
    MarkerNumbersUnfold(len);
    NextNumberSettles(len - MAX_CHARS);
  }

  lemma {:induction false} ShortTextKept(n: nat, t: string)
    requires |t| <= MAX_CHARS
    ensures Truncations(n, t) == t
  {
    if n > 0 { ShortTextKept(n - 1, t); }
  }

  lemma SameNumberSameText(n: nat, t: string)
    requires |t| > MAX_CHARS
    ensures Truncations(n + 2, t) == Truncations(n + 1, t) <==>
            MarkerNumber(|t|, n) == MarkerNumber(|t|, n + 1)
  {
    TruncationsClip(n, t);
    TruncationsClip(n + 1, t);
    if Truncations(n + 2, t) == Truncations(n + 1, t) {
      ClippedInjective(t, MarkerNumber(|t|, n), MarkerNumber(|t|, n + 1));
    }
  }

  /**
   The third application settles every text whose dropped part has at most 71 decimal digits
   in its length, that is every text that fits in a computer, and only those.
   */
  lemma TruncationSettlesByThirdExactly(t: string)
    ensures Truncations(4, t) == Truncations(3, t) <==> |t| - MAX_CHARS < Pow10(71)
  {
    if |t| <= MAX_CHARS {
      ShortTextKept(3, t);
      ShortTextKept(4, t);
    } else {
      SameNumberSameText(2, t);
      MarkerNumbersSettle(|t|);
    }
  }

  // ---------- layer 3 ----------

  /** No two calls of the history carry the same id. */
  ghost predicate UniqueCallIds(h: History) {
    forall i, k, j, l ::
      && 0 <= i < |h| && 0 <= k < |BlocksOf(h[i])| && BlocksOf(h[i])[k].ToolUse?
      && 0 <= j < |h| && 0 <= l < |BlocksOf(h[j])| && BlocksOf(h[j])[l].ToolUse?
      && BlocksOf(h[i])[k].id == BlocksOf(h[j])[l].id
      ==> i == j && k == l
  }

  predicate IsRead(h: History, i: int, k: int) {
    0 <= i < |h| && 0 <= k < |BlocksOf(h[i])| && ReadPath(BlocksOf(h[i])[k]) != ""
  }

  /** A later message before the boundary reads the path again. */
  predicate ReadAgain(h: History, n: nat, i: nat, path: string)
    requires n <= |h|
  {
    exists j :: i < j < n && Reads(h[j], path) > 0
  }

  lemma StaleExactly(h: History, n: nat, i: nat, k: nat)
    requires n <= |h| && UniqueCallIds(h) && IsRead(h, i, k) && i < n
    ensures CallId(BlocksOf(h[i])[k]) in StaleIds(h, n) <==> Stale(h, n, i, k)
  {
    var id := CallId(BlocksOf(h[i])[k]);
    if id in StaleIds(h, n) {
      var i', k' :| && 0 <= i' < n && 0 <= k' < |BlocksOf(h[i'])|
                    && Stale(h, n, i', k') && CallId(BlocksOf(h[i'])[k']) == id;
      assert i' == i && k' == k;
    }
  }

  /**
   With unique call ids, the result of a read before the boundary is discarded exactly when a
   later message (before the boundary) reads the path again or its own message reads it twice.
   In particular the newest read survives exactly when its message reads the path once.
   */
  lemma NewestReadKept(h: History, keepRecent: int, i: nat, k: nat, j: nat, l: nat)
    requires UniqueCallIds(h)
    requires i < Boundary(|h|, keepRecent) && IsRead(h, i, k)
    requires j < |h| && l < |BlocksOf(h[j])| && BlocksOf(h[j])[l].ToolResult?
    requires BlocksOf(h[j])[l].useId == BlocksOf(h[i])[k].id
    ensures var n := Boundary(|h|, keepRecent);
            var path := ReadPath(BlocksOf(h[i])[k]);
            var result := BlocksOf(h[j])[l];
            BlocksOf(Dropped(h, keepRecent)[j])[l] ==
            if ReadAgain(h, n, i, path) || Reads(h[i], path) > 1 then result.(body := Text(REREAD)) else result
  {
    var n := Boundary(|h|, keepRecent);
    StaleExactly(h, n, i, k);
    ReadsInSome(BlocksOf(h[i]), ReadPath(BlocksOf(h[i])[k]));
  }

  /** The block reads the file: a `Read` call naming it. */
  predicate ReadsFile(b: Block, path: string) {
    b.ToolUse? && b.name == "Read" && "file_path" in b.input && b.input["file_path"] == path
  }

  /** Some call of the message other than number `k` reads the file. */
  predicate ReadsBesides(m: Message, k: nat, path: string) {
    exists l :: 0 <= l < |BlocksOf(m)| && l != k && ReadsFile(BlocksOf(m)[l], path)
  }

  /** A message behind `i` and in front of `n` reads the file. */
  predicate ReadBetween(h: History, i: nat, n: nat, path: string)
    requires n <= |h|
  {
    exists j, l :: i < j < n && 0 <= l < |BlocksOf(h[j])| && ReadsFile(BlocksOf(h[j])[l], path)
  }

  lemma ReadsExactly(m: Message, path: string)
    requires path != ""
    ensures Reads(m, path) > 0 <==> exists l :: 0 <= l < |BlocksOf(m)| && ReadsFile(BlocksOf(m)[l], path)
  {
    ReadsInSome(BlocksOf(m), path);
    assert forall b :: ReadsFile(b, path) <==> ReadPath(b) == path;
  }

  lemma {:induction false} ReadsTwice(bs: seq<Block>, k: nat, path: string)
    requires path != "" && k < |bs| && ReadPath(bs[k]) == path
    ensures ReadsIn(bs, path) > 1 <==> exists l :: 0 <= l < |bs| && l != k && ReadPath(bs[l]) == path
  {
    var n := |bs| - 1;
    assert forall l :: 0 <= l < n ==> bs[..n][l] == bs[l];
    if k < n {
      ReadsTwice(bs[..n], k, path);
      ReadsInSome(bs[..n], path);
    } else {
      ReadsInSome(bs[..n], path);
    }
  }

  lemma ReadAgainExactly(h: History, n: nat, i: nat, path: string)
    requires n <= |h| && path != ""
    ensures ReadAgain(h, n, i, path) <==> ReadBetween(h, i, n, path)
  {
    forall j | 0 <= j < |h|
      ensures Reads(h[j], path) > 0 <==> exists l :: 0 <= l < |BlocksOf(h[j])| && ReadsFile(BlocksOf(h[j])[l], path)
    {
      ReadsExactly(h[j], path);
    }
  }

  /**
   With unique call ids the result of reading a file in front of the spared messages is replaced exactly when
   a later message in front of them, or another call of the same message, reads the file.
   */
  lemma ReadResultReplacedExactly(h: History, keepRecent: int, i: nat, k: nat, path: string, j: nat, l: nat)
    requires UniqueCallIds(h) && keepRecent >= 0 && i < |h| - keepRecent && k < |BlocksOf(h[i])|
    requires path != "" && ReadsFile(BlocksOf(h[i])[k], path)
    requires j < |h| && l < |BlocksOf(h[j])| && BlocksOf(h[j])[l].ToolResult?
    requires BlocksOf(h[j])[l].useId == BlocksOf(h[i])[k].id
    ensures var result := BlocksOf(h[j])[l];
            BlocksOf(Dropped(h, keepRecent)[j])[l] ==
            if ReadBetween(h, i, |h| - keepRecent, path) || ReadsBesides(h[i], k, path)
            then ToolResult(result.useId, Text("[snipped — file was re-read later]"), result.isError) else result
  {
    NewestReadKept(h, keepRecent, i, k, j, l);
    ReadAgainExactly(h, |h| - keepRecent, i, path);
    ReadsTwice(BlocksOf(h[i]), k, path);
    assert forall b :: ReadsFile(b, path) <==> ReadPath(b) == path;
  }

  /** A block that is no result, or answers no read before the boundary, is left alone. */
  lemma OtherBlocksKept(h: History, keepRecent: int, j: nat, l: nat)
    requires j < |h| && l < |BlocksOf(h[j])|
    requires BlocksOf(h[j])[l].ToolResult? ==>
               forall i, k :: 0 <= i < Boundary(|h|, keepRecent) && IsRead(h, i, k) ==>
                 CallId(BlocksOf(h[i])[k]) != BlocksOf(h[j])[l].useId
    ensures BlocksOf(Dropped(h, keepRecent)[j])[l] == BlocksOf(h[j])[l]
  {
    var n := Boundary(|h|, keepRecent);
    forall id | id in StaleIds(h, n)
      ensures exists i, k :: 0 <= i < n && IsRead(h, i, k) && CallId(BlocksOf(h[i])[k]) == id
    {
      var i, k :| 0 <= i < n && 0 <= k < |BlocksOf(h[i])| && Stale(h, n, i, k) && CallId(BlocksOf(h[i])[k]) == id;
      assert IsRead(h, i, k);
    }
  }

  lemma {:induction false} ReadsUnchanged(a: seq<Block>, b: seq<Block>, path: string)
    requires |a| == |b| && forall k :: 0 <= k < |a| ==> Skeleton(a[k]) == Skeleton(b[k])
    ensures ReadsIn(a, path) == ReadsIn(b, path)
  {
    if a != [] {
      var n := |a| - 1;
      ReadsUnchanged(a[..n], b[..n], path);
      assert Skeleton(a[n]) == Skeleton(b[n]);
    }
  }

  lemma StaleUnchanged(h: History, g: History, n: nat, i: nat, k: nat)
    requires OnlyResultTextDiffers(h, g) && n <= |h| && i < n && k < |BlocksOf(h[i])|
    ensures |BlocksOf(g[i])| == |BlocksOf(h[i])|
    ensures ReadPath(BlocksOf(g[i])[k]) == ReadPath(BlocksOf(h[i])[k])
    ensures CallId(BlocksOf(g[i])[k]) == CallId(BlocksOf(h[i])[k])
    ensures Stale(h, n, i, k) <==> Stale(g, n, i, k)
  {
    assert SameButResultText(h[i], g[i]);
    assert Skeleton(BlocksOf(h[i])[k]) == Skeleton(BlocksOf(g[i])[k]);
    var path := ReadPath(BlocksOf(h[i])[k]);
    forall j | 0 <= j < n ensures Reads(h[j], path) == Reads(g[j], path) {
      assert SameButResultText(h[j], g[j]);
      ReadsUnchanged(BlocksOf(h[j]), BlocksOf(g[j]), path);
    }
  }

  lemma StaleIdsUnchanged(h: History, g: History, n: nat)
    requires OnlyResultTextDiffers(h, g) && n <= |h|
    ensures StaleIds(h, n) == StaleIds(g, n)
  {
    forall id | id in StaleIds(h, n) ensures id in StaleIds(g, n) {
      var i, k :| 0 <= i < n && 0 <= k < |BlocksOf(h[i])| && Stale(h, n, i, k) && CallId(BlocksOf(h[i])[k]) == id;
      StaleUnchanged(h, g, n, i, k);
    }
    forall id | id in StaleIds(g, n) ensures id in StaleIds(h, n) {
      var i, k :| 0 <= i < n && 0 <= k < |BlocksOf(g[i])| && Stale(g, n, i, k) && CallId(BlocksOf(g[i])[k]) == id;
      assert SameButResultText(h[i], g[i]);
      StaleUnchanged(h, g, n, i, k);
    }
  }

  /** Layer 3 is idempotent on every history. */
  lemma DropIdempotent(h: History, keepRecent: int)
    ensures Dropped(Dropped(h, keepRecent), keepRecent) == Dropped(h, keepRecent)
  {
    var g := Dropped(h, keepRecent);
    var n := Boundary(|h|, keepRecent);
    DropTouchesResultTextOnly(h, keepRecent);
    StaleIdsUnchanged(h, g, n);
    var again := Dropped(g, keepRecent);
    forall i | 0 <= i < |g| ensures again[i] == g[i] {
      if g[i].content.Blocks? {
        assert again[i].content.blocks == g[i].content.blocks;
      }
    }
  }
}
