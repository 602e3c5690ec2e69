/**
 Pairing over whole runs: which lists the loop hands out, saves, or holds while suspended.
 */
module RunSafety {
  import opened Basics
  import opened Messages
  import opened Context
  import opened ContextLaws
  import opened AgentSpec

  /**
   What is relied on of providers and tools: a reply never contains a tool result, and a tool that
   rewrites the list while it runs keeps its shape.
   */
  ghost predicate EnvOk(env: Env) {
    && (forall n: nat :: env.reply(n).Response? ==> BlockResults(env.reply(n).blocks) == [])
    && (forall turn: nat, h: History {:trigger env.edited(turn, h)} :: SameShape(h, env.edited(turn, h)))
  }

  /**
   A list handed out, saved or held between turns is paired; one held while suspended may lack the last
   results.
   */
  predicate Safe(e: Event) {
    match e
    case Call(l) => Paired(l)
    case Saved(l) => Paired(l)
    case Held(l) => Paired(l)
    case Pause(l) => PairedOpen(l)
    case _ => true
  }

  /**
   The parts a compaction keeps fit together: they do not open with results, and the results after the
   gap between them answer the calls in front of it.
   */
  predicate NetClean(h: History, p: nat, b: nat, c: nat) {
    && p <= b <= |h| && c <= |h|
    && if p == b then ResultsAt(h, c) == []
       else ResultsAt(h, p) == [] && multiset(UsesBefore(h, b)) == multiset(ResultsAt(h, c))
  }

  /** The compaction in all splits no call from its results; the truncated turn made no calls. */
  predicate Clean(e: Event) {
    match e
    case Net(l, p, b, c) => NetClean(l, p, b, c)
    case TextReply(m) => Uses(m) == []
    case _ => true
  }

  predicate AllSafe(log: seq<Event>) {
    forall i :: 0 <= i < |log| ==> Safe(log[i])
  }

  predicate AllClean(log: seq<Event>) {
    forall i :: 0 <= i < |log| ==> Clean(log[i])
  }

  predicate Good(st: State) {
    Paired(st.messages) && AllSafe(st.log)
  }

  // ---------- each cut, exactly ----------

  lemma SuffixPairedExactly(h: History, q: nat)
    requires Paired(h) && q <= |h|
    ensures Paired(h[q..]) <==> ResultsAt(h, q) == []
  {
    CutIsPairedExactly(h, 0, q);
    EmptyMultiset(ResultsAt(h, q));
    assert h[..0] + h[q..] == h[q..];
  }

  /** Layer 4 keeps pairing exactly when the kept part does not start with results. */
  lemma SummaryCutExactly(h: History, q: nat, compactions: nat, text: string)
    requires Paired(h) && q <= |h|
    ensures Paired(SummaryMessages(compactions, text) + h[q..]) <==> ResultsAt(h, q) == []
  {
    SuffixPairedExactly(h, q);
    var ms := SummaryMessages(compactions, text);
    if ResultsAt(h, q) == [] {
      PairedPrepend(ms, h[q..]);
    } else {
      SummaryBeforeResults(h[q..], ms);
    }
  }

  lemma SummaryBeforeResults(kept: History, ms: History)
    requires kept != [] && |ms| == 2 && Uses(ms[1]) == [] && Results(kept[0]) != []
    ensures !Paired(ms + kept)
  {
    var c := ms + kept;
    EmptyMultiset(Results(kept[0]));
    assert c[1] == ms[1] && c[2] == kept[0];
    assert !Answers(c[1], c[2]);
  }

  /** The fallback after a failed summary keeps the newer half. */
  lemma FallbackCutExactly(h: History)
    requires Paired(h)
    ensures Paired(h[|h| / 2..]) <==> ResultsAt(h, |h| / 2) == []
  {
    SuffixPairedExactly(h, |h| / 2);
  }

  /** Emergency truncation, overlapping or not. */
  lemma EmergencyCutExactly(h: History, keepRecent: int)
    requires Paired(h)
    ensures Paired(Emergency(h, keepRecent)) <==>
            multiset(UsesBefore(h, Min(2, |h|))) == multiset(ResultsAt(h, EmergencyTail(h, keepRecent)))
  {
    CutIsPairedExactly(h, Min(2, |h|), EmergencyTail(h, keepRecent));
  }

  /** Messages that neither call nor answer. */
  predicate Plain(ms: History) {
    forall i :: 0 <= i < |ms| ==> Uses(ms[i]) == [] && Results(ms[i]) == []
  }

  lemma PlainFrontExactly(ms: History, h: History)
    requires Plain(ms)
    ensures Paired(ms + h) <==> Paired(h)
  {
    if Paired(h) {
      PairedPrepend(ms, h);
    } else if Paired(ms + h) {
      PairedBehind(ms, h);
    }
  }

  lemma PairedBehind(ms: History, h: History)
    requires Plain(ms) && Paired(ms + h)
    ensures Paired(h)
  {
    var c := ms + h;
    forall i | 0 <= i < |h| ensures RoleOk(h[i]) { assert c[|ms| + i] == h[i]; }
    forall i | 0 < i < |h| ensures Answers(h[i - 1], h[i]) {
      assert c[|ms| + i - 1] == h[i - 1] && c[|ms| + i] == h[i];
      assert Answers(c[|ms| + i - 1], c[|ms| + i]);
    }
    if h != [] {
      assert c[|c| - 1] == h[|h| - 1] && c[|ms|] == h[0];
      if ms != [] {
        assert Answers(c[|ms| - 1], c[|ms|]) && c[|ms| - 1] == ms[|ms| - 1];
        EmptyMultiset(Results(h[0]));
      }
    }
  }

  /** What a compaction keeps of a paired list is paired exactly when its parts fit together. */
  lemma NetCutExactly(ms: History, h: History, p: nat, b: nat, c: nat)
    requires Plain(ms) && Paired(h) && p <= b <= |h| && c <= |h| && (p < b ==> p <= c)
    ensures Paired(ms + (h[p..b] + h[c..])) <==> NetClean(h, p, b, c)
  {
    PlainFrontExactly(ms, h[p..b] + h[c..]);
    if p == b {
      assert h[p..b] + h[c..] == h[c..];
      SuffixPairedExactly(h, c);
    } else {
      TwoPartsExactly(h, p, b, c);
    }
  }

  /** Cutting a suffix is cutting the list. */
  lemma CutOfSuffix(h: History, p: nat, b: nat, c: nat)
    requires p < b <= |h| && p <= c <= |h|
    ensures h[p..][..b - p] == h[p..b] && h[p..][c - p..] == h[c..]
    ensures UsesBefore(h[p..], b - p) == UsesBefore(h, b) && ResultsAt(h[p..], c - p) == ResultsAt(h, c)
  {
  }

  lemma PartsOpenWithoutResults(h: History, p: nat, b: nat, c: nat)
    requires p < b <= |h| && c <= |h| && Paired(h[p..b] + h[c..])
    ensures ResultsAt(h, p) == []
  {
    assert (h[p..b] + h[c..])[0] == h[p];
  }

  lemma CleanPartsExactly(h: History, p: nat, b: nat, c: nat)
    requires Paired(h) && p < b <= |h| && p <= c <= |h| && ResultsAt(h, p) == []
    ensures Paired(h[p..b] + h[c..]) <==> multiset(UsesBefore(h, b)) == multiset(ResultsAt(h, c))
  {
    SuffixPairedExactly(h, p);
    CutOfSuffix(h, p, b, c);
    CutIsPairedExactly(h[p..], b - p, c - p);
  }

  lemma TwoPartsExactly(h: History, p: nat, b: nat, c: nat)
    requires Paired(h) && p < b <= |h| && p <= c <= |h|
    ensures Paired(h[p..b] + h[c..]) <==>
            ResultsAt(h, p) == [] && multiset(UsesBefore(h, b)) == multiset(ResultsAt(h, c))
  {
    if ResultsAt(h, p) == [] {
      CleanPartsExactly(h, p, b, c);
    } else if Paired(h[p..b] + h[c..]) {
      PartsOpenWithoutResults(h, p, b, c);
      assert false;
    }
  }

  /** Answering a turn with text keeps pairing exactly when the turn made no calls. */
  lemma TextReplyExactly(h: History, turn: Message, text: string)
    requires Paired(h) && RoleOk(turn) && turn.role == Assistant
    ensures Paired(h + [turn] + [UserText(text)]) <==> Uses(turn) == []
  {
    var c := h + [turn] + [UserText(text)];
    EmptyMultiset(Uses(turn));
    PairedAppend(h, turn);
    if Uses(turn) == [] {
      PairedAppend(h + [turn], UserText(text));
    } else {
      assert c[|h|] == turn && c[|h| + 1] == UserText(text);
      assert Paired(c) ==> Answers(c[|h|], c[|h| + 1]);
    }
  }

  // ---------- tools ----------

  lemma {:induction false} CallsOfIds(bs: seq<Block>)
    ensures BlockUses(CallsOf(bs)) == BlockUses(bs)
  {
    if bs != [] {
      var n := |bs| - 1;
      CallsOfIds(bs[..n]);
      if bs[n].ToolUse? {
        assert CallsOf(bs)[..|CallsOf(bs)| - 1] == CallsOf(bs[..n]);
      } else {
        assert CallsOf(bs) == CallsOf(bs[..n]);
      }
    }
  }

  lemma {:induction false} UsesOfConcat(a: seq<Block>, b: seq<Block>)
    ensures BlockUses(a + b) == BlockUses(a) + BlockUses(b)
  {
    if b == [] {
      assert a + b == a;
    } else {
      var n := |b| - 1;
      assert (a + b)[..|a + b| - 1] == a + b[..n];
      UsesOfConcat(a, b[..n]);
    }
  }

  /** Reordering calls by tool class loses and repeats none of them. */
  lemma {:induction false} ExecutionOrderIsPermutation(env: Env, calls: seq<Block>)
    requires forall i :: 0 <= i < |calls| ==> calls[i].ToolUse?
    ensures multiset(ExecutionOrder(env, calls)) == multiset(calls)
  {
    if calls != [] {
      var n := |calls| - 1;
      ExecutionOrderIsPermutation(env, calls[..n]);
      assert calls == calls[..n] + [calls[n]];
    }
  }

  predicate Writes(env: Env, call: Block)
    requires call.ToolUse?
  {
    env.toolKind(call.name) == WritingTool
  }

  predicate OneClass(env: Env, cs: seq<Block>, writing: bool) {
    forall i :: 0 <= i < |cs| ==> cs[i].ToolUse? && Writes(env, cs[i]) == writing
  }

  lemma {:induction false} SelectIsOneClass(env: Env, calls: seq<Block>, writing: bool)
    requires forall i :: 0 <= i < |calls| ==> calls[i].ToolUse?
    ensures OneClass(env, Select(env, calls, writing), writing)
  {
    if calls != [] { SelectIsOneClass(env, calls[..|calls| - 1], writing); }
  }

  lemma {:induction false} SelectConcat(env: Env, a: seq<Block>, b: seq<Block>, writing: bool)
    requires forall i :: 0 <= i < |a| ==> a[i].ToolUse?
    requires forall i :: 0 <= i < |b| ==> b[i].ToolUse?
    ensures Select(env, a + b, writing) == Select(env, a, writing) + Select(env, b, writing)
  {
    if b == [] {
      assert a + b == a;
    } else {
      assert (a + b)[..|a + b| - 1] == a + b[..|b| - 1];
      SelectConcat(env, a, b[..|b| - 1], writing);
    }
  }

  /** No writing tool runs before a read-only one, and calls of one class keep the order they were made in. */
  lemma ReadsBeforeWrites(env: Env, a: seq<Block>, b: seq<Block>, writing: bool)
    requires forall i :: 0 <= i < |a| ==> a[i].ToolUse?
    requires forall i :: 0 <= i < |b| ==> b[i].ToolUse?
    ensures var order := ExecutionOrder(env, a + b);
            forall i, j :: 0 <= i < j < |order| && Writes(env, order[i]) ==> Writes(env, order[j])
    ensures Select(env, a, writing) <= Select(env, a + b, writing)
  {
    SelectIsOneClass(env, a + b, false);
    SelectIsOneClass(env, a + b, true);
    SelectConcat(env, a, b, writing);
    var order, first := ExecutionOrder(env, a + b), Select(env, a + b, false);
    forall i | 0 <= i < |order| ensures Writes(env, order[i]) <==> i >= |first| {
      assert order[i] == if i < |first| then first[i] else Select(env, a + b, true)[i - |first|];
    }
  }

  /** How `Select` treats the last call. */
  lemma SelectLast(env: Env, calls: seq<Block>, writing: bool)
    requires calls != [] && forall i :: 0 <= i < |calls| ==> calls[i].ToolUse?
    ensures var n := |calls| - 1;
            BlockUses(Select(env, calls, writing)) ==
            BlockUses(Select(env, calls[..n], writing)) +
              if (env.toolKind(calls[n].name) == WritingTool) == writing then [calls[n].id] else []
  {
    var n := |calls| - 1;
    var before := Select(env, calls[..n], writing);
    if (env.toolKind(calls[n].name) == WritingTool) != writing {
      assert Select(env, calls, writing) == before + [] == before;
    }
  }

  lemma {:induction false} SelectedIds(env: Env, calls: seq<Block>)
    requires forall i :: 0 <= i < |calls| ==> calls[i].ToolUse?
    ensures multiset(BlockUses(Select(env, calls, false)) + BlockUses(Select(env, calls, true))) ==
            multiset(BlockUses(calls))
  {
    if calls != [] {
      var n := |calls| - 1;
      SelectedIds(env, calls[..n]);
      SelectLast(env, calls, false);
      SelectLast(env, calls, true);
      assert BlockUses(calls) == BlockUses(calls[..n]) + [calls[n].id];
    }
  }

  lemma {:induction false} ResultsOfCalls(rs: seq<Block>, calls: seq<Block>)
    requires |rs| == |calls|
    requires forall i :: 0 <= i < |rs| ==> calls[i].ToolUse? && rs[i].ToolResult? && rs[i].useId == calls[i].id
    ensures BlockResults(rs) == BlockUses(calls) && BlockUses(rs) == []
  {
    if rs != [] {
      ResultsOfCalls(rs[..|rs| - 1], calls[..|rs| - 1]);
    }
  }

  /** Executing a turn's calls yields one result for each of them, and nothing else. */
  lemma ExecutedAnswers(env: Env, turn: nat, bs: seq<Block>)
    ensures var rs := Executed(env, turn, CallsOf(bs));
            multiset(BlockResults(rs)) == multiset(BlockUses(bs)) && BlockUses(rs) == []
  {
    var calls := CallsOf(bs);
    CallsOfIds(bs);
    OrderedIds(env, calls);
    ResultsOfCalls(Executed(env, turn, calls), ExecutionOrder(env, calls));
  }

  lemma OrderedIds(env: Env, calls: seq<Block>)
    requires forall i :: 0 <= i < |calls| ==> calls[i].ToolUse?
    ensures multiset(BlockUses(ExecutionOrder(env, calls))) == multiset(BlockUses(calls))
  {
    SelectedIds(env, calls);
    UsesOfConcat(Select(env, calls, false), Select(env, calls, true));
  }

  lemma {:induction false} NoCallsNoUses(bs: seq<Block>)
    ensures CallsOf(bs) == [] <==> BlockUses(bs) == []
  {
    CallsOfIds(bs);
    var calls := CallsOf(bs);
    if calls != [] {
      assert calls[|calls| - 1].ToolUse?;
    }
  }

  // ---------- what a compaction keeps ----------

  /** The kept parts of the list, behind messages that neither call nor answer. */
  predicate Keeps(m: History, ms: History, h: History, e: Event) {
    && e.Net? && e.list == h && e.p <= e.b <= |h| && e.c <= |h| && (e.p < e.b ==> e.p <= e.c)
    && Plain(ms) && m == ms + (h[e.p..e.b] + h[e.c..])
  }

  lemma SummaryKeeps(env: Env, cfg: Config, st: State, h: History) returns (ms: History)
    ensures Keeps(Summarized(env, cfg, st, h).0, ms, h, SummaryNet(env, cfg, st, h))
  {
    ms := if |h| > cfg.keepRecent && env.summary(st.calls).Some?
    then SummaryMessages(st.compactions, env.summary(st.calls).value) else [];
  }

  lemma EmergencyKeeps(env: Env, cfg: Config, st: State, h: History) returns (ms: History)
    ensures Keeps(Emergency(Summarized(env, cfg, st, h).0, cfg.keepRecent), ms, h, EmergencyNet(env, cfg, st, h))
  {
    if |h| > cfg.keepRecent && env.summary(st.calls).Some? {
      ms := SummarisedKeeps(env, cfg, st, h);
    } else {
      ms := [];
      UnsummarisedKeeps(env, cfg, st, h);
    }
  }

  lemma UnsummarisedKeeps(env: Env, cfg: Config, st: State, h: History)
    requires |h| <= cfg.keepRecent || env.summary(st.calls).None?
    ensures Keeps(Emergency(Summarized(env, cfg, st, h).0, cfg.keepRecent), [], h, EmergencyNet(env, cfg, st, h))
  {
    var m := Summarized(env, cfg, st, h).0;
    if |h| > cfg.keepRecent { NewerHalfKeeps(h, m, EmergencyTail(m, cfg.keepRecent)); }
  }

  lemma SummarisedKeeps(env: Env, cfg: Config, st: State, h: History) returns (ms: History)
    requires |h| > cfg.keepRecent && env.summary(st.calls).Some?
    ensures Keeps(Emergency(Summarized(env, cfg, st, h).0, cfg.keepRecent), ms, h, EmergencyNet(env, cfg, st, h))
  {
    var summary, q := SummaryMessages(st.compactions, env.summary(st.calls).value), SliceStart(|h|, cfg.keepRecent);
    var tail := EmergencyTail(summary + h[q..], cfg.keepRecent);
    ms := summary + if tail < 2 then summary[tail..] else [];
    BehindSummaryKeeps(h, summary, q, tail);
  }

  lemma NewerHalfKeeps(h: History, m: History, tail: nat)
    requires m == h[|h| / 2..] && tail <= |m|
    ensures var p := |h| / 2;
            m[..Min(2, |m|)] + m[tail..] == [] + (h[p..p + Min(2, |m|)] + h[p + tail..])
  {
  }

  lemma BehindSummaryKeeps(h: History, summary: History, q: nat, tail: nat)
    requires |summary| == 2 && q <= |h| && tail <= |summary + h[q..]|
    ensures var m, c := summary + h[q..], q + Max(0, tail - 2);
            c <= |h| && m[..2] + m[tail..] == summary + (if tail < 2 then summary[tail..] else []) + (h[c..c] + h[c..])
  {
    var m := summary + h[q..];
    assert m[..2] == summary;
    if tail < 2 {
      assert m[tail..] == summary[tail..] + h[q..];
    } else {
      assert m[tail..] == h[q + (tail - 2)..];
    }
  }

  /** The list after layer 4 and after emergency truncation is paired exactly when the compaction is clean. */
  lemma LastResortExactly(env: Env, cfg: Config, st: State, h: History)
    requires Paired(h)
    ensures var (m, s) := LastResort(env, cfg, st, h);
            s.log != [] && s.log[|s.log| - 1].Net? && (Paired(m) <==> Clean(s.log[|s.log| - 1]))
  {
    if Over(env, cfg, Summarized(env, cfg, st, h).0) {
      EmergencyExactly(env, cfg, st, h);
    } else {
      ResummaryExactly(env, cfg, st, h);
    }
  }

  lemma EmergencyExactly(env: Env, cfg: Config, st: State, h: History)
    requires Paired(h)
    ensures Paired(Emergency(Summarized(env, cfg, st, h).0, cfg.keepRecent)) <==> Clean(EmergencyNet(env, cfg, st, h))
  {
    var ms := EmergencyKeeps(env, cfg, st, h);
    KeptExactly(Emergency(Summarized(env, cfg, st, h).0, cfg.keepRecent), ms, h, EmergencyNet(env, cfg, st, h));
  }

  lemma KeptExactly(m: History, ms: History, h: History, e: Event)
    requires Paired(h) && Keeps(m, ms, h, e)
    ensures Paired(m) <==> Clean(e)
  {
    NetCutExactly(ms, h, e.p, e.b, e.c);
  }

  /** The same for layer 4 alone, as the recovery path uses it. */
  lemma ResummaryExactly(env: Env, cfg: Config, st: State, h: History)
    requires Paired(h)
    ensures Paired(Summarized(env, cfg, st, h).0) <==> Clean(SummaryNet(env, cfg, st, h))
  {
    var ms := SummaryKeeps(env, cfg, st, h);
    KeptExactly(Summarized(env, cfg, st, h).0, ms, h, SummaryNet(env, cfg, st, h));
  }

  // ---------- every step, exactly ----------

  /** The state is good if all was clean so far, and otherwise the log shows it. */
  predicate Exact(st: State) {
    if AllClean(st.log) then Good(st) else !AllSafe(st.log)
  }

  /** The same, but the list still in hand may be all that shows it. */
  predicate Pending(st: State) {
    if AllClean(st.log) then Good(st) else !AllSafe(st.log) || !Paired(st.messages)
  }

  lemma LogAppend(log: seq<Event>, more: seq<Event>)
    ensures AllClean(log + more) <==> AllClean(log) && AllClean(more)
    ensures AllSafe(log + more) <==> AllSafe(log) && AllSafe(more)
  {
    assert forall i :: 0 <= i < |log| ==> (log + more)[i] == log[i];
    assert forall i :: 0 <= i < |more| ==> (log + more)[|log| + i] == more[i];
  }

  lemma LogSnoc(log: seq<Event>, e: Event)
    ensures AllClean(log + [e]) <==> AllClean(log) && Clean(e)
    ensures AllSafe(log + [e]) <==> AllSafe(log) && Safe(e)
  {
    LogAppend(log, [e]);
    assert [e][0] == e;
  }

  lemma LayersPaired(h: History, keepRecent: int)
    requires Paired(h)
    ensures Paired(Truncated(h))
    ensures Paired(Snipped(Truncated(h), keepRecent))
    ensures Paired(Layers(h, keepRecent))
  {
    var layer1 := Truncated(h);
    var layer2 := Snipped(layer1, keepRecent);
    TruncateTouchesResultTextOnly(h);
    SnipTouchesResultTextOnly(layer1, keepRecent);
    ResultTextIrrelevantToPairing(h, layer1);
    ResultTextIrrelevantToPairing(layer1, layer2);
    LayersKeepPairing(h, keepRecent);
  }

  /** The log of the later state is as clean as the earlier one, if `clean`, and as safe. */
  predicate GoesOn(st: State, s: State, clean: bool) {
    && s.messages == st.messages && st.log <= s.log
    && (AllClean(s.log) <==> AllClean(st.log) && clean)
    && (PairedOpen(st.messages) ==> (AllSafe(s.log) <==> AllSafe(st.log)))
  }

  /** Asking for a summary shows nothing that was not shown, and logs nothing unclean. */
  lemma SummarizedGoesOn(env: Env, cfg: Config, st: State, h: History)
    ensures GoesOn(st, Summarized(env, cfg, st, h).1, true)
  {
    if |h| > cfg.keepRecent {
      var q := SliceStart(|h|, cfg.keepRecent);
      var asked := [Pause(st.messages), Call([UserText(env.transcript(h[..q]))])];
      RequestHarmless(st.log, st.messages, env.transcript(h[..q]));
      LogSnoc(st.log + asked, if env.summary(st.calls).None? then Halved(h) else Cut(h, 0, q));
    }
  }

  lemma RequestHarmless(log: seq<Event>, held: History, text: string)
    ensures var asked := [Pause(held), Call([UserText(text)])];
            && (AllClean(log + asked) <==> AllClean(log))
            && (PairedOpen(held) ==> (AllSafe(log + asked) <==> AllSafe(log)))
  {
    LogAppend(log, [Pause(held), Call([UserText(text)])]);
  }

  lemma LastResortLogged(env: Env, cfg: Config, st: State, h: History)
    ensures var (m, s) := Summarized(env, cfg, st, h);
            var end := LastResort(env, cfg, st, h).1;
            && end.messages == s.messages
            && end.log == if Over(env, cfg, m) then s.log + [EmergencyCut(cfg, m)] + [EmergencyNet(env, cfg, st, h)]
                          else s.log + [SummaryNet(env, cfg, st, h)]
  {
  }

  lemma LogSnocTwo(log: seq<Event>, e: Event, f: Event)
    ensures AllClean(log + [e] + [f]) <==> AllClean(log) && Clean(e) && Clean(f)
    ensures AllSafe(log + [e] + [f]) <==> AllSafe(log) && Safe(e) && Safe(f)
  {
    LogSnoc(log, e);
    LogSnoc(log + [e], f);
  }

  lemma LastResortGoesOn(env: Env, cfg: Config, st: State, h: History)
    requires Paired(h)
    ensures var (m, s) := LastResort(env, cfg, st, h); GoesOn(st, s, Paired(m))
  {
    SummarizedGoesOn(env, cfg, st, h);
    LastResortLogged(env, cfg, st, h);
    var (m, s) := Summarized(env, cfg, st, h);
    if Over(env, cfg, m) {
      EmergencyExactly(env, cfg, st, h);
      EmergencyGoesOn(st, s, EmergencyCut(cfg, m), EmergencyNet(env, cfg, st, h));
    } else {
      ResummaryExactly(env, cfg, st, h);
      LogSnoc(s.log, SummaryNet(env, cfg, st, h));
    }
  }

  lemma EmergencyGoesOn(st: State, s: State, cut: Event, net: Event)
    requires GoesOn(st, s, true) && cut.Cut? && net.Net?
    ensures GoesOn(st, s.(log := s.log + [cut] + [net]), Clean(net))
  {
    LogSnocTwo(s.log, cut, net);
  }

  lemma CompactedGrows(env: Env, cfg: Config, st: State, h: History)
    ensures st.log <= Summarized(env, cfg, st, h).1.log
    ensures st.log <= LastResort(env, cfg, st, h).1.log
    ensures st.log <= Compacted(env, cfg, st, h).1.log
  {
  }

  /** A paired list comes out of a compaction paired exactly when it was clean. */
  lemma CompactedGoesOn(env: Env, cfg: Config, st: State, h: History)
    requires Paired(h)
    ensures var (m, s) := Compacted(env, cfg, st, h); GoesOn(st, s, Paired(m))
  {
    LayersPaired(h, cfg.keepRecent);
    var layer3 := Layers(h, cfg.keepRecent);
    if Compacted(env, cfg, st, h) == LastResort(env, cfg, st, layer3) {
      LastResortGoesOn(env, cfg, st, layer3);
    }
  }

  lemma {:induction false} NotesKeepPairing(h: History, notes: seq<string>, prefix: string)
    requires Paired(h)
    ensures Paired(h + NoteMessages(notes, prefix))
  {
    var ms := NoteMessages(notes, prefix);
    if notes == [] {
      assert h + ms == h;
    } else {
      var n := |notes| - 1;
      NotesKeepPairing(h, notes[..n], prefix);
      PairedAppend(h + NoteMessages(notes[..n], prefix), ms[n]);
      assert h + ms == h + NoteMessages(notes[..n], prefix) + [ms[n]];
    }
  }

  lemma DrainedPaired(env: Env, st: State, turn: nat)
    requires Paired(st.messages)
    ensures Paired(Drained(env, st, turn).messages)
  {
    NotesKeepPairing(st.messages, env.userNotes(turn), "[user note] ");
    NotesKeepPairing(st.messages + NoteMessages(env.userNotes(turn), "[user note] "), env.toolNotes(turn), "");
  }

  /** What is saved before a turn's first call shows an unclean compaction. */
  lemma PreparedExact(env: Env, cfg: Config, st: State, turn: nat)
    requires Exact(st)
    ensures st.log <= Prepared(env, cfg, st, turn).log && Exact(Prepared(env, cfg, st, turn))
  {
    var drained := Drained(env, st, turn);
    var (m, s) := Compacted(env, cfg, drained, drained.messages);
    CompactedGrows(env, cfg, drained, drained.messages);
    LogSnoc(s.log, Saved(m));
    if AllClean(st.log) {
      DrainedPaired(env, st, turn);
      CompactedGoesOn(env, cfg, drained, drained.messages);
    } else {
      UncleanStays(st.log, s.log);
    }
  }

  lemma UncleanStays(a: seq<Event>, b: seq<Event>)
    requires a <= b
    ensures !AllClean(a) ==> !AllClean(b)
    ensures !AllSafe(a) ==> !AllSafe(b)
  {
    LogAppend(a, b[|a|..]);
    assert b == a + b[|a|..];
  }

  /** The reply, if there is one, is one of the provider's. */
  ghost predicate FromProvider(env: Env, reply: Option<Reply>) {
    reply.Some? ==> exists n: nat :: reply.value == env.reply(n)
  }

  lemma {:induction false} CalledReplies(env: Env, cfg: Config, st: State, attempt: nat)
    ensures FromProvider(env, Called(env, cfg, st, attempt).0)
    decreases Attempts(cfg) + 1 - attempt
  {
    if attempt <= Attempts(cfg) {
      var o := Attempted(env, cfg, st, attempt);
      if o.Again? { CalledReplies(env, cfg, o.st, attempt + 1); }
    }
  }

  /** Handing the list out shows whether it is paired. */
  lemma AskedExact(st: State)
    requires Pending(st)
    ensures st.log <= Asked(st).log && Exact(Asked(st))
  {
    LogAppend(st.log, [Pause(st.messages), Call(st.messages)]);
    assert !Paired(st.messages) ==> !Safe([Pause(st.messages), Call(st.messages)][1]);
  }

  lemma PausedExact(st: State)
    requires Exact(st)
    ensures Exact(st.(log := st.log + [Pause(st.messages)]))
  {
    LogSnoc(st.log, Pause(st.messages));
  }

  lemma LayeredExact(st: State, keepRecent: int)
    requires Exact(st)
    ensures Exact(st.(messages := Layers(st.messages, keepRecent)))
  {
    if AllClean(st.log) { LayersPaired(st.messages, keepRecent); }
  }

  lemma ResummarizedPending(env: Env, cfg: Config, st: State)
    requires Exact(st)
    ensures var (m, s) := Summarized(env, cfg, st, st.messages);
            var t := s.(messages := m, log := s.log + [SummaryNet(env, cfg, st, st.messages)]);
            st.log <= t.log && Pending(t)
  {
    SummarizedGoesOn(env, cfg, st, st.messages);
    LogSnoc(Summarized(env, cfg, st, st.messages).1.log, SummaryNet(env, cfg, st, st.messages));
    if AllClean(st.log) { ResummaryExactly(env, cfg, st, st.messages); }
  }

  lemma AttemptedExact(env: Env, cfg: Config, st: State, attempt: nat)
    requires Pending(st)
    ensures var o := Attempted(env, cfg, st, attempt);
            && st.log <= o.st.log && Pending(o.st) && (o.Settled? ==> Exact(o.st))
  {
    var asked := Asked(st);
    AskedExact(st);
    if env.reply(st.calls) != Failure(ContextError) {
      PausedExact(asked);
    } else if attempt == 1 {
      LayeredExact(asked, LOOP_KEEP_RECENT);
    } else {
      ResummarizedPending(env, cfg, asked);
    }
  }

  lemma {:induction false} CalledExact(env: Env, cfg: Config, st: State, attempt: nat)
    requires Pending(st)
    ensures var (r, s) := Called(env, cfg, st, attempt);
            st.log <= s.log && Pending(s) && (r.Some? ==> Exact(s))
    decreases Attempts(cfg) + 1 - attempt
  {
    if attempt <= Attempts(cfg) {
      AttemptedExact(env, cfg, st, attempt);
      var o := Attempted(env, cfg, st, attempt);
      if o.Again? { CalledExact(env, cfg, o.st, attempt + 1); }
    }
  }

  lemma AnsweredByTextSafe(h: History, turn: Message, text: string)
    requires Paired(h) && RoleOk(turn) && Results(turn) == [] && Uses(turn) == []
    ensures Paired(h + [turn]) && Paired(h + [turn] + [UserText(text)])
  {
    PairedAppend(h, turn);
    PairedAppend(h + [turn], UserText(text));
  }

  lemma AnsweredByToolsSafe(env: Env, turn: nat, h: History, blocks: seq<Block>)
    requires Paired(h) && BlockResults(blocks) == []
    ensures var message := Message(Assistant, Blocks(blocks));
            && PairedOpen(h + [message])
            && forall g | SameShape(h + [message], g) ::
                 && PairedOpen(g)
                 && Paired(g + [Message(User, Blocks(Executed(env, turn, CallsOf(blocks))))])
  {
    var message := Message(Assistant, Blocks(blocks));
    PairedAppend(h, message);
    ExecutedAnswers(env, turn, blocks);
    forall g | SameShape(h + [message], g)
      ensures PairedOpen(g) && Paired(g + [Message(User, Blocks(Executed(env, turn, CallsOf(blocks))))])
    {
      PairingDependsOnIds(h + [message], g);
      assert SameIds((h + [message])[|h|], g[|h|]);
      PairedAppend(g, Message(User, Blocks(Executed(env, turn, CallsOf(blocks)))));
    }
  }

  /** From a paired list a turn ends with a paired one exactly when it was clean. */
  lemma AnsweredExactly(env: Env, cfg: Config, st: State, turn: nat, reply: Reply)
    requires EnvOk(env) && Paired(st.messages)
    requires reply.Response? && BlockResults(reply.blocks) == []
    ensures var (s, flow) := Answered(env, cfg, st, turn, reply);
            && (AllSafe(s.log) <==> AllSafe(st.log))
            && (AllClean(s.log) <==> AllClean(st.log) && Paired(s.messages))
  {
    var message := Message(Assistant, Blocks(reply.blocks));
    NoCallsNoUses(reply.blocks);
    if reply.stop == MaxTokens && st.recoveries + 1 <= 3 {
      TextReplyExactly(st.messages, message, env.recoveryText);
      LogSnoc(st.log, TextReply(message));
    } else if CallsOf(reply.blocks) == [] {
      AnsweredByTextSafe(st.messages, message, env.nudgeText);
    } else {
      AnsweredByToolsSafe(env, turn, st.messages, reply.blocks);
      var edited := env.edited(turn, st.messages + [message]);
      assert SameShape(st.messages + [message], edited);
      LogSnocTwo(st.log, Pause(st.messages + [message]), Pause(edited));
    }
  }

  lemma AnsweredGrows(env: Env, cfg: Config, st: State, turn: nat, reply: Reply)
    requires reply.Response?
    ensures st.log <= Answered(env, cfg, st, turn, reply).0.log
  {
  }

  lemma RepliedExact(env: Env, cfg: Config, st: State, turn: nat, reply: Reply)
    requires EnvOk(env) && Exact(st)
    requires reply.Response? && BlockResults(reply.blocks) == []
    ensures var (s, flow) := Replied(env, cfg, st, turn, reply);
            st.log <= s.log && Exact(s)
  {
    var s := Answered(env, cfg, st, turn, reply).0;
    AnsweredGrows(env, cfg, st, turn, reply);
    LogSnoc(s.log, Held(s.messages));
    if AllClean(st.log) {
      AnsweredExactly(env, cfg, st, turn, reply);
    } else {
      UncleanStays(st.log, s.log);
    }
  }

  lemma {:induction false} LoopExact(env: Env, cfg: Config, st: State, turn: nat)
    requires EnvOk(env) && Exact(st)
    ensures var (s, flow) := Loop(env, cfg, st, turn);
            st.log <= s.log && Pending(s)
    decreases cfg.maxTurns + 1 - turn
  {
    if turn <= cfg.maxTurns {
      var prepared := Prepared(env, cfg, st, turn);
      PreparedExact(env, cfg, st, turn);
      CalledExact(env, cfg, prepared, 1);
      CalledReplies(env, cfg, prepared, 1);
      var (reply, called) := Called(env, cfg, prepared, 1);
      if reply.Some? {
        RepliedExact(env, cfg, called, turn, reply.value);
        var (s, flow) := Turn(env, cfg, st, turn);
        if flow == Continue {
          LoopExact(env, cfg, s, turn + 1);
        }
      }
    }
  }

  /**
   Pairing over a whole run, for every environment: every list handed to the provider, saved or held
   between turns is paired, every list held at an await is paired up to its last turn, and the run ends
   paired, exactly when no compaction in all splits a call from its results and no truncated turn with
   calls is answered by text.
   */
  lemma RunPairedExactly(env: Env, cfg: Config, st: State, userMessage: string)
    requires EnvOk(env) && Good(st) && AllClean(st.log)
    ensures var (s, flow) := Run(env, cfg, st, userMessage);
            st.log <= s.log && (AllSafe(s.log) && Paired(s.messages) <==> AllClean(s.log))
  {
    if userMessage != "" {
      PairedAppend(st.messages, UserText(userMessage));
    }
    var begun := st.(nudges := 0,
                     messages := if userMessage == "" then st.messages else st.messages + [UserText(userMessage)]);
    LoopExact(env, cfg, begun, 1);
  }

  /** The direction that later proofs use, from any log. */
  lemma RunKeepsPairing(env: Env, cfg: Config, st: State, userMessage: string)
    requires EnvOk(env) && Good(st)
    ensures var (s, flow) := Run(env, cfg, st, userMessage);
            st.log <= s.log && (AllClean(s.log) ==> AllSafe(s.log) && Paired(s.messages))
  {
    var begun := st.(nudges := 0,
                     messages := if userMessage == "" then st.messages else st.messages + [UserText(userMessage)]);
    LoopGrows(env, cfg, begun, 1);
    if AllClean(st.log) {
      RunPairedExactly(env, cfg, st, userMessage);
    } else {
      UncleanStays(st.log, Run(env, cfg, st, userMessage).0.log);
    }
  }

  // ---------- the log only grows ----------

  lemma AttemptedGrows(env: Env, cfg: Config, st: State, attempt: nat)
    ensures st.log <= Attempted(env, cfg, st, attempt).st.log
  {
    CompactedGrows(env, cfg, Asked(st), st.messages);
  }

  lemma {:induction false} CalledGrows(env: Env, cfg: Config, st: State, attempt: nat)
    ensures st.log <= Called(env, cfg, st, attempt).1.log
    decreases Attempts(cfg) + 1 - attempt
  {
    if attempt <= Attempts(cfg) {
      AttemptedGrows(env, cfg, st, attempt);
      var o := Attempted(env, cfg, st, attempt);
      if o.Again? { CalledGrows(env, cfg, o.st, attempt + 1); }
    }
  }

  /** What a turn has logged by the time it calls the provider stays in the log. */
  lemma TurnGrows(env: Env, cfg: Config, st: State, turn: nat)
    ensures st.log <= Prepared(env, cfg, st, turn).log
    ensures Called(env, cfg, Prepared(env, cfg, st, turn), 1).1.log <= Turn(env, cfg, st, turn).0.log
    ensures Prepared(env, cfg, st, turn).log <= Turn(env, cfg, st, turn).0.log
  {
    var drained := Drained(env, st, turn);
    CompactedGrows(env, cfg, drained, drained.messages);
    CalledGrows(env, cfg, Prepared(env, cfg, st, turn), 1);
  }

  lemma {:induction false} LoopGrows(env: Env, cfg: Config, st: State, turn: nat)
    ensures st.log <= Loop(env, cfg, st, turn).0.log
    ensures turn <= cfg.maxTurns ==> Turn(env, cfg, st, turn).0.log <= Loop(env, cfg, st, turn).0.log
    decreases cfg.maxTurns + 1 - turn
  {
    if turn <= cfg.maxTurns {
      TurnGrows(env, cfg, st, turn);
      LoopGrows(env, cfg, Turn(env, cfg, st, turn).0, turn + 1);
    }
  }
}
