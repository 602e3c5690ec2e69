/**
 What a compaction gives up and what stands in for it: which messages a summary is asked of, over every
 log of every run, which messages survive, and at which stage the escalation stops.
 */
module SummaryLaws {
  import opened Decimal
  import opened Messages
  import opened Context
  import opened ContextLaws
  import opened AgentSpec
  import opened RunSafety

  // ---------- one summary ----------

  predicate EndsWith(s: string, t: string) {
    |t| <= |s| && s[|s| - |t|..] == t
  }

  /**
   A successful summary: the result is a message ending with the provider's text, an acknowledgement and
   a suffix of the list, and what the provider was asked to summarise is exactly the rest of the list.
   */
  lemma SummaryAsksForTheRest(env: Env, cfg: Config, st: State, h: History)
    requires |h| > cfg.keepRecent && env.summary(st.calls).Some?
    ensures var (m, s) := Summarized(env, cfg, st, h);
            && 2 <= |m| <= |h| + 2 && (cfg.keepRecent > 0 ==> |m| == cfg.keepRecent + 2)
            && var given := h[..|h| + 2 - |m|];
            && given + m[2..] == h
            && s.log == st.log + [Pause(st.messages), Call([UserText(env.transcript(given))])] + [Cut(h, 0, |given|)]
            && m[0].role == User && m[0].content.Str? && EndsWith(m[0].content.text, env.summary(st.calls).value)
            && "[Conversation Summary — compaction #" + Digits(st.compactions + 1) + "]" <= m[0].content.text
            && m[1].role == Assistant && Uses(m[1]) == []
            && s.messages == st.messages && s.calls == st.calls + 1
  {
    var q := SliceStart(|h|, cfg.keepRecent);
    var (m, s) := Summarized(env, cfg, st, h);
    assert m[2..] == h[q..] && |h| + 2 - |m| == q;
  }

  /** When no summary comes back the newer half is kept, and the larger one if the length is odd. */
  lemma NoSummaryKeepsNewerHalf(env: Env, cfg: Config, st: State, h: History)
    requires |h| > cfg.keepRecent && env.summary(st.calls).None?
    ensures var (m, s) := Summarized(env, cfg, st, h);
            && 0 <= 2 * |m| - |h| <= 1 && h[|h| - |m|..] == m
            && s.messages == st.messages && s.calls == st.calls + 1
  {
  }

  // ---------- every summary of a run ----------

  /** The entry is no cut behind a summary request, or the request in front of it is for what it drops. */
  predicate RequestedAt(env: Env, cfg: Config, log: seq<Event>, i: nat)
    requires i < |log|
  {
    match log[i]
    case Cut(list, p, q) =>
      p == 0 && list != [] ==>
        && i > 0 && |list| > cfg.keepRecent && q == SliceStart(|list|, cfg.keepRecent)
        && log[i - 1] == Call([UserText(env.transcript(list[..q]))])
    case Halved(list) =>
      && i > 0 && |list| > cfg.keepRecent
      && log[i - 1] == Call([UserText(env.transcript(list[..SliceStart(|list|, cfg.keepRecent)]))])
    case _ => true
  }

  predicate AllRequested(env: Env, cfg: Config, log: seq<Event>) {
    forall i :: 0 <= i < |log| ==> RequestedAt(env, cfg, log, i)
  }

  /** No summary is behind this entry. */
  predicate NoSummaryCut(e: Event) {
    !e.Halved? && (e.Cut? ==> e.p > 0 || e.list == [])
  }

  lemma RequestedSnoc(env: Env, cfg: Config, log: seq<Event>, e: Event)
    requires AllRequested(env, cfg, log) && (NoSummaryCut(e) || RequestedAt(env, cfg, log + [e], |log|))
    ensures AllRequested(env, cfg, log + [e])
  {
    forall i | 0 <= i < |log| ensures RequestedAt(env, cfg, log + [e], i) {
      assert RequestedAt(env, cfg, log, i);
    }
  }

  lemma RequestedSnocTwo(env: Env, cfg: Config, log: seq<Event>, e: Event, f: Event)
    requires AllRequested(env, cfg, log) && NoSummaryCut(e) && NoSummaryCut(f)
    ensures AllRequested(env, cfg, log + [e] + [f])
    ensures AllRequested(env, cfg, log + [e, f])
  {
    RequestedSnoc(env, cfg, log, e);
    RequestedSnoc(env, cfg, log + [e], f);
    assert log + [e, f] == log + [e] + [f];
  }

  lemma SummarizedRequested(env: Env, cfg: Config, st: State, h: History)
    requires AllRequested(env, cfg, st.log)
    ensures AllRequested(env, cfg, Summarized(env, cfg, st, h).1.log)
  {
    if |h| > cfg.keepRecent {
      var q := SliceStart(|h|, cfg.keepRecent);
      var asked := st.log + [Pause(st.messages), Call([UserText(env.transcript(h[..q]))])];
      RequestedSnocTwo(env, cfg, st.log, Pause(st.messages), Call([UserText(env.transcript(h[..q]))]));
      var cut := if env.summary(st.calls).None? then Halved(h) else Cut(h, 0, q);
      RequestedSnoc(env, cfg, asked, cut);
    }
  }

  lemma LastResortRequested(env: Env, cfg: Config, st: State, h: History)
    requires AllRequested(env, cfg, st.log)
    ensures AllRequested(env, cfg, LastResort(env, cfg, st, h).1.log)
  {
    SummarizedRequested(env, cfg, st, h);
    LastResortLogged(env, cfg, st, h);
    var (m, s) := Summarized(env, cfg, st, h);
    if Over(env, cfg, m) {
      RequestedSnocTwo(env, cfg, s.log, EmergencyCut(cfg, m), EmergencyNet(env, cfg, st, h));
    } else {
      RequestedSnoc(env, cfg, s.log, SummaryNet(env, cfg, st, h));
    }
  }

  lemma PreparedRequested(env: Env, cfg: Config, st: State, turn: nat)
    requires AllRequested(env, cfg, st.log)
    ensures AllRequested(env, cfg, Prepared(env, cfg, st, turn).log)
  {
    var drained := Drained(env, st, turn);
    LastResortRequested(env, cfg, drained, Layers(drained.messages, cfg.keepRecent));
    var (h, s) := Compacted(env, cfg, drained, drained.messages);
    RequestedSnoc(env, cfg, s.log, Saved(h));
  }

  lemma AttemptedRequested(env: Env, cfg: Config, st: State, attempt: nat)
    requires AllRequested(env, cfg, st.log)
    ensures AllRequested(env, cfg, Attempted(env, cfg, st, attempt).st.log)
  {
    var asked := Asked(st);
    RequestedSnocTwo(env, cfg, st.log, Pause(st.messages), Call(st.messages));
    RequestedSnoc(env, cfg, asked.log, Pause(asked.messages));
    SummarizedRequested(env, cfg, asked, asked.messages);
    RequestedSnoc(env, cfg, Summarized(env, cfg, asked, asked.messages).1.log,
                  SummaryNet(env, cfg, asked, asked.messages));
  }

  lemma {:induction false} CalledRequested(env: Env, cfg: Config, st: State, attempt: nat)
    requires AllRequested(env, cfg, st.log)
    ensures AllRequested(env, cfg, Called(env, cfg, st, attempt).1.log)
    decreases Attempts(cfg) + 1 - attempt
  {
    if attempt <= Attempts(cfg) {
      AttemptedRequested(env, cfg, st, attempt);
      var o := Attempted(env, cfg, st, attempt);
      if o.Again? { CalledRequested(env, cfg, o.st, attempt + 1); }
    }
  }

  lemma RepliedRequested(env: Env, cfg: Config, st: State, turn: nat, reply: Reply)
    requires AllRequested(env, cfg, st.log) && reply.Response?
    ensures AllRequested(env, cfg, Replied(env, cfg, st, turn, reply).0.log)
  {
    var message := Message(Assistant, Blocks(reply.blocks));
    var held := st.messages + [message];
    RequestedSnoc(env, cfg, st.log, TextReply(message));
    RequestedSnocTwo(env, cfg, st.log, Pause(held), Pause(env.edited(turn, held)));
    var s := Answered(env, cfg, st, turn, reply).0;
    RequestedSnoc(env, cfg, s.log, Held(s.messages));
  }

  lemma {:induction false} LoopRequested(env: Env, cfg: Config, st: State, turn: nat)
    requires AllRequested(env, cfg, st.log)
    ensures AllRequested(env, cfg, Loop(env, cfg, st, turn).0.log)
    decreases cfg.maxTurns + 1 - turn
  {
    if turn <= cfg.maxTurns {
      PreparedRequested(env, cfg, st, turn);
      CalledRequested(env, cfg, Prepared(env, cfg, st, turn), 1);
      var (reply, called) := Called(env, cfg, Prepared(env, cfg, st, turn), 1);
      if reply.Some? {
        RepliedRequested(env, cfg, called, turn, reply.value);
        LoopRequested(env, cfg, Turn(env, cfg, st, turn).0, turn + 1);
      }
    }
  }

  /**
   Over every run each summary cut, and each halving after a failed summary, directly follows a request
   to summarise exactly the messages in front of the last `keepRecent` ones.
   */
  lemma SummariesAreAskedOfTheRest(env: Env, cfg: Config, st: State, userMessage: string, i: nat)
    requires AllRequested(env, cfg, st.log) && cfg.keepRecent > 0
    requires i < |Run(env, cfg, st, userMessage).0.log|
    ensures var log := Run(env, cfg, st, userMessage).0.log;
            && (log[i].Cut? && log[i].p == 0 && log[i].list != [] ==>
                  && i > 0 && 0 <= log[i].q == |log[i].list| - cfg.keepRecent
                  && log[i - 1] == Call([UserText(env.transcript(log[i].list[..log[i].q]))]))
            && (log[i].Halved? ==>
                  && i > 0 && |log[i].list| > cfg.keepRecent
                  && log[i - 1] == Call([UserText(env.transcript(log[i].list[..|log[i].list| - cfg.keepRecent]))]))
  {
    var begun := st.(nudges := 0,
                     messages := if userMessage == "" then st.messages else st.messages + [UserText(userMessage)]);
    LoopRequested(env, cfg, begun, 1);
    assert RequestedAt(env, cfg, Run(env, cfg, st, userMessage).0.log, i);
  }

  // ---------- the escalation ----------

  /** The lists a compaction tries in turn before it gives messages up. */
  function Stages(h: History, keepRecent: int): seq<History> {
    [h, Truncated(h), Snipped(Truncated(h), keepRecent), Dropped(Snipped(Truncated(h), keepRecent), keepRecent)]
  }

  /**
   The first stage under the threshold is the result and nothing is sent or counted; only when there is
   none does the provider get asked, and the compaction is counted once.
   */
  lemma FirstStageThatFits(env: Env, cfg: Config, st: State, h: History, i: nat)
    requires i < 4 && forall j :: 0 <= j < i ==> env.estimate(Stages(h, cfg.keepRecent)[j]) >= cfg.threshold
    requires env.estimate(Stages(h, cfg.keepRecent)[i]) < cfg.threshold
    ensures Compacted(env, cfg, st, h) == (Stages(h, cfg.keepRecent)[i], st)
  {
    assert forall j :: 0 <= j < i ==> Over(env, cfg, Stages(h, cfg.keepRecent)[j]);
    assert i > 0 ==> Over(env, cfg, Stages(h, cfg.keepRecent)[0]);
    assert i > 1 ==> Over(env, cfg, Stages(h, cfg.keepRecent)[1]);
    assert i > 2 ==> Over(env, cfg, Stages(h, cfg.keepRecent)[2]);
  }

  /** The result text of the block was shortened by layer 1, and by layer 2 in front of the spared messages. */
  function Shortened(t: string, aged: bool): string {
    if aged then SnipText(TruncateText(t)) else TruncateText(t)
  }

  /**
   What three layers make of a block: results whose read is superseded in front of the spared messages give
   way to a note, other result texts are shortened, and everything else stays.
   */
  lemma LayersBlock(h: History, keepRecent: int, i: nat, k: nat)
    requires i < |h| && k < |BlocksOf(h[i])|
    ensures k < |BlocksOf(Layers(h, keepRecent)[i])|
    ensures var b, c, n := BlocksOf(h[i])[k], BlocksOf(Layers(h, keepRecent)[i])[k], Boundary(|h|, keepRecent);
            c == if !b.ToolResult? then b
                 else if b.useId in StaleIds(h, n) then ToolResult(b.useId, Text(REREAD), b.isError)
                 else if b.body.Text? then ToolResult(b.useId, Text(Shortened(b.body.text, i < n)), b.isError)
                 else b
  {
    var n, t := Boundary(|h|, keepRecent), Truncated(h);
    var s := Snipped(t, keepRecent);
    TruncateTouchesResultTextOnly(h);
    SnipTouchesResultTextOnly(t, keepRecent);
    StaleIdsUnchanged(h, t, n);
    StaleIdsUnchanged(t, s, n);
    assert BlocksOf(t[i])[k] == TruncateBlock(BlocksOf(h[i])[k]);
    assert BlocksOf(s[i])[k] == if i < n then SnipBlock(BlocksOf(t[i])[k]) else BlocksOf(t[i])[k];
    assert BlocksOf(Layers(h, keepRecent)[i])[k] == DropBlock(BlocksOf(s[i])[k], StaleIds(h, n));
  }

  /** The messages of the summarised list that emergency truncation keeps. */
  predicate HeadAndTail(m: History, r: History, keepRecent: int) {
    keepRecent >= 2 && |m| >= 2 ==>
      && |r| == 2 + Min(keepRecent / 2, |m|) && r[..2] == m[..2] && r[2..] == m[|m| - (|r| - 2)..]
  }

  /**
   When no stage fits, what layer 4 makes of the last stage is the result if it is under the threshold,
   and otherwise its first two and its last `keepRecent / 2` messages are.
   */
  lemma NoStageFits(env: Env, cfg: Config, st: State, h: History)
    requires forall j :: 0 <= j < 4 ==> env.estimate(Stages(h, cfg.keepRecent)[j]) >= cfg.threshold
    ensures var last := Stages(h, cfg.keepRecent)[3];
            var (m, s) := Summarized(env, cfg, st, last);
            var (r, t) := Compacted(env, cfg, st, h);
            && t.compactions == s.compactions + 1 && t.calls == s.calls && s.log < t.log
            && if env.estimate(m) < cfg.threshold then r == m else HeadAndTail(m, r, cfg.keepRecent)
  {
    assert Over(env, cfg, Stages(h, cfg.keepRecent)[0]) && Over(env, cfg, Stages(h, cfg.keepRecent)[1]);
    assert Over(env, cfg, Stages(h, cfg.keepRecent)[2]) && Over(env, cfg, Stages(h, cfg.keepRecent)[3]);
    var last := Stages(h, cfg.keepRecent)[3];
    assert Compacted(env, cfg, st, h) == LastResort(env, cfg, st, last);
    LastResortLogged(env, cfg, st, last);
  }
}
