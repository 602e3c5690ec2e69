/**
 Runs under the conditions the defaults are made for: no injected notes, no truncated turn with
 calls, summaries that succeed, emergency truncation only after a summary, and a `keepRecent`
 that is a positive multiple of four. All their cuts fall between turns, so `RunSafety` applies
 to the whole run. `KeepRecent` and `Conditions` show that none of the conditions can be dropped.
 */
module RegularRuns {
  import opened Messages
  import opened Context
  import opened ContextLaws
  import opened AgentSpec
  import opened RunSafety
  import opened CompactionCuts

  /** No notes, no failing summary, no truncated turn with calls. */
  ghost predicate Calm(env: Env) {
    && (forall n: nat :: env.summary(n).Some?)
    && (forall n: nat :: env.userNotes(n) == [])
    && (forall n: nat :: env.toolNotes(n) == [])
    && (forall n: nat :: env.reply(n).Response? && env.reply(n).stop == MaxTokens ==>
          BlockUses(env.reply(n).blocks) == [])
  }

  ghost predicate Benign(env: Env, cfg: Config) {
    Calm(env) && cfg.keepRecent > 0 && cfg.keepRecent % 4 == 0
  }

  /**
   In the run with this log, emergency truncation only ever followed a summary: the other cuts
   keep no front part, and a list too short to summarise has at most `keepRecent` messages.
   */
  predicate SummarisedFirst(cfg: Config, log: seq<Event>) {
    forall i :: 0 <= i < |log| && log[i].Cut? && log[i].p > 0 ==> |log[i].list| > cfg.keepRecent
  }

  lemma SummarisedFirstPrefix(cfg: Config, a: seq<Event>, b: seq<Event>)
    requires a <= b && SummarisedFirst(cfg, b)
    ensures SummarisedFirst(cfg, a)
  {
    assert forall i :: 0 <= i < |a| ==> a[i] == b[i];
  }

  // ---------- the invariant ----------

  predicate Bounded(h: History) {
    AtBoundary(h, false) || AtBoundary(h, true)
  }

  /** A boundary, possibly followed by the assistant turn being worked on. */
  predicate MidTurn(h: History) {
    Bounded(h) || (h != [] && Bounded(h[..|h| - 1]) && h[|h| - 1].role == Assistant && h[|h| - 1].content.Blocks?)
  }

  /** Clean, and the list involved follows the turn order. */
  predicate Regular(e: Event) {
    && Clean(e)
    && match e
       case Call(l) => Bounded(l)
       case Saved(l) => Bounded(l)
       case Pause(l) => MidTurn(l)
       case Held(l) => MidTurn(l)
       case _ => true
  }

  predicate AllRegular(log: seq<Event>) {
    forall i :: 0 <= i < |log| ==> Regular(log[i])
  }

  /** The invariant at a turn boundary. */
  predicate OnTrack(st: State) {
    Paired(st.messages) && Bounded(st.messages) && AllRegular(st.log)
  }

  lemma SameRoles(h: History, g: History)
    requires OnlyResultTextDiffers(h, g) && Bounded(h)
    ensures Bounded(g)
  {
    forall i | 0 <= i < |h| ensures h[i].role == g[i].role && (h[i].content.Absent? <==> g[i].content.Absent?) {
      assert SameButResultText(h[i], g[i]);
    }
  }

  lemma LayersBounded(h: History, keepRecent: int)
    requires Bounded(h)
    ensures Bounded(Truncated(h))
    ensures Bounded(Snipped(Truncated(h), keepRecent))
    ensures Bounded(Layers(h, keepRecent))
  {
    TruncateTouchesResultTextOnly(h);
    SnipTouchesResultTextOnly(Truncated(h), keepRecent);
    DropTouchesResultTextOnly(Snipped(Truncated(h), keepRecent), keepRecent);
    SameRoles(h, Truncated(h));
    SameRoles(Truncated(h), Snipped(Truncated(h), keepRecent));
    SameRoles(Snipped(Truncated(h), keepRecent), Layers(h, keepRecent));
  }

  /** An even number of kept messages always starts with an assistant turn. */
  lemma EvenCutIsClean(h: History, k: int)
    requires Paired(h) && Bounded(h) && 0 < k < |h| && k % 2 == 0
    ensures ResultsAt(h, |h| - k) == []
  {
    EvenFromEnd(h, k);
    assert RoleOk(h[|h| - k]);
  }

  lemma EvenFromEnd(h: History, k: int)
    requires Bounded(h) && 0 < k < |h| && k % 2 == 0
    ensures h[|h| - k].role == Assistant
  {
    var i := |h| - k;
    assert i % 2 == |h| % 2;
    if AtBoundary(h, false) {
      assert TurnOk(h[i], false, i);
    } else {
      assert TurnOk(h[i], true, i);
    }
  }

  lemma SummaryBounded(h: History, k: int, compactions: nat, text: string)
    requires Bounded(h) && 0 < k < |h| && k % 2 == 0
    ensures AtBoundary(SummaryMessages(compactions, text) + h[|h| - k..], true)
  {
    var m := SummaryMessages(compactions, text) + h[|h| - k..];
    forall i | 0 <= i < |m| ensures TurnOk(m[i], true, i) {
      if i >= 2 { assert m[i] == h[|h| - k + i - 2]; }
    }
  }

  lemma SummarizedOnTrack(env: Env, cfg: Config, st: State, h: History)
    requires Benign(env, cfg) && OnTrack(st) && Paired(h) && Bounded(h)
    ensures var (m, s) := Summarized(env, cfg, st, h);
            && AllRegular(s.log) && Paired(m) && Bounded(m)
            && (|h| > cfg.keepRecent ==>
                  && AtBoundary(m, true) && |m| == cfg.keepRecent + 2
                  && UsesBefore(m, 2) == [])
  {
    SummarizedRegular(env, cfg, st, h);
    if |h| > cfg.keepRecent {
      SummaryOnTrack(h, cfg.keepRecent, st.compactions, env.summary(st.calls).value);
    }
  }

  lemma SummaryOnTrack(h: History, k: int, compactions: nat, text: string)
    requires Paired(h) && Bounded(h) && 0 < k < |h| && k % 2 == 0
    ensures var m := SummaryMessages(compactions, text) + h[|h| - k..];
            Paired(m) && AtBoundary(m, true) && |m| == k + 2 && UsesBefore(m, 2) == []
  {
    EvenCutIsClean(h, k);
    SummaryBounded(h, k, compactions, text);
    SummaryCutExactly(h, |h| - k, compactions, text);
  }

  lemma SummarizedRegular(env: Env, cfg: Config, st: State, h: History)
    requires OnTrack(st)
    ensures AllRegular(Summarized(env, cfg, st, h).1.log)
  {
    var q := SliceStart(|h|, cfg.keepRecent);
    var asked := [UserText(env.transcript(h[..q]))];
    assert Bounded(asked);
    RegularSnoc(st.log, Pause(st.messages));
    RegularSnoc(st.log + [Pause(st.messages)], Call(asked));
    assert st.log + [Pause(st.messages), Call(asked)] == st.log + [Pause(st.messages)] + [Call(asked)];
  }

  lemma HeadAndTailBounded(m: History, q: nat)
    requires AtBoundary(m, true) && 2 <= q < |m| && q % 2 == 0
    ensures AtBoundary(m[..2] + m[q..], true)
  {
    var r := m[..2] + m[q..];
    forall i | 0 <= i < |r| ensures TurnOk(r[i], true, i) {
      assert r[i] == if i < 2 then m[i] else m[q + i - 2];
    }
  }

  /** After a summary, emergency truncation also cuts between turns. */
  lemma EmergencyAfterSummary(m: History, k: int)
    requires Paired(m) && AtBoundary(m, true) && k > 0 && k % 4 == 0 && |m| == k + 2
    requires UsesBefore(m, 2) == []
    ensures Paired(Emergency(m, k)) && Bounded(Emergency(m, k))
  {
    EmergencyTailAfterSummary(m, k);
    EvenCutIsClean(m, k / 2);
    EmergencyCutExactly(m, k);
    HeadAndTailBounded(m, |m| - k / 2);
  }

  lemma LastResortOnTrack(env: Env, cfg: Config, st: State, h: History)
    requires Benign(env, cfg) && OnTrack(st) && Paired(h) && Bounded(h)
    requires SummarisedFirst(cfg, LastResort(env, cfg, st, h).1.log)
    ensures var (m, s) := LastResort(env, cfg, st, h);
            AllRegular(s.log) && Paired(m) && Bounded(m)
  {
    SummarizedOnTrack(env, cfg, st, h);
    var (m, s) := Summarized(env, cfg, st, h);
    if |h| > cfg.keepRecent {
      EmergencyAfterSummary(m, cfg.keepRecent);
    } else {
      NoEmergencyWithoutSummary(env, cfg, st, h);
    }
    LastResortRegular(env, cfg, st, h);
  }

  lemma LastResortRegular(env: Env, cfg: Config, st: State, h: History)
    requires Paired(h) && AllRegular(Summarized(env, cfg, st, h).1.log) && Paired(LastResort(env, cfg, st, h).0)
    ensures AllRegular(LastResort(env, cfg, st, h).1.log)
  {
    LastResortLogged(env, cfg, st, h);
    var (m, s) := Summarized(env, cfg, st, h);
    if Over(env, cfg, m) {
      EmergencyExactly(env, cfg, st, h);
      EmergencyRegular(s.log, EmergencyCut(cfg, m), EmergencyNet(env, cfg, st, h));
    } else {
      ResummaryExactly(env, cfg, st, h);
      RegularSnoc(s.log, SummaryNet(env, cfg, st, h));
    }
  }

  lemma EmergencyRegular(log: seq<Event>, cut: Event, net: Event)
    requires AllRegular(log) && cut.Cut? && net.Net? && Clean(net)
    ensures AllRegular(log + [cut] + [net])
  {
    RegularSnoc(log, cut);
    RegularSnoc(log + [cut], net);
  }

  lemma RegularSnoc(log: seq<Event>, e: Event)
    ensures AllRegular(log + [e]) <==> AllRegular(log) && Regular(e)
  {
    assert forall i :: 0 <= i < |log| ==> (log + [e])[i] == log[i];
    assert (log + [e])[|log|] == e;
  }

  lemma NoEmergencyWithoutSummary(env: Env, cfg: Config, st: State, h: History)
    requires h != [] && |h| <= cfg.keepRecent && SummarisedFirst(cfg, LastResort(env, cfg, st, h).1.log)
    ensures !Over(env, cfg, h)
  {
    if Over(env, cfg, h) { EmergencyIsLogged(env, cfg, st, h); }
  }

  lemma EmergencyIsLogged(env: Env, cfg: Config, st: State, h: History)
    requires h != [] && |h| <= cfg.keepRecent && Over(env, cfg, h)
    ensures var log := LastResort(env, cfg, st, h).1.log;
            |log| >= 2 && log[|log| - 2].Cut? && log[|log| - 2].p > 0 && log[|log| - 2].list == h
  {
  }

  lemma CompactedOnTrack(env: Env, cfg: Config, st: State, h: History)
    requires Benign(env, cfg) && OnTrack(st) && Paired(h) && Bounded(h)
    requires SummarisedFirst(cfg, Compacted(env, cfg, st, h).1.log)
    ensures var (m, s) := Compacted(env, cfg, st, h);
            AllRegular(s.log) && Paired(m) && Bounded(m)
  {
    LayersPaired(h, cfg.keepRecent);
    LayersBounded(h, cfg.keepRecent);
    var layer3 := Layers(h, cfg.keepRecent);
    if Compacted(env, cfg, st, h) == LastResort(env, cfg, st, layer3) {
      LastResortOnTrack(env, cfg, st, layer3);
    }
  }

  lemma AskedOnTrack(st: State)
    requires OnTrack(st)
    ensures OnTrack(Asked(st))
    ensures OnTrack(st.(log := st.log + [Pause(st.messages)]))
  {
  }

  lemma LayersOnTrack(st: State, keepRecent: int)
    requires OnTrack(st)
    ensures OnTrack(st.(messages := Layers(st.messages, keepRecent)))
  {
    LayersPaired(st.messages, keepRecent);
    LayersBounded(st.messages, keepRecent);
  }

  lemma ResummarizedOnTrack(env: Env, cfg: Config, st: State)
    requires Benign(env, cfg) && OnTrack(st)
    ensures var (m, s) := Summarized(env, cfg, st, st.messages);
            OnTrack(s.(messages := m, log := s.log + [SummaryNet(env, cfg, st, st.messages)]))
  {
    SummarizedOnTrack(env, cfg, st, st.messages);
    ResummaryExactly(env, cfg, st, st.messages);
  }

  lemma AttemptedOnTrack(env: Env, cfg: Config, st: State, attempt: nat)
    requires Benign(env, cfg) && OnTrack(st)
    ensures OnTrack(Attempted(env, cfg, st, attempt).st)
  {
    var asked := Asked(st);
    AskedOnTrack(st);
    AskedOnTrack(asked);
    LayersOnTrack(asked, LOOP_KEEP_RECENT);
    ResummarizedOnTrack(env, cfg, asked);
  }

  lemma {:induction false} CalledOnTrack(env: Env, cfg: Config, st: State, attempt: nat)
    requires Benign(env, cfg) && OnTrack(st)
    ensures OnTrack(Called(env, cfg, st, attempt).1)
    decreases Attempts(cfg) + 1 - attempt
  {
    if attempt <= Attempts(cfg) {
      AttemptedOnTrack(env, cfg, st, attempt);
      var o := Attempted(env, cfg, st, attempt);
      if o.Again? { CalledOnTrack(env, cfg, o.st, attempt + 1); }
    }
  }

  lemma PreparedOnTrack(env: Env, cfg: Config, st: State, turn: nat)
    requires Benign(env, cfg) && OnTrack(st)
    requires SummarisedFirst(cfg, Prepared(env, cfg, st, turn).log)
    ensures OnTrack(Prepared(env, cfg, st, turn))
  {
    assert env.userNotes(turn) == [] && env.toolNotes(turn) == [];
    assert st.messages + NoteMessages([], "[user note] ") + NoteMessages([], "") == st.messages;
    assert Drained(env, st, turn) == st;
    SummarisedFirstPrefix(cfg, Compacted(env, cfg, st, st.messages).1.log, Prepared(env, cfg, st, turn).log);
    CompactedOnTrack(env, cfg, st, st.messages);
  }

  lemma TwoMoreBounded(h: History, a: Message, u: Message)
    requires Bounded(h) && a.role == Assistant && a.content.Blocks? && u.role == User && !u.content.Absent?
    ensures Bounded(h + [a] + [u]) && MidTurn(h + [a])
  {
    var c := h + [a] + [u];
    assert (h + [a])[..|h|] == h;
    if AtBoundary(h, false) {
      forall i | 0 <= i < |c| ensures TurnOk(c[i], false, i) {
        if i < |h| { assert c[i] == h[i]; }
      }
    } else {
      forall i | 0 <= i < |c| ensures TurnOk(c[i], true, i) {
        if i < |h| { assert c[i] == h[i]; }
      }
    }
  }

  lemma RepliedOnTrack(env: Env, cfg: Config, st: State, turn: nat, n: nat)
    requires EnvOk(env) && Benign(env, cfg) && OnTrack(st) && env.reply(n).Response?
    ensures var (s, flow) := Replied(env, cfg, st, turn, env.reply(n));
            AllRegular(s.log) && (flow == Continue ==> OnTrack(s))
  {
    NoCallsNoUses(env.reply(n).blocks);
    if CallsOf(env.reply(n).blocks) == [] {
      AnsweredWithoutCalls(env, cfg, st, turn, env.reply(n));
    } else {
      AnsweredWithCalls(env, cfg, st, turn, env.reply(n));
    }
    var s := Answered(env, cfg, st, turn, env.reply(n)).0;
    RegularSnoc(s.log, Held(s.messages));
  }

  lemma AnsweredWithoutCalls(env: Env, cfg: Config, st: State, turn: nat, reply: Reply)
    requires OnTrack(st) && reply.Response? && BlockResults(reply.blocks) == []
    requires CallsOf(reply.blocks) == [] && BlockUses(reply.blocks) == []
    ensures var (s, flow) := Answered(env, cfg, st, turn, reply);
            AllRegular(s.log) && MidTurn(s.messages) && (flow == Continue ==> Paired(s.messages) && Bounded(s.messages))
  {
    var message := Message(Assistant, Blocks(reply.blocks));
    AnsweredByTextOnTrack(st.messages, message, env.recoveryText);
    AnsweredByTextOnTrack(st.messages, message, env.nudgeText);
    RegularSnoc(st.log, TextReply(message));
  }

  lemma AnsweredWithCalls(env: Env, cfg: Config, st: State, turn: nat, reply: Reply)
    requires EnvOk(env) && OnTrack(st) && reply.Response? && BlockResults(reply.blocks) == []
    requires CallsOf(reply.blocks) != [] && reply.stop != MaxTokens
    ensures var (s, flow) := Answered(env, cfg, st, turn, reply);
            AllRegular(s.log) && Paired(s.messages) && Bounded(s.messages)
  {
    var message := Message(Assistant, Blocks(reply.blocks));
    AnsweredByToolsOnTrack(env, turn, st.messages, reply.blocks);
    var held := st.messages + [message];
    RegularSnoc(st.log, Pause(held));
    RegularSnoc(st.log + [Pause(held)], Pause(env.edited(turn, held)));
  }

  lemma AnsweredByTextOnTrack(h: History, turn: Message, text: string)
    requires Paired(h) && Bounded(h) && turn.role == Assistant && turn.content.Blocks?
    requires RoleOk(turn) && Results(turn) == [] && Uses(turn) == []
    ensures Paired(h + [turn] + [UserText(text)]) && Bounded(h + [turn] + [UserText(text)]) && MidTurn(h + [turn])
  {
    AnsweredByTextSafe(h, turn, text);
    TwoMoreBounded(h, turn, UserText(text));
  }

  lemma AnsweredByToolsOnTrack(env: Env, turn: nat, h: History, blocks: seq<Block>)
    requires EnvOk(env) && Paired(h) && Bounded(h) && BlockResults(blocks) == []
    ensures var message := Message(Assistant, Blocks(blocks));
            var edited := env.edited(turn, h + [message]);
            var answered := edited + [Message(User, Blocks(Executed(env, turn, CallsOf(blocks))))];
            MidTurn(h + [message]) && MidTurn(edited) && Paired(answered) && Bounded(answered)
  {
    AnsweredByToolsSafe(env, turn, h, blocks);
    var message := Message(Assistant, Blocks(blocks));
    var edited := env.edited(turn, h + [message]);
    assert SameShape(h + [message], edited);
    EditedBounded(h, message, edited, Message(User, Blocks(Executed(env, turn, CallsOf(blocks)))));
  }

  lemma EditedBounded(h: History, a: Message, g: History, u: Message)
    requires Bounded(h) && a.role == Assistant && a.content.Blocks? && SameShape(h + [a], g)
    requires u.role == User && !u.content.Absent?
    ensures MidTurn(h + [a]) && MidTurn(g) && Bounded(g + [u])
  {
    TwoMoreBounded(h, a, u);
    SameShapeMidTurn(h, a, g);
    TwoMoreBounded(g[..|g| - 1], g[|g| - 1], u);
    assert g == g[..|g| - 1] + [g[|g| - 1]];
  }

  lemma SameShapeMidTurn(h: History, a: Message, g: History)
    requires Bounded(h) && a.role == Assistant && a.content.Blocks? && SameShape(h + [a], g)
    ensures Bounded(g[..|g| - 1]) && g[|g| - 1].role == Assistant && g[|g| - 1].content.Blocks?
  {
    assert SameIds((h + [a])[|h|], g[|h|]);
    forall i | 0 <= i < |h| ensures g[i].role == h[i].role && (g[i].content.Absent? <==> h[i].content.Absent?) {
      assert (h + [a])[i] == h[i];
      assert SameIds((h + [a])[i], g[i]);
    }
  }

  lemma {:induction false} LoopOnTrack(env: Env, cfg: Config, st: State, turn: nat)
    requires EnvOk(env) && Benign(env, cfg) && OnTrack(st)
    requires SummarisedFirst(cfg, Loop(env, cfg, st, turn).0.log)
    ensures AllRegular(Loop(env, cfg, st, turn).0.log)
    decreases cfg.maxTurns + 1 - turn
  {
    if turn <= cfg.maxTurns {
      var prepared := Prepared(env, cfg, st, turn);
      TurnGrows(env, cfg, st, turn);
      LoopGrows(env, cfg, st, turn);
      SummarisedFirstPrefix(cfg, prepared.log, Loop(env, cfg, st, turn).0.log);
      PreparedOnTrack(env, cfg, st, turn);
      CalledOnTrack(env, cfg, prepared, 1);
      var (reply, called) := Called(env, cfg, prepared, 1);
      CalledReplies(env, cfg, prepared, 1);
      if reply.Some? {
        var n: nat :| reply.value == env.reply(n);
        RepliedOnTrack(env, cfg, called, turn, n);
        var (s, flow) := Turn(env, cfg, st, turn);
        if flow == Continue {
          LoopOnTrack(env, cfg, s, turn + 1);
        }
      }
    }
  }

  /** The history a run continues from, after the message it was given. */
  function Begun(st: State, userMessage: string): History {
    if userMessage == "" then st.messages else st.messages + [UserText(userMessage)]
  }

  /**
   Every run in a benign environment whose emergency truncations all followed a summary, from a
   fresh start or from a resumed history, hands only paired lists in turn order to the provider, on
   every attempt of every turn.
   */
  lemma RegularRunKeepsPairing(env: Env, cfg: Config, st: State, userMessage: string)
    requires EnvOk(env) && Benign(env, cfg)
    requires Good(st) && AllRegular(st.log) && Bounded(Begun(st, userMessage))
    requires SummarisedFirst(cfg, Run(env, cfg, st, userMessage).0.log)
    ensures var (s, flow) := Run(env, cfg, st, userMessage);
            AllRegular(s.log) && AllSafe(s.log) && Paired(s.messages)
  {
    var begun := st.(nudges := 0, messages := Begun(st, userMessage));
    if userMessage != "" { PairedAppend(st.messages, UserText(userMessage)); }
    LoopOnTrack(env, cfg, begun, 1);
    RunKeepsPairing(env, cfg, st, userMessage);
  }

  /** A fresh agent given its first message. */
  lemma FreshRunKeepsPairing(env: Env, cfg: Config, userMessage: string)
    requires EnvOk(env) && Benign(env, cfg) && userMessage != ""
    requires SummarisedFirst(cfg, Run(env, cfg, State([], 0, 0, 0, 0, []), userMessage).0.log)
    ensures AllSafe(Run(env, cfg, State([], 0, 0, 0, 0, []), userMessage).0.log)
  {
    var st := State([], 0, 0, 0, 0, []);
    assert Bounded(Begun(st, userMessage));
    RegularRunKeepsPairing(env, cfg, st, userMessage);
  }
}
