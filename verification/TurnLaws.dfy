/**
 What a turn does, counted: how often each kind of failure is tried again and with which list, how notes
 arrive, how many truncated or idle turns in a row are answered, and how many turns a run takes.
 */
module TurnLaws {
  import opened Basics
  import opened Messages
  import opened Context
  import opened AgentSpec
  import opened RunSafety

  // ---------- retries ----------

  /** How many attempts a failure of this kind may be the last of. */
  function Tolerated(cfg: Config, kind: ErrorKind): nat {
    match kind
    case TransientError => Max(1, cfg.retryAttempts)
    case OtherError => Min(2, Max(1, cfg.retryAttempts))
    case ContextError => Min(3, Max(1, cfg.retryAttempts))
  }

  /** What is handed out next when attempt `a` (counting from 1), made as call `c`, fails. */
  function NextList(env: Env, cfg: Config, st: State, a: nat, c: nat, list: History, kind: ErrorKind): History {
    if kind != ContextError || a > 2 then list
    else if a == 1 then Layers(list, 10)
    else Summarized(env, cfg, st.(calls := c + 1), list).0
  }

  /**
   Attempts from number `a` on: `cs` are their call numbers and `lists` what they handed out. All but the
   last failed in a way still tolerated there; the last brought the reply or failed for good.
   */
  predicate Tries(env: Env, cfg: Config, st: State, a: nat, cs: seq<nat>, lists: seq<History>,
                  reply: Option<Reply>, end: State)
  {
    && |cs| == |lists| > 0 && a + |cs| - 1 <= Max(1, cfg.retryAttempts)
    && cs[0] == st.calls && lists[0] == st.messages
    && (forall j :: 0 <= j < |cs| - 1 ==>
          && env.reply(cs[j]).Failure? && a + j < Tolerated(cfg, env.reply(cs[j]).kind)
          && cs[j] < cs[j + 1] <= cs[j] + (if env.reply(cs[j]) == Failure(ContextError) && a + j == 2 then 2 else 1)
          && lists[j + 1] == NextList(env, cfg, st, a + j, cs[j], lists[j], env.reply(cs[j]).kind))
    && var last := env.reply(cs[|cs| - 1]);
       if last.Response? then reply == Some(last) && end.messages == lists[|cs| - 1]
       else reply == None && a + |cs| - 1 >= Tolerated(cfg, last.kind)
  }

  lemma TriedOnce(env: Env, cfg: Config, st: State, a: nat)
    requires 1 <= a <= Attempts(cfg)
    ensures var o := Attempted(env, cfg, st, a);
            var r := env.reply(st.calls);
            && o.st.compactions == st.compactions && o.st.recoveries == st.recoveries && o.st.nudges == st.nudges
            && (r.Response? ==> o.Settled? && o.reply == Some(r) && o.st.messages == st.messages)
            && (r.Failure? && a < Tolerated(cfg, r.kind) ==>
                  && o.Again? && o.st.messages == NextList(env, cfg, st, a, st.calls, st.messages, r.kind)
                  && st.calls < o.st.calls <= st.calls + if r == Failure(ContextError) && a == 2 then 2 else 1)
            && (r.Failure? && a >= Tolerated(cfg, r.kind) ==> (o.Settled? && o.reply == None) || a == Attempts(cfg))
  {
  }

  /** The provider is called exactly as often as the failures it answers with are tolerated. */
  lemma {:induction false} CalledTries(env: Env, cfg: Config, st: State, a: nat)
    returns (cs: seq<nat>, lists: seq<History>)
    requires 1 <= a <= Attempts(cfg)
    ensures var (reply, end) := Called(env, cfg, st, a); Tries(env, cfg, st, a, cs, lists, reply, end)
    decreases Attempts(cfg) - a
  {
    TriedOnce(env, cfg, st, a);
    var o, r := Attempted(env, cfg, st, a), env.reply(st.calls);
    if r.Failure? && a < Tolerated(cfg, r.kind) {
      var cs', lists' := CalledTries(env, cfg, o.st, a + 1);
      cs, lists := [st.calls] + cs', [st.messages] + lists';
      var (reply, end) := Called(env, cfg, st, a);
      TriesBehind(env, cfg, st, o.st, a, cs', lists', reply, end);
    } else {
      cs, lists := [st.calls], [st.messages];
    }
  }

  lemma TriesBehind(env: Env, cfg: Config, st: State, next: State, a: nat, cs: seq<nat>, lists: seq<History>,
                    reply: Option<Reply>, end: State)
    requires Tries(env, cfg, next, a + 1, cs, lists, reply, end)
    requires var r := env.reply(st.calls);
      && r.Failure? && a < Tolerated(cfg, r.kind) && next.compactions == st.compactions
      && next.messages == NextList(env, cfg, st, a, st.calls, st.messages, r.kind)
      && st.calls < next.calls <= st.calls + if r == Failure(ContextError) && a == 2 then 2 else 1
    ensures Tries(env, cfg, st, a, [st.calls] + cs, [st.messages] + lists, reply, end)
  {
    var cs', lists' := [st.calls] + cs, [st.messages] + lists;
    forall j | 0 <= j < |cs'| - 1
      ensures env.reply(cs'[j]).Failure?
      ensures lists'[j + 1] == NextList(env, cfg, st, a + j, cs'[j], lists'[j], env.reply(cs'[j]).kind)
    {
      if j > 0 { TriedLater(env, cfg, st, next, a, cs, lists, reply, end, j - 1); }
    }
  }

  lemma TriedLater(env: Env, cfg: Config, st: State, next: State, a: nat, cs: seq<nat>, lists: seq<History>,
                   reply: Option<Reply>, end: State, j: nat)
    requires Tries(env, cfg, next, a + 1, cs, lists, reply, end) && j < |cs| - 1 && next.compactions == st.compactions
    ensures env.reply(cs[j]).Failure?
    ensures lists[j + 1] == NextList(env, cfg, st, a + 1 + j, cs[j], lists[j], env.reply(cs[j]).kind)
  {
    SameNextList(env, cfg, st, next, a + 1 + j, cs[j], lists[j], env.reply(cs[j]).kind);
  }

  lemma SameNextList(env: Env, cfg: Config, st: State, next: State, a: nat, c: nat, list: History, kind: ErrorKind)
    requires next.compactions == st.compactions
    ensures NextList(env, cfg, next, a, c, list, kind) == NextList(env, cfg, st, a, c, list, kind)
  {
  }

  // ---------- notes ----------

  /** Notes follow the list in order, those of the user marked as such. */
  lemma NotesFollow(env: Env, st: State, turn: nat, i: nat)
    ensures var d, n := Drained(env, st, turn), |st.messages|;
            var user, tool := env.userNotes(turn), env.toolNotes(turn);
            && d == st.(messages := d.messages) && |d.messages| == n + |user| + |tool|
            && d.messages[..n] == st.messages
            && (i < |user| ==> d.messages[n + i] == Message(User, Str("[user note] " + user[i])))
            && (i < |tool| ==> d.messages[n + |user| + i] == Message(User, Str(tool[i])))
  {
    var tools := NoteMessages(env.toolNotes(turn), "");
    assert Drained(env, st, turn).messages[|st.messages| + |env.userNotes(turn)|..] == tools;
    if i < |tools| {
      assert "" + env.toolNotes(turn)[i] == env.toolNotes(turn)[i];
      assert tools[i] == UserText(env.toolNotes(turn)[i]);
    }
  }

  // ---------- turns in a row ----------

  /** The state after `n` turns from turn `t` on. */
  function Turns(env: Env, cfg: Config, st: State, t: nat, n: nat): State {
    if n == 0 then st else Turn(env, cfg, Turns(env, cfg, st, t, n - 1), t + n - 1).0
  }

  /** What the provider answers in a turn. */
  function ReplyIn(env: Env, cfg: Config, st: State, t: nat): Option<Reply> {
    Called(env, cfg, Prepared(env, cfg, st, t), 1).0
  }

  lemma {:induction false} CalledKeepsCounters(env: Env, cfg: Config, st: State, a: nat)
    ensures var s := Called(env, cfg, st, a).1; s.recoveries == st.recoveries && s.nudges == st.nudges
    decreases Attempts(cfg) + 1 - a
  {
    if a <= Attempts(cfg) {
      var o := Attempted(env, cfg, st, a);
      AttemptedKeepsCounters(env, cfg, st, a);
      if o.Again? { CalledKeepsCounters(env, cfg, o.st, a + 1); }
    }
  }

  lemma AttemptedKeepsCounters(env: Env, cfg: Config, st: State, a: nat)
    ensures var s := Attempted(env, cfg, st, a).st; s.recoveries == st.recoveries && s.nudges == st.nudges
  {
  }

  lemma BeforeReply(env: Env, cfg: Config, st: State, t: nat)
    ensures var s := Called(env, cfg, Prepared(env, cfg, st, t), 1).1;
            s.recoveries == st.recoveries && s.nudges == st.nudges
  {
    PreparedKeepsCounters(env, cfg, st, t);
    CalledKeepsCounters(env, cfg, Prepared(env, cfg, st, t), 1);
  }

  lemma PreparedKeepsCounters(env: Env, cfg: Config, st: State, t: nat)
    ensures var s := Prepared(env, cfg, st, t); s.recoveries == st.recoveries && s.nudges == st.nudges
  {
  }

  predicate IsTruncated(reply: Option<Reply>) {
    reply.Some? && reply.value.Response? && reply.value.stop == MaxTokens
  }

  /** The turn ended with the recovery prompt. */
  predicate Recovered(env: Env, s: State) {
    && |s.log| >= 2 && s.log[|s.log| - 2].TextReply? && s.messages != []
    && s.messages[|s.messages| - 1] == UserText(env.recoveryText)
  }

  lemma TruncatedTurn(env: Env, cfg: Config, st: State, t: nat)
    requires IsTruncated(ReplyIn(env, cfg, st, t))
    ensures var s := Turn(env, cfg, st, t).0;
            s.recoveries == st.recoveries + 1 && (st.recoveries < 3 ==> Recovered(env, s))
  {
    BeforeReply(env, cfg, st, t);
  }

  lemma UnrecoveredTurn(env: Env, cfg: Config, st: State, t: nat)
    requires IsTruncated(ReplyIn(env, cfg, st, t)) && st.recoveries >= 3
    ensures !Recovered(env, Turn(env, cfg, st, t).0)
  {
    BeforeReply(env, cfg, st, t);
    LastAsked(env, cfg, Prepared(env, cfg, st, t), 1);
  }

  /** The last thing logged before a reply is the call. */
  lemma {:induction false} LastAsked(env: Env, cfg: Config, st: State, a: nat)
    requires Called(env, cfg, st, a).0.Some?
    ensures var log := Called(env, cfg, st, a).1.log; log != [] && log[|log| - 1].Call?
    decreases Attempts(cfg) + 1 - a
  {
    var o := Attempted(env, cfg, st, a);
    if o.Again? { LastAsked(env, cfg, o.st, a + 1); }
  }

  /** The `n` turns from turn `t` on are all truncated. */
  predicate TruncatedRow(env: Env, cfg: Config, st: State, t: nat, n: nat) {
    n == 0 || (TruncatedRow(env, cfg, st, t, n - 1)
               && IsTruncated(ReplyIn(env, cfg, Turns(env, cfg, st, t, n - 1), t + n - 1)))
  }

  lemma {:induction false} TruncatedSoFar(env: Env, cfg: Config, st: State, t: nat, n: nat)
    requires st.recoveries == 0 && TruncatedRow(env, cfg, st, t, n)
    ensures Turns(env, cfg, st, t, n).recoveries == n
  {
    if n > 0 {
      TruncatedSoFar(env, cfg, st, t, n - 1);
      TruncatedTurn(env, cfg, Turns(env, cfg, st, t, n - 1), t + n - 1);
    }
  }

  /** Of truncated turns in a row exactly the first three are answered with the recovery prompt. */
  lemma FirstThreeRecovered(env: Env, cfg: Config, st: State, t: nat, n: nat)
    requires st.recoveries == 0 && TruncatedRow(env, cfg, st, t, n + 1)
    ensures Recovered(env, Turns(env, cfg, st, t, n + 1)) <==> n < 3
  {
    TruncatedSoFar(env, cfg, st, t, n);
    var s := Turns(env, cfg, st, t, n);
    TruncatedTurn(env, cfg, s, t + n);
    if n >= 3 { UnrecoveredTurn(env, cfg, s, t + n); }
  }

  /** A turn that is not truncated ends the row, and one that calls tools ends every row of nudges. */
  lemma RowsEnd(env: Env, cfg: Config, st: State, t: nat)
    requires ReplyIn(env, cfg, st, t).Some?
    ensures var s, r := Turn(env, cfg, st, t).0, ReplyIn(env, cfg, st, t).value;
            && (r.stop != MaxTokens ==> s.recoveries == 0)
            && (r.stop != MaxTokens && BlockUses(r.blocks) != [] ==> s.nudges == 0)
  {
    NoCallsNoUses(ReplyIn(env, cfg, st, t).value.blocks);
  }

  /** A whole answer without tools that promises more work. */
  predicate IsIdle(env: Env, reply: Option<Reply>) {
    && reply.Some? && reply.value.Response? && reply.value.stop != MaxTokens
    && BlockUses(reply.value.blocks) == [] && env.premature(reply.value.blocks)
  }

  lemma IdleTurn(env: Env, cfg: Config, st: State, t: nat)
    requires IsIdle(env, ReplyIn(env, cfg, st, t))
    ensures var (s, flow) := Turn(env, cfg, st, t);
            var nudged := st.nudges < 3 && t < cfg.maxTurns;
            && s.nudges == st.nudges + (if nudged then 1 else 0) && flow == (if nudged then Continue else Finished)
            && s.messages != []
            && var last := s.messages[|s.messages| - 1];
               if nudged then last == UserText(env.nudgeText) else last.role == Assistant
  {
    NoCallsNoUses(ReplyIn(env, cfg, st, t).value.blocks);
    BeforeReply(env, cfg, st, t);
  }

  /** The `n` turns from turn `t` on are all idle. */
  predicate IdleRow(env: Env, cfg: Config, st: State, t: nat, n: nat) {
    n == 0 || (IdleRow(env, cfg, st, t, n - 1)
               && IsIdle(env, ReplyIn(env, cfg, Turns(env, cfg, st, t, n - 1), t + n - 1)))
  }

  lemma {:induction false} IdleSoFar(env: Env, cfg: Config, st: State, t: nat, n: nat)
    requires st.nudges == 0 && n <= 3 && t + n <= cfg.maxTurns && IdleRow(env, cfg, st, t, n)
    ensures Turns(env, cfg, st, t, n).nudges == n
  {
    if n > 0 {
      IdleSoFar(env, cfg, st, t, n - 1);
      IdleTurn(env, cfg, Turns(env, cfg, st, t, n - 1), t + n - 1);
    }
  }

  /** Of idle turns in a row the first three are nudged on, if a turn is left; then the run is finished. */
  lemma FirstThreeNudged(env: Env, cfg: Config, st: State, t: nat, n: nat)
    requires st.nudges == 0 && n <= 3 && t + n <= cfg.maxTurns && IdleRow(env, cfg, st, t, n + 1)
    ensures var flow := Turn(env, cfg, Turns(env, cfg, st, t, n), t + n).1;
            flow == if n < 3 && t + n < cfg.maxTurns then Continue else Finished
  {
    IdleSoFar(env, cfg, st, t, n);
    IdleTurn(env, cfg, Turns(env, cfg, st, t, n), t + n);
  }

  /**
   A turn that is neither truncated nor idle goes on exactly when it calls tools; it then ends on one user
   message holding their results, and otherwise on the answer.
   */
  lemma OtherwiseToolsDecide(env: Env, cfg: Config, st: State, t: nat)
    requires var r := ReplyIn(env, cfg, st, t); r.Some? && r.value.stop != MaxTokens && !IsIdle(env, r)
    ensures var (s, flow) := Turn(env, cfg, st, t);
            var blocks := ReplyIn(env, cfg, st, t).value.blocks;
            && (flow == Continue <==> BlockUses(blocks) != []) && (flow == Finished <==> BlockUses(blocks) == [])
            && s.messages != []
            && s.messages[|s.messages| - 1] ==
               if BlockUses(blocks) == [] then Message(Assistant, Blocks(blocks))
               else Message(User, Blocks(Executed(env, t, CallsOf(blocks))))
  {
    NoCallsNoUses(ReplyIn(env, cfg, st, t).value.blocks);
  }

  /** A run starts its first turn with the given message behind the list, and with no nudges. */
  lemma RunBegins(env: Env, cfg: Config, st: State, userMessage: string) returns (begun: State)
    ensures Run(env, cfg, st, userMessage) == Loop(env, cfg, begun, 1)
    ensures begun.nudges == 0 && begun == st.(nudges := begun.nudges, messages := begun.messages)
    ensures begun.messages == st.messages + if userMessage == "" then [] else [Message(User, Str(userMessage))]
  {
    begun := st.(nudges := 0,
                 messages := if userMessage == "" then st.messages else st.messages + [UserText(userMessage)]);
  }

  // ---------- the number of turns ----------

  /** Every turn saves the list once, before it calls the provider. */
  function Saves(log: seq<Event>): nat {
    if log == [] then 0 else Saves(log[..|log| - 1]) + if log[|log| - 1].Saved? then 1 else 0
  }

  lemma SavesSnoc(log: seq<Event>, e: Event)
    ensures Saves(log + [e]) == Saves(log) + if e.Saved? then 1 else 0
  {
    assert (log + [e])[..|log|] == log;
  }

  lemma SavesSnocTwo(log: seq<Event>, e: Event, f: Event)
    requires !e.Saved? && !f.Saved?
    ensures Saves(log + [e, f]) == Saves(log + [e] + [f]) == Saves(log)
  {
    SavesSnoc(log, e);
    SavesSnoc(log + [e], f);
    assert log + [e, f] == log + [e] + [f];
  }

  lemma SummarizedSaves(env: Env, cfg: Config, st: State, h: History)
    ensures Saves(Summarized(env, cfg, st, h).1.log) == Saves(st.log)
  {
    if |h| > cfg.keepRecent {
      var q := SliceStart(|h|, cfg.keepRecent);
      var request := Call([UserText(env.transcript(h[..q]))]);
      SavesSnocTwo(st.log, Pause(st.messages), request);
      SavesSnoc(st.log + [Pause(st.messages), request], Halved(h));
      SavesSnoc(st.log + [Pause(st.messages), request], Cut(h, 0, q));
    }
  }

  lemma LastResortSaves(env: Env, cfg: Config, st: State, h: History)
    ensures Saves(LastResort(env, cfg, st, h).1.log) == Saves(st.log)
  {
    SummarizedSaves(env, cfg, st, h);
    LastResortLogged(env, cfg, st, h);
    var (m, s) := Summarized(env, cfg, st, h);
    SavesSnocTwo(s.log, EmergencyCut(cfg, m), EmergencyNet(env, cfg, st, h));
    SavesSnoc(s.log, SummaryNet(env, cfg, st, h));
  }

  lemma PreparedSaves(env: Env, cfg: Config, st: State, turn: nat)
    ensures Saves(Prepared(env, cfg, st, turn).log) == Saves(st.log) + 1
  {
    var drained := Drained(env, st, turn);
    LastResortSaves(env, cfg, drained, Layers(drained.messages, cfg.keepRecent));
    var (h, s) := Compacted(env, cfg, drained, drained.messages);
    SavesSnoc(s.log, Saved(h));
  }

  lemma AttemptedSaves(env: Env, cfg: Config, st: State, attempt: nat)
    ensures Saves(Attempted(env, cfg, st, attempt).st.log) == Saves(st.log)
  {
    var asked := Asked(st);
    SavesSnocTwo(st.log, Pause(st.messages), Call(st.messages));
    if env.reply(st.calls) != Failure(ContextError) {
      SavesSnoc(asked.log, Pause(asked.messages));
    } else {
      SummarizedSaves(env, cfg, asked, asked.messages);
      SavesSnoc(Summarized(env, cfg, asked, asked.messages).1.log, SummaryNet(env, cfg, asked, asked.messages));
    }
  }

  lemma {:induction false} CalledSaves(env: Env, cfg: Config, st: State, attempt: nat)
    ensures Saves(Called(env, cfg, st, attempt).1.log) == Saves(st.log)
    decreases Attempts(cfg) + 1 - attempt
  {
    if attempt <= Attempts(cfg) {
      AttemptedSaves(env, cfg, st, attempt);
      var o := Attempted(env, cfg, st, attempt);
      if o.Again? { CalledSaves(env, cfg, o.st, attempt + 1); }
    }
  }

  lemma RepliedSaves(env: Env, cfg: Config, st: State, turn: nat, reply: Reply)
    requires reply.Response?
    ensures Saves(Replied(env, cfg, st, turn, reply).0.log) == Saves(st.log)
  {
    var message := Message(Assistant, Blocks(reply.blocks));
    var held := st.messages + [message];
    SavesSnoc(st.log, TextReply(message));
    SavesSnocTwo(st.log, Pause(held), Pause(env.edited(turn, held)));
    var s := Answered(env, cfg, st, turn, reply).0;
    SavesSnoc(s.log, Held(s.messages));
  }

  lemma TurnSaves(env: Env, cfg: Config, st: State, turn: nat)
    ensures Saves(Turn(env, cfg, st, turn).0.log) == Saves(st.log) + 1
  {
    PreparedSaves(env, cfg, st, turn);
    CalledSaves(env, cfg, Prepared(env, cfg, st, turn), 1);
    var (reply, called) := Called(env, cfg, Prepared(env, cfg, st, turn), 1);
    if reply.Some? { RepliedSaves(env, cfg, called, turn, reply.value); }
  }

  lemma {:induction false} LoopSaves(env: Env, cfg: Config, st: State, turn: nat)
    ensures var (s, flow) := Loop(env, cfg, st, turn);
            && Saves(st.log) <= Saves(s.log) <= Saves(st.log) + Max(0, cfg.maxTurns + 1 - turn)
            && flow != Continue
            && (flow == OutOfTurns ==> Saves(s.log) == Saves(st.log) + Max(0, cfg.maxTurns + 1 - turn))
    decreases cfg.maxTurns + 1 - turn
  {
    if turn <= cfg.maxTurns {
      TurnSaves(env, cfg, st, turn);
      LoopSaves(env, cfg, Turn(env, cfg, st, turn).0, turn + 1);
    }
  }

  /** A run takes at most `maxTurns` turns, and all of them if it runs out. */
  lemma RunTakesItsTurns(env: Env, cfg: Config, st: State, userMessage: string)
    ensures var (s, flow) := Run(env, cfg, st, userMessage);
            && Saves(s.log) - Saves(st.log) <= Max(0, cfg.maxTurns)
            && (flow == OutOfTurns ==> Saves(s.log) - Saves(st.log) == Max(0, cfg.maxTurns))
            && flow in {Finished, GaveUp, OutOfTurns}
  {
    var begun := RunBegins(env, cfg, st, userMessage);
    LoopSaves(env, cfg, begun, 1);
  }
}
