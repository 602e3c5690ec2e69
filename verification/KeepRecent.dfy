/**
 Which values of `keepRecent` are safe: exactly the multiples of four. For every other positive value
 there is a run, regular in all other respects, that hands out an unpaired list.
 */
module KeepRecent {
  import opened Basics
  import opened Decimal
  import opened Messages
  import opened Context
  import opened ContextLaws
  import opened AgentSpec
  import opened RunSafety
  import opened CompactionCuts
  import opened RegularRuns

  const FRESH := State([], 0, 0, 0, 0, [])

  /** A fresh run meeting every condition of a regular run but the one on `keepRecent`. */
  ghost predicate OtherwiseRegular(env: Env, cfg: Config, userMessage: string) {
    && EnvOk(env) && Calm(env) && userMessage != ""
    && SummarisedFirst(cfg, Run(env, cfg, FRESH, userMessage).0.log)
  }

  // ---------- runs that call one tool in every turn ----------

  /** The reply to the n-th call. */
  function WorkerReply(n: nat): Reply {
    Response([ToolUse(Digits(n), "Bash", map[])], OtherStop)
  }

  /** One tool call in every turn, and an estimate that counts messages. */
  function Worker(): Env {
    Env((n: nat) => WorkerReply(n),
        n => Some("so far"),
        h => |h|,
        h => "",
        n => [],
        n => [],
        name => WritingTool,
        (turn, position, call) => ToolOutput(Text("ok"), false),
        (turn, h) => h,
        name => "",
        blocks => false,
        "",
        "")
  }

  /** The estimate is the number of messages. */
  ghost predicate CountsMessages(env: Env) {
    forall h: History {:trigger env.estimate(h)} :: env.estimate(h) == |h|
  }

  /** An environment that replies and counts like `Worker`, whatever its summaries and notes. */
  ghost predicate IsWorker(env: Env) {
    && EnvOk(env) && CountsMessages(env)
    && (forall n: nat :: env.reply(n) == WorkerReply(n))
    && (forall turn: nat, h: History {:trigger env.edited(turn, h)} :: env.edited(turn, h) == h)
  }

  lemma WorkerCalls(n: nat)
    ensures var bs := WorkerReply(n).blocks;
            CallsOf(bs) == bs && BlockUses(bs) == [Digits(n)] && BlockResults(bs) == []
  {
    assert WorkerReply(n).blocks[..0] == [];
  }

  lemma WorkerIsCalm()
    ensures IsWorker(Worker()) && Calm(Worker())
  {
    forall n: nat ensures BlockResults(Worker().reply(n).blocks) == [] {
      WorkerCalls(n);
    }
  }

  /** At the start of turn t nothing has been compacted and every turn so far has called a tool. */
  predicate Working(st: State, t: nat) {
    && t >= 1 && |st.messages| == 2 * t - 1
    && Paired(st.messages) && AtBoundary(st.messages, false) && Busy(st.messages)
    && forall i :: 0 <= i < |st.log| ==> !st.log[i].Cut?
  }

  lemma OneMoreTurn(env: Env, h: History, n: nat, turn: nat)
    requires Paired(h) && AtBoundary(h, false) && Busy(h)
    ensures var bs := WorkerReply(n).blocks;
            var results := Message(User, Blocks(Executed(env, turn, CallsOf(bs))));
            var g := h + [Message(Assistant, Blocks(bs))] + [results];
            Paired(g) && AtBoundary(g, false) && Busy(g)
  {
    var bs := WorkerReply(n).blocks;
    var message := Message(Assistant, Blocks(bs));
    WorkerCalls(n);
    AnsweredByToolsSafe(env, turn, h, bs);
    assert SameShape(h + [message], h + [message]);
    TwoMoreBusy(h, message, Message(User, Blocks(Executed(env, turn, CallsOf(bs)))));
  }

  lemma TwoMoreBusy(h: History, a: Message, u: Message)
    requires AtBoundary(h, false) && Busy(h)
    requires a.role == Assistant && u.role == User && !a.content.Absent? && !u.content.Absent? && Uses(a) != []
    ensures AtBoundary(h + [a] + [u], false) && Busy(h + [a] + [u])
  {
    var g := h + [a] + [u];
    forall i | 0 <= i < |g| ensures TurnOk(g[i], false, i) && (g[i].role == Assistant ==> Uses(g[i]) != []) {
      assert g[i] == if i < |h| then h[i] else if i == |h| then a else u;
      assert i < |h| ==> TurnOk(h[i], false, i);
    }
  }

  lemma NothingDrained(env: Env, st: State, t: nat)
    requires env.userNotes(t) == [] && env.toolNotes(t) == []
    ensures Drained(env, st, t) == st
  {
    assert NoteMessages([], "[user note] ") == [] && NoteMessages([], "") == [];
    assert st.messages + [] + [] == st.messages;
  }

  /** What a turn does after its compaction: the list is handed out, and nothing is cut. */
  lemma AfterPrepared(env: Env, cfg: Config, st: State, t: nat)
    requires var n := Prepared(env, cfg, st, t).calls; env.reply(n) == WorkerReply(n)
    ensures var p := Prepared(env, cfg, st, t);
            var (s, flow) := Turn(env, cfg, st, t);
            && flow == Continue && |s.log| == |p.log| + 5 && p.log <= s.log
            && s.log[|p.log| + 1] == Call(p.messages)
            && (forall i :: |p.log| <= i < |s.log| ==> !s.log[i].Cut?)
  {
    WorkerCalls(Prepared(env, cfg, st, t).calls);
  }

  /** No compaction while the list is short. */
  lemma QuietPrepared(env: Env, cfg: Config, st: State, t: nat)
    requires env.userNotes(t) == [] && env.toolNotes(t) == [] && env.estimate(st.messages) < cfg.threshold
    ensures Prepared(env, cfg, st, t) == st.(log := st.log + [Saved(st.messages)])
  {
    NothingDrained(env, st, t);
  }

  lemma WorkerCalled(env: Env, cfg: Config, st: State)
    requires env.reply(st.calls) == WorkerReply(st.calls)
    ensures Called(env, cfg, st, 1) == (Some(WorkerReply(st.calls)), Asked(st))
  {
  }

  lemma WorkerReplied(env: Env, cfg: Config, st: State, t: nat, n: nat)
    requires IsWorker(env)
    ensures var bs := WorkerReply(n).blocks;
            var (s, flow) := Replied(env, cfg, st, t, WorkerReply(n));
            && flow == Continue && |s.log| == |st.log| + 3 && st.log <= s.log
            && (forall i :: |st.log| <= i < |s.log| ==> !s.log[i].Cut?)
            && s.messages == st.messages + [Message(Assistant, Blocks(bs))]
                             + [Message(User, Blocks(Executed(env, t, CallsOf(bs))))]
  {
    WorkerCalls(n);
  }

  /** A turn that does not compact. */
  lemma QuietTurn(env: Env, cfg: Config, st: State, t: nat)
    requires IsWorker(env) && env.userNotes(t) == [] && env.toolNotes(t) == []
    requires Working(st, t) && 2 * t - 1 < cfg.threshold
    ensures var (s, flow) := Turn(env, cfg, st, t);
            flow == Continue && Working(s, t + 1)
  {
    QuietPrepared(env, cfg, st, t);
    var prepared := st.(log := st.log + [Saved(st.messages)]);
    WorkerCalled(env, cfg, prepared);
    WorkerReplied(env, cfg, Asked(prepared), t, st.calls);
    OneMoreTurn(env, st.messages, st.calls, t);
  }

  /** Turns before the last one are quiet. */
  ghost predicate QuietUntilLast(env: Env, cfg: Config) {
    && IsWorker(env) && cfg.maxTurns >= 1 && 2 * cfg.maxTurns - 3 < cfg.threshold
    && forall t: nat :: t < cfg.maxTurns ==> env.userNotes(t) == [] && env.toolNotes(t) == []
  }

  lemma QuietStep(env: Env, cfg: Config, st: State, t: nat) returns (s: State)
    requires QuietUntilLast(env, cfg) && t < cfg.maxTurns && Working(st, t)
    ensures Working(s, t + 1) && Loop(env, cfg, st, t) == Loop(env, cfg, s, t + 1)
  {
    QuietTurn(env, cfg, st, t);
    s := Turn(env, cfg, st, t).0;
  }

  lemma LastStep(env: Env, cfg: Config, st: State)
    requires cfg.maxTurns >= 1
    ensures Loop(env, cfg, st, cfg.maxTurns).0 == Turn(env, cfg, st, cfg.maxTurns).0
  {
  }

  lemma LoopReachesLast(env: Env, cfg: Config, st: State) returns (last: State)
    requires QuietUntilLast(env, cfg) && Working(st, 1)
    ensures Working(last, cfg.maxTurns) && Loop(env, cfg, st, 1) == Loop(env, cfg, last, cfg.maxTurns)
  {
    last := st;
    for t := 1 to cfg.maxTurns
      invariant Working(last, t) && Loop(env, cfg, st, 1) == Loop(env, cfg, last, t)
    {
      last := QuietStep(env, cfg, last, t);
    }
  }

  predicate HandsOutUnpaired(log: seq<Event>) {
    exists i :: 0 <= i < |log| && log[i].Call? && !Paired(log[i].list)
  }

  /** The state in which the first turn starts. */
  function FreshlyBegun(): (st: State)
    ensures Working(st, 1)
  {
    FRESH.(messages := [UserText("go")])
  }

  lemma RunIsLoop(env: Env, cfg: Config)
    ensures Run(env, cfg, FRESH, "go") == Loop(env, cfg, FreshlyBegun(), 1)
  {
    assert FRESH.messages + [UserText("go")] == [UserText("go")];
  }

  /** The whole run, seen from the compaction of its last turn. */
  lemma RunReachesLast(env: Env, cfg: Config) returns (last: State)
    requires QuietUntilLast(env, cfg)
    ensures Working(last, cfg.maxTurns)
    ensures var (p, log) := (Prepared(env, cfg, last, cfg.maxTurns), Run(env, cfg, FRESH, "go").0.log);
            && p.log <= log && (SummarisedFirst(cfg, p.log) ==> SummarisedFirst(cfg, log))
            && (!Paired(p.messages) ==> HandsOutUnpaired(log))
  {
    last := LoopReachesLast(env, cfg, FreshlyBegun());
    RunIsLoop(env, cfg);
    LastStep(env, cfg, last);
    AfterPrepared(env, cfg, last, cfg.maxTurns);
  }

  // ---------- the compaction of the last turn ----------

  /** The turn that compacts. It finds k + 4 messages when k is odd, and k + 1 when it is even. */
  function FatalTurn(k: nat): nat {
    if k % 2 == 1 then (k + 5) / 2 else (k + 2) / 2
  }

  /** Room for the summarised list if k is odd, and no room for it if k is even. */
  function Limits(k: nat): Config {
    Config(FatalTurn(k), 1, k, if k % 2 == 1 then k + 3 else k + 1)
  }

  lemma LayersKeepIds(h: History, k: int)
    ensures |Truncated(h)| == |Snipped(Truncated(h), k)| == |Layers(h, k)| == |h|
    ensures OnlyResultTextDiffers(h, Truncated(h)) && OnlyResultTextDiffers(Truncated(h), Snipped(Truncated(h), k))
    ensures OnlyResultTextDiffers(Snipped(Truncated(h), k), Layers(h, k))
  {
    TruncateTouchesResultTextOnly(h);
    SnipTouchesResultTextOnly(Truncated(h), k);
    DropTouchesResultTextOnly(Snipped(Truncated(h), k), k);
  }

  lemma LayersKeepBusy(h: History, k: int)
    requires Paired(h) && AtBoundary(h, false) && Busy(h)
    ensures var g := Layers(h, k); Paired(g) && AtBoundary(g, false) && Busy(g)
  {
    LayersKeepIds(h, k);
    LayersPaired(h, k);
    BusyKept(h, Truncated(h));
    BusyKept(Truncated(h), Snipped(Truncated(h), k));
    BusyKept(Snipped(Truncated(h), k), Layers(h, k));
  }

  lemma BusyKept(h: History, g: History)
    requires OnlyResultTextDiffers(h, g) && AtBoundary(h, false) && Busy(h)
    ensures AtBoundary(g, false) && Busy(g)
  {
    forall i | 0 <= i < |g| ensures TurnOk(g[i], false, i) && Uses(g[i]) == Uses(h[i]) && g[i].role == h[i].role {
      assert SameButResultText(h[i], g[i]) && TurnOk(h[i], false, i);
      SameButResultTextIds(h[i], g[i]);
    }
  }

  /** Where lists are measured by length, the layers cannot avert the last resort. */
  lemma OnlyLastResort(env: Env, cfg: Config, st: State, h: History)
    requires CountsMessages(env) && |h| >= cfg.threshold
    ensures Compacted(env, cfg, st, h) == LastResort(env, cfg, st, Layers(h, cfg.keepRecent))
  {
    LayersKeepIds(h, cfg.keepRecent);
  }

  /** The run puts a summary in front of what it keeps. */
  predicate Summarises(log: seq<Event>) {
    exists i :: 0 <= i < |log| && log[i].Cut? && log[i].p == 0
  }

  /** The run truncates in an emergency. */
  predicate Truncates(log: seq<Event>) {
    exists i :: 0 <= i < |log| && log[i].Cut? && log[i].p > 0
  }

  /** A log that summarises, before each emergency truncation and with one if `keepRecent` is even. */
  predicate Compacts(cfg: Config, log: seq<Event>) {
    SummarisedFirst(cfg, log) && Summarises(log) && (cfg.keepRecent % 2 == 0 ==> Truncates(log))
  }

  lemma CompactsPrefix(cfg: Config, a: seq<Event>, b: seq<Event>)
    requires a <= b && Compacts(cfg, a) && SummarisedFirst(cfg, b)
    ensures Compacts(cfg, b)
  {
    var i :| 0 <= i < |a| && a[i].Cut? && a[i].p == 0;
    assert b[i] == a[i];
    if cfg.keepRecent % 2 == 0 {
      var j :| 0 <= j < |a| && a[j].Cut? && a[j].p > 0;
      assert b[j] == a[j];
    }
  }

  /** The compaction of the fatal turn makes a real summary, and leaves an unpaired list unless k is right. */
  lemma FatalCompaction(k: nat, st: State)
    requires k > 0 && Working(st, FatalTurn(k))
    ensures var p := Prepared(Worker(), Limits(k), st, FatalTurn(k));
            (k % 4 != 0 ==> !Paired(p.messages)) && Compacts(Limits(k), p.log)
  {
    var env, cfg, h := Worker(), Limits(k), st.messages;
    WorkerIsCalm();
    NothingDrained(env, st, FatalTurn(k));
    OnlyLastResort(env, cfg, st, h);
    LayersKeepIds(h, k);
    LayersKeepBusy(h, k);
    FatalLastResort(k, st, Layers(h, k));
    var s := LastResort(env, cfg, st, Layers(h, k)).1;
    CompactsPrefix(cfg, s.log, Prepared(env, cfg, st, FatalTurn(k)).log);
  }

  lemma FatalLastResort(k: nat, st: State, h: History)
    requires k > 0 && |h| == 2 * FatalTurn(k) - 1
    requires Paired(h) && AtBoundary(h, false) && Busy(h)
    requires forall i :: 0 <= i < |st.log| ==> !st.log[i].Cut?
    ensures var (m, s) := LastResort(Worker(), Limits(k), st, h);
            (k % 4 != 0 ==> !Paired(m)) && Compacts(Limits(k), s.log)
  {
    var (m, s) := Summarized(Worker(), Limits(k), st, h);
    assert m == FirstSummary(h, k, st.compactions, "so far") && |m| == k + 2;
    FirstSummaryExactly(h, k, st.compactions, "so far");
    FatalCuts(k, st, h);
    if k % 2 == 0 {
      MultipleOfFour(k);
      FirstEmergencyExactly(h, k, st.compactions, "so far");
    }
  }

  /** The cuts of the fatal compaction. */
  lemma FatalCuts(k: nat, st: State, h: History)
    requires k > 0 && |h| == 2 * FatalTurn(k) - 1
    requires forall i :: 0 <= i < |st.log| ==> !st.log[i].Cut?
    ensures Compacts(Limits(k), LastResort(Worker(), Limits(k), st, h).1.log)
  {
    var log := LastResort(Worker(), Limits(k), st, h).1.log;
    var n := |st.log| + 2;
    assert log[n] == Cut(h, 0, |h| - k);
    if k % 2 == 0 {
      assert log[n + 1].Cut? && log[n + 1].p == 2 && |log[n + 1].list| == k + 2;
    }
  }

  /**
   For every positive `keepRecent` a run that is otherwise regular and summarises, and truncates in an
   emergency if the value is even. It goes wrong unless the value is a multiple of four.
   */
  lemma WorkerRun(k: nat)
    requires k > 0
    ensures OtherwiseRegular(Worker(), Limits(k), "go") && Limits(k).keepRecent == k
    ensures var log := Run(Worker(), Limits(k), FRESH, "go").0.log;
            && Summarises(log) && (k % 2 == 0 ==> Truncates(log))
            && (k % 4 != 0 ==> HandsOutUnpaired(log))
  {
    WorkerIsCalm();
    var last := RunReachesLast(Worker(), Limits(k));
    FatalCompaction(k, last);
    var p := Prepared(Worker(), Limits(k), last, FatalTurn(k));
    CompactsPrefix(Limits(k), p.log, Run(Worker(), Limits(k), FRESH, "go").0.log);
  }

  /**
   A positive `keepRecent` keeps every otherwise regular run from handing out an unpaired list exactly
   when it is a multiple of four.
   */
  lemma KeepRecentExactly(k: nat)
    requires k > 0
    ensures k % 4 == 0 <==>
            forall env: Env, cfg: Config, userMessage: string ::
              cfg.keepRecent == k && OtherwiseRegular(env, cfg, userMessage) ==>
              !HandsOutUnpaired(Run(env, cfg, FRESH, userMessage).0.log)
  {
    if k % 4 == 0 {
      forall env: Env, cfg: Config, userMessage: string | cfg.keepRecent == k && OtherwiseRegular(env, cfg, userMessage)
        ensures !HandsOutUnpaired(Run(env, cfg, FRESH, userMessage).0.log)
      {
        FreshRunKeepsPairing(env, cfg, userMessage);
      }
    } else {
      WorkerRun(k);
    }
  }

}
