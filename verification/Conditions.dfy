/**
 The other conditions of a regular run are needed as well: for every `keepRecent` that is a positive
 multiple of four and each condition there is a fresh run that meets all the others and hands out an
 unpaired list.
 */
module Conditions {
  import opened Basics
  import opened Messages
  import opened Context
  import opened AgentSpec
  import opened RunSafety
  import opened CompactionCuts
  import opened RegularRuns
  import opened KeepRecent

  datatype Condition = RealSummaries | NoUserNotes | NoToolNotes | NoTruncatedCalls | SummaryBeforeEmergency

  ghost predicate Meets(c: Condition, env: Env, cfg: Config, log: seq<Event>) {
    match c
    case RealSummaries => forall n: nat :: env.summary(n).Some?
    case NoUserNotes => forall n: nat :: env.userNotes(n) == []
    case NoToolNotes => forall n: nat :: env.toolNotes(n) == []
    case NoTruncatedCalls =>
      forall n: nat :: env.reply(n).Response? && env.reply(n).stop == MaxTokens ==> BlockUses(env.reply(n).blocks) == []
    case SummaryBeforeEmergency => SummarisedFirst(cfg, log)
  }

  /** Together they are what a regular run asks for. */
  lemma AllConditions(env: Env, cfg: Config, log: seq<Event>)
    ensures (forall c: Condition :: Meets(c, env, cfg, log)) <==> Calm(env) && SummarisedFirst(cfg, log)
  {
    if forall c: Condition :: Meets(c, env, cfg, log) {
      assert Meets(RealSummaries, env, cfg, log) && Meets(NoUserNotes, env, cfg, log);
      assert Meets(NoToolNotes, env, cfg, log) && Meets(NoTruncatedCalls, env, cfg, log);
      assert Meets(SummaryBeforeEmergency, env, cfg, log);
    }
  }

  // ---------- for each condition a run that breaks it alone ----------

  /** The turn in which the note of the spoiled run arrives. */
  function NoteTurn(k: nat): nat {
    (k + 4) / 2
  }

  function NoteAt(t: nat): nat -> seq<string> {
    n => if n == t then ["also look here"] else []
  }

  /** The worker, with one thing changed; its estimate triggers a compaction where the limits say so. */
  function SpoiledEnv(k: nat, c: Condition): Env {
    match c
    case RealSummaries => Worker().(summary := n => None)
    case NoUserNotes => Worker().(userNotes := NoteAt(NoteTurn(k)))
    case NoToolNotes => Worker().(toolNotes := NoteAt(NoteTurn(k)))
    case NoTruncatedCalls =>
      Worker().(reply := (n: nat) => if n == 0 then WorkerReply(0).(stop := MaxTokens) else WorkerReply(n))
    case SummaryBeforeEmergency => Worker()
  }

  function SpoiledLimits(k: nat, c: Condition): Config {
    match c
    case RealSummaries => Config((k + 2) / 2, 1, k, k + 1)
    case NoUserNotes => Config(NoteTurn(k), 1, k, k + 3)
    case NoToolNotes => Config(NoteTurn(k), 1, k, k + 3)
    case NoTruncatedCalls => Config(2, 1, k, 10)
    case SummaryBeforeEmergency => Config(2, 1, k, 3)
  }

  function SpoiledLog(k: nat, c: Condition): seq<Event> {
    Run(SpoiledEnv(k, c), SpoiledLimits(k, c), FRESH, "go").0.log
  }

  /** The condition alone is broken, and the run goes wrong. */
  ghost predicate BrokenAlone(k: nat, c: Condition) {
    && EnvOk(SpoiledEnv(k, c)) && SpoiledLimits(k, c).keepRecent == k && HandsOutUnpaired(SpoiledLog(k, c))
    && forall d: Condition :: d != c ==> Meets(d, SpoiledEnv(k, c), SpoiledLimits(k, c), SpoiledLog(k, c))
  }

  lemma SpoiledIsWorker(k: nat, c: Condition)
    requires c != NoTruncatedCalls
    ensures IsWorker(SpoiledEnv(k, c))
  {
    WorkerIsCalm();
    assert IsWorker(Worker());
    var env := SpoiledEnv(k, c);
    assert forall n: nat :: env.reply(n) == Worker().reply(n);
    assert forall turn: nat, h: History {:trigger env.edited(turn, h)} ::
        env.edited(turn, h) == Worker().edited(turn, h);
    assert forall h: History {:trigger env.estimate(h)} :: env.estimate(h) == Worker().estimate(h);
  }

  // ---------- the compaction of the spoiled run ----------

  /** The layers move no results. */
  lemma ResultsOfLayers(h: History, k: int, i: nat)
    requires i < |h|
    ensures |Layers(h, k)| == |h| && Results(Layers(h, k)[i]) == Results(h[i])
  {
    LayersKeepIds(h, k);
    SameButResultTextIds(h[i], Truncated(h)[i]);
    SameButResultTextIds(Truncated(h)[i], Snipped(Truncated(h), k)[i]);
    SameButResultTextIds(Snipped(Truncated(h), k)[i], Layers(h, k)[i]);
  }

  /** In a working list the results of each turn stand at the even positions. */
  lemma ResultsAtEven(h: History, q: nat)
    requires Paired(h) && AtBoundary(h, false) && Busy(h) && 0 < q < |h| && q % 2 == 0
    ensures Results(h[q]) != []
  {
    BusyCut(h, q);
  }

  /** The turn in front of whose call the list `h` is compacted down to the last resort. */
  lemma CompactingTurn(env: Env, cfg: Config, st: State, t: nat, h: History)
    requires CountsMessages(env) && |h| >= cfg.threshold && Drained(env, st, t) == st.(messages := h)
    ensures var p := Prepared(env, cfg, st, t);
            var (m, s) := LastResort(env, cfg, st.(messages := h), Layers(h, cfg.keepRecent));
            p.messages == m && (SummarisedFirst(cfg, s.log) ==> SummarisedFirst(cfg, p.log))
  {
    OnlyLastResort(env, cfg, st.(messages := h), h);
  }

  /** Layer 4 alone, when what it keeps is short enough. */
  lemma NoEmergency(env: Env, cfg: Config, st: State, h: History)
    requires CountsMessages(env) && |h| > cfg.keepRecent && (forall i :: 0 <= i < |st.log| ==> !st.log[i].Cut?)
    requires |Summarized(env, cfg, st, h).0| < cfg.threshold
    ensures var (m, s) := LastResort(env, cfg, st, h);
            m == Summarized(env, cfg, st, h).0 && SummarisedFirst(cfg, s.log)
  {
    var log := LastResort(env, cfg, st, h).1.log;
    assert |log| == |st.log| + 4 && (log[|st.log| + 2].Cut? ==> log[|st.log| + 2].p == 0);
  }

  /** Without a summary the list is halved in the middle of a turn. */
  lemma NoSummaryBreaks(k: nat, st: State)
    requires k > 0 && k % 4 == 0 && Working(st, (k + 2) / 2)
    ensures var p := Prepared(SpoiledEnv(k, RealSummaries), SpoiledLimits(k, RealSummaries), st, (k + 2) / 2);
            !Paired(p.messages) && SummarisedFirst(SpoiledLimits(k, RealSummaries), p.log)
  {
    var env, cfg, h := SpoiledEnv(k, RealSummaries), SpoiledLimits(k, RealSummaries), st.messages;
    SpoiledIsWorker(k, RealSummaries);
    NothingDrained(env, st, (k + 2) / 2);
    CompactingTurn(env, cfg, st, (k + 2) / 2, h);
    LayersKeepIds(h, k);
    LayersKeepBusy(h, k);
    HalvedBreaks(env, cfg, st, Layers(h, k));
  }

  lemma HalvedBreaks(env: Env, cfg: Config, st: State, g: History)
    requires CountsMessages(env) && env.summary(st.calls).None? && (forall i :: 0 <= i < |st.log| ==> !st.log[i].Cut?)
    requires cfg.keepRecent > 0 && cfg.keepRecent % 4 == 0 && |g| == cfg.keepRecent + 1 == cfg.threshold
    requires Paired(g) && AtBoundary(g, false) && Busy(g)
    ensures var (m, s) := LastResort(env, cfg, st, g); !Paired(m) && SummarisedFirst(cfg, s.log)
  {
    NoEmergency(env, cfg, st, g);
    ResultsAtEven(g, cfg.keepRecent / 2);
    FallbackCutExactly(g);
  }

  /** A note shifts the kept part, which then opens with results. */
  lemma NoteBreaks(env: Env, cfg: Config, st: State, t: nat, note: string)
    requires CountsMessages(env) && env.summary(st.calls).Some? && Working(st, t)
    requires 0 < cfg.keepRecent == cfg.threshold - 3 == |st.messages| - 3
    requires |st.messages| >= 5 && Drained(env, st, t) == st.(messages := st.messages + [UserText(note)])
    ensures var p := Prepared(env, cfg, st, t); !Paired(p.messages) && SummarisedFirst(cfg, p.log)
  {
    var h := st.messages + [UserText(note)];
    CompactingTurn(env, cfg, st, t, h);
    NotedShifts(st.messages, cfg.keepRecent, note);
    ShiftedBreaks(env, cfg, st.(messages := h), Layers(h, cfg.keepRecent));
  }

  lemma NotedShifts(h: History, k: nat, note: string)
    requires Paired(h) && AtBoundary(h, false) && Busy(h) && |h| >= 5
    ensures var g := Layers(h + [UserText(note)], k);
            |g| == |h| + 1 && Paired(g) && Results(g[4]) != []
  {
    ResultsAtEven(h, 4);
    PairedAppend(h, UserText(note));
    ResultsOfLayers(h + [UserText(note)], k, 4);
    LayersPaired(h + [UserText(note)], k);
  }

  lemma ShiftedBreaks(env: Env, cfg: Config, st: State, g: History)
    requires CountsMessages(env) && env.summary(st.calls).Some? && (forall i :: 0 <= i < |st.log| ==> !st.log[i].Cut?)
    requires cfg.keepRecent > 0 && |g| == cfg.keepRecent + 4 == cfg.threshold + 1
    requires Paired(g) && Results(g[4]) != []
    ensures var (m, s) := LastResort(env, cfg, st, g); !Paired(m) && SummarisedFirst(cfg, s.log)
  {
    SummaryCutExactly(g, 4, st.compactions, env.summary(st.calls).value);
    assert Summarized(env, cfg, st, g).0 == SummaryMessages(st.compactions, env.summary(st.calls).value) + g[4..];
    NoEmergency(env, cfg, st, g);
  }

  lemma UserNoteBreaks(k: nat, st: State)
    requires k > 0 && k % 4 == 0 && Working(st, NoteTurn(k))
    ensures var p := Prepared(SpoiledEnv(k, NoUserNotes), SpoiledLimits(k, NoUserNotes), st, NoteTurn(k));
            !Paired(p.messages) && SummarisedFirst(SpoiledLimits(k, NoUserNotes), p.log)
  {
    var env, note := SpoiledEnv(k, NoUserNotes), "[user note] " + "also look here";
    SpoiledIsWorker(k, NoUserNotes);
    assert NoteMessages(env.userNotes(NoteTurn(k)), "[user note] ") == [UserText(note)];
    assert NoteMessages([], "") == [];
    NoteBreaks(env, SpoiledLimits(k, NoUserNotes), st, NoteTurn(k), note);
  }

  lemma ToolNoteBreaks(k: nat, st: State)
    requires k > 0 && k % 4 == 0 && Working(st, NoteTurn(k))
    ensures var p := Prepared(SpoiledEnv(k, NoToolNotes), SpoiledLimits(k, NoToolNotes), st, NoteTurn(k));
            !Paired(p.messages) && SummarisedFirst(SpoiledLimits(k, NoToolNotes), p.log)
  {
    var env, note := SpoiledEnv(k, NoToolNotes), "" + "also look here";
    SpoiledIsWorker(k, NoToolNotes);
    assert NoteMessages(env.toolNotes(NoteTurn(k)), "") == [UserText(note)];
    assert NoteMessages([], "[user note] ") == [] && st.messages + [] == st.messages;
    NoteBreaks(env, SpoiledLimits(k, NoToolNotes), st, NoteTurn(k), note);
  }

  /** Three long messages are too few to summarise, and the emergency cut tears them. */
  lemma EmergencyAloneBreaks(env: Env, cfg: Config, st: State)
    requires CountsMessages(env) && env.userNotes(2) == [] && env.toolNotes(2) == []
    requires cfg.keepRecent >= 4 && cfg.threshold == 3 && Working(st, 2)
    ensures !Paired(Prepared(env, cfg, st, 2).messages)
  {
    var h, k := st.messages, cfg.keepRecent;
    NothingDrained(env, st, 2);
    CompactingTurn(env, cfg, st, 2, h);
    LayersKeepIds(h, k);
    LayersKeepBusy(h, k);
    EmergencyAlone(env, cfg, st, Layers(h, k));
    TornBreaks(Layers(h, k), k);
  }

  lemma NoSummaryYetBreaks(k: nat, st: State)
    requires k > 0 && k % 4 == 0 && Working(st, 2)
    ensures var c := SummaryBeforeEmergency; !Paired(Prepared(SpoiledEnv(k, c), SpoiledLimits(k, c), st, 2).messages)
  {
    SpoiledIsWorker(k, SummaryBeforeEmergency);
    EmergencyAloneBreaks(SpoiledEnv(k, SummaryBeforeEmergency), SpoiledLimits(k, SummaryBeforeEmergency), st);
  }

  lemma EmergencyAlone(env: Env, cfg: Config, st: State, g: History)
    requires CountsMessages(env) && cfg.threshold <= |g| <= cfg.keepRecent
    ensures LastResort(env, cfg, st, g).0 == Emergency(g, cfg.keepRecent)
  {
  }

  lemma TornBreaks(g: History, k: nat)
    requires k >= 4 && Paired(g) && AtBoundary(g, false) && Busy(g) && |g| == 3
    ensures !Paired(Emergency(g, k))
  {
    EmergencyCutExactly(g, k);
    EmptyMultiset(Uses(g[1]));
    assert RoleOk(g[1]) && g[1].role == Assistant;
  }

  // ---------- a truncated turn with a call ----------

  /** The first turn is truncated, and its call is answered by text. */
  lemma FirstTurnTruncated(k: nat)
    ensures var (s, flow) :=
              Turn(SpoiledEnv(k, NoTruncatedCalls), SpoiledLimits(k, NoTruncatedCalls), FreshlyBegun(), 1);
            && flow == Continue && s.calls == 1
            && s.messages == [UserText("go"), Message(Assistant, Blocks(WorkerReply(0).blocks)), UserText("")]
            && (forall i :: 0 <= i < |s.log| ==> !s.log[i].Cut?)
  {
    var env, cfg := SpoiledEnv(k, NoTruncatedCalls), SpoiledLimits(k, NoTruncatedCalls);
    QuietPrepared(env, cfg, FreshlyBegun(), 1);
  }

  /** A quiet turn hands the list out as it is. */
  lemma HandedOutAsItIs(env: Env, cfg: Config, st: State, t: nat)
    requires env.userNotes(t) == [] && env.toolNotes(t) == [] && env.estimate(st.messages) < cfg.threshold
    requires env.reply(st.calls) == WorkerReply(st.calls) && !Paired(st.messages)
    requires forall i :: 0 <= i < |st.log| ==> !st.log[i].Cut?
    ensures var log := Turn(env, cfg, st, t).0.log;
            HandsOutUnpaired(log) && forall i :: 0 <= i < |log| ==> !log[i].Cut?
  {
    QuietPrepared(env, cfg, st, t);
    AfterPrepared(env, cfg, st, t);
  }

  lemma TruncatedUnpaired(h: History)
    requires h == [UserText("go"), Message(Assistant, Blocks(WorkerReply(0).blocks)), UserText("")]
    ensures !Paired(h)
  {
    WorkerCalls(0);
    EmptyMultiset(Uses(h[1]));
    assert Paired(h) ==> Answers(h[1], h[2]);
  }

  lemma TwoTurns(env: Env, cfg: Config)
    requires cfg.maxTurns == 2 && Turn(env, cfg, FreshlyBegun(), 1).1 == Continue
    ensures Run(env, cfg, FRESH, "go").0 == Turn(env, cfg, Turn(env, cfg, FreshlyBegun(), 1).0, 2).0
  {
    RunIsLoop(env, cfg);
    LastStep(env, cfg, Turn(env, cfg, FreshlyBegun(), 1).0);
  }

  lemma TruncatedEnvOk(k: nat)
    ensures EnvOk(SpoiledEnv(k, NoTruncatedCalls))
  {
    forall n: nat ensures BlockResults(SpoiledEnv(k, NoTruncatedCalls).reply(n).blocks) == [] { WorkerCalls(n); }
  }

  lemma TruncatedCallBreaks(k: nat)
    ensures EnvOk(SpoiledEnv(k, NoTruncatedCalls)) && HandsOutUnpaired(SpoiledLog(k, NoTruncatedCalls))
    ensures SummarisedFirst(SpoiledLimits(k, NoTruncatedCalls), SpoiledLog(k, NoTruncatedCalls))
  {
    var env, cfg := SpoiledEnv(k, NoTruncatedCalls), SpoiledLimits(k, NoTruncatedCalls);
    TruncatedEnvOk(k);
    FirstTurnTruncated(k);
    TwoTurns(env, cfg);
    var st := Turn(env, cfg, FreshlyBegun(), 1).0;
    TruncatedUnpaired(st.messages);
    HandedOutAsItIs(env, cfg, st, 2);
  }

  // ---------- the conditions, exactly ----------

  lemma OthersMet(k: nat, c: Condition, d: Condition, log: seq<Event>)
    requires d != c && d != SummaryBeforeEmergency
    ensures Meets(d, SpoiledEnv(k, c), SpoiledLimits(k, c), log)
  {
    WorkerIsCalm();
  }

  lemma BreaksAlone(k: nat, c: Condition)
    requires k > 0 && k % 4 == 0
    ensures BrokenAlone(k, c)
  {
    var log := SpoiledLog(k, c);
    forall d: Condition | d != c && d != SummaryBeforeEmergency
      ensures Meets(d, SpoiledEnv(k, c), SpoiledLimits(k, c), log)
    {
      OthersMet(k, c, d, log);
    }
    if c == NoTruncatedCalls {
      TruncatedCallBreaks(k);
    } else {
      SpoiledWorkerBreaks(k, c);
    }
  }

  lemma SpoiledWorkerBreaks(k: nat, c: Condition)
    requires k > 0 && k % 4 == 0 && c != NoTruncatedCalls
    ensures EnvOk(SpoiledEnv(k, c)) && HandsOutUnpaired(SpoiledLog(k, c))
    ensures c != SummaryBeforeEmergency ==> SummarisedFirst(SpoiledLimits(k, c), SpoiledLog(k, c))
  {
    SpoiledIsWorker(k, c);
    var last := RunReachesLast(SpoiledEnv(k, c), SpoiledLimits(k, c));
    match c
    case RealSummaries => NoSummaryBreaks(k, last);
    case NoUserNotes => UserNoteBreaks(k, last);
    case NoToolNotes => ToolNoteBreaks(k, last);
    case SummaryBeforeEmergency => NoSummaryYetBreaks(k, last);
  }

  /**
   For a `keepRecent` that is a positive multiple of four, a set of conditions keeps every fresh run from
   handing out an unpaired list exactly when it is all of them.
   */
  lemma ConditionsExactly(k: nat, chosen: set<Condition>)
    requires k > 0 && k % 4 == 0
    ensures (forall c: Condition :: c in chosen) <==>
            forall env: Env, cfg: Config, userMessage: string ::
              cfg.keepRecent == k && EnvOk(env) && userMessage != "" &&
              (forall c :: c in chosen ==> Meets(c, env, cfg, Run(env, cfg, FRESH, userMessage).0.log)) ==>
              !HandsOutUnpaired(Run(env, cfg, FRESH, userMessage).0.log)
  {
    if c: Condition :| c !in chosen {
      BreaksAlone(k, c);
    } else {
      forall env: Env, cfg: Config, userMessage: string |
        && cfg.keepRecent == k && EnvOk(env) && userMessage != ""
        && (forall c :: c in chosen ==> Meets(c, env, cfg, Run(env, cfg, FRESH, userMessage).0.log))
        ensures !HandsOutUnpaired(Run(env, cfg, FRESH, userMessage).0.log)
      {
        AllConditions(env, cfg, Run(env, cfg, FRESH, userMessage).0.log);
        FreshRunKeepsPairing(env, cfg, userMessage);
      }
    }
  }
}
