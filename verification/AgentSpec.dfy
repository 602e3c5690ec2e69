/**
 The ReAct loop as a function of its environment. Everything the loop cannot decide itself
 (provider replies, summaries, tool outputs, queued notes, token estimates, texts of prompts)
 is an arbitrary function in `Env`; a run is then determined, and each list it hands to the
 provider, saves, or holds while suspended is recorded in a log.
 */
module AgentSpec {
  import opened Basics
  import opened Decimal
  import opened Messages
  import opened Context

  datatype Stop = MaxTokens | OtherStop
  datatype ErrorKind = ContextError | TransientError | OtherError
  datatype Reply = Response(blocks: seq<Block>, stop: Stop) | Failure(kind: ErrorKind)
  datatype ToolKind = UnknownTool | ReadOnlyTool | WritingTool
  datatype ToolOutput = ToolOutput(body: Body, isError: bool)

  datatype Config = Config(maxTurns: int, retryAttempts: int, keepRecent: int, threshold: int)

  datatype Env = Env(
    reply: nat -> Reply,                // outcome of the n-th `provider.create` call made by the loop
    summary: nat -> Option<string>,     // outcome of the n-th call when it asks for a summary
    estimate: History -> int,           // token estimate, system prompt included
    transcript: History -> string,
    userNotes: nat -> seq<string>,      // notes drained at the start of a turn
    toolNotes: nat -> seq<string>,      // finished background work, likewise
    toolKind: string -> ToolKind,
    output: (nat, nat, Block) -> ToolOutput, // of a call, by turn and position in the order of execution
    edited: (nat, History) -> History,  // what a turn's tools leave of the list the agent holds
    unknownText: string -> string,
    premature: seq<Block> -> bool,      // text that promises work without calling a tool
    recoveryText: string,
    nudgeText: string)

  /** What a run does to or with a message list. */
  datatype Event =
    | Call(list: History)                        // handed to `provider.create`
    | Pause(list: History)                       // `self.messages` at an await
    | Saved(list: History)                       // handed to the checkpoint hook
    | Held(list: History)                        // `self.messages` at the end of a turn
    | Cut(list: History, p: nat, q: nat)         // one cut: only `list[..p]` and `list[q..]` are kept
    | Halved(list: History)                      // no summary came back: only the newer half is kept
    | Net(list: History, p: nat, b: nat, c: nat) // a compaction in all: `list[p..b]` and `list[c..]` are kept
    | TextReply(turn: Message)                   // a truncated turn is answered by a text message

  datatype State = State(messages: History, calls: nat, compactions: nat, recoveries: nat, nudges: nat, log: seq<Event>)

  datatype Flow = Continue | Finished | GaveUp | OutOfTurns

  const LOOP_KEEP_RECENT := 10   // default of layers 2 and 3, used by the recovery path
  const ACK := "Understood. I have the full context from the summary above. Continuing from where we left off."

  function Min(a: int, b: int): int {
    if a < b then a else b
  }

  /** Where Python's `xs[-k:]` starts and `xs[:-k]` ends, for every integer `k`. */
  function SliceStart(n: nat, k: int): (i: nat)
    ensures i <= n
    ensures 0 < k ==> n - i == Min(k, n)
    ensures k <= 0 ==> i == Min(-k, n)
  {
    if k > 0 then Max(0, n - k) else Min(n, -k)
  }

  // ---------- layer 4 and the driver of all layers ----------

  function SummaryMessages(compactions: nat, text: string): History {
    [UserText("[Conversation Summary — compaction #" + Digits(compactions + 1) + "]\n\n" + text),
     Message(Assistant, Str(ACK))]
  }

  function Summarized(env: Env, cfg: Config, st: State, h: History): (History, State) {
    if |h| <= cfg.keepRecent then (h, st)
    else
      var q := SliceStart(|h|, cfg.keepRecent);
      var asked := st.(calls := st.calls + 1,
                       log := st.log + [Pause(st.messages), Call([UserText(env.transcript(h[..q]))])]);
      match env.summary(st.calls)
      case None => (h[|h| / 2..], asked.(log := asked.log + [Halved(h)]))
      case Some(text) => (SummaryMessages(st.compactions, text) + h[q..], asked.(log := asked.log + [Cut(h, 0, q)]))
  }

  function EmergencyTail(h: History, keepRecent: int): nat {
    SliceStart(|h|, keepRecent / 2)
  }

  function Emergency(h: History, keepRecent: int): History {
    h[..Min(2, |h|)] + h[EmergencyTail(h, keepRecent)..]
  }

  predicate Over(env: Env, cfg: Config, h: History) {
    env.estimate(h) >= cfg.threshold
  }

  function Layers(h: History, keepRecent: int): History {
    Dropped(Snipped(Truncated(h), keepRecent), keepRecent)
  }

  /** What layer 4 keeps of the list: everything, its newer half, or its last messages behind a summary. */
  function SummaryNet(env: Env, cfg: Config, st: State, h: History): Event {
    if |h| <= cfg.keepRecent then Net(h, 0, 0, 0)
    else
      var c := if env.summary(st.calls).None? then |h| / 2 else SliceStart(|h|, cfg.keepRecent);
      Net(h, c, c, c)
  }

  /** What layer 4 and emergency truncation together keep of the list, apart from summary messages. */
  function EmergencyNet(env: Env, cfg: Config, st: State, h: History): Event {
    var m := Summarized(env, cfg, st, h).0;
    var tail := EmergencyTail(m, cfg.keepRecent);
    if |h| <= cfg.keepRecent then Net(h, 0, Min(2, |h|), tail)
    else if env.summary(st.calls).None? then
      var p := |h| / 2;
      Net(h, p, p + Min(2, |m|), p + tail)
    else
      var c := SliceStart(|h|, cfg.keepRecent) + Max(0, tail - 2);
      Net(h, c, c, c)
  }

  function EmergencyCut(cfg: Config, m: History): Event {
    Cut(m, Min(2, |m|), EmergencyTail(m, cfg.keepRecent))
  }

  /** Layer 4, then emergency truncation if even that was not enough. */
  function LastResort(env: Env, cfg: Config, st: State, h: History): (History, State) {
    var (m, s) := Summarized(env, cfg, st, h);
    var counted := s.(compactions := s.compactions + 1);
    if Over(env, cfg, m) then
      (Emergency(m, cfg.keepRecent),
       counted.(log := counted.log + [EmergencyCut(cfg, m)] + [EmergencyNet(env, cfg, st, h)]))
    else (m, counted.(log := counted.log + [SummaryNet(env, cfg, st, h)]))
  }

  function Compacted(env: Env, cfg: Config, st: State, h: History): (History, State) {
    var layer1 := Truncated(h);
    var layer2 := Snipped(layer1, cfg.keepRecent);
    var layer3 := Dropped(layer2, cfg.keepRecent);
    if !Over(env, cfg, h) then (h, st)
    else if !Over(env, cfg, layer1) then (layer1, st)
    else if !Over(env, cfg, layer2) then (layer2, st)
    else if !Over(env, cfg, layer3) then (layer3, st)
    else LastResort(env, cfg, st, layer3)
  }

  // ---------- calling the provider ----------

  function Attempts(cfg: Config): nat {
    Max(1, cfg.retryAttempts)
  }

  /** How an attempt ends: with a reply or for good, or in a state to try again from. */
  datatype Outcome = Settled(reply: Option<Reply>, st: State) | Again(st: State)

  function Asked(st: State): State {
    st.(calls := st.calls + 1, log := st.log + [Pause(st.messages), Call(st.messages)])
  }

  function Attempted(env: Env, cfg: Config, st: State, attempt: nat): Outcome {
    var asked := Asked(st);
    match env.reply(st.calls)
    case Response(_, _) => Settled(Some(env.reply(st.calls)), asked)
    case Failure(ContextError) =>
      if attempt == 1 then Again(asked.(messages := Layers(asked.messages, LOOP_KEEP_RECENT)))
      else if attempt == 2 then
        var (m, s) := Summarized(env, cfg, asked, asked.messages);
        Again(s.(messages := m, log := s.log + [SummaryNet(env, cfg, asked, asked.messages)]))
      else Settled(None, asked)
    case Failure(kind) =>
      var limit := if kind == TransientError then Attempts(cfg) else Min(2, Attempts(cfg));
      if attempt >= limit then Settled(None, asked)
      else Again(asked.(log := asked.log + [Pause(asked.messages)]))
  }

  /** The loop over attempts, from attempt number `attempt` on. */
  function Called(env: Env, cfg: Config, st: State, attempt: nat): (Option<Reply>, State)
    ensures var (r, s) := Called(env, cfg, st, attempt); r.Some? ==> r.value.Response?
    decreases Attempts(cfg) + 1 - attempt
  {
    if attempt > Attempts(cfg) then (None, st)
    else
      match Attempted(env, cfg, st, attempt)
      case Settled(reply, s) => (reply, s)
      case Again(s) => Called(env, cfg, s, attempt + 1)
  }

  // ---------- tools ----------

  function CallsOf(bs: seq<Block>): (cs: seq<Block>)
    ensures forall i :: 0 <= i < |cs| ==> cs[i].ToolUse?
  {
    if bs == [] then []
    else CallsOf(bs[..|bs| - 1]) + if bs[|bs| - 1].ToolUse? then [bs[|bs| - 1]] else []
  }

  /** The calls of one class, in order. */
  function Select(env: Env, calls: seq<Block>, writing: bool): (cs: seq<Block>)
    requires forall i :: 0 <= i < |calls| ==> calls[i].ToolUse?
    ensures forall i :: 0 <= i < |cs| ==> cs[i].ToolUse?
  {
    if calls == [] then []
    else
      var last := calls[|calls| - 1];
      Select(env, calls[..|calls| - 1], writing) +
        if (env.toolKind(last.name) == WritingTool) == writing then [last] else []
  }

  /** Order of execution: read-only and unknown tools first, then writing ones. */
  function ExecutionOrder(env: Env, calls: seq<Block>): (cs: seq<Block>)
    requires forall i :: 0 <= i < |calls| ==> calls[i].ToolUse?
    ensures forall i :: 0 <= i < |cs| ==> cs[i].ToolUse?
  {
    Select(env, calls, false) + Select(env, calls, true)
  }

  function ResultOf(env: Env, turn: nat, position: nat, call: Block): Block
    requires call.ToolUse?
  {
    if env.toolKind(call.name) == UnknownTool
    then ToolResult(call.id, Text(env.unknownText(call.name)), true)
    else
      var out := env.output(turn, position, call);
      ToolResult(call.id, out.body, out.isError)
  }

  function Executed(env: Env, turn: nat, calls: seq<Block>): (rs: seq<Block>)
    requires forall i :: 0 <= i < |calls| ==> calls[i].ToolUse?
  {
    var order := ExecutionOrder(env, calls);
    seq(|order|, i requires 0 <= i < |order| => ResultOf(env, turn, i, order[i]))
  }

  // ---------- turns ----------

  function NoteMessages(notes: seq<string>, prefix: string): History {
    seq(|notes|, i requires 0 <= i < |notes| => UserText(prefix + notes[i]))
  }

  function Drained(env: Env, st: State, turn: nat): State {
    st.(messages := st.messages + NoteMessages(env.userNotes(turn), "[user note] ")
                    + NoteMessages(env.toolNotes(turn), ""))
  }

  /** Everything a turn does before it has a reply. */
  function Prepared(env: Env, cfg: Config, st: State, turn: nat): State {
    var drained := Drained(env, st, turn);
    var (h, s) := Compacted(env, cfg, drained, drained.messages);
    s.(messages := h, log := s.log + [Saved(h)])
  }

  /** What a turn does with the reply. */
  function Answered(env: Env, cfg: Config, st: State, turn: nat, reply: Reply): (State, Flow)
    requires reply.Response?
  {
    var message := Message(Assistant, Blocks(reply.blocks));
    var said := st.(messages := st.messages + [message]);
    if reply.stop == MaxTokens && st.recoveries + 1 <= 3 then
      (said.(recoveries := st.recoveries + 1, messages := said.messages + [UserText(env.recoveryText)],
             log := said.log + [TextReply(message)]), Continue)
    else
      var counted := said.(recoveries := if reply.stop == MaxTokens then st.recoveries + 1 else 0);
      var calls := CallsOf(reply.blocks);
      if calls == [] then
        if st.nudges < 3 && turn < cfg.maxTurns && env.premature(reply.blocks) then
          (counted.(nudges := st.nudges + 1, messages := counted.messages + [UserText(env.nudgeText)]), Continue)
        else (counted, Finished)
      else
        var edited := env.edited(turn, counted.messages);
        (counted.(nudges := 0,
                  messages := edited + [Message(User, Blocks(Executed(env, turn, calls)))],
                  log := counted.log + [Pause(counted.messages)] + [Pause(edited)]), Continue)
  }

  function Replied(env: Env, cfg: Config, st: State, turn: nat, reply: Reply): (State, Flow)
    requires reply.Response?
  {
    var (s, flow) := Answered(env, cfg, st, turn, reply);
    (s.(log := s.log + [Held(s.messages)]), flow)
  }

  function Turn(env: Env, cfg: Config, st: State, turn: nat): (State, Flow) {
    var (reply, s) := Called(env, cfg, Prepared(env, cfg, st, turn), 1);
    if reply.None? then (s, GaveUp) else Replied(env, cfg, s, turn, reply.value)
  }

  function Loop(env: Env, cfg: Config, st: State, turn: nat): (State, Flow)
    decreases cfg.maxTurns + 1 - turn
  {
    if turn > cfg.maxTurns then (st, OutOfTurns)
    else
      var (s, flow) := Turn(env, cfg, st, turn);
      if flow == Continue then Loop(env, cfg, s, turn + 1) else (s, flow)
  }

  /** One call of `run`: an empty message continues from the messages already there. */
  function Run(env: Env, cfg: Config, st: State, userMessage: string): (State, Flow) {
    var begun := st.(nudges := 0,
                     messages := if userMessage == "" then st.messages else st.messages + [UserText(userMessage)]);
    Loop(env, cfg, begun, 1)
  }
}
