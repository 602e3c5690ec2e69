/**
 The agent, its context manager and its provider as objects, proved to do what `AgentSpec`
 says step by step. Ghost `log` records the lists handed out.
 */
module Agent {
  import opened Basics
  import opened Messages
  import opened Context
  import opened AgentSpec
  import SummaryLaws
  import ToolLaws

  class Provider {
    const env: Env
    var calls: nat
    ghost var log: seq<Event>

    constructor (env: Env)
      ensures this.env == env && calls == 0 && log == []
    {
      this.env := env;
      calls := 0;
      log := [];
    }

    /** A call made by the loop; `suspended` is what the agent holds meanwhile. */
    method Create(messages: History, ghost suspended: History) returns (reply: Reply)
      modifies this
      ensures reply == env.reply(old(calls))
      ensures calls == old(calls) + 1
      ensures log == old(log) + [Pause(suspended), Call(messages)]
    {
      reply := env.reply(calls);
      calls := calls + 1;
      log := log + [Pause(suspended), Call(messages)];
    }

    /** A call asking for a summary. */
    method CreateSummary(messages: History, ghost suspended: History) returns (text: Option<string>)
      modifies this
      ensures text == env.summary(old(calls))
      ensures calls == old(calls) + 1
      ensures log == old(log) + [Pause(suspended), Call(messages)]
    {
      text := env.summary(calls);
      calls := calls + 1;
      log := log + [Pause(suspended), Call(messages)];
    }

    ghost method Note(e: Event)
      modifies this`log
      ensures log == old(log) + [e]
    {
      log := log + [e];
    }
  }

  class ContextManager {
    const provider: Provider
    const cfg: Config
    var compactCount: nat

    constructor (provider: Provider, cfg: Config)
      ensures this.provider == provider && this.cfg == cfg && compactCount == 0
    {
      this.provider := provider;
      this.cfg := cfg;
      compactCount := 0;
    }

    /** `st` with the parts that live here and in the provider brought up to date. */
    ghost function Now(st: State): State
      reads this, provider
    {
      st.(calls := provider.calls, compactions := compactCount, log := provider.log)
    }

    method SummarizeOldMessages(messages: History, ghost before: State) returns (result: History)
      requires Now(before) == before
      modifies provider
      ensures (result, Now(before)) == Summarized(provider.env, cfg, before, messages)
      ensures |messages| > cfg.keepRecent && provider.env.summary(old(provider.calls)).Some? ==>
                && 2 <= |result| <= |messages| + 2
                && var given := messages[..|messages| + 2 - |result|];
                && given + result[2..] == messages
                && provider.log == old(provider.log)
                   + [Pause(before.messages), Call([UserText(provider.env.transcript(given))])]
                   + [Cut(messages, 0, |given|)]
    {
      if |messages| > cfg.keepRecent && provider.env.summary(provider.calls).Some? {
        SummaryLaws.SummaryAsksForTheRest(provider.env, cfg, before, messages);
      }
      if |messages| <= cfg.keepRecent {
        return messages;
      }
      var cut := SliceStart(|messages|, cfg.keepRecent);
      var toSummarize, keep := messages[..cut], messages[cut..];
      var transcript := provider.env.transcript(toSummarize);
      var summary := provider.CreateSummary([UserText(transcript)], before.messages);
      if summary.None? {
        provider.Note(Halved(messages));
        return messages[|messages| / 2..];
      }
      provider.Note(Cut(messages, 0, cut));
      return SummaryMessages(compactCount, summary.value) + keep;
    }

    method MaybeCompact(messages: History, ghost before: State) returns (result: History)
      requires Now(before) == before
      modifies this, provider
      ensures (result, Now(before)) == Compacted(provider.env, cfg, before, messages)
    {
      var threshold := cfg.threshold;
      result := messages;
      if provider.env.estimate(result) < threshold { return; }
      result := TruncateLongToolResults(result);
      if provider.env.estimate(result) < threshold { return; }
      result := SnipOldToolResults(result, cfg.keepRecent);
      if provider.env.estimate(result) < threshold { return; }
      result := DropRedundantReads(result, cfg.keepRecent);
      if provider.env.estimate(result) < threshold { return; }
      ghost var layer3 := result;
      result := SummarizeOldMessages(result, before);
      compactCount := compactCount + 1;
      if provider.env.estimate(result) < threshold {
        provider.Note(SummaryNet(provider.env, cfg, before, layer3));
      } else {
        provider.Note(EmergencyCut(cfg, result));
        provider.Note(EmergencyNet(provider.env, cfg, before, layer3));
        result := result[..Min(2, |result|)] + result[SliceStart(|result|, cfg.keepRecent / 2)..];
      }
    }
  }

  class Agent {
    const provider: Provider
    const contextManager: ContextManager
    const cfg: Config
    var messages: History
    var totalTurns: nat
    var recoveryCount: nat

    ghost predicate Valid()
      reads this, contextManager
    {
      contextManager.provider == provider && contextManager.cfg == cfg
    }

    constructor (provider: Provider, cfg: Config)
      ensures Valid() && fresh(contextManager)
      ensures this.provider == provider && this.cfg == cfg
      ensures messages == [] && recoveryCount == 0 && contextManager.compactCount == 0
    {
      this.provider := provider;
      this.cfg := cfg;
      contextManager := new ContextManager(provider, cfg);
      messages := [];
      totalTurns := 0;
      recoveryCount := 0;
    }

    ghost function View(nudges: nat): State
      reads this, contextManager, provider
    {
      State(messages, provider.calls, contextManager.compactCount, recoveryCount, nudges, provider.log)
    }

    /** The loop over attempts with its escalating reactions to errors. */
    method CallLlmWithRecovery(ghost nudges: nat) returns (reply: Option<Reply>)
      requires Valid()
      modifies this`messages, provider
      ensures Valid()
      ensures (reply, View(nudges)) == Called(provider.env, cfg, old(View(nudges)), 1)
    {
      var maxAttempts := Max(1, cfg.retryAttempts);
      var attempt := 1;
      while attempt <= maxAttempts
        invariant 1 <= attempt <= maxAttempts + 1
        invariant Valid()
        invariant Called(provider.env, cfg, View(nudges), attempt) == Called(provider.env, cfg, old(View(nudges)), 1)
      {
        var r := provider.Create(messages, messages);
        match r {
          case Response(_, _) =>
            return Some(r);
          case Failure(ContextError) =>
            if attempt == 1 {
              messages := TruncateLongToolResults(messages);
              messages := SnipOldToolResults(messages, LOOP_KEEP_RECENT);
              messages := DropRedundantReads(messages, LOOP_KEEP_RECENT);
            } else if attempt == 2 {
              ghost var asked := View(nudges);
              messages := contextManager.SummarizeOldMessages(messages, asked);
              provider.Note(SummaryNet(provider.env, cfg, asked, asked.messages));
            } else {
              return None;
            }
          case Failure(kind) =>
            var limit := if kind == TransientError then maxAttempts else Min(2, maxAttempts);
            if attempt >= limit {
              return None;
            }
            provider.Note(Pause(messages));
        }
        attempt := attempt + 1;
      }
      return None;
    }

    /** Read-only and unknown tools first, then writing tools, each group in call order. */
    method ExecuteTools(calls: seq<Block>) returns (results: seq<Block>)
      requires forall i :: 0 <= i < |calls| ==> calls[i].ToolUse?
      ensures results == Executed(provider.env, totalTurns, calls) && |results| == |calls|
      ensures forall k: nat :: k < |calls| ==>
                var p := ToolLaws.Earlier(provider.env, calls, k);
                p < |results| && ToolLaws.Answering(provider.env, totalTurns, calls[k], p, results[p])
    {
      var readOnlyCalls: seq<Block>, writeCalls: seq<Block> := [], [];
      for i := 0 to |calls|
        invariant readOnlyCalls == Select(provider.env, calls[..i], false)
        invariant writeCalls == Select(provider.env, calls[..i], true)
      {
        assert calls[..i + 1][..i] == calls[..i];
        if provider.env.toolKind(calls[i].name) == WritingTool {
          writeCalls := writeCalls + [calls[i]];
        } else {
          readOnlyCalls := readOnlyCalls + [calls[i]];
        }
      }
      assert calls[..|calls|] == calls;
      results := [];
      for i := 0 to |readOnlyCalls|
        invariant |results| == i
        invariant forall j :: 0 <= j < i ==> results[j] == Executed(provider.env, totalTurns, calls)[j]
      {
        results := results + [ResultOf(provider.env, totalTurns, |results|, readOnlyCalls[i])];
      }
      for i := 0 to |writeCalls|
        invariant |results| == |readOnlyCalls| + i
        invariant forall j :: 0 <= j < |results| ==> results[j] == Executed(provider.env, totalTurns, calls)[j]
      {
        results := results + [ResultOf(provider.env, totalTurns, |results|, writeCalls[i])];
      }
      assert results == Executed(provider.env, totalTurns, calls);
      forall k: nat | k < |calls|
        ensures var p := ToolLaws.Earlier(provider.env, calls, k);
                p < |results| && ToolLaws.Answering(provider.env, totalTurns, calls[k], p, results[p])
      {
        ToolLaws.ResultBelongsToItsCall(provider.env, totalTurns, calls, k);
      }
      if calls == [] { assert ExecutionOrder(provider.env, calls) == []; }
      else { ToolLaws.ResultBelongsToItsCall(provider.env, totalTurns, calls, 0); }
    }

    method AppendNotes(notes: seq<string>, prefix: string)
      modifies this`messages
      ensures messages == old(messages) + NoteMessages(notes, prefix)
    {
      for i := 0 to |notes|
        invariant messages == old(messages) + NoteMessages(notes, prefix)[..i]
      {
        messages := messages + [UserText(prefix + notes[i])];
      }
    }

    method ToolCallsOf(blocks: seq<Block>) returns (calls: seq<Block>)
      ensures calls == CallsOf(blocks)
    {
      calls := [];
      for i := 0 to |blocks|
        invariant calls == CallsOf(blocks[..i])
      {
        assert blocks[..i + 1][..i] == blocks[..i];
        if blocks[i].ToolUse? {
          calls := calls + [blocks[i]];
        }
      }
      assert blocks[..|blocks|] == blocks;
    }

    /** Steps 0 and 1 of a turn: drain notes, compact, save a checkpoint. */
    method Prepare(turn: nat, ghost nudges: nat)
      requires Valid()
      modifies this`messages, provider, contextManager
      ensures Valid()
      ensures View(nudges) == Prepared(provider.env, cfg, old(View(nudges)), turn)
    {
      AppendNotes(provider.env.userNotes(turn), "[user note] ");
      AppendNotes(provider.env.toolNotes(turn), "");
      assert messages == Drained(provider.env, old(View(nudges)), turn).messages;
      messages := contextManager.MaybeCompact(messages, View(nudges));
      provider.Note(Saved(messages));
    }

    /** Steps 3 to 7 of a turn: append the reply and answer it. */
    method Answer(response: Reply, turn: nat, nudges: nat) returns (flow: Flow, nudges': nat)
      requires Valid() && response.Response? && totalTurns == turn
      modifies this`messages, this`recoveryCount, provider`log
      ensures Valid()
      ensures (View(nudges'), flow) == Answered(provider.env, cfg, old(View(nudges)), turn, response)
    {
      nudges' := nudges;
      messages := messages + [Message(Assistant, Blocks(response.blocks))];
      if response.stop == MaxTokens {
        recoveryCount := recoveryCount + 1;
        if recoveryCount <= 3 {
          messages := messages + [UserText(provider.env.recoveryText)];
          provider.Note(TextReply(Message(Assistant, Blocks(response.blocks))));
          return Continue, nudges;
        }
      }
      if response.stop != MaxTokens {
        recoveryCount := 0;
      }
      var toolCalls := ToolCallsOf(response.blocks);
      if toolCalls == [] {
        if nudges < 3 && turn < cfg.maxTurns && provider.env.premature(response.blocks) {
          nudges' := nudges + 1;
          messages := messages + [UserText(provider.env.nudgeText)];
          return Continue, nudges';
        }
        return Finished, nudges;
      }
      nudges' := 0;
      provider.Note(Pause(messages));
      var results := ExecuteTools(toolCalls);
      messages := provider.env.edited(turn, messages);
      provider.Note(Pause(messages));
      messages := messages + [Message(User, Blocks(results))];
      return Continue, nudges';
    }

    method OneTurn(turn: nat, nudges: nat) returns (flow: Flow, nudges': nat)
      requires Valid()
      modifies this, provider, contextManager
      ensures Valid()
      ensures (View(nudges'), flow) == Turn(provider.env, cfg, old(View(nudges)), turn)
    {
      totalTurns := turn;
      Prepare(turn, nudges);
      var reply := CallLlmWithRecovery(nudges);
      if reply.None? {
        return GaveUp, nudges;
      }
      flow, nudges' := Answer(reply.value, turn, nudges);
      provider.Note(Held(messages));
    }

    method Run(userMessage: string) returns (flow: Flow, nudges: nat)
      requires Valid()
      modifies this, provider, contextManager
      ensures Valid()
      ensures (View(nudges), flow) == AgentSpec.Run(provider.env, cfg, old(View(0)), userMessage)
    {
      if userMessage != "" {
        messages := messages + [UserText(userMessage)];
      }
      nudges := 0;
      ghost var begun := View(0);
      var turn := 1;
      while turn <= cfg.maxTurns
        invariant 1 <= turn
        invariant Valid()
        invariant Loop(provider.env, cfg, View(nudges), turn) == Loop(provider.env, cfg, begun, 1)
        decreases cfg.maxTurns + 1 - turn
      {
        flow, nudges := OneTurn(turn, nudges);
        if flow != Continue {
          return flow, nudges;
        }
        turn := turn + 1;
      }
      return OutOfTurns, nudges;
    }
  }
}
