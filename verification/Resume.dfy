/**
 Resuming an interrupted run: sealing the replayed history and folding in the resume nudge.
 */
module Resume {
  import opened Messages
  import opened AgentSpec
  import opened RunSafety
  import opened RegularRuns
  import AgentModule = Agent

  const INTERRUPTED := "[interrupted by checkpoint/resume — not executed]"

  /** An error result for each call, in order. */
  function SealResults(bs: seq<Block>): seq<Block> {
    var calls := CallsOf(bs);
    seq(|calls|, i requires 0 <= i < |calls| => ToolResult(calls[i].id, Text(INTERRUPTED), true))
  }

  function Sealed(h: History): History {
    if h == [] then h
    else
      var last := h[|h| - 1];
      if last.role != Assistant || !last.content.Blocks? || CallsOf(last.content.blocks) == [] then h
      else h + [Message(User, Blocks(SealResults(last.content.blocks)))]
  }

  lemma SealResultsAnswer(bs: seq<Block>)
    ensures BlockResults(SealResults(bs)) == BlockUses(bs) && BlockUses(SealResults(bs)) == []
  {
    CallsOfIds(bs);
    ResultsOfCalls(SealResults(bs), CallsOf(bs));
  }

  /** Sealing adds at most one user turn: an error for each call of a last assistant turn, in order. */
  lemma SealedAppends(h: History)
    ensures if h != [] && h[|h| - 1].role == Assistant && Uses(h[|h| - 1]) != [] then
              && |Sealed(h)| == |h| + 1 && Sealed(h)[..|h|] == h
              && var turn := Sealed(h)[|h|];
              && turn.role == User && turn.content.Blocks? && Results(turn) == Uses(h[|h| - 1])
              && forall k :: 0 <= k < |turn.content.blocks| ==>
                   var b := turn.content.blocks[k];
                   b.ToolResult? && b.isError && b.body == Text("[interrupted by checkpoint/resume — not executed]")
            else Sealed(h) == h
  {
    if h != [] && h[|h| - 1].content.Blocks? {
      NoCallsNoUses(h[|h| - 1].content.blocks);
      SealResultsAnswer(h[|h| - 1].content.blocks);
    }
  }

  /** Sealing completes any history that is paired up to its last turn. */
  lemma SealedPaired(h: History)
    requires PairedOpen(h)
    ensures Paired(Sealed(h))
  {
    if h != [] {
      var last := h[|h| - 1];
      assert RoleOk(last);
      if last.content.Blocks? {
        NoCallsNoUses(last.content.blocks);
        SealResultsAnswer(last.content.blocks);
        PairedAppend(h, Message(User, Blocks(SealResults(last.content.blocks))));
      }
    }
  }

  /** Sealing leaves a history alone exactly when it is already paired. */
  lemma SealedIdentityExactly(h: History)
    requires PairedOpen(h)
    ensures Sealed(h) == h <==> Paired(h)
  {
    SealedPaired(h);
    if h != [] && h[|h| - 1].content.Blocks? {
      NoCallsNoUses(h[|h| - 1].content.blocks);
      assert RoleOk(h[|h| - 1]);
    }
  }

  /** Sealing twice is sealing once, for every history. */
  lemma SealedIdempotent(h: History)
    ensures Sealed(Sealed(h)) == Sealed(h)
  {
    if Sealed(h) != h {
      assert Sealed(h)[|h|].role == User;
    }
  }

  /** The history after the resume nudge: folded into a trailing user turn where possible. */
  function Nudged(h: History, nudge: string): History {
    if h != [] && h[|h| - 1].role == User && !h[|h| - 1].content.Absent? then
      var last := h[|h| - 1];
      h[|h| - 1 := last.(content :=
        if last.content.Str? then Str(last.content.text + "\n\n" + nudge)
        else Blocks(last.content.blocks + [TextBlock(nudge)]))]
    else h + [UserText(nudge)]
  }

  method AppendResumeNudge(agent: AgentModule.Agent, nudge: string)
    modifies agent`messages
    ensures agent.messages == Nudged(old(agent.messages), nudge)
  {
    var msgs := agent.messages;
    if msgs != [] && msgs[|msgs| - 1].role == User {
      var last := msgs[|msgs| - 1];
      match last.content {
        case Str(text) =>
          agent.messages := msgs[|msgs| - 1 := last.(content := Str(text + "\n\n" + nudge))];
        case Blocks(blocks) =>
          agent.messages := msgs[|msgs| - 1 := last.(content := Blocks(blocks + [TextBlock(nudge)]))];
        case Absent =>
          agent.messages := msgs + [UserText(nudge)];
      }
    } else {
      agent.messages := msgs + [UserText(nudge)];
    }
  }

  /** The nudge is added behind all there was: behind the text or blocks of a last user turn, or as a turn. */
  lemma NudgedKeepsHistory(h: History, nudge: string)
    ensures var g := Nudged(h, nudge);
            if h != [] && h[|h| - 1].role == User && !h[|h| - 1].content.Absent? then
              && |g| == |h| && g[..|h| - 1] == h[..|h| - 1] && g[|h| - 1].role == User
              && match h[|h| - 1].content
                 case Str(text) => g[|h| - 1].content == Str(text + "\n\n" + nudge)
                 case Blocks(blocks) => g[|h| - 1].content == Blocks(blocks + [TextBlock(nudge)])
            else g == h + [Message(User, Str(nudge))]
  {
  }

  /** The resumed history always ends on a user turn and stays paired. */
  lemma NudgedPaired(h: History, nudge: string)
    requires Paired(h)
    ensures Paired(Nudged(h, nudge))
    ensures var g := Nudged(h, nudge); g[|g| - 1].role == User
  {
    var g := Nudged(h, nudge);
    if |g| == |h| {
      var n := |h| - 1;
      if h[n].content.Blocks? {
        var bs := h[n].content.blocks;
        assert (bs + [TextBlock(nudge)])[..|bs|] == bs;
      }
      assert Uses(g[n]) == Uses(h[n]) && Results(g[n]) == Results(h[n]) && RoleOk(h[n]);
      forall i | 0 < i < |g| ensures Answers(g[i - 1], g[i]) {
        assert Answers(h[i - 1], h[i]);
      }
    } else {
      PairedAppend(h, UserText(nudge));
    }
  }

  /** Positions `i` such that messages `i` and `i + 1` are both user turns. */
  predicate UserPair(h: History, i: nat) {
    i + 1 < |h| && h[i].role == User && h[i + 1].role == User
  }

  /** The nudge creates adjacent user turns exactly when the last one is a user turn without content. */
  lemma NudgedAlternatesExactly(h: History, nudge: string)
    ensures (forall i: nat :: UserPair(Nudged(h, nudge), i) ==> UserPair(h, i)) <==>
            !(h != [] && h[|h| - 1].role == User && h[|h| - 1].content.Absent?)
  {
    var g := Nudged(h, nudge);
    if h != [] && h[|h| - 1].role == User && h[|h| - 1].content.Absent? {
      assert UserPair(g, |h| - 1) && !UserPair(h, |h| - 1);
    } else {
      forall i: nat | UserPair(g, i) ensures UserPair(h, i) {
      }
    }
  }

  function Resumed(h: History, nudge: string): History {
    Nudged(Sealed(h), nudge)
  }

  /**
   Cancellation safety: a run suspended at any await, or saved at any turn boundary, without an
   unclean event before, can be resumed from the list held there: sealing and nudging yield a
   paired history that ends on a user turn, and sealing does nothing to a saved list.
   */
  lemma CancelledRunResumes(env: Env, cfg: Config, st: State, userMessage: string, k: nat, nudge: string)
    requires EnvOk(env) && Good(st)
    requires var log := Run(env, cfg, st, userMessage).0.log;
             AllClean(log) && k < |log| && (log[k].Pause? || log[k].Saved?)
    ensures var e := Run(env, cfg, st, userMessage).0.log[k];
            && Paired(Sealed(e.list))
            && (e.Saved? ==> Sealed(e.list) == e.list)
            && Paired(Resumed(e.list, nudge))
            && var g := Resumed(e.list, nudge); g[|g| - 1].role == User
  {
    RunKeepsPairing(env, cfg, st, userMessage);
    var log := Run(env, cfg, st, userMessage).0.log;
    assert Safe(log[k]);
    var h := log[k].list;
    SealedPaired(h);
    SealedIdentityExactly(h);
    NudgedPaired(Sealed(h), nudge);
  }

  /** What is held inside a turn is at a turn boundary again once sealed and nudged. */
  lemma ResumedBounded(h: History, nudge: string)
    requires MidTurn(h)
    ensures Bounded(Resumed(h, nudge))
  {
  }

  /**
   Interrupted at any await of a regular run, or killed and left with any list it saved, and resumed
   in any benign environment, the new run again hands only paired lists to the provider:
   interruption and resumption can be repeated.
   */
  lemma ResumedRunKeepsPairing(env: Env, cfg: Config, st: State, userMessage: string, k: nat,
                               nudge: string, env': Env, cfg': Config)
    requires EnvOk(env) && Benign(env, cfg) && EnvOk(env') && Benign(env', cfg')
    requires Good(st) && AllRegular(st.log) && Bounded(Begun(st, userMessage))
    requires var log := Run(env, cfg, st, userMessage).0.log;
             SummarisedFirst(cfg, log) && k < |log| && (log[k].Pause? || log[k].Saved?)
    requires var held := Run(env, cfg, st, userMessage).0.log[k].list;
             SummarisedFirst(cfg', Run(env', cfg', State(Resumed(held, nudge), 0, 0, 0, 0, []), "").0.log)
    ensures var held := Run(env, cfg, st, userMessage).0.log[k].list;
            var (s, flow) := Run(env', cfg', State(Resumed(held, nudge), 0, 0, 0, 0, []), "");
            AllSafe(s.log) && AllRegular(s.log)
  {
    RegularRunKeepsPairing(env, cfg, st, userMessage);
    var log := Run(env, cfg, st, userMessage).0.log;
    assert Regular(log[k]) && Safe(log[k]);
    var held := log[k].list;
    SealedPaired(held);
    NudgedPaired(Sealed(held), nudge);
    ResumedBounded(held, nudge);
    RegularRunKeepsPairing(env', cfg', State(Resumed(held, nudge), 0, 0, 0, 0, []), "");
  }
}
