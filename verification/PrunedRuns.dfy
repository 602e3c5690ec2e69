/**
 Runs whose tools prune the list the agent holds: committing an idea elides the scratch work that led
 to it, in place and in the middle of a turn.
 */
module PrunedRuns {
  import opened Messages
  import opened AgentSpec
  import opened RunSafety
  import opened RegularRuns
  import opened ContextPrune
  import opened ContextPruneLaws

  /**
   The environment with the pruning hook wired in: `prunes` says which turns commit an idea while the
   hook still holds the agent's own list. Committing twice in a turn prunes once (`PruneIdempotent`).
   */
  function Pruning(env: Env, prunes: nat -> bool): Env {
    env.(edited := (turn: nat, h: History) => if prunes(turn) then Pruned(h) else h)
  }

  lemma PrunedKeepsShape(h: History)
    ensures SameShape(h, Pruned(h))
  {
    PrunedKeepsPairing(h);
  }

  /** Pruning is among the rewritings that runs are proved to survive. */
  lemma PruningIsAllowed(env: Env, prunes: nat -> bool)
    requires EnvOk(env)
    ensures EnvOk(Pruning(env, prunes))
  {
    var p := Pruning(env, prunes);
    forall turn: nat, h: History ensures SameShape(h, p.edited(turn, h)) {
      PrunedKeepsShape(h);
    }
    assert forall n: nat :: p.reply(n) == env.reply(n);
  }

  /** Whatever turns prune, a run hands out, saves and holds only paired lists exactly when it is clean. */
  lemma PruningRunKeepsPairing(env: Env, cfg: Config, st: State, userMessage: string, prunes: nat -> bool)
    requires EnvOk(env) && Good(st)
    ensures var (s, flow) := Run(Pruning(env, prunes), cfg, st, userMessage);
            && st.log <= s.log && (AllClean(s.log) ==> AllSafe(s.log) && Paired(s.messages))
            && (AllClean(st.log) ==> (AllSafe(s.log) && Paired(s.messages) <==> AllClean(s.log)))
  {
    PruningIsAllowed(env, prunes);
    if AllClean(st.log) { RunPairedExactly(Pruning(env, prunes), cfg, st, userMessage); }
    RunKeepsPairing(Pruning(env, prunes), cfg, st, userMessage);
  }

  /** And a regular run is clean whatever turns prune. */
  lemma PruningRegularRunKeepsPairing(env: Env, cfg: Config, userMessage: string, prunes: nat -> bool)
    requires EnvOk(env) && Benign(env, cfg) && userMessage != ""
    requires SummarisedFirst(cfg, Run(Pruning(env, prunes), cfg, State([], 0, 0, 0, 0, []), userMessage).0.log)
    ensures AllSafe(Run(Pruning(env, prunes), cfg, State([], 0, 0, 0, 0, []), userMessage).0.log)
  {
    PruningIsAllowed(env, prunes);
    var p := Pruning(env, prunes);
    assert Benign(p, cfg) by {
      assert forall n: nat :: p.reply(n) == env.reply(n) && p.summary(n) == env.summary(n);
      assert forall n: nat :: p.userNotes(n) == env.userNotes(n) && p.toolNotes(n) == env.toolNotes(n);
    }
    FreshRunKeepsPairing(p, cfg, userMessage);
  }
}
