/**
 Resuming from disk: what a restarted process makes of the history file that a killed one left.
 */
module Restart {
  import opened Basics
  import opened Messages
  import opened AgentSpec
  import opened RunSafety
  import opened Resume
  import opened MessageLog

  /** What the first turn after a restart starts from: an empty history gives way to the initial prompt. */
  function Restarted(h: History, nudge: string, prompt: string): History {
    if h == [] then [UserText(prompt)] else Resumed(h, nudge)
  }

  lemma RestartedPaired(h: History, nudge: string, prompt: string)
    requires PairedOpen(h)
    ensures var g := Restarted(h, nudge, prompt); Paired(g) && g[|g| - 1].role == User
  {
    if h != [] {
      SealedPaired(h);
      NudgedPaired(Sealed(h), nudge);
    }
  }

  /** A restart takes nothing away: every message but the last stays, and so does what the last one holds. */
  lemma RestartKeepsHistory(h: History, nudge: string, prompt: string)
    ensures var g := Restarted(h, nudge, prompt);
            if h == [] then g == [Message(User, Str(prompt))]
            else
              && |h| <= |g| <= |h| + 2 && g[..|h| - 1] == h[..|h| - 1] && g[|h| - 1].role == h[|h| - 1].role
              && match h[|h| - 1].content
                 case Absent => g[|h| - 1] == h[|h| - 1]
                 case Str(text) => g[|h| - 1].content.Str? && text <= g[|h| - 1].content.text
                 case Blocks(blocks) => g[|h| - 1].content.Blocks? && blocks <= g[|h| - 1].content.blocks
  {
    if h != [] {
      SealedAppends(h);
      NudgedKeepsHistory(Sealed(h), nudge);
    }
  }

  /** However much of a history's file survives, it resumes to a paired history ending on a user turn. */
  lemma TornFileResumes(codec: Codec, ms: History, n: nat, nudge: string, prompt: string)
    requires codec.Lawful() && AllLineSafe(codec, ms) && PairedOpen(ms)
    requires n <= |Payload(codec, ms)|
    ensures var g := Restarted(ReadText(codec, Some(Payload(codec, ms)[..n])), nudge, prompt);
            Paired(g) && g[|g| - 1].role == User
  {
    ReadPrefix(codec, ms, n);
    var back := ReadText(codec, Some(Payload(codec, ms)[..n]));
    RestartedPaired(back, nudge, prompt);
  }

  /** The file is missing or holds a history saved earlier in the run. */
  predicate HoldsSaved(codec: Codec, file: Option<string>, log: seq<Event>, end: nat)
    requires end <= |log|
  {
    file.None? || exists j :: 0 <= j < end && log[j].Saved? && file == Some(Payload(codec, log[j].list))
  }

  /**
   A clean run killed after any number of the file steps of any save, and restarted from whatever
   the file then holds, goes on from a paired history that ends on a user turn.
   */
  lemma KilledRunResumes(codec: Codec, env: Env, cfg: Config, st: State, userMessage: string, k: nat,
                         steps: seq<Step>, disks: seq<Disk>, i: nat, nudge: string, prompt: string)
    requires codec.Lawful() && EnvOk(env) && Good(st)
    requires var log := Run(env, cfg, st, userMessage).0.log;
      && AllClean(log) && k < |log| && log[k].Saved?
      && (forall j :: 0 <= j <= k && log[j].Saved? ==> AllLineSafe(codec, log[j].list))
      && Trace(Payload(codec, log[k].list), steps, disks) && i <= |steps|
      && HoldsSaved(codec, disks[0].file, log, k)
    ensures var g := Restarted(ReadText(codec, disks[i].file), nudge, prompt);
            var log := Run(env, cfg, st, userMessage).0.log;
            && Paired(g) && g[|g| - 1].role == User
            && (g == [UserText(prompt)]
                || exists j :: 0 <= j <= k && log[j].Saved? && g == Restarted(log[j].list, nudge, prompt))
  {
    RunKeepsPairing(env, cfg, st, userMessage);
    var log := Run(env, cfg, st, userMessage).0.log;
    FileOldOrNew(Payload(codec, log[k].list), steps, disks, i);
    var back := ReadText(codec, disks[i].file);
    if disks[i].file == Some(Payload(codec, log[k].list)) {
      SavedReadsBack(codec, log, k);
    } else if disks[0].file.Some? {
      var j :| 0 <= j < k && log[j].Saved? && disks[0].file == Some(Payload(codec, log[j].list));
      SavedReadsBack(codec, log, j);
    }
    RestartedPaired(back, nudge, prompt);
  }

  lemma SavedReadsBack(codec: Codec, log: seq<Event>, k: nat)
    requires codec.Lawful() && AllSafe(log) && k < |log| && log[k].Saved? && AllLineSafe(codec, log[k].list)
    ensures Paired(log[k].list) && ReadText(codec, Some(Payload(codec, log[k].list))) == log[k].list
  {
    assert Safe(log[k]);
    ReadUndoesWrite(codec, log[k].list);
  }
}
