/**
 Where compaction may cut: for the first compaction of a run whose turns all call tools, exactly which
 values of `keepRecent` keep pairing, and histories on which the other cuts break it.
 */
module CompactionCuts {
  import opened Messages
  import opened AgentSpec
  import opened RunSafety

  /** Where emergency truncation resumes in a summarised history. */
  lemma EmergencyTailAfterSummary(m: History, k: int)
    requires |m| == k + 2 && k >= 2
    ensures EmergencyTail(m, k) == |m| - k / 2 && Min(2, |m|) == 2
    ensures Emergency(m, k) == m[..2] + m[|m| - k / 2..]
  {
  }

  // ---------- which values of keepRecent work ----------

  /** Every assistant turn calls at least one tool. */
  predicate Busy(h: History) {
    forall i :: 0 <= i < |h| && h[i].role == Assistant ==> Uses(h[i]) != []
  }

  /** In a busy history a position is clean exactly when an assistant turn stands there. */
  lemma BusyCut(h: History, q: nat)
    requires Paired(h) && AtBoundary(h, false) && Busy(h) && 0 < q < |h|
    ensures ResultsAt(h, q) == [] <==> q % 2 == 1
  {
    assert RoleOk(h[q]) && Answers(h[q - 1], h[q]);
    if q % 2 == 0 {
      assert h[q - 1].role == Assistant;
      EmptyMultiset(Uses(h[q - 1]));
      EmptyMultiset(Results(h[q]));
    }
  }

  lemma BusyTail(h: History, k: int)
    requires Paired(h) && AtBoundary(h, false) && Busy(h) && 0 < k < |h|
    ensures ResultsAt(h, |h| - k) == [] <==> k % 2 == 0
  {
    BusyCut(h, |h| - k);
  }

  lemma EmergencyOfSummaryExactly(m: History, k: int)
    requires Paired(m) && |m| == k + 2 && k >= 2 && Uses(m[1]) == []
    ensures Paired(Emergency(m, k)) <==> Results(m[|m| - k / 2]) == []
  {
    EmergencyTailAfterSummary(m, k);
    EmergencyCutExactly(m, k);
    EmptyMultiset(Results(m[|m| - k / 2]));
  }

  lemma SummaryIndexing(h: History, k: int, compactions: nat, text: string)
    requires 0 < k < |h|
    ensures var m := SummaryMessages(compactions, text) + h[|h| - k..];
            && |m| == k + 2 && Uses(m[1]) == []
            && (k >= 2 ==> m[|m| - k / 2] == h[|h| - k / 2])
  {
  }

  function FirstSummary(h: History, k: int, compactions: nat, text: string): History
    requires 0 < k < |h|
  {
    SummaryMessages(compactions, text) + h[|h| - k..]
  }

  lemma FirstSummaryExactly(h: History, k: int, compactions: nat, text: string)
    requires Paired(h) && AtBoundary(h, false) && Busy(h) && 0 < k < |h|
    ensures Paired(FirstSummary(h, k, compactions, text)) <==> k % 2 == 0
  {
    BusyTail(h, k);
    SummaryCutExactly(h, |h| - k, compactions, text);
  }

  lemma FirstEmergencyExactly(h: History, k: int, compactions: nat, text: string)
    requires Paired(h) && AtBoundary(h, false) && Busy(h) && 0 < k < |h| && k % 2 == 0
    ensures Paired(Emergency(FirstSummary(h, k, compactions, text), k)) <==> (k / 2) % 2 == 0
  {
    HalfTail(h, k);
    FirstSummaryExactly(h, k, compactions, text);
    SummaryIndexing(h, k, compactions, text);
    EmergencyOfSummaryExactly(FirstSummary(h, k, compactions, text), k);
  }

  lemma HalfTail(h: History, k: int)
    requires Paired(h) && AtBoundary(h, false) && Busy(h) && 2 <= k < |h|
    ensures Results(h[|h| - k / 2]) == [] <==> (k / 2) % 2 == 0
  {
    BusyTail(h, k / 2);
  }

  /**
   For the first compaction of a busy run, summary and emergency truncation both keep pairing
   exactly when `keepRecent` is a multiple of four.
   */
  lemma MultiplesOfFourExactly(h: History, k: int, compactions: nat, text: string)
    requires Paired(h) && AtBoundary(h, false) && Busy(h) && 0 < k < |h|
    ensures var m := FirstSummary(h, k, compactions, text);
            Paired(m) && Paired(Emergency(m, k)) <==> k % 4 == 0
  {
    MultipleOfFour(k);
    FirstSummaryExactly(h, k, compactions, text);
    if k % 2 == 0 {
      FirstEmergencyExactly(h, k, compactions, text);
    }
  }

  lemma MultipleOfFour(k: int)
    ensures k % 4 == 0 <==> k % 2 == 0 && (k / 2) % 2 == 0
  {
  }

  // ---------- histories on which the cuts do split a pair ----------

  function SampleTurn(id: string): History {
    [Message(Assistant, Blocks([ToolUse(id, "Bash", map[])])),
     Message(User, Blocks([ToolResult(id, Text("ok"), false)]))]
  }

  function Sample(): History {
    [UserText("go")] + SampleTurn("x") + SampleTurn("y")
  }

  lemma SampleIds()
    ensures Uses(Sample()[1]) == ["x"] && Results(Sample()[1]) == []
    ensures Uses(Sample()[2]) == [] && Results(Sample()[2]) == ["x"]
    ensures Uses(Sample()[3]) == ["y"] && Results(Sample()[3]) == []
    ensures Uses(Sample()[4]) == [] && Results(Sample()[4]) == ["y"]
    ensures Paired(Sample())
  {
    forall b: Block ensures BlockUses([b]) == (if b.ToolUse? then [b.id] else [])
                         && BlockResults([b]) == if b.ToolResult? then [b.useId] else [] {
      assert [b][..0] == [];
    }
  }

  /**
   A short history that stays over the threshold is not summarised, and then emergency
   truncation overlaps itself: five messages with `keepRecent` 8 repeat a call.
   */
  lemma EmergencyWithoutSummaryBreaks()
    ensures Paired(Sample()) && !Paired(Emergency(Sample(), 8))
  {
    SampleIds();
    EmergencyCutExactly(Sample(), 8);
    assert EmergencyTail(Sample(), 8) == 1;
    EmptyMultiset(Uses(Sample()[1]));
  }

  /** The fallback after a failed summary can start with an orphan result. */
  lemma FallbackBreaks()
    ensures Paired(Sample()) && !Paired(Sample()[|Sample()| / 2..])
  {
    SampleIds();
    FallbackCutExactly(Sample());
  }
}
