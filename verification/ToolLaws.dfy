/**
 Which result a turn's tools yield for which call: each result stands where its call was executed, and
 carries the call's id with what that call, executed there, put out.
 */
module ToolLaws {
  import opened Messages
  import opened AgentSpec

  predicate AllCalls(calls: seq<Block>) {
    forall i :: 0 <= i < |calls| ==> calls[i].ToolUse?
  }

  /** The calls of one class among the first `n`. */
  function OfClass(env: Env, calls: seq<Block>, n: nat, writing: bool): set<nat>
    requires AllCalls(calls) && n <= |calls|
  {
    set i: nat | i < n && InClass(env, calls[i], writing)
  }

  predicate InClass(env: Env, call: Block, writing: bool)
    requires call.ToolUse?
  {
    env.toolKind(call.name) == WritingTool <==> writing
  }

  /** How many calls have to run before call `k`: those of its class made earlier, and all others if it writes. */
  function Earlier(env: Env, calls: seq<Block>, k: nat): nat
    requires AllCalls(calls) && k < |calls|
  {
    if env.toolKind(calls[k].name) == WritingTool
    then |OfClass(env, calls, |calls|, false)| + |OfClass(env, calls, k, true)|
    else |OfClass(env, calls, k, false)|
  }

  lemma OfClassStep(env: Env, calls: seq<Block>, n: nat, writing: bool)
    requires AllCalls(calls) && n < |calls|
    ensures var more := env.toolKind(calls[n].name) == WritingTool <==> writing;
            |OfClass(env, calls, n + 1, writing)| == |OfClass(env, calls, n, writing)| + if more then 1 else 0
  {
    OfClassGrows(env, calls, n, writing);
    assert n !in OfClass(env, calls, n, writing);
  }

  lemma OfClassGrows(env: Env, calls: seq<Block>, n: nat, writing: bool)
    requires AllCalls(calls) && n < |calls|
    ensures OfClass(env, calls, n + 1, writing) ==
            OfClass(env, calls, n, writing) + if InClass(env, calls[n], writing) then {n} else {}
  {
  }

  /** A class in order of execution lists as many calls as there are of it, each behind its predecessors. */
  lemma {:induction false} SelectedAt(env: Env, calls: seq<Block>, n: nat, k: nat, writing: bool)
    requires AllCalls(calls) && n <= |calls|
    ensures |Select(env, calls[..n], writing)| == |OfClass(env, calls, n, writing)|
    ensures k < n && (env.toolKind(calls[k].name) == WritingTool <==> writing) ==>
              var p := |OfClass(env, calls, k, writing)|;
              p < |Select(env, calls[..n], writing)| && Select(env, calls[..n], writing)[p] == calls[k]
  {
    if n == 0 {
      assert OfClass(env, calls, 0, writing) == {};
    } else {
      assert calls[..n][..n - 1] == calls[..n - 1];
      SelectedAt(env, calls, n - 1, k, writing);
      OfClassStep(env, calls, n - 1, writing);
    }
  }

  lemma ExecutedInPlace(env: Env, calls: seq<Block>, k: nat)
    requires AllCalls(calls) && k < |calls|
    ensures var order, p := ExecutionOrder(env, calls), Earlier(env, calls, k);
            |order| == |calls| && p < |order| && order[p] == calls[k]
  {
    var n := |calls|;
    assert calls[..n] == calls;
    SelectedAt(env, calls, n, k, false);
    SelectedAt(env, calls, n, k, true);
    ClassesCover(env, calls, n);
  }

  lemma {:induction false} ClassesCover(env: Env, calls: seq<Block>, n: nat)
    requires AllCalls(calls) && n <= |calls|
    ensures |OfClass(env, calls, n, false)| + |OfClass(env, calls, n, true)| == n
  {
    if n == 0 {
      assert OfClass(env, calls, 0, false) == {} && OfClass(env, calls, 0, true) == {};
    } else {
      ClassesCover(env, calls, n - 1);
      OfClassStep(env, calls, n - 1, false);
      OfClassStep(env, calls, n - 1, true);
    }
  }

  /** The result of call `k`, executed behind `p` others in the given turn. */
  predicate Answering(env: Env, turn: nat, call: Block, p: nat, result: Block)
    requires call.ToolUse?
  {
    && result.ToolResult? && result.useId == call.id
    && if env.toolKind(call.name) == UnknownTool
       then result.isError && result.body == Text(env.unknownText(call.name))
       else result.body == env.output(turn, p, call).body && result.isError == env.output(turn, p, call).isError
  }

  /**
   There is one result for each call, and call `k` finds its own, behind as many results as calls had to
   run before it: its id with its own output there, or an error naming the unknown tool.
   */
  lemma ResultBelongsToItsCall(env: Env, turn: nat, calls: seq<Block>, k: nat)
    requires AllCalls(calls) && k < |calls|
    ensures var results, p := Executed(env, turn, calls), Earlier(env, calls, k);
            |results| == |calls| && p < |results| && Answering(env, turn, calls[k], p, results[p])
  {
    ExecutedInPlace(env, calls, k);
  }

  /** No two calls run at the same place. */
  lemma PlacesDiffer(env: Env, calls: seq<Block>, j: nat, k: nat)
    requires AllCalls(calls) && j < k < |calls|
    ensures Earlier(env, calls, j) != Earlier(env, calls, k)
  {
    var w, v := env.toolKind(calls[j].name) == WritingTool, env.toolKind(calls[k].name) == WritingTool;
    ClassGrows(env, calls, j, k, w);
    ClassGrows(env, calls, k, |calls|, v);
    ClassGrows(env, calls, j, |calls|, w);
  }

  /** Behind a call of the class there is one more of it. */
  lemma {:induction false} ClassGrows(env: Env, calls: seq<Block>, j: nat, n: nat, writing: bool)
    requires AllCalls(calls) && j < n <= |calls|
    requires env.toolKind(calls[j].name) == WritingTool <==> writing
    ensures |OfClass(env, calls, j, writing)| < |OfClass(env, calls, n, writing)|
  {
    OfClassStep(env, calls, n - 1, writing);
    if j < n - 1 { ClassGrows(env, calls, j, n - 1, writing); }
  }

  /** The calls of a turn are its tool blocks, all of them and in order. */
  lemma {:induction false} CallsAreTheToolBlocks(bs: seq<Block>, k: nat)
    requires k < |bs| && bs[k].ToolUse?
    ensures var p := |set i: nat | i < k && bs[i].ToolUse?|;
            p < |CallsOf(bs)| && CallsOf(bs)[p] == bs[k]
    ensures |CallsOf(bs)| == |set i: nat | i < |bs| && bs[i].ToolUse?|
  {
    CallsCounted(bs, |bs|);
    CallsCounted(bs, k);
    CallsCounted(bs, k + 1);
    CallsPrefix(bs, k + 1);
    assert bs[..|bs|] == bs && bs[..k + 1][..k] == bs[..k];
    assert CallsOf(bs[..k + 1]) == CallsOf(bs[..k]) + [bs[k]];
  }

  lemma {:induction false} CallsCounted(bs: seq<Block>, n: nat)
    requires n <= |bs|
    ensures |CallsOf(bs[..n])| == |set i: nat | i < n && bs[i].ToolUse?|
  {
    var before := set i: nat | i < n && bs[i].ToolUse?;
    if n == 0 {
      assert before == {};
    } else {
      CallsCounted(bs, n - 1);
      assert bs[..n][..n - 1] == bs[..n - 1];
      var fewer := set i: nat | i < n - 1 && bs[i].ToolUse?;
      assert before == fewer + if bs[n - 1].ToolUse? then {n - 1} else {};
    }
  }

  lemma {:induction false} CallsPrefix(bs: seq<Block>, n: nat)
    requires n <= |bs|
    ensures CallsOf(bs[..n]) <= CallsOf(bs)
  {
    if n < |bs| {
      assert bs[..|bs| - 1][..n] == bs[..n];
      CallsPrefix(bs[..|bs| - 1], n);
    } else {
      assert bs[..n] == bs;
    }
  }
}
