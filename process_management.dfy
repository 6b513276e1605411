/**
 * The engine's task scheduler (src/app/processes/ProcessManagement.cpp): a FIFO queue
 * of tasks, drained either in-process (one executeCryption call per task) or by
 * launching one child process per task and then waiting on the child handles in
 * batches of at most 64, the limit of WaitForMultipleObjects.
 *
 * The Windows calls are inputs: the outcome of each CreateProcessA call (the child's
 * handle, or None when it fails) and whether each batch wait returns WAIT_FAILED.
 * Task's declaration (src/app/processes/Task.hpp) is not part of this model, so a
 * task is its file path and action, and its toString is a parameter.
 */
module Processes {
  import opened Text

  datatype Action = Encrypt | Decrypt

  /** A queued task; the open file stream it also carries is not modelled. */
  datatype Task = Task(filePath: string, action: Action)

  /** A Windows HANDLE: NULL, or the handle of a child process. */
  datatype Handle = NullHandle | ProcessHandle(id: nat)

  /** One WaitForMultipleObjects call: `size` handles from index `start`, and whether
      it returned WAIT_FAILED. */
  datatype Batch = Batch(start: nat, size: nat, failed: bool)

  const MaxWaitObjects: nat := 64

  /** The command line a child is launched with: the executable, then the task text
      in double quotes. */
  function CommandLine(taskData: string): string {
    "build\\cryption.exe \"" + taskData + "\""
  }

  /** The task text sits, unchanged, between the quote after the executable's name
      and the final quote. */
  lemma CommandLineShape(taskData: string)
    ensures var cmd := CommandLine(taskData);
            && StartsWith(cmd, "build\\cryption.exe \"") && EndsWith(cmd, "\"")
            && |cmd| == |taskData| + 21
            && cmd[20..|cmd| - 1] == taskData
  {
  }

  /** f applied to each element, in order. */
  function Map<A, B>(f: A -> B, s: seq<A>): (r: seq<B>)
    ensures |r| == |s|
    ensures forall i :: 0 <= i < |s| ==> r[i] == f(s[i])
    decreases |s|
  {
    if s == [] then [] else Map(f, s[..|s| - 1]) + [f(s[|s| - 1])]
  }

  /** The command lines of the given task texts, in order. */
  function CommandLines(datas: seq<string>): (r: seq<string>)
    ensures |r| == |datas|
    ensures forall i :: 0 <= i < |datas| ==> r[i] == CommandLine(datas[i])
    decreases |datas|
  {
    if datas == [] then [] else CommandLines(datas[..|datas| - 1]) + [CommandLine(datas[|datas| - 1])]
  }

  /** The handles of the launches that succeeded, in launch order. */
  function Launched(outcomes: seq<Option<Handle>>): (r: seq<Handle>)
    ensures |r| <= |outcomes|
    decreases |outcomes|
  {
    if outcomes == [] then []
    else
      var init := outcomes[..|outcomes| - 1];
      match outcomes[|outcomes| - 1]
      case Some(h) => Launched(init) + [h]
      case None => Launched(init)
  }

  /** A handle is kept exactly when some launch produced it. */
  lemma {:induction false} LaunchedMembers(outcomes: seq<Option<Handle>>)
    ensures forall h :: h in Launched(outcomes) <==> Some(h) in outcomes
    decreases |outcomes|
  {
    if outcomes != [] {
      var init := outcomes[..|outcomes| - 1];
      assert outcomes == init + [outcomes[|outcomes| - 1]];
      LaunchedMembers(init);
    }
  }

  /** The non-NULL handles, in order: the ones cleanup closes. */
  function NonNull(hs: seq<Handle>): (r: seq<Handle>)
    ensures |r| <= |hs|
    decreases |hs|
  {
    if hs == [] then []
    else
      var init := hs[..|hs| - 1];
      if hs[|hs| - 1] == NullHandle then NonNull(init) else NonNull(init) + [hs[|hs| - 1]]
  }

  /** Cleanup closes every non-NULL handle and nothing else. */
  lemma {:induction false} NonNullMembers(hs: seq<Handle>)
    ensures forall h :: h in NonNull(hs) <==> h in hs && h != NullHandle
    decreases |hs|
  {
    if hs != [] {
      var init := hs[..|hs| - 1];
      assert hs == init + [hs[|hs| - 1]];
      NonNullMembers(init);
    }
  }

  /** When every launch succeeds, one handle per task. */
  lemma {:induction false} AllLaunchedOnePerTask(outcomes: seq<Option<Handle>>)
    requires forall i :: 0 <= i < |outcomes| ==> outcomes[i].Some?
    ensures |Launched(outcomes)| == |outcomes|
    decreases |outcomes|
  {
    if outcomes != [] {
      AllLaunchedOnePerTask(outcomes[..|outcomes| - 1]);
    }
  }

  // ---------------------------------------------------------------------------
  // The batch wait

  /** The waits issued for `remaining` handles from index `start`, the k-th batch
      being the next one: at most 64 at a time, and nothing after a WAIT_FAILED. */
  function BatchesFrom(start: nat, remaining: nat, k: nat, waitFails: nat -> bool): seq<Batch>
    decreases remaining
  {
    if remaining == 0 then []
    else
      var size := if remaining > MaxWaitObjects then MaxWaitObjects else remaining;
      [Batch(start, size, waitFails(k))]
      + (if waitFails(k) then [] else BatchesFrom(start + size, remaining - size, k + 1, waitFails))
  }

  /** The waits issued for n handles. */
  function WaitBatches(n: nat, waitFails: nat -> bool): seq<Batch> {
    BatchesFrom(0, n, 0, waitFails)
  }

  /** The number of handles the batches cover. */
  function Covered(bs: seq<Batch>): nat
    decreases |bs|
  {
    if bs == [] then 0 else bs[0].size + Covered(bs[1..])
  }

  /** Batch i of `bs` starts 64·i handles after `start`, holds 1 to 64 handles, ends
      within the range of `remaining` handles, and failed exactly when the (k+i)-th
      wait fails. */
  ghost predicate LaidOut(bs: seq<Batch>, start: nat, remaining: nat, k: nat, waitFails: nat -> bool) {
    forall i :: 0 <= i < |bs| ==>
      && bs[i].start == start + MaxWaitObjects * i
      && 1 <= bs[i].size <= MaxWaitObjects
      && bs[i].start + bs[i].size <= start + remaining
      && bs[i].failed == waitFails(k + i)
  }

  lemma {:induction false} BatchesFromLayout(start: nat, remaining: nat, k: nat, waitFails: nat -> bool)
    ensures LaidOut(BatchesFrom(start, remaining, k, waitFails), start, remaining, k, waitFails)
    decreases remaining
  {
    if remaining > 0 && !waitFails(k) {
      var size := if remaining > MaxWaitObjects then MaxWaitObjects else remaining;
      var bs := BatchesFrom(start, remaining, k, waitFails);
      var rest := BatchesFrom(start + size, remaining - size, k + 1, waitFails);
      BatchesFromLayout(start + size, remaining - size, k + 1, waitFails);
      assert LaidOut(rest, start + size, remaining - size, k + 1, waitFails);
      assert bs == [Batch(start, size, false)] + rest;
      if rest != [] {
        assert size == MaxWaitObjects;
      }
      forall i | 1 <= i < |bs|
        ensures bs[i].start == start + MaxWaitObjects * i
        ensures 1 <= bs[i].size <= MaxWaitObjects
        ensures bs[i].start + bs[i].size <= start + remaining
        ensures bs[i].failed == waitFails(k + i)
      {
        assert bs[i] == rest[i - 1];
        assert k + 1 + (i - 1) == k + i;
      }
    }
  }

  /** No wait but the last one failed. */
  lemma {:induction false} OnlyLastBatchFails(start: nat, remaining: nat, k: nat, waitFails: nat -> bool)
    ensures forall i :: 0 <= i < |BatchesFrom(start, remaining, k, waitFails)| - 1 ==>
              !BatchesFrom(start, remaining, k, waitFails)[i].failed
    decreases remaining
  {
    if remaining > 0 && !waitFails(k) {
      var size := if remaining > MaxWaitObjects then MaxWaitObjects else remaining;
      var bs := BatchesFrom(start, remaining, k, waitFails);
      var rest := BatchesFrom(start + size, remaining - size, k + 1, waitFails);
      OnlyLastBatchFails(start + size, remaining - size, k + 1, waitFails);
      assert bs == [Batch(start, size, false)] + rest;
      assert |bs| == |rest| + 1;
      forall i | 1 <= i < |bs| - 1
        ensures !bs[i].failed
      {
        assert bs[i] == rest[i - 1];
      }
    }
  }

  /** Unless the last wait failed, the waits cover the whole range. */
  lemma {:induction false} BatchesCoverUnlessFailed(start: nat, remaining: nat, k: nat, waitFails: nat -> bool)
    ensures var bs := BatchesFrom(start, remaining, k, waitFails);
            (|bs| > 0 && bs[|bs| - 1].failed) || Covered(bs) == remaining
    decreases remaining
  {
    if remaining > 0 && !waitFails(k) {
      var size := if remaining > MaxWaitObjects then MaxWaitObjects else remaining;
      var bs := BatchesFrom(start, remaining, k, waitFails);
      var rest := BatchesFrom(start + size, remaining - size, k + 1, waitFails);
      BatchesCoverUnlessFailed(start + size, remaining - size, k + 1, waitFails);
      assert bs == [Batch(start, size, false)] + rest;
      assert bs[1..] == rest;
      assert Covered(bs) == size + Covered(rest);
      if rest != [] {
        assert bs[|bs| - 1] == rest[|rest| - 1];
      }
    }
  }

  /** Only the last wait may have failed, and unless it did the waits cover the
      whole range. */
  lemma BatchesFromEnd(start: nat, remaining: nat, k: nat, waitFails: nat -> bool)
    ensures var bs := BatchesFrom(start, remaining, k, waitFails);
            && (forall i :: 0 <= i < |bs| - 1 ==> !bs[i].failed)
            && ((|bs| > 0 && bs[|bs| - 1].failed) || Covered(bs) == remaining)
  {
    OnlyLastBatchFails(start, remaining, k, waitFails);
    BatchesCoverUnlessFailed(start, remaining, k, waitFails);
  }

  /** One wait of the loop: appending its batch to what was collected leaves the rest
      of the batches still to come, none once a wait has failed. */
  lemma WaitStep(before: seq<Batch>, start: nat, remaining: nat, k: nat, waitFails: nat -> bool)
    requires remaining > 0
    ensures var size := if remaining > MaxWaitObjects then MaxWaitObjects else remaining;
            && (waitFails(k) ==> before + [Batch(start, size, true)] == before + BatchesFrom(start, remaining, k, waitFails))
            && (!waitFails(k) ==>
                  (before + [Batch(start, size, false)]) + BatchesFrom(start + size, remaining - size, k + 1, waitFails)
                  == before + BatchesFrom(start, remaining, k, waitFails))
  {
    var size := if remaining > MaxWaitObjects then MaxWaitObjects else remaining;
    if waitFails(k) {
      assert BatchesFrom(start, remaining, k, waitFails) == [Batch(start, size, true)];
    } else {
      var rest := BatchesFrom(start + size, remaining - size, k + 1, waitFails);
      assert BatchesFrom(start, remaining, k, waitFails) == [Batch(start, size, false)] + rest;
      AppendAssoc(before, [Batch(start, size, false)], rest);
    }
  }

  /** Batch i of the wait on n handles covers handles 64·i up to 64·i + 63 (fewer in
      the last batch), and without a WAIT_FAILED the batches together cover all n,
      in ⌈n/64⌉ calls. */
  lemma WaitCoversAllHandles(n: nat, waitFails: nat -> bool)
    requires forall k: nat :: !waitFails(k)
    ensures var bs := WaitBatches(n, waitFails);
            && Covered(bs) == n
            && |bs| == (n + MaxWaitObjects - 1) / MaxWaitObjects
            && forall i :: 0 <= i < |bs| ==> bs[i].start == MaxWaitObjects * i && !bs[i].failed
  {
    BatchesFromLayout(0, n, 0, waitFails);
    BatchesFromEnd(0, n, 0, waitFails);
    var bs := WaitBatches(n, waitFails);
    assert LaidOut(bs, 0, n, 0, waitFails);
    assert |bs| > 0 ==> !bs[|bs| - 1].failed;
    CoveredBound(bs);
  }

  /** Batches of at most 64 that cover n handles number at least ⌈n/64⌉. */
  lemma {:induction false} CoveredBound(bs: seq<Batch>)
    requires forall i :: 0 <= i < |bs| ==> bs[i].size <= MaxWaitObjects
    ensures Covered(bs) <= MaxWaitObjects * |bs|
    decreases |bs|
  {
    if bs != [] {
      CoveredBound(bs[1..]);
    }
  }

  /** A WAIT_FAILED on batch k (all earlier batches succeeding) ends the wait there:
      exactly k + 1 waits are issued and the handles after that batch are never
      waited on. */
  lemma WaitStopsAtFailure(n: nat, waitFails: nat -> bool, k: nat)
    requires MaxWaitObjects * k < n
    requires waitFails(k) && forall j: nat :: 0 <= j < 0 + k ==> !waitFails(j)
    ensures var bs := WaitBatches(n, waitFails);
            && |bs| == k + 1 && bs[k].failed
            && (Covered(bs) < n <==> MaxWaitObjects * (k + 1) < n)
  {
    BatchesFromLayout(0, n, 0, waitFails);
    assert LaidOut(WaitBatches(n, waitFails), 0, n, 0, waitFails);
    StopsAt(0, n, 0, waitFails, k);
    CoveredPrefix(0, n, 0, waitFails, k);
  }

  lemma {:induction false} StopsAt(start: nat, remaining: nat, j: nat, waitFails: nat -> bool, k: nat)
    requires MaxWaitObjects * k < remaining
    requires waitFails(j + k) && forall i: nat :: j <= i < j + k ==> !waitFails(i)
    ensures |BatchesFrom(start, remaining, j, waitFails)| == k + 1
    decreases k
  {
    if k > 0 {
      assert !waitFails(j);
      StopsAt(start + MaxWaitObjects, remaining - MaxWaitObjects, j + 1, waitFails, k - 1);
    }
  }

  lemma {:induction false} CoveredPrefix(start: nat, remaining: nat, j: nat, waitFails: nat -> bool, k: nat)
    requires MaxWaitObjects * k < remaining
    requires waitFails(j + k) && forall i: nat :: j <= i < j + k ==> !waitFails(i)
    ensures var c := Covered(BatchesFrom(start, remaining, j, waitFails));
            c == if MaxWaitObjects * (k + 1) < remaining then MaxWaitObjects * (k + 1) else remaining
    decreases k
  {
    var bs := BatchesFrom(start, remaining, j, waitFails);
    if k > 0 {
      assert !waitFails(j);
      CoveredPrefix(start + MaxWaitObjects, remaining - MaxWaitObjects, j + 1, waitFails, k - 1);
      assert bs[1..] == BatchesFrom(start + MaxWaitObjects, remaining - MaxWaitObjects, j + 1, waitFails);
    } else {
      assert bs[1..] == [];
    }
  }

  // ---------------------------------------------------------------------------
  // The scheduler object

  /** The batch wait over n handles: at most 64 handles per wait, stopping at the
      first WAIT_FAILED. */
  method WaitInBatches(n: nat, waitFails: nat -> bool) returns (batches: seq<Batch>)
    ensures batches == WaitBatches(n, waitFails)
  {
    batches := [];
    var remaining: nat := n;
    var start: nat := 0;
    var k: nat := 0;
    var failed := false;
    while remaining > 0 && !failed
      invariant failed ==> batches == WaitBatches(n, waitFails)
      invariant !failed ==> batches + BatchesFrom(start, remaining, k, waitFails) == WaitBatches(n, waitFails)
      decreases remaining, if failed then 0 else 1
    {
      var batchSize := if remaining > MaxWaitObjects then MaxWaitObjects else remaining;
      var result := waitFails(k);
      WaitStep(batches, start, remaining, k, waitFails);
      batches := batches + [Batch(start, batchSize, result)];
      if result {
        failed := true;
      } else {
        remaining := remaining - batchSize;
        start := start + batchSize;
        k := k + 1;
      }
    }
    if !failed {
      assert BatchesFrom(start, remaining, k, waitFails) == [];
      assert batches + [] == batches;
    }
  }

  class ProcessManagement {
    var taskQueue: seq<Task>
    var processHandles: seq<Handle>

    constructor ()
      ensures taskQueue == [] && processHandles == []
    {
      taskQueue := [];
      processHandles := [];
    }

    /** submitToQueue: the task joins the back of the queue; always accepted. */
    method SubmitToQueue(task: Task) returns (accepted: bool)
      modifies this
      ensures accepted
      ensures taskQueue == old(taskQueue) + [task]
      ensures processHandles == old(processHandles)
    {
      taskQueue := taskQueue + [task];
      accepted := true;
    }

    /** executeTasks: pops every task from the front and hands its text to
        executeCryption (whose result is ignored). Returns the texts passed, in call
        order. */
    method ExecuteTasks(toString: Task -> string) returns (cryptionCalls: seq<string>)
      modifies this
      ensures cryptionCalls == Map(toString, old(taskQueue))
      ensures taskQueue == []
      ensures processHandles == old(processHandles)
    {
      ghost var q := taskQueue;
      cryptionCalls := [];
      var i := 0;
      while taskQueue != []
        invariant 0 <= i <= |q| && taskQueue == q[i..]
        invariant cryptionCalls == Map(toString, q[..i])
        invariant processHandles == old(processHandles)
        decreases |taskQueue|
      {
        var task := taskQueue[0];
        taskQueue := taskQueue[1..];
        assert q[..i + 1] == q[..i] + [task];
        cryptionCalls := cryptionCalls + [toString(task)];
        i := i + 1;
      }
    }

    /** createChildProcess: launches `build\cryption.exe "<taskData>"`; the child's
        handle is kept only when the launch succeeded. */
    method CreateChildProcess(taskData: string, outcome: Option<Handle>) returns (ok: bool, commandLine: string)
      modifies this
      ensures commandLine == CommandLine(taskData)
      ensures ok <==> outcome.Some?
      ensures processHandles == old(processHandles) + (if ok then [outcome.value] else [])
      ensures taskQueue == old(taskQueue)
    {
      commandLine := "build\\cryption.exe \"" + taskData + "\"";
      match outcome {
        case None =>
          ok := false;
        case Some(h) =>
          processHandles := processHandles + [h];
          ok := true;
      }
    }

    /** The first loop of executeTasksWithMultiprocessing: one launch per task in
        FIFO order, a failed launch only logged. `outcomes[i]` is what CreateProcessA
        gives for the i-th task. */
    method LaunchQueued(toString: Task -> string, outcomes: seq<Option<Handle>>) returns (commandLines: seq<string>)
      requires |outcomes| == |taskQueue|
      modifies this
      ensures commandLines == CommandLines(Map(toString, old(taskQueue)))
      ensures processHandles == old(processHandles) + Launched(outcomes)
      ensures taskQueue == []
    {
      ghost var q := taskQueue;
      commandLines := [];
      var i := 0;
      while taskQueue != []
        invariant 0 <= i <= |q| && taskQueue == q[i..] && |outcomes| == |q|
        invariant |commandLines| == i
        invariant forall j :: 0 <= j < i ==> commandLines[j] == CommandLine(toString(q[j]))
        invariant processHandles == old(processHandles) + Launched(outcomes[..i])
        decreases |taskQueue|
      {
        var task := taskQueue[0];
        taskQueue := taskQueue[1..];
        var ok, cmd := CreateChildProcess(toString(task), outcomes[i]);
        assert outcomes[..i + 1][..i] == outcomes[..i];
        commandLines := commandLines + [cmd];
        i := i + 1;
      }
      assert outcomes[..i] == outcomes;
    }

    /** The wait on every launched child: the batch wait over the kept handles.
        `waitFails(k)` is whether the k-th wait fails. */
    method WaitForChildren(waitFails: nat -> bool) returns (batches: seq<Batch>)
      ensures batches == WaitBatches(|processHandles|, waitFails)
    {
      batches := WaitInBatches(|processHandles|, waitFails);
    }

    /** cleanupProcesses: closes every non-NULL handle, then empties the vector.
        Returns the handles closed, in order. */
    method CleanupProcesses() returns (closed: seq<Handle>)
      modifies this
      ensures closed == NonNull(old(processHandles))
      ensures processHandles == []
      ensures taskQueue == old(taskQueue)
    {
      closed := [];
      var i := 0;
      while i < |processHandles|
        invariant 0 <= i <= |processHandles|
        invariant closed == NonNull(processHandles[..i])
      {
        assert processHandles[..i + 1][..i] == processHandles[..i];
        if processHandles[i] != NullHandle {
          closed := closed + [processHandles[i]];
        }
        i := i + 1;
      }
      assert processHandles[..i] == processHandles;
      processHandles := [];
    }

    /** The destructor: cleanup. */
    method Dispose() returns (closed: seq<Handle>)
      modifies this
      ensures closed == NonNull(old(processHandles))
      ensures processHandles == []
    {
      closed := CleanupProcesses();
    }

    /** executeTasksWithMultiprocessing: launch every queued task, wait on the
        launched children in batches, then clean up. */
    method ExecuteTasksWithMultiprocessing(toString: Task -> string, outcomes: seq<Option<Handle>>, waitFails: nat -> bool)
      returns (commandLines: seq<string>, batches: seq<Batch>, closed: seq<Handle>)
      requires |outcomes| == |taskQueue|
      modifies this
      ensures commandLines == CommandLines(Map(toString, old(taskQueue)))
      ensures batches == WaitBatches(|old(processHandles) + Launched(outcomes)|, waitFails)
      ensures closed == NonNull(old(processHandles) + Launched(outcomes))
      ensures taskQueue == [] && processHandles == []
    {
      commandLines := LaunchQueued(toString, outcomes);
      batches := [];
      if processHandles != [] {
        batches := WaitForChildren(waitFails);
      }
      closed := CleanupProcesses();
    }
  }
}
