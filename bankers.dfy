/**
 * Dijkstra's Banker's safety check (frontend/file.c). From the maximum claims, the
 * current allocations and the total of each resource, it computes what is available
 * and what each process still needs, then repeatedly sweeps the processes in index
 * order, letting any unfinished process whose need fits the available resources run
 * to completion and release its allocation, until all have finished ("can be
 * fulfilled", with the order found) or a sweep lets none run ("cannot be fulfilled").
 *
 * The counts p and r and the matrices are parameters; scanf parsing is not modelled.
 * Integers are unbounded here, where the C program uses int.
 */
module Bankers {

  datatype Verdict = Fulfilled(safeSeq: seq<nat>) | Unfulfilled

  /** p rows of r entries each. */
  predicate IsMatrix(m: seq<seq<int>>, p: nat, r: nat) {
    |m| == p && forall i :: 0 <= i < p ==> |m[i]| == r
  }

  /** The system the check runs on: what each process still needs and what it holds. */
  datatype Problem = Problem(p: nat, r: nat, need: seq<seq<int>>, alloc: seq<seq<int>>)

  predicate Valid(pr: Problem) {
    IsMatrix(pr.need, pr.p, pr.r) && IsMatrix(pr.alloc, pr.p, pr.r)
  }

  // ---------------------------------------------------------------------------
  // Setup

  /** alloc[0][j] + … + alloc[n-1][j]. */
  function ColumnSum(alloc: seq<seq<int>>, j: nat, n: nat): int
    requires n <= |alloc| && forall i :: 0 <= i < n ==> j < |alloc[i]|
    decreases n
  {
    if n == 0 then 0 else ColumnSum(alloc, j, n - 1) + alloc[n - 1][j]
  }

  /** avail[j] = total[j] − Σᵢ alloc[i][j]. */
  function InitialAvail(p: nat, r: nat, alloc: seq<seq<int>>, total: seq<int>): (avail: seq<int>)
    requires IsMatrix(alloc, p, r) && |total| == r
    ensures |avail| == r
  {
    seq(r, j requires 0 <= j < r => total[j] - ColumnSum(alloc, j, p))
  }

  /** need[i][j] = max[i][j] − alloc[i][j]. */
  function NeedMatrix(p: nat, r: nat, maxClaim: seq<seq<int>>, alloc: seq<seq<int>>): (need: seq<seq<int>>)
    requires IsMatrix(maxClaim, p, r) && IsMatrix(alloc, p, r)
    ensures IsMatrix(need, p, r)
  {
    seq(p, i requires 0 <= i < p => seq(r, j requires 0 <= j < r => maxClaim[i][j] - alloc[i][j]))
  }

  // ---------------------------------------------------------------------------
  // The sweep, as a function

  /** Every entry of the need row is within the work vector. */
  predicate Fits(needRow: seq<int>, work: seq<int>)
    requires |needRow| == |work|
  {
    forall j :: 0 <= j < |work| ==> needRow[j] <= work[j]
  }

  /** The work vector after a process releases its allocation. */
  function AddRow(work: seq<int>, row: seq<int>): (w: seq<int>)
    requires |row| == |work|
    ensures |w| == |work|
  {
    seq(|work|, k requires 0 <= k < |work| => work[k] + row[k])
  }

  function CountTrue(f: seq<bool>): (n: nat)
    ensures n <= |f|
    decreases |f|
  {
    if f == [] then 0 else CountTrue(f[..|f| - 1]) + (if f[|f| - 1] then 1 else 0)
  }

  /** Finishing one more process raises the count by one. */
  lemma {:induction false} CountTrueSet(f: seq<bool>, i: nat)
    requires i < |f| && !f[i]
    ensures CountTrue(f[i := true]) == CountTrue(f) + 1
    decreases |f|
  {
    var g := f[i := true];
    if i < |f| - 1 {
      assert g[..|g| - 1] == f[..|f| - 1][i := true];
      CountTrueSet(f[..|f| - 1], i);
    } else {
      assert g[..|g| - 1] == f[..|f| - 1];
    }
  }

  /** A count of |f| means every flag is set. */
  lemma {:induction false} CountTrueAll(f: seq<bool>)
    requires CountTrue(f) == |f|
    ensures forall i :: 0 <= i < |f| ==> f[i]
    decreases |f|
  {
    if f != [] {
      assert CountTrue(f[..|f| - 1]) <= |f| - 1;
      CountTrueAll(f[..|f| - 1]);
      forall i | 0 <= i < |f|
        ensures f[i]
      {
        if i < |f| - 1 {
          assert f[..|f| - 1][i] == f[i];
        }
      }
    }
  }

  /** The variables of the sweep: avail, finish, and safeSeq[0..count). */
  datatype State = State(work: seq<int>, finish: seq<bool>, order: seq<nat>)

  /** The sizes the sweep keeps: count equals the number of finished processes. */
  predicate Shaped(pr: Problem, st: State) {
    |st.work| == pr.r && |st.finish| == pr.p && |st.order| == CountTrue(st.finish)
  }

  /** p flags, none set. */
  function NoneFinished(p: nat): (f: seq<bool>)
    ensures |f| == p && forall i :: 0 <= i < p ==> !f[i]
  {
    seq(p, _ => false)
  }

  function Initial(pr: Problem, avail0: seq<int>): State {
    State(avail0, NoneFinished(pr.p), [])
  }

  lemma InitialShaped(pr: Problem, avail0: seq<int>)
    requires |avail0| == pr.r
    ensures Shaped(pr, Initial(pr, avail0))
  {
    CountNone(NoneFinished(pr.p));
  }

  lemma {:induction false} CountNone(f: seq<bool>)
    requires forall i :: 0 <= i < |f| ==> !f[i]
    ensures CountTrue(f) == 0
    decreases |f|
  {
    if f != [] {
      CountNone(f[..|f| - 1]);
    }
  }

  /** Process i runs: its allocation is released, it is marked finished and appended
      to the sequence. */
  function Select(pr: Problem, st: State, i: nat): (next: State)
    requires Valid(pr) && Shaped(pr, st) && i < pr.p && !st.finish[i]
    ensures Shaped(pr, next) && |next.order| == |st.order| + 1
  {
    CountTrueSet(st.finish, i);
    State(AddRow(st.work, pr.alloc[i]), st.finish[i := true], st.order + [i])
  }

  /** The rest of one sweep, from process i on: each unfinished process whose need
      fits the work vector as it stands at that moment is selected. */
  function PassFrom(pr: Problem, i: nat, st: State): (next: State)
    requires Valid(pr) && Shaped(pr, st)
    ensures Shaped(pr, next) && |next.order| >= |st.order|
    decreases pr.p - i
  {
    if i >= pr.p then st
    else if !st.finish[i] && Fits(pr.need[i], st.work) then PassFrom(pr, i + 1, Select(pr, st, i))
    else PassFrom(pr, i + 1, st)
  }

  /** The outer loop: sweep while fewer than p processes have finished; a sweep that
      selects nothing ends the check. */
  function Run(pr: Problem, st: State): Verdict
    requires Valid(pr) && Shaped(pr, st)
    decreases pr.p - |st.order|
  {
    if |st.order| >= pr.p then Fulfilled(st.order)
    else
      var next := PassFrom(pr, 0, st);
      if |next.order| == |st.order| then Unfulfilled else Run(pr, next)
  }

  /** The whole program's verdict. */
  function Banker(p: nat, r: nat, maxClaim: seq<seq<int>>, alloc: seq<seq<int>>, total: seq<int>): Verdict
    requires IsMatrix(maxClaim, p, r) && IsMatrix(alloc, p, r) && |total| == r
  {
    var pr := Problem(p, r, NeedMatrix(p, r, maxClaim, alloc), alloc);
    var avail0 := InitialAvail(p, r, alloc, total);
    InitialShaped(pr, avail0);
    Run(pr, Initial(pr, avail0))
  }

  // ---------------------------------------------------------------------------
  // What the verdict means

  predicate Distinct(s: seq<nat>) {
    forall a, b :: 0 <= a < b < |s| ==> s[a] != s[b]
  }

  /** s lists each of 0 … p−1 exactly once. */
  predicate IsPermutation(s: seq<nat>, p: nat) {
    |s| == p && Distinct(s) && (forall k :: 0 <= k < |s| ==> s[k] < p) && forall i :: 0 <= i < p ==> i in s
  }

  predicate InRange(s: seq<nat>, p: nat) {
    forall k :: 0 <= k < |s| ==> s[k] < p
  }

  /** The work vector once the processes of `order` have released their allocations. */
  function WorkAfter(pr: Problem, avail0: seq<int>, order: seq<nat>): (w: seq<int>)
    requires Valid(pr) && |avail0| == pr.r && InRange(order, pr.p)
    ensures |w| == pr.r
    decreases |order|
  {
    if order == [] then avail0
    else AddRow(WorkAfter(pr, avail0, order[..|order| - 1]), pr.alloc[order[|order| - 1]])
  }

  /** Each process of the order fits what the earlier ones have released. */
  predicate SafeSequence(pr: Problem, avail0: seq<int>, order: seq<nat>)
    requires Valid(pr) && |avail0| == pr.r && InRange(order, pr.p)
  {
    forall k :: 0 <= k < |order| ==> Fits(pr.need[order[k]], WorkAfter(pr, avail0, order[..k]))
  }

  /** finish and safeSeq[0..count) agree: the sequence lists exactly the finished
      processes, each once. */
  predicate Bookkept(pr: Problem, st: State)
    requires |st.finish| == pr.p
  {
    && InRange(st.order, pr.p)
    && Distinct(st.order)
    && (forall k :: 0 <= k < |st.order| ==> st.finish[st.order[k]])
    && (forall i :: 0 <= i < pr.p && st.finish[i] ==> i in st.order)
  }

  /** What the sweep's variables satisfy at every step. */
  predicate Reachable(pr: Problem, avail0: seq<int>, st: State) {
    && Valid(pr) && |avail0| == pr.r && Shaped(pr, st)
    && Bookkept(pr, st)
    && st.work == WorkAfter(pr, avail0, st.order)
    && SafeSequence(pr, avail0, st.order)
  }

  lemma InitialReachable(pr: Problem, avail0: seq<int>)
    requires Valid(pr) && |avail0| == pr.r
    ensures Reachable(pr, avail0, Initial(pr, avail0))
  {
    InitialShaped(pr, avail0);
  }

  lemma SelectBookkept(pr: Problem, st: State, i: nat)
    requires Valid(pr) && Shaped(pr, st) && Bookkept(pr, st) && i < pr.p && !st.finish[i]
    ensures Bookkept(pr, Select(pr, st, i))
  {
    var next := Select(pr, st, i);
    var o := next.order;
    forall a, b | 0 <= a < b < |o|
      ensures o[a] != o[b]
    {
      if b == |o| - 1 {
        assert st.finish[o[a]];
      }
    }
    forall j | 0 <= j < pr.p && next.finish[j]
      ensures j in o
    {
      if j != i {
        assert j in st.order;
      } else {
        assert o[|o| - 1] == j;
      }
    }
  }

  lemma SelectSafe(pr: Problem, avail0: seq<int>, st: State, i: nat)
    requires Valid(pr) && |avail0| == pr.r && Shaped(pr, st) && InRange(st.order, pr.p)
    requires st.work == WorkAfter(pr, avail0, st.order) && SafeSequence(pr, avail0, st.order)
    requires i < pr.p && !st.finish[i] && Fits(pr.need[i], st.work)
    ensures InRange(Select(pr, st, i).order, pr.p)
    ensures Select(pr, st, i).work == WorkAfter(pr, avail0, Select(pr, st, i).order)
    ensures SafeSequence(pr, avail0, Select(pr, st, i).order)
  {
    var o := st.order + [i];
    assert o[..|o| - 1] == st.order;
    forall k | 0 <= k < |o|
      ensures Fits(pr.need[o[k]], WorkAfter(pr, avail0, o[..k]))
    {
      if k < |st.order| {
        assert o[..k] == st.order[..k];
      } else {
        assert o[..k] == st.order;
      }
    }
  }

  /** Selecting a process whose need fits keeps every fact above. */
  lemma SelectReachable(pr: Problem, avail0: seq<int>, st: State, i: nat)
    requires Reachable(pr, avail0, st) && i < pr.p && !st.finish[i] && Fits(pr.need[i], st.work)
    ensures Reachable(pr, avail0, Select(pr, st, i))
  {
    SelectBookkept(pr, st, i);
    SelectSafe(pr, avail0, st, i);
  }

  /** A sweep keeps finish and the sequence in agreement. */
  lemma {:induction false} PassFromBookkept(pr: Problem, i: nat, st: State)
    requires Valid(pr) && Shaped(pr, st) && Bookkept(pr, st)
    ensures Bookkept(pr, PassFrom(pr, i, st))
    decreases pr.p - i
  {
    if i < pr.p {
      if !st.finish[i] && Fits(pr.need[i], st.work) {
        var next := Select(pr, st, i);
        SelectBookkept(pr, st, i);
        PassFromBookkept(pr, i + 1, next);
        assert PassFrom(pr, i, st) == PassFrom(pr, i + 1, next);
      } else {
        PassFromBookkept(pr, i + 1, st);
        assert PassFrom(pr, i, st) == PassFrom(pr, i + 1, st);
      }
    }
  }

  /** A sweep keeps the work vector equal to what the sequence has released, and the
      sequence safe. */
  lemma {:induction false} PassFromSafe(pr: Problem, avail0: seq<int>, i: nat, st: State)
    requires Valid(pr) && |avail0| == pr.r && Shaped(pr, st) && InRange(st.order, pr.p)
    requires st.work == WorkAfter(pr, avail0, st.order) && SafeSequence(pr, avail0, st.order)
    ensures InRange(PassFrom(pr, i, st).order, pr.p)
    ensures PassFrom(pr, i, st).work == WorkAfter(pr, avail0, PassFrom(pr, i, st).order)
    ensures SafeSequence(pr, avail0, PassFrom(pr, i, st).order)
    decreases pr.p - i
  {
    if i < pr.p {
      if !st.finish[i] && Fits(pr.need[i], st.work) {
        var next := Select(pr, st, i);
        SelectSafe(pr, avail0, st, i);
        PassFromSafe(pr, avail0, i + 1, next);
        assert PassFrom(pr, i, st) == PassFrom(pr, i + 1, next);
      } else {
        PassFromSafe(pr, avail0, i + 1, st);
        assert PassFrom(pr, i, st) == PassFrom(pr, i + 1, st);
      }
    }
  }

  /** A whole sweep keeps every fact of Reachable. */
  lemma PassFromReachable(pr: Problem, avail0: seq<int>, i: nat, st: State)
    requires Reachable(pr, avail0, st)
    ensures Reachable(pr, avail0, PassFrom(pr, i, st))
  {
    PassFromBookkept(pr, i, st);
    PassFromSafe(pr, avail0, i, st);
  }

  /** A sweep that selects nothing leaves everything as it was, and then every
      unfinished process from i on needs more than is available. */
  lemma {:induction false} PassFromNothing(pr: Problem, i: nat, st: State)
    requires Valid(pr) && Shaped(pr, st)
    requires |PassFrom(pr, i, st).order| == |st.order|
    ensures PassFrom(pr, i, st) == st
    ensures forall j :: i <= j < pr.p && !st.finish[j] ==> !Fits(pr.need[j], st.work)
    decreases pr.p - i
  {
    if i < pr.p {
      if !st.finish[i] && Fits(pr.need[i], st.work) {
        assert false;
      } else {
        PassFromNothing(pr, i + 1, st);
      }
    }
  }

  /** "Can be fulfilled": the sequence lists every process once, and each fits what
      the processes before it have released. */
  lemma {:induction false} RunFulfilled(pr: Problem, avail0: seq<int>, st: State)
    requires Reachable(pr, avail0, st)
    ensures Run(pr, st).Fulfilled? ==>
              && IsPermutation(Run(pr, st).safeSeq, pr.p)
              && SafeSequence(pr, avail0, Run(pr, st).safeSeq)
    decreases pr.p - |st.order|
  {
    if |st.order| >= pr.p {
      CountTrueAll(st.finish);
    } else {
      var next := PassFrom(pr, 0, st);
      if |next.order| != |st.order| {
        PassFromReachable(pr, avail0, 0, st);
        RunFulfilled(pr, avail0, next);
      }
    }
  }

  /** Where the outer loop stops. */
  function Stopped(pr: Problem, st: State): State
    requires Valid(pr) && Shaped(pr, st)
    decreases pr.p - |st.order|
  {
    if |st.order| >= pr.p then st
    else
      var next := PassFrom(pr, 0, st);
      if |next.order| == |st.order| then st else Stopped(pr, next)
  }

  /** "Cannot be fulfilled": the check stopped at a reachable point, with some process
      unfinished and every unfinished process needing more than is available. */
  lemma {:induction false} RunUnfulfilled(pr: Problem, avail0: seq<int>, st: State)
    requires Reachable(pr, avail0, st)
    ensures Run(pr, st).Unfulfilled? ==>
              var s := Stopped(pr, st);
              && Reachable(pr, avail0, s)
              && |s.order| < pr.p
              && (exists i :: 0 <= i < pr.p && !s.finish[i])
              && (forall i :: 0 <= i < pr.p && !s.finish[i] ==> !Fits(pr.need[i], s.work))
    decreases pr.p - |st.order|
  {
    if |st.order| < pr.p {
      var next := PassFrom(pr, 0, st);
      if |next.order| == |st.order| {
        PassFromNothing(pr, 0, st);
        if forall i :: 0 <= i < pr.p ==> st.finish[i] {
          CountTrueAll'(st.finish);
        }
      } else {
        PassFromReachable(pr, avail0, 0, st);
        RunUnfulfilled(pr, avail0, next);
      }
    }
  }

  /** All flags set means a count of |f|. */
  lemma {:induction false} CountTrueAll'(f: seq<bool>)
    requires forall i :: 0 <= i < |f| ==> f[i]
    ensures CountTrue(f) == |f|
    decreases |f|
  {
    if f != [] {
      CountTrueAll'(f[..|f| - 1]);
    }
  }

  /** The program's verdict, stated on its inputs. */
  lemma BankerVerdict(p: nat, r: nat, maxClaim: seq<seq<int>>, alloc: seq<seq<int>>, total: seq<int>)
    requires IsMatrix(maxClaim, p, r) && IsMatrix(alloc, p, r) && |total| == r
    ensures var pr := Problem(p, r, NeedMatrix(p, r, maxClaim, alloc), alloc);
            var avail0 := InitialAvail(p, r, alloc, total);
            var v := Banker(p, r, maxClaim, alloc, total);
            v.Fulfilled? ==> IsPermutation(v.safeSeq, p) && SafeSequence(pr, avail0, v.safeSeq)
  {
    var pr := Problem(p, r, NeedMatrix(p, r, maxClaim, alloc), alloc);
    var avail0 := InitialAvail(p, r, alloc, total);
    InitialReachable(pr, avail0);
    RunFulfilled(pr, avail0, Initial(pr, avail0));
  }

  // ---------------------------------------------------------------------------
  // Completeness: with no negative allocation, the sweep misses no safe sequence

  /** Σ alloc[x][j] over the processes x of the order. */
  function Released(pr: Problem, order: seq<nat>, j: nat): int
    requires Valid(pr) && InRange(order, pr.p) && j < pr.r
    decreases |order|
  {
    if order == [] then 0 else Released(pr, order[..|order| - 1], j) + pr.alloc[order[|order| - 1]][j]
  }

  lemma {:induction false} WorkAfterReleased(pr: Problem, avail0: seq<int>, order: seq<nat>, j: nat)
    requires Valid(pr) && |avail0| == pr.r && InRange(order, pr.p) && j < pr.r
    ensures WorkAfter(pr, avail0, order)[j] == avail0[j] + Released(pr, order, j)
    decreases |order|
  {
    if order != [] {
      WorkAfterReleased(pr, avail0, order[..|order| - 1], j);
    }
  }

  lemma {:induction false} ReleasedAppend(pr: Problem, a: seq<nat>, b: seq<nat>, j: nat)
    requires Valid(pr) && InRange(a, pr.p) && InRange(b, pr.p) && j < pr.r
    ensures InRange(a + b, pr.p)
    ensures Released(pr, a + b, j) == Released(pr, a, j) + Released(pr, b, j)
    decreases |b|
  {
    assert InRange(a + b, pr.p);
    if b != [] {
      var b' := b[..|b| - 1];
      assert (a + b)[..|a + b| - 1] == a + b';
      ReleasedAppend(pr, a, b', j);
    } else {
      assert a + b == a;
    }
  }

  /** Taking process b[t] out of b lowers the release by its allocation. */
  lemma ReleasedRemove(pr: Problem, b: seq<nat>, t: nat, j: nat)
    requires Valid(pr) && InRange(b, pr.p) && t < |b| && j < pr.r
    ensures InRange(b[..t] + b[t + 1..], pr.p)
    ensures Released(pr, b, j) == Released(pr, b[..t] + b[t + 1..], j) + pr.alloc[b[t]][j]
  {
    var x := b[t];
    assert b == b[..t] + [x] + b[t + 1..];
    ReleasedAppend(pr, b[..t] + [x], b[t + 1..], j);
    ReleasedAppend(pr, b[..t], [x], j);
    ReleasedAppend(pr, b[..t], b[t + 1..], j);
    assert Released(pr, [x], j) == pr.alloc[x][j] by {
      assert [x][..0] == [];
    }
  }

  /** The other elements of a distinct sequence a survive removing a's last element
      from b. */
  lemma RemoveKeepsOthers(a: seq<nat>, b: seq<nat>, t: nat, a': seq<nat>, b': seq<nat>)
    requires a != [] && Distinct(a) && (forall x :: x in a ==> x in b)
    requires t < |b| && b[t] == a[|a| - 1]
    requires a' == a[..|a| - 1] && b' == b[..t] + b[t + 1..]
    ensures forall y :: y in a' ==> y in b'
  {
    forall y | y in a'
      ensures y in b'
    {
      var m :| 0 <= m < |a| - 1 && a[m] == y;
      assert y != b[t];
      assert y in a;
      var u :| 0 <= u < |b| && b[u] == y;
      if u < t {
        assert b'[u] == y;
      } else {
        assert b'[u - 1] == y;
      }
    }
  }

  /** With no negative allocation, a set of distinct processes inside another
      releases no more than it. */
  lemma {:induction false} ReleasedSubset(pr: Problem, a: seq<nat>, b: seq<nat>, j: nat)
    requires Valid(pr) && InRange(a, pr.p) && InRange(b, pr.p) && j < pr.r
    requires forall i, k :: 0 <= i < pr.p && 0 <= k < pr.r ==> pr.alloc[i][k] >= 0
    requires Distinct(a) && forall x :: x in a ==> x in b
    ensures Released(pr, a, j) <= Released(pr, b, j)
    decreases |a|
  {
    if a != [] {
      var x := a[|a| - 1];
      assert x in a;
      var t :| 0 <= t < |b| && b[t] == x;
      var a', b' := a[..|a| - 1], b[..t] + b[t + 1..];
      ReleasedRemove(pr, b, t, j);
      RemoveKeepsOthers(a, b, t, a', b');
      assert Distinct(a');
      ReleasedSubset(pr, a', b', j);
      assert Released(pr, a, j) == Released(pr, a', j) + pr.alloc[x][j];
    } else {
      ReleasedNonNegative(pr, b, j);
    }
  }

  lemma {:induction false} ReleasedNonNegative(pr: Problem, b: seq<nat>, j: nat)
    requires Valid(pr) && InRange(b, pr.p) && j < pr.r
    requires forall i, k :: 0 <= i < pr.p && 0 <= k < pr.r ==> pr.alloc[i][k] >= 0
    ensures Released(pr, b, j) >= 0
    decreases |b|
  {
    if b != [] {
      ReleasedNonNegative(pr, b[..|b| - 1], j);
    }
  }

  /** Processes that have all finished in a reachable state release no more than the
      state's own sequence has. */
  lemma WorkDominated(pr: Problem, avail0: seq<int>, st: State, pre: seq<nat>)
    requires Valid(pr) && |avail0| == pr.r && InRange(st.order, pr.p)
    requires st.work == WorkAfter(pr, avail0, st.order)
    requires forall i, j :: 0 <= i < pr.p && 0 <= j < pr.r ==> pr.alloc[i][j] >= 0
    requires InRange(pre, pr.p) && Distinct(pre) && forall y :: y in pre ==> y in st.order
    ensures forall j :: 0 <= j < pr.r ==> WorkAfter(pr, avail0, pre)[j] <= st.work[j]
  {
    forall j | 0 <= j < pr.r
      ensures WorkAfter(pr, avail0, pre)[j] <= st.work[j]
    {
      WorkAfterReleased(pr, avail0, pre, j);
      WorkAfterReleased(pr, avail0, st.order, j);
      ReleasedSubset(pr, pre, st.order, j);
    }
  }

  /** Against a stuck, reachable state, the first k processes of any safe sequence
      have all finished already. */
  lemma {:induction false} SafePrefixFinished(pr: Problem, avail0: seq<int>, st: State, s: seq<nat>, k: nat)
    requires Reachable(pr, avail0, st)
    requires forall i, j :: 0 <= i < pr.p && 0 <= j < pr.r ==> pr.alloc[i][j] >= 0
    requires forall i :: 0 <= i < pr.p && !st.finish[i] ==> !Fits(pr.need[i], st.work)
    requires InRange(s, pr.p) && Distinct(s) && SafeSequence(pr, avail0, s) && k <= |s|
    ensures forall m :: 0 <= m < k ==> st.finish[s[m]]
    decreases k
  {
    if k > 0 {
      SafePrefixFinished(pr, avail0, st, s, k - 1);
      var pre := s[..k - 1];
      var x := s[k - 1];
      forall y | y in pre
        ensures y in st.order
      {
        var m :| 0 <= m < |pre| && pre[m] == y;
        assert st.finish[s[m]];
      }
      WorkDominated(pr, avail0, st, pre);
      assert Fits(pr.need[x], WorkAfter(pr, avail0, pre));
      assert Fits(pr.need[x], st.work);
    }
  }

  /** "Cannot be fulfilled", for allocations that are never negative: no ordering of
      all the processes is safe. */
  lemma UnfulfilledMeansUnsafe(pr: Problem, avail0: seq<int>, st0: State, s: seq<nat>)
    requires Reachable(pr, avail0, st0) && Run(pr, st0).Unfulfilled?
    requires forall i, j :: 0 <= i < pr.p && 0 <= j < pr.r ==> pr.alloc[i][j] >= 0
    requires IsPermutation(s, pr.p)
    ensures !SafeSequence(pr, avail0, s)
  {
    RunUnfulfilled(pr, avail0, st0);
    var st := Stopped(pr, st0);
    var u :| 0 <= u < pr.p && !st.finish[u];
    assert u in s;
    var m :| 0 <= m < |s| && s[m] == u;
    if SafeSequence(pr, avail0, s) {
      SafePrefixFinished(pr, avail0, st, s, |s|);
      assert false;
    }
  }

  /** For allocations that are never negative, the verdict is exact: "can be fulfilled"
      exactly when some ordering of all the processes is safe. */
  lemma BankerDecides(p: nat, r: nat, maxClaim: seq<seq<int>>, alloc: seq<seq<int>>, total: seq<int>)
    requires IsMatrix(maxClaim, p, r) && IsMatrix(alloc, p, r) && |total| == r
    requires forall i, j :: 0 <= i < p && 0 <= j < r ==> alloc[i][j] >= 0
    ensures var pr := Problem(p, r, NeedMatrix(p, r, maxClaim, alloc), alloc);
            var avail0 := InitialAvail(p, r, alloc, total);
            (Banker(p, r, maxClaim, alloc, total).Fulfilled?
             <==> exists s :: IsPermutation(s, p) && SafeSequence(pr, avail0, s))
  {
    var pr := Problem(p, r, NeedMatrix(p, r, maxClaim, alloc), alloc);
    var avail0 := InitialAvail(p, r, alloc, total);
    var st0 := Initial(pr, avail0);
    InitialReachable(pr, avail0);
    var v := Banker(p, r, maxClaim, alloc, total);
    if v.Fulfilled? {
      BankerVerdict(p, r, maxClaim, alloc, total);
      assert IsPermutation(v.safeSeq, p) && SafeSequence(pr, avail0, v.safeSeq);
    } else {
      forall s | IsPermutation(s, p)
        ensures !SafeSequence(pr, avail0, s)
      {
        UnfulfilledMeansUnsafe(pr, avail0, st0, s);
      }
    }
  }

  // ---------------------------------------------------------------------------
  // The program, over arrays

  /** The setup loop for avail: for each resource, sum the allocations of that
      column and subtract the sum from the total. */
  method ComputeAvail(p: nat, r: nat, alloc: seq<seq<int>>, total: seq<int>) returns (avail: array<int>)
    requires IsMatrix(alloc, p, r) && |total| == r
    ensures fresh(avail)
    ensures avail[..] == InitialAvail(p, r, alloc, total)
  {
    avail := new int[r];
    for j := 0 to r
      invariant forall k :: 0 <= k < j ==> avail[k] == total[k] - ColumnSum(alloc, k, p)
    {
      var sum := 0;
      for i := 0 to p
        invariant sum == ColumnSum(alloc, j, i)
      {
        sum := sum + alloc[i][j];
      }
      avail[j] := total[j] - sum;
    }
  }

  /** The setup loop for need. */
  method ComputeNeed(p: nat, r: nat, maxClaim: seq<seq<int>>, alloc: seq<seq<int>>) returns (need: array2<int>)
    requires IsMatrix(maxClaim, p, r) && IsMatrix(alloc, p, r)
    ensures fresh(need) && need.Length0 == p && need.Length1 == r
    ensures forall i, j :: 0 <= i < p && 0 <= j < r ==> need[i, j] == maxClaim[i][j] - alloc[i][j]
  {
    need := new int[p, r];
    for i := 0 to p
      invariant forall a, b :: 0 <= a < i && 0 <= b < r ==> need[a, b] == maxClaim[a][b] - alloc[a][b]
    {
      for j := 0 to r
        invariant forall a, b :: 0 <= a < i && 0 <= b < r ==> need[a, b] == maxClaim[a][b] - alloc[a][b]
        invariant forall b :: 0 <= b < j ==> need[i, b] == maxClaim[i][b] - alloc[i][b]
      {
        need[i, j] := maxClaim[i][j] - alloc[i][j];
      }
    }
  }

  /** The inner test of the sweep: scan the resources, stopping at the first one the
      process needs more of than is available. */
  method FitsNow(need: array2<int>, i: nat, avail: array<int>) returns (fits: bool)
    requires i < need.Length0 && need.Length1 == avail.Length
    ensures fits <==> forall j :: 0 <= j < avail.Length ==> need[i, j] <= avail[j]
  {
    var j := 0;
    while j < need.Length1
      invariant 0 <= j <= need.Length1
      invariant forall k :: 0 <= k < j ==> need[i, k] <= avail[k]
    {
      if need[i, j] > avail[j] {
        break;
      }
      j := j + 1;
    }
    fits := j == need.Length1;
  }

  /** A process that runs to completion releases its allocation into avail. */
  method Release(avail: array<int>, row: seq<int>)
    requires |row| == avail.Length
    modifies avail
    ensures avail[..] == AddRow(old(avail[..]), row)
  {
    for k := 0 to avail.Length
      invariant forall m :: 0 <= m < k ==> avail[m] == old(avail[m]) + row[m]
      invariant forall m :: k <= m < avail.Length ==> avail[m] == old(avail[m])
    {
      avail[k] := avail[k] + row[k];
    }
  }

  /** One sweep over the processes in index order. Returns the new count and whether
      any process was selected. */
  method Sweep(ghost pr: Problem, need: array2<int>, alloc: seq<seq<int>>,
               avail: array<int>, finish: array<bool>, safeSeq: array<nat>, count0: nat)
    returns (count: nat, found: bool)
    requires Valid(pr) && alloc == pr.alloc
    requires need.Length0 == pr.p && need.Length1 == pr.r
    requires forall i, j :: 0 <= i < pr.p && 0 <= j < pr.r ==> need[i, j] == pr.need[i][j]
    requires avail.Length == pr.r && finish.Length == pr.p && safeSeq.Length == pr.p && count0 <= pr.p
    requires Shaped(pr, State(avail[..], finish[..], safeSeq[..count0]))
    modifies avail, finish, safeSeq
    ensures count0 <= count <= pr.p
    ensures State(avail[..], finish[..], safeSeq[..count])
            == PassFrom(pr, 0, old(State(avail[..], finish[..], safeSeq[..count0])))
    ensures found <==> count != count0
  {
    ghost var st0 := State(avail[..], finish[..], safeSeq[..count0]);
    count := count0;
    found := false;
    for i := 0 to finish.Length
      invariant count0 <= count <= pr.p
      invariant Shaped(pr, State(avail[..], finish[..], safeSeq[..count]))
      invariant PassFrom(pr, i, State(avail[..], finish[..], safeSeq[..count])) == PassFrom(pr, 0, st0)
      invariant found <==> count != count0
    {
      if !finish[i] {
        var fits := FitsNow(need, i, avail);
        assert fits == Fits(pr.need[i], avail[..]);
        if fits {
          count := Admit(pr, alloc, avail, finish, safeSeq, count, i);
          found := true;
        }
      }
    }
  }

  /** Process i is selected: avail receives its allocation, it is appended to safeSeq
      and marked finished. */
  method Admit(ghost pr: Problem, alloc: seq<seq<int>>, avail: array<int>, finish: array<bool>, safeSeq: array<nat>,
               count0: nat, i: nat)
    returns (count: nat)
    requires Valid(pr) && alloc == pr.alloc
    requires avail.Length == pr.r && finish.Length == pr.p && safeSeq.Length == pr.p && count0 <= pr.p
    requires Shaped(pr, State(avail[..], finish[..], safeSeq[..count0]))
    requires i < pr.p && !finish[i]
    modifies avail, finish, safeSeq
    ensures count <= pr.p
    ensures State(avail[..], finish[..], safeSeq[..count])
            == Select(pr, old(State(avail[..], finish[..], safeSeq[..count0])), i)
  {
    ghost var cur := State(avail[..], finish[..], safeSeq[..count0]);
    CountTrueSet(finish[..], i);
    Release(avail, alloc[i]);
    safeSeq[count0] := i;
    count := count0 + 1;
    finish[i] := true;
    assert safeSeq[..count] == cur.order + [i];
    assert finish[..] == cur.finish[i := true];
  }

  /** file.c's main after the input is read: setup, then sweeps while fewer than p
      processes have finished, stopping at a sweep that selects nothing. */
  method SafetyCheck(p: nat, r: nat, maxClaim: seq<seq<int>>, alloc: seq<seq<int>>, total: seq<int>)
    returns (v: Verdict)
    requires IsMatrix(maxClaim, p, r) && IsMatrix(alloc, p, r) && |total| == r
    ensures v == Banker(p, r, maxClaim, alloc, total)
  {
    var avail := ComputeAvail(p, r, alloc, total);
    var need := ComputeNeed(p, r, maxClaim, alloc);
    var finish := new bool[p];
    for i := 0 to p
      invariant forall k :: 0 <= k < i ==> !finish[k]
      invariant avail[..] == InitialAvail(p, r, alloc, total)
      invariant forall a, b :: 0 <= a < p && 0 <= b < r ==> need[a, b] == maxClaim[a][b] - alloc[a][b]
    {
      finish[i] := false;
    }
    var safeSeq := new nat[p];
    var count := 0;

    ghost var pr := Problem(p, r, NeedMatrix(p, r, maxClaim, alloc), alloc);
    ghost var avail0 := InitialAvail(p, r, alloc, total);
    InitialShaped(pr, avail0);
    assert finish[..] == NoneFinished(p);
    assert State(avail[..], finish[..], safeSeq[..count]) == Initial(pr, avail0);
    assert forall i, j :: 0 <= i < p && 0 <= j < r ==> pr.need[i][j] == maxClaim[i][j] - alloc[i][j];

    while count < p
      invariant count <= p
      invariant forall i, j :: 0 <= i < p && 0 <= j < r ==> need[i, j] == pr.need[i][j]
      invariant Shaped(pr, State(avail[..], finish[..], safeSeq[..count]))
      invariant Run(pr, State(avail[..], finish[..], safeSeq[..count])) == Banker(p, r, maxClaim, alloc, total)
      decreases p - count
    {
      var found;
      count, found := Sweep(pr, need, alloc, avail, finish, safeSeq, count);
      if !found {
        return Unfulfilled;
      }
    }
    v := Fulfilled(safeSeq[..count]);
  }
}
