/** Failure marking of one parent (proxy/ParentSelectionStrategy.cc). */
module ParentMarking {

  const TWO_31 := 0x8000_0000
  const TWO_32 := 0x1_0000_0000

  newtype uint32 = x: int | 0 <= x < TWO_32

  /** static_cast<int> of an unsigned int. */
  function Int32(x: uint32): (r: int)
    ensures -TWO_31 <= r < TWO_31 && (r - x as int) % TWO_32 == 0
  {
    if x as int < TWO_31 then x as int else x as int - TWO_32
  }

  /** The failures within a window that make a parent unusable: one at least. */
  function Least(failThreshold: uint32): (least: nat)
    ensures least >= 1 && least >= Int32(failThreshold) && (least == 1 || least == Int32(failThreshold))
  {
    if Int32(failThreshold) > 1 then Int32(failThreshold) else 1
  }

  /** A failure that was reported, with the length of the retry window at the time, or a recovery. */
  datatype Mark = Failure(time: int, retryTime: uint32) | Recovery

  /** The mark that opened the current window, or -1 if there is none.  A failure opens one exactly if there
      is none, or it comes after the retry time of the one there is; a recovery ends it. */
  function Opener(marks: seq<Mark>): (k: int)
    ensures -1 <= k < |marks| && (k >= 0 ==> marks[k].Failure?)
  {
    if marks == [] || marks[|marks| - 1] == Recovery then
      -1
    else
      var last := |marks| - 1;
      var k := Opener(marks[..last]);
      if k < 0 || marks[k].time + marks[last].retryTime as int < marks[last].time then last else k
  }

  /** The failures counted: those since the current window opened. */
  function Counted(marks: seq<Mark>): nat {
    if Opener(marks) < 0 then 0 else |marks| - Opener(marks)
  }

  /** The last recovery, or -1 if there is none. */
  function LastRecovery(marks: seq<Mark>): (r: int)
    ensures -1 <= r < |marks| && (r >= 0 ==> marks[r] == Recovery)
    ensures forall j :: r < j < |marks| ==> marks[j].Failure?
  {
    if marks == [] then -1
    else if marks[|marks| - 1] == Recovery then |marks| - 1
    else LastRecovery(marks[..|marks| - 1])
  }

  /** The failures counted after the first n marks of a run. */
  function CountAfter(before: seq<Mark>, run: seq<Mark>, n: nat): nat
    requires n <= |run|
  {
    Counted(before + run[..n])
  }

  /** A run of marks leaves a parent available that was, or has recovered, if since its last recovery no count
      has met the threshold. */
  ghost predicate StaysAvailable(before: seq<Mark>, run: seq<Mark>, available: bool, failThreshold: uint32) {
    && (LastRecovery(run) >= 0 || available)
    && forall n :: LastRecovery(run) + 1 < n <= |run| ==> CountAfter(before, run, n) < Int32(failThreshold)
  }

  lemma StaysAvailableNext(before: seq<Mark>, run: seq<Mark>, n: nat, available: bool, failThreshold: uint32)
    requires n < |run|
    ensures StaysAvailable(before, run[..n + 1], available, failThreshold) <==>
      run[n] == Recovery
      || (StaysAvailable(before, run[..n], available, failThreshold) && Counted(before + run[..n] + [run[n]]) < Int32(failThreshold))
  {
    var now, next := run[..n], run[..n + 1];
    assert next[..n] == now;
    forall k | 0 <= k <= n
      ensures CountAfter(before, next, k) == CountAfter(before, now, k)
    {
      assert next[..k] == now[..k];
    }
    assert before + next[..n + 1] == before + now + [run[n]];
    assert CountAfter(before, next, n + 1) == Counted(before + now + [run[n]]);
  }

  lemma StaysAvailableAtFirst(before: seq<Mark>, run: seq<Mark>, available: bool, failThreshold: uint32)
    ensures StaysAvailable(before, run[..0], available, failThreshold) <==> available
  {
  }

  /** From its opener on, the current window holds failures only, each reported while it was open. */
  lemma {:induction false} WindowHolds(marks: seq<Mark>, j: nat)
    requires Opener(marks) >= 0 && Opener(marks) < j < |marks|
    ensures marks[j].Failure? && marks[j].time <= marks[Opener(marks)].time + marks[j].retryTime as int
  {
    var last := |marks| - 1;
    if j < last {
      WindowHolds(marks[..last], j);
    }
  }

  /** A failure opens a window exactly if none is open when it comes. */
  lemma OpensIff(marks: seq<Mark>, time: int, retryTime: uint32)
    ensures Opener(marks + [Failure(time, retryTime)]) == |marks| <==>
      Opener(marks) < 0 || marks[Opener(marks)].time + retryTime as int < time
  {
    assert (marks + [Failure(time, retryTime)])[..|marks|] == marks;
  }

  /** pRecord. */
  class Parent {
    const hostname: string
    const port: int
    var failedAt: int
    var failCount: int
    var available: bool
    ghost var marks: seq<Mark>  // all failures, but those of retries, and recoveries

    constructor (hostname: string, port: int)
      ensures this.hostname == hostname && this.port == port
      ensures InStep() && Window() && failedAt == 0 && failCount == 0 && available && marks == []
    {
      this.hostname, this.port := hostname, port;
      failedAt, failCount, available := 0, 0, true;
      marks := [];
    }

    /** The time and the count are zero together. */
    predicate InStep()
      reads this
    {
      failedAt == 0 <==> failCount == 0
    }

    /** The count is the number of failures since the current window opened, and failedAt is when. */
    ghost predicate Window()
      reads this
    {
      var k := Opener(marks);
      if k < 0 then failedAt == 0 && failCount == 0
      else failedAt == marks[k].time && failCount == |marks| - k
    }

    /** How many more failures within its window the parent takes before it has failed too often. */
    ghost function Remaining(failThreshold: uint32): nat
      reads this`failedAt, this`failCount
    {
      var least := Least(failThreshold);
      if failedAt == 0 then least else if failCount < least then least - failCount else 0
    }

    /** markParentDown.  Without a retry result the time and the count stay in step; a failed
        retry of a parent with no failure is the one case that sets them apart. */
    method MarkDown(retry: bool, now: int, failThreshold: uint32, retryTime: uint32)
      requires failCount >= 0 && now > 0
      modifies this
      ensures failCount >= 0 && failedAt != 0
      ensures old(InStep() && Window()) && !retry ==> InStep() && Window()
      ensures old(InStep()) ==> (InStep() <==> !(retry && old(failedAt) == 0))
      ensures retry ==> failedAt == now && failCount == old(failCount) && available == old(available) && marks == old(marks)
      ensures !retry ==> marks == old(marks) + [Failure(now, retryTime)]
      // the window stays open, or a new one is opened by this report
      ensures !retry && old(failedAt) != 0 && now <= old(failedAt) + retryTime as int ==>
        failedAt == old(failedAt) && failCount == old(failCount) + 1
      ensures !retry && (old(failedAt) == 0 || now > old(failedAt) + retryTime as int) ==>
        failedAt == now && failCount == 1
      // the parent becomes unavailable exactly when the count meets the threshold
      ensures !retry ==> available == (old(available) && failCount < Int32(failThreshold))
    {
      var newFailCount := 0;
      if failedAt == 0 || retry {
        failedAt := now;
        if !retry {
          failCount, newFailCount := 1, 1;
        }
      } else {
        var oldCount := 0;
        if failedAt + retryTime as int < now {
          failCount := 1;
          failedAt := now;
        } else {
          oldCount := failCount;
          failCount := failCount + 1;
        }
        newFailCount := oldCount + 1;
      }
      if !retry {
        marks := marks + [Failure(now, retryTime)];
        assert marks[..|marks| - 1] == old(marks);
      }
      if newFailCount > 0 && newFailCount >= Int32(failThreshold) {
        available := false;
      }
    }

    /** A failure of a parent that has not failed too often, all its failures being within the retry time. */
    method MarkWithin(now: int, end: int, failThreshold: uint32, retryTime: uint32)
      requires failCount >= 0 && (failedAt == 0 || end <= failedAt + retryTime as int)
      requires failedAt == 0 || failCount < Int32(failThreshold)
      requires 0 < now <= end <= now + retryTime as int
      modifies this
      ensures failCount >= 0 && failedAt != 0 && end <= failedAt + retryTime as int
      ensures Remaining(failThreshold) == old(Remaining(failThreshold)) - 1
    {
      MarkDown(false, now, failThreshold, retryTime);
    }

    /** markParentUp. */
    method MarkUp()
      modifies this
      ensures Window() && InStep() && failCount == 0 && available && marks == old(marks) + [Recovery]
    {
      available, failedAt, failCount := true, 0, 0;
      marks := marks + [Recovery];
    }

    /** Any run of failures and recoveries without retry results keeps the count equal to the number of
        failures since the current window opened. */
    method Marked(run: seq<Mark>, failThreshold: uint32)
      requires InStep() && Window() && forall m :: m in run && m.Failure? ==> m.time > 0
      modifies this
      ensures InStep() && Window() && marks == old(marks) + run
      ensures available <==> StaysAvailable(old(marks), run, old(available), failThreshold)
    {
      hide StaysAvailable;
      StaysAvailableAtFirst(marks, run, available, failThreshold);
      for n := 0 to |run|
        invariant InStep() && Window() && marks == old(marks) + run[..n]
        invariant available <==> StaysAvailable(old(marks), run[..n], old(available), failThreshold)
      {
        StaysAvailableNext(old(marks), run, n, old(available), failThreshold);
        Take(run[n], failThreshold);
        assert run[n] in run && old(marks) + run[..n] + [run[n]] == old(marks) + run[..n + 1];
      }
      assert run[..|run|] == run;
    }

    /** One mark of a run. */
    method Take(mark: Mark, failThreshold: uint32)
      requires InStep() && Window() && (mark.Failure? ==> mark.time > 0)
      modifies this
      ensures InStep() && Window() && marks == old(marks) + [mark]
      ensures available <==> mark == Recovery || (old(available) && Counted(marks) < Int32(failThreshold))
    {
      match mark {
        case Failure(time, retryTime) => MarkDown(false, time, failThreshold, retryTime);
        case Recovery => MarkUp();
      }
    }

    /** A retry that fails of a parent that has no failure recorded any more. */
    method RetrySetsApart(now: int, failThreshold: uint32, retryTime: uint32)
      requires InStep() && failCount == 0 && now > 0
      modifies this
      ensures failedAt == now && failCount == 0 && !InStep()
    {
      MarkDown(true, now, failThreshold, retryTime);
    }

    /** Failures that all fall into one window: the parent is unavailable from the failure on that
        brings their number to the threshold. */
    method Burst(times: seq<int>, failThreshold: uint32, retryTime: uint32)
      requires InStep() && failCount == 0 && times != []
      requires forall t :: t in times ==> 0 < t <= times[0] + retryTime as int
      modifies this
      ensures failedAt == times[0] && failCount == |times|
      ensures available == (old(available) && |times| < Int32(failThreshold))
    {
      for n := 0 to |times|
        invariant failCount == n
        invariant failedAt == if n == 0 then 0 else times[0]
        invariant available == (old(available) && (n == 0 || n < Int32(failThreshold)))
      {
        assert times[n] in times && times[0] in times;
        MarkDown(false, times[n], failThreshold, retryTime);
      }
    }
  }
}

/** Parent selection: the round-robin strategies of proxy/ParentRoundRobin.cc, and findParent and
    nextParent of proxy/ParentSelection.cc. */
module ParentSelecting {
  import opened ParentMarking
  import opened Options

  datatype HostStatus = Init | Down | Up

  datatype Mode = NoRoundRobin | StrictRoundRobin | HashRoundRobin | LatchedRoundRobin

  datatype Outcome = Undefined | Direct | Specified | Fail

  /** The next index in cyclic order. */
  function Succ(i: nat, n: nat): (r: nat)
    requires i < n
    ensures r < n
  {
    if i + 1 == n then 0 else i + 1
  }

  lemma SuccIsRemainder(i: nat, n: nat)
    requires i < n
    ensures (i + 1) % n == Succ(i, n)
  {
    if i + 1 == n {
      assert n % n == 0;
    } else {
      RemainderOfLess(i + 1, n);
    }
  }

  lemma RemainderOfLess(k: nat, n: nat)
    requires k < n
    ensures k % n == k
  {
  }

  /** The index k places after `from`. */
  function At(from: nat, k: nat, n: nat): (r: nat)
    requires from < n && k <= n
    ensures r < n
  {
    if from + k < n then from + k else from + k - n
  }

  /** How many places `to` comes after `from`. */
  function Distance(from: nat, to: nat, n: nat): (d: nat)
    requires from < n && to < n
    ensures d < n && At(from, d, n) == to && (d == 0 <==> from == to)
  {
    if from <= to then to - from else to - from + n
  }

  /** How many parents lie between `from` and the next arrival at `start`. */
  function Laps(from: nat, start: nat, n: nat): (laps: nat)
    requires from < n && start < n
    ensures 1 <= laps <= n
  {
    if from == start then n else Distance(from, start, n)
  }

  /** Walking on from the place k after `from`. */
  lemma Around(from: nat, k: nat, start: nat, n: nat)
    requires from < n && start < n && k < Laps(from, start, n)
    ensures Distance(from, At(from, k, n), n) == k
    ensures (At(from, k, n) + 1) % n == At(from, k + 1, n)
    ensures At(from, k + 1, n) == start <==> k + 1 == Laps(from, start, n)
  {
    SuccIsRemainder(At(from, k, n), n);
  }

  /** Wherever a search begins, the last parent it comes to is the one before the start. */
  lemma LastScanned(from: nat, start: nat, n: nat)
    requires from < n && start < n
    ensures At(from, Laps(from, start, n) - 1, n) == At(start, n - 1, n)
    ensures Distance(start, At(start, n - 1, n), n) == n - 1
  {
  }

  /** C's remainder, which has the sign of the dividend. */
  function Remainder(a: int, n: nat): int
    requires n > 0
  {
    if a >= 0 then a % n else -((-a) % n)
  }

  /** The index that strict round robin starts from, the counter being cast to a signed 32-bit
      integer, is an index exactly while the counter is below 2^31 or its signed value is
      divisible by the number of parents. */
  lemma StrictIndexInRange(counter: uint32, n: nat)
    requires n > 0
    ensures 0 <= Remainder(Int32(counter), n) < n <==> counter as int < TWO_31 || (TWO_32 - counter as int) % n == 0
  {
  }

  /** With three parents, and the counter at 2^31, strict round robin starts at index -2. */
  lemma StrictIndexNegative()
    ensures Remainder(Int32(0x8000_0000), 3) == -2
  {
  }

  /** Below 2^31 strict round robin begins with the first parent and moves on by one at each call. */
  lemma StrictIndexMovesOn(counter: uint32, n: nat)
    requires n > 0 && counter as int + 1 < TWO_31
    ensures Remainder(Int32(0), n) == 0
    ensures var index := Remainder(Int32(counter), n);
      0 <= index < n && Remainder(Int32(counter + 1), n) == Succ(index, n)
  {
    assert 0 % n == 0;
    var a, index := counter as int, counter as int % n;
    if index + 1 == n {
      assert (a / n + 1) * n == a / n * n + n;
      RemainderIs(a + 1, a / n + 1, 0, n);
    } else {
      RemainderIs(a + 1, a / n, index + 1, n);
    }
  }

  lemma RemainderIs(a: nat, q: nat, r: nat, n: nat)
    requires r < n && a == q * n + r
    ensures a % n == r
  {
    var d := a / n - q;
    assert d * n == r - a % n;
    Multiples(d, n);
  }

  lemma Multiples(d: int, n: nat)
    ensures d >= 1 ==> d * n >= n
    ensures d <= -1 ==> d * n + n <= 0
  {
  }

  /** The request: what selectParent reads of it. */
  datatype Request = Request(clientHash: Option<nat>, xactStart: int, apiParent: Option<(string, int)>)

  /** The limits a caller passes. */
  datatype Limits = Limits(failThreshold: uint32, retryTime: uint32)

  /** A line of parent.config with its strategy.  `parents` is empty for a line that always goes
      direct. */
  class ParentRecord {
    const parents: seq<Parent>
    const mode: Mode
    const goDirect: bool
    const parentIsProxy: bool
    var rrNext: uint32
    var latchedParent: nat

    constructor (parents: seq<Parent>, mode: Mode, goDirect: bool, parentIsProxy: bool)
      requires |parents| > 0 || goDirect
      ensures this.parents == parents && this.mode == mode && this.goDirect == goDirect && this.parentIsProxy == parentIsProxy
      ensures Valid() && rrNext == 0 && latchedParent == 0
    {
      this.parents, this.mode, this.goDirect, this.parentIsProxy := parents, mode, goDirect, parentIsProxy;
      rrNext, latchedParent := 0, 0;
    }

    predicate Valid()
      reads this
    {
      (|parents| > 0 || goDirect) && (|parents| > 0 ==> latchedParent < |parents|)
    }

    /** Where no parent can be used. */
    function Otherwise(): (outcome: Outcome)
      ensures outcome == Direct <==> goDirect && parentIsProxy
      ensures outcome == Fail <==> !goDirect || !parentIsProxy
    {
      if goDirect && parentIsProxy then Direct else Fail
    }

    /** The index a first call starts from. */
    function FirstIndex(request: Request): int
      requires |parents| > 0
      reads this`rrNext, this`latchedParent
    {
      match mode
      case NoRoundRobin => 0
      case StrictRoundRobin => Remainder(Int32(rrNext), |parents|)
      case HashRoundRobin => if request.clientHash.Some? then request.clientHash.value % |parents| else 0
      case LatchedRoundRobin => latchedParent
    }

    /** A parent that failed too often to be used before its retry time. */
    predicate Failed(i: nat, limits: Limits)
      requires i < |parents|
      reads parents
    {
      parents[i].failedAt != 0 && parents[i].failCount >= Int32(limits.failThreshold)
    }

    /** A parent that may be chosen: its host is up, and it has not failed too often or its retry
        time is over. */
    predicate Eligible(i: nat, status: seq<HostStatus>, xactStart: int, limits: Limits)
      requires i < |parents| == |status|
      reads parents
    {
      status[i] == Up && (Failed(i, limits) ==> parents[i].failedAt + limits.retryTime as int < xactStart)
    }

    /** The line may not go direct, and the parent before the start may be chosen. */
    ghost predicate GoesRound(start: nat, status: seq<HostStatus>, xactStart: int, limits: Limits)
      requires start < |parents| == |status|
      reads parents
    {
      !goDirect && Eligible(At(start, |parents| - 1, |parents|), status, xactStart, limits)
    }

    ghost predicate Distinct() {
      forall i, j :: 0 <= i < j < |parents| ==> parents[i] != parents[j]
    }

    /** Every failure recorded is within its retry time until `end`. */
    ghost predicate OneWindow(limits: Limits, end: int)
      reads parents
    {
      forall i :: 0 <= i < |parents| ==>
        parents[i].failCount >= 0 && (parents[i].failedAt == 0 || end <= parents[i].failedAt + limits.retryTime as int)
    }

    /** How many more failures the first k parents take. */
    ghost function Left(k: nat, limits: Limits): nat
      requires k <= |parents|
      reads parents
    {
      if k == 0 then 0 else Left(k - 1, limits) + parents[k - 1].Remaining(limits.failThreshold)
    }

    lemma {:induction false} LeftBound(k: nat, limits: Limits)
      requires k <= |parents| && forall j :: 0 <= j < |parents| ==> parents[j].failCount >= 0
      ensures Left(k, limits) <= k * Least(limits.failThreshold)
    {
      if k > 0 {
        LeftBound(k - 1, limits);
        assert (k - 1) * Least(limits.failThreshold) + Least(limits.failThreshold) == k * Least(limits.failThreshold);
      }
    }

    twostate lemma {:induction false} LeftDrops(k: nat, new i: nat, new limits: Limits)
      requires k <= |parents| && i < |parents|
      requires parents[i].Remaining(limits.failThreshold) == old(parents[i].Remaining(limits.failThreshold)) - 1
      requires forall j :: 0 <= j < |parents| && j != i ==>
        parents[j].Remaining(limits.failThreshold) == old(parents[j].Remaining(limits.failThreshold))
      ensures Left(k, limits) == old(Left(k, limits)) - if i < k then 1 else 0
    {
      if k > 0 {
        LeftDrops(k - 1, i, limits);
      }
    }

    /** A parent that has not failed too often is marked down: one failure less is left to take. */
    method MarkFailed(i: nat, limits: Limits, now: int, end: int)
      requires i < |parents| && Distinct() && !Failed(i, limits)
      requires 0 < now <= end <= now + limits.retryTime as int && OneWindow(limits, end)
      modifies parents[i]
      ensures OneWindow(limits, end)
      ensures Left(|parents|, limits) == old(Left(|parents|, limits)) - 1
    {
      parents[i].MarkWithin(now, end, limits.failThreshold, limits.retryTime);
      LeftDrops(|parents|, i, limits);
    }

    /** What follows a failure of the parent last chosen.  Where the line may go direct, the search is over
        when it is back at the start; otherwise it goes round again. */
    twostate predicate Advances(result: ParentResult, new status: seq<HostStatus>, new xactStart: int, new limits: Limits)
      requires old(result.lastParent) < |parents| == |status| && result.startParent < |parents|
      reads this, parents, result
    {
      var n := |status|;
      var from := Succ(old(result.lastParent), n);
      if from == result.startParent && goDirect then
        result.outcome == Otherwise() && result.hostname == None && result.port == 0
      else if result.outcome == Specified then
        && result.line == Line(this) && result.Chosen()
        && FirstEligible(from, result.lastParent, status, xactStart, limits)
        && result.retry == Failed(result.lastParent, limits)
        && latchedParent == result.lastParent
        && (from != result.startParent ==>
              Distance(result.startParent, result.lastParent, n) > Distance(result.startParent, old(result.lastParent), n))
      else
        && result.outcome == Otherwise() && result.hostname == None && result.port == 0
        && NoneEligible(from, Laps(from, result.startParent, n), status, xactStart, limits)
    }

    /** What other transactions may do to the line between two calls. */
    method Disturbed()
      requires Valid()
      modifies this, parents
      ensures Valid()
    {
      rrNext := *;
      if parents != [] {
        var other: nat := *;
        latchedParent := other % |parents|;
      }
      for i := 0 to |parents|
        invariant Valid()
      {
        parents[i].failedAt, parents[i].failCount, parents[i].available := *, *, *;
      }
    }

    /** What the search thinks of one parent, from what it thought of the one before. */
    method Examine(i: nat, status: seq<HostStatus>, xactStart: int, limits: Limits, wasUp: bool, wasRetry: bool)
      returns (parentUp: bool, parentRetry: bool)
      requires i < |parents| == |status|
      ensures !wasUp ==> parentUp == Eligible(i, status, xactStart, limits)
      ensures !wasUp && !wasRetry ==> parentRetry == (parentUp && Failed(i, limits))
    {
      parentUp, parentRetry := wasUp, wasRetry;
      var parent := parents[i];
      if parent.failedAt == 0 || parent.failCount < Int32(limits.failThreshold) {
        if status[i] == Up {
          parentUp := true;
        }
      } else if parent.failedAt + limits.retryTime as int < xactStart && status[i] == Up {
        parentUp, parentRetry := true, true;
      } else {
        parentUp := false;
      }
    }

    /** None of the next k parents from `from` on may be chosen. */
    ghost predicate NoneEligible(from: nat, k: nat, status: seq<HostStatus>, xactStart: int, limits: Limits)
      requires from < |parents| == |status| && k <= |parents|
      reads parents
    {
      forall j :: 0 <= j < k ==> !Eligible(At(from, j, |parents|), status, xactStart, limits)
    }

    /** `chosen` is the first parent in cyclic order from `from` on that may be chosen. */
    ghost predicate FirstEligible(from: nat, chosen: nat, status: seq<HostStatus>, xactStart: int, limits: Limits)
      requires from < |parents| == |status| && chosen < |parents|
      reads parents
    {
      && Eligible(chosen, status, xactStart, limits)
      && NoneEligible(from, Distance(from, chosen, |parents|), status, xactStart, limits)
    }

    /** selectParent's cyclic search, from `from` to before `start`.  It looks at each parent at most
        once. */
    method Scan(from: nat, start: nat, status: seq<HostStatus>, xactStart: int, limits: Limits)
      returns (chosen: Option<nat>, retry: bool, examined: nat)
      requires Valid() && from < |parents| == |status| && start < |parents|
      modifies this`latchedParent
      ensures Valid()
      ensures examined <= Laps(from, start, |parents|) <= |parents|
      ensures chosen.Some? ==>
        && chosen.value < |parents| && FirstEligible(from, chosen.value, status, xactStart, limits)
        && retry == Failed(chosen.value, limits)
        && Distance(from, chosen.value, |parents|) < Laps(from, start, |parents|)
        && latchedParent == if chosen.value == from then old(latchedParent) else chosen.value
      ensures chosen == None ==> NoneEligible(from, Laps(from, start, |parents|), status, xactStart, limits)
      ensures examined == if chosen.Some? then Distance(from, chosen.value, |parents|) + 1 else Laps(from, start, |parents|)
    {
      var n := |parents|;
      var cur, parentUp, parentRetry := from, false, false;
      examined := 0;
      while true
        invariant examined < Laps(from, start, n) && cur == At(from, examined, n) && !parentUp && !parentRetry
        invariant NoneEligible(from, examined, status, xactStart, limits)
        invariant latchedParent == if examined == 0 then old(latchedParent) else cur
        decreases n - examined
      {
        parentUp, parentRetry := Examine(cur, status, xactStart, limits, parentUp, parentRetry);
        Around(from, examined, start, n);
        examined := examined + 1;
        if parentUp && status[cur] != Down {
          return Some(cur), parentRetry, examined;
        }
        cur := (cur + 1) % n;
        latchedParent := cur;
        if cur == start {
          break;
        }
      }
      chosen, retry := None, false;
    }
  }

  datatype Line = NoLine | Api | Line(rec: ParentRecord)

  /** ParentResult.  wrap_around is cleared by reset and set nowhere, and is left out. */
  class ParentResult {
    var outcome: Outcome
    var hostname: Option<string>
    var port: int
    var retry: bool
    var line: Line
    var lastParent: nat
    var startParent: nat

    constructor ()
      ensures outcome == Undefined
    {
      new;
      Reset();
    }

    method Reset()
      modifies this
      ensures outcome == Undefined && hostname == None && port == 0 && !retry && line == NoLine && lastParent == startParent == 0
    {
      outcome, hostname, port, retry, line, lastParent, startParent := Undefined, None, 0, false, NoLine, 0, 0;
    }

    /** A parent of the line was chosen, and where the search started is known. */
    predicate Chosen()
      reads this
    {
      && outcome == Specified && line.Line?
      && lastParent < |line.rec.parents| && startParent < |line.rec.parents|
      && hostname == Some(line.rec.parents[lastParent].hostname) && port == line.rec.parents[lastParent].port
    }

    /** The part of selectParent from the cyclic search on. */
    method Search(from: nat, status: seq<HostStatus>, xactStart: int, limits: Limits)
      requires line.Line? && line.rec.Valid() && from < |line.rec.parents| == |status| && startParent < |line.rec.parents|
      modifies this`outcome, this`hostname, this`port, this`retry, this`lastParent, line.rec`latchedParent
      ensures line.rec.Valid()
      ensures outcome == Specified ==>
        && Chosen()
        && line.rec.FirstEligible(from, lastParent, status, xactStart, limits)
        && retry == line.rec.Failed(lastParent, limits)
        && Distance(from, lastParent, |status|) < Laps(from, startParent, |status|)
        && line.rec.latchedParent == if lastParent == from then old(line.rec.latchedParent) else lastParent
      ensures outcome != Specified ==>
        && outcome == line.rec.Otherwise() && hostname == None && port == 0
        && line.rec.NoneEligible(from, Laps(from, startParent, |status|), status, xactStart, limits)
    {
      var chosen, chosenRetry, examined := line.rec.Scan(from, startParent, status, xactStart, limits);
      if chosen.Some? {
        var parent := line.rec.parents[chosen.value];
        outcome, hostname, port := Specified, Some(parent.hostname), parent.port;
        lastParent, retry := chosen.value, chosenRetry;
      } else {
        outcome, hostname, port := line.rec.Otherwise(), None, 0;
      }
    }

    /** selectParent on a first call: no parent exactly if there are none or none may be chosen. */
    method SelectFirst(request: Request, status: seq<HostStatus>, limits: Limits)
      requires line.Line? && line.rec.Valid() && |line.rec.parents| == |status| && startParent == 0
      requires |status| > 0 ==> 0 <= line.rec.FirstIndex(request) < |status|
      modifies this`outcome, this`hostname, this`port, this`retry, this`lastParent, this`startParent
      modifies line.rec`latchedParent, line.rec`rrNext
      ensures line.rec.Valid()
      ensures |status| == 0 ==> outcome == line.rec.Otherwise() && hostname == None && port == 0
      ensures |status| > 0 ==> startParent == old(line.rec.FirstIndex(request))
      ensures outcome != Specified ==> outcome == if line.rec.goDirect && line.rec.parentIsProxy then Direct else Fail
      ensures line.rec.rrNext as int ==
        if line.rec.mode == StrictRoundRobin && |status| > 0 then (old(line.rec.rrNext) as int + 1) % TWO_32
        else old(line.rec.rrNext) as int
      ensures outcome == Specified ==>
        && Chosen()
        && line.rec.FirstEligible(startParent, lastParent, status, request.xactStart, limits)
        && retry == line.rec.Failed(lastParent, limits)
        && (line.rec.mode == LatchedRoundRobin ==> line.rec.latchedParent == lastParent)
      ensures outcome != Specified && |status| > 0 ==>
        && outcome == line.rec.Otherwise() && hostname == None && port == 0
        && line.rec.NoneEligible(startParent, |status|, status, request.xactStart, limits)
    {
      var rec, n := line.rec, |status|;
      if rec.parents == [] {
        outcome, hostname, port := rec.Otherwise(), None, 0;
        return;
      }
      var cur := 0;
      match rec.mode {
        case HashRoundRobin =>
          if request.clientHash.Some? {
            cur := request.clientHash.value % n;
            startParent := cur;
          }
        case StrictRoundRobin =>
          cur := Remainder(Int32(rec.rrNext), n);
          rec.rrNext := ((rec.rrNext as int + 1) % TWO_32) as uint32;
          startParent := cur;
        case NoRoundRobin =>
          startParent := cur;
        case LatchedRoundRobin =>
          cur := rec.latchedParent;
          startParent := cur;
      }
      Search(cur, status, request.xactStart, limits);
    }

    /** selectParent after a failure of the parent last chosen. */
    method SelectAgain(request: Request, status: seq<HostStatus>, limits: Limits)
      requires Chosen() && line.rec.Valid() && |line.rec.parents| == |status|
      modifies this`outcome, this`hostname, this`port, this`retry, this`lastParent, line.rec`latchedParent
      ensures line.rec.Valid() && line.rec.Advances(this, status, request.xactStart, limits)
      ensures outcome != Specified ==> outcome == if line.rec.goDirect && line.rec.parentIsProxy then Direct else Fail
    {
      var rec, n := line.rec, |status|;
      var cur := (lastParent + 1) % n;
      SuccIsRemainder(lastParent, n);
      rec.latchedParent := cur;
      if cur == startParent && rec.goDirect {
        outcome, hostname, port := rec.Otherwise(), None, 0;
        return;
      }
      Search(cur, status, request.xactStart, limits);
    }
  }

  /** ParentConfigParams: whether parent selection is on, and the line used where none matches. */
  class ParentConfigParams {
    const enabled: bool
    const defaultParent: Option<ParentRecord>

    constructor (enabled: bool, defaultParent: Option<ParentRecord>)
      ensures this.enabled == enabled && this.defaultParent == defaultParent
    {
      this.enabled, this.defaultParent := enabled, defaultParent;
    }

    /** The line that decides, `matched` being the one the table found. */
    function Deciding(matched: Option<ParentRecord>): Option<ParentRecord> {
      if matched.Some? then matched else defaultParent
    }

    /** findParent: a parent set by a plugin comes before the table, which comes before the
        default line. */
    method FindParent(result: ParentResult, request: Request, matched: Option<ParentRecord>, status: seq<HostStatus>, limits: Limits)
      requires var rec := Deciding(matched);
        rec.Some? ==> rec.value.Valid() && |status| == |rec.value.parents|
      requires var rec := Deciding(matched);
        rec.Some? && rec.value.mode == StrictRoundRobin && |status| > 0 ==>
          0 <= Remainder(Int32(rec.value.rrNext), |status|) < |status|
      modifies result
      modifies var rec := Deciding(matched); if rec.Some? then {rec.value} else {}
      ensures !enabled ==> result.outcome == Direct
      ensures enabled && request.apiParent.Some? ==>
        && result.outcome == Specified && result.line == Api
        && result.hostname == Some(request.apiParent.value.0) && result.port == request.apiParent.value.1
      ensures enabled && request.apiParent == None ==>
        result.line == if matched.Some? then Line(matched.value) else if defaultParent.Some? then Line(defaultParent.value) else NoLine
      ensures enabled && request.apiParent == None && Deciding(matched) == None ==> result.outcome == Direct
      ensures enabled && request.apiParent == None && Deciding(matched).Some? ==>
        var rec := Deciding(matched).value;
        && rec.Valid() && result.line == Line(rec)
        && (|status| > 0 ==> result.startParent == old(rec.FirstIndex(request)))
        && (result.outcome != Specified ==> result.outcome == if rec.goDirect && rec.parentIsProxy then Direct else Fail)
        && rec.rrNext as int == (old(rec.rrNext) as int + if rec.mode == StrictRoundRobin && |status| > 0 then 1 else 0) % TWO_32
        && (result.outcome == Specified ==>
              && result.Chosen()
              && rec.FirstEligible(result.startParent, result.lastParent, status, request.xactStart, limits)
              && result.retry == rec.Failed(result.lastParent, limits))
        && (result.outcome != Specified ==>
              result.outcome == rec.Otherwise()
              && (|status| > 0 ==> result.startParent < |status|)
              && (|status| > 0 ==> rec.NoneEligible(result.startParent, |status|, status, request.xactStart, limits)))
    {
      if !enabled {
        result.outcome := Direct;
        return;
      }
      result.Reset();
      if request.apiParent.Some? {
        result.outcome, result.line := Specified, Api;
        result.hostname, result.port := Some(request.apiParent.value.0), request.apiParent.value.1;
        return;
      }
      var rec := Deciding(matched);
      if rec == None {
        result.outcome := Direct;
        return;
      }
      result.line := Line(rec.value);
      result.SelectFirst(request, status, limits);
    }

    /** Successive transactions on a line with strict round robin: each starts one parent further than the
        one before, and a fresh line starts at its first parent. */
    method StrictTurns(result: ParentResult, request: Request, matched: Option<ParentRecord>, limits: Limits, calls: nat)
      returns (starts: seq<nat>)
      requires enabled && request.apiParent == None
      requires var rec := Deciding(matched);
        rec.Some? && rec.value.Valid() && |rec.value.parents| > 0
          && rec.value.mode == StrictRoundRobin && rec.value.rrNext as int + calls < TWO_31
      modifies result, Deciding(matched).value
      ensures var n := |Deciding(matched).value.parents|;
        && |starts| == calls && (forall k :: 0 <= k < calls ==> starts[k] < n)
        && (forall k :: 0 <= k < calls - 1 ==> starts[k + 1] == Succ(starts[k], n))
      ensures old(Deciding(matched).value.rrNext) == 0 && calls > 0 ==> starts[0] == 0
    {
      var rec := Deciding(matched).value;
      var n := |rec.parents|;
      starts := [];
      for k := 0 to calls
        invariant rec.Valid() && rec.rrNext as int == old(rec.rrNext) as int + k && |starts| == k
        invariant forall i :: 0 <= i < k ==> starts[i] < n
        invariant forall i :: 0 <= i < k - 1 ==> starts[i + 1] == Succ(starts[i], n)
        invariant k > 0 ==> Succ(starts[k - 1], n) == Remainder(Int32(rec.rrNext), n)
        invariant old(rec.rrNext) == 0 && k > 0 ==> starts[0] == 0
      {
        var start := StrictTurn(result, request, matched, limits);
        starts := starts + [start];
      }
    }

    method StrictTurn(result: ParentResult, request: Request, matched: Option<ParentRecord>, limits: Limits) returns (start: nat)
      requires enabled && request.apiParent == None
      requires var rec := Deciding(matched);
        rec.Some? && rec.value.Valid() && |rec.value.parents| > 0
          && rec.value.mode == StrictRoundRobin && rec.value.rrNext as int + 1 < TWO_31
      modifies result, Deciding(matched).value
      ensures var rec, n := Deciding(matched).value, |Deciding(matched).value.parents|;
        && rec.Valid() && rec.rrNext as int == old(rec.rrNext) as int + 1
        && start < n && start == Remainder(Int32(old(rec.rrNext)), n) && Remainder(Int32(rec.rrNext), n) == Succ(start, n)
    {
      var rec := Deciding(matched).value;
      var status := SomeStatus(|rec.parents|);
      StrictIndexMovesOn(rec.rrNext, |rec.parents|);
      FindParent(result, request, matched, status, limits);
      start := result.startParent;
    }

    /** nextParent: a parent set by a plugin has no failover. */
    method NextParent(result: ParentResult, request: Request, status: seq<HostStatus>, limits: Limits)
      requires result.outcome == Specified && result.line != NoLine
      requires result.line.Line? ==> result.Chosen() && result.line.rec.Valid() && |status| == |result.line.rec.parents|
      modifies result`outcome, result`hostname, result`port, result`retry, result`lastParent
      modifies (if result.line.Line? then {result.line.rec} else {})`latchedParent
      ensures result.line == Api ==> result.outcome == Fail
      ensures result.line.Line? ==> result.line.rec.Valid()
      ensures result.line.Line? ==> result.line.rec.Advances(result, status, request.xactStart, limits)
      ensures result.line.Line? && result.outcome != Specified ==>
        result.outcome == if result.line.rec.goDirect && result.line.rec.parentIsProxy then Direct else Fail
    {
      if result.line == Api {
        result.outcome := Fail;
        return;
      }
      result.SelectAgain(request, status, limits);
    }

    /** nextParent, some time later. */
    method Failover(result: ParentResult, rec: ParentRecord, request: Request, limits: Limits)
      requires result.line == Line(rec) && result.Chosen() && rec.Valid() && rec.goDirect
      modifies result`outcome, result`hostname, result`port, result`retry, result`lastParent, rec, rec.parents
      ensures rec.Valid()
      ensures result.outcome == Specified ==>
        result.Chosen()
        && Distance(result.startParent, result.lastParent, |rec.parents|) > Distance(result.startParent, old(result.lastParent), |rec.parents|)
      ensures result.outcome != Specified ==> result.outcome == rec.Otherwise()
    {
      rec.Disturbed();
      var status := SomeStatus(|rec.parents|);
      NextParent(result, request, status, limits);
    }

    /** A transaction that finds every parent it is given failing, while other transactions mark
        parents, move the counters and hosts go up and down.  With a line that may go direct, no
        parent is tried twice, each one is further from the start than the one before, and the
        run ends, direct or failed. */
    method FailoverRun(result: ParentResult, request: Request, matched: Option<ParentRecord>, limits: Limits)
      returns (tried: seq<nat>)
      requires enabled && request.apiParent == None
      requires var rec := Deciding(matched);
        rec.Some? && rec.value.Valid() && rec.value.goDirect && |rec.value.parents| > 0
          && (rec.value.mode == StrictRoundRobin ==> rec.value.rrNext as int < TWO_31)
      modifies result, Deciding(matched).value, Deciding(matched).value.parents
      ensures result.outcome == if Deciding(matched).value.parentIsProxy then Direct else Fail
      ensures |tried| <= |Deciding(matched).value.parents|
      ensures forall i, j :: 0 <= i < j < |tried| ==> tried[i] != tried[j]
    {
      var rec := Deciding(matched).value;
      var n := |rec.parents|;
      var status := SomeStatus(n);
      tried := [];
      FindParent(result, request, matched, status, limits);
      if result.outcome != Specified {
        return;
      }
      ghost var start := result.startParent;
      while result.outcome == Specified
        invariant result.line == Line(rec) && rec.Valid() && result.startParent == start < n
        invariant result.outcome == Specified ==> result.Chosen()
        invariant result.outcome != Specified ==> result.outcome == rec.Otherwise()
        invariant Ascending(tried, start, if result.outcome == Specified then Distance(start, result.lastParent, n) else n, n)
        decreases if result.outcome == Specified then n - Distance(start, result.lastParent, n) else 0
      {
        var last := result.lastParent;
        Failover(result, rec, request, limits);
        AscendingNext(tried, start, last, if result.outcome == Specified then Distance(start, result.lastParent, n) else n, n);
        tried := tried + [last];
      }
      AscendingIsShort(tried, start, n, n);
    }

    method FixedFailover(result: ParentResult, rec: ParentRecord, request: Request, status: seq<HostStatus>, limits: Limits)
      requires result.line == Line(rec) && result.Chosen() && rec.Valid() && |rec.parents| == |status|
      requires rec.Eligible(result.lastParent, status, request.xactStart, limits)
      modifies result`outcome, result`hostname, result`port, result`retry, result`lastParent, rec`latchedParent
      ensures rec.Valid()
      ensures result.outcome == Specified ==>
        result.Chosen() && rec.Eligible(result.lastParent, status, request.xactStart, limits)
      ensures result.outcome != Specified ==> result.outcome == rec.Otherwise()
      ensures var n := |status|;
        if rec.GoesRound(result.startParent, status, request.xactStart, limits) then result.outcome == Specified
        else result.outcome == Specified ==>
          Distance(result.startParent, result.lastParent, n) > Distance(result.startParent, old(result.lastParent), n)
    {
      LastScanned(Succ(result.lastParent, |status|), result.startParent, |status|);
      NextParent(result, request, status, limits);
    }

    /** A failover run in an environment that stays as it is: the same requests and host states, and
        nobody marks parents.  After n failures it still offers a parent exactly if the line may not go
        direct and the parent before the start may be chosen; then it never ends. */
    method FixedRun(result: ParentResult, request: Request, matched: Option<ParentRecord>, status: seq<HostStatus>, limits: Limits,
        failures: nat)
      requires enabled && request.apiParent == None
      requires var rec := Deciding(matched);
        rec.Some? && rec.value.Valid() && |rec.value.parents| == |status| > 0
          && (rec.value.mode == StrictRoundRobin ==> 0 <= Remainder(Int32(rec.value.rrNext), |status|) < |status|)
      modifies result, Deciding(matched).value
      ensures var rec, n := Deciding(matched).value, |status|;
        && result.startParent < n
        && (result.outcome != Specified ==> result.outcome == rec.Otherwise())
        && (failures >= n ==> (result.outcome == Specified <==> rec.GoesRound(result.startParent, status, request.xactStart, limits)))
        && (rec.GoesRound(result.startParent, status, request.xactStart, limits) ==> result.outcome == Specified)
    {
      var rec := Deciding(matched).value;
      var n := |status|;
      FindParent(result, request, matched, status, limits);
      ghost var start := result.startParent;
      ghost var round := rec.GoesRound(start, status, request.xactStart, limits);
      for i := 0 to failures
        invariant result.line == Line(rec) && rec.Valid() && result.startParent == start < n
        invariant result.outcome != Specified ==> result.outcome == rec.Otherwise()
        invariant result.outcome == Specified ==>
          result.Chosen() && rec.Eligible(result.lastParent, status, request.xactStart, limits)
        invariant round ==> result.outcome == Specified
        invariant !round && result.outcome == Specified ==> Distance(start, result.lastParent, n) >= i
      {
        if result.outcome == Specified {
          FixedFailover(result, rec, request, status, limits);
        }
      }
    }

    /** On every line that may not go direct, in every mode, there is an environment in which a failover run
        never ends: every host is up, and no failure is recorded. */
    method Endless(result: ParentResult, request: Request, matched: Option<ParentRecord>, limits: Limits, failures: nat)
      requires enabled && request.apiParent == None
      requires var rec := Deciding(matched);
        rec.Some? && rec.value.Valid() && !rec.value.goDirect && (rec.value.mode == StrictRoundRobin ==> rec.value.rrNext as int < TWO_31)
          && forall p :: p in rec.value.parents ==> p.failedAt == 0
      modifies result, Deciding(matched).value
      ensures result.outcome == Specified
    {
      var rec := Deciding(matched).value;
      var status := seq(|rec.parents|, _ => Up);
      FixedRun(result, request, matched, status, limits, failures);
    }

    /** The next parent after one that was marked.  It has not failed too often, since a parent that has is
        within its retry time. */
    method MoveOn(result: ParentResult, rec: ParentRecord, request: Request, limits: Limits, end: int)
      requires result.line == Line(rec) && result.Chosen() && rec.Valid()
      requires request.xactStart <= end && rec.OneWindow(limits, end)
      modifies result`outcome, result`hostname, result`port, result`retry, result`lastParent, rec`latchedParent
      ensures rec.Valid()
      ensures result.outcome == Specified ==> result.Chosen() && !result.retry && !rec.Failed(result.lastParent, limits)
      ensures result.outcome != Specified ==> result.outcome == rec.Otherwise()
    {
      var status := SomeStatus(|rec.parents|);
      NextParent(result, request, status, limits);
    }

    /** A failover run of one transaction that marks every failure, all within one retry window and with no
        other transaction marking: whether or not the line may go direct, and whatever the hosts do, it
        ends, after at most as many failures as the threshold for each parent. */
    method MarkingRun(result: ParentResult, request: Request, matched: Option<ParentRecord>, limits: Limits, end: int)
      returns (failures: nat)
      requires enabled && request.apiParent == None
      requires 0 < request.xactStart <= end <= request.xactStart + limits.retryTime as int
      requires var rec := Deciding(matched);
        rec.Some? && rec.value.Valid() && |rec.value.parents| > 0 && (rec.value.mode == StrictRoundRobin ==> rec.value.rrNext as int < TWO_31)
          && rec.value.OneWindow(limits, end)
          && rec.value.Distinct()
      modifies result, Deciding(matched).value, Deciding(matched).value.parents
      ensures var rec := Deciding(matched).value;
        result.outcome == if rec.goDirect && rec.parentIsProxy then Direct else Fail
      ensures failures <= |Deciding(matched).value.parents| * Least(limits.failThreshold)
    {
      var rec := Deciding(matched).value;
      var status := SomeStatus(|rec.parents|);
      rec.LeftBound(|rec.parents|, limits);
      FindParent(result, request, matched, status, limits);
      failures := MarkOn(result, rec, request, limits, end);
    }

    /** The rest of the run, from the first parent on. */
    method MarkOn(result: ParentResult, rec: ParentRecord, request: Request, limits: Limits, end: int) returns (failures: nat)
      requires result.line == Line(rec) && rec.Valid() && rec.OneWindow(limits, end) && rec.Distinct()
      requires result.outcome == Specified ==> result.Chosen() && !result.retry && !rec.Failed(result.lastParent, limits)
      requires result.outcome != Specified ==> result.outcome == rec.Otherwise()
      requires 0 < request.xactStart <= end <= request.xactStart + limits.retryTime as int
      modifies result`outcome, result`hostname, result`port, result`retry, result`lastParent, rec`latchedParent, rec.parents
      ensures result.outcome == rec.Otherwise() && failures <= old(rec.Left(|rec.parents|, limits))
    {
      failures := 0;
      while result.outcome == Specified
        invariant rec.Valid() && rec.OneWindow(limits, end)
        invariant result.outcome == Specified ==> result.Chosen() && !result.retry && !rec.Failed(result.lastParent, limits)
        invariant result.outcome != Specified ==> result.outcome == rec.Otherwise()
        invariant failures + rec.Left(|rec.parents|, limits) <= old(rec.Left(|rec.parents|, limits))
        decreases rec.Left(|rec.parents|, limits)
      {
        var now: int := *;
        MarkAndMove(result, rec, request, limits, if request.xactStart <= now <= end then now else end, end);
        failures := failures + 1;
      }
    }

    /** The chosen parent is marked down, and the next one looked for. */
    method MarkAndMove(result: ParentResult, rec: ParentRecord, request: Request, limits: Limits, now: int, end: int)
      requires result.line == Line(rec) && result.Chosen() && rec.Valid() && rec.Distinct()
      requires !result.retry && !rec.Failed(result.lastParent, limits)
      requires 0 < request.xactStart <= now <= end <= now + limits.retryTime as int && rec.OneWindow(limits, end)
      modifies result`outcome, result`hostname, result`port, result`retry, result`lastParent, rec`latchedParent, rec.parents
      ensures rec.Valid() && rec.OneWindow(limits, end)
      ensures result.outcome == Specified ==> result.Chosen() && !result.retry && !rec.Failed(result.lastParent, limits)
      ensures result.outcome != Specified ==> result.outcome == rec.Otherwise()
      ensures rec.Left(|rec.parents|, limits) == old(rec.Left(|rec.parents|, limits)) - 1
    {
      rec.MarkFailed(result.lastParent, limits, now, end);
      MoveOn(result, rec, request, limits, end);
    }
  }

  /** Host states in force at the time of a call. */
  method SomeStatus(n: nat) returns (status: seq<HostStatus>)
    ensures |status| == n
  {
    status := [];
    for i := 0 to n
      invariant |status| == i
    {
      var state: HostStatus := *;
      status := status + [state];
    }
  }

  /** Indices below n, ever further from the start, all of them before `end`. */
  ghost predicate Ascending(tried: seq<nat>, start: nat, end: nat, n: nat)
    requires start < n
  {
    && (forall i :: 0 <= i < |tried| ==> tried[i] < n)
    && (forall i, j :: 0 <= i < j < |tried| ==> Distance(start, tried[i], n) < Distance(start, tried[j], n))
    && (forall i :: 0 <= i < |tried| ==> Distance(start, tried[i], n) < end)
  }

  lemma AscendingNext(tried: seq<nat>, start: nat, last: nat, end: nat, n: nat)
    requires start < n && last < n && Ascending(tried, start, Distance(start, last, n), n) && Distance(start, last, n) < end
    ensures Ascending(tried + [last], start, end, n)
  {
  }

  lemma {:induction false} AscendingIsShort(tried: seq<nat>, start: nat, end: nat, n: nat)
    requires start < n && Ascending(tried, start, end, n)
    ensures |tried| <= end
  {
    if tried != [] {
      var last := |tried| - 1;
      AscendingIsShort(tried[..last], start, Distance(start, tried[last], n), n);
    }
  }
}
