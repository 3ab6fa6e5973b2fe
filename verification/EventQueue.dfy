/**
The lossy event queue: trySendEvent called by any number of goroutines, one atomic
operation per step, over a bounded channel, a drop counter and the time of the last
drop report. A clock reading may be any value.
*/
module EventQueue {

  const DROP_LOG_INTERVAL := 10

  /** Where one call of trySendEvent stands; the last two are returns. */
  datatype Pc<E> =
    | Trying(event: E)
    | Full
    | Counted
    | Clocked(now: int)
    | Racing(now: int, last: int)
    | Winner
    | Sent
    | Dropped

  /** `calls` maps each call to its position; `sent`, `received`, `wins` and `reports` record the past. */
  datatype State<E> = State(
    queue: seq<E>, droppedCount: int, lastDropLogTime: int, calls: map<nat, Pc<E>>,
    sent: seq<E>, received: seq<E>, wins: seq<int>, reports: seq<int>)

  /** A call begins, a call takes its next atomic operation, or the hub receives an event. */
  datatype Step<E> = Begin(call: nat, event: E) | Act(call: nat, clock: int) | Receive

  function Init<E>(): State<E> { State([], 0, 0, map[], [], [], [], []) }

  predicate Returned<E>(pc: Pc<E>) { pc.Sent? || pc.Dropped? }

  predicate Enabled<E>(s: State<E>, step: Step<E>) {
    match step
    case Begin(call, _) => call !in s.calls
    case Act(call, _) => call in s.calls && !Returned(s.calls[call])
    case Receive => s.queue != []
  }

  /** The next atomic operation of one call. */
  function Advance<E>(capacity: nat, s: State<E>, call: nat, clock: int): State<E>
    requires Enabled(s, Act(call, clock))
  {
    match s.calls[call]
    case Trying(event) =>
      if |s.queue| < capacity
      then s.(queue := s.queue + [event], sent := s.sent + [event], calls := s.calls[call := Sent])
      else s.(calls := s.calls[call := Full])
    case Full =>
      s.(droppedCount := s.droppedCount + 1, calls := s.calls[call := Counted])
    case Counted =>
      s.(calls := s.calls[call := Clocked(clock)])
    case Clocked(now) =>
      var due := now - s.lastDropLogTime >= DROP_LOG_INTERVAL;
      s.(calls := s.calls[call := if due then Racing(now, s.lastDropLogTime) else Dropped])
    case Racing(now, last) =>
      if s.lastDropLogTime == last
      then s.(lastDropLogTime := now, wins := s.wins + [now], calls := s.calls[call := Winner])
      else s.(calls := s.calls[call := Dropped])
    case Winner =>
      s.(droppedCount := 0, reports := s.reports + [s.droppedCount], calls := s.calls[call := Dropped])
  }

  function Exec<E>(capacity: nat, s: State<E>, step: Step<E>): State<E>
    requires Enabled(s, step)
  {
    match step
    case Begin(call, event) => s.(calls := s.calls[call := Trying(event)])
    case Act(call, clock) => Advance(capacity, s, call, clock)
    case Receive => s.(queue := s.queue[1..], received := s.received + [s.queue[0]])
  }

  predicate IsRun<E>(capacity: nat, steps: seq<Step<E>>)
    decreases |steps|, 0
  {
    steps == [] ||
    (IsRun(capacity, steps[..|steps| - 1]) && Enabled(Final(capacity, steps[..|steps| - 1]), steps[|steps| - 1]))
  }

  function Final<E>(capacity: nat, steps: seq<Step<E>>): State<E>
    requires IsRun(capacity, steps)
    decreases |steps|, 1
  {
    if steps == [] then Init()
    else Exec(capacity, Final(capacity, steps[..|steps| - 1]), steps[|steps| - 1])
  }

  // ------------------------------------------------------------------------
  // Counting calls
  // ------------------------------------------------------------------------

  /** How far a call has got, as far as the counts go. */
  datatype Stage = Undecided | Enqueued | Uncounted | Lost | Reporting

  function StageOf<E>(pc: Pc<E>): Stage {
    match pc
    case Trying(_) => Undecided
    case Sent => Enqueued
    case Full => Uncounted
    case Winner => Reporting
    case _ => Lost
  }

  function In<E>(calls: map<nat, Pc<E>>, stage: Stage): set<nat> {
    set c | c in calls && StageOf(calls[c]) == stage
  }

  function One(b: bool): int { if b then 1 else 0 }

  lemma MoveCounts<E>(calls: map<nat, Pc<E>>, c: nat, pc: Pc<E>, stage: Stage)
    ensures |In(calls[c := pc], stage)| ==
            |In(calls, stage)| + One(StageOf(pc) == stage) - One(c in calls && StageOf(calls[c]) == stage)
  {
    OthersStay(calls, c, pc, stage);
    Without(In(calls, stage), c);
    Without(In(calls[c := pc], stage), c);
  }

  lemma OthersStay<E>(calls: map<nat, Pc<E>>, c: nat, pc: Pc<E>, stage: Stage)
    ensures In(calls[c := pc], stage) - {c} == In(calls, stage) - {c}
    ensures c in In(calls[c := pc], stage) <==> StageOf(pc) == stage
    ensures c in In(calls, stage) <==> c in calls && StageOf(calls[c]) == stage
  {
  }

  lemma Without(s: set<nat>, c: nat)
    ensures |s| == |s - {c}| + One(c in s)
  {
  }

  function Sum(xs: seq<int>): int {
    if xs == [] then 0 else Sum(xs[..|xs| - 1]) + xs[|xs| - 1]
  }

  lemma SumAppend(xs: seq<int>, x: int)
    ensures Sum(xs + [x]) == Sum(xs) + x
  {
  }

  // ------------------------------------------------------------------------
  // The invariant
  // ------------------------------------------------------------------------

  ghost predicate CountInv<E>(s: State<E>) {
    && |In(s.calls, Enqueued)| == |s.sent|
    && |In(s.calls, Lost)| + |In(s.calls, Reporting)| == s.droppedCount + Sum(s.reports)
    && |In(s.calls, Reporting)| + |s.reports| == |s.wins|
  }

  /** The report time before the i-th one. */
  function Before(wins: seq<int>, i: nat): int
    requires i <= |wins|
  {
    if i == 0 then 0 else wins[i - 1]
  }

  /** Every won report time is at least the interval after the one before it. */
  ghost predicate Spaced(wins: seq<int>) {
    forall i :: 0 <= i < |wins| ==> wins[i] - Before(wins, i) >= DROP_LOG_INTERVAL
  }

  ghost predicate TimeInv<E>(s: State<E>) {
    && s.lastDropLogTime == Before(s.wins, |s.wins|)
    && Spaced(s.wins)
    && forall c :: c in s.calls && s.calls[c].Racing? ==> s.calls[c].now - s.calls[c].last >= DROP_LOG_INTERVAL
  }

  ghost predicate QueueInv<E>(capacity: nat, s: State<E>) {
    s.received + s.queue == s.sent && |s.queue| <= capacity
  }

  ghost predicate Inv<E>(capacity: nat, s: State<E>) {
    CountInv(s) && TimeInv(s) && QueueInv(capacity, s)
  }

  /** What moving one call to another position does to the three counts. */
  lemma MoveStage<E>(calls: map<nat, Pc<E>>, c: nat, pc: Pc<E>, from: Stage)
    requires StageOf(pc) != from ==> from != Enqueued
    requires if c in calls then StageOf(calls[c]) == from else from == Undecided
    ensures var to := StageOf(pc);
            && |In(calls[c := pc], Enqueued)| == |In(calls, Enqueued)| + One(to == Enqueued && from != Enqueued)
            && |In(calls[c := pc], Lost)| == |In(calls, Lost)| + One(to == Lost) - One(from == Lost)
            && |In(calls[c := pc], Reporting)| == |In(calls, Reporting)| + One(to == Reporting) - One(from == Reporting)
  {
    MoveCounts(calls, c, pc, Enqueued);
    MoveCounts(calls, c, pc, Lost);
    MoveCounts(calls, c, pc, Reporting);
  }

  lemma BeginKeepsCounts<E>(capacity: nat, s: State<E>, call: nat, event: E)
    requires CountInv(s) && Enabled(s, Begin(call, event))
    ensures CountInv(Exec(capacity, s, Begin(call, event)))
  {
    MoveStage(s.calls, call, Trying(event), Undecided);
  }

  lemma ReportKeepsCounts<E>(capacity: nat, s: State<E>, call: nat, clock: int)
    requires CountInv(s) && Enabled(s, Act(call, clock)) && s.calls[call].Winner?
    ensures CountInv(Advance(capacity, s, call, clock))
  {
    MoveStage(s.calls, call, Dropped, Reporting);
    SumAppend(s.reports, s.droppedCount);
  }

  lemma ActKeepsCounts<E>(capacity: nat, s: State<E>, call: nat, clock: int)
    requires CountInv(s) && Enabled(s, Act(call, clock)) && !s.calls[call].Winner?
    ensures CountInv(Advance(capacity, s, call, clock))
  {
    MoveStage(s.calls, call, Advance(capacity, s, call, clock).calls[call], StageOf(s.calls[call]));
  }

  lemma WinKeepsSpacing(wins: seq<int>, now: int)
    requires Spaced(wins) && now - Before(wins, |wins|) >= DROP_LOG_INTERVAL
    ensures Spaced(wins + [now])
  {
  }

  lemma StepKeepsTimes<E>(capacity: nat, s: State<E>, step: Step<E>)
    requires TimeInv(s) && Enabled(s, step)
    ensures TimeInv(Exec(capacity, s, step))
  {
    if step.Act? && s.calls[step.call].Racing? && s.lastDropLogTime == s.calls[step.call].last {
      WinKeepsSpacing(s.wins, s.calls[step.call].now);
    }
  }

  lemma StepKeepsQueue<E>(capacity: nat, s: State<E>, step: Step<E>)
    requires QueueInv(capacity, s) && Enabled(s, step)
    ensures QueueInv(capacity, Exec(capacity, s, step))
  {
  }

  lemma StepKeepsInv<E>(capacity: nat, s: State<E>, step: Step<E>)
    requires Inv(capacity, s) && Enabled(s, step)
    ensures Inv(capacity, Exec(capacity, s, step))
  {
    StepKeepsTimes(capacity, s, step);
    StepKeepsQueue(capacity, s, step);
    match step
    case Begin(call, event) => BeginKeepsCounts(capacity, s, call, event);
    case Act(call, clock) =>
      if s.calls[call].Winner? {
        ReportKeepsCounts(capacity, s, call, clock);
      } else {
        ActKeepsCounts(capacity, s, call, clock);
      }
    case Receive =>
  }

  lemma {:induction false} RunKeepsInv<E>(capacity: nat, steps: seq<Step<E>>)
    requires IsRun(capacity, steps)
    ensures Inv(capacity, Final(capacity, steps))
  {
    if steps != [] {
      var before := steps[..|steps| - 1];
      RunKeepsInv(capacity, before);
      StepKeepsInv(capacity, Final(capacity, before), steps[|steps| - 1]);
    }
  }

  // ------------------------------------------------------------------------
  // Main results
  // ------------------------------------------------------------------------

  lemma StagesPartition<E>(calls: map<nat, Pc<E>>)
    ensures |calls| == |In(calls, Undecided)| + |In(calls, Enqueued)| + |In(calls, Uncounted)| + |In(calls, Lost)| +
              |In(calls, Reporting)|
  {
    var u, e, n := In(calls, Undecided), In(calls, Enqueued), In(calls, Uncounted);
    var l, r := In(calls, Lost), In(calls, Reporting);
    forall c | c in calls
      ensures c in u + e + n + l + r
    {
      match StageOf(calls[c]) case _ =>
    }
    assert calls.Keys == u + e + n + l + r;
  }

  /**
  No event is unaccounted for. At any moment the events offered are those still being
  decided, those enqueued, and those dropped; and what has been dropped and counted is
  what the counter holds plus what the reports took out of it.
  */
  lemma {:induction false} EventsAreConserved<E>(capacity: nat, steps: seq<Step<E>>)
    requires IsRun(capacity, steps)
    ensures var s := Final(capacity, steps);
            |s.calls| == |In(s.calls, Undecided)| + |In(s.calls, Uncounted)| + |s.sent| + s.droppedCount +
              Sum(s.reports)
  {
    RunKeepsInv(capacity, steps);
    StagesPartition(Final(capacity, steps).calls);
  }

  /** Once every call has returned: offered = enqueued + pending drops + reported drops, and every win reported. */
  lemma {:induction false} QuiescentAccounts<E>(capacity: nat, steps: seq<Step<E>>)
    requires IsRun(capacity, steps)
    requires forall c :: c in Final(capacity, steps).calls ==> Returned(Final(capacity, steps).calls[c])
    ensures var s := Final(capacity, steps);
            && |s.calls| == |s.sent| + s.droppedCount + Sum(s.reports)
            && |s.reports| == |s.wins|
  {
    var s := Final(capacity, steps);
    RunKeepsInv(capacity, steps);
    StagesPartition(s.calls);
    assert In(s.calls, Undecided) == {} && In(s.calls, Uncounted) == {} && In(s.calls, Reporting) == {};
  }

  /** What was enqueued is delivered in order, and the channel never exceeds its buffer. */
  lemma {:induction false} DeliveryIsFifo<E>(capacity: nat, steps: seq<Step<E>>)
    requires IsRun(capacity, steps)
    ensures var s := Final(capacity, steps);
            s.received <= s.sent && s.received + s.queue == s.sent && |s.queue| <= capacity
  {
    RunKeepsInv(capacity, steps);
  }

  lemma {:induction false} WinsSpread(wins: seq<int>, i: nat, j: nat)
    requires Spaced(wins) && i <= j <= |wins|
    ensures Before(wins, j) - Before(wins, i) >= 10 * (j - i)
    decreases j
  {
    if i < j {
      WinsSpread(wins, i, j - 1);
      assert wins[j - 1] - Before(wins, j - 1) >= DROP_LOG_INTERVAL;
    }
  }

  /**
  However the goroutines race, the times at which a report is won are at least ten
  seconds apart, so any ten-second interval has at most one reporter, and the number
  of reports is bounded by the time of the last one.
  */
  lemma {:induction false} ReportsAreRateLimited<E>(capacity: nat, steps: seq<Step<E>>, i: nat, j: nat)
    requires IsRun(capacity, steps) && i < j < |Final(capacity, steps).wins|
    ensures var s := Final(capacity, steps);
            && s.wins[j] - s.wins[i] >= 10 * (j - i)
            && s.lastDropLogTime >= 10 * |s.wins|
            && |s.reports| <= |s.wins|
  {
    RunKeepsInv(capacity, steps);
    WinsAreApart(Final(capacity, steps).wins, i, j);
  }

  lemma WinsAreApart(wins: seq<int>, i: nat, j: nat)
    requires Spaced(wins) && i < j < |wins|
    ensures wins[j] - wins[i] >= 10 * (j - i)
    ensures Before(wins, |wins|) >= 10 * |wins|
  {
    WinsSpread(wins, i + 1, j + 1);
    WinsSpread(wins, 0, |wins|);
  }

  // ------------------------------------------------------------------------
  // Main results: what each report takes
  // ------------------------------------------------------------------------

  /** The state a run is in before its k-th step. */
  function StateAt<E>(capacity: nat, steps: seq<Step<E>>, k: nat): State<E>
    requires IsRun(capacity, steps) && k <= |steps|
  {
    if k == |steps| then Final(capacity, steps) else StateAt(capacity, steps[..|steps| - 1], k)
  }

  predicate TakesOf<E>(s: State<E>, step: Step<E>, call: nat, stage: Stage) {
    step.Act? && step.call == call && call in s.calls && StageOf(s.calls[call]) == stage
  }

  /** The k-th step counts the drop of this call's event. */
  predicate CountsAt<E>(capacity: nat, steps: seq<Step<E>>, k: nat, call: nat)
    requires IsRun(capacity, steps) && k < |steps|
  {
    TakesOf(StateAt(capacity, steps, k), steps[k], call, Uncounted)
  }

  /** The k-th step is this call's report: it takes the counter and resets it. */
  predicate ReportsAt<E>(capacity: nat, steps: seq<Step<E>>, k: nat, call: nat)
    requires IsRun(capacity, steps) && k < |steps|
  {
    TakesOf(StateAt(capacity, steps, k), steps[k], call, Reporting)
  }

  /** For each call that counted its drop, the number of reports made by then. */
  function CountedAfter<E>(capacity: nat, steps: seq<Step<E>>): map<nat, nat>
    requires IsRun(capacity, steps)
  {
    if steps == [] then map[]
    else
      var n := |steps| - 1;
      CountedNext(Final(capacity, steps[..n]), CountedAfter(capacity, steps[..n]), steps[n])
  }

  function CountedNext<E>(s: State<E>, counted: map<nat, nat>, step: Step<E>): map<nat, nat> {
    if step.Act? && TakesOf(s, step, step.call, Uncounted) then counted[step.call := |s.reports|] else counted
  }

  function CountedIn(counted: map<nat, nat>, i: nat): set<nat> {
    set c | c in counted && counted[c] == i
  }

  /** The calls whose drops the i-th report takes: those counted after the report before it. */
  function TakenBy<E>(capacity: nat, steps: seq<Step<E>>, i: nat): set<nat>
    requires IsRun(capacity, steps)
  {
    CountedIn(CountedAfter(capacity, steps), i)
  }

  /** The counter holds the calls counted since the last report, each report those of its interval. */
  ghost predicate ReportInv<E>(s: State<E>, counted: map<nat, nat>) {
    && (forall c :: c in counted ==> c in s.calls && (StageOf(s.calls[c]).Lost? || StageOf(s.calls[c]).Reporting?))
    && (forall c :: c in counted ==> counted[c] <= |s.reports|)
    && s.droppedCount == |CountedIn(counted, |s.reports|)|
    && (forall i :: 0 <= i < |s.reports| ==> s.reports[i] == |CountedIn(counted, i)|)
  }

  lemma CountIn(counted: map<nat, nat>, call: nat, i: nat, j: nat)
    requires call !in counted
    ensures |CountedIn(counted[call := i], j)| == |CountedIn(counted, j)| + One(i == j)
  {
    var before, after := CountedIn(counted, j), CountedIn(counted[call := i], j);
    assert after == before + if i == j then {call} else {};
  }

  lemma CountKeepsReports<E>(capacity: nat, s: State<E>, counted: map<nat, nat>, call: nat, clock: int)
    requires ReportInv(s, counted) && Enabled(s, Act(call, clock)) && s.calls[call].Full?
    ensures ReportInv(Advance(capacity, s, call, clock), counted[call := |s.reports|])
  {
    forall i: nat
      ensures |CountedIn(counted[call := |s.reports|], i)| == |CountedIn(counted, i)| + One(i == |s.reports|)
    {
      CountIn(counted, call, |s.reports|, i);
    }
  }

  lemma ReportKeepsReports<E>(capacity: nat, s: State<E>, counted: map<nat, nat>, call: nat, clock: int)
    requires ReportInv(s, counted) && Enabled(s, Act(call, clock)) && s.calls[call].Winner?
    ensures ReportInv(Advance(capacity, s, call, clock), counted)
  {
    assert CountedIn(counted, |s.reports| + 1) == {};
  }

  lemma StepKeepsReports<E>(capacity: nat, s: State<E>, counted: map<nat, nat>, step: Step<E>)
    requires ReportInv(s, counted) && Enabled(s, step)
    ensures ReportInv(Exec(capacity, s, step), CountedNext(s, counted, step))
  {
    if step.Act? && s.calls[step.call].Full? {
      CountKeepsReports(capacity, s, counted, step.call, step.clock);
    } else if step.Act? && s.calls[step.call].Winner? {
      ReportKeepsReports(capacity, s, counted, step.call, step.clock);
    }
  }

  lemma {:induction false} RunKeepsReports<E>(capacity: nat, steps: seq<Step<E>>)
    requires IsRun(capacity, steps)
    ensures ReportInv(Final(capacity, steps), CountedAfter(capacity, steps))
  {
    if steps == [] {
      assert CountedIn(map[], 0) == {};
    } else {
      var n := |steps| - 1;
      RunKeepsReports(capacity, steps[..n]);
      StepKeepsReports(capacity, Final(capacity, steps[..n]), CountedAfter(capacity, steps[..n]), steps[n]);
    }
  }

  /** A call counts its drop in one step only, and that step decides which report takes it. */
  lemma {:induction false} CountedOnce<E>(capacity: nat, steps: seq<Step<E>>, k: nat, call: nat)
    requires IsRun(capacity, steps) && k < |steps| && CountsAt(capacity, steps, k, call)
    ensures call in CountedAfter(capacity, steps)
    ensures CountedAfter(capacity, steps)[call] == |StateAt(capacity, steps, k).reports|
  {
    var n := |steps| - 1;
    if k < n {
      assert StateAt(capacity, steps, k) == StateAt(capacity, steps[..n], k) && steps[..n][k] == steps[k];
      CountedOnce(capacity, steps[..n], k, call);
      RunKeepsReports(capacity, steps[..n]);
    } else {
      assert StateAt(capacity, steps, n) == Final(capacity, steps[..n]);
    }
  }

  lemma {:induction false} CountedSomewhere<E>(capacity: nat, steps: seq<Step<E>>, call: nat) returns (k: nat)
    requires IsRun(capacity, steps) && call in CountedAfter(capacity, steps)
    ensures k < |steps| && CountsAt(capacity, steps, k, call)
    ensures CountedAfter(capacity, steps)[call] == |StateAt(capacity, steps, k).reports|
  {
    var n := |steps| - 1;
    if TakesOf(Final(capacity, steps[..n]), steps[n], call, Uncounted) {
      k := n;
      assert StateAt(capacity, steps, n) == Final(capacity, steps[..n]);
    } else {
      k := CountedSomewhere(capacity, steps[..n], call);
      assert StateAt(capacity, steps, k) == StateAt(capacity, steps[..n], k) && steps[..n][k] == steps[k];
    }
  }

  /**
  Each report is the number of calls that counted a drop after the report before it, and
  so it is zero exactly if no call did.
  */
  lemma {:induction false} ReportIsExact<E>(capacity: nat, steps: seq<Step<E>>, i: nat)
    requires IsRun(capacity, steps) && i < |Final(capacity, steps).reports|
    ensures Final(capacity, steps).reports[i] == |TakenBy(capacity, steps, i)|
    ensures Final(capacity, steps).reports[i] == 0 <==>
            forall k, call :: 0 <= k < |steps| && CountsAt(capacity, steps, k, call) ==>
              |StateAt(capacity, steps, k).reports| != i
  {
    var taken := TakenBy(capacity, steps, i);
    RunKeepsReports(capacity, steps);
    forall k, call | 0 <= k < |steps| && CountsAt(capacity, steps, k, call)
      ensures call in taken <==> |StateAt(capacity, steps, k).reports| == i
    {
      CountedOnce(capacity, steps, k, call);
    }
    if taken != {} {
      var call :| call in taken;
      var k := CountedSomewhere(capacity, steps, call);
    }
  }

  lemma {:induction false} ReportsBetween<E>(capacity: nat, steps: seq<Step<E>>, k: nat, j: nat)
    requires IsRun(capacity, steps) && k <= j <= |steps|
    ensures |StateAt(capacity, steps, k).reports| <= |StateAt(capacity, steps, j).reports|
    ensures |StateAt(capacity, steps, k).reports| == |StateAt(capacity, steps, j).reports| <==>
            forall m, call :: k <= m < j ==> !ReportsAt(capacity, steps, m, call)
  {
    if k < j {
      var n := |steps| - 1;
      ReportsBetween(capacity, steps[..n], k, if j <= n then j else n);
      assert forall m, call :: k <= m < n ==>
               ReportsAt(capacity, steps, m, call) == ReportsAt(capacity, steps[..n], m, call);
      if j > n {
        LastStepReports(capacity, steps);
      }
    }
  }

  lemma LastStepReports<E>(capacity: nat, steps: seq<Step<E>>)
    requires IsRun(capacity, steps) && steps != []
    ensures var n := |steps| - 1;
            |Final(capacity, steps).reports| ==
            |Final(capacity, steps[..n]).reports| + One(exists call :: ReportsAt(capacity, steps, n, call))
  {
    var n := |steps| - 1;
    assert StateAt(capacity, steps, n) == Final(capacity, steps[..n]);
    if steps[n].Act? {
      assert ReportsAt(capacity, steps, n, steps[n].call) <==>
             Final(capacity, steps[..n]).calls[steps[n].call].Winner?;
    }
  }

  /** A report takes its own caller's drop exactly if no report was made since that drop was counted. */
  lemma {:induction false} OwnDropIsReportedExactly<E>(capacity: nat, steps: seq<Step<E>>, k: nat, j: nat, call: nat)
    requires IsRun(capacity, steps) && k < j < |steps|
    requires CountsAt(capacity, steps, k, call) && ReportsAt(capacity, steps, j, call)
    ensures call in TakenBy(capacity, steps, |StateAt(capacity, steps, j).reports|) <==>
            forall m, other :: k <= m < j ==> !ReportsAt(capacity, steps, m, other)
  {
    CountedOnce(capacity, steps, k, call);
    ReportsBetween(capacity, steps, k, j);
  }

  // ------------------------------------------------------------------------
  // Main results: who gets in, who reports
  // ------------------------------------------------------------------------

  lemma {:induction false} StepAt<E>(capacity: nat, steps: seq<Step<E>>, k: nat)
    requires IsRun(capacity, steps) && k < |steps|
    ensures Enabled(StateAt(capacity, steps, k), steps[k])
    ensures StateAt(capacity, steps, k + 1) == Exec(capacity, StateAt(capacity, steps, k), steps[k])
  {
    var n := |steps| - 1;
    if k < n {
      StepAt(capacity, steps[..n], k);
    } else {
      assert StateAt(capacity, steps, n) == Final(capacity, steps[..n]);
    }
  }

  lemma {:induction false} InvAt<E>(capacity: nat, steps: seq<Step<E>>, k: nat)
    requires IsRun(capacity, steps) && k <= |steps|
    ensures Inv(capacity, StateAt(capacity, steps, k))
  {
    if k == |steps| {
      RunKeepsInv(capacity, steps);
    } else {
      InvAt(capacity, steps[..|steps| - 1], k);
    }
  }

  /** The k-th step is this call's attempt to send its event. */
  predicate TriesAt<E>(capacity: nat, steps: seq<Step<E>>, k: nat, call: nat)
    requires IsRun(capacity, steps) && k < |steps|
  {
    TakesOf(StateAt(capacity, steps, k), steps[k], call, Undecided)
  }

  /**
  An attempt to send puts the event at the end of the queue if and only if the queue held
  fewer events than its capacity; otherwise it held exactly that many, nothing is sent, and
  the call goes on to count its drop.
  */
  lemma {:induction false} SendIsExact<E>(capacity: nat, steps: seq<Step<E>>, k: nat, call: nat)
    requires IsRun(capacity, steps) && k < |steps| && TriesAt(capacity, steps, k, call)
    ensures var s, s' := StateAt(capacity, steps, k), StateAt(capacity, steps, k + 1);
            && call in s'.calls
            && (|s.queue| < capacity <==>
                  s'.sent == s.sent + [s.calls[call].event] && s'.queue == s.queue + [s.calls[call].event])
            && (|s.queue| < capacity <==> s'.calls[call].Sent?)
            && (|s.queue| == capacity <==> s'.sent == s.sent && s'.queue == s.queue && s'.calls[call].Full?)
            && |s.queue| <= capacity
  {
    StepAt(capacity, steps, k);
    InvAt(capacity, steps, k);
  }

  /**
  So an event is dropped, counted or about to be, only if its one attempt met a queue of
  exactly `capacity` events, and a call that returned without a drop met a shorter one and
  had its event sent.
  */
  lemma {:induction false} DroppedOnlyWhenFull<E>(capacity: nat, steps: seq<Step<E>>, call: nat) returns (k: nat)
    requires IsRun(capacity, steps) && call in Final(capacity, steps).calls
    requires StageOf(Final(capacity, steps).calls[call]) != Undecided
    ensures k < |steps| && TriesAt(capacity, steps, k, call)
    ensures var s, full := StateAt(capacity, steps, k), |StateAt(capacity, steps, k).queue| == capacity;
            && (full <==> StageOf(Final(capacity, steps).calls[call]) != Enqueued)
            && (!full ==> |s.queue| < capacity && s.sent + [s.calls[call].event] <= Final(capacity, steps).sent)
  {
    var n := |steps| - 1;
    var s := Final(capacity, steps[..n]);
    assert StateAt(capacity, steps, n) == s;
    if TakesOf(s, steps[n], call, Undecided) {
      k := n;
      SendIsExact(capacity, steps, n, call);
      assert StateAt(capacity, steps, n + 1) == Final(capacity, steps);
    } else {
      DecidedStays(capacity, s, steps[n], call);
      k := DroppedOnlyWhenFull(capacity, steps[..n], call);
      assert StateAt(capacity, steps, k) == StateAt(capacity, steps[..n], k) && steps[..n][k] == steps[k];
    }
  }

  lemma DecidedStays<E>(capacity: nat, s: State<E>, step: Step<E>, call: nat)
    requires Enabled(s, step) && call in Exec(capacity, s, step).calls && !TakesOf(s, step, call, Undecided)
    requires StageOf(Exec(capacity, s, step).calls[call]) != Undecided
    ensures call in s.calls && StageOf(s.calls[call]) != Undecided
    ensures StageOf(Exec(capacity, s, step).calls[call]) == Enqueued <==> StageOf(s.calls[call]) == Enqueued
    ensures s.sent <= Exec(capacity, s, step).sent
  {
  }

  /** The k-th step is this call's reading of the last report's time, after it read the clock. */
  predicate LoadsAt<E>(capacity: nat, steps: seq<Step<E>>, k: nat, call: nat)
    requires IsRun(capacity, steps) && k < |steps|
  {
    var s := StateAt(capacity, steps, k);
    steps[k].Act? && steps[k].call == call && call in s.calls && s.calls[call].Clocked?
  }

  /** The k-th step is this call's compare-and-swap of that time. */
  predicate SwapsAt<E>(capacity: nat, steps: seq<Step<E>>, k: nat, call: nat)
    requires IsRun(capacity, steps) && k < |steps|
  {
    var s := StateAt(capacity, steps, k);
    steps[k].Act? && steps[k].call == call && call in s.calls && s.calls[call].Racing?
  }

  /** What a call takes for the present is the clock at the one moment it reads it, after it counted its drop. */
  lemma {:induction false} ReadsTheClock<E>(capacity: nat, steps: seq<Step<E>>, k: nat)
    requires IsRun(capacity, steps) && k < |steps| && steps[k].Act?
    requires steps[k].call in StateAt(capacity, steps, k).calls
    ensures var s, s', call := StateAt(capacity, steps, k), StateAt(capacity, steps, k + 1), steps[k].call;
            && call in s'.calls
            && (s'.calls[call].Clocked? <==> s.calls[call].Counted?)
            && (s.calls[call].Counted? ==> s'.calls[call].now == steps[k].clock)
            && (s.calls[call].Full? <==> s'.calls[call].Counted?)
  {
    StepAt(capacity, steps, k);
  }

  /** A dropping call goes for the report exactly when ten seconds or more have passed since the last one won. */
  lemma {:induction false} LoadIsExact<E>(capacity: nat, steps: seq<Step<E>>, k: nat, call: nat)
    requires IsRun(capacity, steps) && k < |steps| && LoadsAt(capacity, steps, k, call)
    ensures var s, s' := StateAt(capacity, steps, k), StateAt(capacity, steps, k + 1);
            var now, last := s.calls[call].now, if s.wins == [] then 0 else s.wins[|s.wins| - 1];
            && call in s'.calls
            && (now - last >= 10 ==> s'.calls[call] == Racing(now, last))
            && (now - last < 10 ==> s'.calls[call] == Dropped)
            && s'.wins == s.wins && s'.reports == s.reports && s'.droppedCount == s.droppedCount
  {
    StepAt(capacity, steps, k);
    InvAt(capacity, steps, k);
  }

  /** Where a call that is at its compare-and-swap read the time it compares with. */
  lemma {:induction false} RacingSince<E>(capacity: nat, steps: seq<Step<E>>, call: nat) returns (k: nat)
    requires IsRun(capacity, steps)
    requires call in Final(capacity, steps).calls && Final(capacity, steps).calls[call].Racing?
    ensures k < |steps| && LoadsAt(capacity, steps, k, call)
    ensures StateAt(capacity, steps, k).lastDropLogTime == Final(capacity, steps).calls[call].last
    ensures StateAt(capacity, steps, k).calls[call].now == Final(capacity, steps).calls[call].now
  {
    var n := |steps| - 1;
    var s := Final(capacity, steps[..n]);
    assert StateAt(capacity, steps, n) == s;
    if call in s.calls && s.calls[call].Racing? {
      k := RacingSince(capacity, steps[..n], call);
      assert StateAt(capacity, steps, k) == StateAt(capacity, steps[..n], k) && steps[..n][k] == steps[k];
    } else {
      k := n;
    }
  }

  lemma {:induction false} WinsOnlyGrow<E>(capacity: nat, steps: seq<Step<E>>, k: nat)
    requires IsRun(capacity, steps) && k <= |steps|
    ensures StateAt(capacity, steps, k).wins <= Final(capacity, steps).wins
  {
    if k < |steps| {
      WinsOnlyGrow(capacity, steps[..|steps| - 1], k);
    }
  }

  lemma SameTimeSameWin(wins: seq<int>, later: seq<int>)
    requires Spaced(later) && wins <= later
    ensures Before(wins, |wins|) == Before(later, |later|) <==> wins == later
  {
    WinsSpread(later, |wins|, |later|);
    assert Before(later, |wins|) == Before(wins, |wins|);
    if |wins| == |later| {
      assert wins == later;
    }
  }

  /**
  A call wins the right to report exactly if no call won it since this one read the time:
  the compared value never comes back, so the compare-and-swap misses no win in between.
  */
  lemma {:induction false} WinsExactly<E>(capacity: nat, steps: seq<Step<E>>, call: nat) returns (k: nat)
    requires IsRun(capacity, steps) && steps != [] && SwapsAt(capacity, steps, |steps| - 1, call)
    ensures k < |steps| - 1 && LoadsAt(capacity, steps, k, call)
    ensures var s, s' := StateAt(capacity, steps, |steps| - 1), Final(capacity, steps);
            && call in s'.calls
            && (s'.calls[call] == Winner <==> StateAt(capacity, steps, k).wins == s.wins)
            && (s'.calls[call] == Winner <==> s'.wins == s.wins + [s.calls[call].now])
            && (s'.calls[call] == Dropped <==> s'.wins == s.wins)
  {
    var n := |steps| - 1;
    assert StateAt(capacity, steps, n) == Final(capacity, steps[..n]);
    k := RacingSince(capacity, steps[..n], call);
    assert StateAt(capacity, steps, k) == StateAt(capacity, steps[..n], k) && steps[..n][k] == steps[k];
    InvAt(capacity, steps, k);
    InvAt(capacity, steps, n);
    WinsOnlyGrow(capacity, steps[..n], k);
    SameTimeSameWin(StateAt(capacity, steps, k).wins, StateAt(capacity, steps, n).wins);
  }

  /** Operations a call still has to make, at most. */
  function Left<E>(pc: Pc<E>): nat {
    match pc
    case Trying(_) => 6
    case Full => 5
    case Counted => 4
    case Clocked(_) => 3
    case Racing(_, _) => 2
    case Winner => 1
    case _ => 0
  }

  /**
  A call never waits: in any state its next operation can be taken, brings it closer to
  returning, and moves no other call.
  */
  lemma SendersNeverBlock<E>(capacity: nat, s: State<E>, call: nat, clock: int)
    requires call in s.calls && !Returned(s.calls[call])
    ensures Enabled(s, Act(call, clock))
    ensures var s' := Advance(capacity, s, call, clock);
            && call in s'.calls
            && Left(s'.calls[call]) < Left(s.calls[call])
            && s'.calls == s.calls[call := s'.calls[call]]
  {
  }

  lemma Extend<E>(capacity: nat, steps: seq<Step<E>>, step: Step<E>)
    requires IsRun(capacity, steps) && Enabled(Final(capacity, steps), step)
    ensures IsRun(capacity, steps + [step])
    ensures Final(capacity, steps + [step]) == Exec(capacity, Final(capacity, steps), step)
  {
  }

  /** One call taken as far as the count of its dropped event. */
  lemma DropRuns<E>(capacity: nat, steps: seq<Step<E>>, call: nat, event: E) returns (longer: seq<Step<E>>)
    requires IsRun(capacity, steps) && call !in Final(capacity, steps).calls
               && |Final(capacity, steps).queue| >= capacity
    ensures steps <= longer && IsRun(capacity, longer)
    ensures var s := Final(capacity, steps);
            Final(capacity, longer) == s.(droppedCount := s.droppedCount + 1, calls := s.calls[call := Counted])
  {
    var s := Final(capacity, steps);
    Extend(capacity, steps, Begin(call, event));
    var s1 := steps + [Begin(call, event)];
    Extend(capacity, s1, Act(call, 0));
    var s2 := s1 + [Act(call, 0)];
    Extend(capacity, s2, Act(call, 0));
    longer := s2 + [Act(call, 0)];
    assert s.calls[call := Trying(event)][call := Full][call := Counted] == s.calls[call := Counted];
  }

  /** The same call taken on until it has won the right to report. */
  lemma WinRuns<E>(capacity: nat, steps: seq<Step<E>>, call: nat, now: int) returns (longer: seq<Step<E>>)
    requires IsRun(capacity, steps) && call in Final(capacity, steps).calls
               && Final(capacity, steps).calls[call].Counted?
    requires now - Final(capacity, steps).lastDropLogTime >= DROP_LOG_INTERVAL
    ensures steps <= longer && IsRun(capacity, longer)
    ensures var s := Final(capacity, steps);
            Final(capacity, longer) ==
              s.(lastDropLogTime := now, wins := s.wins + [now], calls := s.calls[call := Winner])
  {
    var s := Final(capacity, steps);
    Extend(capacity, steps, Act(call, now));
    var s1 := steps + [Act(call, now)];
    Extend(capacity, s1, Act(call, now));
    var s2 := s1 + [Act(call, now)];
    Extend(capacity, s2, Act(call, now));
    longer := s2 + [Act(call, now)];
    assert s.calls[call := Clocked(now)][call := Racing(now, s.lastDropLogTime)][call := Winner] ==
             s.calls[call := Winner];
  }

  /**
  A report can be empty, though its own caller dropped an event: from any reachable state
  with a full queue, a winner held up before its swap is overtaken by the next interval's
  winner, which takes both counts.
  */
  lemma ReportCanBeEmpty<E>(capacity: nat, steps: seq<Step<E>>, event: E, a: nat, b: nat) returns (longer: seq<Step<E>>)
    requires IsRun(capacity, steps) && |Final(capacity, steps).queue| >= capacity
    requires a != b && a !in Final(capacity, steps).calls && b !in Final(capacity, steps).calls
    ensures steps <= longer && IsRun(capacity, longer)
    ensures var s := Final(capacity, steps);
            Final(capacity, longer).reports == s.reports + [s.droppedCount + 2, 0]
  {
    var s := Final(capacity, steps);
    var t := s.lastDropLogTime + DROP_LOG_INTERVAL;
    var s1 := DropRuns(capacity, steps, a, event);
    var s2 := WinRuns(capacity, s1, a, t);
    var s3 := DropRuns(capacity, s2, b, event);
    var s4 := WinRuns(capacity, s3, b, t + DROP_LOG_INTERVAL);
    longer := BothSwap(capacity, s4, a, b);
  }

  lemma BothSwap<E>(capacity: nat, steps: seq<Step<E>>, a: nat, b: nat) returns (longer: seq<Step<E>>)
    requires IsRun(capacity, steps) && a != b && a in Final(capacity, steps).calls && b in Final(capacity, steps).calls
    requires Final(capacity, steps).calls[a].Winner? && Final(capacity, steps).calls[b].Winner?
    ensures steps <= longer && IsRun(capacity, longer)
    ensures Final(capacity, longer).reports == Final(capacity, steps).reports + [Final(capacity, steps).droppedCount, 0]
  {
    Extend(capacity, steps, Act(b, 0));
    var s1 := steps + [Act(b, 0)];
    Extend(capacity, s1, Act(a, 0));
    longer := s1 + [Act(a, 0)];
  }
}
