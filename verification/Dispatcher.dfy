/**
The indexer's dispatcher: a bounded FIFO of work items and one worker that retries
each item until it is saved, backing off while the cluster asks it to.
*/
module Dispatcher {
  import opened Prelude

  const SECOND := 1_000_000_000
  const BACK_OFF := 10 * SECOND
  const MAX_BACK_OFF := 300 * SECOND
  const ERROR_RETRY := 3 * SECOND

  /** What one call of a work item's Save reports. */
  datatype Outcome = Saved | BackedOff | Failed

  function Increased(backOff: int): int {
    if backOff == 0 then BACK_OFF
    else if backOff >= MAX_BACK_OFF then backOff
    else backOff + backOff / 5
  }

  /** The back-off after `k` requests in a row to back off. */
  function BackOffAfter(k: nat): int {
    if k == 0 then 0 else Increased(BackOffAfter(k - 1))
  }

  // ------------------------------------------------------------------------
  // The back-off schedule
  // ------------------------------------------------------------------------

  lemma {:induction false} BackOffBounds(k: nat)
    ensures k > 0 ==> BACK_OFF <= BackOffAfter(k) < 360 * SECOND
    ensures BackOffAfter(k) <= BackOffAfter(k + 1)
  {
    if k > 0 {
      BackOffBounds(k - 1);
    }
  }

  lemma {:induction false} BackOffMonotone(j: nat, k: nat)
    requires j <= k
    ensures BackOffAfter(j) <= BackOffAfter(k)
    decreases k
  {
    if j < k {
      BackOffMonotone(j, k - 1);
      BackOffBounds(k - 1);
    }
  }

  lemma FirstTenSteps()
    ensures BackOffAfter(10) == 51_597_803_520
  {
    assert BackOffAfter(2) == 12_000_000_000;
    assert BackOffAfter(4) == 17_280_000_000;
    assert BackOffAfter(6) == 24_883_200_000;
    assert BackOffAfter(8) == 35_831_808_000;
  }

  lemma NextTenSteps()
    ensures BackOffAfter(19) == 266_233_332_801
    ensures BackOffAfter(20) == 319_479_999_361
  {
    FirstTenSteps();
    assert BackOffAfter(12) == 74_300_837_068;
    assert BackOffAfter(14) == 106_993_205_377;
    assert BackOffAfter(16) == 154_070_215_742;
    assert BackOffAfter(18) == 221_861_110_668;
  }

  /** The value the back-off settles at, a little under 320 seconds. */
  const SETTLED := 319_479_999_361

  lemma {:induction false} BackOffIsSettled(k: nat)
    requires k >= 20
    ensures BackOffAfter(k) == SETTLED
  {
    if k == 20 {
      NextTenSteps();
    } else {
      BackOffIsSettled(k - 1);
    }
  }

  /** The back-off stops growing at the twentieth request in a row, and not before. */
  lemma {:induction false} BackOffSettles(k: nat)
    ensures BackOffAfter(k) >= MAX_BACK_OFF <==> k >= 20
    ensures k >= 20 ==> BackOffAfter(k) == SETTLED
  {
    if k >= 20 {
      BackOffIsSettled(k);
    } else {
      BackOffMonotone(k, 19);
      NextTenSteps();
    }
  }

  // ------------------------------------------------------------------------
  // Retrying one item
  // ------------------------------------------------------------------------

  /** How many requests to back off end this series of outcomes. */
  function Trailing(outcomes: seq<Outcome>): nat {
    if outcomes == [] || !outcomes[|outcomes| - 1].BackedOff? then 0
    else 1 + Trailing(outcomes[..|outcomes| - 1])
  }

  /** The back-off, and the sleep, that follow these outcomes of one item. */
  function BackOffOf(outcomes: seq<Outcome>): int { BackOffAfter(Trailing(outcomes)) }

  function SleepOf(outcomes: seq<Outcome>): int
    requires outcomes != []
  {
    if outcomes[|outcomes| - 1].BackedOff? then BackOffOf(outcomes) else ERROR_RETRY
  }

  lemma TrailingStep(outcomes: seq<Outcome>, o: Outcome)
    ensures Trailing(outcomes + [o]) == if o.BackedOff? then Trailing(outcomes) + 1 else 0
  {
  }

  /**
  The sleeps a series of outcomes calls for, in nanoseconds: three seconds after an
  ordinary failure; ten after the first of a row of requests to back off, and after each
  further one a fifth more than before, until that is three hundred or more.
  */
  ghost predicate ScheduledAt(outcomes: seq<Outcome>, sleeps: seq<int>, i: nat)
    requires i < |sleeps| <= |outcomes|
  {
    && (outcomes[i].Failed? ==> sleeps[i] == 3_000_000_000)
    && (outcomes[i].BackedOff? && (i == 0 || !outcomes[i - 1].BackedOff?) ==> sleeps[i] == 10_000_000_000)
    && (outcomes[i].BackedOff? && i > 0 && outcomes[i - 1].BackedOff? ==>
          sleeps[i] == sleeps[i - 1] + if sleeps[i - 1] < 300_000_000_000 then sleeps[i - 1] / 5 else 0)
  }

  ghost predicate Scheduled(outcomes: seq<Outcome>, sleeps: seq<int>) {
    |sleeps| <= |outcomes| && forall i :: 0 <= i < |sleeps| ==> ScheduledAt(outcomes, sleeps, i)
  }

  /** The sleep after one more outcome, in terms of the sleep before it. */
  lemma NextSleep(outcomes: seq<Outcome>, o: Outcome)
    ensures !o.BackedOff? ==> SleepOf(outcomes + [o]) == 3_000_000_000
    ensures o.BackedOff? && (outcomes == [] || !outcomes[|outcomes| - 1].BackedOff?) ==>
              SleepOf(outcomes + [o]) == 10_000_000_000
    ensures o.BackedOff? && outcomes != [] && outcomes[|outcomes| - 1].BackedOff? ==>
              var before := SleepOf(outcomes);
              SleepOf(outcomes + [o]) == before + if before < 300_000_000_000 then before / 5 else 0
  {
    TrailingStep(outcomes, o);
    BackOffBounds(Trailing(outcomes));
  }

  lemma SleepsAreScheduled(outcomes: seq<Outcome>, sleeps: seq<int>)
    requires |sleeps| <= |outcomes|
    requires forall i :: 0 <= i < |sleeps| ==> sleeps[i] == SleepOf(outcomes[..i + 1])
    ensures Scheduled(outcomes, sleeps)
  {
    forall i | 0 <= i < |sleeps|
      ensures ScheduledAt(outcomes, sleeps, i)
    {
      assert outcomes[..i + 1] == outcomes[..i] + [outcomes[i]];
      NextSleep(outcomes[..i], outcomes[i]);
    }
  }

  class DataDispatcher<T> {
    const capacity: nat
    var backOffTime: int
    var chanWorkItems: seq<T>

    constructor (cacheSize: nat)
      ensures capacity == cacheSize && backOffTime == 0 && chanWorkItems == []
    {
      capacity, backOffTime, chanWorkItems := cacheSize, 0, [];
    }

    method IncreaseBackOffTime()
      modifies this`backOffTime
      ensures backOffTime == Increased(old(backOffTime))
    {
      if backOffTime == 0 {
        backOffTime := BACK_OFF;
        return;
      }
      if backOffTime >= MAX_BACK_OFF {
        return;
      }
      backOffTime := backOffTime + backOffTime / 5;
    }

    /**
    Retries one item. `saves` is what its Save has to answer, call by call: either one of
    the answers is the first success and ends the loop, or all of them are used up and
    the loop is still going.
    */
    method DoWork(saves: seq<Outcome>) returns (done: bool, sleeps: seq<int>)
      requires backOffTime == 0
      modifies this`backOffTime
      ensures done <==> Saved in saves
      ensures done ==> |sleeps| < |saves| && saves[|sleeps|].Saved? && backOffTime == 0
      ensures !done ==> |sleeps| == |saves| && backOffTime == BackOffOf(saves)
      ensures Saved !in saves[..|sleeps|]
      ensures forall i :: 0 <= i < |sleeps| ==> sleeps[i] == SleepOf(saves[..i + 1])
      ensures Scheduled(saves, sleeps)
    {
      done, sleeps := false, [];
      while |sleeps| < |saves|
        invariant |sleeps| <= |saves| && Saved !in saves[..|sleeps|]
        invariant backOffTime == BackOffOf(saves[..|sleeps|])
        invariant forall i :: 0 <= i < |sleeps| ==> sleeps[i] == SleepOf(saves[..i + 1])
        decreases |saves| - |sleeps|
      {
        var err := saves[|sleeps|];
        assert saves[..|sleeps| + 1] == saves[..|sleeps|] + [err];
        TrailingStep(saves[..|sleeps|], err);
        if err.BackedOff? {
          IncreaseBackOffTime();
          sleeps := sleeps + [backOffTime];
          continue;
        }
        backOffTime := 0;
        if !err.Saved? {
          sleeps := sleeps + [ERROR_RETRY];
          continue;
        }
        done := true;
        SleepsAreScheduled(saves, sleeps);
        return;
      }
      assert saves[..|sleeps|] == saves;
      SleepsAreScheduled(saves, sleeps);
    }
  }

  /**
  Every sleep between two attempts is three seconds after an ordinary failure, and
  after a request to back off at least ten seconds, under six minutes, and never
  shorter than the one before it in the same row of requests.
  */
  lemma SleepBounds(outcomes: seq<Outcome>, o: Outcome)
    ensures !o.BackedOff? ==> SleepOf(outcomes + [o]) == ERROR_RETRY
    ensures o.BackedOff? ==> BACK_OFF <= SleepOf(outcomes + [o]) < 360 * SECOND
    ensures o.BackedOff? && outcomes != [] && outcomes[|outcomes| - 1].BackedOff? ==>
              SleepOf(outcomes) <= SleepOf(outcomes + [o])
  {
    TrailingStep(outcomes, o);
    BackOffBounds(Trailing(outcomes));
    BackOffBounds(Trailing(outcomes) + 1);
  }

  // ------------------------------------------------------------------------
  // Runs of the dispatcher
  // ------------------------------------------------------------------------

  /** An item on its way, with the number of items added before it. */
  datatype Numbered<T> = Numbered(number: nat, item: T)

  /** One attempt: the item the worker holds, and how it ended. */
  datatype Attempt<T> = Attempt(work: Numbered<T>, outcome: Outcome)

  /** `added`, `done` and `log` record the past. */
  datatype State<T> = State(
    added: seq<T>, done: seq<Numbered<T>>, log: seq<Attempt<T>>,
    queue: seq<Numbered<T>>, current: Option<Numbered<T>>, backOff: int, stopped: bool)

  datatype Step<T> = Add(item: T) | Take | Save(outcome: Outcome) | Stop

  function Init<T>(): State<T> { State([], [], [], [], None, 0, false) }

  /** An unbuffered channel hands the item straight to a waiting worker. */
  predicate Enabled<T>(capacity: nat, s: State<T>, step: Step<T>) {
    match step
    case Add(_) => |s.queue| < capacity || (capacity == 0 && s.current.None? && !s.stopped)
    case Take => s.current.None? && !s.stopped && s.queue != []
    case Save(_) => s.current.Some?
    case Stop => s.current.None? && !s.stopped
  }

  function Exec<T>(capacity: nat, s: State<T>, step: Step<T>): State<T>
    requires Enabled(capacity, s, step)
  {
    match step
    case Add(item) =>
      var work := Numbered(|s.added|, item);
      if capacity == 0 then s.(added := s.added + [item], current := Some(work))
      else s.(added := s.added + [item], queue := s.queue + [work])
    case Take =>
      s.(current := Some(s.queue[0]), queue := s.queue[1..])
    case Save(outcome) =>
      var s' := s.(log := s.log + [Attempt(s.current.value, outcome)]);
      (match outcome
       case BackedOff => s'.(backOff := Increased(s.backOff))
       case Failed => s'.(backOff := 0)
       case Saved => s'.(backOff := 0, done := s.done + [s.current.value], current := None))
    case Stop =>
      s.(stopped := true)
  }

  predicate IsRun<T>(capacity: nat, steps: seq<Step<T>>)
    decreases |steps|, 0
  {
    steps == [] ||
    (IsRun(capacity, steps[..|steps| - 1])
      && Enabled(capacity, Final(capacity, steps[..|steps| - 1]), steps[|steps| - 1]))
  }

  function Final<T>(capacity: nat, steps: seq<Step<T>>): State<T>
    requires IsRun(capacity, steps)
    decreases |steps|, 1
  {
    if steps == [] then Init()
    else Exec(capacity, Final(capacity, steps[..|steps| - 1]), steps[|steps| - 1])
  }

  function InHand<T>(current: Option<T>): seq<T> {
    if current.Some? then [current.value] else []
  }

  /** Everything added, in the order of Add: completed, in the worker's hands, and queued. */
  function Flight<T>(s: State<T>): seq<Numbered<T>> {
    s.done + InHand(s.current) + s.queue
  }

  ghost predicate InAddOrder<T>(added: seq<T>, flight: seq<Numbered<T>>) {
    |flight| == |added| && forall i :: 0 <= i < |added| ==> flight[i] == Numbered(i, added[i])
  }

  /** The numbers of the items whose attempt succeeded, in the order of the log. */
  function SavedItems<T>(log: seq<Attempt<T>>): seq<nat> {
    if log == [] then []
    else
      var last := log[|log| - 1];
      SavedItems(log[..|log| - 1]) + if last.outcome.Saved? then [last.work.number] else []
  }

  /** How many requests to back off end the log. */
  function TrailingOf<T>(log: seq<Attempt<T>>): nat {
    if log == [] || !log[|log| - 1].outcome.BackedOff? then 0
    else 1 + TrailingOf(log[..|log| - 1])
  }

  ghost predicate InOrder<T>(log: seq<Attempt<T>>) {
    forall i, j :: 0 <= i < j < |log| ==>
      && log[i].work.number <= log[j].work.number
      && (log[i].work.number == log[j].work.number ==> !log[i].outcome.Saved?)
  }

  /** Items 0 to n-1 were saved, once each and in order. */
  ghost predicate SavedOnce<T>(log: seq<Attempt<T>>, n: nat) {
    |SavedItems(log)| == n && forall i :: 0 <= i < n ==> SavedItems(log)[i] == i
  }

  ghost predicate LogInv<T>(log: seq<Attempt<T>>, n: nat, busy: bool) {
    && InOrder(log)
    && (forall i :: 0 <= i < |log| ==>
          log[i].work.number < n || (log[i].work.number == n && busy && !log[i].outcome.Saved?))
    && SavedOnce(log, n)
  }

  /** Every attempt was of the item added under its number. */
  ghost predicate Genuine<T>(added: seq<T>, log: seq<Attempt<T>>) {
    forall i :: 0 <= i < |log| ==> log[i].work.number < |added| && log[i].work.item == added[log[i].work.number]
  }

  ghost predicate WorkInv<T>(s: State<T>) {
    && InAddOrder(s.added, Flight(s))
    && Genuine(s.added, s.log)
    && LogInv(s.log, |s.done|, s.current.Some?)
  }

  ghost predicate BackOffInv<T>(s: State<T>) {
    && s.backOff == BackOffAfter(TrailingOf(s.log))
    && (s.current.None? ==> s.backOff == 0)
  }

  ghost predicate Inv<T>(capacity: nat, s: State<T>) {
    WorkInv(s) && |s.queue| <= capacity && BackOffInv(s)
  }

  lemma LogStep<T>(log: seq<Attempt<T>>, a: Attempt<T>)
    ensures SavedItems(log + [a]) == SavedItems(log) + if a.outcome.Saved? then [a.work.number] else []
    ensures TrailingOf(log + [a]) == if a.outcome.BackedOff? then TrailingOf(log) + 1 else 0
  {
  }

  lemma QueueStepFlight<T>(capacity: nat, s: State<T>, step: Step<T>)
    requires |s.queue| <= capacity && Enabled(capacity, s, step) && !step.Save?
    ensures Flight(Exec(capacity, s, step)) ==
            Flight(s) + if step.Add? then [Numbered(|s.added|, step.item)] else []
  {
  }

  lemma AddKeepsOrder<T>(added: seq<T>, flight: seq<Numbered<T>>, log: seq<Attempt<T>>, item: T)
    requires InAddOrder(added, flight) && Genuine(added, log)
    ensures InAddOrder(added + [item], flight + [Numbered(|added|, item)]) && Genuine(added + [item], log)
  {
  }

  lemma BusyKeepsLog<T>(log: seq<Attempt<T>>, n: nat, busy: bool)
    requires LogInv(log, n, busy)
    ensures LogInv(log, n, true)
  {
  }

  lemma QueueStepKeepsWork<T>(capacity: nat, s: State<T>, step: Step<T>)
    requires WorkInv(s) && |s.queue| <= capacity && Enabled(capacity, s, step) && !step.Save?
    ensures WorkInv(Exec(capacity, s, step))
  {
    QueueStepFlight(capacity, s, step);
    BusyKeepsLog(s.log, |s.done|, s.current.Some?);
    if step.Add? {
      AddKeepsOrder(s.added, Flight(s), s.log, step.item);
    }
  }

  lemma QueueStepKeepsInv<T>(capacity: nat, s: State<T>, step: Step<T>)
    requires Inv(capacity, s) && Enabled(capacity, s, step) && !step.Save?
    ensures Inv(capacity, Exec(capacity, s, step))
  {
    QueueStepKeepsWork(capacity, s, step);
  }

  lemma CurrentIsNext<T>(s: State<T>)
    requires InAddOrder(s.added, Flight(s)) && s.current.Some?
    ensures s.current.value.number == |s.done| < |s.added| && s.current.value.item == s.added[|s.done|]
  {
    assert Flight(s)[|s.done|] == s.current.value;
  }

  lemma SaveKeepsFlight<T>(capacity: nat, s: State<T>, outcome: Outcome)
    requires Enabled(capacity, s, Save(outcome))
    ensures Flight(Exec(capacity, s, Save(outcome))) == Flight(s)
  {
  }

  lemma AttemptIsGenuine<T>(added: seq<T>, log: seq<Attempt<T>>, a: Attempt<T>)
    requires Genuine(added, log) && a.work.number < |added| && a.work.item == added[a.work.number]
    ensures Genuine(added, log + [a])
  {
  }

  lemma SaveKeepsWork<T>(capacity: nat, s: State<T>, outcome: Outcome)
    requires WorkInv(s) && Enabled(capacity, s, Save(outcome))
    ensures WorkInv(Exec(capacity, s, Save(outcome)))
  {
    CurrentIsNext(s);
    SaveKeepsFlight(capacity, s, outcome);
    AttemptIsGenuine(s.added, s.log, Attempt(s.current.value, outcome));
    LogInvStep(s.log, s.current.value, outcome);
  }

  lemma SaveKeepsInv<T>(capacity: nat, s: State<T>, outcome: Outcome)
    requires Inv(capacity, s) && Enabled(capacity, s, Save(outcome))
    ensures Inv(capacity, Exec(capacity, s, Save(outcome)))
  {
    SaveKeepsWork(capacity, s, outcome);
    LogStep(s.log, Attempt(s.current.value, outcome));
  }

  lemma LogInvStep<T>(log: seq<Attempt<T>>, work: Numbered<T>, outcome: Outcome)
    requires LogInv(log, work.number, true)
    ensures LogInv(log + [Attempt(work, outcome)], work.number + if outcome.Saved? then 1 else 0, !outcome.Saved?)
  {
  }

  lemma StepKeepsInv<T>(capacity: nat, s: State<T>, step: Step<T>)
    requires Inv(capacity, s) && Enabled(capacity, s, step)
    ensures Inv(capacity, Exec(capacity, s, step))
  {
    if step.Save? {
      SaveKeepsInv(capacity, s, step.outcome);
    } else {
      QueueStepKeepsInv(capacity, s, step);
    }
  }

  lemma {:induction false} RunKeepsInv<T>(capacity: nat, steps: seq<Step<T>>)
    requires IsRun(capacity, steps)
    ensures Inv(capacity, Final(capacity, steps))
  {
    if steps != [] {
      var before := steps[..|steps| - 1];
      RunKeepsInv(capacity, before);
      StepKeepsInv(capacity, Final(capacity, before), steps[|steps| - 1]);
    }
  }

  /**
  What is completed, in the worker's hands and queued is, in this order, exactly what was
  added: the completed items are a prefix, and nothing is lost, duplicated or reordered.
  */
  lemma {:induction false} CompletedIsPrefix<T>(capacity: nat, steps: seq<Step<T>>)
    requires IsRun(capacity, steps)
    ensures var s := Final(capacity, steps);
            && InAddOrder(s.added, s.done + InHand(s.current) + s.queue)
            && (forall i :: 0 <= i < |s.done| ==> i < |s.added| && s.done[i].item == s.added[i])
            && |s.queue| <= capacity
  {
    RunKeepsInv(capacity, steps);
    var s := Final(capacity, steps);
    assert forall i :: 0 <= i < |s.done| ==> s.done[i] == Flight(s)[i];
  }

  /**
  Attempts come item by item: the one numbered n is an attempt of the n-th item added,
  between two attempts of one item no other is attempted, an item is never attempted
  again once saved, and the completed items were saved once each, in the order of Add.
  */
  lemma {:induction false} AttemptsAreGrouped<T>(capacity: nat, steps: seq<Step<T>>, i: nat, j: nat, k: nat)
    requires IsRun(capacity, steps)
    requires i <= j <= k < |Final(capacity, steps).log|
    ensures var s := Final(capacity, steps);
            && s.log[j].work.number < |s.added| && s.log[j].work.item == s.added[s.log[j].work.number]
            && (s.log[i].work.number == s.log[k].work.number ==> s.log[j].work == s.log[i].work)
            && (s.log[i].outcome.Saved? && i < k ==> s.log[i].work.number < s.log[k].work.number)
            && SavedOnce(s.log, |s.done|)
  {
    RunKeepsInv(capacity, steps);
    OrderGroups(Final(capacity, steps).log, i, j, k);
  }

  lemma OrderGroups<T>(log: seq<Attempt<T>>, i: nat, j: nat, k: nat)
    requires InOrder(log) && i <= j <= k < |log|
    ensures log[i].work.number == log[k].work.number ==> log[j].work.number == log[i].work.number
    ensures log[i].outcome.Saved? && i < k ==> log[i].work.number < log[k].work.number
  {
  }

  /**
  In every run an item can be added exactly while fewer than `capacity` added ones are
  neither completed nor in the worker's hands; without a buffer, exactly while the worker
  waits for one.
  */
  lemma {:induction false} AddHasRoomExactly<T>(capacity: nat, steps: seq<Step<T>>, item: T)
    requires IsRun(capacity, steps)
    ensures var s := Final(capacity, steps);
            IsRun(capacity, steps + [Add(item)]) <==>
              || |s.added| - |s.done| - |InHand(s.current)| < capacity
              || (capacity == 0 && s.current.None? && !s.stopped)
  {
    RunKeepsInv(capacity, steps);
    assert (steps + [Add(item)])[..|steps|] == steps;
  }

  lemma Extend<T>(capacity: nat, steps: seq<Step<T>>, step: Step<T>)
    requires IsRun(capacity, steps) && Enabled(capacity, Final(capacity, steps), step)
    ensures IsRun(capacity, steps + [step])
    ensures Final(capacity, steps + [step]) == Exec(capacity, Final(capacity, steps), step)
  {
    assert (steps + [step])[..|steps|] == steps;
  }

  /** Unless the worker was stopped, every run has a continuation, with nothing added, that completes every item. */
  lemma {:induction false} EveryRunCanComplete<T>(capacity: nat, steps: seq<Step<T>>) returns (longer: seq<Step<T>>)
    requires IsRun(capacity, steps) && !Final(capacity, steps).stopped
    ensures steps <= longer && IsRun(capacity, longer)
    ensures var s, s' := Final(capacity, steps), Final(capacity, longer);
            && s'.added == s.added && |s'.done| == |s.added|
            && forall i :: 0 <= i < |s.added| ==> s'.done[i].item == s.added[i]
    decreases |Final(capacity, steps).added| - |Final(capacity, steps).done|, |Final(capacity, steps).queue|
  {
    var s := Final(capacity, steps);
    RunKeepsInv(capacity, steps);
    if s.current.Some? {
      Extend(capacity, steps, Save(Saved));
      longer := EveryRunCanComplete(capacity, steps + [Save(Saved)]);
    } else if s.queue != [] {
      Extend(capacity, steps, Take);
      longer := EveryRunCanComplete(capacity, steps + [Take]);
    } else {
      longer := steps;
      CompletedIsPrefix(capacity, steps);
    }
  }

  /**
  The worker is stopped exactly once it was told to, which happens between items; from
  there on nothing is taken off the queue, attempted or completed.
  */
  lemma {:induction false} StopIsFinal<T>(capacity: nat, steps: seq<Step<T>>, step: Step<T>)
    requires IsRun(capacity, steps)
    ensures var s := Final(capacity, steps);
            && (s.stopped <==> Stop in steps)
            && (s.stopped ==> s.current.None?)
            && (s.stopped && Enabled(capacity, s, step) ==>
                  step.Add? && Exec(capacity, s, step).done == s.done && Exec(capacity, s, step).log == s.log)
  {
    if steps != [] {
      var n := |steps| - 1;
      StopIsFinal(capacity, steps[..n], steps[n]);
      assert steps == steps[..n] + [steps[n]];
    }
  }

  /**
  Between items the back-off is zero; otherwise it is zero after an ordinary failure
  and within ten seconds and six minutes while the cluster keeps asking.
  */
  lemma {:induction false} BackOffInRuns<T>(capacity: nat, steps: seq<Step<T>>)
    requires IsRun(capacity, steps)
    ensures var s := Final(capacity, steps);
            && (s.current.None? ==> s.backOff == 0)
            && (s.backOff == 0 <==> TrailingOf(s.log) == 0)
            && (s.backOff != 0 ==> BACK_OFF <= s.backOff < 360 * SECOND)
            && (s.backOff >= MAX_BACK_OFF <==> TrailingOf(s.log) >= 20)
            && (TrailingOf(s.log) >= 20 ==> s.backOff == SETTLED)
  {
    RunKeepsInv(capacity, steps);
    BackOffBounds(TrailingOf(Final(capacity, steps).log));
    BackOffSettles(TrailingOf(Final(capacity, steps).log));
  }
}
