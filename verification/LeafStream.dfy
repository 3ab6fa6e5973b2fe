/**
The channels that stream trie leaves from a producer goroutine to one consumer: a
leaves channel of any buffer size, a done channel, and the error of a walk cut short.
*/
module LeafStream {
  import opened Prelude

  datatype StreamError = NilChannels | IterationFailed(code: int) | CallbackFailed(code: int)

  type MaybeError = Option<StreamError>

  /** The callback as the consumer meets it: its answer may depend on how often it was called before. */
  type Callback<!Leaf> = (nat, Leaf) -> MaybeError

  // ------------------------------------------------------------------------
  // What ForEach is for
  // ------------------------------------------------------------------------

  /** How many of the leaves are handed to the callback: up to and including the first it rejects. */
  function Visited<Leaf>(f: Callback<Leaf>, leaves: seq<Leaf>): (n: nat)
    ensures n <= |leaves|
  {
    if leaves == [] then 0
    else
      var n := Visited(f, leaves[..|leaves| - 1]);
      if FirstError(f, leaves[..|leaves| - 1]).Some? then n else |leaves|
  }

  /** The first error the callback raises on these leaves. */
  function FirstError<Leaf>(f: Callback<Leaf>, leaves: seq<Leaf>): MaybeError {
    if leaves == [] then None
    else
      var err := FirstError(f, leaves[..|leaves| - 1]);
      if err.Some? then err else f(|leaves| - 1, leaves[|leaves| - 1])
  }

  /** The callback's first error, or else the error that ended the walk. */
  function Verdict<Leaf>(f: Callback<Leaf>, leaves: seq<Leaf>, closeErr: MaybeError): MaybeError {
    if FirstError(f, leaves).Some? then FirstError(f, leaves) else closeErr
  }

  lemma VisitStep<Leaf>(f: Callback<Leaf>, leaves: seq<Leaf>, leaf: Leaf)
    ensures FirstError(f, leaves + [leaf]) == if FirstError(f, leaves).Some? then FirstError(f, leaves)
              else f(|leaves|, leaf)
    ensures Visited(f, leaves + [leaf]) == if FirstError(f, leaves).Some? then Visited(f, leaves) else |leaves| + 1
  {
  }

  /** What the two functions mean, without the recursion: only the last visited leaf can be a rejected one. */
  lemma {:induction false} VisitedMeaning<Leaf>(f: Callback<Leaf>, leaves: seq<Leaf>)
    ensures var n := Visited(f, leaves);
            && (forall i :: 0 <= i < n - 1 ==> f(i, leaves[i]).None?)
            && (FirstError(f, leaves).None? ==> n == |leaves| && forall i :: 0 <= i < n ==> f(i, leaves[i]).None?)
            && (FirstError(f, leaves).Some? ==> n > 0 && f(n - 1, leaves[n - 1]) == FirstError(f, leaves))
  {
    if leaves != [] {
      VisitedMeaning(f, leaves[..|leaves| - 1]);
    }
  }

  /** The first leaf the callback rejects decides, whatever error ended the walk; without one that error does. */
  lemma {:induction false} VerdictMeaning<Leaf>(f: Callback<Leaf>, leaves: seq<Leaf>, closeErr: MaybeError, i: nat)
    requires i <= |leaves| && forall j :: 0 <= j < i ==> f(j, leaves[j]).None?
    ensures i == |leaves| ==> Verdict(f, leaves, closeErr) == closeErr && Visited(f, leaves) == |leaves|
    ensures i < |leaves| && f(i, leaves[i]).Some? ==>
              Verdict(f, leaves, closeErr) == f(i, leaves[i]) && Visited(f, leaves) == i + 1
  {
    VisitedMeaning(f, leaves);
    if i < |leaves| && f(i, leaves[i]).Some? {
      var n := Visited(f, leaves);
      assert i <= n - 1;
      assert n - 1 <= i;
    }
  }

  // ------------------------------------------------------------------------
  // The channels, used from one goroutine
  // ------------------------------------------------------------------------

  class TrieIteratorChannels<Leaf> {
    const capacity: nat
    var leavesChan: seq<Leaf>
    var closed: bool
    var done: bool
    var err: MaybeError

    constructor (leavesBufferSize: nat)
      ensures capacity == leavesBufferSize && leavesChan == []
      ensures !closed && !done && err == None
    {
      capacity, leavesChan, closed, done, err := leavesBufferSize, [], false, false, None;
    }

    /** A channel already holding every leaf. No send blocks, since there is no consumer to wait for. */
    constructor Closed(closeErr: MaybeError, leaves: seq<Leaf>)
      ensures capacity == |leaves| && leavesChan == leaves
      ensures closed && done && err == closeErr
    {
      capacity, leavesChan, closed, done, err := |leaves|, [], false, false, None;
      new;
      for i := 0 to |leaves|
        invariant leavesChan == leaves[..i] && !closed && !done
      {
        Send(leaves[i]);
      }
      Close(closeErr);
    }

    /** A send with room to spare: one that does not block and does not panic. */
    method Send(leaf: Leaf)
      requires |leavesChan| < capacity && !closed
      modifies this`leavesChan
      ensures leavesChan == old(leavesChan) + [leaf]
    {
      leavesChan := leavesChan + [leaf];
    }

    /** Closing a closed channel panics. */
    method Close(closeErr: MaybeError)
      requires !closed && !done
      modifies this`err, this`closed, this`done
      ensures closed && done && err == closeErr
    {
      err := closeErr;
      closed := true;
      done := true;
    }

    /** Hands every leaf of a finished walk to the callback and drains the channel whatever it answers. */
    static method ForEach(tic: TrieIteratorChannels?<Leaf>, f: Callback<Leaf>) returns (result: MaybeError, calls: nat)
      requires tic != null ==> tic.closed && tic.done
      modifies if tic == null then {} else {tic}
      ensures tic == null ==> result == Some(NilChannels) && calls == 0
      ensures tic != null ==>
                result == Verdict(f, old(tic.leavesChan), tic.err) && calls == Visited(f, old(tic.leavesChan))
      ensures tic != null ==> tic.leavesChan == [] && tic.closed && tic.done && tic.err == old(tic.err)
    {
      if tic == null {
        return Some(NilChannels), 0;
      }
      var errForEach: MaybeError := None;
      calls := 0;
      ghost var leaves, seen := tic.leavesChan, [];
      while tic.leavesChan != []
        invariant seen + tic.leavesChan == leaves
        invariant errForEach == FirstError(f, seen) && calls == Visited(f, seen)
        invariant errForEach.None? ==> calls == |seen|
        invariant tic.closed && tic.done && tic.err == old(tic.err)
        decreases |tic.leavesChan|
      {
        var leaf := tic.leavesChan[0];
        tic.leavesChan := tic.leavesChan[1..];
        VisitStep(f, seen, leaf);
        seen := seen + [leaf];
        if errForEach.Some? {
          continue;
        }
        errForEach := f(calls, leaf);
        calls := calls + 1;
      }
      assert seen == leaves;
      if errForEach.Some? {
        return errForEach, calls;
      }
      result := tic.err;
    }
  }

  // ------------------------------------------------------------------------
  // Producer and consumer as goroutines
  // ------------------------------------------------------------------------

  /** One iteration: the leaves the producer sends, the error it closes with, the buffer size, the callback. */
  datatype Walk<!Leaf> = Walk(leaves: seq<Leaf>, closeErr: MaybeError, capacity: nat, f: Callback<Leaf>)

  /** Close writes the error, closes the leaves channel, closes the done channel, in three separate steps. */
  datatype Producer = Sending | ClosingLeaves | ClosingDone | Exited

  datatype Consumer<Leaf> = Ranging | Handling(leaf: Leaf) | Waiting | Returned(result: MaybeError)

  datatype Call<Leaf> = Call(leaf: Leaf, answer: MaybeError)

  datatype State<Leaf> = State(
    producer: Producer, sent: nat, buffer: seq<Leaf>, closed: bool, done: bool, err: MaybeError,
    consumer: Consumer<Leaf>, errForEach: MaybeError, calls: seq<Call<Leaf>>)

  datatype Step = Send | WriteErr | CloseLeaves | CloseDone | Receive | Handle | LeaveLoop | ReadErr

  function Init<Leaf>(): State<Leaf> {
    State(Sending, 0, [], false, false, None, Ranging, None, [])
  }

  /** With no buffer a send needs the consumer at its receive. */
  predicate Enabled<Leaf>(w: Walk<Leaf>, s: State<Leaf>, step: Step) {
    match step
    case Send => s.producer.Sending? && s.sent < |w.leaves|
      && (|s.buffer| < w.capacity || (w.capacity == 0 && s.consumer.Ranging?))
    case WriteErr => s.producer.Sending? && s.sent == |w.leaves|
    case CloseLeaves => s.producer.ClosingLeaves?
    case CloseDone => s.producer.ClosingDone?
    case Receive => s.consumer.Ranging? && s.buffer != []
    case Handle => s.consumer.Handling?
    case LeaveLoop => s.consumer.Ranging? && s.buffer == [] && s.closed
    case ReadErr => s.consumer.Waiting? && s.done
  }

  function Exec<Leaf>(w: Walk<Leaf>, s: State<Leaf>, step: Step): State<Leaf>
    requires Enabled(w, s, step)
  {
    match step
    case Send =>
      if w.capacity == 0 then s.(sent := s.sent + 1, consumer := Handling(w.leaves[s.sent]))
      else s.(sent := s.sent + 1, buffer := s.buffer + [w.leaves[s.sent]])
    case WriteErr => s.(producer := ClosingLeaves, err := w.closeErr)
    case CloseLeaves => s.(producer := ClosingDone, closed := true)
    case CloseDone => s.(producer := Exited, done := true)
    case Receive => s.(consumer := Handling(s.buffer[0]), buffer := s.buffer[1..])
    case Handle =>
      if s.errForEach.Some? then s.(consumer := Ranging)
      else
        var answer := w.f(|s.calls|, s.consumer.leaf);
        s.(consumer := Ranging, errForEach := answer, calls := s.calls + [Call(s.consumer.leaf, answer)])
    case LeaveLoop => s.(consumer := if s.errForEach.Some? then Returned(s.errForEach) else Waiting)
    case ReadErr => s.(consumer := Returned(s.err))
  }

  predicate IsRun<Leaf>(w: Walk<Leaf>, steps: seq<Step>)
    decreases |steps|, 0
  {
    steps == [] ||
    (IsRun(w, steps[..|steps| - 1]) && Enabled(w, Final(w, steps[..|steps| - 1]), steps[|steps| - 1]))
  }

  function Final<Leaf>(w: Walk<Leaf>, steps: seq<Step>): State<Leaf>
    requires IsRun(w, steps)
    decreases |steps|, 1
  {
    if steps == [] then Init()
    else Exec(w, Final(w, steps[..|steps| - 1]), steps[|steps| - 1])
  }

  // ------------------------------------------------------------------------
  // The invariant
  // ------------------------------------------------------------------------

  function InHand<Leaf>(c: Consumer<Leaf>): nat { if c.Handling? then 1 else 0 }

  /** Leaves the consumer has dealt with. */
  function Handled<Leaf>(s: State<Leaf>): int { s.sent - |s.buffer| - InHand(s.consumer) }

  /** What the consumer holds and what is buffered are the next leaves of the walk. */
  ghost predicate FlowInv<Leaf>(w: Walk<Leaf>, s: State<Leaf>) {
    && s.sent <= |w.leaves|
    && |s.buffer| <= w.capacity
    && 0 <= Handled(s)
    && (s.consumer.Handling? ==> s.consumer.leaf == w.leaves[Handled(s)])
    && s.buffer == w.leaves[s.sent - |s.buffer|..s.sent]
  }

  ghost predicate CloseInv<Leaf>(w: Walk<Leaf>, s: State<Leaf>) {
    && (!s.producer.Sending? ==> s.sent == |w.leaves| && s.err == w.closeErr)
    && (s.closed <==> s.producer.ClosingDone? || s.producer.Exited?)
    && (s.done <==> s.producer.Exited?)
    && (s.consumer.Waiting? || s.consumer.Returned? ==> s.closed && s.buffer == [])
  }

  /** The calls made so far are those ForEach owes for the leaves handled so far. */
  ghost predicate CallInv<Leaf>(w: Walk<Leaf>, s: State<Leaf>)
    requires FlowInv(w, s)
  {
    var seen := w.leaves[..Handled(s)];
    && s.errForEach == FirstError(w.f, seen)
    && |s.calls| == Visited(w.f, seen)
    && (forall i :: 0 <= i < |s.calls| ==> s.calls[i] == Call(w.leaves[i], w.f(i, w.leaves[i])))
    && (s.consumer.Waiting? ==> s.errForEach.None?)
    && (s.consumer.Returned? ==> s.consumer.result == Verdict(w.f, w.leaves, w.closeErr))
  }

  ghost predicate Inv<Leaf>(w: Walk<Leaf>, s: State<Leaf>) {
    FlowInv(w, s) && CloseInv(w, s) && CallInv(w, s)
  }

  predicate HandlesNothing(step: Step) {
    step.Send? || step.WriteErr? || step.CloseLeaves? || step.CloseDone? || step.Receive?
  }

  lemma SendKeepsFlow<Leaf>(w: Walk<Leaf>, s: State<Leaf>)
    requires FlowInv(w, s) && Enabled(w, s, Send)
    ensures FlowInv(w, Exec(w, s, Send)) && Handled(Exec(w, s, Send)) == Handled(s)
  {
  }

  lemma ProducerKeepsFlow<Leaf>(w: Walk<Leaf>, s: State<Leaf>, step: Step)
    requires FlowInv(w, s) && Enabled(w, s, step) && HandlesNothing(step)
    ensures FlowInv(w, Exec(w, s, step)) && Handled(Exec(w, s, step)) == Handled(s)
  {
    if step.Send? {
      SendKeepsFlow(w, s);
    }
  }

  lemma ProducerKeepsInv<Leaf>(w: Walk<Leaf>, s: State<Leaf>, step: Step)
    requires Inv(w, s) && Enabled(w, s, step) && HandlesNothing(step)
    ensures Inv(w, Exec(w, s, step))
  {
    ProducerKeepsFlow(w, s, step);
  }

  lemma HandleKeepsInv<Leaf>(w: Walk<Leaf>, s: State<Leaf>)
    requires Inv(w, s) && Enabled(w, s, Handle)
    ensures Inv(w, Exec(w, s, Handle))
  {
    var s' := Exec(w, s, Handle);
    assert Handled(s') == Handled(s) + 1;
    assert FlowInv(w, s') && CloseInv(w, s');
    HandleKeepsCalls(w, s.calls, s.errForEach, Handled(s));
  }

  /** The bookkeeping of one leaf. */
  lemma HandleKeepsCalls<Leaf>(w: Walk<Leaf>, calls: seq<Call<Leaf>>, err: MaybeError, n: nat)
    requires n < |w.leaves|
    requires err == FirstError(w.f, w.leaves[..n]) && |calls| == Visited(w.f, w.leaves[..n])
    ensures err.Some? ==> FirstError(w.f, w.leaves[..n + 1]) == err && Visited(w.f, w.leaves[..n + 1]) == |calls|
    ensures err.None? ==> |calls| == n
    ensures err.None? ==>
              FirstError(w.f, w.leaves[..n + 1]) == w.f(n, w.leaves[n]) && Visited(w.f, w.leaves[..n + 1]) == n + 1
  {
    VisitStep(w.f, w.leaves[..n], w.leaves[n]);
    assert w.leaves[..n + 1] == w.leaves[..n] + [w.leaves[n]];
    VisitedMeaning(w.f, w.leaves[..n]);
  }

  lemma AllHandled<Leaf>(w: Walk<Leaf>, s: State<Leaf>)
    requires Inv(w, s) && s.closed && s.buffer == [] && !s.consumer.Handling?
    ensures w.leaves[..Handled(s)] == w.leaves && s.err == w.closeErr
    ensures s.errForEach == FirstError(w.f, w.leaves)
  {
    assert Handled(s) == |w.leaves|;
  }

  lemma ReturnKeepsInv<Leaf>(w: Walk<Leaf>, s: State<Leaf>, step: Step)
    requires Inv(w, s) && Enabled(w, s, step) && (step.LeaveLoop? || step.ReadErr?)
    ensures Inv(w, Exec(w, s, step))
  {
    AllHandled(w, s);
    assert Handled(Exec(w, s, step)) == Handled(s);
  }

  lemma StepKeepsInv<Leaf>(w: Walk<Leaf>, s: State<Leaf>, step: Step)
    requires Inv(w, s) && Enabled(w, s, step)
    ensures Inv(w, Exec(w, s, step))
  {
    match step
    case Handle => HandleKeepsInv(w, s);
    case LeaveLoop => ReturnKeepsInv(w, s, step);
    case ReadErr => ReturnKeepsInv(w, s, step);
    case _ => ProducerKeepsInv(w, s, step);
  }

  lemma InitHasInv<Leaf>(w: Walk<Leaf>)
    ensures Inv(w, Init())
  {
  }

  lemma {:induction false} RunKeepsInv<Leaf>(w: Walk<Leaf>, steps: seq<Step>)
    requires IsRun(w, steps)
    ensures Inv(w, Final(w, steps))
  {
    if steps == [] {
      InitHasInv(w);
    } else {
      var before := steps[..|steps| - 1];
      RunKeepsInv(w, before);
      StepKeepsInv(w, Final(w, before), steps[|steps| - 1]);
    }
  }

  // ------------------------------------------------------------------------
  // Main results
  // ------------------------------------------------------------------------

  /**
  When ForEach has returned, in whatever interleaving, it returned the callback's first
  error or else the producer's; the callback saw the leaves in order, once each, up to
  and including the first it rejected.
  */
  lemma {:induction false} ForEachIsExact<Leaf>(w: Walk<Leaf>, steps: seq<Step>)
    requires IsRun(w, steps) && Final(w, steps).consumer.Returned?
    ensures var s := Final(w, steps);
            && s.consumer.result == Verdict(w.f, w.leaves, w.closeErr)
            && |s.calls| == Visited(w.f, w.leaves)
            && forall i :: 0 <= i < |s.calls| ==> s.calls[i] == Call(w.leaves[i], w.f(i, w.leaves[i]))
  {
    RunKeepsInv(w, steps);
    assert w.leaves[..|w.leaves|] == w.leaves;
  }

  /** A nil result is exactly a complete walk on which every callback succeeded. */
  lemma {:induction false} NilMeansComplete<Leaf>(w: Walk<Leaf>, steps: seq<Step>)
    requires IsRun(w, steps) && Final(w, steps).consumer.Returned?
    ensures Final(w, steps).consumer.result.None?
       <==> w.closeErr.None? && |Final(w, steps).calls| == |w.leaves| && forall i :: 0 <= i < |w.leaves| ==>
         w.f(i, w.leaves[i]).None?
  {
    ForEachIsExact(w, steps);
    VisitedMeaning(w.f, w.leaves);
  }

  /** In whatever interleaving, the first rejected leaf decides over the producer's error and is the last visited. */
  lemma {:induction false} FirstRejectionDecides<Leaf>(w: Walk<Leaf>, steps: seq<Step>, i: nat)
    requires IsRun(w, steps) && Final(w, steps).consumer.Returned?
    requires i <= |w.leaves| && forall j :: 0 <= j < i ==> w.f(j, w.leaves[j]).None?
    ensures var s := Final(w, steps);
            && (i == |w.leaves| ==> s.consumer.result == w.closeErr && |s.calls| == |w.leaves|)
            && (i < |w.leaves| && w.f(i, w.leaves[i]).Some? ==>
                  s.consumer.result == w.f(i, w.leaves[i]) && |s.calls| == i + 1)
  {
    ForEachIsExact(w, steps);
    VerdictMeaning(w.f, w.leaves, w.closeErr, i);
  }

  /** At no point in any run has the callback been called again after it failed, or out of order. */
  lemma {:induction false} NoCallAfterFailure<Leaf>(w: Walk<Leaf>, steps: seq<Step>, i: nat)
    requires IsRun(w, steps) && i < |Final(w, steps).calls|
    ensures var s := Final(w, steps);
            && |s.calls| <= |w.leaves|
            && s.calls[i].leaf == w.leaves[i]
            && (i < |s.calls| - 1 ==> s.calls[i].answer.None?)
  {
    RunKeepsInv(w, steps);
    EarlierAnswers(w.f, w.leaves[..Handled(Final(w, steps))], i);
  }

  lemma EarlierAnswers<Leaf>(f: Callback<Leaf>, leaves: seq<Leaf>, i: nat)
    ensures i < Visited(f, leaves) - 1 ==> f(i, leaves[i]).None?
  {
    VisitedMeaning(f, leaves);
  }

  /**
  ForEach returns a rejection as soon as the channel is drained, but the walk's own error,
  or nil, only once the done channel is closed: after the error was written for good.
  */
  lemma {:induction false} WaitsForDone<Leaf>(w: Walk<Leaf>, steps: seq<Step>)
    requires IsRun(w, steps) && Final(w, steps).consumer.Returned?
    ensures var s := Final(w, steps);
            && s.closed && s.buffer == []
            && ((forall i :: 0 <= i < |w.leaves| ==> w.f(i, w.leaves[i]).None?) ==> s.done && s.producer.Exited?)
  {
    RunKeepsInv(w, steps);
    VisitedMeaning(w.f, w.leaves);
    assert w.leaves[..|w.leaves|] == w.leaves;
    if Final(w, steps).errForEach.None? {
      UnrejectedIsDone(w, steps);
    }
  }

  lemma {:induction false} UnrejectedIsDone<Leaf>(w: Walk<Leaf>, steps: seq<Step>)
    requires IsRun(w, steps) && Final(w, steps).consumer.Returned? && Final(w, steps).errForEach.None?
    ensures Final(w, steps).done
  {
    var before := steps[..|steps| - 1];
    if Final(w, before).consumer.Returned? {
      UnrejectedIsDone(w, before);
    }
  }

  /** In every run a leaf can be sent exactly while fewer than `capacity` wait, or, unbuffered, to a ready consumer. */
  lemma {:induction false} SendHasRoomExactly<Leaf>(w: Walk<Leaf>, steps: seq<Step>)
    requires IsRun(w, steps)
    ensures var s := Final(w, steps);
            IsRun(w, steps + [Send]) <==>
              && s.sent < |w.leaves|
              && (s.sent - Handled(s) - InHand(s.consumer) < w.capacity || (w.capacity == 0 && s.consumer.Ranging?))
  {
    RunKeepsInv(w, steps);
    assert (steps + [Send])[..|steps|] == steps;
  }

  /** Neither side can be left waiting for the other. */
  lemma NeverStuck<Leaf>(w: Walk<Leaf>, steps: seq<Step>) returns (step: Step)
    requires IsRun(w, steps) && !(Final(w, steps).producer.Exited? && Final(w, steps).consumer.Returned?)
    ensures Enabled(w, Final(w, steps), step)
  {
    RunKeepsInv(w, steps);
    var s := Final(w, steps);
    step := if s.consumer.Handling? then Handle
            else if s.consumer.Ranging? && s.buffer != [] then Receive
            else if s.producer.Sending? && s.sent < |w.leaves| then Send
            else if s.producer.Sending? then WriteErr
            else if s.producer.ClosingLeaves? then CloseLeaves
            else if s.producer.ClosingDone? then CloseDone
            else if s.consumer.Ranging? then LeaveLoop
            else ReadErr;
  }

  /** The steps still to come, at most. */
  function Remaining<Leaf>(w: Walk<Leaf>, s: State<Leaf>): int {
    3 * (|w.leaves| - s.sent)
    + 2 * |s.buffer|
    + InHand(s.consumer)
    + (match s.producer case Sending => 3 case ClosingLeaves => 2 case ClosingDone => 1 case Exited => 0)
    + (if s.consumer.Waiting? then 1 else if s.consumer.Returned? then 0 else 2)
  }

  lemma StepUsesUp<Leaf>(w: Walk<Leaf>, s: State<Leaf>, step: Step)
    requires Enabled(w, s, step)
    ensures Remaining(w, Exec(w, s, step)) < Remaining(w, s)
  {
  }

  /** Every run is finite: each step uses up some of what remains. */
  lemma {:induction false} RunsAreBounded<Leaf>(w: Walk<Leaf>, steps: seq<Step>)
    requires IsRun(w, steps)
    ensures |steps| + Remaining(w, Final(w, steps)) <= 3 * |w.leaves| + 5
    ensures Remaining(w, Final(w, steps)) >= 0
  {
    if steps != [] {
      var before := steps[..|steps| - 1];
      RunsAreBounded(w, before);
      StepUsesUp(w, Final(w, before), steps[|steps| - 1]);
    }
    RemainingIsNatural(w, steps);
  }

  lemma RemainingIsNatural<Leaf>(w: Walk<Leaf>, steps: seq<Step>)
    requires IsRun(w, steps)
    ensures Remaining(w, Final(w, steps)) >= 0
  {
    RunKeepsInv(w, steps);
  }

  /** So every run, taken as far as it goes, ends with the producer released and ForEach returned. */
  lemma {:induction false} EveryRunFinishes<Leaf>(w: Walk<Leaf>, steps: seq<Step>) returns (full: seq<Step>)
    requires IsRun(w, steps)
    ensures steps <= full && IsRun(w, full)
    ensures Final(w, full).producer.Exited? && Final(w, full).consumer.Returned?
    decreases 3 * |w.leaves| + 5 - |steps|
  {
    if Final(w, steps).producer.Exited? && Final(w, steps).consumer.Returned? {
      full := steps;
    } else {
      var step := NeverStuck(w, steps);
      assert (steps + [step])[..|steps|] == steps;
      RunsAreBounded(w, steps + [step]);
      full := EveryRunFinishes(w, steps + [step]);
    }
  }
}
