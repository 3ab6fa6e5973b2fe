/**
The one gap of the account pipeline: a scripted update writes neither an account's code
nor its creation time. What the index shows of these is the last full write, whatever
happened since; with existence probes that are right that is the first one.
*/
module StaleCode {
  import opened AccountIndex
  import opened Pipeline
  import opened Prelude

  // ------------------------------------------------------------------------
  // Every run: the last full write
  // ------------------------------------------------------------------------

  /** The fields of a document that only a full write stores. */
  datatype Stamp = Stamp(code: CodeFields, timestamp: int)

  function StampOf(doc: AccountDoc): Stamp { Stamp(doc.code, doc.timestamp) }

  /** What a full write of an address stores when it comes from block `k`. */
  function StampAt(c: Config, blocks: seq<Block>, k: nat, a: Address): Stamp
    requires k < |blocks|
  {
    Stamp(AccountOf(ChainAfter(c, blocks[..k + 1]), a).code, 1000 * blocks[k].ts)
  }

  /** Whether a step writes an address's document in full. */
  predicate WritesInFull(c: Config, s: State, step: Step, a: Address) {
    && step.Try?
    && s.worker.Saving?
    && a in FullWrites(s.tables, s.worker.item.docs, c.historyEnabled, step.attempt)
  }

  /** The block being saved when an address was last written in full. */
  function LastFullWrite(c: Config, steps: seq<Step>, a: Address): Option<nat>
    requires IsRun(c, steps)
  {
    if steps == [] then None
    else
      var s := Final(c, steps[..|steps| - 1]);
      if WritesInFull(c, s, steps[|steps| - 1], a) then Some(s.completed)
      else LastFullWrite(c, steps[..|steps| - 1], a)
  }

  /** The stamp is that of the given block, or of the document there before the run. */
  ghost predicate StampedBy(
    c: Config, blocks: seq<Block>, taken: nat, write: Option<nat>, a: Address, stamp: Stamp)
  {
    match write
    case Some(k) => k < taken <= |blocks| && a in blocks[k].resolved && stamp == StampAt(c, blocks, k, a)
    case None => a in c.tables.accounts && stamp == StampOf(c.tables.accounts[a])
  }

  lemma LongerChainKeepsStamp(
    c: Config, blocks: seq<Block>, taken: nat, blocks': seq<Block>, taken': nat,
    write: Option<nat>, a: Address, stamp: Stamp)
    requires StampedBy(c, blocks, taken, write, a, stamp)
    requires blocks <= blocks' && taken <= taken' <= |blocks'|
    ensures StampedBy(c, blocks', taken', write, a, stamp)
  {
    if write.Some? {
      assert blocks'[..write.value + 1] == blocks[..write.value + 1];
    }
  }

  lemma PayloadStamps(c: Config, blocks: seq<Block>, k: nat, a: Address)
    requires k < |blocks| && a in Payload(c, blocks[..k + 1]).docs
    ensures a in blocks[k].resolved && StampOf(Payload(c, blocks[..k + 1]).docs[a]) == StampAt(c, blocks, k, a)
  {
  }

  lemma AttemptStampsBlock(c: Config, blocks: seq<Block>, k: nat, t: Tables, att: Attempt, a: Address)
    requires k < |blocks|
    requires var item := Payload(c, blocks[..k + 1]);
             a in AfterAttempt(t, item.ts, item.docs, c.historyEnabled, att).accounts
    ensures var item := Payload(c, blocks[..k + 1]);
            var after := AfterAttempt(t, item.ts, item.docs, c.historyEnabled, att).accounts;
            if a in FullWrites(t, item.docs, c.historyEnabled, att)
            then a in blocks[k].resolved && StampOf(after[a]) == StampAt(c, blocks, k, a)
            else a in t.accounts && StampOf(after[a]) == StampOf(t.accounts[a])
  {
    var item := Payload(c, blocks[..k + 1]);
    AttemptStamps(t, item.ts, item.docs, c.historyEnabled, att, a);
    if a in FullWrites(t, item.docs, c.historyEnabled, att) {
      PayloadStamps(c, blocks, k, a);
    }
  }

  lemma TryPosition(c: Config, s: State, att: Attempt)
    requires Inv(c, s) && Enabled(c, s, Try(att))
    ensures s.completed < |s.blocks| && s.worker.item == Payload(c, s.blocks[..s.completed + 1])
    ensures Exec(c, s, Try(att)).blocks == s.blocks && Taken(Exec(c, s, Try(att))) == s.completed + 1
  {
    ItemsAt(c, s.blocks, s.completed);
  }

  lemma OtherStepsOnlyAdd(c: Config, s: State, step: Step)
    requires FlightInv(c, s) && Enabled(c, s, step) && !step.Try?
    ensures var s' := Exec(c, s, step);
            s'.tables == s.tables && s.blocks <= s'.blocks && Taken(s) <= Taken(s') && Taken(s) <= |s.blocks|
  {
  }

  lemma TryStamps(c: Config, s: State, att: Attempt, write: Option<nat>, a: Address)
    requires Inv(c, s) && Enabled(c, s, Try(att)) && a in Exec(c, s, Try(att)).tables.accounts
    requires a in s.tables.accounts ==>
               StampedBy(c, s.blocks, Taken(s), write, a, StampOf(s.tables.accounts[a]))
    ensures var s' := Exec(c, s, Try(att));
            StampedBy(c, s'.blocks, Taken(s'), if WritesInFull(c, s, Try(att), a) then Some(s.completed) else write,
                      a, StampOf(s'.tables.accounts[a]))
  {
    TryPosition(c, s, att);
    AttemptStampsBlock(c, s.blocks, s.completed, s.tables, att, a);
  }

  lemma StepStamps(c: Config, s: State, step: Step, write: Option<nat>, a: Address)
    requires ValidConfig(c) && Inv(c, s) && Enabled(c, s, step) && a in Exec(c, s, step).tables.accounts
    requires a in s.tables.accounts ==>
               StampedBy(c, s.blocks, Taken(s), write, a, StampOf(s.tables.accounts[a]))
    ensures var s' := Exec(c, s, step);
            StampedBy(c, s'.blocks, Taken(s'), if WritesInFull(c, s, step, a) then Some(s.completed) else write,
                      a, StampOf(s'.tables.accounts[a]))
  {
    if step.Try? {
      TryStamps(c, s, step.attempt, write, a);
    } else {
      var s' := Exec(c, s, step);
      StepKeepsInv(c, s, step);
      OtherStepsOnlyAdd(c, s, step);
      LongerChainKeepsStamp(c, s.blocks, Taken(s), s'.blocks, Taken(s'), write, a, StampOf(s.tables.accounts[a]));
    }
  }

  /**
  In every reachable state the code and creation time of an indexed address are those of
  its last full write, which came from a block that resolved the address; without one
  they are those of the document that was there before the run.
  */
  lemma {:induction false} StampIsLastFullWrite(c: Config, steps: seq<Step>, a: Address)
    requires ValidConfig(c) && IsRun(c, steps) && a in Final(c, steps).tables.accounts
    ensures var s := Final(c, steps);
            StampedBy(c, s.blocks, Taken(s), LastFullWrite(c, steps, a), a, StampOf(s.tables.accounts[a]))
  {
    if steps != [] {
      var before := steps[..|steps| - 1];
      var s := Final(c, before);
      RunKeepsInv(c, before);
      if a in s.tables.accounts {
        StampIsLastFullWrite(c, before, a);
      }
      StepStamps(c, s, steps[|steps| - 1], LastFullWrite(c, before, a), a);
    }
  }

  /** So the stored code is current exactly when that write, or that document, already held the current code. */
  lemma CodeIsCurrentIff(c: Config, steps: seq<Step>, a: Address)
    requires ValidConfig(c) && IsRun(c, steps) && a in Final(c, steps).tables.accounts
    ensures var s, write := Final(c, steps), LastFullWrite(c, steps, a);
            && (write.None? ==> a in c.tables.accounts)
            && (write.Some? ==> write.value < |s.blocks|)
            && (s.tables.accounts[a].code == AccountOf(s.live, a).code <==>
                AccountOf(s.live, a).code ==
                if write.Some? then AccountOf(ChainAfter(c, s.blocks[..write.value + 1]), a).code
                else c.tables.accounts[a].code)
  {
    StampIsLastFullWrite(c, steps, a);
  }

  // ------------------------------------------------------------------------
  // Runs whose existence probes are right: the first write
  // ------------------------------------------------------------------------

  ghost predicate RightRun(c: Config, steps: seq<Step>)
    requires IsRun(c, steps)
  {
    steps != [] ==>
      var before, step := steps[..|steps| - 1], steps[|steps| - 1];
      var s := Final(c, before);
      && RightRun(c, before)
      && (step.Try? ==> ProbeRight(s.tables.accounts, s.worker.item.docs, step.attempt))
  }

  /** The stamp of the document there before the run, else of the first block that resolved the address. */
  function FirstStamp(c: Config, blocks: seq<Block>, a: Address): Option<Stamp> {
    if blocks == [] then
      if a in c.tables.accounts then Some(StampOf(c.tables.accounts[a])) else None
    else
      var n := |blocks| - 1;
      var first := FirstStamp(c, blocks[..n], a);
      if first.None? && a in blocks[n].resolved then Some(StampAt(c, blocks, n, a)) else first
  }

  lemma {:induction false} FirstStampStays(c: Config, blocks: seq<Block>, k: nat, a: Address)
    requires k <= |blocks| && FirstStamp(c, blocks[..k], a).Some?
    ensures FirstStamp(c, blocks, a) == FirstStamp(c, blocks[..k], a)
  {
    if k == |blocks| {
      assert blocks[..k] == blocks;
    } else {
      var n := |blocks| - 1;
      assert blocks[..n][..k] == blocks[..k];
      FirstStampStays(c, blocks[..n], k, a);
    }
  }

  lemma FirstStampGrows(c: Config, blocks: seq<Block>, k: nat, blocks': seq<Block>, k': nat, a: Address)
    requires k <= |blocks| && k <= k' <= |blocks'| && blocks <= blocks'
    requires FirstStamp(c, blocks[..k], a).Some?
    ensures FirstStamp(c, blocks'[..k'], a) == FirstStamp(c, blocks[..k], a)
  {
    assert blocks'[..k'][..k] == blocks[..k];
    FirstStampStays(c, blocks'[..k'], k, a);
  }

  lemma {:induction false} FirstStampIsIndexed(c: Config, blocks: seq<Block>, a: Address)
    ensures FirstStamp(c, blocks, a).Some? <==> a in RefEntries(c, blocks)
  {
    if blocks != [] {
      FirstStampIsIndexed(c, blocks[..|blocks| - 1], a);
    }
  }

  lemma FirstStampAppends(c: Config, blocks: seq<Block>, k: nat, a: Address)
    requires k < |blocks| && FirstStamp(c, blocks[..k], a).None? && a in blocks[k].resolved
    ensures FirstStamp(c, blocks[..k + 1], a) == Some(StampAt(c, blocks, k, a))
  {
    assert blocks[..k + 1][..k] == blocks[..k];
    assert blocks[..k + 1][..k + 1] == blocks[..k + 1];
  }

  lemma {:induction false} NotStampedYet(c: Config, blocks: seq<Block>, a: Address)
    requires a !in c.tables.accounts && forall j :: 0 <= j < |blocks| ==> a !in blocks[j].resolved
    ensures FirstStamp(c, blocks, a).None?
  {
    if blocks != [] {
      NotStampedYet(c, blocks[..|blocks| - 1], a);
    }
  }

  /** For an address not indexed before, the first stamp is that of the first block to resolve it. */
  lemma FirstStampMeaning(c: Config, blocks: seq<Block>, i: nat, a: Address)
    requires i < |blocks| && a !in c.tables.accounts
    requires a in blocks[i].resolved && forall j :: 0 <= j < i ==> a !in blocks[j].resolved
    ensures FirstStamp(c, blocks, a) == Some(StampAt(c, blocks, i, a))
  {
    NotStampedYet(c, blocks[..i], a);
    FirstStampAppends(c, blocks, i, a);
    FirstStampStays(c, blocks, i + 1, a);
  }

  /** With a right probe only a document that was never written before is written in full. */
  lemma RightAttemptStamps(c: Config, blocks: seq<Block>, k: nat, t: Tables, att: Attempt, a: Address)
    requires k < |blocks| && RefEntries(c, blocks[..k]).Keys <= t.accounts.Keys
    requires ProbeRight(t.accounts, Payload(c, blocks[..k + 1]).docs, att)
    requires var item := Payload(c, blocks[..k + 1]);
             a in AfterAttempt(t, item.ts, item.docs, c.historyEnabled, att).accounts
    requires a in t.accounts ==> FirstStamp(c, blocks[..k + 1], a) == Some(StampOf(t.accounts[a]))
    ensures var item := Payload(c, blocks[..k + 1]);
            FirstStamp(c, blocks[..k + 1], a) ==
            Some(StampOf(AfterAttempt(t, item.ts, item.docs, c.historyEnabled, att).accounts[a]))
  {
    AttemptStampsBlock(c, blocks, k, t, att, a);
    if a !in t.accounts {
      FirstStampIsIndexed(c, blocks[..k], a);
      FirstStampAppends(c, blocks, k, a);
    }
  }

  lemma DoneIsIndexed(c: Config, s: State)
    requires Inv(c, s)
    ensures RefEntries(c, s.blocks[..s.completed]).Keys <= s.tables.accounts.Keys
  {
    assert Entries(s.tables.accounts).Keys == s.tables.accounts.Keys;
  }

  lemma RightTryStamps(c: Config, s: State, att: Attempt, a: Address)
    requires Inv(c, s) && Enabled(c, s, Try(att)) && a in Exec(c, s, Try(att)).tables.accounts
    requires ProbeRight(s.tables.accounts, s.worker.item.docs, att)
    requires a in s.tables.accounts ==> FirstStamp(c, Begun(s), a) == Some(StampOf(s.tables.accounts[a]))
    ensures FirstStamp(c, s.blocks[..s.completed + 1], a) == Some(StampOf(Exec(c, s, Try(att)).tables.accounts[a]))
  {
    TryPosition(c, s, att);
    DoneIsIndexed(c, s);
    RightAttemptStamps(c, s.blocks, s.completed, s.tables, att, a);
  }

  lemma RightStepStamps(c: Config, s: State, step: Step, a: Address)
    requires Inv(c, s) && Enabled(c, s, step) && a in Exec(c, s, step).tables.accounts
    requires step.Try? ==> ProbeRight(s.tables.accounts, s.worker.item.docs, step.attempt)
    requires a in s.tables.accounts ==> FirstStamp(c, Begun(s), a) == Some(StampOf(s.tables.accounts[a]))
    requires Taken(Exec(c, s, step)) <= |Exec(c, s, step).blocks|
    ensures FirstStamp(c, Begun(Exec(c, s, step)), a) == Some(StampOf(Exec(c, s, step).tables.accounts[a]))
  {
    if step.Try? {
      TryPosition(c, s, step.attempt);
      RightTryStamps(c, s, step.attempt, a);
    } else {
      var s' := Exec(c, s, step);
      OtherStepsOnlyAdd(c, s, step);
      FirstStampGrows(c, s.blocks, Taken(s), s'.blocks, Taken(s'), a);
    }
  }

  lemma {:induction false} RightRunKeepsStamps(c: Config, steps: seq<Step>, a: Address)
    requires ValidConfig(c) && IsRun(c, steps) && RightRun(c, steps) && a in Final(c, steps).tables.accounts
    ensures Taken(Final(c, steps)) <= |Final(c, steps).blocks|
    ensures FirstStamp(c, Begun(Final(c, steps)), a) == Some(StampOf(Final(c, steps).tables.accounts[a]))
  {
    RunKeepsInv(c, steps);
    if steps != [] {
      var before := steps[..|steps| - 1];
      RunKeepsInv(c, before);
      if a in Final(c, before).tables.accounts {
        RightRunKeepsStamps(c, before, a);
      }
      RightStepStamps(c, Final(c, before), steps[|steps| - 1], a);
    }
  }

  /**
  With right probes the whole index is determined by the chain once nothing is in flight:
  rows and live fields as in the reference, code and creation time as first written. So
  an indexed address shows its current code exactly if it had that code at its first write.
  */
  lemma RightRunsMatchReference(c: Config, steps: seq<Step>, a: Address)
    requires ValidConfig(c) && IsRun(c, steps) && RightRun(c, steps) && Quiescent(Final(c, steps))
    ensures var s := Final(c, steps);
            var first := FirstStamp(c, s.blocks, a);
            && s.tables.history == RefHistory(c, s.blocks)
            && Entries(s.tables.accounts) == RefEntries(c, s.blocks)
            && (a in s.tables.accounts <==> first.Some?)
            && (a in s.tables.accounts ==>
                && StampOf(s.tables.accounts[a]) == first.value
                && (s.tables.accounts[a].code == AccountOf(s.live, a).code <==>
                    first.value.code == AccountOf(ChainAfter(c, s.blocks), a).code))
  {
    var s := Final(c, steps);
    RunKeepsInv(c, steps);
    QuiescentIsDone(c, s);
    FirstStampIsIndexed(c, s.blocks, a);
    assert a in Entries(s.tables.accounts) <==> a in s.tables.accounts;
    if a in s.tables.accounts {
      RightRunKeepsStamps(c, steps, a);
    }
  }

  // ------------------------------------------------------------------------
  // A block that changes the code of an indexed account
  // ------------------------------------------------------------------------

  /** Committing one block and queueing its documents. */
  function HandOver(c: Config, b: Block): seq<Step> {
    [CommitBlock(b), TakeSnapshot, Enqueue] + if c.capacity == 0 then [] else [Take]
  }

  lemma SnapshotRuns(c: Config, steps: seq<Step>, b: Block)
    requires IsRun(c, steps) && Quiescent(Final(c, steps)) && Follows(c, Final(c, steps).blocks, b)
    ensures IsRun(c, steps + [CommitBlock(b), TakeSnapshot])
    ensures var s := Final(c, steps);
            Final(c, steps + [CommitBlock(b), TakeSnapshot]) ==
            s.(blocks := s.blocks + [b], live := s.live + b.changes,
               committer := Holding(Item(b.ts, SnapshotDocs(s.live + b.changes, b.ts, b.resolved))))
  {
    var s := Final(c, steps);
    var s1 := s.(blocks := s.blocks + [b], live := s.live + b.changes, committer := Committed);
    Extend(c, steps, CommitBlock(b));
    assert Final(c, steps + [CommitBlock(b)]) == s1;
    Extend(c, steps + [CommitBlock(b)], TakeSnapshot);
    assert s1.blocks[|s1.blocks| - 1] == b;
    assert steps + [CommitBlock(b)] + [TakeSnapshot] == steps + [CommitBlock(b), TakeSnapshot];
  }

  lemma EnqueueRuns(c: Config, steps: seq<Step>)
    requires IsRun(c, steps)
    requires Final(c, steps).committer.Holding? && Final(c, steps).queue == [] && Final(c, steps).worker.Idle?
    ensures var more := [Enqueue] + if c.capacity == 0 then [] else [Take];
            && IsRun(c, steps + more)
            && Final(c, steps + more) ==
               Final(c, steps).(committer := Ready, worker := Saving(Final(c, steps).committer.item))
  {
    Extend(c, steps, Enqueue);
    if c.capacity == 0 {
      assert [Enqueue] + [] == [Enqueue];
    } else {
      Extend(c, steps + [Enqueue], Take);
      assert steps + [Enqueue] + [Take] == steps + ([Enqueue] + [Take]);
    }
  }

  lemma HandOverRuns(c: Config, steps: seq<Step>, b: Block)
    requires IsRun(c, steps) && Quiescent(Final(c, steps)) && Follows(c, Final(c, steps).blocks, b)
    ensures IsRun(c, steps + HandOver(c, b))
    ensures var s := Final(c, steps);
            Final(c, steps + HandOver(c, b)) ==
            s.(blocks := s.blocks + [b], live := s.live + b.changes,
               worker := Saving(Item(b.ts, SnapshotDocs(s.live + b.changes, b.ts, b.resolved))))
  {
    SnapshotRuns(c, steps, b);
    EnqueueRuns(c, steps + [CommitBlock(b), TakeSnapshot]);
    var more := [Enqueue] + if c.capacity == 0 then [] else [Take];
    assert steps + [CommitBlock(b), TakeSnapshot] + more == steps + HandOver(c, b);
  }

  /** The first attempt at the block just handed over, on a healthy cluster. */
  function CleanSave(c: Config, s: State, b: Block): seq<Step> {
    HandOver(c, b) + [Try(CleanAttempt(s.tables, SnapshotDocs(s.live + b.changes, b.ts, b.resolved)))]
  }

  lemma CleanSaveRuns(c: Config, steps: seq<Step>, b: Block)
    requires IsRun(c, steps) && Quiescent(Final(c, steps)) && Follows(c, Final(c, steps).blocks, b)
    ensures var s := Final(c, steps);
            var docs := SnapshotDocs(s.live + b.changes, b.ts, b.resolved);
            && IsRun(c, steps + CleanSave(c, s, b))
            && Final(c, steps + CleanSave(c, s, b)) ==
               s.(blocks := s.blocks + [b], live := s.live + b.changes, completed := s.completed + 1,
                  tables := AfterAttempt(s.tables, b.ts, docs, c.historyEnabled, CleanAttempt(s.tables, docs)))
  {
    var s := Final(c, steps);
    var docs := SnapshotDocs(s.live + b.changes, b.ts, b.resolved);
    HandOverRuns(c, steps, b);
    var clean := Try(CleanAttempt(s.tables, docs));
    Extend(c, steps + HandOver(c, b), clean);
    assert steps + HandOver(c, b) + [clean] == steps + CleanSave(c, s, b);
    assert Succeeds(s.tables, docs, c.historyEnabled, CleanAttempt(s.tables, docs));
  }

  /**
  The fields a scripted update skips are the gap: once an account is indexed, a block
  that changes its code leaves the old code in the index even when nothing fails,
  although every other field is brought up to date.
  */
  lemma UpgradeLeavesStaleCode(c: Config, steps: seq<Step>, b: Block, a: Address)
    requires IsRun(c, steps) && Quiescent(Final(c, steps)) && Follows(c, Final(c, steps).blocks, b)
    requires a in b.resolved && a in b.changes && a in Final(c, steps).tables.accounts
    requires Final(c, steps).tables.accounts[a].code != b.changes[a].code
    ensures var s := Final(c, steps);
            && IsRun(c, steps + CleanSave(c, s, b))
            && var s' := Final(c, steps + CleanSave(c, s, b));
            && Quiescent(s')
            && a in s'.tables.accounts
            && AccountOf(s'.live, a) == b.changes[a]
            && s'.tables.accounts[a].live == b.changes[a].live
            && s'.tables.accounts[a].code == s.tables.accounts[a].code
            && s'.tables.accounts[a].code != AccountOf(s'.live, a).code
  {
    CleanSaveRuns(c, steps, b);
  }
}
