/**
The path of a block from commit to index: the commit goroutine applies the block,
resolves its account documents and queues them; one worker takes them off the queue
and tries to save each until it succeeds.

A run is any interleaving of these steps. The reference is an indexer with no queue, no
delay and no failures, which writes each block's documents the moment it commits.
*/
module Pipeline {
  import opened AccountIndex

  /**
  A block as the indexer sees it: its timestamp, the accounts it reports as altered,
  the state it writes, and those altered accounts whose documents can be resolved.
  */
  datatype Block = Block(ts: int, altered: set<Address>, changes: map<Address, Account>, resolved: set<Address>)

  /** A queued work item: the documents as resolved on the commit goroutine. */
  datatype Item = Item(ts: int, docs: map<Address, AccountDoc>)

  datatype Committer = Ready | Committed | Holding(item: Item)

  datatype Worker = Idle | Saving(item: Item)

  /** What is there before the run: chain state, the tables, and a timestamp bounding all earlier rows. */
  datatype Config = Config(capacity: nat, historyEnabled: bool, genesis: Chain, tables: Tables, startTs: int)

  /** `blocks` and `completed` record the past; the rest is what the node holds. */
  datatype State = State(
    blocks: seq<Block>, completed: nat,
    live: Chain, committer: Committer, queue: seq<Item>, worker: Worker, tables: Tables)

  datatype Step =
    | CommitBlock(block: Block)
    | TakeSnapshot
    | Enqueue
    | Take
    | Try(attempt: Attempt)

  ghost predicate ValidConfig(c: Config) {
    forall id :: id in c.tables.history ==> id.ts <= c.startTs
  }

  function LastTs(c: Config, blocks: seq<Block>): int {
    if blocks == [] then c.startTs else blocks[|blocks| - 1].ts
  }

  /** What consensus guarantees of the next block: time moves on, and every changed account is reported. */
  predicate Follows(c: Config, blocks: seq<Block>, b: Block) {
    LastTs(c, blocks) < b.ts && b.changes.Keys <= b.altered && b.resolved <= b.altered
  }

  function Init(c: Config): State {
    State([], 0, c.genesis, Ready, [], Idle, c.tables)
  }

  predicate Enabled(c: Config, s: State, step: Step) {
    match step
    case CommitBlock(b) => s.committer.Ready? && Follows(c, s.blocks, b)
    case TakeSnapshot => s.committer.Committed? && |s.blocks| > 0
    case Enqueue => s.committer.Holding? && (|s.queue| < c.capacity || (c.capacity == 0 && s.worker.Idle?))
    case Take => s.worker.Idle? && s.queue != []
    case Try(_) => s.worker.Saving?
  }

  /** The snapshot reads the live state, whatever that is when the step happens. */
  function Exec(c: Config, s: State, step: Step): State
    requires Enabled(c, s, step)
  {
    match step
    case CommitBlock(b) =>
      s.(blocks := s.blocks + [b], live := s.live + b.changes, committer := Committed)
    case TakeSnapshot =>
      var b := s.blocks[|s.blocks| - 1];
      s.(committer := Holding(Item(b.ts, SnapshotDocs(s.live, b.ts, b.resolved))))
    case Enqueue =>
      if c.capacity == 0 then s.(committer := Ready, worker := Saving(s.committer.item))
      else s.(committer := Ready, queue := s.queue + [s.committer.item])
    case Take =>
      s.(worker := Saving(s.queue[0]), queue := s.queue[1..])
    case Try(att) =>
      var item := s.worker.item;
      Conclude(s, AfterAttempt(s.tables, item.ts, item.docs, c.historyEnabled, att),
               Succeeds(s.tables, item.docs, c.historyEnabled, att))
  }

  /** The worker keeps the same item until an attempt succeeds. */
  function Conclude(s: State, tables: Tables, ok: bool): State {
    if ok then s.(tables := tables, worker := Idle, completed := s.completed + 1)
    else s.(tables := tables)
  }

  /** A run: every step is enabled where it is taken. */
  predicate IsRun(c: Config, steps: seq<Step>)
    decreases |steps|, 0
  {
    steps == [] ||
    (IsRun(c, steps[..|steps| - 1]) && Enabled(c, Final(c, steps[..|steps| - 1]), steps[|steps| - 1]))
  }

  function Final(c: Config, steps: seq<Step>): State
    requires IsRun(c, steps)
    decreases |steps|, 1
  {
    if steps == [] then Init(c)
    else Exec(c, Final(c, steps[..|steps| - 1]), steps[|steps| - 1])
  }

  // ------------------------------------------------------------------------
  // The reference: index synchronously, at commit, without failures
  // ------------------------------------------------------------------------

  function ChainAfter(c: Config, blocks: seq<Block>): Chain {
    if blocks == [] then c.genesis
    else ChainAfter(c, blocks[..|blocks| - 1]) + blocks[|blocks| - 1].changes
  }

  /** The documents of the last of these blocks, read from the state that block committed. */
  function Payload(c: Config, blocks: seq<Block>): Item
    requires blocks != []
  {
    var b := blocks[|blocks| - 1];
    Item(b.ts, SnapshotDocs(ChainAfter(c, blocks), b.ts, b.resolved))
  }

  /** One item per block. */
  function Items(c: Config, blocks: seq<Block>): (items: seq<Item>)
    ensures |items| == |blocks|
  {
    if blocks == [] then [] else Items(c, blocks[..|blocks| - 1]) + [Payload(c, blocks)]
  }

  function ItemRows(c: Config, item: Item): map<RowId, HistoryRow> {
    if c.historyEnabled then RowsOf(item.docs, item.ts, item.docs.Keys) else map[]
  }

  function RefHistory(c: Config, blocks: seq<Block>): map<RowId, HistoryRow> {
    if blocks == [] then c.tables.history
    else RefHistory(c, blocks[..|blocks| - 1]) + ItemRows(c, Payload(c, blocks))
  }

  /** What readers of the accounts index are promised of a document. */
  datatype Entry = Entry(live: LiveFields, updatedAt: int)

  function EntryOf(doc: AccountDoc): Entry { Entry(doc.live, doc.updatedAt) }

  function Entries(accounts: map<Address, AccountDoc>): map<Address, Entry> {
    map a | a in accounts :: EntryOf(accounts[a])
  }

  function RefEntries(c: Config, blocks: seq<Block>): map<Address, Entry> {
    if blocks == [] then Entries(c.tables.accounts)
    else RefEntries(c, blocks[..|blocks| - 1]) + Entries(Payload(c, blocks).docs)
  }

  // ------------------------------------------------------------------------
  // The invariant
  // ------------------------------------------------------------------------

  ghost predicate ValidBlocks(c: Config, blocks: seq<Block>) {
    forall i :: 0 <= i < |blocks| ==> Follows(c, blocks[..i], blocks[i])
  }

  /** Blocks whose item the worker has taken. */
  function Taken(s: State): nat {
    s.completed + if s.worker.Saving? then 1 else 0
  }

  /** Blocks whose item has left the commit goroutine. */
  function Sent(s: State): nat {
    Taken(s) + |s.queue|
  }

  /** What is in flight are the items of consecutive blocks, in order. */
  ghost predicate InOrder(capacity: nat, s: State, items: seq<Item>) {
    && |s.queue| <= capacity
    && |items| == Sent(s) + (if s.committer.Ready? then 0 else 1)
    && (s.worker.Saving? ==> s.worker.item == items[s.completed])
    && s.queue == items[Taken(s)..Sent(s)]
    && (s.committer.Holding? ==> s.committer.item == items[Sent(s)])
  }

  /** The item of every block in flight holds that block's own state. */
  ghost predicate FlightInv(c: Config, s: State) {
    && ValidBlocks(c, s.blocks)
    && s.live == ChainAfter(c, s.blocks)
    && InOrder(c.capacity, s, Items(c, s.blocks))
  }

  /** How far the tables may have got: `lo` blocks for certain, `hi` blocks at most. */
  ghost predicate HistoryBetween(history: map<RowId, HistoryRow>, lo: map<RowId, HistoryRow>,
                                 hi: map<RowId, HistoryRow>)
  {
    && lo.Keys <= history.Keys <= hi.Keys
    && forall id :: id in history ==> history[id] == hi[id]
  }

  ghost predicate EntriesBetween(entries: map<Address, Entry>, lo: map<Address, Entry>, hi: map<Address, Entry>) {
    && lo.Keys <= entries.Keys <= hi.Keys
    && forall a :: a in entries ==> entries[a] == hi[a] || (a in lo && entries[a] == lo[a])
  }

  /** The tables lie between two references, and documents do not run ahead of history. */
  ghost predicate Between(t: Tables, loRows: map<RowId, HistoryRow>, hiRows: map<RowId, HistoryRow>,
                          loDocs: map<Address, Entry>, hiDocs: map<Address, Entry>)
  {
    && HistoryBetween(t.history, loRows, hiRows)
    && EntriesBetween(Entries(t.accounts), loDocs, hiDocs)
    && (Entries(t.accounts) == loDocs || t.history == hiRows)
  }

  /** `done` is what the index surely holds, `begun` what it may already hold some of. */
  ghost predicate TablesBetween(c: Config, t: Tables, done: seq<Block>, begun: seq<Block>) {
    Between(t, RefHistory(c, done), RefHistory(c, begun), RefEntries(c, done), RefEntries(c, begun))
  }

  function Done(s: State): seq<Block>
    requires s.completed <= |s.blocks|
  {
    s.blocks[..s.completed]
  }

  function Begun(s: State): seq<Block>
    requires Taken(s) <= |s.blocks|
  {
    s.blocks[..Taken(s)]
  }

  ghost predicate Inv(c: Config, s: State) {
    FlightInv(c, s) && TablesBetween(c, s.tables, Done(s), Begun(s))
  }

  // ------------------------------------------------------------------------
  // Facts about the reference
  // ------------------------------------------------------------------------

  lemma {:induction false} ItemsAt(c: Config, blocks: seq<Block>, k: nat)
    requires k < |blocks|
    ensures Items(c, blocks)[k] == Payload(c, blocks[..k + 1])
  {
    var n := |blocks| - 1;
    if k < n {
      ItemsAt(c, blocks[..n], k);
      assert blocks[..n][..k + 1] == blocks[..k + 1];
    } else {
      assert blocks[..k + 1] == blocks;
    }
  }

  lemma ValidPrefix(c: Config, blocks: seq<Block>, k: nat)
    requires ValidBlocks(c, blocks) && k <= |blocks|
    ensures ValidBlocks(c, blocks[..k])
  {
  }

  lemma {:induction false} TimesIncrease(c: Config, blocks: seq<Block>, i: nat, j: nat)
    requires ValidBlocks(c, blocks) && i < j < |blocks|
    ensures c.startTs < blocks[i].ts < blocks[j].ts
    decreases j
  {
    assert Follows(c, blocks[..j], blocks[j]);
    assert blocks[..j][j - 1] == blocks[j - 1];
    if i < j - 1 {
      TimesIncrease(c, blocks, i, j - 1);
    } else if i == 0 {
      assert Follows(c, blocks[..0], blocks[0]);
    } else {
      TimesIncrease(c, blocks, i - 1, i);
    }
  }

  /** No reference row is later than the last block. */
  lemma {:induction false} RefHistoryTimes(c: Config, blocks: seq<Block>)
    requires ValidConfig(c) && ValidBlocks(c, blocks)
    ensures forall id :: id in RefHistory(c, blocks) ==> id.ts <= LastTs(c, blocks)
  {
    if blocks != [] {
      var n := |blocks| - 1;
      ValidPrefix(c, blocks, n);
      RefHistoryTimes(c, blocks[..n]);
      assert Follows(c, blocks[..n], blocks[n]);
    }
  }

  lemma RefHistoryGrows(c: Config, blocks: seq<Block>, n: nat)
    requires ValidConfig(c) && ValidBlocks(c, blocks) && n < |blocks|
    ensures var rows := ItemRows(c, Payload(c, blocks[..n + 1]));
            && RefHistory(c, blocks[..n + 1]) == RefHistory(c, blocks[..n]) + rows
            && rows.Keys !! RefHistory(c, blocks[..n]).Keys
  {
    assert blocks[..n + 1][..n] == blocks[..n];
    ValidPrefix(c, blocks, n);
    RefHistoryTimes(c, blocks[..n]);
    assert Follows(c, blocks[..n], blocks[n]);
  }

  lemma RefEntriesGrows(c: Config, blocks: seq<Block>, n: nat)
    requires n < |blocks|
    ensures RefEntries(c, blocks[..n + 1]) == RefEntries(c, blocks[..n]) + Entries(Payload(c, blocks[..n + 1]).docs)
  {
    assert blocks[..n + 1][..n] == blocks[..n];
  }

  // ------------------------------------------------------------------------
  // Every step keeps the invariant
  // ------------------------------------------------------------------------

  lemma ValidExtend(c: Config, blocks: seq<Block>, b: Block)
    requires ValidBlocks(c, blocks) && Follows(c, blocks, b)
    ensures ValidBlocks(c, blocks + [b])
  {
  }

  lemma ReferenceExtend(c: Config, blocks: seq<Block>, b: Block)
    ensures ChainAfter(c, blocks + [b]) == ChainAfter(c, blocks) + b.changes
    ensures Items(c, blocks + [b]) == Items(c, blocks) + [Payload(c, blocks + [b])]
  {
  }

  lemma CommitKeepsFlight(c: Config, s: State, b: Block)
    requires FlightInv(c, s) && Enabled(c, s, CommitBlock(b))
    ensures var s' := Exec(c, s, CommitBlock(b));
            FlightInv(c, s') && Done(s') == Done(s) && Begun(s') == Begun(s)
  {
    var blocks := s.blocks + [b];
    ValidExtend(c, s.blocks, b);
    ReferenceExtend(c, s.blocks, b);
    CommitKeepsOrder(c.capacity, s, Items(c, s.blocks), Exec(c, s, CommitBlock(b)), Payload(c, blocks));
    assert blocks[..s.completed] == s.blocks[..s.completed] && blocks[..Taken(s)] == s.blocks[..Taken(s)];
  }

  lemma CommitKeepsOrder(capacity: nat, s: State, items: seq<Item>, s': State, item: Item)
    requires InOrder(capacity, s, items) && s.committer.Ready?
    requires s' == s.(blocks := s'.blocks, live := s'.live, committer := Committed)
    ensures InOrder(capacity, s', items + [item])
  {
  }

  lemma SnapshotKeepsFlight(c: Config, s: State)
    requires FlightInv(c, s) && Enabled(c, s, TakeSnapshot)
    ensures var s' := Exec(c, s, TakeSnapshot);
            FlightInv(c, s') && Done(s') == Done(s) && Begun(s') == Begun(s)
  {
  }

  lemma HandOverKeepsOrder(c: Config, s: State, step: Step, items: seq<Item>)
    requires InOrder(c.capacity, s, items) && Enabled(c, s, step) && (step.Enqueue? || step.Take?)
    ensures InOrder(c.capacity, Exec(c, s, step), items)
  {
  }

  lemma ConcludeKeepsOrder(capacity: nat, s: State, items: seq<Item>, tables: Tables, ok: bool)
    requires InOrder(capacity, s, items) && s.worker.Saving?
    ensures InOrder(capacity, Conclude(s, tables, ok), items)
  {
  }

  lemma BeginWidens(t: Tables, rows: map<RowId, HistoryRow>, docs: map<Address, Entry>,
                    moreRows: map<RowId, HistoryRow>, moreDocs: map<Address, Entry>)
    requires Between(t, rows, rows, docs, docs) && moreRows.Keys !! rows.Keys
    ensures Between(t, rows, rows + moreRows, docs, docs + moreDocs)
  {
    assert Entries(t.accounts) == docs;
  }

  /** Starting on the next block only widens what the tables may hold. */
  lemma BeginKeepsTables(c: Config, t: Tables, blocks: seq<Block>, n: nat)
    requires ValidConfig(c) && ValidBlocks(c, blocks) && n < |blocks|
    requires TablesBetween(c, t, blocks[..n], blocks[..n])
    ensures TablesBetween(c, t, blocks[..n], blocks[..n + 1])
  {
    var item := Payload(c, blocks[..n + 1]);
    RefHistoryGrows(c, blocks, n);
    RefEntriesGrows(c, blocks, n);
    BeginWidens(t, RefHistory(c, blocks[..n]), RefEntries(c, blocks[..n]), ItemRows(c, item), Entries(item.docs));
  }

  lemma HandOverKeepsFlight(c: Config, s: State, step: Step)
    requires FlightInv(c, s) && Enabled(c, s, step) && (step.Enqueue? || step.Take?)
    ensures var s' := Exec(c, s, step);
            && FlightInv(c, s')
            && s'.tables == s.tables && s'.blocks == s.blocks && Done(s') == Done(s)
            && (Begun(s') == Begun(s)
              || (Begun(s) == Done(s) && s.completed < |s.blocks| && Begun(s') == s.blocks[..s.completed + 1]))
  {
    HandOverKeepsOrder(c, s, step, Items(c, s.blocks));
  }

  lemma HandOverKeepsTables(c: Config, t: Tables, blocks: seq<Block>, n: nat, begun: seq<Block>, begun': seq<Block>)
    requires ValidConfig(c) && ValidBlocks(c, blocks) && n <= |blocks|
    requires TablesBetween(c, t, blocks[..n], begun)
    requires begun' == begun || (begun == blocks[..n] && n < |blocks| && begun' == blocks[..n + 1])
    ensures TablesBetween(c, t, blocks[..n], begun')
  {
    if begun' != begun {
      BeginKeepsTables(c, t, blocks, n);
    }
  }

  lemma QueueStepsKeepInv(c: Config, s: State, step: Step)
    requires ValidConfig(c) && Inv(c, s) && Enabled(c, s, step) && (step.Enqueue? || step.Take?)
    ensures Inv(c, Exec(c, s, step))
  {
    HandOverKeepsFlight(c, s, step);
    HandOverKeepsTables(c, s.tables, s.blocks, s.completed, Begun(s), Begun(Exec(c, s, step)));
  }

  /** Rows sent for the next block fit between the reference before it and after it. */
  lemma AttemptKeepsHistory(c: Config, t: Tables, item: Item, att: Attempt, lo: map<RowId, HistoryRow>)
    requires HistoryBetween(t.history, lo, lo + ItemRows(c, item))
    requires ItemRows(c, item).Keys !! lo.Keys
    ensures var after := AfterAttempt(t, item.ts, item.docs, c.historyEnabled, att);
            && HistoryBetween(after.history, lo, lo + ItemRows(c, item))
            && (RowsDone(item.docs, c.historyEnabled, att) ==> after.history == lo + ItemRows(c, item))
            && (t.history == lo + ItemRows(c, item) ==> after.history == lo + ItemRows(c, item))
  {
    if c.historyEnabled {
      var sent := RowsOf(item.docs, item.ts, att.rows);
      assert RowsDone(item.docs, c.historyEnabled, att) ==> sent == ItemRows(c, item);
      RowsFit(t.history, lo, ItemRows(c, item), sent);
    } else {
      assert lo + map[] == lo;
    }
  }

  lemma RowsFit(history: map<RowId, HistoryRow>, lo: map<RowId, HistoryRow>, all: map<RowId, HistoryRow>,
                sent: map<RowId, HistoryRow>)
    requires HistoryBetween(history, lo, lo + all) && all.Keys !! lo.Keys
    requires sent.Keys <= all.Keys && forall id :: id in sent ==> sent[id] == all[id]
    ensures HistoryBetween(history + sent, lo, lo + all)
    ensures sent == all || history == lo + all ==> history + sent == lo + all
  {
  }

  lemma AttemptKeepsEntries(c: Config, t: Tables, item: Item, att: Attempt, lo: map<Address, Entry>)
    requires EntriesBetween(Entries(t.accounts), lo, lo + Entries(item.docs))
    ensures var entries := Entries(WriteDocs(t.accounts, item.docs, att));
            && EntriesBetween(entries, lo, lo + Entries(item.docs))
            && ((forall a :: a in item.docs ==> Lands(t.accounts, item.docs, att, a)) ==>
              entries == lo + Entries(item.docs))
  {
    var after := WriteDocs(t.accounts, item.docs, att);
    var before, entries, hi := Entries(t.accounts), Entries(after), lo + Entries(item.docs);
    forall a | a in entries
      ensures a in hi && (entries[a] == hi[a] || (a in lo && entries[a] == lo[a]))
      ensures a !in item.docs || Lands(t.accounts, item.docs, att, a) ==> entries[a] == hi[a]
    {
      if !Lands(t.accounts, item.docs, att, a) {
        assert a in before && entries[a] == before[a];
      }
    }
  }

  lemma AttemptFits(c: Config, t: Tables, item: Item, att: Attempt, rows: map<RowId, HistoryRow>,
                    docs: map<Address, Entry>)
    requires Between(t, rows, rows + ItemRows(c, item), docs, docs + Entries(item.docs))
    requires ItemRows(c, item).Keys !! rows.Keys
    ensures var after := AfterAttempt(t, item.ts, item.docs, c.historyEnabled, att);
            var hiRows, hiDocs := rows + ItemRows(c, item), docs + Entries(item.docs);
            && Between(after, rows, hiRows, docs, hiDocs)
            && (Succeeds(t, item.docs, c.historyEnabled, att) ==> Between(after, hiRows, hiRows, hiDocs, hiDocs))
  {
    AttemptKeepsHistory(c, t, item, att, rows);
    AttemptKeepsEntries(c, t, item, att, docs);
  }

  lemma AttemptKeepsTables(c: Config, t: Tables, blocks: seq<Block>, n: nat, att: Attempt)
    requires ValidConfig(c) && ValidBlocks(c, blocks) && n < |blocks|
    requires TablesBetween(c, t, blocks[..n], blocks[..n + 1])
    ensures var item := Payload(c, blocks[..n + 1]);
            var after := AfterAttempt(t, item.ts, item.docs, c.historyEnabled, att);
            && TablesBetween(c, after, blocks[..n], blocks[..n + 1])
            && (Succeeds(t, item.docs, c.historyEnabled, att) ==>
              TablesBetween(c, after, blocks[..n + 1], blocks[..n + 1]))
  {
    RefHistoryGrows(c, blocks, n);
    RefEntriesGrows(c, blocks, n);
    AttemptFits(c, t, Payload(c, blocks[..n + 1]), att, RefHistory(c, blocks[..n]), RefEntries(c, blocks[..n]));
  }

  lemma ConcludeKeepsInv(c: Config, s: State, tables: Tables, ok: bool)
    requires FlightInv(c, s) && s.worker.Saving?
    requires TablesBetween(c, tables, if ok then Begun(s) else Done(s), Begun(s))
    ensures Inv(c, Conclude(s, tables, ok))
  {
    var s' := Conclude(s, tables, ok);
    ConcludeKeepsOrder(c.capacity, s, Items(c, s.blocks), tables, ok);
    assert Begun(s') == Begun(s) && Done(s') == if ok then Begun(s) else Done(s);
  }

  lemma TryKeepsInv(c: Config, s: State, att: Attempt)
    requires ValidConfig(c) && Inv(c, s) && Enabled(c, s, Try(att))
    ensures Inv(c, Exec(c, s, Try(att)))
  {
    ItemsAt(c, s.blocks, s.completed);
    AttemptKeepsTables(c, s.tables, s.blocks, s.completed, att);
    var item := s.worker.item;
    ConcludeKeepsInv(c, s, AfterAttempt(s.tables, item.ts, item.docs, c.historyEnabled, att),
                     Succeeds(s.tables, item.docs, c.historyEnabled, att));
  }

  /**
  The worker moves on exactly when the documents' request went out and everything was
  applied and acknowledged; a refused history request leaves the documents as they were.
  */
  lemma TryMeaning(c: Config, s: State, att: Attempt)
    requires Enabled(c, s, Try(att))
    ensures var s' := Exec(c, s, Try(att));
            var docs := s.worker.item.docs;
            && (c.historyEnabled && !att.rowsAcked ==>
                  s'.tables.accounts == s.tables.accounts && s'.worker == s.worker && s'.completed == s.completed)
            && (s'.worker.Idle? <==>
                  && att.stepsOk && att.acked
                  && (c.historyEnabled ==> att.rowsAcked && forall a :: a in docs ==> a in att.rows)
                  && forall a :: a in docs ==> a in att.docs && (a in att.present ==> a in s.tables.accounts))
            && s'.completed == s.completed + (if s'.worker.Idle? then 1 else 0)
  {
    AttemptMeaning(s.tables, s.worker.item.ts, s.worker.item.docs, c.historyEnabled, att, "");
  }

  lemma StepKeepsInv(c: Config, s: State, step: Step)
    requires ValidConfig(c) && Inv(c, s) && Enabled(c, s, step)
    ensures Inv(c, Exec(c, s, step))
  {
    match step
    case CommitBlock(b) => CommitKeepsFlight(c, s, b);
    case TakeSnapshot => SnapshotKeepsFlight(c, s);
    case Enqueue => QueueStepsKeepInv(c, s, step);
    case Take => QueueStepsKeepInv(c, s, step);
    case Try(att) => TryKeepsInv(c, s, att);
  }

  lemma InitHasInv(c: Config)
    ensures Inv(c, Init(c))
  {
    var s := Init(c);
    assert s.blocks[..0] == [] && Done(s) == [] && Begun(s) == [];
    BetweenItself(c.tables);
  }

  lemma BetweenItself(t: Tables)
    ensures Between(t, t.history, t.history, Entries(t.accounts), Entries(t.accounts))
  {
  }

  lemma {:induction false} RunKeepsInv(c: Config, steps: seq<Step>)
    requires ValidConfig(c) && IsRun(c, steps)
    ensures Inv(c, Final(c, steps))
  {
    if steps == [] {
      InitHasInv(c);
    } else {
      var before := steps[..|steps| - 1];
      RunKeepsInv(c, before);
      StepKeepsInv(c, Final(c, before), steps[|steps| - 1]);
    }
  }

  // ------------------------------------------------------------------------
  // Main results: history
  // ------------------------------------------------------------------------

  /** The balances of an account in the state committed by the last of these blocks. */
  function RowAt(c: Config, blocks: seq<Block>, a: Address): HistoryRow
    requires blocks != []
  {
    HistoryRow(AccountOf(ChainAfter(c, blocks), a).live.balances, 1000 * blocks[|blocks| - 1].ts)
  }

  lemma LaterBlocksHaveNoRows(c: Config, blocks: seq<Block>, k: nat, i: nat, a: Address)
    requires ValidConfig(c) && ValidBlocks(c, blocks) && k <= i < |blocks|
    ensures RowId(a, blocks[i].ts) !in RefHistory(c, blocks[..k])
  {
    ValidPrefix(c, blocks, k);
    RefHistoryTimes(c, blocks[..k]);
    if k > 0 {
      TimesIncrease(c, blocks, k - 1, k);
      if k < i {
        TimesIncrease(c, blocks, k, i);
      }
    } else {
      assert Follows(c, blocks[..i], blocks[i]);
      if i > 0 {
        TimesIncrease(c, blocks, 0, i);
      }
    }
  }

  /** The last block's rows carry its own timestamp and no other. */
  lemma RowsOfLast(c: Config, blocks: seq<Block>, a: Address, ts: int)
    requires blocks != []
    ensures var rows := ItemRows(c, Payload(c, blocks));
            var b := blocks[|blocks| - 1];
            && (RowId(a, ts) in rows <==> c.historyEnabled && ts == b.ts && a in b.resolved)
            && (RowId(a, ts) in rows ==> rows[RowId(a, ts)] == RowAt(c, blocks, a))
  {
  }

  /** The reference holds a row for a block's timestamp exactly for the accounts that block resolved. */
  lemma {:induction false} RefHistoryExact(c: Config, blocks: seq<Block>, i: nat, a: Address)
    requires ValidConfig(c) && ValidBlocks(c, blocks) && i < |blocks|
    ensures var id := RowId(a, blocks[i].ts);
            && (id in RefHistory(c, blocks) <==> c.historyEnabled && a in blocks[i].resolved)
            && (id in RefHistory(c, blocks) ==> RefHistory(c, blocks)[id] == RowAt(c, blocks[..i + 1], a))
  {
    var n := |blocks| - 1;
    assert blocks[..n + 1] == blocks;
    RefHistoryGrows(c, blocks, n);
    RowsOfLast(c, blocks, a, blocks[i].ts);
    if i == n {
      LaterBlocksHaveNoRows(c, blocks, n, n, a);
    } else {
      ValidPrefix(c, blocks, n);
      RefHistoryExact(c, blocks[..n], i, a);
      assert blocks[..n][..i + 1] == blocks[..i + 1];
      TimesIncrease(c, blocks, i, n);
    }
  }

  /**
  In every reachable state, a history row stored under a block's timestamp holds the
  balances of the state that block committed, and only accounts the block resolved
  have one; once a block is done, all of them do.
  */
  lemma {:induction false} HistoryIsSound(c: Config, steps: seq<Step>, i: nat, a: Address)
    requires ValidConfig(c) && IsRun(c, steps) && i < |Final(c, steps).blocks|
    ensures var s := Final(c, steps);
            var id := RowId(a, s.blocks[i].ts);
            && (id in s.tables.history ==>
                  && a in s.blocks[i].resolved
                  && s.tables.history[id].timestamp == 1000 * s.blocks[i].ts
                  && s.tables.history[id].balances == AccountOf(ChainAfter(c, s.blocks[..i + 1]), a).live.balances)
            && (i < s.completed && c.historyEnabled && a in s.blocks[i].resolved ==> id in s.tables.history)
  {
    var s := Final(c, steps);
    RunKeepsInv(c, steps);
    RowsInPrefix(c, s.blocks, Taken(s), i, a);
    RowsInPrefix(c, s.blocks, s.completed, i, a);
  }

  lemma RowsInPrefix(c: Config, blocks: seq<Block>, k: nat, i: nat, a: Address)
    requires ValidConfig(c) && ValidBlocks(c, blocks) && k <= |blocks| && i < |blocks|
    ensures var id := RowId(a, blocks[i].ts);
            var rows := RefHistory(c, blocks[..k]);
            && (id in rows <==> i < k && c.historyEnabled && a in blocks[i].resolved)
            && (id in rows ==> rows[id] == RowAt(c, blocks[..i + 1], a))
  {
    if i < k {
      ValidPrefix(c, blocks, k);
      RefHistoryExact(c, blocks[..k], i, a);
      assert blocks[..k][..i + 1] == blocks[..i + 1];
    } else {
      LaterBlocksHaveNoRows(c, blocks, k, i, a);
    }
  }

  /**
  Documents never run ahead of history: if any document already shows the block being
  saved, all history rows of that block are in place.
  */
  lemma {:induction false} HistoryLeadsDocuments(c: Config, steps: seq<Step>, a: Address)
    requires ValidConfig(c) && IsRun(c, steps) && a in Final(c, steps).tables.accounts
    ensures var s := Final(c, steps);
            && s.completed <= Taken(s) <= |s.blocks|
            && ((a in RefEntries(c, Done(s)) && EntryOf(s.tables.accounts[a]) == RefEntries(c, Done(s))[a])
                || s.tables.history == RefHistory(c, Begun(s)))
  {
    RunKeepsInv(c, steps);
    assert a in Entries(Final(c, steps).tables.accounts);
  }

  // ------------------------------------------------------------------------
  // Main results: the accounts index
  // ------------------------------------------------------------------------

  predicate Quiescent(s: State) {
    s.committer.Ready? && s.queue == [] && s.worker.Idle?
  }

  /**
  In every run an item is handed over exactly while fewer than `capacity` wait, or, without
  a buffer, when the worker waits for one.
  */
  lemma {:induction false} HandsOverExactly(c: Config, steps: seq<Step>)
    requires ValidConfig(c) && IsRun(c, steps)
    ensures var s := Final(c, steps);
            var waiting := |s.blocks| - 1 - Taken(s);
            Enabled(c, s, Enqueue) <==>
              s.committer.Holding? && (waiting < c.capacity || (c.capacity == 0 && s.worker.Idle?))
  {
    RunKeepsInv(c, steps);
  }

  /**
  Whenever nothing is in flight the index is what the reference indexer holds, for every
  interleaving, queue size, wrong probe and partly failed attempt along the way.
  */
  lemma {:induction false} QuiescentMatchesReference(c: Config, steps: seq<Step>)
    requires ValidConfig(c) && IsRun(c, steps) && Quiescent(Final(c, steps))
    ensures var s := Final(c, steps);
            && s.tables.history == RefHistory(c, s.blocks)
            && Entries(s.tables.accounts) == RefEntries(c, s.blocks)
  {
    RunKeepsInv(c, steps);
    QuiescentIsDone(c, Final(c, steps));
  }

  lemma QuiescentIsDone(c: Config, s: State)
    requires Inv(c, s) && Quiescent(s)
    ensures Done(s) == s.blocks && Begun(s) == s.blocks
    ensures s.tables.history == RefHistory(c, s.blocks) && Entries(s.tables.accounts) == RefEntries(c, s.blocks)
  {
    assert Done(s) == s.blocks && Begun(s) == s.blocks;
    Pinched(s.tables, RefHistory(c, s.blocks), RefEntries(c, s.blocks));
  }

  lemma Pinched(t: Tables, rows: map<RowId, HistoryRow>, docs: map<Address, Entry>)
    requires Between(t, rows, rows, docs, docs)
    ensures t.history == rows && Entries(t.accounts) == docs
  {
  }

  ghost predicate LastResolvedBy(blocks: seq<Block>, i: nat, a: Address) {
    i < |blocks| && a in blocks[i].resolved && forall j :: i < j < |blocks| ==> a !in blocks[j].resolved
  }

  lemma {:induction false} RefEntryExact(c: Config, blocks: seq<Block>, i: nat, a: Address)
    requires LastResolvedBy(blocks, i, a)
    ensures a in RefEntries(c, blocks)
    ensures RefEntries(c, blocks)[a] == EntryOf(BuildDoc(AccountOf(ChainAfter(c, blocks[..i + 1]), a), blocks[i].ts))
  {
    var n := |blocks| - 1;
    assert blocks[..n + 1] == blocks;
    if i < n {
      RefEntryExact(c, blocks[..n], i, a);
      assert blocks[..n][..i + 1] == blocks[..i + 1];
      assert a !in blocks[n].resolved;
    }
  }

  lemma {:induction false} UnalteredIsUnchanged(c: Config, blocks: seq<Block>, i: nat, a: Address)
    requires ValidBlocks(c, blocks) && i <= |blocks|
    requires forall j :: i <= j < |blocks| ==> a !in blocks[j].altered
    ensures AccountOf(ChainAfter(c, blocks), a) == AccountOf(ChainAfter(c, blocks[..i]), a)
  {
    if i == |blocks| {
      assert blocks[..i] == blocks;
    } else {
      var n := |blocks| - 1;
      ValidPrefix(c, blocks, n);
      UnalteredIsUnchanged(c, blocks[..n], i, a);
      assert blocks[..n][..i] == blocks[..i];
      assert Follows(c, blocks[..n], blocks[n]) && a !in blocks[n].altered;
    }
  }

  /** A document always shows the account as of the last block that resolved it, stamped with that block's time. */
  lemma {:induction false} DocShowsLastResolution(c: Config, steps: seq<Step>, i: nat, a: Address)
    requires ValidConfig(c) && IsRun(c, steps) && Quiescent(Final(c, steps))
    requires LastResolvedBy(Final(c, steps).blocks, i, a)
    ensures var s := Final(c, steps);
            && a in s.tables.accounts
            && s.tables.accounts[a].live == AccountOf(ChainAfter(c, s.blocks[..i + 1]), a).live
            && s.tables.accounts[a].updatedAt == 1000 * s.blocks[i].ts
  {
    var s := Final(c, steps);
    QuiescentMatchesReference(c, steps);
    RefEntryExact(c, s.blocks, i, a);
    assert a in Entries(s.tables.accounts);
  }

  /** If the block that last altered the account also resolved it, the document agrees with current chain state. */
  lemma {:induction false} DocAgreesWithChain(c: Config, steps: seq<Step>, i: nat, a: Address)
    requires ValidConfig(c) && IsRun(c, steps) && Quiescent(Final(c, steps))
    requires i < |Final(c, steps).blocks| && a in Final(c, steps).blocks[i].resolved
    requires forall j :: i < j < |Final(c, steps).blocks| ==> a !in Final(c, steps).blocks[j].altered
    ensures var s := Final(c, steps);
            a in s.tables.accounts && s.tables.accounts[a].live == AccountOf(s.live, a).live
  {
    var s := Final(c, steps);
    RunKeepsInv(c, steps);
    forall j | i < j < |s.blocks|
      ensures a !in s.blocks[j].resolved
    {
      assert Follows(c, s.blocks[..j], s.blocks[j]);
    }
    DocShowsLastResolution(c, steps, i, a);
    UnalteredIsUnchanged(c, s.blocks, i + 1, a);
  }

  // ------------------------------------------------------------------------
  // Main results: progress
  // ------------------------------------------------------------------------

  lemma Extend(c: Config, steps: seq<Step>, step: Step)
    requires IsRun(c, steps) && Enabled(c, Final(c, steps), step)
    ensures IsRun(c, steps + [step])
    ensures Final(c, steps + [step]) == Exec(c, Final(c, steps), step)
  {
  }

  function Outstanding(s: State): nat {
    (match s.committer case Ready => 0 case Committed => 4 case Holding(_) => 3)
    + 2 * |s.queue|
    + if s.worker.Saving? then 1 else 0
  }

  /** The step a healthy cluster takes next. */
  function DrainStep(s: State): Step {
    if s.worker.Saving? then Try(CleanAttempt(s.tables, s.worker.item.docs))
    else if s.queue != [] then Take
    else if s.committer.Committed? then TakeSnapshot
    else Enqueue
  }

  lemma DrainStepDrains(c: Config, s: State)
    requires FlightInv(c, s) && !Quiescent(s)
    ensures Enabled(c, s, DrainStep(s))
    ensures Outstanding(Exec(c, s, DrainStep(s))) < Outstanding(s)
    ensures Exec(c, s, DrainStep(s)).blocks == s.blocks
  {
  }

  lemma DrainOnce(c: Config, steps: seq<Step>) returns (longer: seq<Step>)
    requires ValidConfig(c) && IsRun(c, steps) && !Quiescent(Final(c, steps))
    ensures longer == steps + [DrainStep(Final(c, steps))] && IsRun(c, longer)
    ensures Outstanding(Final(c, longer)) < Outstanding(Final(c, steps))
    ensures Final(c, longer).blocks == Final(c, steps).blocks
  {
    RunKeepsInv(c, steps);
    DrainStepDrains(c, Final(c, steps));
    Extend(c, steps, DrainStep(Final(c, steps)));
    longer := steps + [DrainStep(Final(c, steps))];
  }

  /** No run can get stuck: from every reachable state a cluster that recovers lets the index catch up. */
  lemma {:induction false} EveryRunCanDrain(c: Config, steps: seq<Step>) returns (drained: seq<Step>)
    requires ValidConfig(c) && IsRun(c, steps)
    ensures steps <= drained && IsRun(c, drained)
    ensures Quiescent(Final(c, drained))
    ensures Final(c, drained).blocks == Final(c, steps).blocks
    decreases Outstanding(Final(c, steps))
  {
    if Quiescent(Final(c, steps)) {
      drained := steps;
    } else {
      var longer := DrainOnce(c, steps);
      drained := EveryRunCanDrain(c, longer);
    }
  }
}
