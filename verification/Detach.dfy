/**
Detaching a prepared block: the indexer gets its own transaction objects, because it
writes to them while the websocket hub is still reading the originals.
*/
module Detach {
  import opened Prelude

  /** The top-level fields of a prepared transaction. */
  datatype TxFields = TxFields(
    hash: string, sender: string, nonce: nat, status: string,
    hasLogs: bool, hasOperations: bool, scAddresses: seq<string>, receipts: seq<string>)

  class Transaction {
    var fields: TxFields

    constructor (fields: TxFields)
      ensures this.fields == fields
    {
      this.fields := fields;
    }
  }

  /** A prepared block; the documents ride along untouched. */
  datatype Prepared = Prepared(txs: seq<Transaction>, txsMap: map<string, Transaction>, accounts: map<string, int>)

  ghost predicate Distinct(txs: seq<Transaction>) {
    forall i, j :: 0 <= i < j < |txs| ==> txs[i] != txs[j]
  }

  /** The last place a transaction stands at. */
  ghost function LastIndex(txs: seq<Transaction>, t: Transaction): (i: nat)
    requires t in txs
    ensures i < |txs| && txs[i] == t
    ensures forall j :: i < j < |txs| ==> txs[j] != t
  {
    if txs[|txs| - 1] == t then |txs| - 1 else LastIndex(txs[..|txs| - 1], t)
  }

  /** `byOriginal` leads from each original to its copy at the original's last place. */
  ghost predicate LeadsToCopies(originals: seq<Transaction>, txs: seq<Transaction>,
                                byOriginal: map<Transaction, Transaction>)
  {
    && |txs| == |originals|
    && (forall t :: t in byOriginal ==> t in originals)
    && (forall t :: t in originals ==> t in byOriginal && byOriginal[t] == txs[LastIndex(originals, t)])
  }

  lemma LeadsToCopiesStep(originals: seq<Transaction>, txs: seq<Transaction>,
                          byOriginal: map<Transaction, Transaction>, x: Transaction, copy: Transaction)
    requires LeadsToCopies(originals, txs, byOriginal)
    ensures LeadsToCopies(originals + [x], txs + [copy], byOriginal[x := copy])
  {
  }

  method CopySlice(originals: seq<Transaction>)
    returns (txs: seq<Transaction>, byOriginal: map<Transaction, Transaction>)
    ensures |txs| == |originals|
    ensures forall i :: 0 <= i < |txs| ==> fresh(txs[i]) && txs[i].fields == originals[i].fields
    ensures Distinct(txs)
    ensures LeadsToCopies(originals, txs, byOriginal)
  {
    txs, byOriginal := [], map[];
    for i := 0 to |originals|
      invariant |txs| == i
      invariant forall k :: 0 <= k < i ==> fresh(txs[k]) && txs[k].fields == originals[k].fields
      invariant Distinct(txs)
      invariant LeadsToCopies(originals[..i], txs, byOriginal)
    {
      var detached := new Transaction(originals[i].fields);
      LeadsToCopiesStep(originals[..i], txs, byOriginal, originals[i], detached);
      assert originals[..i + 1] == originals[..i] + [originals[i]];
      txs := txs + [detached];
      byOriginal := byOriginal[originals[i] := detached];
    }
    assert originals[..|originals|] == originals;
  }

  /** Map entries of the slice lead to the slice's copies; every other entry has an object of its own. */
  ghost predicate MapCopies(p: Prepared, txs: seq<Transaction>, txsMap: map<string, Transaction>, done: set<string>)
    requires |txs| == |p.txs| && done <= p.txsMap.Keys
  {
    && txsMap.Keys == done
    && (forall h :: h in done && p.txsMap[h] in p.txs ==> txsMap[h] == txs[LastIndex(p.txs, p.txsMap[h])])
    && (forall h :: h in done && p.txsMap[h] !in p.txs ==> txsMap[h] !in txs)
    && (forall h, g :: h in done && g in done && h != g && p.txsMap[h] !in p.txs ==> txsMap[h] != txsMap[g])
  }

  method CopyMap(p: Prepared, txs: seq<Transaction>, byOriginal: map<Transaction, Transaction>)
    returns (txsMap: map<string, Transaction>)
    requires LeadsToCopies(p.txs, txs, byOriginal)
    requires forall i :: 0 <= i < |txs| ==> txs[i].fields == p.txs[i].fields
    ensures MapCopies(p, txs, txsMap, p.txsMap.Keys)
    ensures forall h :: h in txsMap ==> (fresh(txsMap[h]) || txsMap[h] in txs) && txsMap[h].fields == p.txsMap[h].fields
  {
    txsMap := map[];
    var todo := p.txsMap.Keys;
    ghost var done: set<string> := {};
    while todo != {}
      invariant todo <= p.txsMap.Keys && done == p.txsMap.Keys - todo
      invariant MapCopies(p, txs, txsMap, done)
      invariant forall h :: h in txsMap ==>
                  (fresh(txsMap[h]) || txsMap[h] in txs) && txsMap[h].fields == p.txsMap[h].fields
      decreases todo
    {
      var hash :| hash in todo;
      var tx := p.txsMap[hash];
      if tx in byOriginal {
        txsMap := txsMap[hash := byOriginal[tx]];
      } else {
        var detached := new Transaction(tx.fields);
        txsMap := txsMap[hash := detached];
      }
      todo, done := todo - {hash}, done + {hash};
    }
  }

  /**
  Which objects are shared after detaching, in terms of before. A map entry is a slice
  entry exactly when it was, and that was the object's last place in the slice; two map
  entries stay one object exactly when they were one that is also in the slice.
  */
  ghost predicate SharesAlike(p: Prepared, q: Prepared) {
    && |q.txs| == |p.txs| && q.txsMap.Keys == p.txsMap.Keys
    && (forall h, i :: h in p.txsMap && 0 <= i < |p.txs| ==>
          (q.txsMap[h] == q.txs[i] <==> p.txsMap[h] in p.txs && i == LastIndex(p.txs, p.txsMap[h])))
    && (forall h, g :: h in p.txsMap && g in p.txsMap && h != g ==>
          (q.txsMap[h] == q.txsMap[g] <==> p.txsMap[h] == p.txsMap[g] && p.txsMap[h] in p.txs))
  }

  lemma CopiesShareAlike(p: Prepared, q: Prepared)
    requires |q.txs| == |p.txs| && Distinct(q.txs) && MapCopies(p, q.txs, q.txsMap, p.txsMap.Keys)
    ensures SharesAlike(p, q)
  {
  }

  /** When the prepared transactions are distinct objects, sharing between slice and map is kept as it was. */
  lemma DistinctSharesExactly(p: Prepared, q: Prepared, h: string, i: nat)
    requires SharesAlike(p, q) && Distinct(p.txs) && h in p.txsMap && i < |p.txs|
    ensures q.txsMap[h] == q.txs[i] <==> p.txsMap[h] == p.txs[i]
  {
  }

  /** Every transaction object that can be reached. */
  function Objects(p: Prepared): (objects: set<Transaction>)
    ensures forall t :: t in p.txs ==> t in objects
    ensures forall h :: h in p.txsMap ==> p.txsMap[h] in objects
  {
    (set t | t in p.txs) + set h | h in p.txsMap :: p.txsMap[h]
  }

  method DetachPreparedBlockData(prepared: Option<Prepared>) returns (r: Option<Prepared>)
    ensures r.Some? <==> prepared.Some?
    ensures prepared.Some? ==>
              var p, q := prepared.value, r.value;
              && |q.txs| == |p.txs| && q.txsMap.Keys == p.txsMap.Keys && q.accounts == p.accounts
              && (forall i :: 0 <= i < |q.txs| ==> fresh(q.txs[i]) && q.txs[i].fields == p.txs[i].fields)
              && (forall h :: h in q.txsMap ==> fresh(q.txsMap[h]) && q.txsMap[h].fields == p.txsMap[h].fields)
              && SharesAlike(p, q)
              && Objects(p) !! Objects(q)
  {
    if prepared.None? {
      return None;
    }
    var p := prepared.value;
    var txs, byOriginal := CopySlice(p.txs);
    var txsMap := CopyMap(p, txs, byOriginal);
    CopiesShareAlike(p, Prepared(txs, txsMap, p.accounts));
    r := Some(Prepared(txs, txsMap, p.accounts));
  }

  /** A write by one of the two sides. */
  datatype Write = Write(byIndexer: bool, target: Transaction, fields: TxFields)

  /** What a side sees of an object when it looks at its own writes only. */
  function Seen(start: TxFields, t: Transaction, byIndexer: bool, writes: seq<Write>): TxFields {
    if writes == [] then start
    else
      var last := writes[|writes| - 1];
      if last.byIndexer == byIndexer && last.target == t then last.fields
      else Seen(start, t, byIndexer, writes[..|writes| - 1])
  }

  /**
  What the detaching is for: however the writes of the hub's side, to anything it can
  reach, and of the indexer's side, to anything of the detached block, are interleaved,
  each side sees its own and none of the other's.
  */
  method WritesStayPrivate(p: Prepared, q: Prepared, writes: seq<Write>)
    requires Objects(p) !! Objects(q)
    requires forall k :: 0 <= k < |writes| ==> writes[k].target in if writes[k].byIndexer then Objects(q)
               else Objects(p)
    modifies Objects(p), Objects(q)
    ensures forall t :: t in Objects(p) ==> t.fields == Seen(old(t.fields), t, false, writes)
    ensures forall t :: t in Objects(q) ==> t.fields == Seen(old(t.fields), t, true, writes)
  {
    for k := 0 to |writes|
      invariant forall t :: t in Objects(p) ==> t.fields == Seen(old(t.fields), t, false, writes[..k])
      invariant forall t :: t in Objects(q) ==> t.fields == Seen(old(t.fields), t, true, writes[..k])
    {
      assert writes[..k + 1][..k] == writes[..k];
      writes[k].target.fields := writes[k].fields;
    }
    assert writes[..|writes|] == writes;
  }

  /** The indexer marks its transactions with what it finds in the logs. */
  method MarkLogs(txs: seq<Transaction>, status: string, scAddresses: seq<string>)
    modifies txs
    ensures forall i :: 0 <= i < |txs| ==>
              txs[i].fields.hasLogs && txs[i].fields.status == status && txs[i].fields.scAddresses == scAddresses
  {
    for i := 0 to |txs|
      invariant forall k :: 0 <= k < i ==>
                  txs[k].fields.hasLogs && txs[k].fields.status == status && txs[k].fields.scAddresses == scAddresses
    {
      txs[i].fields := txs[i].fields.(hasLogs := true, status := status, scAddresses := scAddresses);
    }
  }

  /** In particular the indexer's log marks never show in what the hub reads, through the slice or the map. */
  method IndexerWritesStayPrivate(p: Prepared, status: string, scAddresses: seq<string>) returns (q: Prepared)
    ensures forall i :: 0 <= i < |p.txs| ==> p.txs[i].fields == old(p.txs[i].fields)
    ensures forall h :: h in p.txsMap ==> p.txsMap[h].fields == old(p.txsMap[h].fields)
    ensures forall i :: 0 <= i < |q.txs| ==> q.txs[i].fields.hasLogs && q.txs[i].fields.status == status
    ensures forall h :: h in p.txsMap && p.txsMap[h] in p.txs ==> h in q.txsMap && q.txsMap[h].fields.hasLogs
  {
    var r := DetachPreparedBlockData(Some(p));
    q := r.value;
    MarkLogs(q.txs, status, scAddresses);
    forall h | h in p.txsMap && p.txsMap[h] in p.txs
      ensures h in q.txsMap && q.txsMap[h].fields.hasLogs
    {
      assert q.txsMap[h] == q.txs[LastIndex(p.txs, p.txsMap[h])];
    }
  }
}
