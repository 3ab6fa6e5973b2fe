/**
Log documents are written by a scripted upsert, so that a replayed or late block cannot
overwrite a newer document: the stored one is replaced only by one at least as new.
*/
module LogUpserts {
  import opened Prelude

  /** A stored document may come from before timestamps were kept; a written one always has one. */
  datatype Doc = Doc(timestamp: Option<int>, content: string)

  datatype Log = Log(timestamp: int, content: string)

  function ToDoc(log: Log): Doc { Doc(Some(log.timestamp), log.content) }

  /** The upsert script on one document. */
  function Upsert(stored: Option<Doc>, log: Log): Option<Doc> {
    if stored.None? then Some(ToDoc(log))
    else if stored.value.timestamp.Some? then
      if stored.value.timestamp.value <= log.timestamp then Some(ToDoc(log)) else stored
    else Some(ToDoc(log))
  }

  function UpsertAll(stored: Option<Doc>, logs: seq<Log>): Option<Doc> {
    if logs == [] then stored else Upsert(UpsertAll(stored, logs[..|logs| - 1]), logs[|logs| - 1])
  }

  /** A write that no other write of the series is newer than, and none after it is as new as. */
  ghost predicate IsLatest(logs: seq<Log>, k: int) {
    && 0 <= k < |logs|
    && (forall i :: 0 <= i < |logs| ==> logs[i].timestamp <= logs[k].timestamp)
    && (forall i :: k < i < |logs| ==> logs[i].timestamp < logs[k].timestamp)
  }

  /** Whether the document that was there outlives the series. */
  ghost predicate Outlives(stored: Option<Doc>, logs: seq<Log>) {
    stored.Some? && stored.value.timestamp.Some? && forall i :: 0 <= i < |logs| ==>
      logs[i].timestamp < stored.value.timestamp.value
  }

  /**
  The stored document ends as the last applied among the writes with the greatest
  timestamp, unless an older document is newer than all.
  */
  lemma {:induction false} LatestWins(stored: Option<Doc>, logs: seq<Log>) returns (k: int)
    requires logs != []
    ensures IsLatest(logs, k)
    ensures UpsertAll(stored, logs) == if Outlives(stored, logs) then stored else Some(ToDoc(logs[k]))
  {
    var n := |logs| - 1;
    var before, last := logs[..n], logs[n];
    if n == 0 {
      k := 0;
      assert before == [];
    } else {
      var j := LatestWins(stored, before);
      k := if before[j].timestamp <= last.timestamp then n else j;
      assert Outlives(stored, logs) ==> Outlives(stored, before);
      assert Outlives(stored, before) && last.timestamp < stored.value.timestamp.value ==> Outlives(stored, logs);
      assert logs[j] == before[j];
    }
  }

  ghost function Writes(logs: seq<Log>): set<Log> { set x | x in logs }

  ghost predicate Newest(writes: set<Log>, x: Log) {
    x in writes && forall y :: y in writes ==> y.timestamp <= x.timestamp
  }

  /** The greatest timestamp comes with one content only. */
  ghost predicate NewestIsUnique(writes: set<Log>) {
    forall x, y :: Newest(writes, x) && Newest(writes, y) ==> x == y
  }

  /**
  If the greatest timestamp determines the content, neither the order of the writes nor
  how often each is repeated makes a difference: only which writes there were.
  */
  lemma ReplaysDoNotMatter(stored: Option<Doc>, a: seq<Log>, b: seq<Log>)
    requires Writes(a) == Writes(b) && NewestIsUnique(Writes(a))
    ensures UpsertAll(stored, a) == UpsertAll(stored, b)
  {
    SameLength(a, b);
    if a != [] {
      var k := LatestWins(stored, a);
      var l := LatestWins(stored, b);
      LatestIsNewest(a, k);
      LatestIsNewest(b, l);
      SameOutlives(stored, a, b);
    }
  }

  lemma LatestIsNewest(logs: seq<Log>, k: int)
    requires IsLatest(logs, k)
    ensures Newest(Writes(logs), logs[k])
  {
  }

  lemma SameLength(a: seq<Log>, b: seq<Log>)
    requires Writes(a) == Writes(b)
    ensures a == [] <==> b == []
  {
    if a != [] {
      assert a[0] in Writes(a);
    }
    if b != [] {
      assert b[0] in Writes(b);
    }
  }

  lemma SameOutlives(stored: Option<Doc>, a: seq<Log>, b: seq<Log>)
    requires Writes(a) == Writes(b)
    ensures Outlives(stored, a) <==> Outlives(stored, b)
  {
    forall i | 0 <= i < |a|
      ensures a[i] in b
    {
      assert a[i] in Writes(a);
    }
    forall i | 0 <= i < |b|
      ensures b[i] in a
    {
      assert b[i] in Writes(b);
    }
  }

  /**
  Otherwise it does matter: two different newest writes can each be made the last one,
  and each then wins, unless the document that was there is newer than all of them.
  */
  lemma OrderMattersOtherwise(stored: Option<Doc>, logs: seq<Log>, x: Log, y: Log)
    requires Newest(Writes(logs), x) && Newest(Writes(logs), y) && x != y && !Outlives(stored, logs)
    ensures Writes(logs + [x]) == Writes(logs) && Writes(logs + [y]) == Writes(logs)
    ensures UpsertAll(stored, logs + [x]) == Some(ToDoc(x))
    ensures UpsertAll(stored, logs + [y]) == Some(ToDoc(y))
    ensures UpsertAll(stored, logs + [x]) != UpsertAll(stored, logs + [y])
  {
    NewestLastWins(stored, logs, x);
    NewestLastWins(stored, logs, y);
  }

  lemma NewestLastWins(stored: Option<Doc>, logs: seq<Log>, x: Log)
    requires Newest(Writes(logs), x) && !Outlives(stored, logs)
    ensures Writes(logs + [x]) == Writes(logs)
    ensures UpsertAll(stored, logs + [x]) == Some(ToDoc(x))
  {
    assert x in logs;
    var k := LatestWins(stored, logs);
    assert logs[k] in Writes(logs);
    assert (logs + [x])[..|logs|] == logs;
  }

  /** A replay of blocks already indexed changes nothing. */
  lemma ReplayIsIdempotent(stored: Option<Doc>, logs: seq<Log>, again: seq<Log>)
    requires Writes(again) <= Writes(logs) && NewestIsUnique(Writes(logs))
    ensures UpsertAll(UpsertAll(stored, logs), again) == UpsertAll(stored, logs)
  {
    UpsertConcat(stored, logs, again);
    assert Writes(logs + again) == Writes(logs);
    ReplaysDoNotMatter(stored, logs + again, logs);
  }

  lemma {:induction false} UpsertConcat(stored: Option<Doc>, a: seq<Log>, b: seq<Log>)
    ensures UpsertAll(UpsertAll(stored, a), b) == UpsertAll(stored, a + b)
  {
    if b == [] {
      assert a + b == a;
    } else {
      var n := |b| - 1;
      UpsertConcat(stored, a, b[..n]);
      assert (a + b)[..|a| + n] == a + b[..n];
    }
  }
}
