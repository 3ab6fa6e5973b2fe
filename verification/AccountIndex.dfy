/**
The account half of the indexer: how a block's account documents are resolved from
chain state on the commit goroutine, and how one save attempt writes them to the
accounts and accounts-history indices.

Elasticsearch is two tables. One attempt applies any part of the rows and documents
it sends, and reports success only when all of them were applied.
*/
module AccountIndex {

  type Address = string

  datatype Balances = Balances(balance: int, frozen: int, unfrozen: int)

  /** The fields that a full write and a scripted update both store. */
  datatype LiveFields = LiveFields(
    name: string, nonce: nat, rootHash: string,
    balances: Balances, allowance: int, permissions: seq<string>)

  /** The fields that only a full write stores. */
  datatype CodeFields = CodeFields(codeHash: string, codeMetadata: string)

  datatype Account = Account(live: LiveFields, code: CodeFields)

  type Chain = map<Address, Account>

  datatype AccountDoc = AccountDoc(live: LiveFields, code: CodeFields, timestamp: int, updatedAt: int)

  /** The id of a history row: the source renders it as address, underscore, timestamp. */
  datatype RowId = RowId(address: Address, ts: int)

  datatype HistoryRow = HistoryRow(balances: Balances, timestamp: int)

  datatype Tables = Tables(accounts: map<Address, AccountDoc>, history: map<RowId, HistoryRow>)

  const EMPTY_ACCOUNT := Account(LiveFields("", 0, "", Balances(0, 0, 0), 0, []), CodeFields("", ""))

  function ToMilliseconds(ts: int): int { ts * 1000 }

  /** Loading an address that has no state yields an empty account, not an error. */
  function AccountOf(chain: Chain, a: Address): Account {
    if a in chain then chain[a] else EMPTY_ACCOUNT
  }

  function BuildDoc(account: Account, ts: int): AccountDoc {
    AccountDoc(account.live, account.code, ToMilliseconds(ts), ToMilliseconds(ts))
  }

  function SnapshotDocs(chain: Chain, ts: int, resolved: set<Address>): map<Address, AccountDoc> {
    map a | a in resolved :: BuildDoc(AccountOf(chain, a), ts)
  }

  /** What stops one altered account from being resolved. */
  datatype LoadFault = NoFault | Skipped | BuildFails

  /** A document built for the websocket dispatch is reused, so building it cannot fail again. */
  predicate Resolves(fault: LoadFault, alreadyBuilt: bool) {
    fault.NoFault? || (fault.BuildFails? && alreadyBuilt)
  }

  /**
  Resolves a block's altered accounts against the chain state at hand. The documents
  already built must come from that same state.
  */
  method ResolveAlteredAccounts(
    chain: Chain, ts: int, altered: set<Address>,
    built: map<Address, AccountDoc>, fault: Address -> LoadFault)
    returns (docs: map<Address, AccountDoc>, failed: set<Address>)
    requires forall a :: a in built ==> built[a] == BuildDoc(AccountOf(chain, a), ts)
    ensures docs == SnapshotDocs(chain, ts, set a | a in altered && Resolves(fault(a), a in built))
    ensures failed == set a | a in altered && fault(a).BuildFails? && a !in built
    ensures forall a :: a in docs <==> a in altered && !fault(a).Skipped? && (fault(a).NoFault? || a in built)
    ensures forall a :: a in docs ==>
              docs[a].timestamp == docs[a].updatedAt == 1000 * ts && (a in built ==> docs[a] == built[a])
    ensures forall a :: a in docs && a in chain ==> docs[a].live == chain[a].live && docs[a].code == chain[a].code
    ensures forall a :: a in docs && a !in chain ==>
              docs[a].live == LiveFields("", 0, "", Balances(0, 0, 0), 0, []) && docs[a].code == CodeFields("", "")
  {
    docs, failed := map[], {};
    ghost var done: set<Address> := {};
    var todo := altered;
    while todo != {}
      invariant todo <= altered && done == altered - todo
      invariant docs == SnapshotDocs(chain, ts, set a | a in done && Resolves(fault(a), a in built))
      invariant failed == set a | a in done && fault(a).BuildFails? && a !in built
      decreases todo
    {
      var address :| address in todo;
      todo, done := todo - {address}, done + {address};
      if fault(address).Skipped? {
        continue;
      }
      if address in built {
        docs := docs[address := built[address]];
      } else if fault(address).BuildFails? {
        failed := failed + {address};
      } else {
        docs := docs[address := BuildDoc(AccountOf(chain, address), ts)];
      }
    }
  }

  // ------------------------------------------------------------------------
  // One save attempt
  // ------------------------------------------------------------------------

  /**
  The environment's part in one attempt: the addresses the existence probe reports, the
  history rows applied and whether that request is acknowledged, whether every other
  sub-index step succeeds, the account documents applied, and whether the main request is
  acknowledged. A request can be refused although all of these writes were applied: it
  may carry other items that fail, or its reply may be lost.
  */
  datatype Attempt = Attempt(
    present: set<Address>, rows: set<Address>, rowsAcked: bool,
    stepsOk: bool, docs: set<Address>, acked: bool)

  function RowsOf(docs: map<Address, AccountDoc>, ts: int, part: set<Address>): map<RowId, HistoryRow> {
    map a | a in docs && a in part :: RowId(a, ts) := HistoryRow(docs[a].live.balances, ToMilliseconds(ts))
  }

  /** A scripted update keeps the stored code fields and creation timestamp. */
  function Updated(stored: AccountDoc, doc: AccountDoc): AccountDoc {
    stored.(live := doc.live, updatedAt := doc.updatedAt)
  }

  /** A scripted update of a missing document is refused. */
  predicate Accepted(accounts: map<Address, AccountDoc>, present: set<Address>, a: Address) {
    a in present ==> a in accounts
  }

  predicate Lands(accounts: map<Address, AccountDoc>, docs: map<Address, AccountDoc>, att: Attempt, a: Address) {
    a in docs && a in att.docs && Accepted(accounts, att.present, a)
  }

  function WriteDocs(accounts: map<Address, AccountDoc>, docs: map<Address, AccountDoc>,
                     att: Attempt): map<Address, AccountDoc>
  {
    map a | a in accounts.Keys + docs.Keys && (a in accounts || Lands(accounts, docs, att, a)) ::
      if !Lands(accounts, docs, att, a) then accounts[a]
      else if a in att.present then Updated(accounts[a], docs[a])
      else docs[a]
  }

  predicate RowsDone(docs: map<Address, AccountDoc>, historyEnabled: bool, att: Attempt) {
    historyEnabled ==> docs.Keys <= att.rows && att.rowsAcked
  }

  /** The tables after an attempt: history goes first, in its own request; the documents go last. */
  function AfterAttempt(t: Tables, ts: int, docs: map<Address, AccountDoc>, historyEnabled: bool, att: Attempt): Tables
  {
    var history := if historyEnabled then t.history + RowsOf(docs, ts, att.rows) else t.history;
    var reached := RowsDone(docs, historyEnabled, att) && att.stepsOk;
    var accounts := if reached then WriteDocs(t.accounts, docs, att) else t.accounts;
    Tables(accounts, history)
  }

  predicate Succeeds(t: Tables, docs: map<Address, AccountDoc>, historyEnabled: bool, att: Attempt) {
    && RowsDone(docs, historyEnabled, att)
    && att.stepsOk
    && att.acked
    && forall a :: a in docs ==> Lands(t.accounts, docs, att, a)
  }

  datatype BulkOp = IndexOp(address: Address, doc: AccountDoc) | UpdateOp(address: Address, doc: AccountDoc)

  predicate IsOpFor(op: BulkOp, docs: map<Address, AccountDoc>, present: set<Address>) {
    && op.address in docs
    && op.doc == docs[op.address]
    && (op.UpdateOp? <==> op.address in present)
  }

  /** The accounts and accounts-history indices of the cluster. */
  class ElasticIndex {
    var accounts: map<Address, AccountDoc>
    var history: map<RowId, HistoryRow>

    constructor (t: Tables)
      ensures accounts == t.accounts && history == t.history
    {
      accounts, history := t.accounts, t.history;
    }

    function View(): Tables
      reads this
    {
      Tables(accounts, history)
    }

    /** Serializes the documents: full writes for absent ones, scripted updates for present ones. */
    static method SerializeAccounts(docs: map<Address, AccountDoc>, present: set<Address>) returns (buffer: seq<BulkOp>)
      ensures forall i :: 0 <= i < |buffer| ==> IsOpFor(buffer[i], docs, present)
      ensures forall i, j :: 0 <= i < j < |buffer| ==> buffer[i].address != buffer[j].address
      ensures (set i | 0 <= i < |buffer| :: buffer[i].address) == docs.Keys
    {
      var newAccounts: set<Address>, updateAccounts: set<Address> := {}, {};
      var todo := docs.Keys;
      while todo != {}
        invariant todo <= docs.Keys
        invariant newAccounts == docs.Keys - todo - present
        invariant updateAccounts == (docs.Keys - todo) * present
        decreases todo
      {
        var address :| address in todo;
        todo := todo - {address};
        if address in present {
          updateAccounts := updateAccounts + {address};
        } else {
          newAccounts := newAccounts + {address};
        }
      }

      buffer := [];
      todo := newAccounts;
      ghost var written: set<Address> := {};
      while todo != {}
        invariant todo <= newAccounts && written == newAccounts - todo
        invariant forall i :: 0 <= i < |buffer| ==> IsOpFor(buffer[i], docs, present) && buffer[i].address in written
        invariant forall i, j :: 0 <= i < j < |buffer| ==> buffer[i].address != buffer[j].address
        invariant (set i | 0 <= i < |buffer| :: buffer[i].address) == written
        decreases todo
      {
        var address :| address in todo;
        todo := todo - {address};
        ghost var before := buffer;
        buffer := buffer + [IndexOp(address, docs[address])];
        AddressesAppend(before, buffer[|before|]);
        written := written + {address};
      }
      todo := updateAccounts;
      while todo != {}
        invariant todo <= updateAccounts && written == newAccounts + (updateAccounts - todo)
        invariant forall i :: 0 <= i < |buffer| ==> IsOpFor(buffer[i], docs, present) && buffer[i].address in written
        invariant forall i, j :: 0 <= i < j < |buffer| ==> buffer[i].address != buffer[j].address
        invariant (set i | 0 <= i < |buffer| :: buffer[i].address) == written
        decreases todo
      {
        var address :| address in todo;
        todo := todo - {address};
        ghost var before := buffer;
        buffer := buffer + [UpdateOp(address, docs[address])];
        AddressesAppend(before, buffer[|before|]);
        written := written + {address};
      }
    }

    /** Sends the documents in order; the attempt says which ones the cluster carries out. */
    method BulkAccounts(buffer: seq<BulkOp>, docs: map<Address, AccountDoc>, att: Attempt) returns (ok: bool)
      requires forall i :: 0 <= i < |buffer| ==> IsOpFor(buffer[i], docs, att.present)
      requires forall i, j :: 0 <= i < j < |buffer| ==> buffer[i].address != buffer[j].address
      requires (set i | 0 <= i < |buffer| :: buffer[i].address) == docs.Keys
      modifies this`accounts
      ensures accounts == WriteDocs(old(accounts), docs, att)
      ensures ok <==> att.acked && forall a :: a in docs ==> Lands(old(accounts), docs, att, a)
    {
      ok := true;
      ghost var start := accounts;
      ghost var sent: set<Address> := {};
      var i := 0;
      WriteNothing(start, docs, Only(att, sent));
      while i < |buffer|
        invariant 0 <= i <= |buffer|
        invariant sent == set k | 0 <= k < i :: buffer[k].address
        invariant accounts == WriteDocs(start, docs, Only(att, sent))
        invariant ok <==> forall a :: a in sent ==> Lands(start, docs, att, a)
        modifies this`accounts
      {
        var op := buffer[i];
        assert op.address !in sent;
        WriteOne(start, docs, att, sent, op.address);
        if op.address in att.docs {
          match op {
            case IndexOp(address, doc) =>
              accounts := accounts[address := doc];
            case UpdateOp(address, doc) =>
              if address in accounts {
                accounts := accounts[address := Updated(accounts[address], doc)];
              } else {
                ok := false;
              }
          }
        } else {
          ok := false;
        }
        sent := sent + {op.address};
        i := i + 1;
      }
      assert sent == docs.Keys;
      WriteSent(start, docs, att);
      ok := ok && att.acked;
    }

    /** Saves one history row per document, in a request of its own. */
    method SaveAccountsHistory(ts: int, docs: map<Address, AccountDoc>, att: Attempt) returns (ok: bool)
      modifies this`history
      ensures history == old(history) + RowsOf(docs, ts, att.rows)
      ensures ok <==> docs.Keys <= att.rows && att.rowsAcked
    {
      ok := true;
      var todo := docs.Keys;
      ghost var start := history;
      while todo != {}
        invariant todo <= docs.Keys
        invariant history == start + RowsOf(docs, ts, att.rows - todo)
        invariant ok <==> docs.Keys - todo <= att.rows
        modifies this`history
        decreases todo
      {
        var address :| address in todo;
        RowsOfNext(docs, ts, att.rows, todo, address);
        todo := todo - {address};
        if address in att.rows {
          history := history[RowId(address, ts) := HistoryRow(docs[address].live.balances, ToMilliseconds(ts))];
        } else {
          ok := false;
        }
      }
      assert att.rows - {} == att.rows;
      ok := ok && att.rowsAcked;
    }

    /** The account part of saving a block, run by the indexer worker. */
    method SaveBlockAccounts(ts: int, docs: map<Address, AccountDoc>, historyEnabled: bool, att: Attempt)
      returns (ok: bool)
      modifies this
      ensures View() == AfterAttempt(old(View()), ts, docs, historyEnabled, att)
      ensures ok <==> Succeeds(old(View()), docs, historyEnabled, att)
      ensures ok ==> att.stepsOk && att.acked && (historyEnabled ==> att.rowsAcked)
      ensures !att.stepsOk || (historyEnabled && !att.rowsAcked) ==> !ok && accounts == old(accounts)
      ensures historyEnabled && !(docs.Keys <= att.rows) ==> !ok && accounts == old(accounts)
      ensures !att.acked ==> !ok
    {
      var buffer := SerializeAccounts(docs, att.present);
      if historyEnabled {
        ok := SaveAccountsHistory(ts, docs, att);
        if !ok {
          return;
        }
      }
      if !att.stepsOk {
        return false;
      }
      ok := BulkAccounts(buffer, docs, att);
    }
  }

  /** The attempt as far as it concerns the documents sent so far. */
  function Only(att: Attempt, sent: set<Address>): Attempt {
    att.(docs := att.docs * sent)
  }

  lemma WriteNothing(accounts: map<Address, AccountDoc>, docs: map<Address, AccountDoc>, att: Attempt)
    requires att.docs == {}
    ensures WriteDocs(accounts, docs, att) == accounts
  {
  }

  lemma WriteSent(accounts: map<Address, AccountDoc>, docs: map<Address, AccountDoc>, att: Attempt)
    ensures WriteDocs(accounts, docs, Only(att, docs.Keys)) == WriteDocs(accounts, docs, att)
  {
  }

  lemma WriteOne(start: map<Address, AccountDoc>, docs: map<Address, AccountDoc>, att: Attempt, sent: set<Address>,
                 a: Address)
    requires a in docs && a !in sent
    ensures var before := WriteDocs(start, docs, Only(att, sent));
            var after := WriteDocs(start, docs, Only(att, sent + {a}));
            && (a in before <==> a in start)
            && (a in before ==> before[a] == start[a])
            && after == if !Lands(start, docs, att, a) then before
                        else before[a := if a in att.present then Updated(start[a], docs[a]) else docs[a]]
  {
  }

  lemma AddressesAppend(buffer: seq<BulkOp>, op: BulkOp)
    ensures (set i | 0 <= i < |buffer + [op]| :: (buffer + [op])[i].address)
         == (set i | 0 <= i < |buffer| :: buffer[i].address) + {op.address}
  {
    var all := buffer + [op];
    assert all[|buffer|] == op;
    forall i | 0 <= i < |buffer|
      ensures all[i] == buffer[i]
    {
    }
  }

  lemma RowsOfNext(docs: map<Address, AccountDoc>, ts: int, part: set<Address>, todo: set<Address>, a: Address)
    requires todo <= docs.Keys && a in todo
    ensures var before := RowsOf(docs, ts, part - todo);
            RowsOf(docs, ts, part - (todo - {a})) ==
            if a in part then before[RowId(a, ts) := HistoryRow(docs[a].live.balances, ToMilliseconds(ts))] else before
  {
  }

  // ------------------------------------------------------------------------
  // Row ids as the source renders them
  // ------------------------------------------------------------------------

  function Digits(n: nat): string {
    if n < 10 then [DigitChar(n)] else Digits(n / 10) + [DigitChar(n % 10)]
  }

  function DigitChar(d: nat): char
    requires d < 10
  {
    '0' + d as char
  }

  function Decimal(n: int): string { if n < 0 then "-" + Digits(-n) else Digits(n) }

  function RowKey(id: RowId): string { id.address + "_" + Decimal(id.ts) }

  lemma {:induction false} DigitsAreDigits(n: nat)
    ensures Digits(n) != []
    ensures forall i :: 0 <= i < |Digits(n)| ==> '0' <= Digits(n)[i] <= '9'
  {
    if n >= 10 {
      DigitsAreDigits(n / 10);
    }
  }

  lemma {:induction false} DigitsInjective(m: nat, n: nat)
    requires Digits(m) == Digits(n)
    ensures m == n
  {
    DigitsAreDigits(m / 10);
    DigitsAreDigits(n / 10);
    if m >= 10 && n >= 10 {
      var a, b := Digits(m), Digits(n);
      assert a[..|a| - 1] == Digits(m / 10) && b[..|b| - 1] == Digits(n / 10);
      assert a[|a| - 1] == DigitChar(m % 10) && b[|b| - 1] == DigitChar(n % 10);
      DigitsInjective(m / 10, n / 10);
    }
  }

  /** Reading a row of decimal digits. */
  function FromDigits(s: string): int {
    if s == [] then 0 else 10 * FromDigits(s[..|s| - 1]) + (s[|s| - 1] as int - '0' as int)
  }

  /** The row id spells out the timestamp: its digits read back as the number, after a minus sign if negative. */
  lemma {:induction false} DigitsReadBack(n: nat)
    ensures FromDigits(Digits(n)) == n
  {
    if n < 10 {
      assert Digits(n)[..0] == [];
    } else {
      DigitsReadBack(n / 10);
      assert Digits(n)[..|Digits(n)| - 1] == Digits(n / 10);
    }
  }

  lemma DecimalHasNoUnderscore(n: int)
    ensures '_' !in Decimal(n)
  {
    DigitsAreDigits(if n < 0 then -n else n);
  }

  lemma DecimalInjective(m: int, n: int)
    requires Decimal(m) == Decimal(n)
    ensures m == n
  {
    var a: nat, b: nat := if m < 0 then -m else m, if n < 0 then -n else n;
    DigitsAreDigits(a);
    DigitsAreDigits(b);
    assert Decimal(m)[0] == Decimal(n)[0];
    if m < 0 {
      assert Decimal(m)[1..] == Digits(a) && Decimal(n)[1..] == Digits(b);
    }
    DigitsInjective(a, b);
  }

  /** Rows of different accounts or blocks never share a document id, whatever characters an address has. */
  lemma RowKeysDoNotCollide(x: RowId, y: RowId)
    requires RowKey(x) == RowKey(y)
    ensures x == y
    ensures RowKey(x)[..|x.address| + 1] == x.address + "_"
    ensures x.ts >= 0 ==> FromDigits(RowKey(x)[|x.address| + 1..]) == x.ts
  {
    assert RowKey(x)[|x.address| + 1..] == Decimal(x.ts);
    if x.ts >= 0 {
      DigitsReadBack(x.ts);
    }
    var a, b := Decimal(x.ts), Decimal(y.ts);
    DecimalHasNoUnderscore(x.ts);
    DecimalHasNoUnderscore(y.ts);
    LastUnderscore(x.address, a, y.address, b);
    DecimalInjective(x.ts, y.ts);
  }

  lemma LastUnderscore(p: string, a: string, q: string, b: string)
    requires p + "_" + a == q + "_" + b && '_' !in a && '_' !in b
    ensures p == q && a == b
  {
    var s, t := p + "_" + a, q + "_" + b;
    forall k | |p| < k < |s|
      ensures s[k] != '_'
    {
      assert s[k] == a[k - |p| - 1];
    }
    forall k | |q| < k < |t|
      ensures t[k] != '_'
    {
      assert t[k] == b[k - |q| - 1];
    }
    assert s[|p|] == '_' && t[|q|] == '_';
    assert |p| == |q|;
    assert s[..|p|] == p && t[..|q|] == q && s[|p| + 1..] == a && t[|q| + 1..] == b;
  }

  // ------------------------------------------------------------------------
  // What an attempt can and cannot do
  // ------------------------------------------------------------------------

  /** The main request goes out only after an acknowledged history request with every row, and all other steps. */
  predicate Reaches(docs: map<Address, AccountDoc>, historyEnabled: bool, att: Attempt) {
    att.stepsOk && (historyEnabled ==> att.rowsAcked && forall a :: a in docs ==> a in att.rows)
  }

  /**
  An attempt in terms of what the cluster did. Documents are written only when the main
  request goes out, and then each that is applied: whole, or over the stored one when the
  probe reported it. The verdict is success exactly when all went out, was applied and was
  acknowledged.
  */
  lemma AttemptMeaning(t: Tables, ts: int, docs: map<Address, AccountDoc>, historyEnabled: bool, att: Attempt,
                       a: Address)
    ensures var after := AfterAttempt(t, ts, docs, historyEnabled, att);
            && (!Reaches(docs, historyEnabled, att) ==> after.accounts == t.accounts)
            && (Reaches(docs, historyEnabled, att) && a in docs && a in att.docs ==>
                  && (a !in att.present ==> a in after.accounts && after.accounts[a] == docs[a])
                  && (a in att.present && a in t.accounts ==>
                        a in after.accounts && after.accounts[a] ==
                        AccountDoc(docs[a].live, t.accounts[a].code, t.accounts[a].timestamp, docs[a].updatedAt)))
            && (a !in docs || a !in att.docs || (a in att.present && a !in t.accounts) ==>
                  (a in after.accounts <==> a in t.accounts) &&
                  (a in t.accounts ==> after.accounts[a] == t.accounts[a]))
            && (historyEnabled && a in docs && a in att.rows ==>
                  RowId(a, ts) in after.history &&
                  after.history[RowId(a, ts)] == HistoryRow(docs[a].live.balances, 1000 * ts))
    ensures Succeeds(t, docs, historyEnabled, att) <==>
              && Reaches(docs, historyEnabled, att)
              && att.acked
              && forall x :: x in docs ==> x in att.docs && (x in att.present ==> x in t.accounts)
  {
    var after := AfterAttempt(t, ts, docs, historyEnabled, att);
    assert Reaches(docs, historyEnabled, att) <==> RowsDone(docs, historyEnabled, att) && att.stepsOk;
    if historyEnabled && a in docs && a in att.rows {
      assert RowId(a, ts) in RowsOf(docs, ts, att.rows);
    }
  }

  /** The tables after a series of attempts to save the same documents. */
  function AfterAttempts(t: Tables, ts: int, docs: map<Address, AccountDoc>, historyEnabled: bool,
                         atts: seq<Attempt>): Tables
  {
    if atts == [] then t
    else
      var n := |atts| - 1;
      AfterAttempt(AfterAttempts(t, ts, docs, historyEnabled, atts[..n]), ts, docs, historyEnabled, atts[n])
  }

  /** `s` differs from `t` only where the documents are concerned. */
  ghost predicate Drifted(t: Tables, s: Tables, ts: int, docs: map<Address, AccountDoc>) {
    var rows := RowsOf(docs, ts, docs.Keys);
    && t.history.Keys <= s.history.Keys <= t.history.Keys + rows.Keys
    && (forall id :: id in s.history && id !in rows ==> s.history[id] == t.history[id])
    && t.accounts.Keys <= s.accounts.Keys <= t.accounts.Keys + docs.Keys
    && (forall a :: a in s.accounts && a !in docs ==> s.accounts[a] == t.accounts[a])
  }

  lemma AttemptDrifts(t: Tables, s: Tables, ts: int, docs: map<Address, AccountDoc>, historyEnabled: bool, att: Attempt)
    requires Drifted(t, s, ts, docs)
    ensures Drifted(t, AfterAttempt(s, ts, docs, historyEnabled, att), ts, docs)
  {
  }

  lemma {:induction false} AttemptsDrift(t: Tables, ts: int, docs: map<Address, AccountDoc>, historyEnabled: bool,
                                         atts: seq<Attempt>)
    ensures Drifted(t, AfterAttempts(t, ts, docs, historyEnabled, atts), ts, docs)
    ensures !historyEnabled ==> AfterAttempts(t, ts, docs, historyEnabled, atts).history == t.history
  {
    if atts != [] {
      var before := atts[..|atts| - 1];
      AttemptsDrift(t, ts, docs, historyEnabled, before);
      AttemptDrifts(t, AfterAttempts(t, ts, docs, historyEnabled, before), ts, docs, historyEnabled, atts[|atts| - 1]);
    }
  }

  lemma HistorySettles(t: Tables, s: Tables, ts: int, docs: map<Address, AccountDoc>, att: Attempt)
    requires Drifted(t, s, ts, docs) && docs.Keys <= att.rows
    ensures s.history + RowsOf(docs, ts, att.rows) == t.history + RowsOf(docs, ts, docs.Keys)
  {
  }

  /** Every document was stored, nothing else moved. */
  ghost predicate Settled(t: Tables, accounts: map<Address, AccountDoc>, docs: map<Address, AccountDoc>) {
    && accounts.Keys == t.accounts.Keys + docs.Keys
    && (forall a :: a in docs ==> accounts[a].live == docs[a].live && accounts[a].updatedAt == docs[a].updatedAt)
    && (forall a :: a in t.accounts && a !in docs ==> accounts[a] == t.accounts[a])
  }

  lemma AccountsSettle(t: Tables, s: Tables, ts: int, docs: map<Address, AccountDoc>, att: Attempt)
    requires Drifted(t, s, ts, docs)
    requires forall a :: a in docs ==> Lands(s.accounts, docs, att, a)
    ensures Settled(t, WriteDocs(s.accounts, docs, att), docs)
  {
  }

  lemma SuccessSettles(t: Tables, s: Tables, ts: int, docs: map<Address, AccountDoc>, historyEnabled: bool,
                       att: Attempt)
    requires Drifted(t, s, ts, docs) && Succeeds(s, docs, historyEnabled, att)
    requires !historyEnabled ==> s.history == t.history
    ensures var after := AfterAttempt(s, ts, docs, historyEnabled, att);
            && Settled(t, after.accounts, docs)
            && after.history == if historyEnabled then t.history + RowsOf(docs, ts, docs.Keys) else t.history
  {
    AccountsSettle(t, s, ts, docs, att);
    if historyEnabled {
      HistorySettles(t, s, ts, docs, att);
    }
  }

  /** An attempt in which the probe is right and the cluster applies and acknowledges everything. */
  function CleanAttempt(t: Tables, docs: map<Address, AccountDoc>): Attempt {
    Attempt(t.accounts.Keys, docs.Keys, true, true, docs.Keys, true)
  }

  /** Equal tables, up to the document fields that a scripted update skips. */
  ghost predicate SameUpToCode(x: Tables, y: Tables) {
    && x.history == y.history
    && x.accounts.Keys == y.accounts.Keys
    && forall a :: a in x.accounts ==>
      x.accounts[a].live == y.accounts[a].live && x.accounts[a].updatedAt == y.accounts[a].updatedAt
  }

  lemma SettledAlike(t: Tables, x: Tables, y: Tables, docs: map<Address, AccountDoc>)
    requires Settled(t, x.accounts, docs) && Settled(t, y.accounts, docs) && x.history == y.history
    ensures SameUpToCode(x, y)
  {
  }

  /**
  However many attempts failed and whatever they left behind, the attempt that
  succeeds ends where one clean save would have.
  */
  lemma RetryIsIdempotent(t: Tables, ts: int, docs: map<Address, AccountDoc>, historyEnabled: bool, atts: seq<Attempt>,
                          last: Attempt)
    requires Succeeds(AfterAttempts(t, ts, docs, historyEnabled, atts), docs, historyEnabled, last)
    ensures Succeeds(t, docs, historyEnabled, CleanAttempt(t, docs))
    ensures SameUpToCode(AfterAttempts(t, ts, docs, historyEnabled, atts + [last]),
                         AfterAttempt(t, ts, docs, historyEnabled, CleanAttempt(t, docs)))
  {
    var s := AfterAttempts(t, ts, docs, historyEnabled, atts);
    AttemptsDrift(t, ts, docs, historyEnabled, atts);
    assert (atts + [last])[..|atts|] == atts;
    SuccessSettles(t, s, ts, docs, historyEnabled, last);
    SuccessSettles(t, t, ts, docs, historyEnabled, CleanAttempt(t, docs));
    SettledAlike(t, AfterAttempt(s, ts, docs, historyEnabled, last),
                 AfterAttempt(t, ts, docs, historyEnabled, CleanAttempt(t, docs)), docs);
  }

  // ------------------------------------------------------------------------
  // Code and creation time, which a scripted update skips
  // ------------------------------------------------------------------------

  /** The addresses whose document an attempt writes in full. */
  function FullWrites(t: Tables, docs: map<Address, AccountDoc>, historyEnabled: bool, att: Attempt): set<Address> {
    set a | a in docs && RowsDone(docs, historyEnabled, att) && att.stepsOk
            && Lands(t.accounts, docs, att, a) && a !in att.present
  }

  /** An attempt sets the code and creation time of exactly the documents it writes in full. */
  lemma AttemptStamps(t: Tables, ts: int, docs: map<Address, AccountDoc>, historyEnabled: bool, att: Attempt,
                      a: Address)
    requires a in AfterAttempt(t, ts, docs, historyEnabled, att).accounts
    ensures var after := AfterAttempt(t, ts, docs, historyEnabled, att).accounts[a];
            var full := a in FullWrites(t, docs, historyEnabled, att);
            && (full ==> after == docs[a])
            && (!full ==>
              a in t.accounts && after.code == t.accounts[a].code && after.timestamp == t.accounts[a].timestamp)
  {
  }

  /** What saving the documents without any failure and with a right probe stores. */
  function Store(accounts: map<Address, AccountDoc>, docs: map<Address, AccountDoc>): map<Address, AccountDoc> {
    map a | a in accounts.Keys + docs.Keys ::
      if a !in docs then accounts[a] else if a in accounts then Updated(accounts[a], docs[a]) else docs[a]
  }

  /** The existence probe tells the truth about these documents. */
  ghost predicate ProbeRight(accounts: map<Address, AccountDoc>, docs: map<Address, AccountDoc>, att: Attempt) {
    forall a :: a in docs ==> (a in att.present <==> a in accounts)
  }

  /** Some of `hi` was written over `lo`, document by document. */
  ghost predicate DocsBetween(accounts: map<Address, AccountDoc>, lo: map<Address, AccountDoc>,
                              hi: map<Address, AccountDoc>)
  {
    && lo.Keys <= accounts.Keys <= hi.Keys
    && forall a :: a in accounts ==> accounts[a] == hi[a] || (a in lo && accounts[a] == lo[a])
  }

  /** With a right probe, writing some of the documents, once or again, never leaves anything else. */
  lemma RightWriteFits(accounts: map<Address, AccountDoc>, lo: map<Address, AccountDoc>,
                       docs: map<Address, AccountDoc>, att: Attempt)
    requires DocsBetween(accounts, lo, Store(lo, docs)) && ProbeRight(accounts, docs, att)
    ensures DocsBetween(WriteDocs(accounts, docs, att), lo, Store(lo, docs))
    ensures (forall a :: a in docs ==> Lands(accounts, docs, att, a)) ==>
              WriteDocs(accounts, docs, att) == Store(lo, docs)
  {
    var after, hi := WriteDocs(accounts, docs, att), Store(lo, docs);
    forall a | a in after
      ensures a in hi && (after[a] == hi[a] || (a in lo && after[a] == lo[a]))
      ensures a !in docs || Lands(accounts, docs, att, a) ==> after[a] == hi[a]
    {
      if Lands(accounts, docs, att, a) {
        RightWriteOne(accounts, lo, docs, a);
      }
    }
  }

  lemma RightWriteOne(accounts: map<Address, AccountDoc>, lo: map<Address, AccountDoc>, docs: map<Address, AccountDoc>,
                      a: Address)
    requires DocsBetween(accounts, lo, Store(lo, docs)) && a in docs
    ensures Store(lo, docs)[a] == if a in accounts then Updated(accounts[a], docs[a]) else docs[a]
  {
  }

  /** Every probe of the series is right at its moment. */
  ghost predicate ProbesRight(t: Tables, ts: int, docs: map<Address, AccountDoc>, historyEnabled: bool,
                              atts: seq<Attempt>)
  {
    forall k :: 0 <= k < |atts| ==>
      ProbeRight(AfterAttempts(t, ts, docs, historyEnabled, atts[..k]).accounts, docs, atts[k])
  }

  lemma {:induction false} RightAttemptsFit(t: Tables, ts: int, docs: map<Address, AccountDoc>, historyEnabled: bool,
                                            atts: seq<Attempt>)
    requires ProbesRight(t, ts, docs, historyEnabled, atts)
    ensures DocsBetween(AfterAttempts(t, ts, docs, historyEnabled, atts).accounts, t.accounts, Store(t.accounts, docs))
  {
    if atts != [] {
      var n := |atts| - 1;
      forall k | 0 <= k < n
        ensures ProbeRight(AfterAttempts(t, ts, docs, historyEnabled, atts[..n][..k]).accounts, docs, atts[..n][k])
      {
        assert atts[..n][..k] == atts[..k];
      }
      RightAttemptsFit(t, ts, docs, historyEnabled, atts[..n]);
      RightWriteFits(AfterAttempts(t, ts, docs, historyEnabled, atts[..n]).accounts, t.accounts, docs, atts[n]);
    }
  }

  /**
  With right probes a retried save ends in exactly the tables of one clean save, code and
  creation time included; only a wrong "absent" makes them differ.
  */
  lemma {:induction false} RightRetryIsExact(t: Tables, ts: int, docs: map<Address, AccountDoc>, historyEnabled: bool,
                                             atts: seq<Attempt>)
    requires atts != [] && ProbesRight(t, ts, docs, historyEnabled, atts)
    requires Succeeds(AfterAttempts(t, ts, docs, historyEnabled, atts[..|atts| - 1]), docs, historyEnabled,
               atts[|atts| - 1])
    ensures AfterAttempts(t, ts, docs, historyEnabled, atts) ==
              AfterAttempt(t, ts, docs, historyEnabled, CleanAttempt(t, docs))
  {
    var n := |atts| - 1;
    var before, last, clean := AfterAttempts(t, ts, docs, historyEnabled, atts[..n]), atts[n], CleanAttempt(t, docs);
    forall k | 0 <= k < n
      ensures ProbeRight(AfterAttempts(t, ts, docs, historyEnabled, atts[..n][..k]).accounts, docs, atts[..n][k])
    {
      assert atts[..n][..k] == atts[..k];
    }
    RightAttemptsFit(t, ts, docs, historyEnabled, atts[..n]);
    RightWriteFits(before.accounts, t.accounts, docs, last);
    RightWriteFits(t.accounts, t.accounts, docs, clean);
    assert atts == atts[..n] + [last];
    RetryIsIdempotent(t, ts, docs, historyEnabled, atts[..n], last);
  }
}
