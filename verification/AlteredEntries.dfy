/**
The altered accounts of a block: a list of entries per address, one for each token, into
which every call to record an account is merged. The reference is the sequence of calls.
*/
module AlteredEntries {
  import opened Prelude

  // ------------------------------------------------------------------------
  // Altered accounts: one list of entries per address
  // ------------------------------------------------------------------------

  datatype AlteredAccount = AlteredAccount(
    balanceChange: bool, isSender: bool, isKDA: bool, isNFT: bool, isContract: bool,
    token: string, nonce: string, marketplaceId: string, orderId: string)

  const NOTHING := AlteredAccount(false, false, false, false, false, "", "", "", "")

  type Accounts = map<string, seq<AlteredAccount>>

  predicate IsTokenOp(a: AlteredAccount) { a.isKDA || a.isNFT }

  predicate SameToken(a: AlteredAccount, b: AlteredAccount) { a.token == b.token && a.nonce == b.nonce }

  /** Looks for the entry a token operation belongs to, from `i` on, counting senders on the way. */
  function AddTokenFrom(list: seq<AlteredAccount>, account: AlteredAccount, i: nat, senders: nat): seq<AlteredAccount>
    requires i <= |list|
    decreases |list| - i
  {
    if i == |list| then list + [if senders > 0 then account.(isSender := false) else account]
    else
      var elem := list[i];
      var sender := elem.isSender || account.isSender;
      var count := if sender then senders + 1 else senders;
      if !IsTokenOp(elem) then
        list[i := elem.(token := account.token, nonce := account.nonce, isNFT := account.isNFT,
          isKDA := account.isKDA, isSender := sender)]
      else if SameToken(elem, account) then list[i := elem.(isSender := sender && count == 1)]
      else AddTokenFrom(list, account, i + 1, count)
  }

  function AddEntry(accounts: Accounts, key: string, account: AlteredAccount): Accounts
    requires key in accounts ==> accounts[key] != []
  {
    if key !in accounts then accounts[key := [account]]
    else if !IsTokenOp(account) then
      accounts[key := accounts[key][0 := accounts[key][0].(isSender := accounts[key][0].isSender || account.isSender)]]
    else accounts[key := AddTokenFrom(accounts[key], account, 0, 0)]
  }

  /**
  A list is never empty, holds one entry per token, an entry without a token only by
  itself, and the sender mark only on its first entry.
  */
  ghost predicate WellKept(list: seq<AlteredAccount>) {
    && list != []
    && (forall i :: 1 <= i < |list| ==> !list[i].isSender)
    && (|list| > 1 ==> forall i :: 0 <= i < |list| ==> IsTokenOp(list[i]))
    && (forall i, j :: 0 <= i < j < |list| ==> !SameToken(list[i], list[j]))
  }

  ghost predicate AllKept(accounts: Accounts) {
    forall a :: a in accounts ==> WellKept(accounts[a])
  }

  /** An address records a token when some entry of its list is for it. */
  predicate Records(list: seq<AlteredAccount>, token: string, nonce: string) {
    exists i :: 0 <= i < |list| && (list[i].isKDA || list[i].isNFT) && list[i].token == token && list[i].nonce == nonce
  }

  lemma {:induction false} AddTokenKeeps(list: seq<AlteredAccount>, account: AlteredAccount, i: nat, senders: nat)
    requires WellKept(list) && IsTokenOp(account) && i <= |list|
    requires forall k :: 0 <= k < i ==> IsTokenOp(list[k]) && !SameToken(list[k], account)
    requires i == 0 ==> senders == 0
    requires i > 0 && (list[0].isSender || account.isSender) ==> senders > 0
    ensures var after := AddTokenFrom(list, account, i, senders);
            && WellKept(after)
            && Records(after, account.token, account.nonce)
            && (forall t, n :: Records(list, t, n) ==> Records(after, t, n))
            && (forall t, n :: Records(after, t, n) ==>
              Records(list, t, n) || (t == account.token && n == account.nonce))
    decreases |list| - i
  {
    var after := AddTokenFrom(list, account, i, senders);
    if i < |list| && IsTokenOp(list[i]) && !SameToken(list[i], account) {
      var sender := list[i].isSender || account.isSender;
      AddTokenKeeps(list, account, i + 1, if sender then senders + 1 else senders);
    } else {
      assert SameToken(after[i], account) && IsTokenOp(after[i]);
      forall t, n | Records(list, t, n)
        ensures Records(after, t, n)
      {
        var k :| 0 <= k < |list| && IsTokenOp(list[k]) && list[k].token == t && list[k].nonce == n;
        assert IsTokenOp(after[k]) && after[k].token == t && after[k].nonce == n;
      }
      forall t, n | Records(after, t, n)
        ensures Records(list, t, n) || (t == account.token && n == account.nonce)
      {
        var k :| 0 <= k < |after| && IsTokenOp(after[k]) && after[k].token == t && after[k].nonce == n;
        assert k != i ==> after[k] == list[k];
      }
    }
  }

  /** One call to record an altered account. */
  datatype Touch = Touch(address: string, account: AlteredAccount)

  lemma AddEntryKeeps(accounts: Accounts, t: Touch)
    requires AllKept(accounts)
    ensures var after := AddEntry(accounts, t.address, t.account);
            && AllKept(after)
            && after.Keys == accounts.Keys + {t.address}
            && (forall a :: a in accounts && a != t.address ==> after[a] == accounts[a])
            && (forall token, nonce :: Records(after[t.address], token, nonce) <==>
                  || (t.address in accounts && Records(accounts[t.address], token, nonce))
                  || ((t.account.isKDA || t.account.isNFT) && token == t.account.token && nonce == t.account.nonce))
  {
    var after := AddEntry(accounts, t.address, t.account);
    if t.address !in accounts {
      assert after[t.address][0] == t.account;
    } else if IsTokenOp(t.account) {
      AddTokenKeeps(accounts[t.address], t.account, 0, 0);
    } else {
      SenderFlagKeeps(accounts[t.address], after[t.address]);
    }
  }

  lemma SenderFlagKeeps(list: seq<AlteredAccount>, after: seq<AlteredAccount>)
    requires WellKept(list) && after != [] && after == list[0 := list[0].(isSender := after[0].isSender)]
    requires list[0].isSender ==> after[0].isSender
    ensures WellKept(after)
    ensures forall token, nonce :: Records(after, token, nonce) <==> Records(list, token, nonce)
  {
    forall i | 0 <= i < |list|
      ensures IsTokenOp(after[i]) == IsTokenOp(list[i]) && SameToken(after[i], list[i])
    {
    }
    forall token, nonce
      ensures Records(after, token, nonce) <==> Records(list, token, nonce)
    {
      if Records(after, token, nonce) {
        var k :| 0 <= k < |after| && IsTokenOp(after[k]) && after[k].token == token && after[k].nonce == nonce;
        assert IsTokenOp(list[k]) && list[k].token == token && list[k].nonce == nonce;
      }
      if Records(list, token, nonce) {
        var k :| 0 <= k < |list| && IsTokenOp(list[k]) && list[k].token == token && list[k].nonce == nonce;
        assert IsTokenOp(after[k]) && after[k].token == token && after[k].nonce == nonce;
      }
    }
  }

  /** The call gets an entry of its own: it is for a token, and every entry there is for another one. */
  ghost predicate Appends(list: seq<AlteredAccount>, account: AlteredAccount) {
    IsTokenOp(account) && forall i :: 0 <= i < |list| ==> IsTokenOp(list[i]) && !SameToken(list[i], account)
  }

  /** Whether the call marks an address it finds with this first entry as sender. */
  predicate MarksSender(first: AlteredAccount, account: AlteredAccount) {
    account.isSender && (!IsTokenOp(account) || !IsTokenOp(first) || SameToken(first, account))
  }

  predicate SameIds(x: AlteredAccount, y: AlteredAccount) {
    x.marketplaceId == y.marketplaceId && x.orderId == y.orderId
  }

  /** Which mark and which ids a list holds after a call. */
  ghost predicate Merges(list: seq<AlteredAccount>, account: AlteredAccount, after: seq<AlteredAccount>)
    requires list != []
  {
    && |after| == |list| + (if Appends(list, account) then 1 else 0)
    && (after[0].isSender <==> list[0].isSender || MarksSender(list[0], account))
    && (forall i :: 0 <= i < |list| ==> SameIds(after[i], list[i]))
    && (Appends(list, account) ==> SameIds(after[|list|], account))
  }

  lemma {:induction false} AddTokenMerges(list: seq<AlteredAccount>, account: AlteredAccount, i: nat, senders: nat)
    requires WellKept(list) && IsTokenOp(account) && i <= |list|
    requires forall k :: 0 <= k < i ==> IsTokenOp(list[k]) && !SameToken(list[k], account)
    requires i == 0 ==> senders == 0
    ensures Merges(list, account, AddTokenFrom(list, account, i, senders))
    decreases |list| - i
  {
    if i < |list| && IsTokenOp(list[i]) && !SameToken(list[i], account) {
      var sender := list[i].isSender || account.isSender;
      AddTokenMerges(list, account, i + 1, if sender then senders + 1 else senders);
    }
  }

  /**
  A call for an address already there marks it as sender exactly if the call is a
  sender's and is for no token, or meets a first entry without a token or for the same
  one: another token's sender mark is dropped. Entries keep the marketplace and order ids
  they came with; only an entry of its own takes the call's.
  */
  lemma AddEntryMerges(accounts: Accounts, t: Touch)
    requires AllKept(accounts)
    ensures var after := AddEntry(accounts, t.address, t.account)[t.address];
            if t.address in accounts then Merges(accounts[t.address], t.account, after) else after == [t.account]
  {
    if t.address in accounts && IsTokenOp(t.account) {
      AddTokenMerges(accounts[t.address], t.account, 0, 0);
    }
  }

  // ------------------------------------------------------------------------
  // What a list comes to, call by call
  // ------------------------------------------------------------------------

  /** One call on the list of its address; an address without entries has the empty one. */
  function AddOne(list: seq<AlteredAccount>, x: AlteredAccount): seq<AlteredAccount> {
    if list == [] then [x]
    else if !IsTokenOp(x) then list[0 := list[0].(isSender := list[0].isSender || x.isSender)]
    else AddTokenFrom(list, x, 0, 0)
  }

  function AddList(list: seq<AlteredAccount>, xs: seq<AlteredAccount>): seq<AlteredAccount> {
    if xs == [] then list else AddOne(AddList(list, xs[..|xs| - 1]), xs[|xs| - 1])
  }

  /** The entry a token operation belongs to: the first without a token or for the same one. */
  function Match(list: seq<AlteredAccount>, x: AlteredAccount): (m: nat)
    ensures m <= |list|
    ensures m < |list| ==> !IsTokenOp(list[m]) || SameToken(list[m], x)
    ensures forall i :: 0 <= i < m ==> IsTokenOp(list[i]) && !SameToken(list[i], x)
  {
    if list == [] then 0
    else
      var n := |list| - 1;
      var m := Match(list[..n], x);
      if m < n then m else if !IsTokenOp(list[n]) || SameToken(list[n], x) then n else n + 1
  }

  lemma {:induction false} AddTokenCases(list: seq<AlteredAccount>, x: AlteredAccount, i: nat, senders: nat)
    requires WellKept(list) && IsTokenOp(x) && i <= Match(list, x)
    requires i == 0 ==> senders == 0
    requires i > 0 && x.isSender ==> senders > 0
    ensures var m, after := Match(list, x), AddTokenFrom(list, x, i, senders);
            && (m == |list| ==> after == list + [x.(isSender := false)])
            && (0 < m < |list| ==> after == list)
            && (m == 0 && IsTokenOp(list[0]) ==>
                  after == list[0 := list[0].(isSender := list[0].isSender || x.isSender)])
            && (m == 0 && !IsTokenOp(list[0]) ==>
                  after == [x.(balanceChange := list[0].balanceChange, isContract := list[0].isContract,
                               marketplaceId := list[0].marketplaceId, orderId := list[0].orderId,
                               isSender := list[0].isSender || x.isSender)])
    decreases |list| - i
  {
    if i < Match(list, x) {
      var sender := list[i].isSender || x.isSender;
      AddTokenCases(list, x, i + 1, if sender then senders + 1 else senders);
    }
  }

  lemma AddOneKeeps(list: seq<AlteredAccount>, x: AlteredAccount)
    requires list != [] ==> WellKept(list)
    ensures WellKept(AddOne(list, x))
    ensures forall t, n :: Records(list, t, n) ==> Records(AddOne(list, x), t, n)
    ensures IsTokenOp(x) ==> Records(AddOne(list, x), x.token, x.nonce)
  {
    if list != [] && IsTokenOp(x) {
      AddTokenKeeps(list, x, 0, 0);
    } else if list != [] {
      SenderFlagKeeps(list, AddOne(list, x));
    } else {
      assert AddOne(list, x)[0] == x;
    }
  }

  /** The first token operation among these calls. */
  function FirstToken(xs: seq<AlteredAccount>): Option<AlteredAccount> {
    if xs == [] then None
    else
      var n := |xs| - 1;
      var first := FirstToken(xs[..n]);
      if first.None? && IsTokenOp(xs[n]) then Some(xs[n]) else first
  }

  lemma {:induction false} FirstTokenMeaning(xs: seq<AlteredAccount>)
    ensures FirstToken(xs).None? ==> forall j :: 0 <= j < |xs| ==> !IsTokenOp(xs[j])
    ensures FirstToken(xs).Some? ==>
              exists f :: 0 <= f < |xs| && xs[f] == FirstToken(xs).value && IsTokenOp(xs[f])
                          && forall j :: 0 <= j < f ==> !IsTokenOp(xs[j])
  {
    if xs != [] {
      FirstTokenMeaning(xs[..|xs| - 1]);
    }
  }

  /** A sender's call marks the address unless it is for another token than the address's first one. */
  predicate Marks(x: AlteredAccount, first: Option<AlteredAccount>) {
    x.isSender && (!IsTokenOp(x) || first.None? || SameToken(first.value, x))
  }

  ghost predicate Marked(xs: seq<AlteredAccount>) {
    exists j :: 0 <= j < |xs| && Marks(xs[j], FirstToken(xs))
  }

  /** The first entry: the first call, with the first token operation's token, and the sender mark. */
  ghost predicate IsHead(xs: seq<AlteredAccount>, h: AlteredAccount)
    requires xs != []
  {
    && (h.isSender <==> Marked(xs))
    && h.balanceChange == xs[0].balanceChange && h.isContract == xs[0].isContract
    && h.marketplaceId == xs[0].marketplaceId && h.orderId == xs[0].orderId
    && var t := if FirstToken(xs).Some? then FirstToken(xs).value else xs[0];
    && h.isKDA == t.isKDA && h.isNFT == t.isNFT && h.token == t.token && h.nonce == t.nonce
  }

  /** The first call for its token. */
  ghost predicate FirstForToken(xs: seq<AlteredAccount>, j: nat) {
    && j < |xs| && IsTokenOp(xs[j])
    && forall k :: 0 <= k < j ==> !(IsTokenOp(xs[k]) && SameToken(xs[k], xs[j]))
  }

  /** The entry is the first call for its token, without a sender mark. */
  ghost predicate IsFirstCall(xs: seq<AlteredAccount>, entry: AlteredAccount) {
    exists j: nat :: FirstForToken(xs, j) && entry == xs[j].(isSender := false)
  }

  ghost predicate AllRecorded(xs: seq<AlteredAccount>, list: seq<AlteredAccount>) {
    forall j :: 0 <= j < |xs| && IsTokenOp(xs[j]) ==> Records(list, xs[j].token, xs[j].nonce)
  }

  /** Every further entry is the first call for its token, without a sender mark; every token has its entry. */
  ghost predicate Summarises(xs: seq<AlteredAccount>, list: seq<AlteredAccount>)
    requires xs != []
  {
    && WellKept(list)
    && IsHead(xs, list[0])
    && (forall i :: 1 <= i < |list| ==> IsFirstCall(xs, list[i]))
    && AllRecorded(xs, list)
  }

  lemma FirstTokenStep(xs: seq<AlteredAccount>, x: AlteredAccount)
    ensures FirstToken(xs + [x]) == if FirstToken(xs).None? && IsTokenOp(x) then Some(x) else FirstToken(xs)
  {
    assert (xs + [x])[..|xs|] == xs;
  }

  lemma MarkedStep(xs: seq<AlteredAccount>, x: AlteredAccount)
    ensures Marked(xs + [x]) <==> Marked(xs) || Marks(x, FirstToken(xs + [x]))
  {
    var all := xs + [x];
    FirstTokenStep(xs, x);
    FirstTokenMeaning(xs);
    forall j | 0 <= j < |xs|
      ensures Marks(all[j], FirstToken(all)) <==> Marks(xs[j], FirstToken(xs))
    {
      assert all[j] == xs[j];
    }
    assert all[|xs|] == x;
  }

  lemma HeadHasToken(xs: seq<AlteredAccount>, h: AlteredAccount)
    requires xs != [] && IsHead(xs, h)
    ensures IsTokenOp(h) <==> FirstToken(xs).Some?
    ensures FirstToken(xs).Some? ==> SameToken(h, FirstToken(xs).value)
  {
    FirstTokenMeaning(xs);
  }

  lemma HeadStep(xs: seq<AlteredAccount>, list: seq<AlteredAccount>, x: AlteredAccount)
    requires xs != [] && WellKept(list) && IsHead(xs, list[0])
    ensures AddOne(list, x) != [] && IsHead(xs + [x], AddOne(list, x)[0])
  {
    FirstTokenStep(xs, x);
    MarkedStep(xs, x);
    HeadHasToken(xs, list[0]);
    if IsTokenOp(x) {
      AddTokenCases(list, x, 0, 0);
    }
  }

  lemma FirstCallStays(xs: seq<AlteredAccount>, entry: AlteredAccount, x: AlteredAccount)
    requires IsFirstCall(xs, entry)
    ensures IsFirstCall(xs + [x], entry)
  {
    var all := xs + [x];
    var j: nat :| FirstForToken(xs, j) && entry == xs[j].(isSender := false);
    assert forall k :: 0 <= k <= j ==> all[k] == xs[k];
    assert FirstForToken(all, j);
  }

  /** A call leaves the entries after the first alone, and can only append its own. */
  lemma TailCases(list: seq<AlteredAccount>, x: AlteredAccount, i: nat)
    requires WellKept(list) && 1 <= i < |AddOne(list, x)|
    ensures i < |list| ==> AddOne(list, x)[i] == list[i]
    ensures i >= |list| ==>
              i == |list| && IsTokenOp(x) && Match(list, x) == |list| && AddOne(list, x)[i] == x.(isSender := false)
  {
    if IsTokenOp(x) {
      AddTokenCases(list, x, 0, 0);
    }
  }

  lemma TailStep(xs: seq<AlteredAccount>, list: seq<AlteredAccount>, x: AlteredAccount, i: nat)
    requires xs != [] && Summarises(xs, list) && 1 <= i < |AddOne(list, x)|
    ensures IsFirstCall(xs + [x], AddOne(list, x)[i])
  {
    TailCases(list, x, i);
    if i < |list| {
      FirstCallStays(xs, list[i], x);
    } else {
      UnmatchedIsFirst(xs, list, x);
      assert (xs + [x])[|xs|] == x;
    }
  }

  lemma UnmatchedIsFirst(xs: seq<AlteredAccount>, list: seq<AlteredAccount>, x: AlteredAccount)
    requires IsTokenOp(x) && Match(list, x) == |list|
    requires AllRecorded(xs, list)
    ensures FirstForToken(xs + [x], |xs|)
  {
    var all := xs + [x];
    forall k | 0 <= k < |xs| && IsTokenOp(all[k])
      ensures !SameToken(all[k], x)
    {
      assert all[k] == xs[k];
      var i :| 0 <= i < |list| && IsTokenOp(list[i]) && list[i].token == xs[k].token && list[i].nonce == xs[k].nonce;
      assert !SameToken(list[i], x);
    }
  }

  lemma RecordedStep(xs: seq<AlteredAccount>, list: seq<AlteredAccount>, x: AlteredAccount)
    requires list != [] && WellKept(list) && AllRecorded(xs, list)
    ensures AllRecorded(xs + [x], AddOne(list, x))
  {
    var all := xs + [x];
    AddOneKeeps(list, x);
    forall j | 0 <= j < |all| && IsTokenOp(all[j])
      ensures Records(AddOne(list, x), all[j].token, all[j].nonce)
    {
      if j < |xs| {
        assert all[j] == xs[j];
        assert Records(list, xs[j].token, xs[j].nonce);
      }
    }
  }

  lemma SummaryStep(xs: seq<AlteredAccount>, list: seq<AlteredAccount>, x: AlteredAccount)
    requires xs != [] && Summarises(xs, list)
    ensures Summarises(xs + [x], AddOne(list, x))
  {
    AddOneKeeps(list, x);
    HeadStep(xs, list, x);
    RecordedStep(xs, list, x);
    forall i | 1 <= i < |AddOne(list, x)|
      ensures IsFirstCall(xs + [x], AddOne(list, x)[i])
    {
      TailStep(xs, list, x, i);
    }
  }

  lemma SummaryOfOne(x: AlteredAccount)
    ensures Summarises([x], [x])
  {
    assert [x][..0] == [];
    assert IsTokenOp(x) ==> IsTokenOp([x][0]);
    assert Marks([x][0], FirstToken([x])) <==> x.isSender;
  }

  /**
  The entries of an address, whatever the calls for it: the first holds the first call with
  the token of the first token operation, each further one the first call for its own
  token, and the address is marked as sender exactly if some sender's call is for no token
  or for the address's first one.
  */
  lemma {:induction false} CallsSummarised(xs: seq<AlteredAccount>)
    requires xs != []
    ensures Summarises(xs, AddList([], xs))
  {
    var n := |xs| - 1;
    if n == 0 {
      SummaryOfOne(xs[0]);
      assert xs == [xs[0]];
    } else {
      CallsSummarised(xs[..n]);
      SummaryStep(xs[..n], AddList([], xs[..n]), xs[n]);
      assert xs == xs[..n] + [xs[n]];
    }
  }

  /** Entries already there are as if their own calls had come first. */
  lemma {:induction false} ListIsItsCalls(list: seq<AlteredAccount>)
    requires WellKept(list)
    ensures AddList([], list) == list
  {
    var n := |list| - 1;
    if n > 0 {
      ListIsItsCalls(list[..n]);
      AddTokenCases(list[..n], list[n], 0, 0);
    } else {
      assert list == [list[0]];
    }
  }

  lemma {:induction false} AddListAppends(list: seq<AlteredAccount>, xs: seq<AlteredAccount>)
    ensures AddList([], list + xs) == AddList(AddList([], list), xs)
  {
    if xs == [] {
      assert list + xs == list;
    } else {
      var n := |xs| - 1;
      assert (list + xs)[..|list + xs| - 1] == list + xs[..n];
      AddListAppends(list, xs[..n]);
    }
  }

  class AlteredAccounts {
    var altered: Accounts

    constructor ()
      ensures altered == map[]
    {
      altered := map[];
    }

    method Add(key: string, account: AlteredAccount)
      requires key in altered ==> altered[key] != []
      modifies this
      ensures altered == AddEntry(old(altered), key, account)
    {
      if key !in altered {
        altered := altered[key := [account]];
        return;
      }
      var list := altered[key];
      if !IsTokenOp(account) {
        altered := altered[key := list[0 := list[0].(isSender := list[0].isSender || account.isSender)]];
        return;
      }
      var senderCount := 0;
      for i := 0 to |list|
        invariant altered == old(altered)
        invariant AddTokenFrom(list, account, 0, 0) == AddTokenFrom(list, account, i, senderCount)
      {
        var elem := list[i];
        var isSender := elem.isSender || account.isSender;
        if isSender {
          senderCount := senderCount + 1;
        }
        var shouldRewrite := !IsTokenOp(elem);
        if shouldRewrite {
          elem := elem.(token := account.token, nonce := account.nonce, isNFT := account.isNFT,
            isKDA := account.isKDA, isSender := isSender);
          altered := altered[key := list[i := elem]];
          return;
        }
        var alreadyExists := elem.token == account.token && elem.nonce == account.nonce;
        if alreadyExists {
          altered := altered[key := list[i := elem.(isSender := isSender && senderCount == 1)]];
          return;
        }
      }
      var last := account;
      if senderCount > 0 {
        last := account.(isSender := false);
      }
      altered := altered[key := list + [last]];
    }
  }
}
