/**
Receipt indexing: what a block's decoded receipts add to the collections of altered
accounts, assets, orders and so on. A type assertion on a decoded value is a
precondition here, so that nothing can be indexed that might panic.
*/
module ReceiptIndex {
  import opened AlteredEntries
  import opened Prelude
  import opened Receipts
  import AssetIds

  const KLV := "KLV"
  const KFI := "KFI"

  // ------------------------------------------------------------------------
  // What one receipt does
  // ------------------------------------------------------------------------

  /** The transaction a receipt belongs to, and what the indexer knows of addresses. */
  datatype Context = Context(sender: string, txHash: string, timestamp: int, zeroAddress: string,
    isContract: string -> bool)

  predicate IsStr(m: Fields, key: Key) { key in m && m[key].Str? }

  function S(m: Fields, key: Key): string
    requires IsStr(m, key)
  {
    m[key].s
  }

  predicate IsInt64Field(m: Fields, key: Key) { key in m && m[key].Int64? }

  function CodeOf(m: Fields): Option<int> {
    if Type in m && m[Type].ReceiptType? then Some(m[Type].code) else None
  }

  /** Every type assertion that indexing this receipt makes can be made. */
  predicate Safe(m: Fields) {
    match CodeOf(m)
    case None => true
    case Some(code) =>
      if code == TRANSFER then
        && IsStr(m, AssetID) && IsStr(m, From) && IsStr(m, To)
        && (MarketplaceID in m ==> m[MarketplaceID].Str?) && (OrderID in m ==> m[OrderID].Str?)
      else if code == CREATE_KDA || code == UPDATE_KDA || code == CONFIG_ITO || code == SET_ITO_PRICES
        then IsStr(m, AssetID)
      else if code == FREEZE || code == UNFREEZE || code == WITHDRAW then IsStr(m, AssetID) && IsStr(m, From)
      else if code == PROPOSAL || code == PROPOSAL_VOTE then IsStr(m, ProposalID)
      else if code == DELEGATE then IsStr(m, From)
      else if code == UPDATE_VALIDATOR then IsStr(m, ID)
      else if code == CREATE_MARKETPLACE || code == CONFIG_MARKETPLACE then IsStr(m, MarketplaceID)
      else if code == UPDATE_ACCOUNT_PERMISSION || code == SET_ACCOUNT_NAME then IsStr(m, Address)
      else if code == BUY then
        IsStr(m, OrderID) && IsStr(m, CurrencyID) && IsInt64Field(m, Amount) && IsStr(m, Bidder) && Executed in m
          && m[Executed].Bool?
      else if code == SELL || code == CANCEL_ORDER then IsStr(m, OrderID)
      else if code == CLAIM then IsStr(m, AssetID) && IsStr(m, AssetIDReceived) && IsStr(m, ClaimTypeString)
        && IsStr(m, OrderID)
      else if code == UPDATE_METADATA then IsStr(m, AssetID) && IsStr(m, NFTNonce) && IsStr(m, Owner)
      else if code == UPDATE_KDA_POOL then IsStr(m, PoolID)
      else if code == UPDATE_ITO then IsStr(m, AssetID) && (IsStr(m, Address) ==> IsInt64Field(m, Amount))
      else if code == DEPOSIT then IsStr(m, From) && IsStr(m, CurrencyID) && IsStr(m, AssetID)
      else if code == SC_TRIGGER then IsStr(m, Contract)
      else true
  }

  function TransferTouches(ctx: Context, m: Fields): seq<Touch>
    requires CodeOf(m) == Some(TRANSFER) && Safe(m)
  {
    var assetId := S(m, AssetID);
    var base := NOTHING.(
      marketplaceId := if MarketplaceID in m then S(m, MarketplaceID) else "",
      orderId := if OrderID in m then S(m, OrderID) else "");
    if assetId == "" || assetId == KLV then
      var minted := S(m, From) == ctx.zeroAddress;
      [Touch(S(m, From), base.(isSender := true, balanceChange := true)),
       Touch(S(m, To), base.(balanceChange := true, isKDA := minted, token := if minted then KLV else ""))]
    else
      var token := AssetIds.ParseToken(assetId);
      var entry := base.(isKDA := true, isNFT := token.isNFT, token := token.identifier, nonce := token.nonce);
      [Touch(S(m, From), entry.(isSender := true)), Touch(S(m, To), entry)]
  }

  /** The altered accounts a receipt records, in order. */
  function Touches(ctx: Context, m: Fields): seq<Touch>
    requires Safe(m)
  {
    match CodeOf(m)
    case None => []
    case Some(code) =>
      if code == TRANSFER then TransferTouches(ctx, m)
      else if code == FREEZE || code == UNFREEZE || code == WITHDRAW
        then [Touch(S(m, From), NOTHING.(isKDA := true, token := S(m, AssetID)))]
      else if code == DELEGATE then [Touch(S(m, From), NOTHING.(isSender := true, isKDA := true, token := KLV))]
      else if code == UPDATE_VALIDATOR then [Touch(S(m, ID), NOTHING)]
      else if code == UPDATE_ACCOUNT_PERMISSION then [Touch(S(m, Address), NOTHING)]
      else if code == CLAIM then
        if S(m, AssetID) == "" then []
        else [Touch(ctx.sender, NOTHING.(isKDA := true, token := S(m, AssetID)))] +
             if ClaimsTwoAssets(m) then [Touch(ctx.sender, NOTHING.(isKDA := true, token := S(m, AssetIDReceived)))]
               else []
      else if code == UPDATE_METADATA then
        [Touch(S(m, Owner), NOTHING.(isKDA := true, isNFT := true, token := S(m, AssetID), nonce := S(m, NFTNonce)))]
      else if code == UPDATE_KDA_POOL
        then [Touch(ctx.sender, NOTHING.(isSender := true, isKDA := true, token := S(m, PoolID)))]
      else if code == DEPOSIT
        then [Touch(S(m, From), NOTHING.(balanceChange := true, isKDA := true, token := S(m, CurrencyID)))]
      else if code == SC_TRIGGER then [Touch(S(m, Contract), NOTHING.(isContract := true))]
      else if code == SET_ACCOUNT_NAME then
        [Touch(S(m, Address),
          NOTHING.(isSender := S(m, Address) == ctx.sender, isContract := ctx.isContract(S(m, Address))))]
      else []
  }

  predicate ClaimsTwoAssets(m: Fields)
    requires IsStr(m, AssetID) && IsStr(m, AssetIDReceived)
  {
    S(m, AssetID) != "" && S(m, AssetIDReceived) != "" && S(m, AssetID) != S(m, AssetIDReceived)
  }

  /** The assets a receipt marks, each with its "is new" flag. */
  function AssetMarks(ctx: Context, m: Fields): set<(string, bool)>
    requires Safe(m)
  {
    match CodeOf(m)
    case None => {}
    case Some(code) =>
      if code == TRANSFER then
        if S(m, From) == ctx.zeroAddress || S(m, To) == ctx.zeroAddress then {(S(m, AssetID), false)} else {}
      else if code == CREATE_KDA || code == CONFIG_ITO || code == SET_ITO_PRICES then {(S(m, AssetID), false)}
      else if code == UPDATE_KDA then {(S(m, AssetID), true)}
      else if code == FREEZE || code == UNFREEZE then
        if S(m, AssetID) != KLV && S(m, AssetID) != KFI then {(S(m, AssetID), false)} else {}
      else if code == CLAIM then
        (if S(m, AssetID) != "" then {(S(m, AssetID), false)} else {}) +
        (if ClaimsTwoAssets(m) then {(S(m, AssetIDReceived), false)} else {})
      else if code == DEPOSIT && DepositType in m && m[DepositType] == Str("0") then {(S(m, AssetID), false)}
      else {}
  }

  datatype Order =
    | BuyOrder(currency: string, amount: int, bidder: string, executed: bool, txHash: string)
    | SellOrder(orderTxHash: string, timestamp: int)
    | ClaimedOrder
    | CanceledOrder

  /** The market order a receipt sets. A market claim sets one only when it pays out in another asset. */
  function OrderSet(ctx: Context, m: Fields): Option<(string, Order)>
    requires Safe(m)
  {
    match CodeOf(m)
    case None => None
    case Some(code) =>
      if code == BUY then
        Some((S(m, OrderID), BuyOrder(S(m, CurrencyID), m[Amount].n, S(m, Bidder), m[Executed].b, ctx.txHash)))
      else if code == SELL then Some((S(m, OrderID), SellOrder(ctx.txHash, ctx.timestamp)))
      else if code == CLAIM && ClaimsTwoAssets(m) && S(m, ClaimTypeString) == "MarketClaim"
        then Some((S(m, OrderID), ClaimedOrder))
      else if code == CANCEL_ORDER then Some((S(m, OrderID), CanceledOrder))
      else None
  }

  /** The proposal, or marketplace, a receipt sets, with its "is new" flag. */
  function ProposalSet(m: Fields): Option<(string, bool)>
    requires Safe(m)
  {
    if CodeOf(m) == Some(PROPOSAL) then Some((S(m, ProposalID), true))
    else if CodeOf(m) == Some(PROPOSAL_VOTE) then Some((S(m, ProposalID), false))
    else None
  }

  function MarketplaceSet(m: Fields): Option<(string, bool)>
    requires Safe(m)
  {
    if CodeOf(m) == Some(CREATE_MARKETPLACE) then Some((S(m, MarketplaceID), true))
    else if CodeOf(m) == Some(CONFIG_MARKETPLACE) then Some((S(m, MarketplaceID), false))
    else None
  }

  function PoolMarks(m: Fields): set<(string, bool)>
    requires Safe(m)
  {
    if CodeOf(m) == Some(UPDATE_KDA_POOL) then {(S(m, PoolID), true)}
    else if CodeOf(m) == Some(DEPOSIT) && DepositType in m && m[DepositType] == Str("1") then {(S(m, AssetID), false)}
    else {}
  }

  function Put<V>(table: map<string, V>, entry: Option<(string, V)>): map<string, V> {
    match entry case None => table case Some((key, value)) => table[key := value]
  }

  datatype AlteredITO = AlteredITO(isNew: bool, bought: map<string, I64>)

  /** The ITO a receipt sets, with its "is new" flag; an update without an address sets none. */
  function ITOSet(m: Fields): Option<(string, bool)>
    requires Safe(m)
  {
    if CodeOf(m) == Some(CONFIG_ITO) then Some((S(m, AssetID), true))
    else if CodeOf(m) == Some(UPDATE_ITO) && IsStr(m, Address) then Some((S(m, AssetID), false))
    else None
  }

  datatype Purchase = Purchase(asset: string, address: string, amount: I64)

  function PurchaseIn(m: Fields): Option<Purchase>
    requires Safe(m)
  {
    if CodeOf(m) == Some(UPDATE_ITO) && IsStr(m, Address)
    then Some(Purchase(S(m, AssetID), S(m, Address), m[Amount].n)) else None
  }

  function Bought(itos: map<string, AlteredITO>, asset: string, address: string): I64 {
    if asset in itos && address in itos[asset].bought then itos[asset].bought[address] else 0
  }

  function IndexITO(itos: map<string, AlteredITO>, m: Fields): map<string, AlteredITO>
    requires Safe(m)
  {
    if CodeOf(m) == Some(CONFIG_ITO) then
      if S(m, AssetID) in itos then itos else itos[S(m, AssetID) := AlteredITO(true, map[])]
    else if CodeOf(m) == Some(UPDATE_ITO) && IsStr(m, Address) then
      var asset, address, amount := S(m, AssetID), S(m, Address), m[Amount].n;
      if asset !in itos then itos[asset := AlteredITO(false, map[address := amount])]
      else
        var before := if address in itos[asset].bought then itos[asset].bought[address] else 0;
        itos[asset := itos[asset].(bought := itos[asset].bought[address := Wrap(before + amount)])]
    else itos
  }

  datatype Altered = Altered(
    accounts: Accounts, assets: set<(string, bool)>, pools: set<(string, bool)>,
    proposals: map<string, bool>, marketplaces: map<string, bool>,
    orders: map<string, Order>, itos: map<string, AlteredITO>)

  function AddAll(accounts: Accounts, touches: seq<Touch>): Accounts
    requires AllKept(accounts)
    ensures AllKept(AddAll(accounts, touches))
  {
    if touches == [] then accounts
    else
      var t := touches[|touches| - 1];
      var before := AddAll(accounts, touches[..|touches| - 1]);
      AddEntryKeeps(before, t);
      AddEntry(before, t.address, t.account)
  }

  function IndexReceipt(ctx: Context, ad: Altered, m: Fields): Altered
    requires Safe(m) && AllKept(ad.accounts)
  {
    Altered(
      AddAll(ad.accounts, Touches(ctx, m)),
      ad.assets + AssetMarks(ctx, m),
      ad.pools + PoolMarks(m),
      Put(ad.proposals, ProposalSet(m)),
      Put(ad.marketplaces, MarketplaceSet(m)),
      Put(ad.orders, OrderSet(ctx, m)),
      IndexITO(ad.itos, m))
  }

  function IndexAll(ctx: Context, ad: Altered, receipts: seq<Fields>): Altered
    requires AllKept(ad.accounts) && forall i :: 0 <= i < |receipts| ==> Safe(receipts[i])
    ensures AllKept(IndexAll(ctx, ad, receipts).accounts)
  {
    if receipts == [] then ad
    else IndexReceipt(ctx, IndexAll(ctx, ad, receipts[..|receipts| - 1]), receipts[|receipts| - 1])
  }

  // ------------------------------------------------------------------------
  // What a receipt names, read off its parts
  // ------------------------------------------------------------------------

  /** An entry for no token, and one for a token. */
  function PlainEntry(isSender: bool, balanceChange: bool, isContract: bool, marketplaceId: string, orderId: string)
    : AlteredAccount
  {
    AlteredAccount(balanceChange, isSender, false, false, isContract, "", "", marketplaceId, orderId)
  }

  function TokenEntry(isSender: bool, balanceChange: bool, isNFT: bool, token: string, nonce: string,
                      marketplaceId: string, orderId: string): AlteredAccount
  {
    AlteredAccount(balanceChange, isSender, true, isNFT, false, token, nonce, marketplaceId, orderId)
  }

  /** The accounts a receipt names and how each is to be recorded, all fields of its entry. */
  function NamedTouches(env: Env, ctx: Context, code: int, data: seq<string>): seq<Touch> {
    if code == TRANSFER then
      var from, to := env.encode(Part(data, 1)), env.encode(Part(data, 2));
      var id := AssetIds.AssetId(Part(data, 4), Part(data, 5));
      var market, order := env.hex(Part(data, 7)), env.hex(Part(data, 8));
      if id == "" || id == "KLV" then
        [Touch(from, PlainEntry(true, true, false, market, order)),
         Touch(to, if from == ctx.zeroAddress then TokenEntry(false, true, false, "KLV", "", market, order)
                   else PlainEntry(false, true, false, market, order))]
      else
        var token := AssetIds.ParseToken(id);
        [Touch(from, TokenEntry(true, false, token.isNFT, token.identifier, token.nonce, market, order)),
         Touch(to, TokenEntry(false, false, token.isNFT, token.identifier, token.nonce, market, order))]
    else if code == FREEZE then
      [Touch(env.encode(Part(data, 2)), TokenEntry(false, false, false, Part(data, 3), "", "", ""))]
    else if code == UNFREEZE then
      [Touch(env.encode(Part(data, 3)), TokenEntry(false, false, false, Part(data, 4), "", "", ""))]
    else if code == DELEGATE then
      [Touch(env.encode(Part(data, 1)), TokenEntry(true, false, false, "KLV", "", "", ""))]
    else if code == WITHDRAW then
      [Touch(env.encode(Part(data, 1)), TokenEntry(false, false, false, Part(data, 2), "", "", ""))]
    else if code == DEPOSIT then
      [Touch(env.encode(Part(data, 1)), TokenEntry(false, true, false, Part(data, 5), "", "", ""))]
    else if code == CLAIM then
      var first := Touch(ctx.sender, TokenEntry(false, false, false, Part(data, 4), "", "", ""));
      if Part(data, 4) == "" then []
      else if Part(data, 5) == "" || Part(data, 5) == Part(data, 4) then [first]
      else [first, Touch(ctx.sender, TokenEntry(false, false, false, Part(data, 5), "", "", ""))]
    else if code == UPDATE_METADATA then
      [Touch(env.encode(Part(data, 1)), TokenEntry(false, false, true, Part(data, 2), Part(data, 3), "", ""))]
    else if code == UPDATE_KDA_POOL then
      [Touch(ctx.sender, TokenEntry(true, false, false, Part(data, 1), "", "", ""))]
    else if code == UPDATE_VALIDATOR || code == UPDATE_ACCOUNT_PERMISSION then
      [Touch(env.encode(Part(data, 1)), PlainEntry(false, false, false, "", ""))]
    else if code == SC_TRIGGER then
      [Touch(env.encode(Part(data, 3)), PlainEntry(false, false, true, "", ""))]
    else if code == SET_ACCOUNT_NAME then
      var named := env.encode(Part(data, 2));
      [Touch(named, PlainEntry(named == ctx.sender, false, ctx.isContract(named), "", ""))]
    else []
  }

  function NamedAssets(env: Env, ctx: Context, code: int, data: seq<string>): set<(string, bool)> {
    if code == TRANSFER then
      if env.encode(Part(data, 1)) == ctx.zeroAddress || env.encode(Part(data, 2)) == ctx.zeroAddress
      then {(AssetIds.AssetId(Part(data, 4), Part(data, 5)), false)} else {}
    else if code == CREATE_KDA || code == CONFIG_ITO || code == SET_ITO_PRICES then {(Part(data, 1), false)}
    else if code == UPDATE_KDA then {(Part(data, 1), true)}
    else if code == FREEZE then {(Part(data, 3), false)} - {("KLV", false), ("KFI", false)}
    else if code == UNFREEZE then {(Part(data, 4), false)} - {("KLV", false), ("KFI", false)}
    else if code == CLAIM then
      if Part(data, 4) == "" then {} else {(Part(data, 4), false), (Part(data, 5), false)} - {("", false)}
    else if code == DEPOSIT && Part(data, 2) == "0" then {(Part(data, 4), false)}
    else {}
  }

  function NamedPools(code: int, data: seq<string>): set<(string, bool)> {
    if code == UPDATE_KDA_POOL then {(Part(data, 1), true)}
    else if code == DEPOSIT && Part(data, 2) == "1" then {(Part(data, 4), false)}
    else {}
  }

  /** The order a receipt names, and what becomes of it. */
  function NamedOrder(env: Env, ctx: Context, code: int, data: seq<string>): Option<(string, Order)> {
    if code == BUY then
      var bidder, executed := env.encode(Part(data, 4)), Part(data, 3) == "1";
      Some((env.hex(Part(data, 1)), BuyOrder(Part(data, 6), NumberAt(env, data, 5), bidder, executed, ctx.txHash)))
    else if code == SELL then Some((env.hex(Part(data, 1)), SellOrder(ctx.txHash, ctx.timestamp)))
    else if code == CANCEL_ORDER then Some((env.hex(Part(data, 2)), CanceledOrder))
    else if code == CLAIM && Part(data, 4) != "" && Part(data, 5) != "" && Part(data, 4) != Part(data, 5)
         && env.claimName(NumberAt(env, data, 6)) == "MarketClaim" then Some((env.hex(Part(data, 2)), ClaimedOrder))
    else None
  }

  function NamedProposal(code: int, data: seq<string>): Option<(string, bool)> {
    if code == PROPOSAL || code == PROPOSAL_VOTE then Some((Part(data, 1), code == PROPOSAL)) else None
  }

  function NamedMarketplace(env: Env, code: int, data: seq<string>): Option<(string, bool)> {
    if code == CREATE_MARKETPLACE || code == CONFIG_MARKETPLACE
    then Some((env.hex(Part(data, 1)), code == CREATE_MARKETPLACE)) else None
  }

  function NamedITO(code: int, data: seq<string>): Option<(string, bool)> {
    if code == CONFIG_ITO then Some((Part(data, 1), true))
    else if code == UPDATE_ITO && |data| == 4 then Some((Part(data, 2), false))
    else None
  }

  function NamedPurchase(env: Env, code: int, data: seq<string>): Option<Purchase> {
    if code == UPDATE_ITO && |data| == 4
    then Some(Purchase(Part(data, 2), env.encode(Part(data, 1)), NumberAt(env, data, 3))) else None
  }

  /** Everything a receipt does to the altered collections. */
  datatype Effect = Effect(
    touches: seq<Touch>, assets: set<(string, bool)>, pools: set<(string, bool)>,
    order: Option<(string, Order)>, proposal: Option<(string, bool)>, marketplace: Option<(string, bool)>,
    ito: Option<(string, bool)>, purchase: Option<Purchase>)

  const NO_EFFECT := Effect([], {}, {}, None, None, None, None, None)

  function Named(env: Env, ctx: Context, code: int, data: seq<string>): Effect {
    Effect(NamedTouches(env, ctx, code, data), NamedAssets(env, ctx, code, data), NamedPools(code, data),
           NamedOrder(env, ctx, code, data), NamedProposal(code, data), NamedMarketplace(env, code, data),
           NamedITO(code, data), NamedPurchase(env, code, data))
  }

  /** The receipt is decoded and has something to say. */
  predicate Counts(env: Env, data: seq<string>) { WellFormed(env, data) && !Unchecked(data) }

  /** The effect a raw receipt must have: that of its parts, if it decodes at all. */
  function EffectOf(env: Env, ctx: Context, data: seq<string>): Effect {
    if Counts(env, data) then Named(env, ctx, CodeIn(data), data) else NO_EFFECT
  }

  /** Reading a number that does parse. */
  function NumberAt(env: Env, data: seq<string>, i: nat): I64 {
    match env.parseInt(Part(data, i)) case Some(n) => n case None => 0
  }

  /** Indexing the fields makes only type assertions that hold, and has this effect. */
  ghost predicate Follows(ctx: Context, m: Fields, effect: Effect) {
    && Safe(m)
    && Touches(ctx, m) == effect.touches
    && AssetMarks(ctx, m) == effect.assets
    && PoolMarks(m) == effect.pools
    && OrderSet(ctx, m) == effect.order
    && ProposalSet(m) == effect.proposal
    && MarketplaceSet(m) == effect.marketplace
    && ITOSet(m) == effect.ito
    && PurchaseIn(m) == effect.purchase
  }

  /** Decoding yields what indexing asserts, type by type. */
  lemma {:induction false} DecodedIsSafe(env: Env, data: seq<string>, m: Fields)
    requires IsDecoding(env, data, Decoded(m))
    ensures Safe(m)
  {
  }

  /** A decoded receipt records exactly the accounts its parts name, each with exactly the entry they name. */
  lemma {:induction false} EntriesAreNamed(env: Env, ctx: Context, data: seq<string>, m: Fields)
    requires HasHeader(data) && Describes(env, data, m) && Safe(m)
    ensures Touches(ctx, m) == NamedTouches(env, ctx, CodeIn(data), data)
  {
  }

  /** It marks exactly the assets, pools and order its parts name. */
  lemma CollectionsAreNamed(env: Env, ctx: Context, data: seq<string>, m: Fields)
    requires HasHeader(data) && Describes(env, data, m) && Safe(m)
    ensures var code := CodeIn(data);
            && AssetMarks(ctx, m) == NamedAssets(env, ctx, code, data)
            && PoolMarks(m) == NamedPools(code, data)
            && OrderSet(ctx, m) == NamedOrder(env, ctx, code, data)
  {
  }

  /** It sets exactly the proposal, marketplace and ITO its parts name. */
  lemma EntitiesAreNamed(env: Env, data: seq<string>, m: Fields)
    requires HasHeader(data) && Describes(env, data, m) && Safe(m)
    ensures var code := CodeIn(data);
            && ProposalSet(m) == NamedProposal(code, data)
            && MarketplaceSet(m) == NamedMarketplace(env, code, data)
            && ITOSet(m) == NamedITO(code, data)
            && PurchaseIn(m) == NamedPurchase(env, code, data)
  {
  }

  /** Indexing a decoded receipt does to every collection exactly what the receipt's parts say. */
  lemma {:induction false} DecodedFollows(env: Env, ctx: Context, data: seq<string>, m: Fields)
    requires IsDecoding(env, data, Decoded(m))
    ensures Follows(ctx, m, EffectOf(env, ctx, data))
  {
    DecodedIsSafe(env, data, m);
    if data != [] {
      EntriesAreNamed(env, ctx, data, m);
      CollectionsAreNamed(env, ctx, data, m);
      EntitiesAreNamed(env, data, m);
    }
  }

  // ------------------------------------------------------------------------
  // From bytes to the altered collections
  // ------------------------------------------------------------------------

  ghost predicate AllSafe(receipts: seq<Fields>) { forall i :: 0 <= i < |receipts| ==> Safe(receipts[i]) }

  /** The receipts of a transaction are the decodings of its raw receipts; the ones that do not decode are left out. */
  ghost predicate DecodedFrom(env: Env, raw: seq<seq<string>>, receipts: seq<Fields>)
    decreases raw
  {
    if raw == [] then receipts == []
    else
      var n, last := |raw| - 1, |receipts| - 1;
      if raw[n] == [] || Counts(env, raw[n]) then
        receipts != [] && IsDecoding(env, raw[n], Decoded(receipts[last]))
          && DecodedFrom(env, raw[..n], receipts[..last])
      else DecodedFrom(env, raw[..n], receipts)
  }

  method BuildReceipts(env: Env, raw: seq<seq<string>>) returns (panicked: bool, receipts: seq<Fields>)
    ensures panicked <==> exists i :: 0 <= i < |raw| && WellFormed(env, raw[i]) && Unchecked(raw[i])
    ensures !panicked ==> DecodedFrom(env, raw, receipts) && AllSafe(receipts)
  {
    panicked, receipts := false, [];
    for i := 0 to |raw|
      invariant forall j :: 0 <= j < i && WellFormed(env, raw[j]) ==> !Unchecked(raw[j])
      invariant DecodedFrom(env, raw[..i], receipts) && AllSafe(receipts)
    {
      assert raw[..i + 1][..i] == raw[..i];
      var r := ReceiptToMap(env, raw[i]);
      if r.Panics? {
        panicked := true;
        return;
      }
      if r.Rejected? {
        continue;
      }
      DecodedIsSafe(env, raw[i], r.fields);
      assert (receipts + [r.fields])[..|receipts|] == receipts;
      receipts := receipts + [r.fields];
    }
    assert raw[..|raw|] == raw;
  }

  lemma IndexAllStep(ctx: Context, ad: Altered, receipts: seq<Fields>, i: nat)
    requires AllKept(ad.accounts) && AllSafe(receipts) && i < |receipts|
    ensures IndexAll(ctx, ad, receipts[..i + 1]) == IndexReceipt(ctx, IndexAll(ctx, ad, receipts[..i]), receipts[i])
  {
    assert receipts[..i + 1][..i] == receipts[..i];
  }

  method IndexReceipts(ctx: Context, start: Altered, receipts: seq<Fields>) returns (ad: Altered)
    requires AllKept(start.accounts) && AllSafe(receipts)
    ensures ad == IndexAll(ctx, start, receipts)
  {
    ad := start;
    for i := 0 to |receipts|
      invariant ad == IndexAll(ctx, start, receipts[..i])
    {
      IndexAllStep(ctx, start, receipts, i);
      ad := IndexReceipt(ctx, ad, receipts[i]);
    }
    assert receipts[..|receipts|] == receipts;
  }

  /** Whom a call is for: an address, and a token and nonce under it, if any. */
  datatype Party = Party(address: string, token: Option<(string, string)>)

  function PartyOf(t: Touch): Party {
    Party(t.address, if IsTokenOp(t.account) then Some((t.account.token, t.account.nonce)) else None)
  }

  ghost function PartiesOf(touches: seq<Touch>): set<Party> { set t | t in touches :: PartyOf(t) }

  ghost predicate NamesAddress(parties: set<Party>, a: string) { exists p :: p in parties && p.address == a }

  ghost predicate RecordsAt(accounts: Accounts, a: string, token: string, nonce: string) {
    a in accounts && Records(accounts[a], token, nonce)
  }

  /** An address, or a token under it, is there afterwards if and only if it was before or a party names it. */
  ghost predicate AddsExactly(before: Accounts, after: Accounts, parties: set<Party>) {
    && (forall a :: a in after <==> a in before || NamesAddress(parties, a))
    && (forall a, token, nonce :: RecordsAt(after, a, token, nonce) <==>
          RecordsAt(before, a, token, nonce) || Party(a, Some((token, nonce))) in parties)
  }

  lemma AddsCompose(x: Accounts, y: Accounts, z: Accounts, ps: set<Party>, qs: set<Party>)
    requires AddsExactly(x, y, ps) && AddsExactly(y, z, qs)
    ensures AddsExactly(x, z, ps + qs)
  {
  }

  lemma AddsOne(accounts: Accounts, t: Touch)
    requires AllKept(accounts)
    ensures AddsExactly(accounts, AddEntry(accounts, t.address, t.account), {PartyOf(t)})
  {
    AddEntryKeeps(accounts, t);
  }

  lemma {:induction false} AddAllExact(accounts: Accounts, touches: seq<Touch>)
    requires AllKept(accounts)
    ensures AddsExactly(accounts, AddAll(accounts, touches), PartiesOf(touches))
  {
    if touches != [] {
      var n := |touches| - 1;
      var before := AddAll(accounts, touches[..n]);
      AddAllExact(accounts, touches[..n]);
      AddsOne(before, touches[n]);
      assert PartiesOf(touches) == PartiesOf(touches[..n]) + {PartyOf(touches[n])};
      AddsCompose(accounts, before, AddAll(accounts, touches), PartiesOf(touches[..n]), {PartyOf(touches[n])});
    }
  }

  function Flags(itos: map<string, AlteredITO>): map<string, bool> { map a | a in itos :: itos[a].isNew }

  function PutFirst<V>(table: map<string, V>, entry: Option<(string, V)>): map<string, V> {
    match entry case None => table case Some((key, value)) => if key in table then table else table[key := value]
  }

  function AmountOf(purchase: Option<Purchase>, asset: string, address: string): int {
    match purchase
    case None => 0
    case Some(p) => if p.asset == asset && p.address == address then p.amount else 0
  }

  ghost predicate TablesFollow(before: Altered, after: Altered, effect: Effect) {
    && after.assets == before.assets + effect.assets
    && after.pools == before.pools + effect.pools
    && after.orders == Put(before.orders, effect.order)
    && after.proposals == Put(before.proposals, effect.proposal)
    && after.marketplaces == Put(before.marketplaces, effect.marketplace)
  }

  ghost predicate ITOsFollow(before: map<string, AlteredITO>, after: map<string, AlteredITO>, effect: Effect) {
    && Flags(after) == PutFirst(Flags(before), effect.ito)
    && forall asset, address :: Bought(after, asset, address) ==
         Wrap(Bought(before, asset, address) + AmountOf(effect.purchase, asset, address))
  }

  /** The collections change as the effect says, and in no other way. */
  ghost predicate Applies(before: Altered, after: Altered, effect: Effect) {
    && AllKept(before.accounts) && after.accounts == AddAll(before.accounts, effect.touches)
    && TablesFollow(before, after, effect)
    && ITOsFollow(before.itos, after.itos, effect)
  }

  lemma ITOApplies(itos: map<string, AlteredITO>, m: Fields)
    requires Safe(m)
    ensures Flags(IndexITO(itos, m)) == PutFirst(Flags(itos), ITOSet(m))
    ensures forall asset, address :: Bought(IndexITO(itos, m), asset, address) ==
              Wrap(Bought(itos, asset, address) + AmountOf(PurchaseIn(m), asset, address))
  {
  }

  lemma ReceiptApplies(ctx: Context, ad: Altered, m: Fields, effect: Effect)
    requires AllKept(ad.accounts) && Follows(ctx, m, effect)
    ensures Applies(ad, IndexReceipt(ctx, ad, m), effect)
  {
    ITOApplies(ad.itos, m);
  }

  lemma NothingApplies(ad: Altered)
    requires AllKept(ad.accounts)
    ensures Applies(ad, ad, NO_EFFECT)
  {
  }

  lemma LastApplies(env: Env, ctx: Context, ad: Altered, data: seq<string>, receipts: seq<Fields>)
    requires AllKept(ad.accounts) && AllSafe(receipts) && receipts != []
    requires IsDecoding(env, data, Decoded(receipts[|receipts| - 1]))
    ensures Applies(IndexAll(ctx, ad, receipts[..|receipts| - 1]), IndexAll(ctx, ad, receipts),
              EffectOf(env, ctx, data))
  {
    var n := |receipts| - 1;
    DecodedFollows(env, ctx, data, receipts[n]);
    ReceiptApplies(ctx, IndexAll(ctx, ad, receipts[..n]), receipts[n], EffectOf(env, ctx, data));
  }

  // ------------------------------------------------------------------------
  // Main results: from the bytes of all receipts to each collection
  // ------------------------------------------------------------------------

  function EffectsOf(env: Env, ctx: Context, raw: seq<seq<string>>): seq<Effect> {
    seq(|raw|, i requires 0 <= i < |raw| => EffectOf(env, ctx, raw[i]))
  }

  /** The decoded receipts without those of the last raw receipt. */
  ghost function Rest(env: Env, raw: seq<seq<string>>, receipts: seq<Fields>): seq<Fields>
    requires raw != [] && DecodedFrom(env, raw, receipts)
  {
    if raw[|raw| - 1] == [] || Counts(env, raw[|raw| - 1]) then receipts[..|receipts| - 1] else receipts
  }

  /** Indexing the last raw receipt applies what its bytes say. */
  lemma RawApplies(env: Env, ctx: Context, ad: Altered, raw: seq<seq<string>>, receipts: seq<Fields>)
    requires AllKept(ad.accounts) && AllSafe(receipts) && DecodedFrom(env, raw, receipts) && raw != []
    ensures var n, rest := |raw| - 1, Rest(env, raw, receipts);
            && AllSafe(rest) && DecodedFrom(env, raw[..n], rest)
            && Applies(IndexAll(ctx, ad, rest), IndexAll(ctx, ad, receipts), EffectOf(env, ctx, raw[n]))
  {
    if raw[|raw| - 1] == [] || Counts(env, raw[|raw| - 1]) {
      LastApplies(env, ctx, ad, raw[|raw| - 1], receipts);
    } else {
      NothingApplies(IndexAll(ctx, ad, receipts));
    }
  }

  /** Each state comes from the one before by the effect between them. */
  ghost predicate Chain(states: seq<Altered>, effects: seq<Effect>) {
    |states| == |effects| + 1 && forall i :: 0 <= i < |effects| ==> Applies(states[i], states[i + 1], effects[i])
  }

  lemma ChainGrows(states: seq<Altered>, effects: seq<Effect>, after: Altered, effect: Effect)
    requires Chain(states, effects) && Applies(states[|effects|], after, effect)
    ensures Chain(states + [after], effects + [effect])
  {
  }

  lemma ChainShrinks(states: seq<Altered>, effects: seq<Effect>)
    requires Chain(states, effects) && effects != []
    ensures var n := |effects| - 1;
            Chain(states[..n + 1], effects[..n]) && Applies(states[n], states[n + 1], effects[n])
  {
  }

  lemma EffectsGrow(env: Env, ctx: Context, raw: seq<seq<string>>)
    requires raw != []
    ensures var n := |raw| - 1;
            EffectsOf(env, ctx, raw) == EffectsOf(env, ctx, raw[..n]) + [EffectOf(env, ctx, raw[n])]
  {
  }

  /** Indexing a transaction's receipts applies what their bytes say, one raw receipt after the other. */
  lemma {:induction false} IndexingFollowsBytes(env: Env, ctx: Context, ad: Altered, raw: seq<seq<string>>,
                                                receipts: seq<Fields>)
    returns (states: seq<Altered>)
    requires AllKept(ad.accounts) && AllSafe(receipts) && DecodedFrom(env, raw, receipts)
    ensures Chain(states, EffectsOf(env, ctx, raw))
    ensures states[0] == ad && states[|raw|] == IndexAll(ctx, ad, receipts)
    decreases raw
  {
    if raw == [] {
      states := [ad];
    } else {
      var n, after := |raw| - 1, IndexAll(ctx, ad, receipts);
      RawApplies(env, ctx, ad, raw, receipts);
      states := IndexingFollowsBytes(env, ctx, ad, raw[..n], Rest(env, raw, receipts));
      ChainGrows(states, EffectsOf(env, ctx, raw[..n]), after, EffectOf(env, ctx, raw[n]));
      EffectsGrow(env, ctx, raw);
      states := states + [after];
    }
  }

  /** Every call the receipts make, in order. */
  function AllTouches(effects: seq<Effect>): seq<Touch> {
    if effects == [] then [] else AllTouches(effects[..|effects| - 1]) + effects[|effects| - 1].touches
  }

  lemma {:induction false} AddAllAppends(accounts: Accounts, xs: seq<Touch>, ys: seq<Touch>)
    requires AllKept(accounts)
    ensures AddAll(accounts, xs + ys) == AddAll(AddAll(accounts, xs), ys)
  {
    if ys == [] {
      assert xs + ys == xs;
    } else {
      var n := |ys| - 1;
      assert (xs + ys)[..|xs + ys| - 1] == xs + ys[..n];
      AddAllAppends(accounts, xs, ys[..n]);
    }
  }

  lemma {:induction false} ChainAdds(states: seq<Altered>, effects: seq<Effect>)
    requires Chain(states, effects) && AllKept(states[0].accounts)
    ensures states[|effects|].accounts == AddAll(states[0].accounts, AllTouches(effects))
    decreases |effects|
  {
    if effects != [] {
      var n := |effects| - 1;
      ChainShrinks(states, effects);
      ChainAdds(states[..n + 1], effects[..n]);
      AddAllAppends(states[0].accounts, AllTouches(effects[..n]), effects[n].touches);
    }
  }

  lemma CallsFromBytes(env: Env, ctx: Context, ad: Altered, raw: seq<seq<string>>, receipts: seq<Fields>)
    requires AllKept(ad.accounts) && AllSafe(receipts) && DecodedFrom(env, raw, receipts)
    ensures IndexAll(ctx, ad, receipts).accounts == AddAll(ad.accounts, AllTouches(EffectsOf(env, ctx, raw)))
  {
    var states := IndexingFollowsBytes(env, ctx, ad, raw, receipts);
    ChainAdds(states, EffectsOf(env, ctx, raw));
  }

  /**
  The altered accounts of a transaction are exactly the addresses its receipts' bytes
  name, each with exactly the tokens named for it: nothing a receipt reports is lost to
  another one, and nothing is made up.
  */
  lemma AccountsFromBytes(env: Env, ctx: Context, ad: Altered, raw: seq<seq<string>>, receipts: seq<Fields>)
    requires AllKept(ad.accounts) && AllSafe(receipts) && DecodedFrom(env, raw, receipts)
    ensures AllKept(IndexAll(ctx, ad, receipts).accounts)
    ensures AddsExactly(ad.accounts, IndexAll(ctx, ad, receipts).accounts,
                        PartiesOf(AllTouches(EffectsOf(env, ctx, raw))))
  {
    CallsFromBytes(env, ctx, ad, raw, receipts);
    AddAllExact(ad.accounts, AllTouches(EffectsOf(env, ctx, raw)));
  }

  /** The entries an address has, and the calls made for it. */
  function EntriesOf(accounts: Accounts, a: string): seq<AlteredAccount> { if a in accounts then accounts[a] else [] }

  function CallsFor(touches: seq<Touch>, a: string): seq<AlteredAccount> {
    if touches == [] then []
    else
      var n := |touches| - 1;
      CallsFor(touches[..n], a) + if touches[n].address == a then [touches[n].account] else []
  }

  lemma AddEntryAt(accounts: Accounts, t: Touch, a: string)
    requires AllKept(accounts)
    ensures EntriesOf(AddEntry(accounts, t.address, t.account), a) ==
            if t.address == a then AddOne(EntriesOf(accounts, a), t.account) else EntriesOf(accounts, a)
  {
  }

  lemma CallsForStep(touches: seq<Touch>, list: seq<AlteredAccount>, a: string)
    requires touches != []
    ensures var n := |touches| - 1;
            AddList(list, CallsFor(touches, a)) ==
            if touches[n].address == a then AddOne(AddList(list, CallsFor(touches[..n], a)), touches[n].account)
            else AddList(list, CallsFor(touches[..n], a))
  {
    var xs, before := CallsFor(touches, a), CallsFor(touches[..|touches| - 1], a);
    if touches[|touches| - 1].address == a {
      assert xs[..|xs| - 1] == before;
    } else {
      assert xs == before;
    }
  }

  lemma {:induction false} AddAllAt(accounts: Accounts, touches: seq<Touch>, a: string)
    requires AllKept(accounts)
    ensures EntriesOf(AddAll(accounts, touches), a) == AddList(EntriesOf(accounts, a), CallsFor(touches, a))
  {
    if touches != [] {
      var n := |touches| - 1;
      AddAllAt(accounts, touches[..n], a);
      AddEntryAt(AddAll(accounts, touches[..n]), touches[n], a);
      CallsForStep(touches, EntriesOf(accounts, a), a);
    }
  }

  /**
  The entries of every address in full, and which bytes make it a sender: they summarise
  the entries there before and the entries that the receipts' bytes name for it, in order.
  */
  lemma EntriesFromBytes(env: Env, ctx: Context, ad: Altered, raw: seq<seq<string>>, receipts: seq<Fields>, a: string)
    requires AllKept(ad.accounts) && AllSafe(receipts) && DecodedFrom(env, raw, receipts)
    ensures var after := IndexAll(ctx, ad, receipts).accounts;
            var calls := EntriesOf(ad.accounts, a) + CallsFor(AllTouches(EffectsOf(env, ctx, raw)), a);
            && (a in after <==> calls != [])
            && (a in after ==> Summarises(calls, after[a]))
  {
    var before, xs := EntriesOf(ad.accounts, a), CallsFor(AllTouches(EffectsOf(env, ctx, raw)), a);
    CallsFromBytes(env, ctx, ad, raw, receipts);
    AddAllAt(ad.accounts, AllTouches(EffectsOf(env, ctx, raw)), a);
    CallsOnEntries(before, xs);
  }

  lemma CallsOnEntries(before: seq<AlteredAccount>, xs: seq<AlteredAccount>)
    requires before != [] ==> WellKept(before)
    ensures before + xs == [] ==> AddList(before, xs) == []
    ensures before + xs != [] ==> AddList(before, xs) != [] && Summarises(before + xs, AddList(before, xs))
  {
    AddListAppends(before, xs);
    if before != [] {
      ListIsItsCalls(before);
    }
    if before + xs != [] {
      CallsSummarised(before + xs);
    }
  }

  lemma TransferParties(env: Env, ctx: Context, data: seq<string>)
    requires Counts(env, data) && CodeIn(data) == TRANSFER
    requires '/' !in data[4] && '/' !in data[5]
    requires AssetIds.AssetId(data[4], data[5]) != "" && AssetIds.AssetId(data[4], data[5]) != "KLV"
    ensures var touches := EffectOf(env, ctx, data).touches;
            && |touches| == 2
            && PartyOf(touches[0]) == Party(env.encode(data[1]), Some((data[4], data[5])))
            && PartyOf(touches[1]) == Party(env.encode(data[2]), Some((data[4], data[5])))
  {
    AssetIds.TokenRoundTrip(data[4], data[5]);
  }

  lemma {:induction false} TouchIsAmongAll(effects: seq<Effect>, k: nat, t: Touch)
    requires k < |effects| && t in effects[k].touches
    ensures t in AllTouches(effects)
  {
    if k < |effects| - 1 {
      TouchIsAmongAll(effects[..|effects| - 1], k, t);
    }
  }

  lemma NamedIsRecorded(before: Accounts, after: Accounts, effects: seq<Effect>, k: nat, t: Touch)
    requires AddsExactly(before, after, PartiesOf(AllTouches(effects)))
    requires k < |effects| && t in effects[k].touches && IsTokenOp(t.account)
    ensures RecordsAt(after, t.address, t.account.token, t.account.nonce)
  {
    TouchIsAmongAll(effects, k, t);
    assert PartyOf(t) in PartiesOf(AllTouches(effects));
  }

  /**
  A transfer between two addresses not recorded yet: the one it comes from is the sender
  and the other is not; both get one entry with the receipt's marketplace and order, for the
  token, or, for the native coin, with a balance change and no token unless it was minted.
  */
  lemma {:induction false} TransferMarksTheSender(env: Env, ctx: Context, ad: Altered, data: seq<string>, m: Fields)
    requires AllKept(ad.accounts) && IsDecoding(env, data, Decoded(m)) && Counts(env, data) && Safe(m)
    requires CodeIn(data) == TRANSFER && env.encode(data[1]) != env.encode(data[2])
    requires env.encode(data[1]) !in ad.accounts && env.encode(data[2]) !in ad.accounts
    ensures var after, from, to := IndexReceipt(ctx, ad, m).accounts, env.encode(data[1]), env.encode(data[2]);
            var id := AssetIds.AssetId(data[4], data[5]);
            && from in after && to in after && |after[from]| == 1 && |after[to]| == 1
            && after[from][0].isSender && !after[to][0].isSender
            && (forall a :: a in {from, to} ==>
                  && after[a][0].marketplaceId == env.hex(Part(data, 7))
                  && after[a][0].orderId == env.hex(Part(data, 8))
                  && !after[a][0].isContract
                  && (after[a][0].balanceChange <==> id == "" || id == "KLV"))
            && (id == "" || id == "KLV" ==>
                  && !after[from][0].isKDA && !after[from][0].isNFT
                  && (after[to][0].isKDA <==> from == ctx.zeroAddress) && !after[to][0].isNFT)
            && (id != "" && id != "KLV" ==>
                  && after[from][0].isKDA && after[to][0].isKDA
                  && (after[from][0].isNFT <==> AssetIds.ParseToken(id).isNFT)
                  && (after[to][0].isNFT <==> AssetIds.ParseToken(id).isNFT))
            && forall a :: a in ad.accounts ==> a in after && after[a] == ad.accounts[a]
  {
    EntriesAreNamed(env, ctx, data, m);
    var touches := Touches(ctx, m);
    TwoNewEntries(ad.accounts, touches);
  }

  lemma TwoNewEntries(accounts: Accounts, touches: seq<Touch>)
    requires AllKept(accounts) && |touches| == 2 && touches[0].address != touches[1].address
    requires touches[0].address !in accounts && touches[1].address !in accounts
    ensures AddAll(accounts, touches) ==
            accounts[touches[0].address := [touches[0].account]][touches[1].address := [touches[1].account]]
  {
    assert touches[..1][..0] == [];
    assert AddAll(accounts, touches[..1]) == AddEntry(accounts, touches[0].address, touches[0].account);
  }

  /**
  A token transfer: when the collection and the nonce hold no slash and the asset is not
  the native coin, both parties record the very collection and nonce the receipt named.
  */
  lemma TransferIsRecorded(env: Env, ctx: Context, ad: Altered, raw: seq<seq<string>>, receipts: seq<Fields>, k: nat)
    requires AllKept(ad.accounts) && AllSafe(receipts) && DecodedFrom(env, raw, receipts)
    requires k < |raw| && Counts(env, raw[k]) && CodeIn(raw[k]) == TRANSFER
    requires '/' !in raw[k][4] && '/' !in raw[k][5]
    requires AssetIds.AssetId(raw[k][4], raw[k][5]) != "" && AssetIds.AssetId(raw[k][4], raw[k][5]) != "KLV"
    ensures var after := IndexAll(ctx, ad, receipts).accounts;
            && RecordsAt(after, env.encode(raw[k][1]), raw[k][4], raw[k][5])
            && RecordsAt(after, env.encode(raw[k][2]), raw[k][4], raw[k][5])
  {
    var effects, after := EffectsOf(env, ctx, raw), IndexAll(ctx, ad, receipts).accounts;
    AccountsFromBytes(env, ctx, ad, raw, receipts);
    TransferParties(env, ctx, raw[k]);
    NamedIsRecorded(ad.accounts, after, effects, k, effects[k].touches[0]);
    NamedIsRecorded(ad.accounts, after, effects, k, effects[k].touches[1]);
  }

  /** Some receipt names this asset, or this pool. */
  ghost predicate AssetNamed(effects: seq<Effect>, x: (string, bool)) {
    exists i :: 0 <= i < |effects| && x in effects[i].assets
  }

  ghost predicate PoolNamed(effects: seq<Effect>, x: (string, bool)) {
    exists i :: 0 <= i < |effects| && x in effects[i].pools
  }

  ghost predicate MarksExactly(before: Altered, after: Altered, effects: seq<Effect>, x: (string, bool)) {
    && (x in after.assets <==> x in before.assets || AssetNamed(effects, x))
    && (x in after.pools <==> x in before.pools || PoolNamed(effects, x))
  }

  lemma NamesGrow(effects: seq<Effect>, x: (string, bool))
    requires effects != []
    ensures var n := |effects| - 1;
            && (AssetNamed(effects, x) <==> AssetNamed(effects[..n], x) || x in effects[n].assets)
            && (PoolNamed(effects, x) <==> PoolNamed(effects[..n], x) || x in effects[n].pools)
  {
    var n := |effects| - 1;
    assert forall i :: 0 <= i < n ==> effects[..n][i] == effects[i];
  }

  lemma MarksStep(before: Altered, mid: Altered, after: Altered, effects: seq<Effect>, x: (string, bool))
    requires effects != [] && MarksExactly(before, mid, effects[..|effects| - 1], x)
    requires TablesFollow(mid, after, effects[|effects| - 1])
    ensures MarksExactly(before, after, effects, x)
  {
    NamesGrow(effects, x);
  }

  lemma {:induction false} ChainMarks(states: seq<Altered>, effects: seq<Effect>, x: (string, bool))
    requires Chain(states, effects)
    ensures MarksExactly(states[0], states[|effects|], effects, x)
    decreases |effects|
  {
    if effects != [] {
      var n := |effects| - 1;
      ChainShrinks(states, effects);
      ChainMarks(states[..n + 1], effects[..n], x);
      MarksStep(states[0], states[n], states[n + 1], effects, x);
    }
  }

  /** An asset, or a pool, is marked afterwards if and only if it was before or some receipt's bytes name it. */
  lemma MarksFromBytes(env: Env, ctx: Context, ad: Altered, raw: seq<seq<string>>, receipts: seq<Fields>,
                       x: (string, bool))
    requires AllKept(ad.accounts) && AllSafe(receipts) && DecodedFrom(env, raw, receipts)
    ensures MarksExactly(ad, IndexAll(ctx, ad, receipts), EffectsOf(env, ctx, raw), x)
  {
    var states := IndexingFollowsBytes(env, ctx, ad, raw, receipts);
    ChainMarks(states, EffectsOf(env, ctx, raw), x);
  }

  predicate Sets<V>(entry: Option<(string, V)>, id: string) { entry.Some? && entry.value.0 == id }

  function Look<V>(table: map<string, V>, id: string): Option<V> { if id in table then Some(table[id]) else None }

  /** What the last, or the first, of these entries that is for `id` says. */
  function LastNamed<V>(entries: seq<Option<(string, V)>>, id: string): Option<V> {
    if entries == [] then None
    else
      var n := |entries| - 1;
      if Sets(entries[n], id) then Some(entries[n].value.1) else LastNamed(entries[..n], id)
  }

  function FirstNamed<V>(entries: seq<Option<(string, V)>>, id: string): Option<V> {
    if entries == [] then None
    else
      var n := |entries| - 1;
      var first := FirstNamed(entries[..n], id);
      if first.None? && Sets(entries[n], id) then Some(entries[n].value.1) else first
  }

  lemma {:induction false} NamedMeaning<V>(entries: seq<Option<(string, V)>>, k: nat, id: string)
    ensures (forall j :: 0 <= j < |entries| ==> !Sets(entries[j], id)) ==>
              LastNamed(entries, id).None? && FirstNamed(entries, id).None?
    ensures k < |entries| && Sets(entries[k], id) && (forall j :: k < j < |entries| ==> !Sets(entries[j], id)) ==>
              LastNamed(entries, id) == Some(entries[k].value.1)
    ensures k < |entries| && Sets(entries[k], id) && (forall j :: 0 <= j < k ==> !Sets(entries[j], id)) ==>
              FirstNamed(entries, id) == Some(entries[k].value.1)
    decreases |entries|
  {
    if entries != [] {
      NamedMeaning(entries[..|entries| - 1], k, id);
    }
  }

  function Else<V>(x: Option<V>, y: Option<V>): Option<V> { if x.Some? then x else y }

  function Orders(effects: seq<Effect>): seq<Option<(string, Order)>> {
    seq(|effects|, i requires 0 <= i < |effects| => effects[i].order)
  }

  function Proposals(effects: seq<Effect>): seq<Option<(string, bool)>> {
    seq(|effects|, i requires 0 <= i < |effects| => effects[i].proposal)
  }

  function Marketplaces(effects: seq<Effect>): seq<Option<(string, bool)>> {
    seq(|effects|, i requires 0 <= i < |effects| => effects[i].marketplace)
  }

  function ITOs(effects: seq<Effect>): seq<Option<(string, bool)>> {
    seq(|effects|, i requires 0 <= i < |effects| => effects[i].ito)
  }

  lemma EntriesGrow(effects: seq<Effect>)
    requires effects != []
    ensures var n := |effects| - 1;
            && Orders(effects)[..n] == Orders(effects[..n])
            && Proposals(effects)[..n] == Proposals(effects[..n])
            && Marketplaces(effects)[..n] == Marketplaces(effects[..n])
            && ITOs(effects)[..n] == ITOs(effects[..n])
  {
  }

  ghost predicate EndsAsLastNamed(before: Altered, after: Altered, effects: seq<Effect>, id: string) {
    && Look(after.orders, id) == Else(LastNamed(Orders(effects), id), Look(before.orders, id))
    && Look(after.proposals, id) == Else(LastNamed(Proposals(effects), id), Look(before.proposals, id))
    && Look(after.marketplaces, id) == Else(LastNamed(Marketplaces(effects), id), Look(before.marketplaces, id))
  }

  lemma LastStep<V>(before: map<string, V>, mid: map<string, V>, entries: seq<Option<(string, V)>>, id: string)
    requires entries != [] && Look(mid, id) == Else(LastNamed(entries[..|entries| - 1], id), Look(before, id))
    ensures Look(Put(mid, entries[|entries| - 1]), id) == Else(LastNamed(entries, id), Look(before, id))
  {
  }

  lemma EntitiesStep(before: Altered, mid: Altered, after: Altered, effects: seq<Effect>, id: string)
    requires effects != [] && EndsAsLastNamed(before, mid, effects[..|effects| - 1], id)
    requires TablesFollow(mid, after, effects[|effects| - 1])
    ensures EndsAsLastNamed(before, after, effects, id)
  {
    EntriesGrow(effects);
    LastStep(before.orders, mid.orders, Orders(effects), id);
    LastStep(before.proposals, mid.proposals, Proposals(effects), id);
    LastStep(before.marketplaces, mid.marketplaces, Marketplaces(effects), id);
  }

  lemma {:induction false} ChainEntities(states: seq<Altered>, effects: seq<Effect>, id: string)
    requires Chain(states, effects)
    ensures EndsAsLastNamed(states[0], states[|effects|], effects, id)
    decreases |effects|
  {
    if effects != [] {
      var n := |effects| - 1;
      ChainShrinks(states, effects);
      ChainEntities(states[..n + 1], effects[..n], id);
      EntitiesStep(states[0], states[n], states[n + 1], effects, id);
    }
  }

  /**
  An order, proposal or marketplace ends as the bytes of the last receipt naming it say,
  and stays as it was when none names it.
  */
  lemma EntitiesFromBytes(env: Env, ctx: Context, ad: Altered, raw: seq<seq<string>>, receipts: seq<Fields>, id: string)
    requires AllKept(ad.accounts) && AllSafe(receipts) && DecodedFrom(env, raw, receipts)
    ensures EndsAsLastNamed(ad, IndexAll(ctx, ad, receipts), EffectsOf(env, ctx, raw), id)
  {
    var states := IndexingFollowsBytes(env, ctx, ad, raw, receipts);
    ChainEntities(states, EffectsOf(env, ctx, raw), id);
  }

  /** What the receipts say an address bought of an asset, in all. */
  function Total(effects: seq<Effect>, asset: string, address: string): int {
    if effects == [] then 0
    else Total(effects[..|effects| - 1], asset, address) + AmountOf(effects[|effects| - 1].purchase, asset, address)
  }

  /** The recorded amount is what was there plus all that was bought since, in 64-bit arithmetic. */
  ghost predicate AddsUp(before: map<string, AlteredITO>, after: map<string, AlteredITO>, effects: seq<Effect>,
                         asset: string, address: string)
  {
    Bought(after, asset, address) == Wrap(Bought(before, asset, address) + Total(effects, asset, address))
  }

  lemma PurchaseStep(before: map<string, AlteredITO>, mid: map<string, AlteredITO>, after: map<string, AlteredITO>,
                     effects: seq<Effect>, asset: string, address: string)
    requires effects != [] && AddsUp(before, mid, effects[..|effects| - 1], asset, address)
    requires ITOsFollow(mid, after, effects[|effects| - 1])
    ensures AddsUp(before, after, effects, asset, address)
  {
    var n := |effects| - 1;
    WrapAdds(Bought(before, asset, address) + Total(effects[..n], asset, address),
             AmountOf(effects[n].purchase, asset, address));
  }

  lemma {:induction false} ChainBuys(states: seq<Altered>, effects: seq<Effect>, asset: string, address: string)
    requires Chain(states, effects)
    ensures AddsUp(states[0].itos, states[|effects|].itos, effects, asset, address)
    decreases |effects|
  {
    if effects != [] {
      var n := |effects| - 1;
      ChainShrinks(states, effects);
      ChainBuys(states[..n + 1], effects[..n], asset, address);
      PurchaseStep(states[0].itos, states[n].itos, states[n + 1].itos, effects, asset, address);
    }
  }

  /**
  The amount indexed for a buyer of an ITO is the 64-bit sum of what was there and of
  every amount the receipts' bytes name for this buyer and asset.
  */
  lemma PurchasesFromBytes(env: Env, ctx: Context, ad: Altered, raw: seq<seq<string>>, receipts: seq<Fields>,
                           asset: string, address: string)
    requires AllKept(ad.accounts) && AllSafe(receipts) && DecodedFrom(env, raw, receipts)
    ensures AddsUp(ad.itos, IndexAll(ctx, ad, receipts).itos, EffectsOf(env, ctx, raw), asset, address)
  {
    var states := IndexingFollowsBytes(env, ctx, ad, raw, receipts);
    ChainBuys(states, EffectsOf(env, ctx, raw), asset, address);
  }

  ghost predicate EndsAsFirstNamed(before: map<string, AlteredITO>, after: map<string, AlteredITO>,
                                   effects: seq<Effect>, asset: string)
  {
    Look(Flags(after), asset) == Else(Look(Flags(before), asset), FirstNamed(ITOs(effects), asset))
  }

  lemma FlagsStep(before: map<string, AlteredITO>, mid: map<string, AlteredITO>, after: map<string, AlteredITO>,
                  effects: seq<Effect>, asset: string)
    requires effects != [] && EndsAsFirstNamed(before, mid, effects[..|effects| - 1], asset)
    requires ITOsFollow(mid, after, effects[|effects| - 1])
    ensures EndsAsFirstNamed(before, after, effects, asset)
  {
    EntriesGrow(effects);
  }

  lemma {:induction false} ChainFlags(states: seq<Altered>, effects: seq<Effect>, asset: string)
    requires Chain(states, effects)
    ensures EndsAsFirstNamed(states[0].itos, states[|effects|].itos, effects, asset)
    decreases |effects|
  {
    if effects != [] {
      var n := |effects| - 1;
      ChainShrinks(states, effects);
      ChainFlags(states[..n + 1], effects[..n], asset);
      FlagsStep(states[0].itos, states[n].itos, states[n + 1].itos, effects, asset);
    }
  }

  /** An ITO is kept if it was there, and else new exactly if the first receipt to name it configures it. */
  lemma ITOsFromBytes(env: Env, ctx: Context, ad: Altered, raw: seq<seq<string>>, receipts: seq<Fields>, asset: string)
    requires AllKept(ad.accounts) && AllSafe(receipts) && DecodedFrom(env, raw, receipts)
    ensures EndsAsFirstNamed(ad.itos, IndexAll(ctx, ad, receipts).itos, EffectsOf(env, ctx, raw), asset)
  {
    var states := IndexingFollowsBytes(env, ctx, ad, raw, receipts);
    ChainFlags(states, EffectsOf(env, ctx, raw), asset);
  }
}
