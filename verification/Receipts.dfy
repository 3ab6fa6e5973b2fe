/**
Transaction receipts: decoding one from its byte parts into a map of dynamically typed
values. The parts are Go strings, one character per byte.

The outcome of decoding is a map, an error, or a run-time panic; which one is decided by
a table of how many parts each receipt type needs and which of them are numbers.
*/
module Receipts {
  import opened Prelude
  import AssetIds

  // The receipt types, a signed byte on the wire.
  const TRANSFER := 0
  const CREATE_KDA := 1
  const UPDATE_KDA := 2
  const FREEZE := 3
  const UNFREEZE := 4
  const PROPOSAL := 5
  const PROPOSAL_VOTE := 6
  const DELEGATE := 7
  const CONFIG_ITO := 8
  const SET_ITO_PRICES := 9
  const CREATE_MARKETPLACE := 10
  const CONFIG_MARKETPLACE := 11
  const UPDATE_VALIDATOR := 12
  const UPDATE_ACCOUNT_PERMISSION := 13
  const SELL := 15
  const BUY := 16
  const CLAIM := 17
  const WITHDRAW := 18
  const SIGNED_BY := 19
  const UPDATE_METADATA := 20
  const DEPOSIT := 21
  const UPDATE_KDA_POOL := 22
  const UPDATE_ITO := 23
  const CANCEL_ORDER := 24
  const SC_TRIGGER := 25
  const SET_ACCOUNT_NAME := 26
  const ERROR := 122

  /** The names under which a receipt's values are stored. */
  datatype Key =
    | Type | CID | TypeString
    | From | To | AssetID | Nonce | Collection | Amount | TxValue | AssetType | MarketplaceID | OrderID
    | BucketID | AvailableEpoch | ProposalID | Voter | VoteType | Votes | AmountDelegated | DelegateTo
    | ID | Signer | Weight | AssetIDReceived | ClaimType | ClaimTypeString | Executed | Bidder | CurrencyID
    | Owner | NFTNonce | PoolID | Address | DepositType | TriggerType | Contract | Name | Title | Description

  /** A value together with its dynamic type. */
  datatype Value = ReceiptType(code: int) | Int(i: int) | Int64(n: I64) | Str(s: string) | Bool(b: bool)

  type Fields = map<Key, Value>

  /** What the decoder calls on: address encoding, hex, number parsing and the names of enumerated values. */
  datatype Env = Env(
    encode: string -> string,
    hex: string -> string,
    parseInt: string -> Option<I64>,
    typeName: int -> string,
    claimName: int -> string,
    assetTypeName: int -> string)

  datatype Outcome = Decoded(fields: Fields) | Rejected | Panics

  function Byte(c: char): int { c as int % 256 }

  /** A byte read as a signed one. */
  function Int8(c: char): (r: int)
    ensures -128 <= r < 128 && (c as int - r) % 256 == 0
  {
    if Byte(c) < 128 then Byte(c) else Byte(c) - 256
  }

  // ------------------------------------------------------------------------
  // The table
  // ------------------------------------------------------------------------

  /** The type bytes on the wire: they count up from zero, with one left unused. */
  lemma TypeBytes()
    ensures [TRANSFER, CREATE_KDA, UPDATE_KDA, FREEZE, UNFREEZE, PROPOSAL, PROPOSAL_VOTE, DELEGATE, CONFIG_ITO,
             SET_ITO_PRICES, CREATE_MARKETPLACE, CONFIG_MARKETPLACE, UPDATE_VALIDATOR, UPDATE_ACCOUNT_PERMISSION]
            == [0, 1, 2, 3, 4, 5, 6, 7, 8, 9, 10, 11, 12, 13]
    ensures [SELL, BUY, CLAIM, WITHDRAW, SIGNED_BY, UPDATE_METADATA, DEPOSIT, UPDATE_KDA_POOL, UPDATE_ITO,
             CANCEL_ORDER, SC_TRIGGER, SET_ACCOUNT_NAME]
            == [15, 16, 17, 18, 19, 20, 21, 22, 23, 24, 25, 26]
    ensures ERROR == 122
  {
  }

  /** How many parts a receipt must have, its header included. */
  function MinParts(code: int): nat {
    if code == TRANSFER || code == CLAIM || code == BUY then 7
    else if code == UNFREEZE || code == DEPOSIT then 6
    else if code == FREEZE || code == PROPOSAL_VOTE || code == DELEGATE then 5
    else if code == WITHDRAW || code == UPDATE_METADATA || code == SC_TRIGGER then 4
    else if code == SELL || code == CANCEL_ORDER || code == SET_ACCOUNT_NAME then 3
    else if code == CREATE_KDA || code == UPDATE_KDA || code == PROPOSAL || code == UPDATE_VALIDATOR
         || code == CONFIG_ITO || code == SET_ITO_PRICES || code == CREATE_MARKETPLACE || code == CONFIG_MARKETPLACE
         || code == UPDATE_KDA_POOL || code == UPDATE_ACCOUNT_PERMISSION then 2
    else 1
  }

  predicate Numeric(env: Env, data: seq<string>, i: nat) {
    env.parseInt(Part(data, i)).Some?
  }

  /** A part beyond the end reads as empty: transfers are padded to nine parts. */
  function Part(data: seq<string>, i: nat): string { if i < |data| then data[i] else "" }

  /** The parts that must read as numbers do. */
  predicate NumbersOk(env: Env, data: seq<string>, code: int) {
    if code == TRANSFER || code == WITHDRAW || code == DEPOSIT then Numeric(env, data, 3)
    else if code == FREEZE then Numeric(env, data, 4)
    else if code == UNFREEZE || code == BUY then Numeric(env, data, 5)
    else if code == PROPOSAL_VOTE then Numeric(env, data, 3) && Numeric(env, data, 4)
    else if code == CLAIM then Numeric(env, data, 1) && Numeric(env, data, 6)
    else code == UPDATE_ITO && |data| == 4 ==> Numeric(env, data, 3)
  }

  predicate HasHeader(data: seq<string>) { |data| > 0 && |data[0]| >= 2 }

  function CodeIn(data: seq<string>): int
    requires HasHeader(data)
  {
    Int8(data[0][0])
  }

  /** A receipt with a header, the parts its type needs, and numbers where they belong. */
  predicate WellFormed(env: Env, data: seq<string>) {
    && HasHeader(data)
    && |data| >= MinParts(CodeIn(data))
    && (CodeIn(data) == SET_ACCOUNT_NAME ==> |data| == 3)
    && NumbersOk(env, data, CodeIn(data))
  }

  /** The two accesses the decoder does not check: the asset type byte of a transfer, the asset of an ITO update. */
  predicate Unchecked(data: seq<string>)
    requires HasHeader(data)
  {
    (CodeIn(data) == TRANSFER && |data| > 6 && data[6] == "") || (CodeIn(data) == UPDATE_ITO && |data| == 1)
  }

  // What the decoded fields say, type by type: the key, how its part is read, and which part.

  predicate Text(data: seq<string>, m: Fields, key: Key, i: nat) {
    key in m && m[key] == Str(Part(data, i))
  }

  predicate Encoded(env: Env, data: seq<string>, m: Fields, key: Key, i: nat) {
    key in m && m[key] == Str(env.encode(Part(data, i)))
  }

  predicate Hex(env: Env, data: seq<string>, m: Fields, key: Key, i: nat) {
    key in m && m[key] == Str(env.hex(Part(data, i)))
  }

  predicate Number(env: Env, data: seq<string>, m: Fields, key: Key, i: nat) {
    key in m && m[key].Int64? && env.parseInt(Part(data, i)) == Some(m[key].n)
  }

  predicate HoldsHeader(env: Env, data: seq<string>, m: Fields)
    requires HasHeader(data)
  {
    && Type in m && m[Type] == ReceiptType(CodeIn(data))
    && CID in m && m[CID] == Int(Byte(data[0][1]))
    && TypeString in m && m[TypeString] == Str(env.typeName(CodeIn(data)))
  }

  predicate DescribesTransfer(env: Env, data: seq<string>, m: Fields) {
    && Encoded(env, data, m, From, 1) && Encoded(env, data, m, To, 2) && Number(env, data, m, TxValue, 3)
    && Text(data, m, Collection, 4) && Text(data, m, Nonce, 5)
    && AssetID in m && m[AssetID] == Str(AssetIds.AssetId(Part(data, 4), Part(data, 5)))
    && AssetType in m && Part(data, 6) != "" && m[AssetType] == Str(env.assetTypeName(Byte(Part(data, 6)[0])))
    && Hex(env, data, m, MarketplaceID, 7) && Hex(env, data, m, OrderID, 8)
  }

  predicate IsStaking(code: int) {
    code == FREEZE || code == UNFREEZE || code == DELEGATE || code == WITHDRAW || code == DEPOSIT
  }

  predicate DescribesStaking(env: Env, data: seq<string>, m: Fields, code: int) {
    if code == FREEZE then
      && Hex(env, data, m, BucketID, 1) && Encoded(env, data, m, From, 2)
      && Text(data, m, AssetID, 3) && Number(env, data, m, TxValue, 4)
    else if code == UNFREEZE then
      && Hex(env, data, m, BucketID, 1) && Text(data, m, AvailableEpoch, 2) && Encoded(env, data, m, From, 3)
      && Text(data, m, AssetID, 4) && Number(env, data, m, TxValue, 5)
    else if code == DELEGATE then
      && Encoded(env, data, m, From, 1) && Hex(env, data, m, BucketID, 2) && Text(data, m, AmountDelegated, 4)
      && if Part(data, 3) != "" then Encoded(env, data, m, DelegateTo, 3) else Text(data, m, DelegateTo, 3)
    else if code == WITHDRAW then
      Encoded(env, data, m, From, 1) && Text(data, m, AssetID, 2) && Number(env, data, m, Amount, 3)
    else
      && Encoded(env, data, m, From, 1) && Text(data, m, DepositType, 2) && Number(env, data, m, Amount, 3)
      && Text(data, m, AssetID, 4) && Text(data, m, CurrencyID, 5)
  }

  predicate IsMarket(code: int) {
    || code == CREATE_MARKETPLACE || code == CONFIG_MARKETPLACE || code == SELL || code == BUY
    || code == CLAIM || code == CANCEL_ORDER
  }

  predicate DescribesMarket(env: Env, data: seq<string>, m: Fields, code: int) {
    if code == SELL then Hex(env, data, m, OrderID, 1) && Hex(env, data, m, MarketplaceID, 2)
    else if code == CANCEL_ORDER then Hex(env, data, m, MarketplaceID, 1) && Hex(env, data, m, OrderID, 2)
    else if code == BUY then
      && Hex(env, data, m, OrderID, 1) && Hex(env, data, m, MarketplaceID, 2)
      && Executed in m && m[Executed] == Bool(Part(data, 3) == "1") && Encoded(env, data, m, Bidder, 4)
      && Number(env, data, m, Amount, 5) && Text(data, m, CurrencyID, 6)
    else if code == CLAIM then
      && Number(env, data, m, Amount, 1) && Hex(env, data, m, OrderID, 2) && Hex(env, data, m, MarketplaceID, 3)
      && Text(data, m, AssetID, 4) && Text(data, m, AssetIDReceived, 5) && Number(env, data, m, ClaimType, 6)
      && ClaimTypeString in m && m[ClaimTypeString] == Str(env.claimName(m[ClaimType].n))
    else Hex(env, data, m, MarketplaceID, 1)
  }

  predicate IsAsset(code: int) {
    || code == CREATE_KDA || code == UPDATE_KDA || code == CONFIG_ITO || code == SET_ITO_PRICES
    || code == UPDATE_METADATA || code == UPDATE_KDA_POOL || code == UPDATE_ITO
  }

  predicate DescribesAsset(env: Env, data: seq<string>, m: Fields, code: int) {
    if code == UPDATE_METADATA then
      Encoded(env, data, m, Owner, 1) && Text(data, m, AssetID, 2) && Text(data, m, NFTNonce, 3)
    else if code == UPDATE_KDA_POOL then Text(data, m, PoolID, 1)
    else if code == UPDATE_ITO && |data| == 4 then
      Encoded(env, data, m, Address, 1) && Text(data, m, AssetID, 2) && Number(env, data, m, Amount, 3)
    else Text(data, m, AssetID, 1) && Address !in m
  }

  predicate IsAccount(code: int) {
    || code == PROPOSAL || code == PROPOSAL_VOTE || code == UPDATE_VALIDATOR || code == SC_TRIGGER
    || code == SET_ACCOUNT_NAME || code == UPDATE_ACCOUNT_PERMISSION
  }

  predicate DescribesAccount(env: Env, data: seq<string>, m: Fields, code: int) {
    if code == PROPOSAL then Text(data, m, ProposalID, 1)
    else if code == PROPOSAL_VOTE then
      && Text(data, m, ProposalID, 1) && Encoded(env, data, m, Voter, 2)
      && Number(env, data, m, VoteType, 3) && Number(env, data, m, Votes, 4)
    else if code == UPDATE_VALIDATOR then Encoded(env, data, m, ID, 1)
    else if code == SC_TRIGGER then
      Text(data, m, TriggerType, 1) && Encoded(env, data, m, From, 2) && Encoded(env, data, m, Contract, 3)
    else if code == SET_ACCOUNT_NAME then Text(data, m, Name, 1) && Encoded(env, data, m, Address, 2)
    else Encoded(env, data, m, Address, 1)
  }

  /** Where the last signer of a receipt with this many parts stands; signers and weights alternate. */
  function LastPair(parts: nat): nat
    requires parts >= 3
  {
    if parts % 2 == 1 then parts - 2 else parts - 3
  }

  predicate DescribesNote(env: Env, data: seq<string>, m: Fields, code: int) {
    && (code == SIGNED_BY && |data| >= 3 ==>
          Encoded(env, data, m, Signer, LastPair(|data|)) && Text(data, m, Weight, LastPair(|data|) + 1))
    && (code == ERROR && |data| > 1 ==> Text(data, m, Title, 1))
    && (code == ERROR && |data| > 2 ==> Text(data, m, Description, 2))
  }

  /** The fields hold the receipt's values under their names. */
  predicate Describes(env: Env, data: seq<string>, m: Fields)
    requires HasHeader(data)
  {
    var code := CodeIn(data);
    && HoldsHeader(env, data, m)
    && if code == TRANSFER then DescribesTransfer(env, data, m)
       else if IsStaking(code) then DescribesStaking(env, data, m, code)
       else if IsMarket(code) then DescribesMarket(env, data, m, code)
       else if IsAsset(code) then DescribesAsset(env, data, m, code)
       else if IsAccount(code) then DescribesAccount(env, data, m, code)
       else DescribesNote(env, data, m, code)
  }

  /** What decoding must come to. */
  predicate IsDecoding(env: Env, data: seq<string>, r: Outcome) {
    if |data| == 0 then r == Decoded(map[])
    else if !WellFormed(env, data) then r.Rejected?
    else if Unchecked(data) then r.Panics?
    else r.Decoded? && Describes(env, data, r.fields)
  }

  // ------------------------------------------------------------------------
  // The decoder
  // ------------------------------------------------------------------------

  predicate HeaderOf(env: Env, data: seq<string>, code: int, header: Fields) {
    HasHeader(data) && code == CodeIn(data) && HoldsHeader(env, data, header) && Address !in header
  }

  method TransferFields(env: Env, data: seq<string>, code: int, header: Fields) returns (r: Outcome)
    requires HeaderOf(env, data, code, header) && code == TRANSFER
    ensures IsDecoding(env, data, r)
  {
    if |data| < 7 {
      return Rejected;
    }
    var padded := data;
    if |data| < 9 {
      padded := data + ["", ""];
    }
    var collection, nonce, assetId := padded[4], "", padded[4];
    if |padded[5]| > 0 {
      nonce := padded[5];
      assetId := assetId + [AssetIds.SEPARATOR] + padded[5];
    }
    var txValue := env.parseInt(padded[3]);
    if txValue.None? {
      return Rejected;
    }
    if |padded[6]| == 0 {
      return Panics;
    }
    var m := FillTransfer(env, padded, header, assetId, nonce, collection, txValue.value);
    PaddingReadsAsEmpty(env, data, padded, m);
    return Decoded(m);
  }

  lemma PaddingReadsAsEmpty(env: Env, data: seq<string>, padded: seq<string>, m: Fields)
    requires |data| >= 7 && (padded == data || padded == data + ["", ""]) && DescribesTransfer(env, padded, m)
    ensures DescribesTransfer(env, data, m)
  {
    assert Part(data, 7) == Part(padded, 7) && Part(data, 8) == Part(padded, 8);
  }

  /** Filling in the values leaves the header alone. */
  predicate Kept(header: Fields, m: Fields) {
    && (Type in header ==> Type in m && m[Type] == header[Type])
    && (CID in header ==> CID in m && m[CID] == header[CID])
    && (TypeString in header ==> TypeString in m && m[TypeString] == header[TypeString])
  }

  method FillTransfer(
    env: Env, padded: seq<string>, header: Fields, assetId: string, nonce: string, collection: string, txValue: I64)
    returns (m: Fields)
    requires |padded| >= 9 && padded[6] != "" && collection == padded[4] && nonce == padded[5]
    requires assetId == AssetIds.AssetId(collection, nonce) && env.parseInt(padded[3]) == Some(txValue)
    ensures DescribesTransfer(env, padded, m) && Kept(header, m)
  {
    m := header + map[
      From := Str(env.encode(padded[1])),
      To := Str(env.encode(padded[2])),
      AssetID := Str(assetId),
      Nonce := Str(nonce),
      Collection := Str(collection),
      TxValue := Int64(txValue),
      AssetType := Str(env.assetTypeName(Byte(padded[6][0]))),
      MarketplaceID := Str(env.hex(padded[7])),
      OrderID := Str(env.hex(padded[8]))];
  }

  method StakingFields(env: Env, data: seq<string>, code: int, header: Fields) returns (r: Outcome)
    requires HeaderOf(env, data, code, header) && IsStaking(code)
    ensures IsDecoding(env, data, r)
  {
    if code == FREEZE || code == UNFREEZE {
      r := FreezeFields(env, data, code, header);
    } else if code == DELEGATE {
      if |data| < 5 {
        return Rejected;
      }
      r := Decoded(header + map[
        From := Str(env.encode(data[1])),
        BucketID := Str(env.hex(data[2])),
        AmountDelegated := Str(data[4]),
        DelegateTo := Str(if |data[3]| > 0 then env.encode(data[3]) else "")]);
    } else {
      r := FundsFields(env, data, code, header);
    }
  }

  method FreezeFields(env: Env, data: seq<string>, code: int, header: Fields) returns (r: Outcome)
    requires HeaderOf(env, data, code, header) && (code == FREEZE || code == UNFREEZE)
    ensures IsDecoding(env, data, r)
  {
    if code == FREEZE {
      if |data| < 5 {
        return Rejected;
      }
      var value := env.parseInt(data[4]);
      if value.None? {
        return Rejected;
      }
      r := Decoded(header + map[
        BucketID := Str(env.hex(data[1])),
        From := Str(env.encode(data[2])),
        AssetID := Str(data[3]),
        TxValue := Int64(value.value)]);
    } else {
      if |data| < 6 {
        return Rejected;
      }
      var value := env.parseInt(data[5]);
      if value.None? {
        return Rejected;
      }
      r := Decoded(header + map[
        BucketID := Str(env.hex(data[1])),
        AvailableEpoch := Str(data[2]),
        From := Str(env.encode(data[3])),
        AssetID := Str(data[4]),
        TxValue := Int64(value.value)]);
    }
  }

  method FundsFields(env: Env, data: seq<string>, code: int, header: Fields) returns (r: Outcome)
    requires HeaderOf(env, data, code, header) && (code == WITHDRAW || code == DEPOSIT)
    ensures IsDecoding(env, data, r)
  {
    if |data| < (if code == WITHDRAW then 4 else 6) {
      return Rejected;
    }
    var amount := env.parseInt(data[3]);
    if amount.None? {
      return Rejected;
    }
    if code == WITHDRAW {
      r := Decoded(header + map[
        From := Str(env.encode(data[1])),
        AssetID := Str(data[2]),
        Amount := Int64(amount.value)]);
    } else {
      r := Decoded(header + map[
        From := Str(env.encode(data[1])),
        DepositType := Str(data[2]),
        Amount := Int64(amount.value),
        AssetID := Str(data[4]),
        CurrencyID := Str(data[5])]);
    }
  }

  method MarketFields(env: Env, data: seq<string>, code: int, header: Fields) returns (r: Outcome)
    requires HeaderOf(env, data, code, header) && IsMarket(code)
    ensures IsDecoding(env, data, r)
  {
    if code == BUY {
      r := BuyFields(env, data, code, header);
    } else if code == CLAIM {
      r := ClaimFields(env, data, code, header);
    } else if |data| < (if code == SELL || code == CANCEL_ORDER then 3 else 2) {
      r := Rejected;
    } else if code == SELL {
      r := Decoded(header + map[OrderID := Str(env.hex(data[1])), MarketplaceID := Str(env.hex(data[2]))]);
    } else if code == CANCEL_ORDER {
      r := Decoded(header + map[MarketplaceID := Str(env.hex(data[1])), OrderID := Str(env.hex(data[2]))]);
    } else {
      r := Decoded(header + map[MarketplaceID := Str(env.hex(data[1]))]);
    }
  }

  method BuyFields(env: Env, data: seq<string>, code: int, header: Fields) returns (r: Outcome)
    requires HeaderOf(env, data, code, header) && code == BUY
    ensures IsDecoding(env, data, r)
  {
    if |data| < 7 {
      return Rejected;
    }
    var amount := env.parseInt(data[5]);
    if amount.None? {
      return Rejected;
    }
    var executed := false;
    if data[3] == "1" {
      executed := true;
    }
    r := Decoded(header + map[
      OrderID := Str(env.hex(data[1])),
      MarketplaceID := Str(env.hex(data[2])),
      Executed := Bool(executed),
      Bidder := Str(env.encode(data[4])),
      Amount := Int64(amount.value),
      CurrencyID := Str(data[6])]);
  }

  method ClaimFields(env: Env, data: seq<string>, code: int, header: Fields) returns (r: Outcome)
    requires HeaderOf(env, data, code, header) && code == CLAIM
    ensures IsDecoding(env, data, r)
  {
    if |data| < 7 {
      return Rejected;
    }
    var amount := env.parseInt(data[1]);
    if amount.None? {
      return Rejected;
    }
    var claimType := env.parseInt(data[6]);
    if claimType.None? {
      return Rejected;
    }
    r := Decoded(header + map[
      Amount := Int64(amount.value),
      OrderID := Str(env.hex(data[2])),
      MarketplaceID := Str(env.hex(data[3])),
      AssetID := Str(data[4]),
      AssetIDReceived := Str(data[5]),
      ClaimType := Int64(claimType.value),
      ClaimTypeString := Str(env.claimName(claimType.value))]);
  }

  method AssetFields(env: Env, data: seq<string>, code: int, header: Fields) returns (r: Outcome)
    requires HeaderOf(env, data, code, header) && IsAsset(code)
    ensures IsDecoding(env, data, r)
  {
    if code == UPDATE_ITO {
      if |data| == 4 {
        var amount := env.parseInt(data[3]);
        if amount.None? {
          return Rejected;
        }
        return Decoded(header + map[
          Address := Str(env.encode(data[1])),
          AssetID := Str(data[2]),
          Amount := Int64(amount.value)]);
      }
      if |data| < 2 {
        return Panics;
      }
      return Decoded(header + map[AssetID := Str(data[1])]);
    }
    if |data| < (if code == UPDATE_METADATA then 4 else 2) {
      return Rejected;
    }
    if code == UPDATE_METADATA {
      r := Decoded(header + map[Owner := Str(env.encode(data[1])), AssetID := Str(data[2]), NFTNonce := Str(data[3])]);
    } else if code == UPDATE_KDA_POOL {
      r := Decoded(header + map[PoolID := Str(data[1])]);
    } else {
      r := Decoded(header + map[AssetID := Str(data[1])]);
    }
  }

  method AccountFields(env: Env, data: seq<string>, code: int, header: Fields) returns (r: Outcome)
    requires HeaderOf(env, data, code, header) && IsAccount(code)
    ensures IsDecoding(env, data, r)
  {
    if code == PROPOSAL_VOTE {
      r := VoteFields(env, data, code, header);
    } else if code == SC_TRIGGER {
      if |data| < 4 {
        return Rejected;
      }
      r := Decoded(header + map[
        TriggerType := Str(data[1]),
        From := Str(env.encode(data[2])),
        Contract := Str(env.encode(data[3]))]);
    } else if code == SET_ACCOUNT_NAME {
      if |data| != 3 {
        return Rejected;
      }
      r := Decoded(header + map[Name := Str(data[1]), Address := Str(env.encode(data[2]))]);
    } else if |data| < 2 {
      r := Rejected;
    } else if code == PROPOSAL {
      r := Decoded(header + map[ProposalID := Str(data[1])]);
    } else if code == UPDATE_VALIDATOR {
      r := Decoded(header + map[ID := Str(env.encode(data[1]))]);
    } else {
      r := Decoded(header + map[Address := Str(env.encode(data[1]))]);
    }
  }

  method VoteFields(env: Env, data: seq<string>, code: int, header: Fields) returns (r: Outcome)
    requires HeaderOf(env, data, code, header) && code == PROPOSAL_VOTE
    ensures IsDecoding(env, data, r)
  {
    if |data| < 5 {
      return Rejected;
    }
    var voteType := env.parseInt(data[3]);
    if voteType.None? {
      return Rejected;
    }
    var votes := env.parseInt(data[4]);
    if votes.None? {
      return Rejected;
    }
    r := Decoded(header + map[
      ProposalID := Str(data[1]),
      Voter := Str(env.encode(data[2])),
      VoteType := Int64(voteType.value),
      Votes := Int64(votes.value)]);
  }

  /** Each signer overwrites the one before, so the last of them is what remains. */
  method SignedByFields(env: Env, data: seq<string>, header: Fields) returns (m: Fields)
    requires |data| > 0
    ensures m - {Signer, Weight} == header - {Signer, Weight}
    ensures |data| >= 3 ==>
              Encoded(env, data, m, Signer, LastPair(|data|)) && Text(data, m, Weight, LastPair(|data|) + 1)
  {
    m := header;
    var idx := 1;
    while idx < |data| - 1
      invariant idx % 2 == 1 && idx <= |data| + 1
      invariant m - {Signer, Weight} == header - {Signer, Weight}
      invariant idx >= 3 ==>
                  idx <= |data| && Encoded(env, data, m, Signer, idx - 2) && Text(data, m, Weight, idx - 1)
    {
      m := m[Signer := Str(env.encode(data[idx]))];
      m := m[Weight := Str(data[idx + 1])];
      idx := idx + 2;
    }
  }

  method NoteFields(env: Env, data: seq<string>, code: int, header: Fields) returns (r: Outcome)
    requires HeaderOf(env, data, code, header)
    requires code != TRANSFER && !IsStaking(code) && !IsMarket(code) && !IsAsset(code) && !IsAccount(code)
    ensures IsDecoding(env, data, r)
  {
    assert WellFormed(env, data);
    var m := header;
    if code == SIGNED_BY {
      m := SignedByFields(env, data, header);
      assert forall k :: k in header - {Signer, Weight} ==> k in m - {Signer, Weight} && m[k] == header[k];
    } else if code == ERROR {
      if |data| > 1 {
        m := m[Title := Str(data[1])];
      }
      if |data| > 2 {
        m := m[Description := Str(data[2])];
      }
    }
    return Decoded(m);
  }

  /** Decodes one receipt: it panics, rejects or describes exactly as the table says. */
  method ReceiptToMap(env: Env, data: seq<string>) returns (r: Outcome)
    ensures IsDecoding(env, data, r)
  {
    if |data| == 0 {
      return Decoded(map[]);
    }
    if |data[0]| < 2 {
      return Rejected;
    }
    var code := Int8(data[0][0]);
    var m: Fields := map[
      Type := ReceiptType(code),
      CID := Int(Byte(data[0][1])),
      TypeString := Str(env.typeName(code))];
    if code == TRANSFER {
      r := TransferFields(env, data, code, m);
    } else if IsStaking(code) {
      r := StakingFields(env, data, code, m);
    } else if IsMarket(code) {
      r := MarketFields(env, data, code, m);
    } else if IsAsset(code) {
      r := AssetFields(env, data, code, m);
    } else if IsAccount(code) {
      r := AccountFields(env, data, code, m);
    } else {
      r := NoteFields(env, data, code, m);
    }
  }
}
