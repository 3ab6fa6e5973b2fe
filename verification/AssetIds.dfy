/**
Asset identifiers on their way through the indexer: receipt decoding joins a collection
and a nonce with a slash, receipt indexing splits the result again, and reading the
account's balance joins the pieces once more.
*/
module AssetIds {

  const SEPARATOR := '/'

  /** Splitting at every separator; the result has one piece more than there are separators. */
  function Split(s: string): (parts: seq<string>)
    ensures |parts| > 0
  {
    if s == [] then [""]
    else
      var rest := Split(s[1..]);
      if s[0] == SEPARATOR then [""] + rest else [[s[0]] + rest[0]] + rest[1..]
  }

  function Join(parts: seq<string>): string
    requires |parts| > 0
  {
    if |parts| == 1 then parts[0] else parts[0] + [SEPARATOR] + Join(parts[1..])
  }

  function AssetId(collection: string, nonce: string): string {
    if |nonce| > 0 then collection + [SEPARATOR] + nonce else collection
  }

  /** What receipt indexing makes of an asset id. */
  datatype Token = Token(identifier: string, nonce: string, isNFT: bool)

  function ParseToken(assetId: string): Token {
    var parts := Split(assetId);
    if |parts| == 2 then Token(parts[0], parts[1], true) else Token(parts[0], "", false)
  }

  // ------------------------------------------------------------------------
  // Split and Join
  // ------------------------------------------------------------------------

  lemma {:induction false} SplitPieces(s: string)
    ensures Join(Split(s)) == s
    ensures forall i :: 0 <= i < |Split(s)| ==> SEPARATOR !in Split(s)[i]
    ensures |Split(s)| == 1 <==> SEPARATOR !in s
  {
    if s != [] {
      SplitPieces(s[1..]);
      var rest := Split(s[1..]);
      assert s == [s[0]] + s[1..];
      if s[0] == SEPARATOR {
        assert ([""] + rest)[1..] == rest;
      } else {
        assert ([[s[0]] + rest[0]] + rest[1..])[1..] == rest[1..];
      }
    }
  }

  lemma {:induction false} SplitAtFirst(a: string, b: string)
    requires SEPARATOR !in a
    ensures Split(a + [SEPARATOR] + b) == [a] + Split(b)
  {
    var s := a + [SEPARATOR] + b;
    if a == [] {
      assert s[1..] == b;
    } else {
      assert s[1..] == a[1..] + [SEPARATOR] + b;
      SplitAtFirst(a[1..], b);
      assert a == [a[0]] + a[1..];
    }
  }

  lemma SplitFree(s: string)
    requires SEPARATOR !in s
    ensures Split(s) == [s]
  {
    SplitPieces(s);
    assert Join([Split(s)[0]]) == Split(s)[0];
  }

  // ------------------------------------------------------------------------
  // Main results
  // ------------------------------------------------------------------------

  /**
  Joining and splitting gives the collection and the nonce back, with the NFT flag set
  exactly for a non-empty nonce, if and only if neither holds a separator.
  */
  lemma TokenRoundTrip(collection: string, nonce: string)
    ensures ParseToken(AssetId(collection, nonce)) == Token(collection, nonce, nonce != "")
       <==> '/' !in collection && '/' !in nonce
  {
    var id := AssetId(collection, nonce);
    SplitPieces(id);
    if SEPARATOR !in collection && SEPARATOR !in nonce {
      if nonce != "" {
        SplitAtFirst(collection, nonce);
        SplitFree(nonce);
      } else {
        SplitFree(collection);
      }
    } else if SEPARATOR in nonce {
      assert |Split(id)| == 2 ==> SEPARATOR !in Split(id)[1];
    } else {
      assert SEPARATOR !in Split(id)[0];
    }
  }

  /**
  Splitting and joining again gives the asset id back exactly when it has no separator, or
  just one, not at its end.
  */
  lemma AssetIdRoundTrip(assetId: string)
    ensures AssetId(ParseToken(assetId).identifier, ParseToken(assetId).nonce) == assetId
       <==> |Split(assetId)| == 1 || (|Split(assetId)| == 2 && assetId[|assetId| - 1] != '/')
  {
    SplitPieces(assetId);
    var parts := Split(assetId);
    if |parts| == 1 {
      assert Join(parts) == parts[0];
    } else if |parts| == 2 {
      assert Join(parts) == parts[0] + [SEPARATOR] + parts[1];
      if parts[1] != "" {
        assert assetId[|assetId| - 1] == parts[1][|parts[1]| - 1];
        assert parts[1][|parts[1]| - 1] in parts[1];
      }
    } else {
      assert |Join(parts)| > |parts[0]|;
    }
  }

  /** The three steps together, on slash-free input: same collection, same nonce, same asset id. */
  lemma IndexerAgreesOnAssetId(collection: string, nonce: string)
    requires '/' !in collection && '/' !in nonce
    ensures var token := ParseToken(AssetId(collection, nonce));
            && token == Token(collection, nonce, nonce != "")
            && AssetId(token.identifier, token.nonce) == AssetId(collection, nonce)
            && AssetId(collection, nonce) == collection + if nonce == "" then "" else "/" + nonce
  {
    TokenRoundTrip(collection, nonce);
  }
}
