/**
The wire form of an optional big integer: a lone byte for nil, otherwise a sign byte
followed by the magnitude in big-endian order without leading zeros, except that zero
is written as one zero byte.
*/
module BigIntCodec {
  import opened Prelude

  type Byte = b: int | 0 <= b < 256

  datatype CodecError = InvalidValue | BadInput | InvalidSign

  type Value = Option<int>

  function Abs(v: int): nat { if v < 0 then -v else v }

  /** The minimal big-endian bytes of a magnitude: none for zero. */
  function Magnitude(n: nat): seq<Byte> {
    if n == 0 then [] else Magnitude(n / 256) + [n % 256]
  }

  /** Reading big-endian bytes, leading zeros allowed. */
  function FromBytes(bytes: seq<Byte>): nat {
    if bytes == [] then 0 else 256 * FromBytes(bytes[..|bytes| - 1]) + bytes[|bytes| - 1]
  }

  // ------------------------------------------------------------------------
  // Magnitudes
  // ------------------------------------------------------------------------

  lemma {:induction false} FromMagnitude(n: nat)
    ensures FromBytes(Magnitude(n)) == n
    ensures n > 0 ==> |Magnitude(n)| > 0 && Magnitude(n)[0] != 0
  {
    if n > 0 {
      FromMagnitude(n / 256);
      assert Magnitude(n)[..|Magnitude(n)| - 1] == Magnitude(n / 256);
    }
  }

  lemma {:induction false} NonZeroFront(bytes: seq<Byte>)
    requires bytes != [] && bytes[0] != 0
    ensures FromBytes(bytes) > 0
  {
    if |bytes| > 1 {
      NonZeroFront(bytes[..|bytes| - 1]);
    }
  }

  /** Bytes are the minimal form of what they read as exactly when they have no leading zero. */
  lemma {:induction false} MagnitudeOf(bytes: seq<Byte>)
    ensures Magnitude(FromBytes(bytes)) == bytes <==> bytes == [] || bytes[0] != 0
  {
    if bytes != [] {
      var n := |bytes| - 1;
      var front := bytes[..n];
      if bytes[0] != 0 {
        NonZeroFront(bytes);
        assert FromBytes(bytes) / 256 == FromBytes(front) && FromBytes(bytes) % 256 == bytes[n];
        if n > 0 {
          MagnitudeOf(front);
        } else {
          assert front == [];
        }
        assert bytes == front + [bytes[n]];
      } else {
        FromMagnitude(FromBytes(bytes));
      }
    }
  }

  // ------------------------------------------------------------------------
  // The caster
  // ------------------------------------------------------------------------

  function Size(a: Value): nat {
    if a.None? then 1
    else if |Magnitude(Abs(a.value))| > 0 then |Magnitude(Abs(a.value))| + 1
    else 2
  }

  /** The bytes a value has on the wire. */
  function Encoding(a: Value): seq<Byte> {
    if a.None? then [0]
    else if a.value == 0 then [0, 0]
    else [Sign(a.value)] + Magnitude(Abs(a.value))
  }

  function Sign(v: int): Byte { if v < 0 then 1 else 0 }

  /** A buffer after a value was written into it: for zero only the sign byte is touched. */
  function Written(a: Value, was: seq<Byte>): seq<Byte>
    requires |was| > 0 && (a.Some? ==> |was| > |Magnitude(Abs(a.value))|)
  {
    if a.None? then [0] + was[1..]
    else [Sign(a.value)] + Magnitude(Abs(a.value)) + was[1 + |Magnitude(Abs(a.value))|..]
  }

  method CopyAfterSign(buf: array<Byte>, bytes: seq<Byte>)
    requires |bytes| < buf.Length
    modifies buf
    ensures buf[..] == [old(buf[0])] + bytes + old(buf[1 + |bytes|..])
  {
    for i := 0 to |bytes|
      invariant forall k :: 0 <= k < i ==> buf[k + 1] == bytes[k]
      invariant forall k :: i < k < buf.Length ==> buf[k] == old(buf[k])
      invariant buf[0] == old(buf[0])
    {
      buf[i + 1] := bytes[i];
    }
  }

  /** Writes into the caller's buffer. A nil value indexes the buffer unchecked, so there it must have a byte. */
  method MarshalTo(a: Value, buf: array<Byte>) returns (r: Result<nat, CodecError>)
    requires a.None? ==> buf.Length > 0
    modifies buf
    ensures r.Err? <==> a.Some? && buf.Length <= |Magnitude(Abs(a.value))|
    ensures r.Err? ==> r.error == InvalidValue && buf[..] == old(buf[..])
    ensures r.Ok? ==> r.value == Size(a) && buf[..] == Written(a, old(buf[..]))
  {
    ghost var was := buf[..];
    if a.None? {
      buf[0] := 0;
      assert buf[..] == [0] + was[1..];
      return Ok(1);
    }
    var bytes := Magnitude(Abs(a.value));
    if buf.Length <= |bytes| {
      return Err(InvalidValue);
    }
    CopyAfterSign(buf, bytes);
    if a.value < 0 {
      buf[0] := 1;
    } else {
      buf[0] := 0;
    }
    assert buf[..] == [Sign(a.value)] + bytes + was[1 + |bytes|..];
    if |bytes| > 0 {
      return Ok(|bytes| + 1);
    }
    return Ok(2);
  }

  function Unmarshal(buf: seq<Byte>): Result<Value, CodecError> {
    if |buf| == 0 then Err(BadInput)
    else if |buf| == 1 then Ok(None)
    else if |buf| == 2 && buf[1] == 0 then Ok(Some(0))
    else
      var ret: int := FromBytes(buf[1..]);
      if buf[0] == 0 then Ok(Some(ret))
      else if buf[0] == 1 then Ok(Some(-ret))
      else Err(InvalidSign)
  }

  // ------------------------------------------------------------------------
  // Main results
  // ------------------------------------------------------------------------

  /** Every value, nil, zero and negatives included, is read back from its encoding, whose length is its size. */
  lemma RoundTrip(a: Value)
    ensures Unmarshal(Encoding(a)) == Ok(a)
    ensures |Encoding(a)| == Size(a)
  {
    if a.Some? && a.value != 0 {
      FromMagnitude(Abs(a.value));
      var bytes := Magnitude(Abs(a.value));
      assert Encoding(a)[1..] == bytes;
    }
  }

  lemma EncodingIsInjective(a: Value, b: Value)
    requires Encoding(a) == Encoding(b)
    ensures a == b
  {
    RoundTrip(a);
    RoundTrip(b);
  }

  /**
  Decoding, input by input: no bytes is an error and one byte is nil, whatever it is; two
  with a zero second are zero, whatever the first; otherwise the first byte is the sign, and
  any but 0 and 1 is an error.
  */
  lemma UnmarshalMeaning(buf: seq<Byte>)
    ensures Unmarshal(buf) == Err(BadInput) <==> buf == []
    ensures Unmarshal(buf) == Ok(None) <==> |buf| == 1
    ensures Unmarshal(buf) == Err(InvalidSign) <==> |buf| >= 2 && buf[0] > 1 && !(|buf| == 2 && buf[1] == 0)
    ensures |buf| >= 2 && buf[0] == 0 ==> Unmarshal(buf) == Ok(Some(MagnitudeIn(buf)))
    ensures |buf| >= 2 && buf[0] == 1 ==> Unmarshal(buf) == Ok(Some(-MagnitudeIn(buf)))
    ensures |buf| == 2 && buf[1] == 0 ==> Unmarshal(buf) == Ok(Some(0))
  {
    if |buf| >= 2 {
      MagnitudeIsRead(buf);
    }
  }

  /** The magnitude after the sign byte, most significant byte first. */
  function MagnitudeIn(buf: seq<Byte>): int
    requires |buf| >= 2
  {
    buf[1] * Pow256(|buf| - 2) + FromBytes(buf[2..])
  }

  lemma MagnitudeIsRead(buf: seq<Byte>)
    requires |buf| >= 2
    ensures FromBytes(buf[1..]) == MagnitudeIn(buf)
    ensures |buf| == 2 && buf[1] == 0 ==> MagnitudeIn(buf) == 0
  {
    assert buf[1..] == [buf[1]] + buf[2..];
    FirstByteWeighsMost(buf[1], buf[2..]);
    if |buf| == 2 {
      assert buf[2..] == [];
    }
  }

  function Pow256(k: nat): nat { if k == 0 then 1 else 256 * Pow256(k - 1) }

  lemma {:induction false} FirstByteWeighsMost(x: Byte, rest: seq<Byte>)
    ensures FromBytes([x] + rest) == x * Pow256(|rest|) + FromBytes(rest)
    ensures FromBytes(rest) < Pow256(|rest|)
  {
    var bytes := [x] + rest;
    if rest == [] {
      assert bytes[..0] == [];
    } else {
      var n := |rest| - 1;
      FirstByteWeighsMost(x, rest[..n]);
      assert bytes[..|bytes| - 1] == [x] + rest[..n];
      assert x * Pow256(|rest|) == 256 * (x * Pow256(n));
    }
  }

  /**
  The wire form, byte by byte: nil is a lone zero and the number zero two of them; any other
  value has a sign byte, zero or one, and then its magnitude, most significant byte first.
  */
  lemma WireForm(v: int)
    ensures Encoding(None) == [0] && Encoding(Some(0)) == [0, 0]
    ensures v != 0 ==>
              var bytes := Encoding(Some(v));
              && |bytes| >= 2
              && bytes[0] == (if v < 0 then 1 else 0)
              && bytes[1] > 0
              && Abs(v) == bytes[1] * Pow256(|bytes| - 2) + FromBytes(bytes[2..])
              && FromBytes(bytes[2..]) < Pow256(|bytes| - 2)
  {
    if v != 0 {
      var bytes, mag := Encoding(Some(v)), Magnitude(Abs(v));
      FromMagnitude(Abs(v));
      assert bytes[1..] == mag && bytes[2..] == mag[1..];
      assert mag == [mag[0]] + mag[1..];
      FirstByteWeighsMost(mag[0], mag[1..]);
    }
  }

  /** The inputs that are some value's encoding. */
  predicate Canonical(buf: seq<Byte>) {
    || buf == [0]
    || buf == [0, 0]
    || (|buf| >= 2 && buf[0] <= 1 && buf[1] != 0)
  }

  lemma EncodingFront(v: int)
    ensures |Encoding(Some(v))| >= 2
    ensures v != 0 ==> Encoding(Some(v))[1] != 0
    ensures v == 0 ==> |Encoding(Some(v))| == 2
  {
    FromMagnitude(Abs(v));
  }

  lemma NoLeadingZero(sign: Byte, bytes: seq<Byte>)
    requires sign <= 1 && bytes != [] && bytes[0] != 0
    ensures var v: int := FromBytes(bytes);
            Encoding(Some(if sign == 1 then -v else v)) == [sign] + bytes
  {
    NonZeroFront(bytes);
    MagnitudeOf(bytes);
  }

  /** Decoding is wider than encoding: exactly the canonical inputs are written back as they were read. */
  lemma ReencodesExactly(buf: seq<Byte>)
    requires Unmarshal(buf).Ok?
    ensures Encoding(Unmarshal(buf).value) == buf <==> Canonical(buf)
  {
    if |buf| >= 2 && !(|buf| == 2 && buf[1] == 0) {
      assert buf == [buf[0]] + buf[1..];
      if buf[1] != 0 {
        NoLeadingZero(buf[0], buf[1..]);
      } else {
        EncodingFront(Unmarshal(buf).value.value);
      }
    }
  }

  /**
  Marshalling into a buffer that holds at least the size, and reading that many bytes
  back: the value survives exactly when it is not zero or the buffer's second byte was
  already zero, because nothing is written for a zero magnitude.
  */
  method MarshalRoundTrip(a: Value, buf: array<Byte>) returns (back: Result<Value, CodecError>)
    requires buf.Length >= Size(a)
    modifies buf
    ensures back == Ok(a) <==> a != Some(0) || old(buf[1]) == 0
    ensures a == Some(0) ==> back == Ok(Some(old(buf[1])))
    ensures buf[Size(a)..] == old(buf[Size(a)..])
  {
    WrittenReadsBack(a, buf[..]);
    var n := MarshalTo(a, buf);
    assert buf[..n.value] == buf[..][..n.value];
    assert buf[n.value..] == buf[..][n.value..];
    back := Unmarshal(buf[..n.value]);
  }

  lemma WrittenReadsBack(a: Value, was: seq<Byte>)
    requires |was| >= Size(a)
    ensures a.Some? ==> |was| > |Magnitude(Abs(a.value))|
    ensures Written(a, was)[Size(a)..] == was[Size(a)..]
    ensures Unmarshal(Written(a, was)[..Size(a)]) == if a == Some(0) then Ok(Some(was[1])) else Ok(a)
  {
    RoundTrip(a);
    if a == Some(0) {
      assert Written(a, was)[..2] == [0, was[1]];
      assert [was[1]][..0] == [] && [0, was[1]][1..] == [was[1]];
      assert FromBytes([was[1]]) == was[1];
    } else {
      assert Written(a, was)[..Size(a)] == Encoding(a);
    }
  }
}
