/** Bytes, integers in both byte orders, and the ways a parse can fail. */
module Bytes {
  newtype Byte = b: int | 0 <= b < 256

  type Data = seq<Byte>

  datatype Endian = Little | Big

  /** The exceptions the parser raises: its own, and the ones that escape from struct, str/bytes methods and lists. */
  datatype Error = BlendParseError | StructError | ValueError | IndexError

  datatype Result<+T> = Ok(value: T) | Err(error: Error) {
    predicate IsFailure() { Err? }

    function PropagateFailure<U>(): Result<U>
      requires Err?
    {
      Err(error)
    }

    function Extract(): T
      requires Ok?
    {
      value
    }
  }

  // ---------------------------------------------------------------------------
  // Integers
  // ---------------------------------------------------------------------------

  function Pow256(k: nat): (p: nat)
    ensures p >= 1
  {
    if k == 0 then 1 else 256 * Pow256(k - 1)
  }

  function Decoded(b: Data, e: Endian): nat {
    if b == [] then 0
    else
      match e
      case Little => b[0] as nat + 256 * Decoded(b[1..], e)
      case Big => 256 * Decoded(b[..|b| - 1], e) + b[|b| - 1] as nat
  }

  function Encoded(n: nat, k: nat, e: Endian): (b: Data)
    ensures |b| == k
  {
    if k == 0 then []
    else
      match e
      case Little => [(n % 256) as Byte] + Encoded(n / 256, k - 1, e)
      case Big => Encoded(n / 256, k - 1, e) + [(n % 256) as Byte]
  }

  lemma {:induction false} DecodeEncoded(n: nat, k: nat, e: Endian)
    requires n < Pow256(k)
    ensures Decoded(Encoded(n, k, e), e) == n
  {
    if k > 0 {
      DecodeEncoded(n / 256, k - 1, e);
      var b, rest := Encoded(n, k, e), Encoded(n / 256, k - 1, e);
      match e
      case Little => assert b[1..] == rest;
      case Big => assert b[..k - 1] == rest;
    }
  }

  /** Two's complement in k bytes. */
  function Signed(n: nat, k: nat): int {
    if 2 * n >= Pow256(k) then n - Pow256(k) else n
  }

  predicate FitsSigned(v: int, k: nat) {
    2 * v + Pow256(k) >= 0 && 2 * v < Pow256(k)
  }

  function EncodedSigned(v: int, k: nat, e: Endian): (b: Data)
    requires FitsSigned(v, k)
    ensures |b| == k
  {
    Encoded(if v < 0 then v + Pow256(k) else v, k, e)
  }

  lemma DecodeSigned(v: int, k: nat, e: Endian)
    requires FitsSigned(v, k)
    ensures Signed(Decoded(EncodedSigned(v, k, e), e), k) == v
  {
    DecodeEncoded(if v < 0 then v + Pow256(k) else v, k, e);
  }

  // ---------------------------------------------------------------------------
  // Reading
  // ---------------------------------------------------------------------------

  /** Python's data[a:b] for 0 <= a <= b: cut off at the end. */
  function Slice(data: Data, a: nat, b: nat): Data
    requires a <= b
  {
    if a >= |data| then [] else if b >= |data| then data[a..] else data[a..b]
  }

  /** struct.unpack_from of one unsigned k-byte integer.  A negative position counts from the end. */
  function Unpack(data: Data, pos: int, k: nat, e: Endian): Result<nat> {
    var at := if pos < 0 then pos + |data| else pos;
    if (pos < 0 && pos + k > 0) || at < 0 || at + k > |data| then Err(StructError)
    else Ok(Decoded(data[at..at + k], e))
  }

  /** `chunk` stands at position pos of data. */
  predicate At(data: Data, pos: nat, chunk: Data)
    decreases |chunk|
  {
    if chunk == [] then pos <= |data| else pos < |data| && data[pos] == chunk[0] && At(data, pos + 1, chunk[1..])
  }

  lemma {:induction false} AtIsSlice(data: Data, pos: nat, chunk: Data)
    ensures At(data, pos, chunk) <==> pos + |chunk| <= |data| && data[pos..pos + |chunk|] == chunk
    decreases |chunk|
  {
    if chunk != [] && pos < |data| {
      AtIsSlice(data, pos + 1, chunk[1..]);
      if pos + |chunk| <= |data| {
        var s := data[pos..pos + |chunk|];
        assert s[1..] == data[pos + 1..pos + |chunk|];
        assert s == [data[pos]] + s[1..] && chunk == [chunk[0]] + chunk[1..];
      }
    }
  }

  lemma {:induction false} AtSplit(data: Data, pos: nat, a: Data, b: Data)
    requires At(data, pos, a + b)
    ensures At(data, pos, a) && At(data, pos + |a|, b)
    decreases |a|
  {
    if a == [] {
      assert a + b == b;
      AtIsSlice(data, pos, b);
    } else {
      assert (a + b)[1..] == a[1..] + b;
      AtSplit(data, pos + 1, a[1..], b);
    }
  }

  /** Three pieces and a remainder, one after the other. */
  lemma AtThree(data: Data, pos: nat, a: Data, b: Data, c: Data, end: Data)
    requires At(data, pos, (a + (b + c)) + end)
    ensures At(data, pos, a) && At(data, pos + |a|, b) && At(data, pos + |a| + |b|, c + end)
  {
    assert (a + (b + c)) + end == a + (b + (c + end));
    AtSplit(data, pos, a, b + (c + end));
    AtSplit(data, pos + |a|, b, c + end);
  }

  lemma UnpackAt(data: Data, pos: nat, n: nat, k: nat, e: Endian)
    requires n < Pow256(k) && At(data, pos, Encoded(n, k, e))
    ensures Unpack(data, pos, k, e) == Ok(n)
  {
    AtIsSlice(data, pos, Encoded(n, k, e));
    DecodeEncoded(n, k, e);
  }

  lemma SliceAt(data: Data, pos: nat, chunk: Data)
    requires At(data, pos, chunk)
    ensures Slice(data, pos, pos + |chunk|) == chunk
  {
    AtIsSlice(data, pos, chunk);
  }

  // ---------------------------------------------------------------------------
  // Text
  // ---------------------------------------------------------------------------

  function Letter(b: Byte): char {
    if b < 128 then b as char else '\U{FFFD}'
  }

  /** bytes.decode("ascii", errors="replace"). */
  function Text(b: Data): (s: string)
    ensures |s| == |b| && forall i :: 0 <= i < |b| ==> s[i] == Letter(b[i])
  {
    seq(|b|, i requires 0 <= i < |b| => Letter(b[i]))
  }

  predicate IsAscii(s: string) { forall i :: 0 <= i < |s| ==> s[i] as int < 128 }

  /** The bytes of an ASCII string. */
  function Ascii(s: string): (b: Data)
    requires IsAscii(s)
    ensures |b| == |s| && forall i :: 0 <= i < |s| ==> b[i] == s[i] as Byte
  {
    seq(|s|, i requires 0 <= i < |s| => s[i] as Byte)
  }

  lemma TextOfAscii(s: string)
    requires IsAscii(s)
    ensures Text(Ascii(s)) == s
  {
  }
}
