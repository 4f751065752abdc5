/**
 * The URI handling functions of ECMA-262 (section 19.2.6): encodeURIComponent
 * and decodeURIComponent, with percent-encoding as in section 2.1 of RFC 3986.
 *
 * A JavaScript string is represented here by its UTF-8 encoding, a sequence
 * of bytes: an ASCII character is its own byte, any other character is the
 * two to four bytes of its UTF-8 sequence. A well-formed string is one whose
 * bytes are valid UTF-8 (section 4 of RFC 3629).
 */
module Uri {
  import opened Wrappers

  type byte = b: int | 0 <= b < 256
  type Bytes = seq<byte>

  /** '%' */
  const Percent: byte := 0x25
  /** '/' */
  const Slash: byte := 0x2F

  /** Outcome of decodeURIComponent, which throws a URIError on bad input. */
  datatype Result<T> = Ok(value: T) | URIError

  predicate IsHexDigit(b: byte) {
    (0x30 <= b <= 0x39) || (0x41 <= b <= 0x46) || (0x61 <= b <= 0x66)
  }

  /** The value of a hexadecimal digit of either case. */
  function HexValue(b: byte): (v: int)
    requires IsHexDigit(b)
    ensures 0 <= v < 16
  {
    if b <= 0x39 then b - 0x30 else if b <= 0x46 then b - 0x41 + 10 else b - 0x61 + 10
  }

  /** The upper-case hexadecimal digit encodeURIComponent writes for v. */
  function HexDigit(v: int): (b: byte)
    requires 0 <= v < 16
    ensures IsHexDigit(b) && HexValue(b) == v
  {
    if v < 10 then 0x30 + v else 0x41 + v - 10
  }

  /**
   * The characters encodeURIComponent leaves as they are (uriAlpha,
   * DecimalDigit and uriMark of ECMA-262): the unreserved characters of
   * RFC 3986 plus ! * ' ( ).
   */
  predicate IsUnescaped(b: byte) {
    (0x41 <= b <= 0x5A) || (0x61 <= b <= 0x7A) || (0x30 <= b <= 0x39)
    || b == 0x2D || b == 0x5F || b == 0x2E || b == 0x7E    // - _ . ~
    || b == 0x21 || b == 0x2A || b == 0x27 || b == 0x28 || b == 0x29  // ! * ' ( )
  }

  /** The %XX triplet for one byte. */
  function Escape(b: byte): (e: Bytes)
    ensures |e| == 3 && e[0] == Percent && IsHexDigit(e[1]) && IsHexDigit(e[2])
    ensures HexValue(e[1]) * 16 + HexValue(e[2]) == b
  {
    [Percent, HexDigit(b / 16), HexDigit(b % 16)]
  }

  /** Every byte of s written as a %XX triplet. */
  function EscapeAll(s: Bytes): (e: Bytes)
    ensures |e| == 3 * |s|
  {
    if s == [] then [] else Escape(s[0]) + EscapeAll(s[1..])
  }

  function EncodeByte(b: byte): Bytes {
    if IsUnescaped(b) then [b] else Escape(b)
  }

  /** encodeURIComponent: each byte of the UTF-8 encoding that is not unescaped becomes %XX. */
  function EncodeURIComponent(s: Bytes): Bytes {
    if s == [] then [] else EncodeByte(s[0]) + EncodeURIComponent(s[1..])
  }

  /** The byte written as a %XX triplet at the start of s, if s starts with one. */
  function EscapeAt(s: Bytes): (r: Option<byte>)
    ensures r.Some? <==> |s| >= 3 && s[0] == Percent && IsHexDigit(s[1]) && IsHexDigit(s[2])
  {
    if |s| >= 3 && s[0] == Percent && IsHexDigit(s[1]) && IsHexDigit(s[2])
    then Some(HexValue(s[1]) * 16 + HexValue(s[2]))
    else None
  }

  /** The n bytes written as n consecutive %XX triplets at the start of s, if there are n. */
  function EscapesAt(s: Bytes, n: nat): (r: Option<Bytes>)
    ensures r.Some? ==> |r.value| == n && 3 * n <= |s|
  {
    if n == 0 then Some([])
    else match EscapeAt(s)
      case None => None
      case Some(b) =>
        match EscapesAt(s[3..], n - 1)
        case None => None
        case Some(rest) => Some([b] + rest)
  }

  /**
   * The length of the UTF-8 sequence that b starts: 1 for ASCII, otherwise
   * the number of leading one bits; 0 when b cannot start a sequence
   * (10xxxxxx, or five or more leading ones).
   */
  function SequenceLength(b: byte): nat {
    if b < 0x80 then 1
    else if b < 0xC0 then 0
    else if b < 0xE0 then 2
    else if b < 0xF0 then 3
    else if b < 0xF8 then 4
    else 0
  }

  predicate IsTail(b: byte) { 0x80 <= b <= 0xBF }

  /**
   * One well-formed UTF-8 sequence, per the UTF8-char rule of section 4 of
   * RFC 3629: no overlong form, no surrogate, nothing above U+10FFFF.
   */
  predicate WellFormedChar(c: Bytes) {
    if |c| == 1 then c[0] < 0x80
    else if |c| == 2 then 0xC2 <= c[0] <= 0xDF && IsTail(c[1])
    else if |c| == 3 then
      && (|| (c[0] == 0xE0 && 0xA0 <= c[1] <= 0xBF)
          || (0xE1 <= c[0] <= 0xEC && IsTail(c[1]))
          || (c[0] == 0xED && 0x80 <= c[1] <= 0x9F)
          || (0xEE <= c[0] <= 0xEF && IsTail(c[1])))
      && IsTail(c[2])
    else if |c| == 4 then
      && (|| (c[0] == 0xF0 && 0x90 <= c[1] <= 0xBF)
          || (0xF1 <= c[0] <= 0xF3 && IsTail(c[1]))
          || (c[0] == 0xF4 && 0x80 <= c[1] <= 0x8F))
      && IsTail(c[2]) && IsTail(c[3])
    else false
  }

  /** s is a sequence of well-formed UTF-8 sequences: the encoding of a well-formed string. */
  predicate ValidUtf8(s: Bytes)
    decreases |s|
  {
    s == [] ||
    (var n := SequenceLength(s[0]); 0 < n <= |s| && WellFormedChar(s[..n]) && ValidUtf8(s[n..]))
  }

  function Prepend(prefix: Bytes, r: Result<Bytes>): Result<Bytes> {
    match r
    case Ok(v) => Ok(prefix + v)
    case URIError => URIError
  }

  /**
   * decodeURIComponent, following the Decode operation of ECMA-262 with an
   * empty reserved set: a byte other than '%' is copied; '%' must start a %XX
   * triplet; a triplet below 0x80 gives that byte; any other must be the lead
   * byte of a UTF-8 sequence whose remaining bytes are also %XX triplets and
   * which together form a well-formed UTF-8 sequence. Anything else throws.
   */
  function DecodeURIComponent(s: Bytes): Result<Bytes>
    decreases |s|
  {
    if s == [] then Ok([])
    else if s[0] != Percent then Prepend([s[0]], DecodeURIComponent(s[1..]))
    else match EscapeAt(s)
      case None => URIError
      case Some(b) =>
        if b < 0x80 then Prepend([b], DecodeURIComponent(s[3..]))
        else
          var n := SequenceLength(b);
          if n == 0 then URIError
          else match EscapesAt(s, n)
            case None => URIError
            case Some(octets) =>
              if WellFormedChar(octets) then Prepend(octets, DecodeURIComponent(s[3 * n..]))
              else URIError
  }

  /** r consists only of unescaped characters and %XX triplets. */
  predicate IsPercentEncoded(r: Bytes)
    decreases |r|
  {
    || r == []
    || (IsUnescaped(r[0]) && IsPercentEncoded(r[1..]))
    || (EscapeAt(r).Some? && IsPercentEncoded(r[3..]))
  }

  lemma {:induction false} EncodeAppend(a: Bytes, b: Bytes)
    ensures EncodeURIComponent(a + b) == EncodeURIComponent(a) + EncodeURIComponent(b)
  {
    if a == [] {
      assert a + b == b;
    } else {
      assert (a + b)[0] == a[0];
      assert (a + b)[1..] == a[1..] + b;
      EncodeAppend(a[1..], b);
    }
  }

  lemma {:induction false} EscapeAllAppend(a: Bytes, b: Bytes)
    ensures EscapeAll(a + b) == EscapeAll(a) + EscapeAll(b)
  {
    if a == [] {
      assert a + b == b;
    } else {
      assert (a + b)[0] == a[0];
      assert (a + b)[1..] == a[1..] + b;
      EscapeAllAppend(a[1..], b);
    }
  }

  /** Decoding copies a byte other than '%'. */
  lemma DecodeRawByte(x: byte, rest: Bytes)
    requires x != Percent
    ensures DecodeURIComponent([x] + rest) == Prepend([x], DecodeURIComponent(rest))
  {
    assert ([x] + rest)[1..] == rest;
  }

  /** Decoding turns the triplet of an ASCII byte back into that byte. */
  lemma DecodeEscapedAscii(x: byte, rest: Bytes)
    requires x < 0x80
    ensures DecodeURIComponent(Escape(x) + rest) == Prepend([x], DecodeURIComponent(rest))
  {
    var s := Escape(x) + rest;
    assert EscapeAt(s) == Some(x);
    assert s[3..] == rest;
  }

  /** Decoding turns the triplets of a well-formed multi-byte sequence back into it. */
  lemma DecodeEscapedChar(c: Bytes, rest: Bytes)
    requires |c| >= 2 && WellFormedChar(c)
    ensures DecodeURIComponent(EscapeAll(c) + rest) == Prepend(c, DecodeURIComponent(rest))
  {
    var s := EscapeAll(c) + rest;
    assert s == Escape(c[0]) + (EscapeAll(c[1..]) + rest);
    assert EscapeAt(s) == Some(c[0]);
    EscapesAtEscapeAll(c, rest);
    assert SequenceLength(c[0]) == |c|;
    assert s[3 * |c|..] == rest;
  }

  /** Bytes outside ASCII are always escaped. */
  lemma {:induction false} EncodeHighBytes(c: Bytes)
    requires forall i :: 0 <= i < |c| ==> c[i] >= 0x80
    ensures EncodeURIComponent(c) == EscapeAll(c)
  {
    if c != [] {
      EncodeHighBytes(c[1..]);
    }
  }

  /** Reading |c| triplets back from EscapeAll(c) gives c. */
  lemma {:induction false} EscapesAtEscapeAll(c: Bytes, rest: Bytes)
    ensures EscapesAt(EscapeAll(c) + rest, |c|) == Some(c)
  {
    if c != [] {
      var s := EscapeAll(c) + rest;
      assert s == Escape(c[0]) + (EscapeAll(c[1..]) + rest);
      assert EscapeAt(s) == Some(c[0]);
      assert s[3..] == EscapeAll(c[1..]) + rest;
      EscapesAtEscapeAll(c[1..], rest);
      assert c == [c[0]] + c[1..];
    }
  }

  /** Every byte that EscapesAt consumed belongs to a %XX triplet. */
  lemma {:induction false} EscapesAtTriplets(s: Bytes, n: nat, k: nat)
    requires EscapesAt(s, n).Some? && k < n
    ensures 3 * k + 2 < |s| && s[3 * k] == Percent && IsHexDigit(s[3 * k + 1]) && IsHexDigit(s[3 * k + 2])
  {
    if k > 0 {
      EscapesAtTriplets(s[3..], n - 1, k - 1);
    }
  }

  /**
   * The encoding contains nothing but unescaped characters and %XX triplets,
   * so in particular no '/'.
   */
  lemma {:induction false} EncodeIsPercentEncoded(s: Bytes)
    ensures IsPercentEncoded(EncodeURIComponent(s))
    ensures forall i :: 0 <= i < |EncodeURIComponent(s)| ==>
              IsUnescaped(EncodeURIComponent(s)[i]) || EncodeURIComponent(s)[i] == Percent
    ensures Slash !in EncodeURIComponent(s)
  {
    if s != [] {
      EncodeIsPercentEncoded(s[1..]);
      var e := EncodeURIComponent(s);
      if IsUnescaped(s[0]) {
        assert e[1..] == EncodeURIComponent(s[1..]);
      } else {
        assert e[3..] == EncodeURIComponent(s[1..]);
        assert EscapeAt(e).Some?;
      }
    }
  }

  /** The round trip: decoding the encoding of a well-formed string gives it back. */
  lemma {:induction false} DecodeEncode(t: Bytes)
    requires ValidUtf8(t)
    ensures DecodeURIComponent(EncodeURIComponent(t)) == Ok(t)
    decreases |t|
  {
    if t != [] {
      var n := SequenceLength(t[0]);
      var c, rest := t[..n], t[n..];
      assert t == c + rest;
      EncodeAppend(c, rest);
      DecodeEncode(rest);
      var tail := EncodeURIComponent(rest);
      if n == 1 {
        assert c == [t[0]];
        assert EncodeURIComponent(c) == EncodeByte(t[0]);
        if IsUnescaped(t[0]) {
          DecodeRawByte(t[0], tail);
        } else {
          DecodeEscapedAscii(t[0], tail);
        }
      } else {
        EncodeHighBytes(c);
        DecodeEscapedChar(c, tail);
      }
    }
  }

  /** A string with no '%' decodes to itself. */
  lemma {:induction false} DecodeWithoutPercent(s: Bytes)
    requires Percent !in s
    ensures DecodeURIComponent(s) == Ok(s)
  {
    if s != [] {
      DecodeWithoutPercent(s[1..]);
      assert s == [s[0]] + s[1..];
    }
  }

  /** A '%' anywhere that is not followed by two hexadecimal digits makes decoding throw. */
  lemma {:induction false} DecodeRejectsBadEscape(s: Bytes, i: nat)
    requires i < |s| && s[i] == Percent
    requires !(i + 2 < |s| && IsHexDigit(s[i + 1]) && IsHexDigit(s[i + 2]))
    ensures DecodeURIComponent(s) == URIError
    decreases |s|
  {
    if s[0] != Percent {
      DecodeRejectsBadEscape(s[1..], i - 1);
    } else if EscapeAt(s).Some? {
      var b := EscapeAt(s).value;
      if b < 0x80 {
        DecodeRejectsBadEscape(s[3..], i - 3);
      } else {
        var n := SequenceLength(b);
        if n != 0 && EscapesAt(s, n).Some? {
          if i < 3 * n {
            EscapesAtTriplets(s, n, i / 3);
          } else if WellFormedChar(EscapesAt(s, n).value) {
            DecodeRejectsBadEscape(s[3 * n..], i - 3 * n);
          }
        }
      }
    }
  }

  /**
   * A string made only of %XX triplets decodes exactly when the bytes they
   * write are valid UTF-8, and then to those bytes.
   */
  lemma {:induction false} DecodeEscapeAll(b: Bytes)
    ensures DecodeURIComponent(EscapeAll(b)) == if ValidUtf8(b) then Ok(b) else URIError
    decreases |b|
  {
    if b != [] {
      var e := EscapeAll(b);
      assert e == Escape(b[0]) + EscapeAll(b[1..]);
      assert EscapeAt(e) == Some(b[0]);
      var n := SequenceLength(b[0]);
      if b[0] < 0x80 {
        DecodeEscapedAscii(b[0], EscapeAll(b[1..]));
        assert b[..1] == [b[0]];
        assert b == [b[0]] + b[1..];
        DecodeEscapeAll(b[1..]);
      } else if n != 0 && n <= |b| {
        assert b == b[..n] + b[n..];
        EscapeAllAppend(b[..n], b[n..]);
        DecodeEscapeAll(b[n..]);
        if WellFormedChar(b[..n]) {
          DecodeEscapedChar(b[..n], EscapeAll(b[n..]));
        } else {
          EscapesAtEscapeAll(b[..n], EscapeAll(b[n..]));
        }
      }
    }
  }
}
