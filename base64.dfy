/**
 * Base64 with the standard alphabet of section 4 of RFC 4648, decoded the way
 * .NET's Convert.FromBase64String decodes it:
 *   - the whitespace characters space, tab, CR and LF are skipped wherever they stand;
 *   - what remains must be a whole number of 4-character quanta;
 *   - '=' may only stand at the end of the last quantum, once or twice;
 *   - the low bits of a padded final quantum that no output byte uses are ignored.
 * The encoder is the partner that the round-trip lemmas are stated against.
 */
module Base64 {
  import opened Wrappers

  /** One octet of decoded output. */
  type Byte = b: int | 0 <= b < 256

  /** The value of one alphabet character: six bits. */
  type Sextet = v: int | 0 <= v < 64

  /** Convert.FromBase64String throws a FormatException for both kinds. */
  datatype DecodeError = BadLength | BadCharacter

  const PAD: char := '='

  /** The characters Convert.FromBase64String skips. */
  predicate IsWhitespace(c: char) {
    c == ' ' || c == '\t' || c == '\r' || c == '\n'
  }

  /** The alphabet: value v is written as this character (Table 1 of RFC 4648). */
  function CharOf(v: Sextet): (c: char)
    ensures c != PAD && !IsWhitespace(c) && c != '.'
  {
    if v < 26 then (65 + v) as char
    else if v < 52 then (97 + v - 26) as char
    else if v < 62 then (48 + v - 52) as char
    else if v == 62 then '+'
    else '/'
  }

  /** The alphabet map: the value of an alphabet character, None for every other character. */
  function ValueOf(c: char): (r: Option<Sextet>)
    ensures r.Some? ==> CharOf(r.value) == c
  {
    if 'A' <= c <= 'Z' then Some(c as int - 65)
    else if 'a' <= c <= 'z' then Some(c as int - 97 + 26)
    else if '0' <= c <= '9' then Some(c as int - 48 + 52)
    else if c == '+' then Some(62)
    else if c == '/' then Some(63)
    else None
  }

  /** CharOf and ValueOf are inverse: the alphabet has 64 distinct characters. */
  lemma ValueOfCharOf(v: Sextet)
    ensures ValueOf(CharOf(v)) == Some(v)
  {
  }

  /** The input with every whitespace character removed, order kept. */
  function RemoveWhitespace(s: string): (r: string)
    ensures |r| <= |s|
    ensures forall i :: 0 <= i < |r| ==> !IsWhitespace(r[i])
    ensures forall c :: c in r <==> c in s && !IsWhitespace(c)
    ensures (forall i :: 0 <= i < |s| ==> !IsWhitespace(s[i])) ==> r == s
  {
    if s == [] then []
    else if IsWhitespace(s[0]) then RemoveWhitespace(s[1..])
    else [s[0]] + RemoveWhitespace(s[1..])
  }

  /** One character: whitespace disappears, anything else is kept. */
  lemma RemoveWhitespaceChar(c: char)
    ensures RemoveWhitespace([c]) == if IsWhitespace(c) then [] else [c]
  {
    assert [c][1..] == [];
  }

  /**
   * Removing whitespace works piece by piece, so with RemoveWhitespaceChar it keeps
   * the other characters in their order and number.
   */
  lemma {:induction false} RemoveWhitespaceConcat(a: string, b: string)
    ensures RemoveWhitespace(a + b) == RemoveWhitespace(a) + RemoveWhitespace(b)
    decreases |a|
  {
    if a != [] {
      FrontOfConcat(a, b);
      RemoveWhitespaceConcat(a[1..], b);
    } else {
      assert a + b == b;
    }
  }

  lemma FrontOfConcat<T>(a: seq<T>, b: seq<T>)
    requires a != []
    ensures (a + b)[0] == a[0] && (a + b)[1..] == a[1..] + b
  {
  }

  // The three output bytes of a quantum with values a, b, c, d (24 bits, most significant first).
  function Hi(a: Sextet, b: Sextet): Byte { a * 4 + b / 16 }
  function Mid(b: Sextet, c: Sextet): Byte { b % 16 * 16 + c / 4 }
  function Lo(c: Sextet, d: Sextet): Byte { c % 4 * 64 + d }

  /** The number of '=' among the last two characters of a quantum. */
  function PadCount(c: char, d: char): nat
  {
    (if c == PAD then 1 else 0) + (if d == PAD then 1 else 0)
  }

  /**
   * One quantum of four characters. Only the last quantum may end in "=" or "==";
   * it then yields two or one bytes.
   */
  function DecodeQuantum(a: char, b: char, c: char, d: char, last: bool): (r: Result<seq<Byte>, DecodeError>)
    ensures r.Success? ==> ValueOf(a).Some? && ValueOf(b).Some? && |r.value| + PadCount(c, d) == 3
    ensures r.Success? && !last ==> |r.value| == 3
  {
    match (ValueOf(a), ValueOf(b), ValueOf(c), ValueOf(d))
    case (Some(va), Some(vb), Some(vc), Some(vd)) =>
      Success([Hi(va, vb), Mid(vb, vc), Lo(vc, vd)])
    case (Some(va), Some(vb), Some(vc), None) =>
      if last && d == PAD then Success([Hi(va, vb), Mid(vb, vc)]) else Failure(BadCharacter)
    case (Some(va), Some(vb), None, None) =>
      if last && c == PAD && d == PAD then Success([Hi(va, vb)]) else Failure(BadCharacter)
    case _ =>
      Failure(BadCharacter)
  }

  /** The number of padding characters in s. */
  function Padding(s: string): nat
  {
    if s == [] then 0 else (if s[0] == PAD then 1 else 0) + Padding(s[1..])
  }

  /** The padding of a string whose first four characters form a quantum. */
  lemma PaddingOfQuantum(t: string)
    requires |t| >= 4 && t[0] != PAD && t[1] != PAD
    ensures Padding(t) == PadCount(t[2], t[3]) + Padding(t[4..])
  {
    var t1, t2, t3 := t[1..], t[2..], t[3..];
    assert t1[1..] == t2 && t2[1..] == t3 && t3[1..] == t[4..];
    assert Padding(t) == Padding(t1) == Padding(t2);
    assert Padding(t2) == (if t[2] == PAD then 1 else 0) + Padding(t3);
    assert Padding(t3) == (if t[3] == PAD then 1 else 0) + Padding(t[4..]);
  }

  /** Arithmetic of stepping over one quantum. */
  lemma QuantumStep(n: int)
    requires n >= 4
    ensures (n - 4) % 4 == n % 4 && (n - 4) / 4 * 3 + 3 == n / 4 * 3
  {
  }

  /** Quanta decoded front to back; a tail shorter than a quantum is a length error. */
  function DecodeBlocks(t: string): (r: Result<seq<Byte>, DecodeError>)
    decreases |t|
  {
    if t == [] then Success([])
    else if |t| < 4 then Failure(BadLength)
    else
      match DecodeQuantum(t[0], t[1], t[2], t[3], |t| == 4)
      case Failure(e) => Failure(e)
      case Success(q) =>
        match DecodeBlocks(t[4..])
        case Failure(e) => Failure(e)
        case Success(rest) => Success(q + rest)
  }

  /** The decoded length is three bytes per quantum, less one per '='. */
  lemma {:induction false} DecodedLength(t: string)
    requires DecodeBlocks(t).Success?
    ensures |t| % 4 == 0 && |DecodeBlocks(t).value| + Padding(t) == |t| / 4 * 3
    decreases |t|
  {
    if t != [] {
      var q := DecodeQuantum(t[0], t[1], t[2], t[3], |t| == 4);
      var rest := DecodeBlocks(t[4..]);
      assert DecodeBlocks(t).value == q.value + rest.value;
      DecodedLength(t[4..]);
      PaddingOfQuantum(t);
      QuantumStep(|t|);
    }
  }

  /** Convert.FromBase64String. */
  function Decode(s: string): (r: Result<seq<Byte>, DecodeError>)
    ensures |RemoveWhitespace(s)| % 4 != 0 ==> r == Failure(BadLength)
  {
    var t := RemoveWhitespace(s);
    if |t| % 4 != 0 then Failure(BadLength) else DecodeBlocks(t)
  }

  /** Three bytes as four characters. */
  function EncodeTriple(b0: Byte, b1: Byte, b2: Byte): string
  {
    [CharOf(b0 / 4), CharOf(b0 % 4 * 16 + b1 / 16), CharOf(b1 % 16 * 4 + b2 / 64), CharOf(b2 % 64)]
  }

  /** Padded base64 encoding with the standard alphabet (section 4 of RFC 4648). */
  function Encode(b: seq<Byte>): (s: string)
    ensures b != [] ==> |s| >= 4
    ensures forall i :: 0 <= i < |s| ==> ValueOf(s[i]).Some? || s[i] == PAD
    decreases |b|
  {
    if |b| == 0 then []
    else if |b| == 1 then [CharOf(b[0] / 4), CharOf(b[0] % 4 * 16), PAD, PAD]
    else if |b| == 2 then [CharOf(b[0] / 4), CharOf(b[0] % 4 * 16 + b[1] / 16), CharOf(b[1] % 16 * 4), PAD]
    else EncodeTriple(b[0], b[1], b[2]) + Encode(b[3..])
  }

  /** The number of '=' the encoding of n bytes ends with: 0, or 2 or 1 after one or two left-over bytes. */
  function PadLength(n: nat): (p: nat)
    ensures p <= 2
  {
    if n == 0 then 0 else if n == 1 then 2 else if n == 2 then 1 else PadLength(n - 3)
  }

  /** The encoding is a whole number of quanta. */
  lemma {:induction false} EncodeLength(b: seq<Byte>)
    ensures |Encode(b)| % 4 == 0
    decreases |b|
  {
    if |b| > 2 {
      EncodeLength(b[3..]);
      var n := |Encode(b[3..])|;
      assert |Encode(b)| == 4 + n;
      QuantumMore(n);
    }
  }

  lemma QuantumMore(n: int)
    requires n % 4 == 0
    ensures (4 + n) % 4 == 0
  {
  }

  /**
   * Where the encoding's padding stands: exactly its last PadLength(|b|) characters
   * are '=' and no character before them is.
   */
  lemma {:induction false} EncodeShape(b: seq<Byte>)
    ensures PadLength(|b|) <= |Encode(b)|
    ensures forall i :: 0 <= i < |Encode(b)| ==> (Encode(b)[i] == PAD <==> i >= |Encode(b)| - PadLength(|b|))
    decreases |b|
  {
    if |b| > 2 {
      EncodeShape(b[3..]);
      var s := Encode(b);
      var rest := Encode(b[3..]);
      var head := EncodeTriple(b[0], b[1], b[2]);
      assert s == head + rest;
      forall i | 0 <= i < |s|
        ensures s[i] == PAD <==> i >= |s| - PadLength(|b|)
      {
        if i >= 4 {
          assert s[i] == rest[i - 4];
        } else {
          assert s[i] == head[i];
        }
      }
    }
  }

  // The arithmetic of splitting three bytes into four sextets and joining them again.
  lemma JoinHi(b0: Byte, b1: Byte)
    ensures b0 % 4 * 16 + b1 / 16 < 64
    ensures Hi(b0 / 4, b0 % 4 * 16 + b1 / 16) == b0 && (b0 % 4 * 16 + b1 / 16) % 16 == b1 / 16
  {
  }

  lemma JoinMid(b1: Byte, b2: Byte, v: Sextet)
    requires v % 16 == b1 / 16
    ensures b1 % 16 * 4 + b2 / 64 < 64
    ensures Mid(v, b1 % 16 * 4 + b2 / 64) == b1 && (b1 % 16 * 4 + b2 / 64) % 4 == b2 / 64
  {
  }

  lemma JoinLo(b2: Byte, w: Sextet)
    requires w % 4 == b2 / 64
    ensures Lo(w, b2 % 64) == b2
  {
  }

  /** Decoding one encoded triple gives the triple back. */
  lemma TripleRoundTrip(b0: Byte, b1: Byte, b2: Byte, last: bool)
    ensures var q := EncodeTriple(b0, b1, b2);
      DecodeQuantum(q[0], q[1], q[2], q[3], last) == Success([b0, b1, b2])
  {
    var u, v, w, x := b0 / 4, b0 % 4 * 16 + b1 / 16, b1 % 16 * 4 + b2 / 64, b2 % 64;
    JoinHi(b0, b1);
    JoinMid(b1, b2, v);
    JoinLo(b2, w);
    ValueOfCharOf(u);
    ValueOfCharOf(v);
    ValueOfCharOf(w);
    ValueOfCharOf(x);
  }

  /** Decoding the encoding of a single left-over byte. */
  lemma OneByteRoundTrip(b0: Byte)
    ensures DecodeBlocks(Encode([b0])) == Success([b0])
  {
    var s := Encode([b0]);
    JoinHi(b0, 0);
    ValueOfCharOf(b0 / 4);
    ValueOfCharOf(b0 % 4 * 16);
    assert DecodeQuantum(s[0], s[1], s[2], s[3], true) == Success([b0]);
    assert s[4..] == [];
    assert [b0] + [] == [b0];
  }

  /** Decoding the encoding of two left-over bytes. */
  lemma TwoBytesRoundTrip(b0: Byte, b1: Byte)
    ensures DecodeBlocks(Encode([b0, b1])) == Success([b0, b1])
  {
    var s := Encode([b0, b1]);
    var v := b0 % 4 * 16 + b1 / 16;
    JoinHi(b0, b1);
    JoinMid(b1, 0, v);
    ValueOfCharOf(b0 / 4);
    ValueOfCharOf(v);
    ValueOfCharOf(b1 % 16 * 4);
    assert DecodeQuantum(s[0], s[1], s[2], s[3], true) == Success([b0, b1]);
    assert s[4..] == [];
    assert [b0, b1] + [] == [b0, b1];
  }

  lemma {:induction false} BlocksRoundTrip(b: seq<Byte>)
    ensures DecodeBlocks(Encode(b)) == Success(b)
    decreases |b|
  {
    if |b| == 1 {
      assert b == [b[0]];
      OneByteRoundTrip(b[0]);
    } else if |b| == 2 {
      assert b == [b[0], b[1]];
      TwoBytesRoundTrip(b[0], b[1]);
    } else if |b| > 2 {
      BlocksRoundTrip(b[3..]);
      BlocksRoundTripStep(b);
    }
  }

  /** The inductive step: a first triple in front of bytes that already round-trip. */
  lemma BlocksRoundTripStep(b: seq<Byte>)
    requires |b| > 2 && DecodeBlocks(Encode(b[3..])) == Success(b[3..])
    ensures DecodeBlocks(Encode(b)) == Success(b)
  {
    SplitAtThree(b);
    var s := Encode(b);
    var q := EncodeTriple(b[0], b[1], b[2]);
    EncodeFirstTriple(b);
    assert s[0] == q[0] && s[1] == q[1] && s[2] == q[2] && s[3] == q[3];
    TripleRoundTrip(b[0], b[1], b[2], |s| == 4);
    BlocksJoin(s);
  }

  lemma SplitAtThree<T>(b: seq<T>)
    requires |b| > 2
    ensures [b[0], b[1], b[2]] + b[3..] == b
  {
  }

  /** Beyond two bytes the encoding starts with the first triple's quantum and continues with the rest. */
  lemma EncodeFirstTriple(b: seq<Byte>)
    requires |b| > 2
    ensures var s := Encode(b);
      s[..4] == EncodeTriple(b[0], b[1], b[2]) && s[4..] == Encode(b[3..])
  {
    var head, rest := EncodeTriple(b[0], b[1], b[2]), Encode(b[3..]);
    assert Encode(b) == head + rest;
    assert (head + rest)[..4] == head && (head + rest)[4..] == rest;
  }

  /** A successful first quantum followed by successfully decoded quanta. */
  lemma BlocksJoin(t: string)
    requires |t| >= 4
    requires DecodeQuantum(t[0], t[1], t[2], t[3], |t| == 4).Success? && DecodeBlocks(t[4..]).Success?
    ensures DecodeBlocks(t) == Success(DecodeQuantum(t[0], t[1], t[2], t[3], |t| == 4).value + DecodeBlocks(t[4..]).value)
  {
  }

  /** Round trip: decoding the padded encoding of any byte string gives it back. */
  lemma DecodeEncode(b: seq<Byte>)
    ensures Decode(Encode(b)) == Success(b)
  {
    var s := Encode(b);
    forall i | 0 <= i < |s| ensures !IsWhitespace(s[i]) {
      var v := ValueOf(s[i]);
      if v.Some? { assert CharOf(v.value) == s[i]; }
    }
    assert RemoveWhitespace(s) == s;
    EncodeLength(b);
    BlocksRoundTrip(b);
  }

  /** The quanta of a string fail together: the whole fails iff its first quantum or the rest fails. */
  lemma BlocksFailure(t: string)
    requires |t| >= 4
    ensures DecodeBlocks(t).Failure? <==>
      DecodeQuantum(t[0], t[1], t[2], t[3], |t| == 4).Failure? || DecodeBlocks(t[4..]).Failure?
  {
  }

  /** A character that is neither in the alphabet, nor '=', nor whitespace makes decoding fail. */
  lemma ForeignCharacterRejected(s: string, c: char)
    requires c in s && ValueOf(c).None? && c != PAD && !IsWhitespace(c)
    ensures Decode(s).Failure?
  {
    var t := RemoveWhitespace(s);
    assert c in t;
    BlocksRejectForeign(t, c);
  }

  lemma {:induction false} BlocksRejectForeign(t: string, c: char)
    requires c in t && ValueOf(c).None? && c != PAD
    ensures DecodeBlocks(t).Failure?
    decreases |t|
  {
    if |t| >= 4 {
      BlocksFailure(t);
      if c in t[..4] {
        assert c == t[0] || c == t[1] || c == t[2] || c == t[3];
      } else {
        assert t == t[..4] + t[4..];
        BlocksRejectForeign(t[4..], c);
      }
    }
  }

  /** A final quantum of one character and three '=' (a segment of length 1 mod 4, padded) is rejected. */
  lemma {:induction false} ThreePadRejected(t: string)
    requires |t| >= 4
    requires t[|t| - 3] == PAD && t[|t| - 2] == PAD && t[|t| - 1] == PAD
    ensures DecodeBlocks(t).Failure?
    decreases |t|
  {
    BlocksFailure(t);
    if |t| >= 8 {
      ThreePadRejected(t[4..]);
    } else if |t| > 4 {
      assert 0 < |t[4..]| < 4;
    } else {
      assert ValueOf(PAD).None?;
    }
  }

  // Two test vectors of section 10 of RFC 4648, "fo" and "foob", in both directions.
  lemma Rfc4648Fo()
    ensures Encode([102, 111]) == "Zm8="
    ensures Decode("Zm8=") == Success([102, 111])
  {
    var b: seq<Byte> := [102, 111];
    assert b[0] / 4 == 25 && b[0] % 4 * 16 + b[1] / 16 == 38 && b[1] % 16 * 4 == 60;
    assert CharOf(25) == 'Z' && CharOf(38) == 'm' && CharOf(60) == '8';
    assert Encode(b) == "Zm8=";
    DecodeEncode(b);
  }

  lemma FooTriple()
    ensures EncodeTriple(102, 111, 111) == "Zm9v"
  {
    assert 102 / 4 == 25 && 102 % 4 * 16 + 111 / 16 == 38 && 111 % 16 * 4 + 111 / 64 == 61 && 111 % 64 == 47;
    assert CharOf(25) == 'Z' && CharOf(38) == 'm' && CharOf(61) == '9' && CharOf(47) == 'v';
  }

  lemma Rfc4648Foob()
    ensures Encode([102, 111, 111, 98]) == "Zm9vYg=="
    ensures Decode("Zm9vYg==") == Success([102, 111, 111, 98])
  {
    var b: seq<Byte> := [102, 111, 111, 98];
    assert b[3..] == [98];
    FooTriple();
    var rest: seq<Byte> := [98];
    assert rest[0] / 4 == 24 && rest[0] % 4 * 16 == 32;
    assert CharOf(24) == 'Y' && CharOf(32) == 'g';
    assert Encode(rest) == "Yg==";
    assert Encode(b) == EncodeTriple(102, 111, 111) + Encode(rest);
    var e := Encode(b);
    assert e == "Zm9vYg==";
    DecodeEncode(b);
    assert Decode(e) == Success(b);
  }
}
