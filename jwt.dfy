/**
 * DecodeJwtPayload: take the second '.'-separated segment of the token, restore
 * the '=' padding to a multiple of four characters, and base64-decode it with the
 * standard alphabet. No signature is checked, and the segment is not translated
 * from the URL-safe alphabet of section 5 of RFC 4648.
 */
module Jwt {
  import opened Wrappers
  import Base64

  /** What DecodeJwtPayload can throw: index 1 out of range, or a FormatException. */
  datatype TokenError = MissingPayload | NotBase64(cause: Base64.DecodeError)

  /** String.Split(sep) without options: every separator splits, empty parts are kept. */
  function Split(s: string, sep: char): (parts: seq<string>)
    ensures |parts| >= 1
    ensures forall i :: 0 <= i < |parts| ==> sep !in parts[i]
    decreases |s|
  {
    if s == [] then [[]]
    else
      var rest := Split(s[1..], sep);
      if s[0] == sep then [[]] + rest
      else [[s[0]] + rest[0]] + rest[1..]
  }

  /** The parts written one after another with the separator between them. */
  function Join(parts: seq<string>, sep: char): string
    decreases |parts|
  {
    if parts == [] then []
    else if |parts| == 1 then parts[0]
    else parts[0] + [sep] + Join(parts[1..], sep)
  }

  /** Splitting loses nothing: joining the parts gives the string back. */
  lemma {:induction false} JoinSplit(s: string, sep: char)
    ensures Join(Split(s, sep), sep) == s
    decreases |s|
  {
    if s != [] {
      var rest := Split(s[1..], sep);
      JoinSplit(s[1..], sep);
      if s[0] == sep {
        assert Split(s, sep)[1..] == rest;
        assert s == [] + [sep] + s[1..];
      } else if |rest| == 1 {
        assert Split(s, sep) == [[s[0]] + rest[0]];
      } else {
        var parts := Split(s, sep);
        assert parts[1..] == rest[1..];
        assert Join(rest, sep) == rest[0] + [sep] + Join(rest[1..], sep);
        assert s == [s[0]] + s[1..];
      }
    }
  }

  /** The number of parts is one more than the number of separators. */
  lemma {:induction false} SplitCount(s: string, sep: char)
    ensures |Split(s, sep)| == 1 <==> sep !in s
    decreases |s|
  {
    if s != [] {
      SplitCount(s[1..], sep);
      assert sep in s <==> s[0] == sep || sep in s[1..];
    }
  }

  /** A part that ends the string or a separator is the first part of whatever follows it. */
  lemma {:induction false} SplitFirst(p: string, rest: string, sep: char)
    requires sep !in p && (rest == [] || rest[0] == sep)
    ensures Split(p + rest, sep)[0] == p
    decreases |p|
  {
    if p == [] {
      assert p + rest == rest;
    } else {
      assert (p + rest)[1..] == p[1..] + rest;
      SplitFirst(p[1..], rest, sep);
      assert p == [p[0]] + p[1..];
    }
  }

  /** In h.p... (no separator in h or p, and p ended by a separator or the end) p is part 1. */
  lemma {:induction false} SplitSecond(h: string, p: string, rest: string, sep: char)
    requires sep !in h && sep !in p && (rest == [] || rest[0] == sep)
    ensures |Split(h + [sep] + p + rest, sep)| >= 2
    ensures Split(h + [sep] + p + rest, sep)[1] == p
    decreases |h|
  {
    var s := h + [sep] + p + rest;
    if h == [] {
      assert s[1..] == p + rest;
      SplitFirst(p, rest, sep);
    } else {
      assert s[1..] == h[1..] + [sep] + p + rest;
      SplitSecond(h[1..], p, rest, sep);
    }
  }

  /** A string without the separator is a single part. */
  lemma {:induction false} SplitWhole(a: string, sep: char)
    requires sep !in a
    ensures Split(a, sep) == [a]
    decreases |a|
  {
    if a != [] {
      SplitWhole(a[1..], sep);
      assert a == [a[0]] + a[1..];
    }
  }

  /** A separator-free prefix followed by a separator is the first part; the rest splits on. */
  lemma {:induction false} SplitAfter(a: string, rest: string, sep: char)
    requires sep !in a
    ensures Split(a + [sep] + rest, sep) == [a] + Split(rest, sep)
    decreases |a|
  {
    var s := a + [sep] + rest;
    if a == [] {
      assert s[1..] == rest;
    } else {
      assert s[1..] == a[1..] + [sep] + rest;
      SplitAfter(a[1..], rest, sep);
      assert a == [a[0]] + a[1..];
    }
  }

  /** The '=' padding the code appends: 4 - length % 4 characters, unless that is 4. */
  function Pad(s: string): (r: string)
    ensures |r| % 4 == 0
    ensures |s| <= |r| <= |s| + 3
    ensures r[..|s|] == s
    ensures forall i :: |s| <= i < |r| ==> r[i] == Base64.PAD
    ensures |s| % 4 == 0 ==> r == s
  {
    var pad := 4 - |s| % 4;
    if pad < 4 then s + seq(pad, _ => Base64.PAD) else s
  }

  /** The string without its trailing '=' characters, as a JWT writes a base64 segment. */
  function StripPadding(s: string): (r: string)
    ensures |r| <= |s| && r == s[..|r|]
    ensures r == [] || r[|r| - 1] != Base64.PAD
    ensures forall i :: |r| <= i < |s| ==> s[i] == Base64.PAD
    decreases |s|
  {
    if s != [] && s[|s| - 1] == Base64.PAD then StripPadding(s[..|s| - 1]) else s
  }

  /** Stripping a string that ends in exactly k '=' removes those k characters. */
  lemma {:induction false} StripExactly(s: string, k: nat)
    requires k <= |s|
    requires forall i :: 0 <= i < |s| ==> (s[i] == Base64.PAD <==> i >= |s| - k)
    ensures StripPadding(s) == s[..|s| - k]
    decreases k
  {
    if k > 0 {
      var t := s[..|s| - 1];
      assert forall i :: 0 <= i < |t| ==> t[i] == s[i];
      StripExactly(t, k - 1);
      assert t[..|t| - (k - 1)] == s[..|s| - k];
    }
  }

  /** Padding restores what stripping removed from a base64 encoding. */
  lemma PadRestoresEncoding(b: seq<Base64.Byte>)
    ensures Pad(StripPadding(Base64.Encode(b))) == Base64.Encode(b)
  {
    var e := Base64.Encode(b);
    var k := Base64.PadLength(|b|);
    Base64.EncodeShape(b);
    Base64.EncodeLength(b);
    StripExactly(e, k);
    PadRestores(e, k);
  }

  /** A whole number of quanta ending in at most two '=' is restored from its unpadded prefix. */
  lemma PadRestores(e: string, k: nat)
    requires |e| % 4 == 0 && k <= 2 && k <= |e|
    requires forall i :: 0 <= i < |e| ==> (e[i] == Base64.PAD <==> i >= |e| - k)
    ensures Pad(e[..|e| - k]) == e
  {
    var r := e[..|e| - k];
    PadArithmetic(|e|, k);
    var padded := Pad(r);
    assert |padded| == |e|;
    forall i | 0 <= i < |e| ensures padded[i] == e[i] {
      if i < |r| {
        assert padded[i] == padded[..|r|][i] == r[i];
      }
    }
  }

  lemma PadArithmetic(n: int, k: int)
    requires n % 4 == 0 && 0 <= k <= 2 && k <= n
    ensures var m := n - k; (m % 4 == 0 ==> k == 0) && (m % 4 != 0 ==> 4 - m % 4 == k)
  {
  }

  /** Segment 1 of the token, or an error when the token has no '.'. */
  function PayloadSegment(jwt: string): (r: Result<string, TokenError>)
    ensures r.Failure? <==> '.' !in jwt
  {
    var parts := Split(jwt, '.');
    SplitCount(jwt, '.');
    if |parts| < 2 then Failure(MissingPayload) else Success(parts[1])
  }

  /** Restore the padding of one segment and base64-decode it. */
  function DecodeSegment(segment: string): (r: Result<seq<Base64.Byte>, TokenError>)
    ensures r != Failure(MissingPayload)
    ensures r.Failure? <==> Base64.Decode(Pad(segment)).Failure?
  {
    match Base64.Decode(Pad(segment))
    case Success(bytes) => Success(bytes)
    case Failure(e) => Failure(NotBase64(e))
  }

  /** DecodeJwtPayload, stopping at the decoded bytes. */
  function DecodePayload(jwt: string): (r: Result<seq<Base64.Byte>, TokenError>)
    ensures r == Failure(MissingPayload) <==> '.' !in jwt
  {
    var segment :- PayloadSegment(jwt);
    DecodeSegment(segment)
  }

  /** The segment decoded is exactly the text between the first and the second '.'. */
  lemma PayloadBetweenDots(header: string, payload: string, rest: string)
    requires '.' !in header && '.' !in payload && (rest == [] || rest[0] == '.')
    ensures PayloadSegment(header + "." + payload + rest) == Success(payload)
    ensures DecodePayload(header + "." + payload + rest) == DecodeSegment(payload)
  {
    SplitSecond(header, payload, rest, '.');
  }

  /** An unpadded base64 encoding decodes to the bytes it encodes. */
  lemma SegmentRoundTrip(b: seq<Base64.Byte>)
    ensures DecodeSegment(StripPadding(Base64.Encode(b))) == Success(b)
  {
    PadRestoresEncoding(b);
    Base64.DecodeEncode(b);
  }

  /** A padded one too: Pad leaves a whole number of quanta as it is. */
  lemma PaddedSegmentRoundTrip(b: seq<Base64.Byte>)
    ensures DecodeSegment(Base64.Encode(b)) == Success(b)
  {
    Base64.EncodeLength(b);
    Base64.DecodeEncode(b);
  }

  /**
   * Round trip: base64-encode any bytes, strip the '=' padding, put the result between
   * a header and a signature, and decoding the token gives the bytes back.
   */
  lemma TokenRoundTrip(b: seq<Base64.Byte>, header: string, signature: string)
    requires '.' !in header
    ensures DecodePayload(header + "." + StripPadding(Base64.Encode(b)) + "." + signature) == Success(b)
  {
    var e := Base64.Encode(b);
    var p := StripPadding(e);
    NoDotInEncoding(b);
    assert forall i :: 0 <= i < |p| ==> p[i] == e[i];
    var token := header + "." + p + "." + signature;
    assert token == header + "." + p + ("." + signature);
    PayloadBetweenDots(header, p, "." + signature);
    SegmentRoundTrip(b);
  }

  /** The same without stripping: a padded segment is left as it is. */
  lemma PaddedTokenRoundTrip(b: seq<Base64.Byte>, header: string, signature: string)
    requires '.' !in header
    ensures DecodePayload(header + "." + Base64.Encode(b) + "." + signature) == Success(b)
  {
    var e := Base64.Encode(b);
    NoDotInEncoding(b);
    var token := header + "." + e + "." + signature;
    assert token == header + "." + e + ("." + signature);
    PayloadBetweenDots(header, e, "." + signature);
    PaddedSegmentRoundTrip(b);
  }

  lemma NoDotInEncoding(b: seq<Base64.Byte>)
    ensures '.' !in Base64.Encode(b)
  {
    assert Base64.ValueOf('.') == None;
  }

  /**
   * The URL-safe characters '-' and '_' of section 5 of RFC 4648, which a JWT
   * (section 2 of RFC 7515) may contain, make the decoder fail.
   */
  lemma UrlSafeCharacterRejected(header: string, payload: string, rest: string, c: char)
    requires '.' !in header && '.' !in payload && (rest == [] || rest[0] == '.')
    requires (c == '-' || c == '_') && c in payload
    ensures DecodePayload(header + "." + payload + rest).Failure?
  {
    PayloadBetweenDots(header, payload, rest);
    UrlSafeSegmentRejected(payload, c);
  }

  lemma UrlSafeSegmentRejected(payload: string, c: char)
    requires (c == '-' || c == '_') && c in payload
    ensures DecodeSegment(payload).Failure?
  {
    var padded := Pad(payload);
    var i :| 0 <= i < |payload| && payload[i] == c;
    assert padded[i] == padded[..|payload|][i] == c;
    Base64.ForeignCharacterRejected(padded, c);
  }

  /** A whitespace-free segment whose length is 1 more than a multiple of four can never decode. */
  lemma LengthOneMoreThanQuantaRejected(header: string, payload: string, rest: string)
    requires '.' !in header && '.' !in payload && (rest == [] || rest[0] == '.')
    requires |payload| % 4 == 1
    requires forall i :: 0 <= i < |payload| ==> !Base64.IsWhitespace(payload[i])
    ensures DecodePayload(header + "." + payload + rest).Failure?
  {
    PayloadBetweenDots(header, payload, rest);
    ThreePadSegmentRejected(payload);
  }

  lemma ThreePadSegmentRejected(payload: string)
    requires |payload| % 4 == 1
    requires forall i :: 0 <= i < |payload| ==> !Base64.IsWhitespace(payload[i])
    ensures DecodeSegment(payload).Failure?
  {
    var padded := Pad(payload);
    assert |padded| == |payload| + 3;
    forall i | 0 <= i < |padded| ensures !Base64.IsWhitespace(padded[i]) {
      if i < |payload| {
        assert padded[i] == padded[..|payload|][i];
      }
    }
    Base64.ThreePadRejected(padded);
  }
}
