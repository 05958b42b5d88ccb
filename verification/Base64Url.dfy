/** Padded base64url (section 5 of RFC 4648) and the strict signature decoder built on it. */
module Base64Url {
  import opened Wrappers
  import opened Unicode

  type Sextet = s: int | 0 <= s < 64

  const PAD: CodePoint := '=' as int

  function CharOf(s: Sextet): (c: CodePoint)
    ensures SextetOf(c) == Some(s)
  {
    if s < 26 then 'A' as int + s
    else if s < 52 then 'a' as int + s - 26
    else if s < 62 then '0' as int + s - 52
    else if s == 62 then '-' as int
    else '_' as int
  }

  /** The position of a character in the base64url alphabet. */
  function SextetOf(c: CodePoint): Option<Sextet> {
    if 'A' as int <= c <= 'Z' as int then Some(c - 'A' as int)
    else if 'a' as int <= c <= 'z' as int then Some(c - 'a' as int + 26)
    else if '0' as int <= c <= '9' as int then Some(c - '0' as int + 52)
    else if c == '-' as int then Some(62)
    else if c == '_' as int then Some(63)
    else None
  }

  predicate InAlphabet(c: CodePoint) {
    SextetOf(c).Some?
  }

  // ---------------------------------------------------------------- encoding

  function EncodeThree(a: Byte, b: Byte, c: Byte): Text {
    [CharOf(a / 4), CharOf(a % 4 * 16 + b / 16), CharOf(b % 16 * 4 + c / 64), CharOf(c % 64)]
  }

  /** `base64.urlsafe_b64encode` */
  function Encode(bs: Bytes): Text {
    if bs == [] then []
    else if |bs| == 1 then [CharOf(bs[0] / 4), CharOf(bs[0] % 4 * 16), PAD, PAD]
    else if |bs| == 2 then
      [CharOf(bs[0] / 4), CharOf(bs[0] % 4 * 16 + bs[1] / 16), CharOf(bs[1] % 16 * 4), PAD]
    else EncodeThree(bs[0], bs[1], bs[2]) + Encode(bs[3..])
  }

  // ---------------------------------------------------------------- decoding

  function DecodeFour(p: Sextet, q: Sextet, r: Sextet, s: Sextet): Bytes {
    [p * 4 + q / 16, q % 16 * 16 + r / 4, r % 4 * 64 + s]
  }

  /** `base64.b64decode(..., validate=True)`; like Python it ignores unused bits. */
  function Decode(t: Text): Option<Bytes> {
    if t == [] then Some([])
    else if |t| < 4 then None
    else
      var p :- SextetOf(t[0]);
      var q :- SextetOf(t[1]);
      if |t| == 4 && t[2] == PAD && t[3] == PAD then Some([p * 4 + q / 16])
      else
        var r :- SextetOf(t[2]);
        if |t| == 4 && t[3] == PAD then Some([p * 4 + q / 16, q % 16 * 16 + r / 4])
        else
          var s :- SextetOf(t[3]);
          var rest :- Decode(t[4..]);
          Some(DecodeFour(p, q, r, s) + rest)
  }

  /** `[A-Za-z0-9_-]{86}==` */
  predicate SignatureShaped(t: Text) {
    && |t| == 88
    && (forall i :: 0 <= i < 86 ==> InAlphabet(t[i]))
    && t[86] == PAD && t[87] == PAD
  }

  /** `_decode_strict_signature`; `None` stands for the structure error. */
  function DecodeStrictSignature(t: Text): Option<Bytes> {
    if !SignatureShaped(t) then None
    else if SextetOf(t[85]).value % 16 != 0 then None
    else
      var decoded :- Decode(t);
      if |decoded| != 64 then None else Some(decoded)
  }

  // ---------------------------------------------------------------- inverse of each other

  lemma CharOfSextet(c: CodePoint)
    requires InAlphabet(c)
    ensures CharOf(SextetOf(c).value) == c
  {
  }

  lemma FourThree(p: Sextet, q: Sextet, r: Sextet, s: Sextet)
    ensures var d := DecodeFour(p, q, r, s);
            EncodeThree(d[0], d[1], d[2]) == [CharOf(p), CharOf(q), CharOf(r), CharOf(s)]
  {
    var d := DecodeFour(p, q, r, s);
    assert d[0] / 4 == p && d[0] % 4 == q / 16 && d[1] / 16 == q % 16;
    assert d[1] % 16 == r / 4 && d[2] / 64 == r % 4 && d[2] % 64 == s;
  }

  lemma ThreeFour(a: Byte, b: Byte, c: Byte)
    ensures DecodeFour(a / 4, a % 4 * 16 + b / 16, b % 16 * 4 + c / 64, c % 64) == [a, b, c]
  {
    assert (a % 4 * 16 + b / 16) / 16 == a % 4 && (a % 4 * 16 + b / 16) % 16 == b / 16;
    assert (b % 16 * 4 + c / 64) / 4 == b % 16 && (b % 16 * 4 + c / 64) % 4 == c / 64;
  }

  /** `k` whole quads of alphabet characters, then one padded down to a single octet. */
  ghost predicate OneOctetTail(t: Text, k: nat) {
    && |t| == 4 * k + 4
    && (forall i :: 0 <= i < |t| - 2 ==> InAlphabet(t[i]))
    && t[|t| - 2] == PAD && t[|t| - 1] == PAD
    && SextetOf(t[|t| - 3]).value % 16 == 0
  }

  lemma LastQuad(t: Text)
    requires OneOctetTail(t, 0)
    ensures Decode(t).Some? && |Decode(t).value| == 1 && Encode(Decode(t).value) == t
  {
    CharOfSextet(t[0]);
    CharOfSextet(t[1]);
    var p, q := SextetOf(t[0]).value, SextetOf(t[1]).value;
    var a := (p as int) * 4 + q / 16;
    assert a / 4 == p && a % 4 * 16 == q;
  }

  function QuadText(p: Sextet, q: Sextet, r: Sextet, s: Sextet): Text {
    [CharOf(p), CharOf(q), CharOf(r), CharOf(s)]
  }

  lemma HeadQuad(t: Text, k: nat) returns (p: Sextet, q: Sextet, r: Sextet, s: Sextet)
    requires k > 0 && OneOctetTail(t, k)
    ensures t == QuadText(p, q, r, s) + t[4..]
  {
    p, q := SextetOf(t[0]).value, SextetOf(t[1]).value;
    r, s := SextetOf(t[2]).value, SextetOf(t[3]).value;
    CharOfSextet(t[0]);
    CharOfSextet(t[1]);
    CharOfSextet(t[2]);
    CharOfSextet(t[3]);
  }

  lemma EncodeQuad(p: Sextet, q: Sextet, r: Sextet, s: Sextet, rest: Bytes)
    requires rest != []
    ensures Encode(DecodeFour(p, q, r, s) + rest) == QuadText(p, q, r, s) + Encode(rest)
  {
    var d := DecodeFour(p, q, r, s);
    FourThree(p, q, r, s);
    assert d == [d[0], d[1], d[2]];
  }

  lemma {:induction false} EncodeAfterDecode(t: Text, k: nat)
    requires OneOctetTail(t, k)
    ensures Decode(t).Some? && |Decode(t).value| == 3 * k + 1 && Encode(Decode(t).value) == t
  {
    if k == 0 {
      LastQuad(t);
    } else {
      var p, q, r, s := HeadQuad(t, k);
      EncodeAfterDecode(t[4..], k - 1);
      DecodeStep(p, q, r, s, t[4..]);
      EncodeQuad(p, q, r, s, Decode(t[4..]).value);
    }
  }

  lemma DecodeStep(p: Sextet, q: Sextet, r: Sextet, s: Sextet, rest: Text)
    requires Decode(rest).Some? && rest != []
    ensures Decode(QuadText(p, q, r, s) + rest) == Some(DecodeFour(p, q, r, s) + Decode(rest).value)
  {
    var t := QuadText(p, q, r, s) + rest;
    assert t[4..] == rest;
  }

  lemma DecodeQuad(a: Byte, b: Byte, c: Byte, rest: Text, k: nat)
    requires Decode(rest).Some? && OneOctetTail(rest, k)
    ensures Decode(EncodeThree(a, b, c) + rest) == Some([a, b, c] + Decode(rest).value)
    ensures OneOctetTail(EncodeThree(a, b, c) + rest, k + 1)
  {
    var t := EncodeThree(a, b, c) + rest;
    assert forall i :: 4 <= i < |t| ==> t[i] == rest[i - 4];
    ThreeFour(a, b, c);
    DecodeStep(a / 4, a % 4 * 16 + b / 16, b % 16 * 4 + c / 64, c % 64, rest);
  }

  lemma EncodeOne(a: Byte)
    ensures a / 4 < 64 && a % 4 * 16 < 64
    ensures Encode([a]) == [CharOf(a / 4), CharOf(a % 4 * 16), PAD, PAD]
  {
  }

  lemma OneOctet(a: Byte)
    ensures Decode(Encode([a])) == Some([a]) && OneOctetTail(Encode([a]), 0)
  {
    var p, q := a / 4, a % 4 * 16;
    EncodeOne(a);
    PaddedOctet(p, q);
    assert [p * 4 + q / 16] == [a];
  }

  lemma PaddedOctet(p: Sextet, q: Sextet)
    ensures Decode([CharOf(p), CharOf(q), PAD, PAD]) == Some([p * 4 + q / 16])
    ensures q % 16 == 0 ==> OneOctetTail([CharOf(p), CharOf(q), PAD, PAD], 0)
  {
  }

  lemma {:induction false} DecodeAfterEncode(bs: Bytes, k: nat)
    requires |bs| == 3 * k + 1
    ensures Decode(Encode(bs)) == Some(bs) && OneOctetTail(Encode(bs), k)
  {
    if k == 0 {
      assert bs == [bs[0]];
      OneOctet(bs[0]);
    } else {
      var a, b, c, rest := bs[0], bs[1], bs[2], bs[3..];
      assert bs == [a, b, c] + rest;
      assert Encode(bs) == EncodeThree(a, b, c) + Encode(rest);
      DecodeAfterEncode(rest, k - 1);
      DecodeQuad(a, b, c, Encode(rest), k - 1);
    }
  }

  /**
   A text is accepted exactly when it is the encoding of some 64 octets, and it decodes
   to those octets: encoding after decoding is the identity and no two accepted texts
   decode alike (section 3.5 of RFC 4648).
   */
  lemma StrictDecoderInvertsEncoder(t: Text, bs: Bytes)
    ensures DecodeStrictSignature(t) == Some(bs) <==> |bs| == 64 && t == Encode(bs)
  {
    if DecodeStrictSignature(t).Some? {
      ShapedTail(t);
      EncodeAfterDecode(t, 21);
    }
    if |bs| == 64 {
      DecodeAfterEncode(bs, 21);
      TailShaped(Encode(bs));
    }
  }

  lemma ShapedTail(t: Text)
    requires SignatureShaped(t) && SextetOf(t[85]).value % 16 == 0
    ensures OneOctetTail(t, 21)
  {
  }

  lemma TailShaped(t: Text)
    requires OneOctetTail(t, 21)
    ensures SignatureShaped(t) && SextetOf(t[85]).value % 16 == 0
  {
  }

  /** The plain decoder is not enough: it maps different texts to the same octets. */
  lemma PlainDecoderAcceptsUnusedBits()
    ensures Decode(Lit("AA==")) == Decode(Lit("AB==")) == Some([0])
  {
  }

  lemma TwoOctets(a: Byte, b: Byte)
    ensures Decode(Encode([a, b])) == Some([a, b])
  {
    var p, q, r := a / 4, a % 4 * 16 + b / 16, b % 16 * 4;
    assert Encode([a, b]) == [CharOf(p), CharOf(q), CharOf(r), PAD];
    assert q / 16 == a % 4 && q % 16 == b / 16 && r / 4 == b % 16;
    assert [p * 4 + q / 16, q % 16 * 16 + r / 4] == [a, b];
  }

  lemma ThreeOctets(a: Byte, b: Byte, c: Byte, rest: Text)
    requires Decode(rest).Some?
    ensures Decode(EncodeThree(a, b, c) + rest) == Some([a, b, c] + Decode(rest).value)
  {
    ThreeFour(a, b, c);
    if rest == [] {
      var t := EncodeThree(a, b, c);
      assert t + rest == t && t[4..] == [] && [a, b, c] + [] == [a, b, c];
    } else {
      DecodeStep(a / 4, a % 4 * 16 + b / 16, b % 16 * 4 + c / 64, c % 64, rest);
    }
  }

  /** Decoding inverts encoding, for octets of any number. */
  lemma {:induction false} DecodeInvertsEncode(bs: Bytes)
    ensures Decode(Encode(bs)) == Some(bs)
  {
    if |bs| == 1 {
      OneOctet(bs[0]);
      assert bs == [bs[0]];
    } else if |bs| == 2 {
      TwoOctets(bs[0], bs[1]);
      assert bs == [bs[0], bs[1]];
    } else if bs != [] {
      DecodeInvertsEncode(bs[3..]);
      ThreeOctets(bs[0], bs[1], bs[2], Encode(bs[3..]));
      assert bs == [bs[0], bs[1], bs[2]] + bs[3..];
    }
  }

  // ---------------------------------------------------------------- without padding

  /** `rstrip("=")` */
  function StripPadding(t: Text): Text {
    if t == [] || t[|t| - 1] != PAD then t else StripPadding(t[..|t| - 1])
  }

  function Pads(n: nat): (t: Text)
    ensures |t| == n && forall i :: 0 <= i < n ==> t[i] == PAD
  {
    seq(n, i => PAD)
  }

  /** Padding to a multiple of four characters, as decoders add it. */
  function RestorePadding(t: Text): Text {
    t + Pads((4 - |t| % 4) % 4)
  }

  /** A text of whole quads that ends in exactly `n` padding characters. */
  ghost predicate PaddedBy(t: Text, n: nat) {
    && |t| % 4 == 0 && n <= 2 && n <= |t|
    && (forall i :: |t| - n <= i < |t| ==> t[i] == PAD)
    && (n < |t| ==> t[|t| - n - 1] != PAD)
  }

  lemma {:induction false} EncodePadding(bs: Bytes)
    ensures PaddedBy(Encode(bs), (3 - |bs| % 3) % 3)
  {
    if |bs| >= 3 {
      var head, tail := EncodeThree(bs[0], bs[1], bs[2]), Encode(bs[3..]);
      EncodePadding(bs[3..]);
      PaddedAfter(head, tail, (3 - |bs| % 3) % 3);
    }
  }

  lemma PaddedAfter(head: Text, tail: Text, n: nat)
    requires |head| == 4 && head[3] != PAD && PaddedBy(tail, n)
    ensures PaddedBy(head + tail, n)
  {
    var t := head + tail;
    assert forall i :: 4 <= i < |t| ==> t[i] == tail[i - 4];
  }

  lemma {:induction false} StripPads(t: Text, n: nat)
    requires n <= |t| && (forall i :: |t| - n <= i < |t| ==> t[i] == PAD)
    requires n < |t| ==> t[|t| - n - 1] != PAD
    ensures StripPadding(t) == t[..|t| - n]
  {
    if n > 0 {
      StripPads(t[..|t| - 1], n - 1);
      assert t[..|t| - 1][..|t| - n] == t[..|t| - n];
    }
  }

  /** Stripping the padding of an encoding loses nothing. */
  lemma RestoreAfterStrip(bs: Bytes)
    ensures RestorePadding(StripPadding(Encode(bs))) == Encode(bs)
  {
    EncodePadding(bs);
    RestorePads(Encode(bs), (3 - |bs| % 3) % 3);
    StripPads(Encode(bs), (3 - |bs| % 3) % 3);
  }

  lemma MissingPads(length: nat, n: nat)
    requires length % 4 == 0 && n <= 2 && n <= length
    ensures (4 - (length - n) % 4) % 4 == n
  {
    assert length == length / 4 * 4;
  }

  lemma RestorePads(t: Text, n: nat)
    requires PaddedBy(t, n)
    ensures RestorePadding(t[..|t| - n]) == t
  {
    MissingPads(|t|, n);
    assert t == t[..|t| - n] + Pads(n);
  }

  /** The strict decoder takes no unpadded text. */
  lemma UnpaddedIsRefused(t: Text)
    ensures DecodeStrictSignature(StripPadding(t)).None?
  {
    StripEndsBare(t);
  }

  lemma {:induction false} StripEndsBare(t: Text)
    ensures StripPadding(t) == [] || StripPadding(t)[|StripPadding(t)| - 1] != PAD
  {
    if t != [] && t[|t| - 1] == PAD {
      StripEndsBare(t[..|t| - 1]);
    }
  }
}
