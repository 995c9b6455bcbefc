/**
 UTF-8 (section 4 of RFC 3629) and the contract of the standard library's UTF-8 check,
 which the terminal decoder relies on.

 `Encode` is the only definition of what a well-formed sequence is. `First` classifies the
 front of a byte string by the byte ranges of the RFC's grammar; `FirstMeaning` says what the
 classification means in terms of `Encode` alone, including the "maximal subpart" of section
 3.9 of the Unicode Standard, which is what one U+FFFD replaces.
 */
module Utf8 {
  import opened Sequences
  import opened Wrappers

  type Byte = b: int | 0 <= b < 256
  type Scalar = v: int | 0 <= v < 0xD800 || 0xE000 <= v < 0x110000
  type Text = seq<Scalar>

  const REPLACEMENT: Scalar := 0xFFFD

  function Encode(v: Scalar): (m: seq<Byte>)
    ensures 1 <= |m| <= 4
  {
    var high := v / 64;
    if v < 0x80 then [v]
    else if v < 0x800 then [0xC0 + high, 0x80 + v % 64]
    else if v < 0x10000 then [0xE0 + high / 64, 0x80 + high % 64, 0x80 + v % 64]
    else [0xF0 + high / 64 / 64, 0x80 + high / 64 % 64, 0x80 + high % 64, 0x80 + v % 64]
  }

  function EncodeText(t: Text): seq<Byte> {
    if t == [] then [] else Encode(t[0]) + EncodeText(t[1..])
  }

  /** `s` is cut inside a well-formed sequence: more bytes could complete it. */
  ghost predicate IsProperPrefix(s: seq<Byte>) {
    exists v: Scalar :: s < Encode(v)
  }

  /** What a byte string starts with. */
  datatype Unit =
    | Char(v: Scalar, len: nat)  // a well-formed sequence of `len` bytes
    | Malformed(len: nat)        // `len` bytes that one U+FFFD replaces
    | Truncated                  // the end of input came inside a possible sequence

  predicate IsContinuation(b: Byte) {
    0x80 <= b <= 0xBF
  }

  /** The length announced by a lead byte; 0 when no sequence starts with it. */
  function Announced(b: Byte): nat {
    if b < 0x80 then 1
    else if 0xC2 <= b <= 0xDF then 2
    else if 0xE0 <= b <= 0xEF then 3
    else if 0xF0 <= b <= 0xF4 then 4
    else 0
  }

  predicate SecondAllowed(lead: Byte, b: Byte) {
    match lead
    case 0xE0 => 0xA0 <= b <= 0xBF
    case 0xED => 0x80 <= b <= 0x9F
    case 0xF0 => 0x90 <= b <= 0xBF
    case 0xF4 => 0x80 <= b <= 0x8F
    case _ => IsContinuation(b)
  }

  /** The bits a sequence of two, three or four bytes carries. */
  function Bits2(a: Byte, b: Byte): int {
    (a - 0xC0) * 64 + (b - 0x80)
  }

  function Bits3(a: Byte, b: Byte, c: Byte): int {
    ((a - 0xE0) * 64 + (b - 0x80)) * 64 + (c - 0x80)
  }

  function Bits4(a: Byte, b: Byte, c: Byte, d: Byte): int {
    (((a - 0xF0) * 64 + (b - 0x80)) * 64 + (c - 0x80)) * 64 + (d - 0x80)
  }

  /** Classifies the front of the input. */
  function First(s: seq<Byte>): (u: Unit)
    requires s != []
    ensures !u.Truncated? ==> 1 <= u.len <= |s|
    ensures u.Truncated? ==> |s| <= 3
  {
    var need := Announced(s[0]);
    if need == 0 then Malformed(1)
    else if need == 1 then Char(s[0], 1)
    else if |s| == 1 then Truncated
    else if !SecondAllowed(s[0], s[1]) then Malformed(1)
    else if need == 2 then Char(Bits2(s[0], s[1]), 2)
    else if |s| == 2 then Truncated
    else if !IsContinuation(s[2]) then Malformed(2)
    else if need == 3 then Char(Bits3(s[0], s[1], s[2]), 3)
    else if |s| == 3 then Truncated
    else if !IsContinuation(s[3]) then Malformed(3)
    else Char(Bits4(s[0], s[1], s[2], s[3]), 4)
  }

  /** A well-formed sequence is recognised whatever follows it. */
  lemma FirstOfEncoding(v: Scalar, rest: seq<Byte>)
    ensures First(Encode(v) + rest) == Char(v, |Encode(v)|)
  {
    var m := Encode(v);
    var s := m + rest;
    assert s[..|m|] == m;
    assert forall i :: 0 <= i < |m| ==> s[i] == m[i];
  }

  lemma Encode2(a: Byte, b: Byte)
    requires Announced(a) == 2 && IsContinuation(b)
    ensures var v := Bits2(a, b); 0x80 <= v < 0x800 && Encode(v) == [a, b]
  {
  }

  lemma Encode3(a: Byte, b: Byte, c: Byte)
    requires Announced(a) == 3 && SecondAllowed(a, b) && IsContinuation(c)
    ensures var v := Bits3(a, b, c);
            0x800 <= v < 0x10000 && !(0xD800 <= v < 0xE000) && Encode(v) == [a, b, c]
  {
    assert Bits3(a, b, c) / 64 == (a - 0xE0) * 64 + (b - 0x80);
  }

  lemma Encode4(a: Byte, b: Byte, c: Byte, d: Byte)
    requires Announced(a) == 4 && SecondAllowed(a, b) && IsContinuation(c) && IsContinuation(d)
    ensures var v := Bits4(a, b, c, d); 0x10000 <= v < 0x110000 && Encode(v) == [a, b, c, d]
  {
    var high := Bits4(a, b, c, d) / 64;
    assert high == ((a - 0xF0) * 64 + (b - 0x80)) * 64 + (c - 0x80);
    assert high / 64 == (a - 0xF0) * 64 + (b - 0x80);
  }

  /** A recognised sequence is the encoding of the scalar it yields. */
  lemma CharIsEncoding(s: seq<Byte>)
    requires s != [] && First(s).Char?
    ensures s[..First(s).len] == Encode(First(s).v)
  {
    match First(s).len
    case 1 =>
    case 2 => Encode2(s[0], s[1]);
    case 3 => Encode3(s[0], s[1], s[2]);
    case 4 => Encode4(s[0], s[1], s[2], s[3]);
  }

  /** Input that ends inside an allowed sequence can be completed to a well-formed one. */
  lemma TruncatedIsPrefix(s: seq<Byte>)
    requires s != [] && First(s).Truncated?
    ensures IsProperPrefix(s)
  {
    var second := match s[0] case 0xE0 => 0xA0 case 0xF0 => 0x90 case _ => 0x80;
    var padded := if |s| == 1 then s + [second, 0x80, 0x80] else s + [0x80, 0x80];
    CharIsEncoding(padded);
    var u := First(padded);
    assert s == padded[..|s|] == Encode(u.v)[..|s|];
    assert s < Encode(u.v);
  }

  /** Conversely, every proper prefix of an encoding is reported as truncated. */
  lemma PrefixIsTruncated(s: seq<Byte>, v: Scalar)
    requires s != [] && s < Encode(v)
    ensures First(s).Truncated?
  {
    assert forall i :: 0 <= i < |s| ==> s[i] == Encode(v)[i];
  }

  /** Bytes of a malformed unit beyond the first are still a possible beginning; more are not. */
  lemma MalformedFront(s: seq<Byte>, k: nat)
    requires s != [] && First(s).Malformed?
    requires First(s).len <= k <= |s|
    ensures k == First(s).len && k > 1 ==> First(s[..k]).Truncated?
    ensures k > First(s).len ==> !First(s[..k]).Truncated?
  {
    assert forall i :: 0 <= i < k ==> s[..k][i] == s[i];
  }

  /** A `Char` is exactly an encoding at the front. */
  lemma CharMeaning(s: seq<Byte>, v: Scalar)
    requires s != []
    ensures Encode(v) <= s <==> First(s) == Char(v, |Encode(v)|)
  {
    hide First, Encode;
    if Encode(v) <= s {
      assert s == Encode(v) + s[|Encode(v)|..];
      FirstOfEncoding(v, s[|Encode(v)|..]);
    }
    if First(s).Char? {
      CharIsEncoding(s);
    }
  }

  /** `Truncated` is exactly "all of `s` is a proper prefix of an encoding". */
  lemma TruncatedMeaning(s: seq<Byte>)
    requires s != []
    ensures First(s).Truncated? <==> IsProperPrefix(s)
  {
    hide First, Encode;
    if First(s).Truncated? {
      TruncatedIsPrefix(s);
    }
    if IsProperPrefix(s) {
      var v: Scalar :| s < Encode(v);
      PrefixIsTruncated(s, v);
    }
  }

  /** The malformed unit is the longest front that begins an encoding, or one byte when none does. */
  lemma MalformedMeaning(s: seq<Byte>)
    requires s != [] && First(s).Malformed?
    ensures First(s).len == 1 || IsProperPrefix(s[..First(s).len])
    ensures forall k :: First(s).len < k <= |s| ==> !IsProperPrefix(s[..k])
  {
    hide First, Encode, IsProperPrefix;
    var n := First(s).len;
    MalformedFront(s, n);
    TruncatedMeaning(s[..n]);
    forall k | n < k <= |s|
      ensures !IsProperPrefix(s[..k])
    {
      MalformedFront(s, k);
      TruncatedMeaning(s[..k]);
    }
  }

  /** The classification in terms of `Encode` alone. */
  lemma FirstMeaning(s: seq<Byte>)
    requires s != []
    ensures forall v: Scalar :: Encode(v) <= s <==> First(s) == Char(v, |Encode(v)|)
    ensures First(s).Truncated? <==> IsProperPrefix(s)
    ensures First(s).Malformed? ==>
              && (First(s).len == 1 || IsProperPrefix(s[..First(s).len]))
              && forall k :: First(s).len < k <= |s| ==> !IsProperPrefix(s[..k])
  {
    hide First, Encode, IsProperPrefix;
    forall v: Scalar
      ensures Encode(v) <= s <==> First(s) == Char(v, |Encode(v)|)
    {
      CharMeaning(s, v);
    }
    TruncatedMeaning(s);
    if First(s).Malformed? {
      MalformedMeaning(s);
    }
  }

  /** A decided front does not depend on the bytes behind it. */
  lemma FirstIsLocal(s: seq<Byte>, t: seq<Byte>)
    requires s != [] && !First(s).Truncated?
    ensures First(s + t) == First(s)
  {
    assert forall i :: 0 <= i < |s| ==> (s + t)[i] == s[i];
  }

  lemma FirstIsLocalBack(s: seq<Byte>, n: nat)
    requires s != [] && First(s).Char? && First(s).len <= n <= |s|
    ensures First(s[..n]) == First(s)
  {
    assert forall i :: 0 <= i < n ==> s[..n][i] == s[i];
  }

  /** What a decided unit contributes to the text. */
  function Shown(u: Unit): Scalar
    requires !u.Truncated?
  {
    if u.Char? then u.v else REPLACEMENT
  }

  /** Lossy decoding of a complete byte string. */
  function Lossy(s: seq<Byte>): Text {
    if s == [] then []
    else if First(s).Truncated? then [REPLACEMENT]
    else [Shown(First(s))] + Lossy(s[First(s).len..])
  }

  /** Lossy decoding that stops before a cut sequence at the end ... */
  function Decided(s: seq<Byte>): Text {
    if s == [] || First(s).Truncated? then []
    else [Shown(First(s))] + Decided(s[First(s).len..])
  }

  /** ... and that sequence, which later bytes may complete. */
  function Leftover(s: seq<Byte>): seq<Byte> {
    if s == [] || First(s).Truncated? then s else Leftover(s[First(s).len..])
  }

  lemma DecidedStep(s: seq<Byte>)
    requires s != [] && !First(s).Truncated?
    ensures Decided(s) == [Shown(First(s))] + Decided(s[First(s).len..])
    ensures Lossy(s) == [Shown(First(s))] + Lossy(s[First(s).len..])
    ensures Leftover(s) == Leftover(s[First(s).len..])
  {
  }

  /** What is left over is empty or the beginning of one sequence, so at most three bytes. */
  lemma {:induction false} LeftoverIsShort(s: seq<Byte>)
    ensures var r := Leftover(s);
            && |r| <= 3 && |r| <= |s| && r == s[|s| - |r|..]
            && (r == [] || IsProperPrefix(r))
    decreases |s|
  {
    if s == [] {
    } else if First(s).Truncated? {
      TruncatedIsPrefix(s);
    } else {
      LeftoverIsShort(s[First(s).len..]);
    }
  }

  lemma {:induction false} LossySplits(s: seq<Byte>)
    ensures Lossy(s) == Decided(s) + if Leftover(s) == [] then [] else [REPLACEMENT]
    decreases |s|
  {
    if s == [] || First(s).Truncated? {
    } else {
      LossySplits(s[First(s).len..]);
    }
  }

  lemma DecidedEnd(s: seq<Byte>)
    requires s == [] || First(s).Truncated?
    ensures Decided(s) == [] && Leftover(s) == s
  {
  }

  /** The decoding of the decided part and of the leftover can be resumed with any more bytes. */
  lemma {:induction false} ResumeDecided(s: seq<Byte>, t: seq<Byte>)
    ensures Decided(s + t) == Decided(s) + Decided(Leftover(s) + t)
    ensures Leftover(s + t) == Leftover(Leftover(s) + t)
    decreases |s|
  {
    hide First, Decided, Leftover;
    if s == [] || First(s).Truncated? {
      DecidedEnd(s);
      assert [] + Decided(s + t) == Decided(s + t);
    } else {
      var rest := s[First(s).len..];
      FirstIsLocal(s, t);
      DecidedStep(s);
      DecidedStep(s + t);
      assert (s + t)[First(s).len..] == rest + t;
      ResumeDecided(rest, t);
      Assoc([Shown(First(s))], Decided(rest), Decided(Leftover(rest) + t));
    }
  }

  /** Decoding may stop and resume at any byte: nothing about the cut can be observed. */
  lemma Resume(s: seq<Byte>, t: seq<Byte>)
    ensures Lossy(s + t) == Decided(s) + Lossy(Leftover(s) + t)
    ensures Decided(s + t) == Decided(s) + Decided(Leftover(s) + t)
    ensures Leftover(s + t) == Leftover(Leftover(s) + t)
  {
    ResumeDecided(s, t);
    LossySplits(s + t);
    LossySplits(Leftover(s) + t);
  }

  /** Decoding undoes encoding, with nothing left over. */
  lemma {:induction false} DecodeEncode(t: Text)
    ensures Lossy(EncodeText(t)) == Decided(EncodeText(t)) == t
    ensures Leftover(EncodeText(t)) == []
  {
    hide First, Encode;
    if t == [] {
    } else {
      var m, rest := Encode(t[0]), EncodeText(t[1..]);
      FirstOfEncoding(t[0], rest);
      assert (m + rest)[|m|..] == rest;
      DecidedStep(m + rest);
      DecodeEncode(t[1..]);
      assert t == [t[0]] + t[1..];
    }
  }

  // ---------------------------------------------------------------- the library's check

  /** `Ok`, or how far the input is valid and how many bytes are wrong there (None: input ended). */
  datatype Check = Valid | Invalid(validUpTo: nat, errorLen: Option<nat>)

  function FromUtf8(s: seq<Byte>): (c: Check)
    ensures c.Invalid? ==> c.validUpTo < |s|
    ensures c.Invalid? && c.errorLen.Some? ==> 0 < c.errorLen.value && c.validUpTo + c.errorLen.value <= |s|
  {
    if s == [] then Valid
    else match First(s)
      case Char(_, n) =>
        (match FromUtf8(s[n..])
         case Valid => Valid
         case Invalid(k, e) => Invalid(n + k, e))
      case Malformed(n) => Invalid(0, Some(n))
      case Truncated => Invalid(0, None)
  }

  /** The characters of a valid byte string. */
  function Chars(s: seq<Byte>): Text
    requires FromUtf8(s).Valid?
  {
    if s == [] then [] else [First(s).v] + Chars(s[First(s).len..])
  }

  /** Valid input decodes to its characters with nothing left over, and re-encodes to itself. */
  lemma {:induction false} ValidDecodes(s: seq<Byte>)
    requires FromUtf8(s).Valid?
    ensures Lossy(s) == Decided(s) == Chars(s) && Leftover(s) == []
    ensures EncodeText(Chars(s)) == s
  {
    ValidReencodes(s);
    DecodeEncode(Chars(s));
  }

  lemma {:induction false} ValidReencodes(s: seq<Byte>)
    requires FromUtf8(s).Valid?
    ensures EncodeText(Chars(s)) == s
    decreases |s|
  {
    hide First, Encode;
    if s == [] {
    } else {
      var n := First(s).len;
      CharIsEncoding(s);
      ValidReencodes(s[n..]);
      EncodeCons(First(s).v, Chars(s[n..]));
      assert s == s[..n] + s[n..];
    }
  }

  lemma EncodeCons(v: Scalar, t: Text)
    ensures EncodeText([v] + t) == Encode(v) + EncodeText(t)
  {
    assert ([v] + t)[1..] == t;
  }

  /** Valid means exactly: the encoding of some text. */
  lemma {:induction false} ValidIffEncoded(s: seq<Byte>)
    ensures FromUtf8(s).Valid? <==> exists t: Text :: EncodeText(t) == s
  {
    if FromUtf8(s).Valid? {
      ValidReencodes(s);
    }
    forall t: Text | EncodeText(t) == s
      ensures FromUtf8(s).Valid?
    {
      EncodedIsValid(t);
    }
  }

  lemma {:induction false} EncodedIsValid(t: Text)
    ensures FromUtf8(EncodeText(t)).Valid?
  {
    if t == [] {
    } else {
      var m, rest := Encode(t[0]), EncodeText(t[1..]);
      FirstOfEncoding(t[0], rest);
      assert (m + rest)[|m|..] == rest;
      EncodedIsValid(t[1..]);
    }
  }

  /** A reported error sits right behind the valid part. */
  lemma {:induction false} ErrorFollowsValid(s: seq<Byte>)
    requires FromUtf8(s).Invalid?
    ensures var k, e := FromUtf8(s).validUpTo, FromUtf8(s).errorLen;
            && FromUtf8(s[..k]).Valid?
            && First(s[k..]) == if e.Some? then Malformed(e.value) else Truncated
    decreases |s|
  {
    hide First;
    if First(s).Char? {
      var n := First(s).len;
      var rest := s[n..];
      ErrorFollowsValid(rest);
      var k := FromUtf8(rest).validUpTo;
      var front := s[..n + k];
      FirstIsLocalBack(s, n + k);
      assert front[n..] == rest[..k];
      assert FromUtf8(front).Valid?;
      assert s[n + k..] == rest[k..];
    } else {
      assert s[0..] == s;
    }
  }
}
