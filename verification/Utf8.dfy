/**
 * UTF-8 (RFC 3629) and its lossy decoding as Rust's `String::from_utf8_lossy` does it: every maximal
 * part of a broken sequence becomes one U+FFFD (section 3.9 of the Unicode standard).
 */
module Utf8 {
  import opened Common

  const REPLACEMENT: char := '\U{FFFD}'

  /** How many bytes a sequence has that starts with this byte; 0 if none does. */
  function Width(first: Byte): nat {
    if first < 0x80 then 1
    else if 0xC2 <= first < 0xE0 then 2
    else if 0xE0 <= first < 0xF0 then 3
    else if 0xF0 <= first < 0xF5 then 4
    else 0
  }

  predicate IsContinuation(b: Byte) {
    0x80 <= b < 0xC0
  }

  /** Second bytes exclude overlong forms, surrogates and what lies beyond U+10FFFF. */
  predicate MayFollow(first: Byte, second: Byte) {
    && IsContinuation(second)
    && (first == 0xE0 ==> 0xA0 <= second)
    && (first == 0xED ==> second < 0xA0)
    && (first == 0xF0 ==> 0x90 <= second)
    && (first == 0xF4 ==> second < 0x90)
  }

  /** How many of the first bytes go together, up to the whole sequence. */
  function Matching(bytes: seq<Byte>): (n: nat)
    requires bytes != []
    ensures n <= |bytes| && n <= Width(bytes[0]) && n <= 4
  {
    var width := Width(bytes[0]);
    if width == 0 then 0
    else if width == 1 || |bytes| == 1 || !MayFollow(bytes[0], bytes[1]) then 1
    else if width == 2 || |bytes| == 2 || !IsContinuation(bytes[2]) then 2
    else if width == 3 || |bytes| == 3 || !IsContinuation(bytes[3]) then 3
    else 4
  }

  /** The bytes start with a complete sequence. */
  predicate WellFormed(bytes: seq<Byte>)
    requires bytes != []
  {
    Matching(bytes) == Width(bytes[0]) > 0
  }

  /** How far decoding the first character goes. */
  function HeadLength(bytes: seq<Byte>): (n: nat)
    requires bytes != []
    ensures 1 <= n <= |bytes|
  {
    Max(1, Matching(bytes))
  }

  /** What a continuation byte adds to the bits before it. */
  function Shifted(bits: int, b: Byte): int {
    bits * 0x40 + (b as int - 0x80)
  }

  function CodePoint(bytes: seq<Byte>): (u: int)
    requires bytes != [] && WellFormed(bytes)
    ensures 0 <= u < 0xD800 || 0xE000 <= u < 0x11_0000
  {
    var width, first := Width(bytes[0]), bytes[0] as int;
    if width == 1 then first
    else if width == 2 then Shifted(first - 0xC0, bytes[1])
    else if width == 3 then Shifted(Shifted(first - 0xE0, bytes[1]), bytes[2])
    else Shifted(Shifted(Shifted(first - 0xF0, bytes[1]), bytes[2]), bytes[3])
  }

  function HeadChar(bytes: seq<Byte>): char
    requires bytes != []
  {
    if WellFormed(bytes) then CodePoint(bytes) as char else REPLACEMENT
  }

  function DecodeLossy(bytes: seq<Byte>): string {
    if bytes == [] then "" else [HeadChar(bytes)] + DecodeLossy(bytes[HeadLength(bytes)..])
  }

  /** The continuation byte for the last six bits. */
  function Continuation(bits: nat): Byte {
    0x80 + bits % 0x40
  }

  function EncodeChar(c: char): (bytes: seq<Byte>)
    ensures bytes != []
  {
    var u := c as int;
    if u < 0x80 then [u]
    else if u < 0x800 then [0xC0 + u / 0x40, Continuation(u)]
    else if u < 0x1_0000 then [0xE0 + u / 0x40 / 0x40, Continuation(u / 0x40), Continuation(u)]
    else [0xF0 + u / 0x40 / 0x40 / 0x40, Continuation(u / 0x40 / 0x40), Continuation(u / 0x40), Continuation(u)]
  }

  function Encode(text: string): seq<Byte> {
    if text == "" then [] else EncodeChar(text[0]) + Encode(text[1..])
  }

  /** An encoded character is decoded first, whatever follows it. */
  lemma HeadOfEncoded(c: char, rest: seq<Byte>)
    ensures var bytes := EncodeChar(c) + rest;
      && WellFormed(bytes) && HeadLength(bytes) == |EncodeChar(c)| && HeadChar(bytes) == c
      && DecodeLossy(bytes) == [c] + DecodeLossy(rest)
  {
    var bytes := EncodeChar(c) + rest;
    assert forall i :: 0 <= i < |EncodeChar(c)| ==> bytes[i] == EncodeChar(c)[i];
    assert bytes[|EncodeChar(c)|..] == rest;
  }

  lemma ShiftedBack(bits: nat, b: Byte)
    requires IsContinuation(b)
    ensures Shifted(bits, b) >= 0 && Shifted(bits, b) / 0x40 == bits && Continuation(Shifted(bits, b)) == b
  {
  }

  lemma TwoEncode(c: char, first: Byte, second: Byte)
    requires Width(first) == 2 && MayFollow(first, second) && c as int == Shifted(first as int - 0xC0, second)
    ensures EncodeChar(c) == [first, second]
  {
    ShiftedBack(first as int - 0xC0, second);
  }

  lemma ThreeRange(first: Byte, second: Byte, third: Byte)
    requires Width(first) == 3 && MayFollow(first, second) && IsContinuation(third)
    ensures 0x800 <= Shifted(Shifted(first as int - 0xE0, second), third) < 0x1_0000
  {
  }

  lemma ThreeEncode(c: char, first: Byte, second: Byte, third: Byte)
    requires Width(first) == 3 && MayFollow(first, second) && IsContinuation(third)
    requires c as int == Shifted(Shifted(first as int - 0xE0, second), third)
    ensures EncodeChar(c) == [first, second, third]
  {
    var v := Shifted(first as int - 0xE0, second);
    ShiftedBack(first as int - 0xE0, second);
    ShiftedBack(v, third);
    ThreeRange(first, second, third);
  }

  lemma FourRange(first: Byte, second: Byte, third: Byte, fourth: Byte)
    requires Width(first) == 4 && MayFollow(first, second) && IsContinuation(third) && IsContinuation(fourth)
    ensures 0x1_0000 <= Shifted(Shifted(Shifted(first as int - 0xF0, second), third), fourth) < 0x11_0000
  {
  }

  lemma FourEncode(c: char, first: Byte, second: Byte, third: Byte, fourth: Byte)
    requires Width(first) == 4 && MayFollow(first, second) && IsContinuation(third) && IsContinuation(fourth)
    requires c as int == Shifted(Shifted(Shifted(first as int - 0xF0, second), third), fourth)
    ensures EncodeChar(c) == [first, second, third, fourth]
  {
    var w := Shifted(first as int - 0xF0, second);
    var v := Shifted(w, third);
    ShiftedBack(first as int - 0xF0, second);
    ShiftedBack(w, third);
    ShiftedBack(v, fourth);
    FourRange(first, second, third, fourth);
  }

  /** The first character of the bytes is encoded as their first `n` bytes. */
  predicate EncodesTo(bytes: seq<Byte>, n: nat)
    requires bytes != [] && n <= |bytes|
  {
    EncodeChar(HeadChar(bytes)) == bytes[..n]
  }

  lemma EncodeHead(bytes: seq<Byte>)
    requires bytes != [] && WellFormed(bytes)
    ensures EncodesTo(bytes, HeadLength(bytes))
  {
    var n := HeadLength(bytes);
    if n == 2 {
      TwoEncode(HeadChar(bytes), bytes[0], bytes[1]);
    } else if n == 3 {
      ThreeEncode(HeadChar(bytes), bytes[0], bytes[1], bytes[2]);
    } else if n == 4 {
      FourEncode(HeadChar(bytes), bytes[0], bytes[1], bytes[2], bytes[3]);
    }
  }

  lemma Rejoin(bytes: seq<Byte>, n: nat, c: char)
    requires n <= |bytes| && EncodeChar(c) == bytes[..n]
    ensures bytes == EncodeChar(c) + bytes[n..]
  {
    assert bytes == bytes[..n] + bytes[n..];
  }

  /** A complete sequence is the encoding of its character. */
  lemma EncodedHead(bytes: seq<Byte>)
    requires bytes != [] && WellFormed(bytes)
    ensures bytes == EncodeChar(HeadChar(bytes)) + bytes[HeadLength(bytes)..]
  {
    EncodeHead(bytes);
    Rejoin(bytes, HeadLength(bytes), HeadChar(bytes));
  }

  /** Two sequences that start alike match alike. */
  lemma MatchingAlike(a: seq<Byte>, b: seq<Byte>, n: nat)
    requires 0 < n <= |a| && n <= |b| && a[..n] == b[..n] && Matching(a) >= n
    ensures Matching(b) >= n
  {
    assert forall i :: 0 <= i < n ==> a[i] == a[..n][i] == b[..n][i] == b[i];
  }

  /** A part that matches can be completed to a character. */
  lemma Completed(bytes: seq<Byte>, n: nat) returns (c: char)
    requires bytes != [] && 2 <= n == Matching(bytes) < Width(bytes[0])
    ensures bytes[..n] <= EncodeChar(c)
  {
    var whole := bytes[..n] + if Width(bytes[0]) - n == 1 then [0x80] else [0x80, 0x80];
    assert forall i :: 0 <= i < n ==> whole[i] == bytes[i];
    assert WellFormed(whole);
    c := HeadChar(whole);
    EncodeHead(whole);
    assert whole[..HeadLength(whole)] == whole;
  }

  /**
   * What one U+FFFD stands for, when no character starts here, is the longest part that a character
   * could start with, and at least one byte.
   */
  lemma MaximalPart(bytes: seq<Byte>, c: char)
    requires bytes != [] && !WellFormed(bytes)
    ensures HeadLength(bytes) > 1 ==> exists other :: bytes[..HeadLength(bytes)] <= EncodeChar(other)
    ensures HeadLength(bytes) < |bytes| ==> !(bytes[..HeadLength(bytes) + 1] <= EncodeChar(c))
  {
    var n := HeadLength(bytes);
    if n > 1 {
      var other := Completed(bytes, n);
    }
    if n < |bytes| && bytes[..n + 1] <= EncodeChar(c) {
      HeadOfEncoded(c, []);
      assert EncodeChar(c) + [] == EncodeChar(c);
      assert EncodeChar(c)[..n + 1] == bytes[..n + 1];
      MatchingAlike(EncodeChar(c), bytes, n + 1);
    }
  }

  lemma {:induction false} DecodeEncoded(text: string)
    ensures DecodeLossy(Encode(text)) == text
  {
    if text != "" {
      DecodeEncoded(text[1..]);
      HeadOfEncoded(text[0], Encode(text[1..]));
    }
  }

  lemma EncodeInjective(a: string, b: string)
    requires Encode(a) == Encode(b)
    ensures a == b
  {
    DecodeEncoded(a);
    DecodeEncoded(b);
  }

  /** Without U+FFFD the text says which bytes it was decoded from. */
  lemma {:induction false} EncodeDecoded(bytes: seq<Byte>)
    requires REPLACEMENT !in DecodeLossy(bytes)
    ensures Encode(DecodeLossy(bytes)) == bytes
  {
    if bytes != [] {
      var text, rest := DecodeLossy(bytes), bytes[HeadLength(bytes)..];
      assert text[0] == HeadChar(bytes) && text[1..] == DecodeLossy(rest);
      EncodeDecoded(rest);
      EncodedHead(bytes);
    }
  }

  /** With U+FFFD there are other bytes that decode to the same text. */
  lemma {:induction false} Twin(bytes: seq<Byte>) returns (other: seq<Byte>)
    requires REPLACEMENT in DecodeLossy(bytes)
    ensures other != bytes && DecodeLossy(other) == DecodeLossy(bytes)
  {
    var c, rest := HeadChar(bytes), bytes[HeadLength(bytes)..];
    if c != REPLACEMENT {
      EncodedHead(bytes);
      var twin := Twin(rest);
      other := EncodeChar(c) + twin;
      HeadOfEncoded(c, twin);
      assert other[|EncodeChar(c)|..] == twin && bytes[|EncodeChar(c)|..] == rest;
    } else if WellFormed(bytes) {
      EncodedHead(bytes);
      other := [0xFF] + rest;
      assert other[1..] == rest && EncodeChar(c)[0] == bytes[0];
    } else {
      other := EncodeChar(REPLACEMENT) + rest;
      HeadOfEncoded(REPLACEMENT, rest);
    }
  }

  /** The bytes are the only ones that decode to their text. */
  ghost predicate Recoverable(bytes: seq<Byte>) {
    forall other :: DecodeLossy(other) == DecodeLossy(bytes) ==> other == bytes
  }

  lemma RecoverableIff(bytes: seq<Byte>)
    ensures Recoverable(bytes) <==> REPLACEMENT !in DecodeLossy(bytes)
  {
    if REPLACEMENT in DecodeLossy(bytes) {
      var other := Twin(bytes);
      assert DecodeLossy(other) == DecodeLossy(bytes);
    } else {
      forall other | DecodeLossy(other) == DecodeLossy(bytes) ensures other == bytes {
        EncodeDecoded(bytes);
        EncodeDecoded(other);
      }
    }
  }

  /** A stray byte and an encoded U+FFFD look the same. */
  lemma StrayByte()
    ensures DecodeLossy([0xFF]) == DecodeLossy([0xEF, 0xBF, 0xBD]) == [REPLACEMENT]
  {
    HeadOfEncoded(REPLACEMENT, []);
    assert EncodeChar(REPLACEMENT) + [] == [0xEF, 0xBF, 0xBD];
    var stray: seq<Byte> := [0xFF];
    assert stray[HeadLength(stray)..] == [];
  }
}
