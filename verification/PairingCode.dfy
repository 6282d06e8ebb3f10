/** Pairing codes as users type them (crates/protocol/src/code.rs). */
module PairingCode {
  import opened Common

  const CODE_LEN: nat := 7

  /** The alphabet `0123456789ABCDEFGHJKMNPQRSTVWXYZ`. */
  predicate InAlphabet(c: char) {
    '0' <= c <= '9' || ('A' <= c <= 'Z' && c != 'I' && c != 'L' && c != 'O' && c != 'U')
  }

  function AsciiUpper(c: char): char {
    if 'a' <= c <= 'z' then c - 'a' + 'A' else c
  }

  /** Letters that are easily taken for digits become those digits. */
  function Canonical(c: char): char {
    var upper := AsciiUpper(c);
    if upper == 'I' || upper == 'L' then '1' else if upper == 'O' then '0' else upper
  }

  predicate Ignored(c: char) {
    IsWhitespace(c) || c == '-'
  }

  function NormalizeCode(input: string): string {
    if input == [] then []
    else if Ignored(input[0]) then NormalizeCode(input[1..])
    else [Canonical(input[0])] + NormalizeCode(input[1..])
  }

  predicate IsValidCode(code: string) {
    |code| == CODE_LEN && forall i :: 0 <= i < |code| ==> InAlphabet(code[i])
  }

  /** Codes are normalized character by character. */
  lemma {:induction false} NormalizeInParts(a: string, b: string)
    ensures NormalizeCode(a + b) == NormalizeCode(a) + NormalizeCode(b)
  {
    if a == [] {
      assert a + b == b;
    } else {
      NormalizeInParts(a[1..], b);
      assert (a + b)[0] == a[0] && (a + b)[1..] == a[1..] + b;
    }
  }

  /** Dashes and white space go, letters become capitals, and I, L and O the digits they look like. */
  lemma NormalizeOne(c: char)
    ensures NormalizeCode([c]) ==
      if c == '-' || IsWhitespace(c) then ""
      else if c in "iIlL" then "1"
      else if c in "oO" then "0"
      else if 'a' <= c <= 'z' then [c - 'a' + 'A']
      else [c]
  {
    assert [c][1..] == "";
  }

  /** The alphabet is that of Crockford's base 32. */
  lemma AlphabetIs(c: char)
    ensures InAlphabet(c) <==> c in "0123456789ABCDEFGHJKMNPQRSTVWXYZ"
  {
  }

  lemma ValidCodesAre(code: string)
    ensures IsValidCode(code) <==> |code| == 7 && forall i :: 0 <= i < 7 ==> code[i] in "0123456789ABCDEFGHJKMNPQRSTVWXYZ"
  {
    forall i | 0 <= i < |code| ensures InAlphabet(code[i]) <==> code[i] in "0123456789ABCDEFGHJKMNPQRSTVWXYZ" {
      AlphabetIs(code[i]);
    }
  }

  /** Both ends may normalize: doing it again changes nothing. */
  lemma {:induction false} NormalizeTwice(input: string)
    ensures NormalizeCode(NormalizeCode(input)) == NormalizeCode(input)
  {
    if input != [] {
      NormalizeTwice(input[1..]);
      if !Ignored(input[0]) {
        var first, rest := Canonical(input[0]), NormalizeCode(input[1..]);
        assert ([first] + rest)[0] == first && ([first] + rest)[1..] == rest;
      }
    }
  }

  /** The codes that the daemon draws are normal. */
  lemma {:induction false} AlphabetIsNormal(code: string)
    requires forall i :: 0 <= i < |code| ==> InAlphabet(code[i])
    ensures NormalizeCode(code) == code
  {
    if code != [] {
      AlphabetIsNormal(code[1..]);
      assert code == [code[0]] + code[1..];
    }
  }
}
