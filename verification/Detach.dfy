/**
 * The detach key (crates/cli/src/attach_loop.rs): a prefix byte is held back until the byte after
 * it shows whether the user is leaving.
 */
module Detach {
  import opened Common

  predicate IsDetachKey(b: Byte) {
    b == 'd' as int || b == 'D' as int
  }

  /** What was forwarded, whether a prefix is held, and whether the user has left. */
  datatype Scanned = Scanned(bytes: seq<Byte>, held: bool, detached: bool)

  function Next(prefix: Byte, s: Scanned, b: Byte): Scanned {
    if s.detached then s
    else if s.held then
      if IsDetachKey(b) then Scanned(s.bytes, false, true) else Scanned(s.bytes + [prefix, b], false, false)
    else if b == prefix then s.(held := true)
    else s.(bytes := s.bytes + [b])
  }

  function Scan(prefix: Byte, s: Scanned, input: seq<Byte>): Scanned {
    if input == [] then s else Next(prefix, Scan(prefix, s, input[..|input| - 1]), input[|input| - 1])
  }

  // ---------------------------------------------------------------------- what it means

  /** The input as the user typed it: a prefix held earlier comes first. */
  function Typed(prefix: Byte, held: bool, input: seq<Byte>): seq<Byte> {
    if held then [prefix] + input else input
  }

  /** How many prefix bytes stand directly before position `k`. */
  function RunBefore(prefix: Byte, typed: seq<Byte>, k: nat): nat
    requires k <= |typed|
  {
    if k == 0 || typed[k - 1] != prefix then 0 else 1 + RunBefore(prefix, typed, k - 1)
  }

  /** A prefix that is not itself the byte after a prefix. */
  predicate ArmedAt(prefix: Byte, typed: seq<Byte>, k: nat) {
    k < |typed| && typed[k] == prefix && RunBefore(prefix, typed, k) % 2 == 0
  }

  predicate DetachesAt(prefix: Byte, typed: seq<Byte>, k: nat) {
    ArmedAt(prefix, typed, k) && k + 1 < |typed| && IsDetachKey(typed[k + 1])
  }

  /** The user leaves at the first armed prefix with a detach key after it. */
  predicate FirstDetach(prefix: Byte, typed: seq<Byte>, k: nat) {
    DetachesAt(prefix, typed, k) && forall j: nat :: j < k ==> !DetachesAt(prefix, typed, j)
  }

  ghost predicate Means(prefix: Byte, s: Scanned, typed: seq<Byte>) {
    if s.detached then
      !s.held && FirstDetach(prefix, typed, |s.bytes|) && s.bytes == typed[..|s.bytes|]
    else
      && typed == s.bytes + (if s.held then [prefix] else [])
      && (s.held <==> typed != [] && ArmedAt(prefix, typed, |typed| - 1))
      && forall k: nat :: !DetachesAt(prefix, typed, k)
  }

  /** What stands before a position does not depend on what comes after it. */
  lemma {:induction false} RunBeforeSnoc(prefix: Byte, typed: seq<Byte>, b: Byte, k: nat)
    requires k <= |typed|
    ensures RunBefore(prefix, typed + [b], k) == RunBefore(prefix, typed, k)
  {
    if k > 0 && typed[k - 1] == prefix {
      RunBeforeSnoc(prefix, typed, b, k - 1);
    }
  }

  lemma DetachesSnoc(prefix: Byte, typed: seq<Byte>, b: Byte, k: nat)
    requires k + 1 < |typed| || typed == [] || !ArmedAt(prefix, typed, |typed| - 1) || !IsDetachKey(b)
    ensures DetachesAt(prefix, typed + [b], k) <==> DetachesAt(prefix, typed, k)
  {
    if k <= |typed| {
      RunBeforeSnoc(prefix, typed, b, k);
    }
  }

  lemma NextMeans(prefix: Byte, s: Scanned, typed: seq<Byte>, b: Byte)
    requires Means(prefix, s, typed)
    ensures Means(prefix, Next(prefix, s, b), typed + [b])
  {
    var more := typed + [b];
    if s.detached {
      forall k: nat | k <= |s.bytes| ensures DetachesAt(prefix, more, k) <==> DetachesAt(prefix, typed, k) {
        DetachesSnoc(prefix, typed, b, k);
      }
    } else if s.held && IsDetachKey(b) {
      forall k: nat | k < |s.bytes| ensures !DetachesAt(prefix, more, k) {
        DetachesSnoc(prefix, typed, b, k);
      }
      RunBeforeSnoc(prefix, typed, b, |s.bytes|);
    } else {
      forall k: nat ensures !DetachesAt(prefix, more, k) {
        DetachesSnoc(prefix, typed, b, k);
      }
      RunBeforeSnoc(prefix, typed, b, |typed|);
      if typed != [] {
        RunBeforeSnoc(prefix, typed, b, |typed| - 1);
      }
    }
  }

  /**
   * Without a detach, what was forwarded and what is held are the input, unchanged. With one, what
   * was forwarded is the input before the prefix that did it, and it was the first that could.
   */
  lemma {:induction false} ScanMeans(prefix: Byte, held: bool, input: seq<Byte>)
    ensures Means(prefix, Scan(prefix, Scanned([], held, false), input), Typed(prefix, held, input))
  {
    if input != [] {
      var init, last := input[..|input| - 1], input[|input| - 1];
      ScanMeans(prefix, held, init);
      NextMeans(prefix, Scan(prefix, Scanned([], held, false), init), Typed(prefix, held, init), last);
      assert Typed(prefix, held, input) == Typed(prefix, held, init) + [last];
    }
  }

  /** The user leaves exactly when some armed prefix is followed by a detach key. */
  lemma DetachesIff(prefix: Byte, held: bool, input: seq<Byte>)
    ensures Scan(prefix, Scanned([], held, false), input).detached <==>
      exists k: nat :: DetachesAt(prefix, Typed(prefix, held, input), k)
  {
    ScanMeans(prefix, held, input);
  }

  lemma {:induction false} PlainText(prefix: Byte, text: seq<Byte>)
    requires prefix !in text
    ensures Scan(prefix, Scanned([], false, false), text) == Scanned(text, false, false)
  {
    if text != [] {
      PlainText(prefix, text[..|text| - 1]);
      assert text == text[..|text| - 1] + [text[|text| - 1]];
    }
  }

  /** After plain text, the prefix and then a `d` or `D` detach; with any other byte both are forwarded. */
  lemma PrefixThenKey(prefix: Byte, text: seq<Byte>, key: Byte)
    requires prefix !in text
    ensures Scan(prefix, Scanned([], false, false), text + [prefix]) == Scanned(text, true, false)
    ensures Scan(prefix, Scanned([], false, false), text + [prefix, key]) ==
      if key == 0x64 || key == 0x44 then Scanned(text, false, true) else Scanned(text + [prefix, key], false, false)
  {
    PlainText(prefix, text);
    assert (text + [prefix])[..|text|] == text;
    assert (text + [prefix, key])[..|text| + 1] == text + [prefix];
  }

  // ---------------------------------------------------------------------- chunking

  lemma {:induction false} ScanAppend(prefix: Byte, s: Scanned, a: seq<Byte>, b: seq<Byte>)
    ensures Scan(prefix, s, a + b) == Scan(prefix, Scan(prefix, s, a), b)
  {
    if b == [] {
      assert a + b == a;
    } else {
      ScanAppend(prefix, s, a, b[..|b| - 1]);
      assert (a + b)[..|a + b| - 1] == a + b[..|b| - 1];
    }
  }

  /** What was forwarded before does not matter to what follows. */
  lemma {:induction false} ScanFrom(prefix: Byte, s: Scanned, input: seq<Byte>)
    requires !s.detached
    ensures var alone := Scan(prefix, Scanned([], s.held, false), input);
      Scan(prefix, s, input) == alone.(bytes := s.bytes + alone.bytes)
  {
    if input != [] {
      ScanFrom(prefix, s, input[..|input| - 1]);
    }
  }

  lemma {:induction false} ScanDetached(prefix: Byte, s: Scanned, input: seq<Byte>)
    requires s.detached
    ensures Scan(prefix, s, input) == s
  {
    if input != [] {
      ScanDetached(prefix, s, input[..|input| - 1]);
    }
  }

  /** Chunks consumed one by one, none after a detach, with what each call forwarded put together. */
  function ConsumeAll(prefix: Byte, held: bool, chunks: seq<seq<Byte>>): Scanned {
    if chunks == [] then Scanned([], held, false)
    else
      var before := ConsumeAll(prefix, held, chunks[..|chunks| - 1]);
      if before.detached then before
      else
        var last := Scan(prefix, Scanned([], before.held, false), chunks[|chunks| - 1]);
        last.(bytes := before.bytes + last.bytes)
  }

  /** However the input is cut into chunks, the same bytes are forwarded and the user leaves or stays. */
  lemma {:induction false} ChunkingIsIrrelevant(prefix: Byte, held: bool, chunks: seq<seq<Byte>>)
    ensures ConsumeAll(prefix, held, chunks) == Scan(prefix, Scanned([], held, false), Flatten(chunks))
  {
    if chunks != [] {
      var init, last := chunks[..|chunks| - 1], chunks[|chunks| - 1];
      ChunkingIsIrrelevant(prefix, held, init);
      var before := ConsumeAll(prefix, held, init);
      ScanAppend(prefix, Scanned([], held, false), Flatten(init), last);
      if before.detached {
        ScanDetached(prefix, before, last);
      } else {
        ScanFrom(prefix, before, last);
      }
    }
  }

  class DetachState {
    const prefixByte: Byte
    var prefixHeld: bool

    constructor (prefixByte: Byte)
      ensures this.prefixByte == prefixByte && !prefixHeld
    {
      this.prefixByte := prefixByte;
      prefixHeld := false;
    }

    method Consume(input: seq<Byte>) returns (bytes: seq<Byte>, shouldDetach: bool)
      modifies this
      ensures Scanned(bytes, prefixHeld, shouldDetach) == Scan(prefixByte, Scanned([], old(prefixHeld), false), input)
    {
      bytes := [];
      for i := 0 to |input|
        invariant Scanned(bytes, prefixHeld, false) == Scan(prefixByte, Scanned([], old(prefixHeld), false), input[..i])
      {
        var byte := input[i];
        ghost var start := Scanned([], old(prefixHeld), false);
        assert input[..i + 1] == input[..i] + [byte] && input[..i + 1][..i] == input[..i];
        if prefixHeld {
          prefixHeld := false;
          if IsDetachKey(byte) {
            ScanAppend(prefixByte, start, input[..i + 1], input[i + 1..]);
            ScanDetached(prefixByte, Scan(prefixByte, start, input[..i + 1]), input[i + 1..]);
            assert input == input[..i + 1] + input[i + 1..];
            return bytes, true;
          }
          bytes := bytes + [prefixByte];
          bytes := bytes + [byte];
        } else if byte == prefixByte {
          prefixHeld := true;
        } else {
          bytes := bytes + [byte];
        }
      }
      assert input[..|input|] == input;
      shouldDetach := false;
    }
  }
}
