/**
 * Session names (crates/daemon/src/ipc.rs): what a requested name becomes, and the search for an
 * automatic one. `Reserved` is the set of names that live, restored and starting sessions hold.
 */
module Names {
  import opened Common
  import Decimal

  const AUTO_SESSION_NAMES: seq<string> := [
    "waffle", "pickle", "noodle", "bagel", "nacho", "spatula", "kazoo", "widget", "pancake",
    "sprocket", "marble", "boomerang", "muffin", "donut", "toaster", "sprinkle", "gizmo", "jellybean"]

  const AUTO_COUNT: nat := 18

  datatype Error = ControlCharacters | AlreadyExists(name: string) | SpawnFailed

  datatype Result<+T> = Ok(value: T) | Err(error: Error)

  predicate AllWhitespace(s: string) {
    forall c :: c in s ==> IsWhitespace(c)
  }

  /** `name` is `s` without the whitespace around it. */
  predicate IsTrimmed(s: string, start: nat, name: string) {
    && start + |name| <= |s| && s[start..start + |name|] == name
    && AllWhitespace(s[..start]) && AllWhitespace(s[start + |name|..])
    && (name != [] ==> !IsWhitespace(name[0]) && !IsWhitespace(name[|name| - 1]))
  }

  function TrimStart(s: string): (n: nat)
    ensures n <= |s| && AllWhitespace(s[..n]) && (n < |s| ==> !IsWhitespace(s[n]))
  {
    if s != [] && IsWhitespace(s[0]) then
      var rest := TrimStart(s[1..]);
      assert s[..rest + 1] == [s[0]] + s[1..][..rest];
      rest + 1
    else 0
  }

  function TrimEnd(s: string): (n: nat)
    ensures n <= |s| && AllWhitespace(s[n..]) && (n > 0 ==> !IsWhitespace(s[n - 1]))
  {
    if s != [] && IsWhitespace(s[|s| - 1]) then
      var n := TrimEnd(s[..|s| - 1]);
      assert s[n..] == s[..|s| - 1][n..] + [s[|s| - 1]];
      n
    else |s|
  }

  function Trim(s: string): (name: string)
    ensures IsTrimmed(s, TrimStart(s), name)
  {
    var start := TrimStart(s);
    var rest := s[start..];
    var name := rest[..TrimEnd(rest)];
    assert s[start + |name|..] == rest[TrimEnd(rest)..];
    name
  }

  lemma BlankPrefix(s: string, blank: nat, i: nat)
    requires blank <= |s| && i < |s| && AllWhitespace(s[..blank]) && !IsWhitespace(s[i])
    ensures blank <= i
  {
  }

  lemma BlankSuffix(s: string, blank: nat, i: nat)
    requires blank <= |s| && i < |s| && AllWhitespace(s[blank..]) && !IsWhitespace(s[i])
    ensures i < blank
  {
  }

  /** No other way of cutting whitespace off both ends gives another name. */
  lemma TrimUnique(s: string, start: nat, name: string)
    requires IsTrimmed(s, start, name)
    ensures name == Trim(s)
  {
    var t, n := TrimStart(s), Trim(s);
    if name != [] {
      assert s[start] == name[0] && s[start + |name| - 1] == name[|name| - 1];
      BlankPrefix(s, t, start);
      BlankSuffix(s, t + |n|, start + |name| - 1);
    }
    if n != [] {
      assert s[t] == n[0] && s[t + |n| - 1] == n[|n| - 1];
      BlankPrefix(s, start, t);
      BlankSuffix(s, start + |name|, t + |n| - 1);
    }
  }

  /** A blank request asks for an automatic name. */
  function ValidateRequestedName(requested: string): Result<Option<string>> {
    var name := Trim(requested);
    if exists c :: c in name && IsControl(c) then Err(ControlCharacters)
    else if name == [] then Ok(None)
    else Ok(Some(name))
  }

  predicate Clean(name: string) {
    forall c :: c in name ==> !IsControl(c)
  }

  /** The automatic names are no blanks and hold no control characters. */
  lemma AutoNamesAreClean(k: nat)
    requires k < AUTO_COUNT
    ensures |AUTO_SESSION_NAMES| == AUTO_COUNT && AUTO_SESSION_NAMES[k] != "" && Clean(AUTO_SESSION_NAMES[k])
  {
  }

  function AutoName(start: nat, offset: nat): string {
    assert |AUTO_SESSION_NAMES| == AUTO_COUNT;
    AUTO_SESSION_NAMES[(start + offset) % AUTO_COUNT]
  }

  function NumberedName(start: nat, suffix: nat): string {
    AutoName(start, 0) + Decimal.Text(suffix)
  }

  lemma RestOf(q: nat, k: nat)
    requires k < 18
    ensures (18 * q + k) % 18 == k
  {
  }

  /** The rotation takes the eighteen names in their order, starting anywhere, and numbers the first of them. */
  lemma Rotation(start: nat, offset: nat)
    ensures |AUTO_SESSION_NAMES| == 18
    ensures AutoName(start, offset) == AUTO_SESSION_NAMES[(start + offset) % 18]
    ensures NumberedName(start, offset) == AUTO_SESSION_NAMES[start % 18] + Decimal.Text(offset)
  {
  }

  /** It comes to each of them. */
  lemma RotationMeetsAll(start: nat, k: nat) returns (offset: nat)
    requires k < 18
    ensures offset < 18 && (start + offset) % 18 == k
  {
    var q, r := start / 18, start % 18;
    offset := if k >= r then k - r else k + 18 - r;
    RestOf(if k >= r then q else q + 1, k);
  }

  /** The first free automatic name, in rotation from `start`. */
  predicate PlainChoice(names: set<string>, start: nat, offset: nat) {
    && offset < AUTO_COUNT && AutoName(start, offset) !in names
    && forall k: nat :: k < offset ==> AutoName(start, k) in names
  }

  /** All eighteen are taken, and `suffix` is the least that makes a free name. */
  predicate NumberedChoice(names: set<string>, start: nat, suffix: nat) {
    && (forall k: nat :: k < AUTO_COUNT ==> AutoName(start, k) in names)
    && suffix >= 2 && NumberedName(start, suffix) !in names
    && forall n: nat :: 2 <= n < suffix ==> NumberedName(start, n) in names
  }

  ghost predicate IsAutomatic(names: set<string>, start: nat, name: string) {
    || (exists offset: nat :: PlainChoice(names, start, offset) && name == AutoName(start, offset))
    || (exists suffix: nat :: NumberedChoice(names, start, suffix) && name == NumberedName(start, suffix))
  }

  lemma NumberedInjective(start: nat, m: nat, n: nat)
    requires NumberedName(start, m) == NumberedName(start, n)
    ensures m == n
  {
    var base := AutoName(start, 0);
    assert NumberedName(start, m)[|base|..] == Decimal.Text(m);
    assert NumberedName(start, n)[|base|..] == Decimal.Text(n);
    Decimal.TextInjective(m, n);
  }

  /** The names with suffixes from 2 to `n - 1`. */
  ghost function Tried(start: nat, n: nat): set<string> {
    if n <= 2 then {} else Tried(start, n - 1) + {NumberedName(start, n - 1)}
  }

  lemma {:induction false} TriedMember(start: nat, n: nat, name: string)
    requires name in Tried(start, n)
    ensures exists k: nat :: 2 <= k < n && name == NumberedName(start, k)
  {
    if name != NumberedName(start, n - 1) {
      TriedMember(start, n - 1, name);
    }
  }

  lemma {:induction false} TriedSize(start: nat, n: nat)
    requires n >= 2
    ensures |Tried(start, n)| == n - 2
  {
    if n > 2 {
      TriedSize(start, n - 1);
      if NumberedName(start, n - 1) in Tried(start, n - 1) {
        TriedMember(start, n - 1, NumberedName(start, n - 1));
        var k: nat :| 2 <= k < n - 1 && NumberedName(start, n - 1) == NumberedName(start, k);
        NumberedInjective(start, k, n - 1);
      }
    }
  }

  /** If every suffix below `n` is taken, there are that many names. */
  lemma Pigeonhole(names: set<string>, start: nat, n: nat)
    requires n >= 2 && forall k: nat :: 2 <= k < n ==> NumberedName(start, k) in names
    ensures n - 2 <= |names|
  {
    TriedSize(start, n);
    forall name | name in Tried(start, n) ensures name in names {
      TriedMember(start, n, name);
    }
    Cardinality(Tried(start, n), names);
  }

  lemma NumberedUnique(names: set<string>, start: nat, m: nat, n: nat)
    requires NumberedChoice(names, start, m) && NumberedChoice(names, start, n)
    ensures m == n
  {
  }

  lemma PlainUnique(names: set<string>, start: nat, m: nat, n: nat)
    requires PlainChoice(names, start, m) && PlainChoice(names, start, n)
    ensures m == n
  {
  }

  /** The rule picks one name, and a free one. */
  lemma AutomaticUnique(names: set<string>, start: nat, a: string, b: string)
    requires IsAutomatic(names, start, a) && IsAutomatic(names, start, b)
    ensures a == b && a !in names
  {
    if offset: nat :| PlainChoice(names, start, offset) && a == AutoName(start, offset) {
      var other: nat :| PlainChoice(names, start, other) && b == AutoName(start, other);
      PlainUnique(names, start, offset, other);
    } else {
      var suffix: nat :| NumberedChoice(names, start, suffix) && a == NumberedName(start, suffix);
      var other: nat :| NumberedChoice(names, start, other) && b == NumberedName(start, other);
      NumberedUnique(names, start, suffix, other);
    }
  }

  /** An automatic name is no blank and holds no control character. */
  lemma AutomaticIsClean(names: set<string>, start: nat, name: string)
    requires IsAutomatic(names, start, name)
    ensures name != "" && Clean(name)
  {
    AutoNamesAreClean(start % AUTO_COUNT);
    if offset: nat :| PlainChoice(names, start, offset) && name == AutoName(start, offset) {
      AutoNamesAreClean((start + offset) % AUTO_COUNT);
    } else {
      var suffix: nat :| NumberedChoice(names, start, suffix) && name == NumberedName(start, suffix);
    }
  }

  /** The search finds a name whatever is reserved, after at most one more suffix than there are names. */
  lemma {:induction false} SuffixExists(names: set<string>, start: nat, n: nat) returns (suffix: nat)
    requires n >= 2 && forall k: nat :: 2 <= k < n ==> NumberedName(start, k) in names
    requires forall k: nat :: k < AUTO_COUNT ==> AutoName(start, k) in names
    ensures NumberedChoice(names, start, suffix) && suffix - 2 <= |names|
    decreases |names| + 2 - n
  {
    Pigeonhole(names, start, n);
    if NumberedName(start, n) in names {
      Pigeonhole(names, start, n + 1);
      suffix := SuffixExists(names, start, n + 1);
    } else {
      suffix := n;
    }
  }

  /** What becomes of a request for this name when these are taken. */
  ghost predicate Reserves(names: set<string>, start: nat, name: string, r: Result<string>) {
    if !Clean(name) then r == Err(ControlCharacters)
    else if name == "" then r.Ok? && IsAutomatic(names, start, r.value)
    else r == if name in names then Err(AlreadyExists(name)) else Ok(name)
  }

  lemma ValidatedMeans(requested: string)
    ensures var name := Trim(requested);
      ValidateRequestedName(requested) ==
        if !Clean(name) then Err(ControlCharacters) else if name == "" then Ok(None) else Ok(Some(name))
  {
  }

  /** It does not matter how the white space of a request is cut off. */
  lemma AnyTrim(requested: string, names: set<string>, start: nat, r: Result<string>)
    requires Reserves(names, start, Trim(requested), r)
    ensures forall at, name :: IsTrimmed(requested, at, name) ==> Reserves(names, start, name, r)
  {
    forall at, name | IsTrimmed(requested, at, name) ensures name == Trim(requested) {
      TrimUnique(requested, at, name);
    }
  }

  /**
   * `session_names` as the search uses it: a set whose insert says whether the name was new.
   * The whole search happens between two other operations on the registry.
   */
  class NameSet {
    var names: set<string>

    constructor ()
      ensures names == {}
    {
      names := {};
    }

    method Insert(name: string) returns (isNew: bool)
      modifies this
      ensures names == old(names) + {name} && (isNew <==> name !in old(names))
    {
      isNew := name !in names;
      names := names + {name};
    }

    method Remove(name: string)
      modifies this
      ensures names == old(names) - {name}
    {
      names := names - {name};
    }

    /**
     * The name it returns was free, is clean, and is now reserved; on an error nothing is. Without the
     * white space around it, a request with a control character is refused, a blank one gets an
     * automatic name, and any other that very name, if it is free.
     */
    method ReserveNewSessionName(requested: string, start: nat) returns (r: Result<string>)
      modifies this
      ensures r.Ok? ==> r.value !in old(names) && names == old(names) + {r.value} && r.value != "" && Clean(r.value)
      ensures r.Err? ==> names == old(names)
      ensures forall at, name :: IsTrimmed(requested, at, name) ==> Reserves(old(names), start, name, r)
    {
      ValidatedMeans(requested);
      var validated := ValidateRequestedName(requested);
      if validated.Err? {
        r := Err(validated.error);
        AnyTrim(requested, old(names), start, r);
        return;
      }
      if validated.value.Some? {
        var name := validated.value.value;
        var isNew := Insert(name);
        r := if isNew then Ok(name) else Err(AlreadyExists(name));
        AnyTrim(requested, old(names), start, r);
        return;
      }
      for offset := 0 to AUTO_COUNT
        invariant names == old(names)
        invariant forall k: nat :: k < offset ==> AutoName(start, k) in names
      {
        var name := AutoName(start, offset);
        var isNew := Insert(name);
        if isNew {
          assert PlainChoice(old(names), start, offset);
          AutomaticIsClean(old(names), start, name);
          r := Ok(name);
          AnyTrim(requested, old(names), start, r);
          return;
        }
      }
      r := ReserveNumbered(start);
      AutomaticIsClean(old(names), start, r.value);
      AnyTrim(requested, old(names), start, r);
    }

    /** The search over suffixes ends: it tries at most one more than there are names. */
    method ReserveNumbered(start: nat) returns (r: Result<string>)
      requires forall k: nat :: k < AUTO_COUNT ==> AutoName(start, k) in names
      modifies this
      ensures r.Ok? && IsAutomatic(old(names), start, r.value)
      ensures r.value !in old(names) && names == old(names) + {r.value}
    {
      var suffix := 2;
      while true
        invariant names == old(names) && suffix >= 2
        invariant forall n: nat :: 2 <= n < suffix ==> NumberedName(start, n) in names
        invariant suffix - 2 <= |names|
        decreases |names| + 2 - suffix
      {
        var name := NumberedName(start, suffix);
        var isNew := Insert(name);
        if isNew {
          assert NumberedChoice(old(names), start, suffix);
          return Ok(name);
        }
        assert names == old(names);
        suffix := suffix + 1;
        Pigeonhole(names, start, suffix);
      }
    }
  }
}
