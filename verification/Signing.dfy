/**
 * Canonical layouts of signed relay requests and the signature header
 * (crates/protocol/src/signing.rs). The body digest is a parameter.
 */
module Signing {
  import opened Common
  import BigEndian
  import Decimal
  import Utf8

  const LEN_BYTES: nat := 8

  /** The text `shelly-relay-request-v2`. */
  const V2_DOMAIN: seq<Byte> :=
    [115, 104, 101, 108, 108, 121, 45, 114, 101, 108, 97, 121, 45, 114, 101, 113, 117, 101, 115, 116, 45, 118, 50]

  // ---------------------------------------------------------------------- v2

  datatype Request = Request(
    audience: string, method_: string, path: string, digest: seq<Byte>, nonce: string, timestamp: nat)

  function FieldsOf(r: Request): seq<seq<Byte>> {
    [V2_DOMAIN, Utf8.Encode(r.audience), Utf8.Encode(r.method_), Utf8.Encode(r.path), r.digest, Utf8.Encode(r.nonce),
     BigEndian.Bytes(r.timestamp, LEN_BYTES)]
  }

  /** Each field after its length. A length is cut to 64 bits, as the source's cast does. */
  function Layout(fields: seq<seq<Byte>>): seq<Byte> {
    if fields == [] then []
    else BigEndian.Bytes(|fields[0]|, LEN_BYTES) + (fields[0] + Layout(fields[1..]))
  }

  lemma {:induction false} LayoutSnoc(fields: seq<seq<Byte>>, field: seq<Byte>)
    ensures Layout(fields + [field]) == Layout(fields) + (BigEndian.Bytes(|field|, LEN_BYTES) + field)
  {
    if fields == [] {
      assert [] + [field] == [field] && [field][1..] == [] && field + [] == field;
    } else {
      LayoutSnoc(fields[1..], field);
      assert (fields + [field])[0] == fields[0] && (fields + [field])[1..] == fields[1..] + [field];
      Associative(BigEndian.Bytes(|fields[0]|, LEN_BYTES), fields[0], Layout(fields[1..]), BigEndian.Bytes(|field|, LEN_BYTES) + field);
    }
  }

  lemma Associative(a: seq<Byte>, b: seq<Byte>, c: seq<Byte>, d: seq<Byte>)
    ensures a + (b + (c + d)) == a + (b + c) + d
  {
  }

  /** The loop that writes each field after its length. */
  method WriteFields(fields: seq<seq<Byte>>) returns (canonical: seq<Byte>)
    ensures canonical == Layout(fields)
  {
    canonical := [];
    for i := 0 to |fields|
      invariant canonical == Layout(fields[..i])
    {
      LayoutSnoc(fields[..i], fields[i]);
      assert fields[..i + 1] == fields[..i] + [fields[i]];
      ghost var before := canonical;
      canonical := canonical + BigEndian.Bytes(|fields[i]|, LEN_BYTES);
      canonical := canonical + fields[i];
      assert canonical == before + (BigEndian.Bytes(|fields[i]|, LEN_BYTES) + fields[i]);
    }
    assert fields[..|fields|] == fields;
  }

  /** `canonical_request_v2`. */
  method CanonicalRequestV2(audience: string, method_: string, path: string, body: seq<Byte>, nonce: string, timestamp: nat,
                            digest: seq<Byte> -> seq<Byte>)
    returns (canonical: seq<Byte>)
    ensures canonical == Layout(FieldsOf(Request(audience, method_, path, digest(body), nonce, timestamp)))
  {
    canonical := WriteFields([V2_DOMAIN, Utf8.Encode(audience), Utf8.Encode(method_), Utf8.Encode(path), digest(body),
                              Utf8.Encode(nonce), BigEndian.Bytes(timestamp, LEN_BYTES)]);
  }

  predicate ShortField(field: seq<Byte>) {
    |field| < BigEndian.Bound(LEN_BYTES)
  }

  predicate ShortFields(fields: seq<seq<Byte>>) {
    forall i :: 0 <= i < |fields| ==> ShortField(fields[i])
  }

  /** The bytes say which fields they hold, and how many. */
  lemma {:induction false} LayoutInjective(a: seq<seq<Byte>>, b: seq<seq<Byte>>)
    requires ShortFields(a) && ShortFields(b) && Layout(a) == Layout(b)
    ensures a == b
  {
    if a != [] && b != [] {
      assert ShortField(a[0]) && ShortField(b[0]);
      assert BigEndian.Bytes(|a[0]|, LEN_BYTES) == Layout(a)[..LEN_BYTES] == Layout(b)[..LEN_BYTES] == BigEndian.Bytes(|b[0]|, LEN_BYTES);
      BigEndian.BytesInjective(|a[0]|, |b[0]|, LEN_BYTES);
      var n := |a[0]|;
      assert a[0] + Layout(a[1..]) == Layout(a)[LEN_BYTES..] == Layout(b)[LEN_BYTES..] == b[0] + Layout(b[1..]);
      assert a[0] == (a[0] + Layout(a[1..]))[..n] == (b[0] + Layout(b[1..]))[..n] == b[0];
      assert Layout(a[1..]) == (a[0] + Layout(a[1..]))[n..] == (b[0] + Layout(b[1..]))[n..] == Layout(b[1..]);
      LayoutInjective(a[1..], b[1..]);
      assert a == [a[0]] + a[1..] && b == [b[0]] + b[1..];
    }
  }

  /** Lengths and timestamps fit in 64 bits. */
  predicate Fits(r: Request) {
    && ShortField(Utf8.Encode(r.audience)) && ShortField(Utf8.Encode(r.method_)) && ShortField(Utf8.Encode(r.path))
    && ShortField(r.digest) && ShortField(Utf8.Encode(r.nonce)) && r.timestamp < BigEndian.Bound(LEN_BYTES)
  }

  /** Requests with the same canonical bytes are the same request, up to the digest of their bodies. */
  lemma CanonicalV2Injective(a: Request, b: Request)
    requires Fits(a) && Fits(b) && Layout(FieldsOf(a)) == Layout(FieldsOf(b))
    ensures a == b
  {
    BigEndian.Bounds();
    var f, g := FieldsOf(a), FieldsOf(b);
    assert ShortFields(f) && ShortFields(g);
    LayoutInjective(f, g);
    assert f[1] == g[1] && f[2] == g[2] && f[3] == g[3] && f[4] == g[4] && f[5] == g[5] && f[6] == g[6];
    Utf8.EncodeInjective(a.audience, b.audience);
    Utf8.EncodeInjective(a.method_, b.method_);
    Utf8.EncodeInjective(a.path, b.path);
    Utf8.EncodeInjective(a.nonce, b.nonce);
    BigEndian.BytesInjective(a.timestamp, b.timestamp, LEN_BYTES);
  }

  /** Reads fields by their lengths until the bytes are used up. */
  function ReadFields(bytes: seq<Byte>): (fields: Option<seq<seq<Byte>>>)
    decreases |bytes|
  {
    if bytes == [] then Some([])
    else if |bytes| < LEN_BYTES then None
    else
      var len, rest := BigEndian.Value(bytes[..LEN_BYTES]), bytes[LEN_BYTES..];
      if |rest| < len then None
      else
        var others := ReadFields(rest[len..]);
        if others.None? then None else Some([rest[..len]] + others.value)
  }

  lemma {:induction false} LayoutReadsBack(fields: seq<seq<Byte>>)
    requires ShortFields(fields)
    ensures ReadFields(Layout(fields)) == Some(fields)
  {
    if fields != [] {
      var field, rest, bytes := fields[0], Layout(fields[1..]), Layout(fields);
      assert ShortField(field);
      BigEndian.ValueOfBytes(|field|, LEN_BYTES);
      assert bytes[..LEN_BYTES] == BigEndian.Bytes(|field|, LEN_BYTES) && bytes[LEN_BYTES..] == field + rest;
      assert (field + rest)[..|field|] == field && (field + rest)[|field|..] == rest;
      LayoutReadsBack(fields[1..]);
      assert fields == [field] + fields[1..];
    }
  }

  /** The canonical bytes are read back as the domain, audience, method, path, digest, nonce and timestamp, in this order. */
  lemma RequestReadsBack(r: Request)
    requires Fits(r)
    ensures ReadFields(Layout(FieldsOf(r))) ==
      Some([Utf8.Encode("shelly-relay-request-v2"), Utf8.Encode(r.audience), Utf8.Encode(r.method_), Utf8.Encode(r.path),
            r.digest, Utf8.Encode(r.nonce), BigEndian.Bytes(r.timestamp, 8)])
  {
    BigEndian.Bounds();
    assert ShortFields(FieldsOf(r));
    LayoutReadsBack(FieldsOf(r));
    DomainText();
  }

  lemma {:induction false} EncodeAscii(text: string, bytes: seq<Byte>)
    requires |text| == |bytes| && forall i :: 0 <= i < |text| ==> text[i] as int == bytes[i] < 0x80
    ensures Utf8.Encode(text) == bytes
  {
    if text != "" {
      EncodeAscii(text[1..], bytes[1..]);
      assert bytes == [bytes[0]] + bytes[1..];
    }
  }

  lemma DomainText()
    ensures Utf8.Encode("shelly-relay-request-v2") == V2_DOMAIN
  {
    EncodeAscii("shelly-relay-request-v2", V2_DOMAIN);
  }

  // ---------------------------------------------------------------------- v1

  datatype RequestV1 = RequestV1(method_: string, path: string, body: seq<Byte>, nonce: string, timestamp: nat)

  /** The body as the text that lossy decoding makes of it. */
  function TextOf(r: RequestV1): string {
    Utf8.DecodeLossy(r.body)
  }

  function Lines(method_: string, path: string, text: string, nonce: string, timestamp: string): string {
    method_ + "\n" + path + "\n" + text + "\n" + nonce + "\n" + timestamp
  }

  /** `canonical_request`. */
  function CanonicalV1(r: RequestV1): string {
    Lines(r.method_, r.path, TextOf(r), r.nonce, Decimal.Text(r.timestamp))
  }

  predicate OneLine(s: string) {
    forall i :: 0 <= i < |s| ==> s[i] != '\n'
  }

  lemma FirstLine(a: string, x: string, b: string, y: string)
    requires OneLine(a) && OneLine(b) && a + "\n" + x == b + "\n" + y
    ensures a == b && x == y
  {
    var s, t := a + "\n" + x, b + "\n" + y;
    assert s[|a|] == '\n' && t[|b|] == '\n';
    assert a == s[..|a|] && b == t[..|b|] && x == s[|a| + 1..] && y == t[|b| + 1..];
  }

  lemma LastLine(a: string, x: string, b: string, y: string)
    requires OneLine(x) && OneLine(y) && a + "\n" + x == b + "\n" + y
    ensures a == b && x == y
  {
    var s, t := a + "\n" + x, b + "\n" + y;
    assert s[|a|] == '\n' && t[|b|] == '\n';
    assert a == s[..|a|] && b == t[..|b|] && x == s[|a| + 1..] && y == t[|b| + 1..];
  }

  /** Requests whose methods, paths and nonces are single lines agree in these and in the texts of their bodies. */
  lemma FieldsOfText(a: RequestV1, b: RequestV1)
    requires OneLine(a.method_) && OneLine(a.path) && OneLine(a.nonce)
    requires OneLine(b.method_) && OneLine(b.path) && OneLine(b.nonce)
    requires CanonicalV1(a) == CanonicalV1(b)
    ensures TextOf(a) == TextOf(b) && a == b.(body := a.body)
  {
    var at, bt, ab, bb := Decimal.Text(a.timestamp), Decimal.Text(b.timestamp), TextOf(a), TextOf(b);
    LastLine(a.method_ + "\n" + a.path + "\n" + ab + "\n" + a.nonce, at, b.method_ + "\n" + b.path + "\n" + bb + "\n" + b.nonce, bt);
    Decimal.TextInjective(a.timestamp, b.timestamp);
    LastLine(a.method_ + "\n" + a.path + "\n" + ab, a.nonce, b.method_ + "\n" + b.path + "\n" + bb, b.nonce);
    assert a.method_ + "\n" + (a.path + "\n" + ab) == a.method_ + "\n" + a.path + "\n" + ab;
    assert b.method_ + "\n" + (b.path + "\n" + bb) == b.method_ + "\n" + b.path + "\n" + bb;
    FirstLine(a.method_, a.path + "\n" + ab, b.method_, b.path + "\n" + bb);
    FirstLine(a.path, ab, b.path, bb);
  }

  /** They are the same request if nothing in the body's text may have been lost. */
  lemma CanonicalV1Injective(a: RequestV1, b: RequestV1)
    requires OneLine(a.method_) && OneLine(a.path) && OneLine(a.nonce)
    requires OneLine(b.method_) && OneLine(b.path) && OneLine(b.nonce)
    requires Utf8.REPLACEMENT !in TextOf(a) && CanonicalV1(a) == CanonicalV1(b)
    ensures a == b
  {
    FieldsOfText(a, b);
    Utf8.RecoverableIff(a.body);
  }

  /** No field has a newline. */
  predicate AllOneLine(r: RequestV1) {
    OneLine(r.method_) && OneLine(r.path) && OneLine(TextOf(r)) && OneLine(r.nonce)
  }

  ghost predicate Unambiguous(r: RequestV1) {
    forall other :: CanonicalV1(other) == CanonicalV1(r) ==> other == r
  }

  function Newlines(s: string): nat {
    multiset(s)['\n']
  }

  lemma NewlinesOneLine(s: string)
    ensures Newlines(s) == 0 <==> OneLine(s)
  {
    if !OneLine(s) {
      var i :| 0 <= i < |s| && s[i] == '\n';
      assert s[i] in multiset(s);
    }
  }

  lemma NewlinesOfText(r: RequestV1)
    ensures Newlines(CanonicalV1(r)) == 4 + Newlines(r.method_) + Newlines(r.path) + Newlines(TextOf(r)) + Newlines(r.nonce)
  {
    NewlinesOneLine(Decimal.Text(r.timestamp));
    assert Newlines("\n") == 1;
  }

  /** Two lines joined by a newline, one of which has a newline in it, can be cut apart elsewhere. */
  lemma CutElsewhere(a: string, b: string) returns (c: string, d: string)
    requires !OneLine(a) || !OneLine(b)
    ensures c + "\n" + d == a + "\n" + b && |d| != |b|
  {
    if i :| 0 <= i < |b| && b[i] == '\n' {
      c, d := a + "\n" + b[..i], b[i + 1..];
      assert b == b[..i] + "\n" + d;
    } else {
      var i :| 0 <= i < |a| && a[i] == '\n';
      c, d := a[..i], a[i + 1..] + "\n" + b;
      assert a == c + "\n" + a[i + 1..];
    }
  }

  lemma MiddleLines(method_: string, path: string, text: string, nonce: string, timestamp: string)
    ensures Lines(method_, path, text, nonce, timestamp)
         == method_ + "\n" + (path + "\n" + text) + ("\n" + nonce + "\n" + timestamp)
  {
  }

  lemma EndLines(method_: string, path: string, text: string, nonce: string, timestamp: string)
    ensures Lines(method_, path, text, nonce, timestamp)
         == method_ + "\n" + path + "\n" + (text + "\n" + nonce) + ("\n" + timestamp)
  {
  }

  lemma CutMiddle(r: RequestV1, path: string, text: string)
    requires path + "\n" + text == r.path + "\n" + TextOf(r)
    ensures CanonicalV1(r.(path := path, body := Utf8.Encode(text))) == CanonicalV1(r)
  {
    Utf8.DecodeEncoded(text);
    MiddleLines(r.method_, path, text, r.nonce, Decimal.Text(r.timestamp));
    MiddleLines(r.method_, r.path, TextOf(r), r.nonce, Decimal.Text(r.timestamp));
  }

  lemma CutEnd(r: RequestV1, text: string, nonce: string)
    requires text + "\n" + nonce == TextOf(r) + "\n" + r.nonce
    ensures CanonicalV1(r.(body := Utf8.Encode(text), nonce := nonce)) == CanonicalV1(r)
  {
    Utf8.DecodeEncoded(text);
    EndLines(r.method_, r.path, text, nonce, Decimal.Text(r.timestamp));
    EndLines(r.method_, r.path, TextOf(r), r.nonce, Decimal.Text(r.timestamp));
  }

  /** Another request with the same text as one with a newline in some field, or a lossy body. */
  lemma Other(r: RequestV1) returns (other: RequestV1)
    requires !AllOneLine(r) || Utf8.REPLACEMENT in TextOf(r)
    ensures other != r && CanonicalV1(other) == CanonicalV1(r)
  {
    if !OneLine(r.method_) || !OneLine(r.path) {
      var c, d := CutElsewhere(r.method_, r.path);
      other := r.(method_ := c, path := d);
    } else if !OneLine(TextOf(r)) {
      var c, d := CutElsewhere(r.path, TextOf(r));
      other := r.(path := c, body := Utf8.Encode(d));
      CutMiddle(r, c, d);
      Utf8.DecodeEncoded(d);
    } else if !OneLine(r.nonce) {
      var c, d := CutElsewhere(TextOf(r), r.nonce);
      other := r.(body := Utf8.Encode(c), nonce := d);
      CutEnd(r, c, d);
    } else {
      var body := Utf8.Twin(r.body);
      other := r.(body := body);
    }
  }

  /**
   * A v1 text stands for one request exactly when none of the fields has a newline in it and the body
   * shows no U+FFFD, which is what lossy decoding puts for bytes that it loses.
   */
  lemma UnambiguousIff(r: RequestV1)
    ensures Unambiguous(r) <==> AllOneLine(r) && Utf8.REPLACEMENT !in TextOf(r)
  {
    if AllOneLine(r) && Utf8.REPLACEMENT !in TextOf(r) {
      forall other | CanonicalV1(other) == CanonicalV1(r) ensures other == r {
        NewlinesOfText(r);
        NewlinesOfText(other);
        NewlinesOneLine(r.method_);
        NewlinesOneLine(r.path);
        NewlinesOneLine(TextOf(r));
        NewlinesOneLine(r.nonce);
        NewlinesOneLine(other.method_);
        NewlinesOneLine(other.path);
        NewlinesOneLine(other.nonce);
        CanonicalV1Injective(r, other);
      }
    } else {
      var other := Other(r);
      assert CanonicalV1(other) == CanonicalV1(r);
    }
  }

  /** Two pushes, without a newline in any field, whose bodies differ and whose texts do not. */
  lemma LossyBodiesCollide()
    ensures var a := RequestV1("POST", "/v1/push", [0xFF], "n", 1);
      var b := a.(body := [0xEF, 0xBF, 0xBD]);
      a != b && AllOneLine(a) && AllOneLine(b) && CanonicalV1(a) == CanonicalV1(b)
  {
    Utf8.StrayByte();
  }

  /** The fields stand on lines of their own in this order, the body as its text, every undecodable byte as U+FFFD. */
  lemma LossyExample()
    ensures CanonicalV1(RequestV1("POST", "/v1/push", [0xFF, 0xFE], "n", 42)) == "POST\n/v1/push\n\U{FFFD}\U{FFFD}\nn\n42"
  {
    var body: seq<Byte> := [0xFF, 0xFE];
    assert body[1..] == [0xFE];
    var last: seq<Byte> := [0xFE];
    assert last[1..] == [];
    assert Utf8.DecodeLossy(last) == "\U{FFFD}";
    assert Decimal.Text(42) == Decimal.Text(4) + "2";
  }

  // ---------------------------------------------------------------------- the signature header

  datatype Version = V1 | V2

  function Marker(version: Version): string {
    if version.V1? then "v1=" else "v2="
  }

  function SignatureHeader(version: Version, signature: string): string {
    Marker(version) + signature
  }

  /** Where the first `=` is, or the length of the text. */
  function FirstEquals(value: string): (i: nat)
    ensures i <= |value| && (i < |value| ==> value[i] == '=') && forall j :: 0 <= j < i ==> value[j] != '='
  {
    if value == [] || value[0] == '=' then 0 else 1 + FirstEquals(value[1..])
  }

  predicate IsVersionMarker(s: string) {
    "v" <= s && s != "v" && forall i :: 1 <= i < |s| ==> Decimal.IsDigit(s[i])
  }

  function SplitSignatureHeader(value: string): Option<(Version, string)> {
    if Marker(V1) <= value then Some((V1, value[3..]))
    else if Marker(V2) <= value then Some((V2, value[3..]))
    else
      var i := FirstEquals(value);
      if i < |value| && IsVersionMarker(value[..i]) then None else Some((V1, value))
  }

  /** Splitting undoes formatting, whatever the signature is. */
  lemma SplitOfHeader(version: Version, signature: string)
    ensures SplitSignatureHeader(SignatureHeader(version, signature)) == Some((version, signature))
  {
    var value := SignatureHeader(version, signature);
    assert value[3..] == signature && value[..3] == Marker(version);
    assert value[1] == Marker(version)[1];
  }

  /** A header that declares a version the relay does not know, in any number of digits. */
  ghost predicate ForeignVersion(value: string) {
    exists digits: string, rest: string ::
      Declares(digits, rest) == value && digits != "" && digits != "1" && digits != "2" && AllDigits(digits)
  }

  function Declares(digits: string, rest: string): string {
    "v" + digits + "=" + rest
  }

  predicate AllDigits(s: string) {
    forall i :: 0 <= i < |s| ==> Decimal.IsDigit(s[i])
  }

  /** Text without an equals sign before `=` ends where the first one is. */
  lemma FirstEqualsAt(before: string, rest: string)
    requires forall i :: 0 <= i < |before| ==> before[i] != '='
    ensures FirstEquals(before + "=" + rest) == |before|
  {
    var value := before + "=" + rest;
    assert value[|before|] == '=';
    assert forall i :: 0 <= i < |before| ==> value[i] == before[i];
  }

  lemma ForeignIsRejected(digits: string, rest: string)
    requires digits != "" && digits != "1" && digits != "2" && AllDigits(digits)
    ensures SplitSignatureHeader(Declares(digits, rest)) == None
  {
    var value := Declares(digits, rest);
    FirstEqualsAt("v" + digits, rest);
    assert value[..1 + |digits|] == "v" + digits;
    assert value[1] == digits[0];
    if |digits| > 1 {
      assert value[2] == digits[1];
    } else {
      assert digits == [digits[0]];
    }
  }

  /**
   * A header is refused exactly when it declares a version other than 1 and 2; a future version is
   * never taken for the released implicit v1.
   */
  lemma RefusedIffForeign(value: string)
    ensures SplitSignatureHeader(value) == None <==> ForeignVersion(value)
  {
    if SplitSignatureHeader(value) == None {
      var i := FirstEquals(value);
      var digits, rest := value[1..i], value[i + 1..];
      assert value[..i][0] == 'v';
      assert value == Declares(digits, rest);
      forall k | 0 <= k < |digits| ensures Decimal.IsDigit(digits[k]) {
        assert value[..i][k + 1] == digits[k];
      }
      assert value[..1 + |digits| + 1] == "v" + digits + "=";
    }
    if ForeignVersion(value) {
      var digits: string, rest: string :|
        Declares(digits, rest) == value && digits != "" && digits != "1" && digits != "2" && AllDigits(digits);
      ForeignIsRejected(digits, rest);
    }
  }

  /** A declared version 1 or 2 is taken, any other refused, and what declares none is a bare v1 signature. */
  lemma SplitExactly(value: string)
    ensures SplitSignatureHeader(value) ==
      if "v1=" <= value then Some((V1, value[3..]))
      else if "v2=" <= value then Some((V2, value[3..]))
      else if ForeignVersion(value) then None
      else Some((V1, value))
    ensures SignatureHeader(V1, value) == "v1=" + value && SignatureHeader(V2, value) == "v2=" + value
  {
    RefusedIffForeign(value);
  }

  /** What is accepted is the header of its version and signature, or a bare v1 signature. */
  lemma AcceptedMeans(value: string)
    ensures match SplitSignatureHeader(value)
      case Some((version, signature)) => value == SignatureHeader(version, signature) || (version == V1 && value == signature)
      case None => forall version, signature :: value != SignatureHeader(version, signature)
  {
    if SplitSignatureHeader(value) == None {
      forall version, signature ensures value != SignatureHeader(version, signature) {
        SplitOfHeader(version, signature);
      }
    }
  }
}
