/** The signature header: what `signPayload` prints and `verifySignature` parses.

    HMAC and JavaScript's conversions between numbers and text are parameters; `Runtime` says what is
    relied on.  The comparison is constant-time in the program and plain equality here. */
module Signature {
  import opened Basics
  import opened Text

  // Number.MAX_SAFE_INTEGER: up to here every integer is a JavaScript number of its own.
  const MAX_SAFE_INTEGER: nat := 9007199254740991

  datatype Runtime = Runtime(
    hmac: (string, string) -> string,       // hex digest of a keyed hash
    toNumber: string -> Option<real>,       // Number(text), None when not finite
    toText: real -> string)                 // template interpolation of a number

  // ---- Text ------------------------------------------------------------------------------

  function Digit(n: nat): char
    requires n < 10
  {
    "0123456789"[n]
  }

  function Decimal(n: nat): (s: string)
    ensures s != [] && forall i :: 0 <= i < |s| ==> '0' <= s[i] <= '9'
  {
    if n < 10 then [Digit(n)] else Decimal(n / 10) + [Digit(n % 10)]
  }

  lemma DecimalEnds(n: nat)
    requires n >= 10
    ensures var s := Decimal(n);
            |s| >= 2 && s[..|s| - 1] == Decimal(n / 10) && s[|s| - 1] == Digit(n % 10)
  {
  }

  lemma DigitInjective(a: nat, b: nat)
    requires a < 10 && b < 10 && Digit(a) == Digit(b)
    ensures a == b
  {
  }

  lemma {:induction false} DecimalInjective(m: nat, n: nat)
    requires Decimal(m) == Decimal(n)
    ensures m == n
  {
    if m >= 10 {
      DecimalEnds(m);
    }
    if n >= 10 {
      DecimalEnds(n);
    }
    if m >= 10 && n >= 10 {
      DecimalInjective(m / 10, n / 10);
      DigitInjective(m % 10, n % 10);
    } else {
      assert m < 10 && n < 10;
      DigitInjective(m, n);
    }
  }

  /** The number that a string of digits denotes. */
  function Value(s: string): int {
    if s == [] then 0 else 10 * Value(s[..|s| - 1]) + (s[|s| - 1] as int - '0' as int)
  }

  /** The digits of a number denote it, with none to spare in front. */
  lemma {:induction false} DecimalDenotes(n: nat)
    ensures Value(Decimal(n)) == n && (n > 0 ==> Decimal(n)[0] != '0') && (n == 0 ==> Decimal(n) == "0")
  {
    if n >= 10 {
      DecimalEnds(n);
      DecimalDenotes(n / 10);
      assert Decimal(n)[0] == Decimal(n / 10)[0];
      DigitDenotes(n % 10);
    } else {
      DigitDenotes(n);
      assert Value([]) == 0;
      assert Decimal(n)[..0] == [];
    }
  }

  lemma DigitDenotes(n: nat)
    requires n < 10
    ensures Digit(n) as int - '0' as int == n
  {
  }

  /** indexOf for one character; -1 when absent. */
  function IndexOf(s: string, c: char): (i: int)
    ensures -1 <= i < |s|
    ensures i >= 0 ==> s[i] == c && c !in s[..i]
    ensures i == -1 ==> c !in s
  {
    if s == [] then -1
    else if s[0] == c then 0
    else
      var rest := IndexOf(s[1..], c);
      if rest == -1 then -1 else
        assert s[..rest + 1] == [s[0]] + s[1..][..rest];
        rest + 1
  }

  /** String.prototype.split with a one-character separator. */
  function Split(s: string, c: char): (parts: seq<string>)
    ensures parts != []
    decreases |s|
  {
    var i := IndexOf(s, c);
    if i == -1 then [s] else [s[..i]] + Split(s[i + 1..], c)
  }

  // ---- Printing --------------------------------------------------------------------------

  function SignedString(timestamp: string, body: string): string {
    timestamp + "." + body
  }

  function Sign(rt: Runtime, secret: string, body: string, timestamp: nat): string {
    var stamp := rt.toText(timestamp as real);
    "t=" + stamp + ",v1=" + rt.hmac(secret, SignedString(stamp, body))
  }

  // ---- Parsing ---------------------------------------------------------------------------

  datatype Pair = Pair(key: string, value: string)

  /** With no '=' the index is -1: the key loses its last character and the value is everything. */
  function ParsePair(piece: string): Pair {
    var i := IndexOf(piece, '=');
    if i == -1 then Pair(Trim(if piece == [] then [] else piece[..|piece| - 1]), Trim(piece))
    else Pair(Trim(piece[..i]), Trim(piece[i + 1..]))
  }

  function ParsePairs(pieces: seq<string>): (pairs: seq<Pair>)
    ensures |pairs| == |pieces| && forall i :: 0 <= i < |pieces| ==> pairs[i] == ParsePair(pieces[i])
  {
    seq(|pieces|, i requires 0 <= i < |pieces| => ParsePair(pieces[i]))
  }

  /** A Map built from pairs keeps the last value of each key. */
  function Get(pairs: seq<Pair>, key: string): Option<string> {
    if pairs == [] then None
    else
      var last := pairs[|pairs| - 1];
      if last.key == key then Some(last.value) else Get(pairs[..|pairs| - 1], key)
  }

  predicate Absent(field: Option<string>) {
    field.None? || field.value == ""
  }

  predicate Verify(rt: Runtime, secret: string, body: string, header: string, tolerance: int, now: int) {
    var parts := ParsePairs(Split(header, ','));
    var timestampRaw, provided := Get(parts, "t"), Get(parts, "v1");
    if Absent(timestampRaw) || Absent(provided) then false
    else
      var timestamp := rt.toNumber(timestampRaw.value);
      if timestamp.None? then false
      else if timestamp.value - now as real > tolerance as real || now as real - timestamp.value > tolerance as real then false
      else rt.hmac(secret, SignedString(rt.toText(timestamp.value), body)) == provided.value
  }

  // ---- The round trip --------------------------------------------------------------------

  predicate HexDigit(c: char) {
    '0' <= c <= '9' || 'a' <= c <= 'f'
  }

  ghost predicate Lawful(rt: Runtime) {
    && (forall n: nat :: n <= MAX_SAFE_INTEGER ==> rt.toText(n as real) == Decimal(n) && rt.toNumber(Decimal(n)) == Some(n as real))
    && (forall key, text :: rt.hmac(key, text) != [] && forall i :: 0 <= i < |rt.hmac(key, text)| ==> HexDigit(rt.hmac(key, text)[i]))
  }

  lemma IndexOfFirst(a: string, c: char, b: string)
    requires c !in a
    ensures IndexOf(a + [c] + b, c) == |a|
  {
    var s := a + [c] + b;
    var i := IndexOf(s, c);
    assert s[|a|] == c && c in s;
    assert forall k :: 0 <= k < |a| ==> s[k] in a;
    assert forall k :: 0 <= k < i ==> s[k] in s[..i];
  }

  lemma SplitFirst(a: string, c: char, b: string)
    requires c !in a
    ensures Split(a + [c] + b, c) == [a] + Split(b, c)
  {
    var s := a + [c] + b;
    IndexOfFirst(a, c, b);
    assert s[..|a|] == a && s[|a| + 1..] == b;
  }

  lemma {:induction false} SplitAppend(a: string, b: string, c: char)
    ensures Split(a + [c] + b, c) == Split(a, c) + Split(b, c)
    decreases |a|
  {
    var i := IndexOf(a, c);
    if i == -1 {
      SplitFirst(a, c, b);
    } else {
      var head, rest := a[..i], a[i + 1..];
      assert a == head + [c] + rest;
      assert a + [c] + b == head + [c] + (rest + [c] + b);
      SplitFirst(head, c, rest + [c] + b);
      SplitAppend(rest, b, c);
      assert Split(a, c) == [head] + Split(rest, c);
      assert [head] + (Split(rest, c) + Split(b, c)) == ([head] + Split(rest, c)) + Split(b, c);
    }
  }

  lemma {:induction false} GetAppend(a: seq<Pair>, b: seq<Pair>, key: string)
    ensures Get(a + b, key) == if Get(b, key).Some? then Get(b, key) else Get(a, key)
  {
    if b == [] {
      assert a + b == a;
    } else {
      assert (a + b)[..|a + b| - 1] == a + b[..|b| - 1];
      GetAppend(a, b[..|b| - 1], key);
    }
  }

  lemma {:induction false} GetNone(pairs: seq<Pair>, key: string)
    requires forall i :: 0 <= i < |pairs| ==> pairs[i].key != key
    ensures Get(pairs, key) == None
  {
    if pairs != [] {
      GetNone(pairs[..|pairs| - 1], key);
    }
  }

  /** A piece "key=value" without blanks comes back as it went in. */
  lemma PieceParses(key: string, value: string)
    requires '=' !in key && ',' !in key && ',' !in value
    requires (forall i :: 0 <= i < |key| ==> !IsSpace(key[i])) && (forall i :: 0 <= i < |value| ==> !IsSpace(value[i]))
    ensures ParsePairs(Split(key + "=" + value, ',')) == [Pair(key, value)]
  {
    var piece := key + ['='] + value;
    assert piece == key + "=" + value;
    assert IndexOf(piece, ',') == -1;
    IndexOfFirst(key, '=', value);
    assert piece[..|key|] == key && piece[|key| + 1..] == value;
    TrimNothing(key);
    TrimNothing(value);
    assert Split(piece, ',') == [piece];
  }

  lemma ParsePairsAppend(a: seq<string>, b: seq<string>)
    ensures ParsePairs(a + b) == ParsePairs(a) + ParsePairs(b)
  {
  }

  lemma HeaderInTwo(stamp: string, digest: string)
    ensures "t=" + stamp + ",v1=" + digest == ("t" + "=" + stamp) + [','] + ("v1" + "=" + digest)
  {
    assert "t=" == "t" + "=" && ",v1=" == [','] + ("v1" + "=");
  }

  lemma PrintedHeader(rt: Runtime, secret: string, body: string, timestamp: nat)
    requires Lawful(rt) && timestamp <= MAX_SAFE_INTEGER
    ensures ParsePairs(Split(Sign(rt, secret, body, timestamp), ',')) ==
            [Pair("t", Decimal(timestamp)), Pair("v1", rt.hmac(secret, SignedString(Decimal(timestamp), body)))]
  {
    var stamp := Decimal(timestamp);
    var digest := rt.hmac(secret, SignedString(stamp, body));
    assert forall i :: 0 <= i < |digest| ==> HexDigit(digest[i]);
    TwoFieldHeader(stamp, digest);
  }

  lemma TwoFieldHeader(stamp: string, digest: string)
    requires forall i :: 0 <= i < |stamp| ==> HexDigit(stamp[i])
    requires forall i :: 0 <= i < |digest| ==> HexDigit(digest[i])
    ensures ParsePairs(Split("t=" + stamp + ",v1=" + digest, ',')) == [Pair("t", stamp), Pair("v1", digest)]
  {
    var first, second := "t" + "=" + stamp, "v1" + "=" + digest;
    PieceParses("t", stamp);
    PieceParses("v1", digest);
    HeaderInTwo(stamp, digest);
    SplitAppend(first, second, ',');
    ParsePairsAppend(Split(first, ','), Split(second, ','));
  }

  /** No piece of an appended text is another "t" or "v1" field. */
  ghost predicate OtherFields(extra: string) {
    forall i :: 0 <= i < |Split(extra, ',')| ==> ParsePair(Split(extra, ',')[i]).key !in {"t", "v1"}
  }

  /** The header of one message checked against another: it is accepted exactly when it is fresh and
      the two keyed hashes of timestamp-and-body agree.  So a message's own header verifies, and a
      changed body or secret is caught unless the hash itself collides. */
  lemma VerifyPrintedIff(rt: Runtime, secret: string, body: string, timestamp: nat,
                         secret': string, body': string, tolerance: int, now: int)
    requires Lawful(rt) && timestamp <= MAX_SAFE_INTEGER
    ensures Verify(rt, secret', body', Sign(rt, secret, body, timestamp), tolerance, now) <==>
            && -tolerance <= now - timestamp <= tolerance
            && rt.hmac(secret', SignedString(Decimal(timestamp), body')) == rt.hmac(secret, SignedString(Decimal(timestamp), body))
  {
    PrintedHeader(rt, secret, body, timestamp);
    var parts := ParsePairs(Split(Sign(rt, secret, body, timestamp), ','));
    assert parts[..1] == [parts[0]] && parts[..1][..0] == [];
    assert Get(parts, "t") == Some(Decimal(timestamp));
  }

  /** The header, character by character: any hex digest in its second field is accepted exactly when the
      first is fresh and the digest is the keyed hash of the timestamp's digits, a dot and the body; and that
      is the header that is printed. */
  lemma HeaderIs(rt: Runtime, secret: string, body: string, timestamp: nat, digest: string, tolerance: int, now: int)
    requires Lawful(rt) && timestamp <= MAX_SAFE_INTEGER
    requires digest != [] && forall i :: 0 <= i < |digest| ==> HexDigit(digest[i])
    ensures Verify(rt, secret, body, "t=" + Decimal(timestamp) + ",v1=" + digest, tolerance, now) <==>
            && -tolerance <= now - timestamp <= tolerance
            && digest == rt.hmac(secret, Decimal(timestamp) + "." + body)
    ensures Sign(rt, secret, body, timestamp) == "t=" + Decimal(timestamp) + ",v1=" + rt.hmac(secret, Decimal(timestamp) + "." + body)
  {
    TwoFieldHeader(Decimal(timestamp), digest);
    var parts := [Pair("t", Decimal(timestamp)), Pair("v1", digest)];
    assert parts[..1] == [parts[0]] && parts[..1][..0] == [];
    assert Get(parts, "t") == Some(Decimal(timestamp)) && Get(parts, "v1") == Some(digest);
  }

  lemma VerifyAcceptsOwnHeader(rt: Runtime, secret: string, body: string, timestamp: nat, tolerance: int, now: int)
    requires Lawful(rt) && timestamp <= MAX_SAFE_INTEGER && -tolerance <= now - timestamp <= tolerance
    ensures Verify(rt, secret, body, Sign(rt, secret, body, timestamp), tolerance, now)
  {
    VerifyPrintedIff(rt, secret, body, timestamp, secret, body, tolerance, now);
  }

  /** Fields of other names after the header change nothing: a later scheme can be added. */
  lemma VerifyIgnoresOtherFields(rt: Runtime, secret: string, body: string, header: string, extra: string,
                                 tolerance: int, now: int)
    requires OtherFields(extra)
    ensures Verify(rt, secret, body, header + "," + extra, tolerance, now) == Verify(rt, secret, body, header, tolerance, now)
  {
    assert header + "," + extra == header + [','] + extra;
    SplitAppend(header, extra, ',');
    var a, b := ParsePairs(Split(header, ',')), ParsePairs(Split(extra, ','));
    ParsePairsAppend(Split(header, ','), Split(extra, ','));
    assert ParsePairs(Split(header + "," + extra, ',')) == a + b;
    GetNone(b, "t");
    GetNone(b, "v1");
    GetAppend(a, b, "t");
    GetAppend(a, b, "v1");
  }

  /** So does one more field, whatever its value, if its name is neither "t" nor "v1". */
  lemma VerifyIgnoresField(rt: Runtime, secret: string, body: string, header: string, key: string, value: string,
                           tolerance: int, now: int)
    requires key != "t" && key != "v1" && '=' !in key && ',' !in key && ',' !in value
    requires (forall i :: 0 <= i < |key| ==> !IsSpace(key[i])) && (forall i :: 0 <= i < |value| ==> !IsSpace(value[i]))
    ensures Verify(rt, secret, body, header + "," + (key + "=" + value), tolerance, now)
            == Verify(rt, secret, body, header, tolerance, now)
  {
    var extra := key + "=" + value;
    PieceParses(key, value);
    var parsed := ParsePairs(Split(extra, ','));
    assert |parsed| == 1 && parsed[0] == Pair(key, value);
    VerifyIgnoresOtherFields(rt, secret, body, header, extra, tolerance, now);
  }

  /** What is signed determines the timestamp and the body: the dot cannot be moved. */
  lemma SignedStringInjective(t: nat, body: string, t': nat, body': string)
    requires SignedString(Decimal(t), body) == SignedString(Decimal(t'), body')
    ensures t == t' && body == body'
  {
    var a, b := Decimal(t), Decimal(t');
    IndexOfFirst(a, '.', body);
    IndexOfFirst(b, '.', body');
    var s := SignedString(a, body);
    assert s == a + ['.'] + body && s == b + ['.'] + body';
    assert s[..|a|] == a && s[..|b|] == b && s[|a| + 1..] == body && s[|b| + 1..] == body';
    DecimalInjective(t, t');
  }
}
