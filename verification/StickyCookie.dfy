/**
 The value of the signed sticky-writer cookie: a decimal Unix time in milliseconds, a dot
 and the signature of the digits. The keyed hash is a parameter.
 */
module StickyCookie {
  import opened Common

  type Signer = string -> string

  const INT64_MAX: int := 0x7FFF_FFFF_FFFF_FFFF

  /** Go's `unicode.IsSpace`. */
  predicate IsSpace(c: char) {
    || '\t' <= c <= '\r' || c == ' '
    || c in {'\U{85}', '\U{A0}', '\U{1680}', '\U{2028}', '\U{2029}', '\U{202F}', '\U{205F}', '\U{3000}'}
    || '\U{2000}' <= c <= '\U{200A}'
  }

  function TrimLeft(s: string): string { if s != "" && IsSpace(s[0]) then TrimLeft(s[1..]) else s }

  function TrimRight(s: string): string {
    if s != "" && IsSpace(s[|s| - 1]) then TrimRight(s[..|s| - 1]) else s
  }

  function TrimSpace(s: string): string { TrimRight(TrimLeft(s)) }

  predicate OnlySpaces(s: string) { forall k :: 0 <= k < |s| ==> IsSpace(s[k]) }

  lemma {:induction false} TrimsLeft(s: string) returns (left: string)
    ensures s == left + TrimLeft(s) && OnlySpaces(left) && (TrimLeft(s) != "" ==> !IsSpace(TrimLeft(s)[0]))
  {
    if s != "" && IsSpace(s[0]) {
      left := TrimsLeft(s[1..]);
      assert s == [s[0]] + s[1..];
      left := [s[0]] + left;
    } else {
      left := "";
    }
  }

  lemma {:induction false} TrimsRight(s: string) returns (right: string)
    ensures s == TrimRight(s) + right && OnlySpaces(right) && (TrimRight(s) != "" ==> !IsSpace(TrimRight(s)[|TrimRight(s)| - 1]))
  {
    if s != "" && IsSpace(s[|s| - 1]) {
      right := TrimsRight(s[..|s| - 1]);
      assert s == s[..|s| - 1] + [s[|s| - 1]];
      right := right + [s[|s| - 1]];
    } else {
      right := "";
    }
  }

  /** What is trimmed on either side are spaces, and none is left at either end. */
  lemma {:induction false} TrimsSpaces(s: string) returns (left: string, right: string)
    ensures s == left + TrimSpace(s) + right && OnlySpaces(left) && OnlySpaces(right)
    ensures var t := TrimSpace(s); t != "" ==> !IsSpace(t[0]) && !IsSpace(t[|t| - 1])
  {
    left := TrimsLeft(s);
    right := TrimsRight(TrimLeft(s));
  }

  /** The position of the first dot, or the length. */
  function FirstDot(s: string): (k: nat)
    ensures k <= |s| && (k < |s| ==> s[k] == '.') && forall j :: 0 <= j < k ==> s[j] != '.'
  {
    if s == "" || s[0] == '.' then 0 else 1 + FirstDot(s[1..])
  }

  predicate IsDigit(c: char) { '0' <= c <= '9' }

  function DigitValue(c: char): nat
    requires IsDigit(c)
  {
    (c - '0') as int
  }

  function DigitChar(d: nat): (c: char)
    requires d < 10
    ensures IsDigit(c) && DigitValue(c) == d
  {
    '0' + d as char
  }

  /** `strconv.FormatInt` of a non-negative number. */
  function FormatNat(n: nat): (s: string)
    ensures s != "" && forall k :: 0 <= k < |s| ==> IsDigit(s[k])
  {
    if n < 10 then [DigitChar(n)] else FormatNat(n / 10) + [DigitChar(n % 10)]
  }

  function ParseDigits(s: string): Option<nat> {
    if s == "" || !IsDigit(s[|s| - 1]) then None
    else if |s| == 1 then Some(DigitValue(s[0]))
    else
      var front := ParseDigits(s[..|s| - 1]);
      if front.None? then None else Some(10 * front.value + DigitValue(s[|s| - 1]))
  }

  /** `strconv.ParseInt(s, 10, 64)`. */
  function ParseInt(s: string): Option<int> {
    var signed := s != "" && (s[0] == '+' || s[0] == '-');
    var magnitude := ParseDigits(if signed then s[1..] else s);
    if magnitude.None? then None
    else
      var m: int := magnitude.value;
      var v := if signed && s[0] == '-' then -m else m;
      if -INT64_MAX - 1 <= v <= INT64_MAX then Some(v) else None
  }

  function SignedValue(untilMs: nat, sign: Signer): string {
    var timestamp := FormatNat(untilMs);
    timestamp + "." + sign(timestamp)
  }

  /** `parseStickyWriterUntil`. */
  function ParseUntil(raw: string, sign: Signer): Option<int> {
    var value := TrimSpace(raw);
    var k := FirstDot(value);
    if k == |value| then None
    else
      var timestamp, signature := value[..k], value[k + 1..];
      if timestamp == "" || signature == "" || signature != sign(timestamp) then None
      else
        var v := ParseInt(timestamp);
        if v.None? || v.value <= 0 then None else v
  }

  lemma {:induction false} ParseFormatted(n: nat)
    ensures ParseDigits(FormatNat(n)) == Some(n)
  {
    if n >= 10 {
      var s := FormatNat(n);
      ParseFormatted(n / 10);
      assert s[..|s| - 1] == FormatNat(n / 10);
    }
  }

  /** Exactly the non-empty strings of digits are numbers, each digit worth ten times the next. */
  lemma {:induction false} DigitsAreNumbers(s: string)
    ensures ParseDigits(s).Some? <==> s != "" && forall k :: 0 <= k < |s| ==> IsDigit(s[k])
    ensures |s| > 1 && ParseDigits(s).Some? ==>
              var (front, last) := (s[..|s| - 1], s[|s| - 1]);
              ParseDigits(front).Some? && ParseDigits(s) == Some(10 * ParseDigits(front).value + (last as int - '0' as int))
  {
    if |s| > 1 {
      DigitsAreNumbers(s[..|s| - 1]);
    }
  }

  lemma {:induction false} FirstDotAfter(s: string, t: string)
    requires forall k :: 0 <= k < |s| ==> s[k] != '.'
    ensures FirstDot(s + "." + t) == |s|
  {
    var whole := s + "." + t;
    var k := FirstDot(whole);
    assert whole[|s|] == '.';
    assert forall j :: 0 <= j < |s| ==> whole[j] == s[j];
  }

  /** A signature as base64 without padding gives it: not empty, and no space at the end. */
  ghost predicate Printable(sign: Signer) {
    forall s :: sign(s) != "" && !IsSpace(sign(s)[|sign(s)| - 1])
  }

  /** What the server signs it reads back, to the millisecond. */
  lemma {:induction false} CookieRoundTrip(untilMs: nat, sign: Signer)
    requires 0 < untilMs <= INT64_MAX && Printable(sign)
    ensures ParseUntil(SignedValue(untilMs, sign), sign) == Some(untilMs)
  {
    var timestamp := FormatNat(untilMs);
    var raw := SignedValue(untilMs, sign);
    SignedIsTrimmed(timestamp, sign(timestamp));
    FirstDotAfter(timestamp, sign(timestamp));
    assert raw[..|timestamp|] == timestamp && raw[|timestamp| + 1..] == sign(timestamp);
    FormattedParses(untilMs);
  }

  lemma {:induction false} SignedIsTrimmed(timestamp: string, signature: string)
    requires timestamp != "" && IsDigit(timestamp[0])
    requires signature != "" && !IsSpace(signature[|signature| - 1])
    ensures TrimSpace(timestamp + "." + signature) == timestamp + "." + signature
  {
    var raw := timestamp + "." + signature;
    assert raw[0] == timestamp[0] && !IsSpace(raw[0]);
    assert raw[|raw| - 1] == signature[|signature| - 1];
  }

  lemma {:induction false} FormattedParses(n: nat)
    requires n <= INT64_MAX
    ensures ParseInt(FormatNat(n)) == Some(n)
  {
    ParseFormatted(n);
    assert IsDigit(FormatNat(n)[0]);
  }

  /** Between spaces, a number without a dot and its signature. */
  predicate Signed(raw: string, timestamp: string, sign: Signer) {
    TrimSpace(raw) == timestamp + "." + sign(timestamp) && '.' !in timestamp && timestamp != "" && sign(timestamp) != ""
  }

  /** Exactly the positive numbers with the signature of their digits are accepted. */
  lemma {:induction false} AcceptedExactlyWhenSigned(raw: string, sign: Signer, untilMs: int)
    ensures ParseUntil(raw, sign) == Some(untilMs)
       <==> untilMs > 0 && exists timestamp :: Signed(raw, timestamp, sign) && ParseInt(timestamp) == Some(untilMs)
  {
    if ParseUntil(raw, sign) == Some(untilMs) {
      var timestamp := AcceptedIsSigned(raw, sign);
      assert Signed(raw, timestamp, sign);
    }
    if timestamp :| untilMs > 0 && Signed(raw, timestamp, sign) && ParseInt(timestamp) == Some(untilMs) {
      FirstDotAfter(timestamp, sign(timestamp));
      var value := TrimSpace(raw);
      assert value[..|timestamp|] == timestamp && value[|timestamp| + 1..] == sign(timestamp);
    }
  }

  /** Whatever is accepted is, between spaces, a positive number with the signature of its digits. */
  lemma {:induction false} AcceptedIsSigned(raw: string, sign: Signer) returns (timestamp: string)
    requires ParseUntil(raw, sign).Some?
    ensures Signed(raw, timestamp, sign)
    ensures ParseInt(timestamp) == ParseUntil(raw, sign) && 0 < ParseUntil(raw, sign).value <= INT64_MAX
  {
    var value := TrimSpace(raw);
    var k := FirstDot(value);
    timestamp := value[..k];
    assert value == value[..k] + [value[k]] + value[k + 1..];
  }
}
