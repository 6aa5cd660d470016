/**
 The member string of the token set. The acquire script stores `<request>:<tokens>`
 and every reader parses the count back with the Lua pattern ':(%d+)$'.
 */
module TpmMember {

  predicate IsDigit(c: char) {
    '0' <= c <= '9'
  }

  function DigitValue(c: char): (d: nat)
    requires IsDigit(c)
    ensures d < 10
  {
    c as int - '0' as int
  }

  function Digit(d: nat): (c: char)
    requires d < 10
    ensures IsDigit(c) && DigitValue(c) == d
  {
    ('0' as int + d) as char
  }

  /** Decimal rendering of a count, as `..` produces it. */
  function Decimal(n: nat): (s: string)
    ensures |s| > 0 && forall i :: 0 <= i < |s| ==> IsDigit(s[i])
  {
    if n < 10 then [Digit(n)] else Decimal(n / 10) + [Digit(n % 10)]
  }

  /** tonumber on a run of digits. */
  function ParseDigits(s: string): nat
    requires forall i :: 0 <= i < |s| ==> IsDigit(s[i])
  {
    if s == [] then 0 else 10 * ParseDigits(s[..|s| - 1]) + DigitValue(s[|s| - 1])
  }

  /** Length of the longest digit run that ends the string. */
  function DigitSuffix(s: string): (k: nat)
    ensures k <= |s|
    ensures forall i :: |s| - k <= i < |s| ==> IsDigit(s[i])
    ensures k < |s| ==> !IsDigit(s[|s| - k - 1])
  {
    if s == [] || !IsDigit(s[|s| - 1]) then 0 else 1 + DigitSuffix(s[..|s| - 1])
  }

  function Encode(request: string, tokens: nat): string {
    request + ":" + Decimal(tokens)
  }

  /** member_tokens: the digits after the colon that ends the member, 0 when there are none. */
  function MemberTokens(member: string): nat {
    var k := DigitSuffix(member);
    if k == 0 || k == |member| || member[|member| - k - 1] != ':' then 0 else ParseDigits(member[|member| - k..])
  }

  lemma {:induction false} ParseInvertsDecimal(n: nat)
    ensures ParseDigits(Decimal(n)) == n
  {
    if n >= 10 {
      ParseInvertsDecimal(n / 10);
      var s := Decimal(n);
      assert s[..|s| - 1] == Decimal(n / 10);
    }
  }

  lemma EncodeSuffix(request: string, tokens: nat)
    ensures DigitSuffix(Encode(request, tokens)) == |Decimal(tokens)|
  {
    var s := Encode(request, tokens);
    var d := Decimal(tokens);
    var k := DigitSuffix(s);
    assert s[|s| - |d| - 1] == ':';
    assert s[|s| - |d|..] == d;
    assert forall i :: |s| - |d| <= i < |s| ==> s[i] == d[i - (|s| - |d|)];
  }

  /** What the script writes is what every later read gets back, whatever the request id is. */
  lemma TokensRoundTrip(request: string, tokens: nat)
    ensures MemberTokens(Encode(request, tokens)) == tokens
  {
    EncodeSuffix(request, tokens);
    ParseInvertsDecimal(tokens);
    var s := Encode(request, tokens);
    assert s[|s| - |Decimal(tokens)|..] == Decimal(tokens);
  }

  /** Two admissions share a member of the token set only when request and count both agree. */
  lemma EncodeInjective(request: string, tokens: nat, request': string, tokens': nat)
    requires Encode(request, tokens) == Encode(request', tokens')
    ensures request == request' && tokens == tokens'
  {
    EncodeSuffix(request, tokens);
    EncodeSuffix(request', tokens');
    TokensRoundTrip(request, tokens);
    TokensRoundTrip(request', tokens');
    var s := Encode(request, tokens);
    var k := |Decimal(tokens)|;
    assert s[..|s| - k - 1] == request;
    assert s[..|s| - k - 1] == request';
  }
}
