/**
 The `timeout:N` messages: printed by `Timeout` (v2/pkg/broker/callbase.go) and read by
 `getTimeout` (v2/pkg/broker/providers/nats/provider.go).  Durations are signed 64-bit
 nanoseconds.
 */
module TimeoutText {
  import opened Basics
  import opened GoStrings

  const MIN_INT64: int := -0x8000_0000_0000_0000
  const MAX_INT64: int := 0x7FFF_FFFF_FFFF_FFFF
  const MIN_TIMEOUT: int := 100_000_000
  const HEAD := "timeout:"

  type Duration = d: int | MIN_INT64 <= d <= MAX_INT64

  function Digit(v: nat): char
    requires v < 10
  {
    '0' + v as char
  }

  /** Decimal digits of a natural number, without leading zeros. */
  function Digits(n: nat): string {
    if n < 10 then [Digit(n)] else Digits(n / 10) + [Digit(n % 10)]
  }

  /** The `%d` verb. */
  function Decimal(n: int): string {
    if n < 0 then "-" + Digits(-n) else Digits(n)
  }

  predicate IsDigit(c: char) {
    '0' <= c <= '9'
  }

  predicate AllDigits(s: string) {
    forall i | 0 <= i < |s| :: IsDigit(s[i])
  }

  /** The value of a digit string read left to right. */
  function DigitsValue(s: string): nat
    requires forall i | 0 <= i < |s| :: IsDigit(s[i])
  {
    if s == "" then 0
    else
      assert IsDigit(s[|s| - 1]);
      10 * DigitsValue(s[..|s| - 1]) + (s[|s| - 1] as int - '0' as int)
  }

  /** `strconv.ParseInt(s, 10, 64)`: an optional sign, at least one digit, nothing else, and in range. */
  function ParseInt64(s: string): Option<int> {
    var negative := s != "" && s[0] == '-';
    var body := if s != "" && (s[0] == '-' || s[0] == '+') then s[1..] else s;
    if body == "" || !AllDigits(body) then None
    else
      var v: int := if negative then -(DigitsValue(body) as int) else DigitsValue(body);
      if MIN_INT64 <= v <= MAX_INT64 then Some(v) else None
  }

  lemma {:induction false} DigitsRoundTrip(n: nat)
    ensures Digits(n) != ""
    ensures forall i | 0 <= i < |Digits(n)| :: IsDigit(Digits(n)[i])
    ensures DigitsValue(Digits(n)) == n
  {
    if n >= 10 {
      DigitsRoundTrip(n / 10);
      var s := Digits(n);
      assert s[..|s| - 1] == Digits(n / 10);
    } else {
      assert Digits(n)[..0] == "";
    }
  }

  lemma DecimalChars(n: int)
    ensures Decimal(n) != "" && forall i | 0 <= i < |Decimal(n)| :: IsDigit(Decimal(n)[i]) || Decimal(n)[i] == '-'
  {
    DigitsRoundTrip(if n < 0 then -n else n);
  }

  /** Parsing what was printed gives the number back, over the whole signed 64-bit range. */
  lemma ParseOfPrint(d: Duration)
    ensures ParseInt64(Decimal(d)) == Some(d)
  {
    var n: nat := if d < 0 then -(d as int) else d;
    DigitsRoundTrip(n);
    if d < 0 {
      assert Decimal(d)[1..] == Digits(n);
    } else {
      assert IsDigit(Decimal(d)[0]);
    }
  }

  function Clamp(d: Duration): Duration {
    if d <= MIN_TIMEOUT then MIN_TIMEOUT else d
  }

  /** The text `Timeout` replies with. */
  function TimeoutMessage(d: Duration): string {
    HEAD + Decimal(Clamp(d))
  }

  datatype TimeoutResult = NotTimeout | Extension(t: Duration) | Empty | BadNumber

  /** `getTimeout`: `Empty` and `BadNumber` are its two errors. */
  function GetTimeout(resp: string): TimeoutResult {
    if HEAD <= resp then
      var parts := Split(resp, ':');
      if |parts| == 2 && parts[0] == "timeout" then
        if |parts[1]| == 0 then Empty
        else match ParseInt64(parts[1]) {
          case None => BadNumber
          case Some(t) => Extension(t)
        }
      else NotTimeout
    else NotTimeout
  }

  lemma SplitHead(body: string)
    ensures Split(HEAD + body, ':') == ["timeout"] + Split(body, ':')
  {
    var parts := ["timeout"] + Split(body, ':');
    assert parts[1..] == Split(body, ':');
    assert Join(parts, ':') == "timeout" + [':'] + body;
    assert HEAD + body == "timeout" + [':'] + body;
    SplitOfJoin(parts, ':');
  }

  /** A digit further. */
  lemma DigitsOfMore(n: nat, d: nat)
    requires n > 0 && d < 10
    ensures Digits(10 * n + d) == Digits(n) + [Digit(d)]
  {
    assert (10 * n + d) / 10 == n && (10 * n + d) % 10 == d;
  }

  lemma PrintedDigits()
    ensures Digits(1203) == "1203"
  {
    assert Digits(1) == "1";
    DigitsOfMore(1, 2);
    DigitsOfMore(12, 0);
    DigitsOfMore(120, 3);
  }

  /** Behind a sign or the first digit nothing but digits makes a number. */
  lemma NoNumber(s: string, i: nat)
    requires 1 <= i < |s| && !IsDigit(s[i])
    ensures ParseInt64(s) == None
  {
    var body := if s != "" && (s[0] == '-' || s[0] == '+') then s[1..] else s;
    var k := if s[0] == '-' || s[0] == '+' then i - 1 else i;
    assert body[k] == s[i];
    assert !IsDigit(body[k]);
    assert !AllDigits(body);
  }

  /** The texts themselves; a time is raised to 100 ms before it is printed. */
  lemma PrintedTexts(d: Duration)
    ensures Decimal(1203) == "1203" && Decimal(-1203) == "-1203" && ParseInt64("+1203") == Some(1203)
    ensures TimeoutMessage(d) == "timeout:" + Digits(if d <= 100_000_000 then 100_000_000 else d)
  {
    PrintedDigits();
    DigitsRoundTrip(1203);
    assert "+1203"[1..] == "1203" == Digits(1203);
    hide Digits, DigitsValue;
  }

  /** `getTimeout` inverts the printer: every duration is read back as itself, raised to 100 ms, without error. */
  lemma GetTimeoutInvertsTimeout(d: Duration)
    ensures GetTimeout(TimeoutMessage(d)) == Extension(Clamp(d))
  {
    var body := Decimal(Clamp(d));
    ParseOfPrint(Clamp(d));
    DecimalChars(Clamp(d));
    SplitHead(body);
    SplitOfJoin([body], ':');
    assert Split(body, ':') == [body];
  }

  /**
   Exactly which messages extend the wait: the word, one colon, and a 64-bit decimal.  With
   nothing or no such number after the colon they are faults, and nothing else is.
   */
  lemma ExtensionIff(resp: string, t: Duration)
    ensures GetTimeout(resp) == Extension(t) <==>
      HEAD <= resp && ':' !in resp[|HEAD|..] && ParseInt64(resp[|HEAD|..]) == Some(t)
    ensures GetTimeout(resp) == Empty <==> resp == "timeout:"
    ensures GetTimeout(resp) == BadNumber <==>
      HEAD < resp && ':' !in resp[|HEAD|..] && ParseInt64(resp[|HEAD|..]) == None
  {
    if HEAD <= resp {
      var body := resp[|HEAD|..];
      assert resp == HEAD + body;
      SplitHead(body);
      var parts := Split(body, ':');
      if |parts| == 1 {
        assert parts == [body];
        assert ':' !in body by { assert body in parts; }
      } else {
        assert ':' in body by {
          if ':' !in body { SplitOfJoin([body], ':'); }
        }
      }
    }
  }

  /** No JSON object is taken for an extension. */
  lemma JsonIsNoTimeout(json: string)
    requires json != "" && json[0] == '{'
    ensures GetTimeout(json) == NotTimeout
  {
  }
}
