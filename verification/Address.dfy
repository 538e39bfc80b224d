/** Validation of `host:port` dial addresses. */
module Address {
  import opened Errors
  import opened Metrics

  const NO_PORT := "expected \"host:port\""
  const EMPTY_HOST := "empty host"
  const BAD_PORT := "port must be 1-65535"

  /** The text before and after the last colon. */
  function SplitLastColon(s: string): Option<(string, string)> {
    if s == [] then None
    else
      var n := |s| - 1;
      if s[n] == ':' then Some((s[..n], []))
      else
        match SplitLastColon(s[..n])
        case None => None
        case Some((host, port)) => Some((host, port + [s[n]]))
  }

  predicate IsDigit(c: char) { '0' <= c <= '9' }

  predicate AllDigits(s: string) { forall i :: 0 <= i < |s| ==> IsDigit(s[i]) }

  function DigitValue(c: char): nat
    requires IsDigit(c)
  {
    c as int - '0' as int
  }

  function Value(s: string): nat
    requires AllDigits(s)
  {
    if s == [] then 0 else Value(s[..|s| - 1]) * 10 + DigitValue(s[|s| - 1])
  }

  /** Rust's `parse::<u16>`: one leading plus sign and leading zeros are accepted. */
  function ParseU16(s: string): Option<nat> {
    var digits := if |s| > 1 && s[0] == '+' then s[1..] else s;
    if digits != [] && AllDigits(digits) && Value(digits) <= U16_MAX then Some(Value(digits)) else None
  }

  function Validate(addr: string): Result<()> {
    match SplitLastColon(addr)
    case None => Err(InvalidAddress(addr, NO_PORT))
    case Some((host, port)) =>
      if host == [] then Err(InvalidAddress(addr, EMPTY_HOST))
      else if ParseU16(port).None? || ParseU16(port).value == 0 then Err(InvalidAddress(addr, BAD_PORT))
      else Ok(())
  }

  lemma {:induction false} SplitsAtLastColon(s: string)
    ensures match SplitLastColon(s)
            case None => ':' !in s
            case Some((host, port)) => s == host + [':'] + port && ':' !in port
  {
    if s == [] {
    } else {
      SplitsAtLastColon(s[..|s| - 1]);
      assert s == s[..|s| - 1] + [s[|s| - 1]];
    }
  }

  /** Why an address is refused: it has no colon, nothing before its last colon, or no port
      number after it. */
  lemma RefusedBecause(addr: string)
    ensures Validate(addr) == Err(InvalidAddress(addr, NO_PORT)) <==> ':' !in addr
    ensures Validate(addr) == Err(InvalidAddress(addr, EMPTY_HOST))
            <==> addr != [] && addr[0] == ':' && ':' !in addr[1..]
    ensures Validate(addr).Err? && ':' in addr && (addr[0] != ':' || ':' in addr[1..]) ==>
              Validate(addr) == Err(InvalidAddress(addr, BAD_PORT))
  {
    SplitsAtLastColon(addr);
    assert NO_PORT[1] != EMPTY_HOST[1] && NO_PORT[1] != BAD_PORT[1] && EMPTY_HOST[1] != BAD_PORT[1];
    if SplitLastColon(addr).Some? {
      var (host, port) := SplitLastColon(addr).value;
      assert addr[|host|] == ':' && addr[|host| + 1..] == port;
      if host != [] { assert addr[1..][|host| - 1] == ':'; }
    }
  }

  // ---------------------------------------------------------------- printing

  function DigitChar(d: nat): (c: char)
    requires d < 10
    ensures IsDigit(c) && DigitValue(c) == d
  {
    ('0' as int + d) as char
  }

  function Decimal(n: nat): (s: string)
    ensures s != [] && AllDigits(s)
  {
    if n < 10 then [DigitChar(n)] else Decimal(n / 10) + [DigitChar(n % 10)]
  }

  function Zeros(k: nat): (s: string)
    ensures |s| == k && AllDigits(s)
  {
    seq(k, _ => '0')
  }

  /** Every spelling of a port number that is accepted. */
  function PortText(plus: bool, zeros: nat, port: nat): string {
    (if plus then "+" else "") + Zeros(zeros) + Decimal(port)
  }

  lemma {:induction false} SplitRecovers(host: string, port: string)
    requires ':' !in port
    ensures SplitLastColon(host + ":" + port) == Some((host, port))
  {
    var s := host + ":" + port;
    var n := |s| - 1;
    if port == [] {
      assert s[..n] == host;
    } else {
      var shorter := port[..|port| - 1];
      SplitRecovers(host, shorter);
      assert s[..n] == host + ":" + shorter;
      assert port == shorter + [s[n]];
    }
  }

  lemma {:induction false} SplitSound(s: string)
    ensures match SplitLastColon(s)
            case None => ':' !in s
            case Some((host, port)) => s == host + ":" + port && ':' !in port
  {
    if s == [] {
    } else {
      var n := |s| - 1;
      SplitSound(s[..n]);
      assert s == s[..n] + [s[n]];
    }
  }

  lemma {:induction false} ValueAppend(s: string, t: string)
    requires AllDigits(s) && AllDigits(t) && forall i :: 0 <= i < |s| ==> s[i] == '0'
    ensures AllDigits(s + t) && Value(s + t) == Value(t)
  {
    if t == [] {
      assert s + t == s;
      if s != [] {
        ValueAppend(s[..|s| - 1], []);
        assert s[..|s| - 1] + [] == s[..|s| - 1];
      }
    } else {
      var t' := t[..|t| - 1];
      ValueAppend(s, t');
      assert (s + t)[..|s + t| - 1] == s + t';
    }
  }

  lemma {:induction false} DecimalValue(n: nat)
    ensures Value(Decimal(n)) == n
  {
    if n >= 10 {
      DecimalValue(n / 10);
      var s := Decimal(n / 10);
      assert (s + [DigitChar(n % 10)])[..|s|] == s;
    } else {
      assert [DigitChar(n)][..0] == [];
    }
  }

  /** Digits denote a positive number only as that number's decimal text after zeros. */
  lemma {:induction false} DigitsAreDecimal(s: string) returns (zeros: nat)
    requires AllDigits(s)
    ensures zeros <= |s|
    ensures Value(s) == 0 ==> s == Zeros(|s|)
    ensures Value(s) > 0 ==> s == Zeros(zeros) + Decimal(Value(s))
  {
    if s == [] {
      zeros := 0;
    } else {
      var n := |s| - 1;
      var head, last := s[..n], s[n];
      var v, d := Value(head), DigitValue(last);
      zeros := DigitsAreDecimal(head);
      assert s == head + [last] && DigitChar(d) == last;
      if v == 0 {
        zeros := n;
      } else {
        DecimalAppend(v, d);
        Concat(Zeros(zeros), Decimal(v), [last]);
      }
    }
  }

  /** Every spelling of a port in range, after any non-empty host, is accepted, and splitting
      at the last colon recovers host and port. */
  lemma PrintedIsAccepted(host: string, plus: bool, zeros: nat, port: nat)
    requires host != [] && 1 <= port <= U16_MAX
    ensures var text := PortText(plus, zeros, port);
            && Validate(host + ":" + text) == Ok(())
            && SplitLastColon(host + ":" + text) == Some((host, text))
            && ParseU16(text) == Some(port)
  {
    hide Decimal, Value, ParseU16, SplitLastColon, PortText;
    PrintedParses(plus, zeros, port);
    SplitRecovers(host, PortText(plus, zeros, port));
  }

  lemma PrintedParses(plus: bool, zeros: nat, port: nat)
    requires port <= U16_MAX
    ensures ParseU16(PortText(plus, zeros, port)) == Some(port)
    ensures ':' !in PortText(plus, zeros, port)
  {
    hide Decimal, Value;
    var text, digits := PortText(plus, zeros, port), Zeros(zeros) + Decimal(port);
    ValueAppend(Zeros(zeros), Decimal(port));
    DecimalValue(port);
    Concat(if plus then "+" else "", Zeros(zeros), Decimal(port));
    assert text == (if plus then "+" else "") + digits;
    if plus {
      assert text[1..] == digits;
    } else {
      assert text == digits;
    }
  }

  /** Conversely, every accepted address is such a spelling. */
  lemma AcceptedIsPrinted(addr: string) returns (host: string, plus: bool, zeros: nat, port: nat)
    requires Validate(addr).Ok?
    ensures host != [] && 1 <= port <= U16_MAX
    ensures addr == host + ":" + PortText(plus, zeros, port)
  {
    SplitSound(addr);
    var text := SplitLastColon(addr).value.1;
    host := SplitLastColon(addr).value.0;
    plus, zeros, port := ParsedIsPrinted(text);
  }

  lemma ParsedIsPrinted(text: string) returns (plus: bool, zeros: nat, port: nat)
    requires ParseU16(text).Some? && ParseU16(text).value > 0
    ensures 1 <= port <= U16_MAX && text == PortText(plus, zeros, port)
  {
    hide Decimal, Value;
    port := ParseU16(text).value;
    plus := |text| > 1 && text[0] == '+';
    var digits := if plus then text[1..] else text;
    zeros := DigitsAreDecimal(digits);
    assert text == (if plus then "+" else "") + digits;
    assert digits == Zeros(zeros) + Decimal(port);
    Concat(if plus then "+" else "", Zeros(zeros), Decimal(port));
  }

  lemma DecimalAppend(v: nat, d: nat)
    requires v > 0 && d < 10
    ensures Decimal(v * 10 + d) == Decimal(v) + [DigitChar(d)]
  {
    assert (v * 10 + d) / 10 == v && (v * 10 + d) % 10 == d;
  }

  lemma Concat(a: string, b: string, c: string)
    ensures a + (b + c) == a + b + c
  {}
}
