/** Routing of one SSE text line. */
module SseRouting {
  import opened Prelude

  datatype RouteAction =
    | Yield(line: string)
    | Silent
    | SetLastEventId(id: string)
    | SetRetry(ms: u64)

  /** Unicode White_Space, as Rust's `char::is_whitespace`. */
  predicate IsWhitespace(c: char) {
    || '\U{0009}' <= c <= '\U{000D}' || c == ' ' || c == '\U{0085}' || c == '\U{00A0}' || c == '\U{1680}'
    || '\U{2000}' <= c <= '\U{200A}' || c == '\U{2028}' || c == '\U{2029}' || c == '\U{202F}' || c == '\U{205F}'
    || c == '\U{3000}'
  }

  function TrimStart(s: string): string {
    if s != [] && IsWhitespace(s[0]) then TrimStart(s[1..]) else s
  }

  function TrimEnd(s: string): string {
    if s != [] && IsWhitespace(s[|s| - 1]) then TrimEnd(s[..|s| - 1]) else s
  }

  predicate IsDigit(c: char) {
    '0' <= c <= '9'
  }

  predicate AllDigits(s: string) {
    forall i :: 0 <= i < |s| ==> IsDigit(s[i])
  }

  function DigitsValue(s: string): nat
    requires AllDigits(s)
  {
    if s == [] then 0 else 10 * DigitsValue(s[..|s| - 1]) + (s[|s| - 1] as int - '0' as int)
  }

  /** `str::parse::<u64>`: an optional plus sign, then digits, within range. */
  function ParseU64(s: string): Option<u64> {
    var digits := if s != [] && s[0] == '+' then s[1..] else s;
    if digits == [] || !AllDigits(digits) || DigitsValue(digits) >= U64_MODULUS then None
    else Some(DigitsValue(digits))
  }

  function RouteLine(line: string): RouteAction {
    if line == [] || line[0] == ':' then Silent
    else if "id:" <= line then SetLastEventId(TrimStart(line[3..]))
    else if "retry:" <= line && ParseU64(TrimEnd(TrimStart(line[6..]))).Some?
    then SetRetry(ParseU64(TrimEnd(TrimStart(line[6..]))).value)
    else Yield(line)
  }

  // ------------------------------------------------------------- what a server writes is what is understood

  function Decimal(n: nat): (s: string)
    ensures s != [] && AllDigits(s) && DigitsValue(s) == n
  {
    var last := [('0' as int + n % 10) as char];
    if n < 10 then
      assert last[..0] == [];
      last
    else
      var front := Decimal(n / 10);
      assert (front + last)[..|front|] == front;
      front + last
  }

  lemma DigitsAreNotTrimmed(s: string)
    requires s != [] && AllDigits(s)
    ensures TrimStart(s) == s && TrimEnd(s) == s && s[0] != '+'
  {
    assert IsDigit(s[0]) && IsDigit(s[|s| - 1]);
  }

  /** A retry line in plain decimal sets exactly that delay, when it fits 64 bits; otherwise it is yielded as text. */
  lemma RetryRoundTrip(n: nat)
    ensures RouteLine("retry: " + Decimal(n))
            == if n < U64_MODULUS then SetRetry(n) else Yield("retry: " + Decimal(n))
  {
    var line := "retry: " + Decimal(n);
    assert line[6..] == [' '] + Decimal(n);
    assert line[6..][1..] == Decimal(n);
    DigitsAreNotTrimmed(Decimal(n));
    assert TrimStart([' '] + Decimal(n)) == TrimStart(Decimal(n));
  }

  /** An id line sets exactly the id written, unless the id itself begins with white space. */
  lemma IdRoundTrip(id: string)
    ensures RouteLine("id: " + id) == SetLastEventId(id) <==> (id == [] || !IsWhitespace(id[0]))
  {
    var line := "id: " + id;
    assert line[3..] == [' '] + id && line[3..][1..] == id;
    assert TrimStart(line[3..]) == TrimStart(id);
    TrimStartShortens(id);
  }

  lemma {:induction false} TrimStartShortens(s: string)
    ensures |TrimStart(s)| <= |s|
    ensures s != [] && IsWhitespace(s[0]) ==> |TrimStart(s)| < |s|
  {
    if s != [] && IsWhitespace(s[0]) {
      TrimStartShortens(s[1..]);
    }
  }
}
