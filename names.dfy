/**
 * The two artifact names a dispatch writes: `cmd_<id>-attempt<seq>.log` for
 * every attempt and `cmd_<id>-final.log` for the promoted result. Numbers are
 * rendered in decimal, as Go's `%v` renders a non-negative int.
 *
 * Uniqueness of the names is proved through parsers that recover the numbers
 * from a name: a left inverse makes the rendering injective.
 */
module Names {
  import opened Wrappers

  predicate IsDigit(c: char) {
    '0' <= c <= '9'
  }

  predicate AllDigits(s: string) {
    forall i :: 0 <= i < |s| ==> IsDigit(s[i])
  }

  function DigitChar(d: nat): (c: char)
    requires d < 10
    ensures IsDigit(c) && c as int - '0' as int == d
  {
    ('0' as int + d) as char
  }

  /** Decimal rendering of n, most significant digit first, without leading zeros. */
  function Decimal(n: nat): (s: string)
    ensures 1 <= |s| && AllDigits(s)
    ensures n < 10 <==> |s| == 1
  {
    if n < 10 then [DigitChar(n)] else Decimal(n / 10) + [DigitChar(n % 10)]
  }

  /** The number a string of decimal digits denotes. */
  function ValueOf(s: string): nat
    requires AllDigits(s)
  {
    if s == [] then 0 else ValueOf(s[..|s| - 1]) * 10 + (s[|s| - 1] as int - '0' as int)
  }

  lemma {:induction false} ValueOfDecimal(n: nat)
    ensures ValueOf(Decimal(n)) == n
  {
    if n >= 10 {
      var s := Decimal(n);
      assert s[..|s| - 1] == Decimal(n / 10);
      ValueOfDecimal(n / 10);
    }
  }

  /** Length of the longest prefix of s made of decimal digits. */
  function DigitRun(s: string): (n: nat)
    ensures n <= |s| && AllDigits(s[..n])
    ensures n < |s| ==> !IsDigit(s[n])
  {
    if s != [] && IsDigit(s[0]) then
      var m := DigitRun(s[1..]);
      assert s[..1 + m] == [s[0]] + s[1..][..m];
      1 + m
    else
      0
  }

  lemma {:induction false} DigitRunStopsAtNonDigit(d: string, rest: string)
    requires AllDigits(d)
    requires rest == [] || !IsDigit(rest[0])
    ensures DigitRun(d + rest) == |d|
  {
    if d == [] {
      assert d + rest == rest;
    } else {
      assert (d + rest)[1..] == d[1..] + rest;
      DigitRunStopsAtNonDigit(d[1..], rest);
    }
  }

  /** Splits a leading decimal number off s; None when s does not start with a digit. */
  function SplitNumber(s: string): Option<(nat, string)>
  {
    var n := DigitRun(s);
    if n == 0 then None else Some((ValueOf(s[..n]), s[n..]))
  }

  lemma SplitNumberOfDecimal(k: nat, rest: string)
    requires rest == [] || !IsDigit(rest[0])
    ensures SplitNumber(Decimal(k) + rest) == Some((k, rest))
  {
    var s := Decimal(k) + rest;
    DigitRunStopsAtNonDigit(Decimal(k), rest);
    assert s[..|Decimal(k)|] == Decimal(k);
    assert s[|Decimal(k)|..] == rest;
    ValueOfDecimal(k);
  }

  /** The output file of attempt number `attempt` of command `id` (main.go:44). */
  function AttemptName(id: nat, attempt: nat): string {
    "cmd_" + Decimal(id) + "-attempt" + Decimal(attempt) + ".log"
  }

  /** The name an attempt's output is promoted to on success (main.go:57). */
  function FinalName(id: nat): string {
    "cmd_" + Decimal(id) + "-final.log"
  }

  /** Recovers (id, attempt) from an attempt name. */
  function ParseAttemptName(p: string): Option<(nat, nat)>
  {
    if |p| < 4 || p[..4] != "cmd_" then None
    else match SplitNumber(p[4..])
      case None => None
      case Some((id, rest)) =>
        if |rest| < 8 || rest[..8] != "-attempt" then None
        else match SplitNumber(rest[8..])
          case None => None
          case Some((attempt, tail)) => if tail == ".log" then Some((id, attempt)) else None
  }

  /** Recovers id from a final name. */
  function ParseFinalName(p: string): Option<nat>
  {
    if |p| < 4 || p[..4] != "cmd_" then None
    else match SplitNumber(p[4..])
      case None => None
      case Some((id, rest)) => if rest == "-final.log" then Some(id) else None
  }

  lemma AttemptNameRoundTrip(id: nat, attempt: nat)
    ensures ParseAttemptName(AttemptName(id, attempt)) == Some((id, attempt))
  {
    var p := AttemptName(id, attempt);
    var tail := Decimal(attempt) + ".log";
    var rest := "-attempt" + tail;
    assert p == "cmd_" + (Decimal(id) + rest);
    assert p[..4] == "cmd_";
    assert p[4..] == Decimal(id) + rest;
    SplitNumberOfDecimal(id, rest);
    assert rest[..8] == "-attempt";
    assert rest[8..] == tail;
    SplitNumberOfDecimal(attempt, ".log");
  }

  lemma FinalNameRoundTrip(id: nat)
    ensures ParseFinalName(FinalName(id)) == Some(id)
  {
    var p := FinalName(id);
    assert p[4..] == Decimal(id) + "-final.log";
    SplitNumberOfDecimal(id, "-final.log");
  }

  /** A final name never parses as an attempt name. */
  lemma FinalNameIsNoAttemptName(id: nat)
    ensures ParseAttemptName(FinalName(id)) == None
  {
    var p := FinalName(id);
    assert p[4..] == Decimal(id) + "-final.log";
    SplitNumberOfDecimal(id, "-final.log");
    assert "-final.log"[..8] != "-attempt" by {
      assert "-final.log"[1] == 'f';
    }
  }

  /** Attempt names are distinct for distinct (id, attempt) pairs. */
  lemma AttemptNameInjective(id: nat, attempt: nat, id': nat, attempt': nat)
    ensures AttemptName(id, attempt) == AttemptName(id', attempt') <==> id == id' && attempt == attempt'
  {
    AttemptNameRoundTrip(id, attempt);
    AttemptNameRoundTrip(id', attempt');
  }

  lemma FinalNameInjective(id: nat, id': nat)
    ensures FinalName(id) == FinalName(id') <==> id == id'
  {
    FinalNameRoundTrip(id);
    FinalNameRoundTrip(id');
  }

  /** The final name of a command is never the name of any attempt, of any command. */
  lemma FinalNameNeverAttemptName(id: nat, id': nat, attempt: nat)
    ensures FinalName(id) != AttemptName(id', attempt)
  {
    FinalNameIsNoAttemptName(id);
    AttemptNameRoundTrip(id', attempt);
  }

  /**
   * The names a command owns: every name that parses as one of its attempt
   * names or as its final name.
   */
  predicate OwnedBy(id: nat, p: string) {
    (ParseAttemptName(p).Some? && ParseAttemptName(p).value.0 == id) || ParseFinalName(p) == Some(id)
  }

  /** Two different commands never own the same name, so concurrent dispatches never collide. */
  lemma OwnersAreUnique(id: nat, id': nat, p: string)
    requires OwnedBy(id, p) && OwnedBy(id', p)
    ensures id == id'
  {
  }

  lemma AttemptNameOwned(id: nat, attempt: nat)
    ensures OwnedBy(id, AttemptName(id, attempt))
  {
    AttemptNameRoundTrip(id, attempt);
  }

  lemma FinalNameOwned(id: nat)
    ensures OwnedBy(id, FinalName(id))
  {
    FinalNameRoundTrip(id);
  }

  /** The names of the first n attempts of command id. */
  function AttemptNames(id: nat, n: nat): (names: set<string>)
    ensures forall k :: 0 <= k < n ==> AttemptName(id, k) in names
  {
    if n == 0 then {} else AttemptNames(id, n - 1) + {AttemptName(id, n - 1)}
  }

  /** Every name among the first n attempt names of id parses back to id and a number below n. */
  lemma {:induction false} AttemptNamesParse(id: nat, n: nat, p: string)
    requires p in AttemptNames(id, n)
    ensures ParseAttemptName(p).Some? && ParseAttemptName(p).value.0 == id && ParseAttemptName(p).value.1 < n
  {
    if p == AttemptName(id, n - 1) {
      AttemptNameRoundTrip(id, n - 1);
    } else {
      AttemptNamesParse(id, n - 1, p);
    }
  }

  /** n attempts create exactly n distinct names. */
  lemma {:induction false} AttemptNamesCount(id: nat, n: nat)
    ensures |AttemptNames(id, n)| == n
  {
    if n > 0 {
      AttemptNamesCount(id, n - 1);
      AttemptNameRoundTrip(id, n - 1);
      if AttemptName(id, n - 1) in AttemptNames(id, n - 1) {
        AttemptNamesParse(id, n - 1, AttemptName(id, n - 1));
      }
    }
  }
}
