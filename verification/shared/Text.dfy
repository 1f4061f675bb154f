/** ASCII text helpers: `strip`, `lower`, `str` of a natural number, and what they mean. */
module Text {

  predicate IsSpace(c: char) {
    c == ' ' || ('\t' <= c <= '\r') || ('\U{1C}' <= c <= '\U{1F}')
  }

  function StripLeft(s: string): (r: string)
    ensures |r| <= |s| && (r != "" ==> !IsSpace(r[0]))
  {
    if s != "" && IsSpace(s[0]) then StripLeft(s[1..]) else s
  }

  function StripRight(s: string): (r: string)
    ensures r <= s && (r != "" ==> !IsSpace(r[|r| - 1]))
  {
    if s != "" && IsSpace(s[|s| - 1]) then StripRight(s[..|s| - 1]) else s
  }

  function Strip(s: string): (r: string)
    ensures r != "" ==> !IsSpace(r[0]) && !IsSpace(r[|r| - 1])
  {
    StripRight(StripLeft(s))
  }

  predicate AllSpace(s: string) {
    forall i :: 0 <= i < |s| ==> s[i] == ' ' || 9 <= s[i] as int <= 13 || 28 <= s[i] as int <= 31
  }

  lemma {:induction false} StripLeftCuts(s: string) returns (left: string)
    ensures s == left + StripLeft(s) && AllSpace(left)
  {
    left := "";
    if s != "" && IsSpace(s[0]) {
      var more := StripLeftCuts(s[1..]);
      left := [s[0]] + more;
      assert s == [s[0]] + (more + StripLeft(s)) == left + StripLeft(s);
    }
  }

  lemma {:induction false} StripRightCuts(s: string) returns (right: string)
    ensures s == StripRight(s) + right && AllSpace(right)
  {
    if s != "" && IsSpace(s[|s| - 1]) {
      var more := StripRightCuts(s[..|s| - 1]);
      right := more + [s[|s| - 1]];
      assert s == (StripRight(s[..|s| - 1]) + more) + [s[|s| - 1]] == StripRight(s) + right;
    } else {
      right := "";
    }
  }

  /** Stripping takes white space off both ends until none is left there. */
  lemma StripCuts(s: string) returns (left: string, right: string)
    ensures s == left + Strip(s) + right && AllSpace(left) && AllSpace(right)
    ensures Strip(s) != "" ==> !AllSpace([Strip(s)[0]]) && !AllSpace([Strip(s)[|Strip(s)| - 1]])
  {
    left := StripLeftCuts(s);
    right := StripRightCuts(StripLeft(s));
    assert s == left + (Strip(s) + right) == left + Strip(s) + right;
    if Strip(s) != "" {
      OneSpace(Strip(s)[0]);
      OneSpace(Strip(s)[|Strip(s)| - 1]);
    }
  }

  lemma OneSpace(c: char)
    ensures AllSpace([c]) <==> IsSpace(c)
  {
    assert [c][0] == c;
  }

  function LowerChar(c: char): char {
    if 'A' <= c <= 'Z' then c - 'A' + 'a' else c
  }

  function Lower(s: string): (r: string)
    ensures |r| == |s| && forall i :: 0 <= i < |s| ==> r[i] == LowerChar(s[i])
  {
    seq(|s|, i requires 0 <= i < |s| => LowerChar(s[i]))
  }

  /** The same character but for the case of an ASCII letter. */
  predicate SameLetter(c: char, d: char) {
    || c == d
    || ('A' <= c <= 'Z' && d as int == c as int + 32)
    || ('A' <= d <= 'Z' && c as int == d as int + 32)
  }

  predicate SameIgnoringCase(a: string, b: string) {
    |a| == |b| && forall i :: 0 <= i < |a| ==> SameLetter(a[i], b[i])
  }

  /** Texts are the same ignoring case exactly when they are the same in lower case. */
  lemma LowerDecides(a: string, b: string)
    ensures Lower(a) == Lower(b) <==> SameIgnoringCase(a, b)
  {
    if Lower(a) == Lower(b) {
      assert |a| == |b|;
      forall i | 0 <= i < |a| ensures SameLetter(a[i], b[i]) {
        assert Lower(a)[i] == Lower(b)[i];
      }
    }
  }

  lemma {:induction false} StripLeftLowers(s: string)
    ensures StripLeft(Lower(s)) == Lower(StripLeft(s))
  {
    if s != "" {
      StripLeftLowers(s[1..]);
      assert Lower(s)[1..] == Lower(s[1..]);
    }
  }

  lemma {:induction false} StripRightLowers(s: string)
    ensures StripRight(Lower(s)) == Lower(StripRight(s))
  {
    if s != "" {
      StripRightLowers(s[..|s| - 1]);
      assert Lower(s)[..|s| - 1] == Lower(s[..|s| - 1]);
    }
  }

  lemma StripLowers(s: string)
    ensures Strip(Lower(s)) == Lower(Strip(s))
  {
    StripLeftLowers(s);
    StripRightLowers(StripLeft(s));
  }

  function DigitOf(n: nat): (c: char)
    requires n < 10
    ensures '0' <= c <= '9' && c as int == '0' as int + n
  {
    '0' + n as char
  }

  function Decimal(n: nat): (s: string)
    ensures s != "" && (|s| == 1 <==> n < 10)
    ensures forall i :: 0 <= i < |s| ==> '0' <= s[i] <= '9'
  {
    if n < 10 then [DigitOf(n)] else Decimal(n / 10) + [DigitOf(n % 10)]
  }

  /** The number a text of digits stands for in base ten. */
  function ValueOf(s: string): int {
    if s == "" then 0 else 10 * ValueOf(s[..|s| - 1]) + (s[|s| - 1] as int - '0' as int)
  }

  /** The numeral of n reads as n and has no leading zero. */
  lemma {:induction false} DecimalReads(n: nat)
    ensures ValueOf(Decimal(n)) == n && (n > 0 ==> Decimal(n)[0] != '0')
  {
    var s := Decimal(n);
    if n < 10 {
      assert s[..0] == "";
    } else {
      DecimalReads(n / 10);
      assert s[..|s| - 1] == Decimal(n / 10);
    }
  }

  /** Different numbers have different numerals. */
  lemma DecimalIsInjective(m: nat, n: nat)
    requires Decimal(m) == Decimal(n)
    ensures m == n
  {
    DecimalReads(m);
    DecimalReads(n);
  }

  /** A larger number has no shorter numeral. */
  lemma {:induction false} DecimalGrows(m: nat, n: nat)
    requires m <= n
    ensures |Decimal(m)| <= |Decimal(n)|
    decreases n
  {
    if m >= 10 {
      DecimalGrows(m / 10, n / 10);
    }
  }
}
