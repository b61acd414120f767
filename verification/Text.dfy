/** The pieces of Rust's `str` that the header parser, the part-list scanner and the delete markers
    use: trimming, decimal printing and unsigned parsing. */
module Text {
  import opened Basics

  /** `char::is_whitespace`: Unicode's White_Space property. */
  predicate IsWhitespace(c: char) {
    '\U{9}' <= c <= '\U{D}' || c == ' ' || c == '\U{85}' || c == '\U{A0}' || c == '\U{1680}'
    || '\U{2000}' <= c <= '\U{200A}' || c == '\U{2028}' || c == '\U{2029}' || c == '\U{202F}'
    || c == '\U{205F}' || c == '\U{3000}'
  }

  /** The table once more, in the order of Unicode's PropList. */
  const WhiteSpace: string :=
    "\U{9}\U{A}\U{B}\U{C}\U{D}\U{20}\U{85}\U{A0}\U{1680}\U{2000}\U{2001}\U{2002}\U{2003}"
    + "\U{2004}\U{2005}\U{2006}\U{2007}\U{2008}\U{2009}\U{200A}\U{2028}\U{2029}\U{202F}\U{205F}\U{3000}"

  lemma WhitespaceExactly(c: char)
    ensures IsWhitespace(c) <==> c in WhiteSpace
  {
  }

  predicate IsQuote(c: char) {
    c == '"'
  }

  function TrimStart(s: string, p: char -> bool): string {
    if s != [] && p(s[0]) then TrimStart(s[1..], p) else s
  }

  function TrimEnd(s: string, p: char -> bool): string {
    if s != [] && p(s[|s| - 1]) then TrimEnd(s[..|s| - 1], p) else s
  }

  /** `str::trim_matches`. */
  function TrimBoth(s: string, p: char -> bool): string {
    TrimEnd(TrimStart(s, p), p)
  }

  /** `str::trim`. */
  function Trim(s: string): string {
    TrimBoth(s, IsWhitespace)
  }

  /** Neither end of `s` would be trimmed. */
  predicate Tight(s: string, p: char -> bool) {
    s == [] || (!p(s[0]) && !p(s[|s| - 1]))
  }

  lemma TrimTight(s: string, p: char -> bool)
    requires Tight(s, p)
    ensures TrimBoth(s, p) == s
  {
  }

  lemma {:induction false} TrimEndFacts(s: string, p: char -> bool) returns (n: nat)
    ensures n <= |s| && TrimEnd(s, p) == s[..n]
    ensures n == 0 || !p(s[n - 1])
    ensures forall i :: n <= i < |s| ==> p(s[i])
  {
    if s != [] && p(s[|s| - 1]) {
      n := TrimEndFacts(s[..|s| - 1], p);
    } else {
      n := |s|;
    }
  }

  lemma {:induction false} TrimStartFacts(s: string, p: char -> bool) returns (m: nat)
    ensures m <= |s| && TrimStart(s, p) == s[m..]
    ensures m == |s| || !p(s[m])
    ensures forall i :: 0 <= i < m ==> p(s[i])
  {
    if s != [] && p(s[0]) {
      var k := TrimStartFacts(s[1..], p);
      m := k + 1;
    } else {
      m := 0;
    }
  }

  /** Trimming cuts out a window whose ends are tight, and nothing that should stay. */
  lemma TrimFacts(s: string, p: char -> bool) returns (m: nat, n: nat)
    ensures m <= n <= |s| && TrimBoth(s, p) == s[m..n]
    ensures forall i :: 0 <= i < m || n <= i < |s| ==> p(s[i])
    ensures Tight(TrimBoth(s, p), p)
  {
    m := TrimStartFacts(s, p);
    var k := TrimEndFacts(s[m..], p);
    n := m + k;
  }

  lemma {:induction false} TrimStartSkips(w: string, s: string, p: char -> bool)
    requires forall i :: 0 <= i < |w| ==> p(w[i])
    ensures TrimStart(w + s, p) == TrimStart(s, p)
  {
    if w == "" {
      assert w + s == s;
    } else {
      assert (w + s)[1..] == w[1..] + s;
      TrimStartSkips(w[1..], s, p);
    }
  }

  lemma {:induction false} TrimEndSkips(s: string, v: string, p: char -> bool)
    requires forall i :: 0 <= i < |v| ==> p(v[i])
    ensures TrimEnd(s + v, p) == TrimEnd(s, p)
    decreases |v|
  {
    if v == "" {
      assert s + v == s;
    } else {
      assert (s + v)[..|s + v| - 1] == s + v[..|v| - 1];
      TrimEndSkips(s, v[..|v| - 1], p);
    }
  }

  ghost predicate Wholly(s: string, p: char -> bool) {
    forall i :: 0 <= i < |s| ==> p(s[i])
  }

  lemma TrimPadded(w: string, t: string, v: string, p: char -> bool)
    requires Tight(t, p) && Wholly(w, p) && Wholly(v, p)
    ensures TrimBoth(w + (t + v), p) == t
  {
    TrimStartSkips(w, t + v, p);
    if t == "" {
      TrimStartSkips(v, "", p);
      assert t + v == v == v + "";
    } else {
      assert (t + v)[0] == t[0];
      TrimEndSkips(t, v, p);
    }
  }

  /** Trimming leaves exactly the text whose own ends would stay, stripped of nothing but what is to go. */
  lemma TrimExactly(s: string, p: char -> bool, t: string)
    ensures TrimBoth(s, p) == t <==>
            Tight(t, p) && exists w, v :: s == w + (t + v) && Wholly(w, p) && Wholly(v, p)
  {
    hide TrimBoth, Tight;
    if TrimBoth(s, p) == t {
      var m, n := TrimFacts(s, p);
      assert s == s[..m] + (t + s[n..]) && Wholly(s[..m], p) && Wholly(s[n..], p);
    }
    if Tight(t, p) {
      forall w, v | s == w + (t + v) && Wholly(w, p) && Wholly(v, p) ensures TrimBoth(s, p) == t {
        TrimPadded(w, t, v, p);
      }
    }
  }

  /** One trimmed character at each end and nothing else to trim. */
  lemma TrimWrapped(s: string, c: char, p: char -> bool)
    requires p(c) && Tight(s, p)
    ensures TrimBoth([c] + s + [c], p) == s
  {
    var w := [c] + s + [c];
    assert w[1..] == s + [c];
    if s == [] {
      assert TrimStart(w, p) == TrimStart([c], p) == [] by {
        assert w[1..] == [c] && [c][1..] == [];
      }
    } else {
      assert (s + [c])[0] == s[0];
      assert TrimStart(w, p) == s + [c];
      assert (s + [c])[..|s|] == s && (s + [c])[|s|] == c;
      assert TrimEnd(s + [c], p) == TrimEnd(s, p) == s;
    }
  }

  predicate IsDigit(c: char) {
    '0' <= c <= '9'
  }

  predicate AllDigits(s: string) {
    forall i :: 0 <= i < |s| ==> IsDigit(s[i])
  }

  function DigitValue(c: char): nat
    requires IsDigit(c)
  {
    c as int - '0' as int
  }

  function Digit(d: nat): (c: char)
    requires d < 10
    ensures IsDigit(c) && DigitValue(c) == d
  {
    ('0' as int + d) as char
  }

  /** The number a string of decimal digits denotes. */
  function Numeral(s: string): nat
    requires AllDigits(s)
  {
    if s == [] then 0 else 10 * Numeral(s[..|s| - 1]) + DigitValue(s[|s| - 1])
  }

  /** `format!("{n}")`. */
  function Decimal(n: nat): (s: string)
    ensures s != [] && AllDigits(s) && Numeral(s) == n
    ensures s[0] == '0' ==> n == 0 && s == "0"
  {
    if n < 10 then
      assert [Digit(n)][..0] == [];
      [Digit(n)]
    else
      var s := Decimal(n / 10);
      assert (s + [Digit(n % 10)])[..|s|] == s;
      s + [Digit(n % 10)]
  }

  function Power(base: nat, n: nat): nat {
    if n == 0 then 1 else base * Power(base, n - 1)
  }

  /** Positional notation: what stands before `b` counts ten to the length of `b` times. */
  lemma {:induction false} NumeralConcat(a: string, b: string)
    requires AllDigits(a) && AllDigits(b)
    ensures AllDigits(a + b) && Numeral(a + b) == Numeral(a) * Power(10, |b|) + Numeral(b)
    decreases |b|
  {
    if b == "" {
      assert a + b == a;
    } else {
      var n := |b| - 1;
      assert (a + b)[..|a + b| - 1] == a + b[..n] && (a + b)[|a + b| - 1] == b[n];
      NumeralConcat(a, b[..n]);
      TenTimes(Numeral(a), Power(10, n), Numeral(b[..n]), DigitValue(b[n]));
    }
  }

  lemma TenTimes(x: nat, p: nat, y: nat, d: nat)
    ensures 10 * (x * p + y) + d == x * (10 * p) + (10 * y + d)
  {
    assert x * (10 * p) == 10 * (x * p);
  }

  lemma DigitValues()
    ensures forall i :: 0 <= i < 10 ==> IsDigit("0123456789"[i]) && Numeral("0123456789"[i..i + 1]) == i
  {
    forall i | 0 <= i < 10 ensures IsDigit("0123456789"[i]) && Numeral("0123456789"[i..i + 1]) == i {
      assert "0123456789"[i..i + 1][..0] == "";
    }
  }

  /** `str::parse` at an unsigned integer type whose values lie below `limit`: an optional plus
      sign, at least one digit, nothing else, and no overflow. */
  function ParseUnsigned(s: string, limit: nat): (r: Option<nat>)
    ensures r.Some? ==> r.value < limit
  {
    var t := if s != [] && s[0] == '+' then s[1..] else s;
    if t != [] && AllDigits(t) && Numeral(t) < limit then Some(Numeral(t)) else None
  }

  lemma ParseDecimal(n: nat, limit: nat)
    ensures ParseUnsigned(Decimal(n), limit) == if n < limit then Some(n) else None
  {
    var s := Decimal(n);
    assert IsDigit(s[0]);
  }

  /** Parsing accepts exactly a nonempty run of digits, with or without a plus sign, below the limit. */
  lemma ParseUnsignedExactly(s: string, limit: nat, n: nat)
    ensures ParseUnsigned(s, limit) == Some(n) <==>
            n < limit
            && exists t :: t != "" && AllDigits(t) && (s == t || s == "+" + t) && Numeral(t) == n
  {
    if s != "" && s[0] == '+' {
      assert s == "+" + s[1..];
      forall t | t != "" && AllDigits(t) && (s == t || s == "+" + t) ensures t == s[1..] {
        assert IsDigit(t[0]);
      }
    }
  }
}
