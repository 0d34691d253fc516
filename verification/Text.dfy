/** Strings, decimal printing and the byte order of names: the part of Go's
    standard library that the naming schemes of the pipeline are built on. */
module Text {

  datatype Option<+T> = None | Some(value: T)

  predicate HasPrefix(s: string, p: string) {
    |p| <= |s| && s[..|p|] == p
  }

  predicate HasSuffix(s: string, p: string) {
    |p| <= |s| && s[|s| - |p|..] == p
  }

  lemma EndOfSuffix(s: string, p: string)
    requires HasSuffix(s, p) && p != []
    ensures s[|s| - 1] == p[|p| - 1]
  {
    assert s[|s| - |p|..][|p| - 1] == s[|s| - 1];
  }

  lemma StartOfPrefix(s: string, p: string)
    requires HasPrefix(s, p) && p != []
    ensures s[0] == p[0]
  {
    assert s[..|p|][0] == s[0];
  }

  function TrimSuffix(s: string, p: string): string {
    if HasSuffix(s, p) then s[..|s| - |p|] else s
  }

  // ---------- the order of names ----------

  /** Strict byte order, the order of Go's `<` on strings and of a bucket listing. */
  predicate LexLess(a: string, b: string) {
    if b == [] then false
    else if a == [] then true
    else a[0] < b[0] || (a[0] == b[0] && LexLess(a[1..], b[1..]))
  }

  lemma {:induction false} LexIrreflexive(a: string)
    ensures !LexLess(a, a)
  {
    if a != [] { LexIrreflexive(a[1..]); }
  }

  lemma {:induction false} LexTotal(a: string, b: string)
    ensures a == b || LexLess(a, b) || LexLess(b, a)
  {
    if a != [] && b != [] && a[0] == b[0] {
      LexTotal(a[1..], b[1..]);
      assert a[1..] == b[1..] ==> a == b by {
        assert a == [a[0]] + a[1..] && b == [b[0]] + b[1..];
      }
    }
  }

  lemma {:induction false} LexTransitive(a: string, b: string, c: string)
    requires LexLess(a, b) && LexLess(b, c)
    ensures LexLess(a, c)
  {
    if a != [] && a[0] == b[0] && b[0] == c[0] {
      LexTransitive(a[1..], b[1..], c[1..]);
    }
  }

  lemma {:induction false} LexCommonPrefix(p: string, a: string, b: string)
    ensures LexLess(p + a, p + b) <==> LexLess(a, b)
  {
    if p == [] {
      assert p + a == a && p + b == b;
    } else {
      assert (p + a)[1..] == p[1..] + a && (p + b)[1..] == p[1..] + b;
      LexCommonPrefix(p[1..], a, b);
    }
  }

  /** Two names of equal length that already differ keep their order whatever follows. */
  lemma {:induction false} LexExtend(a: string, b: string, x: string, y: string)
    requires |a| == |b| && LexLess(a, b)
    ensures LexLess(a + x, b + y)
  {
    assert (a + x)[0] == a[0] && (b + y)[0] == b[0];
    if a[0] == b[0] {
      assert (a + x)[1..] == a[1..] + x && (b + y)[1..] == b[1..] + y;
      LexExtend(a[1..], b[1..], x, y);
    }
  }

  /** A proper prefix comes first. */
  lemma LexPrefixFirst(p: string, s: string)
    requires HasPrefix(s, p)
    ensures p == s || LexLess(p, s)
  {
    var rest := s[|p|..];
    assert s == p + rest && p == p + [];
    LexCommonPrefix(p, [], rest);
  }

  // ---------- decimal numbers ----------

  predicate IsDigit(c: char) { '0' <= c <= '9' }

  predicate AllDigits(s: string) {
    forall i :: 0 <= i < |s| ==> IsDigit(s[i])
  }

  function DigitChar(n: nat): char
    requires n < 10
  {
    '0' + n as char
  }

  function DigitValue(c: char): nat
    requires IsDigit(c)
  {
    (c - '0') as nat
  }

  function Pow10(w: nat): nat {
    if w == 0 then 1 else 10 * Pow10(w - 1)
  }

  /** `%0<w>d` of a number below 10^w; larger numbers keep their last w digits. */
  function Digits(n: nat, w: nat): (s: string)
    ensures |s| == w && AllDigits(s)
  {
    if w == 0 then "" else Digits(n / 10, w - 1) + [DigitChar(n % 10)]
  }

  function Value(s: string): (n: nat)
    requires AllDigits(s)
  {
    if s == [] then 0 else 10 * Value(s[..|s| - 1]) + DigitValue(s[|s| - 1])
  }

  lemma {:induction false} ValueBound(s: string)
    requires AllDigits(s)
    ensures Value(s) < Pow10(|s|)
  {
    if s != [] { ValueBound(s[..|s| - 1]); }
  }

  lemma {:induction false} DigitsThenValue(n: nat, w: nat)
    requires n < Pow10(w)
    ensures Value(Digits(n, w)) == n
  {
    if w > 0 {
      DigitsThenValue(n / 10, w - 1);
      var s := Digits(n, w);
      assert s[..|s| - 1] == Digits(n / 10, w - 1);
    }
  }

  lemma {:induction false} ValueThenDigits(s: string)
    requires AllDigits(s)
    ensures Digits(Value(s), |s|) == s
  {
    if s != [] {
      ValueThenDigits(s[..|s| - 1]);
      assert s == s[..|s| - 1] + [s[|s| - 1]];
    }
  }

  /** Fixed-width numbers sort as numbers do. */
  lemma {:induction false} DigitsOrdered(a: nat, b: nat, w: nat)
    requires a < b < Pow10(w)
    ensures LexLess(Digits(a, w), Digits(b, w))
  {
    if w > 0 {
      var p, q := Digits(a / 10, w - 1), Digits(b / 10, w - 1);
      if a / 10 < b / 10 {
        DigitsOrdered(a / 10, b / 10, w - 1);
        LexExtend(p, q, [DigitChar(a % 10)], [DigitChar(b % 10)]);
      } else {
        LexCommonPrefix(p, [DigitChar(a % 10)], [DigitChar(b % 10)]);
      }
    }
  }

  lemma AppendDigit(n: nat, d: nat, w: nat)
    requires d < 10
    ensures Digits(10 * n + d, w + 1) == Digits(n, w) + [DigitChar(d)]
  {
  }

  // Widths the layouts use, with their bounds written out.

  lemma Powers()
    ensures Pow10(2) == 100 && Pow10(4) == 10_000 && Pow10(6) == 1_000_000
    ensures Pow10(8) == 100_000_000 && Pow10(12) == 1_000_000_000_000
  {
    assert Pow10(1) == 10;
    assert Pow10(3) == 1000;
    assert Pow10(5) == 100_000;
    assert Pow10(7) == 10_000_000;
    assert Pow10(9) == 1_000_000_000;
    assert Pow10(10) == 10_000_000_000;
    assert Pow10(11) == 100_000_000_000;
  }

  lemma TwoDigits(n: nat)
    requires n < 100
    ensures Value(Digits(n, 2)) == n
  {
    hide Pow10, Digits, Value;
    Powers();
    DigitsThenValue(n, 2);
  }

  lemma FourDigits(n: nat)
    requires n < 10_000
    ensures Value(Digits(n, 4)) == n
  {
    hide Pow10, Digits, Value;
    Powers();
    DigitsThenValue(n, 4);
  }

  /** Printing a two-digit field after another prints one wider number. */
  lemma JoinTwo(a: nat, b: nat, w: nat)
    requires b < 100
    ensures Digits(a, w) + Digits(b, 2) == Digits(a * 100 + b, w + 2)
  {
    AppendDigit(10 * a + b / 10, b % 10, w + 1);
    AppendDigit(a, b / 10, w);
    assert Digits(b, 2) == [DigitChar(b / 10), DigitChar(b % 10)] by {
      AppendDigit(b / 10, b % 10, 1);
      AppendDigit(0, b / 10, 0);
    }
  }

  /** `%d`: as many digits as the number needs, with a sign when negative. */
  function Decimal(n: int): (s: string)
    ensures s != [] && IsDigit(s[|s| - 1])
    decreases n < 0, if n < 0 then -n else n
  {
    if n < 0 then "-" + Decimal(-n)
    else if n < 10 then [DigitChar(n)]
    else Decimal(n / 10) + [DigitChar(n % 10)]
  }

  // ---------- file paths ----------

  function StripSlashes(path: string): (s: string)
    ensures |s| <= |path|
    ensures s != [] ==> s[|s| - 1] != '/'
  {
    if path != [] && path[|path| - 1] == '/' then StripSlashes(path[..|path| - 1]) else path
  }

  function AfterLastSlash(path: string): (s: string)
    ensures '/' !in s
  {
    if path == [] || path[|path| - 1] == '/' then ""
    else AfterLastSlash(path[..|path| - 1]) + [path[|path| - 1]]
  }

  /** `filepath.Base` on a slash-separated path. */
  function Base(path: string): string {
    if path == [] then "."
    else if StripSlashes(path) == [] then "/"
    else AfterLastSlash(StripSlashes(path))
  }
}
