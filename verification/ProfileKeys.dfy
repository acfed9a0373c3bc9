/** Quantised endpoints and the text of the profile cache key built from them. */
module ProfileKeys {
  /** Nearest thousandth, halves up; a quantised coordinate is kept as its number of thousandths. */
  function Quantise(degrees: real): int {
    (degrees * 1000.0 + 0.5).Floor
  }

  lemma QuantiseIsNearest(degrees: real)
    ensures -0.5 < Quantise(degrees) as real - degrees * 1000.0 <= 0.5
  {
  }

  datatype Point = Point(lat: int, lon: int)

  function Digit(d: nat): (c: char)
    requires d < 10
    ensures '0' <= c <= '9' && c as int - '0' as int == d
  {
    (d + '0' as int) as char
  }

  function Digits(n: nat): (s: string)
    ensures s != [] && forall i :: 0 <= i < |s| ==> '0' <= s[i] <= '9'
  {
    if n < 10 then [Digit(n)] else Digits(n / 10) + [Digit(n % 10)]
  }

  function Unsigned(m: nat): string {
    Digits(m / 1000) + "." + [Digit(m / 100 % 10), Digit(m / 10 % 10), Digit(m % 10)]
  }

  function Magnitude(thousandths: int): nat {
    if thousandths < 0 then -thousandths else thousandths
  }

  /** Fixed rendering with three decimals. */
  function Fixed3(thousandths: int): string {
    if thousandths < 0 then "-" + Unsigned(Magnitude(thousandths)) else Unsigned(thousandths)
  }

  function Render(p: Point): string {
    Fixed3(p.lat) + "," + Fixed3(p.lon)
  }

  const PREFIX := "elevation:profile:v1:z12:n200:"

  function Pair(from: Point, to: Point): string {
    Render(from) + ":" + Render(to)
  }

  function CacheKey(from: Point, to: Point): string {
    PREFIX + Pair(from, to)
  }

  // ---------------------------------------------------------------- the key tells the endpoints apart

  function Value(s: string): int {
    if s == [] then 0 else Value(s[..|s| - 1]) * 10 + (s[|s| - 1] as int - '0' as int)
  }

  lemma {:induction false} DigitsValue(n: nat)
    ensures Value(Digits(n)) == n
  {
    if n >= 10 {
      DigitsValue(n / 10);
      var init := Digits(n / 10);
      assert (init + [Digit(n % 10)])[..|init|] == init;
    } else {
      assert Value([Digit(n)]) == Value([]) * 10 + n by {
        assert [Digit(n)][..0] == [];
      }
    }
  }

  predicate Lacks(s: string, c: char) {
    forall i :: 0 <= i < |s| ==> s[i] != c
  }

  /** Where `c` first occurs, or the length if it does not. */
  function FirstAt(s: string, c: char): nat {
    if s == [] || s[0] == c then 0 else 1 + FirstAt(s[1..], c)
  }

  lemma {:induction false} FirstAfterHead(a: string, b: string, sep: char)
    requires Lacks(a, sep)
    ensures FirstAt(a + [sep] + b, sep) == |a|
  {
    if a == [] {
      assert (a + [sep] + b)[0] == sep;
    } else {
      FirstAfterHead(a[1..], b, sep);
      assert a[0] != sep;
      assert (a + [sep] + b)[1..] == a[1..] + [sep] + b;
    }
  }

  /** A separator found in neither head splits a text in one way only. */
  lemma SplitsOnce(a: string, b: string, x: string, y: string, sep: char)
    requires a + [sep] + b == x + [sep] + y && Lacks(a, sep) && Lacks(x, sep)
    ensures a == x && b == y
  {
    var s := a + [sep] + b;
    FirstAfterHead(a, b, sep);
    FirstAfterHead(x, y, sep);
    assert a == s[..|a|] && b == s[|a| + 1..];
    assert x == s[..|x|] && y == s[|x| + 1..];
  }

  lemma UnsignedTellsApart(m: nat, k: nat)
    requires Unsigned(m) == Unsigned(k)
    ensures m == k
  {
    var tail := [Digit(m / 100 % 10), Digit(m / 10 % 10), Digit(m % 10)];
    var tail' := [Digit(k / 100 % 10), Digit(k / 10 % 10), Digit(k % 10)];
    SplitsOnce(Digits(m / 1000), tail, Digits(k / 1000), tail', '.');
    DigitsValue(m / 1000);
    DigitsValue(k / 1000);
    assert tail[0] == tail'[0] && tail[1] == tail'[1] && tail[2] == tail'[2];
    ThousandthsAre(m);
    ThousandthsAre(k);
  }

  lemma ThousandthsAre(m: nat)
    ensures m == m / 1000 * 1000 + m / 100 % 10 * 100 + m / 10 % 10 * 10 + m % 10
  {
    assert m / 10 / 10 == m / 100 && m / 100 / 10 == m / 1000;
  }

  lemma FixedTellsApart(a: int, b: int)
    requires Fixed3(a) == Fixed3(b)
    ensures a == b
  {
    var x, y := Unsigned(Magnitude(a)), Unsigned(Magnitude(b));
    assert x[0] == Digits(Magnitude(a) / 1000)[0] && y[0] == Digits(Magnitude(b) / 1000)[0];
    assert Fixed3(a)[0] == '-' <==> a < 0;
    assert Fixed3(b)[0] == '-' <==> b < 0;
    if a < 0 {
      assert x == Fixed3(a)[1..] && y == Fixed3(b)[1..];
    }
    UnsignedTellsApart(Magnitude(a), Magnitude(b));
  }

  lemma NeitherHas(a: string, b: string, c: char)
    requires Lacks(a, c) && Lacks(b, c)
    ensures Lacks(a + b, c)
  {
  }

  lemma FixedIsPlain(a: int, c: char)
    requires c == ',' || c == ':'
    ensures Lacks(Fixed3(a), c)
  {
    var m := Magnitude(a);
    NeitherHas(Digits(m / 1000), ".", c);
    NeitherHas(Digits(m / 1000) + ".", [Digit(m / 100 % 10), Digit(m / 10 % 10), Digit(m % 10)], c);
    NeitherHas("-", Unsigned(m), c);
  }

  lemma RenderTellsApart(p: Point, q: Point)
    requires Render(p) == Render(q)
    ensures p == q
  {
    FixedIsPlain(p.lat, ',');
    FixedIsPlain(q.lat, ',');
    SplitsOnce(Fixed3(p.lat), Fixed3(p.lon), Fixed3(q.lat), Fixed3(q.lon), ',');
    FixedTellsApart(p.lat, q.lat);
    FixedTellsApart(p.lon, q.lon);
  }

  lemma RenderIsPlain(p: Point)
    ensures Lacks(Render(p), ':')
  {
    FixedIsPlain(p.lat, ':');
    FixedIsPlain(p.lon, ':');
    NeitherHas(Fixed3(p.lat), ",", ':');
    NeitherHas(Fixed3(p.lat) + ",", Fixed3(p.lon), ':');
  }

  lemma SamePrefix(p: string, a: string, b: string)
    requires p + a == p + b
    ensures a == b
  {
    assert a == (p + a)[|p|..] && b == (p + b)[|p|..];
  }

  /** Two requests share a cache entry exactly when their quantised endpoints are the same. */
  lemma KeysAreTheEndpoints(from: Point, to: Point, from': Point, to': Point)
    ensures CacheKey(from, to) == CacheKey(from', to') <==> from == from' && to == to'
  {
    if CacheKey(from, to) == CacheKey(from', to') {
      SamePrefix(PREFIX, Pair(from, to), Pair(from', to'));
      RenderIsPlain(from);
      RenderIsPlain(from');
      SplitsOnce(Render(from), Render(to), Render(from'), Render(to'), ':');
      RenderTellsApart(from, from');
      RenderTellsApart(to, to');
    }
  }
}
