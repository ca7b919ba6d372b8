/** Text helpers with JavaScript's meaning. */
module JsText {
  import opened Basics

  /** White space and line terminators, as String.prototype.trim removes them. */
  predicate IsBlank(c: char) {
    var n := c as int;
    || 9 <= n <= 13 || n == 32 || n == 0xA0 || n == 0x1680 || 0x2000 <= n <= 0x200A
    || n == 0x2028 || n == 0x2029 || n == 0x202F || n == 0x205F || n == 0x3000 || n == 0xFEFF
  }

  function TrimStart(s: string): (r: string)
    ensures |r| <= |s| && (r != [] ==> !IsBlank(r[0]))
    ensures s == [] || !IsBlank(s[0]) ==> r == s
    ensures s != [] && r != s ==> IsBlank(s[0])
    ensures r != [] ==> s != [] && r[|r| - 1] == s[|s| - 1]
  {
    if s != [] && IsBlank(s[0]) then TrimStart(s[1..]) else s
  }

  function TrimEnd(s: string): (r: string)
    ensures |r| <= |s| && (r != [] ==> !IsBlank(r[|r| - 1]))
    ensures s == [] || !IsBlank(s[|s| - 1]) ==> r == s
    ensures r != [] ==> s != [] && r[0] == s[0]
  {
    if s != [] && IsBlank(s[|s| - 1]) then TrimEnd(s[..|s| - 1]) else s
  }

  function Trim(s: string): (r: string)
    ensures |r| <= |s|
  {
    TrimEnd(TrimStart(s))
  }

  /** Trimming a trimmed text changes nothing. */
  lemma TrimTwice(s: string)
    ensures Trim(Trim(s)) == Trim(s)
  {
  }

  predicate AllBlank(s: string) {
    forall i :: 0 <= i < |s| ==> IsBlank(s[i])
  }

  lemma {:induction false} TrimStartDrops(a: string, s: string)
    requires AllBlank(a)
    ensures TrimStart(a + s) == TrimStart(s)
  {
    if a == [] {
      assert a + s == s;
    } else {
      assert (a + s)[1..] == a[1..] + s;
      TrimStartDrops(a[1..], s);
    }
  }

  lemma {:induction false} TrimEndDrops(s: string, b: string)
    requires AllBlank(b)
    ensures TrimEnd(s + b) == TrimEnd(s)
  {
    if b == [] {
      assert s + b == s;
    } else {
      assert (s + b)[..|s + b| - 1] == s + b[..|b| - 1];
      TrimEndDrops(s, b[..|b| - 1]);
    }
  }

  /** Trimming removes the blanks around a text that begins and ends with something else, and nothing else. */
  lemma TrimMeaning(a: string, core: string, b: string)
    requires AllBlank(a) && AllBlank(b)
    requires core == "" || (!IsBlank(core[0]) && !IsBlank(core[|core| - 1]))
    ensures Trim(a + core + b) == core
  {
    assert a + core + b == a + (core + b);
    TrimStartDrops(a, core + b);
    TrimEndDrops(core, b);
    if core == "" {
      assert core + b == b && b + "" == b;
      TrimStartDrops(b, "");
    }
  }

  /** Nothing is left exactly of a text without a visible character. */
  lemma {:induction false} TrimsToNothing(s: string)
    ensures Trim(s) == "" <==> AllBlank(s)
  {
    if AllBlank(s) {
      assert s + "" + "" == s;
      TrimMeaning(s, "", "");
    } else {
      VisibleStart(s);
      var t := TrimStart(s);
      VisibleEnd(t);
    }
  }

  lemma {:induction false} VisibleStart(s: string)
    requires !AllBlank(s)
    ensures TrimStart(s) != []
  {
    if IsBlank(s[0]) {
      var i :| 0 <= i < |s| && !IsBlank(s[i]);
      assert s[1..][i - 1] == s[i];
      VisibleStart(s[1..]);
    }
  }

  lemma {:induction false} VisibleEnd(s: string)
    requires s != [] && !IsBlank(s[0])
    ensures TrimEnd(s) != []
  {
    if |s| > 1 {
      VisibleEnd(s[..|s| - 1]);
    }
  }

  predicate StartsWith(s: string, prefix: string) {
    prefix <= s
  }

  predicate Contains(s: string, part: string) {
    part <= s || (s != [] && Contains(s[1..], part))
  }

  /** Containing a part is having it at some position. */
  lemma {:induction false} ContainsMeaning(s: string, part: string)
    ensures Contains(s, part) <==> exists i: nat :: StartsAt(s, i, part)
  {
    assert StartsAt(s, 0, part) <==> part <= s;
    if !(part <= s) && s != [] {
      var tail := s[1..];
      ContainsMeaning(tail, part);
      forall i: nat
        ensures StartsAt(tail, i, part) <==> StartsAt(s, i + 1, part)
      {
        assert i + |part| <= |tail| ==> tail[i..i + |part|] == s[i + 1..i + 1 + |part|];
      }
      assert forall i: nat :: StartsAt(s, i, part) ==> StartsAt(tail, i - 1, part);
    }
  }

  function Digit(d: nat): char
    requires d < 16
  {
    if d < 10 then '0' + d as char else 'a' + (d - 10) as char
  }

  /** Number.prototype.toString for a non-negative number, in base 16 or 10. */
  function Digits(n: nat, hex: bool): string {
    if n < Base(hex) then [Digit(n)]
    else if hex then Digits(n / 16, hex) + [Digit(n % 16)]
    else Digits(n / 10, hex) + [Digit(n % 10)]
  }

  function Base(hex: bool): nat {
    if hex then 16 else 10
  }

  lemma {:induction false} DigitsHaveNoDot(n: nat, hex: bool)
    ensures Digits(n, hex) != [] && '.' !in Digits(n, hex)
  {
    if n >= Base(hex) {
      DigitsHaveNoDot(if hex then n / 16 else n / 10, hex);
    }
  }

  lemma DigitInjective(d: nat, e: nat)
    requires d < 16 && e < 16 && Digit(d) == Digit(e)
    ensures d == e
  {
  }

  lemma LastInjective<T>(s: seq<T>, x: T, t: seq<T>, y: T)
    requires s + [x] == t + [y]
    ensures s == t && x == y
  {
    assert (s + [x])[..|s|] == s && (t + [y])[..|t|] == t;
    assert |s + [x]| == |t + [y]|;
    assert (s + [x])[|s|] == (t + [y])[|t|];
  }

  lemma {:induction false} DigitsInjective(m: nat, n: nat, hex: bool)
    requires Digits(m, hex) == Digits(n, hex)
    ensures m == n
    decreases m
  {
    var b := Base(hex);
    if m >= b && n >= b {
      LastInjective(Digits(m / b, hex), Digit(m % b), Digits(n / b, hex), Digit(n % b));
      DigitInjective(m % b, n % b);
      DigitsInjective(m / b, n / b, hex);
    } else {
      DigitsHaveNoDot(m / b, hex);
      DigitsHaveNoDot(n / b, hex);
      if m < b && n < b {
        assert Digits(m, hex)[0] == Digits(n, hex)[0];
        DigitInjective(m, n);
      }
    }
  }
}
