/** The name of the session-storage slot of one intent: a 32-bit hash and a length. */
module SlotName {
  import opened JsText
  import opened Options

  const WORD := 0x1_0000_0000

  type Word = n: nat | n < WORD

  type Unit = n: nat | n < 0x1_0000

  /** A JavaScript string: UTF-16 code units. */
  type Text = seq<Unit>

  const OFFSET: Word := 2166136261

  /** Bitwise exclusive or of two non-negative numbers. */
  function Xor(a: nat, b: nat): nat
    decreases a + b
  {
    if a == 0 && b == 0 then 0 else 2 * Xor(a / 2, b / 2) + (if a % 2 == b % 2 then 0 else 1)
  }

  lemma {:induction false} XorBound(a: nat, b: nat, n: nat)
    requires a < Pow2(n) && b < Pow2(n)
    ensures Xor(a, b) < Pow2(n)
    decreases n
  {
    if n > 0 {
      XorBound(a / 2, b / 2, n - 1);
    }
  }

  function Pow2(n: nat): nat {
    if n == 0 then 1 else 2 * Pow2(n - 1)
  }

  lemma XorWord(h: Word, unit: Unit)
    ensures Xor(h, unit) < WORD
  {
    assert Pow2(8) == 256;
    assert Pow2(16) == 256 * Pow2(8);
    assert Pow2(24) == 256 * Pow2(16);
    assert Pow2(32) == 256 * Pow2(24);
    XorBound(h, unit, 32);
  }

  lemma {:induction false} XorCancels(a: nat, b: nat)
    ensures Xor(Xor(a, b), b) == a && Xor(a, Xor(a, b)) == b
    decreases a + b
  {
    if a != 0 || b != 0 {
      XorCancels(a / 2, b / 2);
      var x := Xor(a, b);
      assert x / 2 == Xor(a / 2, b / 2);
      assert Xor(x, b) == if x == 0 && b == 0 then 0 else 2 * Xor(x / 2, b / 2) + (if x % 2 == b % 2 then 0 else 1);
      assert Xor(a, x) == if a == 0 && x == 0 then 0 else 2 * Xor(a / 2, x / 2) + (if a % 2 == x % 2 then 0 else 1);
    }
  }

  /** Math.imul with 16777619: the low 32 bits are the same whether the words are read as signed or unsigned. */
  function Scale(x: Word): Word {
    (x * 16777619) % WORD
  }

  function Unscale(x: Word): Word {
    (x * 899433627) % WORD
  }

  function Mix(h: Word, unit: Unit): Word {
    XorWord(h, unit);
    Scale(Xor(h, unit))
  }

  function Unmix(h: Word, unit: Unit): Word {
    XorWord(Unscale(h), unit);
    Xor(Unscale(h), unit)
  }

  function Fold<W, U>(mix: (W, U) -> W, h: W, t: seq<U>): W {
    if t == [] then h else Fold(mix, mix(h, t[0]), t[1..])
  }

  function Hash(t: Text): Word {
    Fold(Mix, OFFSET, t)
  }

  /** The reduction loop. */
  method ComputeHash(t: Text) returns (h: Word)
    ensures h == Hash(t)
  {
    h := OFFSET;
    var i := 0;
    assert t[0..] == t;
    while i < |t|
      invariant 0 <= i <= |t| && Fold(Mix, h, t[i..]) == Fold(Mix, OFFSET, t)
    {
      assert t[i..][1..] == t[i + 1..];
      h := Mix(h, t[i]);
      i := i + 1;
    }
  }

  /** The two multipliers are inverse to each other modulo the word size. */
  lemma ScaleIsBijection(x: Word)
    ensures Unscale(Scale(x)) == x && Scale(Unscale(x)) == x
  {
    var k := x * 16777619 / WORD;
    var l := x * 899433627 / WORD;
    assert 16777619 * 899433627 == 3513497 * WORD + 1;
    assert Scale(x) * 899433627 == x + WORD * (3513497 * x - k * 899433627);
    assert Unscale(x) * 16777619 == x + WORD * (3513497 * x - l * 16777619);
    Residue(Scale(x) * 899433627, x, 3513497 * x - k * 899433627);
    Residue(Unscale(x) * 16777619, x, 3513497 * x - l * 16777619);
  }

  lemma Residue(n: int, r: Word, q: int)
    requires n == r + WORD * q
    ensures n % WORD == r
  {
  }

  /** For every code unit the step is a bijection on 32-bit words. */
  lemma MixIsBijection(h: Word, unit: Unit)
    ensures Unmix(Mix(h, unit), unit) == h && Mix(Unmix(h, unit), unit) == h
  {
    XorWord(h, unit);
    XorWord(Unscale(h), unit);
    ScaleIsBijection(Xor(h, unit));
    ScaleIsBijection(h);
    XorCancels(h, unit);
    XorCancels(Unscale(h), unit);
  }

  lemma MixInjective(g: Word, h: Word, unit: Unit)
    requires Mix(g, unit) == Mix(h, unit)
    ensures g == h
  {
    MixIsBijection(g, unit);
    MixIsBijection(h, unit);
  }

  /** And for every word it is injective in the code unit. */
  lemma MixSeparatesUnits(h: Word, a: Unit, b: Unit)
    requires Mix(h, a) == Mix(h, b)
    ensures a == b
  {
    XorWord(h, a);
    XorWord(h, b);
    ScaleIsBijection(Xor(h, a));
    ScaleIsBijection(Xor(h, b));
    XorCancels(h, a);
    XorCancels(h, b);
  }

  lemma {:induction false} FoldInjective<W, U>(mix: (W, U) -> W, g: W, h: W, t: seq<U>)
    requires forall x, y, u :: mix(x, u) == mix(y, u) ==> x == y
    ensures Fold(mix, g, t) == Fold(mix, h, t) <==> g == h
  {
    if t != [] {
      FoldInjective(mix, mix(g, t[0]), mix(h, t[0]), t[1..]);
    }
  }

  lemma {:induction false} FoldConcat<W, U>(mix: (W, U) -> W, h: W, s: seq<U>, t: seq<U>)
    ensures Fold(mix, h, s + t) == Fold(mix, Fold(mix, h, s), t)
  {
    if s == [] {
      assert s + t == t;
    } else {
      assert (s + t)[1..] == s[1..] + t;
      FoldConcat(mix, mix(h, s[0]), s[1..], t);
    }
  }

  lemma FoldApart<W, U>(mix: (W, U) -> W, h: W, before: seq<U>, a: U, b: U, after: seq<U>)
    requires forall x, y, u :: mix(x, u) == mix(y, u) ==> x == y
    requires forall x, u, v :: mix(x, u) == mix(x, v) ==> u == v
    requires a != b
    ensures Fold(mix, h, before + [a] + after) != Fold(mix, h, before + [b] + after)
  {
    FoldConcat(mix, h, before + [a], after);
    FoldConcat(mix, h, before + [b], after);
    FoldConcat(mix, h, before, [a]);
    FoldConcat(mix, h, before, [b]);
    var k := Fold(mix, h, before);
    assert Fold(mix, k, [a]) == mix(k, a) && Fold(mix, k, [b]) == mix(k, b);
    FoldInjective(mix, mix(k, a), mix(k, b), after);
  }

  /** Texts that differ in exactly one code unit never share a hash. */
  lemma OneUnitApart(before: Text, a: Unit, b: Unit, after: Text)
    requires a != b
    ensures Hash(before + [a] + after) != Hash(before + [b] + after)
  {
    forall g, h, u | Mix(g, u) == Mix(h, u)
      ensures g == h
    {
      MixInjective(g, h, u);
    }
    forall h, u, v | Mix(h, u) == Mix(h, v)
      ensures u == v
    {
      MixSeparatesUnits(h, u, v);
    }
    FoldApart(Mix, OFFSET, before, a, b, after);
  }

  lemma FoldTwo<W, U>(mix: (W, U) -> W, h: W, a: U, b: U)
    ensures Fold(mix, h, [a, b]) == mix(mix(h, a), b)
  {
    assert [a, b] == [a] + [b];
    FoldConcat(mix, h, [a], [b]);
    assert Fold(mix, h, [a]) == mix(h, a);
  }

  lemma FoldPairs<W, U>(mix: (W, U) -> W, h: W, before: seq<U>, a: U, b: U, c: U, d: U, after: seq<U>)
    requires forall x, y, u :: mix(x, u) == mix(y, u) ==> x == y
    ensures var k := Fold(mix, h, before);
            Fold(mix, h, before + [a, b] + after) == Fold(mix, h, before + [c, d] + after) <==>
            mix(mix(k, a), b) == mix(mix(k, c), d)
  {
    var k := Fold(mix, h, before);
    FoldConcat(mix, h, before + [a, b], after);
    FoldConcat(mix, h, before + [c, d], after);
    FoldConcat(mix, h, before, [a, b]);
    FoldConcat(mix, h, before, [c, d]);
    FoldTwo(mix, k, a, b);
    FoldTwo(mix, k, c, d);
    FoldInjective(mix, mix(mix(k, a), b), mix(mix(k, c), d), after);
  }

  lemma MixOnXor(g: Word, u: Unit, h: Word, v: Unit)
    ensures Mix(g, u) == Mix(h, v) <==> Xor(g, u) == Xor(h, v)
  {
    XorWord(g, u);
    XorWord(h, v);
    ScaleIsBijection(Xor(g, u));
    ScaleIsBijection(Xor(h, v));
  }

  /** Two neighbouring changes cancel exactly when the second one undoes what the first did to the word. */
  lemma TwoUnitsApart(before: Text, a: Unit, b: Unit, c: Unit, d: Unit, after: Text)
    ensures Hash(before + [a, b] + after) == Hash(before + [c, d] + after) <==>
            Xor(Mix(Hash(before), a), b) == Xor(Mix(Hash(before), c), d)
  {
    forall x, y, u | Mix(x, u) == Mix(y, u)
      ensures x == y
    {
      MixInjective(x, y, u);
    }
    FoldPairs(Mix, OFFSET, before, a, b, c, d, after);
    MixOnXor(Mix(Hash(before), a), b, Mix(Hash(before), c), d);
  }

  // ---------------------------------------------------------------- the slot name

  function SlotName(intent: Text): string {
    PREFIX + (Digits(Hash(intent), true) + "." + Digits(|intent|, false))
  }

  const PREFIX := "truthward.requirement-pipeline-intent."

  lemma {:induction false} DottedInjective(a: string, b: string, c: string, d: string)
    requires a + "." + b == c + "." + d && '.' !in a && '.' !in c
    ensures a == c && b == d
  {
    var s, t := a + "." + b, c + "." + d;
    if a == [] || c == [] {
      assert s[0] == t[0];
      assert b == s[1..] && d == t[1..];
    } else {
      assert s[0] == t[0] && s[1..] == a[1..] + "." + b && t[1..] == c[1..] + "." + d;
      DottedInjective(a[1..], b, c[1..], d);
      assert a == [a[0]] + a[1..] && c == [c[0]] + c[1..];
    }
  }

  /** Two intents share a slot exactly when both the hash and the length agree. */
  lemma SharedSlot(a: Text, b: Text)
    ensures SlotName(a) == SlotName(b) <==> Hash(a) == Hash(b) && |a| == |b|
  {
    var m, n := Hash(a), Hash(b);
    NumbersInName(PREFIX, m, |a|, n, |b|);
  }

  lemma NumbersInName(prefix: string, m: nat, k: nat, n: nat, l: nat)
    ensures prefix + (Digits(m, true) + "." + Digits(k, false)) == prefix + (Digits(n, true) + "." + Digits(l, false))
       <==> m == n && k == l
  {
    var x, y := Digits(m, true) + "." + Digits(k, false), Digits(n, true) + "." + Digits(l, false);
    assert (prefix + x)[|prefix|..] == x && (prefix + y)[|prefix|..] == y;
    if x == y {
      DigitsHaveNoDot(m, true);
      DigitsHaveNoDot(n, true);
      DottedInjective(Digits(m, true), Digits(k, false), Digits(n, true), Digits(l, false));
      DigitsInjective(m, n, true);
      DigitsInjective(k, l, false);
    }
  }

  /** Equal-length intents that differ in exactly one code unit never share a slot. */
  lemma NeighboursNeverShare(before: Text, a: Unit, b: Unit, after: Text)
    requires a != b
    ensures SlotName(before + [a] + after) != SlotName(before + [b] + after)
  {
    OneUnitApart(before, a, b, after);
    SharedSlot(before + [a] + after, before + [b] + after);
  }

  // ---------------------------------------------------------------- collisions

  lemma {:induction false} XorZero(a: nat)
    ensures Xor(a, 0) == a
  {
    if a > 0 {
      XorZero(a / 2);
    }
  }

  lemma {:induction false} XorSelf(a: nat)
    ensures Xor(a, a) == 0
  {
    if a > 0 {
      XorSelf(a / 2);
    }
  }

  /** high, moved up by n bits. */
  function Shifted(high: nat, n: nat): nat {
    if n == 0 then high else 2 * Shifted(high, n - 1)
  }

  /** A number below 2^n leaves everything from bit n on as it is. */
  lemma {:induction false} XorKeepsHigh(high: nat, low: nat, u: nat, n: nat)
    requires low < Pow2(n) && u < Pow2(n)
    ensures Xor(Shifted(high, n) + low, u) == Shifted(high, n) + Xor(low, u)
    decreases n
  {
    if n == 0 {
      XorZero(high);
    } else {
      XorKeepsHigh(high, low / 2, u / 2, n - 1);
      XorStep(Shifted(high, n) + low, u);
      XorStep(low, u);
    }
  }

  lemma XorStep(a: nat, b: nat)
    ensures Xor(a, b) == 2 * Xor(a / 2, b / 2) + (if a % 2 == b % 2 then 0 else 1)
  {
    if a == 0 && b == 0 {
      assert Xor(a / 2, b / 2) == 0;
    }
  }

  const HALF := 0x1_0000

  lemma {:induction false} ShiftedTimes(high: nat, n: nat)
    ensures Shifted(high, n) == high * Pow2(n)
  {
    if n > 0 {
      ShiftedTimes(high, n - 1);
      TwiceAProduct(high, Pow2(n - 1));
    }
  }

  lemma TwiceAProduct(a: nat, b: nat)
    ensures 2 * (a * b) == a * (2 * b)
  {
  }

  lemma HalfIsPower(high: nat)
    ensures Pow2(16) == HALF && Shifted(high, 16) == high * HALF
  {
    assert Pow2(8) == 256;
    assert Pow2(16) == 256 * Pow2(8);
    ShiftedTimes(high, 16);
  }

  /** Whatever the word, some code unit turns its low half into any wanted one and keeps its high half. */
  lemma UnitFor(h: Word, low: Unit) returns (u: Unit)
    ensures Xor(h, u) == h / HALF * HALF + low
  {
    var l := h % HALF;
    HalfIsPower(h / HALF);
    XorBound(l, low, 16);
    u := Xor(l, low);
    XorCancels(l, low);
    XorKeepsHigh(h / HALF, l, u, 16);
    assert h == h / HALF * HALF + l;
  }

  const LOW1: Unit := 41631
  const LOW2: Unit := 160

  lemma LowOfProduct(high: nat, m: Word, q: nat)
    requires (high * HALF + LOW1) * 16777619 == WORD * q + m
    ensures m == m / HALF * HALF + 77
  {
    assert 41631 * 16777619 == 10657792 * HALF + 77;
    LowHalf(high * 16777619 + 10657792 - HALF * q, 77);
  }

  lemma NextProduct(x: nat, m: Word, q: nat)
    requires x * 16777619 == WORD * q + m && x >= LOW1
    ensures (x - LOW1 + LOW2) * 16777619 == WORD * (q - 162) + (m + 64403)
  {
    assert 41471 * 16777619 == 162 * WORD - 64403;
  }

  /** Two words with the same high half and these low halves have products with the same high half again. */
  lemma ProductsMeet(high: nat)
    requires high < HALF
    ensures Scale(high * HALF + LOW1) / HALF == Scale(high * HALF + LOW2) / HALF
  {
    hide Scale;
    var x, y: Word := high * HALF + LOW1, high * HALF + LOW2;
    var q := ScaleQuotient(x);
    LowOfProduct(high, Scale(x), q);
    NextProduct(x, Scale(x), q);
    SameHigh(Scale(x));
    ScaleFrom(y, Scale(x) + 64403, q - 162);
  }

  lemma ScaleQuotient(x: Word) returns (q: nat)
    ensures x * 16777619 == WORD * q + Scale(x)
  {
    q := x * 16777619 / WORD;
  }

  lemma ScaleFrom(x: Word, r: Word, q: int)
    requires x * 16777619 == WORD * q + r
    ensures Scale(x) == r
  {
    Residue(x * 16777619, r, q);
  }

  lemma SameHigh(m: Word)
    requires m == m / HALF * HALF + 77
    ensures m + 64403 < WORD && (m + 64403) / HALF == m / HALF
  {
    LowHalf(m / HALF, 64480);
  }

  lemma LowHalf(high: int, low: Unit)
    ensures (HALF * high + low) % HALF == low && (HALF * high + low) / HALF == high
  {
  }

  /** Behind every text there are two pairs of code units, different in the first unit, that meet in one word. */
  lemma MeetingUnits(h: Word) returns (a: Unit, b: Unit, c: Unit, d: Unit)
    ensures a != c && Xor(Mix(h, a), b) == Xor(Mix(h, c), d)
  {
    a := UnitFor(h, LOW1);
    c := UnitFor(h, LOW2);
    ProductsMeet(h / HALF);
    b := UnitFor(Mix(h, a), 0);
    d := UnitFor(Mix(h, c), 0);
  }

  /** The names of different intents do collide: behind every beginning and in front of every end. */
  lemma CollisionEverywhere(before: Text, after: Text) returns (a: Unit, b: Unit, c: Unit, d: Unit)
    ensures a != c && before + [a, b] + after != before + [c, d] + after
    ensures SlotName(before + [a, b] + after) == SlotName(before + [c, d] + after)
  {
    a, b, c, d := MeetingUnits(Hash(before));
    TwoUnitsApart(before, a, b, c, d, after);
    SharedSlot(before + [a, b] + after, before + [c, d] + after);
    assert (before + [a, b] + after)[|before|] == a && (before + [c, d] + after)[|before|] == c;
  }

  // ---------------------------------------------------------------- the payload behind the name

  const IDEMPOTENCY_KEY := "idempotencyKey"

  /** The payload fields that are serialised: an undefined idempotency key is left out. */
  function IntentFields<V>(payload: seq<(string, V)>): seq<(string, V)> {
    if payload == [] then []
    else (if payload[0].0 == IDEMPOTENCY_KEY then [] else [payload[0]]) + IntentFields(payload[1..])
  }

  function StorageKey<V>(stringify: seq<(string, V)> -> Text, payload: seq<(string, V)>): string {
    SlotName(stringify(IntentFields(payload)))
  }

  /** The slot does not depend on the idempotency key, wherever the payload carries it. */
  lemma {:induction false} KeyDoesNotMatter<V>(stringify: seq<(string, V)> -> Text, before: seq<(string, V)>, key: V,
                                               after: seq<(string, V)>)
    ensures IntentFields(before + [(IDEMPOTENCY_KEY, key)] + after) == IntentFields(before + after)
    ensures StorageKey(stringify, before + [(IDEMPOTENCY_KEY, key)] + after) == StorageKey(stringify, before + after)
  {
    var payload := before + [(IDEMPOTENCY_KEY, key)] + after;
    if before == [] {
      assert payload[1..] == after && before + after == after;
    } else {
      assert payload[1..] == before[1..] + [(IDEMPOTENCY_KEY, key)] + after;
      assert (before + after)[1..] == before[1..] + after;
      KeyDoesNotMatter(stringify, before[1..], key, after);
    }
  }

  /** And every other field is serialised as it stands, in its place. */
  lemma {:induction false} OtherFieldsStay<V>(a: seq<(string, V)>, field: (string, V), b: seq<(string, V)>)
    requires field.0 != IDEMPOTENCY_KEY
    ensures IntentFields(a + [field] + b) == IntentFields(a) + [field] + IntentFields(b)
  {
    var payload := a + [field] + b;
    if a == [] {
      assert payload[1..] == b;
    } else {
      assert payload[1..] == a[1..] + [field] + b;
      OtherFieldsStay(a[1..], field, b);
    }
  }

  lemma {:induction false} NothingElseIsDropped<V>(payload: seq<(string, V)>)
    requires forall i :: 0 <= i < |payload| ==> payload[i].0 != IDEMPOTENCY_KEY
    ensures IntentFields(payload) == payload
  {
    if payload != [] {
      NothingElseIsDropped(payload[1..]);
    }
  }

  // ---------------------------------------------------------------- what the name spells

  /** Bit k of a number: halve it k times. */
  function Bit(n: nat, k: nat): nat {
    if k == 0 then n % 2 else Bit(n / 2, k - 1)
  }

  /** The exclusive or has a bit exactly where one of the two numbers has it. */
  lemma {:induction false} XorBits(a: nat, b: nat, k: nat)
    ensures Bit(Xor(a, b), k) == if Bit(a, k) == Bit(b, k) then 0 else 1
    decreases k
  {
    hide Xor;
    XorHalves(a, b);
    if k > 0 {
      XorBits(a / 2, b / 2, k - 1);
    }
  }

  lemma XorHalves(a: nat, b: nat)
    ensures Xor(a, b) / 2 == Xor(a / 2, b / 2) && Xor(a, b) % 2 == if a % 2 == b % 2 then 0 else 1
  {
    hide Xor;
    XorStep(a, b);
  }

  /** The hash by its last unit: exclusive or, then the multiplication of which 32 bits are kept. */
  lemma HashOfNext(t: Text, unit: Unit)
    ensures Hash([]) == 2166136261
    ensures Hash(t + [unit]) == Xor(Hash(t), unit) * 16777619 % 4294967296
  {
    FoldConcat(Mix, OFFSET, t, [unit]);
    assert Fold(Mix, Hash(t), [unit]) == Mix(Hash(t), unit);
  }

  /** The number that a text of digits spells. */
  function Spelled(digits: string, base: nat): Option<nat> {
    if digits == [] then Some(0)
    else match (Spelled(digits[..|digits| - 1], base), Place(digits[|digits| - 1]))
      case (Some(n), Some(d)) => if d < base then Some(n * base + d) else None
      case _ => None
  }

  /** Where a character stands among the figures. */
  function Place(c: char): (d: Option<nat>)
    ensures d.Some? ==> d.value < 16 && "0123456789abcdef"[d.value] == c
    ensures d.None? ==> c !in "0123456789abcdef"
  {
    if '0' <= c <= '9' then Some(c as nat - 48) else if 'a' <= c <= 'f' then Some(c as nat - 87) else None
  }

  /** Both numbers of the name are spelled in their base, in small letters and without a leading zero. */
  lemma {:induction false} DigitsSpell(n: nat, hex: bool)
    ensures var t := Digits(n, hex);
            Spelled(t, if hex then 16 else 10) == Some(n) && t != [] && (n > 0 ==> t[0] != '0')
  {
    hide Digits, Spelled, Digit;
    var b := if hex then 16 else 10;
    DigitsStep(n, hex);
    if n < b {
      SpelledNext([], n, 0, b);
      assert [] + [Digit(n)] == [Digit(n)];
    } else {
      DigitsSpell(n / b, hex);
      SpelledNext(Digits(n / b, hex), n % b, n / b, b);
      Restored(n, b);
    }
  }

  lemma Restored(n: nat, b: nat)
    requires b > 0
    ensures n / b * b + n % b == n
  {
  }

  lemma DigitsStep(n: nat, hex: bool)
    ensures var b := if hex then 16 else 10;
            && Spelled([], b) == Some(0)
            && Digits(n, hex) == if n < b then [Digit(n)] else Digits(n / b, hex) + [Digit(n % b)]
  {
  }

  lemma SpelledNext(digits: string, d: nat, n: nat, base: nat)
    requires d < base <= 16 && Spelled(digits, base) == Some(n)
    ensures Spelled(digits + [Digit(d)], base) == Some(n * base + d)
    ensures d > 0 ==> Digit(d) != '0'
  {
    assert (digits + [Digit(d)])[..|digits|] == digits;
  }

  lemma NameSpells(intent: Text) returns (hash: string, length: string)
    ensures SlotName(intent) == "truthward.requirement-pipeline-intent." + hash + "." + length
    ensures Spelled(hash, 16) == Some(Hash(intent)) && Spelled(length, 10) == Some(|intent|)
  {
    hash, length := Digits(Hash(intent), true), Digits(|intent|, false);
    DigitsSpell(Hash(intent), true);
    DigitsSpell(|intent|, false);
    assert SlotName(intent) == PREFIX + hash + "." + length;
  }
}
