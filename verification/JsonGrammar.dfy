/** The other direction: whatever the reader takes is a legal spelling of what it returns, so it takes nothing else. */
module JsonGrammar {
  import opened Basics
  import opened Options
  import opened Keyed
  import opened Json
  import opened JsonPrint
  import opened JsonLayout

  lemma Join(s: string, a: nat, b: nat, c: nat)
    requires a <= b <= c <= |s|
    ensures s[a..c] == s[a..b] + s[b..c]
  {
  }

  lemma {:induction false} SkippedIsGap(s: string, i: nat)
    requires i <= |s|
    ensures Gap(s[i..SkipSpace(s, i)])
    decreases |s| - i
  {
    if i < |s| && IsSpace(s[i]) {
      SkippedIsGap(s, i + 1);
      Join(s, i, i + 1, SkipSpace(s, i));
    }
  }

  // ---------------------------------------------------------------- strings

  lemma HexDigitSpelled(c: char)
    requires HexValue(c).Some?
    ensures HexValue(c).value < 16 && HexDigit(c, HexValue(c).value)
  {
    hide LOWER, UPPER;
    FiguresOf(HexValue(c).value);
  }

  lemma FiguresOf(d: nat)
    requires d < 16
    ensures |LOWER| == |UPPER| == 16
    ensures LOWER[d] as int == (if d < 10 then 48 + d else 87 + d)
    ensures UPPER[d] as int == (if d < 10 then 48 + d else 55 + d)
  {
  }

  lemma HexSpelled(s: string, i: nat) returns (n: nat)
    requires i + 4 <= |s| && HexUnit(s, i).Some?
    ensures FourDigits(s[i..i + 4], n)
    ensures HexUnit(s, i).value as int == if 0xD800 <= n < 0xE000 then 0xFFFD else n
  {
    hide HexValue, HexDigit;
    var t := s[i..i + 4];
    var a, b := HexValue(s[i]).value, HexValue(s[i + 1]).value;
    var c, d := HexValue(s[i + 2]).value, HexValue(s[i + 3]).value;
    HexDigitSpelled(t[0]);
    HexDigitSpelled(t[1]);
    HexDigitSpelled(t[2]);
    HexDigitSpelled(t[3]);
    HexUnitIs(s, i, a, b, c, d);
    n := ((a * 16 + b) * 16 + c) * 16 + d;
  }

  lemma HexUnitIs(s: string, i: nat, a: nat, b: nat, c: nat, d: nat)
    requires i + 4 <= |s| && a < 16 && b < 16 && c < 16 && d < 16
    requires HexValue(s[i]) == Some(a) && HexValue(s[i + 1]) == Some(b)
    requires HexValue(s[i + 2]) == Some(c) && HexValue(s[i + 3]) == Some(d)
    ensures var n := ((a * 16 + b) * 16 + c) * 16 + d;
            HexUnit(s, i).Some? && HexUnit(s, i).value as int == if 0xD800 <= n < 0xE000 then 0xFFFD else n
  {
    HexUnitOf(s, i, a, b, c, d);
  }

  lemma ShortSpelled(letter: char)
    requires Escaped(letter).Some?
    ensures letter in SHORT && Escaped(letter) == Some(ShortChar(letter))
  {
    assert SHORT[0] == '"' && SHORT[1] == '\\' && SHORT[2] == '/' && SHORT[3] == 'b' && SHORT[4] == 'f';
    assert SHORT[5] == 'n' && SHORT[6] == 'r' && SHORT[7] == 't';
  }

  /** The reader took the piece for the first character and went on behind it. */
  ghost predicate TookPiece(s: string, i: nat, p: Piece, next: nat)
    requires i <= |s| && ParseString(s, i).Some?
  {
    && i < next <= |s| && s[i..next] == PieceText(p) && ParseString(s, next).Some?
    && var (text, end) := ParseString(s, i).value;
       && text != [] && Spells(p, text[0])
       && (text[1..], end) == ParseString(s, next).value
  }

  lemma RawTaken(s: string, i: nat)
    requires i <= |s| && ParseString(s, i).Some? && s[i] != '"' && s[i] != '\\'
    ensures TookPiece(s, i, Raw(s[i]), i + 1)
  {
    var rest := ParseString(s, i + 1).value.0;
    assert ParseString(s, i).value.0 == [s[i]] + rest && ([s[i]] + rest)[1..] == rest;
  }

  lemma ShortTaken(s: string, i: nat)
    requires i <= |s| && ParseString(s, i).Some? && s[i] == '\\' && s[i + 1] != 'u'
    ensures TookPiece(s, i, Short(s[i + 1]), i + 2)
  {
    ShortSpelled(s[i + 1]);
    var c := Escaped(s[i + 1]).value;
    var rest := ParseString(s, i + 2).value.0;
    hide Escaped;
    assert ParseString(s, i).value.0 == [c] + rest && ([c] + rest)[1..] == rest;
  }

  lemma HexTaken(s: string, i: nat)
    requires i <= |s| && ParseString(s, i).Some? && s[i] == '\\' && s[i + 1] == 'u'
    ensures i + 6 <= |s| && TookPiece(s, i, Hex(s[i + 2..i + 6]), i + 6)
  {
    hide ParseString, HexUnit, Spells, PieceText;
    HexStep(s, i);
    HexPiece(s, i);
    var c := HexUnit(s, i + 2).value;
    FirstAndRest(c, ParseString(s, i + 6).value.0);
  }

  lemma FirstAndRest(c: char, rest: string)
    ensures ([c] + rest)[0] == c && ([c] + rest)[1..] == rest
  {
  }

  lemma HexPiece(s: string, i: nat)
    requires i + 6 <= |s| && s[i] == '\\' && s[i + 1] == 'u' && HexUnit(s, i + 2).Some?
    ensures s[i..i + 6] == PieceText(Hex(s[i + 2..i + 6]))
    ensures Spells(Hex(s[i + 2..i + 6]), HexUnit(s, i + 2).value)
  {
    hide HexUnit, FourDigits;
    var n := HexSpelled(s, i + 2);
    Join(s, i, i + 2, i + 6);
  }

  lemma HexStep(s: string, i: nat)
    requires i <= |s| && ParseString(s, i).Some? && s[i] == '\\' && s[i + 1] == 'u'
    ensures i + 6 <= |s| && HexUnit(s, i + 2).Some? && ParseString(s, i + 6).Some?
    ensures ParseString(s, i) == Behind(s, HexUnit(s, i + 2).value, i + 6)
  {
    hide HexUnit;
  }

  lemma PieceSpelled(s: string, i: nat) returns (p: Piece, next: nat)
    requires i <= |s| && ParseString(s, i).Some? && s[i] != '"'
    ensures TookPiece(s, i, p, next)
  {
    hide TookPiece;
    if s[i] != '\\' {
      p, next := Raw(s[i]), i + 1;
      RawTaken(s, i);
    } else if s[i + 1] == 'u' {
      HexTaken(s, i);
      p, next := Hex(s[i + 2..i + 6]), i + 6;
    } else {
      p, next := Short(s[i + 1]), i + 2;
      ShortTaken(s, i);
    }
  }

  lemma {:induction false} TextSpelled(s: string, i: nat) returns (pieces: seq<Piece>)
    requires i <= |s| && ParseString(s, i).Some?
    ensures SpellsText(pieces, ParseString(s, i).value.0)
    ensures s[i..ParseString(s, i).value.1] == WriteText(pieces)
    decreases |s| - i
  {
    hide Spells, PieceText;
    if s[i] == '"' {
      pieces := [];
    } else {
      var p, next := PieceSpelled(s, i);
      var rest := TextSpelled(s, next);
      pieces := [p] + rest;
      Join(s, i, next, ParseString(s, i).value.1);
      assert pieces[1..] == rest;
    }
  }

  // ---------------------------------------------------------------- values

  lemma ScalarSpelled(s: string, k: nat) returns (l: Layout)
    requires k < |s| && ParseScalar(s, k).Some?
    ensures Says(l, ParseScalar(s, k).value.0) && s[k..ParseScalar(s, k).value.1] == Write(l)
  {
    hide ParseString, NumberEnd, WriteText, SpellsText;
    if s[k] == '"' {
      var pieces := TextSpelled(s, k + 1);
      l := Quoted(pieces);
      Join(s, k, k + 1, ParseScalar(s, k).value.1);
    } else {
      l := Word(ParseScalar(s, k).value.0);
      if s[k] != 't' && s[k] != 'f' && s[k] != 'n' {
        NumberCut(s, k, NumberEnd(s, k).value);
      }
    }
  }

  /** What the reader takes at i is a gap and a layout. */
  lemma {:induction false} ValueSpelled(s: string, i: nat) returns (gap: string, l: Layout)
    requires i <= |s| && ParseValue(s, i).Some?
    ensures Gap(gap) && Says(l, ParseValue(s, i).value.0)
    ensures s[i..ParseValue(s, i).value.1] == gap + Write(l)
    decreases |s| - i, 1
  {
    hide Says, Write, Gap;
    var k := SkipSpace(s, i);
    gap := s[i..k];
    SkippedIsGap(s, i);
    if s[k] == '[' {
      l := ArraySpelled(s, k);
    } else if s[k] == '{' {
      l := ObjectSpelled(s, k);
    } else {
      l := ScalarSpelled(s, k);
    }
    Join(s, i, k, ParseValue(s, i).value.1);
  }

  /** A gap between two brackets. */
  lemma EmptySpelled(s: string, k: nat, m: nat)
    requires k < m < |s|
    ensures s[k..m + 1] == [s[k]] + (s[k + 1..m] + [s[m]])
  {
  }

  lemma {:induction false} ArraySpelled(s: string, k: nat) returns (l: Layout)
    requires k < |s| && s[k] == '[' && ParseArray(s, k).Some?
    ensures Says(l, ParseArray(s, k).value.0) && s[k..ParseArray(s, k).value.1] == Write(l)
    decreases |s| - k, 0
  {
    hide Gap, ParseItems, WriteItems;
    var m := SkipSpace(s, k + 1);
    if m < |s| && s[m] == ']' {
      SkippedIsGap(s, k + 1);
      l := Array(s[k + 1..m], []);
      EmptySpelled(s, k, m);
    } else {
      var items := ItemsSpelled(s, k + 1);
      NoGap();
      l := Array([], items);
      Join(s, k, k + 1, ParseArray(s, k).value.1);
    }
  }

  lemma NoGap()
    ensures Gap([])
  {
  }

  lemma {:induction false} ObjectSpelled(s: string, k: nat) returns (l: Layout)
    requires k < |s| && s[k] == '{' && ParseObject(s, k).Some?
    ensures Says(l, ParseObject(s, k).value.0) && s[k..ParseObject(s, k).value.1] == Write(l)
    decreases |s| - k, 0
  {
    hide Gap, ParseFields, WriteMembers;
    var m := SkipSpace(s, k + 1);
    if m < |s| && s[m] == '}' {
      SkippedIsGap(s, k + 1);
      l := Record(s[k + 1..m], []);
      NoMembers(l);
      EmptySpelled(s, k, m);
    } else {
      var members := MembersSpelled(s, k + 1);
      NoGap();
      l := Record([], members);
      RecordSays([], members, ParseFields(s, k + 1).value.0);
      Join(s, k, k + 1, ParseObject(s, k).value.1);
    }
  }

  lemma RecordSays(gap: string, members: seq<Member>, fields: seq<(string, Json)>)
    requires Gap(gap) && SaysMembers(members, fields)
    ensures Says(Record(gap, members), Obj(Collect(FieldKey<Json>, fields)))
  {
  }

  lemma NoMembers(l: Layout)
    requires l.Record? && Gap(l.gap) && l.members == []
    ensures Says(l, Obj([]))
  {
    assert Collect(FieldKey<Json>, []) == [];
    RecordSays(l.gap, [], []);
  }

  /** A value up to the separator or bracket behind it is an item. */
  lemma {:induction false} ItemSpelled(s: string, i: nat) returns (item: Item, k: nat)
    requires i <= |s| && ParseValue(s, i).Some?
    ensures SaysItem(item, ParseValue(s, i).value.0)
    ensures i <= k <= |s| && k == SkipSpace(s, ParseValue(s, i).value.1) && s[i..k] == WriteItem(item)
    decreases |s| - i, 2
  {
    hide Says, Write, Gap, ParseValue;
    var j := ParseValue(s, i).value.1;
    k := SkipSpace(s, j);
    var gap, l := ValueSpelled(s, i);
    SkippedIsGap(s, j);
    item := Item(gap, l, s[j..k]);
    Join(s, i, j, k);
    assert (gap + Write(l)) + s[j..k] == gap + (Write(l) + s[j..k]);
  }

  lemma LastItemWritten(item: Item, v: Json)
    requires SaysItem(item, v)
    ensures SaysItems([item], [v]) && WriteItems([item]) == WriteItem(item) + "]"
  {
    assert [item][1..] == [] && [v][1..] == [];
  }

  lemma NextItemWritten(item: Item, v: Json, items: seq<Item>, values: seq<Json>)
    requires SaysItem(item, v) && SaysItems(items, values) && items != []
    ensures SaysItems([item] + items, [v] + values)
    ensures WriteItems([item] + items) == WriteItem(item) + ("," + WriteItems(items))
  {
    assert ([item] + items)[1..] == items && ([v] + values)[1..] == values;
  }

  lemma {:induction false} ItemsSpelled(s: string, i: nat) returns (items: seq<Item>)
    requires i <= |s| && ParseItems(s, i).Some?
    ensures items != [] && SaysItems(items, ParseItems(s, i).value.0)
    ensures s[i..ParseItems(s, i).value.1] == WriteItems(items)
    decreases |s| - i, 3
  {
    hide ParseValue, WriteItem, WriteItems, SaysItem, SaysItems;
    var v := ParseValue(s, i).value.0;
    var item, k := ItemSpelled(s, i);
    if s[k] == ']' {
      items := [item];
      LastItemWritten(item, v);
      Join(s, i, k, k + 1);
    } else {
      var rest := ItemsSpelled(s, k + 1);
      items := [item] + rest;
      NextItemWritten(item, v, rest, ParseItems(s, k + 1).value.0);
      BehindComma(s, i, k, ParseItems(s, i).value.1);
    }
  }

  lemma {:induction false} MemberSpelled(s: string, i: nat) returns (m: Member, k: nat)
    requires i <= |s| && ParseField(s, i).Some?
    ensures SaysMember(m, ParseField(s, i).value.0)
    ensures i <= k <= |s| && k == SkipSpace(s, ParseField(s, i).value.1) && s[i..k] == WriteMember(m)
    decreases |s| - i, 2
  {
    hide ParseString, ParseValue, SaysItem, SpellsText, WriteItem, WriteText, Gap;
    var q := SkipSpace(s, i);
    var a := ParseString(s, q + 1).value.1;
    var colon := SkipSpace(s, a);
    var key := TextSpelled(s, q + 1);
    var item;
    item, k := ItemSpelled(s, colon + 1);
    SkippedIsGap(s, i);
    SkippedIsGap(s, a);
    m := Member(s[i..q], key, s[a..colon], item);
    FiveJoined(s, i, q, a, colon, k);
  }

  lemma FiveJoined(s: string, i: nat, q: nat, a: nat, colon: nat, k: nat)
    requires i <= q < a <= colon < k <= |s| && s[q] == '"' && s[colon] == ':'
    ensures s[i..k] == s[i..q] + ("\"" + (s[q + 1..a] + (s[a..colon] + (":" + s[colon + 1..k]))))
  {
    Join(s, i, q, k);
    Join(s, q, q + 1, k);
    Join(s, q + 1, a, k);
    LastJoined(s, a, colon, k);
  }

  lemma LastJoined(s: string, a: nat, colon: nat, k: nat)
    requires a <= colon < k <= |s| && s[colon] == ':'
    ensures s[a..k] == s[a..colon] + (":" + s[colon + 1..k])
  {
    Join(s, a, colon, k);
    Join(s, colon, colon + 1, k);
  }

  lemma LastMemberWritten(m: Member, field: (string, Json))
    requires SaysMember(m, field)
    ensures SaysMembers([m], [field]) && WriteMembers([m]) == WriteMember(m) + "}"
  {
    assert [m][1..] == [] && [field][1..] == [];
  }

  lemma NextMemberWritten(m: Member, field: (string, Json), members: seq<Member>, fields: seq<(string, Json)>)
    requires SaysMember(m, field) && SaysMembers(members, fields) && members != []
    ensures SaysMembers([m] + members, [field] + fields)
    ensures WriteMembers([m] + members) == WriteMember(m) + ("," + WriteMembers(members))
  {
    assert ([m] + members)[1..] == members && ([field] + fields)[1..] == fields;
  }

  lemma {:induction false} MembersSpelled(s: string, i: nat) returns (members: seq<Member>)
    requires i <= |s| && ParseFields(s, i).Some?
    ensures members != [] && SaysMembers(members, ParseFields(s, i).value.0)
    ensures s[i..ParseFields(s, i).value.1] == WriteMembers(members)
    decreases |s| - i, 3
  {
    hide ParseField, WriteMember, WriteMembers, SaysMember, SaysMembers;
    var field := ParseField(s, i).value.0;
    var m, k := MemberSpelled(s, i);
    if s[k] == '}' {
      members := [m];
      LastMemberWritten(m, field);
      Join(s, i, k, k + 1);
    } else {
      var rest := MembersSpelled(s, k + 1);
      members := [m] + rest;
      NextMemberWritten(m, field, rest, ParseFields(s, k + 1).value.0);
      BehindComma(s, i, k, ParseFields(s, i).value.1);
    }
  }

  lemma BehindComma(s: string, i: nat, k: nat, end: nat)
    requires i <= k < end <= |s| && s[k] == ','
    ensures s[i..end] == s[i..k] + ("," + s[k + 1..end])
  {
    Join(s, i, k, end);
    Join(s, k, k + 1, end);
  }

  /** The reader takes a text as a value if and only if the text spells that value. */
  lemma DecodesIffSpelled(s: string, v: Json)
    ensures Decode(s) == Some(v) <==> exists item :: SaysItem(item, v) && WriteItem(item) == s
  {
    hide SaysItem, WriteItem, ParseValue;
    if Decode(s) == Some(v) {
      var item, k := ItemSpelled(s, 0);
      assert s[0..|s|] == s;
      assert SaysItem(item, v) && WriteItem(item) == s;
    }
    forall item | SaysItem(item, v) && WriteItem(item) == s
      ensures Decode(s) == Some(v)
    {
      DecodeWritten(item, v);
    }
  }

  // ---------------------------------------------------------------- numbers

  predicate AllDigits(t: string) {
    forall i :: 0 <= i < |t| ==> IsDigit(t[i])
  }

  /** Zero, or digits that do not begin with zero. */
  predicate Whole(t: string) {
    t == "0" || (t != [] && t[0] != '0' && AllDigits(t))
  }

  predicate Fraction(t: string) {
    t == [] || (|t| > 1 && t[0] == '.' && AllDigits(t[1..]))
  }

  predicate Exponent(t: string) {
    || t == []
    || (|t| > 1 && (t[0] == 'e' || t[0] == 'E') && AllDigits(t[1..]))
    || (|t| > 2 && (t[0] == 'e' || t[0] == 'E') && (t[1] == '+' || t[1] == '-') && AllDigits(t[2..]))
  }

  /** x, y and z are the ends of sign, whole part and fraction; the exponent is the rest. */
  predicate NumberParts(l: string, x: nat, y: nat, z: nat) {
    && x <= y <= z <= |l|
    && (l[..x] == [] || l[..x] == "-") && Whole(l[x..y]) && Fraction(l[y..z]) && Exponent(l[z..])
  }

  lemma {:induction false} DigitsTaken(s: string, i: nat)
    requires i <= |s|
    ensures AllDigits(s[i..DigitsEnd(s, i)])
    decreases |s| - i
  {
    if i < |s| && IsDigit(s[i]) {
      DigitsTaken(s, i + 1);
      Join(s, i, i + 1, DigitsEnd(s, i));
    }
  }

  lemma {:induction false} DigitsStop(s: string, i: nat, j: nat)
    requires i <= j <= |s| && (forall m :: i <= m < j ==> IsDigit(s[m])) && (j == |s| || !IsDigit(s[j]))
    ensures DigitsEnd(s, i) == j
    decreases j - i
  {
    if i < j {
      DigitsStop(s, i + 1, j);
    }
  }

  lemma WholeTaken(l: string, x: nat)
    requires x <= |l| && IntegerEnd(l, x).Some?
    ensures Whole(l[x..IntegerEnd(l, x).value])
  {
    if l[x] != '0' {
      DigitsTaken(l, x + 1);
      Join(l, x, x + 1, IntegerEnd(l, x).value);
    }
  }

  lemma FractionTaken(l: string, y: nat)
    requires y <= |l| && FractionEnd(l, y).Some?
    ensures Fraction(l[y..FractionEnd(l, y).value])
  {
    if y < |l| && l[y] == '.' {
      DigitsTaken(l, y + 1);
      assert l[y..FractionEnd(l, y).value][1..] == l[y + 1..FractionEnd(l, y).value];
    }
  }

  lemma ExponentTaken(l: string, z: nat)
    requires z <= |l| && ExponentEnd(l, z) == Some(|l|)
    ensures Exponent(l[z..])
  {
    if z < |l| {
      var k := if z + 1 < |l| && (l[z + 1] == '+' || l[z + 1] == '-') then z + 2 else z + 1;
      DigitsTaken(l, k);
      assert l[z..][k - z..] == l[k..|l|];
    }
  }

  lemma NumberTaken(l: string) returns (x: nat, y: nat, z: nat)
    requires l != [] && NumberEnd(l, 0) == Some(|l|)
    ensures NumberParts(l, x, y, z)
  {
    hide IntegerEnd, FractionEnd, ExponentEnd, Whole, Fraction, Exponent;
    x := if l[0] == '-' then 1 else 0;
    y := IntegerEnd(l, x).value;
    z := FractionEnd(l, y).value;
    WholeTaken(l, x);
    FractionTaken(l, y);
    ExponentTaken(l, z);
  }

  lemma ExponentRead(l: string, z: nat)
    requires z <= |l| && Exponent(l[z..])
    ensures ExponentEnd(l, z) == Some(|l|)
    ensures z < |l| ==> l[z] == 'e' || l[z] == 'E'
  {
    var t := l[z..];
    if t != [] {
      assert t[0] == l[z];
      var k := if z + 1 < |l| && (l[z + 1] == '+' || l[z + 1] == '-') then z + 2 else z + 1;
      assert forall m :: 0 < m < |t| ==> t[m] == l[z + m];
      assert AllDigits(t[k - z..]) && t[k - z..] == l[k..];
      assert forall m :: k <= m < |l| ==> l[m] == l[k..][m - k];
      DigitsStop(l, k, |l|);
    }
  }

  lemma FractionRead(l: string, y: nat, z: nat)
    requires y <= z <= |l| && Fraction(l[y..z]) && (z < |l| ==> l[z] == 'e' || l[z] == 'E')
    ensures FractionEnd(l, y) == Some(z)
    ensures y < |l| ==> l[y] == '.' || l[y] == 'e' || l[y] == 'E'
  {
    var t := l[y..z];
    if t != [] {
      assert t[0] == l[y];
      assert forall m :: y < m < z ==> l[m] == t[1..][m - y - 1];
      DigitsStop(l, y + 1, z);
    }
  }

  lemma WholeRead(l: string, x: nat, y: nat)
    requires x <= y <= |l| && Whole(l[x..y]) && (y < |l| ==> l[y] == '.' || l[y] == 'e' || l[y] == 'E')
    ensures IntegerEnd(l, x) == Some(y) && IsDigit(l[x])
  {
    var t := l[x..y];
    assert t[0] == l[x];
    if t != "0" {
      assert forall m :: x <= m < y ==> l[m] == t[m - x];
      DigitsStop(l, x + 1, y);
    }
  }

  /** The numbers of a value are spelled by an optional minus, a whole part, a fraction and an exponent. */
  lemma ProperNumberIff(l: string)
    ensures Proper(Num(l)) <==> exists x, y, z :: NumberParts(l, x, y, z)
  {
    hide IntegerEnd, FractionEnd, ExponentEnd, Whole, Fraction, Exponent;
    if Proper(Num(l)) {
      var x, y, z := NumberTaken(l);
    }
    forall x: nat, y: nat, z: nat | NumberParts(l, x, y, z)
      ensures Proper(Num(l))
    {
      ExponentRead(l, z);
      FractionRead(l, y, z);
      WholeRead(l, x, y);
      assert l[..x] == [] ==> x == 0;
      assert l[..x] == "-" ==> x == 1 && l[0] == l[..x][0];
    }
  }
}
