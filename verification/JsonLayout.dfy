/**
 Texts that spell a value with white space between the tokens, with any legal escapes in strings and with repeated keys:
 the reader takes every one of them, and as the value that it spells.
 */
module JsonLayout {
  import opened Basics
  import opened Options
  import opened Keyed
  import opened Json
  import opened JsonPrint

  /** One character of a string: as it is, by its short escape, or by four hexadecimal digits. */
  datatype Piece = Raw(c: char) | Short(letter: char) | Hex(digits: string)

  /** A spelled value; words are null, true, false and the numbers. */
  datatype Layout = Word(v: Json)
                  | Quoted(pieces: seq<Piece>)
                  | Array(gap: string, items: seq<Item>)
                  | Record(gap: string, members: seq<Member>)

  datatype Item = Item(before: string, value: Layout, after: string)

  datatype Member = Member(before: string, key: seq<Piece>, behind: string, item: Item)

  const LOWER := "0123456789abcdef"
  const UPPER := "0123456789ABCDEF"
  const SHORT := "\"\\/bfnrt"

  // ---------------------------------------------------------------- what is spelled legally

  ghost predicate Gap(t: string) {
    forall i :: 0 <= i < |t| ==> t[i] == ' ' || t[i] == '\t' || t[i] == '\n' || t[i] == '\r'
  }

  ghost predicate HexDigit(c: char, d: nat) {
    d < 16 && (c == LOWER[d] || c == UPPER[d])
  }

  ghost predicate FourDigits(t: string, n: nat) {
    |t| == 4 && exists a: nat, b: nat, c: nat, d: nat ::
      && HexDigit(t[0], a) && HexDigit(t[1], b) && HexDigit(t[2], c) && HexDigit(t[3], d)
      && n == ((a * 16 + b) * 16 + c) * 16 + d
  }

  /** What a short escape stands for. */
  function ShortChar(letter: char): char {
    match letter
    case 'b' => 8 as char
    case 't' => 9 as char
    case 'n' => 10 as char
    case 'f' => 12 as char
    case 'r' => 13 as char
    case _ => letter
  }

  /** The piece spells the character; half of a surrogate pair spells the replacement character. */
  ghost predicate Spells(p: Piece, c: char) {
    match p
    case Raw(r) => c == r && r >= ' ' && r != '"' && r != '\\'
    case Short(letter) => letter in SHORT && c == ShortChar(letter)
    case Hex(digits) =>
      exists n: nat :: FourDigits(digits, n) && c as int == if 0xD800 <= n < 0xE000 then 0xFFFD else n
  }

  ghost predicate SpellsText(pieces: seq<Piece>, text: string) {
    |pieces| == |text| && forall i :: 0 <= i < |text| ==> Spells(pieces[i], text[i])
  }

  /** The layout spells the value; of members with one key the first gives the place and the last the value. */
  ghost predicate Says(l: Layout, v: Json)
    decreases l, 0
  {
    match l
    case Word(w) => v == w && Proper(w) && (w.Null? || w.Bool? || w.Num?)
    case Quoted(pieces) => v.Str? && SpellsText(pieces, v.s)
    case Array(gap, items) => v.Arr? && Gap(gap) && SaysItems(items, v.items)
    case Record(gap, members) =>
      v.Obj? && Gap(gap) && exists fields :: v.fields == Collect(FieldKey<Json>, fields) && SaysMembers(members, fields)
  }

  ghost predicate SaysItem(item: Item, v: Json)
    decreases item, 0
  {
    Gap(item.before) && Gap(item.after) && Says(item.value, v)
  }

  ghost predicate SaysItems(items: seq<Item>, values: seq<Json>)
    decreases items, 0
  {
    |items| == |values| && (items == [] || (SaysItem(items[0], values[0]) && SaysItems(items[1..], values[1..])))
  }

  ghost predicate SaysMember(m: Member, field: (string, Json))
    decreases m, 0
  {
    Gap(m.before) && Gap(m.behind) && SpellsText(m.key, field.0) && SaysItem(m.item, field.1)
  }

  ghost predicate SaysMembers(members: seq<Member>, fields: seq<(string, Json)>)
    decreases members, 0
  {
    && |members| == |fields|
    && (members == [] || (SaysMember(members[0], fields[0]) && SaysMembers(members[1..], fields[1..])))
  }

  // ---------------------------------------------------------------- the text of a layout

  function PieceText(p: Piece): string {
    match p
    case Raw(c) => [c]
    case Short(letter) => ['\\', letter]
    case Hex(digits) => "\\u" + digits
  }

  /** A string behind its opening quote. */
  function WriteText(pieces: seq<Piece>): string {
    if pieces == [] then "\"" else PieceText(pieces[0]) + WriteText(pieces[1..])
  }

  function Write(l: Layout): string {
    match l
    case Word(v) => Print(v)
    case Quoted(pieces) => "\"" + WriteText(pieces)
    case Array(gap, items) => "[" + if items == [] then gap + "]" else WriteItems(items)
    case Record(gap, members) => "{" + if members == [] then gap + "}" else WriteMembers(members)
  }

  function WriteItem(item: Item): string {
    item.before + (Write(item.value) + item.after)
  }

  function WriteItems(items: seq<Item>): string
    requires items != []
  {
    WriteItem(items[0]) + (if |items| == 1 then "]" else "," + WriteItems(items[1..]))
  }

  function WriteMember(m: Member): string {
    m.before + ("\"" + (WriteText(m.key) + (m.behind + (":" + WriteItem(m.item)))))
  }

  function WriteMembers(members: seq<Member>): string
    requires members != []
  {
    WriteMember(members[0]) + (if |members| == 1 then "}" else "," + WriteMembers(members[1..]))
  }

  // ---------------------------------------------------------------- space

  lemma {:induction false} SkipGap(s: string, i: nat, gap: string)
    requires Gap(gap) && StartsAt(s, i, gap)
    ensures SkipSpace(s, i) == SkipSpace(s, i + |gap|)
    decreases |gap|
  {
    if gap == [] {
      assert i + |gap| == i;
    } else {
      assert gap == gap[..1] + gap[1..];
      AtSplit(s, i, gap[..1], gap[1..]);
      AtChar(s, i, gap, 0);
      SkipGap(s, i + 1, gap[1..]);
    }
  }

  /** Space in front of a value does not matter. */
  lemma ValueBehindGap(s: string, i: nat, gap: string)
    requires Gap(gap) && StartsAt(s, i, gap)
    ensures ParseValue(s, i) == ParseValue(s, i + |gap|)
  {
    SkipGap(s, i, gap);
  }

  // ---------------------------------------------------------------- strings

  lemma HexDigitRead(c: char, d: nat)
    requires HexDigit(c, d)
    ensures HexValue(c) == Some(d)
  {
  }

  lemma ReadHex(s: string, i: nat, digits: string, n: nat)
    requires FourDigits(digits, n) && StartsAt(s, i, "\\u" + digits)
    ensures n < 0x1_0000 && |digits| == 4
    ensures ParseString(s, i) == Behind(s, if 0xD800 <= n < 0xE000 then '\U{FFFD}' else n as char, i + 6)
  {
    var a: nat, b: nat, c: nat, d: nat :|
      && HexDigit(digits[0], a) && HexDigit(digits[1], b) && HexDigit(digits[2], c) && HexDigit(digits[3], d)
      && n == ((a * 16 + b) * 16 + c) * 16 + d;
    HexDigitRead(digits[0], a);
    HexDigitRead(digits[1], b);
    HexDigitRead(digits[2], c);
    HexDigitRead(digits[3], d);
    AtSplit(s, i, "\\u", digits);
    AtChar(s, i, "\\u", 0);
    AtChar(s, i, "\\u", 1);
    AtChar(s, i + 2, digits, 0);
    AtChar(s, i + 2, digits, 1);
    AtChar(s, i + 2, digits, 2);
    AtChar(s, i + 2, digits, 3);
    HexUnitOf(s, i + 2, a, b, c, d);
  }

  lemma HexUnitOf(s: string, i: nat, a: nat, b: nat, c: nat, d: nat)
    requires i + 4 <= |s| && a < 16 && b < 16 && c < 16 && d < 16
    requires HexValue(s[i]) == Some(a) && HexValue(s[i + 1]) == Some(b)
    requires HexValue(s[i + 2]) == Some(c) && HexValue(s[i + 3]) == Some(d)
    ensures var n := ((a * 16 + b) * 16 + c) * 16 + d;
            n < 0x1_0000 && HexUnit(s, i) == Some(if 0xD800 <= n < 0xE000 then '\U{FFFD}' else n as char)
  {
    hide HexValue;
  }

  lemma ShortRead(letter: char)
    requires letter in SHORT
    ensures letter != 'u' && Escaped(letter) == Some(ShortChar(letter))
  {
  }

  lemma ReadPiece(s: string, i: nat, p: Piece, c: char)
    requires Spells(p, c) && StartsAt(s, i, PieceText(p))
    ensures ParseString(s, i) == Behind(s, c, i + |PieceText(p)|)
  {
    hide ParseString, Behind, FourDigits;
    match p
    case Raw(r) => ReadPlain(s, i, r);
    case Short(letter) =>
      ShortRead(letter);
      ReadEscaped(s, i, c, letter);
    case Hex(digits) =>
      var n: nat :| FourDigits(digits, n) && c as int == if 0xD800 <= n < 0xE000 then 0xFFFD else n;
      ReadHex(s, i, digits, n);
  }

  lemma {:induction false} ReadPieces(s: string, i: nat, pieces: seq<Piece>, text: string, end: nat)
    requires SpellsText(pieces, text) && StartsAt(s, i, WriteText(pieces)) && end == i + |WriteText(pieces)|
    ensures ParseString(s, i) == Some((text, end))
    decreases |pieces|
  {
    hide ParseString, PieceText, Spells;
    if pieces == [] {
      AtChar(s, i, "\"", 0);
      ReadQuote(s, i);
    } else {
      var first := PieceText(pieces[0]);
      AtSplit(s, i, first, WriteText(pieces[1..]));
      ReadPiece(s, i, pieces[0], text[0]);
      ReadPieces(s, i + |first|, pieces[1..], text[1..], end);
      BehindRead(s, text[0], i + |first|, text[1..], end);
      assert [text[0]] + text[1..] == text;
    }
  }

  // ---------------------------------------------------------------- where the parts of a written value stand

  /** What may stand behind a value: the end, space, a separator or a closing bracket. */
  predicate Ends(s: string, i: nat) {
    i == |s| || (i < |s| && (IsSpace(s[i]) || s[i] == ',' || s[i] == ']' || s[i] == '}'))
  }

  lemma WriteStarts(l: Layout, v: Json)
    requires Says(l, v)
    ensures Write(l) != [] && !IsSpace(Write(l)[0]) && Write(l)[0] != ']' && Write(l)[0] != '}'
  {
    if l.Word? {
      PrintStarts(v);
    }
  }

  lemma GapEnds(s: string, i: nat, gap: string)
    requires Gap(gap) && StartsAt(s, i, gap) && Ends(s, i + |gap|)
    ensures Ends(s, i)
  {
    if gap == [] {
      assert i + |gap| == i;
    } else {
      AtChar(s, i, gap, 0);
    }
  }

  /** Behind a gap nothing more is skipped when something else than space stands there. */
  lemma SkipTo(s: string, i: nat, gap: string)
    requires Gap(gap) && StartsAt(s, i, gap)
    requires i + |gap| == |s| || !IsSpace(s[i + |gap|])
    ensures SkipSpace(s, i) == i + |gap|
  {
    SkipGap(s, i, gap);
  }

  ghost predicate ReadsTo(s: string, i: nat, v: Json, j: nat) {
    && i <= |s| && ParseValue(s, i).Some?
    && ParseValue(s, i).value.0 == v && SkipSpace(s, ParseValue(s, i).value.1) == j
  }

  lemma ItemRead(s: string, i: nat, item: Item, v: Json, k: nat, j: nat)
    requires Gap(item.before) && Gap(item.after) && StartsAt(s, i, WriteItem(item))
    requires k == i + |item.before| + |Write(item.value)| && j == k + |item.after|
    requires j == |s| || !IsSpace(s[j])
    requires ReadsValue(s, i + |item.before|, v, k)
    ensures ReadsTo(s, i, v, j)
  {
    hide ParseValue, Write;
    AtSplit(s, i, item.before, Write(item.value) + item.after);
    AtSplit(s, i + |item.before|, Write(item.value), item.after);
    ValueBehindGap(s, i, item.before);
    SkipTo(s, k, item.after);
  }

  /** Where the parts of a member stand: its opening quote, the end of its key and the start of its item. */
  ghost predicate PartsAt(s: string, i: nat, m: Member, q: nat, a: nat, k: nat) {
    && q == i + |m.before| && StartsAt(s, i, m.before) && q < |s| && s[q] == '"'
    && a == q + 1 + |WriteText(m.key)| && StartsAt(s, q + 1, WriteText(m.key))
    && k == a + |m.behind| + 1 && StartsAt(s, a, m.behind) && k <= |s| && s[k - 1] == ':'
  }

  lemma MemberParts(s: string, i: nat, m: Member) returns (q: nat, a: nat, k: nat)
    requires StartsAt(s, i, WriteMember(m))
    ensures PartsAt(s, i, m, q, a, k)
    ensures StartsAt(s, k, WriteItem(m.item)) && i + |WriteMember(m)| == k + |WriteItem(m.item)|
  {
    hide WriteItem, WriteText;
    q := i + |m.before|;
    a := q + 1 + |WriteText(m.key)|;
    k := a + |m.behind| + 1;
    FiveParts(s, i, m.before, WriteText(m.key), m.behind, WriteItem(m.item));
  }

  lemma FiveParts(s: string, i: nat, before: string, key: string, behind: string, item: string)
    requires StartsAt(s, i, before + ("\"" + (key + (behind + (":" + item)))))
    ensures var q := i + |before|;
            var a := q + 1 + |key|;
            var k := a + |behind| + 1;
            && StartsAt(s, i, before) && q < |s| && s[q] == '"' && StartsAt(s, q + 1, key)
            && StartsAt(s, a, behind) && k <= |s| && s[k - 1] == ':' && StartsAt(s, k, item)
  {
    var q := i + |before|;
    var a := q + 1 + |key|;
    AtSplit(s, i, before, "\"" + (key + (behind + (":" + item))));
    ghost var tail := behind + (":" + item);
    AtSplit(s, q, "\"", key + tail);
    AtChar(s, q, "\"", 0);
    hide StartsAt;
    AtSplit(s, q + 1, key, tail);
    LastParts(s, a, behind, item);
  }

  lemma LastParts(s: string, a: nat, behind: string, item: string)
    requires StartsAt(s, a, behind + (":" + item))
    ensures var k := a + |behind| + 1;
            StartsAt(s, a, behind) && k <= |s| && s[k - 1] == ':' && StartsAt(s, k, item)
  {
    AtSplit(s, a, behind, ":" + item);
    AtSplit(s, a + |behind|, ":", item);
    AtChar(s, a + |behind|, ":", 0);
  }

  ghost predicate ReadsFieldTo(s: string, i: nat, field: (string, Json), j: nat) {
    && i <= |s| && ParseField(s, i).Some?
    && ParseField(s, i).value.0 == field && SkipSpace(s, ParseField(s, i).value.1) == j
  }

  lemma FieldStep(s: string, i: nat, q: nat, a: nat, k: nat, key: string, v: Json, j: nat)
    requires i <= q < |s| && SkipSpace(s, i) == q && s[q] == '"' && ParseString(s, q + 1) == Some((key, a))
    requires SkipSpace(s, a) == k - 1 && 0 < k <= |s| && s[k - 1] == ':' && ReadsTo(s, k, v, j)
    ensures ReadsFieldTo(s, i, (key, v), j)
  {
    hide ParseValue, ParseString, SkipSpace;
  }

  lemma MemberRead(s: string, i: nat, m: Member, key: string, v: Json, q: nat, a: nat, k: nat, j: nat)
    requires Gap(m.before) && Gap(m.behind) && SpellsText(m.key, key)
    requires PartsAt(s, i, m, q, a, k) && ReadsTo(s, k, v, j)
    ensures ReadsFieldTo(s, i, (key, v), j)
  {
    hide ReadsTo, ReadsFieldTo, ParseString, WriteText, SkipSpace;
    SkipTo(s, i, m.before);
    ReadPieces(s, q + 1, m.key, key, a);
    SkipTo(s, a, m.behind);
    FieldStep(s, i, q, a, k, key, v, j);
  }

  // ---------------------------------------------------------------- one step of the reader

  lemma LastItem(s: string, i: nat, v: Json, j: nat)
    requires ReadsTo(s, i, v, j) && j < |s| && s[j] == ']'
    ensures ReadsItems(s, i, [v], j + 1)
  {
  }

  lemma NextItem(s: string, i: nat, v: Json, j: nat, rest: seq<Json>, end: nat)
    requires ReadsTo(s, i, v, j) && j < |s| && s[j] == ',' && ReadsItems(s, j + 1, rest, end)
    ensures ReadsItems(s, i, [v] + rest, end)
  {
  }

  lemma LastMember(s: string, i: nat, field: (string, Json), j: nat)
    requires ReadsFieldTo(s, i, field, j) && j < |s| && s[j] == '}'
    ensures ReadsFields(s, i, [field], j + 1)
  {
  }

  lemma NextMember(s: string, i: nat, field: (string, Json), j: nat, rest: seq<(string, Json)>, end: nat)
    requires ReadsFieldTo(s, i, field, j) && j < |s| && s[j] == ',' && ReadsFields(s, j + 1, rest, end)
    ensures ReadsFields(s, i, [field] + rest, end)
  {
  }

  lemma EmptyBrackets(s: string, i: nat, gap: string, open: char, close: char)
    requires Gap(gap) && StartsAt(s, i, [open] + (gap + [close])) && !IsSpace(close)
    ensures i < |s| && s[i] == open && SkipSpace(s, i + 1) == i + 1 + |gap| < |s| && s[i + 1 + |gap|] == close
  {
    AtSplit(s, i, [open], gap + [close]);
    AtChar(s, i, [open], 0);
    AtSplit(s, i + 1, gap, [close]);
    AtChar(s, i + 1 + |gap|, [close], 0);
    SkipTo(s, i + 1, gap);
  }

  /** A value that begins with a bracket is read from there. */
  lemma StructureAt(s: string, i: nat)
    requires i < |s| && (s[i] == '[' || s[i] == '{')
    ensures ParseValue(s, i) == if s[i] == '[' then ParseArray(s, i) else ParseObject(s, i)
  {
  }

  // ---------------------------------------------------------------- reading

  lemma {:induction false} ReadWritten(s: string, i: nat, l: Layout, v: Json, end: nat)
    requires Says(l, v) && StartsAt(s, i, Write(l)) && end == i + |Write(l)| && Ends(s, end)
    ensures ReadsValue(s, i, v, end)
    decreases l, 1
  {
    match l
    case Word(w) => ReadWordOrNumber(s, i, w);
    case Quoted(pieces) => ReadQuoted(s, i, pieces, v.s, end);
    case Array(gap, items) => ReadWrittenArray(s, i, gap, items, v.items, end);
    case Record(gap, members) =>
      var fields :| v.fields == Collect(FieldKey<Json>, fields) && SaysMembers(members, fields);
      ReadWrittenRecord(s, i, gap, members, fields, end);
  }

  lemma ReadWordOrNumber(s: string, i: nat, v: Json)
    requires Proper(v) && (v.Null? || v.Bool? || v.Num?)
    requires StartsAt(s, i, Print(v)) && Ends(s, i + |Print(v)|)
    ensures ReadsValue(s, i, v, i + |Print(v)|)
  {
    hide ReadsValue, ParseValue;
    if v.Num? {
      ReadNumberBefore(s, i, v.lexeme);
    } else {
      ReadWord(s, i, v);
    }
  }

  lemma ReadNumberBefore(s: string, i: nat, lexeme: string)
    requires Proper(Num(lexeme)) && StartsAt(s, i, lexeme) && Ends(s, i + |lexeme|)
    ensures ReadsValue(s, i, Num(lexeme), i + |lexeme|)
  {
    hide NumberEnd, ParseString;
    NumberShift(s, i, lexeme);
    NumberStarts(s, i);
  }

  lemma ReadQuoted(s: string, i: nat, pieces: seq<Piece>, text: string, end: nat)
    requires SpellsText(pieces, text) && StartsAt(s, i, "\"" + WriteText(pieces))
    requires end == i + 1 + |WriteText(pieces)|
    ensures ReadsValue(s, i, Str(text), end)
  {
    hide ParseString, WriteText;
    AtSplit(s, i, "\"", WriteText(pieces));
    AtChar(s, i, "\"", 0);
    ReadPieces(s, i + 1, pieces, text, end);
  }

  lemma {:induction false} ReadWrittenArray(s: string, i: nat, gap: string, items: seq<Item>, values: seq<Json>,
                                            end: nat)
    requires Gap(gap) && SaysItems(items, values)
    requires StartsAt(s, i, Write(Array(gap, items))) && end == i + |Write(Array(gap, items))|
    ensures ReadsValue(s, i, Arr(values), end)
    decreases items, 2
  {
    hide ParseItems, SkipSpace, WriteItems;
    if items == [] {
      EmptyBrackets(s, i, gap, '[', ']');
      StructureAt(s, i);
    } else {
      AtSplit(s, i, "[", WriteItems(items));
      AtChar(s, i, "[", 0);
      StructureAt(s, i);
      ReadWrittenItems(s, i + 1, items, values, end);
      FirstItemAt(s, i + 1, items, values);
    }
  }

  /** Behind the space that follows an opening bracket stands the first item, not the closing bracket. */
  lemma FirstItemAt(s: string, i: nat, items: seq<Item>, values: seq<Json>)
    requires items != [] && SaysItems(items, values) && StartsAt(s, i, WriteItems(items))
    ensures SkipSpace(s, i) < |s| && s[SkipSpace(s, i)] != ']'
  {
    hide Write;
    var item := items[0];
    var rest := if |items| == 1 then "]" else "," + WriteItems(items[1..]);
    AtSplit(s, i, WriteItem(item), rest);
    AtSplit(s, i, item.before, Write(item.value) + item.after);
    AtSplit(s, i + |item.before|, Write(item.value), item.after);
    WriteStarts(item.value, values[0]);
    AtChar(s, i + |item.before|, Write(item.value), 0);
    SkipTo(s, i, item.before);
  }

  lemma FirstMemberAt(s: string, i: nat, members: seq<Member>, fields: seq<(string, Json)>)
    requires members != [] && SaysMembers(members, fields) && StartsAt(s, i, WriteMembers(members))
    ensures SkipSpace(s, i) < |s| && s[SkipSpace(s, i)] != '}'
  {
    hide WriteItem, WriteText;
    var m := members[0];
    var rest := if |members| == 1 then "}" else "," + WriteMembers(members[1..]);
    AtSplit(s, i, WriteMember(m), rest);
    var quoted := "\"" + (WriteText(m.key) + (m.behind + (":" + WriteItem(m.item))));
    AtSplit(s, i, m.before, quoted);
    AtChar(s, i + |m.before|, quoted, 0);
    SkipTo(s, i, m.before);
  }

  lemma {:induction false} ReadWrittenItem(s: string, i: nat, item: Item, v: Json, j: nat)
    requires SaysItem(item, v) && StartsAt(s, i, WriteItem(item)) && j == i + |WriteItem(item)|
    requires j == |s| || (j < |s| && (s[j] == ',' || s[j] == ']' || s[j] == '}'))
    ensures ReadsTo(s, i, v, j)
    decreases item, 1
  {
    hide ReadsValue, ReadsTo, Write, Says, Gap;
    var k := i + |item.before| + |Write(item.value)|;
    AtSplit(s, i, item.before, Write(item.value) + item.after);
    AtSplit(s, i + |item.before|, Write(item.value), item.after);
    GapEnds(s, k, item.after);
    ReadWritten(s, i + |item.before|, item.value, v, k);
    ItemRead(s, i, item, v, k, j);
  }

  lemma {:induction false} ReadWrittenItems(s: string, i: nat, items: seq<Item>, values: seq<Json>, end: nat)
    requires items != [] && SaysItems(items, values)
    requires StartsAt(s, i, WriteItems(items)) && end == i + |WriteItems(items)|
    ensures ReadsItems(s, i, values, end)
    decreases items, 1
  {
    hide ReadsItems, ReadsTo, WriteItem, SaysItem;
    var last, j := |items| == 1, i + |WriteItem(items[0])|;
    MemberAt(s, i, WriteItem(items[0]), last, ']', if last then "" else WriteItems(items[1..]));
    ReadWrittenItem(s, i, items[0], values[0], j);
    if last {
      LastItem(s, i, values[0], j);
      assert values == [values[0]];
    } else {
      ReadWrittenItems(s, j + 1, items[1..], values[1..], end);
      NextItem(s, i, values[0], j, values[1..], end);
      assert values == [values[0]] + values[1..];
    }
  }

  lemma {:induction false} ReadWrittenRecord(s: string, i: nat, gap: string, members: seq<Member>,
                                             fields: seq<(string, Json)>, end: nat)
    requires Gap(gap) && SaysMembers(members, fields)
    requires StartsAt(s, i, Write(Record(gap, members))) && end == i + |Write(Record(gap, members))|
    ensures ReadsValue(s, i, Obj(Collect(FieldKey<Json>, fields)), end)
    decreases members, 2
  {
    hide ParseFields, SkipSpace, WriteMembers;
    if members == [] {
      EmptyBrackets(s, i, gap, '{', '}');
      StructureAt(s, i);
    } else {
      AtSplit(s, i, "{", WriteMembers(members));
      AtChar(s, i, "{", 0);
      StructureAt(s, i);
      ReadWrittenMembers(s, i + 1, members, fields, end);
      FirstMemberAt(s, i + 1, members, fields);
    }
  }

  lemma {:induction false} ReadWrittenMembers(s: string, i: nat, members: seq<Member>, fields: seq<(string, Json)>,
                                              end: nat)
    requires members != [] && SaysMembers(members, fields)
    requires StartsAt(s, i, WriteMembers(members)) && end == i + |WriteMembers(members)|
    ensures ReadsFields(s, i, fields, end)
    decreases members, 1
  {
    hide ReadsFields, ReadsFieldTo, ReadsTo, PartsAt, Gap, SpellsText, SaysItem, WriteItem, WriteMember;
    var m, last, j := members[0], |members| == 1, i + |WriteMember(members[0])|;
    MemberAt(s, i, WriteMember(m), last, '}', if last then "" else WriteMembers(members[1..]));
    var q, a, k := MemberParts(s, i, m);
    ReadWrittenItem(s, k, m.item, fields[0].1, j);
    MemberRead(s, i, m, fields[0].0, fields[0].1, q, a, k, j);
    if last {
      LastMember(s, i, fields[0], j);
      assert fields == [fields[0]];
    } else {
      ReadWrittenMembers(s, j + 1, members[1..], fields[1..], end);
      NextMember(s, i, fields[0], j, fields[1..], end);
      assert fields == [fields[0]] + fields[1..];
    }
  }

  /** Every spelling of a value, with space around each token, is decoded as that value. */
  lemma DecodeWritten(item: Item, v: Json)
    requires SaysItem(item, v)
    ensures Decode(WriteItem(item)) == Some(v)
  {
    var s := WriteItem(item);
    assert s[0..|s|] == s;
    ReadWrittenItem(s, 0, item, v, |s|);
  }
}
