/**
 Printing values as JSON.stringify does without indentation, and the proof that the reader reads every printed value
 back: the partner that pins the grammar down.
 */
module JsonPrint {
  import opened Basics
  import opened Options
  import opened Keyed
  import opened Json
  import opened JsText

  function EscapeChar(c: char): string {
    if c == '"' then "\\\""
    else if c == '\\' then "\\\\"
    else if c as int == 8 then "\\b"
    else if c as int == 12 then "\\f"
    else if c == '\n' then "\\n"
    else if c == '\r' then "\\r"
    else if c == '\t' then "\\t"
    else if c < ' ' then ['\\', 'u', '0', '0', Digit(c as nat / 16), Digit(c as nat % 16)]
    else [c]
  }

  function Escape(s: string): string {
    if s == [] then [] else EscapeChar(s[0]) + Escape(s[1..])
  }

  /** A string behind its opening quote. */
  function PrintText(s: string): string {
    Escape(s) + "\""
  }

  function Print(v: Json): string {
    match v
    case Null => "null"
    case Bool(b) => if b then "true" else "false"
    case Num(lexeme) => lexeme
    case Str(s) => "\"" + PrintText(s)
    case Arr(items) => if items == [] then "[]" else "[" + PrintItems(items)
    case Obj(fields) => if fields == [] then "{}" else "{" + PrintFields(fields)
  }

  /** Items with the separators between them and the closing bracket. */
  function PrintItems(items: seq<Json>): string
    requires items != []
  {
    Print(items[0]) + (if |items| == 1 then "]" else "," + PrintItems(items[1..]))
  }

  function PrintFields(fields: seq<(string, Json)>): string
    requires fields != []
  {
    PrintField(fields[0]) + (if |fields| == 1 then "}" else "," + PrintFields(fields[1..]))
  }

  function PrintField(field: (string, Json)): string {
    "\"" + PrintText(field.0) + ":" + Print(field.1)
  }

  /** Numbers are spelled as the grammar wants, and an object has one field per key. */
  ghost predicate Proper(v: Json) {
    match v
    case Num(lexeme) => lexeme != [] && NumberEnd(lexeme, 0) == Some(|lexeme|)
    case Arr(items) => ProperItems(items)
    case Obj(fields) => DistinctKeys(FieldKey<Json>, fields) && ProperFields(fields)
    case _ => true
  }

  ghost predicate ProperItems(items: seq<Json>) {
    items == [] || (Proper(items[0]) && ProperItems(items[1..]))
  }

  ghost predicate ProperFields(fields: seq<(string, Json)>) {
    fields == [] || (ProperField(fields[0]) && ProperFields(fields[1..]))
  }

  ghost predicate ProperField(field: (string, Json)) {
    Proper(field.1)
  }

  // ---------------------------------------------------------------- texts inside texts

  lemma AtSplit(s: string, i: nat, a: string, b: string)
    requires StartsAt(s, i, a + b)
    ensures StartsAt(s, i, a) && StartsAt(s, i + |a|, b)
  {
    assert (a + b)[..|a|] == a && (a + b)[|a|..] == b;
    assert s[i..i + |a + b|][..|a|] == s[i..i + |a|];
    assert s[i..i + |a + b|][|a|..] == s[i + |a|..i + |a + b|];
  }

  lemma AtChar(s: string, i: nat, t: string, k: nat)
    requires StartsAt(s, i, t) && k < |t|
    ensures s[i + k] == t[k]
  {
    assert s[i..i + |t|][k] == s[i + k];
  }

  /** What may stand behind a value: the end, a separator or a closing bracket. */
  predicate Stops(s: string, i: nat) {
    i == |s| || (i < |s| && (s[i] == ',' || s[i] == ']' || s[i] == '}'))
  }

  // ---------------------------------------------------------------- strings

  lemma HexOfDigit(d: nat)
    requires d < 16
    ensures HexValue(Digit(d)) == Some(d)
  {
  }

  lemma ControlUnit(s: string, i: nat, n: nat)
    requires n < 32 && StartsAt(s, i, ['0', '0', Digit(n / 16), Digit(n % 16)])
    ensures HexUnit(s, i) == Some(n as char)
  {
    var t := ['0', '0', Digit(n / 16), Digit(n % 16)];
    AtChar(s, i, t, 0);
    AtChar(s, i, t, 1);
    AtChar(s, i, t, 2);
    AtChar(s, i, t, 3);
    HexOfDigit(0);
    HexOfDigit(n / 16);
    HexOfDigit(n % 16);
  }

  /** The reader takes one printed character at a time. */
  function Behind(s: string, c: char, next: nat): Option<(string, nat)>
    requires next <= |s|
  {
    match ParseString(s, next)
    case None => None
    case Some((rest, j)) => Some(([c] + rest, j))
  }

  lemma ReadEscaped(s: string, i: nat, c: char, letter: char)
    requires StartsAt(s, i, ['\\', letter]) && letter != 'u' && Escaped(letter) == Some(c)
    ensures ParseString(s, i) == Behind(s, c, i + 2)
  {
    AtChar(s, i, ['\\', letter], 0);
    AtChar(s, i, ['\\', letter], 1);
  }

  lemma ReadControl(s: string, i: nat, c: char)
    requires c < ' ' && StartsAt(s, i, ['\\', 'u', '0', '0', Digit(c as nat / 16), Digit(c as nat % 16)])
    ensures ParseString(s, i) == Behind(s, c, i + 6)
  {
    var digits := ['0', '0', Digit(c as nat / 16), Digit(c as nat % 16)];
    var t := ['\\', 'u'] + digits;
    assert t == ['\\', 'u', '0', '0', Digit(c as nat / 16), Digit(c as nat % 16)];
    AtSplit(s, i, ['\\', 'u'], digits);
    AtChar(s, i, t, 0);
    AtChar(s, i, t, 1);
    ControlUnit(s, i + 2, c as nat);
  }

  lemma ReadPlain(s: string, i: nat, c: char)
    requires c >= ' ' && c != '"' && c != '\\' && StartsAt(s, i, [c])
    ensures ParseString(s, i) == Behind(s, c, i + 1)
  {
    AtChar(s, i, [c], 0);
  }

  lemma ReadChar(s: string, i: nat, c: char)
    requires StartsAt(s, i, EscapeChar(c))
    ensures ParseString(s, i) == Behind(s, c, i + |EscapeChar(c)|)
  {
    if c == '"' {
      ReadEscaped(s, i, c, '"');
    } else if c == '\\' {
      ReadEscaped(s, i, c, '\\');
    } else if c as int == 8 {
      ReadEscaped(s, i, c, 'b');
    } else if c as int == 12 {
      ReadEscaped(s, i, c, 'f');
    } else if c == '\n' {
      ReadEscaped(s, i, c, 'n');
    } else if c == '\r' {
      ReadEscaped(s, i, c, 'r');
    } else if c == '\t' {
      ReadEscaped(s, i, c, 't');
    } else if c < ' ' {
      ReadControl(s, i, c);
    } else {
      ReadPlain(s, i, c);
    }
  }

  lemma ReadQuote(s: string, i: nat)
    requires StartsAt(s, i, PrintText(""))
    ensures ParseString(s, i) == Some(("", i + |PrintText("")|))
  {
    AtChar(s, i, PrintText(""), 0);
  }

  lemma BehindRead(s: string, c: char, next: nat, rest: string, end: nat)
    requires next <= |s| && ParseString(s, next) == Some((rest, end))
    ensures Behind(s, c, next) == Some(([c] + rest, end))
  {
  }

  lemma {:induction false} ReadText(s: string, i: nat, text: string, end: nat)
    requires StartsAt(s, i, PrintText(text)) && end == i + |PrintText(text)|
    ensures ParseString(s, i) == Some((text, end))
    decreases |text|
  {
    hide ParseString, EscapeChar;
    if text == [] {
      ReadQuote(s, i);
    } else {
      var first := EscapeChar(text[0]);
      assert PrintText(text) == first + PrintText(text[1..]);
      AtSplit(s, i, first, PrintText(text[1..]));
      ReadChar(s, i, text[0]);
      ReadText(s, i + |first|, text[1..], end);
      BehindRead(s, text[0], i + |first|, text[1..], end);
      assert [text[0]] + text[1..] == text;
    }
  }

  // ---------------------------------------------------------------- numbers

  /** No character that could belong to a number stands behind the lexeme. */
  predicate NumberStops(s: string, i: nat) {
    i <= |s| && (i < |s| ==> !IsDigit(s[i]) && s[i] != '.' && s[i] != 'e' && s[i] != 'E')
  }

  lemma {:induction false} DigitsShift(s: string, i: nat, l: string, k: nat)
    requires StartsAt(s, i, l) && k <= |l| && NumberStops(s, i + |l|)
    ensures DigitsEnd(s, i + k) == i + DigitsEnd(l, k)
    decreases |l| - k
  {
    if k < |l| {
      AtChar(s, i, l, k);
      DigitsShift(s, i, l, k + 1);
    }
  }

  lemma IntegerShift(s: string, i: nat, l: string, k: nat)
    requires StartsAt(s, i, l) && k <= |l| && NumberStops(s, i + |l|) && IntegerEnd(l, k).Some?
    ensures IntegerEnd(s, i + k) == Some(i + IntegerEnd(l, k).value)
  {
    AtChar(s, i, l, k);
    DigitsShift(s, i, l, k + 1);
  }

  lemma FractionShift(s: string, i: nat, l: string, k: nat)
    requires StartsAt(s, i, l) && k <= |l| && NumberStops(s, i + |l|) && FractionEnd(l, k).Some?
    ensures FractionEnd(s, i + k) == Some(i + FractionEnd(l, k).value)
  {
    if k < |l| {
      AtChar(s, i, l, k);
      DigitsShift(s, i, l, k + 1);
    }
  }

  lemma ExponentShift(s: string, i: nat, l: string, k: nat)
    requires StartsAt(s, i, l) && k <= |l| && NumberStops(s, i + |l|) && ExponentEnd(l, k).Some?
    ensures ExponentEnd(s, i + k) == Some(i + ExponentEnd(l, k).value)
  {
    if k < |l| {
      AtChar(s, i, l, k);
      DigitsShift(s, i, l, k + 1);
      if k + 1 < |l| {
        AtChar(s, i, l, k + 1);
        DigitsShift(s, i, l, k + 2);
      }
    }
  }

  lemma NumberStarts(s: string, i: nat)
    requires i < |s| && NumberEnd(s, i).Some?
    ensures IsDigit(s[i]) || s[i] == '-'
  {
  }

  lemma NumberShift(s: string, i: nat, l: string)
    requires StartsAt(s, i, l) && NumberStops(s, i + |l|) && l != [] && NumberEnd(l, 0) == Some(|l|)
    ensures NumberEnd(s, i) == Some(i + |l|)
  {
    hide IntegerEnd, FractionEnd, ExponentEnd;
    AtChar(s, i, l, 0);
    var k := if l[0] == '-' then 1 else 0;
    IntegerShift(s, i, l, k);
    FractionShift(s, i, l, IntegerEnd(l, k).value);
    ExponentShift(s, i, l, FractionEnd(l, IntegerEnd(l, k).value).value);
  }

  // ---------------------------------------------------------------- values

  /** A printed value begins with none of the characters that separate or close. */
  lemma PrintStarts(v: Json)
    requires Proper(v)
    ensures Print(v) != [] && !IsSpace(Print(v)[0]) && Print(v)[0] != ']' && Print(v)[0] != '}'
  {
    if v.Num? {
      NumberStarts(v.lexeme, 0);
    }
  }

  lemma ReadNumber(s: string, i: nat, lexeme: string)
    requires Proper(Num(lexeme)) && StartsAt(s, i, lexeme) && Stops(s, i + |lexeme|)
    ensures ReadsValue(s, i, Num(lexeme), i + |lexeme|)
  {
    hide NumberEnd, ParseString;
    NumberShift(s, i, lexeme);
    NumberStarts(s, i);
  }

  lemma ReadWord(s: string, i: nat, v: Json)
    requires (v.Null? || v.Bool?) && StartsAt(s, i, Print(v))
    ensures ReadsValue(s, i, v, i + |Print(v)|)
  {
    AtChar(s, i, Print(v), 0);
  }

  lemma ReadStr(s: string, i: nat, text: string)
    requires StartsAt(s, i, "\"" + PrintText(text))
    ensures ReadsValue(s, i, Str(text), i + 1 + |PrintText(text)|)
  {
    AtSplit(s, i, "\"", PrintText(text));
    AtChar(s, i, "\"", 0);
    ReadText(s, i + 1, text, i + 1 + |PrintText(text)|);
  }

  // ---------------------------------------------------------------- one step of the reader

  ghost predicate ReadsValue(s: string, i: nat, v: Json, j: nat) {
    i <= |s| && ParseValue(s, i) == Some((v, j))
  }

  ghost predicate ReadsItems(s: string, i: nat, items: seq<Json>, j: nat) {
    i <= |s| && ParseItems(s, i) == Some((items, j))
  }

  ghost predicate ReadsField(s: string, i: nat, field: (string, Json), j: nat) {
    i <= |s| && ParseField(s, i) == Some((field, j))
  }

  ghost predicate ReadsFields(s: string, i: nat, fields: seq<(string, Json)>, j: nat) {
    i <= |s| && ParseFields(s, i) == Some((fields, j))
  }

  lemma StepArray(s: string, i: nat, items: seq<Json>, j: nat)
    requires i + 1 < |s| && s[i] == '[' && !IsSpace(s[i + 1]) && s[i + 1] != ']' && ReadsItems(s, i + 1, items, j)
    ensures ReadsValue(s, i, Arr(items), j)
  {
  }

  lemma StepObject(s: string, i: nat, fields: seq<(string, Json)>, j: nat)
    requires i + 1 < |s| && s[i] == '{' && !IsSpace(s[i + 1]) && s[i + 1] != '}' && ReadsFields(s, i + 1, fields, j)
    requires DistinctKeys(FieldKey<Json>, fields)
    ensures ReadsValue(s, i, Obj(fields), j)
  {
    CollectDistinct(FieldKey<Json>, fields);
  }

  lemma StepEmpty(s: string, i: nat)
    ensures StartsAt(s, i, "[]") ==> ReadsValue(s, i, Arr([]), i + 2)
    ensures StartsAt(s, i, "{}") ==> ReadsValue(s, i, Obj([]), i + 2)
  {
    if StartsAt(s, i, "[]") {
      AtChar(s, i, "[]", 0);
      AtChar(s, i, "[]", 1);
    }
    if StartsAt(s, i, "{}") {
      AtChar(s, i, "{}", 0);
      AtChar(s, i, "{}", 1);
    }
  }

  lemma StepLastItem(s: string, i: nat, items: seq<Json>, j: nat)
    requires |items| == 1 && ReadsValue(s, i, items[0], j) && j < |s| && s[j] == ']'
    ensures ReadsItems(s, i, items, j + 1)
  {
    assert items == [items[0]];
  }

  lemma StepItem(s: string, i: nat, items: seq<Json>, j: nat, end: nat)
    requires |items| > 1 && ReadsValue(s, i, items[0], j) && j < |s| && s[j] == ','
    requires ReadsItems(s, j + 1, items[1..], end)
    ensures ReadsItems(s, i, items, end)
  {
    assert items == [items[0]] + items[1..];
  }

  lemma StepPair(s: string, i: nat, field: (string, Json), colon: nat, j: nat)
    requires i < |s| && s[i] == '"' && ParseString(s, i + 1) == Some((field.0, colon))
    requires colon < |s| && s[colon] == ':' && ReadsValue(s, colon + 1, field.1, j)
    ensures ReadsField(s, i, field, j)
  {
    hide ParseString, ParseValue;
  }

  lemma StepLastField(s: string, i: nat, fields: seq<(string, Json)>, j: nat)
    requires |fields| == 1 && ReadsField(s, i, fields[0], j) && j < |s| && s[j] == '}'
    ensures ReadsFields(s, i, fields, j + 1)
  {
    assert fields == [fields[0]];
  }

  lemma StepField(s: string, i: nat, fields: seq<(string, Json)>, j: nat, end: nat)
    requires |fields| > 1 && ReadsField(s, i, fields[0], j) && j < |s| && s[j] == ','
    requires ReadsFields(s, j + 1, fields[1..], end)
    ensures ReadsFields(s, i, fields, end)
  {
    assert fields == [fields[0]] + fields[1..];
  }

  // ---------------------------------------------------------------- where the parts of a printed value stand

  lemma ArrayAt(s: string, i: nat, items: seq<Json>)
    requires items != [] && ProperItems(items) && StartsAt(s, i, Print(Arr(items)))
    ensures StartsAt(s, i + 1, PrintItems(items)) && |Print(Arr(items))| == 1 + |PrintItems(items)|
    ensures i + 1 < |s| && s[i] == '[' && !IsSpace(s[i + 1]) && s[i + 1] != ']'
  {
    AtSplit(s, i, "[", PrintItems(items));
    AtChar(s, i, "[", 0);
    PrintStarts(items[0]);
    AtChar(s, i + 1, PrintItems(items), 0);
  }

  lemma ObjectAt(s: string, i: nat, fields: seq<(string, Json)>)
    requires fields != [] && StartsAt(s, i, Print(Obj(fields)))
    ensures StartsAt(s, i + 1, PrintFields(fields)) && |Print(Obj(fields))| == 1 + |PrintFields(fields)|
    ensures i + 1 < |s| && s[i] == '{' && !IsSpace(s[i + 1]) && s[i + 1] != '}'
  {
    AtSplit(s, i, "{", PrintFields(fields));
    AtChar(s, i, "{", 0);
    assert PrintFields(fields)[0] == PrintField(fields[0])[0] == '"';
    AtChar(s, i + 1, PrintFields(fields), 0);
  }

  /** A printed member of a list, and the separator or bracket behind it. */
  lemma MemberAt(s: string, i: nat, first: string, last: bool, close: char, more: string)
    requires StartsAt(s, i, first + (if last then [close] else "," + more))
    ensures StartsAt(s, i, first) && i + |first| < |s| && s[i + |first|] == if last then close else ','
    ensures !last ==> StartsAt(s, i + |first| + 1, more)
  {
    var rest := if last then [close] else "," + more;
    AtSplit(s, i, first, rest);
    AtChar(s, i + |first|, rest, 0);
    if !last {
      AtSplit(s, i + |first|, ",", more);
    }
  }

  lemma ItemsAt(s: string, i: nat, items: seq<Json>) returns (j: nat)
    requires items != [] && StartsAt(s, i, PrintItems(items))
    ensures StartsAt(s, i, Print(items[0])) && j == i + |Print(items[0])| && Stops(s, j) && j < |s|
    ensures |items| == 1 ==> s[j] == ']' && i + |PrintItems(items)| == j + 1
    ensures |items| > 1 ==> s[j] == ',' && StartsAt(s, j + 1, PrintItems(items[1..]))
                            && i + |PrintItems(items)| == j + 1 + |PrintItems(items[1..])|
  {
    hide Print;
    var last := |items| == 1;
    j := i + |Print(items[0])|;
    MemberAt(s, i, Print(items[0]), last, ']', if last then "" else PrintItems(items[1..]));
  }

  lemma FieldsAt(s: string, i: nat, fields: seq<(string, Json)>) returns (j: nat)
    requires fields != [] && StartsAt(s, i, PrintFields(fields))
    ensures StartsAt(s, i, PrintField(fields[0])) && j == i + |PrintField(fields[0])| && Stops(s, j) && j < |s|
    ensures |fields| == 1 ==> s[j] == '}' && i + |PrintFields(fields)| == j + 1
    ensures |fields| > 1 ==> s[j] == ',' && StartsAt(s, j + 1, PrintFields(fields[1..]))
                             && i + |PrintFields(fields)| == j + 1 + |PrintFields(fields[1..])|
  {
    hide Print, PrintField;
    var last := |fields| == 1;
    j := i + |PrintField(fields[0])|;
    MemberAt(s, i, PrintField(fields[0]), last, '}', if last then "" else PrintFields(fields[1..]));
  }

  lemma FieldAt(s: string, i: nat, key: string, value: string) returns (colon: nat)
    requires StartsAt(s, i, "\"" + key + ":" + value)
    ensures colon == i + 1 + |key| < |s| && s[i] == '"' && s[colon] == ':'
    ensures StartsAt(s, i + 1, key) && StartsAt(s, colon + 1, value)
    ensures i + |"\"" + key + ":" + value| == colon + 1 + |value|
  {
    assert "\"" + key + ":" + value == "\"" + (key + (":" + value));
    AtSplit(s, i, "\"", key + (":" + value));
    AtChar(s, i, "\"", 0);
    AtSplit(s, i + 1, key, ":" + value);
    colon := i + 1 + |key|;
    AtSplit(s, colon, ":", value);
    AtChar(s, colon, ":", 0);
  }

  // ---------------------------------------------------------------- reading back

  /** Reading back what was printed, wherever it stands. */
  lemma {:induction false} ReadPrinted(s: string, i: nat, v: Json, end: nat)
    requires Proper(v) && StartsAt(s, i, Print(v)) && end == i + |Print(v)| && Stops(s, end)
    ensures ReadsValue(s, i, v, end)
    decreases v, 0
  {
    hide ReadsValue, ParseValue, ParseArray, ParseObject, ParseScalar;
    match v
    case Null => ReadWord(s, i, v);
    case Bool(_) => ReadWord(s, i, v);
    case Num(lexeme) => ReadNumber(s, i, lexeme);
    case Str(text) => ReadStr(s, i, text);
    case Arr(items) => ReadArray(s, i, items, end);
    case Obj(fields) => ReadObject(s, i, fields, end);
  }

  lemma {:induction false} ReadArray(s: string, i: nat, items: seq<Json>, end: nat)
    requires ProperItems(items) && StartsAt(s, i, Print(Arr(items))) && end == i + |Print(Arr(items))|
    ensures ReadsValue(s, i, Arr(items), end)
    decreases items, 1
  {
    hide ReadsValue, ReadsItems, ReadsField, ReadsFields, ParseValue, ParseItems, ParseField, ParseFields;
    if items == [] {
      StepEmpty(s, i);
    } else {
      ArrayAt(s, i, items);
      ReadItems(s, i + 1, items, end);
      StepArray(s, i, items, end);
    }
  }

  lemma {:induction false} ReadObject(s: string, i: nat, fields: seq<(string, Json)>, end: nat)
    requires DistinctKeys(FieldKey<Json>, fields) && ProperFields(fields)
    requires StartsAt(s, i, Print(Obj(fields))) && end == i + |Print(Obj(fields))|
    ensures ReadsValue(s, i, Obj(fields), end)
    decreases fields, 1
  {
    hide ReadsValue, ReadsItems, ReadsField, ReadsFields, ParseValue, ParseItems, ParseField, ParseFields;
    if fields == [] {
      StepEmpty(s, i);
    } else {
      ObjectAt(s, i, fields);
      ReadFields(s, i + 1, fields, end);
      StepObject(s, i, fields, end);
    }
  }

  lemma {:induction false} ReadItems(s: string, i: nat, items: seq<Json>, end: nat)
    requires items != [] && ProperItems(items) && StartsAt(s, i, PrintItems(items)) && end == i + |PrintItems(items)|
    ensures ReadsItems(s, i, items, end)
    decreases items, 0
  {
    hide ReadsValue, ReadsItems, ReadsField, ReadsFields, ParseValue, ParseItems, ParseField, ParseFields;
    var j := ItemsAt(s, i, items);
    ReadPrinted(s, i, items[0], j);
    if |items| == 1 {
      StepLastItem(s, i, items, j);
    } else {
      ReadItems(s, j + 1, items[1..], end);
      StepItem(s, i, items, j, end);
    }
  }

  lemma {:induction false} ReadFields(s: string, i: nat, fields: seq<(string, Json)>, end: nat)
    requires fields != [] && ProperFields(fields)
    requires StartsAt(s, i, PrintFields(fields)) && end == i + |PrintFields(fields)|
    ensures ReadsFields(s, i, fields, end)
    decreases fields, 0
  {
    hide ReadsValue, ReadsItems, ReadsField, ReadsFields, ParseValue, ParseItems, ParseField, ParseFields;
    var j := FieldsAt(s, i, fields);
    ReadField(s, i, fields[0], j);
    if |fields| == 1 {
      StepLastField(s, i, fields, j);
    } else {
      ReadFields(s, j + 1, fields[1..], end);
      StepField(s, i, fields, j, end);
    }
  }

  lemma {:induction false} ReadField(s: string, i: nat, field: (string, Json), end: nat)
    requires ProperField(field) && StartsAt(s, i, PrintField(field)) && end == i + |PrintField(field)| && Stops(s, end)
    ensures ReadsField(s, i, field, end)
    decreases field, 0
  {
    hide ReadsValue, ReadsField, ParseValue, ParseField, ParseString;
    var colon := FieldAt(s, i, PrintText(field.0), Print(field.1));
    ReadText(s, i + 1, field.0, colon);
    ReadPrinted(s, colon + 1, field.1, end);
    StepPair(s, i, field, colon, end);
  }

  /** JSON.parse gives back every value that was printed. */
  lemma DecodePrinted(v: Json)
    requires Proper(v)
    ensures Decode(Print(v)) == Some(v)
  {
    var s := Print(v);
    assert s[0..|s|] == s;
    ReadPrinted(s, 0, v, |s|);
  }

  lemma {:induction false} ItemsClose(items: seq<Json>)
    requires items != []
    ensures PrintItems(items) != [] && PrintItems(items)[|PrintItems(items)| - 1] == ']'
  {
    if |items| > 1 {
      ItemsClose(items[1..]);
    }
  }

  lemma {:induction false} FieldsClose(fields: seq<(string, Json)>)
    requires fields != []
    ensures PrintFields(fields) != [] && PrintFields(fields)[|PrintFields(fields)| - 1] == '}'
  {
    if |fields| > 1 {
      FieldsClose(fields[1..]);
    }
  }

  /** A printed structure stands between its brackets, so trimming leaves it alone. */
  lemma StructureIsTrimmed(v: Json)
    requires v.Arr? || v.Obj?
    ensures Trim(Print(v)) == Print(v)
    ensures StartsWith(Print(v), "[") || StartsWith(Print(v), "{")
  {
    match v
    case Arr(items) =>
      if items != [] {
        ItemsClose(items);
      }
    case Obj(fields) =>
      if fields != [] {
        FieldsClose(fields);
      }
  }

  // ---------------------------------------------------------------- what the reader accepts

  lemma {:induction false} ProperMembers(items: seq<Json>, fields: seq<(string, Json)>)
    ensures ProperItems(items) <==> forall i :: 0 <= i < |items| ==> Proper(items[i])
    ensures ProperFields(fields) <==> forall i :: 0 <= i < |fields| ==> ProperField(fields[i])
    decreases |items| + |fields|
  {
    if items != [] {
      ProperMembers(items[1..], []);
      assert items == [items[0]] + items[1..];
    }
    if fields != [] {
      ProperMembers([], fields[1..]);
      assert fields == [fields[0]] + fields[1..];
    }
  }

  /** Collecting proper fields gives a proper object. */
  lemma CollectedIsProper(fields: seq<(string, Json)>)
    requires ProperFields(fields)
    ensures Proper(Obj(Collect(FieldKey<Json>, fields)))
  {
    var r := Collect(FieldKey<Json>, fields);
    UpsertAllKeepsDistinct(FieldKey<Json>, [], fields);
    CollectMembers(FieldKey<Json>, fields);
    ProperMembers([], fields);
    ProperMembers([], r);
    forall i | 0 <= i < |r|
      ensures ProperField(r[i])
    {
      assert r[i] in fields;
    }
  }

  lemma {:induction false} DigitsCut(s: string, k: nat, j: nat, i: nat)
    requires k <= i <= j <= |s| && DigitsEnd(s, i) <= j
    ensures DigitsEnd(s[k..j], i - k) == DigitsEnd(s, i) - k
    decreases j - i
  {
    if i < j && IsDigit(s[i]) {
      DigitsCut(s, k, j, i + 1);
    }
  }

  lemma IntegerCut(s: string, k: nat, j: nat, i: nat)
    requires k <= i <= j <= |s| && IntegerEnd(s, i).Some? && IntegerEnd(s, i).value <= j
    ensures IntegerEnd(s[k..j], i - k) == Some(IntegerEnd(s, i).value - k)
  {
    if s[i] != '0' {
      DigitsCut(s, k, j, i + 1);
    }
  }

  lemma FractionCut(s: string, k: nat, j: nat, i: nat)
    requires k <= i <= j <= |s| && FractionEnd(s, i).Some? && FractionEnd(s, i).value <= j
    ensures FractionEnd(s[k..j], i - k) == Some(FractionEnd(s, i).value - k)
  {
    if i < |s| && s[i] == '.' {
      DigitsCut(s, k, j, i + 1);
    }
  }

  lemma ExponentCut(s: string, k: nat, j: nat, i: nat)
    requires k <= i <= j <= |s| && ExponentEnd(s, i) == Some(j)
    ensures ExponentEnd(s[k..j], i - k) == Some(j - k)
  {
    if i < |s| && (s[i] == 'e' || s[i] == 'E') {
      var from := if i + 1 < |s| && (s[i + 1] == '+' || s[i + 1] == '-') then i + 2 else i + 1;
      DigitsCut(s, k, j, from);
    }
  }

  /** The lexeme that the reader cuts out is a number on its own. */
  lemma NumberCut(s: string, k: nat, j: nat)
    requires k < |s| && NumberEnd(s, k) == Some(j)
    ensures Proper(Num(s[k..j]))
  {
    hide IntegerEnd, FractionEnd, ExponentEnd;
    var i := if s[k] == '-' then k + 1 else k;
    var a := IntegerEnd(s, i).value;
    var b := FractionEnd(s, a).value;
    IntegerCut(s, k, j, i);
    FractionCut(s, k, j, a);
    ExponentCut(s, k, j, b);
    assert s[k..j][0] == s[k];
  }

  lemma ScalarIsProper(s: string, k: nat)
    requires k < |s| && ParseScalar(s, k).Some?
    ensures Proper(ParseScalar(s, k).value.0)
  {
    hide NumberEnd;
    if s[k] != '"' && s[k] != 't' && s[k] != 'f' && s[k] != 'n' {
      NumberCut(s, k, NumberEnd(s, k).value);
    }
  }

  /** The reader gives nothing but proper values. */
  lemma {:induction false} ValueIsProper(s: string, i: nat)
    requires i <= |s| && ParseValue(s, i).Some?
    ensures Proper(ParseValue(s, i).value.0)
    decreases |s| - i, 1
  {
    var k := SkipSpace(s, i);
    if s[k] == '[' {
      ArrayIsProper(s, k);
    } else if s[k] == '{' {
      ObjectIsProper(s, k);
    } else {
      ScalarIsProper(s, k);
    }
  }

  lemma {:induction false} ArrayIsProper(s: string, k: nat)
    requires k < |s| && ParseArray(s, k).Some?
    ensures Proper(ParseArray(s, k).value.0)
    decreases |s| - k, 0
  {
    var m := SkipSpace(s, k + 1);
    if !(m < |s| && s[m] == ']') {
      ItemsAreProper(s, k + 1);
    }
  }

  lemma {:induction false} ObjectIsProper(s: string, k: nat)
    requires k < |s| && ParseObject(s, k).Some?
    ensures Proper(ParseObject(s, k).value.0)
    decreases |s| - k, 0
  {
    var m := SkipSpace(s, k + 1);
    if !(m < |s| && s[m] == '}') {
      FieldsAreProper(s, k + 1);
      CollectedIsProper(ParseFields(s, k + 1).value.0);
    }
  }

  lemma {:induction false} ItemsAreProper(s: string, i: nat)
    requires i <= |s| && ParseItems(s, i).Some?
    ensures ProperItems(ParseItems(s, i).value.0)
    decreases |s| - i, 3
  {
    ValueIsProper(s, i);
    var (v, j) := ParseValue(s, i).value;
    var k := SkipSpace(s, j);
    if s[k] != ']' {
      ItemsAreProper(s, k + 1);
      var rest := ParseItems(s, k + 1).value.0;
      assert ([v] + rest)[1..] == rest;
    } else {
      assert [v][1..] == [];
    }
  }

  lemma {:induction false} FieldIsProper(s: string, i: nat)
    requires i <= |s| && ParseField(s, i).Some?
    ensures ProperField(ParseField(s, i).value.0)
    decreases |s| - i, 2
  {
    hide ParseString;
    var q := SkipSpace(s, i);
    var a := ParseString(s, q + 1).value.1;
    ValueIsProper(s, SkipSpace(s, a) + 1);
  }

  lemma {:induction false} FieldsAreProper(s: string, i: nat)
    requires i <= |s| && ParseFields(s, i).Some?
    ensures ProperFields(ParseFields(s, i).value.0)
    decreases |s| - i, 3
  {
    FieldIsProper(s, i);
    var (field, j) := ParseField(s, i).value;
    var k := SkipSpace(s, j);
    if s[k] != '}' {
      FieldsAreProper(s, k + 1);
      var rest := ParseFields(s, k + 1).value.0;
      assert ([field] + rest)[1..] == rest;
    } else {
      assert [field][1..] == [];
    }
  }

  /** What is decoded is proper, so printing and decoding it again gives it back. */
  lemma DecodedIsProper(s: string)
    requires Decode(s).Some?
    ensures Proper(Decode(s).value)
    ensures Decode(Print(Decode(s).value)) == Decode(s)
  {
    ValueIsProper(s, 0);
    DecodePrinted(Decode(s).value);
  }
}
