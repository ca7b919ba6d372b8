/**
 Reading encoded JSON (sections 2 to 7 of RFC 8259) and the bound that the redactor's recursion rests on: every text
 inside a decoded value is strictly shorter than the text it was decoded from. Numbers keep their spelling.
 */
module Json {
  import opened Basics
  import opened Options
  import opened Keyed

  datatype Json = Null | Bool(b: bool) | Num(lexeme: string) | Str(s: string)
                | Arr(items: seq<Json>) | Obj(fields: seq<(string, Json)>)

  /** The length of the longest string or key in a value. */
  function Longest(v: Json): nat {
    match v
    case Str(s) => |s|
    case Arr(items) => LongestItem(items)
    case Obj(fields) => LongestField(fields)
    case _ => 0
  }

  function LongestItem(items: seq<Json>): nat {
    if items == [] then 0 else Max(Longest(items[0]), LongestItem(items[1..]))
  }

  function LongestField(fields: seq<(string, Json)>): nat {
    if fields == [] then 0 else Max(LongestOf(fields[0]), LongestField(fields[1..]))
  }

  function LongestOf(field: (string, Json)): nat {
    Max(|field.0|, Longest(field.1))
  }

  lemma {:induction false} LongestFieldBound(fields: seq<(string, Json)>, bound: nat)
    ensures LongestField(fields) <= bound <==> forall i :: 0 <= i < |fields| ==> LongestOf(fields[i]) <= bound
  {
    if fields != [] {
      LongestFieldBound(fields[1..], bound);
      assert fields == [fields[0]] + fields[1..];
    }
  }

  /** A repeated key keeps its place and takes its last value, which makes nothing longer. */
  lemma CollectIsNotLonger(fields: seq<(string, Json)>)
    ensures LongestField(Collect(FieldKey<Json>, fields)) <= LongestField(fields)
  {
    var r := Collect(FieldKey<Json>, fields);
    CollectMembers(FieldKey<Json>, fields);
    LongestFieldBound(fields, LongestField(fields));
    forall i | 0 <= i < |r|
      ensures LongestOf(r[i]) <= LongestField(fields)
    {
      assert r[i] in fields;
    }
    LongestFieldBound(r, LongestField(fields));
  }

  // ---------------------------------------------------------------- the grammar

  predicate IsSpace(c: char) { c == ' ' || c == '\t' || c == '\n' || c == '\r' }

  function SkipSpace(s: string, i: nat): (j: nat)
    requires i <= |s|
    ensures i <= j <= |s|
    decreases |s| - i
  {
    if i < |s| && IsSpace(s[i]) then SkipSpace(s, i + 1) else i
  }

  function DigitsEnd(s: string, i: nat): (j: nat)
    requires i <= |s|
    ensures i <= j <= |s|
    decreases |s| - i
  {
    if i < |s| && IsDigit(s[i]) then DigitsEnd(s, i + 1) else i
  }

  function IntegerEnd(s: string, i: nat): (j: Option<nat>)
    requires i <= |s|
    ensures j.Some? ==> i < j.value <= |s|
  {
    if i == |s| || !IsDigit(s[i]) then None
    else if s[i] == '0' then Some(i + 1)
    else Some(DigitsEnd(s, i + 1))
  }

  function FractionEnd(s: string, i: nat): (j: Option<nat>)
    requires i <= |s|
    ensures j.Some? ==> i <= j.value <= |s|
  {
    if i == |s| || s[i] != '.' then Some(i)
    else if DigitsEnd(s, i + 1) == i + 1 then None
    else Some(DigitsEnd(s, i + 1))
  }

  function ExponentEnd(s: string, i: nat): (j: Option<nat>)
    requires i <= |s|
    ensures j.Some? ==> i <= j.value <= |s|
  {
    if i == |s| || (s[i] != 'e' && s[i] != 'E') then Some(i)
    else
      var k := if i + 1 < |s| && (s[i + 1] == '+' || s[i + 1] == '-') then i + 2 else i + 1;
      if DigitsEnd(s, k) == k then None else Some(DigitsEnd(s, k))
  }

  function NumberEnd(s: string, i: nat): (j: Option<nat>)
    requires i < |s|
    ensures j.Some? ==> i < j.value <= |s|
  {
    match IntegerEnd(s, if s[i] == '-' then i + 1 else i)
    case None => None
    case Some(a) =>
      match FractionEnd(s, a)
      case None => None
      case Some(b) => ExponentEnd(s, b)
  }

  function HexValue(c: char): Option<nat> {
    if IsDigit(c) then Some((c - '0') as nat)
    else if 'a' <= c <= 'f' then Some((c - 'a') as nat + 10)
    else if 'A' <= c <= 'F' then Some((c - 'A') as nat + 10)
    else None
  }

  /** The character of a four-digit escape; half of a surrogate pair has none of its own and becomes U+FFFD. */
  function HexUnit(s: string, i: nat): Option<char>
    requires i + 4 <= |s|
  {
    var (a, b, c, d) := (HexValue(s[i]), HexValue(s[i + 1]), HexValue(s[i + 2]), HexValue(s[i + 3]));
    if a.None? || b.None? || c.None? || d.None? then None
    else
      var n := 4096 * a.value + 256 * b.value + 16 * c.value + d.value;
      if n < 0xD800 || 0xE000 <= n < 0x1_0000 then Some(n as char) else Some('\U{FFFD}')
  }

  function Escaped(c: char): Option<char> {
    match c
    case '"' => Some('"')
    case '\\' => Some('\\')
    case '/' => Some('/')
    case 'b' => Some(8 as char)
    case 'f' => Some(12 as char)
    case 'n' => Some('\n')
    case 'r' => Some('\r')
    case 't' => Some('\t')
    case _ => None
  }

  /** The rest of a string behind its opening quote; an escape is longer than the character it stands for. */
  function ParseString(s: string, i: nat): (r: Option<(string, nat)>)
    requires i <= |s|
    ensures r.Some? ==> i < r.value.1 <= |s| && |r.value.0| < r.value.1 - i
    decreases |s| - i
  {
    if i == |s| || s[i] < ' ' then None
    else if s[i] == '"' then Some(("", i + 1))
    else
      var (c, next) :=
        if s[i] != '\\' then (Some(s[i]), i + 1)
        else if i + 1 < |s| && s[i + 1] == 'u' then (if i + 6 <= |s| then HexUnit(s, i + 2) else None, i + 6)
        else if i + 1 < |s| then (Escaped(s[i + 1]), i + 2)
        else (None, i + 1);
      if c.None? || next > |s| then None
      else match ParseString(s, next)
        case None => None
        case Some((rest, j)) => Some(([c.value] + rest, j))
  }

  function ParseWord(s: string, i: nat, word: string, v: Json): (r: Option<(Json, nat)>)
    requires i <= |s|
    ensures r.Some? ==> r.value == (v, i + |word|) && i + |word| <= |s|
  {
    if i + |word| <= |s| && s[i..i + |word|] == word then Some((v, i + |word|)) else None
  }

  /** A string, a word or a number at a position that holds neither space nor an opening bracket. */
  function ParseScalar(s: string, k: nat): (r: Option<(Json, nat)>)
    requires k < |s|
    ensures r.Some? ==> k < r.value.1 <= |s| && Longest(r.value.0) < r.value.1 - k
  {
    if s[k] == '"' then
      match ParseString(s, k + 1)
      case None => None
      case Some((text, j)) => Some((Str(text), j))
    else if s[k] == 't' then ParseWord(s, k, "true", Bool(true))
    else if s[k] == 'f' then ParseWord(s, k, "false", Bool(false))
    else if s[k] == 'n' then ParseWord(s, k, "null", Null)
    else match NumberEnd(s, k)
      case None => None
      case Some(j) => Some((Num(s[k..j]), j))
  }

  function ParseValue(s: string, i: nat): (r: Option<(Json, nat)>)
    requires i <= |s|
    ensures r.Some? ==> i < r.value.1 <= |s| && Longest(r.value.0) < r.value.1 - i
    decreases |s| - i, 1
  {
    var k := SkipSpace(s, i);
    if k == |s| then None
    else if s[k] == '[' then ParseArray(s, k)
    else if s[k] == '{' then ParseObject(s, k)
    else ParseScalar(s, k)
  }

  function ParseArray(s: string, k: nat): (r: Option<(Json, nat)>)
    requires k < |s|
    ensures r.Some? ==> k < r.value.1 <= |s| && Longest(r.value.0) < r.value.1 - k
    decreases |s| - k, 0
  {
    var m := SkipSpace(s, k + 1);
    if m < |s| && s[m] == ']' then Some((Arr([]), m + 1))
    else match ParseItems(s, k + 1)
      case None => None
      case Some((items, j)) => Some((Arr(items), j))
  }

  function ParseObject(s: string, k: nat): (r: Option<(Json, nat)>)
    requires k < |s|
    ensures r.Some? ==> k < r.value.1 <= |s| && Longest(r.value.0) < r.value.1 - k
    decreases |s| - k, 0
  {
    var m := SkipSpace(s, k + 1);
    if m < |s| && s[m] == '}' then Some((Obj([]), m + 1))
    else match ParseFields(s, k + 1)
      case None => None
      case Some((fields, j)) =>
        CollectIsNotLonger(fields);
        Some((Obj(Collect(FieldKey<Json>, fields)), j))
  }

  function ParseItems(s: string, i: nat): (r: Option<(seq<Json>, nat)>)
    requires i <= |s|
    ensures r.Some? ==> i < r.value.1 <= |s| && LongestItem(r.value.0) < r.value.1 - i
    decreases |s| - i, 3
  {
    match ParseValue(s, i)
    case None => None
    case Some((v, j)) =>
      var k := SkipSpace(s, j);
      if k == |s| then None
      else if s[k] == ']' then Some(([v], k + 1))
      else if s[k] != ',' then None
      else match ParseItems(s, k + 1)
        case None => None
        case Some((rest, end)) => Some(([v] + rest, end))
  }

  /** A key, its colon and its value. */
  function ParseField(s: string, i: nat): (r: Option<((string, Json), nat)>)
    requires i <= |s|
    ensures r.Some? ==> i < r.value.1 <= |s| && LongestOf(r.value.0) < r.value.1 - i
    decreases |s| - i, 2
  {
    var q := SkipSpace(s, i);
    if q == |s| || s[q] != '"' then None
    else match ParseString(s, q + 1)
      case None => None
      case Some((key, a)) =>
        var colon := SkipSpace(s, a);
        if colon == |s| || s[colon] != ':' then None
        else match ParseValue(s, colon + 1)
          case None => None
          case Some((v, j)) => Some(((key, v), j))
  }

  function ParseFields(s: string, i: nat): (r: Option<(seq<(string, Json)>, nat)>)
    requires i <= |s|
    ensures r.Some? ==> i < r.value.1 <= |s| && LongestField(r.value.0) < r.value.1 - i
    decreases |s| - i, 3
  {
    match ParseField(s, i)
    case None => None
    case Some((field, j)) =>
      var k := SkipSpace(s, j);
      if k == |s| then None
      else if s[k] == '}' then Some(([field], k + 1))
      else if s[k] != ',' then None
      else match ParseFields(s, k + 1)
        case None => None
        case Some((rest, end)) => Some(([field] + rest, end))
  }

  /** JSON.parse: one value and nothing else, or an exception. Every text inside is shorter than the whole. */
  function Decode(s: string): (r: Option<Json>)
    ensures r.Some? ==> Longest(r.value) < |s|
  {
    match ParseValue(s, 0)
    case None => None
    case Some((v, j)) => if SkipSpace(s, j) == |s| then Some(v) else None
  }
}
