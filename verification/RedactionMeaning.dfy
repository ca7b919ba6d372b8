/** Which keys and texts are secret, and what redaction makes of each kind of value. */
module RedactionMeaning {
  import opened Basics
  import opened Options
  import opened Keyed
  import opened Json
  import opened JsonPrint
  import opened JsonLayout
  import opened JsText
  import opened Redaction

  // ---------------------------------------------------------------- sensitive keys

  lemma {:induction false} NormalizeConcat(a: string, b: string)
    ensures Normalize(a + b) == Normalize(a) + Normalize(b)
  {
    if a == [] {
      assert a + b == b;
    } else {
      assert (a + b)[1..] == a[1..] + b;
      NormalizeConcat(a[1..], b);
    }
  }

  /** The letters a to z and A to Z by their place in the alphabet. */
  const SMALL := "abcdefghijklmnopqrstuvwxyz"
  const LARGE := "ABCDEFGHIJKLMNOPQRSTUVWXYZ"
  const FIGURES := "0123456789"

  lemma LetterCodes(i: nat)
    requires i < 26
    ensures SMALL[i] as int == 97 + i && LARGE[i] as int == 65 + i
  {
  }

  /** A letter becomes small. */
  lemma LettersBecomeSmall(i: nat)
    requires i < 26
    ensures Normalize([SMALL[i]]) == Normalize([LARGE[i]]) == [SMALL[i]]
  {
    LetterCodes(i);
    assert [SMALL[i]][1..] == [] && [LARGE[i]][1..] == [];
  }

  lemma DigitsStay(c: char)
    requires c in FIGURES
    ensures Normalize([c]) == [c]
  {
    assert [c][1..] == [];
  }

  /** The Kelvin sign and the capital I with a dot have a lower case that begins with an ASCII letter. */
  lemma TwoForeignLetters()
    ensures Normalize(['\U{212A}']) == "k" && Normalize(['\U{0130}']) == "i"
  {
    assert ['\U{212A}'][1..] == [] && ['\U{0130}'][1..] == [];
  }

  /** Every other character is dropped. */
  lemma OthersAreDropped(c: char)
    requires c !in SMALL && c !in LARGE && c !in FIGURES && c != '\U{212A}' && c != '\U{0130}'
    ensures Normalize([c]) == []
  {
    assert [c][1..] == [];
    InAlphabet(c);
    hide SMALL, LARGE, FIGURES;
  }

  lemma InAlphabet(c: char)
    ensures 'a' <= c <= 'z' ==> c in SMALL
    ensures 'A' <= c <= 'Z' ==> c in LARGE
    ensures '0' <= c <= '9' ==> c in FIGURES
  {
    assert 'a' <= c <= 'z' ==> c == SMALL[c as int - 97];
    assert 'A' <= c <= 'Z' ==> c == LARGE[c as int - 65];
    assert '0' <= c <= '9' ==> c == FIGURES[c as int - 48];
  }

  /** The fragments that are not themselves found by another one. */
  const SHORTEST := ["apikey", "authorization", "clientsecret", "cookie", "credential", "dsn", "headers", "keymaterial",
                     "passphrase", "passwd", "password", "privatekey", "secretvalue", "session", "token"]

  /** A part of a part is a part. */
  lemma ContainsPart(s: string, whole: string, part: string, at: nat)
    requires Contains(s, whole) && StartsAt(whole, at, part)
    ensures Contains(s, part)
  {
    hide Contains;
    ContainsMeaning(s, whole);
    ContainsMeaning(s, part);
    var i: nat :| StartsAt(s, i, whole);
    var j := i + at;
    PartAt(s, i, whole, part, at, j);
    assert StartsAt(s, j, part);
  }

  lemma PartAt(s: string, i: nat, whole: string, part: string, at: nat, j: nat)
    requires StartsAt(s, i, whole) && StartsAt(whole, at, part) && j == i + at
    ensures StartsAt(s, j, part)
  {
    assert s[j..j + |part|] == s[i..i + |whole|][at..at + |part|];
  }

  lemma ContainsItself(s: string)
    ensures Contains(s, s)
  {
  }

  lemma TokenFragments(n: string)
    ensures Contains(n, "accesstoken") || Contains(n, "refreshtoken") || Contains(n, "tokenvalue") ==>
              Contains(n, "token")
  {
    hide Contains;
    assert StartsAt("accesstoken", 6, "token") && StartsAt("refreshtoken", 7, "token");
    assert StartsAt("tokenvalue", 0, "token");
    if Contains(n, "accesstoken") {
      ContainsPart(n, "accesstoken", "token", 6);
    } else if Contains(n, "refreshtoken") {
      ContainsPart(n, "refreshtoken", "token", 7);
    } else if Contains(n, "tokenvalue") {
      ContainsPart(n, "tokenvalue", "token", 0);
    }
  }

  lemma FragmentsSplit(f: string)
    ensures f in FRAGMENTS <==> f in SHORTEST || f == "accesstoken" || f == "refreshtoken" || f == "tokenvalue"
  {
  }

  lemma FragmentsMeaning(n: string)
    ensures (exists f :: f in FRAGMENTS && Contains(n, f)) <==> exists f :: f in SHORTEST && Contains(n, f)
  {
    hide Contains, FRAGMENTS, SHORTEST;
    TokenFragments(n);
    FragmentsSplit("token");
    forall f
      ensures f in FRAGMENTS <==> f in SHORTEST || f == "accesstoken" || f == "refreshtoken" || f == "tokenvalue"
    {
      FragmentsSplit(f);
    }
    TokenIsShortest();
  }

  lemma TokenIsShortest()
    ensures "token" in SHORTEST && "credential" in SHORTEST && "apikey" in SHORTEST
  {
    assert SHORTEST[14] == "token" && SHORTEST[4] == "credential" && SHORTEST[0] == "apikey";
  }

  /**
   Three of the fragments and two of the reference keys decide nothing: a key is sensitive exactly if its letters and
   digits are "secretref" or hold one of the others.
   */
  lemma SensitiveMeaning(key: string)
    ensures Sensitive(Some(key)) <==>
            && key != ""
            && (Normalize(key) == "secretref" || exists f :: f in SHORTEST && Contains(Normalize(key), f))
  {
    hide Contains, FRAGMENTS, SHORTEST, Normalize;
    var n := Normalize(key);
    FragmentsMeaning(n);
    TokenIsShortest();
    ContainsItself(n);
    assert StartsAt("credentialref", 0, "credential") && StartsAt("apikeyref", 0, "apikey");
    if n == "credentialref" {
      ContainsPart(n, n, "credential", 0);
    }
    if n == "apikeyref" {
      ContainsPart(n, n, "apikey", 0);
    }
  }

  /** Case, and all other characters around and inside a key, change nothing. */
  lemma PunctuationDoesNotMatter(a: string, c: char, b: string)
    requires c !in SMALL && c !in LARGE && c !in FIGURES && c != '\U{212A}' && c != '\U{0130}' && a + b != ""
    ensures Sensitive(Some(a + [c] + b)) == Sensitive(Some(a + b))
  {
    OthersAreDropped(c);
    NormalizeConcat(a + [c], b);
    NormalizeConcat(a, [c]);
    NormalizeConcat(a, b);
    assert Normalize(a) + [] == Normalize(a);
  }

  lemma CaseDoesNotMatter(a: string, i: nat, b: string)
    requires i < 26
    ensures Sensitive(Some(a + [LARGE[i]] + b)) == Sensitive(Some(a + [SMALL[i]] + b))
  {
    LettersBecomeSmall(i);
    NormalizeConcat(a + [LARGE[i]], b);
    NormalizeConcat(a + [SMALL[i]], b);
    NormalizeConcat(a, [LARGE[i]]);
    NormalizeConcat(a, [SMALL[i]]);
  }

  // ---------------------------------------------------------------- what becomes of each kind of value

  /** Under a sensitive key, and for a text that begins like a credential, the value is replaced as a whole. */
  lemma SecretIsReplaced(t: Tools, v: Json, key: Option<string>, rest: string)
    ensures Sensitive(key) ==> RedactValue(t, v, key) == Str("[REDACTED]")
    ensures forall p :: p in ["ghp_", "github_pat_", "sk-", "xoxb-", "xoxp-", "glpat-", "eyJ"] ==>
              RedactValue(t, Str(p + rest), key) == Str("[REDACTED]")
  {
    forall p | p in ["ghp_", "github_pat_", "sk-", "xoxb-", "xoxp-", "glpat-", "eyJ"]
      ensures HasSecretPrefix(p + rest)
    {
      assert p in PREFIXES && StartsWith(p + rest, p);
    }
  }

  /** Any other value keeps its kind; what is neither a structure nor a text stays as it is. */
  lemma OtherValuesKeepTheirKind(t: Tools, v: Json, key: Option<string>)
    requires !Sensitive(key)
    ensures v.Arr? <==> RedactValue(t, v, key).Arr?
    ensures v.Obj? <==> RedactValue(t, v, key).Obj?
    ensures v.Str? <==> RedactValue(t, v, key).Str?
    ensures v.Null? || v.Bool? || v.Num? ==> RedactValue(t, v, key) == v
  {
  }

  /** An array keeps its length, and each item is redacted without a key. */
  lemma {:induction false} ItemsAreRedacted(t: Tools, items: seq<Json>)
    ensures |RedactItems(t, items)| == |items|
    ensures forall i :: 0 <= i < |items| ==> RedactItems(t, items)[i] == RedactValue(t, items[i], None)
  {
    if items != [] {
      ItemsAreRedacted(t, items[1..]);
    }
  }

  lemma {:induction false} FieldsAreRedacted(t: Tools, fields: seq<(string, Json)>)
    ensures |RedactFields(t, fields)| == |fields|
    ensures forall i :: 0 <= i < |fields| ==>
              RedactFields(t, fields)[i] == (RedactText(t, fields[i].0), RedactValue(t, fields[i].1, Some(fields[i].0)))
  {
    if fields != [] {
      FieldsAreRedacted(t, fields[1..]);
    }
  }

  /**
   A record keeps a field for every redacted key, in the order in which they first appear; its value is the redacted
   value of the last field whose key redacts to it, judged by that field's own key.
   */
  lemma RecordIsRedacted(t: Tools, fields: seq<(string, Json)>, k: nat)
    requires k < |RedactValue(t, Obj(fields), None).fields|
    ensures forall i :: 0 <= i < |fields| ==>
              HasKey(FieldKey<Json>, RedactValue(t, Obj(fields), None).fields, RedactText(t, fields[i].0))
    ensures var (name, value) := RedactValue(t, Obj(fields), None).fields[k];
            exists i :: 0 <= i < |fields| && name == RedactText(t, fields[i].0)
                        && value == RedactValue(t, fields[i].1, Some(fields[i].0))
                        && forall j :: i < j < |fields| ==> RedactText(t, fields[j].0) != name
  {
    hide RedactText, RedactFields, RedactItems;
    var entries := RedactFields(t, fields);
    FieldsAreRedacted(t, fields);
    CollectKeepsOrder(FieldKey<Json>, entries);
    forall i | 0 <= i < |fields|
      ensures HasKey(FieldKey<Json>, Collect(FieldKey<Json>, entries), RedactText(t, fields[i].0))
    {
      assert FieldKey(entries[i]) == RedactText(t, fields[i].0);
    }
    CollectKeepsLast(FieldKey<Json>, entries, k);
    var name := Collect(FieldKey<Json>, entries)[k].0;
    var i := LastEntry(entries, name);
    assert forall j :: i < j < |fields| ==> entries[j].0 == RedactText(t, fields[j].0);
  }

  /** The last entry with a key stands somewhere, and no later one has the key. */
  lemma {:induction false} LastEntry(entries: seq<(string, Json)>, key: string) returns (i: nat)
    requires LastWith(FieldKey<Json>, entries, key) != []
    ensures i < |entries| && LastWith(FieldKey<Json>, entries, key) == [entries[i]] && entries[i].0 == key
    ensures forall j :: i < j < |entries| ==> entries[j].0 != key
  {
    var n := |entries| - 1;
    if entries[n].0 == key {
      i := n;
    } else {
      i := LastEntry(entries[..n], key);
    }
  }

  // ---------------------------------------------------------------- encoded structures, however they are spelled

  /**
   A text that spells an object or an array, with any space in front, inside and behind, is recognised as what it spells
   if it has no more than 65536 characters without the space around it.
   */
  lemma SpelledIsEncoded(item: Item, v: Json)
    requires SaysItem(item, v) && (v.Obj? || v.Arr?)
    ensures Encoded(WriteItem(item)) == if |Write(item.value)| <= 65536 then Some(v) else None
  {
    var core := Write(item.value);
    StructureEnds(item.value, v);
    DecodeCore(item, v);
    TrimCore(item, core);
    hide Says, Write, Decode, Trim;
  }

  lemma DecodeCore(item: Item, v: Json)
    requires SaysItem(item, v)
    ensures Decode(Write(item.value)) == Some(v)
  {
    hide Says, Write, Decode;
    var bare := Item("", item.value, "");
    DecodeWritten(bare, v);
    assert WriteItem(bare) == Write(item.value);
  }

  lemma TrimCore(item: Item, core: string)
    requires Gap(item.before) && Gap(item.after) && core == Write(item.value)
    requires core != [] && !IsBlank(core[0]) && !IsBlank(core[|core| - 1])
    ensures Trim(WriteItem(item)) == core
  {
    hide Write, Trim;
    GapIsBlank(item.before);
    GapIsBlank(item.after);
    TrimMeaning(item.before, core, item.after);
    assert item.before + core + item.after == WriteItem(item);
  }

  lemma GapIsBlank(t: string)
    requires Gap(t)
    ensures AllBlank(t)
  {
  }

  lemma StructureEnds(l: Layout, v: Json)
    requires Says(l, v) && (v.Obj? || v.Arr?)
    ensures var s := Write(l);
            && s != [] && (StartsWith(s, "{") || StartsWith(s, "[")) && !IsBlank(s[0]) && !IsBlank(s[|s| - 1])
  {
    if l.Array? && l.items != [] {
      ItemsClosed(l.items);
    }
    if l.Record? && l.members != [] {
      MembersClosed(l.members);
    }
  }

  lemma {:induction false} ItemsClosed(items: seq<Item>)
    requires items != []
    ensures WriteItems(items) != [] && WriteItems(items)[|WriteItems(items)| - 1] == ']'
  {
    if |items| > 1 {
      ItemsClosed(items[1..]);
    }
  }

  lemma {:induction false} MembersClosed(members: seq<Member>)
    requires members != []
    ensures WriteMembers(members) != [] && WriteMembers(members)[|WriteMembers(members)| - 1] == '}'
  {
    if |members| > 1 {
      MembersClosed(members[1..]);
    }
  }

  /** So the redacted text is the same however the structure was spelled, as long as both spellings are short enough. */
  lemma SpellingDoesNotMatter(t: Tools, a: Item, b: Item, v: Json)
    requires SaysItem(a, v) && SaysItem(b, v) && (v.Obj? || v.Arr?)
    requires |Write(a.value)| <= 65536 && |Write(b.value)| <= 65536
    ensures RedactText(t, WriteItem(a)) == RedactText(t, WriteItem(b)) == t.encode(RedactValue(t, v, None))
  {
    SpelledIsEncoded(a, v);
    SpelledIsEncoded(b, v);
  }

  /** Any other text goes to the patterns: one with another first character, and one that is no JSON. */
  lemma OtherTextIsScrubbed(t: Tools, a: string, core: string, b: string)
    requires AllBlank(a) && AllBlank(b)
    requires core == "" || (!IsBlank(core[0]) && !IsBlank(core[|core| - 1]))
    requires core == "" || (core[0] != '{' && core[0] != '[') || Decode(core).None? || |core| > 65536
    ensures RedactText(t, a + core + b) == t.scrub(a + core + b)
  {
    TrimMeaning(a, core, b);
  }
}
