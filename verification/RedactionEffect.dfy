/** What redaction does to texts that encode structures, and exactly which snapshots it leaves as they are. */
module RedactionEffect {
  import opened Options
  import opened Keyed
  import opened Json
  import opened JsonPrint
  import opened JsText
  import opened Redaction

  // ---------------------------------------------------------------- encoded structures

  /** A printed structure is recognised as the structure it encodes, up to the size guard. */
  lemma PrintedIsEncoded(v: Json)
    requires Proper(v) && (v.Arr? || v.Obj?)
    ensures Encoded(Print(v)) == if |Print(v)| <= SIZE_GUARD then Some(v) else None
  {
    StructureIsTrimmed(v);
    DecodePrinted(v);
  }

  /** Redacting the text of a structure is encoding the redacted structure; past the guard the patterns take over. */
  lemma RedactPrinted(t: Tools, v: Json)
    requires Proper(v) && (v.Arr? || v.Obj?)
    ensures RedactText(t, Print(v)) ==
            if |Print(v)| <= SIZE_GUARD then t.encode(RedactValue(t, v, None)) else t.scrub(Print(v))
  {
    PrintedIsEncoded(v);
  }

  /** No secret inside an encoded record influences the redacted text, as long as the size guard admits both texts. */
  lemma EncodedSecretHasNoInfluence(t: Tools, before: seq<(string, Json)>, key: string, v: Json, w: Json,
                                    after: seq<(string, Json)>)
    requires Sensitive(Some(key))
    requires Proper(Obj(before + [(key, v)] + after)) && Proper(Obj(before + [(key, w)] + after))
    requires |Print(Obj(before + [(key, v)] + after))| <= SIZE_GUARD
    requires |Print(Obj(before + [(key, w)] + after))| <= SIZE_GUARD
    ensures RedactText(t, Print(Obj(before + [(key, v)] + after))) ==
            RedactText(t, Print(Obj(before + [(key, w)] + after)))
  {
    RedactPrinted(t, Obj(before + [(key, v)] + after));
    RedactPrinted(t, Obj(before + [(key, w)] + after));
    SecretHasNoInfluence(t, before, key, v, w, after);
  }

  // ---------------------------------------------------------------- what stays as it is

  /** The encoder prints; nothing is assumed of what it does with improper values. */
  ghost predicate Prints(t: Tools) {
    forall v :: Proper(v) ==> t.encode(v) == Print(v)
  }

  /**
   A text that redaction has no reason to touch: one that encodes no structure and that the patterns leave alone, or the
   printed form of a structure that is itself untouched.
   */
  ghost predicate UntouchedText(t: Tools, s: string)
    decreases |s|, 0
  {
    match Encoded(s)
    case None => t.scrub(s) == s
    case Some(v) => s == Print(v) && Untouched(t, v, None)
  }

  /** A snapshot that redaction has no reason to touch. */
  ghost predicate Untouched(t: Tools, v: Json, key: Option<string>)
    decreases Longest(v), 1, v
  {
    if Sensitive(key) then v == Str(REDACTED)
    else match v
      case Arr(items) => UntouchedItems(t, items)
      case Obj(fields) => UntouchedFields(t, fields)
      case Str(s) => !HasSecretPrefix(s) && UntouchedText(t, s)
      case _ => true
  }

  ghost predicate UntouchedItems(t: Tools, items: seq<Json>)
    decreases LongestItem(items), 1, items
  {
    items == [] || (Untouched(t, items[0], None) && UntouchedItems(t, items[1..]))
  }

  ghost predicate UntouchedFields(t: Tools, fields: seq<(string, Json)>)
    decreases LongestField(fields), 1, fields
  {
    fields == [] || (UntouchedField(t, fields[0]) && UntouchedFields(t, fields[1..]))
  }

  ghost predicate UntouchedField(t: Tools, field: (string, Json))
    decreases LongestOf(field), 1, field
  {
    UntouchedText(t, field.0) && Untouched(t, field.1, Some(field.0))
  }

  lemma RedactedHasNoPrefix()
    ensures !HasSecretPrefix(REDACTED)
  {
    forall p | p in PREFIXES
      ensures !StartsWith(REDACTED, p)
    {
      assert p[0] != '[';
    }
  }

  // The redacted value is proper again, so the printed form determines it.

  lemma {:induction false} RedactedIsProper(t: Tools, v: Json, key: Option<string>)
    requires Proper(v)
    ensures Proper(RedactValue(t, v, key))
    decreases v, 0
  {
    if !Sensitive(key) {
      match v
      case Arr(items) => RedactedItemsAreProper(t, items);
      case Obj(fields) =>
        RedactedFieldsAreProper(t, fields);
        CollectedIsProper(RedactFields(t, fields));
      case _ =>
    }
  }

  lemma {:induction false} RedactedItemsAreProper(t: Tools, items: seq<Json>)
    requires ProperItems(items)
    ensures ProperItems(RedactItems(t, items))
    decreases items, 0
  {
    if items != [] {
      RedactedIsProper(t, items[0], None);
      RedactedItemsAreProper(t, items[1..]);
      assert RedactItems(t, items)[1..] == RedactItems(t, items[1..]);
    }
  }

  lemma {:induction false} RedactedFieldsAreProper(t: Tools, fields: seq<(string, Json)>)
    requires ProperFields(fields)
    ensures ProperFields(RedactFields(t, fields))
    decreases fields, 0
  {
    if fields != [] {
      RedactedFieldIsProper(t, fields[0]);
      RedactedFieldsAreProper(t, fields[1..]);
      assert RedactFields(t, fields)[1..] == RedactFields(t, fields[1..]);
    }
  }

  lemma {:induction false} RedactedFieldIsProper(t: Tools, field: (string, Json))
    requires ProperField(field)
    ensures ProperField(RedactField(t, field))
    decreases field, 0
  {
    RedactedIsProper(t, field.1, Some(field.0));
  }

  /** Redaction turns an encoded structure into itself exactly when it is printed and redacts to itself. */
  lemma EncodedUnchanged(t: Tools, s: string, v: Json)
    requires Prints(t) && Encoded(s) == Some(v) && Proper(v)
    ensures RedactText(t, s) == s <==> s == Print(v) && RedactValue(t, v, None) == v
  {
    hide Encoded, Print, Proper;
    var w := RedactValue(t, v, None);
    RedactedIsProper(t, v, None);
    assert t.encode(w) == Print(w);
    PrintedIsEncoded(w);
  }

  lemma EncodedIsProper(s: string)
    requires Encoded(s).Some?
    ensures Proper(Encoded(s).value)
  {
    DecodedIsProper(Trim(s));
  }

  lemma {:induction false} TextUnchangedIff(t: Tools, s: string)
    requires Prints(t)
    ensures RedactText(t, s) == s <==> UntouchedText(t, s)
    decreases |s|, 0
  {
    hide Encoded, Print, Proper, Prints;
    if Encoded(s).Some? {
      var v := Encoded(s).value;
      EncodedIsProper(s);
      EncodedUnchanged(t, s, v);
      EncodedIsShorter(s);
      UnchangedIffUntouched(t, v, None);
    }
  }

  lemma EncodedIsShorter(s: string)
    requires Encoded(s).Some?
    ensures Longest(Encoded(s).value) < |s|
  {
  }

  /**
   Redaction leaves a snapshot as it is if and only if it has no reason to touch it: no sensitive key holds anything but
   the placeholder, and every key and every other text is untouched, inside the structures it encodes as well.
   */
  lemma {:induction false} UnchangedIffUntouched(t: Tools, v: Json, key: Option<string>)
    requires Prints(t) && Proper(v)
    ensures RedactValue(t, v, key) == v <==> Untouched(t, v, key)
    decreases Longest(v), 1, v
  {
    if !Sensitive(key) {
      match v
      case Arr(items) => ItemsUnchanged(t, items);
      case Obj(fields) =>
        FieldsUnchanged(t, fields);
        CollectedUnchanged(t, fields);
      case Str(s) =>
        RedactedHasNoPrefix();
        TextUnchangedIff(t, s);
      case _ =>
    }
  }

  /** Collecting the redacted fields gives the fields back only if no two keys fell together. */
  lemma CollectedUnchanged(t: Tools, fields: seq<(string, Json)>)
    requires DistinctKeys(FieldKey<Json>, fields) && |RedactFields(t, fields)| == |fields|
    ensures Collect(FieldKey<Json>, RedactFields(t, fields)) == fields <==> RedactFields(t, fields) == fields
  {
    CollectKeepsAll(FieldKey<Json>, RedactFields(t, fields));
    CollectDistinct(FieldKey<Json>, fields);
  }

  lemma {:induction false} ItemsUnchanged(t: Tools, items: seq<Json>)
    requires Prints(t) && ProperItems(items)
    ensures |RedactItems(t, items)| == |items|
    ensures RedactItems(t, items) == items <==> UntouchedItems(t, items)
    decreases LongestItem(items), 1, items
  {
    if items != [] {
      UnchangedIffUntouched(t, items[0], None);
      ItemsUnchanged(t, items[1..]);
      assert items == [items[0]] + items[1..];
    }
  }

  lemma {:induction false} FieldsUnchanged(t: Tools, fields: seq<(string, Json)>)
    requires Prints(t) && ProperFields(fields)
    ensures |RedactFields(t, fields)| == |fields|
    ensures RedactFields(t, fields) == fields <==> UntouchedFields(t, fields)
    decreases LongestField(fields), 1, fields
  {
    if fields != [] {
      FieldUnchanged(t, fields[0]);
      FieldsUnchanged(t, fields[1..]);
      assert fields == [fields[0]] + fields[1..];
    }
  }

  lemma {:induction false} FieldUnchanged(t: Tools, field: (string, Json))
    requires Prints(t) && ProperField(field)
    ensures RedactField(t, field) == field <==> UntouchedField(t, field)
    decreases LongestOf(field), 1, field
  {
    TextUnchangedIff(t, field.0);
    UnchangedIffUntouched(t, field.1, Some(field.0));
  }
}
