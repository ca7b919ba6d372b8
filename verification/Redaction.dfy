/**
 Redacting snapshots: values and texts call each other, because a text may itself encode a structure. The free-text
 patterns are one total function on texts, and so is the encoder.
 */
module Redaction {
  import opened Options
  import opened Keyed
  import opened Json
  import opened JsText

  datatype Tools = Tools(scrub: string -> string, encode: Json -> string)

  const REDACTED := "[REDACTED]"
  const SIZE_GUARD := 65_536

  const PREFIXES := ["ghp_", "github_pat_", "sk-", "xoxb-", "xoxp-", "glpat-", "eyJ"]

  const REFERENCE_KEYS := ["secretref", "credentialref", "apikeyref"]

  const FRAGMENTS := [
    "apikey", "accesstoken", "authorization", "clientsecret", "cookie", "credential", "dsn", "headers", "keymaterial",
    "passphrase", "passwd", "password", "privatekey", "refreshtoken", "secretvalue", "session", "token", "tokenvalue"
  ]

  /** toLowerCase, then only a-z and 0-9: two letters outside ASCII have a lower case whose base letter stays. */
  function Normalize(key: string): string {
    if key == [] then []
    else
      var c := key[0];
      (if 'a' <= c <= 'z' || '0' <= c <= '9' then [c]
       else if 'A' <= c <= 'Z' then [c - 'A' + 'a']
       else if c == '\U{212A}' then "k"
       else if c == '\U{0130}' then "i"
       else []) + Normalize(key[1..])
  }

  /** No key and an empty key are never sensitive. */
  predicate Sensitive(key: Option<string>) {
    && key.Some? && key.value != ""
    && var normalized := Normalize(key.value);
       normalized in REFERENCE_KEYS || exists f :: f in FRAGMENTS && Contains(normalized, f)
  }

  predicate HasSecretPrefix(s: string) {
    exists p :: p in PREFIXES && StartsWith(s, p)
  }

  /** The structure that a text encodes, if it is small enough and is an object or an array. */
  function Encoded(s: string): (r: Option<Json>)
    ensures r.Some? ==> Longest(r.value) < |s| && (r.value.Obj? || r.value.Arr?)
  {
    var trimmed := Trim(s);
    if |trimmed| <= SIZE_GUARD && (StartsWith(trimmed, "{") || StartsWith(trimmed, "[")) then
      match Decode(trimmed)
      case None => None
      case Some(v) => if v.Obj? || v.Arr? then Some(v) else None
    else None
  }

  /** The recursion ends because decoding shortens: the longest text inside a value bounds the next level. */
  function RedactText(t: Tools, s: string): string
    decreases |s|, 0
  {
    match Encoded(s)
    case Some(v) => t.encode(RedactValue(t, v, None))
    case None => t.scrub(s)
  }

  function RedactValue(t: Tools, v: Json, key: Option<string>): Json
    decreases Longest(v), 1, v
  {
    if Sensitive(key) then Str(REDACTED)
    else match v
      case Arr(items) => Arr(RedactItems(t, items))
      case Obj(fields) => Obj(Collect(FieldKey<Json>, RedactFields(t, fields)))
      case Str(s) => Str(if HasSecretPrefix(s) then REDACTED else RedactText(t, s))
      case _ => v
  }

  function RedactItems(t: Tools, items: seq<Json>): seq<Json>
    decreases LongestItem(items), 1, items
  {
    if items == [] then [] else [RedactValue(t, items[0], None)] + RedactItems(t, items[1..])
  }

  /** The entries before Object.fromEntries: two keys may redact to the same text. */
  function RedactFields(t: Tools, fields: seq<(string, Json)>): seq<(string, Json)>
    decreases LongestField(fields), 1, fields
  {
    if fields == [] then []
    else [RedactField(t, fields[0])] + RedactFields(t, fields[1..])
  }

  function RedactField(t: Tools, field: (string, Json)): (string, Json)
    decreases LongestOf(field), 1, field
  {
    (RedactText(t, field.0), RedactValue(t, field.1, Some(field.0)))
  }

  // ---------------------------------------------------------------- independence

  /** Equal up to the values under sensitive keys, at every depth and inside encoded texts. */
  ghost predicate Alike(a: Json, b: Json, key: Option<string>)
    decreases Longest(a), 1, a
  {
    || Sensitive(key)
    || a == b
    || (a.Arr? && b.Arr? && AlikeItems(a.items, b.items))
    || (a.Obj? && b.Obj? && AlikeFields(a.fields, b.fields))
    || (a.Str? && b.Str? && AlikeText(a.s, b.s))
  }

  ghost predicate AlikeText(s: string, u: string)
    decreases |s|, 0
  {
    || s == u
    || (Encoded(s).Some? && Encoded(u).Some? && Alike(Encoded(s).value, Encoded(u).value, None))
  }

  ghost predicate AlikeItems(a: seq<Json>, b: seq<Json>)
    decreases LongestItem(a), 1, a
  {
    |a| == |b| && (a == [] || (Alike(a[0], b[0], None) && AlikeItems(a[1..], b[1..])))
  }

  ghost predicate AlikeFields(a: seq<(string, Json)>, b: seq<(string, Json)>)
    decreases LongestField(a), 1, a
  {
    |a| == |b| && (a == [] || (AlikeField(a[0], b[0]) && AlikeFields(a[1..], b[1..])))
  }

  ghost predicate AlikeField(a: (string, Json), b: (string, Json))
    decreases LongestOf(a), 1, a
  {
    a.0 == b.0 && Alike(a.1, b.1, Some(a.0))
  }

  /** A text that encodes a structure begins with space or a bracket, so no secret prefix fits it. */
  lemma {:induction false} EncodedHasNoPrefix(s: string)
    requires Encoded(s).Some?
    ensures !HasSecretPrefix(s)
  {
    var trimmed := Trim(s);
    assert trimmed[0] == '{' || trimmed[0] == '[';
    assert s[0] == trimmed[0] || IsBlank(s[0]);
    forall p | p in PREFIXES
      ensures !StartsWith(s, p)
    {
      assert p[0] == 'g' || p[0] == 's' || p[0] == 'x' || p[0] == 'e';
    }
  }

  lemma {:induction false} RedactTextIndependent(t: Tools, s: string, u: string)
    requires AlikeText(s, u)
    ensures RedactText(t, s) == RedactText(t, u)
    decreases |s|, 0
  {
    if s != u {
      RedactValueIndependent(t, Encoded(s).value, Encoded(u).value, None);
    }
  }

  /** Snapshots that differ only in values under sensitive keys redact to the same result. */
  lemma {:induction false} RedactValueIndependent(t: Tools, a: Json, b: Json, key: Option<string>)
    requires Alike(a, b, key)
    ensures RedactValue(t, a, key) == RedactValue(t, b, key)
    decreases Longest(a), 1, a
  {
    if !Sensitive(key) && a != b {
      match a
      case Arr(items) => RedactItemsIndependent(t, items, b.items);
      case Obj(fields) => RedactFieldsIndependent(t, fields, b.fields);
      case Str(s) =>
        EncodedHasNoPrefix(s);
        EncodedHasNoPrefix(b.s);
        RedactTextIndependent(t, s, b.s);
      case _ =>
    }
  }

  lemma {:induction false} RedactItemsIndependent(t: Tools, a: seq<Json>, b: seq<Json>)
    requires AlikeItems(a, b)
    ensures RedactItems(t, a) == RedactItems(t, b)
    decreases LongestItem(a), 1, a
  {
    if a != [] {
      RedactValueIndependent(t, a[0], b[0], None);
      RedactItemsIndependent(t, a[1..], b[1..]);
    }
  }

  lemma {:induction false} RedactFieldsIndependent(t: Tools, a: seq<(string, Json)>, b: seq<(string, Json)>)
    requires AlikeFields(a, b)
    ensures RedactFields(t, a) == RedactFields(t, b)
    decreases LongestField(a), 1, a
  {
    if a != [] {
      RedactFieldIndependent(t, a[0], b[0]);
      RedactFieldsIndependent(t, a[1..], b[1..]);
    }
  }

  lemma {:induction false} RedactFieldIndependent(t: Tools, a: (string, Json), b: (string, Json))
    requires AlikeField(a, b)
    ensures RedactField(t, a) == RedactField(t, b)
    decreases LongestOf(a), 1, a
  {
    RedactValueIndependent(t, a.1, b.1, Some(a.0));
  }

  lemma {:induction false} AlikeToThemselves(fields: seq<(string, Json)>)
    ensures AlikeFields(fields, fields)
  {
    if fields != [] {
      AlikeToThemselves(fields[1..]);
    }
  }

  lemma {:induction false} AlikeAround(before: seq<(string, Json)>, a: (string, Json), b: (string, Json),
                                       after: seq<(string, Json)>)
    requires AlikeField(a, b)
    ensures AlikeFields(before + [a] + after, before + [b] + after)
  {
    var x, y := before + [a] + after, before + [b] + after;
    if before == [] {
      assert x[1..] == after && y[1..] == after;
      AlikeToThemselves(after);
    } else {
      assert x[1..] == before[1..] + [a] + after && y[1..] == before[1..] + [b] + after;
      AlikeAround(before[1..], a, b, after);
    }
  }

  /** No value under a sensitive key, whatever stands around it, has any influence on the redacted record. */
  lemma SecretHasNoInfluence(t: Tools, before: seq<(string, Json)>, key: string, v: Json, w: Json,
                             after: seq<(string, Json)>)
    requires Sensitive(Some(key))
    ensures RedactValue(t, Obj(before + [(key, v)] + after), None) ==
            RedactValue(t, Obj(before + [(key, w)] + after), None)
  {
    AlikeAround(before, (key, v), (key, w), after);
    RedactValueIndependent(t, Obj(before + [(key, v)] + after), Obj(before + [(key, w)] + after), None);
  }
}
