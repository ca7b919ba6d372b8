/**
 Freezing a package before anything connects: the manifest, the numbered files of a directory and, on a fresh run, the
 schema file. SHA-256 and UTF-8 decoding are parameters; nothing but the stated injectivity is assumed of the first.
 */
module MigrationFiles {
  import opened Basics
  import opened Options
  import opened Sorting
  import opened Keyed
  import opened MigrationText
  import opened MigrationStore
  import opened MigrationRuns
  import opened MigrationHistory

  type Bytes(==, !new)

  datatype Codec = Codec(digest: Bytes -> string, decode: Bytes -> Option<string>)

  /** A directory entry; regular means a file that is no symbolic link. */
  datatype Entry = Entry(name: string, regular: bool, data: Bytes)

  datatype Manifest = Missing | Undecodable | Text(text: string)

  /** The entries come in whatever order the file system lists them. */
  datatype Directory = Directory(manifest: Manifest, listing: seq<Entry>)

  datatype LoadError =
    | NoManifest
    | NotUtf8
    | BadLine(number: nat)
    | DuplicateEntry(name: string)
    | NamesDiffer
    | NotRegular(name: string)
    | DigestMismatch(name: string)
    | Rejected(name: string, why: SqlError)

  predicate IsWord(c: char) { IsDigit(c) || 'A' <= c <= 'Z' || 'a' <= c <= 'z' || c == '_' }

  function LeadingDigits(s: string): (n: nat)
    ensures n <= |s|
  {
    if s != [] && IsDigit(s[0]) then 1 + LeadingDigits(s[1..]) else 0
  }

  /** digits, an underscore, at least one word character, ".sql" */
  predicate IsNumbered(s: string) {
    var n := LeadingDigits(s);
    && 0 < n && n + 6 <= |s| && s[n] == '_' && s[|s| - 4..] == ".sql"
    && forall i :: n < i < |s| - 4 ==> IsWord(s[i])
  }

  predicate IsChecksum(s: string) {
    && |s| == 71 && s[..7] == "sha256:"
    && forall i :: 7 <= i < 71 ==> IsDigit(s[i]) || 'a' <= s[i] <= 'f'
  }

  /** The schema's ledger name is itself a well-formed numbered name. */
  lemma SchemaNameIsNumbered()
    ensures IsNumbered(SCHEMA)
  {
    SchemaDigits();
    SchemaWord();
    assert SCHEMA[|SCHEMA| - 4..] == ".sql";
  }

  lemma SchemaDigits()
    ensures LeadingDigits(SCHEMA) == 3
  {
    var s1 := SCHEMA[1..];
    var s2 := s1[1..];
    var s3 := s2[1..];
    assert SCHEMA[0] == '0' && s1[0] == '0' && s2[0] == '0' && s3[0] == '_';
    assert LeadingDigits(s3) == 0;
    assert LeadingDigits(s2) == 1;
    assert LeadingDigits(s1) == 2;
  }

  lemma SchemaWord()
    ensures |SCHEMA| == 17 && SCHEMA[3] == '_' && forall i :: 3 < i < 13 ==> IsWord(SCHEMA[i])
  {
  }

  function WordEnd(s: string, i: nat): (j: nat)
    requires i <= |s|
    ensures i <= j <= |s|
    decreases |s| - i
  {
    if i < |s| && !IsSpace(s[i]) then WordEnd(s, i + 1) else i
  }

  function Words(s: string): seq<string>
    decreases |s|
  {
    var i := SkipSpace(s, 0);
    if i == |s| then []
    else [s[i..WordEnd(s, i + 1)]] + Words(s[WordEnd(s, i + 1)..])
  }

  function AddLine(line: string, number: nat, expected: map<string, string>): Result<map<string, string>, LoadError> {
    if LStrip(line) == [] || LStrip(line)[0] == '#' then Ok(expected)
    else
      var parts := Words(line);
      if |parts| != 2 || !IsChecksum(parts[0]) || !IsNumbered(parts[1]) then Err(BadLine(number))
      else if parts[1] in expected then Err(DuplicateEntry(parts[1]))
      else Ok(expected[parts[1] := parts[0]])
  }

  function ReadLines(lines: seq<string>, number: nat, expected: map<string, string>)
    : Result<map<string, string>, LoadError>
  {
    if lines == [] then Ok(expected)
    else match AddLine(lines[0], number, expected)
      case Err(e) => Err(e)
      case Ok(more) => ReadLines(lines[1..], number + 1, more)
  }

  function ReadManifest(m: Manifest): Result<map<string, string>, LoadError> {
    match m
    case Missing => Err(NoManifest)
    case Undecodable => Err(NotUtf8)
    case Text(text) => ReadLines(SplitLines(text), 1, map[])
  }

  /** Code point order, as Python sorts names. */
  predicate NameLe(a: string, b: string) {
    a == [] || (b != [] && (a[0] < b[0] || (a[0] == b[0] && NameLe(a[1..], b[1..]))))
  }

  predicate EntryLe(a: Entry, b: Entry) {
    NameLe(a.name, b.name)
  }

  function NumberedEntries(listing: seq<Entry>): seq<Entry> {
    if listing == [] then []
    else (if IsNumbered(listing[0].name) then [listing[0]] else []) + NumberedEntries(listing[1..])
  }

  function EntryNames(entries: seq<Entry>): (names: set<string>)
    ensures forall n :: n in names <==> exists i :: 0 <= i < |entries| && entries[i].name == n
  {
    set i | 0 <= i < |entries| :: entries[i].name
  }

  function FreezeOne(c: Codec, e: Entry, expected: map<string, string>): Result<File, LoadError>
    requires e.name in expected
  {
    if !e.regular then Err(NotRegular(e.name))
    else if c.digest(e.data) != expected[e.name] then Err(DigestMismatch(e.name))
    else match c.decode(e.data)
      case None => Err(NotUtf8)
      case Some(text) =>
        match ExecutableSql(text, false)
        case Err(why) => Err(Rejected(e.name, why))
        case Ok(sql) => Ok(File(e.name, c.digest(e.data), sql))
  }

  function FreezeAll(c: Codec, paths: seq<Entry>, expected: map<string, string>): Result<seq<File>, LoadError>
    requires EntryNames(paths) <= expected.Keys
  {
    if paths == [] then Ok([])
    else
      var init := paths[..|paths| - 1];
      assert EntryNames(init) <= EntryNames(paths) by {
        assert forall i :: 0 <= i < |init| ==> init[i] == paths[i];
      }
      match FreezeAll(c, init, expected)
      case Err(e) => Err(e)
      case Ok(files) =>
        match FreezeOne(c, paths[|paths| - 1], expected)
        case Err(e) => Err(e)
        case Ok(file) => Ok(files + [file])
  }

  function LoadNumbered(c: Codec, d: Directory): Result<seq<File>, LoadError> {
    match ReadManifest(d.manifest)
    case Err(e) => Err(e)
    case Ok(expected) =>
      var paths := StableSort(EntryLe, NumberedEntries(d.listing));
      if paths == [] || EntryNames(paths) != expected.Keys then Err(NamesDiffer)
      else FreezeAll(c, paths, expected)
  }

  /** The schema row carries the checksum of the whole file, and the SQL between its two outer statements. */
  function FreezeSchema(c: Codec, e: Entry): Result<File, LoadError> {
    if !e.regular then Err(NotRegular(e.name))
    else match c.decode(e.data)
      case None => Err(NotUtf8)
      case Some(text) =>
        match ExecutableSql(text, true)
        case Err(why) => Err(Rejected(e.name, why))
        case Ok(sql) => Ok(File(SCHEMA, c.digest(e.data), sql))
  }

  function Load(c: Codec, d: Directory, schema: Option<Entry>): Result<seq<File>, LoadError> {
    match LoadNumbered(c, d)
    case Err(e) => Err(e)
    case Ok(files) =>
      match schema
      case None => Ok(files)
      case Some(entry) =>
        match FreezeSchema(c, entry)
        case Err(e) => Err(e)
        case Ok(file) => Ok([file] + files)
  }

  /** The manifest loop, which fills the dictionary line by line. */
  method ExpectedDigests(m: Manifest) returns (r: Result<map<string, string>, LoadError>)
    ensures r == ReadManifest(m)
    ensures m.Text? ==>
              var lines := SplitLines(m.text);
              ReadingOf(lines, r) && (r.Ok? <==> Faultless(lines, |lines|))
  {
    hide ReadingOf, Faultless, AddLine, SplitLines;
    if m.Text? {
      ManifestMeaning(m.text);
    }
    if m.Missing? {
      return Err(NoManifest);
    }
    if m.Undecodable? {
      return Err(NotUtf8);
    }
    var lines := SplitLines(m.text);
    var expected: map<string, string> := map[];
    var i := 0;
    while i < |lines|
      invariant 0 <= i <= |lines|
      invariant ReadLines(lines, 1, map[]) == ReadLines(lines[i..], i + 1, expected)
    {
      var line := AddLine(lines[i], i + 1, expected);
      assert lines[i..][1..] == lines[i + 1..];
      if line.Err? {
        return Err(line.error);
      }
      expected := line.value;
      i := i + 1;
    }
    return Ok(expected);
  }

  /** The freezing loop, which appends file by file. */
  method FreezeFiles(c: Codec, paths: seq<Entry>, expected: map<string, string>)
    returns (r: Result<seq<File>, LoadError>)
    requires EntryNames(paths) <= expected.Keys
    ensures r == FreezeAll(c, paths, expected)
    ensures r.Ok? ==> |r.value| == |paths|
    ensures r.Ok? ==> forall i :: 0 <= i < |paths| ==> FrozenFrom(c, paths[i], expected, r.value[i])
  {
    hide FreezeOne, FrozenFrom;
    var frozen: seq<File> := [];
    var i := 0;
    assert paths[..0] == [];
    while i < |paths|
      invariant 0 <= i <= |paths| && EntryNames(paths[..i]) <= expected.Keys
      invariant FreezeAll(c, paths[..i], expected) == Ok(frozen)
    {
      assert paths[..i + 1][..i] == paths[..i];
      EntryNamesGrow(paths, i);
      assert paths[i].name in EntryNames(paths);
      var one := FreezeOne(c, paths[i], expected);
      if one.Err? {
        FailureStays(c, paths, expected, i + 1);
        return Err(one.error);
      }
      frozen := frozen + [one.value];
      i := i + 1;
    }
    assert paths[..|paths|] == paths;
    FreezeAllShape(c, paths, expected);
    return Ok(frozen);
  }

  method LoadMigrations(c: Codec, d: Directory, schema: Option<Entry>) returns (r: Result<seq<File>, LoadError>)
    ensures r == Load(c, d, schema)
  {
    var expected := ExpectedDigests(d.manifest);
    if expected.Err? {
      return Err(expected.error);
    }
    var paths := StableSort(EntryLe, NumberedEntries(d.listing));
    if paths == [] || EntryNames(paths) != expected.value.Keys {
      return Err(NamesDiffer);
    }
    var frozen := FreezeFiles(c, paths, expected.value);
    if frozen.Err? || schema.None? {
      return frozen;
    }
    var first := FreezeSchema(c, schema.value);
    if first.Err? {
      return Err(first.error);
    }
    return Ok([first.value] + frozen.value);
  }

  lemma EntryNamesGrow(paths: seq<Entry>, i: nat)
    requires i < |paths|
    ensures EntryNames(paths[..i + 1]) == EntryNames(paths[..i]) + {paths[i].name}
  {
    assert paths[..i + 1] == paths[..i] + [paths[i]];
    var longer := paths[..i + 1];
    forall n
      ensures n in EntryNames(longer) <==> n in EntryNames(paths[..i]) + {paths[i].name}
    {
      if n in EntryNames(paths[..i]) {
        var j :| 0 <= j < i && paths[..i][j].name == n;
        assert longer[j].name == n;
      }
      if n == paths[i].name {
        assert longer[i].name == n;
      }
      if n in EntryNames(longer) {
        var j :| 0 <= j <= i && longer[j].name == n;
        assert j < i ==> paths[..i][j].name == n;
      }
    }
  }

  lemma {:induction false} FailureStays(c: Codec, paths: seq<Entry>, expected: map<string, string>, i: nat)
    requires i <= |paths| && EntryNames(paths) <= expected.Keys && EntryNames(paths[..i]) <= expected.Keys
    requires FreezeAll(c, paths[..i], expected).Err?
    ensures FreezeAll(c, paths, expected) == FreezeAll(c, paths[..i], expected)
    decreases |paths| - i
  {
    if i == |paths| {
      assert paths[..i] == paths;
    } else {
      EntryNamesGrow(paths, i);
      assert paths[i].name in EntryNames(paths);
      assert paths[..i + 1][..i] == paths[..i];
      FailureStays(c, paths, expected, i + 1);
    }
  }

  // ---------------------------------------------------------------- names

  /** a and b agree up to position k, where a has the smaller code point. */
  ghost predicate LessAt(a: string, b: string, k: nat) {
    k < |a| && k < |b| && a[..k] == b[..k] && a[k] < b[k]
  }

  /** Code point order: a proper beginning comes first, and otherwise the first difference decides. */
  lemma {:induction false} NameLeMeaning(a: string, b: string)
    ensures NameLe(a, b) <==> a <= b || exists k: nat :: LessAt(a, b, k)
    decreases |a|
  {
    if a != [] && b != [] {
      var c, d := a[1..], b[1..];
      NameLeMeaning(c, d);
      assert a == [a[0]] + c && b == [b[0]] + d;
      if a[0] < b[0] {
        assert LessAt(a, b, 0);
      }
      if a[0] == b[0] {
        if k: nat :| LessAt(c, d, k) {
          assert a[..k + 1] == [a[0]] + c[..k] && b[..k + 1] == [b[0]] + d[..k];
          assert LessAt(a, b, k + 1);
        }
      }
      if k: nat :| LessAt(a, b, k) {
        DifferenceBehind(a, b, k);
      }
    }
  }

  lemma DifferenceBehind(a: string, b: string, k: nat)
    requires LessAt(a, b, k)
    ensures k > 0 ==> a[0] == b[0] && LessAt(a[1..], b[1..], k - 1)
    ensures k == 0 ==> a[0] < b[0]
  {
    if k > 0 {
      assert a[..k][0] == b[..k][0];
      assert a[1..][..k - 1] == a[..k][1..] && b[1..][..k - 1] == b[..k][1..];
    }
  }

  /** The smaller name is not behind the larger one. */
  lemma LessIsStrict(p: string, x: char, s: string, y: char, t: string)
    requires x < y
    ensures NameLe(p + [x] + s, p + [y] + t) && !NameLe(p + [y] + t, p + [x] + s)
  {
    var a, b := p + [x] + s, p + [y] + t;
    assert a[..|p|] == p && b[..|p|] == p;
    assert LessAt(a, b, |p|);
    NameLeMeaning(a, b);
    NameOrder(a, b, []);
    assert a[|p|] == x && b[|p|] == y;
  }

  /** Digits, an underscore, word characters and the suffix. */
  ghost predicate NumberedAs(s: string, digits: string, word: string) {
    && s == digits + "_" + word + ".sql"
    && digits != [] && (forall c :: c in digits ==> c in "0123456789")
    && word != []
    && forall c :: c in word ==> '0' <= c <= '9' || 'A' <= c <= 'Z' || 'a' <= c <= 'z' || c == '_'
  }

  lemma DigitsAreDigits(c: char)
    ensures IsDigit(c) <==> c in "0123456789"
  {
    var n := "0123456789";
    if IsDigit(c) {
      assert n[c as int - '0' as int] == c;
    }
  }

  lemma {:induction false} LeadingDigitsOf(digits: string, rest: string)
    requires (forall c :: c in digits ==> IsDigit(c)) && (rest == [] || !IsDigit(rest[0]))
    ensures LeadingDigits(digits + rest) == |digits|
  {
    if digits == [] {
      assert digits + rest == rest;
    } else {
      assert (digits + rest)[0] == digits[0] && digits[0] in digits;
      assert (digits + rest)[1..] == digits[1..] + rest;
      LeadingDigitsOf(digits[1..], rest);
    }
  }

  lemma SplitNumbered(s: string) returns (digits: string, word: string)
    requires IsNumbered(s)
    ensures NumberedAs(s, digits, word)
  {
    var n := LeadingDigits(s);
    digits, word := s[..n], s[n + 1..|s| - 4];
    LeadingDigitsAre(s);
    assert s == digits + [s[n]] + word + s[|s| - 4..];
    forall c | c in digits
      ensures c in "0123456789"
    {
      var i :| 0 <= i < n && s[i] == c;
      DigitsAreDigits(c);
    }
    forall c | c in word
      ensures IsWord(c)
    {
      var i :| 0 <= i < |word| && word[i] == c;
      assert s[n + 1 + i] == c;
    }
  }

  lemma JoinNumbered(s: string, digits: string, word: string)
    requires NumberedAs(s, digits, word)
    ensures IsNumbered(s)
  {
    var n, rest := |digits|, "_" + word + ".sql";
    assert s == digits + rest && rest[0] == '_';
    forall c | c in digits
      ensures IsDigit(c)
    {
      DigitsAreDigits(c);
    }
    LeadingDigitsOf(digits, rest);
    assert s[n] == '_' && s[|s| - 4..] == ".sql";
    forall i | n < i < |s| - 4
      ensures IsWord(s[i])
    {
      assert s[i] == word[i - n - 1] && s[i] in word;
    }
  }

  lemma NumberedMeaning(s: string)
    ensures IsNumbered(s) <==> exists digits, word :: NumberedAs(s, digits, word)
  {
    if IsNumbered(s) {
      var digits, word := SplitNumbered(s);
    }
    if digits, word :| NumberedAs(s, digits, word) {
      JoinNumbered(s, digits, word);
    }
  }

  /** The tag and sixty-four lower-case hexadecimal digits. */
  ghost predicate Tagged(s: string, hex: string) {
    s == "sha256:" + hex && |hex| == 64 && forall c :: c in hex ==> c in "0123456789abcdef"
  }

  lemma HexDigits(c: char)
    ensures IsDigit(c) || 'a' <= c <= 'f' <==> c in "0123456789abcdef"
  {
    var n := "0123456789abcdef";
    if IsDigit(c) {
      assert n[c as int - '0' as int] == c;
    }
    if 'a' <= c <= 'f' {
      assert n[c as int - 'a' as int + 10] == c;
    }
  }

  lemma ChecksumMeaning(s: string)
    ensures IsChecksum(s) <==> exists hex :: Tagged(s, hex)
  {
    if IsChecksum(s) {
      var hex := s[7..];
      assert s == s[..7] + hex;
      forall c | c in hex
        ensures c in "0123456789abcdef"
      {
        var i :| 0 <= i < |hex| && hex[i] == c;
        assert s[i + 7] == c;
        HexDigits(c);
      }
      assert Tagged(s, hex);
    }
    if hex :| Tagged(s, hex) {
      assert s[..7] == "sha256:";
      forall i | 7 <= i < 71
        ensures IsDigit(s[i]) || 'a' <= s[i] <= 'f'
      {
        assert s[i] == hex[i - 7] && hex[i - 7] in hex;
        HexDigits(s[i]);
      }
    }
  }

  // ---------------------------------------------------------------- what the manifest means

  /** Blank, or a comment. */
  predicate Skipped(line: string) {
    LStrip(line) == [] || LStrip(line)[0] == '#'
  }

  /** A line that binds a numbered name to a checksum, and holds nothing else. */
  predicate Lists(line: string, name: string, digest: string) {
    !Skipped(line) && Words(line) == [digest, name] && IsChecksum(digest) && IsNumbered(name)
  }

  predicate Blank(s: string) {
    forall c :: c in s ==> IsSpace(c)
  }

  predicate Solid(s: string) {
    s != [] && forall c :: c in s ==> !IsSpace(c)
  }

  lemma {:induction false} BlankPrefix(sp: string, rest: string, i: nat)
    requires Blank(sp) && (rest == [] || !IsSpace(rest[0])) && i <= |sp|
    ensures SkipSpace(sp + rest, i) == |sp|
    decreases |sp| - i
  {
    if i < |sp| {
      assert (sp + rest)[i] == sp[i] && sp[i] in sp;
      BlankPrefix(sp, rest, i + 1);
    } else if rest != [] {
      assert (sp + rest)[i] == rest[0];
    }
  }

  lemma {:induction false} SolidEnd(before: string, w: string, rest: string, i: nat)
    requires Solid(w) && (rest == [] || IsSpace(rest[0])) && |before| <= i <= |before| + |w|
    ensures WordEnd(before + w + rest, i) == |before| + |w|
    decreases |before| + |w| - i
  {
    var s := before + w + rest;
    if i < |before| + |w| {
      assert s[i] == w[i - |before|] && w[i - |before|] in w;
      SolidEnd(before, w, rest, i + 1);
    } else if rest != [] {
      assert s[i] == rest[0];
    }
  }

  /** One word in front of the others. */
  lemma WordsOf(sp: string, w: string, rest: string)
    requires Blank(sp) && Solid(w) && (rest == [] || IsSpace(rest[0]))
    ensures Words(sp + w + rest) == [w] + Words(rest)
  {
    var s := sp + w + rest;
    assert s == sp + (w + rest) && (w + rest)[0] == w[0] && w[0] in w;
    BlankPrefix(sp, w + rest, 0);
    SolidEnd(sp, w, rest, |sp| + 1);
    assert s[|sp|..|sp| + |w|] == w && s[|sp| + |w|..] == rest;
  }

  lemma NoWords(s: string)
    ensures Words(s) == [] <==> Blank(s)
    ensures Words(s) == [] <==> SkipSpace(s, 0) == |s|
  {
    var i := SkipSpace(s, 0);
    assert i < |s| ==> s[i] in s;
    if i == |s| {
      forall c | c in s
        ensures IsSpace(c)
      {
        var k :| 0 <= k < |s| && s[k] == c;
      }
    }
  }

  lemma WordsUnfold(s: string, i: nat, j: nat)
    requires i == SkipSpace(s, 0) < |s| && j == WordEnd(s, i + 1)
    ensures Words(s) == [s[i..j]] + Words(s[j..])
  {
  }

  lemma HeadAndTail(word: string, words: seq<string>)
    ensures ([word] + words)[0] == word && ([word] + words)[1..] == words
  {
  }

  lemma FirstWord(s: string) returns (sp: string, rest: string)
    requires Words(s) != []
    ensures s == sp + Words(s)[0] + rest && Blank(sp) && Solid(Words(s)[0])
    ensures Words(rest) == Words(s)[1..] && (rest == [] || IsSpace(rest[0]))
  {
    hide Words;
    var i := SkipSpace(s, 0);
    NoWords(s);
    var j := WordEnd(s, i + 1);
    WordsUnfold(s, i, j);
    HeadAndTail(s[i..j], Words(s[j..]));
    sp, rest := s[..i], s[j..];
    SolidTo(s, i + 1);
    BlankSlice(s, i);
    SolidSlice(s, i, j);
    assert s == s[..i] + s[i..j] + s[j..];
  }

  lemma BlankSlice(s: string, i: nat)
    requires AllSpace(s, 0, i)
    ensures Blank(s[..i])
  {
    Between(s, 0, i);
    assert s[0..i] == s[..i];
  }

  lemma SolidSlice(s: string, i: nat, j: nat)
    requires i < j <= |s| && forall k :: i <= k < j ==> !IsSpace(s[k])
    ensures Solid(s[i..j])
  {
    Between(s, i, j);
  }

  lemma Adjacent(b: string, end: string)
    requires Solid(b)
    ensures var r := [] + b + end; r != [] && !IsSpace(r[0])
  {
    assert b[0] in b && ([] + b + end)[0] == b[0];
  }

  lemma Between(s: string, lo: nat, hi: nat)
    requires lo <= hi <= |s|
    ensures forall c :: c in s[lo..hi] ==> exists k :: lo <= k < hi && s[k] == c
  {
  }

  lemma {:induction false} SolidTo(s: string, i: nat)
    requires i <= |s|
    ensures forall k :: i <= k < WordEnd(s, i) ==> !IsSpace(s[k])
    ensures WordEnd(s, i) < |s| ==> IsSpace(s[WordEnd(s, i)])
    decreases |s| - i
  {
    if i < |s| && !IsSpace(s[i]) {
      SolidTo(s, i + 1);
    }
  }

  /** A line with space around and between two words. */
  ghost predicate Spaced(line: string, sp: string, a: string, mid: string, b: string, end: string) {
    line == sp + a + mid + b + end && Blank(sp) && Blank(mid) && mid != [] && Blank(end)
  }

  lemma WordsAreSpaced(line: string, a: string, b: string) returns (sp: string, mid: string, end: string)
    requires Words(line) == [a, b]
    ensures Solid(a) && Solid(b) && Spaced(line, sp, a, mid, b, end)
  {
    hide Words, Blank;
    var rest: string;
    sp, rest := FirstWord(line);
    assert Words(rest) == [b];
    mid, end := FirstWord(rest);
    assert Words(end) == [];
    NoWords(end);
    assert line == sp + a + mid + b + end;
    assert mid == [] ==> rest == [] + b + end;
    Adjacent(b, end);
  }

  lemma SpacedAreWords(line: string, sp: string, a: string, mid: string, b: string, end: string)
    requires Solid(a) && Solid(b) && Spaced(line, sp, a, mid, b, end)
    ensures Words(line) == [a, b]
  {
    hide Words;
    var rest := mid + b + end;
    assert line == sp + a + rest && rest[0] == mid[0] && mid[0] in mid;
    assert end != [] ==> end[0] in end;
    WordsOf(sp, a, rest);
    WordsOf(mid, b, end);
    NoWords(end);
  }

  lemma TwoWords(line: string, a: string, b: string)
    ensures Words(line) == [a, b] <==> Solid(a) && Solid(b) && exists sp, mid, end :: Spaced(line, sp, a, mid, b, end)
  {
    hide Words, Solid, Spaced;
    if Words(line) == [a, b] {
      var sp, mid, end := WordsAreSpaced(line, a, b);
    }
    if Solid(a) && Solid(b) {
      if sp, mid, end :| Spaced(line, sp, a, mid, b, end) {
        SpacedAreWords(line, sp, a, mid, b, end);
      }
    }
  }

  lemma {:induction false} LeadingDigitsAre(s: string)
    ensures forall i :: 0 <= i < LeadingDigits(s) ==> IsDigit(s[i])
  {
    if s != [] && IsDigit(s[0]) {
      LeadingDigitsAre(s[1..]);
      assert forall i :: 1 <= i < LeadingDigits(s) ==> s[i] == s[1..][i - 1];
    }
  }

  /** Neither a checksum nor a numbered name holds space. */
  lemma EntriesAreSolid(name: string, digest: string)
    ensures IsChecksum(digest) ==> Solid(digest) && digest[0] == 's'
    ensures IsNumbered(name) ==> Solid(name)
  {
    if IsChecksum(digest) {
      assert digest == digest[..7] + digest[7..];
      forall c | c in digest
        ensures !IsSpace(c)
      {
        var i :| 0 <= i < |digest| && digest[i] == c;
        assert i < 7 ==> digest[i] == "sha256:"[i];
      }
      assert digest[0] == digest[..7][0];
    }
    if IsNumbered(name) {
      LeadingDigitsAre(name);
      forall c | c in name
        ensures !IsSpace(c)
      {
        var i :| 0 <= i < |name| && name[i] == c;
        assert i >= |name| - 4 ==> name[i] == name[|name| - 4..][i - (|name| - 4)] == ".sql"[i - (|name| - 4)];
      }
    }
  }

  /** An entry line is a checksum, space and a numbered name, with nothing but space around them. */
  lemma EntryLine(line: string, name: string, digest: string)
    ensures Lists(line, name, digest) <==>
            IsChecksum(digest) && IsNumbered(name)
            && exists sp, mid, end :: Spaced(line, sp, digest, mid, name, end)
  {
    TwoWords(line, digest, name);
    EntriesAreSolid(name, digest);
    if IsChecksum(digest) && Words(line) == [digest, name] {
      FirstOfLine(line);
    }
  }

  lemma FirstOfLine(line: string)
    requires Words(line) != []
    ensures LStrip(line) != [] && LStrip(line)[0] == Words(line)[0][0]
  {
  }

  /** Neither skipped nor an entry. */
  ghost predicate Malformed(line: string) {
    !Skipped(line) && forall name, digest :: !Lists(line, name, digest)
  }

  ghost predicate NamedOn(line: string, name: string) {
    exists digest :: Lists(line, name, digest)
  }

  predicate Binds(m: map<string, string>, name: string, digest: string) {
    name in m && m[name] == digest
  }

  /** The first n lines are well-formed and name every file at most once. */
  ghost predicate Faultless(lines: seq<string>, n: nat)
    requires n <= |lines|
  {
    && (forall i :: 0 <= i < n ==> !Malformed(lines[i]))
    && forall i, j, name :: 0 <= i < j < n && NamedOn(lines[i], name) ==> !NamedOn(lines[j], name)
  }

  /** The dictionary holds exactly the entries of the first n lines. */
  ghost predicate Collects(lines: seq<string>, n: nat, m: map<string, string>)
    requires n <= |lines|
  {
    forall name, digest :: Binds(m, name, digest) <==> exists i :: 0 <= i < n && Lists(lines[i], name, digest)
  }

  lemma LineMeaning(line: string, number: nat, expected: map<string, string>) returns (name: string, digest: string)
    ensures Skipped(line) ==> AddLine(line, number, expected) == Ok(expected)
    ensures !Skipped(line) && !Malformed(line) ==>
              && Lists(line, name, digest)
              && AddLine(line, number, expected) ==
                 if name in expected then Err(DuplicateEntry(name)) else Ok(expected[name := digest])
    ensures Malformed(line) ==> AddLine(line, number, expected) == Err(BadLine(number))
  {
    var words := Words(line);
    name, digest := "", "";
    if |words| == 2 {
      digest, name := words[0], words[1];
      assert words == [digest, name];
      assert Lists(line, name, digest) <==> !Skipped(line) && IsChecksum(digest) && IsNumbered(name);
    }
    if n, d :| Lists(line, n, d) {
      assert words == [d, n];
    }
  }

  /** A line lists at most one entry. */
  lemma OneEntry(line: string, name: string, digest: string, other: string, value: string)
    requires Lists(line, name, digest) && Lists(line, other, value)
    ensures name == other && digest == value
  {
    assert [digest, name] == [value, other];
  }

  lemma OnlyName(line: string, name: string, digest: string, other: string)
    requires Lists(line, name, digest)
    ensures NamedOn(line, other) ==> other == name
  {
    if NamedOn(line, other) {
      var value :| Lists(line, other, value);
      OneEntry(line, name, digest, other, value);
    }
  }

  lemma SkipLine(lines: seq<string>, n: nat, m: map<string, string>)
    requires n < |lines| && Faultless(lines, n) && Collects(lines, n, m) && Skipped(lines[n])
    ensures Faultless(lines, n + 1) && Collects(lines, n + 1, m)
  {
  }

  /** The dictionary knows every name on the lines before. */
  lemma NamedIsKnown(lines: seq<string>, n: nat, m: map<string, string>, i: nat, name: string)
    requires i < n <= |lines| && Collects(lines, n, m)
    ensures NamedOn(lines[i], name) ==> name in m
  {
    if NamedOn(lines[i], name) {
      var digest :| Lists(lines[i], name, digest);
      assert Binds(m, name, digest);
    }
  }

  lemma TakeLine(lines: seq<string>, n: nat, m: map<string, string>, name: string, digest: string)
    requires n < |lines| && Faultless(lines, n) && Collects(lines, n, m)
    requires Lists(lines[n], name, digest) && name !in m
    ensures Faultless(lines, n + 1) && Collects(lines, n + 1, m[name := digest])
  {
    forall i, j, other | 0 <= i < j < n + 1 && NamedOn(lines[i], other)
      ensures !NamedOn(lines[j], other)
    {
      if j == n {
        NamedIsKnown(lines, n, m, i, other);
        OnlyName(lines[n], name, digest, other);
      }
    }
    var m' := m[name := digest];
    forall other, value
      ensures Binds(m', other, value) <==> exists i :: 0 <= i < n + 1 && Lists(lines[i], other, value)
    {
      TakenEntries(lines, n, m, name, digest, other, value);
    }
  }

  lemma TakenEntries(lines: seq<string>, n: nat, m: map<string, string>, name: string, digest: string, other: string,
                     value: string)
    requires n < |lines| && Collects(lines, n, m) && Lists(lines[n], name, digest) && name !in m
    ensures Binds(m[name := digest], other, value) <==> exists i :: 0 <= i < n + 1 && Lists(lines[i], other, value)
  {
    if Binds(m[name := digest], other, value) {
      if other != name {
        assert Binds(m, other, value);
      }
    }
    if i :| 0 <= i < n + 1 && Lists(lines[i], other, value) {
      if i == n {
        OneEntry(lines[n], name, digest, other, value);
      } else {
        assert Binds(m, other, value);
      }
    }
  }

  /** A name of the dictionary stands on one of the lines before. */
  lemma KnownName(lines: seq<string>, n: nat, m: map<string, string>, name: string) returns (i: nat)
    requires n <= |lines| && Collects(lines, n, m) && name in m
    ensures i < n && NamedOn(lines[i], name)
  {
    assert Binds(m, name, m[name]);
    i :| 0 <= i < n && Lists(lines[i], name, m[name]);
  }

  /** Line n is the first to name a file that an earlier line named. */
  ghost predicate Repeats(lines: seq<string>, n: nat, name: string) {
    n < |lines| && Faultless(lines, n) && NamedOn(lines[n], name) && exists i :: 0 <= i < n && NamedOn(lines[i], name)
  }

  /** Reading says: all entries of faultless lines, or the first fault. */
  ghost predicate ReadingOf(lines: seq<string>, r: Result<map<string, string>, LoadError>) {
    match r
    case Ok(m) => Faultless(lines, |lines|) && Collects(lines, |lines|, m)
    case Err(BadLine(number)) =>
      1 <= number <= |lines| && Malformed(lines[number - 1]) && Faultless(lines, number - 1)
    case Err(DuplicateEntry(name)) => exists n :: Repeats(lines, n, name)
    case Err(_) => false
  }

  lemma {:induction false} ReadFromLine(lines: seq<string>, n: nat, m: map<string, string>)
    requires n <= |lines| && Faultless(lines, n) && Collects(lines, n, m)
    ensures ReadingOf(lines, ReadLines(lines[n..], n + 1, m))
    decreases |lines| - n
  {
    if n < |lines| {
      assert lines[n..][0] == lines[n] && lines[n..][1..] == lines[n + 1..];
      var name, digest := LineMeaning(lines[n], n + 1, m);
      if Skipped(lines[n]) {
        SkipLine(lines, n, m);
        ReadFromLine(lines, n + 1, m);
      } else if Malformed(lines[n]) {
      } else if name in m {
        var i := KnownName(lines, n, m, name);
        assert Repeats(lines, n, name);
      } else {
        TakeLine(lines, n, m, name, digest);
        ReadFromLine(lines, n + 1, m[name := digest]);
      }
    }
  }

  /**
   A readable manifest is accepted if and only if every line that is neither blank nor a comment is one checksum and one
   numbered name, and no name occurs twice; the dictionary then binds a name to a checksum exactly where a line does.
   Otherwise the error names the first fault.
   */
  lemma ManifestMeaning(text: string)
    ensures var lines, r := SplitLines(text), ReadManifest(Text(text));
            && ReadingOf(lines, r)
            && (r.Ok? <==> Faultless(lines, |lines|))
  {
    var lines, r := SplitLines(text), ReadManifest(Text(text));
    assert lines[0..] == lines;
    ReadFromLine(lines, 0, map[]);
    if n, name :| Repeats(lines, n, name) {
      assert !Faultless(lines, |lines|);
    }
  }

  // ---------------------------------------------------------------- what a successful load means

  function EntryName(e: Entry): string { e.name }

  ghost predicate DistinctEntries(entries: seq<Entry>) {
    DistinctKeys(EntryName, entries)
  }

  ghost predicate StrictlySorted(files: seq<File>) {
    forall i, j :: 0 <= i < j < |files| ==> NameLe(files[i].name, files[j].name) && files[i].name != files[j].name
  }

  /** The file that one directory entry freezes to under a manifest. */
  ghost predicate FrozenFrom(c: Codec, e: Entry, expected: map<string, string>, f: File) {
    && e.name == f.name && e.regular
    && f.name in expected && f.digest == expected[f.name] == c.digest(e.data)
    && c.decode(e.data).Some? && ExecutableSql(c.decode(e.data).value, false) == Ok(f.sql)
  }

  lemma {:induction false} NameOrder(a: string, b: string, c: string)
    ensures NameLe(a, b) || NameLe(b, a)
    ensures NameLe(a, b) && NameLe(b, a) ==> a == b
    ensures NameLe(a, b) && NameLe(b, c) ==> NameLe(a, c)
  {
    if a != [] && b != [] {
      NameOrder(a[1..], b[1..], if c == [] then [] else c[1..]);
      assert a == [a[0]] + a[1..] && b == [b[0]] + b[1..];
    }
  }

  lemma EntryOrder()
    ensures TotalPreorder(EntryLe)
  {
    forall x: Entry, y: Entry
      ensures EntryLe(x, y) || EntryLe(y, x)
    {
      NameOrder(x.name, y.name, []);
    }
    forall x: Entry, y: Entry, z: Entry | EntryLe(x, y) && EntryLe(y, z)
      ensures EntryLe(x, z)
    {
      NameOrder(x.name, y.name, z.name);
    }
  }

  lemma NumberedMembers(listing: seq<Entry>)
    ensures forall e :: e in NumberedEntries(listing) <==> e in listing && IsNumbered(e.name)
    ensures DistinctEntries(listing) ==> DistinctEntries(NumberedEntries(listing))
  {
    if listing != [] {
      assert listing == [listing[0]] + listing[1..];
      NumberedMembers(listing[1..]);
      var rest := NumberedEntries(listing[1..]);
      if DistinctEntries(listing) {
        forall i | 0 <= i < |rest|
          ensures EntryName(rest[i]) != EntryName(listing[0])
        {
          assert rest[i] in listing[1..];
        }
      }
    }
  }

  lemma {:induction false} FreezeAllShape(c: Codec, paths: seq<Entry>, expected: map<string, string>)
    requires EntryNames(paths) <= expected.Keys && FreezeAll(c, paths, expected).Ok?
    ensures var files := FreezeAll(c, paths, expected).value;
            |files| == |paths| && forall i :: 0 <= i < |files| ==> FrozenFrom(c, paths[i], expected, files[i])
  {
    if paths != [] {
      hide FreezeOne, FrozenFrom, EntryNames;
      var init, last := paths[..|paths| - 1], paths[|paths| - 1];
      NamesOfInit(paths);
      FreezeAllStep(c, paths, expected);
      FreezeAllShape(c, init, expected);
      FrozenOne(c, last, expected);
      FrozenMore(c, paths, expected, FreezeAll(c, init, expected).value, FreezeOne(c, last, expected).value);
    }
  }

  lemma FrozenMore(c: Codec, paths: seq<Entry>, expected: map<string, string>, files: seq<File>, file: File)
    requires paths != [] && |files| == |paths| - 1 && FrozenFrom(c, paths[|paths| - 1], expected, file)
    requires forall i :: 0 <= i < |files| ==> FrozenFrom(c, paths[..|paths| - 1][i], expected, files[i])
    ensures forall i :: 0 <= i < |files + [file]| ==> FrozenFrom(c, paths[i], expected, (files + [file])[i])
  {
    hide FrozenFrom;
    forall i | 0 <= i < |files + [file]|
      ensures FrozenFrom(c, paths[i], expected, (files + [file])[i])
    {
      if i < |files| {
        assert paths[..|paths| - 1][i] == paths[i];
      }
    }
  }

  lemma NamesOfInit(paths: seq<Entry>)
    requires paths != []
    ensures EntryNames(paths[..|paths| - 1]) <= EntryNames(paths) && paths[|paths| - 1].name in EntryNames(paths)
  {
    EntryNamesGrow(paths, |paths| - 1);
    assert paths[..|paths|] == paths;
  }

  lemma FreezeAllStep(c: Codec, paths: seq<Entry>, expected: map<string, string>)
    requires paths != [] && EntryNames(paths) <= expected.Keys && FreezeAll(c, paths, expected).Ok?
    requires EntryNames(paths[..|paths| - 1]) <= expected.Keys && paths[|paths| - 1].name in expected
    ensures var init, last := FreezeAll(c, paths[..|paths| - 1], expected), FreezeOne(c, paths[|paths| - 1], expected);
            init.Ok? && last.Ok? && FreezeAll(c, paths, expected).value == init.value + [last.value]
  {
    hide FreezeOne, EntryNames;
  }

  lemma FrozenOne(c: Codec, e: Entry, expected: map<string, string>)
    requires e.name in expected && FreezeOne(c, e, expected).Ok?
    ensures FrozenFrom(c, e, expected, FreezeOne(c, e, expected).value)
  {
  }

  /** The entries of the manifest; of an unreadable one there are none. */
  function Expected(d: Directory): map<string, string> {
    if ReadManifest(d.manifest).Ok? then ReadManifest(d.manifest).value else map[]
  }

  /** A package that loads: a listing without repeated names whose numbered files all freeze. */
  ghost predicate Loads(c: Codec, d: Directory) {
    DistinctEntries(d.listing) && LoadNumbered(c, d).Ok?
  }

  /** The directory entry behind a frozen file. */
  ghost predicate Behind(c: Codec, d: Directory, f: File, e: Entry) {
    e in d.listing && FrozenFrom(c, e, Expected(d), f)
  }

  ghost predicate Backed(c: Codec, d: Directory, f: File) {
    exists e :: Behind(c, d, f, e)
  }

  function Paths(d: Directory): seq<Entry> {
    StableSort(EntryLe, NumberedEntries(d.listing))
  }

  lemma LoadSteps(c: Codec, d: Directory)
    requires LoadNumbered(c, d).Ok?
    ensures ReadManifest(d.manifest).Ok? && Paths(d) != [] && EntryNames(Paths(d)) == Expected(d).Keys
    ensures LoadNumbered(c, d) == FreezeAll(c, Paths(d), Expected(d))
  {
  }

  /**
   A successful load is strictly sorted by name, names exactly the manifest's files, and every file comes from a regular
   directory entry whose digest the manifest lists.
   */
  lemma LoadSound(c: Codec, d: Directory)
    requires Loads(c, d)
    ensures var files := LoadNumbered(c, d).value;
            && ReadManifest(d.manifest).Ok?
            && files != [] && StrictlySorted(files) && DistinctNames(files)
            && Names(files) == Expected(d).Keys
            && forall i :: 0 <= i < |files| ==> Backed(c, d, files[i])
  {
    hide LoadNumbered, FreezeAll, ReadManifest, Expected, Paths, FrozenFrom, StrictlySorted, DistinctNames;
    var paths, files := Paths(d), LoadNumbered(c, d).value;
    LoadSteps(c, d);
    SortedPaths(d);
    FreezeAllShape(c, paths, Expected(d));
    SameNameSets(c, paths, Expected(d), files);
    forall i | 0 <= i < |files|
      ensures Backed(c, d, files[i])
    {
      assert Behind(c, d, files[i], paths[i]);
    }
    StrictlyInOrder(c, paths, Expected(d), files);
  }

  lemma EntryBehind(c: Codec, d: Directory, i: nat) returns (e: Entry)
    requires Loads(c, d) && i < |LoadNumbered(c, d).value|
    ensures Behind(c, d, LoadNumbered(c, d).value[i], e)
  {
    hide LoadNumbered, Behind, DistinctEntries;
    LoadSound(c, d);
    assert Backed(c, d, LoadNumbered(c, d).value[i]);
    e :| Behind(c, d, LoadNumbered(c, d).value[i], e);
  }

  lemma KeysAreNamed(lines: seq<string>, m: map<string, string>, name: string)
    requires Collects(lines, |lines|, m)
    ensures name in m <==> exists k :: 0 <= k < |lines| && NamedOn(lines[k], name)
  {
    if name in m {
      var k := KnownName(lines, |lines|, m, name);
    }
    if k :| 0 <= k < |lines| && NamedOn(lines[k], name) {
      NamedIsKnown(lines, |lines|, m, k, name);
    }
  }

  /** Some line of the manifest binds the file's name to its checksum. */
  ghost predicate OnSomeLine(lines: seq<string>, f: File) {
    exists k :: 0 <= k < |lines| && Lists(lines[k], f.name, f.digest)
  }

  lemma FileIsOnLine(c: Codec, d: Directory, lines: seq<string>, i: nat)
    requires Loads(c, d) && i < |LoadNumbered(c, d).value| && Collects(lines, |lines|, Expected(d))
    ensures OnSomeLine(lines, LoadNumbered(c, d).value[i])
  {
    hide LoadNumbered, DistinctEntries, Expected, Lists;
    var f := LoadNumbered(c, d).value[i];
    var e := EntryBehind(c, d, i);
    assert Binds(Expected(d), f.name, f.digest);
  }

  /** The loaded files are those that the lines of the manifest name, each with the checksum on its line. */
  lemma LoadFollowsManifest(c: Codec, d: Directory, name: string)
    requires Loads(c, d) && d.manifest.Text?
    ensures var lines, files := SplitLines(d.manifest.text), LoadNumbered(c, d).value;
            && Faultless(lines, |lines|)
            && (name in Names(files) <==> exists k :: 0 <= k < |lines| && NamedOn(lines[k], name))
            && forall i :: 0 <= i < |files| ==> OnSomeLine(lines, files[i])
  {
    hide LoadNumbered, DistinctEntries, Faultless, Collects, ReadLines, NamedOn, OnSomeLine, StrictlySorted;
    var lines, files := SplitLines(d.manifest.text), LoadNumbered(c, d).value;
    LoadSound(c, d);
    ManifestMeaning(d.manifest.text);
    KeysAreNamed(lines, Expected(d), name);
    forall i | 0 <= i < |files|
      ensures OnSomeLine(lines, files[i])
    {
      FileIsOnLine(c, d, lines, i);
    }
  }

  lemma StrictlyInOrder(c: Codec, paths: seq<Entry>, expected: map<string, string>, files: seq<File>)
    requires Sorted(EntryLe, paths) && DistinctEntries(paths)
    requires |files| == |paths| && forall i :: 0 <= i < |files| ==> FrozenFrom(c, paths[i], expected, files[i])
    ensures StrictlySorted(files) && DistinctNames(files)
  {
    forall i, j | 0 <= i < j < |files|
      ensures NameLe(files[i].name, files[j].name) && files[i].name != files[j].name
    {
      assert EntryLe(paths[i], paths[j]) && EntryName(paths[i]) != EntryName(paths[j]);
      assert FrozenFrom(c, paths[i], expected, files[i]) && FrozenFrom(c, paths[j], expected, files[j]);
    }
  }

  lemma SortedPaths(d: Directory)
    requires DistinctEntries(d.listing)
    ensures Sorted(EntryLe, Paths(d)) && DistinctEntries(Paths(d))
    ensures forall i :: 0 <= i < |Paths(d)| ==> Paths(d)[i] in d.listing
  {
    var found := NumberedEntries(d.listing);
    var paths := Paths(d);
    EntryOrder();
    StableSortIsStable(EntryLe, found);
    NumberedMembers(d.listing);
    PermutationKeepsDistinct(EntryName, paths, found);
    forall i | 0 <= i < |paths|
      ensures paths[i] in d.listing
    {
      assert paths[i] in multiset(found);
    }
  }

  lemma SameNameSets(c: Codec, paths: seq<Entry>, expected: map<string, string>, files: seq<File>)
    requires |files| == |paths| && forall i :: 0 <= i < |files| ==> FrozenFrom(c, paths[i], expected, files[i])
    ensures Names(files) == EntryNames(paths)
  {
    forall n
      ensures n in Names(files) <==> n in EntryNames(paths)
    {
      if n in Names(files) {
        var i :| 0 <= i < |files| && files[i].name == n;
        assert paths[i].name == n;
      }
      if n in EntryNames(paths) {
        var i :| 0 <= i < |paths| && paths[i].name == n;
        assert files[i].name == n;
      }
    }
  }

  /** No frozen text keeps a bare transaction statement or a psql meta-command. */
  lemma LoadedTextIsClean(c: Codec, d: Directory, schema: Option<Entry>, i: nat)
    requires DistinctEntries(d.listing) && Load(c, d, schema).Ok? && i < |Load(c, d, schema).value|
    ensures var sql := Load(c, d, schema).value[i].sql;
            && !HasMeta(sql)
            && forall p, q, k, j, e :: !Statement(sql, p, q, k, j, e)
  {
    hide LoadNumbered, HasMeta, Statement, ExecutableSql, DistinctEntries, Expected;
    if schema.Some? && i == 0 {
      FrozenTextIsClean(c.decode(schema.value.data).value, true);
    } else {
      var k := if schema.Some? then i - 1 else i;
      var e := EntryBehind(c, d, k);
      FrozenTextIsClean(c.decode(e.data).value, false);
    }
  }

  /** With the schema in front the names stay distinct unless the manifest itself lists the schema's name. */
  lemma SchemaClash(c: Codec, d: Directory, schema: Entry)
    requires DistinctEntries(d.listing) && Load(c, d, Some(schema)).Ok?
    ensures DistinctNames(Load(c, d, Some(schema)).value) <==> SCHEMA !in Expected(d)
  {
    hide Load, LoadNumbered, Expected, DistinctEntries, Backed, StrictlySorted, Names, DistinctNames;
    SchemaInFront(c, d, Some(schema));
    LoadSound(c, d);
    var files := Load(c, d, Some(schema)).value;
    assert files == [files[0]] + files[1..];
    PrependedName(LoadNumbered(c, d).value, files[0]);
  }

  lemma PrependedName(files: seq<File>, first: File)
    requires DistinctNames(files)
    ensures DistinctNames([first] + files) <==> first.name !in Names(files)
  {
    var all := [first] + files;
    if first.name in Names(files) {
      var i :| 0 <= i < |files| && files[i].name == first.name;
      assert all[0].name == all[i + 1].name;
    } else {
      forall i, j | 0 <= i < j < |all|
        ensures all[i].name != all[j].name
      {
        assert all[j] == files[j - 1];
        assert i > 0 ==> all[i] == files[i - 1];
      }
    }
  }

  // ---------------------------------------------------------------- two loads

  /** Among strictly sorted lists, the one whose further names all sort later extends the other. */
  lemma {:induction false} SortedPrefix(a: seq<File>, b: seq<File>)
    requires StrictlySorted(a) && StrictlySorted(b) && Names(a) <= Names(b)
    requires forall m, n :: m in Names(a) && n in Names(b) && n !in Names(a) ==> NameLe(m, n)
    ensures |a| <= |b| && forall i :: 0 <= i < |a| ==> a[i].name == b[i].name
  {
    if a != [] {
      assert a[0].name in Names(a);
      var k :| 0 <= k < |b| && b[k].name == a[0].name;
      FirstNamesAgree(a, b, k);
      TailNames(a);
      TailNames(b);
      SortedPrefix(a[1..], b[1..]);
      forall i | 0 <= i < |a|
        ensures a[i].name == b[i].name
      {
        assert i > 0 ==> a[i] == a[1..][i - 1] && b[i] == b[1..][i - 1];
      }
    }
  }

  lemma FirstNamesAgree(a: seq<File>, b: seq<File>, k: nat)
    requires StrictlySorted(a) && StrictlySorted(b) && a != [] && k < |b| && b[k].name == a[0].name
    requires forall m, n :: m in Names(a) && n in Names(b) && n !in Names(a) ==> NameLe(m, n)
    ensures b[0].name == a[0].name
  {
    assert a[0].name in Names(a) && b[0].name in Names(b);
    assert NameLe(a[0].name, b[0].name) by {
      NameOrder(a[0].name, a[0].name, []);
      if b[0].name in Names(a) {
        var j :| 0 <= j < |a| && a[j].name == b[0].name;
      }
    }
    if k > 0 {
      assert NameLe(b[0].name, b[k].name);
    }
    NameOrder(a[0].name, b[0].name, []);
  }

  lemma TailNames(files: seq<File>)
    requires files != [] && StrictlySorted(files)
    ensures Names(files[1..]) == Names(files) - {files[0].name} && StrictlySorted(files[1..])
  {
    var tail := files[1..];
    forall n
      ensures n in Names(tail) <==> n in Names(files) && n != files[0].name
    {
      if n in Names(tail) {
        var i :| 0 <= i < |tail| && tail[i].name == n;
        assert files[i + 1].name == n;
      }
      if n in Names(files) && n != files[0].name {
        var i :| 0 <= i < |files| && files[i].name == n;
        assert tail[i - 1].name == n;
      }
    }
  }

  ghost predicate CollisionFree(c: Codec) {
    forall x, y :: c.digest(x) == c.digest(y) ==> x == y
  }

  /** A later package keeps every manifest line and adds only names that sort behind all of them. */
  ghost predicate Upgrades(older: map<string, string>, newer: map<string, string>) {
    && (forall n :: n in older ==> n in newer && newer[n] == older[n])
    && (forall m, n :: m in older && n in newer && n !in older ==> NameLe(m, n))
  }

  /** An upgrade extends the frozen list, whatever else changed in the two directories. */
  lemma UpgradeExtendsList(c: Codec, older: Directory, newer: Directory)
    requires Loads(c, older) && Loads(c, newer) && CollisionFree(c)
    requires Upgrades(Expected(older), Expected(newer))
    ensures LoadNumbered(c, older).value <= LoadNumbered(c, newer).value
  {
    hide LoadNumbered, Expected, DistinctEntries, FrozenFrom, CollisionFree, StrictlySorted;
    LoadSound(c, older);
    LoadSound(c, newer);
    var a, b := LoadNumbered(c, older).value, LoadNumbered(c, newer).value;
    SortedPrefix(a, b);
    forall i | 0 <= i < |a|
      ensures a[i] == b[i]
    {
      var x := EntryBehind(c, older, i);
      var y := EntryBehind(c, newer, i);
      assert a[i].name in Names(a);
      SameFile(c, x, y, Expected(older), Expected(newer), a[i], b[i]);
    }
  }

  /** Equal names under manifests that agree on them freeze to equal files. */
  lemma SameFile(c: Codec, x: Entry, y: Entry, older: map<string, string>, newer: map<string, string>, f: File, g: File)
    requires CollisionFree(c) && FrozenFrom(c, x, older, f) && FrozenFrom(c, y, newer, g)
    requires f.name == g.name && f.name in older && g.name in newer && older[f.name] == newer[g.name]
    ensures f == g
  {
    assert c.digest(x.data) == c.digest(y.data);
  }

  /** One manifest means one frozen list, in whatever order the file system lists the directory. */
  lemma ManifestDeterminesList(c: Codec, d1: Directory, d2: Directory)
    requires Loads(c, d1) && Loads(c, d2) && CollisionFree(c) && d1.manifest == d2.manifest
    ensures LoadNumbered(c, d1) == LoadNumbered(c, d2)
  {
    hide LoadNumbered, DistinctEntries, FrozenFrom, ReadManifest;
    UpgradeExtendsList(c, d1, d2);
    UpgradeExtendsList(c, d2, d1);
    assert LoadNumbered(c, d1).value == LoadNumbered(c, d2).value;
  }

  // ---------------------------------------------------------------- when a load succeeds

  /** A directory entry that freezes: regular, with the digest on its manifest line, readable, and clean SQL. */
  ghost predicate Freezes(c: Codec, lines: seq<string>, e: Entry) {
    && e.regular
    && (exists k :: 0 <= k < |lines| && Lists(lines[k], e.name, c.digest(e.data)))
    && c.decode(e.data).Some?
    && !HasMeta(c.decode(e.data).value) && !HasStatement(c.decode(e.data).value)
  }

  lemma FreezeOneIff(c: Codec, lines: seq<string>, e: Entry, expected: map<string, string>)
    requires e.name in expected && Collects(lines, |lines|, expected)
    ensures FreezeOne(c, e, expected).Ok? <==> Freezes(c, lines, e)
  {
    hide HasMeta, HasStatement, ExecutableSql, Lists;
    assert Binds(expected, e.name, c.digest(e.data)) <==>
           exists k :: 0 <= k < |lines| && Lists(lines[k], e.name, c.digest(e.data));
    if c.decode(e.data).Some? {
      NumberedAcceptedIff(c.decode(e.data).value);
    }
  }

  lemma {:induction false} FreezeAllIff(c: Codec, paths: seq<Entry>, expected: map<string, string>)
    requires EntryNames(paths) <= expected.Keys
    ensures forall i :: 0 <= i < |paths| ==> paths[i].name in expected
    ensures FreezeAll(c, paths, expected).Ok? <==>
            forall i :: 0 <= i < |paths| ==> FreezeOne(c, paths[i], expected).Ok?
  {
    hide FreezeOne;
    assert forall i :: 0 <= i < |paths| ==> paths[i].name in EntryNames(paths);
    if paths != [] {
      NamesOfInit(paths);
      FreezeAllIff(c, paths[..|paths| - 1], expected);
    }
  }

  /** The names of the entries that are considered at all. */
  ghost predicate HasNumbered(d: Directory, name: string) {
    exists e :: e in d.listing && e.name == name && IsNumbered(name)
  }

  lemma PathsAre(d: Directory)
    ensures forall e :: e in Paths(d) <==> e in d.listing && IsNumbered(e.name)
    ensures forall name :: name in EntryNames(Paths(d)) <==> HasNumbered(d, name)
  {
    var found, paths := NumberedEntries(d.listing), Paths(d);
    EntryOrder();
    StableSortIsStable(EntryLe, found);
    NumberedMembers(d.listing);
    forall e
      ensures e in paths <==> e in d.listing && IsNumbered(e.name)
    {
      assert e in paths <==> e in multiset(paths);
      assert e in found <==> e in multiset(found);
    }
    forall name
      ensures name in EntryNames(paths) <==> HasNumbered(d, name)
    {
      NamesOfPaths(d, name);
    }
  }

  lemma NamesOfPaths(d: Directory, name: string)
    requires forall e :: e in Paths(d) <==> e in d.listing && IsNumbered(e.name)
    ensures name in EntryNames(Paths(d)) <==> HasNumbered(d, name)
  {
    hide Paths, IsNumbered;
    var paths := Paths(d);
    if name in EntryNames(paths) {
      var i :| 0 <= i < |paths| && paths[i].name == name;
      assert paths[i] in paths;
    }
    if HasNumbered(d, name) {
      var e :| e in d.listing && e.name == name && IsNumbered(name);
      assert e in paths;
      var i :| 0 <= i < |paths| && paths[i] == e;
    }
  }

  /** The package as a whole is in order. */
  ghost predicate InOrder(c: Codec, d: Directory) {
    && d.manifest.Text?
    && var lines := SplitLines(d.manifest.text);
       && Faultless(lines, |lines|)
       && (exists name :: HasNumbered(d, name))
       && (forall name :: HasNumbered(d, name) <==> exists k :: 0 <= k < |lines| && NamedOn(lines[k], name))
       && forall e :: e in d.listing && IsNumbered(e.name) ==> Freezes(c, lines, e)
  }

  lemma LoadUnfolded(c: Codec, d: Directory)
    ensures LoadNumbered(c, d).Ok? <==>
            && ReadManifest(d.manifest).Ok? && Paths(d) != [] && EntryNames(Paths(d)) == Expected(d).Keys
            && FreezeAll(c, Paths(d), Expected(d)).Ok?
  {
    hide ReadManifest, FreezeAll, Paths;
    PathsIs(d);
  }

  lemma PathsIs(d: Directory)
    ensures Paths(d) == StableSort(EntryLe, NumberedEntries(d.listing))
  {
  }

  lemma PathsFreeze(c: Codec, d: Directory, lines: seq<string>)
    requires Collects(lines, |lines|, Expected(d)) && EntryNames(Paths(d)) == Expected(d).Keys
    ensures FreezeAll(c, Paths(d), Expected(d)).Ok? <==>
            forall e :: e in d.listing && IsNumbered(e.name) ==> Freezes(c, lines, e)
  {
    hide Paths, FreezeAll, FreezeOne, Freezes, Collects, Expected, IsNumbered;
    var paths := Paths(d);
    FreezeAllIff(c, paths, Expected(d));
    PathsAre(d);
    forall i | 0 <= i < |paths|
      ensures FreezeOne(c, paths[i], Expected(d)).Ok? <==> Freezes(c, lines, paths[i])
    {
      FreezeOneIff(c, lines, paths[i], Expected(d));
    }
    if forall i :: 0 <= i < |paths| ==> FreezeOne(c, paths[i], Expected(d)).Ok? {
      forall e | e in d.listing && IsNumbered(e.name)
        ensures Freezes(c, lines, e)
      {
        var i :| 0 <= i < |paths| && paths[i] == e;
      }
    }
    if forall e :: e in d.listing && IsNumbered(e.name) ==> Freezes(c, lines, e) {
      forall i | 0 <= i < |paths|
        ensures FreezeOne(c, paths[i], Expected(d)).Ok?
      {
        assert paths[i] in paths;
      }
    }
  }

  lemma NamesAgree(d: Directory, lines: seq<string>)
    requires Collects(lines, |lines|, Expected(d))
    ensures EntryNames(Paths(d)) == Expected(d).Keys <==>
            forall name :: HasNumbered(d, name) <==> exists k :: 0 <= k < |lines| && NamedOn(lines[k], name)
    ensures Paths(d) != [] <==> exists name :: HasNumbered(d, name)
  {
    hide Paths, Collects, Expected, HasNumbered, NamedOn;
    PathsAre(d);
    forall name
      ensures name in Expected(d) <==> exists k :: 0 <= k < |lines| && NamedOn(lines[k], name)
    {
      KeysAreNamed(lines, Expected(d), name);
    }
    if Paths(d) != [] {
      assert Paths(d)[0].name in EntryNames(Paths(d));
    }
  }

  /**
   The numbered files load if and only if the manifest is faultless, the directory has numbered entries and they are
   exactly the named ones, and each of them is regular, readable, has the digest on its line and is clean SQL.
   */
  lemma LoadSucceedsIff(c: Codec, d: Directory)
    ensures LoadNumbered(c, d).Ok? <==> InOrder(c, d)
  {
    hide LoadNumbered, FreezeAll, Paths, Faultless, Collects, HasNumbered, NamedOn, Freezes, ReadLines;
    LoadUnfolded(c, d);
    if d.manifest.Text? {
      var lines := SplitLines(d.manifest.text);
      ManifestMeaning(d.manifest.text);
      if ReadManifest(d.manifest).Ok? {
        NamesAgree(d, lines);
        if EntryNames(Paths(d)) == Expected(d).Keys {
          PathsFreeze(c, d, lines);
        }
      }
    }
  }

  /** A fresh package loads if and only if, besides, its schema file is regular, readable and one outer transaction. */
  lemma FreshLoadSucceedsIff(c: Codec, d: Directory, schema: Entry)
    ensures Load(c, d, Some(schema)).Ok? <==>
            && InOrder(c, d) && schema.regular && c.decode(schema.data).Some?
            && var t := c.decode(schema.data).value;
               !HasMeta(t) && exists x, y :: OuterPair(t, x, y) && CommentsOnly(t[..x.start] + "\n" + t[y.end..])
  {
    hide LoadNumbered, InOrder, HasMeta, OuterPair, CommentsOnly, ExecutableSql;
    LoadSucceedsIff(c, d);
    if c.decode(schema.data).Some? {
      SchemaAcceptedIff(c.decode(schema.data).value);
    }
  }

  // ---------------------------------------------------------------- order, first fault and schema of a load

  /** Of two loaded names that first differ in one character, the one with the smaller character stands first. */
  lemma SmallerNameFirst(c: Codec, d: Directory, i: nat, j: nat, p: string, x: char, s: string, y: char, t: string)
    requires Loads(c, d) && i < |LoadNumbered(c, d).value| && j < |LoadNumbered(c, d).value|
    requires LoadNumbered(c, d).value[i].name == p + [x] + s && LoadNumbered(c, d).value[j].name == p + [y] + t
    requires x < y
    ensures i < j
  {
    hide LoadNumbered, Backed, DistinctEntries, NameLe;
    LoadSound(c, d);
    LessIsStrict(p, x, s, y, t);
    InFront(LoadNumbered(c, d).value, i, j);
  }

  lemma InFront(files: seq<File>, i: nat, j: nat)
    requires StrictlySorted(files) && i < |files| && j < |files|
    requires !NameLe(files[j].name, files[i].name)
    ensures i < j
  {
    hide NameLe;
    NameOrder(files[i].name, files[i].name, []);
  }

  /** A loaded name stands in front of every longer name that begins with it. */
  lemma BeginningFirst(c: Codec, d: Directory, i: nat, j: nat)
    requires Loads(c, d) && i < |LoadNumbered(c, d).value| && j < |LoadNumbered(c, d).value|
    requires LoadNumbered(c, d).value[i].name < LoadNumbered(c, d).value[j].name
    ensures i < j
  {
    hide LoadNumbered, Backed, DistinctEntries, NameLe;
    LoadSound(c, d);
    var files := LoadNumbered(c, d).value;
    NameLeMeaning(files[i].name, files[j].name);
    NameOrder(files[i].name, files[j].name, []);
    InFront(files, i, j);
  }

  /** A freeze that fails reports the first file that is not in order. */
  lemma {:induction false} FirstFaultIsReported(c: Codec, paths: seq<Entry>, expected: map<string, string>, i: nat)
    requires EntryNames(paths) <= expected.Keys && i < |paths|
    requires forall j :: 0 <= j < |paths| ==> paths[j].name in expected
    requires FreezeOne(c, paths[i], expected).Err?
    requires forall j :: 0 <= j < i ==> FreezeOne(c, paths[j], expected).Ok?
    ensures FreezeAll(c, paths, expected) == Err(FreezeOne(c, paths[i], expected).error)
  {
    hide FreezeOne;
    NamesOfInit(paths);
    var init := paths[..|paths| - 1];
    if i < |init| {
      FirstFaultIsReported(c, init, expected, i);
    } else {
      FreezeAllIff(c, init, expected);
    }
  }

  /** Which fault of one file is reported: its kind, then its digest, then its encoding, then its text. */
  lemma FaultOfOneFile(c: Codec, e: Entry, expected: map<string, string>)
    requires e.name in expected
    ensures !e.regular <==> FreezeOne(c, e, expected) == Err(NotRegular(e.name))
    ensures e.regular && c.digest(e.data) != expected[e.name] <==>
            FreezeOne(c, e, expected) == Err(DigestMismatch(e.name))
    ensures e.regular && c.digest(e.data) == expected[e.name] && c.decode(e.data).None? <==>
            FreezeOne(c, e, expected) == Err(NotUtf8)
    ensures e.regular && c.digest(e.data) == expected[e.name] && c.decode(e.data).Some?
            && (HasMeta(c.decode(e.data).value) || HasStatement(c.decode(e.data).value)) <==>
            FreezeOne(c, e, expected).Err? && FreezeOne(c, e, expected).error.Rejected?
  {
    hide HasMeta, HasStatement, ExecutableSql;
    if c.decode(e.data).Some? {
      NumberedAcceptedIff(c.decode(e.data).value);
    }
  }

  /** The schema's row: its own name, the checksum of the whole file, and the SQL between the two statements. */
  lemma SchemaFileMeaning(c: Codec, d: Directory, schema: Entry, x: Boundary, y: Boundary)
    requires Load(c, d, Some(schema)).Ok? && c.decode(schema.data).Some? && OuterPair(c.decode(schema.data).value, x, y)
    ensures Load(c, d, Some(schema)).value[0] ==
            File("000_db_schema.sql", c.digest(schema.data), c.decode(schema.data).value[x.end..y.start])
  {
    hide LoadNumbered, ExecutableSql, OuterPair;
    SchemaAcceptedIff(c.decode(schema.data).value);
  }

  // ---------------------------------------------------------------- a chain of packages

  lemma UpgradesTransitive(a: map<string, string>, b: map<string, string>, c: map<string, string>)
    requires Upgrades(a, b) && Upgrades(b, c)
    ensures Upgrades(a, c)
  {
    forall m, n | m in a && n in c && n !in a
      ensures NameLe(m, n)
    {
      assert m in b;
    }
  }

  /** Every package loads and upgrades the one before it. */
  ghost predicate Chain(c: Codec, packages: seq<Directory>) {
    && CollisionFree(c)
    && (forall i :: 0 <= i < |packages| ==> Loads(c, packages[i]))
    && forall i :: 0 < i < |packages| ==> Upgrades(Expected(packages[i - 1]), Expected(packages[i]))
  }

  lemma {:induction false} ChainUpgrades(c: Codec, packages: seq<Directory>, i: nat, j: nat)
    requires Chain(c, packages) && i <= j < |packages|
    ensures Upgrades(Expected(packages[i]), Expected(packages[j]))
    decreases j - i
  {
    hide Expected, Loads, CollisionFree;
    if i < j {
      ChainUpgrades(c, packages, i, j - 1);
      assert Upgrades(Expected(packages[j - 1]), Expected(packages[j]));
      UpgradesTransitive(Expected(packages[i]), Expected(packages[j - 1]), Expected(packages[j]));
    }
  }

  /** The numbered list of the newest package is the master list of the whole chain. */
  lemma LoadedPackages(c: Codec, packages: seq<Directory>, i: nat, schema: Option<Entry>)
    requires Chain(c, packages) && i < |packages| && Load(c, packages[i], schema).Ok?
    ensures Loads(c, packages[|packages| - 1])
    ensures var newest := packages[|packages| - 1];
            var master := LoadNumbered(c, newest).value;
            && Packaged(master, Load(c, packages[i], schema).value, schema.Some?)
            && (Master(master) <==> SCHEMA !in Expected(newest))
  {
    hide Load, LoadNumbered, Expected, DistinctEntries, Behind, Upgrades, CollisionFree;
    var newest := packages[|packages| - 1];
    ChainUpgrades(c, packages, i, |packages| - 1);
    SchemaInFront(c, packages[i], schema);
    UpgradeExtendsList(c, packages[i], newest);
    LoadSound(c, newest);
  }

  /** A run of some package of the chain, fresh or not. */
  ghost predicate RunsPackage(c: Codec, packages: seq<Directory>, s: Step)
    requires s.Connect?
  {
    exists i, schema: Option<Entry> ::
      0 <= i < |packages| && Load(c, packages[i], schema) == Ok(s.files) && schema.Some? == s.freshSchema
  }

  /**
   So every history of runs over a chain of packages is one that the laws of histories speak about, as long as the
   newest manifest does not list the schema's own name.
   */
  lemma ChainHistories(c: Codec, packages: seq<Directory>, steps: seq<Step>)
    requires Chain(c, packages) && packages != [] && SCHEMA !in Expected(packages[|packages| - 1])
    requires forall k :: 0 <= k < |steps| && steps[k].Connect? ==> RunsPackage(c, packages, steps[k])
    ensures Loads(c, packages[|packages| - 1])
    ensures var master := LoadNumbered(c, packages[|packages| - 1]).value; Master(master) && Packages(master, steps)
  {
    hide Load, LoadNumbered, Expected, DistinctEntries, Behind, Upgrades, CollisionFree;
    var master := LoadNumbered(c, packages[|packages| - 1]).value;
    forall k | 0 <= k < |steps| && steps[k].Connect?
      ensures Packaged(master, steps[k].files, steps[k].freshSchema)
    {
      var i, schema: Option<Entry> :|
        0 <= i < |packages| && Load(c, packages[i], schema) == Ok(steps[k].files)
        && schema.Some? == steps[k].freshSchema;
      LoadedPackages(c, packages, i, schema);
    }
    LoadSound(c, packages[|packages| - 1]);
    NewestIsMaster(c, packages[|packages| - 1]);
  }

  lemma NewestIsMaster(c: Codec, d: Directory)
    requires Loads(c, d)
    ensures Master(LoadNumbered(c, d).value) <==> SCHEMA !in Expected(d)
  {
    hide LoadNumbered, Expected, DistinctEntries, Behind;
    LoadSound(c, d);
  }

  lemma SchemaInFront(c: Codec, d: Directory, schema: Option<Entry>)
    requires Load(c, d, schema).Ok?
    ensures LoadNumbered(c, d).Ok?
    ensures var files := Load(c, d, schema).value;
            if schema.Some?
            then files != [] && files[0].name == SCHEMA && files[1..] == LoadNumbered(c, d).value
            else files == LoadNumbered(c, d).value
  {
  }
}
