/**
 The text checks of the migration runner, with the exact meaning of its two multi-line patterns: leading and trailing
 space may cross line breaks, and a statement must end where a line ends.
 */
module MigrationText {
  import opened Basics
  import opened Options

  datatype Keyword = Begin | Commit | Rollback

  /** One match of the transaction pattern: text[start..end]. */
  datatype Boundary = Boundary(keyword: Keyword, start: nat, end: nat)

  datatype SqlError = MetaCommand | NotOneOuterPair | SqlOutside | OwnTransaction

  /** The characters for which Python's str.isspace holds. */
  predicate IsSpace(c: char) {
    var n := c as int;
    || 9 <= n <= 13 || 28 <= n <= 32 || n == 0x85 || n == 0xA0 || n == 0x1680 || 0x2000 <= n <= 0x200A
    || n == 0x2028 || n == 0x2029 || n == 0x202F || n == 0x205F || n == 0x3000
  }

  predicate AllSpace(t: string, lo: nat, hi: nat) {
    lo <= hi <= |t| && forall i :: lo <= i < hi ==> IsSpace(t[i])
  }

  function SkipSpace(t: string, i: nat): (j: nat)
    requires i <= |t|
    ensures AllSpace(t, i, j) && (j < |t| ==> !IsSpace(t[j]))
    decreases |t| - i
  {
    if i < |t| && IsSpace(t[i]) then SkipSpace(t, i + 1) else i
  }

  predicate LineStart(t: string, p: nat) {
    p <= |t| && (p > 0 ==> t[p - 1] == '\n')
  }

  predicate LineEnd(t: string, q: nat) {
    q <= |t| && (q < |t| ==> t[q] == '\n')
  }

  function Spelling(k: Keyword): string {
    match k
    case Begin => "BEGIN"
    case Commit => "COMMIT"
    case Rollback => "ROLLBACK"
  }

  lemma FirstLetters(t: string, i: nat)
    ensures StartsAt(t, i, "BEGIN") ==> t[i] == 'B'
    ensures StartsAt(t, i, "COMMIT") ==> t[i] == 'C'
    ensures StartsAt(t, i, "ROLLBACK") ==> t[i] == 'R'
  {
    if StartsAt(t, i, "BEGIN") {
      assert t[i] == t[i..i + 5][0];
    }
    if StartsAt(t, i, "COMMIT") {
      assert t[i] == t[i..i + 6][0];
    }
    if StartsAt(t, i, "ROLLBACK") {
      assert t[i] == t[i..i + 8][0];
    }
  }

  function KeywordAt(t: string, i: nat): (k: Option<Keyword>)
    ensures k.Some? ==> StartsAt(t, i, Spelling(k.value))
    ensures forall other :: StartsAt(t, i, Spelling(other)) ==> k == Some(other)
  {
    FirstLetters(t, i);
    if StartsAt(t, i, "BEGIN") then Some(Begin)
    else if StartsAt(t, i, "COMMIT") then Some(Commit)
    else if StartsAt(t, i, "ROLLBACK") then Some(Rollback)
    else None
  }

  /** The last position of [lo, hi] where a line ends; the trailing space is matched greedily. */
  function LastLineEnd(t: string, lo: nat, hi: nat): (e: Option<nat>)
    requires lo <= hi <= |t|
    ensures e.Some? ==> lo <= e.value <= hi && LineEnd(t, e.value)
    ensures e.Some? ==> forall q :: e.value < q <= hi ==> !LineEnd(t, q)
    ensures e.None? ==> forall q :: lo <= q <= hi ==> !LineEnd(t, q)
    decreases hi - lo
  {
    if LineEnd(t, hi) then Some(hi) else if hi == lo then None else LastLineEnd(t, lo, hi - 1)
  }

  /** A match of the transaction pattern that starts at p. */
  function BoundaryAt(t: string, p: nat): (b: Option<Boundary>)
    ensures b.Some? ==> b.value.start == p < b.value.end <= |t| && LineStart(t, p) && LineEnd(t, b.value.end)
  {
    if !LineStart(t, p) then None
    else
      var i := SkipSpace(t, p);
      match KeywordAt(t, i)
      case None => None
      case Some(k) =>
        var j := SkipSpace(t, i + |Spelling(k)|);
        if j == |t| || t[j] != ';' then None
        else match LastLineEnd(t, j + 1, SkipSpace(t, j + 1))
          case None => None
          case Some(e) => Some(Boundary(k, p, e))
  }

  function FirstFrom(t: string, p: nat): (b: Option<Boundary>)
    requires p <= |t|
    ensures b.Some? ==> p <= b.value.start && BoundaryAt(t, b.value.start) == b
    ensures forall q :: p <= q < (if b.Some? then b.value.start else |t| + 1) ==> BoundaryAt(t, q).None?
    decreases |t| - p
  {
    if BoundaryAt(t, p).Some? then BoundaryAt(t, p)
    else if p == |t| then None
    else FirstFrom(t, p + 1)
  }

  /** All non-overlapping matches from position p on. */
  function Boundaries(t: string, p: nat): seq<Boundary>
    requires p <= |t|
    decreases |t| - p
  {
    match FirstFrom(t, p)
    case None => []
    case Some(b) => [b] + Boundaries(t, b.end)
  }

  predicate MetaAt(t: string, p: nat) {
    LineStart(t, p) && var i := SkipSpace(t, p); i < |t| && t[i] == '\\'
  }

  predicate HasMeta(t: string) {
    exists p :: 0 <= p <= |t| && MetaAt(t, p)
  }

  predicate IsLineBreak(c: char) {
    var n := c as int;
    10 <= n <= 13 || 28 <= n <= 30 || n == 0x85 || n == 0x2028 || n == 0x2029
  }

  function BreakFrom(t: string, i: nat): (j: nat)
    requires i <= |t|
    ensures i <= j <= |t|
    decreases |t| - i
  {
    if i < |t| && !IsLineBreak(t[i]) then BreakFrom(t, i + 1) else i
  }

  /** str.splitlines: CR LF counts as one break and a final break opens no new line. */
  function SplitLines(t: string): seq<string>
    decreases |t|
  {
    if t == [] then []
    else
      var n := BreakFrom(t, 0);
      if n == |t| then [t]
      else [t[..n]] + SplitLines(t[if StartsAt(t, n, "\r\n") then n + 2 else n + 1..])
  }

  function LStrip(s: string): string {
    s[SkipSpace(s, 0)..]
  }

  predicate CommentsOnly(t: string) {
    forall line :: line in SplitLines(t) ==> LStrip(line) == [] || StartsAt(LStrip(line), 0, "--")
  }

  function ExecutableSql(t: string, schema: bool): Result<string, SqlError> {
    if HasMeta(t) then Err(MetaCommand)
    else
      var found := Boundaries(t, 0);
      if schema then
        if |found| != 2 || found[0].keyword != Begin || found[1].keyword != Commit then Err(NotOneOuterPair)
        else
          BoundariesAreOrdered(t, 0);
          if !CommentsOnly(t[..found[0].start] + "\n" + t[found[1].end..]) then Err(SqlOutside)
          else Ok(t[found[0].end..found[1].start])
      else if found != [] then Err(OwnTransaction)
      else Ok(t)
  }

  lemma BoundariesAreOrdered(t: string, p: nat)
    requires p <= |t|
    ensures |Boundaries(t, p)| >= 1 ==> FirstFrom(t, p) == Some(Boundaries(t, p)[0])
    ensures |Boundaries(t, p)| >= 2 ==>
              var b0, b1 := Boundaries(t, p)[0], Boundaries(t, p)[1];
              b0.start < b0.end <= b1.start < b1.end <= |t| && FirstFrom(t, b0.end) == Some(b1)
  {
  }

  // ---------------------------------------------------------------- what a frozen text cannot contain

  /** A word and a semicolon between line start p and line end e, with nothing but space around them. */
  ghost predicate Bare(t: string, p: nat, i: nat, word: string, j: nat, e: nat) {
    && LineStart(t, p) && AllSpace(t, p, i)
    && StartsAt(t, i, word) && AllSpace(t, i + |word|, j)
    && j < |t| && t[j] == ';' && AllSpace(t, j + 1, e) && LineEnd(t, e)
  }

  /** A bare transaction statement, with the positions of its parts. */
  ghost predicate Statement(t: string, p: nat, i: nat, k: Keyword, j: nat, e: nat) {
    Bare(t, p, i, Spelling(k), j, e)
  }

  lemma SkipSpaceStops(t: string, i: nat, j: nat)
    requires AllSpace(t, i, j) && j < |t| && !IsSpace(t[j])
    ensures SkipSpace(t, i) == j
  {
  }

  lemma SkipSpacePasses(t: string, i: nat, j: nat)
    requires AllSpace(t, i, j)
    ensures j <= SkipSpace(t, i)
  {
  }

  lemma SpellingStart(t: string, i: nat, k: Keyword)
    requires StartsAt(t, i, Spelling(k))
    ensures i < |t| && !IsSpace(t[i])
  {
    assert t[i] == t[i..i + |Spelling(k)|][0];
  }

  /** The pattern finds every bare statement. */
  lemma StatementIsFound(t: string, p: nat, i: nat, k: Keyword, j: nat, e: nat)
    requires Statement(t, p, i, k, j, e)
    ensures BoundaryAt(t, p).Some?
  {
    SpellingStart(t, i, k);
    SkipSpaceStops(t, p, i);
    SkipSpaceStops(t, i + |Spelling(k)|, j);
    SkipSpacePasses(t, j + 1, e);
  }

  /** And nothing else: a match is a bare statement with the recorded keyword. */
  lemma MatchIsStatement(t: string, p: nat) returns (i: nat, j: nat)
    requires BoundaryAt(t, p).Some?
    ensures var b := BoundaryAt(t, p).value; Statement(t, p, i, b.keyword, j, b.end)
  {
    i := SkipSpace(t, p);
    j := SkipSpace(t, i + |Spelling(KeywordAt(t, i).value)|);
  }

  /** The trailing space is taken greedily: no line ends further on in the space behind the semicolon. */
  lemma MatchIsGreedy(t: string, p: nat, i: nat, k: Keyword, j: nat, e: nat)
    requires Statement(t, p, i, k, j, e)
    ensures BoundaryAt(t, p).Some? && e <= BoundaryAt(t, p).value.end
  {
    SpellingStart(t, i, k);
    SkipSpaceStops(t, p, i);
    SkipSpaceStops(t, i + |Spelling(k)|, j);
    SkipSpacePasses(t, j + 1, e);
  }

  /** A meta-command is a backslash that opens a line, but for space. */
  lemma MetaMeaning(t: string)
    ensures HasMeta(t) <==>
            exists p: nat, i: nat :: LineStart(t, p) && AllSpace(t, p, i) && i < |t| && t[i] == '\\'
  {
    if HasMeta(t) {
      var p :| 0 <= p <= |t| && MetaAt(t, p);
      assert AllSpace(t, p, SkipSpace(t, p));
    }
    if p: nat, i: nat :| LineStart(t, p) && AllSpace(t, p, i) && i < |t| && t[i] == '\\' {
      SkipSpaceStops(t, p, i);
      assert MetaAt(t, p);
    }
  }

  // ---------------------------------------------------------------- lines

  /** No character of the line breaks it. */
  predicate Unbroken(line: string) {
    forall c :: c in line ==> !IsLineBreak(c)
  }

  lemma {:induction false} BreakBehind(line: string, rest: string, i: nat)
    requires Unbroken(line) && i <= |line| && (rest == [] || IsLineBreak(rest[0]))
    ensures BreakFrom(line + rest, i) == |line|
    decreases |line| - i
  {
    if i < |line| {
      assert (line + rest)[i] == line[i] && line[i] in line;
      BreakBehind(line, rest, i + 1);
    } else if rest != [] {
      assert (line + rest)[i] == rest[0];
    }
  }

  /** A text without break is one line, and an empty text none. */
  lemma OneLine(line: string)
    requires Unbroken(line)
    ensures SplitLines(line) == if line == [] then [] else [line]
  {
    assert line + [] == line;
    BreakBehind(line, [], 0);
  }

  /** A line break ends a line: carriage return and line feed together are one break. */
  lemma LineAndRest(line: string, brk: string, rest: string)
    requires Unbroken(line)
    requires brk == "\r\n" || (|brk| == 1 && IsLineBreak(brk[0]) && !(brk == "\r" && rest != [] && rest[0] == '\n'))
    ensures SplitLines(line + brk + rest) == [line] + SplitLines(rest)
  {
    var t, n := line + brk + rest, |line|;
    assert t == line + (brk + rest) && (brk + rest)[0] == brk[0];
    BreakBehind(line, brk + rest, 0);
    assert t[..n] == line && t[n] == brk[0];
    if brk == "\r\n" {
      assert t[n..n + 2] == brk && t[n + 2..] == rest;
    } else {
      assert t[n + 1..] == rest;
      TwoCharacters(t, n, rest, brk[0]);
    }
  }

  lemma TwoCharacters(t: string, n: nat, rest: string, c: char)
    requires n < |t| && t[n] == c && t[n + 1..] == rest
    ensures StartsAt(t, n, "\r\n") <==> c == '\r' && rest != [] && rest[0] == '\n'
  {
    if n + 2 <= |t| {
      assert t[n..n + 2] == [c, rest[0]];
      assert [c, rest[0]] == "\r\n" <==> c == '\r' && rest[0] == '\n' by {
        assert "\r\n"[0] == '\r' && "\r\n"[1] == '\n';
        assert "\r\n" == ['\r', '\n'];
      }
    }
  }

  /** Somewhere in the text a bare statement stands on its own lines. */
  ghost predicate HasStatement(t: string) {
    exists p, i, k, j, e :: Statement(t, p, i, k, j, e)
  }

  lemma {:induction false} NoMatchMeansNoStatement(t: string)
    ensures Boundaries(t, 0) == [] <==> !HasStatement(t)
  {
    if Boundaries(t, 0) == [] {
      if p, i, k, j, e :| Statement(t, p, i, k, j, e) {
        StatementIsFound(t, p, i, k, j, e);
      }
    } else {
      var b := FirstFrom(t, 0).value;
      var i, j := MatchIsStatement(t, b.start);
      assert Statement(t, b.start, i, b.keyword, j, b.end);
    }
  }

  /** A numbered text is accepted, as it is, if and only if it has neither a meta-command nor a bare statement. */
  lemma NumberedAcceptedIff(t: string)
    ensures ExecutableSql(t, false).Ok? <==> !HasMeta(t) && !HasStatement(t)
    ensures ExecutableSql(t, false).Ok? ==> ExecutableSql(t, false).value == t
  {
    hide HasMeta, HasStatement, Boundaries;
    NoMatchMeansNoStatement(t);
  }

  /** No match of the transaction pattern starts between lo and hi. */
  ghost predicate NoMatchIn(t: string, lo: nat, hi: nat) {
    forall q :: lo <= q < hi ==> BoundaryAt(t, q).None?
  }

  /** The text around one outer pair of statements, and nothing but that pair. */
  ghost predicate OuterPair(t: string, b: Boundary, c: Boundary) {
    && b.keyword == Begin && c.keyword == Commit
    && BoundaryAt(t, b.start) == Some(b) && BoundaryAt(t, c.start) == Some(c)
    && b.end <= c.start && c.end <= |t|
    && NoMatchIn(t, 0, b.start) && NoMatchIn(t, b.end, c.start) && NoMatchIn(t, c.end, |t| + 1)
  }

  lemma FirstIs(t: string, p: nat, b: Boundary)
    requires p <= b.start <= |t| && BoundaryAt(t, b.start) == Some(b) && NoMatchIn(t, p, b.start)
    ensures FirstFrom(t, p) == Some(b)
  {
    hide BoundaryAt;
    assert FirstFrom(t, p).None? ==> BoundaryAt(t, b.start).None?;
    if FirstFrom(t, p).Some? {
      var f := FirstFrom(t, p).value;
      assert b.start < f.start ==> BoundaryAt(t, b.start).None?;
      assert f.start < b.start ==> BoundaryAt(t, f.start).None?;
    }
  }

  lemma NoneFrom(t: string, p: nat)
    requires p <= |t|
    ensures FirstFrom(t, p).None? <==> NoMatchIn(t, p, |t| + 1)
  {
    if FirstFrom(t, p).Some? {
      assert BoundaryAt(t, FirstFrom(t, p).value.start).Some?;
    }
  }

  lemma PairMeansTwo(t: string, b: Boundary, c: Boundary)
    requires OuterPair(t, b, c)
    ensures Boundaries(t, 0) == [b, c]
  {
    hide BoundaryAt;
    FirstIs(t, 0, b);
    FirstIs(t, b.end, c);
    NoneFrom(t, c.end);
    assert Boundaries(t, c.end) == [];
    assert Boundaries(t, b.end) == [c];
  }

  lemma TwoMeanPair(t: string)
    requires |Boundaries(t, 0)| == 2
    requires Boundaries(t, 0)[0].keyword == Begin && Boundaries(t, 0)[1].keyword == Commit
    ensures OuterPair(t, Boundaries(t, 0)[0], Boundaries(t, 0)[1])
  {
    hide BoundaryAt;
    var b, c := Boundaries(t, 0)[0], Boundaries(t, 0)[1];
    BoundariesAreOrdered(t, 0);
    assert Boundaries(t, 0) == [b] + Boundaries(t, b.end);
    assert Boundaries(t, b.end) == [c] + Boundaries(t, c.end);
    assert Boundaries(t, c.end) == [];
    NoneFrom(t, c.end);
  }

  /**
   A schema text is accepted if and only if it has no meta-command, its statements are one BEGIN and one COMMIT behind
   it, and only comments stand before and behind the two; what is executed is the text between them.
   */
  lemma SchemaAcceptedIff(t: string)
    ensures ExecutableSql(t, true).Ok? <==>
            !HasMeta(t) && exists b, c :: OuterPair(t, b, c) && CommentsOnly(t[..b.start] + "\n" + t[c.end..])
    ensures forall b, c :: ExecutableSql(t, true).Ok? && OuterPair(t, b, c) ==>
              ExecutableSql(t, true) == Ok(t[b.end..c.start])
  {
    hide HasMeta, CommentsOnly, Boundaries;
    BoundariesAreOrdered(t, 0);
    if ExecutableSql(t, true).Ok? {
      TwoMeanPair(t);
    }
    forall b, c | OuterPair(t, b, c)
      ensures Boundaries(t, 0) == [b, c]
    {
      PairMeansTwo(t, b, c);
    }
  }

  lemma SpaceInBody(t: string, lo: nat, hi: nat, a: nat, b: nat)
    requires lo <= hi <= |t| && AllSpace(t[lo..hi], a, b)
    ensures AllSpace(t, lo + a, lo + b)
  {
    forall n | lo + a <= n < lo + b
      ensures IsSpace(t[n])
    {
      assert t[n] == t[lo..hi][n - lo];
    }
  }

  /** Where the scan of a line of the body begins in the whole text; the body itself opens at a line end. */
  lemma LineInBody(t: string, lo: nat, hi: nat, p: nat, i: nat)
    requires lo <= hi <= |t| && LineEnd(t, lo) && LineStart(t[lo..hi], p)
    requires AllSpace(t[lo..hi], p, i) && i < hi - lo && !IsSpace(t[lo..hi][i])
    ensures var q := if p == 0 then lo + 1 else lo + p; LineStart(t, q) && AllSpace(t, q, lo + i)
  {
    SpaceInBody(t, lo, hi, p, i);
    assert t[lo..hi][0] == t[lo];
    if p > 0 {
      assert t[lo..hi][p - 1] == t[lo + p - 1];
    }
  }

  /** Where a statement of the body ends in the whole text; behind the body a line starts. */
  lemma EndInBody(t: string, lo: nat, hi: nat, j: nat, e: nat) returns (end: nat)
    requires lo < hi < |t| && LineStart(t, hi)
    requires j < hi - lo && t[lo..hi][j] == ';' && AllSpace(t[lo..hi], j + 1, e) && LineEnd(t[lo..hi], e)
    ensures AllSpace(t, lo + j + 1, end) && LineEnd(t, end)
  {
    end := if e == hi - lo then hi - 1 else lo + e;
    SpaceInBody(t, lo, hi, j + 1, e);
    assert t[lo..hi][hi - lo - 1] == t[hi - 1];
    if e < hi - lo {
      assert t[lo..hi][e] == t[lo + e];
    }
  }

  lemma WordInBody(t: string, lo: nat, hi: nat, i: nat, word: string)
    requires lo <= hi <= |t| && StartsAt(t[lo..hi], i, word)
    ensures StartsAt(t, lo + i, word)
  {
    forall n | 0 <= n < |word|
      ensures t[lo + i..lo + i + |word|][n] == word[n]
    {
      assert word[n] == t[lo..hi][i..i + |word|][n] == t[lo..hi][i + n];
    }
  }

  /** A statement inside the schema body is a statement of the whole text, between the two outer ones. */
  lemma BodyBare(t: string, lo: nat, hi: nat, p: nat, i: nat, word: string, j: nat, e: nat)
    returns (q: nat, end: nat)
    requires lo <= hi < |t| && LineEnd(t, lo) && LineStart(t, hi)
    requires Bare(t[lo..hi], p, i, word, j, e) && word != [] && !IsSpace(word[0])
    ensures lo <= q < hi && Bare(t, q, lo + i, word, lo + j, end)
  {
    assert t[lo..hi][i] == t[lo..hi][i..i + |word|][0];
    LineInBody(t, lo, hi, p, i);
    WordInBody(t, lo, hi, i, word);
    SpaceInBody(t, lo, hi, i + |word|, j);
    assert t[lo + j] == t[lo..hi][j];
    end := EndInBody(t, lo, hi, j, e);
    q := if p == 0 then lo + 1 else lo + p;
  }

  lemma BodyMeta(t: string, lo: nat, hi: nat, p: nat)
    requires lo <= hi <= |t| && LineEnd(t, lo) && MetaAt(t[lo..hi], p)
    ensures HasMeta(t)
  {
    var i := SkipSpace(t[lo..hi], p);
    LineInBody(t, lo, hi, p, i);
    var q := if p == 0 then lo + 1 else lo + p;
    assert t[lo + i] == t[lo..hi][i];
    SkipSpaceStops(t, q, lo + i);
    assert MetaAt(t, q);
  }

  lemma NoBodyStatement(t: string, lo: nat, hi: nat, p: nat, i: nat, k: Keyword, j: nat, e: nat)
    requires lo <= hi < |t| && LineEnd(t, lo) && LineStart(t, hi)
    requires forall q :: lo <= q < hi ==> BoundaryAt(t, q).None?
    ensures !Statement(t[lo..hi], p, i, k, j, e)
  {
    if Statement(t[lo..hi], p, i, k, j, e) {
      var q := BodyStatement(t, lo, hi, p, i, k, j, e);
    }
  }

  lemma BodyStatement(t: string, lo: nat, hi: nat, p: nat, i: nat, k: Keyword, j: nat, e: nat) returns (q: nat)
    requires lo <= hi < |t| && LineEnd(t, lo) && LineStart(t, hi)
    requires Statement(t[lo..hi], p, i, k, j, e)
    ensures lo <= q < hi && BoundaryAt(t, q).Some?
  {
    var end: nat;
    SpellingSolid(k);
    q, end := BodyBare(t, lo, hi, p, i, Spelling(k), j, e);
    StatementIsFound(t, q, lo + i, k, lo + j, end);
  }

  lemma SpellingSolid(k: Keyword)
    ensures Spelling(k) != [] && !IsSpace(Spelling(k)[0])
  {
  }

  lemma NoStatementAnywhere(t: string, p: nat, i: nat, k: Keyword, j: nat, e: nat)
    requires forall q :: 0 <= q <= |t| ==> BoundaryAt(t, q).None?
    ensures !Statement(t, p, i, k, j, e)
  {
    if Statement(t, p, i, k, j, e) {
      StatementIsFound(t, p, i, k, j, e);
    }
  }

  /** No frozen text, numbered or schema, keeps a bare BEGIN, COMMIT or ROLLBACK statement or a backslash line. */
  lemma FrozenTextIsClean(t: string, schema: bool)
    requires ExecutableSql(t, schema).Ok?
    ensures !HasMeta(ExecutableSql(t, schema).value)
    ensures forall p, i, k, j, e :: !Statement(ExecutableSql(t, schema).value, p, i, k, j, e)
  {
    var sql := ExecutableSql(t, schema).value;
    BoundariesAreOrdered(t, 0);
    if schema {
      var b0, b1 := Boundaries(t, 0)[0], Boundaries(t, 0)[1];
      if HasMeta(sql) {
        var p :| 0 <= p <= |sql| && MetaAt(sql, p);
        BodyMeta(t, b0.end, b1.start, p);
      }
      forall p: nat, i: nat, k, j: nat, e: nat
        ensures !Statement(sql, p, i, k, j, e)
      {
        NoBodyStatement(t, b0.end, b1.start, p, i, k, j, e);
      }
    } else {
      forall p: nat, i: nat, k, j: nat, e: nat
        ensures !Statement(sql, p, i, k, j, e)
      {
        NoStatementAnywhere(t, p, i, k, j, e);
      }
    }
  }
}
