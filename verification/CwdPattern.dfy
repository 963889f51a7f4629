/** The cwd clause of a rule: the live ancestor walk, the SQL expression of the
    retroactive sweep, and exactly when the two agree. */
module CwdPattern {
  import opened Globs
  import opened Options
  import opened Paths
  import opened Splitting

  function TrimSlashes(p: string): (r: string)
    ensures r <= p && (r == "" || r[|r| - 1] != '/')
    ensures forall k :: |r| <= k < |p| ==> p[k] == '/'
    ensures forall c :: c != '/' ==> (c in p <==> c in r)
  {
    if p != "" && p[|p| - 1] == '/' then
      assert p == p[..|p| - 1] + ['/'];
      TrimSlashes(p[..|p| - 1])
    else p
  }

  // ---------- the live matcher ----------

  /** Does `p` match `cur` or one of the directories above it? */
  predicate AncestorMatch(p: string, cur: string)
    decreases Rank(cur)
  {
    DirDescends(cur);
    PathMatch(p, cur) || (Dir(cur) != cur && AncestorMatch(p, Dir(cur)))
  }

  predicate LiveCwd(pattern: string, cwd: string) {
    var p := TrimSlashes(pattern);
    p != ""
    && if '*' !in p then cwd == p || p + "/" <= cwd
       else AncestorMatch(p, cwd)
  }

  method MatchesCwd(pattern: string, cwd: string) returns (matched: bool)
    ensures matched == LiveCwd(pattern, cwd)
  {
    var p := TrimSlashes(pattern);
    if p == "" { return false; }
    if '*' !in p { return cwd == p || p + "/" <= cwd; }
    var cur := cwd;
    while true
      invariant AncestorMatch(p, cur) == AncestorMatch(p, cwd)
      decreases Rank(cur)
    {
      if PathMatch(p, cur) { return true; }
      var parent := Dir(cur);
      if parent == cur { return false; }
      DirDescends(cur);
      cur := parent;
    }
  }

  // ---------- the SQL expression ----------

  function Substr1(s: string, n: nat): string {
    if |s| < n then s else s[..n]
  }

  predicate SqlCwd(pattern: string, cwd: string) {
    var p := TrimSlashes(pattern);
    if p == "" then false
    else if '*' in pattern then Glob(p, cwd) || Glob(p + "/*", cwd)
    else cwd == p || Substr1(cwd, |p| + 1) == p + "/"
  }

  // ---------- which patterns a rule may hold ----------

  datatype PatternError = EmptyPattern | NotAPath | StarNotFinal

  function FirstStar(p: string): (i: int)
    ensures i == -1 <==> '*' !in p
    ensures -1 <= i < |p|
    ensures i >= 0 ==> p[i] == '*' && '*' !in p[..i]
  {
    if p == "" then -1
    else if p[0] == '*' then 0
    else
      var i := FirstStar(p[1..]);
      if i == -1 then assert p == [p[0]] + p[1..]; -1
      else assert p[..i + 1] == [p[0]] + p[1..][..i]; i + 1
  }

  /** Rejects anything but a literal path or a glob whose one '*' ends the trimmed pattern. */
  function ValidateCwdPattern(pattern: string): (r: Option<PatternError>)
    ensures r == None <==>
            var p := TrimSlashes(pattern);
            '/' in p && ('*' !in p || (p[|p| - 1] == '*' && '*' !in p[..|p| - 1]))
  {
    var p := TrimSlashes(pattern);
    if p == "" then Some(EmptyPattern)
    else if '/' !in p then Some(NotAPath)
    else
      var i := FirstStar(p);
      if i >= 0 && i != |p| - 1 then
        assert p[|p| - 1] == '*' ==> '*' in p[..|p| - 1] by { assert p[..|p| - 1][i] == '*'; }
        Some(StarNotFinal)
      else None
  }

  // ---------- the ancestor walk ----------

  /** The live matcher accepts `s` or a plain prefix of `s` that ends before a slash. */
  predicate FitsAbove(p: string, s: string) {
    match LiveReading(p)
    case None => false
    case Some(Reading(ts, open)) => Fits(ts, s) && (open || |s| == |ts| || s[|ts|] == '/')
  }

  /** It accepts that much of `s`, or the last stop of a relative walk. */
  predicate Reaches(p: string, s: string) {
    FitsAbove(p, s) || (!Rooted(s) && LiveAccepts(p, "."))
  }

  /** A glob as a rule may hold it, trimmed: a path with one star, at the end. */
  predicate StarPath(p: string) {
    '/' in p && p[|p| - 1] == '*' && '*' !in p[..|p| - 1]
  }

  lemma FitsPrefix(ts: seq<Token>, parent: string, c: string)
    requires parent <= c
    ensures Fits(ts, parent) <==> Fits(ts, c) && |ts| <= |parent|
  {
  }

  /** A reading that swallows the star needs two tokens or more, another at least one. */
  lemma ReadingLength(p: string)
    requires StarPath(p) && LiveReading(p).Some?
    ensures var r := LiveReading(p).value; |r.tokens| >= if r.open then 1 else 2
  {
    assert p[0] == p[..|p| - 1][0];
    assert p[0] == '[' ==> p[LiveClass(p).value.1 - 1] == ']';
    assert |p| == 2 ==> p[0] == '/';
    StarLastSuffix(p, LiveHead(p).value.1);
  }

  lemma NoSlashAfter(c: string, n: nat, k: nat)
    requires n == DirLength(c) && n <= k <= |c|
    ensures NoSlash(c[k..]) && (k < |c| ==> c[k] != '/')
  {
    assert c[k..] == c[n..][k - n..];
    assert k < |c| ==> c[k] == c[n..][k - n];
  }

  lemma AboveRoot(p: string, c: string)
    requires StarPath(p) && DirLength(c) == 1
    ensures FitsAbove(p, c) <==> LiveAccepts(p, c) || FitsAbove(p, "/")
  {
    assert c == "/" + c[1..];
    match LiveReading(p)
    case None =>
    case Some(Reading(ts, open)) =>
      ReadingLength(p);
      FitsPrefix(ts, "/", c);
      if Fits(ts, c) { NoSlashAfter(c, 1, |ts|); }
  }

  lemma AboveParent(p: string, c: string, n: nat)
    requires n == DirLength(c) && n > 1
    ensures FitsAbove(p, c) <==> LiveAccepts(p, c) || FitsAbove(p, c[..n - 1])
  {
    match LiveReading(p)
    case None =>
    case Some(Reading(ts, open)) =>
      FitsPrefix(ts, c[..n - 1], c);
      if Fits(ts, c) && |ts| >= n { NoSlashAfter(c, n, |ts|); }
      assert |ts| < n ==> c[|ts|..][n - 1 - |ts|] == '/';
  }

  lemma NothingAbove(p: string, c: string)
    requires DirLength(c) == 0
    ensures FitsAbove(p, c) <==> LiveAccepts(p, c)
  {
    assert c[0..] == c;
    match LiveReading(p)
    case None =>
    case Some(Reading(ts, _)) => if |ts| <= |c| { assert c[|ts|..] == c[0..][|ts|..]; }
  }

  lemma DotIsLast(p: string)
    requires StarPath(p)
    ensures AncestorMatch(p, ".") <==> LiveAccepts(p, ".")
  {
    LiveStarFinal(p, ".");
    assert DirLength(".") == 0 && "."[..0] == "";
    assert Segments("") == [""];
  }

  /** On a clean path the walk finds a match iff the pattern reaches into it: the walk crosses slashes
      as GLOB does. */
  lemma {:induction false} WalkOnTidy(p: string, c: string)
    requires StarPath(p) && Tidy(c)
    ensures AncestorMatch(p, c) <==> Reaches(p, c)
    decreases Rank(c)
  {
    var n := DirLength(c);
    DirOfTidy(c);
    DirDescends(c);
    LiveStarFinal(p, c);
    if n == 0 {
      NothingAbove(p, c);
      DotIsLast(p);
      assert !Rooted(c) by { assert c[0..] == c; }
    } else if n == 1 {
      assert Rooted(c);
      AboveRoot(p, c);
      if c != "/" { WalkOnTidy(p, "/"); }
    } else {
      AboveParent(p, c, n);
      assert Rooted(c[..n - 1]) == Rooted(c);
      WalkOnTidy(p, Dir(c));
    }
  }

  /** On any string: it accepts the string itself, or reaches into its cleaned parent. */
  lemma WalkAnywhere(p: string, c: string)
    requires StarPath(p)
    ensures AncestorMatch(p, c) <==> LiveAccepts(p, c) || Reaches(p, Dir(c))
  {
    LiveStarFinal(p, c);
    DirOfTidy(c);
    WalkOnTidy(p, Dir(c));
  }

  lemma WalkOnPlainParent(p: string, c: string)
    requires StarPath(p) && PlainParent(c)
    ensures AncestorMatch(p, c) <==> Reaches(p, c)
  {
    var n := DirLength(c);
    WalkAnywhere(p, c);
    if n == 0 {
      NothingAbove(p, c);
      NothingAbove(p, ".");
      assert !Rooted(c) by { assert c[0..] == c; }
    } else if n == 1 {
      AboveRoot(p, c);
    } else {
      AboveParent(p, c, n);
      assert Rooted(c[..n - 1]) == Rooted(c);
    }
  }

  // ---------- parity ----------

  lemma LiteralParity(p: string, cwd: string)
    ensures p + "/" <= cwd <==> Substr1(cwd, |p| + 1) == p + "/"
  {
  }

  predicate Storable(pattern: string) {
    ValidateCwdPattern(pattern) == None
  }

  lemma StorableGlob(pattern: string)
    requires Storable(pattern) && '*' in pattern
    ensures StarPath(TrimSlashes(pattern)) && StarLast(TrimSlashes(pattern))
  {
  }

  /** Both matchers in closed form, for every pattern a rule may hold and every string: literal
      patterns agree; a glob is read once as path.Match and once as GLOB, and the live reading is held
      against the string and its cleaned parent, where the SQL reading is held against the string. */
  lemma CwdParity(pattern: string, cwd: string)
    requires Storable(pattern)
    ensures '*' !in pattern ==> (LiveCwd(pattern, cwd) <==> SqlCwd(pattern, cwd))
    ensures '*' in pattern ==>
              var p := TrimSlashes(pattern);
              && (LiveCwd(pattern, cwd) <==> LiveAccepts(p, cwd) || Reaches(p, Dir(cwd)))
              && (SqlCwd(pattern, cwd) <==> SqlAccepts(p, cwd))
  {
    var p := TrimSlashes(pattern);
    if '*' in pattern {
      StorableGlob(pattern);
      WalkAnywhere(p, cwd);
      SqlStarFinal(p, cwd);
      if Glob(p + "/*", cwd) { GlobMore(p, "/*", cwd); }
    } else {
      LiteralParity(p, cwd);
    }
  }

  // ---------- literal patterns ----------

  /** A pattern that is empty but for slashes accepts nothing, live or in SQL. */
  lemma EmptyPatternAcceptsNothing(pattern: string, c: string)
    requires forall k :: 0 <= k < |pattern| ==> pattern[k] == '/'
    ensures !LiveCwd(pattern, c) && !SqlCwd(pattern, c)
  {
    AllSlashes(pattern);
  }

  lemma {:induction false} AllSlashes(pattern: string)
    requires forall k :: 0 <= k < |pattern| ==> pattern[k] == '/'
    ensures TrimSlashes(pattern) == ""
  {
    if pattern != "" { AllSlashes(pattern[..|pattern| - 1]); }
  }

  /** `p` is `c` or one of the directories above it. */
  predicate AtOrAbove(p: string, c: string)
    decreases Rank(c)
  {
    DirDescends(c);
    c == p || (Dir(c) != c && AtOrAbove(p, Dir(c)))
  }

  lemma SlashesComeBefore(p: string, c: string, n: nat)
    requires n == DirLength(c)
    ensures p + "/" <= c ==> |p| < n
  {
    assert (p + "/")[|p|] == '/';
    if n <= |p| <= |c| { NoSlashAfter(c, n, |p|); }
  }

  lemma PrefixOfParent(p: string, c: string, n: nat)
    requires n == DirLength(c) && n > 1
    ensures p + "/" <= c <==> p == c[..n - 1] || p + "/" <= c[..n - 1]
  {
    var q := p + "/";
    SlashesComeBefore(p, c, n);
    if q <= c {
      if |p| + 1 == n { assert p == c[..n - 1]; } else { assert q == c[..n - 1][..|q|]; }
    }
    if p == c[..n - 1] { assert q == c[..n]; }
  }

  lemma {:induction false} LiteralOnTidy(p: string, c: string)
    requires Tidy(c) && '/' in p && p[|p| - 1] != '/'
    ensures AtOrAbove(p, c) <==> c == p || p + "/" <= c
    decreases Rank(c)
  {
    var n := DirLength(c);
    DirOfTidy(c);
    DirDescends(c);
    if n == 0 {
      assert c[0..] == c && "."[0..] == ".";
      DotIsRoot();
      assert p + "/" <= c ==> '/' in c;
    } else if n == 1 {
      RootIsRoot();
      SlashesComeBefore(p, c, n);
    } else {
      PrefixOfParent(p, c, n);
      LiteralOnTidy(p, Dir(c));
    }
  }

  lemma DotIsRoot()
    ensures Dir(".") == "."
  {
    assert DirLength(".") == 0 && "."[..0] == "";
    assert Segments("") == [""];
  }

  lemma RootIsRoot()
    ensures Dir("/") == "/"
  {
    assert "/"[..1] == "/";
    RootDir();
  }

  /** A literal pattern accepts a clean path, live and in SQL, iff it is that path or one of the
      directories above it: no sibling that merely starts alike. */
  lemma LiteralIsAncestor(pattern: string, c: string)
    requires Storable(pattern) && '*' !in pattern && Tidy(c)
    ensures LiveCwd(pattern, c) <==> AtOrAbove(TrimSlashes(pattern), c)
    ensures SqlCwd(pattern, c) <==> AtOrAbove(TrimSlashes(pattern), c)
  {
    LiteralOnTidy(TrimSlashes(pattern), c);
    CwdParity(pattern, c);
  }

  // ---------- globs without quotes and classes ----------

  predicate Quoteless(p: string) {
    '\\' !in p && '[' !in p
  }

  /** What each character of such a glob means: the two readings differ in '?' only. */
  function Letter(c: char, anyChar: Token): Token {
    if c == '?' then anyChar else Exactly(c)
  }

  lemma {:induction false} QuotelessReadings(p: string)
    requires StarLast(p) && p != "" && p[|p| - 1] == '*' && Quoteless(p)
    ensures LiveReading(p).Some? && SqlReading(p).Some?
    ensures var l, q := LiveReading(p).value, SqlReading(p).value;
            && l.open && q.open && |l.tokens| == |q.tokens| == |p| - 1
            && forall k :: 0 <= k < |p| - 1 ==>
                 l.tokens[k] == Letter(p[k], NotSlash) && q.tokens[k] == Letter(p[k], AnyChar)
    decreases |p|
  {
    StarLastSuffix(p, p[1..]);
    if p[0] != '*' {
      assert p == [p[0]] + p[1..];
      QuotelessReadings(p[1..]);
    }
  }

  /** Some '?' of the pattern stands over a slash of the directory. */
  predicate QuestionOverSlash(p: string, cwd: string) {
    exists k :: 0 <= k < |p| && k < |cwd| && p[k] == '?' && cwd[k] == '/'
  }

  lemma QuotelessDiffer(pattern: string, p: string, s: string)
    requires StarPath(p) && Quoteless(p) && p <= pattern && forall k :: |p| <= k < |pattern| ==> pattern[k] != '?'
    ensures FitsAbove(p, s) <==> SqlAccepts(p, s) && !QuestionOverSlash(pattern, s)
    ensures !LiveAccepts(p, ".")
  {
    QuotelessReadings(p);
    var k :| 0 <= k < |p| && p[k] == '/';
    assert LiveReading(p).value.tokens[k] == Exactly('/');
  }

  /** Where everything before the last slash of the directory is clean, such a glob is accepted live
      iff the SQL accepts it and no '?' stands over a slash. */
  lemma ParityOnPlainParents(pattern: string, cwd: string)
    requires Storable(pattern) && PlainParent(cwd)
    requires '*' in pattern ==> Quoteless(pattern)
    ensures LiveCwd(pattern, cwd) <==>
            SqlCwd(pattern, cwd) && ('*' in pattern ==> !QuestionOverSlash(pattern, cwd))
  {
    CwdParity(pattern, cwd);
    if '*' in pattern {
      StorableGlob(pattern);
      WalkOnPlainParent(TrimSlashes(pattern), cwd);
      QuotelessDiffer(pattern, TrimSlashes(pattern), cwd);
    }
  }

  /** What a caller has to keep to: no '?', no backslash and no class in a glob. */
  predicate Plain(pattern: string) {
    Storable(pattern) && ('*' in pattern ==> '?' !in pattern && Quoteless(pattern))
  }

  lemma CwdParityPlain(pattern: string, cwd: string)
    requires Plain(pattern) && PlainParent(cwd)
    ensures LiveCwd(pattern, cwd) <==> SqlCwd(pattern, cwd)
  {
    ParityOnPlainParents(pattern, cwd);
  }

  // ---------- and where they part ----------

  predicate NoSpecials(c: string) {
    forall k :: 0 <= k < |c| ==> c[k] !in "*?[\\"
  }

  lemma StarAfter(b: string)
    requires '/' in b && NoSpecials(b)
    ensures Plain(b + "*") && '*' in b + "*" && TrimSlashes(b + "*") == b + "*" && StarPath(b + "*")
  {
    var pattern := b + "*";
    assert pattern[|pattern| - 1] == '*' && pattern[..|pattern| - 1] == b;
    forall x | x in pattern ensures x in b || x == '*' {}
    assert forall k :: 0 <= k < |b| ==> b[k] != '*' && b[k] != '?' && b[k] != '[' && b[k] != '\\';
  }

  /** Such a pattern accepts what its letters start. */
  lemma LettersReach(b: string, s: string)
    requires '/' in b && NoSpecials(b)
    ensures SqlAccepts(b + "*", s) <==> b <= s
    ensures FitsAbove(b + "*", s) <==> b <= s
    ensures LiveAccepts(b + "*", s) <==> b <= s && NoSlash(s[|b|..])
  {
    StarAfter(b);
    QuotelessReadings(b + "*");
    var ts := LiveReading(b + "*").value.tokens;
    assert forall k :: 0 <= k < |b| ==> (b + "*")[k] == b[k] && b[k] != '?';
    assert Fits(ts, s) <==> b <= s;
    assert Fits(SqlReading(b + "*").value.tokens, s) <==> b <= s;
  }

  lemma CleanParentIsShorter(c: string, n: nat)
    requires Rooted(c) && n == DirLength(c) && n > 1 && Dir(c) != c[..n - 1]
    ensures !(c[..n - 1] <= Dir(c))
  {
    assert c[..n][|c[..n]| - 1] == '/' && c[..n] != "/";
    CleanShortens(c[..n]);
  }

  lemma UncleanParentDiverges(c: string, n: nat)
    requires Rooted(c) && NoSpecials(c) && n == DirLength(c) && n > 1 && Dir(c) != c[..n - 1]
    ensures Plain(c[..n - 1] + "*") && SqlCwd(c[..n - 1] + "*", c) && !LiveCwd(c[..n - 1] + "*", c)
  {
    var b := c[..n - 1];
    assert b[0] == '/' && c[|b|..][0] == '/';
    StarAfter(b);
    CwdParity(b + "*", c);
    LettersReach(b, c);
    LettersReach(b, Dir(c));
    LettersReach(b, ".");
    CleanParentIsShorter(c, n);
  }

  /** An absolute directory is safe for every such pattern iff everything before its last slash is
      already clean. */
  lemma DirectoryIsSafeIff(c: string)
    requires Rooted(c) && NoSpecials(c)
    ensures (forall pattern :: Plain(pattern) ==> (LiveCwd(pattern, c) <==> SqlCwd(pattern, c))) <==> PlainParent(c)
  {
    var n := DirLength(c);
    forall pattern | PlainParent(c) && Plain(pattern) ensures LiveCwd(pattern, c) <==> SqlCwd(pattern, c) {
      CwdParityPlain(pattern, c);
    }
    if n == 1 {
      assert c[..n] == ['/'] == "/";
      RootDir();
    } else if Dir(c) != c[..n - 1] {
      UncleanParentDiverges(c, n);
    }
  }

  /** A string that fits the tokens of a glob without classes one by one. */
  function Sample(ts: seq<Token>): string {
    if ts == [] then "" else [match ts[0] case Exactly(c) => c case _ => 'a'] + Sample(ts[1..])
  }

  predicate Classless(ts: seq<Token>) {
    forall k :: 0 <= k < |ts| ==> !ts[k].OneOf?
  }

  lemma {:induction false} SampleFits(ts: seq<Token>)
    requires Classless(ts)
    ensures |Sample(ts)| == |ts| && Fits(ts, Sample(ts))
  {
    if ts != [] {
      SampleFits(ts[1..]);
      FitsStep(ts[0], ts[1..], Sample(ts));
      assert [ts[0]] + ts[1..] == ts;
    }
  }

  lemma {:induction false} ClasslessLive(p: string)
    requires StarLast(p) && '[' !in p && LiveReading(p).Some?
    ensures Classless(LiveReading(p).value.tokens)
    decreases |p|
  {
    if p != "" && p[0] != '*' {
      var rest := LiveHead(p).value.1;
      assert p == p[..|p| - |rest|] + rest;
      StarLastSuffix(p, rest);
      ClasslessLive(rest);
    }
  }

  /** Without classes the SQL reading has a token a character. */
  lemma {:induction false} ClasslessSql(p: string)
    requires StarLast(p) && '[' !in p && p != "" && p[|p| - 1] == '*'
    ensures SqlReading(p).Some? && SqlReading(p).value.open && |SqlReading(p).value.tokens| == |p| - 1
    ensures forall k :: 0 <= k < |p| - 1 ==> SqlReading(p).value.tokens[k] == Letter(p[k], AnyChar)
    decreases |p|
  {
    StarLastSuffix(p, p[1..]);
    if p[0] != '*' {
      assert p == [p[0]] + p[1..];
      ClasslessSql(p[1..]);
    }
  }

  /** Quotes shorten the live reading; one that swallows the star ends in it. */
  lemma {:induction false} QuotesShorten(p: string)
    requires StarLast(p) && '[' !in p && LiveReading(p).Some?
    ensures var r := LiveReading(p).value;
            && |r.tokens| <= (if r.open then |p| - 1 else |p|)
            && ('\\' in p ==> |r.tokens| < if r.open then |p| - 1 else |p|)
            && (!r.open && p != "" && p[|p| - 1] == '*' ==>
                  |r.tokens| > 0 && r.tokens[|r.tokens| - 1] == Exactly('*') && |p| > 1 && p[|p| - 2] == '\\')
    decreases |p|
  {
    if p != "" && p[0] != '*' {
      var rest := if p[0] == '\\' then p[2..] else p[1..];
      assert p == p[..|p| - |rest|] + rest;
      StarLastSuffix(p, rest);
      QuotesShorten(rest);
    }
  }

  lemma {:induction false} SampleLast(ts: seq<Token>)
    requires ts != [] && Classless(ts)
    ensures |Sample(ts)| == |ts| && (ts[|ts| - 1].Exactly? ==> Sample(ts)[|ts| - 1] == ts[|ts| - 1].c)
  {
    SampleFits(ts);
  }

  lemma SampleSplits(p: string)
    requires StarPath(p) && '[' !in p && '\\' in p && LiveReading(p).Some?
    ensures var c := Sample(LiveReading(p).value.tokens); LiveAccepts(p, c) && !SqlAccepts(p, c)
  {
    var r := LiveReading(p).value;
    ClasslessLive(p);
    ClasslessSql(p);
    SampleFits(r.tokens);
    assert Sample(r.tokens)[|r.tokens|..] == "";
    QuotesShorten(p);
    if !r.open {
      SampleLast(r.tokens);
      assert SqlReading(p).value.tokens[|p| - 2] == Exactly('\\');
    }
  }

  lemma {:induction false} QuotesAreClosed(p: string)
    requires StarLast(p) && '[' !in p && p != "" && p[|p| - 1] == '*'
    ensures LiveReading(p).Some?
    decreases |p|
  {
    if p[0] != '*' {
      var rest := if p[0] == '\\' then p[2..] else p[1..];
      assert p == p[..|p| - |rest|] + rest;
      StarLastSuffix(p, rest);
      if rest != "" { QuotesAreClosed(rest); }
    }
  }

  /** Every glob with a backslash and no class splits the matchers: the path it spells with its quotes
      off is accepted live and never by the SQL. */
  lemma BackslashDiverges(pattern: string)
    requires Storable(pattern) && '*' in pattern && '\\' in pattern && '[' !in pattern
    ensures var p := TrimSlashes(pattern);
            LiveReading(p).Some?
            && var c := Sample(LiveReading(p).value.tokens); LiveCwd(pattern, c) && !SqlCwd(pattern, c)
  {
    var p := TrimSlashes(pattern);
    StorableGlob(pattern);
    QuotesAreClosed(p);
    SampleSplits(p);
    CwdParity(pattern, Sample(LiveReading(p).value.tokens));
  }

  const BRACKET := "/[]]*"

  lemma BracketIsStorable()
    ensures Storable(BRACKET) && TrimSlashes(BRACKET) == BRACKET && StarPath(BRACKET) && '*' in BRACKET
  {
    assert BRACKET[4] == '*' && BRACKET[..4] == "/[]]" && BRACKET[0] == '/';
  }

  lemma ClassReadings()
    ensures LiveReading("[]]*") == None
    ensures SqlReading("[]]*") == Some(Reading([OneOf(Class(false, [(']', ']')]))], true))
  {
    var q, cl := "[]]*", OneOf(Class(false, [(']', ']')]));
    assert ClassChar(q, 1) == None && LiveClass(q) == None;
    assert SqlRanges(q, 2, None, [(']', ']')]) == Some(([(']', ']')], 3));
    assert SqlClass(q) == Some((Class(false, [(']', ']')]), 3));
    assert q[3..] == "*" && SqlReading("*") == Some(Reading([], true));
    assert SqlReading(q) == Then(cl, SqlReading("*")) && [cl] + [] == [cl];
  }

  lemma BracketReadings()
    ensures LiveReading(BRACKET) == None
    ensures SqlReading(BRACKET) == Some(Reading([Exactly('/'), OneOf(Class(false, [(']', ']')]))], true))
  {
    var cl := OneOf(Class(false, [(']', ']')]));
    ClassReadings();
    assert BRACKET[1..] == "[]]*" && BRACKET[0] == '/';
    assert SqlReading(BRACKET) == Then(Exactly('/'), SqlReading("[]]*"));
    assert [Exactly('/')] + [cl] == [Exactly('/'), cl];
  }

  /** The languages read classes differently: a closing bracket that comes first is a member in GLOB
      and malformed in path.Match, which then matches no directory at all. */
  lemma ClassesDiverge(cwd: string)
    ensures Storable(BRACKET) && SqlCwd(BRACKET, "/]") && !LiveCwd(BRACKET, cwd)
  {
    BracketIsStorable();
    BracketReadings();
    CwdParity(BRACKET, cwd);
    CwdParity(BRACKET, "/]");
    var cl := Class(false, [(']', ']')]);
    assert (']', ']') in cl.ranges;
    assert InClass(cl, ']');
  }

  lemma SegmentsOfTwo()
    ensures Segments("a/b") == ["a", "b"]
  {
    SegmentsSplit("a", "b");
    assert "a/b" == "a" + "/" + "b";
    SplitNone("a", '/');
    SplitNone("b", '/');
  }

  lemma TwoLevelsAreClean()
    ensures PlainParent("/a/b")
  {
    SegmentsOfTwo();
    assert "/a/b"[1..] == "a/b";
    assert "a" != "." && "b" != "." && "a" != ".." && "b" != "..";
    assert Reduced(["a", "b"], true);
    DirOfTidy("/a/b");
  }

  const QUESTION := "/a?*"

  lemma QuestionIsStorable()
    ensures Storable(QUESTION) && TrimSlashes(QUESTION) == QUESTION && StarPath(QUESTION) && Quoteless(QUESTION)
  {
    assert QUESTION[3] == '*' && QUESTION[..3] == "/a?" && QUESTION[0] == '/';
  }

  lemma QuestionMarkDiverges()
    ensures Storable(QUESTION) && PlainParent("/a/b")
    ensures SqlCwd(QUESTION, "/a/b") && !LiveCwd(QUESTION, "/a/b")
  {
    var c := "/a/b";
    TwoLevelsAreClean();
    QuestionIsStorable();
    assert QUESTION[3] == '*' && QUESTION[2] == '?' && c[2] == '/';
    ClasslessSql(QUESTION);
    hide PlainParent, Storable, LiveCwd, SqlCwd, SqlReading, LiveAccepts, Reaches;
    CwdParity(QUESTION, c);
    ParityOnPlainParents(QUESTION, c);
  }
}
