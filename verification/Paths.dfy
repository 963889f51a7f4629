/** Slash-separated paths, as the Go `path` package cleans and truncates them. */
module Paths {
  import opened Globs
  import opened Splitting

  // ---------- segments ----------

  /** The pieces of `s` between its slashes. */
  function Segments(s: string): seq<string> {
    Split(s, '/')
  }

  function Join(segs: seq<string>): string {
    if segs == [] then ""
    else if |segs| == 1 then segs[0]
    else segs[0] + "/" + Join(segs[1..])
  }

  lemma SegmentsSplit(a: string, b: string)
    ensures Segments(a + "/" + b) == Segments(a) + Segments(b)
  {
    SplitConcat(a, b, '/');
    assert "/" == ['/'];
  }

  lemma {:induction false} SegmentsJoin(s: string)
    ensures Join(Segments(s)) == s
  {
    if s != "" {
      var t := Segments(s[1..]);
      SegmentsJoin(s[1..]);
      assert ([""] + t)[1..] == t;
      assert ([[s[0]] + t[0]] + t[1..])[1..] == t[1..];
    }
  }

  /** Total room the segments take, one separator each. */
  function Room(segs: seq<string>): nat {
    if segs == [] then 0 else |segs[0]| + 1 + Room(segs[1..])
  }

  lemma JoinRoom(segs: seq<string>)
    requires segs != []
    ensures |Join(segs)| == Room(segs) - 1
  {
  }

  lemma RoomAppend(a: seq<string>, b: seq<string>)
    ensures Room(a + b) == Room(a) + Room(b)
  {
    if a == [] {
      assert a + b == b;
    } else {
      RoomAppend(a[1..], b);
      assert (a + b)[1..] == a[1..] + b;
    }
  }

  // ---------- cleaning ----------

  function CleanStep(done: seq<string>, seg: string, rooted: bool): seq<string> {
    if seg == "" || seg == "." then done
    else if seg == ".." then
      if done != [] && done[|done| - 1] != ".." then done[..|done| - 1]
      else if rooted then done
      else done + [".."]
    else done + [seg]
  }

  function CleanSegments(done: seq<string>, segs: seq<string>, rooted: bool): seq<string>
    decreases |segs|
  {
    if segs == [] then done
    else CleanSegments(CleanStep(done, segs[0], rooted), segs[1..], rooted)
  }

  predicate Rooted(p: string) {
    p != "" && p[0] == '/'
  }

  /** Drops empty and "." segments and resolves ".."; the empty path is ".". */
  function Clean(p: string): string {
    var body := Join(CleanSegments([], Segments(p), Rooted(p)));
    if Rooted(p) then "/" + body
    else if body == "" then "."
    else body
  }

  /** Length of the part of `p` up to and including its last slash. */
  function DirLength(p: string): (n: nat)
    ensures n <= |p|
    ensures n > 0 ==> p[n - 1] == '/'
    ensures NoSlash(p[n..])
  {
    var n := Through(p, '/');
    assert forall k :: 0 <= k < |p[n..]| ==> p[n..][k] == p[n + k];
    n
  }

  function Dir(p: string): string {
    Clean(p[..DirLength(p)])
  }

  // ---------- the walk towards the root shrinks ----------

  lemma CleanStepRoom(done: seq<string>, seg: string, rooted: bool)
    ensures Room(CleanStep(done, seg, rooted)) <= Room(done) + (if seg == "" then 0 else |seg| + 1)
  {
    RoomAppend(done, [seg]);
    if done != [] {
      RoomAppend(done[..|done| - 1], [done[|done| - 1]]);
      assert done == done[..|done| - 1] + [done[|done| - 1]];
    }
  }

  lemma CleanSegmentsRoom(done: seq<string>, segs: seq<string>, rooted: bool)
    requires segs != [] ==> segs[|segs| - 1] == ""
    ensures Room(CleanSegments(done, segs, rooted)) <= Room(done) + Room(segs) - (if segs == [] then 0 else 1)
    decreases |segs|
  {
    if segs != [] {
      CleanStepRoom(done, segs[0], rooted);
      CleanSegmentsRoom(CleanStep(done, segs[0], rooted), segs[1..], rooted);
    }
  }

  lemma SegmentsLast(s: string)
    requires s != "" && s[|s| - 1] == '/'
    ensures var r := Segments(s); |r| >= 2 && r[|r| - 1] == ""
  {
    var front := s[..|s| - 1];
    assert s == front + "/" + "";
    SegmentsSplit(front, "");
  }

  /** Cleaning a path that ends in a slash shortens it, unless it is the root. */
  lemma CleanShortens(p: string)
    requires p != "" && p[|p| - 1] == '/' && p != "/"
    ensures |Clean(p)| < |p|
  {
    var segs, rooted := Segments(p), Rooted(p);
    SegmentsJoin(p);
    JoinRoom(segs);
    SegmentsLast(p);
    var kept := CleanSegments([], segs, rooted);
    if rooted {
      assert segs == [""] + Segments(p[1..]);
      SegmentsLast(p[1..]);
      assert CleanSegments([], segs, rooted) == CleanSegments([], segs[1..], rooted);
      CleanSegmentsRoom([], segs[1..], rooted);
    } else {
      CleanSegmentsRoom([], segs, rooted);
    }
    if kept != [] { JoinRoom(kept); }
  }

  /** What decreases along `Dir`: length while a slash is left, then one step to ".". */
  function Rank(p: string): nat {
    if p == "." then 0 else if NoSlash(p) then 1 else 1 + |p|
  }

  lemma DirDescends(p: string)
    ensures Dir(p) == p || Rank(Dir(p)) < Rank(p)
  {
    var n := DirLength(p);
    var d := p[..n];
    if n == 0 {
      assert d == "" && Dir(p) == ".";
    } else if d == "/" {
      assert Segments("/") == ["", ""];
      assert Clean("/") == "/";
    } else {
      assert d[|d| - 1] == '/';
      CleanShortens(d);
      assert '/' in p;
    }
  }

  // ---------- clean paths, and the directories whose parent is a plain prefix ----------

  /** Leading ".." segments of a relative path, then ordinary names: what cleaning leaves. */
  predicate Reduced(segs: seq<string>, rooted: bool) {
    forall i :: 0 <= i < |segs| ==>
      segs[i] != "" && segs[i] != "." && NoSlash(segs[i])
      && (segs[i] == ".." ==> !rooted && (i > 0 ==> segs[i - 1] == ".."))
  }

  function Relative(c: string): string {
    if Rooted(c) then c[1..] else c
  }

  /** The strings `Clean` returns. */
  predicate Tidy(c: string) {
    c == "." || c == "/" || Reduced(Segments(Relative(c)), Rooted(c))
  }

  lemma {:induction false} CleanSegmentsReduces(done: seq<string>, segs: seq<string>, rooted: bool)
    requires Reduced(done, rooted) && forall k :: 0 <= k < |segs| ==> NoSlash(segs[k])
    ensures Reduced(CleanSegments(done, segs, rooted), rooted)
    decreases |segs|
  {
    if segs != [] { CleanSegmentsReduces(CleanStep(done, segs[0], rooted), segs[1..], rooted); }
  }

  lemma {:induction false} CleanSegmentsKeeps(done: seq<string>, segs: seq<string>, rooted: bool)
    requires Reduced(done + segs, rooted)
    ensures CleanSegments(done, segs + [""], rooted) == done + segs
    decreases |segs|
  {
    if segs == [] {
      assert segs + [""] == [""] && done + segs == done;
    } else {
      assert (segs + [""])[1..] == segs[1..] + [""];
      assert (done + segs)[|done|] == segs[0];
      assert done != [] ==> (done + segs)[|done| - 1] == done[|done| - 1];
      assert done + segs == done + [segs[0]] + segs[1..];
      CleanSegmentsKeeps(done + [segs[0]], segs[1..], rooted);
    }
  }

  lemma {:induction false} SegmentsOfJoin(segs: seq<string>)
    requires segs != [] && forall k :: 0 <= k < |segs| ==> NoSlash(segs[k])
    ensures Segments(Join(segs)) == segs
  {
    SplitNone(segs[0], '/');
    if |segs| > 1 {
      SegmentsOfJoin(segs[1..]);
      SegmentsSplit(segs[0], Join(segs[1..]));
    }
  }

  lemma CleanIsTidy(p: string)
    ensures Tidy(Clean(p))
  {
    var rooted := Rooted(p);
    var kept := CleanSegments([], Segments(p), rooted);
    CleanSegmentsReduces([], Segments(p), rooted);
    if kept == [] {
      assert "/" + "" == "/";
    } else {
      SegmentsOfJoin(kept);
      JoinStarts(kept);
      assert rooted ==> Clean(p)[1..] == Join(kept);
    }
  }

  // ---------- what cleaning keeps ----------

  predicate PlainSegment(x: string) {
    x != "" && x != "." && x != ".." && NoSlash(x)
  }

  lemma {:induction false} CleanAppend(done: seq<string>, a: seq<string>, b: seq<string>, rooted: bool)
    ensures CleanSegments(done, a + b, rooted) == CleanSegments(CleanSegments(done, a, rooted), b, rooted)
    decreases |a|
  {
    if a == [] {
      assert a + b == b;
    } else {
      assert (a + b)[1..] == a[1..] + b;
      CleanAppend(CleanStep(done, a[0], rooted), a[1..], b, rooted);
    }
  }

  lemma CleanOne(done: seq<string>, x: string, rooted: bool)
    ensures CleanSegments(done, [x], rooted) == CleanStep(done, x, rooted)
  {
    assert [x][1..] == [];
  }

  /** A segment followed by "..", a "." and an empty segment can be left out anywhere. */
  lemma CleanSkips(a: seq<string>, x: string, b: seq<string>, rooted: bool)
    requires PlainSegment(x)
    ensures CleanSegments([], a + [x] + [".."] + b, rooted) == CleanSegments([], a + b, rooted)
    ensures CleanSegments([], a + ["."] + b, rooted) == CleanSegments([], a + b, rooted)
    ensures CleanSegments([], a + [""] + b, rooted) == CleanSegments([], a + b, rooted)
  {
    var done := CleanSegments([], a, rooted);
    CleanAppend([], a + [x] + [".."], b, rooted);
    CleanAppend([], a + [x], [".."], rooted);
    CleanAppend([], a, [x], rooted);
    CleanAppend([], a + ["."], b, rooted);
    CleanAppend([], a, ["."], rooted);
    CleanAppend([], a + [""], b, rooted);
    CleanAppend([], a, [""], rooted);
    CleanAppend([], a, b, rooted);
    CleanOne(done, x, rooted);
    CleanOne(done + [x], "..", rooted);
    CleanOne(done, ".", rooted);
    CleanOne(done, "", rooted);
    assert (done + [x])[..|done|] == done;
  }

  lemma SplitAtSlashes(p: string, x: string, q: string)
    requires NoSlash(x)
    ensures Segments(p + "/" + (x + "/" + q)) == Segments(p) + [x] + Segments(q)
  {
    SegmentsSplit(p, x + "/" + q);
    SegmentsSplit(x, q);
    SplitNone(x, '/');
  }

  /** Cleaning keeps the path: leaving out a segment with the ".." after it, a "." or a doubled slash
      anywhere changes nothing, and neither does a ".." at the root. */
  lemma CleanKeepsMeaning(p: string, x: string, q: string)
    requires PlainSegment(x)
    ensures Clean(p + "/" + (x + "/" + (".." + "/" + q))) == Clean(p + "/" + q)
    ensures Clean(p + "/" + ("." + "/" + q)) == Clean(p + "/" + q)
    ensures Clean(p + "/" + ("" + "/" + q)) == Clean(p + "/" + q)
    ensures Clean("/" + (".." + "/" + q)) == Clean("/" + q)
  {
    SegmentsSplit(p, q);
    SplitAtSlashes(p, x, ".." + "/" + q);
    SegmentsSplit("..", q);
    SplitNone("..", '/');
    assert Segments(p) + [x] + ([".."] + Segments(q)) == Segments(p) + [x] + [".."] + Segments(q);
    SplitAtSlashes(p, ".", q);
    SplitAtSlashes(p, "", q);
    CleanSkips(Segments(p), x, Segments(q), Rooted(p + "/" + q));
    SplitAtSlashes("", "..", q);
    SegmentsSplit("", q);
    SplitNone("", '/');
    RootParents(Segments(q));
    assert "" + "/" + q == "/" + q && "" + "/" + (".." + "/" + q) == "/" + (".." + "/" + q);
  }

  lemma RootParents(b: seq<string>)
    ensures CleanSegments([], [""] + [".."] + b, true) == CleanSegments([], [""] + b, true)
  {
    CleanAppend([], [""] + [".."], b, true);
    CleanAppend([], [""], [".."], true);
    CleanAppend([], [""], b, true);
    CleanOne([], "", true);
    CleanOne([], "..", true);
  }

  lemma JoinStarts(segs: seq<string>)
    requires segs != [] && segs[0] != ""
    ensures Join(segs) != "" && Join(segs)[0] == segs[0][0]
  {
  }

  lemma CleanDropsTrailingSlash(head: string, rooted: bool)
    requires Reduced(Segments(head), rooted)
    ensures head != "" && !Rooted(head)
    ensures Clean(if rooted then "/" + (head + "/") else head + "/") == if rooted then "/" + head else head
  {
    var segs := Segments(head);
    SegmentsJoin(head);
    JoinStarts(segs);
    SegmentsSplit(head, "");
    assert head + "/" + "" == head + "/";
    assert Segments("") == [""];
    assert [] + segs == segs;
    CleanSegmentsKeeps([], segs, rooted);
    if rooted {
      var d := "/" + (head + "/");
      assert d[1..] == head + "/";
      var all := [""] + (segs + [""]);
      assert Segments(d) == all;
      assert all[0] == "" && all[1..] == segs + [""];
    }
  }

  lemma RootDir()
    ensures Clean("/") == "/"
  {
    assert Segments("/") == ["", ""];
  }

  /** The parent is what a reader expects: everything before the last slash. */
  predicate PlainParent(c: string) {
    var n := DirLength(c);
    Dir(c) == if n == 0 then "." else if n == 1 then "/" else c[..n - 1]
  }

  lemma ReducedPrefix(a: seq<string>, b: seq<string>, rooted: bool)
    requires Reduced(a + b, rooted)
    ensures Reduced(a, rooted)
  {
    assert forall i :: 0 <= i < |a| ==> (a + b)[i] == a[i];
  }

  lemma DirOfReduced(c: string, n: nat)
    requires n == DirLength(c) && n > 1 && Reduced(Segments(Relative(c)), Rooted(c))
    ensures Dir(c) == c[..n - 1]
  {
    var head, rooted := Relative(c[..n - 1]), Rooted(c);
    assert Relative(c) == head + "/" + c[n..];
    SegmentsSplit(head, c[n..]);
    ReducedPrefix(Segments(head), Segments(c[n..]), rooted);
    CleanDropsTrailingSlash(head, rooted);
    assert c[..n] == if rooted then "/" + (head + "/") else head + "/";
  }

  /** Every clean path has a plain parent, and the parent of any path is clean. */
  lemma DirOfTidy(c: string)
    ensures Tidy(c) ==> PlainParent(c)
    ensures Tidy(Dir(c))
  {
    var n := DirLength(c);
    CleanIsTidy(c[..n]);
    if n == 0 {
      assert c[..n] == "";
      assert Segments("") == [""];
    } else if n == 1 {
      assert c[..n] == ['/'] == "/";
      RootDir();
    } else if Tidy(c) {
      assert c != "." && c != "/";
      DirOfReduced(c, n);
    }
  }
}
