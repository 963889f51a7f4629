/** Tailing Codex rollout files: reading a growing file piece by piece against parsing it whole. */
module Codex {
  import opened Options
  import opened Splitting
  import opened CwdPattern

  /** What one line says: nothing, or a timestamp, a workspace root ("" for none) and the decoded
      directory of a command. Decoding a line is not modelled; it is a parameter of everything below. */
  datatype Entry = Skip | Entry(ts: int, root: string, cmd: Option<string>)

  type Decode = string -> Entry

  /** The accumulators of parseCodexTail. `sticky` is history: the last non-empty command set. */
  datatype Tail = Tail(session: string, command: string, newest: int, ok: bool, root: string, sticky: string)

  function Start(root: string): Tail {
    Tail("", "", 0, false, root, "")
  }

  function Max(a: int, b: int): int {
    if a > b then a else b
  }

  function LineStep(decode: Decode, t: Tail, line: string): Tail {
    if line == "" then t
    else
      match decode(line)
      case Skip => t
      case Entry(ts, root, cmd) =>
        var t1 := t.(newest := Max(t.newest, ts), ok := true);
        var t2 := if root == "" then t1 else t1.(session := root, root := root);
        if cmd.None? || cmd.value == t2.root then t2
        else t2.(command := cmd.value, sticky := if cmd.value == "" then t2.sticky else cmd.value)
  }

  function Pieces(data: string): seq<string> {
    Split(data, '\n')
  }

  function ScanLines(decode: Decode, t: Tail, lines: seq<string>): Tail {
    if lines == [] then t
    else LineStep(decode, ScanLines(decode, t, lines[..|lines| - 1]), lines[|lines| - 1])
  }

  function Scan(decode: Decode, t: Tail, data: string): Tail {
    ScanLines(decode, t, Pieces(data))
  }

  method ParseCodexTail(decode: Decode, data: string, root: string) returns (t: Tail)
    ensures t == Scan(decode, Start(root), data)
  {
    t := Start(root);
    var lines := Pieces(data);
    for i := 0 to |lines|
      invariant t == ScanLines(decode, Start(root), lines[..i])
    {
      assert lines[..i + 1][..i] == lines[..i];
      t := LineStep(decode, t, lines[i]);
    }
    assert lines[..|lines|] == lines;
  }

  // ---------- one file, one tick ----------

  datatype Session = Session(offset: nat, last: int, cwd: string, cmd: string)

  const UNSEEN := Session(0, 0, "", "")

  function Absorb(s: Session, t: Tail): Session {
    if !t.ok then s
    else s.(last := Max(s.last, t.newest), cwd := if t.session != "" then t.session else s.cwd,
            cmd := if t.command != "" then t.command else s.cmd)
  }

  /** Length of `s` up to and including its last newline. */
  function WholeLines(s: string): nat {
    Through(s, '\n')
  }

  /** A readable file that has grown: consume its new whole lines. */
  function Consume(decode: Decode, s: Session, content: string): Session {
    if |content| <= s.offset then s
    else
      var data := content[s.offset..];
      var n := WholeLines(data);
      if n == 0 then s
      else Absorb(s, Scan(decode, Start(s.cwd), data[..n])).(offset := s.offset + n)
  }

  /** A file as one tick finds it; reading it may fail. */
  datatype View = View(content: string, age: int, readable: bool)

  function Visited(decode: Decode, s: Session, f: View, grace: int): Session {
    var s1 := if |f.content| < s.offset then s.(offset := 0) else s;
    if f.age >= grace then s1.(offset := |f.content|)
    else if f.readable then Consume(decode, s1, f.content)
    else s1
  }

  function Tracked(patterns: seq<string>, cwd: string): Option<string> {
    if cwd != "" && exists p :: p in patterns && LiveCwd(p, cwd) then Some(cwd) else None
  }

  /** The directory a session is credited for: absent if it is silent, names none, or names one that no
      rule tracks. */
  function Credited(s: Session, now: int, grace: int, patterns: seq<string>): Option<string> {
    if now - s.last >= grace then None else Tracked(patterns, if s.cmd != "" then s.cmd else s.cwd)
  }

  class Tracker {
    const decode: Decode
    var sessions: map<string, Session>

    constructor (decode: Decode)
      ensures this.decode == decode && sessions == map[]
    {
      this.decode, sessions := decode, map[];
    }

    function At(path: string): Session
      reads this
    {
      if path in sessions then sessions[path] else UNSEEN
    }

    method Read(st0: Session, content: string) returns (st: Session)
      ensures st == Consume(decode, st0, content)
    {
      st := st0;
      if |content| > st.offset {
        var data := content[st.offset..];
        var n := WholeLines(data);
        if n > 0 {
          var tail := ParseCodexTail(decode, data[..n], st.cwd);
          if tail.ok {
            if tail.newest > st.last { st := st.(last := tail.newest); }
            if tail.session != "" { st := st.(cwd := tail.session); }
            if tail.command != "" { st := st.(cmd := tail.command); }
          }
          st := st.(offset := st.offset + n);
        }
      }
    }

    /** One rollout file of one tick; returns the directory to credit. */
    method Visit(path: string, f: View, now: int, grace: int, patterns: seq<string>) returns (credit: Option<string>)
      modifies this
      ensures sessions == old(sessions)[path := Visited(decode, old(At(path)), f, grace)]
      ensures credit == Credited(At(path), now, grace, patterns)
    {
      var st := At(path);
      if |f.content| < st.offset { st := st.(offset := 0); }
      if f.age >= grace {
        st := st.(offset := |f.content|);
      } else if f.readable {
        st := Read(st, f.content);
      }
      sessions := sessions[path := st];
      if now - st.last >= grace { return None; }
      var cwd := if st.cmd == "" then st.cwd else st.cmd;
      if cwd == "" || !exists p :: p in patterns && LiveCwd(p, cwd) { return None; }
      return Some(cwd);
    }

    /** Forgets the files that were not there. */
    method DropVanished(live: set<string>)
      modifies this
      ensures sessions.Keys == old(sessions.Keys) * live
      ensures forall path :: At(path) == if path in live then old(At(path)) else UNSEEN
    {
      sessions := map path | path in sessions && path in live :: sessions[path];
    }
  }

  // ---------- splitting the file does not matter ----------

  lemma PiecesSplit(a: string, b: string)
    ensures Pieces(a + "\n" + b) == Pieces(a) + Pieces(b)
  {
    SplitConcat(a, b, '\n');
    assert "\n" == ['\n'];
  }

  lemma {:induction false} ScanLinesSplit(decode: Decode, t: Tail, a: seq<string>, b: seq<string>)
    ensures ScanLines(decode, t, a + b) == ScanLines(decode, ScanLines(decode, t, a), b)
  {
    if b == [] {
      assert a + b == a;
    } else {
      ScanLinesSplit(decode, t, a, b[..|b| - 1]);
      assert (a + b)[..|a + b| - 1] == a + b[..|b| - 1];
    }
  }

  predicate EndsLine(a: string) {
    a == "" || a[|a| - 1] == '\n'
  }

  lemma ScanSplit(decode: Decode, t: Tail, a: string, b: string)
    requires EndsLine(a)
    ensures Scan(decode, t, a + b) == Scan(decode, Scan(decode, t, a), b)
  {
    if a == "" {
      assert a + b == b;
      assert Pieces("") == [""];
      assert ScanLines(decode, t, [""][..0]) == t;
    } else {
      var a' := a[..|a| - 1];
      assert a == a' + "\n" + "" && a + b == a' + "\n" + b;
      PiecesSplit(a', "");
      PiecesSplit(a', b);
      assert Pieces("") == [""];
      ScanLinesSplit(decode, t, Pieces(a'), [""]);
      ScanLinesSplit(decode, t, Pieces(a'), Pieces(b));
      var u := ScanLines(decode, t, Pieces(a'));
      assert [""][..0] == [] && ScanLines(decode, u, [""]) == u;
    }
  }

  /** Parsing more lines from where `a` stopped, against parsing them anew from a's root. */
  predicate Continues(a: Tail, anew: Tail, whole: Tail) {
    && whole.root == anew.root && ContinuesCommand(a, anew, whole)
    && whole.session == (if anew.session != "" then anew.session else a.session)
    && whole.newest == Max(a.newest, anew.newest)
    && (!anew.ok ==> anew.newest == 0 && anew.session == anew.command == anew.sticky == "")
  }

  predicate ContinuesCommand(a: Tail, anew: Tail, whole: Tail) {
    && whole.sticky == (if anew.sticky != "" then anew.sticky else a.sticky)
    && (anew.command != "" ==> whole.command == anew.command == anew.sticky)
    && (anew.command == "" ==> whole.command == "" || (whole.command == a.command && anew.sticky == ""))
  }

  lemma CommandStep(decode: Decode, a: Tail, anew: Tail, whole: Tail, line: string)
    requires whole.root == anew.root && ContinuesCommand(a, anew, whole)
    ensures ContinuesCommand(a, LineStep(decode, anew, line), LineStep(decode, whole, line))
  {
  }

  lemma RootStep(decode: Decode, anew: Tail, whole: Tail, line: string)
    requires whole.root == anew.root
    ensures LineStep(decode, whole, line).root == LineStep(decode, anew, line).root
  {
  }

  lemma ContinuesStep(decode: Decode, a: Tail, anew: Tail, whole: Tail, line: string)
    requires Continues(a, anew, whole) && a.newest >= 0
    ensures Continues(a, LineStep(decode, anew, line), LineStep(decode, whole, line))
  {
    CommandStep(decode, a, anew, whole, line);
    RootStep(decode, anew, whole, line);
  }

  lemma {:induction false} FreshContinues(decode: Decode, a: Tail, lines: seq<string>)
    requires a.newest >= 0
    ensures Continues(a, ScanLines(decode, Start(a.root), lines), ScanLines(decode, a, lines))
  {
    if lines != [] {
      var front := lines[..|lines| - 1];
      FreshContinues(decode, a, front);
      ContinuesStep(decode, a, ScanLines(decode, Start(a.root), front), ScanLines(decode, a, front),
                    lines[|lines| - 1]);
    }
  }

  lemma {:induction false} RootIsSession(decode: Decode, root: string, lines: seq<string>)
    ensures var t := ScanLines(decode, Start(root), lines);
            && t.root == (if t.session != "" then t.session else root)
            && t.newest >= 0 && (t.command != "" ==> t.sticky != "")
  {
    if lines != [] { RootIsSession(decode, root, lines[..|lines| - 1]); }
  }

  /** A growing text as successive ticks read it; absent when the read fails. */
  type Reads = seq<Option<string>>

  function Latest(rs: Reads): string {
    if rs == [] then ""
    else if rs[|rs| - 1].Some? then rs[|rs| - 1].value
    else Latest(rs[..|rs| - 1])
  }

  predicate Growing(rs: Reads) {
    rs == [] || (Growing(rs[..|rs| - 1])
                    && (rs[|rs| - 1].Some? ==> Latest(rs[..|rs| - 1]) <= rs[|rs| - 1].value))
  }

  /** Reading on from `s`. */
  function After(decode: Decode, s: Session, rs: Reads): Session {
    if rs == [] then s
    else
      var t := After(decode, s, rs[..|rs| - 1]);
      match rs[|rs| - 1] case None => t case Some(content) => Consume(decode, t, content)
  }

  /** All complete lines seen so far. */
  function Complete(rs: Reads): string {
    Latest(rs)[..WholeLines(Latest(rs))]
  }

  /** One parse of them all. */
  function Batch(decode: Decode, root: string, rs: Reads): Tail {
    Scan(decode, Start(root), Complete(rs))
  }

  /** `s` is where reading from `s0` gets when the parse of what was consumed gives `t`. */
  predicate Agrees(s0: Session, s: Session, t: Tail, consumed: string) {
    && s.offset == |consumed| && s.last == Max(s0.last, t.newest) && s.cwd == t.root
    && (t.sticky == "" ==> s.cmd == s0.cmd) && (t.command != "" ==> s.cmd == t.command)
  }

  lemma WholeLinesGrow(old0: string, new0: string)
    requires old0 <= new0
    ensures var n := WholeLines(old0); WholeLines(new0) == n + WholeLines(new0[n..])
  {
  }

  lemma AbsorbAgrees(s0: Session, s: Session, a: Tail, anew: Tail, whole: Tail, done: string, lines: string)
    requires s0.last >= 0 && a.newest >= 0 && Agrees(s0, s, a, done) && Continues(a, anew, whole)
    requires anew.root == (if anew.session != "" then anew.session else a.root)
    requires anew.command != "" ==> anew.sticky != ""
    ensures Agrees(s0, Absorb(s, anew).(offset := |lines|), whole, lines)
  {
  }

  lemma ConsumeAgrees(decode: Decode, s0: Session, s: Session, done: string, content: string)
    requires s0.last >= 0
    requires done <= content && EndsLine(done) && Agrees(s0, s, Scan(decode, Start(s0.cwd), done), done)
    requires var n := WholeLines(content); n == |done| + WholeLines(content[|done|..])
    ensures var lines := content[..WholeLines(content)];
            Agrees(s0, Consume(decode, s, content), Scan(decode, Start(s0.cwd), lines), lines)
  {
    var n := WholeLines(content[|done|..]);
    var chunk := content[|done|..][..n];
    var lines := content[..WholeLines(content)];
    assert lines == done + chunk;
    RootIsSession(decode, s0.cwd, Pieces(done));
    var a := Scan(decode, Start(s0.cwd), done);
    RootIsSession(decode, a.root, Pieces(chunk));
    ScanSplit(decode, Start(s0.cwd), done, chunk);
    FreshContinues(decode, a, Pieces(chunk));
    if n == 0 {
      assert chunk == "" && lines == done;
    } else {
      AbsorbAgrees(s0, s, a, Scan(decode, Start(a.root), chunk), Scan(decode, Start(s0.cwd), lines), done, lines);
    }
  }

  lemma {:induction false} ReadsAgree(decode: Decode, s0: Session, rs: Reads)
    requires Growing(rs) && s0.offset == 0 && s0.last >= 0
    ensures Agrees(s0, After(decode, s0, rs), Batch(decode, s0.cwd, rs), Complete(rs))
  {
    if rs == [] {
      assert Complete(rs) == "" && Pieces("") == [""];
      assert ScanLines(decode, Start(s0.cwd), [""][..0]) == Start(s0.cwd);
    } else {
      var front := rs[..|rs| - 1];
      ReadsAgree(decode, s0, front);
      if rs[|rs| - 1].Some? {
        WholeLinesGrow(Latest(front), Latest(rs));
        assert Complete(front) == Latest(rs)[..WholeLines(Latest(front))];
        ConsumeAgrees(decode, s0, After(decode, s0, front), Complete(front), Latest(rs));
      }
    }
  }

  /** The newest effective command decoded to nothing although an earlier one did not. */
  predicate ForgetsCommand(t: Tail) {
    t.command == "" && t.sticky != ""
  }

  /** The session that one parse of the text after `s0` gives. */
  predicate AsParsed(s0: Session, s: Session, t: Tail, consumed: nat) {
    && s.offset == consumed && s.last == Max(s0.last, t.newest)
    && s.cwd == (if t.session != "" then t.session else s0.cwd)
    && (!ForgetsCommand(t) ==> s.cmd == if t.command != "" then t.command else s0.cmd)
  }

  /** However the growth of a text is cut into reads, mid-line or not, and whichever reads fail: offset,
      last activity and root are those of one parse of all complete lines, and so is the command
      directory unless that parse forgets it. */
  lemma TailingEqualsBatch(decode: Decode, s0: Session, rs: Reads)
    requires Growing(rs) && s0.offset == 0 && s0.last >= 0
    ensures AsParsed(s0, After(decode, s0, rs), Batch(decode, s0.cwd, rs), |Complete(rs)|)
  {
    ReadsAgree(decode, s0, rs);
    RootIsSession(decode, s0.cwd, Pieces(Complete(rs)));
  }

  // ---------- the file as the ticks find it ----------

  function Visits(decode: Decode, s: Session, views: seq<View>, grace: int): Session {
    if views == [] then s
    else Visited(decode, Visits(decode, s, views[..|views| - 1], grace), views[|views| - 1], grace)
  }

  /** The file as last found. */
  function Found(base: string, views: seq<View>): string {
    if views == [] then base else views[|views| - 1].content
  }

  /** From `base` on the file only grows, and no tick finds it untouched for the grace. */
  predicate InUse(base: string, views: seq<View>, grace: int) {
    views == []
    || (var front, f := views[..|views| - 1], views[|views| - 1];
        InUse(base, front, grace) && f.age < grace && Found(base, front) <= f.content)
  }

  /** What the ticks read of the text after `base`. */
  function Appended(base: string, views: seq<View>): Reads {
    if views == [] then []
    else
      var f := views[|views| - 1];
      Appended(base, views[..|views| - 1])
      + [if f.readable && |base| <= |f.content| then Some(f.content[|base|..]) else None]
  }

  lemma {:induction false} AppendedGrows(base: string, views: seq<View>, grace: int)
    requires InUse(base, views, grace)
    ensures Growing(Appended(base, views)) && base <= Found(base, views)
    ensures Latest(Appended(base, views)) <= Found(base, views)[|base|..]
  {
    if views != [] {
      var front := views[..|views| - 1];
      AppendedGrows(base, front, grace);
      var rs := Appended(base, views);
      assert rs[..|rs| - 1] == Appended(base, front);
      assert Found(base, front)[|base|..] <= Found(base, views)[|base|..];
    }
  }

  /** Consuming a file past `base` is consuming the text after it. */
  lemma ConsumeShift(decode: Decode, s: Session, base: string, content: string)
    requires base <= content
    ensures Consume(decode, s.(offset := |base| + s.offset), content)
            == (var t := Consume(decode, s, content[|base|..]); t.(offset := |base| + t.offset))
  {
    if s.offset < |content| - |base| {
      assert content[|base| + s.offset..] == content[|base|..][s.offset..];
    }
  }

  lemma {:induction false} AfterStaysWithin(decode: Decode, s: Session, rs: Reads)
    requires Growing(rs) && s.offset == 0
    ensures After(decode, s, rs).offset <= |Latest(rs)|
  {
    if rs != [] { AfterStaysWithin(decode, s, rs[..|rs| - 1]); }
  }

  /** Visiting a file in use is reading what was appended. */
  lemma VisitReads(decode: Decode, t: Session, base: string, f: View, grace: int)
    requires f.age < grace && base <= f.content && t.offset <= |f.content| - |base|
    ensures var n := if f.readable then Consume(decode, t, f.content[|base|..]) else t;
            Visited(decode, t.(offset := |base| + t.offset), f, grace) == n.(offset := |base| + n.offset)
  {
    ConsumeShift(decode, t, base, f.content);
  }

  lemma InUseNext(decode: Decode, s: Session, base: string, front: seq<View>, f: View, grace: int)
    requires InUse(base, front + [f], grace) && s.offset == 0
    ensures InUse(base, front, grace) && f.age < grace && base <= f.content
    ensures After(decode, s, Appended(base, front)).offset <= |f.content| - |base|
  {
    assert (front + [f])[..|front|] == front;
    AppendedGrows(base, front, grace);
    AfterStaysWithin(decode, s, Appended(base, front));
    assert |Latest(Appended(base, front))| <= |Found(base, front)[|base|..]|;
  }

  lemma AppendedNext(decode: Decode, s: Session, base: string, front: seq<View>, f: View)
    requires base <= f.content
    ensures var t := After(decode, s, Appended(base, front));
            After(decode, s, Appended(base, front + [f])) ==
            if f.readable then Consume(decode, t, f.content[|base|..]) else t
  {
    hide Consume;
    assert (front + [f])[..|front|] == front;
    var rs := Appended(base, front + [f]);
    assert rs[..|rs| - 1] == Appended(base, front);
  }

  lemma {:induction false} VisitsAreReads(decode: Decode, s: Session, base: string, views: seq<View>, grace: int)
    requires InUse(base, views, grace) && s.offset == |base|
    ensures Visits(decode, s, views, grace)
            == (var t := After(decode, s.(offset := 0), Appended(base, views)); t.(offset := |base| + t.offset))
  {
    hide Visited, Consume, InUse;
    if views != [] {
      var front, f := views[..|views| - 1], views[|views| - 1];
      assert views == front + [f];
      InUseNext(decode, s.(offset := 0), base, front, f, grace);
      VisitsAreReads(decode, s, base, front, grace);
      AppendedNext(decode, s.(offset := 0), base, front, f);
      VisitReads(decode, After(decode, s.(offset := 0), Appended(base, front)), base, f, grace);
    }
  }

  /** The complete lines the ticks read after `base`, and one parse of them. */
  function NewLines(base: string, views: seq<View>): string {
    Complete(Appended(base, views))
  }

  function NewTail(decode: Decode, root: string, base: string, views: seq<View>): Tail {
    Scan(decode, Start(root), NewLines(base, views))
  }

  /** While the file is in use, whatever has gone before: the session is what one parse of the complete
      lines after its offset gives. */
  lemma FileInUseIsTailed(decode: Decode, s: Session, base: string, views: seq<View>, grace: int)
    requires InUse(base, views, grace) && s.offset == |base| && s.last >= 0
    ensures AsParsed(s, Visits(decode, s, views, grace), NewTail(decode, s.cwd, base, views),
                     |base| + |NewLines(base, views)|)
  {
    VisitsAreReads(decode, s, base, views, grace);
    AppendedGrows(base, views, grace);
    TailingEqualsBatch(decode, s.(offset := 0), Appended(base, views));
  }

  lemma {:induction false} VisitsSplit(decode: Decode, s: Session, f: View, views: seq<View>, grace: int)
    ensures Visits(decode, s, [f] + views, grace) == Visits(decode, Visited(decode, s, f, grace), views, grace)
  {
    var all := [f] + views;
    if views == [] {
      assert all == [f] && [f][..0] == [];
    } else {
      VisitsSplit(decode, s, f, views[..|views| - 1], grace);
      assert all[..|all| - 1] == [f] + views[..|views| - 1];
    }
  }

  /** A file found stale is passed over, whatever it holds: only what is appended to it later counts, as
      though the session had read everything before. */
  lemma StaleFileIsPassedOver(decode: Decode, s: Session, f: View, views: seq<View>, grace: int)
    requires f.age >= grace && InUse(f.content, views, grace) && s.last >= 0
    ensures AsParsed(s, Visits(decode, s, [f] + views, grace), NewTail(decode, s.cwd, f.content, views),
                     |f.content| + |NewLines(f.content, views)|)
  {
    VisitsSplit(decode, s, f, views, grace);
    FileInUseIsTailed(decode, s.(offset := |f.content|), f.content, views, grace);
  }

  /** A file that has shrunk below the offset is read again from its start. */
  lemma ShrunkFileIsReadAgain(decode: Decode, s: Session, views: seq<View>, grace: int)
    requires views != [] && |views[0].content| < s.offset && InUse("", views, grace) && s.last >= 0
    ensures AsParsed(s, Visits(decode, s, views, grace), NewTail(decode, s.cwd, "", views), |NewLines("", views)|)
  {
    assert views == [views[0]] + views[1..];
    VisitsSplit(decode, s, views[0], views[1..], grace);
    VisitsSplit(decode, s.(offset := 0), views[0], views[1..], grace);
    FileInUseIsTailed(decode, s.(offset := 0), "", views, grace);
  }

  /** A session begun by visiting has no negative last activity, as the lemmas above ask. */
  lemma {:induction false} LastIsNeverNegative(decode: Decode, views: seq<View>, grace: int)
    ensures Visits(decode, UNSEEN, views, grace).last >= 0
  {
    if views != [] { LastIsNeverNegative(decode, views[..|views| - 1], grace); }
  }

  /** So a rollout in use from its start is credited exactly as one parse of its complete lines says: until
      the grace after its newest entry, to its last command's directory, or else to its root, and only if
      some pattern covers that. */
  lemma FileInUseIsCredited(decode: Decode, views: seq<View>, now: int, grace: int, patterns: seq<string>)
    requires InUse("", views, grace)
    requires !ForgetsCommand(NewTail(decode, "", "", views))
    ensures var t := NewTail(decode, "", "", views);
            Credited(Visits(decode, UNSEEN, views, grace), now, grace, patterns)
            == var dir := if t.command != "" then t.command else t.session;
               if now - t.newest < grace && dir != "" && exists p :: p in patterns && LiveCwd(p, dir) then Some(dir)
               else None
  {
    FileInUseIsTailed(decode, UNSEEN, "", views, grace);
    RootIsSession(decode, "", Pieces(NewLines("", views)));
  }

  // ---------- what a parse says ----------

  predicate Says(decode: Decode, line: string) {
    line != "" && decode(line).Entry?
  }

  /** The last root named, or the one from before. */
  function RootNamed(decode: Decode, root: string, lines: seq<string>): string {
    if lines == [] then root
    else
      var line := lines[|lines| - 1];
      if Says(decode, line) && decode(line).root != "" then decode(line).root
      else RootNamed(decode, root, lines[..|lines| - 1])
  }

  /** The directory of the last command that did not run in the root in force. */
  function CommandNamed(decode: Decode, root: string, lines: seq<string>): string {
    if lines == [] then ""
    else
      var line := lines[|lines| - 1];
      if Says(decode, line) && decode(line).cmd.Some? && decode(line).cmd.value != RootNamed(decode, root, lines)
      then decode(line).cmd.value
      else CommandNamed(decode, root, lines[..|lines| - 1])
  }

  /** What a parse finds: the newest timestamp, the last root, and the last command's directory. */
  lemma {:induction false} ParseFinds(decode: Decode, root: string, lines: seq<string>)
    ensures var t := ScanLines(decode, Start(root), lines);
            && t.root == RootNamed(decode, root, lines) && t.session == RootNamed(decode, "", lines)
            && t.command == CommandNamed(decode, root, lines)
            && (t.ok <==> exists l :: l in lines && Says(decode, l))
            && (forall l :: l in lines && Says(decode, l) ==> decode(l).ts <= t.newest)
            && t.newest >= 0
            && (t.newest > 0 ==> exists l :: l in lines && Says(decode, l) && decode(l).ts == t.newest)
  {
    if lines != [] {
      var front, line := lines[..|lines| - 1], lines[|lines| - 1];
      ParseFinds(decode, root, front);
      assert forall l :: l in lines <==> l in front || l == line;
    }
  }

  // ---------- and the exception is exact ----------

  function LineByLine(content: string): Reads {
    if content == "" then []
    else LineByLine(content[..WholeLines(content[..|content| - 1])]) + [Some(content)]
  }

  lemma OneLine(decode: Decode, root: string, line: string)
    requires line != "" && line[|line| - 1] == '\n' && '\n' !in line[..|line| - 1]
    ensures var t := Scan(decode, Start(root), line); t.command == t.sticky
  {
    var body := line[..|line| - 1];
    assert line == body + "\n" + "";
    PiecesSplit(body, "");
    SplitNone(body, '\n');
    var lines := [body, ""];
    assert Pieces(line) == lines;
    assert lines[..1] == [body] && lines[..1][..0] == [];
    var t0 := ScanLines(decode, Start(root), lines[..1][..0]);
    assert ScanLines(decode, Start(root), lines[..1]) == LineStep(decode, t0, body);
  }

  lemma LineByLineStep(decode: Decode, content: string, done: string, s: Session)
    requires content != "" && EndsLine(content)
    requires done == content[..WholeLines(content[..|content| - 1])]
    requires s.offset == |done| && s.cwd == Scan(decode, Start(""), done).root
    requires s.cmd == Scan(decode, Start(""), done).sticky
    ensures Consume(decode, s, content).cmd == Scan(decode, Start(""), content).sticky
  {
    var line := content[|done|..];
    assert content == done + line && line[|line| - 1] == '\n';
    assert '\n' !in line[..|line| - 1] by {
      forall k | 0 <= k < |line| - 1 ensures line[k] != '\n' { assert line[k] == content[..|content| - 1][|done| + k]; }
    }
    assert line[..|line|] == line && WholeLines(line) == |line|;
    RootIsSession(decode, "", Pieces(done));
    OneLine(decode, s.cwd, line);
    ScanSplit(decode, Start(""), done, line);
    FreshContinues(decode, Scan(decode, Start(""), done), Pieces(line));
  }

  lemma {:induction false} LineByLineKeepsCommand(decode: Decode, content: string)
    requires EndsLine(content)
    ensures var rs := LineByLine(content);
            Growing(rs) && Latest(rs) == content
            && After(decode, UNSEEN, rs).cmd == Scan(decode, Start(""), content).sticky
  {
    if content == "" {
      assert Pieces("") == [""];
      assert ScanLines(decode, Start(""), [""][..0]) == Start("");
    } else {
      var done := content[..WholeLines(content[..|content| - 1])];
      LineByLineKeepsCommand(decode, done);
      var rs := LineByLine(content);
      assert rs[..|rs| - 1] == LineByLine(done);
      ReadsAgree(decode, UNSEEN, LineByLine(done));
      WholeLinesOfWhole(done);
      RootIsSession(decode, "", Pieces(done));
      LineByLineStep(decode, content, done, After(decode, UNSEEN, LineByLine(done)));
    }
  }

  lemma WholeLinesOfWhole(s: string)
    requires EndsLine(s)
    ensures WholeLines(s) == |s| && s[..|s|] == s
  {
  }

  /** For complete content: all ways of reading it agree with the batch parse iff that parse
      does not forget the command directory. */
  lemma AgreementIffNotForgotten(decode: Decode, content: string)
    requires EndsLine(content)
    ensures (forall rs :: Growing(rs) && Latest(rs) == content ==>
               After(decode, UNSEEN, rs).cmd == Scan(decode, Start(""), content).command)
            <==> !ForgetsCommand(Scan(decode, Start(""), content))
  {
    WholeLinesOfWhole(content);
    forall rs | Growing(rs) && Latest(rs) == content && !ForgetsCommand(Scan(decode, Start(""), content))
      ensures After(decode, UNSEEN, rs).cmd == Scan(decode, Start(""), content).command
    {
      TailingEqualsBatch(decode, UNSEEN, rs);
    }
    LineByLineKeepsCommand(decode, content);
  }

  /** Where no command decodes to the empty string, nothing is forgotten. */
  lemma {:induction false} NonEmptyCommandsAreKept(decode: Decode, lines: seq<string>)
    requires forall l :: l in lines && decode(l).Entry? ==> decode(l).cmd != Some("")
    ensures !ForgetsCommand(ScanLines(decode, Start(""), lines))
  {
    if lines != [] {
      var front := lines[..|lines| - 1];
      assert forall l :: l in front ==> l in lines;
      assert lines[|lines| - 1] in lines;
      NonEmptyCommandsAreKept(decode, front);
    }
  }
}
