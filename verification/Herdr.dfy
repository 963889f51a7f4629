/** The herdr resolver: a cached parse of session.json that fails closed. */
module Herdr {
  import opened Options
  import Agents

  /** A workspace of the file, with the session values of its panes in file order. */
  datatype Entry = Entry(id: string, name: string, sessions: seq<string>)

  /** session.json as one call finds it; a broken file cannot be read or parsed. */
  datatype File =
    | Missing
    | Broken(mtime: int, size: nat)
    | Valid(mtime: int, size: nat, entries: seq<Entry>)

  /** `modTime` is absent for the zero time. `spaces` maps ids to names, `sessions` maps uuids to ids. */
  datatype State = State(modTime: Option<int>, size: nat, loaded: bool, warned: bool,
                         spaces: map<string, string>, sessions: map<string, string>)

  const FRESH := State(None, 0, false, false, map[], map[])
  const FAILED := State(None, 0, true, true, map[], map[])

  function SpacesOf(entries: seq<Entry>): map<string, string> {
    if entries == [] then map[]
    else
      var m, e := SpacesOf(entries[..|entries| - 1]), entries[|entries| - 1];
      if e.id == "" then m else m[e.id := e.name]
  }

  function Bind(m: map<string, string>, sessions: seq<string>, id: string): map<string, string> {
    if sessions == [] then m
    else
      var m', s := Bind(m, sessions[..|sessions| - 1], id), sessions[|sessions| - 1];
      if s == "" then m' else m'[s := id]
  }

  function Learn(m: map<string, string>, entries: seq<Entry>): map<string, string> {
    if entries == [] then m
    else
      var m', e := Learn(m, entries[..|entries| - 1]), entries[|entries| - 1];
      if e.id == "" then m' else Bind(m', e.sessions, e.id)
  }

  predicate Unchanged(s: State, f: File)
    requires !f.Missing?
  {
    s.loaded && !s.warned && s.modTime == Some(f.mtime) && s.size == f.size
  }

  function Reloaded(s: State, f: File): State {
    if f.Missing? then FAILED
    else if Unchanged(s, f) then s
    else if f.Broken? then FAILED
    else State(Some(f.mtime), f.size, true, false, SpacesOf(f.entries), Learn(s.sessions, f.entries))
  }

  datatype Space = Space(id: string, name: string)

  function PaneAnswer(s: State, pane: string): Option<Space> {
    match Agents.SpaceForPane(s.spaces.Keys, pane)
    case None => None
    case Some(id) => Some(Space(id, s.spaces[id]))
  }

  function SessionAnswer(s: State, uuid: string): Option<Space> {
    if uuid != "" && uuid in s.sessions && s.sessions[uuid] in s.spaces
    then Some(Space(s.sessions[uuid], s.spaces[s.sessions[uuid]]))
    else None
  }

  class Resolver {
    var modTime: Option<int>
    var size: nat
    var loaded: bool
    var warned: bool
    var spaces: map<string, string>
    var sessions: map<string, string>

    constructor ()
      ensures Abs() == FRESH
    {
      modTime, size, loaded, warned, spaces, sessions := None, 0, false, false, map[], map[];
    }

    function Abs(): State
      reads this
    {
      State(modTime, size, loaded, warned, spaces, sessions)
    }

    method FailClosed()
      modifies this
      ensures Abs() == FAILED
    {
      spaces, sessions, loaded, modTime, size := map[], map[], true, None, 0;
      if !warned { warned := true; }
    }

    method Reload(f: File)
      modifies this
      ensures Abs() == Reloaded(old(Abs()), f)
    {
      if f.Missing? { FailClosed(); return; }
      if loaded && !warned && modTime == Some(f.mtime) && size == f.size { return; }
      if f.Broken? { FailClosed(); return; }
      var sp: map<string, string> := map[];
      var se := sessions;
      for i := 0 to |f.entries|
        invariant sp == SpacesOf(f.entries[..i]) && se == Learn(sessions, f.entries[..i])
      {
        assert f.entries[..i + 1][..i] == f.entries[..i];
        var e := f.entries[i];
        if e.id != "" {
          sp := sp[e.id := e.name];
          ghost var before := se;
          for k := 0 to |e.sessions|
            invariant se == Bind(before, e.sessions[..k], e.id)
          {
            assert e.sessions[..k + 1][..k] == e.sessions[..k];
            if e.sessions[k] != "" { se := se[e.sessions[k] := e.id]; }
          }
          assert e.sessions[..|e.sessions|] == e.sessions;
        }
      }
      assert f.entries[..|f.entries|] == f.entries;
      spaces, sessions, modTime, size, loaded, warned := sp, se, Some(f.mtime), f.size, true, false;
    }

    method SpaceForPane(pane: string, f: File) returns (r: Option<Space>)
      modifies this
      ensures pane == "" || Agents.Workspace(pane) == "" ==> r == None && Abs() == old(Abs())
      ensures pane != "" && Agents.Workspace(pane) != "" ==>
                Abs() == Reloaded(old(Abs()), f) && r == PaneAnswer(Abs(), pane)
    {
      var id := Agents.Workspace(pane);
      if pane == "" || id == "" { return None; }
      Reload(f);
      return if id in spaces then Some(Space(id, spaces[id])) else None;
    }

    method SpaceForSession(uuid: string, f: File) returns (r: Option<Space>)
      modifies this
      ensures uuid == "" ==> r == None && Abs() == old(Abs())
      ensures uuid != "" ==> Abs() == Reloaded(old(Abs()), f) && r == SessionAnswer(Abs(), uuid)
    {
      if uuid == "" { return None; }
      Reload(f);
      if uuid !in sessions || sessions[uuid] !in spaces { return None; }
      return Some(Space(sessions[uuid], spaces[sessions[uuid]]));
    }
  }

  // ---------- runs: the file as successive calls find it ----------

  function After(h: seq<File>): State {
    if h == [] then FRESH else Reloaded(After(h[..|h| - 1]), h[|h| - 1])
  }

  /** The workspace an entry list gives a session: the last one naming it. */
  function NamedIn(entries: seq<Entry>, uuid: string): Option<string> {
    if entries == [] then None
    else
      var e := entries[|entries| - 1];
      if e.id != "" && uuid in e.sessions then Some(e.id) else NamedIn(entries[..|entries| - 1], uuid)
  }

  /** The newest valid version naming the session, looking back no further than the last failure. */
  function LatestBinding(h: seq<File>, uuid: string): Option<string> {
    if h == [] || !h[|h| - 1].Valid? then None
    else
      var here := NamedIn(h[|h| - 1].entries, uuid);
      if here.Some? then here else LatestBinding(h[..|h| - 1], uuid)
  }

  function CurrentSpaces(h: seq<File>): map<string, string> {
    if h == [] || !h[|h| - 1].Valid? then map[] else SpacesOf(h[|h| - 1].entries)
  }

  predicate SameStamp(a: File, b: File) {
    a.Valid? && !b.Missing? && b.mtime == a.mtime && b.size == a.size
  }

  /** What the resolver takes `f` for, after those it has seen. */
  function TakenFor(seen: seq<File>, f: File): File {
    if seen != [] && SameStamp(seen[|seen| - 1], f) then seen[|seen| - 1] else f
  }

  /** The history as the resolver sees it: a file under the time and size of the version in force is
      taken for that version, whatever it holds. */
  function Seen(h: seq<File>): (r: seq<File>)
    ensures |r| == |h|
  {
    if h == [] then []
    else
      var front := Seen(h[..|h| - 1]);
      front + [TakenFor(front, h[|h| - 1])]
  }

  /** A file that keeps the time and size of the valid version before it is that version. */
  predicate StampsFaithful(h: seq<File>) {
    forall i :: 0 < i < |h| && SameStamp(h[i - 1], h[i]) ==> h[i] == h[i - 1]
  }

  lemma FaithfulFront(h: seq<File>)
    requires h != [] && StampsFaithful(h)
    ensures StampsFaithful(h[..|h| - 1]) && TakenFor(h[..|h| - 1], h[|h| - 1]) == h[|h| - 1]
  {
  }

  lemma {:induction false} FaithfulIsSeen(h: seq<File>)
    requires StampsFaithful(h)
    ensures Seen(h) == h
  {
    if h != [] {
      FaithfulFront(h);
      FaithfulIsSeen(h[..|h| - 1]);
      assert h == h[..|h| - 1] + [h[|h| - 1]];
    }
  }

  function LookupIn(m: map<string, string>, k: string): Option<string> {
    if k in m then Some(m[k]) else None
  }

  /** A workspace is known iff it is listed under a non-empty id, by the name it was last listed with. */
  lemma SpacesAreListed(entries: seq<Entry>, id: string)
    ensures id in SpacesOf(entries) <==> id != "" && exists e :: e in entries && e.id == id
    ensures id in SpacesOf(entries) ==>
              exists k :: 0 <= k < |entries| && entries[k].id == id && entries[k].name == SpacesOf(entries)[id]
                          && forall j :: k < j < |entries| ==> entries[j].id != id
  {
    SpacesHaveEntries(entries, id);
    if id in SpacesOf(entries) {
      var k := LastNamed(entries, id);
    }
  }

  lemma {:induction false} SpacesHaveEntries(entries: seq<Entry>, id: string)
    ensures id in SpacesOf(entries) <==> id != "" && exists e :: e in entries && e.id == id
  {
    if entries != [] {
      var front, e := entries[..|entries| - 1], entries[|entries| - 1];
      SpacesHaveEntries(front, id);
      assert forall x :: x in entries <==> x in front || x == e;
    }
  }

  lemma {:induction false} LastNamed(entries: seq<Entry>, id: string) returns (k: nat)
    requires id in SpacesOf(entries)
    ensures k < |entries| && entries[k].id == id && entries[k].name == SpacesOf(entries)[id]
    ensures forall j :: k < j < |entries| ==> entries[j].id != id
  {
    var front := entries[..|entries| - 1];
    SpacesHaveEntries(entries, id);
    k := |front|;
    if entries[k].id != id {
      k := LastNamed(front, id);
      assert forall j :: 0 <= j < |front| ==> entries[j] == front[j];
    }
  }

  lemma {:induction false} BindLookup(m: map<string, string>, sessions: seq<string>, id: string, uuid: string)
    requires uuid != ""
    ensures LookupIn(Bind(m, sessions, id), uuid) == if uuid in sessions then Some(id) else LookupIn(m, uuid)
  {
    if sessions != [] {
      BindLookup(m, sessions[..|sessions| - 1], id, uuid);
      assert sessions == sessions[..|sessions| - 1] + [sessions[|sessions| - 1]];
    }
  }

  lemma {:induction false} LearnLookup(m: map<string, string>, entries: seq<Entry>, uuid: string)
    requires uuid != ""
    ensures LookupIn(Learn(m, entries), uuid) ==
            if NamedIn(entries, uuid).Some? then NamedIn(entries, uuid) else LookupIn(m, uuid)
  {
    if entries != [] {
      var front, e := entries[..|entries| - 1], entries[|entries| - 1];
      LearnLookup(m, front, uuid);
      BindLookup(Learn(m, front), e.sessions, e.id, uuid);
    }
  }

  ghost predicate Tracks(h: seq<File>, s: State) {
    && s.spaces == CurrentSpaces(h)
    && (forall u :: u != "" ==> LookupIn(s.sessions, u) == LatestBinding(h, u))
    && (h == [] ==> s == FRESH)
    && (h != [] && !h[|h| - 1].Valid? ==> s == FAILED)
    && (h != [] && h[|h| - 1].Valid? ==>
          s.loaded && !s.warned && s.modTime == Some(h[|h| - 1].mtime) && s.size == h[|h| - 1].size)
  }

  /** After every sequence of file states the resolver's maps are those of the history as seen. */
  lemma {:induction false} StateTracks(h: seq<File>)
    ensures Tracks(Seen(h), After(h))
  {
    if h != [] {
      var front, f := h[..|h| - 1], h[|h| - 1];
      StateTracks(front);
      var s, seen := After(front), Seen(h);
      assert seen[..|seen| - 1] == Seen(front);
      if !f.Missing? && Unchanged(s, f) {
        assert Seen(front)[|Seen(front)| - 1].Valid? && seen[|seen| - 1] == Seen(front)[|Seen(front)| - 1];
        forall u | u != "" ensures LatestBinding(seen, u) == LatestBinding(Seen(front), u) {}
      } else {
        assert seen[|seen| - 1] == f;
        if f.Valid? {
          forall u | u != "" ensures LookupIn(After(h).sessions, u) == LatestBinding(seen, u) {
            LearnLookup(s.sessions, f.entries, u);
          }
        }
      }
    }
  }

  /** Whatever the file went through, a session resolves to the workspace given by the newest
      valid version naming it since the last failure, if that workspace is in the current file;
      a pane resolves to its workspace if that is in the current file; after a failure nothing does.
      Versions and current file are those seen, which are those written if stamps are faithful. */
  lemma AnswersAreAFold(h: seq<File>, uuid: string, pane: string)
    ensures var g := Seen(h);
            SessionAnswer(After(h), uuid) ==
            (if uuid != "" && LatestBinding(g, uuid).Some? && LatestBinding(g, uuid).value in CurrentSpaces(g)
             then Some(Space(LatestBinding(g, uuid).value, CurrentSpaces(g)[LatestBinding(g, uuid).value]))
             else None)
    ensures PaneAnswer(After(h), pane) ==
            (match Agents.SpaceForPane(CurrentSpaces(Seen(h)).Keys, pane)
             case None => None
             case Some(id) => Some(Space(id, CurrentSpaces(Seen(h))[id])))
    ensures h == [] || !Seen(h)[|h| - 1].Valid? ==>
              SessionAnswer(After(h), uuid) == None && PaneAnswer(After(h), pane) == None
    ensures StampsFaithful(h) ==> Seen(h) == h
  {
    StateTracks(h);
    if uuid != "" { assert LookupIn(After(h).sessions, uuid) == LatestBinding(Seen(h), uuid); }
    if StampsFaithful(h) { FaithfulIsSeen(h); }
  }

  lemma SeenSnoc(h: seq<File>, f: File)
    ensures Seen(h + [f]) == Seen(h) + [TakenFor(Seen(h), f)]
  {
    assert (h + [f])[..|h|] == h;
  }

  /** A session that rotated out of the file keeps resolving while its workspace is listed. */
  lemma RotationKeepsBinding(h: seq<File>, f: File, uuid: string)
    requires h != [] && f.Valid? && uuid != "" && NamedIn(f.entries, uuid).None?
    requires SessionAnswer(After(h), uuid).Some? && SessionAnswer(After(h), uuid).value.id in SpacesOf(f.entries)
    ensures SessionAnswer(After(h + [f]), uuid).Some?
            && SessionAnswer(After(h + [f]), uuid).value.id == SessionAnswer(After(h), uuid).value.id
  {
    var g := h + [f];
    assert g[..|h|] == h;
    SeenSnoc(h, f);
    assert Seen(g)[..|h|] == Seen(h);
    AnswersAreAFold(h, uuid, "");
    AnswersAreAFold(g, uuid, "");
  }

  /** A file written under the stamp of the version in force changes nothing, whatever it holds; its
      answers are served iff they are those of the version in force. */
  lemma SameStampServesOldFile(h: seq<File>, f: File)
    requires h != [] && SameStamp(Seen(h)[|h| - 1], f)
    ensures After(h + [f]) == After(h)
  {
    assert (h + [f])[..|h|] == h;
    StateTracks(h);
  }

  lemma OneVersion(f: File)
    requires f.Valid?
    ensures Seen([f]) == [f] && After([f]) == Reloaded(FRESH, f)
  {
    assert [f][..0] == [];
  }

  lemma TwoEntries(es: seq<Entry>, u: string)
    requires |es| == 2 && es[0].id != "" && es[1].id != "" && es[0].id != es[1].id && u != ""
    ensures SpacesOf(es) == map[es[0].id := es[0].name, es[1].id := es[1].name]
    ensures LookupIn(Learn(map[], es), u) ==
              if u in es[1].sessions then Some(es[1].id) else if u in es[0].sessions then Some(es[0].id) else None
  {
    assert es[..1] == [es[0]] && es[..1][..0] == [];
    assert SpacesOf(es[..1]) == map[es[0].id := es[0].name];
    assert NamedIn(es[..1], u) == if u in es[0].sessions then Some(es[0].id) else NamedIn(es[..1][..0], u);
    LearnLookup(map[], es, u);
  }

  const BEFORE_MOVE := [Entry("x", "X", ["u"]), Entry("y", "Y", [])]
  const AFTER_MOVE := [Entry("x", "X", []), Entry("y", "Y", ["u"])]

  /** A session moved from one workspace to another under an unmoved stamp is answered wrongly. */
  lemma MovedSessionAnsweredWrongly()
    ensures SessionAnswer(After([Valid(1, 9, BEFORE_MOVE), Valid(1, 9, AFTER_MOVE)]), "u") == Some(Space("x", "X"))
    ensures SessionAnswer(After([Valid(2, 9, AFTER_MOVE)]), "u") == Some(Space("y", "Y"))
  {
    var f, g, h := Valid(1, 9, BEFORE_MOVE), Valid(1, 9, AFTER_MOVE), Valid(2, 9, AFTER_MOVE);
    OneVersion(f);
    OneVersion(h);
    assert [f] + [g] == [f, g];
    SameStampServesOldFile([f], g);
    TwoEntries(BEFORE_MOVE, "u");
    TwoEntries(AFTER_MOVE, "u");
  }
}
