/**
 The environment tree: medium, project, session. The two built-in mediums are built
 from the stored sessions; the ones the user added follow them.
 */
module MediaTree {
  import opened Base
  import opened Grouping
  import P = Projects

  datatype Kind = Local | Remote | Vm

  datatype MediaSession = MediaSession(id: string, path: string)
  datatype MediaProject = MediaProject(id: string, sessions: seq<MediaSession>)
  datatype MediaNode = MediaNode(kind: Kind, id: string, title: string, projects: seq<MediaProject>)

  datatype Meta = Meta(kind: Kind, id: string, title: string)

  const MEDIUM_META: seq<Meta> := [Meta(Local, "local", "Local"), Meta(Remote, "remote", "Remote (worker)")]

  // ---- The tree the sessions are meant to give ----

  function MediumKeyOf(s: P.Session): string {
    s.medium
  }

  function Itself(s: P.Session): P.Session {
    s
  }

  function OnMedium(sessions: seq<P.Session>, medium: string): seq<P.Session> {
    Picked(sessions, MediumKeyOf, Itself, medium)
  }

  /** A session as a leaf: its path is its project's directory. */
  function Leaf(projects: seq<P.Project>): P.Session -> MediaSession {
    (s: P.Session) => MediaSession(s.id, P.DirectoryOf(projects, P.ProjectOf(s)))
  }

  /** The projects of some sessions, in the order they first appear. */
  function FirstSeen(own: seq<P.Session>): seq<string> {
    if own == [] then []
    else
      var front, id := FirstSeen(own[..|own| - 1]), P.ProjectOf(own[|own| - 1]);
      if id in front then front else front + [id]
  }

  function Branch(projects: seq<P.Project>, own: seq<P.Session>, id: string): MediaProject {
    MediaProject(id, Picked(own, P.ProjectOf, Leaf(projects), id))
  }

  function Branches(projects: seq<P.Project>, own: seq<P.Session>): seq<MediaProject> {
    var ids := FirstSeen(own);
    seq(|ids|, i requires 0 <= i < |ids| => Branch(projects, own, ids[i]))
  }

  function NodeOf(projects: seq<P.Project>, sessions: seq<P.Session>, meta: Meta): MediaNode {
    MediaNode(meta.kind, meta.id, meta.title, Branches(projects, OnMedium(sessions, meta.id)))
  }

  /** The built-in part of the tree. */
  function Built(projects: seq<P.Project>, sessions: seq<P.Session>): seq<MediaNode> {
    [NodeOf(projects, sessions, MEDIUM_META[0]), NodeOf(projects, sessions, MEDIUM_META[1])]
  }

  lemma FirstSeenSnoc(own: seq<P.Session>, s: P.Session)
    ensures FirstSeen(own + [s])
         == if P.ProjectOf(s) in FirstSeen(own) then FirstSeen(own) else FirstSeen(own) + [P.ProjectOf(s)]
  {
    assert (own + [s])[..|own + [s]| - 1] == own;
  }

  lemma {:induction false} FirstSeenDistinct(own: seq<P.Session>)
    ensures Distinct(FirstSeen(own))
  {
    if own != [] {
      FirstSeenDistinct(own[..|own| - 1]);
    }
  }

  lemma {:induction false} InFirstSeen(own: seq<P.Session>, id: string)
    ensures id in FirstSeen(own) <==> exists s :: s in own && P.ProjectOf(s) == id
  {
    if own != [] {
      var front, last := own[..|own| - 1], own[|own| - 1];
      InFirstSeen(front, id);
      assert own == front + [last];
    }
  }

  /** Where a project first appears. */
  function FirstAt(own: seq<P.Session>, id: string): nat {
    if own == [] || P.ProjectOf(own[0]) == id then 0 else 1 + FirstAt(own[1..], id)
  }

  lemma {:induction false} FirstAtSnoc(own: seq<P.Session>, s: P.Session, id: string)
    ensures FirstAt(own + [s], id)
         == if FirstAt(own, id) < |own| || P.ProjectOf(s) == id then FirstAt(own, id) else |own| + 1
    ensures FirstAt(own, id) <= |own|
    ensures FirstAt(own, id) < |own| <==> exists x :: x in own && P.ProjectOf(x) == id
  {
    if own != [] {
      assert (own + [s])[1..] == own[1..] + [s];
      FirstAtSnoc(own[1..], s, id);
      assert own == [own[0]] + own[1..];
    }
  }

  /** Projects come in the order of their first sessions. */
  lemma {:induction false} FirstSeenInOrder(own: seq<P.Session>, a: nat, b: nat)
    requires a < b < |FirstSeen(own)|
    ensures FirstAt(own, FirstSeen(own)[a]) < FirstAt(own, FirstSeen(own)[b])
  {
    var front, last := own[..|own| - 1], own[|own| - 1];
    assert own == front + [last];
    var ids := FirstSeen(front);
    FirstSeenSnoc(front, last);
    FirstAtSnoc(front, last, ids[a]);
    InFirstSeen(front, ids[a]);
    FirstAtSnoc(front, last, FirstSeen(own)[b]);
    if b < |ids| {
      FirstSeenInOrder(front, a, b);
      InFirstSeen(front, ids[b]);
    } else {
      InFirstSeen(front, P.ProjectOf(last));
    }
  }

  // ---- The loops ----

  function FindProject(branches: seq<MediaProject>, id: string): (k: nat)
    ensures k <= |branches|
    ensures k < |branches| ==> branches[k].id == id
    ensures forall i :: 0 <= i < k ==> branches[i].id != id
  {
    if branches == [] || branches[0].id == id then 0
    else
      var k := FindProject(branches[1..], id);
      assert forall i :: 1 <= i < k + 1 ==> branches[i] == branches[1..][i - 1];
      k + 1
  }

  function AddLeaf(branches: seq<MediaProject>, id: string, leaf: MediaSession): seq<MediaProject> {
    var k := FindProject(branches, id);
    if k < |branches| then branches[k := branches[k].(sessions := branches[k].sessions + [leaf])]
    else branches + [MediaProject(id, [leaf])]
  }

  /** One turn of the inner loop. */
  lemma BranchesAdd(projects: seq<P.Project>, own: seq<P.Session>, s: P.Session)
    ensures Branches(projects, own + [s]) == AddLeaf(Branches(projects, own), P.ProjectOf(s), Leaf(projects)(s))
  {
    var id, leaf := P.ProjectOf(s), Leaf(projects)(s);
    var ids, before := FirstSeen(own), Branches(projects, own);
    FirstSeenSnoc(own, s);
    FirstSeenDistinct(own);
    InFirstSeen(own, id);
    var k := FindProject(before, id);
    assert k < |ids| ==> ids[k] == before[k].id;
    assert forall i :: 0 <= i < k ==> ids[i] == before[i].id;
    assert k < |ids| <==> id in ids;
    forall i | 0 <= i < |ids| ensures Branch(projects, own + [s], ids[i])
        == if i == k then MediaProject(id, before[k].sessions + [leaf]) else before[i] {
      PickedSnoc(own, s, P.ProjectOf, Leaf(projects), ids[i]);
    }
    if k == |ids| {
      PickedSnoc(own, s, P.ProjectOf, Leaf(projects), id);
      PickedNone(own, P.ProjectOf, Leaf(projects), id);
      assert Branch(projects, own + [s], id) == MediaProject(id, [leaf]);
    }
    var after, added := Branches(projects, own + [s]), AddLeaf(before, id, leaf);
    assert |after| == |added|;
    forall i | 0 <= i < |after| ensures after[i] == added[i] {
      assert i < |ids| ==> after[i] == Branch(projects, own + [s], ids[i]);
    }
  }

  lemma OnMediumSnoc(sessions: seq<P.Session>, s: P.Session, medium: string)
    ensures OnMedium(sessions + [s], medium)
         == if s.medium == medium then OnMedium(sessions, medium) + [s] else OnMedium(sessions, medium)
  {
    PickedSnoc(sessions, s, MediumKeyOf, Itself, medium);
  }

  method GroupByProject(projects: seq<P.Project>, sessions: seq<P.Session>, medium: string)
    returns (byProject: seq<MediaProject>)
    ensures byProject == Branches(projects, OnMedium(sessions, medium))
  {
    byProject := [];
    for i := 0 to |sessions|
      invariant byProject == Branches(projects, OnMedium(sessions[..i], medium))
    {
      var s := sessions[i];
      assert sessions[..i + 1] == sessions[..i] + [s];
      OnMediumSnoc(sessions[..i], s, medium);
      if s.medium == medium {
        BranchesAdd(projects, OnMedium(sessions[..i], medium), s);
        var pid := P.ProjectOf(s);
        var leaf := MediaSession(s.id, P.DirectoryOf(projects, pid));
        var k := FindProject(byProject, pid);
        if k < |byProject| {
          byProject := byProject[k := byProject[k].(sessions := byProject[k].sessions + [leaf])];
        } else {
          byProject := byProject + [MediaProject(pid, [leaf])];
        }
      }
    }
    assert sessions[..|sessions|] == sessions;
  }

  method BuildFromBackend(projects: seq<P.Project>, sessions: seq<P.Session>) returns (nodes: seq<MediaNode>)
    ensures nodes == Built(projects, sessions)
  {
    nodes := [];
    for i := 0 to |MEDIUM_META|
      invariant nodes == Built(projects, sessions)[..i]
    {
      var byProject := GroupByProject(projects, sessions, MEDIUM_META[i].id);
      nodes := nodes + [MediaNode(MEDIUM_META[i].kind, MEDIUM_META[i].id, MEDIUM_META[i].title, byProject)];
    }
  }

  // ---- What the tree holds ----

  function BranchIds(branches: seq<MediaProject>): seq<string> {
    seq(|branches|, i requires 0 <= i < |branches| => branches[i].id)
  }

  function NodeIds(nodes: seq<MediaNode>): seq<string> {
    seq(|nodes|, i requires 0 <= i < |nodes| => nodes[i].id)
  }

  function LeavesOf(branches: seq<MediaProject>): seq<MediaSession> {
    if branches == [] then [] else LeavesOf(branches[..|branches| - 1]) + branches[|branches| - 1].sessions
  }

  /** A medium's projects: no id twice, none empty, exactly those of its sessions. */
  lemma BranchesAreProjects(projects: seq<P.Project>, own: seq<P.Session>)
    ensures Distinct(BranchIds(Branches(projects, own)))
    ensures forall id :: id in BranchIds(Branches(projects, own)) <==> exists s :: s in own && P.ProjectOf(s) == id
    ensures forall b :: b in Branches(projects, own) ==> b.sessions != []
  {
    FirstSeenDistinct(own);
    assert BranchIds(Branches(projects, own)) == FirstSeen(own);
    forall id ensures id in FirstSeen(own) <==> exists s :: s in own && P.ProjectOf(s) == id {
      InFirstSeen(own, id);
    }
    forall b | b in Branches(projects, own) ensures b.sessions != [] {
      assert b.id in FirstSeen(own);
      var s :| s in own && P.ProjectOf(s) == b.id;
      InPicked(own, P.ProjectOf, Leaf(projects), b.id, Leaf(projects)(s));
    }
  }

  lemma {:induction false} LeavesAreGathered(projects: seq<P.Project>, own: seq<P.Session>, ids: seq<string>)
    ensures LeavesOf(seq(|ids|, i requires 0 <= i < |ids| => Branch(projects, own, ids[i])))
         == Gathered(ids, own, P.ProjectOf, Leaf(projects))
  {
    if ids != [] {
      var front := ids[..|ids| - 1];
      LeavesAreGathered(projects, own, front);
      var all := seq(|ids|, i requires 0 <= i < |ids| => Branch(projects, own, ids[i]));
      assert all[..|all| - 1] == seq(|front|, i requires 0 <= i < |front| => Branch(projects, own, front[i]));
    }
  }

  /** Every session on a medium is a leaf of it, once; nothing else is. */
  lemma EveryLeafOnce(projects: seq<P.Project>, sessions: seq<P.Session>, medium: string)
    ensures var own := OnMedium(sessions, medium);
            multiset(LeavesOf(Branches(projects, own))) == multiset(Shown(own, Leaf(projects)))
  {
    var own := OnMedium(sessions, medium);
    FirstSeenDistinct(own);
    LeavesAreGathered(projects, own, FirstSeen(own));
    forall s | s in own ensures P.ProjectOf(s) in FirstSeen(own) {
      InFirstSeen(own, P.ProjectOf(s));
    }
    GatheredAll(FirstSeen(own), own, P.ProjectOf, Leaf(projects));
  }

  predicate HasSession(b: MediaProject, session: string) {
    exists leaf :: leaf in b.sessions && leaf.id == session
  }

  /** The tree holds this session at this place. */
  predicate At(nodes: seq<MediaNode>, medium: string, project: string, session: string) {
    exists n, b :: n in nodes && n.id == medium && b in n.projects && b.id == project && HasSession(b, session)
  }

  /** A place in the built-in tree is the place of a stored session, and the other
      way round. */
  lemma BuiltAt(projects: seq<P.Project>, sessions: seq<P.Session>, medium: string, project: string, session: string)
    requires medium in {"local", "remote"}
    ensures At(Built(projects, sessions), medium, project, session)
       <==> exists s :: s in sessions && s.medium == medium && P.ProjectOf(s) == project && s.id == session
  {
    var own := OnMedium(sessions, medium);
    var nodes := Built(projects, sessions);
    var node := if medium == "local" then nodes[0] else nodes[1];
    assert node in nodes && node.projects == Branches(projects, own) && node.id == medium;
    assert forall n :: n in nodes && n.id == medium ==> n == node;
    BranchHolds(projects, own, project, session);
    forall s: P.Session ensures s in own <==> s in sessions && s.medium == medium {
      InPicked(sessions, MediumKeyOf, Itself, medium, s);
    }
  }

  lemma BranchHolds(projects: seq<P.Project>, own: seq<P.Session>, project: string, session: string)
    ensures (exists b :: b in Branches(projects, own) && b.id == project && HasSession(b, session))
       <==> exists s :: s in own && P.ProjectOf(s) == project && s.id == session
  {
    var branches := Branches(projects, own);
    if b :| b in branches && b.id == project && HasSession(b, session) {
      var leaf :| leaf in b.sessions && leaf.id == session;
      InPicked(own, P.ProjectOf, Leaf(projects), project, leaf);
    }
    if s :| s in own && P.ProjectOf(s) == project && s.id == session {
      InFirstSeen(own, project);
      var k :| 0 <= k < |FirstSeen(own)| && FirstSeen(own)[k] == project;
      InPicked(own, P.ProjectOf, Leaf(projects), project, Leaf(projects)(s));
      assert branches[k] in branches && HasSession(branches[k], session);
    }
  }

  /** What the built tree shows: two environments, and each session under its project with
      the directory that project is stored with. */
  lemma BuiltShows(projects: seq<P.Project>, sessions: seq<P.Session>, k: nat, b: MediaProject, leaf: MediaSession)
    requires k < 2 && b in Built(projects, sessions)[k].projects && leaf in b.sessions
    ensures Built(projects, sessions)[k].id == (if k == 0 then "local" else "remote")
    ensures Built(projects, sessions)[k].kind == (if k == 0 then Local else Remote)
    ensures P.DirectoryShown(projects, b.id, leaf.path)
    ensures exists s :: s in sessions && s.id == leaf.id && s.medium == Built(projects, sessions)[k].id
                        && b.id == if s.project == "" then "default" else s.project
  {
    var medium := if k == 0 then "local" else "remote";
    var own := OnMedium(sessions, medium);
    InPicked(own, P.ProjectOf, Leaf(projects), b.id, leaf);
    var s :| s in own && P.ProjectOf(s) == b.id && Leaf(projects)(s) == leaf;
    InPicked(sessions, MediumKeyOf, Itself, medium, s);
    P.DirectoryOfShows(projects, b.id);
  }

  // ---- Finding a session ----

  function ProjectHolding(branches: seq<MediaProject>, session: string): Option<string> {
    if branches == [] then None
    else if HasSession(branches[0], session) then Some(branches[0].id)
    else ProjectHolding(branches[1..], session)
  }

  /** The first place, in display order, that holds the session. */
  function SessionLocation(nodes: seq<MediaNode>, session: string): Option<(string, string)> {
    if nodes == [] then None
    else
      match ProjectHolding(nodes[0].projects, session)
      case Some(project) => Some((nodes[0].id, project))
      case None => SessionLocation(nodes[1..], session)
  }

  lemma {:induction false} HoldingIsThere(branches: seq<MediaProject>, session: string)
    ensures ProjectHolding(branches, session).None? <==> forall b :: b in branches ==> !HasSession(b, session)
    ensures ProjectHolding(branches, session).Some? ==>
            exists b :: b in branches && b.id == ProjectHolding(branches, session).value && HasSession(b, session)
  {
    if branches != [] {
      HoldingIsThere(branches[1..], session);
      assert branches == [branches[0]] + branches[1..];
    }
  }

  /** A location is a place the tree holds the session at, and a session at any
      place has one. */
  lemma {:induction false} LocationIsThere(nodes: seq<MediaNode>, session: string)
    ensures var at := SessionLocation(nodes, session);
            && (at.Some? ==> At(nodes, at.value.0, at.value.1, session))
            && (at.None? ==> forall medium, project :: !At(nodes, medium, project, session))
  {
    if nodes != [] {
      LocationIsThere(nodes[1..], session);
      HoldingIsThere(nodes[0].projects, session);
      assert nodes == [nodes[0]] + nodes[1..];
      forall medium, project | At(nodes, medium, project, session) && ProjectHolding(nodes[0].projects, session).None?
        ensures At(nodes[1..], medium, project, session)
      {
      }
    }
  }

  lemma {:induction false} LocationInFront(nodes: seq<MediaNode>, more: seq<MediaNode>, session: string)
    requires SessionLocation(nodes, session).Some?
    ensures SessionLocation(nodes + more, session) == SessionLocation(nodes, session)
  {
    assert (nodes + more)[1..] == nodes[1..] + more;
    if ProjectHolding(nodes[0].projects, session).None? {
      LocationInFront(nodes[1..], more, session);
    }
  }

  predicate BuiltIn(medium: string) {
    medium == "local" || medium == "remote"
  }

  /** With session ids that differ, a stored session is found under its own medium
      and project, whatever environments the user added. */
  lemma LocationIsTheSessions(projects: seq<P.Project>, sessions: seq<P.Session>, added: seq<MediaNode>, s: P.Session)
    requires s in sessions && BuiltIn(s.medium)
    requires forall x :: x in sessions && BuiltIn(x.medium) && x.id == s.id ==> x == s
    ensures SessionLocation(Built(projects, sessions) + added, s.id) == Some((s.medium, P.ProjectOf(s)))
  {
    var nodes := Built(projects, sessions);
    BuiltAt(projects, sessions, s.medium, P.ProjectOf(s), s.id);
    LocationIsThere(nodes, s.id);
    LocationInFront(nodes, added, s.id);
    var at := SessionLocation(nodes, s.id).value;
    assert BuiltIn(at.0);
    BuiltAt(projects, sessions, at.0, at.1, s.id);
  }
}
