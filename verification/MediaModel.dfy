/**
 The environment state: the tree, what is selected in it, which branches are
 expanded, and the environments the user added, as a value with its operations.
 */
module MediaModel {
  import opened Base
  import opened MediaTree
  import opened MediaKeys
  import opened MediumNames
  import P = Projects

  /** An environment the user added, as it is stored. */
  datatype Custom = Custom(id: string, title: string)

  datatype Media = Media(mediums: seq<MediaNode>, selectedMedium: string, selectedProject: string,
                         selectedSession: string, expanded: seq<string>, custom: seq<Custom>)

  /** What the backend holds: `stored` are the environments last persisted. */
  datatype Store = Store(projects: seq<P.Project>, sessions: seq<P.Session>, stored: seq<Custom>)

  function DefaultProjectFor(medium: string): string {
    if medium == "local" then "default" else if medium == "remote" then "remote" else "default"
  }

  function CustomNode(c: Custom): MediaNode {
    MediaNode(Vm, c.id, c.title, [MediaProject("default", [MediaSession("s-" + c.id, "/workspace/" + c.id)])])
  }

  /** A node for each environment that the tree does not hold yet. */
  function WithCustoms(nodes: seq<MediaNode>, custom: seq<Custom>): seq<MediaNode> {
    if custom == [] then nodes
    else
      var front, last := WithCustoms(nodes, custom[..|custom| - 1]), custom[|custom| - 1];
      if HasMedium(front, last.id) then front else front + [CustomNode(last)]
  }

  function FindNode(nodes: seq<MediaNode>, medium: string): Option<MediaNode> {
    if nodes == [] then None else if nodes[0].id == medium then Some(nodes[0]) else FindNode(nodes[1..], medium)
  }

  function FindBranch(branches: seq<MediaProject>, project: string): Option<MediaProject> {
    if branches == [] then None
    else if branches[0].id == project then Some(branches[0]) else FindBranch(branches[1..], project)
  }

  /** The first such medium's first such project holds the session. */
  predicate SessionExists(nodes: seq<MediaNode>, medium: string, project: string, session: string) {
    match FindNode(nodes, medium)
    case None => false
    case Some(n) =>
      match FindBranch(n.projects, project)
      case None => false
      case Some(b) => HasSession(b, session)
  }

  function Reconciled(m: Media): Media {
    if !HasMedium(m.mediums, m.selectedMedium)
    then m.(selectedMedium := "local", selectedProject := DefaultProjectFor("local"), selectedSession := "")
    else if !SessionExists(m.mediums, m.selectedMedium, m.selectedProject, m.selectedSession) && m.selectedSession != ""
    then m.(selectedSession := "")
    else m
  }

  function Resolving(nodes: seq<MediaNode>, keys: seq<string>): seq<string> {
    if keys == [] then []
    else Resolving(nodes, keys[..|keys| - 1]) + if KeyExists(nodes, keys[|keys| - 1]) then [keys[|keys| - 1]] else []
  }

  function Refreshed(m: Media, store: Store): Media {
    var nodes := WithCustoms(Built(store.projects, store.sessions), store.stored);
    Reconciled(m.(mediums := nodes, custom := store.stored, expanded := Resolving(nodes, m.expanded)))
  }

  function FromDesktop(store: Store): Media {
    Reconciled(Media(WithCustoms(Built(store.projects, store.sessions), store.stored), "local", DefaultProjectFor("local"),
                     "", [MediumKey("local")], store.stored))
  }

  function Without(keys: seq<string>, key: string): seq<string> {
    if keys == [] then []
    else Without(keys[..|keys| - 1], key) + if keys[|keys| - 1] == key then [] else [keys[|keys| - 1]]
  }

  function Toggled(m: Media, key: string): Media {
    m.(expanded := if key in m.expanded then Without(m.expanded, key) else m.expanded + [key])
  }

  function Expand(keys: seq<string>, key: string): seq<string> {
    if key in keys then keys else keys + [key]
  }

  function SelectSession(m: Media, medium: string, project: string, session: string): Media {
    if !SessionExists(m.mediums, medium, project, session) then m
    else m.(selectedMedium := medium, selectedProject := project, selectedSession := session,
            expanded := Expand(Expand(m.expanded, MediumKey(medium)), ProjectKey(medium, project)))
  }

  function SelectMedium(m: Media, medium: string): Media {
    if !HasMedium(m.mediums, medium) then m
    else m.(selectedMedium := medium, selectedProject := DefaultProjectFor(medium), selectedSession := "",
            expanded := Expand(m.expanded, MediumKey(medium)))
  }

  function AddMedium(m: Media, c: Custom): Media {
    if HasMedium(m.mediums, c.id) then m
    else m.(mediums := m.mediums + [CustomNode(c)], custom := m.custom + [c])
  }

  /** The id a new environment gets. */
  function NewId(m: Media, title: string, other: char -> bool): string {
    FirstFree(MediumId(title, other), NodeIds(m.mediums), 0)
  }

  /** Add an environment by its label and select it; a blank label adds nothing. */
  function OnAdd(m: Media, input: string, other: char -> bool): Media {
    var title := Trim(input);
    if title == "" then m
    else
      var c := Custom(NewId(m, title, other), title);
      SelectMedium(AddMedium(m, c), c.id)
  }

  // ---- Runs ----

  datatype World = World(media: Media, store: Store)

  /** `persists`: the store accepts the write. `configured`: remote has a worker. */
  datatype Event =
    | Refresh
    | Backend(projects: seq<P.Project>, sessions: seq<P.Session>)
    | PickSession(medium: string, project: string, session: string)
    | PickMedium(medium: string, configured: bool)
    | Add(input: string, persists: bool)
    | Toggle(key: string)

  function Next(w: World, e: Event, other: char -> bool): World {
    match e
    case Refresh => w.(media := Refreshed(w.media, w.store))
    case Backend(projects, sessions) => w.(store := w.store.(projects := projects, sessions := sessions))
    case PickSession(medium, project, session) => w.(media := SelectSession(w.media, medium, project, session))
    case PickMedium(medium, configured) =>
      if medium == "remote" && !configured then w else w.(media := SelectMedium(w.media, medium))
    case Add(input, persists) =>
      var media := OnAdd(w.media, input, other);
      World(media, if Trim(input) != "" && persists then w.store.(stored := media.custom) else w.store)
    case Toggle(key) => w.(media := Toggled(w.media, key))
  }

  function Run(w: World, events: seq<Event>, other: char -> bool): World {
    if events == [] then w else Next(Run(w, events[..|events| - 1], other), events[|events| - 1], other)
  }

  // ---- The invariant ----

  /** The built-in mediums are there, no medium and no project of one twice. */
  ghost predicate TreeOk(nodes: seq<MediaNode>) {
    && HasMedium(nodes, "local") && HasMedium(nodes, "remote")
    && Distinct(NodeIds(nodes))
    && forall n :: n in nodes ==> Distinct(BranchIds(n.projects))
  }

  predicate Held(nodes: seq<MediaNode>, custom: seq<Custom>) {
    forall c :: c in custom ==> HasMedium(nodes, c.id)
  }

  predicate SelectionOk(m: Media) {
    && HasMedium(m.mediums, m.selectedMedium)
    && (m.selectedSession == "" || SessionExists(m.mediums, m.selectedMedium, m.selectedProject, m.selectedSession))
  }

  ghost predicate Wf(m: Media) {
    TreeOk(m.mediums) && Held(m.mediums, m.custom) && SelectionOk(m) && Distinct(m.expanded)
  }

  lemma InNodeIds(nodes: seq<MediaNode>, medium: string)
    ensures medium in NodeIds(nodes) <==> HasMedium(nodes, medium)
  {
    if HasMedium(nodes, medium) {
      var n :| n in nodes && n.id == medium;
      var k :| 0 <= k < |nodes| && nodes[k] == n;
      assert NodeIds(nodes)[k] == medium;
    }
  }

  lemma AddNodeOk(nodes: seq<MediaNode>, c: Custom)
    requires TreeOk(nodes) && !HasMedium(nodes, c.id)
    ensures TreeOk(nodes + [CustomNode(c)])
    ensures forall medium :: HasMedium(nodes + [CustomNode(c)], medium) <==> HasMedium(nodes, medium) || medium == c.id
  {
    InNodeIds(nodes, c.id);
    assert NodeIds(nodes + [CustomNode(c)]) == NodeIds(nodes) + [c.id];
    DistinctAppend(NodeIds(nodes), [c.id]);
    forall medium ensures HasMedium(nodes + [CustomNode(c)], medium) <==> HasMedium(nodes, medium) || medium == c.id {
      assert CustomNode(c) in nodes + [CustomNode(c)];
    }
  }

  lemma {:induction false} CustomsOk(nodes: seq<MediaNode>, custom: seq<Custom>)
    requires TreeOk(nodes)
    ensures TreeOk(WithCustoms(nodes, custom)) && Held(WithCustoms(nodes, custom), custom)
    ensures nodes <= WithCustoms(nodes, custom)
  {
    if custom != [] {
      var front, last := custom[..|custom| - 1], custom[|custom| - 1];
      CustomsOk(nodes, front);
      var before := WithCustoms(nodes, front);
      assert custom == front + [last];
      if !HasMedium(before, last.id) {
        AddNodeOk(before, last);
      }
    }
  }

  lemma BuiltOk(projects: seq<P.Project>, sessions: seq<P.Session>)
    ensures TreeOk(Built(projects, sessions))
  {
    var nodes := Built(projects, sessions);
    BranchesAreProjects(projects, OnMedium(sessions, "local"));
    BranchesAreProjects(projects, OnMedium(sessions, "remote"));
    assert nodes[0] in nodes && nodes[1] in nodes;
    assert NodeIds(nodes) == ["local", "remote"];
  }

  lemma {:induction false} ResolvingKeys(nodes: seq<MediaNode>, keys: seq<string>)
    ensures forall key :: key in Resolving(nodes, keys) <==> key in keys && KeyExists(nodes, key)
  {
    if keys != [] {
      var front, last := keys[..|keys| - 1], keys[|keys| - 1];
      ResolvingKeys(nodes, front);
      assert keys == front + [last];
    }
  }

  lemma {:induction false} ResolvingDistinct(nodes: seq<MediaNode>, keys: seq<string>)
    requires Distinct(keys)
    ensures Distinct(Resolving(nodes, keys))
  {
    if keys != [] {
      var front, last := keys[..|keys| - 1], keys[|keys| - 1];
      assert keys == front + [last];
      DistinctParts(front, [last]);
      assert last in [last];
      ResolvingDistinct(nodes, front);
      ResolvingKeys(nodes, front);
      if KeyExists(nodes, last) {
        DistinctAppend(Resolving(nodes, front), [last]);
      }
    }
  }

  lemma {:induction false} ResolvingAll(nodes: seq<MediaNode>, keys: seq<string>)
    requires forall key :: key in keys ==> KeyExists(nodes, key)
    ensures Resolving(nodes, keys) == keys
  {
    if keys != [] {
      var front, last := keys[..|keys| - 1], keys[|keys| - 1];
      ResolvingAll(nodes, front);
      assert keys == front + [last];
    }
  }

  lemma {:induction false} WithoutTakes(keys: seq<string>, key: string)
    ensures forall k :: k in Without(keys, key) <==> k in keys && k != key
    ensures Distinct(keys) ==> Distinct(Without(keys, key))
  {
    if keys != [] {
      var front, last := keys[..|keys| - 1], keys[|keys| - 1];
      WithoutTakes(front, key);
      assert keys == front + [last];
      if Distinct(keys) {
        DistinctParts(front, [last]);
        assert last in [last];
      }
    }
  }

  lemma ReconciledOk(m: Media)
    requires TreeOk(m.mediums)
    ensures SelectionOk(Reconciled(m))
    ensures SelectionOk(m) ==> Reconciled(m) == m
  {
  }

  /** A refresh makes the state well-formed from any selection and any tree; every
      branch still expanded is there. */
  lemma RefreshOk(m: Media, store: Store)
    requires Distinct(m.expanded)
    ensures var after := Refreshed(m, store);
            && Wf(after) && after.custom == store.stored
            && (forall key :: key in after.expanded <==> key in m.expanded && KeyExists(after.mediums, key))
            && Built(store.projects, store.sessions) <= after.mediums
  {
    BuiltOk(store.projects, store.sessions);
    CustomsOk(Built(store.projects, store.sessions), store.stored);
    var nodes := WithCustoms(Built(store.projects, store.sessions), store.stored);
    ResolvingKeys(nodes, m.expanded);
    ResolvingDistinct(nodes, m.expanded);
    ReconciledOk(m.(mediums := nodes, custom := store.stored, expanded := Resolving(nodes, m.expanded)));
  }

  /** Refreshing twice from the same store is refreshing once. */
  lemma RefreshIdempotent(m: Media, store: Store)
    requires Distinct(m.expanded)
    ensures Refreshed(Refreshed(m, store), store) == Refreshed(m, store)
  {
    var once := Refreshed(m, store);
    RefreshOk(m, store);
    ResolvingAll(once.mediums, once.expanded);
    ReconciledOk(once);
  }

  lemma StartOk(store: Store)
    ensures Wf(FromDesktop(store))
  {
    BuiltOk(store.projects, store.sessions);
    CustomsOk(Built(store.projects, store.sessions), store.stored);
    ReconciledOk(Media(WithCustoms(Built(store.projects, store.sessions), store.stored), "local",
                       DefaultProjectFor("local"), "", [MediumKey("local")], store.stored));
  }

  lemma ExpandDistinct(keys: seq<string>, key: string)
    requires Distinct(keys)
    ensures Distinct(Expand(keys, key)) && key in Expand(keys, key) && keys <= Expand(keys, key)
  {
    if key !in keys {
      DistinctAppend(keys, [key]);
    }
  }

  lemma {:induction false} NodeFound(nodes: seq<MediaNode>, medium: string)
    ensures FindNode(nodes, medium).Some? <==> HasMedium(nodes, medium)
    ensures FindNode(nodes, medium).Some? ==> FindNode(nodes, medium).value in nodes && FindNode(nodes, medium).value.id == medium
  {
    if nodes != [] {
      NodeFound(nodes[1..], medium);
      assert nodes == [nodes[0]] + nodes[1..];
    }
  }

  /** A place that exists is a medium that exists. */
  lemma SelectSessionOk(m: Media, medium: string, project: string, session: string)
    requires Wf(m)
    ensures Wf(SelectSession(m, medium, project, session))
  {
    NodeFound(m.mediums, medium);
    ExpandDistinct(m.expanded, MediumKey(medium));
    ExpandDistinct(Expand(m.expanded, MediumKey(medium)), ProjectKey(medium, project));
  }

  lemma SelectMediumOk(m: Media, medium: string)
    requires Wf(m)
    ensures Wf(SelectMedium(m, medium))
  {
    ExpandDistinct(m.expanded, MediumKey(medium));
  }

  lemma {:induction false} FindInLonger(nodes: seq<MediaNode>, more: seq<MediaNode>, medium: string)
    requires FindNode(nodes, medium).Some?
    ensures FindNode(nodes + more, medium) == FindNode(nodes, medium)
  {
    assert (nodes + more)[1..] == nodes[1..] + more;
    if nodes[0].id != medium {
      FindInLonger(nodes[1..], more, medium);
    }
  }

  lemma AddMediumOk(m: Media, c: Custom)
    requires Wf(m)
    ensures Wf(AddMedium(m, c))
  {
    if !HasMedium(m.mediums, c.id) {
      AddNodeOk(m.mediums, c);
      NodeFound(m.mediums, m.selectedMedium);
      FindInLonger(m.mediums, [CustomNode(c)], m.selectedMedium);
    }
  }

  /** Adding by a label that is not blank always succeeds, under an id no medium
      had, and ends with the new environment selected and its branch expanded. */
  lemma AddSelectsTheNew(m: Media, input: string, other: char -> bool)
    requires Wf(m) && Trim(input) != ""
    ensures var after := OnAdd(m, input, other);
            var c := Custom(NewId(m, Trim(input), other), Trim(input));
            && !HasMedium(m.mediums, c.id) && c.id != "" && Wf(after)
            && after.mediums == m.mediums + [CustomNode(c)] && after.custom == m.custom + [c]
            && after.selectedMedium == c.id && after.selectedProject == "default" && after.selectedSession == ""
            && MediumKey(c.id) in after.expanded
  {
    var c := Custom(NewId(m, Trim(input), other), Trim(input));
    InNodeIds(m.mediums, c.id);
    AddMediumOk(m, c);
    AddNodeOk(m.mediums, c);
    SelectMediumOk(AddMedium(m, c), c.id);
    ExpandDistinct(m.expanded, MediumKey(c.id));
    FreshIsNamed(m, Trim(input), other, 0);
  }

  /** The id found is one of the candidates, so it is no empty name and has no colon. */
  lemma {:induction false} FreshIsNamed(m: Media, title: string, other: char -> bool, k: nat)
    requires forall i :: 0 <= i < k ==> Candidate(MediumId(title, other), i) in NodeIds(m.mediums)
    ensures var id := FirstFree(MediumId(title, other), NodeIds(m.mediums), k); id != "" && ':' !in id
    decreases |NodeIds(m.mediums)| - k
  {
    var base := MediumId(title, other);
    MediumIdIsNormal(title, other);
    if Candidate(base, k) in NodeIds(m.mediums) {
      TriesAreBounded(base, k + 1, NodeIds(m.mediums));
      FreshIsNamed(m, title, other, k + 1);
    } else {
      DecimalHasNoColon(k + 1);
    }
  }

  lemma {:induction false} DecimalHasNoColon(n: nat)
    ensures ':' !in Decimal(n)
  {
    if n >= 10 {
      DecimalHasNoColon(n / 10);
    }
  }

  lemma NextKeepsWf(w: World, e: Event, other: char -> bool)
    requires Wf(w.media)
    ensures Wf(Next(w, e, other).media)
  {
    match e
    case Refresh => RefreshOk(w.media, w.store);
    case Backend(projects, sessions) =>
    case PickSession(medium, project, session) => SelectSessionOk(w.media, medium, project, session);
    case PickMedium(medium, configured) => SelectMediumOk(w.media, medium);
    case Add(input, persists) => if Trim(input) != "" { AddSelectsTheNew(w.media, input, other); }
    case Toggle(key) =>
      WithoutTakes(w.media.expanded, key);
      ExpandDistinct(w.media.expanded, key);
  }

  /** Every run from what the store holds keeps the state well-formed. */
  lemma {:induction false} RunsKeepWf(store: Store, events: seq<Event>, other: char -> bool)
    ensures Wf(Run(World(FromDesktop(store), store), events, other).media)
  {
    if events == [] {
      StartOk(store);
    } else {
      RunsKeepWf(store, events[..|events| - 1], other);
      NextKeepsWf(Run(World(FromDesktop(store), store), events[..|events| - 1], other), events[|events| - 1], other);
    }
  }

  // ---- Across operations ----

  lemma {:induction false} BranchFound(branches: seq<MediaProject>, project: string, b: MediaProject)
    requires Distinct(BranchIds(branches)) && b in branches && b.id == project
    ensures FindBranch(branches, project) == Some(b)
  {
    if branches[0] != b {
      assert BranchIds(branches)[1..] == BranchIds(branches[1..]);
      var k :| 0 <= k < |branches| && branches[k] == b;
      assert BranchIds(branches)[k] == project && BranchIds(branches)[0] == branches[0].id && k > 0;
      assert branches == [branches[0]] + branches[1..];
      TailDistinct(BranchIds(branches));
      BranchFound(branches[1..], project, b);
    }
  }

  lemma TailDistinct(ids: seq<string>)
    requires Distinct(ids) && ids != []
    ensures Distinct(ids[1..])
  {
    forall i, j | 0 <= i < j < |ids[1..]| ensures ids[1..][i] != ids[1..][j] {
      assert ids[1..][i] == ids[i + 1] && ids[1..][j] == ids[j + 1];
    }
  }

  lemma {:induction false} NodeFoundIs(nodes: seq<MediaNode>, n: MediaNode)
    requires Distinct(NodeIds(nodes)) && n in nodes
    ensures FindNode(nodes, n.id) == Some(n)
  {
    if nodes[0] != n {
      assert NodeIds(nodes)[1..] == NodeIds(nodes[1..]);
      var k :| 0 <= k < |nodes| && nodes[k] == n;
      assert NodeIds(nodes)[k] == n.id && NodeIds(nodes)[0] == nodes[0].id && k > 0;
      assert nodes == [nodes[0]] + nodes[1..];
      TailDistinct(NodeIds(nodes));
      NodeFoundIs(nodes[1..], n);
    }
  }

  lemma {:induction false} BranchFoundIsThere(branches: seq<MediaProject>, project: string)
    ensures var b := FindBranch(branches, project); b.Some? ==> b.value in branches && b.value.id == project
  {
    if branches != [] {
      BranchFoundIsThere(branches[1..], project);
      assert branches == [branches[0]] + branches[1..];
    }
  }

  /** In a well-formed tree a session is selectable exactly at the places it has. */
  lemma SelectableIffAt(nodes: seq<MediaNode>, medium: string, project: string, session: string)
    requires TreeOk(nodes)
    ensures SessionExists(nodes, medium, project, session) <==> At(nodes, medium, project, session)
  {
    if n, b :| n in nodes && n.id == medium && b in n.projects && b.id == project && HasSession(b, session) {
      NodeFoundIs(nodes, n);
      BranchFound(n.projects, project, b);
    }
    if SessionExists(nodes, medium, project, session) {
      NodeFound(nodes, medium);
      BranchFoundIsThere(FindNode(nodes, medium).value.projects, project);
    }
  }

  /** What the working-directory pill resolves can be selected: the location of a
      session, picked, selects that session, and every session has one. */
  lemma LocationSelects(m: Media, session: string)
    requires Wf(m)
    ensures var at := SessionLocation(m.mediums, session);
            && (at.Some? ==>
                  var after := SelectSession(m, at.value.0, at.value.1, session);
                  after.selectedMedium == at.value.0 && after.selectedProject == at.value.1 && after.selectedSession == session)
            && (at.None? ==> forall medium, project :: SelectSession(m, medium, project, session) == m)
  {
    var at := SessionLocation(m.mediums, session);
    LocationIsThere(m.mediums, session);
    if at.Some? {
      SelectableIffAt(m.mediums, at.value.0, at.value.1, session);
    } else {
      forall medium, project ensures SelectSession(m, medium, project, session) == m {
        SelectableIffAt(m.mediums, medium, project, session);
      }
    }
  }

  lemma {:induction false} CustomsHold(nodes: seq<MediaNode>, custom: seq<Custom>, medium: string)
    ensures HasMedium(WithCustoms(nodes, custom), medium) <==>
            HasMedium(nodes, medium) || exists c :: c in custom && c.id == medium
  {
    if custom != [] {
      var front, last := custom[..|custom| - 1], custom[|custom| - 1];
      CustomsHold(nodes, front, medium);
      assert custom == front + [last];
      var before := WithCustoms(nodes, front);
      if !HasMedium(before, last.id) {
        NodeAdded(before, CustomNode(last), medium);
      } else {
        CustomsHold(nodes, front, last.id);
      }
    }
  }

  lemma NodeAdded(nodes: seq<MediaNode>, node: MediaNode, medium: string)
    ensures HasMedium(nodes + [node], medium) <==> HasMedium(nodes, medium) || node.id == medium
  {
    assert node in nodes + [node];
  }

  /** From every well-formed state, however far it has drifted from the store: an
      environment is still there after a refresh, and still selected, if and only if
      its write was accepted or the store holds one of that id anyway; else the
      selection falls back. */
  lemma AddThenRefresh(w: World, input: string, persists: bool, other: char -> bool)
    requires Wf(w.media) && Trim(input) != ""
    ensures var id := NewId(w.media, Trim(input), other);
            var after := Next(Next(w, Add(input, persists), other), Refresh, other).media;
            var stays := persists || exists c :: c in w.store.stored && c.id == id;
            (HasMedium(after.mediums, id) <==> stays) && after.selectedMedium == if stays then id else "local"
  {
    AddSelectsTheNew(w.media, input, other);
    var c := Custom(NewId(w.media, Trim(input), other), Trim(input));
    var stored := if persists then w.media.custom + [c] else w.store.stored;
    assert Next(w, Add(input, persists), other) == World(OnAdd(w.media, input, other), w.store.(stored := stored));
    assert c in w.media.custom + [c];
    RefreshHolds(OnAdd(w.media, input, other), w.store.(stored := stored), c.id);
  }

  /** What of an added medium a refresh leaves, with nothing picked in it. */
  lemma RefreshHolds(m: Media, store: Store, medium: string)
    requires Distinct(m.expanded) && m.selectedMedium == medium && m.selectedSession == ""
    requires medium != "local" && medium != "remote"
    ensures var after, stays := Refreshed(m, store), exists c :: c in store.stored && c.id == medium;
            (HasMedium(after.mediums, medium) <==> stays) && after.selectedMedium == if stays then medium else "local"
  {
    RefreshOk(m, store);
    CustomsHold(Built(store.projects, store.sessions), store.stored, medium);
    BuiltHolds(store.projects, store.sessions, medium);
  }

  lemma BuiltHolds(projects: seq<P.Project>, sessions: seq<P.Session>, medium: string)
    ensures HasMedium(Built(projects, sessions), medium) <==> medium == "local" || medium == "remote"
  {
    var nodes := Built(projects, sessions);
    assert nodes[0] in nodes && nodes[1] in nodes;
  }

  /** No colon gets into a medium's id, so no project key is ever read as another's. */
  predicate NoColons(m: Media, stored: seq<Custom>) {
    && (forall n :: n in m.mediums ==> ':' !in n.id)
    && (forall c :: c in m.custom ==> ':' !in c.id)
    && (forall c :: c in stored ==> ':' !in c.id)
  }

  lemma {:induction false} CustomsHaveNoColon(nodes: seq<MediaNode>, custom: seq<Custom>)
    requires (forall n :: n in nodes ==> ':' !in n.id) && (forall c :: c in custom ==> ':' !in c.id)
    ensures forall n :: n in WithCustoms(nodes, custom) ==> ':' !in n.id
  {
    if custom != [] {
      CustomsHaveNoColon(nodes, custom[..|custom| - 1]);
    }
  }

  lemma NextKeepsNoColons(w: World, e: Event, other: char -> bool)
    requires Wf(w.media) && NoColons(w.media, w.store.stored)
    ensures NoColons(Next(w, e, other).media, Next(w, e, other).store.stored)
  {
    if e.Refresh? {
      CustomsHaveNoColon(Built(w.store.projects, w.store.sessions), w.store.stored);
    } else if e.Add? && Trim(e.input) != "" {
      AddSelectsTheNew(w.media, e.input, other);
      FreshIsNamed(w.media, Trim(e.input), other, 0);
    }
  }

  /** Over every run from a store without colons in its ids: a project's key exists
      exactly when the project does. */
  lemma {:induction false} KeysMeanProjects(store: Store, events: seq<Event>, other: char -> bool, medium: string, project: string)
    requires forall c :: c in store.stored ==> ':' !in c.id
    ensures var w := Run(World(FromDesktop(store), store), events, other);
            && NoColons(w.media, w.store.stored)
            && (HasMedium(w.media.mediums, medium) ==>
                  (KeyExists(w.media.mediums, ProjectKey(medium, project)) <==> HasBranch(w.media.mediums, medium, project)))
  {
    if events == [] {
      CustomsHaveNoColon(Built(store.projects, store.sessions), store.stored);
    } else {
      var before := events[..|events| - 1];
      KeysMeanProjects(store, before, other, medium, project);
      RunsKeepWf(store, before, other);
      NextKeepsNoColons(Run(World(FromDesktop(store), store), before, other), events[|events| - 1], other);
    }
    if ':' !in medium {
      ProjectKeyRoundTrip(medium, project);
    }
  }
}
