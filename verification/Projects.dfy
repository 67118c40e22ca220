/**
 The projects list: stored sessions grouped by project, each with the status of
 the live work, built by update loops over two maps.
 */
module Projects {
  import opened Base
  import opened Grouping

  datatype Project = Project(id: string, directory: string)
  datatype Session = Session(id: string, project: string, medium: string, createdAt: string)
  datatype Task = Task(session: string, status: string)

  datatype SessionEntry = SessionEntry(id: string, medium: string, createdAt: string, status: string)
  datatype ProjectEntry = ProjectEntry(id: string, directory: string, status: string, sessions: seq<SessionEntry>)

  /** What the first map holds under a project id. */
  datatype Group = Group(directory: string, sessions: seq<SessionEntry>)

  const RUNNING := "running"
  const SCHEDULED := "scheduled"
  const PENDING := "pending"
  const IDLE := "idle"

  function ProjectOf(s: Session): string {
    if s.project == "" then "default" else s.project
  }

  function MediumOf(s: Session): string {
    if s.medium == "" then "local" else s.medium
  }

  function ProjectStatus(sessions: seq<SessionEntry>): string {
    if exists s :: s in sessions && s.status == RUNNING then RUNNING
    else if exists s :: s in sessions && (s.status == SCHEDULED || s.status == PENDING) then SCHEDULED
    else IDLE
  }

  // ---- The join the list is meant to be ----

  predicate Has(tasks: seq<Task>, session: string, status: string) {
    Task(session, status) in tasks
  }

  function FirstStatus(tasks: seq<Task>, session: string): Option<string> {
    if tasks == [] then None
    else if tasks[0].session == session then Some(tasks[0].status)
    else FirstStatus(tasks[1..], session)
  }

  /** The most live of a session's tasks, its first task when none is live. */
  function SessionStatus(tasks: seq<Task>, session: string): Option<string> {
    if Has(tasks, session, RUNNING) then Some(RUNNING)
    else if Has(tasks, session, SCHEDULED) then Some(SCHEDULED)
    else FirstStatus(tasks, session)
  }

  function EntryOf(s: Session, tasks: seq<Task>): SessionEntry {
    var status := SessionStatus(tasks, s.id);
    SessionEntry(s.id, MediumOf(s), s.createdAt, if status.Some? then status.value else IDLE)
  }

  function Entries(tasks: seq<Task>): Session -> SessionEntry {
    s => EntryOf(s, tasks)
  }

  /** The sessions of one project, in stored order. */
  function SessionsOf(sessions: seq<Session>, tasks: seq<Task>, id: string): seq<SessionEntry> {
    Picked(sessions, ProjectOf, Entries(tasks), id)
  }

  function DirectoryOf(projects: seq<Project>, id: string): string {
    if projects == [] then ""
    else if projects[0].id == id then projects[0].directory
    else DirectoryOf(projects[1..], id)
  }

  function Ids(projects: seq<Project>, sessions: seq<Session>): set<string> {
    (set p | p in projects :: p.id) + (set s | s in sessions :: ProjectOf(s))
  }

  function EntryFor(projects: seq<Project>, sessions: seq<Session>, tasks: seq<Task>, id: string): ProjectEntry {
    var own := SessionsOf(sessions, tasks, id);
    ProjectEntry(id, DirectoryOf(projects, id), ProjectStatus(own), own)
  }

  /** Rust's order of strings. */
  predicate Below(a: string, b: string) {
    b != [] && (a == [] || a[0] < b[0] || (a[0] == b[0] && Below(a[1..], b[1..])))
  }

  ghost predicate Ascending(ids: seq<string>) {
    forall i, j :: 0 <= i < j < |ids| ==> Below(ids[i], ids[j])
  }

  function IdsOf(entries: seq<ProjectEntry>): seq<string> {
    seq(|entries|, i requires 0 <= i < |entries| => entries[i].id)
  }

  /** One entry for every project that is stored or has a session, ascending. */
  ghost predicate IsJoin(entries: seq<ProjectEntry>, projects: seq<Project>, sessions: seq<Session>, tasks: seq<Task>) {
    && Ascending(IdsOf(entries))
    && (forall id :: id in IdsOf(entries) <==> id in Ids(projects, sessions))
    && forall i :: 0 <= i < |entries| ==> entries[i] == EntryFor(projects, sessions, tasks, entries[i].id)
  }

  lemma {:induction false} BelowTransitive(a: string, b: string, c: string)
    requires Below(a, b) && Below(b, c)
    ensures Below(a, c)
  {
    if a != [] && a[0] == b[0] && b[0] == c[0] {
      BelowTransitive(a[1..], b[1..], c[1..]);
    }
  }

  lemma {:induction false} BelowTotal(a: string, b: string)
    ensures a == b || Below(a, b) || Below(b, a)
    ensures !(Below(a, b) && Below(b, a)) && !Below(a, a)
  {
    if a != [] && b != [] {
      BelowTotal(a[1..], b[1..]);
      if a[0] == b[0] && a[1..] == b[1..] {
        assert a == [a[0]] + a[1..] && b == [b[0]] + b[1..];
      }
    }
    if a != [] {
      BelowTotal(a[1..], a[1..]);
    }
  }

  // ---- The loops ----

  /** The first map, as the join sees it. */
  function Table(projects: seq<Project>, sessions: seq<Session>, tasks: seq<Task>): map<string, Group> {
    map id | id in Ids(projects, sessions) :: Group(DirectoryOf(projects, id), SessionsOf(sessions, tasks, id))
  }

  predicate StatusesOf(statuses: map<string, string>, tasks: seq<Task>, session: string) {
    SessionStatus(tasks, session) == if session in statuses then Some(statuses[session]) else None
  }

  lemma {:induction false} FirstStatusSnoc(tasks: seq<Task>, t: Task, session: string)
    ensures FirstStatus(tasks + [t], session)
         == if FirstStatus(tasks, session).Some? then FirstStatus(tasks, session)
            else if t.session == session then Some(t.status) else None
  {
    if tasks != [] {
      assert (tasks + [t])[1..] == tasks[1..] + [t];
      FirstStatusSnoc(tasks[1..], t, session);
    }
  }

  lemma {:induction false} HasStatus(tasks: seq<Task>, session: string)
    ensures FirstStatus(tasks, session).None? <==> forall t :: t in tasks ==> t.session != session
    ensures FirstStatus(tasks, session).Some? ==> Has(tasks, session, FirstStatus(tasks, session).value)
  {
    if tasks != [] {
      HasStatus(tasks[1..], session);
      assert tasks == [tasks[0]] + tasks[1..];
    }
  }

  method TaskStatuses(tasks: seq<Task>) returns (statuses: map<string, string>)
    ensures forall session :: StatusesOf(statuses, tasks, session)
  {
    statuses := map[];
    for i := 0 to |tasks|
      invariant forall session :: StatusesOf(statuses, tasks[..i], session)
    {
      ghost var before := statuses;
      var task := tasks[i];
      if task.session !in statuses {
        statuses := statuses[task.session := task.status];
      }
      if task.status == RUNNING || (task.status == SCHEDULED && statuses[task.session] != RUNNING) {
        statuses := statuses[task.session := task.status];
      }
      ghost var longer := tasks[..i] + [task];
      assert tasks[..i + 1] == longer;
      forall session ensures StatusesOf(statuses, longer, session) {
        assert StatusesOf(before, tasks[..i], session);
        FirstStatusSnoc(tasks[..i], task, session);
        HasStatus(tasks[..i], session);
      }
    }
    assert tasks[..|tasks|] == tasks;
  }

  lemma {:induction false} DirectorySnoc(projects: seq<Project>, p: Project, id: string)
    ensures DirectoryOf(projects + [p], id)
         == if id in Ids(projects, []) then DirectoryOf(projects, id) else if p.id == id then p.directory else ""
  {
    if projects != [] {
      assert (projects + [p])[1..] == projects[1..] + [p];
      DirectorySnoc(projects[1..], p, id);
      assert projects == [projects[0]] + projects[1..];
    }
  }

  lemma {:induction false} DirectoryUnknown(projects: seq<Project>, id: string)
    requires id !in Ids(projects, [])
    ensures DirectoryOf(projects, id) == ""
  {
    if projects != [] {
      assert projects[0] in projects;
      DirectoryUnknown(projects[1..], id);
    }
  }

  /** One turn of the first loop. */
  lemma TableAddsProject(projects: seq<Project>, p: Project, tasks: seq<Task>, before: map<string, Group>)
    requires before == Table(projects, [], tasks)
    ensures Table(projects + [p], [], tasks) == if p.id in before then before else before[p.id := Group(p.directory, [])]
  {
    forall id
      ensures DirectoryOf(projects + [p], id)
           == if id in Ids(projects, []) then DirectoryOf(projects, id) else if p.id == id then p.directory else ""
    {
      DirectorySnoc(projects, p, id);
    }
  }

  /** What the last loop makes of a session's project. */
  function WithEntry(before: map<string, Group>, id: string, entry: SessionEntry): map<string, Group> {
    var group := if id in before then before[id] else Group("", []);
    before[id := group.(sessions := group.sessions + [entry])]
  }

  /** One turn of the last loop. */
  lemma TableAddsSession(projects: seq<Project>, sessions: seq<Session>, s: Session, tasks: seq<Task>)
    ensures Table(projects, sessions + [s], tasks)
         == WithEntry(Table(projects, sessions, tasks), ProjectOf(s), EntryOf(s, tasks))
  {
    var id := ProjectOf(s);
    var before, after := Table(projects, sessions, tasks), Table(projects, sessions + [s], tasks);
    var joined := WithEntry(before, id, EntryOf(s, tasks));
    if id !in before {
      PickedNone(sessions, ProjectOf, Entries(tasks), id);
      DirectoryUnknown(projects, id);
    }
    assert after.Keys == joined.Keys;
    forall x | x in after ensures after[x] == joined[x] {
      PickedSnoc(sessions, s, ProjectOf, Entries(tasks), x);
    }
  }

  lemma LeastId(ids: set<string>) returns (least: string)
    requires ids != {}
    ensures least in ids && forall id :: id in ids && id != least ==> Below(least, id)
  {
    var id :| id in ids;
    var rest := ids - {id};
    if rest == {} {
      least := id;
      assert forall x :: x in ids ==> x == id || x in rest;
    } else {
      var low := LeastId(rest);
      BelowTotal(id, low);
      least := if Below(id, low) then id else low;
      forall x | x in ids && x != least ensures Below(least, x) {
        if x != id && x != low && least == id {
          BelowTransitive(id, low, x);
        }
      }
    }
  }

  /** The ids of an ordered map, as it is walked. */
  method InOrder(table: map<string, Group>) returns (ids: seq<string>)
    ensures Ascending(ids) && forall id :: id in ids <==> id in table
  {
    ids := [];
    var left := table.Keys;
    while left != {}
      invariant left <= table.Keys && forall id :: id in ids <==> id in table && id !in left
      invariant Ascending(ids) && forall i, id :: 0 <= i < |ids| && id in left ==> Below(ids[i], id)
    {
      ghost var known := LeastId(left);
      var least :| least in left && forall id :: id in left && id != least ==> Below(least, id);
      ids := ids + [least];
      left := left - {least};
    }
  }

  method SeedProjects(projects: seq<Project>, ghost tasks: seq<Task>) returns (byProject: map<string, Group>)
    ensures byProject == Table(projects, [], tasks)
  {
    byProject := map[];
    for i := 0 to |projects|
      invariant byProject == Table(projects[..i], [], tasks)
    {
      var p := projects[i];
      TableAddsProject(projects[..i], p, tasks, byProject);
      if p.id !in byProject {
        byProject := byProject[p.id := Group(p.directory, [])];
      }
      assert projects[..i + 1] == projects[..i] + [p];
    }
    assert projects[..|projects|] == projects;
  }

  method AddSessions(seeded: map<string, Group>, statuses: map<string, string>, sessions: seq<Session>,
                     ghost projects: seq<Project>, ghost tasks: seq<Task>)
    returns (byProject: map<string, Group>)
    requires seeded == Table(projects, [], tasks) && forall session :: StatusesOf(statuses, tasks, session)
    ensures byProject == Table(projects, sessions, tasks)
  {
    byProject := seeded;
    for i := 0 to |sessions|
      invariant byProject == Table(projects, sessions[..i], tasks)
    {
      var s := sessions[i];
      var status := if s.id in statuses then statuses[s.id] else IDLE;
      assert StatusesOf(statuses, tasks, s.id);
      TableAddsSession(projects, sessions[..i], s, tasks);
      byProject := WithEntry(byProject, ProjectOf(s), SessionEntry(s.id, MediumOf(s), s.createdAt, status));
      assert sessions[..i + 1] == sessions[..i] + [s];
    }
    assert sessions[..|sessions|] == sessions;
  }

  /** The list is the join of projects, sessions and tasks. */
  method GroupProjects(projects: seq<Project>, sessions: seq<Session>, tasks: seq<Task>)
    returns (entries: seq<ProjectEntry>)
    ensures IsJoin(entries, projects, sessions, tasks)
  {
    var byProject := SeedProjects(projects, tasks);
    var statuses := TaskStatuses(tasks);
    byProject := AddSessions(byProject, statuses, sessions, projects, tasks);
    var ids := InOrder(byProject);
    entries := EntriesInOrder(byProject, ids, projects, sessions, tasks);
  }

  /** Every project of the map, as it is walked, with its status. */
  method EntriesInOrder(byProject: map<string, Group>, ids: seq<string>,
                        ghost projects: seq<Project>, ghost sessions: seq<Session>, ghost tasks: seq<Task>)
    returns (entries: seq<ProjectEntry>)
    requires byProject == Table(projects, sessions, tasks) && forall i :: 0 <= i < |ids| ==> ids[i] in byProject
    ensures IdsOf(entries) == ids
    ensures forall i :: 0 <= i < |entries| ==> entries[i] == EntryFor(projects, sessions, tasks, entries[i].id)
  {
    entries := [];
    for i := 0 to |ids|
      invariant |entries| == i
      invariant forall k :: 0 <= k < i ==> entries[k] == EntryFor(projects, sessions, tasks, ids[k])
    {
      var group := byProject[ids[i]];
      entries := entries + [ProjectEntry(ids[i], group.directory, ProjectStatus(group.sessions), group.sessions)];
    }
    assert IdsOf(entries) == ids;
  }

  // ---- What the join means ----

  lemma SomeId(ids: seq<string>) returns (id: string)
    requires ids != []
    ensures id in ids
  {
    id := ids[0];
  }

  /** Two ascending lists of the same ids are the same list. */
  lemma {:induction false} AscendingUnique(a: seq<string>, b: seq<string>)
    requires Ascending(a) && Ascending(b) && (forall id :: id in a <==> id in b)
    ensures a == b
  {
    if a == [] && b == [] {
    } else if a == [] {
      var id := SomeId(b);
      assert false;
    } else if b == [] {
      var id := SomeId(a);
      assert false;
    } else {
      assert a[0] in b && b[0] in a;
      var i :| 0 <= i < |b| && b[i] == a[0];
      var j :| 0 <= j < |a| && a[j] == b[0];
      BelowTotal(a[0], b[0]);
      assert a[0] == b[0];
      forall id ensures id in a[1..] <==> id in b[1..] {
        RestIds(a, id);
        RestIds(b, id);
      }
      AscendingUnique(a[1..], b[1..]);
      assert a == [a[0]] + a[1..] && b == [b[0]] + b[1..];
    }
  }

  lemma RestIds(ids: seq<string>, id: string)
    requires Ascending(ids) && ids != []
    ensures id in ids[1..] <==> id in ids && id != ids[0]
  {
    if id in ids[1..] {
      var k :| 0 <= k < |ids[1..]| && ids[1..][k] == id;
      assert Below(ids[0], ids[k + 1]);
      BelowTotal(ids[0], id);
    }
  }

  /** The join is one list: nothing else meets it. */
  lemma JoinIsUnique(a: seq<ProjectEntry>, b: seq<ProjectEntry>,
                     projects: seq<Project>, sessions: seq<Session>, tasks: seq<Task>)
    requires IsJoin(a, projects, sessions, tasks) && IsJoin(b, projects, sessions, tasks)
    ensures a == b
  {
    AscendingUnique(IdsOf(a), IdsOf(b));
    assert |IdsOf(a)| == |IdsOf(b)|;
    forall i | 0 <= i < |a| ensures a[i] == b[i] {
      assert IdsOf(a)[i] == IdsOf(b)[i];
    }
  }

  /** All session entries of the list, project after project. */
  function Listed(entries: seq<ProjectEntry>): seq<SessionEntry> {
    if entries == [] then [] else Listed(entries[..|entries| - 1]) + entries[|entries| - 1].sessions
  }

  lemma {:induction false} ListedIsGathered(entries: seq<ProjectEntry>, projects: seq<Project>, sessions: seq<Session>, tasks: seq<Task>)
    requires forall i :: 0 <= i < |entries| ==> entries[i] == EntryFor(projects, sessions, tasks, entries[i].id)
    ensures Listed(entries) == Gathered(IdsOf(entries), sessions, ProjectOf, Entries(tasks))
  {
    if entries != [] {
      var front := entries[..|entries| - 1];
      ListedIsGathered(front, projects, sessions, tasks);
      assert IdsOf(entries)[..|entries| - 1] == IdsOf(front);
    }
  }

  lemma AscendingDistinct(ids: seq<string>)
    requires Ascending(ids)
    ensures Distinct(ids)
  {
    forall i, j | 0 <= i < j < |ids| ensures ids[i] != ids[j] {
      BelowTotal(ids[i], ids[j]);
    }
  }

  /** Every stored session is listed, once, with its medium and its status; no
      project is listed twice, and nothing else is. */
  lemma EverySessionOnce(entries: seq<ProjectEntry>, projects: seq<Project>, sessions: seq<Session>, tasks: seq<Task>)
    requires IsJoin(entries, projects, sessions, tasks)
    ensures Distinct(IdsOf(entries))
    ensures multiset(Listed(entries)) == multiset(Shown(sessions, Entries(tasks)))
  {
    AscendingDistinct(IdsOf(entries));
    ListedIsGathered(entries, projects, sessions, tasks);
    forall s | s in sessions ensures ProjectOf(s) in IdsOf(entries) {
      assert ProjectOf(s) in Ids(projects, sessions);
    }
    GatheredAll(IdsOf(entries), sessions, ProjectOf, Entries(tasks));
  }

  lemma InSessionsOf(sessions: seq<Session>, tasks: seq<Task>, id: string, e: SessionEntry)
    ensures e in SessionsOf(sessions, tasks, id)
       <==> exists s :: s in sessions && ProjectOf(s) == id && EntryOf(s, tasks) == e
  {
    InPicked(sessions, ProjectOf, Entries(tasks), id, e);
    assert forall s :: Entries(tasks)(s) == EntryOf(s, tasks);
  }

  /** The status a session is listed with: running if a task of it runs, else scheduled if
      one is, else its first task's, idle without any. */
  predicate StatusShown(tasks: seq<Task>, session: string, status: string) {
    if Task(session, "running") in tasks then status == "running"
    else if Task(session, "scheduled") in tasks then status == "scheduled"
    else if exists t :: t in tasks && t.session == session then
      exists k :: 0 <= k < |tasks| && FirstTask(tasks, session, k) && tasks[k].status == status
    else status == "idle"
  }

  predicate FirstTask(tasks: seq<Task>, session: string, k: nat)
    requires k < |tasks|
  {
    tasks[k].session == session && forall j :: 0 <= j < k ==> tasks[j].session != session
  }

  lemma {:induction false} FirstStatusIs(tasks: seq<Task>, session: string)
    ensures var first := FirstStatus(tasks, session);
            && (first.None? <==> forall t :: t in tasks ==> t.session != session)
            && (first.Some? ==> exists k :: 0 <= k < |tasks| && FirstTask(tasks, session, k) && tasks[k].status == first.value)
  {
    if tasks != [] {
      assert tasks == [tasks[0]] + tasks[1..];
      if tasks[0].session == session {
        assert FirstTask(tasks, session, 0);
      } else {
        FirstStatusIs(tasks[1..], session);
        if FirstStatus(tasks[1..], session).Some? {
          var k :| 0 <= k < |tasks[1..]| && FirstTask(tasks[1..], session, k)
            && tasks[1..][k].status == FirstStatus(tasks[1..], session).value;
          forall j | 0 <= j < k + 1 ensures tasks[j].session != session {
            assert j > 0 ==> tasks[j] == tasks[1..][j - 1];
          }
          assert FirstTask(tasks, session, k + 1);
        }
      }
    }
  }

  /** The entry of a stored session: a session without a project is the default one's,
      one without a medium runs locally. */
  predicate EntryShows(s: Session, tasks: seq<Task>, e: SessionEntry) {
    && e.id == s.id && e.createdAt == s.createdAt && e.medium == (if s.medium == "" then "local" else s.medium)
    && StatusShown(tasks, s.id, e.status)
  }

  lemma EntryOfShows(s: Session, tasks: seq<Task>)
    ensures EntryShows(s, tasks, EntryOf(s, tasks))
  {
    FirstStatusIs(tasks, s.id);
  }

  /** The directory a project is listed with: the first one stored under its id, none for
      a project that only sessions name. */
  predicate DirectoryShown(projects: seq<Project>, id: string, directory: string) {
    if exists p :: p in projects && p.id == id then
      exists k :: 0 <= k < |projects| && projects[k].id == id && projects[k].directory == directory
                  && forall j :: 0 <= j < k ==> projects[j].id != id
    else directory == ""
  }

  lemma {:induction false} DirectoryOfShows(projects: seq<Project>, id: string)
    ensures DirectoryShown(projects, id, DirectoryOf(projects, id))
  {
    if projects != [] && projects[0].id != id {
      var rest := projects[1..];
      DirectoryOfShows(rest, id);
      assert projects == [projects[0]] + rest;
      if exists p :: p in rest && p.id == id {
        var k :| 0 <= k < |rest| && rest[k].id == id && rest[k].directory == DirectoryOf(rest, id)
                 && forall j :: 0 <= j < k ==> rest[j].id != id;
        forall j | 0 <= j < k + 1 ensures projects[j].id != id {
          assert j > 0 ==> projects[j] == rest[j - 1];
        }
        assert projects[k + 1] == rest[k];
      }
    }
  }

  /** Where a stored session is listed, and as what. */
  lemma SessionIsListed(entries: seq<ProjectEntry>, projects: seq<Project>, sessions: seq<Session>, tasks: seq<Task>, s: Session)
    returns (i: nat, e: SessionEntry)
    requires IsJoin(entries, projects, sessions, tasks) && s in sessions
    ensures i < |entries| && entries[i].id == (if s.project == "" then "default" else s.project)
    ensures e in entries[i].sessions && EntryShows(s, tasks, e) && DirectoryShown(projects, entries[i].id, entries[i].directory)
  {
    var id := ProjectOf(s);
    assert id in Ids(projects, sessions) && id in IdsOf(entries);
    i :| 0 <= i < |entries| && IdsOf(entries)[i] == id;
    e := EntryOf(s, tasks);
    InSessionsOf(sessions, tasks, id, e);
    EntryOfShows(s, tasks);
    DirectoryOfShows(projects, id);
  }

  /** A project's session has this status. */
  predicate Shows(sessions: seq<Session>, tasks: seq<Task>, id: string, status: string) {
    exists s :: s in sessions && ProjectOf(s) == id && EntryOf(s, tasks).status == status
  }

  /** One of the project's tasks has this status. */
  predicate Works(sessions: seq<Session>, tasks: seq<Task>, id: string, status: string) {
    exists s :: s in sessions && ProjectOf(s) == id && Has(tasks, s.id, status)
  }

  function StatusOfProject(sessions: seq<Session>, tasks: seq<Task>, id: string): string {
    ProjectStatus(SessionsOf(sessions, tasks, id))
  }

  lemma ShowsInList(sessions: seq<Session>, tasks: seq<Task>, id: string, status: string)
    ensures Shows(sessions, tasks, id, status) <==> exists e :: e in SessionsOf(sessions, tasks, id) && e.status == status
  {
    if Shows(sessions, tasks, id, status) {
      var s :| s in sessions && ProjectOf(s) == id && EntryOf(s, tasks).status == status;
      InSessionsOf(sessions, tasks, id, EntryOf(s, tasks));
    }
    if e :| e in SessionsOf(sessions, tasks, id) && e.status == status {
      InSessionsOf(sessions, tasks, id, e);
    }
  }

  lemma StatusByShows(sessions: seq<Session>, tasks: seq<Task>, id: string)
    ensures StatusOfProject(sessions, tasks, id)
         == if Shows(sessions, tasks, id, RUNNING) then RUNNING
            else if Shows(sessions, tasks, id, SCHEDULED) || Shows(sessions, tasks, id, PENDING) then SCHEDULED else IDLE
  {
    ShowsInList(sessions, tasks, id, RUNNING);
    ShowsInList(sessions, tasks, id, SCHEDULED);
    ShowsInList(sessions, tasks, id, PENDING);
  }

  lemma ShowsLive(sessions: seq<Session>, tasks: seq<Task>, id: string)
    ensures Shows(sessions, tasks, id, RUNNING) <==> Works(sessions, tasks, id, RUNNING)
    ensures Shows(sessions, tasks, id, SCHEDULED) ==> Works(sessions, tasks, id, SCHEDULED)
    ensures Works(sessions, tasks, id, SCHEDULED) && !Works(sessions, tasks, id, RUNNING) ==> Shows(sessions, tasks, id, SCHEDULED)
    ensures Shows(sessions, tasks, id, PENDING) ==> Works(sessions, tasks, id, PENDING)
  {
    forall s | s in sessions ensures EntryOf(s, tasks).status in {RUNNING, SCHEDULED, PENDING} ==> Has(tasks, s.id, EntryOf(s, tasks).status) {
      HasStatus(tasks, s.id);
    }
  }

  /** A project runs exactly when one of its sessions has a running task, whatever
      the order of the tasks; failing that, a scheduled task makes it scheduled. */
  lemma RunningIff(sessions: seq<Session>, tasks: seq<Task>, id: string)
    ensures StatusOfProject(sessions, tasks, id) == RUNNING <==> Works(sessions, tasks, id, RUNNING)
    ensures Works(sessions, tasks, id, SCHEDULED) && !Works(sessions, tasks, id, RUNNING)
            ==> StatusOfProject(sessions, tasks, id) == SCHEDULED
  {
    StatusByShows(sessions, tasks, id);
    ShowsLive(sessions, tasks, id);
  }

  // ---- Where the order of the tasks shows ----

  /** Nothing of the project runs or is scheduled, some session has a pending task,
      and every session that has one also has a task of another kind. */
  predicate Undecided(sessions: seq<Session>, tasks: seq<Task>, id: string) {
    && !Works(sessions, tasks, id, RUNNING) && !Works(sessions, tasks, id, SCHEDULED)
    && Works(sessions, tasks, id, PENDING)
    && forall s :: s in sessions && ProjectOf(s) == id && Has(tasks, s.id, PENDING) ==> HasOther(tasks, s.id)
  }

  predicate HasOther(tasks: seq<Task>, session: string) {
    exists t :: t in tasks && t.session == session && t.status != PENDING
  }

  function Pick(tasks: seq<Task>, pending: bool): seq<Task> {
    if tasks == [] then []
    else (if (tasks[0].status == PENDING) == pending then [tasks[0]] else []) + Pick(tasks[1..], pending)
  }

  lemma {:induction false} PickKeeps(tasks: seq<Task>, pending: bool)
    ensures forall t :: t in Pick(tasks, pending) <==> t in tasks && (t.status == PENDING) == pending
  {
    if tasks != [] {
      PickKeeps(tasks[1..], pending);
      assert tasks == [tasks[0]] + tasks[1..];
    }
  }

  lemma {:induction false} PickSplits(tasks: seq<Task>)
    ensures multiset(Pick(tasks, true)) + multiset(Pick(tasks, false)) == multiset(tasks)
  {
    if tasks != [] {
      var head, rest := tasks[0], tasks[1..];
      PickSplits(rest);
      assert tasks == [head] + rest;
      var yes, no := Pick(rest, true), Pick(rest, false);
      if head.status == PENDING {
        OneMore(head, yes, no, rest);
        assert Pick(tasks, true) == [head] + yes && Pick(tasks, false) == [] + no;
      } else {
        OneMore(head, no, yes, rest);
        assert Pick(tasks, false) == [head] + no && Pick(tasks, true) == [] + yes;
      }
    }
  }

  lemma OneMore<T>(x: T, a: seq<T>, b: seq<T>, rest: seq<T>)
    requires multiset(a) + multiset(b) == multiset(rest)
    ensures multiset([x] + a) + multiset(b) == multiset([x] + rest)
  {
  }

  /** Pending tasks first, or last. */
  function Arranged(tasks: seq<Task>, pendingFirst: bool): seq<Task> {
    Pick(tasks, pendingFirst) + Pick(tasks, !pendingFirst)
  }

  lemma ArrangedIsSame(tasks: seq<Task>, pendingFirst: bool)
    ensures multiset(Arranged(tasks, pendingFirst)) == multiset(tasks)
  {
    PickSplits(tasks);
  }

  lemma {:induction false} FirstOfTwo(a: seq<Task>, b: seq<Task>, session: string)
    ensures FirstStatus(a + b, session)
         == if FirstStatus(a, session).Some? then FirstStatus(a, session) else FirstStatus(b, session)
  {
    if a == [] {
      assert a + b == b;
    } else {
      assert (a + b)[1..] == a[1..] + b;
      FirstOfTwo(a[1..], b, session);
    }
  }

  lemma SameWork(sessions: seq<Session>, tasks: seq<Task>, other: seq<Task>, id: string)
    requires multiset(tasks) == multiset(other)
    ensures forall status :: Works(sessions, tasks, id, status) <==> Works(sessions, other, id, status)
    ensures forall session :: HasOther(tasks, session) <==> HasOther(other, session)
  {
    forall t ensures t in tasks <==> t in other {
      assert t in multiset(tasks) <==> t in multiset(other);
    }
  }

  /** With the pending tasks first, an undecided project is scheduled. */
  lemma PendingFirst(sessions: seq<Session>, tasks: seq<Task>, id: string)
    requires Undecided(sessions, tasks, id)
    ensures StatusOfProject(sessions, Arranged(tasks, true), id) == SCHEDULED
  {
    var p, o := Pick(tasks, true), Pick(tasks, false);
    ArrangedIsSame(tasks, true);
    SameWork(sessions, tasks, p + o, id);
    PickKeeps(tasks, true);
    PickKeeps(tasks, false);
    var s :| s in sessions && ProjectOf(s) == id && Has(tasks, s.id, PENDING);
    assert FirstStatus(p, s.id) == Some(PENDING) by {
      HasStatus(p, s.id);
      assert Task(s.id, PENDING) in p;
    }
    FirstOfTwo(p, o, s.id);
    assert !Has(p + o, s.id, RUNNING) && !Has(p + o, s.id, SCHEDULED);
    assert EntryOf(s, p + o).status == PENDING;
    StatusByShows(sessions, p + o, id);
    ShowsLive(sessions, p + o, id);
  }

  /** With them last, it is idle. */
  lemma PendingLast(sessions: seq<Session>, tasks: seq<Task>, id: string)
    requires Undecided(sessions, tasks, id)
    ensures StatusOfProject(sessions, Arranged(tasks, false), id) == IDLE
  {
    var p, o := Pick(tasks, true), Pick(tasks, false);
    ArrangedIsSame(tasks, false);
    SameWork(sessions, tasks, o + p, id);
    forall s | s in sessions && ProjectOf(s) == id ensures EntryOf(s, o + p).status != PENDING {
      OtherComesFirst(tasks, s.id);
    }
    StatusByShows(sessions, o + p, id);
    ShowsLive(sessions, o + p, id);
  }

  lemma OtherComesFirst(tasks: seq<Task>, session: string)
    requires Has(tasks, session, PENDING) ==> HasOther(tasks, session)
    ensures FirstStatus(Arranged(tasks, false), session) != Some(PENDING)
  {
    var p, o := Pick(tasks, true), Pick(tasks, false);
    PickKeeps(tasks, true);
    PickKeeps(tasks, false);
    FirstOfTwo(o, p, session);
    HasStatus(o, session);
    HasStatus(p, session);
  }

  /** A decided project shows the same status in every order. */
  lemma DecidedKeeps(sessions: seq<Session>, tasks: seq<Task>, other: seq<Task>, id: string)
    requires multiset(tasks) == multiset(other) && !Undecided(sessions, tasks, id)
    ensures StatusOfProject(sessions, other, id) == StatusOfProject(sessions, tasks, id)
  {
    SameWork(sessions, tasks, other, id);
    DecidedStatus(sessions, tasks, id);
    assert forall session, status :: Has(tasks, session, status) <==> Has(other, session, status) by {
      forall t ensures t in tasks <==> t in other {
        assert t in multiset(tasks) <==> t in multiset(other);
      }
    }
    DecidedStatus(sessions, other, id);
  }

  lemma DecidedStatus(sessions: seq<Session>, tasks: seq<Task>, id: string)
    requires !Undecided(sessions, tasks, id)
    ensures StatusOfProject(sessions, tasks, id)
         == if Works(sessions, tasks, id, RUNNING) then RUNNING
            else if Works(sessions, tasks, id, SCHEDULED) || Works(sessions, tasks, id, PENDING) then SCHEDULED else IDLE
  {
    StatusByShows(sessions, tasks, id);
    ShowsLive(sessions, tasks, id);
    if !Works(sessions, tasks, id, RUNNING) && !Works(sessions, tasks, id, SCHEDULED) && Works(sessions, tasks, id, PENDING) {
      var s :| s in sessions && ProjectOf(s) == id && Has(tasks, s.id, PENDING) && !HasOther(tasks, s.id);
      HasStatus(tasks, s.id);
      assert EntryOf(s, tasks).status == PENDING;
    }
  }

  /** The status depends on the order in which tasks are stored exactly when the
      project is undecided. */
  lemma OrderShowsIff(sessions: seq<Session>, tasks: seq<Task>, id: string)
    ensures Undecided(sessions, tasks, id) <==>
            exists other :: multiset(other) == multiset(tasks)
                            && StatusOfProject(sessions, other, id) != StatusOfProject(sessions, tasks, id)
  {
    if Undecided(sessions, tasks, id) {
      ArrangedIsSame(tasks, true);
      ArrangedIsSame(tasks, false);
      PendingFirst(sessions, tasks, id);
      PendingLast(sessions, tasks, id);
    } else {
      forall other | multiset(other) == multiset(tasks)
        ensures StatusOfProject(sessions, other, id) == StatusOfProject(sessions, tasks, id)
      {
        DecidedKeeps(sessions, tasks, other, id);
      }
    }
  }

  /** One session with a finished and a pending task: scheduled or idle. */
  lemma PendingByOrder()
    ensures var sessions := [Session("s1", "p", "local", "")];
            && StatusOfProject(sessions, [Task("s1", PENDING), Task("s1", "done")], "p") == SCHEDULED
            && StatusOfProject(sessions, [Task("s1", "done"), Task("s1", PENDING)], "p") == IDLE
  {
    var sessions := [Session("s1", "p", "local", "")];
    var a, b := [Task("s1", PENDING), Task("s1", "done")], [Task("s1", "done"), Task("s1", PENDING)];
    assert sessions[..0] == [];
    assert SessionsOf(sessions, a, "p") == [EntryOf(sessions[0], a)];
    assert SessionsOf(sessions, b, "p") == [EntryOf(sessions[0], b)];
  }
}
