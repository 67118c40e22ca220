/**
 What each operation on the environment state shows: the tree, the selection and the
 expanded branches after it.
 */
module MediaEffects {
  import opened Base
  import opened MediaTree
  import opened MediaKeys
  import opened MediumNames
  import opened MediaModel
  import P = Projects

  // ---- Keys and branches ----

  /** Only the keys of branches that are there exist; a project's is read up to its first colon. */
  lemma KeysAreOfBranches(nodes: seq<MediaNode>, key: string)
    requires KeyExists(nodes, key)
    ensures (exists medium :: HasMedium(nodes, medium) && key == "medium:" + medium)
         || (exists medium, project :: HasBranch(nodes, medium, project) && ':' !in medium
               && (key == "project:" + medium + ":" + project || (project == "" && key == "project:" + medium)))
  {
    match StripPrefix(key, MEDIUM_PREFIX)
    case Some(medium) => assert key == "medium:" + medium && HasMedium(nodes, medium);
    case None =>
      var rest := StripPrefix(key, PROJECT_PREFIX).value;
      SplitIsRest(rest);
      var (medium, project) := SplitColon(rest);
      assert HasBranch(nodes, medium, project) && key == "project:" + rest;
      assert "project:" + (medium + ":" + project) == "project:" + medium + ":" + project;
  }

  lemma {:induction false} SplitIsRest(rest: string)
    ensures var (medium, project) := SplitColon(rest);
            ':' !in medium && (rest == medium + ":" + project || (project == "" && rest == medium))
  {
    if rest != "" && rest[0] != ':' {
      SplitIsRest(rest[1..]);
      var (medium, project) := SplitColon(rest[1..]);
      assert rest == [rest[0]] + rest[1..];
      assert [rest[0]] + (medium + ":" + project) == ([rest[0]] + medium) + ":" + project;
    } else if rest != "" {
      assert rest == "" + ":" + rest[1..];
    }
  }

  /** Keys that stay are those that exist, in order. */
  lemma {:induction false} ResolvingIs(nodes: seq<MediaNode>, a: seq<string>, key: string, c: seq<string>)
    ensures Resolving(nodes, a + [key] + c) == Resolving(nodes, a) + (if KeyExists(nodes, key) then [key] else []) + Resolving(nodes, c)
  {
    if c == [] {
      assert a + [key] + c == a + [key] && (a + [key])[..|a|] == a;
    } else {
      ResolvingIs(nodes, a, key, c[..|c| - 1]);
      assert (a + [key] + c)[..|a + [key] + c| - 1] == a + [key] + c[..|c| - 1];
    }
  }

  lemma {:induction false} WithoutIs(a: seq<string>, k: string, c: seq<string>, key: string)
    ensures Without(a + [k] + c, key) == Without(a, key) + (if k == key then [] else [k]) + Without(c, key)
  {
    if c == [] {
      assert a + [k] + c == a + [k] && (a + [k])[..|a|] == a;
    } else {
      WithoutIs(a, k, c[..|c| - 1], key);
      assert (a + [k] + c)[..|a + [k] + c| - 1] == a + [k] + c[..|c| - 1];
    }
  }

  /** A toggle closes an open branch and opens another, behind the others. */
  lemma ToggleDoes(m: Media, key: string)
    ensures var r := Toggled(m, key);
            && r == m.(expanded := r.expanded)
            && (if key in m.expanded then forall k :: k in r.expanded <==> k in m.expanded && k != key
                else r.expanded == m.expanded + [key])
  {
    WithoutTakes(m.expanded, key);
  }

  ghost predicate AllResolve(m: Media) {
    forall key :: key in m.expanded ==> KeyExists(m.mediums, key)
  }

  /** An unknown key is not ignored: a toggle keeps the expanded keys those of branches that
      are there exactly when it closes one or its branch is there. */
  lemma ToggleResolvesIff(m: Media, key: string)
    requires AllResolve(m)
    ensures AllResolve(Toggled(m, key)) <==> key in m.expanded || KeyExists(m.mediums, key)
  {
    ToggleDoes(m, key);
    assert key !in m.expanded ==> key in Toggled(m, key).expanded;
  }

  // ---- Selections ----

  /** The project a medium's turns run in before a session is picked. */
  predicate StartsIn(medium: string, project: string) {
    project == if medium == "remote" then "remote" else "default"
  }

  lemma DefaultsAre(medium: string)
    ensures StartsIn(medium, DefaultProjectFor(medium))
  {
  }

  /** The branch is open, and those open before stand where they stood. */
  ghost predicate Opens(was: seq<string>, now: seq<string>, keys: seq<string>) {
    was <= now && (forall k :: k in now <==> k in was || k in keys) && |now| <= |was| + |keys|
    && (Distinct(was) ==> Distinct(now))
  }

  /** A session that is there is selected, with its branch open; another changes nothing. */
  lemma SelectSessionDoes(m: Media, medium: string, project: string, session: string)
    requires TreeOk(m.mediums)
    ensures var r := SelectSession(m, medium, project, session);
            if !At(m.mediums, medium, project, session) then r == m
            else
              && r == m.(selectedMedium := medium, selectedProject := project, selectedSession := session, expanded := r.expanded)
              && Opens(m.expanded, r.expanded, ["medium:" + medium, "project:" + medium + ":" + project])
  {
    SelectableIffAt(m.mediums, medium, project, session);
    assert MediumKey(medium) == "medium:" + medium && ProjectKey(medium, project) == "project:" + medium + ":" + project;
    if Distinct(m.expanded) {
      ExpandDistinct(m.expanded, MediumKey(medium));
      ExpandDistinct(Expand(m.expanded, MediumKey(medium)), ProjectKey(medium, project));
    }
  }

  /** A medium that is there is selected, in its starting project and without a session. */
  lemma SelectMediumDoes(m: Media, medium: string)
    ensures var r := SelectMedium(m, medium);
            if !HasMedium(m.mediums, medium) then r == m
            else
              && r == m.(selectedMedium := medium, selectedProject := r.selectedProject, selectedSession := "", expanded := r.expanded)
              && StartsIn(medium, r.selectedProject) && Opens(m.expanded, r.expanded, ["medium:" + medium])
  {
    if Distinct(m.expanded) {
      ExpandDistinct(m.expanded, MediumKey(medium));
    }
  }

  /** The remote environment is picked only once it has a worker. */
  lemma PickDoes(w: World, medium: string, configured: bool, other: char -> bool)
    ensures Next(w, PickMedium(medium, configured), other)
         == if medium == "remote" && !configured then w else w.(media := SelectMedium(w.media, medium))
    ensures forall project, session :: Next(w, PickSession(medium, project, session), other)
                                    == w.(media := SelectSession(w.media, medium, project, session))
  {
  }

  lemma ToggledAndStored(w: World, key: string, projects: seq<P.Project>, sessions: seq<P.Session>, other: char -> bool)
    ensures Next(w, Toggle(key), other) == w.(media := Toggled(w.media, key))
    ensures Next(w, Backend(projects, sessions), other) == w.(store := Store(projects, sessions, w.store.stored))
  {
  }

  // ---- Environments the user adds ----

  /** Such an environment has one project with one session of its own. */
  predicate IsCustom(n: MediaNode, c: Custom) {
    && n.kind == Vm && n.id == c.id && n.title == c.title && |n.projects| == 1 && n.projects[0].id == "default"
    && n.projects[0].sessions == [MediaSession("s-" + c.id, "/workspace/" + c.id)]
  }

  /** Those of the store follow the built-in ones, each under an id not there before it. */
  lemma {:induction false} CustomsDo(nodes: seq<MediaNode>, custom: seq<Custom>, k: nat)
    requires |nodes| <= k < |WithCustoms(nodes, custom)|
    ensures exists c :: c in custom && IsCustom(WithCustoms(nodes, custom)[k], c)
  {
    if custom != [] {
      var front, last := custom[..|custom| - 1], custom[|custom| - 1];
      assert custom == front + [last];
      var before := WithCustoms(nodes, front);
      if k < |before| {
        CustomsDo(nodes, front, k);
        var c :| c in front && IsCustom(before[k], c);
        assert WithCustoms(nodes, custom)[k] == before[k];
      } else {
        assert last in custom && IsCustom(CustomNode(last), last);
      }
    }
  }

  /** A new one is added last, to the tree and to what is persisted; a taken id is refused. */
  lemma AddMediumDoes(m: Media, c: Custom)
    ensures var r := AddMedium(m, c);
            if HasMedium(m.mediums, c.id) then r == m
            else
              && r == m.(mediums := r.mediums, custom := m.custom + [c])
              && |r.mediums| == |m.mediums| + 1 && m.mediums <= r.mediums && IsCustom(r.mediums[|m.mediums|], c)
  {
  }

  /** Adding by a label: the title is trimmed; the store keeps the list if it takes the
      write; a blank label changes nothing. */
  lemma AddDoes(w: World, input: string, persists: bool, other: char -> bool)
    requires Wf(w.media)
    ensures var r := Next(w, Add(input, persists), other);
            if Trim(input) == "" then r == w
            else
              var c := Custom(NewId(w.media, Trim(input), other), Trim(input));
              && r.store == (if persists then w.store.(stored := w.media.custom + [c]) else w.store)
              && r.media == w.media.(mediums := r.media.mediums, custom := w.media.custom + [c], selectedMedium := c.id,
                                     selectedProject := r.media.selectedProject, selectedSession := "", expanded := r.media.expanded)
              && StartsIn(c.id, r.media.selectedProject)
              && |r.media.mediums| == |w.media.mediums| + 1 && w.media.mediums <= r.media.mediums
              && IsCustom(r.media.mediums[|w.media.mediums|], c)
              && Opens(w.media.expanded, r.media.expanded, ["medium:" + c.id])
  {
    if Trim(input) != "" {
      AddSelectsTheNew(w.media, input, other);
      var c := Custom(NewId(w.media, Trim(input), other), Trim(input));
      AddMediumDoes(w.media, c);
      SelectMediumDoes(AddMedium(w.media, c), c.id);
    }
  }

  // ---- Refreshes ----

  /** The selection after the tree has changed: a medium that is gone gives way to the local
      one, a session that is gone to none. */
  predicate Reselected(was: Media, now: Media) {
    if !HasMedium(now.mediums, was.selectedMedium)
    then now.selectedMedium == "local" && now.selectedProject == "default" && now.selectedSession == ""
    else
      && now.selectedMedium == was.selectedMedium && now.selectedProject == was.selectedProject
      && now.selectedSession == (if At(now.mediums, was.selectedMedium, was.selectedProject, was.selectedSession)
                                 then was.selectedSession else "")
  }

  lemma ReconciledDoes(m: Media)
    requires TreeOk(m.mediums)
    ensures var r := Reconciled(m); r.mediums == m.mediums && r.expanded == m.expanded && r.custom == m.custom && Reselected(m, r)
  {
    SelectableIffAt(m.mediums, m.selectedMedium, m.selectedProject, m.selectedSession);
  }

  /** A refresh takes tree and environments from the store, keeps the open branches that are
      there, and reselects. */
  lemma RefreshDoes(w: World, other: char -> bool)
    ensures var r := Next(w, Refresh, other);
            && r.store == w.store && r.media.custom == w.store.stored
            && r.media.mediums == WithCustoms(Built(w.store.projects, w.store.sessions), w.store.stored)
            && r.media.expanded == Resolving(r.media.mediums, w.media.expanded) && Reselected(w.media, r.media)
  {
    BuiltOk(w.store.projects, w.store.sessions);
    CustomsOk(Built(w.store.projects, w.store.sessions), w.store.stored);
    var nodes := WithCustoms(Built(w.store.projects, w.store.sessions), w.store.stored);
    ReconciledDoes(w.media.(mediums := nodes, custom := w.store.stored, expanded := Resolving(nodes, w.media.expanded)));
  }

  /** A window opens on the local environment, its branch open. */
  lemma OpensLocal(store: Store)
    ensures var m := FromDesktop(store);
            && m.selectedMedium == "local" && m.selectedProject == "default" && m.selectedSession == ""
            && m.expanded == ["medium:local"] && m.custom == store.stored
            && m.mediums == WithCustoms(Built(store.projects, store.sessions), store.stored)
  {
    BuiltOk(store.projects, store.sessions);
    CustomsOk(Built(store.projects, store.sessions), store.stored);
    var nodes := WithCustoms(Built(store.projects, store.sessions), store.stored);
    assert HasMedium(nodes, "local") by {
      assert nodes[0].id == "local" && nodes[0] in nodes;
    }
    assert MediumKey("local") == "medium:local";
    ReconciledDoes(Media(nodes, "local", "default", "", ["medium:local"], store.stored));
  }
}
