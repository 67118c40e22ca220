/**
 The environment state as the window keeps it: its handlers change it in place, step
 by step. Each is proved to do what its function in `MediaModel` says.
 */
module MediaState {
  import opened Base
  import opened MediaTree
  import opened MediaKeys
  import opened MediumNames
  import opened MediaModel
  import P = Projects

  class MediaState {
    var mediums: seq<MediaNode>
    var selectedMedium: string
    var selectedProject: string
    var selectedSession: string
    var expanded: seq<string>
    var custom: seq<Custom>

    function Value(): Media
      reads this
    {
      Media(mediums, selectedMedium, selectedProject, selectedSession, expanded, custom)
    }

    constructor ()
      ensures Value() == Media([], "local", DefaultProjectFor("local"), "", [MediumKey("local")], [])
    {
      mediums, custom := [], [];
      selectedMedium, selectedProject, selectedSession := "local", DefaultProjectFor("local"), "";
      expanded := [MediumKey("local")];
    }

    method AppendCustomMediums()
      modifies this`mediums
      ensures mediums == WithCustoms(old(mediums), custom)
    {
      for i := 0 to |custom|
        invariant mediums == WithCustoms(old(mediums), custom[..i])
      {
        assert custom[..i + 1][..i] == custom[..i];
        if !HasMedium(mediums, custom[i].id) {
          mediums := mediums + [CustomNode(custom[i])];
        }
      }
      assert custom[..|custom|] == custom;
    }

    method ReconcileSelection()
      modifies this`selectedMedium, this`selectedProject, this`selectedSession
      ensures Value() == Reconciled(old(Value()))
    {
      if !HasMedium(mediums, selectedMedium) {
        selectedMedium := "local";
        selectedProject := DefaultProjectFor("local");
        selectedSession := "";
        return;
      }
      if !SessionExists(mediums, selectedMedium, selectedProject, selectedSession) && selectedSession != "" {
        selectedSession := "";
      }
    }

    /** The first state of a window, from what the store holds. */
    method LoadFromDesktop(store: Store)
      requires Value() == Media([], "local", DefaultProjectFor("local"), "", [MediumKey("local")], [])
      modifies this
      ensures Value() == FromDesktop(store) && Wf(Value())
    {
      mediums := BuildFromBackend(store.projects, store.sessions);
      custom := store.stored;
      AppendCustomMediums();
      ReconcileSelection();
      StartOk(store);
    }

    /** Drop the expanded branches the tree no longer holds. */
    method RetainExpanded()
      modifies this`expanded
      ensures expanded == Resolving(mediums, old(expanded))
    {
      var kept := [];
      for i := 0 to |expanded|
        invariant kept == Resolving(mediums, expanded[..i]) && expanded == old(expanded)
      {
        assert expanded[..i + 1][..i] == expanded[..i];
        if KeyExists(mediums, expanded[i]) {
          kept := kept + [expanded[i]];
        }
      }
      assert expanded[..|expanded|] == expanded;
      expanded := kept;
    }

    method Refresh(store: Store)
      modifies this
      ensures Value() == Refreshed(old(Value()), store)
    {
      mediums := BuildFromBackend(store.projects, store.sessions);
      custom := store.stored;
      AppendCustomMediums();
      RetainExpanded();
      ReconcileSelection();
    }

    method Toggle(key: string)
      modifies this`expanded
      ensures Value() == Toggled(old(Value()), key)
    {
      if key in expanded {
        expanded := Without(expanded, key);
      } else {
        expanded := expanded + [key];
      }
    }

    method ExpandKey(key: string)
      modifies this`expanded
      ensures expanded == Expand(old(expanded), key)
    {
      if key !in expanded {
        expanded := expanded + [key];
      }
    }

    method SelectSessionAt(medium: string, project: string, session: string) returns (found: bool)
      modifies this
      ensures Value() == SelectSession(old(Value()), medium, project, session)
      ensures found <==> SessionExists(old(mediums), medium, project, session)
    {
      found := SessionExists(mediums, medium, project, session);
      if !found {
        return;
      }
      selectedMedium := medium;
      selectedProject := project;
      selectedSession := session;
      ExpandKey(MediumKey(medium));
      ExpandKey(ProjectKey(medium, project));
    }

    method SelectMediumById(medium: string) returns (found: bool)
      modifies this
      ensures Value() == SelectMedium(old(Value()), medium)
      ensures found <==> HasMedium(old(mediums), medium)
    {
      found := HasMedium(mediums, medium);
      if !found {
        return;
      }
      selectedMedium := medium;
      selectedProject := DefaultProjectFor(medium);
      selectedSession := "";
      ExpandKey(MediumKey(medium));
    }

    method AddCustom(c: Custom) returns (added: bool)
      modifies this
      ensures Value() == AddMedium(old(Value()), c)
      ensures added <==> !HasMedium(old(mediums), c.id)
    {
      added := !HasMedium(mediums, c.id);
      if !added {
        return;
      }
      mediums := mediums + [CustomNode(c)];
      custom := custom + [c];
    }

    /** The add-environment dialog: `write` is the list to persist, when there is one.
        From a well-formed state the adding never fails. */
    method OnAddMedium(input: string, other: char -> bool) returns (write: Option<seq<Custom>>)
      modifies this
      ensures Value() == OnAdd(old(Value()), input, other)
      ensures write == if Trim(input) == "" then None else Some(custom)
    {
      var title := Trim(input);
      if title == "" {
        return None;
      }
      var base := MediumIdFromLabel(title, other);
      var id, tries := FreshId(base, NodeIds(mediums));
      InNodeIds(mediums, id);
      var added := AddCustom(Custom(id, title));
      write := Some(custom);
      var selected := SelectMediumById(id);
    }
  }
}
