/** The keys under which the tree's branches are remembered as expanded. */
module MediaKeys {
  import opened Base
  import opened MediaTree

  const MEDIUM_PREFIX := "medium:"
  const PROJECT_PREFIX := "project:"

  function MediumKey(medium: string): string {
    MEDIUM_PREFIX + medium
  }

  function ProjectKey(medium: string, project: string): string {
    PROJECT_PREFIX + medium + ":" + project
  }

  function StripPrefix(key: string, prefix: string): Option<string> {
    if prefix <= key then Some(key[|prefix|..]) else None
  }

  /** Split at the first colon; without one the second part is empty. */
  function SplitColon(rest: string): (string, string) {
    if rest == "" then ("", "")
    else if rest[0] == ':' then ("", rest[1..])
    else
      var parts := SplitColon(rest[1..]);
      ([rest[0]] + parts.0, parts.1)
  }

  predicate HasMedium(nodes: seq<MediaNode>, medium: string) {
    exists n :: n in nodes && n.id == medium
  }

  predicate HasBranch(nodes: seq<MediaNode>, medium: string, project: string) {
    exists n, b :: n in nodes && n.id == medium && b in n.projects && b.id == project
  }

  predicate KeyExists(nodes: seq<MediaNode>, key: string) {
    match StripPrefix(key, MEDIUM_PREFIX)
    case Some(medium) => HasMedium(nodes, medium)
    case None =>
      match StripPrefix(key, PROJECT_PREFIX)
      case Some(rest) => HasBranch(nodes, SplitColon(rest).0, SplitColon(rest).1)
      case None => false
  }

  /** Splitting finds the two parts again exactly when the first holds no colon. */
  lemma {:induction false} SplitFinds(medium: string, project: string)
    ensures SplitColon(medium + ":" + project) == (medium, project) <==> ':' !in medium
    ensures ':' !in SplitColon(medium + ":" + project).0
    ensures var parts := SplitColon(medium + ":" + project); parts.0 + ":" + parts.1 == medium + ":" + project
  {
    var whole := medium + ":" + project;
    if medium != "" {
      SplitFinds(medium[1..], project);
      assert whole[1..] == medium[1..] + ":" + project;
      assert medium == [medium[0]] + medium[1..];
      var inner := SplitColon(whole[1..]);
      assert [whole[0]] + (inner.0 + ":" + inner.1) == whole;
      assert ([whole[0]] + inner.0) + ":" + inner.1 == [whole[0]] + (inner.0 + ":" + inner.1);
      assert whole[0] == ':' ==> ':' in medium;
      assert ([whole[0]] + inner.0)[1..] == inner.0;
    } else {
      assert whole[1..] == project;
    }
  }

  lemma StripsBack(medium: string, project: string)
    ensures StripPrefix(MediumKey(medium), MEDIUM_PREFIX) == Some(medium)
    ensures StripPrefix(ProjectKey(medium, project), MEDIUM_PREFIX) == None
    ensures StripPrefix(ProjectKey(medium, project), PROJECT_PREFIX) == Some(medium + ":" + project)
  {
    var key := ProjectKey(medium, project);
    assert key == PROJECT_PREFIX + (medium + ":" + project);
    assert key[0] == 'p' && MEDIUM_PREFIX[0] == 'm';
  }

  /** A medium's key exists exactly when the medium does. */
  lemma MediumKeyRoundTrip(nodes: seq<MediaNode>, medium: string)
    ensures KeyExists(nodes, MediumKey(medium)) <==> HasMedium(nodes, medium)
  {
    StripsBack(medium, "");
  }

  /** A project's key exists exactly when the project does, in every tree, if and
      only if the medium's id holds no colon. */
  lemma ProjectKeyRoundTrip(medium: string, project: string)
    ensures (forall nodes :: KeyExists(nodes, ProjectKey(medium, project)) <==> HasBranch(nodes, medium, project))
       <==> ':' !in medium
  {
    StripsBack(medium, project);
    SplitFinds(medium, project);
    if ':' in medium {
      var nodes := [MediaNode(Vm, medium, "", [MediaProject(project, [])])];
      assert nodes[0] in nodes && nodes[0].projects[0] in nodes[0].projects;
      assert HasBranch(nodes, medium, project);
      assert !KeyExists(nodes, ProjectKey(medium, project));
    }
  }

  /** Without colons in the mediums, different projects have different keys, and
      no project shares a medium's. */
  lemma ProjectKeysDiffer(m: string, p: string, m': string, p': string)
    requires ':' !in m && ':' !in m' && ProjectKey(m, p) == ProjectKey(m', p')
    ensures m == m' && p == p'
  {
    StripsBack(m, p);
    StripsBack(m', p');
    SplitFinds(m, p);
    SplitFinds(m', p');
  }

  lemma KeysAreDisjoint(m: string, m': string, p': string)
    ensures MediumKey(m) != ProjectKey(m', p')
  {
    assert MediumKey(m)[0] != ProjectKey(m', p')[0];
  }

  /** A medium with a colon shares its project keys with another medium. */
  lemma ColonCollides(m: string, p: string) returns (m': string, p': string)
    requires ':' in m
    ensures m' != m && ':' !in m' && ProjectKey(m', p') == ProjectKey(m, p)
  {
    SplitFinds(m, p);
    m', p' := SplitColon(m + ":" + p).0, SplitColon(m + ":" + p).1;
    assert PROJECT_PREFIX + m' + ":" + p' == PROJECT_PREFIX + (m' + ":" + p');
    assert PROJECT_PREFIX + m + ":" + p == PROJECT_PREFIX + (m + ":" + p);
  }
}
