/** The org-chart reshaping of the plugin service (server/src/services/service.ts):
    employee and project documents of the content store become the flat node lists the
    chart front end draws, and the stored global chart configuration is read back with
    defaults. */
module OrgChart {
  import opened Text
  import Js
  import Media

  /** Added to a leader's id so that it cannot collide with a project id. */
  const LeaderIdOffset: nat := 100000000
  const DefaultAvatar: string := "/avatar.png"
  const ProjectTag: string := "project"

  // ===========================================================================
  // Values of the store

  /** `a ?? b ?? ... ?? null`: the first value that is neither null nor undefined. */
  function FirstDefined(vs: seq<Js.Value>): (r: Js.Value)
    ensures r.Null? || r in vs
    ensures forall k | 0 <= k < |vs| :: Js.Nullish(vs[k]) || !Js.Nullish(r)
  {
    if vs == [] then Js.Null
    else if !Js.Nullish(vs[0]) then vs[0]
    else FirstDefined(vs[1..])
  }

  lemma FirstDefinedCons(v: Js.Value, vs: seq<Js.Value>)
    ensures FirstDefined([v] + vs) == Js.Coalesce(v, FirstDefined(vs))
  {
    assert ([v] + vs)[1..] == vs;
  }

  /** The lookup chain of a duty record. */
  lemma FirstDefinedFour(a: Js.Value, b: Js.Value, c: Js.Value, d: Js.Value)
    ensures FirstDefined([a, b, c, d])
         == Js.Coalesce(a, Js.Coalesce(b, Js.Coalesce(c, Js.Coalesce(d, Js.Null))))
  {
    FirstDefinedCons(d, []);
    FirstDefinedCons(c, [d]);
    FirstDefinedCons(b, [c, d]);
    FirstDefinedCons(a, [b, c, d]);
    assert [a, b, c, d] == [a] + [b, c, d] && [b, c, d] == [b] + [c, d] && [c, d] == [c] + [d];
  }

  /** A reference to another document: a bare value, or a populated record of which only
      the ids were fetched. A missing reference is `RefValue(Undefined)`. */
  datatype Ref = RefValue(v: Js.Value) | RefRecord(id: Js.Value, documentId: Js.Value)

  /** A duty entry: a bare value (usually a string), or a record that may name the duty
      under one of several keys. */
  datatype Duty = DutyValue(v: Js.Value) | DutyRecord(text: Js.Value, title: Js.Value, name: Js.Value, value: Js.Value)

  /** An employee document. `avatar` and `duties` are none when absent or, for the
      duties, when the field is not an array; a missing name is none. */
  datatype Employee = Employee(
    id: Js.Value, documentId: Js.Value, chief: Ref, avatar: Option<Media.Image>,
    duties: Option<seq<Duty>>, firstName: Option<string>, lastName: Option<string>,
    position: Js.Value, tags: Js.Value, project: Js.Value)

  /** A leader group of a project: the leader, when set, and the employees under them,
      none when the field is not an array. */
  datatype Group = Group(leader: Option<Employee>, employees: Option<seq<Employee>>)

  /** A project document; `leaders` is none when it is not an array. */
  datatype Project = Project(id: Js.Value, documentId: Js.Value, name: Js.Value,
                             img: Option<Media.Image>, leaders: Option<seq<Group>>)

  /** A chart node. `pid` is none when the node has no parent key at all. */
  datatype Node = Node(
    id: Js.Value, pid: Option<Js.Value>, name: Js.Value, title: Js.Value, img: Js.Value,
    tags: seq<string>, projects: seq<Js.Value>, responsibilities: seq<Js.Value>)

  // ===========================================================================
  // shortName

  /** `shortName(first, last)` (a missing name is ""): nothing when both names are blank,
      the last name alone when the first is blank, otherwise the initial of the first
      name, a dot and the last name. Both names are trimmed first. */
  function ShortName(first: string, last: string): (r: string)
    ensures IsTrimmed(r)
    ensures Trim(first) == "" ==> r == Trim(last)
    ensures Trim(first) != "" ==> r == [Trim(first)[0]] + "." + Trim(last)
  {
    var f := Trim(first);
    var l := Trim(last);
    if f == "" && l == "" then ""
    else if f == "" then l
    else
      InitialTrimmed(f[0], l);
      Trim([f[0]] + "." + l)
  }

  /** The final trim of `shortName` changes nothing: the initial of a trimmed name is not
      white space, and the string ends in the dot or in the trimmed last name. */
  lemma InitialTrimmed(c: char, l: string)
    requires !IsSpace(c) && IsTrimmed(l)
    ensures Trim([c] + "." + l) == [c] + "." + l
  {
    var s := [c] + "." + l;
    assert s[0] == c;
    assert s[|s| - 1] == if l == "" then '.' else l[|l| - 1];
    TrimOfTrimmed(s);
  }

  // ===========================================================================
  // normalizeDutyText

  /** `normalizeDutyText`: null for a falsy entry, the entry itself for a string, and
      for a record the first of its text, title, name and value that is defined. A
      truthy entry that is neither a string nor a record names no duty. */
  function DutyText(d: Duty): (r: Js.Value)
    ensures d.DutyValue? && d.v.Str? && d.v.s != "" ==> r == d.v
    ensures d.DutyValue? && !(d.v.Str? && d.v.s != "") ==> r.Null?
    ensures d.DutyRecord? ==> r == FirstDefined([d.text, d.title, d.name, d.value])
  {
    match d
    case DutyValue(v) =>
      if !Js.Truthy(v) then Js.Null
      else if v.Str? then v
      else Js.Null
    case DutyRecord(text, title, name, value) =>
      FirstDefinedFour(text, title, name, value);
      Js.Coalesce(text, Js.Coalesce(title, Js.Coalesce(name, Js.Coalesce(value, Js.Null))))
  }

  // ===========================================================================
  // mapEmployee

  /** The parent id an employee's chief gives: undefined without a (truthy) chief, the
      defined id of a chief record, the bare value otherwise. */
  function ChiefId(chief: Ref): Js.Value {
    match chief
    case RefValue(v) => if Js.Truthy(v) then v else Js.Undefined
    case RefRecord(id, documentId) => Js.Coalesce(id, Js.Coalesce(documentId, Js.Null))
  }

  /** The `pid` key: present only when the chief's id is truthy. */
  function ParentKey(chief: Ref): (r: Option<Js.Value>)
    ensures r.Some? ==> Js.Truthy(r.value)
    ensures chief.RefValue? && !Js.Truthy(chief.v) ==> r.None?
    ensures chief.RefValue? && Js.Truthy(chief.v) ==> r == Some(chief.v)
    ensures chief.RefRecord? ==>
      var id := FirstDefined([chief.id, chief.documentId]);
      r == if Js.Truthy(id) then Some(id) else None
  {
    var pid := ChiefId(chief);
    if Js.Truthy(pid) then Some(pid) else None
  }

  /** `avatarObj?.url || '/avatar.png'` for an optional media entry. */
  function AvatarUrl(image: Option<Media.Image>): (r: Js.Value)
    ensures Js.Truthy(r)
    ensures image.Some? && Js.Truthy(image.value.url) ==> r == image.value.url
    ensures !(image.Some? && Js.Truthy(image.value.url)) ==> r == Js.Str(DefaultAvatar)
  {
    match Media.NormalizeImage(image)
    case None => Js.Str(DefaultAvatar)
    case Some(n) => Js.Or(n.url, Js.Str(DefaultAvatar))
  }

  /** `pieces.map(t => t.trim()).filter(Boolean)`. */
  function TrimmedPieces(pieces: seq<string>): seq<string> {
    if pieces == [] then []
    else
      var t := Trim(pieces[0]);
      (if t == "" then [] else [t]) + TrimmedPieces(pieces[1..])
  }

  /** The tags of an employee: the comma-separated pieces of `String(tags)`, trimmed,
      without the empty ones; none when `tags` is falsy. */
  function Tags(tags: Js.Value): seq<string> {
    if Js.Truthy(tags) then TrimmedPieces(Split(Js.ToString(tags), ',')) else []
  }

  /** `duties.map(normalizeDutyText).filter(Boolean)`. */
  function DutyTexts(duties: seq<Duty>): seq<Js.Value> {
    if duties == [] then []
    else
      var t := DutyText(duties[0]);
      (if Js.Truthy(t) then [t] else []) + DutyTexts(duties[1..])
  }

  /** `mapEmployee`: the chart node of an employee document. */
  function MapEmployee(e: Employee): Node {
    Node(
      Js.Coalesce(e.id, Js.Coalesce(e.documentId, Js.Null)),
      ParentKey(e.chief),
      Js.Str(ShortName(e.firstName.GetOr(""), e.lastName.GetOr(""))),
      Js.Coalesce(e.position, Js.Null),
      AvatarUrl(e.avatar),
      Tags(e.tags),
      if Js.Truthy(e.project) then [e.project] else [],
      match e.duties
      case None => []
      case Some(ds) => DutyTexts(ds))
  }

  /** Trimming a piece without commas keeps it without commas. */
  lemma TrimNoComma(s: string)
    requires ',' !in s
    ensures ',' !in Trim(s)
  {
    var a := SpaceRun(s);
    forall k | 0 <= k < |Trim(s)| ensures Trim(s)[k] != ',' {
      assert Trim(s)[k] == s[a + k];
    }
  }

  /** Every piece kept is non-empty, trimmed and free of commas, and the kept pieces are
      exactly the trimmed non-empty pieces. */
  lemma {:induction false} TrimmedPiecesHas(pieces: seq<string>, x: string)
    requires forall k | 0 <= k < |pieces| :: ',' !in pieces[k]
    ensures forall k | 0 <= k < |TrimmedPieces(pieces)| ::
      TrimmedPieces(pieces)[k] != "" && IsTrimmed(TrimmedPieces(pieces)[k]) && ',' !in TrimmedPieces(pieces)[k]
    ensures x in TrimmedPieces(pieces) <==> x != "" && exists p | p in pieces :: Trim(p) == x
  {
    if pieces != [] {
      var t := Trim(pieces[0]);
      var rest := pieces[1..];
      TrimNoComma(pieces[0]);
      TrimmedPiecesHas(rest, x);
      var head := if t == "" then [] else [t];
      assert TrimmedPieces(pieces) == head + TrimmedPieces(rest);
      assert forall p | p in pieces :: p == pieces[0] || p in rest;
      assert forall p | p in rest :: p in pieces;
    }
  }

  /** The tags of an employee are non-empty, trimmed and comma-free, and a string is a
      tag exactly when it is a non-empty trimmed piece of the comma-split field. */
  lemma TagsAreClean(tags: Js.Value, x: string)
    ensures forall k | 0 <= k < |Tags(tags)| ::
      Tags(tags)[k] != "" && IsTrimmed(Tags(tags)[k]) && ',' !in Tags(tags)[k]
    ensures x in Tags(tags) <==>
      Js.Truthy(tags) && x != "" && exists p | p in Split(Js.ToString(tags), ',') :: Trim(p) == x
  {
    if Js.Truthy(tags) {
      TrimmedPiecesHas(Split(Js.ToString(tags), ','), x);
    }
  }

  /** The responsibilities are exactly the truthy duty texts. */
  lemma {:induction false} DutyTextsHas(duties: seq<Duty>, v: Js.Value)
    ensures v in DutyTexts(duties) <==> Js.Truthy(v) && exists d | d in duties :: DutyText(d) == v
  {
    if duties != [] {
      var t := DutyText(duties[0]);
      var rest := duties[1..];
      DutyTextsHas(rest, v);
      var head := if Js.Truthy(t) then [t] else [];
      assert DutyTexts(duties) == head + DutyTexts(rest);
      assert forall d | d in duties :: d == duties[0] || d in rest;
      assert forall d | d in rest :: d in duties;
    }
  }

  /** What an employee node holds: the first defined of its ids, a parent key exactly
      when the chief gives a truthy id, the trimmed short name, the position or null, a
      truthy image, clean tags, only truthy responsibilities, and its project when that
      is truthy. */
  lemma MapEmployeeShape(e: Employee)
    ensures var n := MapEmployee(e);
      && n.id == FirstDefined([e.id, e.documentId])
      && n.pid == ParentKey(e.chief)
      && n.name.Str? && IsTrimmed(n.name.s)
      && n.title == FirstDefined([e.position])
      && Js.Truthy(n.img)
      && (forall k | 0 <= k < |n.tags| :: n.tags[k] != "" && IsTrimmed(n.tags[k]) && ',' !in n.tags[k])
      && (forall k | 0 <= k < |n.responsibilities| :: Js.Truthy(n.responsibilities[k]))
      && n.projects == if Js.Truthy(e.project) then [e.project] else []
  {
    var n := MapEmployee(e);
    TagsAreClean(e.tags, "");
    var ds := e.duties.GetOr([]);
    assert n.responsibilities == DutyTexts(ds);
    forall k | 0 <= k < |n.responsibilities| ensures Js.Truthy(n.responsibilities[k]) {
      DutyTextsHas(ds, n.responsibilities[k]);
    }
    FirstDefinedCons(e.id, [e.documentId]);
    FirstDefinedCons(e.documentId, []);
    FirstDefinedCons(e.position, []);
  }

  // ===========================================================================
  // mapProject

  /** `mapProject`: the chart node of a project document. */
  function MapProject(p: Project): Node {
    var name := Js.Coalesce(p.name, Js.Str(""));
    Node(Js.Coalesce(p.id, Js.Coalesce(p.documentId, Js.Null)), None, name, Js.Null,
         AvatarUrl(p.img), [ProjectTag], if Js.Truthy(name) then [name] else [], [])
  }

  /** A project node has the first defined of the project's ids, no parent key, no
      title, the single tag "project", no responsibilities and a truthy image, and lists
      its name (empty when undefined) as its project exactly when that name is truthy. */
  lemma MapProjectShape(p: Project)
    ensures var n := MapProject(p);
      && n.id == FirstDefined([p.id, p.documentId])
      && n.pid.None? && n.title.Null? && n.tags == [ProjectTag] && n.responsibilities == []
      && n.name == (if Js.Nullish(p.name) then Js.Str("") else p.name)
      && Js.Truthy(n.img)
      && |n.projects| <= 1 && (n.projects != [] <==> Js.Truthy(n.name))
      && forall x | x in n.projects :: x == n.name
  {
    FirstDefinedCons(p.id, [p.documentId]);
    FirstDefinedCons(p.documentId, []);
  }

  // ===========================================================================
  // getProjectsStructure

  /** `id + 100000000` in JavaScript: numeric addition for numbers, null and booleans,
      string concatenation for strings. A mapped id is never undefined (it falls back to
      null), so the NaN of `undefined + 100000000` does not arise. */
  function OffsetId(id: Js.Value): Js.Value {
    match id
    case Num(n) => Js.Num(n + LeaderIdOffset)
    case Null => Js.Num(LeaderIdOffset)
    case Bool(b) => Js.Num((if b then 1 else 0) + LeaderIdOffset)
    case Str(s) => Js.Str(s + Js.NatToString(LeaderIdOffset))
    case Undefined => Js.Undefined
  }

  /** The node of a group's leader: its id offset, its parent the project, its projects
      the project's. */
  function LeaderNode(leader: Employee, project: Node): Node {
    var n := MapEmployee(leader);
    n.(id := OffsetId(n.id), pid := Some(project.id), projects := project.projects)
  }

  /** The node of an employee of a group: its parent the (offset) leader, its projects
      the project's. */
  function EmployeeNode(e: Employee, leader: Node, project: Node): Node {
    MapEmployee(e).(pid := Some(leader.id), projects := project.projects)
  }

  /** The nodes of a group's employees, in order. */
  function EmployeeNodes(es: seq<Employee>, leader: Node, project: Node): (r: seq<Node>)
    ensures |r| == |es|
  {
    seq(|es|, k requires 0 <= k < |es| => EmployeeNode(es[k], leader, project))
  }

  lemma EmployeeNodesStep(es: seq<Employee>, k: nat, leader: Node, project: Node)
    requires k < |es|
    ensures EmployeeNodes(es[..k + 1], leader, project)
         == EmployeeNodes(es[..k], leader, project) + [EmployeeNode(es[k], leader, project)]
  {
    var f := (e: Employee) => EmployeeNode(e, leader, project);
    ComprehensionStep(es, k, f);
  }

  lemma ComprehensionStep<A, B>(xs: seq<A>, k: nat, f: A -> B)
    requires k < |xs|
    ensures seq(k + 1, i requires 0 <= i < k + 1 => f(xs[..k + 1][i]))
         == seq(k, i requires 0 <= i < k => f(xs[..k][i])) + [f(xs[k])]
  {
  }

  /** The nodes a group contributes: none without a leader, otherwise the leader followed
      by the group's employees. */
  function GroupNodes(g: Group, project: Node): seq<Node> {
    match g.leader
    case None => []
    case Some(l) =>
      var leader := LeaderNode(l, project);
      [leader] + EmployeeNodes(g.employees.GetOr([]), leader, project)
  }

  function GroupsNodes(gs: seq<Group>, project: Node): seq<Node> {
    if gs == [] then []
    else GroupsNodes(gs[..|gs| - 1], project) + GroupNodes(gs[|gs| - 1], project)
  }

  /** The nodes of one project: the project node, then its groups in order. */
  function ProjectNodes(p: Project): seq<Node> {
    var node := MapProject(p);
    [node] + GroupsNodes(p.leaders.GetOr([]), node)
  }

  /** The chart of all projects, in preorder. */
  function Structure(ps: seq<Project>): seq<Node> {
    if ps == [] then []
    else Structure(ps[..|ps| - 1]) + ProjectNodes(ps[|ps| - 1])
  }

  lemma Associative(a: seq<Node>, b: seq<Node>, c: seq<Node>)
    ensures (a + b) + c == a + (b + c)
  {
  }

  lemma GroupsNodesStep(gs: seq<Group>, j: nat, project: Node)
    requires j < |gs|
    ensures GroupsNodes(gs[..j + 1], project) == GroupsNodes(gs[..j], project) + GroupNodes(gs[j], project)
  {
    assert gs[..j + 1][..j] == gs[..j];
  }

  /** The innermost loop of `getProjectsStructure`: when the group has a leader, the
      leader's node and then the node of each employee of the group are appended. */
  method AppendGroup(result: seq<Node>, group: Group, projectNode: Node) returns (out: seq<Node>)
    ensures out == result + GroupNodes(group, projectNode)
  {
    out := result;
    if group.leader.Some? {
      var leaderNode := MapEmployee(group.leader.value);
      leaderNode := leaderNode.(id := OffsetId(leaderNode.id));
      leaderNode := leaderNode.(pid := Some(projectNode.id));
      leaderNode := leaderNode.(projects := projectNode.projects);
      assert leaderNode == LeaderNode(group.leader.value, projectNode);
      out := out + [leaderNode];
      var emps := group.employees.GetOr([]);
      for k := 0 to |emps|
        invariant out == (result + [leaderNode]) + EmployeeNodes(emps[..k], leaderNode, projectNode)
      {
        var empNode := MapEmployee(emps[k]);
        empNode := empNode.(pid := Some(leaderNode.id));
        empNode := empNode.(projects := projectNode.projects);
        EmployeeNodesStep(emps, k, leaderNode, projectNode);
        Associative(result + [leaderNode], EmployeeNodes(emps[..k], leaderNode, projectNode), [empNode]);
        out := out + [empNode];
      }
      assert emps[..|emps|] == emps;
      Associative(result, [leaderNode], EmployeeNodes(emps, leaderNode, projectNode));
    }
  }

  /** One turn of the outer loop of `getProjectsStructure`: the project's node, then
      the nodes of each of its groups. */
  method AppendProject(result: seq<Node>, p: Project) returns (out: seq<Node>)
    ensures out == result + ProjectNodes(p)
  {
    var projectNode := MapProject(p);
    out := result + [projectNode];
    var groups := p.leaders.GetOr([]);
    for j := 0 to |groups|
      invariant out == (result + [projectNode]) + GroupsNodes(groups[..j], projectNode)
    {
      GroupsNodesStep(groups, j, projectNode);
      Associative(result + [projectNode], GroupsNodes(groups[..j], projectNode), GroupNodes(groups[j], projectNode));
      out := AppendGroup(out, groups[j], projectNode);
    }
    assert groups[..|groups|] == groups;
    Associative(result, [projectNode], GroupsNodes(groups, projectNode));
  }

  /** `getProjectsStructure`: the nodes of every project, in order. */
  method GetProjectsStructure(projects: seq<Project>) returns (result: seq<Node>)
    ensures result == Structure(projects)
  {
    result := [];
    for i := 0 to |projects|
      invariant result == Structure(projects[..i])
    {
      assert projects[..i + 1][..i] == projects[..i];
      result := AppendProject(result, projects[i]);
    }
    assert projects[..|projects|] == projects;
  }

  // ---------------------------------------------------------------------------
  // Properties of the chart

  /** Number of nodes a group contributes: its leader and employees, none without a
      leader. */
  function GroupSize(g: Group): nat {
    if g.leader.None? then 0 else 1 + |g.employees.GetOr([])|
  }

  function GroupsSize(gs: seq<Group>): nat {
    if gs == [] then 0 else GroupsSize(gs[..|gs| - 1]) + GroupSize(gs[|gs| - 1])
  }

  /** Number of chart nodes: one per project plus the sizes of its groups. */
  function StructureSize(ps: seq<Project>): nat {
    if ps == [] then 0
    else StructureSize(ps[..|ps| - 1]) + 1 + GroupsSize(ps[|ps| - 1].leaders.GetOr([]))
  }

  lemma {:induction false} GroupsNodesLength(gs: seq<Group>, project: Node)
    ensures |GroupsNodes(gs, project)| == GroupsSize(gs)
  {
    if gs != [] {
      GroupsNodesLength(gs[..|gs| - 1], project);
    }
  }

  /** The chart has one node per project, and per group with a leader one node for the
      leader and one per employee; groups without a leader add nothing. */
  lemma {:induction false} StructureLength(ps: seq<Project>)
    ensures |Structure(ps)| == StructureSize(ps)
  {
    if ps != [] {
      StructureLength(ps[..|ps| - 1]);
      var p := ps[|ps| - 1];
      GroupsNodesLength(p.leaders.GetOr([]), MapProject(p));
    }
  }

  /** The links inside a group: the leader's id is its mapped id offset, its parent is
      the project, and every employee's parent is the leader; all of them list the
      project's projects. */
  lemma GroupNodesLinks(g: Group, project: Node)
    requires g.leader.Some?
    ensures var b := GroupNodes(g, project);
      && |b| == 1 + |g.employees.GetOr([])|
      && b[0].id == OffsetId(FirstDefined([g.leader.value.id, g.leader.value.documentId]))
      && b[0].pid == Some(project.id)
      && b[0].projects == project.projects
      && forall k | 1 <= k < |b| :: b[k].pid == Some(b[0].id) && b[k].projects == project.projects
  {
    var l := g.leader.value;
    MapEmployeeShape(l);
    var leader := LeaderNode(l, project);
    EmployeeNodesLinks(g.employees.GetOr([]), leader, project);
  }

  lemma EmployeeNodesLinks(es: seq<Employee>, leader: Node, project: Node)
    ensures forall k | 0 <= k < |es| ::
      EmployeeNodes(es, leader, project)[k].pid == Some(leader.id)
      && EmployeeNodes(es, leader, project)[k].projects == project.projects
  {
  }

  /** The ids of a list of nodes. */
  function IdSet(ns: seq<Node>): set<Js.Value> {
    set k | 0 <= k < |ns| :: ns[k].id
  }

  /** Every parent key of `ns` names one of `ids` or the id of an earlier node. */
  predicate ParentsIn(ns: seq<Node>, ids: set<Js.Value>) {
    forall i | 0 <= i < |ns| :: ns[i].pid.Some? ==> ns[i].pid.value in ids + IdSet(ns[..i])
  }

  lemma IdSetAppend(a: seq<Node>, b: seq<Node>)
    ensures IdSet(a + b) == IdSet(a) + IdSet(b)
  {
    forall x | x in IdSet(a) ensures x in IdSet(a + b) {
      var k :| 0 <= k < |a| && a[k].id == x;
      assert (a + b)[k].id == x;
    }
    forall x | x in IdSet(a + b) ensures x in IdSet(a) + IdSet(b) {
      var k :| 0 <= k < |a + b| && (a + b)[k].id == x;
      if k >= |a| { assert b[k - |a|].id == x; }
    }
    forall x | x in IdSet(b) ensures x in IdSet(a + b) {
      var k :| 0 <= k < |b| && b[k].id == x;
      assert (a + b)[|a| + k].id == x;
    }
  }

  lemma ParentsInAppend(a: seq<Node>, b: seq<Node>, ids: set<Js.Value>)
    requires ParentsIn(a, ids) && ParentsIn(b, ids + IdSet(a))
    ensures ParentsIn(a + b, ids)
  {
    forall i | 0 <= i < |a + b| && (a + b)[i].pid.Some?
      ensures (a + b)[i].pid.value in ids + IdSet((a + b)[..i])
    {
      if i < |a| {
        assert (a + b)[..i] == a[..i];
      } else {
        var j := i - |a|;
        assert (a + b)[..i] == a + b[..j];
        IdSetAppend(a, b[..j]);
      }
    }
  }

  lemma ParentsInWider(ns: seq<Node>, ids: set<Js.Value>, more: set<Js.Value>)
    requires ParentsIn(ns, ids) && ids <= more
    ensures ParentsIn(ns, more)
  {
  }

  lemma GroupParents(g: Group, project: Node)
    ensures ParentsIn(GroupNodes(g, project), {project.id})
  {
    if g.leader.Some? {
      var b := GroupNodes(g, project);
      GroupNodesLinks(g, project);
      forall i | 0 <= i < |b| && b[i].pid.Some? ensures b[i].pid.value in {project.id} + IdSet(b[..i]) {
        if i > 0 { assert b[..i][0] == b[0]; }
      }
    }
  }

  lemma {:induction false} GroupsParents(gs: seq<Group>, project: Node)
    ensures ParentsIn(GroupsNodes(gs, project), {project.id})
  {
    if gs != [] {
      var init := GroupsNodes(gs[..|gs| - 1], project);
      GroupsParents(gs[..|gs| - 1], project);
      GroupParents(gs[|gs| - 1], project);
      ParentsInWider(GroupNodes(gs[|gs| - 1], project), {project.id}, {project.id} + IdSet(init));
      ParentsInAppend(init, GroupNodes(gs[|gs| - 1], project), {project.id});
    }
  }

  /** Inside one project's nodes every parent key names an earlier node: the project
      node has none, leaders point to the project, employees to their leader. */
  lemma ProjectParents(p: Project)
    ensures ParentsIn(ProjectNodes(p), {})
  {
    var node := MapProject(p);
    MapProjectShape(p);
    var groups := GroupsNodes(p.leaders.GetOr([]), node);
    GroupsParents(p.leaders.GetOr([]), node);
    assert [node][0].id == node.id;
    assert IdSet([node]) == {node.id};
    assert ParentsIn([node], {});
    ParentsInAppend([node], groups, {});
  }

  /** In the whole chart every parent key names a node that comes before it, so the
      chart can be built in one pass. */
  lemma {:induction false} StructureParentsPrecede(ps: seq<Project>)
    ensures ParentsIn(Structure(ps), {})
  {
    if ps != [] {
      var init := Structure(ps[..|ps| - 1]);
      StructureParentsPrecede(ps[..|ps| - 1]);
      ProjectParents(ps[|ps| - 1]);
      ParentsInWider(ProjectNodes(ps[|ps| - 1]), {}, IdSet(init));
      ParentsInAppend(init, ProjectNodes(ps[|ps| - 1]), {});
    }
  }

  /** Offsetting cannot make a leader's node collide with an employee's: an offset
      numeric id is never an id below the offset, and two different numeric or string
      ids stay different. */
  lemma OffsetIdCollisionFree(u: Js.Value, v: Js.Value)
    ensures u.Num? && v.Num? && 0 <= u.n < LeaderIdOffset && 0 <= v.n < LeaderIdOffset ==>
      OffsetId(u) != v
    ensures (u.Num? || u.Str?) && (v.Num? || v.Str?) && OffsetId(u) == OffsetId(v) ==> u == v
  {
    if u.Str? && v.Str? && OffsetId(u) == OffsetId(v) {
      var k := Js.NatToString(LeaderIdOffset);
      assert |u.s| == |v.s|;
      assert (u.s + k)[..|u.s|] == u.s && (v.s + k)[..|v.s|] == v.s;
    }
  }

  // ===========================================================================
  // getGlobalConfig

  /** A chart graph as the front end stores it. */
  datatype Graph = Graph(nodes: seq<Js.Value>, edges: seq<Js.Value>)

  const EmptyGraph: Graph := Graph([], [])

  /** The published global document; a graph field that is null or undefined is none. */
  datatype GlobalDoc = GlobalDoc(id: Js.Value, documentId: Js.Value,
                                 peoples: Option<Graph>, projects: Option<Graph>)

  /** The configuration handed to the front end; `projects` is none when the key is
      absent. */
  datatype GlobalConfig = GlobalConfig(id: Js.Value, peoples: Graph, projects: Option<Graph>)

  /** `getGlobalConfig`: without a document, a null id and an empty people graph and no
      projects key; otherwise the document's first defined id and its graphs, each
      defaulting to the empty graph. */
  function GetGlobalConfig(doc: Option<GlobalDoc>): (c: GlobalConfig)
    ensures doc.None? ==> c.id.Null? && c.peoples == EmptyGraph && c.projects.None?
    ensures doc.Some? ==> c.id == FirstDefined([doc.value.id, doc.value.documentId]) && c.projects.Some?
    ensures doc.Some? ==> c.peoples == doc.value.peoples.GetOr(EmptyGraph)
    ensures doc.Some? ==> c.projects.value == doc.value.projects.GetOr(EmptyGraph)
  {
    match doc
    case None => GlobalConfig(Js.Null, EmptyGraph, None)
    case Some(d) =>
      FirstDefinedCons(d.id, [d.documentId]);
      FirstDefinedCons(d.documentId, []);
      GlobalConfig(Js.Coalesce(d.id, Js.Coalesce(d.documentId, Js.Null)),
                   match d.peoples case Some(g) => g case None => EmptyGraph,
                   Some(match d.projects case Some(g) => g case None => EmptyGraph))
  }

  /** Graphs that were stored are read back unchanged. */
  lemma StoredGraphsReadBack(d: GlobalDoc)
    requires d.peoples.Some? && d.projects.Some?
    ensures GetGlobalConfig(Some(d)).peoples == d.peoples.value
    ensures GetGlobalConfig(Some(d)).projects == d.projects
  {
  }
}
