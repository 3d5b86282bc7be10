/**
 * Locating workspaces, projects and participant groups ("qualifications") on the
 * provider, and the find-or-create reconciliation built on the locators.
 */
module Reconciler {
  import opened Wrappers
  import opened Records
  import opened Lookup
  import opened Provider

  // ---------------------------------------------------------------- workspaces

  /**
   * What `_find_prolific_workspace` answers: with an id, the retrieved workspace; without
   * one, the first listed workspace with the title; `None` when nothing matches.
   */
  function LocateWorkspace(workspaces: seq<Workspace>, faults: map<Call, string>, title: string, id: Option<string>)
    : (r: Result<Option<Workspace>>)
    ensures r.Ok? && r.value.Some? ==>
      r.value.value in workspaces && if id.Some? then r.value.value.id == id.value else r.value.value.title == title
    ensures r == Ok(None) <==>
      id.None? && WorkspacesList !in faults && forall j :: 0 <= j < |workspaces| ==> workspaces[j].title != title
    ensures r.Err? <==>
      if id.Some? then WorkspacesRetrieve in faults || forall j :: 0 <= j < |workspaces| ==> workspaces[j].id != id.value
      else WorkspacesList in faults
    ensures r.Err? && id.None? ==> r.message == faults[WorkspacesList]
    ensures r.Err? && id.Some? ==> r.message == if WorkspacesRetrieve in faults then faults[WorkspacesRetrieve] else NotFound
  {
    if id.Some? then
      match RetrieveResponse(faults, WorkspacesRetrieve, workspaces, HasWorkspaceId(id.value))
      case Ok(w) => Ok(Some(w))
      case Err(m) => Err(m)
    else
      match Respond(faults, WorkspacesList, Ok(workspaces))
      case Ok(listed) => Ok(FindFirst(listed, HasWorkspaceTitle(title)))
      case Err(m) => Err(m)
  }

  /** When an id is given, the title plays no part in the lookup. */
  lemma LocateWorkspaceIdFirst(workspaces: seq<Workspace>, faults: map<Call, string>, title1: string, title2: string, id: string)
    ensures LocateWorkspace(workspaces, faults, title1, Some(id)) == LocateWorkspace(workspaces, faults, title2, Some(id))
  {
  }

  /** A title lookup returns the earliest workspace carrying the title. */
  lemma LocateWorkspaceFirstByTitle(workspaces: seq<Workspace>, faults: map<Call, string>, title: string, i: nat)
    requires WorkspacesList !in faults
    requires i < |workspaces| && workspaces[i].title == title
    requires forall j :: 0 <= j < i ==> workspaces[j].title != title
    ensures LocateWorkspace(workspaces, faults, title, None) == Ok(Some(workspaces[i]))
  {
    FindFirstIsFirst(workspaces, HasWorkspaceTitle(title), i);
  }

  /** Once find-or-create has created a workspace, the next lookup by its title finds it. */
  lemma WorkspaceReconcileIdempotent(workspaces: seq<Workspace>, faults: map<Call, string>, title: string, newId: string)
    requires LocateWorkspace(workspaces, faults, title, None) == Ok(None)
    ensures LocateWorkspace(workspaces + [Workspace(newId, title)], faults, title, None)
         == Ok(Some(Workspace(newId, title)))
  {
    FindFirstAppend(workspaces, Workspace(newId, title), HasWorkspaceTitle(title));
  }

  /** `_find_prolific_workspace`: never creates anything. */
  method FindWorkspace(client: Client, title: string, id: Option<string>) returns (r: Result<Option<Workspace>>)
    modifies client`log
    ensures client.log == old(client.log) + [if id.Some? then WorkspacesRetrieve else WorkspacesList]
    ensures r == LocateWorkspace(client.workspaces, client.faults, title, id)
  {
    if id.Some? {
      var retrieved := client.RetrieveWorkspace(id.value);
      match retrieved
      case Ok(w) => r := Ok(Some(w));
      case Err(m) => r := Err(m);
    } else {
      var listed := client.ListWorkspaces();
      match listed
      case Err(m) => r := Err(m);
      case Ok(workspaces) =>
        var found := Scan(workspaces, HasWorkspaceTitle(title));
        r := Ok(found);
    }
  }

  /** `find_or_create_prolific_workspace`: the workspace with the title, created when there is none. */
  method FindOrCreateWorkspace(client: Client, title: string, newId: string) returns (r: Result<Workspace>)
    modifies client`log, client`workspaces
    ensures match LocateWorkspace(old(client.workspaces), client.faults, title, None)
      case Err(m) =>
        r == Err(m) && client.workspaces == old(client.workspaces) && client.log == old(client.log) + [WorkspacesList]
      case Ok(Some(w)) =>
        r == Ok(w) && client.workspaces == old(client.workspaces) && client.log == old(client.log) + [WorkspacesList]
      case Ok(None) =>
        && r == Respond(client.faults, WorkspacesCreate, Ok(Workspace(newId, title)))
        && client.workspaces == (if r.Ok? then old(client.workspaces) + [r.value] else old(client.workspaces))
        && client.log == old(client.log) + [WorkspacesList, WorkspacesCreate]
  {
    var found := FindWorkspace(client, title, None);
    match found
    case Err(m) => r := Err(m);
    case Ok(Some(w)) => r := Ok(w);
    case Ok(None) => r := client.CreateWorkspace(title, newId);
  }

  // ---------------------------------------------------------------- projects

  /** With an id, a listed project matches by id alone; without one, by title. */
  function ProjectMatches(title: string, id: Option<string>): Project -> bool
  {
    (p: Project) => if id.Some? then p.id == id.value else p.title == title
  }

  /** What `_find_prolific_project` answers: the first project of the workspace that matches. */
  function LocateProject(projects: seq<Project>, faults: map<Call, string>, workspaceId: string, title: string, id: Option<string>)
    : (r: Result<Option<Project>>)
    ensures r.Ok? && r.value.Some? ==>
      && r.value.value in projects && r.value.value.workspaceId == workspaceId
      && ProjectMatches(title, id)(r.value.value)
    ensures r == Ok(None) <==>
      && ProjectsListForWorkspace !in faults
      && forall j :: 0 <= j < |projects| && projects[j].workspaceId == workspaceId ==> !ProjectMatches(title, id)(projects[j])
    ensures r.Err? <==> ProjectsListForWorkspace in faults
    ensures r.Err? ==> r.message == faults[ProjectsListForWorkspace]
  {
    match Respond(faults, ProjectsListForWorkspace, Ok(Filter(projects, InWorkspace(workspaceId))))
    case Ok(listed) => Ok(FindFirst(listed, ProjectMatches(title, id)))
    case Err(m) => Err(m)
  }

  /** The lookup answers the earliest project of the workspace that matches. */
  lemma LocateProjectFirst(projects: seq<Project>, faults: map<Call, string>, workspaceId: string, title: string,
                           id: Option<string>, i: nat)
    requires ProjectsListForWorkspace !in faults
    requires i < |projects| && projects[i].workspaceId == workspaceId && ProjectMatches(title, id)(projects[i])
    requires forall j :: 0 <= j < i && projects[j].workspaceId == workspaceId ==> !ProjectMatches(title, id)(projects[j])
    ensures LocateProject(projects, faults, workspaceId, title, id) == Ok(Some(projects[i]))
  {
    FindFirstFiltered(projects, InWorkspace(workspaceId), ProjectMatches(title, id), i);
  }

  /** Once find-or-create has created a project, the next lookup by its title in the workspace finds it. */
  lemma ProjectReconcileIdempotent(projects: seq<Project>, faults: map<Call, string>, workspaceId: string, title: string, newId: string)
    requires LocateProject(projects, faults, workspaceId, title, None) == Ok(None)
    ensures LocateProject(projects + [Project(newId, title, workspaceId)], faults, workspaceId, title, None)
         == Ok(Some(Project(newId, title, workspaceId)))
  {
    var p := Project(newId, title, workspaceId);
    FilterAppend(projects, p, InWorkspace(workspaceId));
    FindFirstAppend(Filter(projects, InWorkspace(workspaceId)), p, ProjectMatches(title, None));
  }

  /** `_find_prolific_project`: lists the workspace's projects and never creates anything. */
  method FindProject(client: Client, workspaceId: string, title: string, id: Option<string>)
    returns (r: Result<Option<Project>>)
    modifies client`log
    ensures client.log == old(client.log) + [ProjectsListForWorkspace]
    ensures r == LocateProject(client.projects, client.faults, workspaceId, title, id)
  {
    var listed := client.ListProjectsForWorkspace(workspaceId);
    match listed
    case Err(m) => r := Err(m);
    case Ok(projects) =>
      var found := Scan(projects, ProjectMatches(title, id));
      r := Ok(found);
  }

  /** `find_or_create_prolific_project`: the workspace's project with the title, created when there is none. */
  method FindOrCreateProject(client: Client, workspaceId: string, title: string, newId: string) returns (r: Result<Project>)
    modifies client`log, client`projects
    ensures match LocateProject(old(client.projects), client.faults, workspaceId, title, None)
      case Err(m) =>
        r == Err(m) && client.projects == old(client.projects) && client.log == old(client.log) + [ProjectsListForWorkspace]
      case Ok(Some(p)) =>
        r == Ok(p) && client.projects == old(client.projects) && client.log == old(client.log) + [ProjectsListForWorkspace]
      case Ok(None) =>
        && r == Respond(client.faults, ProjectsCreateForWorkspace, Ok(Project(newId, title, workspaceId)))
        && client.projects == (if r.Ok? then old(client.projects) + [r.value] else old(client.projects))
        && client.log == old(client.log) + [ProjectsListForWorkspace, ProjectsCreateForWorkspace]
  {
    var found := FindProject(client, workspaceId, title, None);
    match found
    case Err(m) => r := Err(m);
    case Ok(Some(p)) => r := Ok(p);
    case Ok(None) => r := client.CreateProjectForWorkspace(workspaceId, title, newId);
  }

  // ---------------------------------------------------------------- qualifications

  function HasGroupName(name: string): ParticipantGroup -> bool { (g: ParticipantGroup) => g.name == name }

  /** What `_find_qualification` answers: the first participant group of the project with the name. */
  function LocateQualification(groups: seq<ParticipantGroup>, faults: map<Call, string>, projectId: string, name: string)
    : (r: Result<Option<ParticipantGroup>>)
    ensures r.Ok? && r.value.Some? ==>
      r.value.value in groups && r.value.value.projectId == projectId && r.value.value.name == name
    ensures r == Ok(None) <==>
      && ParticipantGroupsList !in faults
      && forall j :: 0 <= j < |groups| && groups[j].projectId == projectId ==> groups[j].name != name
    ensures r.Err? <==> ParticipantGroupsList in faults
    ensures r.Err? ==> r.message == faults[ParticipantGroupsList]
  {
    match Respond(faults, ParticipantGroupsList, Ok(Filter(groups, InProject(projectId))))
    case Ok(listed) => Ok(FindFirst(listed, HasGroupName(name)))
    case Err(m) => Err(m)
  }

  /** The lookup answers the earliest participant group of the project with the name. */
  lemma LocateQualificationFirst(groups: seq<ParticipantGroup>, faults: map<Call, string>, projectId: string,
                                 name: string, i: nat)
    requires ParticipantGroupsList !in faults
    requires i < |groups| && groups[i].projectId == projectId && groups[i].name == name
    requires forall j :: 0 <= j < i && groups[j].projectId == projectId ==> groups[j].name != name
    ensures LocateQualification(groups, faults, projectId, name) == Ok(Some(groups[i]))
  {
    FindFirstFiltered(groups, InProject(projectId), HasGroupName(name), i);
  }

  /** Once find-or-create has created a participant group, the next lookup by its name in the project finds it. */
  lemma QualificationReconcileIdempotent(groups: seq<ParticipantGroup>, faults: map<Call, string>, projectId: string,
                                         name: string, description: Option<string>, newId: string)
    requires LocateQualification(groups, faults, projectId, name) == Ok(None)
    ensures LocateQualification(groups + [ParticipantGroup(newId, projectId, name, description)], faults, projectId, name)
         == Ok(Some(ParticipantGroup(newId, projectId, name, description)))
  {
    var g := ParticipantGroup(newId, projectId, name, description);
    FilterAppend(groups, g, InProject(projectId));
    FindFirstAppend(Filter(groups, InProject(projectId)), g, HasGroupName(name));
  }

  /** `_find_qualification`: lists the project's participant groups and never creates anything. */
  method FindQualification(client: Client, projectId: string, name: string) returns (r: Result<Option<ParticipantGroup>>)
    modifies client`log
    ensures client.log == old(client.log) + [ParticipantGroupsList]
    ensures r == LocateQualification(client.groups, client.faults, projectId, name)
  {
    var listed := client.ListParticipantGroups(projectId);
    match listed
    case Err(m) => r := Err(m);
    case Ok(groups) =>
      var found := Scan(groups, HasGroupName(name));
      r := Ok(found);
  }

  /** `create_qualification`: exactly what the provider's create call returns. */
  method CreateQualification(client: Client, projectId: string, name: string, description: Option<string>, newId: string)
    returns (r: Result<ParticipantGroup>)
    modifies client`log, client`groups
    ensures client.log == old(client.log) + [ParticipantGroupsCreate]
    ensures r == Respond(client.faults, ParticipantGroupsCreate, Ok(ParticipantGroup(newId, projectId, name, description)))
    ensures client.groups == if r.Ok? then old(client.groups) + [r.value] else old(client.groups)
  {
    r := client.CreateParticipantGroup(projectId, name, description, newId);
  }

  /**
   * `find_or_create_qualification`: the project's group with the name, created when there is
   * none; the description is used only when creating.
   */
  method FindOrCreateQualification(client: Client, projectId: string, name: string, description: Option<string>, newId: string)
    returns (r: Result<ParticipantGroup>)
    modifies client`log, client`groups
    ensures match LocateQualification(old(client.groups), client.faults, projectId, name)
      case Err(m) =>
        r == Err(m) && client.groups == old(client.groups) && client.log == old(client.log) + [ParticipantGroupsList]
      case Ok(Some(g)) =>
        r == Ok(g) && client.groups == old(client.groups) && client.log == old(client.log) + [ParticipantGroupsList]
      case Ok(None) =>
        && r == Respond(client.faults, ParticipantGroupsCreate, Ok(ParticipantGroup(newId, projectId, name, description)))
        && client.groups == (if r.Ok? then old(client.groups) + [r.value] else old(client.groups))
        && client.log == old(client.log) + [ParticipantGroupsList, ParticipantGroupsCreate]
  {
    var found := FindQualification(client, projectId, name);
    match found
    case Err(m) => r := Err(m);
    case Ok(Some(g)) => r := Ok(g);
    case Ok(None) => r := CreateQualification(client, projectId, name, description, newId);
  }

  /** `delete_qualification`: `true` once the provider has removed the group. */
  method DeleteQualification(client: Client, id: string) returns (r: Result<bool>)
    modifies client`log, client`groups
    ensures client.log == old(client.log) + [ParticipantGroupsRemove]
    ensures r.Ok? ==> r.value
    ensures var found := RetrieveResponse(client.faults, ParticipantGroupsRemove, old(client.groups), HasGroupId(id));
            r == if found.Ok? then Ok(true) else Err(found.message)
    ensures client.groups == if r.Ok? then Filter(old(client.groups), LacksGroupId(id)) else old(client.groups)
  {
    var removed := client.RemoveParticipantGroup(id);
    match removed
    case Ok(_) => r := Ok(true);
    case Err(m) => r := Err(m);
  }
}
