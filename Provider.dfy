/**
 * The crowdsourcing provider as seen through its authenticated client: the remote
 * collections, the balances, and the calls the utilities issue against them. Every call
 * is appended to `log`; a call kind listed in `faults` fails with the provider request
 * error message recorded there, standing in for a transport or HTTP failure.
 */
module Provider {
  import opened Wrappers
  import opened Records
  import opened Lookup

  /** The message of the provider's error for an id it does not know. */
  const NotFound := "Not found."

  /** The outcome of call `c`: the injected failure if there is one, else `outcome`. */
  function Respond<T>(faults: map<Call, string>, c: Call, outcome: Result<T>): Result<T>
  {
    if c in faults then Err(faults[c]) else outcome
  }

  /** A point lookup by call `c`: the first record of `s` that `p` accepts, or a not-found error. */
  function RetrieveResponse<T>(faults: map<Call, string>, c: Call, s: seq<T>, p: T -> bool): (r: Result<T>)
    ensures r.Ok? <==> c !in faults && exists j :: 0 <= j < |s| && p(s[j])
    ensures r.Ok? ==> r.value in s && p(r.value)
    ensures r.Err? ==> r.message == if c in faults then faults[c] else NotFound
  {
    Respond(faults, c, match FindFirst(s, p) case Some(x) => Ok(x) case None => Err(NotFound))
  }

  function HasWorkspaceId(id: string): Workspace -> bool { (w: Workspace) => w.id == id }
  function HasWorkspaceTitle(title: string): Workspace -> bool { (w: Workspace) => w.title == title }
  function InWorkspace(workspaceId: string): Project -> bool { (p: Project) => p.workspaceId == workspaceId }
  function InProject(projectId: string): ParticipantGroup -> bool { (g: ParticipantGroup) => g.projectId == projectId }
  function HasGroupId(id: string): ParticipantGroup -> bool { (g: ParticipantGroup) => g.id == id }
  function LacksGroupId(id: string): ParticipantGroup -> bool { (g: ParticipantGroup) => g.id != id }
  function HasStudyId(id: string): Study -> bool { (s: Study) => s.id == id }

  /** The study the provider keeps under `id`. */
  function StoredStudy(studies: seq<Study>, id: string): Option<Study>
  {
    FindFirst(studies, HasStudyId(id))
  }

  /** The collection after the provider stores `s` in place of the record with its id. */
  function SetStudy(studies: seq<Study>, s: Study): (r: seq<Study>)
    ensures |r| == |studies|
    ensures forall i :: 0 <= i < |r| ==> r[i] == if studies[i].id == s.id then s else studies[i]
  {
    seq(|studies|, i requires 0 <= i < |studies| => if studies[i].id == s.id then s else studies[i])
  }

  /** Calls logged one batch after another regroup freely; a helper for the methods' log proofs. */
  lemma LogAppend(log: seq<Call>, first: seq<Call>, next: seq<Call>)
    ensures log + first + next == log + (first + next)
  {
  }

  /** After storing `s`, the study kept under its id is `s` itself. */
  lemma SetStudyStored(studies: seq<Study>, s: Study)
    requires StoredStudy(studies, s.id).Some?
    ensures StoredStudy(SetStudy(studies, s), s.id) == Some(s)
  {
    var r := SetStudy(studies, s);
    var j :| 0 <= j < |studies| && studies[j].id == s.id;
    assert r[j] == s;
    var found := StoredStudy(r, s.id);
    assert found.Some?;
    var i :| 0 <= i < |r| && r[i] == found.value;
  }

  /** Storing `s` leaves the study kept under every other id as it was. */
  lemma SetStudyOthers(studies: seq<Study>, s: Study, id: string)
    requires id != s.id
    ensures StoredStudy(SetStudy(studies, s), id) == StoredStudy(studies, id)
  {
    FindFirstAgree(SetStudy(studies, s), studies, HasStudyId(id));
  }

  /** Storing twice under one id keeps only the second record. */
  lemma SetStudyTwice(studies: seq<Study>, a: Study, b: Study)
    requires a.id == b.id
    ensures SetStudy(SetStudy(studies, a), b) == SetStudy(studies, b)
  {
  }

  /** Storing a record that every record under its id already equals changes nothing. */
  lemma SetStudySame(studies: seq<Study>, s: Study)
    requires forall i :: 0 <= i < |studies| && studies[i].id == s.id ==> studies[i] == s
    ensures SetStudy(studies, s) == studies
  {
  }

  /** The balance the provider reports for a workspace id, or its error. */
  function BalanceResponse(balances: map<string, WorkspaceBalance>, faults: map<Call, string>, workspaceId: string)
    : Result<WorkspaceBalance>
  {
    Respond(faults, WorkspacesGetBalance, if workspaceId in balances then Ok(balances[workspaceId]) else Err(NotFound))
  }

  /** A change of a stored study by call `c`: the changed record, or the call's error. */
  function ChangedStudy(faults: map<Call, string>, c: Call, studies: seq<Study>, id: string, change: Change): Result<Study>
  {
    match RetrieveResponse(faults, c, studies, HasStudyId(id))
    case Ok(s) => Ok(Apply(change, s))
    case Err(m) => Err(m)
  }

  /** The change a call makes to a study: publish, stop, or update some fields. */
  datatype Change = PublishChange | StopChange(outcome: StudyStatus) | UpdateChange(internalName: Option<string>, places: Option<nat>)

  function Apply(change: Change, s: Study): Study
  {
    match change
    case PublishChange => s.(status := Active)
    case StopChange(outcome) => s.(status := outcome)
    case UpdateChange(internalName, places) => Patched(s, internalName, places)
  }

  /** `s` with the fields an update call sets; the fields it is not given keep their values. */
  function Patched(s: Study, internalName: Option<string>, places: Option<nat>): Study
  {
    s.(internalName := if internalName.Some? then internalName.value else s.internalName,
       totalAvailablePlaces := if places.Some? then places.value else s.totalAvailablePlaces)
  }

  class Client {
    var workspaces: seq<Workspace>
    var balances: map<string, WorkspaceBalance>
    var projects: seq<Project>
    var groups: seq<ParticipantGroup>
    var studies: seq<Study>
    /** Every call issued so far, oldest first. */
    var log: seq<Call>
    /** The calls that fail, with the message of their error. */
    const faults: map<Call, string>
    /** The status the provider moves a study to when it is stopped. */
    const stopOutcome: StudyStatus

    predicate Valid()
    {
      stopOutcome == AwaitingReview || stopOutcome == Completed
    }

    constructor (workspaces: seq<Workspace>, balances: map<string, WorkspaceBalance>,
                 projects: seq<Project>, groups: seq<ParticipantGroup>, studies: seq<Study>,
                 faults: map<Call, string>, stopOutcome: StudyStatus)
      requires stopOutcome == AwaitingReview || stopOutcome == Completed
      ensures Valid()
      ensures this.workspaces == workspaces && this.balances == balances && this.projects == projects
      ensures this.groups == groups && this.studies == studies && this.log == []
      ensures this.faults == faults && this.stopOutcome == stopOutcome
    {
      this.workspaces, this.balances, this.projects := workspaces, balances, projects;
      this.groups, this.studies, this.log := groups, studies, [];
      this.faults, this.stopOutcome := faults, stopOutcome;
    }

    method ListWorkspaces() returns (r: Result<seq<Workspace>>)
      modifies this`log
      ensures log == old(log) + [WorkspacesList]
      ensures r == Respond(faults, WorkspacesList, Ok(workspaces))
    {
      log := log + [WorkspacesList];
      r := Respond(faults, WorkspacesList, Ok(workspaces));
    }

    method RetrieveWorkspace(id: string) returns (r: Result<Workspace>)
      modifies this`log
      ensures log == old(log) + [WorkspacesRetrieve]
      ensures r == RetrieveResponse(faults, WorkspacesRetrieve, workspaces, HasWorkspaceId(id))
    {
      log := log + [WorkspacesRetrieve];
      r := RetrieveResponse(faults, WorkspacesRetrieve, workspaces, HasWorkspaceId(id));
    }

    method CreateWorkspace(title: string, newId: string) returns (r: Result<Workspace>)
      modifies this`log, this`workspaces
      ensures log == old(log) + [WorkspacesCreate]
      ensures r == Respond(faults, WorkspacesCreate, Ok(Workspace(newId, title)))
      ensures workspaces == if r.Ok? then old(workspaces) + [r.value] else old(workspaces)
    {
      log := log + [WorkspacesCreate];
      r := Respond(faults, WorkspacesCreate, Ok(Workspace(newId, title)));
      if r.Ok? {
        workspaces := workspaces + [r.value];
      }
    }

    method GetBalance(workspaceId: string) returns (r: Result<WorkspaceBalance>)
      modifies this`log
      ensures log == old(log) + [WorkspacesGetBalance]
      ensures r == BalanceResponse(balances, faults, workspaceId)
    {
      log := log + [WorkspacesGetBalance];
      r := BalanceResponse(balances, faults, workspaceId);
    }

    method ListProjectsForWorkspace(workspaceId: string) returns (r: Result<seq<Project>>)
      modifies this`log
      ensures log == old(log) + [ProjectsListForWorkspace]
      ensures r == Respond(faults, ProjectsListForWorkspace, Ok(Filter(projects, InWorkspace(workspaceId))))
    {
      log := log + [ProjectsListForWorkspace];
      r := Respond(faults, ProjectsListForWorkspace, Ok(Filter(projects, InWorkspace(workspaceId))));
    }

    method CreateProjectForWorkspace(workspaceId: string, title: string, newId: string) returns (r: Result<Project>)
      modifies this`log, this`projects
      ensures log == old(log) + [ProjectsCreateForWorkspace]
      ensures r == Respond(faults, ProjectsCreateForWorkspace, Ok(Project(newId, title, workspaceId)))
      ensures projects == if r.Ok? then old(projects) + [r.value] else old(projects)
    {
      log := log + [ProjectsCreateForWorkspace];
      r := Respond(faults, ProjectsCreateForWorkspace, Ok(Project(newId, title, workspaceId)));
      if r.Ok? {
        projects := projects + [r.value];
      }
    }

    method ListParticipantGroups(projectId: string) returns (r: Result<seq<ParticipantGroup>>)
      modifies this`log
      ensures log == old(log) + [ParticipantGroupsList]
      ensures r == Respond(faults, ParticipantGroupsList, Ok(Filter(groups, InProject(projectId))))
    {
      log := log + [ParticipantGroupsList];
      r := Respond(faults, ParticipantGroupsList, Ok(Filter(groups, InProject(projectId))));
    }

    method CreateParticipantGroup(projectId: string, name: string, description: Option<string>, newId: string)
      returns (r: Result<ParticipantGroup>)
      modifies this`log, this`groups
      ensures log == old(log) + [ParticipantGroupsCreate]
      ensures r == Respond(faults, ParticipantGroupsCreate, Ok(ParticipantGroup(newId, projectId, name, description)))
      ensures groups == if r.Ok? then old(groups) + [r.value] else old(groups)
    {
      log := log + [ParticipantGroupsCreate];
      r := Respond(faults, ParticipantGroupsCreate, Ok(ParticipantGroup(newId, projectId, name, description)));
      if r.Ok? {
        groups := groups + [r.value];
      }
    }

    method RemoveParticipantGroup(id: string) returns (r: Result<()>)
      modifies this`log, this`groups
      ensures log == old(log) + [ParticipantGroupsRemove]
      ensures var found := RetrieveResponse(faults, ParticipantGroupsRemove, old(groups), HasGroupId(id));
              r == if found.Ok? then Ok(()) else Err(found.message)
      ensures groups == if r.Ok? then Filter(old(groups), LacksGroupId(id)) else old(groups)
    {
      log := log + [ParticipantGroupsRemove];
      var found := RetrieveResponse(faults, ParticipantGroupsRemove, groups, HasGroupId(id));
      if found.Ok? {
        groups := Filter(groups, LacksGroupId(id));
        r := Ok(());
      } else {
        r := Err(found.message);
      }
    }

    method CreateStudy(projectId: string, name: string, internalName: string, places: nat, newId: string)
      returns (r: Result<Study>)
      modifies this`log, this`studies
      ensures log == old(log) + [StudiesCreate]
      ensures r == Respond(faults, StudiesCreate, Ok(Study(newId, projectId, name, internalName, Unpublished, places)))
      ensures studies == if r.Ok? then old(studies) + [r.value] else old(studies)
    {
      log := log + [StudiesCreate];
      r := Respond(faults, StudiesCreate, Ok(Study(newId, projectId, name, internalName, Unpublished, places)));
      if r.Ok? {
        studies := studies + [r.value];
      }
    }

    method RetrieveStudy(id: string) returns (r: Result<Study>)
      modifies this`log
      ensures log == old(log) + [StudiesRetrieve]
      ensures r == RetrieveResponse(faults, StudiesRetrieve, studies, HasStudyId(id))
    {
      log := log + [StudiesRetrieve];
      r := RetrieveResponse(faults, StudiesRetrieve, studies, HasStudyId(id));
    }

    /** Applies `change` to the study kept under `id` and stores the result, as call `c`. */
    method ChangeStudy(c: Call, id: string, change: Change) returns (r: Result<Study>)
      modifies this`log, this`studies
      ensures log == old(log) + [c]
      ensures r == ChangedStudy(faults, c, old(studies), id, change)
      ensures studies == if r.Ok? then SetStudy(old(studies), r.value) else old(studies)
    {
      log := log + [c];
      r := ChangedStudy(faults, c, studies, id, change);
      if r.Ok? {
        studies := SetStudy(studies, r.value);
      }
    }

    method UpdateStudy(id: string, internalName: Option<string>, places: Option<nat>) returns (r: Result<Study>)
      modifies this`log, this`studies
      ensures log == old(log) + [StudiesUpdate]
      ensures r == ChangedStudy(faults, StudiesUpdate, old(studies), id, UpdateChange(internalName, places))
      ensures studies == if r.Ok? then SetStudy(old(studies), r.value) else old(studies)
    {
      r := ChangeStudy(StudiesUpdate, id, UpdateChange(internalName, places));
    }

    method PublishStudy(id: string) returns (r: Result<Study>)
      modifies this`log, this`studies
      ensures log == old(log) + [StudiesPublish]
      ensures r == ChangedStudy(faults, StudiesPublish, old(studies), id, PublishChange)
      ensures studies == if r.Ok? then SetStudy(old(studies), r.value) else old(studies)
    {
      r := ChangeStudy(StudiesPublish, id, PublishChange);
    }

    method StopStudy(id: string) returns (r: Result<Study>)
      modifies this`log, this`studies
      ensures log == old(log) + [StudiesStop]
      ensures r == ChangedStudy(faults, StudiesStop, old(studies), id, StopChange(stopOutcome))
      ensures studies == if r.Ok? then SetStudy(old(studies), r.value) else old(studies)
    {
      r := ChangeStudy(StudiesStop, id, StopChange(stopOutcome));
    }

    /** The identity call used as a liveness probe. */
    method Me() returns (r: Result<()>)
      modifies this`log
      ensures log == old(log) + [UsersMe]
      ensures r == Respond(faults, UsersMe, Ok(()))
    {
      log := log + [UsersMe];
      r := Respond(faults, UsersMe, Ok(()));
    }
  }

}
