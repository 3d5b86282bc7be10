/** The remote resources of the crowdsourcing provider, as plain records. */
module Records {
  import opened Wrappers

  datatype Workspace = Workspace(id: string, title: string)

  /** A project belongs to exactly one workspace. */
  datatype Project = Project(id: string, title: string, workspaceId: string)

  /** A participant group (a "qualification"): an allow list or block list scoped to a project. */
  datatype ParticipantGroup = ParticipantGroup(id: string, projectId: string, name: string, description: Option<string>)

  /** The balance read of a workspace; only its available amount is modelled. */
  datatype WorkspaceBalance = WorkspaceBalance(availableBalance: int)

  /** The remote status of a study; "expired" is not one of them. */
  datatype StudyStatus = Unpublished | Active | AwaitingReview | Completed

  datatype Study = Study(
    id: string,
    projectId: string,
    name: string,
    internalName: string,
    status: StudyStatus,
    totalAvailablePlaces: nat)

  /** The remote calls the utilities issue, one per client operation. */
  datatype Call =
    | WorkspacesList | WorkspacesRetrieve | WorkspacesCreate | WorkspacesGetBalance
    | ProjectsListForWorkspace | ProjectsCreateForWorkspace
    | ParticipantGroupsList | ParticipantGroupsCreate | ParticipantGroupsRemove
    | StudiesCreate | StudiesRetrieve | StudiesUpdate | StudiesPublish | StudiesStop
    | UsersMe
}
