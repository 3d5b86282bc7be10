/** The balance check and the credential gate. */
module Balance {
  import opened Wrappers
  import opened Records
  import opened Provider
  import opened Reconciler

  /**
   * What `check_balance` answers: nothing without a workspace name or when no workspace
   * has the name, else the available balance of the first workspace listed with it.
   */
  function BalanceOf(workspaces: seq<Workspace>, balances: map<string, WorkspaceBalance>, faults: map<Call, string>,
                     workspaceName: Option<string>): (r: Result<Option<int>>)
    ensures workspaceName.None? ==> r == Ok(None)
    ensures workspaceName.Some? && WorkspacesList in faults ==> r == Err(faults[WorkspacesList])
    ensures workspaceName.Some? && WorkspacesList !in faults ==>
      (r == Ok(None) <==> forall j :: 0 <= j < |workspaces| ==> workspaces[j].title != workspaceName.value)
    ensures workspaceName.Some? ==>
      var located := LocateWorkspace(workspaces, faults, workspaceName.value, None);
      located.Ok? && located.value.Some? ==>
        var w := located.value.value;
        && (WorkspacesGetBalance !in faults && w.id in balances ==> r == Ok(Some(balances[w.id].availableBalance)))
        && (r.Ok? && r.value.Some? ==> w.id in balances && r.value.value == balances[w.id].availableBalance)
    ensures r.Err? <==>
      workspaceName.Some? &&
      var located := LocateWorkspace(workspaces, faults, workspaceName.value, None);
      || located.Err?
      || (located.value.Some? && (WorkspacesGetBalance in faults || located.value.value.id !in balances))
    ensures r.Err? && WorkspacesList !in faults ==>
      r.message == if WorkspacesGetBalance in faults then faults[WorkspacesGetBalance] else NotFound
  {
    if workspaceName.None? then Ok(None)
    else
      match LocateWorkspace(workspaces, faults, workspaceName.value, None)
      case Err(m) => Err(m)
      case Ok(None) => Ok(None)
      case Ok(Some(w)) =>
        match BalanceResponse(balances, faults, w.id)
        case Ok(b) => Ok(Some(b.availableBalance))
        case Err(m) => Err(m)
  }

  /** The balance answered is that of the earliest workspace listed with the name. */
  lemma BalanceOfFirst(workspaces: seq<Workspace>, balances: map<string, WorkspaceBalance>, faults: map<Call, string>,
                       name: string, i: nat)
    requires WorkspacesList !in faults && WorkspacesGetBalance !in faults
    requires i < |workspaces| && workspaces[i].title == name && workspaces[i].id in balances
    requires forall j :: 0 <= j < i ==> workspaces[j].title != name
    ensures BalanceOf(workspaces, balances, faults, Some(name)) == Ok(Some(balances[workspaces[i].id].availableBalance))
  {
    LocateWorkspaceFirstByTitle(workspaces, faults, name, i);
  }

  /** `check_balance`: issues no call without a name, and reads no balance when the workspace is not found. */
  method CheckBalance(client: Client, workspaceName: Option<string>) returns (r: Result<Option<int>>)
    modifies client`log
    ensures r == BalanceOf(client.workspaces, client.balances, client.faults, workspaceName)
    ensures workspaceName.None? ==> client.log == old(client.log)
    ensures workspaceName.Some? ==>
      var located := LocateWorkspace(client.workspaces, client.faults, workspaceName.value, None);
      client.log == old(client.log) + [WorkspacesList] + (if located.Ok? && located.value.Some? then [WorkspacesGetBalance] else [])
  {
    if workspaceName.None? {
      return Ok(None);
    }
    var found := FindWorkspace(client, workspaceName.value, None);
    match found
    case Err(m) => r := Err(m);
    case Ok(None) => r := Ok(None);
    case Ok(Some(w)) =>
      var balance := client.GetBalance(w.id);
      match balance
      case Ok(b) => r := Ok(Some(b.availableBalance));
      case Err(m) => r := Err(m);
  }

  /** `check_credentials`: the one place where a provider error becomes `false` instead of propagating. */
  method CheckCredentials(client: Client) returns (ok: bool)
    modifies client`log
    ensures client.log == old(client.log) + [UsersMe]
    ensures ok <==> UsersMe !in client.faults
  {
    var me := client.Me();
    ok := me.Ok?;
  }
}
