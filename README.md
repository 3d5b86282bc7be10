# Prolific provider utilities — a verified model

This project models `mephisto.abstractions.providers.prolific.prolific_utils`, the layer of
the Mephisto task orchestrator that manages resources on the Prolific crowdsourcing
marketplace. Those resources are workspaces, projects, participant groups (called
"qualifications") and studies. The module's own source is not part of this model. The model
is written from the assertions of its test file,
`test/abstractions/providers/prolific/test_prolific_utils.py`, which fixes what each utility
answers, when it creates something and how it fails.

The marketplace behind the authenticated client is the class `Provider.Client`:

- It holds the remote collections as sequences: workspaces, projects, participant groups and
  studies. It keeps balances in a map keyed by workspace id.
- Every call the utilities issue is appended to `log`.
- `faults` maps a call kind to the message of the `ProlificRequestError` that call raises.
  This stands in for the mocked failures of the tests.
- `stopOutcome` is the status the marketplace gives a stopped study: awaiting review or
  completed.

The utilities are module-level methods that take the client:

- `Reconciler` holds the locators and find-or-create.
- `Balance` holds `check_balance` and `check_credentials`.
- `Lifecycle` holds the study operations and the expiry predicate.

Each utility is proved against a pure function of the client's state:

- `LocateWorkspace`, `LocateProject`, `LocateQualification` and `BalanceOf`;
- `Expiry` and `Increase`, whose datatype `Outcome` carries the answer, the new studies and
  the calls issued.

The lemmas state the promised properties about those functions.

The pure utilities are functions plus lemmas:

- `Eligibility`: the eligibility translator, with a decoder that proves it loses nothing;
- `StudyUrl`: the external URL resolution.

`Lookup` holds the generic first-match search, a filter, and a loop that computes the
first-match search.

## Model

| member | source | states |
|---|---|---|
| Lookup.FindFirst | test/abstractions/providers/prolific/test_prolific_utils.py:316-339 | the match found is an element of the listed collection that the matcher accepts; nothing is found exactly when no element matches |
| Lookup.FindFirstIsFirst | test/abstractions/providers/prolific/test_prolific_utils.py:316-327 | when element `i` is the earliest match, the search answers that element |
| Lookup.FindFirstAppend | test/abstractions/providers/prolific/test_prolific_utils.py:369-388 | appending a record keeps an earlier match; with no earlier match the new record is found exactly when it matches |
| Lookup.Filter | test/abstractions/providers/prolific/test_prolific_utils.py:410-454 | the records of a scoped listing all belong to the collection and satisfy the scope, and every record of the scope is listed; with `FilterAppend` and `FilterPrefix` the listing keeps the collection's order |
| Lookup.FilterAppend | test/abstractions/providers/prolific/test_prolific_utils.py:484-501 | the listing after a record is appended is the old listing followed by the record when it is in scope |
| Lookup.FilterPrefix | test/abstractions/providers/prolific/test_prolific_utils.py:410-454 | growing a prefix of the collection by one record grows its listing by that record exactly when it is in scope, so the listing is in collection order |
| Lookup.FindFirstFiltered | test/abstractions/providers/prolific/test_prolific_utils.py:410-454 | when element `i` is in scope, matches, and no earlier record in scope matches, the first match of the scoped listing is element `i` |
| Lookup.Scan | test/abstractions/providers/prolific/test_prolific_utils.py:316-339 | the loop over a listing answers the first record that matches, or nothing |
| Provider.RetrieveResponse | test/abstractions/providers/prolific/test_prolific_utils.py:291-315 | a retrieve succeeds exactly when the call does not fail and some record has the id; it answers such a record; otherwise it answers the injected message, or the not-found message |
| Provider.SetStudy | test/abstractions/providers/prolific/test_prolific_utils.py:861-872 | the collection after the provider stores a study in place of the record with its id; its properties are stated by `SetStudyStored`, `SetStudyOthers`, `SetStudyTwice` and `SetStudySame` |
| Provider.SetStudyStored | test/abstractions/providers/prolific/test_prolific_utils.py:861-872 | after a stored study is replaced, the study kept under its id is the new record |
| Provider.SetStudyOthers | test/abstractions/providers/prolific/test_prolific_utils.py:769-782 | replacing one study leaves the study kept under every other id as it was |
| Provider.SetStudyTwice | test/abstractions/providers/prolific/test_prolific_utils.py:888-903 | storing twice under one id leaves only the second record |
| Provider.SetStudySame | test/abstractions/providers/prolific/test_prolific_utils.py:725-753 | re-storing records that are already stored changes nothing |
| Provider.Client.constructor | test/abstractions/providers/prolific/test_prolific_utils.py:108-115 | a client starts with the given collections, faults and stop outcome, and an empty call log |
| Provider.Client.ListWorkspaces | test/abstractions/providers/prolific/test_prolific_utils.py:316-349 | the list call answers every workspace or its injected error, and is logged |
| Provider.Client.RetrieveWorkspace | test/abstractions/providers/prolific/test_prolific_utils.py:291-315 | the retrieve call answers the workspace with the id or an error, and is logged |
| Provider.Client.CreateWorkspace | test/abstractions/providers/prolific/test_prolific_utils.py:369-408 | the create call answers the new workspace and appends it, or fails and adds nothing |
| Provider.Client.GetBalance | test/abstractions/providers/prolific/test_prolific_utils.py:236-251 | the balance call answers the workspace's stored balance or an error |
| Provider.Client.ListProjectsForWorkspace | test/abstractions/providers/prolific/test_prolific_utils.py:410-466 | the list call answers the workspace's projects in order, or its injected error |
| Provider.Client.CreateProjectForWorkspace | test/abstractions/providers/prolific/test_prolific_utils.py:483-521 | the create call answers the new project in the workspace and appends it, or fails and adds nothing |
| Provider.Client.ListParticipantGroups | test/abstractions/providers/prolific/test_prolific_utils.py:548-581 | the list call answers the project's participant groups in order, or its injected error |
| Provider.Client.CreateParticipantGroup | test/abstractions/providers/prolific/test_prolific_utils.py:583-613 | the create call answers the new group and appends it, or fails and adds nothing |
| Provider.Client.RemoveParticipantGroup | test/abstractions/providers/prolific/test_prolific_utils.py:523-546 | the remove call drops every group with the id when one exists, and otherwise fails and changes nothing |
| Provider.Client.CreateStudy | test/abstractions/providers/prolific/test_prolific_utils.py:725-767 | the create call appends an unpublished study with the given fields, or fails and adds nothing |
| Provider.Client.RetrieveStudy | test/abstractions/providers/prolific/test_prolific_utils.py:807-832 | the retrieve call answers the study with the id or an error |
| Provider.Client.ChangeStudy | test/abstractions/providers/prolific/test_prolific_utils.py:769-886 | the shared step of update, publish and stop: the one call is logged; the answer is the stored study with the change applied, or the call's error; on success the changed study replaces the stored one, on failure nothing changes |
| Provider.Client.UpdateStudy | test/abstractions/providers/prolific/test_prolific_utils.py:769-805 | the update call stores the study with the given fields changed and the rest kept, or fails and changes nothing |
| Provider.Client.PublishStudy | test/abstractions/providers/prolific/test_prolific_utils.py:834-859 | the publish call stores the study as active, or fails and changes nothing |
| Provider.Client.StopStudy | test/abstractions/providers/prolific/test_prolific_utils.py:861-886 | the stop call stores the study with the stop outcome, or fails and changes nothing |
| Provider.Client.Me | test/abstractions/providers/prolific/test_prolific_utils.py:120-131 | the identity call succeeds exactly when it is not failed |
| Reconciler.LocateWorkspace | test/abstractions/providers/prolific/test_prolific_utils.py:291-349 | with an id, the retrieved workspace; without one, the first listed workspace with the title; no answer exactly when there is no id, the list does not fail and no title matches; an error exactly when the call fails or the id is unknown, carrying that call's message |
| Reconciler.LocateWorkspaceIdFirst | test/abstractions/providers/prolific/test_prolific_utils.py:291-304 | when an id is given, the title plays no part in the lookup |
| Reconciler.LocateWorkspaceFirstByTitle | test/abstractions/providers/prolific/test_prolific_utils.py:316-327 | a title lookup answers the earliest workspace carrying the title |
| Reconciler.WorkspaceReconcileIdempotent | test/abstractions/providers/prolific/test_prolific_utils.py:369-388 | after find-or-create has created a workspace, the next lookup by its title finds that workspace |
| Reconciler.FindWorkspace | test/abstractions/providers/prolific/test_prolific_utils.py:291-349 | the locator answers `LocateWorkspace`, issues one retrieve or one list call, and creates nothing |
| Reconciler.FindOrCreateWorkspace | test/abstractions/providers/prolific/test_prolific_utils.py:351-408 | a found workspace is answered unchanged with nothing created; otherwise the answer is exactly the create call's; a lookup or create error is answered with its message |
| Reconciler.LocateProject | test/abstractions/providers/prolific/test_prolific_utils.py:410-466 | a found project is one of the workspace that matches by id when given, else by title; no answer exactly when the list succeeds and none matches; an error exactly when the list fails, carrying its message |
| Reconciler.LocateProjectFirst | test/abstractions/providers/prolific/test_prolific_utils.py:410-454 | when project `i` is the earliest of the workspace that matches, the lookup answers project `i` |
| Reconciler.ProjectReconcileIdempotent | test/abstractions/providers/prolific/test_prolific_utils.py:483-501 | after find-or-create has created a project, the next lookup by its title in the workspace finds it |
| Reconciler.FindProject | test/abstractions/providers/prolific/test_prolific_utils.py:410-466 | the locator answers `LocateProject`, issues one list call, and creates nothing |
| Reconciler.FindOrCreateProject | test/abstractions/providers/prolific/test_prolific_utils.py:468-521 | a found project is answered unchanged with nothing created; otherwise the answer is exactly the create call's; errors carry their message |
| Reconciler.LocateQualification | test/abstractions/providers/prolific/test_prolific_utils.py:548-581 | a found group is one of the project with the name; no answer exactly when the list succeeds and none has it; an error exactly when the list fails, carrying its message |
| Reconciler.LocateQualificationFirst | test/abstractions/providers/prolific/test_prolific_utils.py:548-571 | when group `i` is the earliest of the project with the name, the lookup answers group `i` |
| Reconciler.QualificationReconcileIdempotent | test/abstractions/providers/prolific/test_prolific_utils.py:634-654 | after find-or-create has created a group, the next lookup by its name in the project finds it |
| Reconciler.FindQualification | test/abstractions/providers/prolific/test_prolific_utils.py:548-581 | the locator answers `LocateQualification`, issues one list call, and creates nothing |
| Reconciler.CreateQualification | test/abstractions/providers/prolific/test_prolific_utils.py:583-613 | answers exactly what the create call returns and appends it, or its error |
| Reconciler.FindOrCreateQualification | test/abstractions/providers/prolific/test_prolific_utils.py:615-677 | a found group is answered unchanged with nothing created; otherwise the create call's answer, the description being used only there; errors carry their message |
| Reconciler.DeleteQualification | test/abstractions/providers/prolific/test_prolific_utils.py:523-546 | answers `true` once the group is removed, and otherwise the remove call's error with the groups unchanged |
| Balance.BalanceOf | test/abstractions/providers/prolific/test_prolific_utils.py:236-289 | nothing without a workspace name; nothing exactly when no listed workspace has the name; when the located workspace's balance can be read, exactly that balance, and any balance answered is the located workspace's; an error exactly when the list fails or the located workspace's balance cannot be read, carrying the call's message or the not-found message |
| Balance.BalanceOfFirst | test/abstractions/providers/prolific/test_prolific_utils.py:236-251 | the balance answered is that of the earliest workspace listed with the name |
| Balance.CheckBalance | test/abstractions/providers/prolific/test_prolific_utils.py:236-289 | answers `BalanceOf`; issues no call without a name, and reads the balance only for a found workspace |
| Balance.CheckCredentials | test/abstractions/providers/prolific/test_prolific_utils.py:120-131 | `true` exactly when the identity call succeeds; its error becomes `false` |
| Eligibility.NamedAttributes | test/abstractions/providers/prolific/test_prolific_utils.py:185-226 | never more attributes than keys; a descriptor without a `name` key gives one `{name, value}` attribute per key, in key order |
| Eligibility.AsAttributes | test/abstractions/providers/prolific/test_prolific_utils.py:185-226 | the `{name, value}` attributes of a key list, one per key; the property the translator relies on is stated by `NamedAttributesAreKeys` |
| Eligibility.NamedAttributesAreKeys | test/abstractions/providers/prolific/test_prolific_utils.py:185-226 | for every key list, the attributes are exactly those of the non-`name` keys, in key order |
| Eligibility.ToWire | test/abstractions/providers/prolific/test_prolific_utils.py:149-234 | the wire object of one descriptor: `_cls` is the namespace plus its requirement name; the age range carries the query block; the participant group a single `{id, value: true}` attribute; the others their keys as attributes; its properties are stated by `WireShape` and `FromWireToWire` |
| Eligibility.Convert | test/abstractions/providers/prolific/test_prolific_utils.py:149-234 | one wire object per descriptor, in input order |
| Eligibility.WireShape | test/abstractions/providers/prolific/test_prolific_utils.py:185-232 | `_cls` is the namespace plus the requirement name; only the age range carries the query block with the fixed id; the participant group's single attribute is `{id, value: true}`; every other variant lists its keys in order |
| Eligibility.ConvertAppend | test/abstractions/providers/prolific/test_prolific_utils.py:149-234 | translating a concatenation translates each part independently |
| Eligibility.FromWireToWire | test/abstractions/providers/prolific/test_prolific_utils.py:185-232 | each wire object determines the descriptor it came from |
| Eligibility.ConvertRoundTrip | test/abstractions/providers/prolific/test_prolific_utils.py:149-234 | reading the translated list back gives the descriptors: the translation loses nothing |
| Lifecycle.IsStudyExpired | test/abstractions/providers/prolific/test_prolific_utils.py:919-943 | a study is expired when it is completed and its internal name ends in `_` and the marker; its properties are stated by `ExpiredIffMarked` and `IsStudyExpiredCases` |
| Lifecycle.ExpiredIffMarked | test/abstractions/providers/prolific/test_prolific_utils.py:919-943 | a study is expired exactly when it is completed and its internal name is some name followed by `_` and the marker |
| Lifecycle.IsStudyExpiredCases | test/abstractions/providers/prolific/test_prolific_utils.py:919-943 | the four cases of the test: completed but unmarked, active, and awaiting review are not expired; completed and marked is |
| Lifecycle.GetStudy | test/abstractions/providers/prolific/test_prolific_utils.py:807-832 | answers the stored study with the id, or the retrieve error |
| Lifecycle.PublishStudy | test/abstractions/providers/prolific/test_prolific_utils.py:834-859 | answers the study id, not the study, and the stored study becomes active; or the publish error |
| Lifecycle.StopStudy | test/abstractions/providers/prolific/test_prolific_utils.py:861-886 | answers the stopped study, now stored under its id, awaiting review or completed; or the stop error |
| Lifecycle.Expiry | test/abstractions/providers/prolific/test_prolific_utils.py:888-917 | the pure model of `expire_study`: re-fetch, stop, then rename with the marker; each step's failure ends it with that step's message and the calls issued so far |
| Lifecycle.ExpiryMarksStudy | test/abstractions/providers/prolific/test_prolific_utils.py:888-903 | a successful expiry answers the re-fetched study with the stop outcome as its status and stores it renamed with the marker; the stored study is expired exactly when the stop completed it; whatever the outcome, the studies under every other id are kept |
| Lifecycle.ExpiryFailure | test/abstractions/providers/prolific/test_prolific_utils.py:905-917 | expiry fails exactly when the re-fetch, the stop or the rename fails; a failure before the rename leaves the studies as they were |
| Lifecycle.ExpiryAborts | test/abstractions/providers/prolific/test_prolific_utils.py:888-917 | a failed re-fetch answers its error, leaves the studies and issues only the retrieve; a failed stop answers the stop error and issues no rename; once stopped, the three calls are issued and a failed rename answers its error |
| Lifecycle.ExpireStudy | test/abstractions/providers/prolific/test_prolific_utils.py:888-917 | answers `Expiry`, leaves its studies and issues its calls; a failed re-fetch issues no stop and no rename |
| Lifecycle.Increase | test/abstractions/providers/prolific/test_prolific_utils.py:769-805 | the pure model of `increase_total_available_places_for_study`: re-fetch, then store with `increment` more places; each step's failure ends it with that step's message |
| Lifecycle.IncreaseAddsPlaces | test/abstractions/providers/prolific/test_prolific_utils.py:769-805 | a successful increase re-fetched an existing study and stores it with exactly `increment` more places and its other fields kept; a failed one changes nothing; the studies under every other id are always kept; the update is issued only after a successful re-fetch, and each failure carries its call's message |
| Lifecycle.IncreaseTotalAvailablePlaces | test/abstractions/providers/prolific/test_prolific_utils.py:769-805 | answers `Increase`, leaves its studies and issues its re-fetch and update calls |
| Lifecycle.CreateStudy | test/abstractions/providers/prolific/test_prolific_utils.py:725-767 | creates and then updates; answers the created study under its new id, appended and stored; a create error adds nothing and skips the update |
| StudyUrl.QueryStart | test/abstractions/providers/prolific/test_prolific_utils.py:679-691 | the index of the first `?` of a URL, or its length when it has none |
| StudyUrl.IsEc2Architect | test/abstractions/providers/prolific/test_prolific_utils.py:693-702 | the architect is EC2 exactly when its type is `ec2` |
| StudyUrl.Ec2ExternalUrl | test/abstractions/providers/prolific/test_prolific_utils.py:679-691 | the public domain followed by the configured URL's query string; its shape is stated by `Ec2UrlShape` |
| StudyUrl.GetExternalStudyUrl | test/abstractions/providers/prolific/test_prolific_utils.py:703-723 | off EC2 the configured URL is answered unchanged |
| StudyUrl.BaseQuerySplit | test/abstractions/providers/prolific/test_prolific_utils.py:679-691 | a URL is its part before the first `?` followed by its query string |
| StudyUrl.Ec2UrlShape | test/abstractions/providers/prolific/test_prolific_utils.py:679-691 | on EC2 the URL is the domain followed by the configured query string, placeholders unchanged |
| StudyUrl.ExternalUrlKeepsQuery | test/abstractions/providers/prolific/test_prolific_utils.py:703-723 | on every architect the participant arrives with the configured query string |
| StudyUrl.QueryPartOfAppend | test/abstractions/providers/prolific/test_prolific_utils.py:679-691 | a base without `?` followed by a query string has that query string |
| StudyUrl.ExternalUrlFixture | test/abstractions/providers/prolific/test_prolific_utils.py:693-723 | the `https://example.com` URL with the three placeholders is kept on any architect but `ec2`, and on `ec2` it moves to `http://test.com` |

## Left out

- `setup_credentials` and `get_authenticated_client`: they read and write a credentials file on disk. This is file I/O.
- The HTTP transport is replaced by `Provider.Client`: its collections plus injected failures.
- Ids that Prolific assigns (generated with `uuid4` in the tests) are parameters: `newId` on each create. `Lifecycle.CreateStudy` requires that no study has that id yet.
- `get_full_domain` of the EC2 architect is a foreign lookup and is the `domain` parameter.
- `create_study` assembles its payload from the task-run configuration: title, description, reward, completion codes and eligibility requirements. The model keeps only the study's project, name, internal name and places. The follow-up update call carries no fields in the model.
- Rewards and balances that are floating point: a balance is an `int`.
- Races between check-then-create and fetch-then-update: these are concurrency, and every operation here is sequential.
- An unknown eligibility variant: the descriptor is a closed datatype, so the translator's error for an unknown name cannot arise.
- `Eligibility.FromWire`: it decodes only wire objects whose attributes come in the translator's key order.
- `Lifecycle.IncreaseTotalAvailablePlaces`: the increment is a parameter. The tests do not fix its value, so the model takes any natural number.
- `Provider.NotFound`: the text of the error for an unknown id is an assumption.
- `Lifecycle.ExpiredMarker`: the value of `StudyStatus._EXPIRED` (assumed `EXPIRED`) is an assumption. The constants module is not part of this model.
- Statuses: the tests name completed, active and awaiting review. The model adds unpublished, the status it gives a newly created study. Other statuses (such as scheduled or paused) are not modelled.
- `Reconciler.LocateWorkspace`: a retrieve by an unknown id is modelled as the provider's not-found error, passed on unchanged, rather than as a "not found" answer. The tests only show retrieve errors passed on as they are.
- `Reconciler.LocateProject`: with an id, it matches within the workspace's listing rather than by a retrieve call, as the test with an id shows.
- `Lookup.Scan`: the locators' search is modelled as a loop over the listing that stops at the first match. The tests fix only its result.
- `StudyUrl.Ec2ExternalUrl`: the URL is modelled as the domain followed by the configured URL from its first `?`. The tests fix only that the three placeholders follow the domain; other string handling is not modelled.
- `Reconciler.ProjectMatches`: with an id, a project is matched by its id alone. The test with an id (lines 426-440) lists one project that carries both the id and the title, so this choice is an assumption.
- `Balance.CheckCredentials`: `check_credentials()` builds its own authenticated client. The model takes that client as a parameter.
- `Eligibility.Requirement`: each variant fixes its keys and their order, so a descriptor that lists its keys in another order, or has extra keys, cannot be expressed.
