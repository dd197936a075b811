# ShipZen: a verified model

ShipZen is a deployment platform.  An API commits deployment rows to PostgreSQL and adds
messages to a Redis stream; workers read the stream as one consumer group, start one build
Job per deployment in Kubernetes and follow it with a monitor thread; a controller repairs
the cluster from the rows and the rows from the cluster.  This project models these
processes over their shared stores and proves what they keep, over all runs, with a crash,
a lost reply or another process possible between any two store calls.

| file | contents |
|---|---|
| `Protocol.dfy` | the deployment protocol as one state machine: stores, workers, monitors, requests, controller writes |
| `ProtocolQueue.dfy` | conservation of messages, and the outcome behind every acknowledgement |
| `ProtocolImages.dfy` | provenance of the images of served rows |
| `ProtocolRequests.dfy` | what the API promises about rows and their messages |
| `ProtocolHistory.dfy` | who writes what, after what; a row's state is the last one written |
| `ProtocolBuilds.dfy` | when a deployment is built a second time |
| `ProtocolRepeats.dfy` | runs that show which hypotheses the previous file needs |
| `ProtocolRuns.dfy` | a run from a push to a rollback that is Running, and how a build ends |
| `WorkerProcess.dfy` | the worker's own code, statement by statement, refining the state machine |
| `ApiProcess.dfy` | the deploy endpoints, statement by statement, refining it as well |
| `ScanGate.dfy` | the image scan loop of the monitor |
| `QueueClient.dfy` | the sweep that takes over stalled messages |
| `StateMachine.dfy` | write, then publish, with one retry |
| `LiveStatus.dfy` | the status socket against every writer of the row |
| `Reconciler.dfy` | one controller tick over a project's deployments, and the fixpoint of ticks |
| `Projects.dfy` | the life of a project between the API and the controller, and what projects of one tick do to each other |
| `Users.dfy` | `get_or_create_user` called concurrently |
| `Members.dfy` | project ownership, members, and `verify_project_access` |
| `Pagination.dfy` | keyset pagination on a fixed and on a changing table |
| `RepoWalk.dfy` | the repository walk and the choice of a builder |
| `Formats.dfy` | strings that one process writes and another parses |
| `Slug.dfy` | the namespace proposed by the new-project form |

`dafny verify dfyconfig.toml` checks the whole project.

## How the code was read

- A store call is one step.  Its environment chooses whether it takes effect and whether
  the caller sees an exception; an effect whose reply is lost is possible.  A process can
  crash before any step; a worker's monitor threads die with it.
- `update_state` may repeat its UPDATE after a dropped connection.  In the protocol the first,
  lost attempt is a step of its own, and other processes can come before the second.
- `monitor_job` uses the name `project_id_db` at worker/main.py:210, 221 and 229, which is a
  local of `process_message`.  As written those paths raise `NameError` before they write
  `Failed`, the one at line 229 out of the thread.  The model follows the intended parameter
  `project_id`, so that the writes take place.
- `create_from_yaml` is taken to raise an `ApiException` with status 409 for an object that
  exists, as controller/main.py:145-146 assumes; applying manifests is therefore idempotent.
- `Verifying`, `Retry` and `DLQ` are never written to a row and `MAX_RETRIES` is never read,
  although docs/architecture/06-deployment-flow-diagram.md describes them.  The model has
  `Verifying` where code tests for it, and no retry limit.
- `project_members.created_at`, which `add_project_member` returns, is a column of the
  migration's table and not of api/schema.sql; the model assumes it is there.
- One controller runs at a time.  All projects of a tick share its connection: an error inside
  `reconcile_deployments` (controller/main.py:415-416) leaves the transaction aborted, COMMIT and
  ROLLBACK end it, and every other statement raises until then.
- A subscription to a status channel is taken to be in force when `subscribe` returns
  (api/main.py:681); the client may return once the command is sent.

## What the code does not give

Each of these is a lemma or a contract, next to the theorem it limits.

- `ProtocolRepeats`: a deployment is built twice, with no `Failed` in between, in four kinds of
  runs in which no message is handled by two workers at once.  In
  `StaleBatchBuildsTwice` no call fails: a message is taken over while it waits in a live
  worker's batch.  In `LostFailureBuildsTwice` a handler's acknowledgement and its write of
  `Failed` both raise.  In `LostVerdictBuildsTwice` the monitor's last write of `Failed` is lost
  and its worker dies.  In `RemovedRowBuildsTwice` the row is removed.  Each run departs from
  `ProtocolBuilds.Orderly` in that one circumstance.  An orderly run can build twice as well, but
  only with `Failed` in between (`FailedBuildRepeats`).  Job names that collide, two ids with the
  same first eight characters, do no harm in this respect.
- `ProtocolRequests.AppHookStrandsRow`, `UncertainCommitStrandsRow` and `CrashStrandsRow`: a
  row is left `Queued` without a message when a push through the GitHub App cannot be
  enqueued, when a commit takes effect but raises, and when the API dies between commit and
  XADD.  By `ProtocolRequests.StrandedForGood` it stays so in every continuation until the
  row is removed.
- `ApiProcess.Endpoints.RollBack`: a rollback reports success exactly if its row was committed and the
  commit returned; whether its message could be added makes no difference.
- `StateMachine.RepeatOverwrites`: the repeated UPDATE of `update_state` overwrites what
  other writers wrote after the first one had taken effect, exactly if the last of their writes to
  the row wrote another state.
- `LiveStatus.SilentWriteIsMissed` with `LiveStatus.MissedForGood`: the API's compensating `Failed`
  is not published, so every socket that has read the row misses it for good, and by
  `LiveStatus.StaysOpen` does not close on account of it.
- `LiveStatus.ReadFirstMisses`: reading before subscribing would lose terminal states for good.
- `Projects.DeletionInsideTick` with `Projects.OverwrittenIsLost`: a deletion that falls between
  a tick's read and the project's turn is overwritten exactly if the turn writes a status.
- `Projects.LostForGood`: a project whose deletion was overwritten, or that failed while it was
  being deleted (`Projects.ErrorWhileTerminating`), is never removed, whatever ticks and API
  requests follow: `deleted_at` keeps new delete requests out.  By `Projects.LostExactly` the one
  exception is a delete request that had passed its access check before; it can still end it.
- `Projects.FailedByNeighbour`: a failed UPDATE of one project's deployment, which
  `reconcile_deployments` only logs, sets to `Failed` the next project of the tick that has a
  statement to run, though none of its own calls fails; `Projects.NeighbourFails` is such a run.
- `Users.TwoAdmins`: two concurrent first users both become admin.
- `Reconciler.TwoTicksSettle`: two ticks settle exactly the clusters without a `Running` row
  that has lost objects and does not become ready; otherwise it takes three.
- `Pagination.SkippedExactly`: the timestamp-only cursor skips a row exactly if some page without
  it ends on its timestamp.
- `ScanGate.Gate`: a scan that fails, or does not finish in twelve looks, lets the image through.

## Model

| member | source | states |
|---|---|---|
| ProtocolQueue.LedgerKept | worker/queue_client.py:27-42 | Delivering, taking over, acknowledging and every other store call keep each delivered entry in exactly one of pending and acked, and never move the last-delivered id back. |
| ProtocolQueue.OwnersExactly | worker/queue_client.py:27-53 | Entries delivered or taken over are pending under that consumer; no other call changes whose a pending entry is. |
| ProtocolQueue.HandsExactly | worker/main.py:403-415 | A worker then has them in hand, in order, unless the reply is lost. |
| ProtocolQueue.StepOutcome | worker/main.py:246-260 | The call a handler makes on its way to an acknowledgement leaves the message's outcome on record first: dead-letter copy, created Job, rollback write, or a row read as being built or served. |
| ProtocolQueue.AckedKept | worker/queue_client.py:34-40 | Only a worker that has the outcome of its message on record acknowledges it. |
| ProtocolQueue.QueueInvStep | worker/main.py:240-392 | Every action of any process keeps the ledger, the workers' hands within what was delivered, and an outcome behind every acknowledgement. |
| ProtocolQueue.EveryMessageAccountedFor | worker/main.py:403-418 | In every run with any workers and crashes, each message is in exactly one of undelivered, pending and acked, and an acked one is in the dead-letter stream, or had its Job created, or its rollback written, or its row read as Building, Deploying or Running. |
| ProtocolImages.CallsTraceable | worker/main.py:255-261 | In a state that keeps the invariants, every write of a served state is to a row whose image was built and let through, Running is the controller's to write, and every message added names a committed row, a rollback's with the image of a deployment that was Running. |
| ProtocolImages.CallKeeps | controller/main.py:345-374 | Store calls so restricted keep every served row, stream entry and Job traceable to a succeeded build and a passed gate, every Running row to the controller's write, and every id to the image it was committed with. |
| ProtocolImages.GateSawSuccess | worker/main.py:122-131 | A monitor comes to the scan gate only for an image whose Job succeeded. |
| ProtocolImages.MonMoves | worker/main.py:184-215 | It comes past the gate only if the scan's answers let the image through, which the history then records. |
| ProtocolImages.MonJobStands | worker/main.py:231-237 | While a monitor lives, its Job is there under its name and is its own; no other monitor's clean-up takes it away. |
| ProtocolImages.SpawnInvStep | worker/main.py:362-378 | Between creating a Job and starting its monitor a worker has that Job to itself. |
| ProtocolImages.ImageInvStep | api/main.py:555-576 | Every action keeps the whole provenance invariant, build and gate, along rollbacks of rollbacks too. |
| ProtocolImages.NameTakenExactly | worker/builder.py:66 | In every run a Job can be created exactly if no Job in the namespace is for an id with the same first eight characters. |
| ProtocolImages.ServedImagesWereBuilt | worker/main.py:148-215 | In every run with crashes, a row in Deploying or Running names an image whose build Job succeeded and that the scan gate let through. |
| ProtocolImages.WaysIntoDeploying | worker/main.py:255-261 | In every run each write of Deploying is a monitor's or a rollback's; the image its deployment was committed with, which stays on record when the row is removed, was built and let through before; a rollback's is also the image of a deployment that the controller had set to Running before. |
| ProtocolRequests.CommittedBeforeAdded | api/main.py:486-525 | A message is added only for a row that was committed before. |
| ProtocolRequests.CommittedRowsStay | api/schema.sql:39-41 | A committed row stays until the cascade removes it. |
| ProtocolRequests.EveryMessageNamesItsRow | api/main.py:567-593 | In every run, each message names a row with the message's own image, unless the cascade removed that row. |
| ProtocolRequests.StreamDistinctStep | api/main.py:511-525 | A deployment has at most one message. |
| ProtocolRequests.EntryOfRequest | api/main.py:511-525 | In every run each entry of the stream is one request's, with its deployment, repository and image, and is flagged as a rollback exactly if the request is one. |
| ProtocolRequests.RequestHasEntry | api/main.py:570-579 | Each request whose XADD took effect has such an entry, where it was told. |
| ProtocolRequests.MessageExactlyWhenAdded | api/main.py:511-535 | In every run the message of a request that committed its row is in the stream exactly if its XADD added it, returned or not. |
| ProtocolRequests.QueuedRowHasItsMessage | api/main.py:1144-1203 | In every run each Queued row has one request, and has its message exactly unless that request is under way before the message was added, or ended with an XADD that added nothing and no successful compensation, with a commit that raised, or with the end of its process. |
| ProtocolRequests.StrandedForGood | api/main.py:1144-1203 | A Queued row without a message whose request has ended stays so in every continuation, until the cascade removes it. |
| ProtocolRequests.UncertainCommitStrandsRow | api/main.py:1170-1175 | In every run, a commit that takes effect and raises strands its row. |
| ProtocolRequests.AppHookStrandsRow | api/main.py:1296-1328 | In every run, a push through the GitHub App whose XADD adds nothing and raises strands its row. |
| ProtocolRequests.CrashStrandsRow | api/main.py:506-515 | In every run, the end of the API process between commit and XADD strands the row. |
| ProtocolHistory.HistoryIsLawful | worker/main.py:240-392 | In every run: a Job is created only for a complete message that is no rollback, with its deployment and image; a handler writes Failed for such a message and Deploying for a rollback; a monitor writes Building, Deploying or Failed where a Job was created; the controller writes Running after Deploying and Failed after its own Running; the API writes Failed; Jobs end after they began, and images pass the gate after their Job succeeded. |
| ProtocolHistory.RowIsLastWrite | worker/state_machine.py:66-76 | In every run a row's state is the last one written to it by anyone, Queued before any. |
| ProtocolHistory.LastWriteExactly | worker/state_machine.py:66-76 | That is the entry after which no other is for this row. |
| ProtocolBuilds.HandsInvStep | worker/queue_client.py:44-66 | In orderly runs each message is in at most one worker's hands, and nothing in hand and not yet acknowledged is acked. |
| ProtocolBuilds.TailWatched | worker/main.py:214-237 | The monitor's last step leaves its build watched or finished with an active row. |
| ProtocolBuilds.SettledStep | worker/main.py:362-390 | Once a Job was created, its message stays acked, or its Job stands unwatched, or it is finished, or its creator is still at it, until the row is set to Failed. |
| ProtocolBuilds.CreatesOnlyWhenClosed | worker/main.py:250-253 | In an orderly run, an action that creates a Job finds no earlier build of that deployment open. |
| ProtocolBuilds.ClosedByFailure | worker/main.py:225-230 | A build that is no longer open was followed by a write of Failed. |
| ProtocolBuilds.NoSecondBuildWithoutFailure | worker/main.py:362-390 | In every orderly run, between two build Jobs of one deployment its row was set to Failed. |
| ProtocolRepeats.MoveShows | worker/main.py:240-392 | The moves of the runs below, seen on one message, two workers and a monitor, are enabled actions of the protocol. |
| ProtocolRepeats.StaleBatchBuildsTwice | worker/main.py:404-418 | A fault-free run in which no message is handled twice at once builds a deployment twice, with no Failed in between, for every message and any two workers. |
| ProtocolRepeats.LostFailureBuildsTwice | worker/main.py:380-386 | So does a run that is orderly but for one handler's lost write of Failed. |
| ProtocolRepeats.LostVerdictBuildsTwice | worker/main.py:225-237 | So does one that is orderly but for one monitor's lost last write of Failed. |
| ProtocolRepeats.RemovedRowBuildsTwice | worker/main.py:250-253 | So does one that is orderly but for the removal of the row. |
| ProtocolRepeats.FailedBuildRepeats | worker/main.py:380-391 | For every message and any two workers an orderly run builds a deployment twice, with Failed in between: the acknowledgement raises, Failed is written, the dead-letter copy raises, the monitor fails and cleans up, and the message is swept and built again. |
| ProtocolRuns.BuildsAndRollsBack | api/main.py:550-593 | For every complete message and every other id there is a run in which the message is built, let through, Deploying and Running, and then a rollback brings its image to Deploying and Running under the other id without a second Job; the whole history is given. |
| ProtocolRuns.RollbackCanDeploy | worker/main.py:255-261 | From every state of every run with a Running row and an idle worker that has all messages, a rollback of that row can be deployed, with the entry and the history that this leaves. |
| ProtocolRuns.BrokenBuildFails | worker/main.py:124-130 | A monitor that reads its Job as failed writes Failed next, whatever comes in between, and then deletes the Job. |
| ProtocolRuns.SucceededBuildConcludes | worker/main.py:184-219 | One that reads it as succeeded goes through the gate and writes Deploying, or Failed exactly if an exception or a severe finding was the first of twelve answers to settle the scan, and then deletes the Job. |
| WorkerProcess.System.Do | worker/main.py:403-418 | Every step of the code is an enabled action of the state machine, added to a run that leads to the present state. |
| WorkerProcess.Consumer.StoreCall | worker/main.py:250-260 | With others running first, a call returns as its environment says, unless a Job has the name, and moves the handler on; what it was for is then on record. |
| WorkerProcess.Consumer.AddToDlq | worker/queue_client.py:37-42 | Copies and then acknowledges; returns exactly if both return, with the message copied and acked. |
| WorkerProcess.Consumer.ProcessMessage | worker/main.py:240-392 | For every choice of the calls that return: which of dead-letter copy, acknowledgement, rollback write, Job and handler's Failed is on record, from the message, the row as read and that choice alone, and exactly when an exception leaves the handler. |
| WorkerProcess.Consumer.ProcessBatch | worker/main.py:413-415 | Handles the messages in hand one by one and ends idle with empty hands; those before an exception are acked, and all if there is none. |
| WorkerProcess.Consumer.Turn | worker/main.py:403-418 | One turn of the consumer loop, with everything else interleaved: the swept messages still pending are taken over and handled, then up to five new ones, fewer only if all that was there is delivered; all are acked unless an exception ends the turn. |
| WorkerProcess.MonitorThread.AwaitEnd | worker/main.py:122-131 | The poll ends with a Job read as succeeded, which leads to the gate, or as failed, which leads to the write of Failed, or with a read that raises; otherwise every read it was granted found the Job active. |
| WorkerProcess.MonitorThread.ScanImage | worker/main.py:184-212 | The gate as the monitor goes through it: the answers of the scan lead to Deploying or Failed as `ScanGate.Gate` decides, and a pass is on record. |
| WorkerProcess.MonitorThread.MonitorJob | worker/main.py:73-237 | For every choice of the calls that return and of the scan's answers: what the thread learned, the state it recorded last (Deploying for an image let through, Failed otherwise, nothing exactly if its last writes raised), and that the Job is deleted; or that it is still polling an active Job. |
| ApiProcess.Endpoints.AddToStream | api/main.py:512-521 | With others running first, the entry with the request's fields and flag is in the stream if the XADD takes effect, at the place the request knows if it returns; otherwise the compensation follows where there is one. |
| ApiProcess.Endpoints.Deploy | api/main.py:486-535 | For every way its commit, XADD and compensation end: when the row is committed, when it succeeds, how the request ends; success means that the row's message is in the stream; after a failure a row that is still Queued has its message exactly if the XADD added it. |
| ApiProcess.Endpoints.RollBack | api/main.py:550-607 | Refuses exactly when it finds no Running row of the project; answers 202 exactly if the row was committed and the commit returned; the row it leaves has the image of the row it found, which was built and let through; the entry, with the new id, that image and the rollback flag, is in the stream exactly if the XADD took effect. |
| ScanGate.Gate | worker/main.py:184-205 | The image is stopped exactly if one of twelve answers is an exception or a severe finding and all before it say that the scan is in progress or pending; it looks until the first other answer. |
| ScanGate.GateDecidedByFirstSettled | worker/main.py:199-205 | The first settled answer decides: an exception or a severe finding stops the image. |
| QueueClient.Client.XAutoClaim | worker/queue_client.py:49-53 | One page: from its start on it looks at ten times the count, or until the list ends or the count is taken over; each entry idle for the timeout becomes this consumer's with idle time zero and one more delivery; it names the next start. |
| QueueClient.Client.RecoverPendingMessages | worker/queue_client.py:44-66 | The sweep ends for any page size and list; every entry idle for the timeout is returned once, in order, and is this consumer's with idle time zero and one more delivery; every other entry is as it was. |
| QueueClient.StalledIdsExact | worker/queue_client.py:56-66 | What it returns lists every entry idle past the timeout exactly once, in id order, and nothing else. |
| StateMachine.Updater.UpdateState | worker/state_machine.py:60-105 | Raises exactly unless one of two attempts goes through after at most a dropped connection; every row afterwards, by the attempts and the other writers' last write to it; a publish follows a call that returns, and no other. |
| StateMachine.RepeatIsOneWrite | worker/state_machine.py:60-105 | If no other writes the row in between, two attempts leave what one write leaves. |
| StateMachine.RepeatOverwrites | worker/state_machine.py:94-103 | After a first attempt that took effect, the outcome is one write followed by the others' exactly if the second takes no effect, there is no row, or the last of the others' writes to it wrote the same state. |
| StateMachine.LastOfExactly | worker/state_machine.py:66-76 | What it compares with is the last of the others' writes to this row, if there is one. |
| LiveStatus.CoveredStep | api/main.py:681-695 | Every step keeps each published status arrived, or no newer than the row the socket reads, or its row removed before the read. |
| LiveStatus.NoTerminalStatusMissed | api/main.py:679-702 | Under every interleaving, a socket with nothing left to forward has sent the status of every published write or of a later one, or has closed on a terminal status, unless the row was gone when it read and the status did not arrive afterwards. |
| LiveStatus.ClosedOnAWrite | api/main.py:697-702 | A closed socket has sent the status of some write of the row that was Running, Failed or DLQ. |
| LiveStatus.UnpublishedSentExactly | api/main.py:679-702 | In every run, of either order, the status of a write that was not published is sent exactly if the socket read the row as that write left it. |
| LiveStatus.MissedForGood | api/main.py:693-702 | A write whose publish is neither to come nor among what arrived, and that the socket did not read, is sent in no continuation. |
| LiveStatus.SilentWriteIsMissed | api/main.py:522-533 | In every run, a write that announces nothing, like the API's compensating Failed, is missed in this sense by a socket that has read the row. |
| LiveStatus.StaysOpen | api/main.py:693-702 | If all terminal writes are missed the socket stays open. |
| LiveStatus.ReadFirstMisses | api/main.py:681-695 | With the two swapped, in every run, a socket that has read and not yet subscribed misses every write published then that it did not read. |
| LiveStatus.ReadFirstCanMiss | api/main.py:681-695 | For every status there is such a run. |
| LiveStatus.Serve | api/main.py:693-702 | The handler sends the row and then the messages up to the first that says Running, Failed or DLQ, and closes exactly on that. |
| LiveStatus.ForwardedWhenDone | api/main.py:697-702 | A socket with nothing left to forward has forwarded what the handler forwards. |
| Reconciler.AfterTick | controller/main.py:324-404 | After a tick every row that was wanted has its three objects, and nothing else has a Deployment. |
| Reconciler.TickExactly | controller/main.py:324-404 | Row by row and object by object: exactly when a row is Running or Failed after a tick, and which Deployments, Services and routes are there. |
| Reconciler.TickCounts | controller/main.py:330-411 | The counters rise by the missing, failing and orphaned, and by the promoted; the gauge is the number of rows read as Running with a Deployment and a ready replica. |
| Reconciler.ThreeTicksSettle | controller/main.py:299-413 | From any rows and objects, three ticks reach a state where exactly the active rows have a Deployment, each with Service and route, and every later tick changes nothing, counters included. |
| Reconciler.TwoTicksSettle | controller/main.py:345-355 | Two ticks settle exactly if no Running row has lost an object and stays unready. |
| Reconciler.Controller.Apply | controller/main.py:116-183 | Creates or patches the three objects; one that fails is skipped. |
| Reconciler.Controller.RepairRow | controller/main.py:324-381 | One row's turn in phase 1, from the row, the objects seen, the ready replicas and the faults: recreation, failure, promotion or nothing, with its counters, and exactly when it ends the tick. |
| Reconciler.Controller.RepairRows | controller/main.py:324-381 | Phase 1 over all rows: which rows change, which objects are there, and what the counters show, also when it ends early. |
| Reconciler.Controller.RemoveOrphan | controller/main.py:389-404 | Deletes Deployment, Service and route in this order; a missing Service keeps the route; a failed Deployment delete, or another error than an ApiException on Service or route, ends the tick; any failed delete may have taken effect. |
| Reconciler.Controller.RemoveOrphans | controller/main.py:387-404 | Phase 2 over all Deployments seen, judged by the rows read when the tick began. |
| Reconciler.Controller.ReconcileDeployments | controller/main.py:299-416 | With any calls of the tick failing, alone or together, in effect or not: the state of every row and which objects are there (`Left`); the success counter rises by the promotions whose UPDATE returned, the drift counter by the corrections; every row in the gauge is still Running; it ends early only on a fault; without errors it is the specified tick. |
| Projects.TurnIsLawful | controller/main.py:213-279 | A turn taken on the row as it is writes Ready only after seeing the namespace, removes only a deleted Terminating row after not seeing it, and does not leave Failed. |
| Projects.TurnExactly | controller/main.py:213-293 | A turn from the data alone: when it writes, when it ends in the handler, the row, the drift counter and the transaction it leaves. |
| Projects.RequestsExactly | api/main.py:182-201 | What creating a project and asking for its deletion write, and that a deleted project admits no more delete requests. |
| Projects.LifeIsLawful | controller/main.py:213-293 | The same over every run of API calls and ticks in which no API write lands inside a tick. |
| Projects.RemovedWhenNamespaceGone | controller/main.py:252-265 | In every run, whatever other projects and the API do: a project whose deletion is under way and whose turns meet no error is kept while they see its namespace, and removed for good by the first that does not. |
| Projects.FailedStays | controller/main.py:281-293 | In every run a Failed project stays as it is until a delete request for it is carried out. |
| Projects.ErrorWhileTerminating | controller/main.py:252-293 | A turn makes a Terminating row Failed exactly if it ends in the handler, the write of Failed takes effect, and no DELETE took effect before. |
| Projects.LostForGood | api/database.py:181-191 | A project with deleted_at set that is not Terminating, with no delete request past its access check, is neither removed nor set to Terminating in any continuation; if it has failed it stays Failed. |
| Projects.LostExactly | api/main.py:268-275 | In every run, a project with deleted_at set that is not Terminating is kept in all continuations exactly if no delete request for it is past its access check; otherwise one of them removes it. |
| Projects.DeletionInsideTick | controller/main.py:213-293 | A stale turn overwrites a deletion exactly if it writes its verdict or Failed. |
| Projects.OverwrittenIsLost | controller/main.py:281-293 | What was overwritten is lost for good, unless another delete request was already admitted. |
| Projects.DeletionOverwritten | api/main.py:268-275 | For every project there is a run in which this happens: the row is Ready with deleted_at set. |
| Projects.SpoiledExactly | controller/main.py:415-416 | In every run the tick's transaction is aborted exactly if an UPDATE of a Ready project's deployment failed in this tick and since then only Failed projects had their turns. |
| Projects.FailedByNeighbour | controller/main.py:225-293 | In every run, a turn none of whose own calls fails sets its project to Failed exactly if it has a statement to run and the transaction is aborted, which is another project's doing. |
| Projects.NeighbourFails | controller/main.py:281-293 | For any two projects there is a run in which this happens. |
| Projects.Controller.Reconcile | controller/main.py:205-296 | Every project read gets its turn; a quiet tick leaves each whose turn meets no error as its status and namespace ask for: Ready, Provisioning, kept, or removed; a turn without an error of its own meets one only if a deployment UPDATE of another Ready project fails in this tick. |
| Users.KeyInvStep | api/database.py:98-111 | Every statement of every call keeps the ids distinct and a row behind every call past its INSERT. |
| Users.ExactlyOneRow | api/database.py:84-117 | In every interleaving, once a call has returned there is exactly one row for its id. |
| Users.EveryCallerReturnsTheRow | api/database.py:88-111 | Every call returns the role of that row, as long as no role is set by hand. |
| Users.AdminSawEmptyTable | api/database.py:94-96 | A created user is admin exactly when its count saw an empty table; the first row is always admin. |
| Users.SequentialFirstIsAdmin | api/database.py:84-111 | Sequential calls make exactly the first user admin, with one row for each id. |
| Users.TwoAdmins | api/database.py:94-103 | Two concurrent first users both become admin. |
| Users.Database.GetOrCreateUser | api/database.py:84-117 | For every choice of statements that raise: without any it returns, unless it waits for another call for the id; then there is exactly one row for the id; alone, it returns the role of the row that is there or adds one, as admin exactly to an empty table. |
| Members.OwnedStep | api/main.py:182-201 | Every statement of every request keeps one owner membership per project. |
| Members.OneOwnerEach | api/main.py:340-415 | In every run, the owners of a project are exactly its owner_id. |
| Members.OwnerAlwaysAdmitted | api/database.py:172-197 | The owner is admitted exactly as long as the project is not deleted. |
| Members.OnlyTheOwnerWrites | api/main.py:391-413 | A write by a caller who is no admin is the owner's, although the check is statements old. |
| Members.OwnerStays | api/main.py:399-413 | No request, an admin's included, takes the owner's membership away. |
| Members.CreateAndCascade | api/main.py:182-201 | A new project admits its creator, as its owner, and apart from admins nobody else; the cascade takes a project away with its memberships and nothing else. |
| Members.Database.Serve | api/main.py:332-415 | The endpoints end with one of their statuses, and a success means what it says; a request that meets no error and nobody else has exactly the answer and the effect that the tables it finds ask for; one owner remains in all cases. |
| Pagination.ListingUnique | api/main.py:642-643 | The order of the list has exactly one listing for a table. |
| Pagination.LessExactly | api/main.py:642-643 | The text order: a proper beginning, or the smaller character at the first difference. |
| Pagination.PageExactly | api/main.py:632-643 | A page is the first `limit` of the rows with a smaller timestamp, or the same and a smaller id, than the cursor, in descending order of both. |
| Pagination.WalkIsListing | api/main.py:632-643 | On a fixed table the pages, put together, are the rows after the cursor in order, and the walk ends. |
| Pagination.AllPagesAreTheTable | api/main.py:611-648 | For any limit all pages are the project's rows, sorted descending, each once. |
| Pagination.WalkOnChangingTable | api/main.py:625-648 | While rows are inserted, updated or removed between pages, every untouched row is listed, and no deployment is listed twice if no deployment's timestamp goes back. |
| Pagination.LaterStampsSuffice | worker/state_machine.py:66-76 | Timestamps later than those listed, for whatever is inserted or updated, are enough for that. |
| Pagination.SkippedExactly | api/database.py:60-81 | Over a whole walk by the timestamp-only cursor, a row is on no page exactly if some page without it ends on its timestamp. |
| Pagination.AgreesOnDistinctTimestamps | api/database.py:69-76 | With distinct timestamps both queries have the same answers. |
| RepoWalk.SortIsStable | api/analyzer.py:165 | The sort orders by confidence and keeps the order within a confidence. |
| RepoWalk.FirstBestIsPreferred | api/analyzer.py:83-166 | The head of the sorted candidates is the preferred builder. |
| RepoWalk.Detect | api/analyzer.py:83-166 | The candidates appended for a directory's files, sorted, begin with the builder and confidence that the markers call for; none exactly if there is no marker. |
| RepoWalk.Analyzer.WalkPath | api/analyzer.py:52-181 | The recursive walk appends the services of the pre-order specification and raises exactly on a faulty configuration it gets to. |
| RepoWalk.Analyzer.Analyze | api/analyzer.py:45-184 | Only the root's own invalid configuration gets out as an error. |
| RepoWalk.WalkSources | api/analyzer.py:52-181 | The services are those of exactly the marked directories the walk reaches, each once, in pre-order, each with its path. |
| RepoWalk.WalkFields | api/analyzer.py:83-173 | Field by field, each service has its directory's name, path and configuration, the builder that the configuration fixes with full confidence, and otherwise the one its markers call for; no marked directory that is reached is missing. |
| RepoWalk.ReachesExactly | api/analyzer.py:52-81 | The walk goes on into a child exactly if it is not excluded or hidden, is readable, has no invalid configuration, and no earlier sibling that was entered has one. |
| RepoWalk.PathNames | api/analyzer.py:57-59 | A service's path holds the names of the directories on the way to it, in order. |
| RepoWalk.NothingBelowSkipped | api/analyzer.py:53-55 | Nothing at or below an excluded or hidden directory is reached. |
| RepoWalk.FaultyChildCutsOff | api/analyzer.py:175-181 | A faulty nested configuration drops its own subtree and its parent's later children, and nothing else. |
| Formats.ImageRoundTrip | worker/main.py:186-187 | The image URI, written out; the worker's parse of it gives back the repository the controller ensures and the deployment id, exactly when the id has no colon. |
| Formats.LogUriRoundTrip | api/main.py:837-838 | The API's parse of a log URI gives back bucket and key, exactly when the bucket has no slash. |
| Formats.CursorRoundTrip | api/main.py:634 | Printing and splitting a cursor gives the pair back, exactly when the timestamp has no bar. |
| Slug.SlugShape | ui/src/app/projects/new/page.tsx:17-26 | Every proposal has at most 63 legal characters, no double and no leading hyphen. |
| Slug.SlugIsWords | ui/src/app/projects/new/page.tsx:17-26 | The proposal is the name's words, its longest runs of letters and digits, with single hyphens between them, cut at 63 characters. |
| Slug.SlugAccepted | api/main.py:62 | The API accepts it exactly when it has at least 3 characters and the cut at 63 did not end on a hyphen. |

## Left out

- Kubernetes, AWS, git, crane and GitHub: only success, failure and the fact learned are modelled.
- Manifest and script text: only the Job's name and the set of objects created.
- Clocks and sleeps: idle time is a number, and polls are counted.
- Redis trimming and entries deleted while pending: the stream only grows, and the sweep sees an unchanging list.
- `block_ms`, queue metrics, build records, the detected port, log streaming, audit logging, retention, environment variables: they do not touch the state the properties speak about.
- The connection pool wrapper and the liveness check of the worker's connection; the queries by which the webhooks find their project.
- Authentication, webhook signatures, rate limits, CORS, input validation other than the namespace pattern.
- The image URI is an arbitrary string in `Protocol`; its format is the matter of `Formats`.
- Framework detection in the repository walk; symbolic links that make the tree infinite; YAML and the other keys of `shipzen.yaml`: a configuration is valid with its builder, or faulty.
- `build_args`, `replicas` and ports of deployments, and the role of a member beyond ownership.
- ProtocolBuilds.NoSecondBuildWithoutFailure: it asks for orderly runs, more than that no message is handled twice at once, because each of their four circumstances is needed (`ProtocolRepeats`); and it goes one way, for a run can be disorderly without building twice.
- ApiProcess.Endpoints.RollBack: the source takes the latest Running row of the project; here it may be any of them.
- WorkerProcess.MonitorThread.MonitorJob: the poll of a Job has no limit of its own, so the reads it gets are a parameter.
- Users.EveryCallerReturnsTheRow: an admin who sets a role by hand can make an earlier answer out of date.
- migrations/01_project_members.sql, which makes every admin an owner, is outside the invariant of `Members`.
- Rows or objects that something other than the controller changes during a tick, in `Reconciler`; `Protocol` has those interleavings, with the controller acting on the rows it read.
- Projects.SpoiledExactly: a connection that is lost altogether is not followed from one turn to the next; the errors it causes are each turn's own.
