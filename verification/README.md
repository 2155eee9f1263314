# Masakari: verified models of instance high availability

Masakari recovers virtual machines of an OpenStack cloud. Monitors on the compute hosts send notifications of failed
hosts, processes and instances to an API; an engine takes each notification through a recovery workflow. This project
models the parts of the repository in which many things happen at once, or in which an algorithm is easy to get wrong,
and proves what they promise.

| file | models |
|---|---|
| `Protocol.dfy` | The database rows, the API transactions, the engine's worker threads with their per-host lock, and the periodic task, as one transition system with 21 actions. Deliveries of a notification may repeat, be late, and come in any order. |
| `ProtocolInvariant.dfy` | The inductive invariant of that system, action by action. |
| `RecoveryTheorems.dfy` | Theorems on notifications over all runs: legal status writes, at most two starts, safety of the write outside the lock, what a round settles, quiescence. |
| `RetryTheorems.dfy` | Which notifications are retried before the periodic task gives them up. |
| `HostTheorems.dfy` | Theorems on hosts and segments over all runs: live hosts, maintenance, duplicates; and the run in which the update guard fails. |
| `Masakari.dfy` | The API calls and the engine's entry points as methods of a class that changes the shared system step by step. Every write is a step of the protocol; between two of a thread's own steps a schedule lets other threads run. The contracts give the exact sequence of steps a thread takes. |
| `Evacuation.dfy` | The calls made for one instance of a failed host, and a pool of workers that share one failure list. |
| `Outcomes.dfy` | How workflows end, and the exception clauses between them and a notification's status. |
| `HostRecovery.dfy` | The taskflow driver: automatic and reserved-host workflow, and the two priority methods. |
| `ReservedHosts.dfy` | Several evacuations that compete for reserved hosts under their non-blocking locks, with the API's edits of hosts, as a second transition system. |
| `GuestPing.dfy` | The instance monitor's journal per domain, against a condition on the history of pings. |
| `ApiVersions.dfy`, `VersionedMethods.dfy` | API microversions, the overlap check on version intervals, registration and dispatch. |
| `Paging.dfy` | Sort parameters, the ordered query after a marker, and the dashboard's pages. |
| `Purge.dfy` | The bounded purge of old rows. |
| `RegexRange.dfy` | The builder of character ranges. |
| `ProcessMonitor.dfy` | Rounds of restarting processes, and the list of those that could not be restarted. |
| `Options.dfy` | The type of values that may be absent. |

## How to read the models

Status columns are kept as trails: every value a row has held, oldest first. That makes "at most once" and "is never
left" statements about single states. A purged row stays in the model, marked as gone.

Assumptions of the protocol: there is one engine process, because the lock is internal to a process
(`masakari/masakari/utils.py:253-274`), and it does not stop in the middle of its work; one round of the periodic task
runs at a time; each API call is one atomic transaction; `save()` writes only the columns that changed. A handler may
return any status it can return, or raise; then the row stays RUNNING, and the lock is released.

Where the code does something other than its documentation or its names suggest, the model follows the code:

- `update_host` asks whether the segment it was given is under recovery, not the host's segment.
  `UpdateGuardIsOfGivenSegment` says exactly when an update goes through. Three promises depend on callers naming the
  host's own segment, and for each there is a run in which another one breaks it and the exact condition under which it
  holds: a host stays on maintenance while its failure is handled (`WrongSegmentClearsMaintenance`, `OnMaintenanceIff`);
  a failed host is not among its own candidates (`FailedHostIsItsOwnCandidate`, `OwnCandidateIff`); two evacuations do
  not use one reserved host (`TwoEvacuationsUseOneHost`, `LockIsGrantedIff`, `HostsAreExclusive`).
- The overlap check sorts an interval without end by its null end, which comes first of all. `SweepFinds` says what the
  check finds in any list, `SweepIsExact` that it is right where all intervals have an end, `TwoMethods` when it is
  right for two methods, and `OpenEndedOverlap` is an overlap that it misses. Whether two intervals that touch in one
  version are found depends on the order of registration (`TouchingDependsOnOrder`).
- A process that the last permitted retry does restart is notified like one that is not restarted
  (`RestartedYetNotified`); `NotifiedAlthoughRestarted` says exactly when that happens.
- Not every ERROR is retried: one that the periodic task finds for an entry it had listed as NEW becomes FAILED at
  once, as in the run of `FailedWithoutRetry`. `FailedAfterRetryIffListedAsError` says exactly which notifications are
  retried before they are given up.
- A skip inside the reserved-host flow is retried with the next reserved host, because the step that raises it is among
  the retried ones (`masakari/masakari/conf/engine_driver.py:107-115`); so the workflow ends as its last attempt does.
- The dashboard asks for one row more than it shows, and the API caps that request. The pages are the whole list exactly
  if the cap leaves room for the surplus row, or the list fits under it (`WalkPages`; `WalkMissesRow` is a case in which
  they are not).
- A run of one character at the very end of the alphabet is emitted as a range from the character to itself, and only
  that one (`Written`).
- A version string may end in a newline (`ParseWithNewline`).
- A negative failure threshold of the guest ping acts like 0 (`Needed`).

## Model

| member | source | states |
|---|---|---|
| `ProtocolInvariant.LegalTrailGrows` | masakari/masakari/engine/manager.py:190-234 | A status write keeps the trail a prefix of NEW, RUNNING, ERROR, RUNNING, ERROR, FAILED or one of its early ends if and only if it is one of the legal writes. |
| `ProtocolInvariant.StepKeeps` | masakari/masakari/engine/manager.py:181-278 | The invariant is inductive: each of the 21 actions, of API, worker threads and periodic task, keeps it from any state. |
| `ProtocolInvariant.RunKeeps` | masakari/masakari/engine/manager.py:181-278 | Every state of every run satisfies the invariant. |
| `RecoveryTheorems.WritesAreLegal` | masakari/masakari/engine/manager.py:190-234 | In every interleaving a step changes a row's status only by NEW to RUNNING, RUNNING to FINISHED, IGNORED or ERROR, ERROR to RUNNING once, ERROR to FAILED; it never leaves FINISHED, IGNORED or FAILED, and never touches a row's data. |
| `RecoveryTheorems.TrailsOnlyGrow` | masakari/masakari/engine/manager.py:206-234 | Over any stretch of a run a row keeps its data, extends its trail, and stays as it is once it has ended. |
| `RecoveryTheorems.StartExtendsHistory` | masakari/masakari/engine/manager.py:196-212 | A start from a NEW copy is exactly a step that writes the second value of the trail, a retry exactly one that writes RUNNING as its fourth. |
| `RecoveryTheorems.RecoveryStartsAtMostTwice` | masakari/masakari/engine/manager.py:181-278 | However often and late a notification is delivered, its workflow starts at most once from a NEW copy and at most once as the retry of an ERROR; the trail tells exactly how often; at most five writes follow its creation. |
| `RecoveryTheorems.FailedWriteIsSafe` | masakari/masakari/engine/manager.py:257-272 | When FAILED is written outside the lock, the row is still in ERROR and in the database, and no thread is processing it or has passed its check. |
| `RecoveryTheorems.OneWorkerPerHost` | masakari/masakari/utils.py:253-274 | Two threads past the lock of the same host are the same thread. |
| `RecoveryTheorems.CheckDecides` | masakari/masakari/engine/manager.py:189-207 | The check under the lock lets a thread go on exactly if the row is there and, for a NEW copy, still NEW; it fails exactly if the row is gone; it changes nothing else. |
| `RecoveryTheorems.TurnCalls` | masakari/masakari/engine/manager.py:252-258 | At its turn an entry is processed, with the copy the round holds, exactly if it is listed as ERROR, or as NEW and too old. |
| `RecoveryTheorems.RoundSettles` | masakari/masakari/engine/manager.py:244-278 | At the end of a round every notification it listed as ERROR or found due is FINISHED, IGNORED or FAILED, or is RUNNING because its own handler raised. |
| `RecoveryTheorems.TurnsSettle` | masakari/masakari/engine/manager.py:252-278 | Over any run: an entry that its turn finds listed as ERROR, or as NEW and too old, is FINISHED, IGNORED or FAILED when the round's turns are over, or RUNNING because its own handler raised, whatever API and workers did in between. |
| `RecoveryTheorems.StepUsesPotential` | masakari/masakari/engine/manager.py:209-234 | The number of writes still open drops by one with each status write and rises only with a new notification. |
| `RecoveryTheorems.SystemGoesQuiet` | masakari/masakari/engine/manager.py:209-272 | Without new notifications a run of any length has at most five status writes per notification left. |
| `RetryTheorems.StepKeepsRetry` | masakari/masakari/engine/manager.py:252-272 | Every step keeps: an entry listed as NEW has had no retry while the round is not past it, one listed as ERROR that its turn leaves in ERROR has had one. |
| `RetryTheorems.FailedAfterRetryIffListedAsError` | masakari/masakari/engine/manager.py:252-272 | In every run, a notification that becomes FAILED has had its first run, and a second one if and only if the round had listed it as ERROR. |
| `RetryTheorems.FailedWithoutRetry` | masakari/masakari/engine/manager.py:252-272 | A run in which a notification goes from its first ERROR to FAILED without a retry. |
| `HostTheorems.LiveStepKeeps` | masakari/masakari/ha/api.py:34-41 | Every step keeps: unfinished notifications name hosts that exist, and hosts are in segments that exist. |
| `HostTheorems.HostLookupsNeverFail` | masakari/masakari/ha/api.py:110-119 | In every state of every run each NEW, RUNNING or ERROR notification is in the database and names a live host of a live segment, so the handler's host lookup succeeds. |
| `HostTheorems.NamesAreUnique` | masakari/masakari/db/sqlalchemy/api.py:454-475 | In every state of every run no two hosts have the same name, so a notification's host name denotes at most one. |
| `HostTheorems.HostIsMarked` | masakari/masakari/engine/manager.py:69-81 | Exactly STOPPED notifications of hosts and processes put their source host on maintenance; only a host failure takes it off the reserved ones; nothing else changes. |
| `HostTheorems.HandlerReturns` | masakari/masakari/engine/manager.py:57-179 | What each handler may return, by type and event; for a stopped host or process not before the host is on maintenance. |
| `HostTheorems.MaintenanceStep` | masakari/masakari/ha/api.py:172-195 | While a notification is RUNNING or ERROR, its host's maintenance flag is lost in a step if and only if the step is an update of that host that clears it; then the update names another segment, which is not under recovery; handlers and updates alone set it. |
| `HostTheorems.OnMaintenanceIff` | masakari/masakari/engine/manager.py:139-149 | From the moment a handler puts a host on maintenance, as long as its notification is RUNNING or ERROR: the host is on maintenance if and only if every update that took it off was followed by a step that put it on again; each such update named another segment. |
| `HostTheorems.MaintenanceStays` | masakari/masakari/ha/api.py:244-255 | So if `update_host` gets each host's own segment, the flag stays and every new notification from the host is refused in that time. |
| `HostTheorems.UpdateGuardIsOfGivenSegment` | masakari/masakari/ha/api.py:172-182 | An update of a host with an unfinished notification goes through if and only if the given segment exists and is not under recovery and the new name is free; with the host's own segment it never does. |
| `HostTheorems.WrongSegmentClearsMaintenance` | masakari/masakari/ha/api.py:172-195 | A run, step by step, in which an update that names another segment takes a host off maintenance while its notification is RUNNING, so that further notifications are accepted. |
| `HostTheorems.DuplicatesAreApart` | masakari/masakari/ha/api.py:216-237 | Of two notifications with equal host, type and payload in any reachable state, an earlier one that is NEW or RUNNING and was never in ERROR was generated more than the interval before the later one. |
| `Masakari.Handle` | masakari/masakari/engine/manager.py:57-179 | The status the three handlers exit with is one the protocol allows for the row's type and event. |
| `Masakari.ExitStatuses` | masakari/masakari/engine/manager.py:57-179 | Which one, by the workflow's outcome. An instance: FINISHED exactly for a valid event and a completed or skipped workflow, IGNORED exactly for an invalid event or an ignored recovery, else ERROR. A host or process: FINISHED if started, IGNORED for an unknown event, and if stopped FINISHED exactly for a completed or skipped workflow, else ERROR. |
| `Masakari.HandlersRaise` | masakari/masakari/engine/manager.py:83-98 | A handler raises exactly if it has work to do and a call of its own raises, or, for instances and processes, its workflow ends with an exception that is no MasakariException. |
| `Masakari.HostFailuresAreHandled` | masakari/masakari/engine/manager.py:161-171 | However the workflows for a failed host end, the handler returns a status, FINISHED exactly if they were completed or skipped, else ERROR. |
| `Masakari.OthersDisturbNot` | masakari/masakari/engine/manager.py:181-234 | Whatever another thread does, a thread keeps its place, its row keeps its data and does not become NEW again, and the round does not move. |
| `Masakari.Deployment.RunHandler` | masakari/masakari/engine/manager.py:214-222 | The handler ends with the status of its type, event and workflow; its steps are exactly: host on maintenance if the event calls for it, then return or raise. |
| `Masakari.Deployment.DoProcessNotification` | masakari/masakari/engine/manager.py:182-234 | Everything is decided by the row read at the check: the thread goes on exactly if the row is there and not (copy NEW, row not NEW); it then takes exactly the steps start, handler, save; it fails exactly if the row is gone or it goes on and the handler raises; the handler's status is then the row's. |
| `Masakari.Deployment.ProcessNotification` | masakari/masakari/engine/manager.py:181-240 | The same between acquiring and releasing the host's lock, which is released however the call ends; the periodic task goes on after a normal end and is aborted by an exception. |
| `Masakari.ProcessingSteps` | masakari/masakari/engine/manager.py:186-234 | What the steps of these calls are, by the row read: a start exactly if the row is there and, for a NEW copy, still NEW; then the host on maintenance exactly for a STOPPED host or process, and the handler's own status returned and saved, or its exception. |
| `Masakari.TurnSteps` | masakari/masakari/engine/manager.py:252-272 | What the steps of a turn are: the lock taken and the notification processed exactly if the entry is listed as ERROR, or as NEW and too old; FAILED written exactly if the second read finds ERROR. |
| `Masakari.Deployment.FailIfError` | masakari/masakari/engine/manager.py:257-278 | FAILED is written exactly if the second read finds the row in ERROR; the round is aborted exactly if it finds the row gone, and moves on otherwise. |
| `Masakari.Deployment.TurnOfRound` | masakari/masakari/engine/manager.py:252-278 | One turn in terms of the two rows it reads: the call, with the steps its check calls for, exactly if the entry is listed as ERROR or as NEW and too old; the second read; the write of FAILED exactly if that finds ERROR. It fails only if the call fails or the second read finds the row gone. |
| `Masakari.Deployment.ProcessUnfinishedNotifications` | masakari/masakari/engine/manager.py:242-278 | The list is exactly the rows in ERROR or NEW at the start, each once. For every schedule of all other threads, a round that runs to its end consists of exactly the turns of that list, in order, and leaves each entry listed as ERROR, or as NEW and too old, FINISHED, IGNORED or FAILED, or RUNNING if its handler raised; an aborted round leaves the way free for the next one. |
| `Masakari.Deployment.UnfinishedNotifications` | masakari/masakari/engine/manager.py:245-250 | The list holds exactly the rows in ERROR or NEW, each once, with their status. |
| `Masakari.Deployment.IsDuplicateNotification` | masakari/masakari/ha/api.py:216-237 | True if and only if some row of the same host, type and payload is NEW or RUNNING and was generated no more than the interval before the new one. |
| `Masakari.Deployment.CreateNotificationFor` | masakari/masakari/ha/api.py:239-275 | For the one host of that name, if there is one: refused as on maintenance exactly if it is, as a duplicate exactly if such a row exists, else accepted: exactly one NEW row with the given data is appended. A refusal changes nothing. |
| `Masakari.Deployment.IsUnderRecovery` | masakari/masakari/db/sqlalchemy/api.py:319-342 | True if and only if a NEW, RUNNING or ERROR notification names a live host of the segment. |
| `Masakari.Deployment.CreateHostOf` | masakari/masakari/ha/api.py:154-170 | Adds the host as given, exactly if the segment exists and the name is free; whether the segment is under recovery does not matter. |
| `Masakari.Deployment.UpdateHostOf` | masakari/masakari/ha/api.py:172-195 | Unknown segment, unknown host, a segment that is under recovery and a taken name are refused, in that order and under exact conditions; else exactly the given columns of that host change. |
| `Masakari.Deployment.DeleteHostOf` | masakari/masakari/ha/api.py:197-208 | Refused exactly for an unknown segment, a host that is not in it, and a segment with an unfinished notification, in that order; else removes that host only. |
| `Masakari.Deployment.DeleteSegmentOf` | masakari/masakari/db/sqlalchemy/api.py:304-315 | Refused exactly for an unknown segment or one with an unfinished notification; else takes its hosts with it and no others. |
| `Evacuation.ScriptRecords` | masakari/masakari/engine/drivers/taskflow/host_failure.py:182-241 | For every instance and all answers of nova: at most one evacuation is asked for, and the instance is recorded as failed once if it was not recovered, else not at all. |
| `Evacuation.ScriptRestoresLock` | masakari/masakari/engine/drivers/taskflow/host_failure.py:160-170 | The lock on the instance ends as its user had left it. |
| `Evacuation.ScriptOrder` | masakari/masakari/engine/drivers/taskflow/host_failure.py:187-236 | An evacuation is asked for only while the instance is locked and only if it was in a state nova accepts or has been reset; an instance is stopped only if it has to be, after its move was confirmed. |
| `Evacuation.ScriptMeans` | masakari/masakari/engine/drivers/taskflow/host_failure.py:158-245 | Which calls are made, by the state the instance was listed in and nova's answers: locked exactly if its user has not; evacuated exactly if active, in error or stopped without a task, or reset and fetched again; stopped, once moved, always if it was stopped or in error, never if active, if resized exactly if shut down and not active now, otherwise exactly if not active now; reset to error exactly if that was its state; recorded exactly if any of it was not confirmed. |
| `Evacuation.EvacuateInstancesTask.TryEvacuate` | masakari/masakari/engine/drivers/taskflow/host_failure.py:182-241 | The code makes exactly the calls of the script, in order, and fails exactly for instances that are not recovered. |
| `Evacuation.EvacuateInstancesTask.EvacuateAndConfirm` | masakari/masakari/engine/drivers/taskflow/host_failure.py:158-245 | The whole worker makes exactly the calls of its script, appends the instance to the failure list exactly if it was not recovered, and leaves all locks as they were. |
| `Evacuation.EvacuateInstancesTask.Spawn` | masakari/masakari/engine/drivers/taskflow/host_failure.py:285-290 | Starting a worker in a full or free pool, with any progress of the others meanwhile, keeps what is known of every worker, the failure list, the locks and the pool's bound. |
| `Evacuation.EvacuateInstancesTask.Execute` | masakari/masakari/engine/drivers/taskflow/host_failure.py:247-300 | For every schedule of the workers: each instance is attempted once, by its own script; the failure list names exactly those not recovered, none twice; the evacuation raises if and only if there is one; every lock ends as it began. |
| `Evacuation.SelectExactly` | masakari/masakari/engine/drivers/taskflow/host_failure.py:76-101 | An instance is selected as often as it is listed, or not at all, by its metadata and its state. |
| `Evacuation.SelectInOrder` | masakari/masakari/engine/drivers/taskflow/host_failure.py:80-96 | The selection goes through the list in order, each instance taken or left by its metadata and its state alone. |
| `Evacuation.FilterInstances` | masakari/masakari/engine/drivers/taskflow/host_failure.py:76-101 | HA-enabled instances first, then the others if all are to go, each in the order of the list; instances in error are left out if so configured. |
| `HostRecovery.TaskFlowDriver.RunReservedHostFlow` | masakari/masakari/engine/drivers/taskflow/host_failure.py:354-391 | Reserved hosts are tried in the order of the list, each once, up to the first success; the flow ends as the last attempt did. |
| `HostRecovery.TaskFlowDriver.ExecuteReservedHostWorkflow` | masakari/masakari/engine/drivers/taskflow/driver.py:52-66 | Without reserved hosts none is tried and the workflow ends for lack of them; else it ends as its first task, if that fails, or as the attempt with the last host tried, but for a busy lock, which becomes a recovery failure. |
| `HostRecovery.TaskFlowDriver.ExecuteAutoPriorityWorkflow` | masakari/masakari/engine/drivers/taskflow/driver.py:68-91 | The reserved-host workflow follows if and only if the automatic one neither ended well nor skipped. |
| `HostRecovery.TaskFlowDriver.ExecuteReservedHostPriorityWorkflow` | masakari/masakari/engine/drivers/taskflow/driver.py:93-116 | The automatic workflow follows if and only if the reserved-host one neither ended well nor skipped. |
| `HostRecovery.TaskFlowDriver.ExecuteHostFailure` | masakari/masakari/engine/drivers/taskflow/driver.py:118-150 | Over all four methods and all outcomes: no workflow follows one that ended well or skipped; two run exactly when a priority method's first one did neither; the hosts tried are a prefix of the list that ends at the first success; skips, recovery failures and a lack of reserved hosts are re-raised, all else becomes a MasakariException. |
| `HostRecovery.TaskFlowDriver.HandleHostFailure` | masakari/masakari/engine/manager.py:161-171 | Through the exception clauses of driver and handler the notification is always given a status: FINISHED exactly if the last workflow was completed or skipped, else ERROR. Without reserved hosts, the reserved-host method ends in ERROR and its priority variant runs both workflows. |
| `HostRecovery.HostOutcomesBecomeStatuses` | masakari/masakari/engine/drivers/taskflow/driver.py:141-150 | The driver's clause is what it takes: the handler's clause alone raises for exceptions that are no MasakariExceptions, both together never. |
| `ReservedHosts.StepKeeps` | masakari/masakari/engine/drivers/taskflow/host_failure.py:251-313 | Every step, of any number of concurrent evacuations and of the API under its real guards, keeps locks, jobs, hosts and log in agreement. |
| `ReservedHosts.StepIsProper` | masakari/masakari/engine/drivers/taskflow/host_failure.py:276-313 | Each event is one that its predecessors permit: a lock taken only if free, a flag cleared and an instance sent only by the lock's holder, to the host it holds it for. |
| `ReservedHosts.ReservedHostsAreExclusive` | masakari/masakari/engine/drivers/taskflow/host_failure.py:299-313 | In every run two evacuations never hold the lock of one name at once, and no instance is sent to a host before its reserved flag was cleared by the evacuation that sends it. |
| `ReservedHosts.SelectionIsExact` | masakari/masakari/engine/manager.py:154-159 | A selection lists each host of the failed host's segment that is reserved and off maintenance, once, with its name, and nothing else. |
| `ReservedHosts.AttemptSteps` | masakari/masakari/engine/drivers/taskflow/host_failure.py:280-313 | What taking a lock, clearing the flag, sending and ending an attempt do to lock, row and job: a taken lock or a failure leads to the next candidate, a success ends the recovery, and the lock is free afterwards. |
| `ReservedHosts.CandidatesWereEligible` | masakari/masakari/engine/manager.py:154-159 | In every run each candidate of a recovery under way was reserved, off maintenance and in the failed host's segment at its selection, and is still there and in that segment, whatever the API has done since. |
| `ReservedHosts.LockIsGrantedIff` | masakari/masakari/utils.py:253-274 | A recovery gets the lock it tries if and only if no evacuation under way holds one of that name. |
| `ReservedHosts.HostsAreExclusive` | masakari/masakari/engine/drivers/taskflow/host_failure.py:299-313 | If hosts are renamed only through their own segment, two evacuations never use the same reserved host at once. |
| `ReservedHosts.TwoEvacuationsUseOneHost` | masakari/masakari/ha/api.py:172-195 | A run in which a reserved host is renamed through another segment between two selections, and both evacuations then hold a lock for it. |
| `ReservedHosts.OwnCandidateIff` | masakari/masakari/engine/manager.py:139-159 | The failed host is among its own candidates if and only if updates since it was marked have left it both reserved and off maintenance. |
| `ReservedHosts.OwnSegmentKeepsFailedHostOut` | masakari/masakari/ha/api.py:172-182 | It never is if `update_host` gets each host's own segment. |
| `ReservedHosts.FailedHostIsItsOwnCandidate` | masakari/masakari/ha/api.py:172-195 | A run in which an update through another segment makes the failed host its own only candidate. |
| `GuestPing.SentIffFailsAfterSuccess` | masakari-monitors/masakarimonitors/introspectiveinstancemonitor/qemu_utils.py:235-275 | If sending succeeds, a notification has been sent if and only if the history holds a success followed immediately by threshold+2 failures. |
| `GuestPing.Journal.GuestPing` | masakari-monitors/masakarimonitors/introspectiveinstancemonitor/qemu_utils.py:277-305 | After any history: no undefined event is processed, the counter is the failure streak in the error state and 0 in healthy and discovery, the flag says whether the history called for a notification, reported implies sent. For each ping: the exact next state, counter, flag and number of notifications. |
| `GuestPing.Journal.Notify` | masakari-monitors/masakarimonitors/introspectiveinstancemonitor/qemu_utils.py:247-275 | Sends at most once per reset; a failed sending changes nothing. |
| `GuestPing.QemuGuestAgent.CheckGuest` | masakari-monitors/masakarimonitors/introspectiveinstancemonitor/qemu_utils.py:277-336 | Only the pinged domain's history grows, and exactly one or no notification has been delivered for it since its reset, as its history demands. |
| `GuestPing.QemuGuestAgent.ResetJournal` | masakari-monitors/masakarimonitors/introspectiveinstancemonitor/qemu_utils.py:192-203 | The domain's history starts afresh with nothing sent; the histories of all other domains stay. |
| `ApiVersions.ParseOfString` | masakari/masakari/api/api_version_request.py:176-182 | The text of a version, parsed again, is that version if and only if its major number is not 0, as for every parsed version. |
| `ApiVersions.StringOfParse` | masakari/masakari/api/api_version_request.py:89-107 | A text that parses is the text of the version it denotes, but for one newline at its end. |
| `ApiVersions.ParseWithNewline` | masakari/masakari/api/api_version_request.py:100-107 | Every version's text followed by a newline parses to that version. |
| `ApiVersions.ParseTenthMinor` | masakari/masakari/api/api_version_request.py:100-107 | "1.10" is version 1.10 and "01.1" is none. |
| `ApiVersions.MatchesMeans` | masakari/masakari/api/api_version_request.py:151-174 | A match is: not below a given minimum and not above a given maximum, by major and then minor number; 0.0 gives no bound. |
| `VersionedMethods.CheckForVersionsIntersection` | masakari/masakari/api/openstack/wsgi.py:995-1022 | The sort and the counting loop find an overlap exactly when at some edge the intervals begun outnumber those ended by more than one; where all have an end, exactly if two of them overlap in the sense of `SweepIsExact`; where none has, never. |
| `VersionedMethods.SweepFinds` | masakari/masakari/api/openstack/wsgi.py:995-1022 | For any list: an overlap is found if and only if at some end point the intervals in force that have an end outnumber those without end that start later by two or more. |
| `VersionedMethods.SweepIsSound` | masakari/masakari/api/openstack/wsgi.py:995-1022 | What is found is real, for any list: two intervals with an end overlap. |
| `VersionedMethods.SweepIsExact` | masakari/masakari/api/openstack/wsgi.py:995-1022 | Where all intervals have an end: an overlap is found if and only if two of them share more than an end point, or the end of the one registered later is the start of the other. |
| `VersionedMethods.OverlapIsShared` | masakari/masakari/api/openstack/wsgi.py:995-1022 | Some version is served by both methods of an overlap that is found. |
| `VersionedMethods.ProperOverlapIsDetected` | masakari/masakari/api/openstack/wsgi.py:995-1022 | Two methods with ends that both serve two different versions are always found. |
| `VersionedMethods.TwoMethods` | masakari/masakari/api/openstack/wsgi.py:995-1022 | For two methods the check finds them if and only if both have an end and they overlap. |
| `VersionedMethods.OpenEndsAreMissed` | masakari/masakari/api/openstack/wsgi.py:945-952 | With at most one interval that has an end, nothing is ever found. |
| `VersionedMethods.OpenEndedOverlap` | masakari/masakari/api/openstack/wsgi.py:945-952 | Two methods that both serve version 1.5 and pass the check. |
| `VersionedMethods.TouchingDependsOnOrder` | masakari/masakari/api/openstack/wsgi.py:1005-1022 | Two intervals that meet in one version are found in one order of registration and not in the other. |
| `VersionedMethods.Controller.Register` | masakari/masakari/api/openstack/wsgi.py:940-978 | Raises exactly if the check finds an overlap; otherwise the list holds what was registered, by descending start. |
| `VersionedMethods.Controller.VersionSelect` | masakari/masakari/api/openstack/wsgi.py:885-912 | Runs a method with the greatest start among those that match; fails exactly if none matches; a null version is an error as soon as there is a method. |
| `Paging.ProcessSortParams` | masakari/masakari/db/sqlalchemy/api.py:122-186 | Fails exactly for an unknown direction or more directions than keys, in that order; else the given keys and directions come first, default keys are added once, the id is among them, and there is one direction for each key. |
| `Paging.BeforeIsTransitive` | masakari/masakari/db/sqlalchemy/api.py:536-546 | The row order is transitive for any keys and directions. |
| `Paging.BeforeIsTotal` | masakari/masakari/db/sqlalchemy/api.py:178-184 | With the id among the keys no two rows tie. |
| `Paging.BeforeMeans` | masakari/masakari/db/sqlalchemy/api.py:536-546 | One row comes before another exactly if it does so in the first key in which they differ: by the smaller value in ascending, the greater in descending direction. |
| `Paging.ListingMeans` | masakari/masakari/api/openstack/common.py:219-250 | What the dashboard lists: exactly the matching rows, or those of them after the marker, each once, newest first and by descending id among rows of one time. |
| `Paging.OrderedListsAll` | masakari/masakari/db/sqlalchemy/api.py:536-546 | The ordered list holds each row exactly once, strictly ascending. |
| `Paging.OrderIsUnique` | masakari/masakari/db/sqlalchemy/api.py:536-546 | It is the only list that does. |
| `Paging.RestIsSuffix` | masakari/masakari/db/sqlalchemy/api.py:528-546 | The rows strictly after the i-th row, in order, are what follows it in the whole list. |
| `Paging.NotificationsGetAllByFilters` | masakari/masakari/db/sqlalchemy/api.py:496-548 | The limit 0 gives nothing before anything is checked; invalid sorting, a missing marker and an unknown column are errors, in that order, under exact conditions; else the answer is the first rows, up to the limit, of the matching ones after the marker. |
| `Paging.PaginationProcess` | masakari-dashboard/masakaridashboard/api/api.py:81-101 | The surplus row is dropped and reported as more data; earlier data exist exactly if there is a marker. |
| `Paging.NotificationList` | masakari-dashboard/masakaridashboard/api/api.py:166-178 | A page shows the next rows after the marker up to the page size and the API's cap, and says that there is more exactly if there is and the cap lets it see. |
| `Paging.WalkPages` | masakari-dashboard/masakaridashboard/api/api.py:65-101 | Walking the pages shows, each page but the last full, the whole list, no row lost or repeated, if and only if the page size is below the API's cap or the list fits under the cap; otherwise exactly the first rows up to the cap. |
| `Paging.WalkMissesRow` | masakari/masakari/api/openstack/common.py:209-216 | Two rows, pages of one row and a cap of one: one of the rows is never shown. |
| `Purge.DeleteFromSelect` | masakari/masakari/db/sqlalchemy/api.py:618-636 | Takes eligible rows only, all or as many as the limit allows, first ones first, and leaves all other rows as they were. |
| `Purge.Database.PurgeDeletedRows` | masakari/masakari/db/sqlalchemy/api.py:638-688 | Deletes exactly the smaller of the bound and the number of eligible rows, all of them without a bound; none of a later table while one of an earlier is left; no notification in NEW, RUNNING or ERROR; every LIMIT passed is positive. |
| `Purge.PurgedMeans` | masakari/masakari/db/sqlalchemy/api.py:664-682 | By columns: only notifications last updated before the time that are finished, failed or ignored, and only rows of other tables soft-deleted before it, are deleted; all of them unless the bound is used up; within a table failed ones before ignored before finished, others by the time of their deletion. |
| `Purge.ProtectedSurvive` | masakari/masakari/db/sqlalchemy/api.py:664-672 | A deletion of eligible rows leaves every notification in NEW, RUNNING or ERROR, and every live row of another table, as it was. |
| `RegexRange.BuildRegexRange` | masakari/masakari/api/validation/parameter_types.py:62-118 | For any alphabet and any validity: the emitted ranges denote exactly the valid characters, ascend, are disjoint and never adjacent; a single character is written by itself, except the very last of the alphabet, which is written as a range. |
| `RegexRange.RunsAreUnique` | masakari/masakari/api/validation/parameter_types.py:62-118 | These properties determine the ranges. |
| `RegexRange.BuildBoth` | masakari/masakari/api/validation/parameter_types.py:89-101 | The direct and the inverted output partition the alphabet, by exclusion and category. |
| `ProcessMonitor.ListedIffDownSince` | masakari-monitors/masakarimonitors/processmonitor/process_handler/handle_process.py:141-209 | After any rounds, a process is on the failure list if and only if it has been down without a break since a round that used up its attempts. |
| `ProcessMonitor.NotificationsAreSeparated` | masakari-monitors/masakarimonitors/processmonitor/process_handler/handle_process.py:149-209 | Between two notifications for a process lies a round in which it was not down. |
| `ProcessMonitor.NotifiedIff` | masakari-monitors/masakarimonitors/processmonitor/process_handler/handle_process.py:194-206 | A process is notified exactly in the rounds that use up its attempts while it is not on the list. |
| `ProcessMonitor.NotifiedAlthoughRestarted` | masakari-monitors/masakarimonitors/processmonitor/process_handler/handle_process.py:165-206 | A process a round finds down is notified exactly if it is not on the list and all attempts before the last fail; it is notified although it was restarted exactly if, besides, the last attempt succeeds; "notified exactly if no attempt succeeds" is right exactly if that is not so. |
| `ProcessMonitor.RestartedYetNotified` | masakari-monitors/masakarimonitors/processmonitor/process_handler/handle_process.py:165-206 | One process whose only permitted attempt restarts it is notified and listed. |
| `ProcessMonitor.HandleProcess.MonitorProcesses` | masakari-monitors/masakarimonitors/processmonitor/process_handler/handle_process.py:97-121 | The processes that ps does not show, in order; one whose check raises counts as running. |
| `ProcessMonitor.ContainsMeans` | masakari-monitors/masakarimonitors/processmonitor/process_handler/handle_process.py:108-117 | A process is found exactly if its name is somewhere in the output. |
| `ProcessMonitor.HandleProcess.Retry` | masakari-monitors/masakarimonitors/processmonitor/process_handler/handle_process.py:165-192 | The loop variable reaches the last retry if and only if all attempts before it fail, whether or not the last one succeeds; both are told exactly. |
| `ProcessMonitor.HandleProcess.RestartProcesses` | masakari-monitors/masakarimonitors/processmonitor/process_handler/handle_process.py:141-209 | The new failure list is exactly the down processes that were on it or used up their attempts; notified are exactly the latter that were not on it, in order. |
| `ProcessMonitor.Counts` | masakari-monitors/masakarimonitors/processmonitor/process_handler/handle_process.py:150-209 | In a round each down process is listed, and notified, as often as it is down, or not at all. |
| `ProcessMonitor.ProcessmonitorManager.RunMonitor` | masakari-monitors/masakarimonitors/processmonitor/process.py:52-93 | Over any number of rounds with reloads, the failure list and all notifications are those of the rounds made; a failed load ends the loop. |
| `ProcessMonitor.RoundAt` | masakari-monitors/masakarimonitors/processmonitor/process.py:69-87 | Each round uses the list that was reloaded last; the rounds end after the first reload that fails. |

## Left out

- Several engine processes on one database: their locks do not exclude each other, and the theorems are for one engine.
- An engine that stops in the middle of a round or a workflow, and is started again.
- Nova, libvirt, keystone, the RPC transport, SQL text, eventlet timers and taskflow's internals: their answers are parameters or choices of the schedule; a retry over a list is "the next element that was not tried".
- `update_segment`, and the get and list calls of segments and hosts: a guard already seen, and plain reads. Names of segments.
- Parsing of flags in `update_host` (`strutils.bool_from_string`) and the case of event names: the model starts from the parsed values.
- The workflows that recover single instances and processes: each has only a few branches; their outcomes are parameters of the handlers.
- Disabling the compute service, adding a reserved host to an aggregate and enabling its service: an exception there is an attempt that ends early.
- Evacuation.EvacuateInstancesTask.EvacuateAndConfirm: the calls at lines 162-169 and the unlock are taken to return, and nobody else changes an instance's lock meanwhile; the two confirmation loops are one answer each.
- Evacuation.EvacuateInstancesTask.Execute: instances have distinct ids; nova's answers to one instance do not depend on the other workers.
- HostRecovery.TaskFlowDriver.RunReservedHostFlow: the outcome of an attempt is a function of the host tried, and hosts of one list are distinct.
- ReservedHosts.StepKeeps: segments have no rows of their own there, so an edit may name any segment; and a segment counts as under recovery only for failures of hosts that are being handled, so the model admits more edits and deletions than the API.
- ReservedHosts.HostsAreExclusive: "at once" is all it says; a second evacuation may use a reserved host after the first, since candidates are read before the lock is tried, and the code does not exclude that.
- Masakari.Deployment.RunHandler: if a call that the handler itself makes raises, it is after the host has been put on maintenance; the protocol and its theorems also allow it before.
- GuestPing.QemuGuestAgent.CheckGuest: pings and resets of one domain are atomic, and journals do not expire from the cache.
- ApiVersions.StringOfParse: only the ASCII digits are digits, although the pattern also admits others.
- VersionedMethods.SweepIsExact: intervals that end before they start, which the decorator does not refuse, are outside the theorems on overlaps.
- VersionedMethods.Controller.Register: one method name of one controller; the attribute that holds the lists of all names is not modelled.
- Paging.PaginateQuery: sort values are not null, and all sort values of a column are compared as numbers; the query is "rows strictly after the marker in the order of the keys, up to the limit".
- Paging.WalkPages: the table does not change during the walk, and one page is one request to the API.
- RegexRange.BuildRegexRange: the output is a list of tokens; escaping and the text of the regular expression are not modelled.
- Purge.Database.PurgeDeletedRows: each statement sees the tables as its predecessors left them; nobody else writes meanwhile.
- ProcessMonitor.ProcessmonitorManager.RunMonitor: process names are distinct, `restart_retries` is not negative, the initial start of the processes and the sleeps are left out, and the rounds end with the given inputs or a failed reload.
- The host monitor, the tables of libvirt events, dashboard views and forms, WSGI servers, configuration, policies, migrations, `send_notification`'s own retries.
