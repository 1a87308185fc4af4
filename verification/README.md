# Verification of the Distributed Endpoint Manager

The Distributed Endpoint Manager (DEM) is a control plane for NVMe over Fabrics. It holds a
configuration of targets, subsystems, hosts and groups, pushes it to the endpoints, collects
discovery log pages from the targets, and serves each host the pages it may see. This project
models the parts of it that carry state and proves what they promise.

- **Configuration push** (`ConfigFs`, `ConfigFsEffects`, `Decimal`, `Uri`, `Json`, `InBand`, `Rest`, `Push`, `Delivery`,
  `ConfigTarget`, `ConfigTargetRest`). The endpoint's configuration is a tree of maps and sets, changed
  by the configfs backend. A target is compiled into a script of operations. The scripts go
  out in band as records or over REST as paths and JSON text, and it is proved for which targets
  the endpoint decodes what was meant. Trees are ordered; every operation of a push climbs in that
  order towards the target's meaning. From that one fact follow convergence after a reset, well-founded
  prefixes, and completion when pushing again, also over a link that loses or repeats messages.
- **Log page reconciliation** (`LogStore`, `Monitor`, `AutoConnect`, `DemLogPages`). What becomes
  of any key in the two-level list of the monitor and auto-connect daemons, and in the DEM's own merge of
  several logs.
- **Discovery** (`Discovery`, `DiscoveryViews`, `TwoPhase`). The views of a host over the fabric, over REST and in
  the document, and the two reads with which a client fetches the log (NVM Express Base
  Specification 2.0, section 5.16.1.23).
- **Host queue and host thread** (`HostQueue`, `HostThread`). The lock-free queue as a machine
  whose steps are single reads and writes of two threads, and the life of an endpoint.
- **Lists** (`IntrusiveList`). The circular doubly linked list, on the heap.
- **Document** (`Document`, `DocumentEffects`, `DocumentRefs`, `DocumentStore`, `DeleteHost`). The
  JSON configuration as a small database with cross references: what each request does to it, and what
  every run of requests keeps. An array that is missing counts as an empty one.
- **SPDK mirror** (`SpdkModel`, `SpdkMirror`, `SpdkConfig`). Local lists against a server reached by RPC.
- **Codec** (`Bits`, `Codec`). Base64 with a UTF-8 step (RFC 4648 section 4, RFC 3629 section 3).
- **Timers** (`Timers`), **tokenizer** (`ParseLine`) and **event notifications** (`Notifications`).

`CTypes`, `DemTypes` and `Options` hold shared types. Where the source edits lists and records in
place, the model has a class or a method with loops, proved against a function on values; the
properties are proved of that function.

## Where the code departs from its evident intent

The model follows the code. In each case the exact condition under which it meets the intent is
proved.

- `src/dem/json.c:390` looks at the subsystem with the index of the target, and `:397-398` removes
  from the array of subsystems with the host's place in its list. The host is never taken from a
  list: either nothing happens or a whole subsystem goes. `DocumentRefs.DelHostKeeps` and
  `DocumentRefs.DelHostLoses` say when references stay valid and when nothing is lost; both together
  only when no subsystem lists the host (`DocumentRefs.DelHostMeetsIntent`). What the request around
  it makes up for: `DeleteHost.DelHostRequestMeetsIntent`.
- `src/dem/pseudo_target.c:325-341` copies log pages without looking at the length of the buffer, and
  the length of a read of 16383 or more pages does not fit its three bytes:
  `TwoPhase.CopyStaysInside`, `TwoPhase.AcceptedIsSnapshot`, `TwoPhase.PageBetweenReads`.
- `src/dem/config.c:888-918` prints names into JSON without escapes: `Json.PrintedExactly`,
  `Rest.HostReqArrivesAsAnother`.
- `src/dem/config.c:234` and `:249` flag the entries whose NQN differs:
  `Notifications.GroupFlagIsRightIff` and `Notifications.OnlyMemberIsMissed` for a group,
  `Notifications.FlagIsRightIff` and `Notifications.OnlyAllowedHostIsMissed` for an access list. The
  second look of a group change, at the access lists, removes nobody (`Notifications.NotifiedIs`).
- `src/dem/pseudo_target.c:606-609` may add an endpoint after the host thread has drained the queue:
  `HostThread.LateAreNotReleased`.
- `src/monitor/daemon.c:312` turns a page that is new into a known one when the log lists it
  twice: `Monitor.AddedExactly`.
- The in-band push sends treq 2 and the REST push leaves it at 0; only the REST push sends
  the host list of an open subsystem: `Push.ModesAgree`.
- `src/dem/json.c:572` lets a group with the empty name be added twice, and `src/dem/json.c:1693` lets
  a port take the id of another: `DocumentRefs.UpdateGroupKeeps`, `DocumentRefs.SetPortKeeps`.
- `src/endpoint/spdk_config.c:701-705` leaves the listeners down when the server refuses the first
  host: `SpdkMirror.LinkHostKeeps`.
- `src/dem/daemon.c:486` sets the refresh countdown only for the targets present at the start:
  `Timers.AddedNeverRefreshes`.
- No code of the DEM marks a discovery queue as connected. `DemLogPages` and `Timers` hold for any
  value of that flag, so their bounds apply with no connected queue in particular.

## Model

| member | source | states |
|---|---|---|
| ConfigFs.ExecKeepsLinks | src/endpoint/configfs.c:213-671 | every configfs operation, whether it succeeds or fails, keeps the tree free of dangling links |
| ConfigFs.RunKeepsLinks | src/endpoint/configfs.c:213-671 | so does every run of operations |
| ConfigFsEffects.RemovalTakes | src/endpoint/configfs.c:213-629 | every removal succeeds, takes away what it names with what hangs on it, and leaves every other subsystem, allowed host, namespace, port and host as it was; a host that is still allowed somewhere stays |
| ConfigFsEffects.RemovalUnlinks | src/endpoint/configfs.c:213-629 | a link goes exactly when one of its ends or the link itself is removed |
| ConfigFsEffects.CreationAdds | src/endpoint/configfs.c:243-598 | what each creation or link puts in place, exactly when it succeeds, and that everything else stays |
| ConfigFsEffects.CreateNsAdds | src/endpoint/configfs.c:279-321 | a namespace takes the null block device or the NVMe device that was asked for, and only when it was not there before |
| ConfigFsEffects.CreatePortSets | src/endpoint/configfs.c:402-479 | a port takes its attributes unless a subsystem is linked to it; then it keeps its own, and the call succeeds only when they are the same |
| ConfigFsEffects.Undoes | src/endpoint/configfs.c:213-629 | each removal gives back the tree from before the creation of what was not there |
| ConfigFsEffects.LookupsDetermine | src/endpoint/configfs.c:213-629 | trees in which every lookup finds the same are the same |
| ConfigFs.Nvmet.CreateSubsystem | src/endpoint/configfs.c:243-277 | the tree and the result are those of the abstract operation; a directory that exists counts as success |
| ConfigFs.Nvmet.DeleteSubsystem | src/endpoint/configfs.c:213-241 | links from all ports, allowed hosts and namespaces go with the subsystem |
| ConfigFs.Nvmet.CreateNamespace | src/endpoint/configfs.c:279-321 | a namespace appears only under an existing subsystem, and one that exists keeps its device |
| ConfigFs.Nvmet.CreatePortid | src/endpoint/configfs.c:402-479 | an existing port succeeds and keeps its attributes |
| ConfigFs.Nvmet.DeletePortid | src/endpoint/configfs.c:481-517 | the port goes with its links |
| ConfigFs.Nvmet.LinkHostToSubsys | src/endpoint/configfs.c:519-545 | fails exactly when the subsystem or the host is missing; a link that exists counts as success |
| ConfigFs.Nvmet.LinkPortToSubsys | src/endpoint/configfs.c:572-598 | fails exactly when the port or the subsystem is missing; a link that exists counts as success |
| ConfigFs.Nvmet.Reset | src/endpoint/configfs.c:631-671 | empties the whole tree, whatever it held |
| Decimal.AtoiFormat | src/dem/config.c:888-918 | a number written in decimal reads back as itself |
| Decimal.DigitAt | src/dem/config.c:888-918 | the digits written are those of the number in base ten |
| Decimal.DigitsSuffice | src/dem/config.c:888-918 | and there are as many as it needs, with no zero in front |
| Uri.ParseUri | src/endpoint/restful.c:107-121 | splits a path in place: after the separators are overwritten, the recorded offsets hold exactly the parts, and the returned count says how many there were, up to the depth |
| Uri.PartsOfJoin | src/endpoint/restful.c:107-121 | parts without a slash, joined, split into themselves |
| Json.PrintedExactly | src/dem/config.c:888-918 | members printed without escapes arrive with their strings unchanged if and only if no string holds a quote, a backslash or a control character, whatever else the strings add to the text; and then exactly the members arrive |
| Json.PrintedBack | src/dem/config.c:888-918 | such a text is read to its end as the members it was printed from |
| Json.SpelledBack | src/dem/config.c:888-918 | with escapes every string without a NUL could have been sent: however its characters are spelled, it is read as itself |
| Json.LoadsHold | src/endpoint/restful.c:203-228 | every way to read given strings from a text costs at least their escapes |
| Json.QuoteRefused | src/dem/config.c:899-902 | a string with a quote that nothing of an object follows makes a text that cannot be read |
| Rest.PortReqExact | src/dem/config.c:934-946 | a port request over HTTP is dispatched to the same operation with the same arguments if and only if the id is between 1 and 0xfffe and no string of the port needs an escape |
| Rest.SubsysReqExact | src/dem/config.c:948-960 | a subsystem request, which has the NQN in its body, arrives as it was meant if and only if the NQN needs no escape |
| Rest.NsReqExact | src/dem/config.c:962-977 | a namespace request arrives as it was meant if and only if the NQN holds no slash |
| Rest.HostReqExact | src/dem/config.c:948-960 | a host request arrives as it was meant if and only if the NQN needs no escape |
| Rest.HostReqArrivesAsAnother | src/dem/config.c:899-902 | a host whose NQN closes its string and adds a member is created under another NQN |
| Rest.HostReqRefused | src/dem/config.c:899-902 | a host with a quote in its NQN is refused |
| Rest.LinkHostReqExact | src/dem/config.c:1274-1296 | a host link request arrives as it was meant if and only if the subsystem's NQN, in the path, holds no slash and the host's, in the body, needs no escape |
| Rest.LinkPortReqExact | src/dem/config.c:1656-1670 | a port link request arrives as it was meant if and only if the NQN holds no slash |
| Rest.ResetReqExact | src/dem/config.c:2559-2578 | the reset request arrives as the reset |
| Rest.DelSubsysReqExact | src/dem/config.c:1769-1781 | the deletion of a subsystem arrives as it was meant if and only if the NQN holds no slash |
| Rest.DelPortReqExact | src/dem/config.c:2010-2021 | the deletion of a port always arrives as it was meant |
| Rest.DelHostReqExact | src/dem/config.c:1387-1399 | the deletion of a host arrives as it was meant if and only if the NQN holds no slash |
| Rest.DelNsReqExact | src/dem/config.c:2347-2359 | so does that of a namespace |
| Rest.UnlinkPortReqExact | src/dem/config.c:1712-1727 | so does the removal of a port link |
| Rest.UnlinkHostReqExact | src/dem/config.c:1339-1351 | the removal of an allowed host arrives as it was meant if and only if neither NQN holds a slash |
| InBand.PortMsgExact | src/dem/config.c:691-711 | a port message is decoded to the operation meant if and only if the id fits 16 bits and type and family are known |
| InBand.NsMsgExact | src/dem/config.c:835-858 | a namespace message is decoded to the device meant if and only if the device id is not the one that stands for the null device |
| InBand.DeleteMsgsExact | src/endpoint/pseudo_target.c:437-521 | every deletion and unlink is decoded as it was meant; those that name a port if and only if its id fits 16 bits |
| InBand.SetMsgsExact | src/endpoint/pseudo_target.c:437-521 | so are subsystems with an access that fits a byte, hosts, and links |
| InBand.UnknownRefused | src/endpoint/pseudo_target.c:437-521 | a code beyond the last command is refused |
| InBand.NamesSurvive | src/common/parse.c:258-350 | the transport and family codes decode to the names they were made of |
| Push.Climb | src/endpoint/pseudo_target.c:437-521 | one operation of a push never undoes or oversteps anything, fails only when something it refers to is missing, and leaves its object in place when it succeeds |
| Push.AnyDeliveryStaysBelow | src/dem/config.c:2448-2535 | whatever operations of a push arrive, repeated and in any order, the endpoint holds a sub-configuration of the target with no dangling link |
| Push.PushConverges | src/dem/config.c:2448-2535 | a complete push succeeds throughout and leaves exactly the ports, subsystems, namespaces, hosts and links that the target means |
| Push.ReconfigureConverges | src/dem/interfaces.c:45-63 | reset and push lead to the target's meaning from any endpoint state |
| Push.PrefixCompletes | src/dem/config.c:2466-2502 | every prefix of a push is well founded, and pushing again from there completes it to the same state |
| Push.PushRemovesNothing | src/dem/config.c:2448-2535 | without the reset, nothing that does not belong is taken away |
| Push.LinksOfMeaning | src/dem/config.c:1873-1883 | a port of the target is linked to exactly the subsystems whose access is open or whose host list is not empty |
| Push.MeaningLinks | src/dem/config.c:1673-1690 | for any port id and NQN: they are linked if and only if the target has such a port, and such a subsystem that is open or lists a host |
| Push.GateOfMeaning | src/dem/config.c:2494-2502 | seen from the endpoint: no port leads to a subsystem that allows nobody, and every port leads to every other |
| Push.MeaningPort | src/dem/config.c:2462-2468 | a port has the attributes of the target, and treq 2 in band, 0 over REST |
| Push.MeaningSubsystem | src/dem/config.c:1831-1884 | a subsystem has its access, its namespaces with their devices, and its hosts, which the in-band push sends of restricted subsystems only |
| Push.MeaningKeys | src/dem/config.c:2448-2535 | the target means these ports, subsystems and hosts and no others |
| Push.ModesAgree | src/dem/config.c:1831-1884 | the in-band and the out-of-band push mean the same, apart from treq, if and only if no open subsystem lists hosts |
| Push.ModesDiffer | src/dem/config.c:2477-2486 | an open subsystem that lists hosts is configured differently by the two |
| Delivery.Link.SendSetConfig | src/dem/config.c:1163-1182 | an in-band message is sent once more over a new connection when the first attempt fails; it takes effect at most twice, and it succeeds if and only if one of the two exchanges gets through |
| Delivery.OneLossSurvived | src/dem/config.c:1163-1182 | one loss on an open connection does not keep an operation that the endpoint accepts from succeeding |
| Delivery.TwoLossesFail | src/dem/config.c:1163-1182 | two losses in a row do, and so does a connection that cannot be made again |
| Delivery.StepsStayBelow | src/dem/config.c:1163-1182 | a push whose messages get lost, fail or arrive twice stays a sub-configuration of the target |
| Delivery.LosslessSucceeds | src/dem/config.c:2448-2535 | when nothing gets lost, no message of a push fails |
| Delivery.AllSentIsMeaning | src/dem/config.c:2448-2535 | when every message was answered with success, the endpoint holds exactly the target's meaning |
| ConfigTarget.ConfigTargetInb | src/dem/config.c:2448-2512 | the in-band loops, after a connection that the first message makes again: they stop at the first failure with a well founded sub-configuration, and a success means that the endpoint holds exactly the target |
| ConfigTargetRest.ConfigTargetOob | src/dem/config.c:2514-2535 | the out-of-band loops go on after a failure below a subsystem and stay well founded; over a lossless link the endpoint holds exactly the target, when its names need no escape and its SUBNQNs hold no slash |
| ConfigTargetRest.TargetReconfig | src/dem/interfaces.c:45-63 | reset and push: over a lossless link, and in band whenever both report success, the endpoint holds exactly the target |
| ConfigTargetRest.TriedProgress | src/dem/config.c:1831-1884 | trying every operation of the script, whatever fails, makes the progress claimed |
| LogStore.SaveLook | src/monitor/daemon.c:293-347 | what saving a log leaves of any key: a stored page keeps its entry and becomes valid, a new one is stored with the first entry and marked new only when the log lists it once |
| LogStore.MarkedLook | src/monitor/daemon.c:263-271 | marking keeps every page and marks it deleted |
| LogStore.LogPages.SaveLogPages | src/monitor/daemon.c:293-347 | the nested loops over the two-level list do just that |
| LogStore.LogPages.FetchLogPages | src/monitor/daemon.c:349-366 | a fetch that fails leaves pages and marks alone |
| Monitor.UpdateFollowsLog | src/monitor/daemon.c:349-406 | after an update the list holds exactly the keys of the log with no subsystem empty, and the report removes exactly the keys that are gone, each once |
| Monitor.ListedExactly | src/monitor/daemon.c:273-347 | after an update a subsystem has a page with a transport address, transport and address family if and only if the log lists such an entry of its NQN |
| Monitor.EmptiedExactly | src/monitor/daemon.c:398-403 | a report says that a subsystem has no pages left if and only if it was listed and the log has no page of it |
| Monitor.AddedExactly | src/monitor/daemon.c:293-347 | the report adds exactly the new keys, each once, if and only if the log lists no new key twice |
| Monitor.TwiceIsSilent | src/monitor/daemon.c:309-315 | a page that comes in listed twice is stored and never reported |
| Monitor.LinesTimes | src/monitor/daemon.c:368-406 | a report adds each page marked new and removes each page marked deleted, once |
| Monitor.KeptLook | src/monitor/daemon.c:381-403 | the sweep removes exactly the deleted pages and then the empty subsystems |
| Monitor.ReportsRebuildStore | src/monitor/daemon.c:450-462 | over any run with any fetches failing, replaying all reports gives the stored pages entry for entry, except those that came in listed twice, and gives all of them if and only if there are none of these |
| Monitor.DistinctLogsRebuild | src/monitor/daemon.c:450-462 | with distinct keys in each log the reports rebuild the list exactly |
| Monitor.PrintLogPages | src/monitor/daemon.c:368-406 | the sweep with its two safe iterations prints and keeps what the specification says |
| Monitor.NothingToSweep | src/monitor/daemon.c:408-420 | the last sweep of an update finds nothing to remove |
| Monitor.ReportUpdates | src/monitor/daemon.c:450-462 | one update in memory is one step of the run |
| AutoConnect.SweepIgnoresMarks | src/auto_connect/daemon.c:460-604 | whatever the kernel is connected to, an update leaves the same list |
| AutoConnect.FlagsExactly | src/auto_connect/daemon.c:532-550 | whatever the list: each controller takes one more deleted page off the front of those it cannot tell apart, and a page is flagged if and only if a controller is left for it when it stands in front, valid |
| AutoConnect.FlagsWithoutDeleted | src/auto_connect/daemon.c:532-550 | with no deleted page in the way, the flagged pages are the valid ones that are the first match of a controller |
| AutoConnect.NewPageNotFlagged | src/auto_connect/daemon.c:540-547 | a page that is new is not flagged even when the kernel already has it |
| AutoConnect.ConnectedInOrder | src/auto_connect/daemon.c:557-584 | over any number of passes exactly the first unflagged pages are connected, in list order and each once |
| AutoConnect.ConnectOneSubsystem | src/auto_connect/daemon.c:557-584 | one pass connects the first unflagged page, if the device opens |
| AutoConnect.Daemon.ProcessUpdates | src/auto_connect/daemon.c:634-642 | an update in memory, with its own sweep, leaves the pages of the log |
| DemLogPages.RefreshMerges | src/dem/logpages.c:56-145 | after a refresh the valid pages of a subsystem are exactly the keys that any queue fetched for its NQN, with the last entry of each; the unattached pages are the rest, each once with its first entry; keys stay distinct |
| DemLogPages.ValidExactly | src/dem/logpages.c:68-205 | in the fields of queues and entries: after a refresh a subsystem has a valid page at an address if and only if it is the first with its NQN, and a queue that is connected, or is worth connecting and connects, brings an entry of that NQN with that address |
| DemLogPages.QueueKept | src/dem/logpages.c:165-204 | a refresh leaves a queue connected if and only if it was and its keep alive has not failed; a queue was missed if and only if it was worth connecting and did not connect |
| DemLogPages.OrderDoesNotMatter | src/dem/logpages.c:184-205 | visiting the queues in another order leaves the same keys valid and the same keys unattached |
| DemLogPages.SaveLook | src/dem/logpages.c:88-145 | what saving leaves of any page of any subsystem |
| DemLogPages.SaveUnattached | src/dem/logpages.c:131-143 | what saving leaves of any unattached key |
| DemLogPages.DemTarget.SaveLogPage | src/dem/logpages.c:88-145 | the search and the three ways to store an entry, in place |
| DemLogPages.DemTarget.RefreshLogPages | src/dem/logpages.c:184-205 | the refresh in memory: pages, connected flags and retry counter |
| Discovery.ViewIsVisible | src/dem/pseudo_target.c:325-341 | a host is shown an entry if and only if it is a valid page of a subsystem that the host sees |
| DiscoveryViews.ShownByNqn | src/dem/config.c:657-687 | the fabric shows a host an entry if and only if it is a valid page of a subsystem that is open or lists its NQN, on a target that is in no group or that a group linked to its NQN holds |
| DiscoveryViews.ShownByAlias | src/dem/logpages.c:327-379 | REST does the same with the alias |
| DiscoveryViews.HostOfNoGroup | src/dem/config.c:657-687 | a host that no group is linked to is shown pages of targets outside all groups only |
| DiscoveryViews.ShownInOrder | src/dem/pseudo_target.c:315-341 | the entries stand in the order of targets, subsystems and pages, each page that the host may see exactly once |
| Discovery.HandleGetLogPageCount | src/dem/pseudo_target.c:258-299 | the count is the number of entries that would be copied, for every host |
| Discovery.HandleGetLogPages | src/dem/pseudo_target.c:301-356 | for a buffer of any length, the entries sent are exactly the host's view, or the copy has gone past the buffer, and which of the two |
| Discovery.HandleGetLogPage | src/dem/pseudo_target.c:407-413 | a read of 16 bytes is answered with the count, every other with the log |
| Discovery.HostLogPage | src/dem/logpages.c:327-379 | the entries shown over REST are exactly the view by alias |
| Discovery.ViewsAgree | src/dem/logpages.c:338-373 | when alias and NQN correspond, the fabric and REST show the same entries in the same order |
| Discovery.ListAgrees | src/dem/json.c:1095-1160 | when memory mirrors the document, the document lists for a host exactly the subsystems that the fabric serves it, each once |
| DiscoveryViews.SeenExactly | src/dem/json.c:1095-1160 | of the open or of the restricted subsystems, a host is listed exactly those that it may use, on targets that it reaches |
| Discovery.GetHostSubsystems | src/dem/json.c:1095-1160 | the loops over targets, subsystems and hosts build that list |
| Discovery.SharedGroup | src/dem/config.c:657-687 | the group links are searched completely: the answer is yes exactly when some link has the NQN, or the alias, and its group holds the target |
| Discovery.SharedExactly | src/dem/config.c:657-687 | a host shares a target if and only if a group link with its name leads to a group that holds the target |
| TwoPhase.AcceptedIsSnapshot | src/common/logpages.c:54-116 | with the configuration free to change between the reads and the size sent in three bytes, a fetch that finds n pages is accepted if and only if n are visible at the second read and 1024 (n + 1) < 2^24, and is then what is visible there; it overruns the server if and only if more are visible than the size that arrives has room for |
| TwoPhase.CopyStaysInside | src/dem/pseudo_target.c:315-341 | the copy stays inside the server's buffer if and only if at most len / 1024 - 1 pages are visible |
| TwoPhase.UnchangedFetch | src/common/logpages.c:54-116 | while nothing changes, a fetch is accepted for less than 16383 pages and overruns the server for more |
| TwoPhase.PageBetweenReads | src/dem/pseudo_target.c:325-341 | a page that becomes valid between the two reads is written past the buffer |
| TwoPhase.SendGetLogPage | src/common/rdma.c:949-964 | the server answers for the size that its three bytes hold |
| TwoPhase.LengthSurvives | src/incl/nvme.h:665-670 | the size of a read survives its three bytes if and only if it is less than 2^24; what arrives is a whole number of records, within what the client has room for, and never looks like the read of the count |
| TwoPhase.GetLogpages | src/common/logpages.c:54-116 | the client computes this result from the two reads |
| TwoPhase.Trim | src/common/logpages.c:44-52 | a field is cut at its first blank, in place |
| TwoPhase.UpdateFrom | src/monitor/daemon.c:349-366 | a rejected fetch leaves the client's list unchanged, an accepted one leaves the keys of the second read |
| HostQueue.StepRefines | src/dem/pseudo_target.c:437-489 | every single read or write of either thread is a step of a bounded FIFO of capacity n - 1 |
| HostQueue.RunRefines | src/dem/pseudo_target.c:437-489 | so is every interleaving of steps |
| HostQueue.NothingLost | src/dem/pseudo_target.c:437-489 | over any schedule and any size from 2, what was added is what was got followed by what is queued; nothing is overwritten, and the branch for an empty slot in a queue that is not empty is never taken |
| HostQueue.FullTested | src/dem/pseudo_target.c:448-452 | an endpoint is rejected if and only if the queue holds n - 1 |
| HostQueue.Queue.AddNewHostConn | src/dem/pseudo_target.c:461-472 | an undisturbed add, in memory |
| HostQueue.Queue.GetNewHostConn | src/dem/pseudo_target.c:474-489 | an undisturbed get, in memory |
| HostThread.RunConserves | src/dem/pseudo_target.c:491-617 | over any run every accepted endpoint is in the queue, in the host list or released, as often as it was accepted |
| HostThread.ReleasedOnce | src/dem/pseudo_target.c:491-583 | an endpoint accepted once is in exactly one of these places, and released at most once |
| HostThread.StopReleasesAll | src/dem/pseudo_target.c:564-583 | the drain empties queue and list, and everything accepted before it is released |
| HostThread.LateAreNotReleased | src/dem/pseudo_target.c:585-617 | everything accepted is released if and only if nothing is accepted after the drain |
| HostThread.DroppedExactly | src/dem/pseudo_target.c:533-559 | after a successful request a host is dropped by exactly the max(1, kato)-th consecutive empty poll |
| HostThread.NewHostLimit | src/dem/pseudo_target.c:513-549 | a host that never says anything is dropped by exactly its 200th poll |
| HostThread.KatoIs | src/dem/pseudo_target.c:128-146 | a timeout of k units of 500 ms is 5 k polls, unless that wraps |
| HostThread.PassEnds | src/dem/pseudo_target.c:535-559 | a failure drops the host at once, whatever came before it and whatever comes after; a poll without a message ends its turn |
| HostThread.PassSorts | src/dem/pseudo_target.c:532-559 | a pass keeps the hosts that it does not drop and releases the others, each in list order |
| HostThread.Thread.RunOnce | src/dem/pseudo_target.c:491-562 | one turn of the thread takes in the queue and polls every host |
| HostThread.Thread.Drain | src/dem/pseudo_target.c:564-583 | the drain at the end |
| IntrusiveList.RingDetermined | src/incl/utils.h:87-112 | the next and prev fields alone determine the contents of a list |
| IntrusiveList.ListAdd | src/incl/utils.h:97-100 | prepends on the heap and keeps next and prev inverse and circular |
| IntrusiveList.ListAddTail | src/incl/utils.h:102-106 | appends on the heap |
| IntrusiveList.ListDel | src/incl/utils.h:108-112 | removes on the heap, and leaves the removed entry's own fields |
| IntrusiveList.ForEach | src/incl/utils.h:138-141 | visits every entry once, in order |
| IntrusiveList.SweepSafe | src/incl/utils.h:143-148 | visits every original entry once and ends while the body deletes any of the entries it is at; what is left is the others in order |
| DocumentRefs.RequestKeeps | src/dem/json.c:498-2482 | from a document with unique names and valid references, any of the nineteen requests leads to one, if and only if it is none of three that a caller can recognise |
| DocumentRefs.RunKeeps | src/dem/json.c:498-2482 | over any run from an empty document every document on the way is valid if and only if every request was safe |
| DocumentRefs.RenameHostCarries | src/dem/json.c:319-361 | a rename of a host replaces it in every group and every list of allowed hosts, and nothing else |
| DocumentRefs.RenameTargetCarries | src/dem/json.c:725-756 | a rename of a target replaces it in every group, and nothing else |
| DocumentRefs.DelHostKeeps | src/dem/json.c:363-401 | deleting a host keeps the references valid if and only if in each target the subsystems that list it are a run from the target's own index on, each with the host at that place of its list |
| DocumentRefs.DelHostLoses | src/dem/json.c:389-398 | it leaves the targets as they were if and only if no target's first look finds a subsystem at the host's place |
| DocumentRefs.DelHostMeetsIntent | src/dem/json.c:363-401 | references valid and nothing lost: if and only if no subsystem lists the host |
| DocumentRefs.VisitsClear | src/dem/json.c:387-399 | what the looks at one target leave lists the host nowhere if and only if the subsystems had that shape |
| DocumentRefs.VisitsLeave | src/dem/json.c:387-399 | what they leave was there before, with names unique |
| DocumentRefs.DelHostRemovesNothing | src/dem/json.c:396-398 | a document where the place is past the last subsystem and the host stays listed |
| DocumentRefs.DelHostRemovesSubsystem | src/dem/json.c:396-398 | a document where the only subsystem goes with its namespaces |
| DocumentRefs.DelHostLeavesReference | src/dem/json.c:389-398 | a document where the subsystem that lists the host is not looked at |
| DocumentRefs.DelTargetKeeps | src/dem/json.c:1862-1903 | deleting a target removes it from every group |
| DocumentRefs.UpdateGroupKeeps | src/dem/json.c:532-603 | an update keeps group names unique if and only if it does not add a second group with the empty name |
| DocumentRefs.SetMemberKeeps | src/dem/json.c:605-680 | a member is added only if it exists, and once |
| DocumentRefs.SetSubsysKeeps | src/dem/json.c:1197-1294 | creating, renaming and updating a subsystem keeps SUBNQNs unique and its references valid |
| DocumentRefs.SetNsKeeps | src/dem/json.c:1739-1816 | setting a namespace keeps NSIDs unique |
| DocumentRefs.SetAclKeeps | src/dem/json.c:2325-2423 | a host is allowed only if it exists, and once |
| DocumentRefs.SetPortKeeps | src/dem/json.c:1636-1709 | port ids stay unique if and only if the body names no id, the id of the port itself or one that is free |
| DocumentEffects.SetAclIs | src/dem/json.c:2325-2423 | allowing a host appends it to the list of that subsystem, when it exists, has an NQN and is not there; the hosts allowed before stay in front, everything else stays, and any other answer leaves the document as it was |
| DocumentEffects.DelAclIs | src/dem/json.c:2425-2482 | disallowing takes the host from that list, the others stay in order |
| DocumentEffects.DelAclMissing | src/dem/json.c:2425-2482 | and is refused when it is not there |
| DocumentEffects.SetMemberIs | src/dem/json.c:605-680 | a member that exists joins the list of its kind, at the end and once |
| DocumentEffects.DelMemberIs | src/dem/json.c:682-723 | a member leaves the list of its kind, and nothing else |
| DocumentEffects.DelMemberMissing | src/dem/json.c:682-723 | one that is not there is refused |
| DocumentEffects.SetNsIs | src/dem/json.c:1739-1816 | a namespace that is there takes the device members that the body has, another is added at the end; the other namespaces stay |
| DocumentEffects.DelNsIs | src/dem/json.c:1818-1858 | a namespace goes, the others stay in order |
| DocumentEffects.DelNsMissing | src/dem/json.c:1818-1858 | one that is not there is refused |
| DocumentEffects.NewSubsysIs | src/dem/json.c:1197-1294 | a new subsystem is appended, with what the body has |
| DocumentEffects.SetSubsysIs | src/dem/json.c:1197-1294 | an update replaces name and access where the body has them; only one that says that the access is restricted keeps the list of hosts |
| DocumentEffects.DelSubsysIs | src/dem/json.c:1296-1318 | a subsystem goes, the others stay in order |
| DocumentEffects.SetPortIs | src/dem/json.c:1636-1709 | a port that is there, by the id of the path or else of the body, takes what the body has, even another id; another is added |
| DocumentEffects.DelPortIs | src/dem/json.c:1711-1735 | a port goes, the others stay in order |
| DocumentEffects.DelPortMissing | src/dem/json.c:1711-1735 | one that is not there is refused |
| DocumentEffects.AddHostIs | src/dem/json.c:876-903 | a host is appended, without an NQN, unless its alias is taken |
| DocumentEffects.NewHostIs | src/dem/json.c:929-1003 | a host that is posted is appended with its NQN, unless its alias is taken |
| DocumentEffects.UpdateHostIs | src/dem/json.c:929-1003 | an update replaces alias and NQN where the body has them, and every list that had the old alias has the new one in its place |
| DocumentEffects.DelHostIs | src/dem/json.c:1005-1039 | the host goes, every group loses it, and targets keep alias and ports |
| DocumentEffects.AddTargetIs | src/dem/json.c:2125-2158 | a target is appended, empty, unless its alias is taken |
| DocumentEffects.NewTargetIs | src/dem/json.c:2160-2298 | so is one that is posted |
| DocumentEffects.RenameTargetIs | src/dem/json.c:2160-2298 | a rename replaces the alias, there and in every group that lists it |
| DocumentEffects.DelTargetIs | src/dem/json.c:1862-1903 | the target goes, with its subsystems, and every group loses it |
| DocumentEffects.AddGroupIs | src/dem/json.c:498-530 | a group is appended, empty, unless its name is taken |
| DocumentEffects.NewGroupIs | src/dem/json.c:532-603 | so is one that is posted, except that the empty name is never taken |
| DocumentEffects.RenameGroupIs | src/dem/json.c:532-603 | a rename replaces the name unless it is taken |
| DocumentEffects.DelGroupIs | src/dem/json.c:788-810 | a group goes, the others stay in order |
| DocumentEffects.MissingGroup | src/dem/json.c:532-810 | a request about a group that is not there is refused |
| DocumentEffects.MissingHost | src/dem/json.c:929-1039 | so is one about a host |
| DocumentEffects.MissingTarget | src/dem/json.c:1197-2298 | so is one about a target |
| DocumentEffects.MissingSubsys | src/dem/json.c:1197-2482 | so is one about a subsystem |
| DeleteHost.DelHostRequestKeeps | src/dem/config.c:1472-1513 | as a request, deleting a host keeps the references valid if and only if every open subsystem that lists it is among those that the document's deletion removes |
| DeleteHost.DelHostRequestMeetsIntent | src/dem/config.c:1472-1513 | references valid and no subsystem lost: if and only if no first look finds one to remove and all that list the host are restricted |
| DeleteHost.DelHostRequestRestricted | src/dem/config.c:1488-1502 | where all that list the host are restricted, references stay valid |
| DeleteHost.DelHostRequestMirrors | src/dem/config.c:1486-1502 | the memory goes on mirroring the document if and only if no subsystem was lost |
| DeleteHost.PurgeIs | src/dem/config.c:1486-1502 | the pass over the memory takes the host from the subsystems it names, where the document still has them |
| DeleteHost.DelHostFrom | src/dem/config.c:1472-1513 | the loops over the targets and subsystems in memory, with the document's access lists |
| DeleteHost.DelHostRequestIs | src/dem/config.c:1472-1513 | which subsystems are left afterwards, and which of them list the host |
| DocumentStore.JsonDocument.UpdateHost | src/dem/json.c:929-1003 | the request in place, with its renames |
| DocumentStore.JsonDocument.DelHost | src/dem/json.c:1005-1039 | the request in place, with both cascades |
| DocumentStore.JsonDocument.DelAllowedHosts | src/dem/json.c:363-401 | the two loops: the inner one runs to the old size, looks with the index of the outer, and removes from the subsystems |
| DocumentStore.JsonDocument.RenameAllowedHosts | src/dem/json.c:319-361 | the loops over targets and subsystems |
| DocumentStore.JsonDocument.RenameMembersInGroups | src/dem/json.c:725-756 | the loop over the groups |
| DocumentStore.JsonDocument.DelMembersFromGroups | src/dem/json.c:758-786 | the loop over the groups |
| DocumentStore.JsonDocument.UpdateGroup | src/dem/json.c:532-603 | the request in place |
| DocumentStore.JsonDocument.SetGroupMember | src/dem/json.c:605-680 | the request in place |
| DocumentStore.JsonDocument.DelGroupMember | src/dem/json.c:682-723 | the request in place |
| DocumentStore.JsonDocument.UpdateTarget | src/dem/json.c:2160-2298 | the request in place, as far as aliases go |
| DocumentStore.JsonDocument.DelTarget | src/dem/json.c:1862-1903 | the request in place, subsystem by subsystem |
| DocumentStore.JsonDocument.SetSubsys | src/dem/json.c:1197-1294 | the request in place; an update that does not mention the access drops the host list |
| DocumentStore.JsonDocument.SetNs | src/dem/json.c:1739-1816 | the request in place |
| DocumentStore.JsonDocument.SetAcl | src/dem/json.c:2325-2423 | the request in place |
| DocumentStore.JsonDocument.DelAcl | src/dem/json.c:2425-2482 | the request in place |
| DocumentStore.JsonDocument.SetPort | src/dem/json.c:1636-1709 | the request in place |
| DocumentStore.FindArray | src/dem/json.c:47-116 | the three searches find the first match |
| SpdkMirror.ExecKeeps | src/endpoint/spdk_config.c:368-418 | every operation leads from lists that agree with the server to lists that agree, if and only if it adds no port with a taken address and the server does not refuse the first host of a linked subsystem |
| SpdkMirror.RunKeeps | src/endpoint/spdk_config.c:368-823 | so does every run of operations from an empty start |
| SpdkMirror.ListenersDown | src/endpoint/spdk_config.c:696-701 | the first host of a subsystem is added while the subsystem has no listener |
| SpdkMirror.ListenersBack | src/endpoint/spdk_config.c:709-713 | afterwards exactly the listeners that were there are back |
| SpdkMirror.LinkHostKeeps | src/endpoint/spdk_config.c:669-716 | linking a host keeps the mirror if and only if the server accepts it, or there was no listener to take down |
| SpdkMirror.LinkHostRefused | src/endpoint/spdk_config.c:701-705 | when the server refuses the first host, the listeners stay down |
| SpdkMirror.UnlinkPortIs | src/endpoint/spdk_config.c:775-801 | unlinking takes away the link and the listener of a linked port, and does nothing otherwise |
| SpdkMirror.DeletePortidKeeps | src/endpoint/spdk_config.c:803-823 | a deleted port is unlinked everywhere: no link points to a port that is gone |
| SpdkMirror.CreatePortidKeeps | src/endpoint/spdk_config.c:510-539 | a new port keeps the addresses apart if and only if no port has its address |
| SpdkMirror.TakenAddressBreaks | src/endpoint/spdk_config.c:775-801 | from any mirroring state, a new port at the address of a linked one takes down that one's listener when it is unlinked |
| SpdkMirror.SharedAddressDropsListener | src/endpoint/spdk_config.c:775-801 | with two ports at one address, unlinking the one that is not linked takes down the listener of the other |
| SpdkMirror.ResetEmpties | src/endpoint/spdk_config.c:1237-1247 | reset empties the lists and the server |
| SpdkConfig.Spdk.LinkHost | src/endpoint/spdk_config.c:669-716 | the operation on the lists and the server |
| SpdkConfig.Spdk.UnlinkPort | src/endpoint/spdk_config.c:775-801 | the operation on the lists and the server |
| SpdkConfig.Spdk.DeletePortid | src/endpoint/spdk_config.c:803-823 | the operation on the lists and the server |
| SpdkConfig.Spdk.ResetConfig | src/endpoint/spdk_config.c:1237-1247 | the two loops of the reset |
| Codec.RoundTrip | html/encode.js.original:50-103 | for every alphabet and every string of 16-bit units, decoding what was encoded gives the string with CRLF as LF |
| Codec.RoundTripExactly | html/encode.js.original:50-103 | the string itself comes back if and only if it holds no CRLF |
| Codec.Utf8Back | html/encode.js.original:105-150 | any string of code units comes back from its UTF-8 step |
| Codec.ShortestForm | html/encode.js.original:105-124 | every code unit takes the fewest bytes that hold it: one below 128, two below 2048 and else three, with lead and continuation bytes in their ranges, and its value is the sum of their bits |
| Codec.Utf8Append | html/encode.js.original:105-124 | the bytes of a string are those of its code units in order |
| Codec.Utf8NoOverlong | html/encode.js.original:105-124 | no string is encoded with a lead byte C0 or C1, or with E0 before a byte below A0 |
| Codec.NormalisedSplits | html/encode.js.original:106 | every CRLF, wherever it stands, becomes an LF |
| Codec.EncodedAt | html/encode.js.original:50-77 | character by character: each group of three bytes is written as the four base 64 digits of its value, padded where it is short |
| Codec.EncodedLength | html/encode.js.original:50-77 | four characters for every three bytes begun |
| Codec.DecodeIgnores | html/encode.js.original:84 | a character outside the set does not matter to the decoding, wherever it stands |
| Codec.DigitsAreBase64 | html/encode.js.original:55-77 | the four digits are those of the group's value in base 64, as in section 4 of RFC 4648, in all three padding cases |
| Codec.GroupBack | html/encode.js.original:79-103 | four digits give their one, two or three bytes back |
| Codec.AlphabetHasAll | html/encode.js.original:84-90 | a 65-character alphabet leaves no character of the set out |
| Codec.NormalisedSame | html/encode.js.original:106 | normalising changes exactly the strings with a CRLF |
| Codec.Encode | html/encode.js.original:50-77 | the loop, with shifts and masks, computes the encoding |
| Codec.Decode | html/encode.js.original:79-103 | the loop computes the decoding, of any string |
| Codec.UtfEncode | html/encode.js.original:105-124 | the loop computes the bytes, and no overlong form is among them |
| Codec.UtfDecode | html/encode.js.original:126-150 | the loop reads the bytes |
| Bits.OrIsSum | html/encode.js.original:60-63 | where the bits do not overlap, the or is a sum |
| Timers.TickFalls | src/dem/daemon.c:103-168 | a tick without refresh counts down by exactly one, or loses one connected queue and is set back by less than 200 |
| Timers.FailsExactly | src/dem/daemon.c:103-142 | a round fails if and only if it is due and a connected queue does not answer; then exactly the first such queue is disconnected, the retry counter is 200, and nothing is refreshed |
| Timers.RefreshWithin | src/dem/daemon.c:144-168 | a refresh comes within the ticks that are due and 200 more for each connected queue, whatever keep alives fail |
| Timers.RefreshExactly | src/dem/daemon.c:144-168 | without failures it comes in exactly the tick that is due |
| Timers.RefreshesIff | src/dem/daemon.c:156-166 | among enough ticks there is a refresh if and only if the countdown is positive |
| Timers.RefreshesAgain | src/dem/daemon.c:156-166 | after a refresh the next one comes if and only if the interval is positive |
| Timers.AddedNeverRefreshes | src/dem/daemon.c:480-499 | a target that is added after the start is never refreshed by the timer |
| Timers.RoundsApart | src/dem/daemon.c:103-142 | while no keep alive fails, the rounds are exactly 600 ticks apart |
| Timers.TargetTimers.KeepAliveWork | src/dem/daemon.c:103-142 | the round in memory, up to the first queue that fails |
| Timers.TargetTimers.PeriodicWork | src/dem/daemon.c:144-168 | the tick in memory, with the refresh of the log pages |
| ParseLine.LineConsumed | src/common/parse.c:153-188 | whatever a line holds, exactly it is consumed, through its newline or to the end of the file, and the end is noticed exactly when there was no newline |
| ParseLine.FormatParses | src/common/parse.c:62-188 | any admissible tag and value, with any blanks, quotes and trailing comment, parse back to the same pair |
| ParseLine.PairFrom | src/common/parse.c:62-188 | conversely every pair is read from a line with a tag, the first equal sign of the line, which no other follows, and a value, blanks around them and quotes dropped; a comment character right behind the tag or the sign is skipped |
| ParseLine.NoPair | src/common/parse.c:125-176 | a line without an equal sign, or whose first is followed by another, gives no pair |
| ParseLine.File.ParseLine | src/common/parse.c:153-188 | the parser over the stream |
| ParseLine.File.ParseWord | src/common/parse.c:91-123 | the word over the stream; quotes are dropped and protect nothing but the comment character |
| ParseLine.File.ConsumeWhitespace | src/common/parse.c:74-89 | blanks over the stream |
| ParseLine.File.ParseEqual | src/common/parse.c:125-151 | equal signs over the stream |
| ParseLine.File.ConsumeLine | src/common/parse.c:62-72 | the rest of the line over the stream |
| ParseLine.File.ReadFile | src/dem/interfaces.c:671-676 | the reading loop ends, with the pairs of all lines |
| Notifications.RequestsConserved | src/dem/config.c:144-213 | for every event, sending removes exactly one pending request per entry of the list, the first of its NQN, and leaves all others in order, with at most one completion per entry |
| Notifications.NotifiedIs | src/dem/config.c:204-353 | a list has at most one entry per NQN, and exactly the NQNs with a pending request that the code tells of the event |
| Notifications.ToldExactly | src/dem/config.c:204-353 | in the fields of the event: a host with a pending request is told if and only if a subsystem is open or lists another NQN, a link of the group has another NQN, or the change is its own |
| Notifications.FlagIsRightIff | src/dem/config.c:241-254 | the flag of an access list is right for a host if and only if the list is empty, or holds both this host and another |
| Notifications.GroupFlagIsRightIff | src/dem/config.c:225-239 | the flag of a group is right for a host if and only if no host is linked to the group, or this host and another are |
| Notifications.OnlyMemberIsMissed | src/dem/config.c:225-239 | the one host of a group is not told of its changes, and all others are |
| Notifications.OnlyAllowedHostIsMissed | src/dem/config.c:241-254 | the one host that a restricted subsystem allows is not told of its changes, and all others are |
| Notifications.CompletionsAtMost | src/dem/config.c:150-162 | a completion goes to exactly the endpoints of the list that have a buffer and are connected |
| Notifications.EventRequests.CreateEventHostList | src/dem/config.c:273-353 | the lists are built, flagged and pruned in memory |
| Notifications.EventRequests.SendNotifications | src/dem/config.c:144-173 | the pending list loses exactly the requests sent |
| Notifications.EventRequests.Notify | src/dem/config.c:144-353 | a change from building to sending |
| ConfigFs.Nvmet.DeleteNamespace | src/endpoint/configfs.c:323-352 | the namespace is gone afterwards and the call succeeds, whether or not it or its subsystem was there |
| ConfigFs.Nvmet.CreateAllowedHost | src/endpoint/configfs.c:354-374 | the host is there afterwards, whether or not it was |
| ConfigFs.Nvmet.DeleteAllowedHost | src/endpoint/configfs.c:376-400 | the host goes unless a subsystem allows it; the call succeeds either way |
| ConfigFs.Nvmet.UnlinkHostFromSubsys | src/endpoint/configfs.c:547-570 | the host is no longer allowed on the subsystem |
| ConfigFs.Nvmet.UnlinkPortFromSubsys | src/endpoint/configfs.c:600-629 | the link goes |
| ConfigFs.Nvmet.Call | src/endpoint/pseudo_target.c:437-521 | the dispatch of every operation is that of the abstract tree |
| Push.ScriptBelongs | src/dem/config.c:2448-2535 | every operation of a script asks for something that the target means, with the values it has there |
| Push.MeaningCovered | src/dem/config.c:2448-2535 | once everything in the script is in place, everything the target means is |
| Delivery.Link.SendInb | src/dem/config.c:1184-1272 | a record is sent and performed as what it decodes to, and one that does not decode is answered with an error |
| Delivery.Link.SendOob | src/dem/config.c:934-977 | a request is sent and performed as what it is dispatched to |
| Delivery.NextSucceeds | src/dem/config.c:2466-2502 | an operation of a script succeeds when those before it are in place |
| ConfigTarget.PushHostsInb | src/dem/config.c:2477-2486 | the loop over hosts sends them in order and stops at the first failure |
| ConfigTarget.PushNamespacesInb | src/dem/config.c:2488-2492 | the loop over namespaces does so |
| ConfigTarget.PushLinksInb | src/dem/config.c:2494-2502 | the loop over ports does so, behind the gate |
| ConfigTarget.PushSubsystemsInb | src/dem/config.c:2470-2504 | the loop over subsystems does so |
| ConfigTarget.PushPortsInb | src/dem/config.c:2462-2468 | the loop over the ports of the target does so |
| ConfigTarget.InOrderProgress | src/dem/config.c:2448-2512 | what sending a part of the script in order achieves |
| ConfigTargetRest.ConfigSubsysOob | src/dem/config.c:1831-1884 | a subsystem with its namespaces, hosts and links, of which each is tried |
| ConfigTargetRest.PushPortsOob | src/dem/config.c:2514-2535 | the loop over ports sends them in order and stops at the first that fails |
| ConfigTargetRest.ResetClears | src/dem/config.c:2559-2578 | a reset that is answered with success has emptied the endpoint |
| LogStore.LogPages.InvalidateLogPages | src/monitor/daemon.c:263-271 | the two loops mark every page |
| LogStore.LogPages.SaveLogPage | src/monitor/daemon.c:301-346 | the search and the two ways to store an entry, in place |
| Monitor.PrintPages | src/monitor/daemon.c:382-396 | the inner sweep over the pages of a subsystem |
| Monitor.CleanupLogPages | src/monitor/daemon.c:408-420 | the last sweep, which leaves subsystems in place |
| AutoConnect.MarkConnected | src/auto_connect/daemon.c:474-552 | the controllers of a subsystem against its pages, in directory order |
| AutoConnect.Daemon.MarkConnectedSubsystems | src/auto_connect/daemon.c:460-555 | the loop over the subsystems |
| AutoConnect.Daemon.CleanupLogPages | src/auto_connect/daemon.c:586-604 | the sweep, which removes subsystems without pages |
| DemLogPages.DemTarget.InvalidateLogPages | src/dem/logpages.c:56-66 | marks every page and empties the unattached list |
| DemLogPages.DemTarget.SaveLogPages | src/dem/logpages.c:88-145 | the loop over a log |
| DemLogPages.DemTarget.Refresh | src/dem/logpages.c:190-204 | one queue of a refresh |
| DemLogPages.DemTarget.IsAvailable | src/dem/logpages.c:165-182 | whether a queue is worth connecting |
| Discovery.HostAccess | src/dem/pseudo_target.c:244-256 | the search in the host list |
| TwoPhase.NoBlanksNoChange | src/common/logpages.c:107-111 | entries without blanks reach the client unchanged |
| HostThread.RoundConserves | src/dem/pseudo_target.c:508-560 | one turn of the thread moves endpoints and loses none |
| HostThread.SilenceLimit | src/dem/pseudo_target.c:547-549 | how many empty polls a host survives |
| HostThread.Thread.Poll | src/dem/pseudo_target.c:535-549 | the polls of one host, with the jump back after a request |
| HostThread.Thread.ServiceHosts | src/dem/pseudo_target.c:533-559 | the pass over the list, which drops hosts as it goes |
| HostThread.Thread.TakeNewHosts | src/dem/pseudo_target.c:508-530 | the loop that empties the queue into the list |
| IntrusiveList.ListInsert | src/incl/utils.h:87-95 | inserts between two neighbours |
| IntrusiveList.ListEmpty | src/incl/utils.h:114-117 | a list is empty if and only if the head is alone |
| DocumentRefs.DelSubsysKeeps | src/dem/json.c:1296-1318 | deleting a subsystem keeps everything valid |
| DocumentRefs.UpdateHostKeeps | src/dem/json.c:929-1003 | adding, renaming and updating a host keeps aliases unique and references valid |
| DocumentRefs.UpdateTargetKeeps | src/dem/json.c:2160-2298 | adding and renaming a target keeps aliases unique and references valid |
| DocumentStore.JsonDocument.AddGroup | src/dem/json.c:498-530 | the request in place |
| DocumentStore.JsonDocument.DelGroup | src/dem/json.c:788-810 | the request in place |
| DocumentStore.JsonDocument.AddHost | src/dem/json.c:876-903 | the request in place |
| DocumentStore.JsonDocument.AddTarget | src/dem/json.c:2125-2158 | the request in place |
| DocumentStore.JsonDocument.DelSubsys | src/dem/json.c:1296-1318 | the request in place |
| DocumentStore.JsonDocument.DelNs | src/dem/json.c:1818-1858 | the request in place |
| DocumentStore.JsonDocument.DelPort | src/dem/json.c:1711-1735 | the request in place |
| SpdkMirror.CreateSubsysKeeps | src/endpoint/spdk_config.c:393-418 | a subsystem is created here and there, or nowhere |
| SpdkMirror.DeleteSubsysKeeps | src/endpoint/spdk_config.c:368-391 | a subsystem is deleted here and there |
| SpdkMirror.LinkPortKeeps | src/endpoint/spdk_config.c:740-773 | linking a port keeps lists and server agreeing, and succeeds exactly when both exist |
| SpdkMirror.LinkPortIs | src/endpoint/spdk_config.c:740-773 | linking succeeds exactly when port and subsystem exist; then the id is in the links of that subsystem and the address in the listeners of the server, each once, and nothing else has changed; otherwise nothing has |
| SpdkMirror.LinkPortAgain | src/endpoint/spdk_config.c:753-760 | a link that exists is left alone, with its listener |
| SpdkMirror.CreateSubsysIs | src/endpoint/spdk_config.c:393-418 | a new subsystem is in the list and on the server, with neither hosts nor links and listeners; otherwise nothing has changed |
| SpdkMirror.DeleteSubsysMissing | src/endpoint/spdk_config.c:368-391 | deleting a subsystem that is not there is refused |
| SpdkMirror.CreatePortidIs | src/endpoint/spdk_config.c:510-539 | a new port is in the list, and the server hears nothing of it; an id that is taken is refused |
| SpdkMirror.DeletePortidIs | src/endpoint/spdk_config.c:814-848 | a port goes from the list, and its id from the links of every subsystem, and nothing else |
| SpdkMirror.UnlinkHostIs | src/endpoint/spdk_config.c:718-738 | the host is neither in the list nor on the server afterwards, and everything else stays |
| SpdkMirror.LinkHostAnswers | src/endpoint/spdk_config.c:669-716 | linking a host succeeds exactly when the subsystem exists, the NQN is well formed, and the host is there or the server takes it; then it is in both lists |
| SpdkMirror.UnlinkHostKeeps | src/endpoint/spdk_config.c:718-738 | a host is removed here and there |
| SpdkConfig.Spdk.CreateSubsys | src/endpoint/spdk_config.c:393-418 | the operation on the lists and the server |
| SpdkConfig.Spdk.DeleteSubsys | src/endpoint/spdk_config.c:368-391 | the operation on the lists and the server |
| SpdkConfig.Spdk.CreatePortid | src/endpoint/spdk_config.c:510-539 | the operation on the lists |
| SpdkConfig.Spdk.LinkPort | src/endpoint/spdk_config.c:740-773 | the operation on the lists and the server |
| SpdkConfig.Spdk.UnlinkHost | src/endpoint/spdk_config.c:718-738 | the operation on the lists and the server |
| Codec.EncodeGroup | html/encode.js.original:56-72 | the digits of a group, with shifts and masks |
| Codec.DecodeGroup | html/encode.js.original:90-99 | the bytes of four digits, with shifts and masks |
| Notifications.FlagByAccessList | src/dem/config.c:241-254 | the two loops |
| Notifications.FlagByGroupHosts | src/dem/config.c:225-239 | the two loops |
| Notifications.PruneNotificationList | src/dem/config.c:256-263 | the safe iteration that takes out what is not flagged |
| Notifications.EventRequests.CreateNotificationList | src/dem/config.c:204-213 | one entry for the first request of each NQN |
| Notifications.EventRequests.HandleAsyncEvent | src/dem/pseudo_target.c:152-174 | a request goes before the others |

## Left out

- Incremental edits of a running target (`src/dem/config.c`, set_subsys, link_host, set_portid and
  the like): they do not re-establish the state of a full push; link_host in particular links the
  ports while its host list is still empty, where the gate of `_link_portid` stops it.
- Group edits in memory: del_group does not recompute group_member; the views hold for whatever
  links and flags the memory has.
- The kernel behind configfs: attributes of an enabled port are taken to be frozen and an existing
  namespace to keep its device; its own refusals of allow_any together with hosts are not modelled.
- Counts of pages above 2^31, where the server's int wraps, and an allocation of the log that fails.
- What an overrun of the server's buffer does: the answer is taken to be worth nothing.
- Of JSON text: invalid UTF-8, reals out of range and nesting beyond the reader's limit, which are
  refused; none of them can stem from a name that needs no escape.
- HostThread takes its queue as a sequence of any length. That the lock-free queue is one with n - 1
  places is proved in HostQueue; the two machines are not composed.
- HTTP, RDMA, TCP and libcurl: a message arrives, gets lost, or arrives and has its answer
  lost; paths arrive unchanged.
- ConfigTargetRest.TargetReconfig: claims equality only over a lossless link or for an in-band success
  after a reset that arrived, because a lost reset goes unnoticed and a REST push reports success even
  when parts of it failed.
- The memory model of the machine: reads and writes of the host queue are sequentially consistent.
- Endpoints that are turned away because the queue is full, and malloc failures.
- String buffer sizes, sysfs and configfs paths, and truncation of names by strncpy.
- DocumentStore.JsonDocument.UpdateTarget: leaves out management mode, refresh interval and interface,
  which hold no references.
- JSON members of the wrong type: they count as absent. Device and interface lists of a target.
- Notifications sent for endpoints that have been released meanwhile.
- The monitor's list is emptied without a report when its connection is lost: a run of `Monitor` starts
  there anew.
- The printed line of a deleted page does not show its address family; a reader of the report
  is taken to know the page.
- Timers.RefreshesIff: does not model the signed 32-bit overflow of intervals above 35791 minutes or of
  a countdown that runs below zero for years; the counters are unbounded.
- The in-band keep alive of a target's own control connection, which no counter depends on.
- SPDK namespaces and devices, which the endpoint keeps no list of; the shape test of an NQN is a parameter.
- The obfuscation that composes three codec steps over different alphabets, which is not injective.
- Address parsing and most name tables of `src/common/parse.c`, the web interface and the command line.
- Logging, signatures, daemonizing and argument parsing.
