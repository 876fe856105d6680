# GameBridge: verified model

GameBridge is a panel that manages users, inbounds, outbounds, load-balancing groups and routing rules on a set of
nodes, compiles them to proxy configurations and deploys them through agents; beside it there are transports for game
traffic. This project models the panel's control plane and a few algorithmic cores, and proves properties of the model.

* `Entities`, `Text`, `Lists`, `Sorting`: the records of the state and the slice operations on them.
* `Inbounds`, `Outbounds`, `Groups`, `Rules`, `Admin`: the closures passed to `Store.Update`, and their validators.
* `Operations`, `Deployment`, `Transactions`, `Store`: the fourteen deploying transactions as a state machine over the
  store and what the agents run, and as a class. A successful deploy makes a node run what the state compiles to; a
  failed one leaves the node's runtime arbitrary. Transactions run one at a time.
* `Integrity`, `Transitions`, `AdminTransitions`, `Acceptance`, `History`: the invariant that all references resolve,
  that every validator accepts exactly what keeps it, and that it holds in all reachable states.
* `Submitted`, `AdminAcceptance`: what each update has stored when it is done, and which input it refuses.
* `Rollback`, `Frames`, `Views`, `Agreement`, `LiveTargets`: exact rollback, and agreement between store and agents.
* `Runs`: labels in step, live targets, routing and distinct peer addresses along whole runs.
* `Compiler`, `RoutingMeaning`, `Resolution`, `Labels`, `Balancers`, `HealthPorts`: the configuration compiler, and where
  the tags it emits lead.
* `Admission`, `Pools`: who and what a compiled configuration serves, and what its balancers do.
* `Subscriptions`, `Accounting`, `AccountingLaws`, `Entitlements`: reset schedules, statuses, traffic and which limit
  counts.
* `Persistence`, `Slices`, `LiveState`: the disk form, slices edited in place, and updates on copied arrays.
* `PulseUdp`, `KcpFraming`, `WgAddress`, `PeerAddresses`, `AgentSync`, `Pbkdf2`: the smaller cores, over `Bytes`.
* `Counterexamples`: concrete inputs on which the panel does not do what one might expect.

Times are nanoseconds since Go's zero time, so that 0 is "not set". Identifiers are the 24 hexadecimal digits of
`randomHex(12)`; that they are fresh is an assumption on the random source. Environment behaviour (saves, deploys,
agents' answers, clocks, file operations) comes in as parameters.

Where the code does not promise what its names suggest, the model follows the code and the exact condition is proved:

* Updating an outbound does not look at routing rules: `Agreement.AgreementExact`, `LiveTargets.LiveKeptExact`.
* Tags are unique on each node only, so that a rule whose outbound lies elsewhere may reach another one:
  `Resolution.RuleReaches`, `Resolution.StrayTarget`. Traffic goes where rules say while targets are live:
  `Resolution.BindingRouted`, `Runs.RoutedAlways`.
* A group member may become a blackhole, and maintenance drops balancers: `Balancers.BalancerEmitted`.
* The reset in `reconcileSubscriptions` does not rebase peers: `AccountingLaws.ReconcileResetLasts`.
* Enforcement overwrites a manual `disabled`: `AccountingLaws.DisabledKept`.
* Reconciling and enforcing spell the quota status differently and do not settle: `AccountingLaws.PassStable`.
* An accepted re-enabling of a peer forgets its usage: `AccountingLaws.ReenablingForgets`.
* A restarted sender loses frames to the table of the run before: `PulseUdp.RestartLosesExactly`.
* Renaming a user does not update binding labels, and deleting a user can widen a rule: `Labels.RenameAndLabels`,
  `Labels.DeletionWidens`.
* Day counts whose step is negative in 64 bits make the reset loop endless: `Subscriptions.LoopDiverges`.
* A duplicate leaves an old duplicate table as it is: `PulseUdp.TableBounded`.
* An empty packet ends a framed stream: `KcpFraming.DeliveryExact`.
* A lost marker makes an interface unmanageable: `AgentSync.LostMarkerBlocks`.

## Model

| member | source | states |
|---|---|---|
| Lists.WithoutUnique | internal/panel/store.go:339-347 | With unique identifiers deleteByID removes exactly one position and keeps the order of the rest. |
| Lists.FindWithout | internal/panel/store.go:339-347 | After a deletion every other identifier is found as before and the deleted one is not found. |
| Lists.FindReplace | internal/panel/store.go:294-311 | Writing through a find* pointer changes what that one identifier finds and nothing else. |
| Inbounds.Clash | internal/panel/inbound_hardening.go:21-45 | No clash exactly when every other inbound has another name (case-insensitive) and another (node, port, listen). |
| Inbounds.ReferenceChange | internal/panel/reference_safety.go:57-73 | Accepts exactly when no rule uses the inbound in a way the change breaks: not deleted, same node, not disabled under an enabled rule. |
| Outbounds.Clash | internal/panel/outbound_control.go:42-53 | No clash exactly when no other outbound of the node has the tag or the name, case-insensitively. |
| Groups.NormalizeMembers | internal/panel/outbound_groups.go:46-112 | Accepted members have distinct non-empty trimmed identifiers, priority 0..1000 and weight 1..100. |
| Groups.MembersError | internal/panel/outbound_groups.go:134-150 | Accepts exactly when every member exists on the node, is enabled and is no blackhole. |
| Groups.ReferenceChange | internal/panel/outbound_groups.go:172-193 | Accepts exactly when every group that names the outbound keeps it on its node and enabled. |
| Acceptance.InboundCreateExact | internal/panel/inbound_lifecycle.go:10-41 | Creation is accepted if and only if the node is ready and the state with the new inbound has integrity. |
| Acceptance.InboundUpdateExact | internal/panel/inbound_hardening.go:124-150 | An update is accepted if and only if the target node is ready, no enabled rule loses its inbound, and the resulting state has integrity. |
| Acceptance.InboundEnableExact | internal/panel/inbound_lifecycle.go:42-70 | Switching is decided by the policies alone: node ready to enable, no enabled rule to disable. |
| Acceptance.InboundDeleteExact | internal/panel/inbound_lifecycle.go:91-130 | Deletion is accepted if and only if the state without the inbound and its bindings has integrity. |
| Acceptance.OutboundCreateExact | internal/panel/outbound_control.go:22-54 | Creation is accepted if and only if the node is ready and the resulting state has integrity (tags not reserved, tags and names apart). |
| Acceptance.OutboundUpdateExact | internal/panel/outbound_control.go:121-160 | An update is accepted if and only if the node is ready and the resulting state has integrity; routing rules are not consulted. |
| Acceptance.OutboundEnableExact | internal/panel/outbound_control.go:214-245 | Enabling needs a ready node; disabling is accepted if and only if no enabled rule names the outbound and integrity is kept. |
| Acceptance.OutboundDeleteExact | internal/panel/outbound_control.go:272-300 | Deletion is accepted if and only if integrity is kept: no rule and no group names the outbound. |
| Acceptance.GroupValidExact | internal/panel/outbound_groups.go:113-171 | Validation accepts if and only if the node is ready, no member is a blackhole, members and fallback are available and the name is free. |
| Acceptance.GroupCreateExact | internal/panel/outbound_groups.go:206-220 | Creation is accepted if and only if the node is ready, no member is a blackhole and the resulting state has integrity. |
| Acceptance.GroupUpdateExact | internal/panel/outbound_groups.go:238-275 | The same for updates, which includes the guards against moving a used group and disabling it under an enabled rule. |
| Acceptance.GroupDeleteExact | internal/panel/outbound_groups.go:298-315 | Deletion is accepted if and only if integrity is kept: no rule uses the group. |
| Acceptance.RuleValidExact | internal/panel/routing.go:564-591 | Validation accepts if and only if the target is live on the rule's node and all references resolve, inbounds on the rule's node. |
| Acceptance.RuleCreateExact | internal/panel/routing_transaction.go:62-75 | Creation is accepted if and only if the target is live and the resulting state has integrity. |
| Acceptance.RuleUpdateExact | internal/panel/routing_transaction.go:94-120 | An update is accepted if and only if the new target is live and the resulting state has integrity. |
| Transitions.NormalizedMembers | internal/panel/outbound_groups.go:46-112 | A normalized group has as many members as were given, each the trimmed given one with a missing weight counted as one, sorted, distinct and in range, and an expected count within them. |
| Transitions.ForwardKeepsInv | internal/panel/outbound_control.go:89-334 | Each of the fourteen first updates keeps integrity of the whole state. |
| AdminTransitions.NodeDeleted | internal/panel/reference_safety.go:18-56 | The guard of node deletion is enough for every reference to still resolve. |
| AdminTransitions.UserDeleted | internal/panel/server.go:650-662 | Deleting a user together with peers, bindings and rule entries keeps integrity. |
| AdminTransitions.AdminKeepsInv | internal/panel/server.go:436-1020 | Every other store update (nodes, plans, users, bindings, peers, tunnels and their status, forwards, accounts, bookkeeping) keeps integrity. |
| AdminTransitions.TunnelRestated | internal/panel/operations.go:291-297 | Setting the status of a tunnel keeps integrity. |
| Rollback.RollbackExact | internal/panel/inbound_lifecycle.go:130-150 | After any deploy-written drift, the rollback update of each of the fourteen transactions succeeds and restores every collection in content and order; outbounds come back to the letter, but for the new stamp of the one record that a switch is undone on. |
| Rollback.UndoWithout | internal/panel/routing_transaction.go:172-190 | Delete, drift, re-insert at the saved index gives the old list. |
| Rollback.UndoAppend | internal/panel/outbound_control.go:89-118 | Append, drift, delete by identifier gives the old list. |
| Rollback.DriftKeepsInv | internal/panel/xray.go:363-372 | What a deploy writes into the store breaks no reference. |
| Transactions.TransactState | internal/panel/outbound_groups.go:238-296 | The store after a transaction, per outcome: untouched, changed, or restored up to deploy-written fields. |
| Transactions.TransactOutbounds | internal/panel/outbound_control.go:214-270 | The outbounds after a transaction, to the letter, per outcome. |
| Transactions.TransactKeepsInv | internal/panel/inbound_hardening.go:124-167 | A transaction keeps integrity whatever the deploys, saves and rollback do. |
| History.IntegrityAlways | internal/panel/store.go:192-205 | Integrity holds in every state of every run from the empty store, with any operations and any outcomes. |
| Frames.ViewDeterminesRuntime | internal/panel/xray.go:144-340 | Two states with the same view of a node compile to the same configuration for it. |
| Deployment.DeployRuns | internal/panel/xray.go:341-362 | After a successful deploy the node runs exactly what the store, as left by the deploy, compiles to. |
| Deployment.DeployedInbound | internal/panel/xray.go:60-143 | A deploy gives every inbound of the node the status online or degraded, unless that write is lost, fills in the keys and passwords that its enabled inbounds lack, all of them when it succeeds, and changes nothing else. |
| Deployment.DeployFrame | internal/panel/xray.go:341-373 | A deploy changes neither what another node runs nor what it compiles to. |
| Views.OtherNodesKeep | internal/panel/outbound_control.go:58-69 | A transaction changes the compiled configuration of no node outside its deploy order, unless an enabled rule elsewhere sees the outbound change. |
| Transactions.TransactAgrees | internal/panel/inbound_hardening.go:124-167 | From agreement of store and agents, a transaction that commits or reports a complete rollback ends in agreement. |
| Agreement.AgreementExact | internal/panel/outbound_control.go:121-212 | A committed transaction ends in agreement if and only if no enabled rule of an undeployed node names the changed outbound, or the tag it compiles to stays. |
| LiveTargets.LiveKeptExact | internal/panel/outbound_control.go:121-245 | Every transaction keeps rule targets on their node and enabled, except exactly an outbound update that moves away or disables an outbound an enabled rule names. |
| LiveTargets.TransactKeepsLive | internal/panel/outbound_control.go:121-212 | The same for whole transactions with any outcome. |
| LiveTargets.LiveAgreement | internal/panel/outbound_control.go:121-334 | While all targets are live, every transaction that commits or rolls back completely keeps store and agents in agreement. |
| LiveTargets.AllLiveMeaning | internal/panel/routing.go:564-591 | Live targets are exactly the condition that every enabled rule has the kind of target a new rule must have. |
| Runs.LabelsAlways | internal/panel/xray.go:412-472 | Labels are in step in every state of every run in which no user with bindings was renamed. |
| Runs.LiveAlways | internal/panel/outbound_control.go:121-212 | Targets are live in every state of every run in which no outbound update moved away or disabled an outbound an enabled rule names. |
| Runs.RoutedAlways | internal/panel/routing.go:805-870 | In every state of a run without such renames and updates, traffic through any binding is routed as the administrator chose. |
| Store.Store.Save | internal/panel/store.go:207-220 | A save that succeeds makes reopening give the new state; one that fails leaves what reopening gives unchanged. |
| Store.Store.Update | internal/panel/store.go:192-205 | For a closure seen as a function: all or nothing, and reopening the file gives the live state before and after. |
| Store.Store.FillSecrets | internal/panel/xray.go:60-143 | Missing keys and passwords of the node are filled one saved update at a time; nothing else changes. |
| Store.Store.StampStatus | internal/panel/xray.go:363-372 | One update sets the status of the node's inbounds and nothing else, or is lost as a whole. |
| Store.Store.DeployNode | internal/panel/xray.go:341-362 | A deploy on the class is the deploy of the state machine, status write included. |
| Store.Store.DeployInOrder | internal/panel/outbound_control.go:71-118 | Deploying in order stops at the first failure. |
| Store.Store.RedeployNodes | internal/panel/outbound_control.go:71-88 | Redeploying skips empty and repeated nodes, goes on after errors and reports whether any occurred. |
| Store.Store.Run | internal/panel/inbound_hardening.go:124-167 | The imperative transaction over the store has exactly the outcome and the end state of the transaction relation. |
| Persistence.StateToDisk | internal/panel/store.go:72-110 | The copying loops build the disk form. |
| Persistence.DiskRoundTrip | internal/panel/store.go:72-161 | State to disk form, through JSON and back loses nothing, the fields hidden from JSON included. |
| Slices.FilterInPlace | internal/panel/store.go:339-376 | Filtering into the same backing array gives the filtered contents and leaves the tail alone. |
| Slices.DeleteById | internal/panel/store.go:339-347 | deleteByID on a shared array gives the contents without the identifier. |
| Slices.InsertInPlace | internal/panel/routing_transaction.go:183-185 | append, copy, store inserts at the index, with and without spare capacity. |
| LiveState.CloneRules | internal/panel/store.go:249-256 | The clone of the routing rules has its own slice and five lists of its own for every rule, no user list shared, and stands for the same rules. |
| LiveState.ForgetInRules | internal/panel/server.go:657-659 | The user is filtered from every rule's list in place, and no other list changes. |
| LiveState.DeleteUserIn | internal/panel/server.go:650-662 | The deleting closure filters users, peers, bindings and the rules' lists in place; the arrays then stand for the state without the user. |
| LiveState.EditInSlice | internal/panel/server.go:562-600 | The editing closure writes the name before it looks at the plan; when it succeeds the array holds the edited users. |
| LiveState.DeleteRuleIn | internal/panel/routing_transaction.go:153-170 | The deleting closure filters the slice of rules in place. |
| LiveState.ReinsertRuleIn | internal/panel/routing_transaction.go:174-187 | The rollback closure leaves the rule that is there, else appends, or appends a blank, shifts and stores. |
| LiveState.LiveStore.Update | internal/panel/store.go:192-205 | On the heap, with any of four closures and with a closure error after writes, a save error or success: the arrays that were live stand for what they stood for; a failed update keeps the reference, a successful one installs the edited value in fresh arrays. |
| LiveState.LiveStore.DeleteRuleTransactional | internal/panel/routing_transaction.go:148-201 | On the heap, a deletion whose deploy fails is undone exactly when the rollback is saved, and otherwise takes effect exactly when its first update is saved. |
| Compiler.BuildRouting | internal/panel/routing.go:805-870 | The loop over the sorted rules builds the compiled rule list. |
| RoutingMeaning.RuleMeaning | internal/panel/routing.go:834-866 | One compiled rule accepts exactly the requests the stored rule accepts. |
| RoutingMeaning.FirstMatchDecides | internal/panel/routing.go:805-870 | First match over the compiled list gives the compiled target of the least-priority, earliest matching rule that was compiled; where that target leads is the subject of Resolution. |
| RoutingMeaning.TargetExact | internal/panel/routing.go:813-832 | A rule compiles to the balancer of its group if that is enabled and on the node, or to the tag of its outbound if that is built in or enabled, and to nothing otherwise. |
| RoutingMeaning.DecisionUnique | internal/panel/routing.go:805-810 | There is one such target. |
| RoutingMeaning.HealthRulesTransparent | internal/panel/xray.go:294-299 | Prepending the health rules changes no decision on user traffic. |
| Resolution.ChoosesOne | internal/panel/models.go:220-237 | The administrator's choice (direct, blocked, an outbound, a group) is unique: that of the least-priority, earliest enabled matching rule. |
| Resolution.ReachesOne | internal/panel/routing.go:649-803 | A target leads to at most one stored outbound or group of the node's configuration. |
| Resolution.LeavesOneWay | internal/panel/routing.go:649-803 | The same for all traffic, the first emitted outbound taking what has no target. |
| Resolution.TagReaches | internal/panel/routing.go:649-660 | A tag leads to a stored outbound if and only if that is an enabled outbound of the node with this tag. |
| Resolution.RuleReaches | internal/panel/routing.go:823-832 | The target compiled for a rule leads where the rule says if and only if it is built in or the outbound is on the rule's node. |
| Resolution.StrayTarget | internal/panel/routing.go:823-832 | Otherwise the traffic leaves through exactly the enabled outbound of the rule's node that carries the tag, if there is one. |
| Resolution.GroupReaches | internal/panel/routing.go:817-822 | A group's target leads to the group if and only if the node is ready and no member is a blackhole. |
| Resolution.ProbeReachesItsOutbound | internal/panel/outbound_health.go:79-106 | In the configuration of the node, every probe leaves through the stored outbound it was made for, before any user rule. |
| Resolution.BindingRouted | internal/panel/xray.go:289-299 | With integrity, live targets and labels in step, traffic through any binding meets, in the whole configuration, the administrator's choice: it leads there, and nowhere else, as far as the node can serve a group; without a choosing rule it leaves through the first emitted outbound, the direct one. |
| Labels.AttachKeepsLabels | internal/panel/xray.go:412-472 | Attaching a user writes the label of the present name. |
| Labels.RenameAndLabels | internal/panel/server.go:562-600 | Editing a user keeps labels in step if and only if the name stays or the user has no binding. |
| Labels.DeletionWidens | internal/panel/server.go:657-659 | Deleting a user changes a rule for others if and only if it named that user alone and otherwise matches. |
| Labels.DeletionKeepsOthers | internal/panel/server.go:650-662 | Without such a rule on the node, deleting a user reroutes nobody else. |
| Balancers.TagIsNoAlias | internal/panel/outbound_control.go:36-41 | No stored tag begins with the alias prefix. |
| Balancers.ReservedExact | internal/panel/outbound_control.go:34-41 | A well-formed tag is refused as reserved if and only if, in any case, it begins like an alias or a balancer tag. |
| Pools.NoOutboundIsBalancer | internal/panel/outbound_control.go:34-41 | No tag emitted for a node begins like that of a balancer. |
| Balancers.AliasDecodes | internal/panel/outbound_groups.go:356-366 | A member alias begins with a group's prefix if and only if it is an alias of that group. |
| Balancers.EmittedTagsUnique | internal/panel/routing.go:649-803 | All outbound tags emitted for a node are distinct: built-in, stored and aliases. |
| Balancers.MembersHaveAliases | internal/panel/outbound_groups.go:380-416 | Every member of an enabled group has its alias, a copy of its own outbound. |
| Balancers.SelectorExact | internal/panel/outbound_groups.go:477-494 | Among all emitted tags, a balancer's selector matches exactly the aliases of its group's members. |
| Balancers.RevalidationExact | internal/panel/outbound_groups.go:483-485 | Revalidation at compile time fails exactly on the node's switches or a blackhole member. |
| Balancers.BalancerEmitted | internal/panel/outbound_groups.go:477-494 | A balancer tag used by a rule has a balancer if and only if the node is enabled, not in maintenance, and no member is a blackhole. |
| HealthPorts.BuildProbes | internal/panel/outbound_health.go:39-77 | The loop with `next` and `usedPorts` gives the k-th candidate by identifier the k-th smallest free port. |
| HealthPorts.FreeExact | internal/panel/outbound_health.go:60-72 | The free ports are exactly those of 30000..39999 that no enabled inbound uses, in increasing order. |
| HealthPorts.AllocationSound | internal/panel/outbound_health.go:39-77 | Ports are distinct, in range, disjoint from inbound ports, without gaps; allocation fails if and only if candidates outnumber free ports. |
| HealthPorts.AllocationCanonical | internal/panel/outbound_health.go:108-119 | The result does not depend on the order of stored outbounds, so a later lookup agrees with the deployed one. |
| Subscriptions.AdvanceReset | internal/panel/subscriptions.go:86-97 | The loop computes the closed form of the next reset. |
| Subscriptions.ScheduleExact | internal/panel/subscriptions.go:86-97 | The next reset is the unique t + k*step in (now, now + step], for 1..106751 days. |
| Subscriptions.StepWraps | internal/panel/subscriptions.go:86-97 | At 106752 days the 64-bit step is negative. |
| Subscriptions.LoopDiverges | internal/panel/subscriptions.go:86-97 | When the step is not positive and the reset is due, no iterate passes the present: the loop does not end. |
| Subscriptions.Reconcile | internal/panel/subscriptions.go:99-140 | Every user is reconciled, and the nodes returned are the sorted, duplicate-free hosts of inbounds bound to changed users. |
| Subscriptions.ReconcileIdempotent | internal/panel/subscriptions.go:99-140 | A second call at the same instant changes nothing and names no node. |
| Accounting.SyncWireGuard | internal/panel/accounting.go:65-100 | Counters after one sync; each user's total is that of its peers above their baselines, and the user is online if it was or an enabled peer moved or shook hands within 180 s. |
| Accounting.Gather | internal/panel/accounting.go:116-131 | The reports read are those of the enabled nodes that answered. |
| Accounting.SyncXray | internal/panel/accounting.go:102-151 | Each user is charged the non-negative counters that enabled, answering nodes reported for labels whose last stored binding belongs to the user, and is online with new bytes or within 90 s; nothing else changes. |
| Accounting.OwnLabel | internal/panel/accounting.go:105-112 | A label whose bindings all belong to one user is paid by that user and by nobody else. |
| Accounting.SharedLabel | internal/panel/accounting.go:105-112 | Of several bindings with one label the last decides who pays. |
| Accounting.XrayTrafficConserved | internal/panel/accounting.go:102-151 | The users' totals rise by exactly the non-negative counters that enabled, answering nodes reported for labels whose last stored binding belongs to an existing user, summed node by node. |
| Accounting.ProcessResets | internal/panel/accounting.go:153-194 | Due users are reset and rescheduled at the instant advanceResetAt gives, and exactly their peers are rebased. |
| Accounting.Enforce | internal/panel/accounting.go:196-256 | After the pass every binding and peer of an existing user is enabled if and only if the user is active; the tasks are the flipped peers. |
| AccountingLaws.DecidersAgree | internal/panel/subscriptions.go:47-59 | Reconcile then enforce: the stored status is active exactly when the lifecycle decides active. |
| AccountingLaws.DisabledKept | internal/panel/accounting.go:205-230 | Enforcement keeps a manual `disabled` if and only if neither expiry nor quota strikes. |
| AccountingLaws.NeverDisabledAgain | internal/panel/accounting.go:205-222 | No run of reconciling, enforcing, resetting and counting makes an enabled user disabled. |
| AccountingLaws.DisabledRevived | internal/panel/accounting.go:171-194 | Once enforcement has overruled `disabled`, after any such passes the first reset due before the expiry leads to `active`, by either of the two resets. |
| AccountingLaws.PassStable | internal/panel/subscriptions.go:120-127 | After reconcile and enforce, a further reconcile at that instant changes the user again if and only if enforcement overruled: a disabled user past expiry, or short of that any user over quota. |
| AccountingLaws.TasksAreFlips | internal/panel/accounting.go:240-256 | The peer tasks are exactly the peers whose flag flips. |
| AccountingLaws.BytesSinceReset | internal/panel/accounting.go:64-95 | After a rebase, every later sync of a run with growing counters counts exactly the bytes since. |
| AccountingLaws.ResetRebases | internal/panel/accounting.go:171-183 | The scheduled reset leaves the peers of a reset user in the state the previous row starts from. |
| AccountingLaws.ReconcileResetLasts | internal/panel/subscriptions.go:105-113 | After the reset in reconcileSubscriptions any later sync gives the total it would have given without the reset; it is the bytes since the reset if and only if no peer of the user stood above its baseline. |
| Accounting.PushTasks | internal/panel/accounting.go:258-284 | After the peer tasks: a refused one is taken back, an accepted enabling zeroes counters and baselines, nothing else changes. |
| AccountingLaws.ReenablingForgets | internal/panel/accounting.go:270-281 | A later WireGuard total is short of the stored bytes plus the bytes since by exactly what the accepted re-enablings forgot. |
| Submitted.RuleCreated | internal/panel/routing.go:423-450 | The state after a committed creation is the one before with one rule appended: enabled, under the new identifier, with the submitted inbounds, users and priority, trimmed name, node and target, and every matcher entry trimmed in its place (networks and protocols in lower case), up to what deploys write into inbounds. |
| Submitted.RuleUpdated | internal/panel/routing_transaction.go:94-120 | The same for an update: the tidied rule takes the place of the old one, keeps its creation time and takes the submitted flag; every other rule and record stays. |
| Submitted.RuleDeleted | internal/panel/routing_transaction.go:148-170 | A committed deletion takes out that rule and nothing else. |
| Submitted.TidyMatches | internal/panel/routing.go:442-448 | For every proxy that ignores blanks and case, a tidied rule matches exactly the requests that the submitted one matches. |
| Submitted.GroupCreated | internal/panel/outbound_groups.go:46-112 | The created group has the submitted members, trimmed, sorted by priority and identifier, a missing weight counted as one, and least_ping, blocked and one where strategy, fallback and expected number are missing; nothing else changes. |
| Submitted.GroupUpdated | internal/panel/outbound_groups.go:238-275 | The same for an update, with creation time kept and the submitted flag. |
| Submitted.GroupDeleted | internal/panel/outbound_groups.go:298-315 | A committed deletion takes out that group and nothing else. |
| Submitted.InboundCreated | internal/panel/inbound_lifecycle.go:10-41 | The created inbound has the submitted fields, tidied, listens on 0.0.0.0 by tcp without TLS where these are missing, and is enabled without keys until a deploy fills them in. |
| Submitted.InboundUpdated | internal/panel/inbound_hardening.go:54-81 | An update writes every submitted field; the REALITY key stays exactly while the mode is REALITY, and the Shadowsocks password always. |
| Submitted.InboundSwitched | internal/panel/inbound_lifecycle.go:42-70 | Switching sets flag, status and time stamp of that inbound alone. |
| Submitted.InboundDeleted | internal/panel/inbound_lifecycle.go:91-120 | A committed deletion takes out the inbound and exactly its bindings. |
| Submitted.OutboundCreated | internal/panel/outbound_control.go:89-118 | The created outbound has the submitted fields, tidied, the sealed secret, and a health record that says unknown. |
| Submitted.OutboundUpdated | internal/panel/outbound_control.go:121-160 | The same for an update, which resets the health record, with creation time kept and the submitted flag. |
| Submitted.OutboundSwitched | internal/panel/outbound_control.go:214-245 | Switching sets flag and time stamp of that outbound alone. |
| Submitted.OutboundDeleted | internal/panel/outbound_control.go:272-300 | A committed deletion takes out that outbound and nothing else. |
| Submitted.RefusedExactly | internal/panel/routing.go:423-441 | In any state, a transaction refuses its input as invalid if and only if the submitted record is malformed, written out for rules, groups, inbounds and outbounds. |
| Submitted.DeployedInOrder | internal/panel/inbound_hardening.go:82-94 | The node a record lies on is deployed first, then the one an update moves it to, if that is another. |
| Text.TrimExact | internal/panel/routing.go:424-429 | Trimming gives the one string that is left without blanks at either end. |
| Text.LowerExact | internal/panel/routing.go:427-427 | Lower-casing adds 32 to the codes of A to Z and keeps everything else. |
| Admission.InboundServed | internal/panel/xray.go:155-205 | The configuration of a node has an item for a stored inbound if and only if the inbound lies on the node, is enabled and has a known protocol; the item has its socket, settings and keys. |
| Admission.ItemOwner | internal/panel/xray.go:155-205 | Every emitted inbound is a stored, enabled one of the node. |
| Admission.ClientServed | internal/panel/xray.go:162-190 | An emitted inbound lets in a credential under a label if and only if a stored, enabled binding of that inbound has both and its user exists with status active. |
| Admission.OutboundServed | internal/panel/routing.go:649-700 | The configuration has an item under the tag of a stored outbound of the node if and only if that is enabled; the item has its protocol, settings and secret. |
| Admission.NativeServed | internal/panel/outbound_native.go:23-54 | The native services of a node are exactly its enabled outbounds of the three native protocols. |
| Admission.Probed | internal/panel/outbound_health.go:39-58 | An outbound is probed on a node if and only if it lies there, is enabled and is no blackhole. |
| Pools.FallbackReaches | internal/panel/outbound_groups.go:418-430 | In the configuration of the node, the fallback tag of a group's balancer reaches what the stored group names as fallback (direct, blocked or that outbound), and nothing else. |
| Pools.StrategyKept | internal/panel/outbound_groups.go:432-475 | The proxy's name for the strategy is that of the group's, different for each of the four. |
| Pools.CostsExact | internal/panel/outbound_groups.go:440-472 | Under least_load there is one cost for every member, under its alias: a hundred times its priority plus one, over its weight; the expected number is the group's. The other strategies have neither. |
| Pools.CostOrder | internal/panel/outbound_groups.go:440-472 | A greater weight makes a member cheaper and a greater priority number dearer. |
| AdminAcceptance.NodeDeleteExact | internal/panel/reference_safety.go:18-56 | A node is deleted, and nothing else, if and only if the state without it has integrity. |
| AdminAcceptance.PlanDeleteExact | internal/panel/server.go:811-822 | A plan is deleted, and nothing else, if and only if the state without it has integrity. |
| AdminAcceptance.UserCreateExact | internal/panel/server.go:436-456 | A user is appended if and only if the named plan is enabled and the state with the user has integrity. |
| AdminAcceptance.UserEditExact | internal/panel/server.go:562-600 | An edit keeps name and plan where the input leaves them blank, and is accepted if and only if the named plan is enabled and the resulting state has integrity. |
| AdminAcceptance.PlanApplyExact | internal/panel/subscriptions.go:235-260 | Applying a plan needs it enabled, and sets it on that user under the old identifier and name. |
| AdminAcceptance.AttachExact | internal/panel/xray.go:412-472 | A user is attached, by an enabled binding labelled with the username, if and only if the resulting state has integrity, the user is active and is not attached yet. |
| AdminAcceptance.DetachExact | internal/panel/xray.go:473-494 | Detaching takes out the user's bindings on that inbound and nothing else. |
| AdminAcceptance.UserDeleteExact | internal/panel/server.go:650-662 | Deleting a user takes out the user, its bindings, its peers and its place in every rule, and nothing else. |
| AdminAcceptance.TunnelCreateExact | internal/panel/operations.go:119-142 | A tunnel joins two different nodes that are enabled and not in maintenance. |
| Entitlements.EnforcedExact | internal/panel/accounting.go:205-230 | Enforcement, the whole record: expired past the expiry, else over quota when the bytes reach the user's own limit or, without one, the plan's, else active again after a quota status; only status, bytes and time stamp change. |
| Entitlements.ReconciledQuota | internal/panel/subscriptions.go:47-59 | Reconciling a user neither disabled nor expired: over quota when the bytes left reach the own limit or, without one, the plan's, and active otherwise. |
| Entitlements.ReconciledOtherwise | internal/panel/subscriptions.go:47-59 | A disabled user stays disabled, and short of that one at or past the expiry is expired. |
| Entitlements.ReconciledRest | internal/panel/subscriptions.go:99-128 | The rest of the record: the time stamp moves exactly when something changed, and the reason follows the status. |
| Entitlements.OwnLimitAlone | internal/panel/store.go:387-395 | With an own limit the plans decide nothing. |
| Entitlements.ReconciledReset | internal/panel/subscriptions.go:103-113 | Reconciling resets the counters exactly of users whose own interval or, without one, the plan's is set and whose time has come; the next time keeps the phase and lies within one interval from now. |
| Entitlements.ScheduledReset | internal/panel/accounting.go:153-194 | Scheduled resets over the same interval: cleared without one, one interval from now for a user without a schedule, nothing before the time, and at the time counters to zero, quota status lifted, next time in phase. |
| Entitlements.FirstReset | internal/panel/subscriptions.go:86-91 | Without a schedule the next reset is one interval from now, or none without an interval. |
| Entitlements.ReconciledNodes | internal/panel/subscriptions.go:128-139 | A node is named if and only if an inbound on it has a binding of a user whose record changed. |
| Entitlements.EnforcedNodes | internal/panel/accounting.go:222-240 | A node is redeployed if and only if an inbound on it has a binding whose flag, or whose user's status, changed. |
| Entitlements.PeerAccepted | internal/panel/accounting.go:392-404 | A peer is created if and only if the node exists and the user has fewer peers than the own device limit, without one the plan's, without that one. |
| PulseUdp.Path.UpdateRTT | internal/transports/pulseudp/pulseudp.go:47-64 | The truncated real arithmetic is a quarter step rounded down. |
| PulseUdp.EstimateBounded | internal/transports/pulseudp/pulseudp.go:47-64 | Estimate between least and greatest sample, never back to zero; jitter at most their difference. |
| PulseUdp.StepTowards | internal/transports/pulseudp/pulseudp.go:47-64 | A sample v leaves the estimate alone exactly in [v - 3, v], and otherwise brings it closer. |
| PulseUdp.RepeatConverges | internal/transports/pulseudp/pulseudp.go:47-64 | Repeating v drives the estimate into [v - 3, v] and keeps it there. |
| PulseUdp.Path.Listen | internal/transports/pulseudp/pulseudp.go:216-248 | The receive loop's effect on a path over any frames: marks, samples that count, estimate. |
| PulseUdp.UsableExactly | internal/transports/pulseudp/pulseudp.go:66-82 | After any frames a path is usable exactly as long as the last one lies within the timeout, whatever state it started in. |
| PulseUdp.ScoreExact | internal/transports/pulseudp/pulseudp.go:66-82 | Twice the score of a usable path is twice its round trip, 999 ms without a sample, plus five times its jitter. |
| PulseUdp.ScoreBounded | internal/transports/pulseudp/pulseudp.go:66-82 | The score of a path that heard samples lies within bounds given by the least and greatest sample. |
| PulseUdp.Ranked | internal/transports/pulseudp/pulseudp.go:110-133 | Exactly the usable paths in score order, or all paths when none is usable, each once. |
| PulseUdp.BestPath | internal/transports/pulseudp/pulseudp.go:291-295 | There is a path to send on, and it has the least score whenever one is usable. |
| PulseUdp.Dedupe.Seen | internal/transports/pulseudp/pulseudp.go:91-108 | One lookup: the answer and the whole new table, pruning loop included. |
| PulseUdp.DroppedExactly | internal/transports/pulseudp/pulseudp.go:91-108 | A frame is dropped if and only if its number was accepted before and not forgotten by a pruning more than 15 s later. |
| PulseUdp.AcceptedTwice | internal/transports/pulseudp/pulseudp.go:91-108 | Twice accepted means more than 15 s apart with a pruning of an overfull table in between. |
| PulseUdp.TableBounded | internal/transports/pulseudp/pulseudp.go:99-106 | The table is within capacity or at most 15 s old after a lookup if and only if the lookup accepted or it was so before. |
| PulseUdp.DuplicateLeavesStaleTable | internal/transports/pulseudp/pulseudp.go:95-97 | A run after which the table is overfull and a minute old. |
| PulseUdp.Sender.Run | internal/transports/pulseudp/pulseudp.go:191-192 | A run of a fresh sender seals exactly the numbered sequence. |
| PulseUdp.NumbersDistinct | internal/transports/pulseudp/pulseudp.go:265-287 | Frame numbers of one sender repeat exactly when the 64-bit counter wraps. |
| PulseUdp.NothingLostToDedupe | internal/transports/pulseudp/pulseudp.go:222-226 | Whatever the network duplicates or reorders, a dropped frame is a copy of an accepted one. |
| PulseUdp.RestartLosesExactly | internal/transports/pulseudp/pulseudp.go:187-194 | Over two runs of a sender, the first copy of a second-run frame is lost if and only if its number was accepted from the first run and not forgotten since. |
| PulseUdp.RestartLosesPacket | internal/transports/pulseudp/pulseudp.go:187-194 | A restart right after the first packet: the second run's first packet is dropped, whatever it carries and whenever it comes. |
| WgAddress.IncIP | internal/panel/operations.go:213-220 | The in-place carry loop increments the byte string. |
| WgAddress.IncrementAddsOne | internal/panel/operations.go:213-220 | Incrementing is plus one modulo the range of the address length. |
| WgAddress.ReservedAddresses | internal/panel/accounting.go:306-318 | In an IPv4 network the network address is the least and the byte-wise broadcast address the greatest number. |
| WgAddress.NextAddress | internal/panel/accounting.go:320-344 | The loop returns the first usable address of its walk or none. |
| WgAddress.AllocatesFirst | internal/panel/accounting.go:320-344 | For IPv4 that is the first usable address after the server's. |
| WgAddress.FailsExactly | internal/panel/accounting.go:331-343 | It fails if and only if none of the next 65536 addresses is usable. |
| WgAddress.AllocatedIsValid | internal/panel/accounting.go:346-372 | Validation accepts every allocated address. |
| WgAddress.ValidMeansUsable | internal/panel/accounting.go:346-372 | Validation accepts exactly the usable addresses other than the server's own, and returns them. |
| PeerAddresses.ChooseAddress | internal/panel/accounting.go:392-423 | Peer creation takes the allocated or the validated address, never the server's, and one that no peer of the node and interface has; each refusal has its reason. |
| Runs.AddressesAlways | internal/panel/accounting.go:374-423 | Peers of one node and interface have distinct addresses in every state of every run whose peers got theirs that way. |
| WgAddress.DerivePair | internal/panel/operations.go:197-212 | The two tunnel ends are one and two steps on, when both lie in the network. |
| WgAddress.PairExact | internal/panel/operations.go:197-212 | For IPv4 they exist if and only if the second is within the network, carry out of the address included. |
| AgentSync.NormalizedSpec | internal/agent/wireguard_outbound.go:32-76 | An accepted specification keeps every field, trimmed; a missing keepalive, MTU or list of networks gets 25, 1420 and all networks. |
| AgentSync.NormalizeTwice | internal/agent/wireguard_outbound.go:32-76 | Normalizing an already normalized specification changes nothing. |
| AgentSync.Agent.Apply | internal/agent/wireguard_outbound.go:111-158 | One specification applied, with each kind of failure. |
| AgentSync.Agent.Remove | internal/agent/wireguard_outbound.go:160-177 | One interface removed, with either file stuck. |
| AgentSync.Agent.Sync | internal/agent/wireguard_outbound.go:179-208 | The three loops compute the sync relation, failures included. |
| AgentSync.SyncConverges | internal/agent/wireguard_outbound.go:179-208 | Success if and only if the list is valid, no interface is somebody else's and nothing fails; then markers and configurations are exactly the desired ones. |
| AgentSync.SyncIdempotent | internal/agent/wireguard_outbound.go:179-208 | A second sync with the same list changes no file. |
| AgentSync.FailureRemovesNothing | internal/agent/wireguard_outbound.go:179-198 | A failed sync removes nothing, and changes nothing when the list is at fault. |
| AgentSync.UnmanagedUntouched | internal/agent/wireguard_outbound.go:132-136 | A configuration without a marker keeps its content and gets no marker, whatever fails. |
| AgentSync.LostMarkerBlocks | internal/agent/wireguard_outbound.go:142-149 | After a marker write that failed without a trace, and any sequence of further syncs, the configuration is still as written and no sync that lists the interface succeeds. |
| Pbkdf2.OctetsValue | internal/panel/security.go:42-43 | The four counter octets, read with the first most significant, are the block number. |
| Pbkdf2.XorInto | internal/panel/security.go:51-53 | The inner loop xors the buffer in place. |
| Pbkdf2.Derive | internal/panel/security.go:35-58 | The nested loops compute the derived key of section 5.2 of RFC 8018, for every length and iteration count. |
| Pbkdf2.KeyOctet | internal/panel/security.go:35-58 | Each octet of the key is the exclusive or of that octet of U_1 to U_c of its block. |
| Pbkdf2.KeyPrefix | internal/panel/security.go:57-57 | A longer key extends a shorter one. |
| KcpFraming.HeaderOctets | internal/transports/swiftkcp/kcp.go:104-107 | A length is two zero octets and then the number, most significant octet first. |
| KcpFraming.Write | internal/transports/swiftkcp/kcp.go:94-118 | The writer puts the length-prefixed stream on the wire. |
| KcpFraming.Read | internal/transports/swiftkcp/kcp.go:120-144 | The reader delivers what parsing the stream gives, and stops for the same reason. |
| KcpFraming.RoundTrip | internal/transports/swiftkcp/kcp.go:94-144 | The reader recovers exactly the written packets of 1..65535 bytes, whatever follows. |
| KcpFraming.DeliveryExact | internal/transports/swiftkcp/kcp.go:127-131 | All packets arrive if and only if none is empty. |
| KcpFraming.EmptyPacketStops | internal/transports/swiftkcp/kcp.go:97-131 | An empty packet stops the reader: all before it arrives, nothing after it. |
| KcpFraming.ReaderSound | internal/transports/swiftkcp/kcp.go:120-144 | Delivered packets are the frames at the front of the wire, and all of it when the reader stops between frames. |
| KcpFraming.CutDeliversPrefix | internal/transports/swiftkcp/kcp.go:123-136 | Cutting the stream anywhere delivers a prefix of the packets. |
| Counterexamples.MoveThenRetag | internal/panel/outbound_control.go:133-160 | Moving an outbound away from its rule and then changing its tag, both accepted, leaves the rule's node behind. |
| Counterexamples.TagTakenOver | internal/panel/outbound_control.go:42-53 | Moving an outbound away and creating another with its tag on the rule's node, both accepted: the rule's traffic leaves through the other. |
| Counterexamples.BlackholeMember | internal/panel/outbound_groups.go:483-485 | Turning a member into a blackhole is accepted and removes the balancer a rule points to. |
| Counterexamples.DeletingBlocksOthers | internal/panel/routing.go:841-851 | Deleting the only user of a blocking rule blocks another user. |
| Counterexamples.RenamingEscapesRule | internal/panel/server.go:567-575 | After a rename the user's rule no longer matches the user's binding. |
| Counterexamples.DisabledComesBack | internal/panel/accounting.go:205-230 | Disabled and over quota, then enforcing, reconciling, and reconciling when the reset is due: active. |
| Counterexamples.RaisedQuotaForgets | internal/panel/accounting.go:270-281 | Raising a used-up quota re-enables the peer and forgets the usage: the whole raised quota is there again. |

## Left out

- Interleavings of panel transactions: the code releases the lock between an update and its deploy, so the properties are about one transaction at a time.
- Store.Store.Update: takes a closure as a function from state to state; closures that write in place, and err after writes, are modelled in `LiveState` for user deletion and editing and for rule deletion and its rollback, over users, peers, bindings and rules with their lists.
- Protocol, transport, TLS and REALITY fields that no panel decision reads are one `settings` field; their validation and rendering are left out, as are share links and custom proxy JSON.
- Credential encryption: sealed values are opaque strings, and a decryption error while compiling is one of the ways a deploy fails.
- Names are compared after trimming and folding ASCII only; Unicode case folding is not modelled.
- Integers are unbounded, so overflow of 64-bit traffic totals is not modelled; the 64-bit day step of reset schedules is.
- A failed native sync may stop half way: the native part and the proxy part of the node are then arbitrary, without saying which step failed.
- Tor and OpenVPN agents, which repeat the WireGuard shape, and the routing marks of OpenVPN outbounds.
- HTTP handlers, roles, sessions, cookies, audit log, settings, dashboards, metrics, `userEntitlements` and views.
- Tunnel orchestration beyond the references a tunnel holds and the addresses `derivePair` gives it.
- Redeploying the nodes that enforcement names, and the requests by which peer tasks reach the agents; their outcomes are parameters.
- Disk form: schema number, settings and audit entries; JSON text itself is a record-level mapping.
- Temporary files of `applyManagedWGOutbound` that a failed write leaves behind; markers are assumed to carry names the agent writes.
- `WgAddress`, `PeerAddresses`: a server address that does not parse is refused before the model begins; how addresses are written and read is a parameter whose reading undoes its writing; addresses written in IPv4-mapped IPv6 notation are not modelled; the range theorems are for IPv4.
- Balancer costs are reals; their rounding is not modelled.
- `PulseUdp`: sealing, sockets and statistics; round-trip arithmetic is over reals, which below 30 s the floating point arithmetic equals.
- HMAC-SHA-256 is any function with 32-byte results; the negative key length on which the original panics is excluded by type.
- ICMP and QUIC transports, scripts, installers and the web interface.
- OpenVPN interfaces, routing tables and marks that occur twice on a node make a deploy fail (internal/panel/outbound_native.go:160-176); they are part of `settings`, and such a deploy is one of those that fail.
- Rollback.RollbackExact: inbounds of deployed nodes come back up to their status and generated keys, which deploys write.
- AccountingLaws.BytesSinceReset: speaks of runs in which the reported counters do not go back, because a counter that restarts loses bytes in the original too.
- AccountingLaws.ReconcileResetLasts: speaks of counters at or above their baselines that do not go back, as the row on bytes since a reset does.
