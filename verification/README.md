# A model of De-code's runtime cores

De-code is an agent runtime. Under its command line and its model plumbing lie several algorithms
that other parts rely on without restating: a knowledge graph that is walked and searched, a plan
that is sorted and delegated stage by stage, an analysis of command vectors, a router that falls
back from model to model, two durable stores for one plan contract, versioned artifacts, a governed
execution coordinator and the loop around it. This project states what each of them promises and
proves it for all inputs, all runs or all interleavings.

Code that the repository writes as loops over changing variables is written here as methods with
loops, and objects with fields as classes; each such method is proved against a function or a
direct statement of what it computes, and the properties are lemmas about those. `dafny verify
dfyconfig.toml` checks the whole project.

## How the parts fit

- `GraphPaths`, `Neighbourhood`, `WordSplitting`, `KnowledgeGraph`: path enumeration, bounded
  neighbourhood and inverted index of the knowledge graph. A path is found once per choice of
  parallel links, which the count states exactly.
- `PlanDag`: depth-first sorting with cycle detection, and why an acyclic plan always has a node
  without unfinished dependencies.
- `CoreBudget`, `ActiveResults`, `StageRuntime`, `CorePlanner`, `DecisionMeaning`, `CoreGuarantees`,
  `MissionRuns`, `MissionLaws`, `MissionCompletion`, `HandOff`: the mission machine, what each of its
  answers says of the state it was given, its safety over all runs, and why an open mission can be
  finished. The driver is abstract: it only asks for decisions, reserves budget, marks
  nodes and stores what a finished stage returned, in any order the decisions allow. Evidence is
  handed on through eight references only, so a dependency listed behind eight of them is not heard;
  when one is heard is stated exactly, with a state in which one is not.
- `CommandOutputs`, `OutputRewriting`, `RewriteRoundTrip`: which arguments of a command vector are
  outputs, and what is left of that analysis after the outputs were replaced. The round trip fails
  for copies whose destination is bound by its place alone when a later flag value, empty or led by
  a dash, is replaced; the condition is exact and an input is given.
- `ModelRouting`: filters, ranking and the fallback chain. A routing decision lists the pool of the
  request as strengthened by the rules, while a later fallback looks the pool up for the request as
  given, so capabilities that only a rule requires are not asked of a fallback model. When the two
  pools are the same is stated exactly, with an input on which they differ.
- `ArtifactStore`: optimistic concurrency over all interleavings of clients, and what rendering hides.
- `PlanStore`, `SqlitePlanStore`, `MongoPlanStore`, `PlanStoresAgree`: one abstract plan store and
  its two implementations. The Mongo store keys a node by session, colon, node; two nodes share a
  key exactly when one session id runs on, over a colon, into the other's node id, and the two stores
  agree on everything exactly when no known session id runs on from another in this way.
- `Coordinator`: one governed execution against an arbitrary environment. Two consequences of the
  code are visible in the statements: a preparation that returns a value ends the execution without
  the second clearance, and without a preparation the gate is not asked again after an approval.
- `ToolLoop`: the bounded tool loop, what it saves, and which saved states may be resumed.
- `JsonScanner`, `PathMapping`, `DeepMerge`: the string-aware brace scanner (strings and escapes of
  section 7 of RFC 8259), the deepest-root path mapping, and the merge of layered settings. A
  Windows provider root loses information about host names with a backslash, or a colon in second
  place; merging is associative exactly for operands without a path that holds object, non-object,
  object where the last object fails to cover the first.
- `Prelude`: optional values and outcomes of operations that may raise.

Digests are taken as injective: the approval digest stands for the material it is computed from,
and a stage's hash is an arbitrary function. Clocks, random ids, the language model, tools,
approvers and telemetry stores are arbitrary inputs.

## Model

| member | source | states |
|---|---|---|
| GraphPaths.AllFoundCount | src/decode/knowledge/graph.py:243-257 | the enumeration holds every simple undirected path from source to target and nothing else, each as often as there are choices of parallel links along it |
| GraphPaths.FoundSorted | src/decode/knowledge/graph.py:243-257 | paths are found in non-decreasing length |
| GraphPaths.FirstFiveShortest | src/decode/knowledge/graph.py:248-257 | the returned paths are simple paths, shortest first, and a simple path is left out only when five no longer ones are returned |
| GraphPaths.LevelBounded | src/decode/knowledge/graph.py:247-257 | no path in the queue has more edges than the graph has other vertices, so the search ends on every edge list |
| KnowledgeGraph.KnowledgeGraph.FindPath | src/decode/knowledge/graph.py:243-257 | the queue loop returns the first five paths of that enumeration |
| KnowledgeGraph.KnowledgeGraph.Extend | src/decode/knowledge/graph.py:252-256 | one expansion queues exactly the one-edge extensions to vertices not yet on the path, in edge order |
| Neighbourhood.SweepComplete | src/decode/knowledge/graph.py:219-241 | once the queue is empty every vertex within the limit was visited, at its distance or before |
| Neighbourhood.SweepResult | src/decode/knowledge/graph.py:219-241 | the visited vertices are exactly those within the depth, each once, nearest first |
| Neighbourhood.TouchingCount | src/decode/knowledge/graph.py:231-237 | visiting a vertex reports each edge that touches it, as often as the graph lists it |
| Neighbourhood.DueMeans | src/decode/knowledge/graph.py:231-237 | each occurrence of an edge is reported once for every one of its endpoints that was visited |
| Neighbourhood.BallIsWalks | src/decode/knowledge/graph.py:219-241 | the vertices within a depth are those reached by walks of at most that many hops, in either direction of an edge |
| KnowledgeGraph.KnowledgeGraph.GetRelated | src/decode/knowledge/graph.py:219-241 | the related nodes are the known ones within the depth in visiting order, and every edge is reported once per distinct visited endpoint |
| KnowledgeGraph.KnowledgeGraph.ScanEdges | src/decode/knowledge/graph.py:231-237 | the edge loop of a visit reports the touching edges and queues their other endpoints one level deeper |
| KnowledgeGraph.KnowledgeGraph.RebuildIndex | src/decode/knowledge/graph.py:177-183 | after a rebuild the index lists under each word exactly the nodes whose text holds it |
| KnowledgeGraph.KnowledgeGraph.AddNode | src/decode/knowledge/graph.py:193-196 | adding a node keeps the index in agreement and every other node as it was |
| KnowledgeGraph.KnowledgeGraph.AddEdge | src/decode/knowledge/graph.py:198-200 | an added edge is listed last, and the index stays in agreement |
| KnowledgeGraph.KnowledgeGraph.MatchingIds | src/decode/knowledge/graph.py:202-217 | the index lookup gives the ids a plain scan of all nodes gives: those with every word, or with any word when none has all |
| KnowledgeGraph.MatchesMeans | src/decode/knowledge/graph.py:202-217 | a node matches when its name or description holds every word of the query, or, where no node holds them all, any of them |
| KnowledgeGraph.KnowledgeGraph.Search | src/decode/knowledge/graph.py:202-217 | a search returns distinct matching nodes, all of them up to ten |
| KnowledgeGraph.PostingAgrees | src/decode/knowledge/graph.py:177-183 | entering one more node keeps the index in agreement with the nodes entered so far |
| WordSplitting.WordsOfJoin | src/decode/knowledge/graph.py:179-183 | joining name and description by a space neither merges nor splits a word of either |
| WordSplitting.SplitsAsWritten | src/decode/knowledge/graph.py:179-183 | a text of words with spaces between and around them splits into those words |
| PlanDag.TopologicalOrder | src/decode/planner/dag.py:136-154 | the order lists every node once and after its dependencies, or there is a cycle, or a dependency is unknown |
| PlanDag.ValidateEdges | src/decode/planner/dag.py:116-123 | a plan is accepted exactly when its dependencies are known and acyclic, self-dependency included |
| PlanDag.TopologicalSort.VisitNode | src/decode/planner/dag.py:140-151 | a visit finishes its node and keeps the rest of the walk, reports a cycle only when there is one, and ends because the nodes on the stack are distinct |
| PlanDag.ListingMeansAcyclic | src/decode/planner/dag.py:136-154 | a plan that can be listed after its dependencies has no cycle |
| PlanDag.ReadyUntilDone | src/decode/planner/dag.py:125-134 | on an acyclic plan of pending and finished nodes, ready_nodes is empty exactly when every node is finished |
| CoreBudget.ReserveIffNoStopReason | src/decode/workflows/models.py:454-485 | a reservation succeeds exactly when no stop reason is given, and keeps the budget's validator |
| CoreBudget.ReservationsConserved | src/decode/workflows/models.py:445-485 | along any chain from zero the counters are the number and the sum of the reservations, and both limits bound its length |
| CoreBudget.RunRefusedIff | src/decode/workflows/models.py:465-485 | a whole run is granted exactly when its length and sum are within the limits and each step count is allowed |
| ActiveResults.LinksAreObserved | src/decode/workflows/agent_executor.py:179-187 | every evidence link of a result is that of an observation with evidence |
| ActiveResults.TalliesAdd | src/decode/workflows/agent_executor.py:179-187 | the counts and the links of a result are those of its single observations, added up in order |
| ActiveResults.FailuresMean | src/decode/workflows/models.py:130-212 | the gate names exactly the demands that are not met |
| ActiveResults.GatePassesMeans | src/decode/workflows/models.py:130-212 | the gate passes exactly when every requirement it states is met by the result and the trusted observations |
| ActiveResults.UnobservedCheckMeans | src/decode/workflows/models.py:130-212 | without any observation a gate that expects a file never passes, and any other is judged by the evidence links |
| StageRuntime.ActiveStageRuntime.Record | src/decode/workflows/agent_executor.py:169-170 | a governed call is projected into an observation, which is appended, or raises and leaves the list alone when its validator refuses it |
| StageRuntime.ProjectionMeans | src/decode/workflows/agent_executor.py:45-78 | the observation of a call is valid exactly unless the call read a file of more than 2^63-1 bytes; it is protected exactly when the call fully succeeded with evidence, and speaks of a file only for a successful read |
| StageRuntime.ProjectionRepeats | src/decode/workflows/agent_executor.py:45-78 | an observation repeats the names, status, category, evidence and file facts of its call, and is a success only of one that ran, succeeded and returned no failure |
| StageRuntime.ActiveStageRuntime.Finish | src/decode/workflows/agent_executor.py:163-235 | finishing compares the envelope with the one at the start and computes the judged, classified and bound result, or raises where a validator refuses it |
| StageRuntime.FinishRaisesIff | src/decode/workflows/agent_executor.py:172-235 | it raises exactly for more than 32 observations, too few attempts, or failed criteria reported beside an accepted success |
| StageRuntime.FinishCoherent | src/decode/schema/task_state.py:136-167 | its result satisfies all validators, and success, completed outcome and passed gate are equivalent |
| StageRuntime.FinishMeans | src/decode/workflows/agent_executor.py:189-217 | a changed envelope blocks the stage; an unsuccessful report keeps its outcome; a reported success is accepted exactly when it is evidenced and meets the gate, and otherwise needs replanning, with its criteria and texts |
| StageRuntime.EscalationMeans | src/decode/workflows/agent_executor.py:81-119 | an unfinished stage is escalated as a material change, as demanded, as the last unsuccessful observation calls for, or by its outcome, and names the request of that observation |
| StageRuntime.FinishSurvivesRecheck | src/decode/workflows/agent_executor.py:203-235 | checking the gate again over the stored observations gives the stored answer |
| StageRuntime.ClassifyRefers | src/decode/workflows/agent_executor.py:81-119 | an escalation is given exactly for an unfinished stage and refers to an observed request |
| StageRuntime.RefusalValidIff | src/decode/workflows/agent_executor.py:607-663 | appending a refused read keeps the stored record valid exactly when there is room for the observation and the attempt |
| StageRuntime.RefusalMeans | src/decode/workflows/agent_executor.py:607-663 | a refused call leaves a blocked stage without a passed gate, escalated as the caller says over the last call that did not succeed |
| CorePlanner.Decide | src/decode/workflows/registry.py:149-269 | the decision is the one the checks give in their order, or the plan cannot be sorted |
| CorePlanner.CheckCompleted | src/decode/workflows/registry.py:201-219 | the loop over completed nodes accepts exactly when each agent success is bound to its stored verification |
| CorePlanner.FirstOf | src/decode/workflows/registry.py:230-247 | the node acted on is the ready one of least rank, whatever order the nodes are listed in |
| CorePlanner.FrontIsLeast | src/decode/workflows/registry.py:230-247 | there is a front node exactly when some node is ready, and no ready node ranks before it |
| CoreGuarantees.ReviewAlwaysValid | src/decode/workflows/registry.py:272-332 | every review request built for a decision passes its own cross-field validator |
| CoreGuarantees.DecisionAlwaysValid | src/decode/workflows/models.py:571-604 | every decision built passes its own cross-field validator |
| CoreGuarantees.DelegationIsSafe | src/decode/workflows/registry.py:201-269 | a delegate decision names a pending agent node with all dependencies successful, nothing running, all completed work bound, first in declaration order among the ready nodes, no human gate waiting, and a budget whose reservation succeeds |
| CoreGuarantees.QuietMissionHasFront | src/decode/workflows/registry.py:177-247 | on an acyclic plan an unfinished mission past the stop, failure and review checks has a ready node |
| CoreGuarantees.NoReadyWorkIff | src/decode/workflows/registry.py:177-257 | the exact states in which a decision finds no work although nothing failed |
| DecisionMeaning.AnsweredIff | src/decode/workflows/registry.py:149-182 | a decision is given exactly when workflow and strategy are the selected ones, the plan is closed and acyclic, and a recorded stop names the session |
| DecisionMeaning.AnswerMeans | src/decode/workflows/registry.py:177-269 | for every answer the exact states that are given it: a recorded stop, a failed task or node, work in doubt, finished work without its verification, all finished, a gate, a budget met, a stage to delegate |
| DecisionMeaning.ForemostAnswer | src/decode/workflows/registry.py:230-269 | what a clear mission is told about the stage whose turn it is: the gate, the stage and its steps, which limit is met, or that a blocked task waits |
| DecisionMeaning.AnswerFields | src/decode/workflows/registry.py:162-175 | the reason goes with the outcome, a decision names the state it judged, a stage only where one is acted on, and carries a review exactly where a person has to look |
| DecisionMeaning.ReviewMeans | src/decode/workflows/registry.py:272-332 | a review names the first agent stage the stop is about, and asks for replanning or repeats an escalation exactly when that stage holds an escalated result of its own |
| MissionRuns.StepKeeps | src/decode/workflows/registry.py:149-269 | every step of the driver keeps the mission invariant |
| MissionRuns.RunKeepsInv | src/decode/workflows/registry.py:149-269 | the mission invariant holds after every run |
| MissionRuns.NeverUnbound | src/decode/workflows/registry.py:201-219 | in no run does the completed-work check find unbound work |
| MissionRuns.DispatchesConserved | src/decode/workflows/models.py:445-485 | in every run no stage is dispatched twice, only agent stages are, and the budget counts exactly the dispatches and their steps |
| MissionRuns.CompletionIsEarned | src/decode/workflows/registry.py:186-219 | a mission found complete has dispatched every agent stage exactly once and holds a bound success of each |
| MissionRuns.SameShapeSameCycles | src/decode/planner/dag.py:162-166 | marking statuses changes neither the closedness nor the cycles of a plan |
| MissionRuns.ReachableMissionsProgress | src/decode/workflows/registry.py:177-257 | in every run over an acyclic plan an open mission is decided, and never for want of ready work |
| MissionLaws.ConcludeMeans | src/decode/workflows/runner.py:570-604 | concluding a stage makes its node succeed exactly for an accepted success and fail exactly for a reported failure on an unchanged envelope; a reported success never ends as a failure |
| MissionLaws.StepSucceeds | src/decode/workflows/registry.py:177-269 | a step makes a human gate succeed only by its approval once it is open and ready, and an agent stage only by an accepted conclusion |
| MissionLaws.GatesAreApproved | src/decode/workflows/registry.py:230-269 | in every run each human gate that succeeded was approved |
| MissionLaws.StatusIsEarned | src/decode/workflows/registry.py:183-229 | in every run a task marked complete has every node successful, and one marked failed a node that failed |
| MissionLaws.VerdictsAreFinal | src/decode/workflows/registry.py:183-219 | in every run a node that succeeded or failed keeps its verdict, and nothing of the plan but statuses ever changes |
| MissionLaws.StopTakesEffect | src/decode/workflows/runner.py:246-257 | a stop can be recorded at any time, and the next decision is that the mission is stopped |
| MissionLaws.StopIsFinal | src/decode/workflows/registry.py:178-182 | in every run, once a stop is recorded every later decision is `Stopped` and no further stage is dispatched |
| MissionCompletion.PassableIff | src/decode/workflows/models.py:84-112 | a stage can be finished with success exactly when its gate asks for at most 32 actions, the most a record holds although up to 100 may be declared, and a final text can survive redaction |
| MissionCompletion.OpenMissionsCanComplete | src/decode/workflows/registry.py:177-269 | every open reachable mission on an acyclic plan, with gates its stages can pass and a budget for the agent stages left, has a continuation that ends complete |
| MissionCompletion.NewMissionsCanComplete | src/decode/workflows/registry.py:177-269 | in particular a new selected mission has a run that ends complete |
| HandOff.AppendRefs | src/decode/workflows/models.py:806-820 | the inner loop appends a dependency's protected references until eight are held |
| HandOff.PriorEvidence | src/decode/workflows/models.py:790-822 | a stage is bound to the first eight references of its verified dependencies, in order |
| HandOff.RefsFromProtected | src/decode/workflows/models.py:808-820 | references come from protected observations only, and exist whenever there is one |
| HandOff.AllRefsAdd | src/decode/workflows/models.py:790-822 | the references of dependencies are those of the single ones, in their order |
| HandOff.AllRefsMean | src/decode/workflows/models.py:790-806 | a dependency gives those of its stored result exactly where it succeeded and the result is a completion of this very work that passed its gate |
| HandOff.InheritsIff | src/decode/workflows/models.py:790-822 | a verified dependency with protected evidence reaches the bound list exactly when the dependencies listed before it yield fewer than eight references |
| HandOff.StarvedDependency | src/decode/workflows/models.py:790-822 | two verified dependencies with protected evidence of which the second is not heard at all |
| HandOff.DelegatedStageInheritsEvidence | src/decode/workflows/models.py:790-822 | in every run each agent dependency of a delegated stage is verified with protected evidence; it is heard in the bound evidence exactly when those listed before it yield fewer than eight references, and the stage is never bound without any |
| CommandOutputs.StripSudo | src/decode/hostcontrol/policy.py:233-250 | the inner vector starts after sudo, its options and their values |
| CommandOutputs.FlagPrefixFits | src/decode/hostcontrol/policy.py:286-308 | a position bound by a flag lies in the vector and starts with the flag's prefix |
| CommandOutputs.ScanFlags | src/decode/hostcontrol/policy.py:275-308 | the flag loop finds exactly the outputs bound by flags, and the working directory where it is one |
| CommandOutputs.InlineFormsExclusive | src/decode/hostcontrol/policy.py:293-307 | no token is read by two of the inline flag forms |
| CommandOutputs.ReadsAsWritten | src/decode/hostcontrol/policy.py:264-308 | however the options of a tool are written, spaced, attached or alone, the scan finds the outputs where they stand and no others |
| CommandOutputs.EveryVectorIsWritten | src/decode/hostcontrol/policy.py:264-308 | every argument vector can be written so |
| CommandOutputs.InlineMeans | src/decode/hostcontrol/policy.py:275-307 | an argument carries its output exactly behind one of the beginnings its tool reads |
| CommandOutputs.SudoReadsAsWritten | src/decode/hostcontrol/policy.py:205-250 | behind sudo and its options, with their values, the command starts at the first other argument or behind a double dash |
| CommandOutputs.BaseNameMeans | src/decode/hostcontrol/policy.py:238-274 | the name of a command is the last component of its path that is neither empty nor a dot |
| CommandOutputs.PlaceMeans | src/decode/hostcontrol/policy.py:310-321 | which positions are outputs because of where they stand |
| OutputRewriting.ScanPlaces | src/decode/hostcontrol/policy.py:310-321 | the positional outputs are the last positional argument of a copy and every one of a creation |
| OutputRewriting.OutputBindings | src/decode/hostcontrol/policy.py:264-336 | the bindings are exactly the outputs of the vector, each once |
| OutputRewriting.BindingsAsWritten | src/decode/hostcontrol/policy.py:264-336 | the bindings of a command whose arguments are written as such items are the outputs of the items and the outputs by place |
| OutputRewriting.OnePerIndex | src/decode/hostcontrol/policy.py:264-336 | a position carries at most one binding, and it lies behind the command inside the vector, also under sudo |
| OutputRewriting.RewriteOutputs | src/decode/hostcontrol/policy.py:339-357 | the loop over bindings replaces exactly the bound text of each bound position |
| RewriteRoundTrip.UnboundTokensStay | src/decode/hostcontrol/policy.py:339-357 | rewriting keeps the length and every token that carries no replaced output |
| RewriteRoundTrip.CommandKeeps | src/decode/hostcontrol/policy.py:339-357 | rewriting never touches the command, nor what sudo reads before it |
| RewriteRoundTrip.BindingKeeps | src/decode/hostcontrol/policy.py:339-357 | a bound position keeps its prefix and holds the replacement of its text behind it |
| RewriteRoundTrip.RewriteRoundTripIff | src/decode/hostcontrol/policy.py:264-357 | analysing the rewritten vector gives the same positions and prefixes with the replaced paths, exactly unless a copy's destination is displaced |
| RewriteRoundTrip.DisplacementLosesOne | src/decode/hostcontrol/policy.py:310-357 | a displaced destination is an output before and none after |
| RewriteRoundTrip.DisplacementExample | src/decode/hostcontrol/policy.py:310-357 | a copy command on which the round trip fails |
| ModelRouting.RankOrder | src/decode/models/routing.py:146-153 | the ranking key orders models with distinct ids strictly and totally |
| ModelRouting.RankMeans | src/decode/models/routing.py:146-153 | the better score ranks first, then the faster class, the lower price, the smaller id |
| ModelRouting.PassesMeans | src/decode/models/routing.py:115-144 | a model passes the filters exactly when it may serve the request, demand by demand: it can be reached and is allowed, cleared for the data, local, capable and within every limit set |
| ModelRouting.Effective | src/decode/models/routing.py:97-113 | the request is strengthened by exactly the rules that match it, keeping its own capabilities in front |
| ModelRouting.MatchedNamesAdd | src/decode/models/routing.py:97-104 | the rules reported are those that match, in their order |
| ModelRouting.FallbackPool | src/decode/models/routing.py:201-216 | the pool is what the scan and the sort give, or the error of an unknown classification |
| ModelRouting.PoolMeans | src/decode/models/routing.py:201-216 | the pool holds exactly the untried group mates of the same locality that pass the filters, in strict rank order |
| ModelRouting.RankOrderIsUnique | src/decode/models/routing.py:146-153 | two lists in rank order with the same members are one list |
| ModelRouting.PoolTail | src/decode/models/routing.py:201-248 | looking the pool up again from its first model, once tried, gives the rest of the pool |
| ModelRouting.Fallback | src/decode/models/routing.py:218-248 | one fallback moves to the first of the pool, or reports why it does not |
| ModelRouting.NextMeans | src/decode/models/routing.py:218-248 | a fallback selects only where the request allows it, the best untried group mate of the same locality that may serve it, or nothing where there is none |
| ModelRouting.ChainPosition | src/decode/models/routing.py:218-248 | where the chain stands and what it lists after any number of fallbacks |
| ModelRouting.FallbackChain | src/decode/models/routing.py:201-248 | repeated fallbacks visit exactly the pool of the start in ranked order, repeat none, keep group and locality, pass the filters, end within group size minus one steps and stay ended |
| ModelRouting.RoutePinned | src/decode/models/routing.py:155-172 | a pinned request selects the pinned model exactly when it is registered and passes the filters |
| ModelRouting.RouteRanked | src/decode/models/routing.py:174-199 | an unpinned request selects the model that ranks before all others passing the strengthened request, or none exactly when none passes |
| ModelRouting.FallbackDropsRules | src/decode/models/routing.py:174-248 | the pool used by a later fallback contains the pool listed with the decision, keeps a required locality, and equals it exactly when no passing group mate lacks a rule's capability |
| ModelRouting.FallbackDropsRulesExample | src/decode/models/routing.py:69-85 | under the default rules, a planning request whose fallback lacks structured output |
| ModelRouting.SensitiveStaysLocal | src/decode/models/routing.py:69-85 | under the default rules confidential and restricted data goes only to local models cleared for it, by selection and by every fallback |
| ArtifactStore.ArtifactTable.Begin | src/decode/persistence/store.py:752-772 | the read half of an update checks scope, owner, version and content and computes the revision, changing nothing |
| ArtifactStore.ArtifactTable.Commit | src/decode/persistence/store.py:773-794 | the write half replaces the record exactly when its version is still the expected one |
| ArtifactStore.BegunIff | src/decode/persistence/store.py:88-107 | an update can be begun exactly by the owner, at the present version, with known fields, a time zone, a valid confidence and without revealing a secret |
| ArtifactStore.BegunMeans | src/decode/persistence/store.py:88-107 | the revision has what the changes name, of the old content what they do not, and the old version added to its history |
| ArtifactStore.SeesMeans | src/decode/persistence/store.py:14-39 | a valid owner finds exactly its own records |
| ArtifactStore.CommitContinues | src/decode/persistence/store.py:88-107 | a revision is written only over the very versions it continues |
| ArtifactStore.StepKeepsInv | src/decode/persistence/store.py:752-814 | every step of every client keeps the artifact invariant |
| ArtifactStore.RunEvolves | src/decode/persistence/store.py:752-814 | over any interleaving an artifact keeps its identity and earlier versions, gains one version per successful update, and stays sensitive once it is |
| ArtifactStore.NoLostUpdate | src/decode/persistence/store.py:88-107 | the version is one plus the number of successful updates, and the history lists versions 1 to version - 1 in order as committed |
| ArtifactStore.VersionsAreAsked | src/decode/persistence/store.py:752-794 | over any interleaving each artifact was added as its first version says, and each later version differs from the one before exactly as one update asked, begun at that version by its own owner |
| ArtifactStore.RaceHasOneWinner | src/decode/persistence/store.py:773-794 | of the updates begun at one version at most one ever succeeds |
| ArtifactStore.RenderAllOrNothing | src/decode/persistence/store.py:110-121 | an export without sensitive data shows an artifact whole exactly when no version was ever sensitive, and otherwise masks every version |
| ArtifactStore.RenderHidesSecrets | src/decode/persistence/store.py:110-121 | what a sensitive artifact renders to does not depend on any key or value |
| ArtifactStore.RenderKeeps | src/decode/persistence/store.py:110-121 | with sensitive data everything is shown as it is, and without it at least all that is neither key nor value nor sensitivity |
| PlanStore.SaveThenLoad | src/decode/persistence/store.py:818-878 | a save reports exactly the changed fingerprints, touches no other row, and loading gives unchanged nodes their stored status and all others pending; it raises exactly for a missing fingerprint |
| PlanStore.OperationMeans | src/decode/persistence/store.py:818-926 | what each operation does to each field of each row, and that it leaves every other row and plan alone |
| PlanStore.LoadMeans | src/decode/persistence/store.py:862-878 | loading gives the stored plan with the status and summary of each row |
| PlanStore.FenceLeftOnlyBy | src/decode/persistence/store.py:818-926 | a node fenced for review leaves that status exactly by an explicit checkpoint or a changed fingerprint |
| PlanStore.FenceHolds | src/decode/persistence/store.py:818-926 | along every run without such an operation the node stays fenced |
| PlanStore.RecoverFences | src/decode/persistence/store.py:896-910 | recovery leaves nothing running, changes exactly what it reports and is idempotent |
| PlanStore.AttemptsConserved | src/decode/persistence/store.py:818-926 | in every run the attempts of a node are what they were plus the counted checkpoints; no save, recovery or reset forgets one |
| SqlitePlanStore.SqlitePlans.SavePlan | src/decode/persistence/store.py:818-860 | the upsert loop saves as the abstract store does, partial effects before an error included; an unknown session changes nothing |
| SqlitePlanStore.SqlitePlans.LoadPlan | src/decode/persistence/store.py:862-878 | loading overlays the stored plan with its rows |
| SqlitePlanStore.SqlitePlans.CheckpointPlanNode | src/decode/persistence/store.py:880-894 | a checkpoint sets status and summary and counts the attempt when asked |
| SqlitePlanStore.SqlitePlans.RecoverInterruptedPlan | src/decode/persistence/store.py:896-910 | recovery fences the running nodes of the session and reports them |
| SqlitePlanStore.SqlitePlans.ResetRetryableNode | src/decode/persistence/store.py:912-926 | a reset happens exactly for a failed node with attempts left |
| MongoPlanStore.SharedIdIff | src/decode/persistence/mongo_store.py:561-580 | two nodes share a document key exactly when one session id runs on, over a colon, into the other's node id |
| MongoPlanStore.SeparateNeverClash | src/decode/persistence/mongo_store.py:561-580 | nodes of known sessions of which none runs on from another over a colon never share a key, whatever their node ids are |
| MongoPlanStore.ColonFreeSeparate | src/decode/persistence/mongo_store.py:106-126 | session ids free of colons, as created ones are, are always such |
| MongoPlanStore.ClashExample | src/decode/persistence/mongo_store.py:561-580 | two nodes of different sessions that do share one |
| MongoPlanStore.MongoPlans.SavePlan | src/decode/persistence/mongo_store.py:535-588 | without a shared key the insert-or-update loop saves as the abstract store does; with one it raises |
| MongoPlanStore.MongoPlans.LoadPlan | src/decode/persistence/mongo_store.py:590-600 | loading overlays the stored plan with the session's documents |
| MongoPlanStore.MongoPlans.CheckpointPlanNode | src/decode/persistence/mongo_store.py:602-620 | a checkpoint updates the one document under the node's key, which is the node's own unless the key is shared |
| MongoPlanStore.MongoPlans.RecoverInterruptedPlan | src/decode/persistence/mongo_store.py:622-640 | recovery fences the running documents of the session and reports them |
| MongoPlanStore.MongoPlans.ResetRetryableNode | src/decode/persistence/mongo_store.py:642-653 | a reset happens exactly for a failed node with attempts left |
| PlanStoresAgree.RunBoth | src/decode/persistence/mongo_store.py:535-653 | on known sessions of which none runs on from another over a colon, both stores answer every sequence of saves, checkpoints, recoveries, resets and loads alike, as the abstract store does |
| PlanStoresAgree.RunOnSessionsDiffer | src/decode/persistence/mongo_store.py:535-588 | that condition is exact: for a session that runs on from another there are two saves of which Mongo refuses the second and SQLite none |
| Coordinator.ExecutionCoordinator.AskApprover | src/decode/runtime/coordinator.py:586-682 | an approval is accepted exactly when asked in time, given for this material, in force, and the material unchanged |
| Coordinator.ExecutionCoordinator.Clear | src/decode/runtime/coordinator.py:503-712 | authorization is recorded exactly when every entry check, the gate, any approval and the installed check pass; each refusal is answered with its own status and category |
| Coordinator.ExecutionCoordinator.Launch | src/decode/runtime/coordinator.py:719-792 | the operation is launched exactly when the preparation gave no value, nothing changed during it, check and gate allow it again, and the approval has not run out; each refusal is answered with its own status and category |
| Coordinator.ExecutionCoordinator.Conclude | src/decode/runtime/coordinator.py:793-874 | the answer reports what the call gave, as far as its evidence and its telemetry could be kept |
| Coordinator.ExecutionCoordinator.Execute | src/decode/runtime/coordinator.py:487-874 | the operation is awaited exactly when all of that holds, at most once, with every approval, check and authorization it rests on granted and on record before; the answer is what the operation gave or what the request was refused for |
| Coordinator.LaunchesMeans | src/decode/runtime/coordinator.py:487-792 | all that a launch takes of request, environment, approval and preparation, and nothing else |
| Coordinator.ApprovesMeans | src/decode/runtime/coordinator.py:586-682 | an approval is accepted exactly when it could be asked for in time, is a plain yes or a grant for this very material, is in force when received, and the material is unchanged |
| Coordinator.ConsistentMeans | src/decode/runtime/coordinator.py:334-358 | a resolved action is consistent exactly when it is the one the request itself describes |
| ToolLoop.TaskState.RecordObservation | src/decode/schema/task_state.py:265-288 | an observation is numbered on, and its evidence linked to its step |
| ToolLoop.ToolUseLoop.FinalMessage | src/decode/runtime/agent_loop.py:188-266 | a final message is accepted when nothing verifies it or the verifier finds it valid, sent back while replans are left, and given up on after that |
| ToolLoop.ToolUseLoop.CallTool | src/decode/runtime/agent_loop.py:267-299 | the action is recorded and saved before the tool is called, the tool is called only when known and given valid parameters, and its observation or refusal is recorded and saved |
| ToolLoop.ToolUseLoop.Run | src/decode/runtime/agent_loop.py:162-345 | the loop stops for one of five reasons within its budgets, with the state, the saves, the invocations and the steps that reason implies; an accepted final message was found valid |
| ToolLoop.TurnsConserved | src/decode/runtime/agent_loop.py:171-345 | every turn the loop went past called a tool or was a rejected final message |
| ToolLoop.SavesAlignedOrAwaiting | src/decode/runtime/agent_loop.py:162-345 | from an aligned state every save is aligned or awaits exactly one observation |
| ToolLoop.ProgressRecordsCalls | src/decode/schema/task_state.py:255-288 | the state records every tool call in order with what the tool said or the refusal, and nothing else |
| ToolLoop.ObservationsMean | src/decode/runtime/agent_loop.py:285-299 | a call of an unknown tool or with invalid parameters is recorded as a failure without evidence, any other as what the tool said |
| ToolLoop.EvidenceIsLinked | src/decode/schema/task_state.py:265-288 | the evidence of every observation, and of nothing else, is linked to its step |
| ToolLoop.InvokedExactly | src/decode/runtime/agent_loop.py:267-295 | the tool is invoked exactly in the turns that name a known tool with valid parameters, once in each, in order |
| ToolLoop.InvocationsAreRecorded | src/decode/runtime/agent_loop.py:274-295 | before each invocation the state saved last is one that awaits the observation of this very action |
| ToolLoop.AcceptsResume | src/decode/universal_agent.py:282-305 | a saved state is resumed exactly when session, objective and any given conditions are its own, it is investigating, and it is aligned |
| ToolLoop.RunAgent | src/decode/universal_agent.py:282-318 | what a run saves last is unaligned exactly when it was cut off inside a tool, so an action without a recorded outcome is never resumed |
| JsonScanner.IterJsonObjects | src/decode/utils.py:45-70 | the loop yields the texts of the spans, in order |
| JsonScanner.SpansMean | src/decode/utils.py:45-70 | the spans are exactly the maximal stretches at positive depth outside strings, in order and without overlap |
| JsonScanner.YieldedPiece | src/decode/utils.py:45-70 | each piece opens and closes with a brace and is scanned alone as itself |
| JsonScanner.ScanConcatenation | src/decode/utils.py:45-70 | after a text that ends idle, scanning starts afresh |
| JsonScanner.RescanIsStable | src/decode/utils.py:45-70 | scanning the concatenation of what a scan yielded yields the same list |
| JsonScanner.YieldsTopLevelBraces | src/decode/utils.py:45-70 | of any text of plain characters, strings and nested braces the scanner yields exactly its top-level braces, whatever the strings hold |
| PathMapping.MapPath | src/decode/execution/base.py:415-458 | the first of the deepest mappings answers, and a write is refused exactly when that mapping is read-only |
| PathMapping.AnswersAlone | src/decode/execution/base.py:428-442 | the answering mapping is one, and every other matching root is its ancestor or the same directory |
| PathMapping.PosixDecodes | src/decode/execution/base.py:446-452 | stripping a POSIX provider root gives back the relative host path |
| PathMapping.WindowsDecodesIff | src/decode/execution/base.py:446-452 | for a Windows provider it does exactly when no component holds a backslash or a colon in second place |
| PathMapping.SplitRootMeans | src/decode/execution/base.py:446-452 | a component is its drive or share, its root and its rest, and which it has is told by its first characters |
| PathMapping.JoinOneMeans | src/decode/execution/base.py:446-452 | a component with a root starts over, one on another drive starts over there, and any other goes on where the path is |
| PathMapping.MappingKeepsAncestors | src/decode/execution/base.py:446-452 | within one mapping and on decodable paths the mapping is injective and keeps ancestors both ways |
| PathMapping.WindowsCollapses | src/decode/execution/base.py:446-452 | two host paths that become one Windows path, and one that leaves the mapped root |
| DeepMerge.DeepMerge | src/decode/extensions/store.py:17-25 | the loop over the overlay computes the merge |
| DeepMerge.MergeLookup | src/decode/extensions/store.py:17-25 | what a merged document holds at a path: the overlay's word where it has one, the base's where it is silent |
| DeepMerge.MergeIdempotent | src/decode/extensions/store.py:17-25 | a document merged over itself is itself |
| DeepMerge.RemergeStable | src/decode/extensions/store.py:17-25 | merging the same overlay again changes nothing |
| DeepMerge.MergeAbsorbs | src/decode/extensions/store.py:17-25 | an overlay absorbs a document exactly when it covers it |
| DeepMerge.MergeAssociative | src/decode/extensions/store.py:17-25 | the two groupings agree exactly when no path holds object, non-object, object with the last object failing to cover the first |
| DeepMerge.ReadMerged | src/decode/extensions/store.py:45-49 | reading folds the scopes from the lowest precedence |
| DeepMerge.ThreeScopesRegroup | src/decode/extensions/store.py:45-49 | the three scopes may be merged pairwise from the right exactly when they are regroupable |

## Left out

- WordsOfJoin: lower-casing and white space are those of ASCII; other scripts are not modelled.
- MatchingIds: the order in which a set of matching ids is cut to ten is left open, as it is in the repository.
- FirstOf: `ready.sort(...)[0]` is a search for the least element; the sort itself is not modelled.
- RankedInOrder: `list.sort` is a stable insertion, its running time is not modelled.
- RunKeepsInv: of `workflows/runner.py` only the marks its steps leave are modelled; the driver is any sequence of those steps, and the digest of the whole task state that it keeps is not updated here.
- DelegatedStageInheritsEvidence: the fields of a bound stage other than its prior evidence, and the size limits on them, are not modelled.
- RewriteRoundTripIff: replacements are required to be non-empty and not led by a dash, as normalised absolute paths are; they are keyed by the resolved path, and resolving a path (`~`, links, the working directory) is an arbitrary function.
- MapPath: paths are component sequences of a POSIX host, already expanded and free of links; names of the form `\\?\UNC\` and the root of an incomplete share are not singled out.
- RouteRanked: quality and price are reals, so the values a float cannot compare are not modelled; the texts of the reasons are not either.
- RunEvolves: an expiry is a number, times and confidence are not rounded, and an empty scope is not resolved from the owner; the fields of an artifact that never change are kept once, not in each version.
- RunBoth: on a session the session table does not know the two stores differ, as the two SavePlan contracts say, so all sessions are known; sessions are not deleted; a save that raises is compared on the same connection, not after a crash that loses SQLite's open transaction; the order in which recovered ids are listed is left open.
- Run: a checkpoint callback that raises, the messages sent to the model and the limits on their size are not modelled; whether parameters are valid is an input.
- Execute: the text of errors, redaction, durations and the fields of audit events are not modelled; a task cancelled outside the approver, the preparation and the operation is not either. Nothing but the approver and the preparation changes the request, the mode or the check.
- GatePassesMeans: file metadata has three fixed entries and sizes are numbers, not texts of digits; failures are kinds, not texts.
- Finish: redaction and the rendering of the envelope are inputs.
- BoundTo: a stage is bound by the workflow fingerprint kept in the state's environment, while a decision compares with that of the workflow itself; the two are one here, in BoundCompletion and prior evidence too.
- DisplacementLosesOne: replacements are required to be non-empty and not led by a dash, as in RewriteRoundTripIff.
- Decide: a plan is taken to have one node per stage of the workflow, as a plan made from it has and every step keeps; on another plan the repository raises a key error in some states.
- CoreWorkflowPlanner.select, CompletionCriterion.check, CommandPolicy.classify and the YAML, playbook and schema loaders: pure case analysis without a property across functions.
- The read executor's retry loop: only the record a refusal leaves is modelled (RefusalValidIff).
- The command line, the terminal interface, reports, prompts, providers, executors, MCP and HTTP clients, and the vector memory: presentation and foreign calls.
- Regular expressions, SHA-256, JSON text and SQL text: arbitrary functions, injective where a statement says so, or maps.
