# DevPulse core, modelled in Dafny

This project models the core of DevPulse, a developer-intelligence assistant, and proves
properties of that model. DevPulse's chat front end classifies each message into an
intent, routes it to a worker agent of a multi-swarm engine and returns the worker's
answer. The model covers these parts:

- **Swarm engine** (`swarm.dfy`). Workers are grouped into named swarms, and a registry maps worker names to swarm
  names. The engine dispatches tasks to workers, tracks each worker's status and execution log, and provides an
  in-memory message bus and a shared context. The proofs show that swarm and worker names stay unique keys, that a dispatch leaves its worker idle or in error, and that a broadcast sends a worker one message
  for each swarm table it is filed in. Each worker also carries a ghost status log, every status it has been put in, oldest first.
  With it the proofs state what a parallel dispatch does to each worker: busy and a final status for each task it ran,
  in task order, and the status and run id of its last task.
- **Conversation manager** (`conversation.dfy`). Intents are classified in three stages: a drive-path override,
  an ordered keyword table, and a fallback to the external model. Calls to the model are retried with back-off
  and a minimum gap between calls, and each intent is routed to its worker.
- **API server session pool** (`server.dfy`). The pool holds at most fifty conversation managers and evicts the
  earliest-inserted one. The server also decides, for each WebSocket message, which frames to send.
- **Context ingestor** (`context.dfy`). It parses `requirements.txt` and `package.json` into dependency tables
  and tags the project's stack.
- **Critic** (`critic.dfy`). It checks another agent's output and returns a verdict and a recommendation.
- **Recommendation engine** (`recommendations.dfy`). It merges semantic hits with trending signals, removes
  entries whose content prefix repeats an earlier one, ranks by score with a stable sort and keeps the first
  `limit` entries.
- **Model-selection table** (`selector.dfy`).
- **Daily digest** (`daily.dfy`). It sorts the day's signals into categories and renders them as HTML.
- **Repository researcher** (`researcher.dfy`), **project explorer** (`explorer.dfy`) and **paper analyst**
  (`analyst.dfy`). These are the agents the conversation manager routes to.
- **Import scanner and repository-query placeholders** (`code_explorer.dfy`).

The Python behaviour that the core relies on is modelled in helper modules:

- `dicts.dfy`: dictionaries with their insertion order;
- `text.dfy`: string methods, slicing and `{n:,}` formatting;
- `sorting.dfy`: the stable `sorted`;
- `search.dfy`: `re.search` and `re.finditer` as leftmost matching over hand-written matchers;
- `wrappers.dfy`: `Option`.

Every external effect is an input to the model:

- a worker's `execute`;
- the language model;
- HTTP requests;
- the file system;
- the clock.

Each such effect is either a function parameter (an oracle) or a plain value, so every contract holds for
whatever the outside world answers.

Scores are integers in thousandths: the trending score 0.5 is 500. Time is an integer number of
milliseconds.

## Model

| member | source | states |
|---|---|---|
| MultiSwarm.Worker.constructor | app/core/swarm.py:87-91 | a new worker has the given name, capabilities and execution, no run id, and is idle |
| MultiSwarm.FirstCapable | app/core/swarm.py:147-152 | the worker found can handle the task type and belongs to the list; nothing is found exactly when no worker of the list can handle it |
| MultiSwarm.FirstCapableIsFirst | app/core/swarm.py:147-152 | the worker found is the first capable one in insertion order |
| MultiSwarm.FirstCapableAppend | app/core/swarm.py:271-275 | searching two lists one after the other finds the first list's worker if it has one, else the second's |
| MultiSwarm.SwarmParallelAppend | app/core/swarm.py:172-185 | a swarm's parallel dispatch handles each task on its own and keeps the task order |
| MultiSwarm.SwarmParallelSingle | app/core/swarm.py:177-185 | one task yields the named member's settled outcome, or nothing when its `worker_name` is empty, missing or not a member |
| MultiSwarm.Swarm.constructor | app/core/swarm.py:130-133 | a new swarm has its name and description and no worker |
| MultiSwarm.Swarm.AddWorker | app/core/swarm.py:135-137 | the worker is filed under its name, replacing a worker of the same name in place, and names stay unique |
| MultiSwarm.Swarm.GetWorker | app/core/swarm.py:139-141 | a worker is found exactly when its name is filed, and it carries that name |
| MultiSwarm.Swarm.ListWorkers | app/core/swarm.py:143-145 | the worker names in insertion order, one per worker |
| MultiSwarm.Swarm.FindCapableWorker | app/core/swarm.py:147-152 | the loop returns the first capable worker in insertion order (`FirstCapable` of the table's workers) |
| MultiSwarm.Swarm.Dispatch | app/core/swarm.py:154-170 | an unknown name gives the "not found in swarm" error; otherwise the worker gets the run id, turns busy and ends idle with its result, or in error with the exception as an error result |
| MultiSwarm.Swarm.DispatchParallel | app/core/swarm.py:154-185 | the results are the dispatches of the tasks whose `worker_name` is a member, in task order; every worker's status log gains busy and its final status once per task it ran, in task order, and its status and run id are those of its last task (unchanged if it ran none) |
| MultiSwarm.Swarm.DispatchStep | app/core/swarm.py:177-180 | one task: dispatched to its member when its `worker_name` is one, with the result of that dispatch; every other worker is left as it was |
| MultiSwarm.Swarm.StepTarget | app/core/swarm.py:177-180 | the worker one task of `dispatch_parallel` can change is a member of the swarm |
| MultiSwarm.History | app/core/swarm.py:161-170 | running tasks one after another logs two statuses per task: busy, then idle or error by the task's outcome |
| MultiSwarm.TasksOn | app/core/swarm.py:177-185 | the tasks a worker is given are at most all of them, and none exactly when no task targets it |
| MultiSwarm.LastOn | app/core/swarm.py:159-170 | the last task a worker is given targets it and no later task does; none exactly when no task targets it |
| MultiSwarm.OnStep | app/core/swarm.py:177-185 | one more task is appended to its worker's tasks and becomes that worker's last; other workers' tasks are unchanged |
| MultiSwarm.HistorySnoc | app/core/swarm.py:161-170 | one more task adds busy and its final status at the end of the history |
| MultiSwarm.ReachedStep | app/core/swarm.py:159-170 | dispatching the next task keeps every worker's log, status and run id equal to what the tasks so far account for: the target ran it, any other worker is untouched |
| MultiSwarm.SwarmTargets | app/core/swarm.py:177-180 | one target per task, the member its `worker_name` names, if any |
| MultiSwarm.ParallelTargets | app/core/swarm.py:309-313 | one target per task, the worker `dispatch` routes its `worker_name` to, if any |
| MultiSwarm.DispatchAgreesWithLookup | app/core/swarm.py:279-300 | dispatching through the manager runs exactly the worker `get_worker` finds and logs one record naming worker, swarm and task type; when nothing is found the result has status "error" |
| MultiSwarm.ParallelResultsAppend | app/core/swarm.py:302-325 | the manager's parallel dispatch handles each task on its own and keeps the task order |
| MultiSwarm.ParallelLogAppend | app/core/swarm.py:292-313 | the execution log of a parallel dispatch is the logs of its tasks, in task order |
| MultiSwarm.ParallelPrefix | app/core/swarm.py:309-313 | dispatching one more task adds that task's result and log records after the earlier ones |
| MultiSwarm.FanOutTasks | app/core/swarm.py:332 | one copy of the task per name, in order, with `worker_name` set to that name |
| MultiSwarm.FanOutKeepsFields | app/core/swarm.py:332 | each copy names its worker and keeps every other field of the task |
| MultiSwarm.ParallelAllNamed | app/core/swarm.py:309-325 | when every task names a worker there is one result per task, the i-th being the dispatch of the i-th task |
| MultiSwarm.FanOutReachesEach | app/core/swarm.py:327-333 | fanning out to non-empty names gives one result per name, each the dispatch of that name's copy |
| MultiSwarm.AddressedTo | app/core/swarm.py:341-343 | a message is kept exactly when it is on the bus and addressed to the recipient |
| MultiSwarm.AddressedToAppend | app/core/swarm.py:337-343 | reading a recipient's messages after more are sent gives the old ones first, then the new ones |
| MultiSwarm.BroadcastMessages | app/core/swarm.py:349-355 | one broadcast message per name, in order, each from the sender with the content and metadata |
| MultiSwarm.BroadcastMessagesAppend | app/core/swarm.py:347-356 | broadcasting to two name lists is broadcasting to the first, then the second |
| MultiSwarm.FirstCapableStep | app/core/swarm.py:271-275 | searching from swarm `i` on finds swarm `i`'s capable worker, else searches the swarms after it |
| MultiSwarm.AllWorkersAppend | app/core/swarm.py:271 | the workers of two rosters in a row are the first roster's, then the second's |
| MultiSwarm.AllWorkerNamesAppend | app/core/swarm.py:347-348 | the worker names of two rosters in a row are the first roster's, then the second's |
| MultiSwarm.AllWorkerNamesPrefix | app/core/swarm.py:347-348 | one more swarm adds its worker names after those of the swarms before it |
| MultiSwarm.BroadcastStep | app/core/swarm.py:348-356 | broadcasting to one more name appends exactly that name's message to the bus |
| MultiSwarm.BroadcastCount | app/core/swarm.py:341-356 | after a broadcast a worker name has as many new messages as it occurs among the swarms' worker names |
| MultiSwarm.RegisterThenLookup | app/core/swarm.py:248-267 | after `register_worker` into a non-empty swarm name, `get_worker` finds that very worker |
| MultiSwarm.ReRegisterKeepsStaleEntry | app/core/swarm.py:248-257 | registering a worker into a second swarm moves the registry entry but leaves it in the first swarm's table, so a broadcast reaches it twice |
| MultiSwarm.DuplicateBroadcast | app/core/swarm.py:345-356 | a worker filed in two swarms gets two copies of a broadcast |
| MultiSwarm.FileInRoster | app/core/swarm.py:253-256 | filing a worker in an existing swarm's table, or in a newly appended empty one, is a `Put` on the roster |
| MultiSwarm.SwarmManager.constructor | app/core/swarm.py:220-225 | a new manager has no swarm, registry entry, message, context entry or log record |
| MultiSwarm.SwarmManager.TablesLookup | app/core/swarm.py:235-237 | looking a swarm name up among the tables finds the table of the swarm filed under it |
| MultiSwarm.SwarmManager.CreateSwarm | app/core/swarm.py:229-233 | a fresh empty swarm with the name and description is filed under its name, replacing any swarm already there |
| MultiSwarm.SwarmManager.GetSwarm | app/core/swarm.py:235-237 | a swarm is found exactly when its name is filed, and it carries that name |
| MultiSwarm.SwarmManager.ListSwarms | app/core/swarm.py:239-244 | every swarm name, in order, with its worker names in order |
| MultiSwarm.SwarmManager.SwarmFor | app/core/swarm.py:253-256 | an existing swarm is reused unchanged; a missing one is created last, empty, with the "Auto-created swarm for" description |
| MultiSwarm.SwarmManager.AddToSwarm | app/core/swarm.py:253-256 | the swarm's table gets the worker filed under its name, every other table is unchanged, and a missing swarm is created first |
| MultiSwarm.SwarmManager.RegisterWorker | app/core/swarm.py:248-257 | the worker is filed in its swarm (created when missing) and the registry points its name at that swarm; nothing else changes |
| MultiSwarm.SwarmManager.GetWorker | app/core/swarm.py:259-267 | the worker the registry points at, looked up in the table of the swarm it names; none for an unregistered name, an empty swarm name or a missing swarm |
| MultiSwarm.SwarmManager.FindWorkerForTask | app/core/swarm.py:269-275 | the loop returns the first capable worker of all swarms, swarm by swarm in insertion order |
| MultiSwarm.SwarmManager.TargetWithin | app/core/swarm.py:259-267 | the worker `get_worker` finds belongs to one of the swarms |
| MultiSwarm.SwarmManager.DispatchRouted | app/core/swarm.py:292-300 | one record naming worker, swarm and task type is logged, then the swarm's dispatch runs; the tables stay as they were |
| MultiSwarm.SwarmManager.DispatchFiled | app/core/swarm.py:292-300 | dispatching to the swarm filed under the name keeps the engine's invariant and its tables, logs one record and runs the swarm's dispatch |
| MultiSwarm.SwarmManager.Dispatch | app/core/swarm.py:279-300 | an unregistered name or missing swarm gives its error result and logs nothing; otherwise one record is logged and the found worker runs |
| MultiSwarm.SwarmManager.DispatchStep | app/core/swarm.py:310-313 | a task with a truthy `worker_name` is dispatched, any other task is skipped; only its target worker's status log, status and run id change, and the tables stay as they were |
| MultiSwarm.SwarmManager.DispatchParallel | app/core/swarm.py:302-325 | the results and the new log records are those of dispatching each task that names a worker, in task order; every worker's status log gains busy and its final status per task routed to it, in task order, and its status and run id are those of its last such task (unchanged if none) |
| MultiSwarm.SwarmManager.FanOut | app/core/swarm.py:327-333 | the parallel dispatch of one copy of the task per worker name, with the same per-worker log, status and run id as that dispatch |
| MultiSwarm.SwarmManager.SendMessage | app/core/swarm.py:337-339 | the message is appended to the bus; it shows up last among its recipient's messages and no other recipient's messages change |
| MultiSwarm.SwarmManager.GetMessages | app/core/swarm.py:341-343 | exactly the bus messages addressed to the recipient |
| MultiSwarm.SwarmManager.SendToEach | app/core/swarm.py:348-356 | one broadcast message per name is appended, in order |
| MultiSwarm.SwarmManager.Broadcast | app/core/swarm.py:345-356 | one broadcast message per worker name of every swarm is appended, swarm by swarm in insertion order |
| MultiSwarm.SwarmManager.SetContext | app/core/swarm.py:360-362 | the key now reads back as the value and every other key reads as before |
| MultiSwarm.SwarmManager.GetContext | app/core/swarm.py:364-366 | none exactly when the key was never set; otherwise the value stored under it |
| MultiSwarm.SwarmManager.Status | app/core/swarm.py:370-383 | every swarm with its worker names and their count, the number of registered names, the bus length and the number of logged dispatches |
| MultiSwarm.Worker.CanHandle | app/core/swarm.py:98-100 | a worker without capabilities handles no task type |
| MultiSwarm.CanHandleIndex | app/core/swarm.py:98-100 | a worker handles a task type exactly when some position of its capabilities holds that type |
| Conversation.FirstKeywordIntentSpec | app/core/conversation.py:141-145 | the keyword stage decides nothing exactly when no intent has a keyword in the lowered message, and otherwise decides the first intent, in table order, that has one |
| Conversation.Pow2 | app/core/conversation.py:118 | `2 ** attempt` is at least 1 |
| Conversation.RetryFrom | app/core/conversation.py:108-122 | the retry loop makes between one and three calls and sleeps once after every call but the last |
| Conversation.RetrySpec | app/core/conversation.py:108-122 | the k-th back-off is `BASE_DELAY * 2^k`; every call before the last failed on a rate limit; the result is the last call's text, or its error when that error is not a rate limit or the attempts are used up |
| Conversation.Backoffs | app/core/conversation.py:118 | one back-off delay per rate-limited attempt |
| Conversation.RetrySkip | app/core/conversation.py:108-122 | after `a` rate-limited calls the loop goes on as if it started at attempt `a`, having slept the first `a` back-offs |
| Conversation.BackoffSteps | app/core/conversation.py:101-120 | the back-off sleeps are a prefix of 3 s, 6 s: the 12 s step the comment names is never reached |
| Conversation.OtherErrorRaisesAtOnce | app/core/conversation.py:113-122 | an error that is not a rate limit is raised after one call and no back-off |
| Conversation.RateLimitedThrice | app/core/conversation.py:108-122 | three rate limits in a row raise the third error after three calls and sleeps of 3 s and 6 s |
| Conversation.GapSleep | app/core/conversation.py:103-106 | a sleep happens exactly when less than 1.5 s have passed since the last call, and it lasts exactly the rest of the 1.5 s |
| Conversation.Detect | app/core/conversation.py:124-174 | a path or keyword decision is taken without calling the model; otherwise the model is called one to three times |
| Conversation.LocalPathOverridesRepoKeyword | app/core/conversation.py:132-139 | a drive path wins over the keyword table: "Repo at D:/x" is a project-context message although "repo" alone would make it a repository analysis |
| Conversation.DrivePathExample | app/core/conversation.py:136-137 | the lowered "repo at d:/x" holds a drive path and neither "github.com" nor "https://" |
| Conversation.PlainHttpLooksLikeDrivePath | app/core/conversation.py:136-139 | "http://" contains "p:/", so any message with a plain-HTTP link and no "github.com" or "https://" is classified as project context |
| Conversation.MyRepoIsRepoAnalysis | app/core/conversation.py:142-145 | the keyword table is tried in order, so "my repo" is a repository analysis although "my repo" is a project-context keyword |
| Conversation.DetectFallback | app/core/conversation.py:160-174 | with no local decision, the model's first reply decides the intent, and an error that is not a rate limit gives `GENERAL_QA` after one call |
| Conversation.GeneralAnswerCases | app/core/conversation.py:212-225 | a general question is answered with the reply's text, with an apology quoting an error that is not a rate limit, or after three rate limits with the fixed rate-limit message |
| Conversation.InjectContext | app/core/conversation.py:176-183 | the context has the four keys in order, each with its value, and its task type is the intent's value |
| Conversation.WiredUnique | app/core/conversation.py:86-93 | the constructor's registry and swarm tables file no name twice |
| Conversation.WiredRouting | app/core/conversation.py:199-210 | each routed intent reaches its own worker, whose execution decides the result, and one dispatch record naming worker and swarm is logged |
| Conversation.RoutedAt | app/core/swarm.py:259-267 | a name registered for a swarm whose table holds only that worker is routed to that swarm and finds that worker |
| Conversation.RegisterInto | app/core/swarm.py:253-256 | registering into the swarm filed at position `k` changes that swarm's table alone |
| Conversation.NewSwarms | app/core/conversation.py:83-88 | a fresh engine with the three swarms "research", "analysis" and "local", in that order and empty, and nothing registered, sent or run |
| Conversation.CreateThree | app/core/conversation.py:86-88 | three `create_swarm` calls under distinct names leave three empty tables in call order |
| Conversation.CreateNew | app/core/swarm.py:229-233 | creating a swarm under a new name files a fresh empty swarm last |
| Conversation.RegisterAt | app/core/swarm.py:248-257 | registering into an existing swarm points the worker's name at it and changes that swarm's table alone |
| Conversation.WiredRegistryBuilt | app/core/conversation.py:91-93 | the three registrations give the registry RepoResearcher → research, PaperAnalyst → analysis, ProjectExplorer → local |
| Conversation.WiredTablesBuilt | app/core/conversation.py:91-93 | the three registrations leave each worker alone in its own swarm |
| Conversation.RegisterWired | app/core/conversation.py:91-93 | registering the three workers into the three empty swarms gives the wired registry and tables |
| Conversation.Wire | app/core/conversation.py:83-93 | the constructor's engine: three swarms with one worker each (the explorer with its three capabilities), nothing sent or run |
| Conversation.ResolveApiKey | app/core/conversation.py:76-78 | the given key wins when non-empty, else the environment's; there is no key (the `ValueError`) exactly when both are empty or missing |
| Conversation.ConversationManager.constructor | app/core/conversation.py:74-96 | a usable key gives the wired engine, the conversation id, no sent message or logged run, and `_last_api_call` 0 |
| Conversation.ConversationManager.Sleep | app/core/conversation.py:106 | the clock advances by the sleep, which is recorded |
| Conversation.ConversationManager.WaitForGap | app/core/conversation.py:103-106 | the sleep recorded is `GapSleep` of the time since the last call, and afterwards at least 1.5 s have passed since it |
| Conversation.ConversationManager.CallWithRetry | app/core/conversation.py:98-122 | the result, the calls and the sleeps are those of `RetryFrom` on the model's replies to the next three calls, the gap sleep coming first; `_last_api_call` ends at the current time |
| Conversation.ConversationManager.Attempts | app/core/conversation.py:108-122 | the loop's result, calls and back-off sleeps are `RetryFrom`'s on the replies to the next three calls, and `_last_api_call` is the time of the last call |
| Conversation.ConversationManager.DetectIntent | app/core/conversation.py:124-174 | the intent and the number of model calls are `Detect`'s; a local decision leaves the clock, the calls, the sleeps and `_last_api_call` alone, and otherwise one call with retry on the classification prompt is made |
| Conversation.ConversationManager.AnswerByWorker | app/core/conversation.py:196-210 | the injected context is dispatched to the intent's worker, which alone runs it; the answer is the result's summary or the intent's default, the dispatch is logged, and the clock, calls and sleeps are as detection left them |
| Conversation.ConversationManager.AnswerByModel | app/core/conversation.py:212-225 | the answer is `GeneralAnswer` of the model's replies to the message, asked right after classification; no worker runs and nothing is logged |
| Conversation.ConversationManager.AskModel | app/core/conversation.py:213-214 | a question asked right after a call sleeps only its own back-offs, and its result and calls are `RetryFrom`'s on the replies to it |
| Conversation.ConversationManager.Respond | app/core/conversation.py:196-225 | a routed intent is answered by its worker with the dispatch logged and no model call; a general question is answered by the model with nothing logged and no worker run |
| Conversation.ConversationManager.ProcessMessage | app/core/conversation.py:185-225 | the intent is `detect_intent`'s; the answer and the log are `Response` for it; the calls and sleeps are classification's followed by the direct question's for a general question; only the intent's worker runs, and every other worker is left as it was |
| Conversation.RouteTarget | app/core/conversation.py:199-212 | a general question runs no worker; a routed intent runs the worker `get_worker` finds for its route's name |
| Conversation.RepliesOf | app/core/conversation.py:108-111 | the model's replies to three consecutive calls with the prompt |
| Conversation.NewConversationManager | app/core/conversation.py:74-78 | no manager exactly when no key resolves; otherwise a fresh, wired manager with the resolved key and the conversation id |
| Conversation.LocalIntent | app/core/conversation.py:124-145 | a local drive path outside a URL always means a project question, and the steps before the model call never settle on a general question |
| Conversation.GeneralAnswer | app/core/conversation.py:98-122 | a general answer is one of the model's replies, the rate-limit notice, or the error prefix followed by an error that is not a rate limit |
| Server.InsertCapped | app/api/server.py:82-87 | filing a manager keeps the pool within 50 entries with one entry per id and the new entry findable; under capacity nothing else changes, over it exactly the first key goes |
| Server.EvictsEarliestInserted | app/api/server.py:85-87 | a full pool given a new id loses its earliest-inserted id and keeps every other entry |
| Server.DropsFirst | app/api/server.py:86-87 | after the eviction the earliest id is absent |
| Server.KeepsRest | app/api/server.py:86-87 | after the eviction every later entry is still found with its manager |
| Server.FiledGet | app/api/server.py:76-77 | a manager fetched by id carries that id |
| Server.FiledPut | app/api/server.py:82 | filing a manager under its own id keeps every manager filed under its own id |
| Server.FiledInsert | app/api/server.py:82-87 | filing and then evicting keeps every manager filed under its own id |
| Server.PoolInsert | app/api/server.py:82-87 | the pool's invariant (capacity, unique ids, each manager under its own id) survives an insertion, and the new manager is found |
| Server.ManagerPool.constructor | app/api/server.py:72 | the pool starts empty and valid |
| Server.ManagerPool.GetManager | app/api/server.py:74-89 | a truthy pooled id returns its manager and changes nothing; otherwise a fresh manager under the given id (or a new uuid when the id is falsy) is filed and the pool capped, or, with no API key, the constructor's error leaves the pool alone |
| Server.ChatConnection.constructor | app/api/server.py:133-134 | a connection starts with no manager held |
| Server.ChatConnection.Receive | app/api/server.py:138-163 | an empty message gets the "Empty message" error frame and changes nothing; otherwise the manager is re-fetched only when none is held or another truthy id arrives, then typing and response frames under the held manager's id follow; a failing `get_manager` ends the loop with nothing sent |
| Context.FirstOperator | app/core/context.py:53 | the position of the first operator of `==`, `>=`, `<=`, `>`, `<` at or after `i`, or the end when there is none |
| Context.ParseLineCases | app/core/context.py:47-57 | a stripped line is skipped exactly when it is empty or a comment; a line with no operator is its own name at "latest"; otherwise the name has no `<` or `>` and the version starts with the operator |
| Context.ParsePinned | app/core/context.py:53-55 | a plain name, an operator and a blank-free version give that name with the operator and version joined |
| Context.PinTrimmed | app/core/context.py:55 | an operator followed by a blank-free version is left alone by `strip` |
| Context.PinOperator | app/core/context.py:53 | in a plain name followed by an operator, the first operator is right after the name |
| Context.FirstOperatorSkips | app/core/context.py:53 | the split happens at the first operator whatever precedes it |
| Context.Entries | app/core/context.py:46-57 | one parse result per line, each that line's |
| Context.Collect | app/core/context.py:43-57 | the dictionary the entries fill holds each name once |
| Context.Requirements | app/core/context.py:42-60 | the table read from the lines holds each name once |
| Context.ParseRequirements | app/core/context.py:42-60 | the loop over the lines builds exactly `Requirements` of them |
| Context.DecidesBeforeLast | app/core/context.py:55-57 | an earlier line decides a package's version exactly when it decides it among the others and the last line is not for that package |
| Context.CollectLast | app/core/context.py:55-57 | the last line sets the version of the package it names; every other package keeps the version the earlier lines gave it |
| Context.LastDeclares | app/core/context.py:55-57 | when the last line names a package, that line's version is the only one that decides it |
| Context.LastSilent | app/core/context.py:55-57 | when the last line does not name a package, the earlier lines alone decide its version |
| Context.LastEntryWins | app/core/context.py:43-57 | a package has a version in the table exactly when some line gives it that version and no later line names it |
| Context.LastLineWins | app/core/context.py:42-60 | the same for the table read from the file's lines: the last line naming a package wins |
| Context.DevDependenciesWin | app/core/context.py:62-73 | the merged table holds each name once; a `devDependencies` entry wins over a `dependencies` entry of the same name, and every other name keeps its runtime version |
| Context.IngestDirectory | app/core/context.py:11-40 | one item per config file present, the requirements item first; each item's dependencies are its file's table and its tags are the language tags followed by the dependency names |
| Context.RequirementTagsDistinct | app/core/context.py:24 | the tags after "python" name every dependency exactly once |
| Context.BareName | app/core/context.py:56-57 | a stripped, uncommented line without an operator is its own name at "latest" |
| Context.PinExample | app/core/context.py:53-55 | "flask==2.0.1" gives flask at "==2.0.1" |
| Context.BareExamples | app/core/context.py:56-57 | "numpy" is at "latest", and so is "pkg!=1", since `!=` is not an operator the split knows |
| Context.CommentExample | app/core/context.py:48-49 | a comment line gives no entry |
| Critic.Missing | app/agents/critic.py:80 | the missing fields are at most the required ones |
| Critic.MissingSpec | app/agents/critic.py:80 | a field is missing exactly when it is required and not a key of the output |
| Critic.CompletenessPasses | app/agents/critic.py:77-87 | the completeness check passes exactly when every required field is a key of the output |
| Critic.CheckCompleteness | app/agents/critic.py:77-87 | a medium check named "completeness" that passes exactly when nothing is missing, and whose failure message is "Missing fields: " followed by `repr` of the list of missing fields |
| Critic.Repr | app/agents/critic.py:86 | `repr` of a string opens and closes with the same quote, a double quote exactly when the string holds an apostrophe and no double quote, and escapes each character in between |
| Critic.UnescapeOne | app/agents/critic.py:86 | reading back one escaped character gives that character, whatever follows it |
| Critic.UnescapeEscapeAll | app/agents/critic.py:86 | reading back the escaped text gives the string again |
| Critic.ReprRoundTrip | app/agents/critic.py:86 | the text between the quotes of `repr(s)` reads back as s, so no two strings print alike |
| Critic.EscapeQuote | app/agents/critic.py:86 | an escaped character never starts with the quote, and holds it only right after a backslash |
| Critic.QuoteEscaped | app/agents/critic.py:86 | in the escaped text every occurrence of the quote is preceded by a backslash, so the quotes of `repr` are not closed early |
| Critic.PlainEscapeAll | app/agents/critic.py:86 | a string of printable characters that are neither the quote nor a backslash is written unchanged |
| Critic.PlainRepr | app/agents/critic.py:86 | such a string with no apostrophe is written between apostrophes, unchanged |
| Critic.ApostropheRepr | app/agents/critic.py:86 | a string holding an apostrophe and no double quote or other escaped character is written between double quotes, unchanged |
| Critic.EscapesRepr | app/agents/critic.py:86 | a backslash and a line break are written as two-character escapes |
| Critic.ApostropheMissing | app/agents/critic.py:80-86 | a missing field such as "it's" is listed between double quotes in the failure message |
| Critic.Failed | app/agents/critic.py:41-44 | the issues are at most the checks run |
| Critic.CriticalIssues | app/agents/critic.py:47 | the critical issues are at most the issues |
| Critic.NoCriticalIssue | app/agents/critic.py:47-50 | there is no critical issue exactly when no issue has severity critical |
| Critic.Execute | app/agents/critic.py:25-64 | missing or empty output gives the "output is required" error; otherwise the verdict lists the failed checks in order, is approved exactly when none of them is critical, and carries `Recommendation` of them |
| Critic.CollectFailed | app/agents/critic.py:38-44 | the loop collects exactly the checks that did not pass, in order |
| Critic.AlwaysApproved | app/agents/critic.py:66-97 | the hallucination and security checks always pass, so the only possible issue is the completeness check and every verdict is approved |
| Critic.OnlyMiddleFails | app/agents/critic.py:41-44 | when the first and last of three checks pass, the issues are the middle check alone if it failed, and none otherwise |
| Critic.Recommendation | app/agents/critic.py:99-108 | no issues approve; a critical issue rejects, quoting `repr` of the list of the critical messages; otherwise a warning counts the issues |
| Critic.MissingFieldWarns | app/agents/critic.py:77-108 | a missing required field gives the warning for one non-critical issue |
| Critic.CheckHallucination | app/agents/critic.py:66-75 | the placeholder hallucination check always passes, at critical severity |
| Critic.CheckSecurity | app/agents/critic.py:89-97 | the placeholder security check always passes, at critical severity |
| Recommendations.UserQueries | app/core/recommendations.py:49-52 | the user queries are at most the history's messages |
| Recommendations.SemanticRecs | app/core/recommendations.py:67-76 | at most `limit` entries, each semantic with at most 200 characters of content |
| Recommendations.TrendingAppends | app/core/recommendations.py:81-99 | the trending loop keeps the entries collected before it, adds at most one entry per signal, and every added entry is trending with score 0.5 |
| Recommendations.SkippedAddsNothing | app/core/recommendations.py:88-90 | a signal whose title's first thirty characters occur in an entry already collected adds nothing |
| Recommendations.Dedupe | app/core/recommendations.py:104-110 | de-duplication never adds entries |
| Recommendations.SeenKeysSnoc | app/core/recommendations.py:107-109 | appending an entry adds its key to the seen set |
| Recommendations.DedupeKeys | app/core/recommendations.py:104-110 | the kept entries have every key the collected entries had, and no key twice |
| Recommendations.DedupeKeepsFirst | app/core/recommendations.py:104-110 | every kept entry is the first collected entry with its key |
| Recommendations.HigherScoreWeakOrder | app/core/recommendations.py:112 | ranking by higher score is a strict weak order |
| Recommendations.PeersWithScore | app/core/recommendations.py:112 | the entries the sort ranks level with an entry are those with its score |
| Recommendations.SortByScore | app/core/recommendations.py:112 | the ranking is in non-increasing score order and is a permutation of the entries |
| Recommendations.SortStable | app/core/recommendations.py:112 | entries of equal score keep their order, as Python's stable reverse sort keeps them |
| Recommendations.CountTwice | app/core/recommendations.py:104-112 | an entry at two positions occurs at least twice |
| Recommendations.CountOnce | app/core/recommendations.py:104-112 | with distinct keys, every entry occurs once |
| Recommendations.RankedUnique | app/core/recommendations.py:104-112 | sorting keeps the keys distinct |
| Recommendations.Ranked | app/core/recommendations.py:103-113 | the returned prefix of the ranking is sorted by score with distinct keys |
| Recommendations.GetRecommendations | app/core/recommendations.py:32-113 | the result is the ranked de-duplicated collection cut at `limit` (Python slicing, so a negative limit drops from the end): at most `limit` entries, by non-increasing score, no two with the same first fifty characters |
| Recommendations.CollectAll | app/core/recommendations.py:42-101 | the semantic entries for the latest user query (only with a truthy id, a history, the index and the hits), then the trending signals |
| Recommendations.CollectSemantic | app/core/recommendations.py:67-76 | the loop builds exactly `SemanticRecs` of the hits |
| Recommendations.CollectTrending | app/core/recommendations.py:83-99 | the loop builds exactly `AddTrending` of the signals |
| Recommendations.Deduplicate | app/core/recommendations.py:104-110 | the loop over `seen` and `unique` builds exactly `Dedupe` of the entries |
| Recommendations.TrendingRec | app/core/recommendations.py:84-99 | a trending entry has score 0.5, a link, the signal's source (or "unknown") in its reason, and as content the title or else at most 200 characters of the payload text |
| Sorting.SortSorted | app/core/recommendations.py:112 | insertion sort under a strict weak order returns a sorted sequence |
| Sorting.SortPermutation | app/core/recommendations.py:112 | the sort returns a permutation of its input |
| Sorting.SortStable | app/core/recommendations.py:112 | the sort keeps the relative order of elements it ranks level |
| Sorting.InsertSorted | app/core/recommendations.py:112 | inserting into a sorted sequence keeps it sorted |
| Sorting.InsertMultiset | app/core/recommendations.py:112 | inserting adds exactly the element |
| Sorting.InsertStable | app/core/recommendations.py:112 | inserting places the element after its level peers |
| Selector.ModelForTask | app/inference/selector.py:8-17 | each of the four task types gets its model, every other task type the Llama default, and every answer is a model of the table |
| DailyReport.CategoryOf | app/reports/daily.py:59-70 | github, medium, huggingface, arxiv and twitter signals go to New Repos, Blogs, Updates, Insights and New Topics, every other source to Summary, and no signal to New Trends |
| DailyReport.MapIntelligence | app/reports/daily.py:34-42 | every signal id maps to its intelligence rows in order, and the trends are the outputs of the `trend_detection` rows in order |
| DailyReport.FirstOutputSpec | app/reports/daily.py:53-55 | `next` finds nothing exactly when no row is by the agent, and otherwise reads the key from the first row by the agent |
| DailyReport.MakeItem | app/reports/daily.py:50-56 | without a row by the agent an item shows "No summary.", relevance 0 or risk "UNKNOWN"; a payload without title or url shows "Untitled" or "#" |
| DailyReport.EverySignalFiledOnce | app/reports/daily.py:44-70 | every signal is filed in exactly one category, never under New Trends |
| DailyReport.AllCategoriesComplete | app/reports/daily.py:23-31 | a map with the seven category keys holds every category |
| DailyReport.Categorize | app/reports/daily.py:23-70 | all seven categories exist; New Trends holds the trend outputs and every other category the items of its signals, in signal order |
| DailyReport.OrderRanks | app/reports/daily.py:143 | the section order lists each of the seven categories once |
| DailyReport.ShownMembers | app/reports/daily.py:145-147 | a listed category gets a section exactly when it has entries |
| DailyReport.ShownOrdered | app/reports/daily.py:145-147 | the sections keep the order of the list they are drawn from |
| DailyReport.SectionsInOrder | app/reports/daily.py:143-147 | the report shows exactly the non-empty categories, in the fixed order |
| DailyReport.RiskBadgeOnlyHigh | app/reports/daily.py:165 | an item gets a risk badge exactly when its risk is "HIGH", and the badge says "RISK: HIGH" |
| DailyReport.TrendDefaults | app/reports/daily.py:157-162 | a trend without a name or growth rate shows "Unknown" or "Stable" |
| DailyReport.SectionsSkipEmpty | app/reports/daily.py:145-176 | rendering a category list skips the empty categories and renders the others as sections, in order |
| DailyReport.RenderTrends | app/reports/daily.py:156-162 | the loop renders every trend, in order |
| DailyReport.RenderItems | app/reports/daily.py:164-175 | the loop renders every item, in order |
| DailyReport.RenderSection | app/reports/daily.py:149-176 | one section: header with icon, name and count, then its trends or items, then the closing tag |
| DailyReport.RenderPart | app/reports/daily.py:145-176 | an empty category renders nothing, any other its section |
| DailyReport.RenderSections | app/reports/daily.py:145-176 | the loop over the order renders exactly the non-empty categories' sections |
| DailyReport.RenderHtml | app/reports/daily.py:75-179 | the page is the head, the sections of the non-empty categories in order, and the footer |
| DailyReport.GenerateHtmlReport | app/reports/daily.py:6-73 | the categories are `Categorize`'s and the page shows their non-empty sections in order between head and footer |
| Researcher.PairAtNames | app/agents/researcher.py:158 | a `x/y` match at a position captures two non-empty runs of word characters, dots and dashes |
| Researcher.CapturedNames | app/agents/researcher.py:152-161 | whichever pattern matches first, the owner and repository captured are non-empty runs of name characters |
| Researcher.ExtractEmptyIff | app/agents/researcher.py:152-161 | the extracted URL is empty exactly when no position of the message starts a `x/y` match |
| Researcher.CapturedNoneIff | app/agents/researcher.py:152-161 | nothing is captured exactly when no position starts a `x/y` match: a `github.com/` match always implies one |
| Researcher.GithubPreferred | app/agents/researcher.py:154-156 | the first `github.com/owner/repo` match decides the URL, whatever `x/y` token comes earlier |
| Researcher.ParseNoneIff | app/agents/researcher.py:163-168 | parsing fails exactly when the URL without its trailing slashes has no '/' |
| Researcher.ParseLastTwo | app/agents/researcher.py:163-168 | the owner and repository are the last two '/'-separated segments |
| Researcher.NamesHaveNoSlash | app/agents/researcher.py:158 | a run of name characters holds no '/' |
| Researcher.UrlParses | app/agents/researcher.py:156-167 | the URL built for an owner and repository parses back to them |
| Researcher.ExtractThenParse | app/agents/researcher.py:41-50 | parsing the extracted URL gives back exactly what the message named |
| Researcher.MoreBytesWeakOrder | app/agents/researcher.py:198 | ranking languages by byte count is a strict weak order |
| Researcher.LanguageRowsSpec | app/agents/researcher.py:198 | the languages listed are at most eight, by non-increasing byte count, drawn from the languages |
| Researcher.LeftOutNoLarger | app/agents/researcher.py:198 | no language left out of the list has more bytes than one listed |
| Researcher.LanguageTiesStable | app/agents/researcher.py:198 | languages with equal byte counts keep the API's order |
| Researcher.Quoted | app/agents/researcher.py:207 | one back-quoted topic per topic |
| Researcher.Headline | app/agents/researcher.py:214 | a commit's headline is the message's first line cut at 80 characters |
| Researcher.TotalZero | app/agents/researcher.py:196 | the byte counts sum to 0 exactly when every language has 0 bytes |
| Researcher.WriteLanguages | app/agents/researcher.py:198-201 | the loop writes one line per listed language, in order, and raises exactly when some language is listed and the total is 0 |
| Researcher.WriteCommits | app/agents/researcher.py:212-217 | the loop writes one line per commit among the first five, in order |
| Researcher.WriteLanguagesSection | app/agents/researcher.py:195-202 | no languages write nothing; otherwise the header, the lines and a blank line, unless the byte counts sum to 0, which raises |
| Researcher.WriteCommitsSection | app/agents/researcher.py:210-218 | no commits write nothing; otherwise the header, the lines and a blank line |
| Researcher.GenerateSummary | app/agents/researcher.py:170-225 | it raises exactly when languages are listed whose byte counts sum to 0; otherwise the summary is the header, the stats table and the languages, topics, commits and README sections in that order |
| Researcher.ZeroBytesFail | app/agents/researcher.py:95-150 | a status-200 answer whose languages all have 0 bytes gives the "Failed to analyze owner/repo: division by zero" error |
| Researcher.SomeBytesSummarised | app/agents/researcher.py:95-145 | a status-200 answer with some language of non-zero size gives the summary as a success |
| Researcher.NoRepoGuidance | app/agents/researcher.py:37-48 | with no `repo_url` and no `x/y` token in the message, the result is the guidance error and no request is made |
| Researcher.NoSlashInvalid | app/agents/researcher.py:50-52 | a `repo_url` without '/' is an invalid-format error, before any request |
| Researcher.ParseEmptyOwner | app/agents/researcher.py:165-167 | "/repo" parses to an empty owner |
| Researcher.EmptyOwnerInvalid | app/agents/researcher.py:50-52 | a `repo_url` with an empty owner segment is an invalid-format error |
| Researcher.ExtractedIsFetched | app/agents/researcher.py:37-95 | a message naming `owner/repo` leads to the requests for exactly that owner and repository, and their answer decides the result |
| Researcher.ExtractRepoUrl | app/agents/researcher.py:152-161 | the URL is empty exactly when neither a `github.com/` path nor an `owner/repo` pair occurs in the message; otherwise it starts with `https://github.com/` and names something after it |
| Researcher.ParseRepoUrl | app/agents/researcher.py:163-168 | when the URL has two segments, the owner and repository are the last two, and neither contains a slash |
| Researcher.Execute | app/agents/researcher.py:32-52 | without a repository URL in the task or the message the answer is the guidance error; a success means the URL parsed to a non-empty owner and repository and the answer is the analysis of what was fetched for them, which is an error when every language has 0 bytes (`ZeroBytesFail`) |
| Explorer.Slashes | app/agents/explorer.py:104 | every backslash becomes '/' and nothing else changes |
| Explorer.RootNormal | app/agents/explorer.py:19-24 | each allowed root normalises to the same lower-case root |
| Explorer.SameRoot | app/agents/explorer.py:105-108 | under roots that all normalise alike, a path is under some root exactly when it starts with that root |
| Explorer.IsSafePath | app/agents/explorer.py:102-108 | a path is safe exactly when its normalised, lower-cased form starts with "d:/devpulseaiv2" |
| Explorer.SiblingPasses | app/agents/explorer.py:102-108 | the check is a string-prefix test, so a sibling directory such as D:/DevPulseAIv2x passes it |
| Explorer.Suffix | app/agents/explorer.py:132 | `Path.suffix` is the part from the last dot when that dot is neither the first nor the last character, and empty otherwise |
| Explorer.DotfileNoSuffix | app/agents/explorer.py:132 | a dotfile with no other dot has no suffix |
| Explorer.DrivePathEnd | app/agents/explorer.py:74 | a drive-path match ends beyond its drive letter and colon and is a drive path |
| Explorer.KeywordThenPath | app/agents/explorer.py:80 | the directory after the keyword is a drive path |
| Explorer.ExtensionEnd | app/agents/explorer.py:87 | an extension match ends within the message |
| Explorer.RStripKeeps | app/agents/explorer.py:83 | stripping trailing characters keeps every character up to the last one not stripped |
| Explorer.ExtractFileEmptyIff | app/agents/explorer.py:71-91 | no file path is found exactly when none of the three patterns matches anywhere in the message |
| Explorer.JoinedIsDrivePath | app/agents/explorer.py:82-84 | a directory joined with a filename is still a drive path |
| Explorer.FilePathAtIsDrivePath | app/agents/explorer.py:74-76 | the first pattern yields a drive path |
| Explorer.NamedFileAtIsDrivePath | app/agents/explorer.py:80-84 | the second pattern yields a drive path |
| Explorer.ExtractFilePath | app/agents/explorer.py:71-91 | pattern 1's leftmost match wins; failing that, pattern 2's leftmost match joined as directory/filename; failing that, pattern 3's leftmost match under the project root; failing all three, the empty string; a result is always a drive path |
| Explorer.BareFileAtShape | app/agents/explorer.py:87 | a pattern-3 match is a stem, a dot and a listed extension in any case, with a word boundary at both ends |
| Explorer.ExplicitFileExample | app/agents/explorer.py:73-76 | "see D:/a.py" gives "D:/a.py" |
| Explorer.NamedAtExample | app/agents/explorer.py:78-84 | "a.md at D:/x/" gives "D:/x/a.md" |
| Explorer.NamedPresentAtExample | app/agents/explorer.py:78-84 | "a.md present at D:/x/" gives "D:/x/a.md" |
| Explorer.BareFileExample | app/agents/explorer.py:86-89 | "a.MD" gives the project root followed by "a.MD" |
| Explorer.DirectoryExample | app/agents/explorer.py:93-99 | "D:/x/" names no file and gives the directory "D:/x/" |
| Explorer.PrefixedIsDrivePath | app/agents/explorer.py:88-89 | a bare filename under the project root is a drive path |
| Explorer.ExtractDirectoryPath | app/agents/explorer.py:93-100 | the leftmost drive-path match, unless its last component holds a dot, in which case the empty string; no match gives the empty string |
| Explorer.Truncated | app/agents/explorer.py:145-146 | content up to 5000 characters is kept; longer content keeps its first 5000 characters followed by the truncation note with the total length |
| Explorer.ReadFile | app/agents/explorer.py:110-162 | the result is `FileResult`: refusal outside the root, not found, a directory listed, a binary type refused, or the file shown |
| Explorer.UnsafeRefused | app/agents/explorer.py:115-120 | a path outside the root is refused before the disk is consulted |
| Explorer.GitignoreRefused | app/agents/explorer.py:131-137 | a `.gitignore` file is refused as a binary type, since its suffix is empty although ".gitignore" is listed as safe |
| Explorer.GitignoreExtension | app/agents/explorer.py:132 | the suffix of `.gitignore` is empty |
| Explorer.EveryEntryOnce | app/agents/explorer.py:179-185 | when no size lookup fails, every entry is listed once, as a folder or as a file |
| Explorer.FilesFailIff | app/agents/explorer.py:179-185 | the loop finishes exactly when no file's size lookup fails; otherwise it stops with the error of the first entry whose lookup fails |
| Explorer.FailureSticks | app/agents/explorer.py:179-185 | once a size lookup has failed, the later entries do not change the outcome |
| Explorer.ShownFolders | app/agents/explorer.py:189 | the first twenty folders are shown |
| Explorer.ShownFiles | app/agents/explorer.py:191 | the first thirty files are shown |
| Explorer.MoreNote | app/agents/explorer.py:193-194 | the "more items" note appears exactly when there are more than fifty entries |
| Explorer.EntriesSorted | app/agents/explorer.py:175 | the entries are listed in sorted order and are the directory's names |
| Explorer.Classify | app/agents/explorer.py:179-185 | the loop files each entry as a folder or as a file with its size, in order, and stops with the error of the first failing size lookup |
| Explorer.ListDirectory | app/agents/explorer.py:164-199 | the result is `ListingResult`: refusal outside the root, not a directory, a listing error, or the listing |
| Explorer.AfterHead | app/agents/explorer.py:207 | splitting at the first blank line gives back the body after a one-line heading |
| Explorer.ProjectOverview | app/agents/explorer.py:201-209 | the result is `OverviewResult` of the project root |
| Explorer.AfterHeading | app/agents/explorer.py:187-207 | the body after the directory heading is what the split gives back |
| Explorer.ListingSucceeds | app/agents/explorer.py:171-196 | a safe directory whose entries all have sizes lists as its heading followed by its folders, files and the more-items note |
| Explorer.ListingSizeFails | app/agents/explorer.py:174-199 | a failing size lookup for any entry makes the listing the "Error listing directory" error with that lookup's message |
| Explorer.ReplaceSummary | app/agents/explorer.py:206-207 | replacing the summary of a success keeps it a success with the new summary |
| Explorer.OverviewReplacesHeading | app/agents/explorer.py:201-209 | when the root lists, the overview is that listing with its directory heading replaced by the overview title |
| Explorer.Execute | app/agents/explorer.py:40-69 | a file path wins, then a directory path, then the overview |
| Explorer.FileResult | app/agents/explorer.py:110-162 | a successful read is of a safe path that exists, and when that path is a file its extension is an allowed one, its content was read and its size was found |
| Explorer.ListingResult | app/agents/explorer.py:164-199 | a successful listing is of a safe path that is a directory whose entries were listed |
| Explorer.OverviewResult | app/agents/explorer.py:201-209 | the overview succeeds exactly when listing the project root does |
| Analyst.Kept | app/agents/analyst.py:107-110 | a word is kept exactly when it is in the query and is no stop word and longer than one character |
| Analyst.KeptAppend | app/agents/analyst.py:110 | filtering distributes over concatenation: the kept words keep the query's order |
| Analyst.KeptAll | app/agents/analyst.py:110 | words that all qualify are all kept |
| Analyst.Terms | app/agents/analyst.py:117 | at most five search terms |
| Analyst.TermsChoice | app/agents/analyst.py:110-117 | the terms are the first five kept words, or, when no word is kept, the first three words of the lowered query |
| Analyst.Parts | app/agents/analyst.py:118 | one `all:` part per term, with the term quoted |
| Analyst.JoinParts | app/agents/analyst.py:119 | one more term adds `+AND+all:` and that term to the search query |
| Analyst.WordsExample | app/agents/analyst.py:110 | "the a" splits into "the" and "a" |
| Analyst.FallbackExample | app/agents/analyst.py:110-119 | "The a" has only stop words, so its query falls back to `all:the+AND+all:a` |
| Analyst.JoinExample | app/agents/analyst.py:118-119 | two terms join into two `all:` parts with `+AND+` between them |
| Analyst.TermsExample | app/agents/analyst.py:110-117 | the terms of "The a" are "the" and "a" |
| Analyst.LowerExample | app/agents/analyst.py:110 | "The a" lowers to "the a" |
| Analyst.KeptExample | app/agents/analyst.py:107-110 | "the" and "a" are both dropped |
| Analyst.AuthorNames | app/agents/analyst.py:150-154 | at most one name per author element |
| Analyst.Papers | app/agents/analyst.py:135-175 | at most one paper per entry |
| Analyst.PapersNormalised | app/agents/analyst.py:144-172 | every paper's title and abstract have their whitespace collapsed and its date is at most ten characters |
| Analyst.PapersAppend | app/agents/analyst.py:135-175 | the papers of two runs of entries are those of each, in order: entries are taken in feed order |
| Analyst.AuthorsShown | app/agents/analyst.py:185-187 | up to three authors are all listed; more are cut to three followed by the "et al." count |
| Analyst.Clipped | app/agents/analyst.py:195 | an abstract up to 300 characters is shown whole; a longer one is cut at 300 and followed by "..." |
| Analyst.PdfName | app/agents/analyst.py:194 | the shown PDF name holds no '/' |
| Analyst.PdfNameAfterSlash | app/agents/analyst.py:194 | the PDF name is what follows the last '/' |
| Analyst.NumberedAppend | app/agents/analyst.py:184-196 | the numbered blocks of two runs of papers continue the numbering across the join |
| Analyst.NumberedAt | app/agents/analyst.py:184-196 | the k-th paper gets number i + k |
| Analyst.AppendNumbered | app/agents/analyst.py:184-196 | the loop appends one numbered block per paper, numbered from 1 |
| Analyst.GenerateSummary | app/agents/analyst.py:179-198 | the summary is the header, the count and the numbered blocks |
| Analyst.NoQueryRefused | app/agents/analyst.py:30-35 | an empty query, or no query and an empty message, is refused before any request |
| Analyst.RequestFor | app/agents/analyst.py:43-95 | the request is for the query's terms and `max_papers`; no usable paper gives the "No papers found" message, otherwise the summary |
| Analyst.NothingUsable | app/agents/analyst.py:46-47 | a feed where no entry has both a title and an id reports that nothing was found |
| Analyst.NoneUsable | app/agents/analyst.py:141-142 | entries without a title or an id give no papers |
| Analyst.SearchQuery | app/agents/analyst.py:117-119 | the search query is empty exactly when there are no terms, and otherwise it begins with `all:` |
| Analyst.ToPaper | app/agents/analyst.py:141-172 | a paper's id is the stripped entry id, its date is at most ten characters, it has at most one author per author element and one category per category element, and without a pdf link its link is its id |
| Analyst.Execute | app/agents/analyst.py:25-47 | an empty query gives the "provide a research topic" error; a success means the query was non-empty and the search answered with a feed |
| CodeExplorer.StatementAt | app/tools/code_explorer.py:124-129 | a match starts a line with the keyword and captures a non-empty run of word characters |
| CodeExplorer.PythonNames | app/tools/code_explorer.py:121-131 | every Python import name found is the whole word that follows `import` or `from`, at the start of some line, after at least one whitespace character, and ends at a non-word character or the end of the text |
| CodeExplorer.StatementWord | app/tools/code_explorer.py:124-129 | a capture of `^kw\s+(\w+)` is the word that begins right after the keyword's whitespace and runs to a non-word character or the end |
| CodeExplorer.LeadingStatement | app/tools/code_explorer.py:124-129 | a line that starts with the keyword, one space and a whole word makes a match there that captures exactly that word, whatever text comes before the line |
| CodeExplorer.StatementFrom | app/tools/code_explorer.py:124-129 | a line start, the keyword, a run of whitespace and a run of word characters make the match, which ends with the word run and captures it |
| CodeExplorer.RunEndPast | app/tools/code_explorer.py:124-129 | a greedy run ends at the first character that does not belong to it |
| CodeExplorer.IndentedIgnored | app/tools/code_explorer.py:124-129 | a single line that does not start with `import` or `from`, such as an indented import, yields nothing |
| CodeExplorer.ImportOnLine | app/tools/code_explorer.py:121-125 | `import w` at the start of any line reports w, when no earlier match runs past that line's start |
| CodeExplorer.LineEnd | app/tools/code_explorer.py:146-151 | the end of the current line: no line break before it, and a line break or the end at it |
| CodeExplorer.QuotedAt | app/tools/code_explorer.py:146-151 | a lazy quoted match ends at its closing quote and captures the non-empty text between on one line |
| CodeExplorer.FromClauseAt | app/tools/code_explorer.py:146 | a `from` clause captures the text between the quote that follows `from` and its whitespace and the next quote: non-empty and on one line |
| CodeExplorer.FromAfterImport | app/tools/code_explorer.py:146 | the lazy `.*?` after `import` stops at the first position on the same line where a `from` clause matches; it finds none exactly when no position up to the end of the line has one |
| CodeExplorer.ImportFromAt | app/tools/code_explorer.py:146 | an `import ... from` match starts with `import` and captures a non-empty specifier on one line |
| CodeExplorer.ImportFromClauseAt | app/tools/code_explorer.py:146 | an `import ... from` capture is the quoted text of a `from` clause later on the same line as the `import` |
| CodeExplorer.RequireAt | app/tools/code_explorer.py:150 | a `require(` match captures the text between the quote right after `require(` and a quote followed by `)` |
| CodeExplorer.JavascriptNames | app/tools/code_explorer.py:143-153 | every JavaScript specifier found is the quoted text of a `require('…')` call, or of a `from` clause on a line after `import` |
| CodeExplorer.RequireFound | app/tools/code_explorer.py:149-151 | `require('m')` anywhere in the text reports m, when m holds no quote or line break and no earlier match runs past its start |
| CodeExplorer.ImportFromFound | app/tools/code_explorer.py:145-147 | `import` followed later on its line by `from 'm'`, with no `from` clause in between, reports m, when no earlier match runs past the `import` |
| CodeExplorer.QuotedHit | app/tools/code_explorer.py:146-151 | the lazy match closes at the first closing quote on the line |
| CodeExplorer.RequireSpecifier | app/tools/code_explorer.py:150-151 | `require('m')` yields m |
| CodeExplorer.FromClauseSpecifier | app/tools/code_explorer.py:146 | `from 'm'` yields m |
| CodeExplorer.ImportSpecifier | app/tools/code_explorer.py:146-147 | `import` followed later on its line by `from 'm'`, with no `from` clause in between, captures m |
| CodeExplorer.ImportStopsAt | app/tools/code_explorer.py:146 | the lazy `.*?` stops at the first `from` clause on the line |
| CodeExplorer.ImportFromAfter | app/tools/code_explorer.py:146 | an `import ... from` match captures what the `from` clause at which its lazy scan stops captures |
| CodeExplorer.Dedupe | app/tools/code_explorer.py:131 | `list(set(...))` keeps each name once and loses none |
| CodeExplorer.ParsePythonImports | app/tools/code_explorer.py:111-131 | the result holds each Python import name found exactly once, and nothing else |
| CodeExplorer.ParseJavascriptImports | app/tools/code_explorer.py:133-153 | the result holds each JavaScript specifier found exactly once, and nothing else |
| CodeExplorer.RepoStructure | app/tools/code_explorer.py:22-40 | the placeholder structure is an empty directory at the given path |
| CodeExplorer.EntryPoints | app/tools/code_explorer.py:42-66 | no entry point is ever found |
| CodeExplorer.Dependencies | app/tools/code_explorer.py:68-94 | the four languages, each with no dependencies |
| CodeExplorer.Symbols | app/tools/code_explorer.py:96-109 | no symbol is ever found |
| Dicts.Get | app/core/swarm.py:364-366 | `dict.get` gives nothing exactly when the key is absent, and otherwise a value filed under it |
| Dicts.Put | app/core/swarm.py:360-362 | assigning to a present key keeps the keys and their order; a new key goes last, as Python dicts keep insertion order |
| Dicts.GetPut | app/core/swarm.py:360-366 | after an assignment the key reads back the new value and every other key its old one |
| Dicts.PutKeepsUnique | app/core/swarm.py:360-362 | assignment never files a key twice |
| Dicts.Delete | app/api/server.py:86-87 | `del` of a key, which must be present as Python's `KeyError` demands, removes exactly one entry |
| Dicts.GetDelete | app/api/server.py:86-87 | after `del` the key is absent and every other key reads as before |
| Dicts.GetUpdate | app/core/context.py:69-70 | after `update` the keys of the update read its values and every other key its old one |
| Dicts.UpdateKeepsUnique | app/core/context.py:69-70 | `update` never files a key twice |
| Text.Lower | app/agents/analyst.py:110 | `lower()` keeps the length and lowers each character |
| Text.Strip | app/core/context.py:47 | `strip()` leaves no whitespace at either end |
| Text.Words | app/agents/analyst.py:110 | `split()` gives non-empty words without whitespace |
| Text.WordsJoin | app/agents/analyst.py:144-145 | joining whitespace-free words with spaces and splitting again gives the words back |
| Text.CollapseIdempotent | app/agents/analyst.py:144-145 | collapsing whitespace twice is collapsing it once |
| Text.Split | app/agents/researcher.py:165 | `split('/')` gives at least one piece and no piece holds the separator |
| Text.SplitPieces | app/agents/researcher.py:165-166 | `split('/')` gives more than one piece exactly when the separator occurs |
| Text.SplitFirst | app/agents/researcher.py:214 | the first piece of `split('\n')` is the text before the first line break |
| Text.RStripChars | app/agents/researcher.py:165 | `rstrip('/')` drops only trailing separators |
| Text.Prefix | app/core/recommendations.py:113 | Python slicing `s[:n]`: a prefix of length `n` capped at the length, or, for negative `n`, all but the last `-n` |
| Text.NatToString | app/agents/researcher.py:78 | `str(n)` is a non-empty run of digits |
| Text.GroupedDigits | app/agents/researcher.py:187-189 | `{n:,}` with its commas removed is `str(n)` |
| Search.First | app/agents/researcher.py:154 | `re.search` finds the leftmost start where the pattern matches, and finds nothing exactly when it matches nowhere |
| Search.AllHead | app/tools/code_explorer.py:124-129 | `finditer` yields nothing exactly when `search` finds nothing, and otherwise yields the first match first |
| Search.AllFound | app/tools/code_explorer.py:124-129 | everything `finditer` yields is captured by a match at some start |
| Search.LeftmostIsFirst | app/agents/explorer.py:74-89 | `re.search` returns the leftmost match, and returns nothing exactly when the pattern matches nowhere |
| Search.AllReaches | app/tools/code_explorer.py:124-129 | `finditer` yields the capture of a match at every start that no earlier match runs past |

## Left out

- `asyncio.gather` in `Swarm.dispatch_parallel` (app/core/swarm.py:184) and in `SwarmManager.dispatch_parallel` (app/core/swarm.py:316), which `fan_out` also goes through, is modelled as running the dispatches one after another in list order. The per-worker status log, status and run id it ends with are those of this sequential order. Concurrent interleaving of the workers' status updates is not modelled: under `asyncio.gather`, two tasks for the same worker can interleave their busy and final statuses, and the run id left behind is that of whichever task set it last.
- The workers' `execute`, the hosted language model and its client are oracles. Their own behaviour belongs to other modules, and the contracts hold for any answer they give.
- The wall clock and `time.sleep` are an integer millisecond clock. Each sleep advances the clock and is recorded in a ghost log. A call to the model takes no time.
- Message ids, message timestamps, execution-log timestamps, `uuid` values and the trace `run_id` are not modelled. Where the output shows a timestamp (the injected context, the report date), it is a parameter.
- Trace logging (`log_trace`, `log_event`), writes to Supabase and Pinecone, content hashes and `print` output are left out. Each of them either swallows its own errors or does not change a returned value.
- Requests to GitHub and arXiv, the XML parsing of the Atom feed, base64 decoding of the README, file-system access and `json.load` are oracles or `Option` inputs. The model does not parse HTTP, XML, base64 or JSON text.
- `os.path.normpath`, `os.path.join` and `urllib.parse.quote` are uninterpreted functions passed in as parameters.
- The regular-expression classes `\w` and `\s`, and `str.lower()`, are modelled on ASCII only. The model does not capture Unicode letters, digits or spaces.
- Floating-point arithmetic is left out. The language percentage and its bar are the `share` parameter, and scores are integers in thousandths.
- `response.text` being `None` is not modelled. A reply is always a string.
- The daily report's CSS style sheet is a parameter. Its literal text is not reproduced.
- JSON values in task, result and payload dictionaries are modelled as strings. For example, the daily item's relevance `0` is the string "0".
- `list(set(...))` in the import parsers has an order that Python leaves unspecified. The contracts state which names appear and that none repeats, but not their order.
- `ConversationManager.save_message` and `get_conversation_history` are placeholders in the source: the first does nothing and the second returns an empty list. They are modelled as such.
- The reply "I'm not sure how to help with that yet." cannot be reached, because every intent has a route. It is not modelled.
- The `or {}` default on `Message.metadata` is not modelled. Metadata is always a dictionary.
- An exception raised part-way through reading `requirements.txt` is not modelled. The model reads the whole file or, when the file is absent, nothing.
- The FastAPI endpoints other than the session pool and the WebSocket chat loop, and the Streamlit UI, are not part of this model.
- MultiSwarm.SwarmManager.CreateSwarm and MultiSwarm.SwarmManager.RegisterWorker take every argument explicitly. The source's defaults, `description=""` (app/core/swarm.py:229) and `swarm_name="default"` (app/core/swarm.py:248), are not modelled as defaults, because Dafny has no default arguments. A caller passes "" or "default" to get the same call.
- Context.PackageDependencies treats each of `dependencies` and `devDependencies` as either absent or an object. A JSON `null` or another non-object value is not modelled. In the source, `update` raises on such a value, and the `except` at app/core/context.py:71-72 returns whatever was merged before the raise. So `"dependencies": null` gives `{}` even when `devDependencies` is present.
- The classification prompt's literal wording (app/core/conversation.py:148-158) is not reproduced. The model oracle receives the request as a `Prompt` value, so no contract depends on the text.
- `Conversation.ConversationManager.Elapse` is a helper of the model that lets time pass between calls. It has no counterpart in the source.
- Critic.Repr escapes the characters up to U+00FF as Python's `repr` does. Characters above U+00FF are copied unchanged, whereas `repr` writes the unprintable ones among them (U+2028, for example) as `\u` or `\U` escapes. Python's printability table for the whole of Unicode is not reproduced.
