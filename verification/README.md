# aif-gateway governance core, modelled in Dafny

aif-gateway is a governance gateway for autonomous software agents. An agent declares an intent:
its actions, the systems it touches, how sensitive its data is, and whether the data crosses a
border. From that intent the gateway assigns a risk tier on the ladder A1..A6 and derives the
controls of that tier. It then gates every action through a decision lifecycle: AUTO, HOTL
(human on the loop) or HITL (human in the loop). Every governance event is recorded in a
hash-chained ledger and in an audit log.

This project models that core as pure Dafny functions over immutable data. It proves what each
part promises. There is one module per source component and one `.dfy` file per module. Most modules follow one source file; `Console`, `Login`, `LoadPolicy`, `AgentHandlers`, `DecisionHandlers`, `OverrideHandlers` and `Intake` each gather a few closely related files:

- **Tiering.**
  - `PolicyPack` and `LoadPolicy` hold the policy pack and its loaders.
  - `PolicyEngine`, `TierRules`, `DeterministicRules` and `TierEngine` are the rule evaluators.
  - `HeuristicPolicy` is the keyword classifier.
  - `IntentBuild` turns a request into an intent.
- **Ledger and stores.**
  - `Ledger` is the hash chain.
  - `StatusOverlay`, `DecisionStore` and `AgentRegistry` are the event-sourced lookups.
  - `MemStore` and `DemoStore` are the agent and decision stores.
  - `OverrideStore` holds the time-bounded tier overrides.
  - `DemoLog` is the bounded demo log.
- **Endpoints.** Each endpoint is a function from a request and a world to a reply and a new world:
  - `Intake` models request submission and gate evaluation.
  - `AgentCheck`, `Execute` and `Register` model the endpoints of the same names.
  - `AgentHandlers` models approve, reject and kill.
  - `DecisionHandlers` models decision approve, deny and notify.
  - `OverrideHandlers` models the override endpoints.
  - `FoundryRun`, `AifRun` and `SpecChat` model the endpoints of the same names.
- **Authentication.**
  - `DemoAuth`, `DemoAuthEdge` and `Base64Url` model the signed demo session.
  - `Login` models the login endpoint and page.
  - `Middleware` is the route guard.
  - `Bearer` reads service tokens.
  - `Mailer` covers the mail domain allow-list.
- **Redaction and audit.** `Redaction`, `Projections` and `AuditFields` cover the redactors and the audit record builders.
- **Console.** `Console` models the console pages' pure helpers.
- **JavaScript semantics the code relies on.**
  - `Base` covers options, `indexOf` and `new Set`.
  - `Text` covers trim, case mapping, split and join.
  - `Json` covers truthiness, `String(v)` and object spread.
  - `Sorting` is a stable `Array.prototype.sort`.
  - `OrderedMap` is an insertion-ordered `Map`.

Collaborators the code calls but does not define are parameters of the model:
- the clock (`now`) and fresh ids;
- SHA-256 and HMAC;
- the JSON encoder of sessions;
- `redactString`;
- `Number` of a string;
- the simulated adapters;
- language-model answers.

Redis or file storage is modelled by its in-memory contract. A JavaScript `undefined` field is
an absent key of the record map. An ISO timestamp is the integer instant it denotes, since
timestamps of one format compare like their instants.

## Model

| member | source | states |
|---|---|---|
| PolicyPack.TierRankInjective | lib/policy/policyEngine.ts:17-21 | distinct tiers of A1..A6 have distinct ranks in `TIER_ORDER` |
| PolicyPack.FindTierDef | lib/policy/policyEngine.ts:77 | `tiers.find` yields the first definition naming the tier, and none exactly when no definition names it |
| PolicyEngine.ResolveFrom | lib/policy/policyEngine.ts:38-65 | the rule loop ends on a valid tier no lower than where it started and no lower than any tier a matching rule proposes, and that tier is the start or a proposed one |
| PolicyEngine.ResolveTier | lib/policy/policyEngine.ts:32-68 | the resolved tier is one of A1..A6, is A1 or a tier some matching rule proposes, and ranks at least as high as every proposed tier |
| PolicyEngine.ResolveTierNoMatch | lib/policy/policyEngine.ts:34-36 | with no matching rule carrying a valid tier, and so with no rules at all, the tier is A1 |
| PolicyEngine.SameContributionsSameTier | lib/policy/policyEngine.ts:38-64 | the tier depends only on the set of tiers the matching rules propose |
| PolicyEngine.ResolveTierPermutation | lib/policy/policyEngine.ts:28-64 | reordering the rules leaves the tier unchanged (MAX_TIER is order-independent) |
| PolicyEngine.InvalidThenTierIgnored | lib/policy/policyEngine.ts:61-62 | a rule whose `thenTier` is not one of A1..A6 never changes the tier, wherever it stands in the list |
| PolicyEngine.EmptyActionsFailActionsOnly | lib/policy/policyEngine.ts:49-52 | an intent with no actions never satisfies an `actionsOnly` condition, even an empty one |
| PolicyEngine.MissingFieldsDefaults | lib/policy/policyEngine.ts:54-57 | a missing `crossBorder` matches as `false` and a missing sensitivity matches as "" |
| PolicyEngine.ControlsForTier | lib/policy/policyEngine.ts:73-81 | the error "Unknown tier X" exactly when no definition names the tier; otherwise the first such definition's `defaultControls`, or `{}` |
| TierRules.HitsAppend | lib/policy/tierRules.ts:34-49 | the hits of two rule lists in sequence are the hits of each, in order, so hits keep the policy's order |
| TierRules.HitsSound | lib/policy/tierRules.ts:34-49 | every hit comes from a rule whose conditions hold, and every such rule is hit |
| TierRules.MaxTierNoHits | lib/policy/tierRules.ts:14-16 | with no matching rule the chosen tier is `tierOrder[0]` |
| TierRules.MaxTierChoice | lib/policy/tierRules.ts:14-16 | the chosen tier is the first hit tier, among those that are defined, of greatest `tierOrder` position (a tier missing from the order counts as position 0), and it ranks at least as high as every defined hit tier; hits without a tier are never chosen, since the sort moves `undefined` last; an empty choice, or no defined hit tier at all, falls back to `tierOrder[0]` |
| TierRules.MaxTierUndefinedLast | lib/policy/tierRules.ts:14-16 | hit tiers `[undefined, "X"]` with "X" outside the order give "X", not `tierOrder[0]` |
| TierRules.EvalTierFromRules | lib/policy/tierRules.ts:24-59 | `matched_rule_ids[i]` is the id of the i-th matching rule in policy order, `reasons[i]` is "id: rationale" of that rule, and the tier is `maxTier` of their tiers |
| TierRules.EvalNoMatch | lib/policy/tierRules.ts:52-57 | with no matching rule the result is `tierOrder[0]` with no ids and no reasons |
| TierRules.RuleHoldsIgnoresCase | lib/policy/tierRules.ts:19-46 | `actionsAny`, `systemsAny` and `actionsOnly` compare names ignoring case: lower-casing the attributes changes no verdict |
| TierRules.ActionsOnlyVacuous | lib/policy/tierRules.ts:44-47 | `actionsOnly` holds for an empty action list, whatever it allows |
| TierRules.NonBooleanCrossBorderIgnored | lib/policy/tierRules.ts:41 | a `crossBorder` condition that is not a boolean is ignored |
| DeterministicRules.FactsOf | lib/aura/deterministicRules.ts:27-32 | the fact actions are the duplicate-free union of the input actions and the inferred ones, input first; the input sensitivity wins when non-empty, else the signal's; `crossBorder` is true iff either flag is |
| DeterministicRules.Matched | lib/aura/deterministicRules.ts:37-58 | the matched rules are exactly the rules whose conditions hit |
| DeterministicRules.MatchedAppend | lib/aura/deterministicRules.ts:37-58 | matches of two rule lists in sequence are the matches of each, in order |
| DeterministicRules.FoldTier | lib/aura/deterministicRules.ts:13-59 | the running tier is replaced only by a matched `thenTier` strictly later in the order, and ends no earlier than any matched tier in the order |
| DeterministicRules.Evaluate | lib/aura/deterministicRules.ts:17-64 | the ids are the matching rule ids in policy order; the tier is A1 or a matched tier later in the order, and no earlier than any matched tier of the order; a pack without `tiering`, or with matches but no `tierOrder`, fails as the source's TypeError does |
| DeterministicRules.ActionsOnlyVacuous | lib/aura/deterministicRules.ts:44-46 | `actionsOnly` holds vacuously on an empty merged action list |
| TierEngine.FinalTier | lib/policy/tierEngine.ts:23 | a non-empty override becomes the final tier; an empty or missing one yields the rule-evaluated tier |
| TierEngine.TierDefFor | lib/policy/tierEngine.ts:25 | the first definition of the final tier, else the pack's first definition, else none when the pack defines no tiers |
| TierEngine.ControlsFor | lib/policy/tierEngine.ts:25-33 | the controls of the first definition of the final tier; of the first definition in the pack when the tier has none; `{}` with no definitions |
| TierEngine.ComputeTier | lib/policy/tierEngine.ts:13-35 | `ruleEval` is `evalTierFromRules` of the inferred attributes; `policy_version` and `generatedAt` are copied from the pack; override precedence and the controls fallback as above |
| TierEngine.OverrideIgnoresAttrs | lib/policy/tierEngine.ts:23-25 | a non-empty override decides the tier and the controls whatever attributes the classifier inferred |
| TierEngine.EmptyOverrideIsNone | lib/policy/tierEngine.ts:23 | an empty override behaves as no override |
| IntentBuild.ArrayOrEmpty | lib/policy/intent.ts:8-9 | an array value is kept; anything else, or nothing, becomes `[]` |
| IntentBuild.BuildIntent | lib/policy/intent.ts:7-20 | non-array actions and systems become `[]`; the sensitivity passes through unchanged; `crossBorder` is the truthiness of the field |
| IntentBuild.BuildIntentRoundTrip | lib/policy/intent.ts:7-20 | normalising a serialised intent with `crossBorder` set gives the intent back |
| IntentBuild.BuildIntentIdempotent | lib/policy/intent.ts:7-20 | normalising twice is normalising once |
| IntentBuild.NonObjectBody | pages/api/decide-tier.ts:6 | a missing or non-object body is the empty intent, with `crossBorder` false |
| IntentBuild.DecideTier | pages/api/decide-tier.ts:5-10 | the reply carries the normalised intent, its resolved tier and that tier's controls; an undefined tier is the "Unknown tier" error |
| LoadPolicy.ValidationError | lib/policy/loadPolicy.ts:31-34 | the pack passes exactly when it has a version, a non-empty `tiers` and a non-empty `tiering.rules`, and a failing check yields that check's message, in the source's order |
| LoadPolicy.Load | lib/policy/loadPolicy.ts:13-38 | a cached pack is returned as it is; a missing file is an error naming the path, and nothing is cached; a valid pack is cached and returned; an invalid one is rejected with its message, and nothing is cached |
| LoadPolicy.LoadCached | lib/policy/loadPolicy.ts:14-37 | after one successful load, every later load returns that same pack whatever the file holds |
| LoadPolicy.TierOrderOf | lib/aura/policyLoader.ts:31 | the order is `tiering.tierOrder` if present, else the top-level `tierOrder`, else A1..A6 |
| LoadPolicy.Normalize | lib/aura/policyLoader.ts:28-35 | version, generatedAt, tiering, tiers and mappings are copied unchanged, with the order as above |
| LoadPolicy.LoadNormalized | lib/aura/policyLoader.ts:21-37 | the cached pack is returned when present; otherwise the normalised file is cached and returned; a missing file is an error and leaves the cache empty |
| LoadPolicy.PolicyVersionTag | lib/aura/policyLoader.ts:39-42 | the version and `generatedAt` of the pack the loader returns, the cached one first |
| HeuristicPolicy.AnyOccurs | lib/policyEngine.ts:31-36 | the alternation test holds exactly when some listed word occurs in the text |
| HeuristicPolicy.EvaluatePolicy | lib/policyEngine.ts:24-67 | high/HITL/not allowed iff the lower-cased action names a destructive or financial word or the sensitivity is "confidential"; medium/HOTL iff not high and a change word or a listed system occurs; else low/AUTO; not allowed exactly under HITL; obligations start with AUDIT_LOG, NO_RAW_PAYLOAD_STORAGE |
| HeuristicPolicy.Classify | lib/policyEngine.ts:28-66 | HITL appends DUAL_CONTROL_OPTIONAL, APPROVAL_REQUIRED; HOTL appends POST_ACTION_REVIEW; AUTO appends nothing; high takes precedence over medium |
| HeuristicPolicy.IgnoresCase | lib/policyEngine.ts:25-26 | the classification ignores the case of the action and the target |
| HeuristicPolicy.HighWins | lib/policyEngine.ts:38-47 | a high-risk action stays HITL and not allowed whatever the target |
| HeuristicPolicy.MissingActionIsEmpty | lib/policyEngine.ts:25 | a missing action is classified as the empty action |
| Ledger.ReadLastHash | lib/audit/ledger.ts:32-41 | the hash of the last line; "GENESIS" for an absent or empty file, a last line that does not parse, or an empty hash |
| Ledger.NewEvent | lib/audit/ledger.ts:43-56 | the event carries the time, the type, the redacted payload (never the raw one), the previous last hash, and the digest of those four |
| Ledger.Append | lib/audit/ledger.ts:43-58 | the file keeps every earlier line and gains exactly one more; that line is the event at the given time and type, with the redacted payload, the hash the file ended with as `prev_hash`, and the digest of those four as its hash |
| Ledger.AppendKeepsChain | lib/audit/ledger.ts:32-58 | appending keeps a valid hash chain valid and leaves the earlier lines unchanged |
| Ledger.AppendAllChain | lib/audit/ledger.ts:32-58 | a ledger grown only by appends from a valid chain (or no file) is a valid chain with one line per append, the first `prev_hash` being "GENESIS" |
| Ledger.HeadDeterminesChain | lib/audit/ledger.ts:48-56 | with a collision-free digest, two valid chains of one length with the same last hash are the same chain: the chain is recomputable from genesis |
| Ledger.ScanBack | lib/audit/ledger.ts:65-77 | the backward scan returns the payload of the latest event of the type whose dotted field equals the key, `null` when no line matches, and an error when an unparseable line comes before any match |
| Ledger.ScanBackStep | lib/audit/ledger.ts:67-76 | how the scan over a list relates to the scan over the list without its last line |
| Ledger.GetLatestStateByType | lib/audit/ledger.ts:63-78 | an absent file gives `null`; an existing empty file throws; otherwise the backward scan over the dotted key |
| Ledger.ScanBackParsed | lib/audit/ledger.ts:67-76 | a scan over parseable events never throws |
| Ledger.LatestAfterMatchingAppend | lib/audit/ledger.ts:58-76 | after appending an event that matches, the latest state is that event's redacted payload |
| Ledger.LatestAfterOtherAppend | lib/audit/ledger.ts:58-76 | appending an event that does not match leaves the latest state as it was over the earlier lines |
| StatusOverlay.Current | lib/decisions/decisionStore.ts:44-53 | no creation payload gives `null` and a failing creation lookup fails, before the status lookup is consulted |
| StatusOverlay.Overlay | lib/decisions/decisionStore.ts:46-52 | a found record is the creation payload's entity with the status replaced by a truthy status from the status lookup, else kept as created |
| StatusOverlay.CreatedPayloadParts | lib/decisions/decisionStore.ts:36-45 | the redacted creation payload holds the redacted record under the entity key and the id under `<entity>.<idField>` |
| StatusOverlay.ScansAfterCreate | lib/decisions/decisionStore.ts:36-49 | right after the creation event of a fresh id, the creation lookup finds that event and the status lookup finds nothing |
| StatusOverlay.CurrentAfterCreate | lib/decisions/decisionStore.ts:36-53 | right after the creation event of a fresh id, the lookup returns the redacted record as created |
| StatusOverlay.StatusScanAfterStatus | lib/decisions/decisionStore.ts:41-49 | the status lookup after a status-change event for the id finds that event's payload |
| StatusOverlay.StatusPayloadParts | lib/decisions/decisionStore.ts:41-50 | the redacted status-change payload keeps the id and the status |
| StatusOverlay.CreatedScanAfterStatus | lib/decisions/decisionStore.ts:41-45 | a status-change event leaves the creation lookup as it was |
| StatusOverlay.CurrentAfterStatus | lib/decisions/decisionStore.ts:40-53 | a status change becomes the status of the current record whatever it was before; an id never created stays unknown |
| StatusOverlay.OverlayNewStatus | lib/decisions/decisionStore.ts:50 | a status payload with a truthy status replaces the record's status and nothing else |
| DecisionStore.NewDecision | lib/decisions/decisionStore.ts:29-35 | the decision keeps every input field and adds the id, the time and a status that is APPROVED iff `allowed` is truthy, else PENDING |
| DecisionStore.CreateDecision | lib/decisions/decisionStore.ts:29-38 | creation appends exactly one `decision_created` event carrying the decision |
| DecisionStore.SetDecisionStatus | lib/decisions/decisionStore.ts:40-42 | a status change appends exactly one `decision_status_changed` event, whatever the current status |
| DecisionStore.GetDecision | lib/decisions/decisionStore.ts:44-53 | no ledger file means no decision |
| DecisionStore.GetAfterCreate | lib/decisions/decisionStore.ts:29-53 | a created decision is found under its id as redaction stored it, with its initial status |
| DecisionStore.GetAfterSetStatus | lib/decisions/decisionStore.ts:40-53 | the next lookup reports the new status, from any current status; an unknown decision stays unknown |
| AgentRegistry.NewAgent | lib/registry/agentRegistry.ts:26-32 | the agent keeps every input field and adds the id, ACTIVE and the time |
| AgentRegistry.RegisterAgent | lib/registry/agentRegistry.ts:26-35 | registration appends exactly one `agent_registered` event carrying the agent |
| AgentRegistry.SetAgentStatus | lib/registry/agentRegistry.ts:37-39 | a status change appends exactly one `agent_status_changed` event, whatever the current status |
| AgentRegistry.GetAgent | lib/registry/agentRegistry.ts:41-51 | no ledger file means no agent |
| AgentRegistry.GetAfterRegister | lib/registry/agentRegistry.ts:26-51 | a registered agent is found under its id as redaction stored it, and is ACTIVE |
| AgentRegistry.GetAfterSetStatus | lib/registry/agentRegistry.ts:37-51 | the next lookup reports the new status, from any current status; an unknown agent stays unknown |
| Redaction.EndsWithAnyIff | lib/safety/redact.ts:44 | `SECRET_KEYS.some(sk => lk.endsWith(sk))` holds exactly when some secret key ends the name |
| Redaction.ShouldRedactKeyIff | lib/safety/redact.ts:42-44 | a key is redacted exactly when its lower-cased form ends with a secret key; the exact-match test adds nothing |
| Redaction.PlainNameKept | lib/safety/redact.ts:42-44 | a lower-case name whose ending cannot be that of a secret key is never redacted |
| Redaction.StatusKept | lib/safety/redact.ts:42-44 | the `status` key is never redacted |
| Redaction.DeepRedact | lib/safety/redact.ts:34-52 | strings go through `redactString`; null, booleans and numbers are kept; arrays keep their length; objects keep their keys and every secret key holds "[REDACTED]" |
| Redaction.DeepRedactNoSecrets | lib/safety/redact.ts:34-52 | the output holds no secret key with anything but "[REDACTED]", at any depth |
| Redaction.DeepRedactParts | lib/safety/redact.ts:37-46 | each array element and each non-secret field is redacted on its own |
| Redaction.DeepRedactIdempotent | lib/safety/redact.ts:34-56 | with an idempotent `redactString` that leaves "[REDACTED]" alone, redacting twice is redacting once |
| Projections.Project | lib/safeLog.ts:18-32 | the projection has exactly the listed names, each the input's field or `undefined` |
| Projections.SafeLogRedact | lib/safeLog.ts:18-32 | exactly the eleven governance fields of lib/safeLog.ts, copied from the input |
| Projections.Redact | lib/redact.ts:6-19 | exactly the ten fields of lib/redact.ts, copied from the input |
| Projections.ProjectDropsOthers | lib/safeLog.ts:14-32 | a field outside the list has no influence on the projection |
| Projections.PayloadDropped | lib/safeLog.ts:14-17 | a raw `payload` never reaches either projection, whatever it holds |
| Projections.NullInput | lib/redact.ts:6-19 | a null or missing input gives every listed field as `undefined` |
| Projections.HashEmail | lib/safeLog.ts:9-12 | at most 12 characters, a prefix of the digest of the lower-cased, trimmed address |
| Projections.NormalEmailIdempotent | lib/safeLog.ts:10 | normalising an address twice is normalising it once |
| Projections.HashEmailNormal | lib/safeLog.ts:9-12 | an address and its normal form hash alike, whatever the case and surrounding white space |
| AuditFields.ToStr | lib/audit/audit.ts:23-31 | "" for null and undefined, a string as it is, anything else serialised |
| AuditFields.Keep | lib/audit/audit.ts:58-82 | the kept entries are exactly the named fields whose value is non-empty, each with that value |
| AuditFields.Fields | lib/audit/audit.ts:55-82 | the entry holds exactly the sixteen fields whose string is non-empty, each with the string `toStr` gives it |
| AuditFields.KeepIgnoresExtra | lib/audit/audit.ts:58-82 | a key no field is read from does not change the kept entries |
| AuditFields.FieldsIgnoreExtra | lib/audit/audit.ts:51-77 | extra keys such as `status` or `override_id` never reach the entry |
| AuditFields.AgentIdAndEventDefaults | lib/audit/audit.ts:55-56 | the agent id comes from `agent_id` when set, else `agentId`; the event is "audit" when none is given |
| AuditFields.TsKept | lib/audit/audit.ts:59-82 | a non-empty string `ts` is the first field of the entry |
| AuditFields.XAdd | lib/audit/audit.ts:87 | `xadd` succeeds only on an Upstash client that accepts the entry; on a pending promise or `null` it throws a TypeError |
| AuditFields.WriteAudit | lib/audit/audit.ts:84-93 | `writeAudit` resolves exactly when `redis` is a client that accepts the entry; on the pending promise it rejects with "redis.xadd is not a function", on `null` with the null-property TypeError, and on a client that refuses with the client's error |
| AuditFields.HandleAwaited | lib/redis.ts:18-28 | `await getRedis()` is a client exactly when the Upstash variables are set, and `null` otherwise |
| AuditFields.WriteAuditOutcomes | lib/audit/audit.ts:53-91 | as written `writeAudit` rejects on every call, with the TypeError of calling `xadd` on a promise; awaited, it resolves exactly when Redis is configured and accepts the entry |
| MemStore.EmptyValid | lib/store.ts:68-70 | the initial store (no agents, no decisions, no audit) satisfies the store invariant |
| MemStore.AuditAppend | lib/store.ts:72-75 | the event goes first, the rest is a prefix of the old list, and the list never grows past 300 |
| MemStore.PutAgent | lib/store.ts:113-118 | the agent is stored under its id, every other agent id keeps its record, the decisions are untouched, and one `agent.register` event by the owner hash is audited |
| MemStore.ListAgents | lib/store.ts:130-131 | every stored agent exactly once, newest `created_at` first |
| MemStore.UpdateIn | lib/store.ts:142-148 | an unknown id changes nothing and yields `null`; otherwise the merged record `{ ...cur, ...patch }` is written back under the same key, and no other entry changes |
| MemStore.UpdateAgent | lib/store.ts:142-152 | `updateAgent` is that update on the agents, keeping the store invariant |
| MemStore.PutDecision | lib/store.ts:154-159 | the decision is stored under its id, every other decision id keeps its record, the agents are untouched, and one "approve" event with the decision's id and status is audited |
| MemStore.DecisionAuditData | lib/store.ts:157 | the audit data carries the decision id and the decision's status |
| MemStore.UpdateDecision | lib/store.ts:171-181 | `updateDecision` is that update on the decisions, keeping the store invariant |
| MemStore.ListDecisions | lib/store.ts:183-184 | every stored decision exactly once, newest `created_at` first |
| MemStore.AppendAudit | lib/store.ts:195-199 | `appendAudit` is the capped front insertion and keeps the invariant |
| MemStore.ListAudit | lib/store.ts:204-205 | the 200 newest events, or all of them when there are fewer |
| MemStore.Capped | lib/store.ts:74 | the first 300 entries, or the whole list when it is shorter |
| MemStore.AuditAppendCapped | lib/store.ts:72-75 | one append is the capped list with the event in front |
| MemStore.AppendAllNewestFirst | lib/store.ts:72-75 | however many events are appended, the audit holds the 300 newest of them all, newest first |
| MemStore.UpdateThenGet | lib/store.ts:142-148 | a read after an update gives the patched record, keeping every field the patch leaves out; other ids read as before |
| DemoStore.FindIndex | lib/demoStore.ts:53 | the position of the first record with the id, and none exactly when no record has it |
| DemoStore.AddAgent | lib/demoStore.ts:32-35 | the new record goes in front of the unchanged list |
| DemoStore.GetAgent | lib/demoStore.ts:41-43 | a record is found exactly when one has the id, and it is such a record |
| DemoStore.UpdateAgent | lib/demoStore.ts:49-63 | an unknown id yields `null` and no change; otherwise the first record with the id is replaced in place by the merge of it and the patch, and no other record changes |
| DemoStore.ClearAgents | lib/demoStore.ts:65-67 | clearing leaves no agents |
| DemoStore.GetAfterAdd | lib/demoStore.ts:32-43 | an added agent is what a lookup of its id finds, shadowing older records with that id |
| DemoStore.GetAfterAddOther | lib/demoStore.ts:32-43 | adding an agent with another id does not change what a lookup finds |
| DemoStore.GetAfterUpdate | lib/demoStore.ts:41-63 | after an update that does not touch `id`, a lookup finds the updated record |
| DemoStore.GetAfterClear | lib/demoStore.ts:65-67 | a lookup after clearing finds nothing |
| DemoLog.AddLog | pages/api/demo/_store.ts:9-18 | the new entry goes first, the earlier entries follow in order, and the log keeps at most 20 |
| DemoLog.AddLogShifts | pages/api/demo/_store.ts:10-17 | every earlier entry moves back by one place, and only the 21st falls off |
| DemoLog.AddAllBounded | pages/api/demo/_store.ts:9-18 | however many entries are added, the log stays within 20 and starts with the last one added |
| Base64Url.StdCharIndex | lib/demoAuth.ts:19 | the standard alphabet of section 4 of RFC 4648 is a bijection between sextets and its 64 characters |
| Base64Url.Enc3 | lib/demoAuth.ts:19 | three bytes become four characters of the alphabet |
| Base64Url.EncodeBody | lib/demoAuth.ts:19 | the unpadded encoding has four characters per whole group, then two for a last single byte or three for a last pair, all in the alphabet |
| Base64Url.EncodeStd | lib/demoAuth.ts:19 | `toString("base64")` is padded to a multiple of four |
| Base64Url.StripPad | lib/demoAuth.ts:19 | `/=+$/` removes exactly the trailing '=' characters and keeps the front |
| Base64Url.GroupRoundTrip | lib/demoAuth.ts:19-25 | one group of three bytes decodes back to itself |
| Base64Url.DecodePadOne | lib/demoAuth.ts:25 | a group ending in one '=' decodes to the first two bytes of the group read with zero bits |
| Base64Url.DecodePadTwo | lib/demoAuth.ts:25 | a group ending in "==" decodes to its first byte |
| Base64Url.DecodeEncodeOne | lib/demoAuth.ts:19-25 | a last single byte round-trips through two characters and "==" |
| Base64Url.DecodeEncodeTwo | lib/demoAuth.ts:19-25 | a last pair of bytes round-trips through three characters and "=" |
| Base64Url.DecodeEncodeStd | lib/demoAuth.ts:19-25 | standard decoding undoes standard encoding for every byte string |
| Base64Url.B64urlBody | lib/demoAuth.ts:17-20 | `b64url` is the unpadded body in the URL alphabet: the padding, and only the padding, is dropped |
| Base64Url.B64urlAlphabet | lib/demoAuth.ts:17-20 | `b64url` output holds no '+', '/', '=' or '.' |
| Base64Url.RoundTrip | lib/demoAuth.ts:17-26 | `b64urlToBuf(b64url(x))` is `x` for every byte string |
| DemoAuth.CleanIdempotent | lib/demoAuth.ts:39-52 | trimming and lower-casing twice is doing it once |
| DemoAuth.CleanAll | lib/demoAuth.ts:37-40 | the kept items are non-empty and already clean |
| DemoAuth.CleanAllMembers | lib/demoAuth.ts:37-40 | an item is kept exactly when it is the non-empty cleaned form of some piece |
| DemoAuth.ParseCsvMembers | lib/demoAuth.ts:36-41 | the list holds exactly the non-empty cleaned comma-separated pieces, an unset variable reading as "" |
| DemoAuth.ExpiryMonotone | lib/demoAuth.ts:43-49 | once the demo has expired it stays expired; an unset or unreadable deadline never expires |
| DemoAuth.DomainOfAddress | lib/demoAuth.ts:60 | the domain of an address with a single '@' is what follows it |
| DemoAuth.IsEmailAllowed | lib/demoAuth.ts:51-64 | allowed exactly when the cleaned address has an '@' and is listed or its domain is listed |
| DemoAuth.AllowedAddress | lib/demoAuth.ts:51-64 | for an address with one '@', allowed iff listed or its domain listed, whatever the case and surrounding white space |
| DemoAuth.Hmac | lib/demoAuth.ts:28-30 | the signature never contains '.' |
| DemoAuth.SignSession | lib/demoAuth.ts:66-70 | the token splits at '.' into exactly the encoded payload and its HMAC |
| DemoAuth.VerifySession | lib/demoAuth.ts:72-91 | an accepted token carries a truthy e-mail and expiry, is not yet expired, and its signature is the HMAC of its payload |
| DemoAuth.SessionFields | lib/demoAuth.ts:83-87 | the e-mail and expiry `verifySession` reads are the session's |
| DemoAuth.SignThenVerify | lib/demoAuth.ts:66-91 | a signed session verifies under the same secret before its expiry when it has an e-mail and a non-zero expiry, and is refused otherwise |
| DemoAuth.TamperedRejected | lib/demoAuth.ts:72-80 | a token whose signature is not the HMAC of its payload is refused |
| DemoAuth.ClearIsEmptyCookie | lib/demoAuth.ts:93-106 | the clearing header is the cookie with an empty value and a zero lifetime |
| DemoAuthEdge.Canonicalize | lib/demoAuthEdge.ts:26-42 | the canonical form has an '@' exactly when the cleaned input has one |
| DemoAuthEdge.CanonicalAddress | lib/demoAuthEdge.ts:28-41 | a clean address with one '@' is rewritten part by part: the domain, then the local part for that domain |
| DemoAuthEdge.GooglemailIsGmail | lib/demoAuthEdge.ts:34 | "googlemail.com" and "gmail.com" addresses with the same local part are the same canonical address |
| DemoAuthEdge.GmailTagAndDots | lib/demoAuthEdge.ts:36-39 | a Gmail address loses its "+tag" and every dot of its local part |
| DemoAuthEdge.CanonicalAll | lib/demoAuthEdge.ts:51 | each listed address is canonicalised in place |
| DemoAuthEdge.IsEmailAllowed | lib/demoAuthEdge.ts:44-59 | an allowed address has an '@' |
| DemoAuthEdge.AliasesAgree | lib/demoAuthEdge.ts:44-59 | the edge check depends only on the canonical address: aliases are allowed alike |
| DemoAuthEdge.ListedAllowedBoth | lib/demoAuthEdge.ts:44-59 | an address listed verbatim is admitted by both the server check and the edge check |
| DemoAuthEdge.TryDecodeSession | lib/demoAuthEdge.ts:86-112 | a decoded session's e-mail is trimmed and lower-cased, and a truthy expiry has not passed |
| DemoAuthEdge.SignatureIgnored | lib/demoAuthEdge.ts:84-97 | the signature half has no influence: a payload decodes alike with any signature |
| DemoAuthEdge.PayloadRead | lib/demoAuthEdge.ts:86-108 | the payload half of a signed token decodes to the session it carries |
| DemoAuthEdge.SignedReadAtEdge | lib/demoAuthEdge.ts:86-108 | a token the server signed is read at the edge as its session, e-mail cleaned, until it expires |
| Middleware.Guard | middleware.ts:16-48 | the guard sets an `x-demo-user` response header only when the cookie's session verifies |
| Middleware.ProtectedNeedsSession | middleware.ts:24-47 | a protected path is served exactly when the demo has not expired and the cookie verifies under a non-empty secret, and the `x-demo-user` set on the response is the session's e-mail |
| Middleware.ExpiryAndSecret | middleware.ts:26-42 | after the demo expiry every protected path redirects to the login page flagged expired; with no secret no cookie is accepted |
| Middleware.OpenPathsPass | middleware.ts:10-24 | the public paths, Next.js internals and any path with a '.' are served without a session, even after the expiry |
| Middleware.SignedCookiePasses | middleware.ts:34-47 | a cookie freshly signed with the secret opens every protected path, with its e-mail as the `x-demo-user` response header, until the session expires |
| Login.SessionFor | pages/api/auth/login.ts:33-35 | the issued session lasts exactly eight hours |
| Login.Issue | pages/api/auth/login.ts:33-39 | a successful login answers 200 and appends one "auth.login" event to the audit list |
| Login.EmailLoginWith | pages/api/auth/login.ts:18-39 | every refusal leaves the store alone and sets no cookie |
| Login.EmailLoginAsWritten | pages/api/auth/login.ts:18-39 | the handler as written: a refusal leaves the store alone |
| Login.EmailLogin | pages/api/auth/login.ts:18-39 | the corrected handler: a refusal leaves the store alone |
| Login.UnsetPasswordAcceptedAsWritten | pages/api/auth/login.ts:26-30 | with DEMO_PASSWORD unset the handler as written admits an allow-listed address sending no password; the corrected one answers 500 |
| Login.UnsetPasswordWitness | pages/api/auth/login.ts:26-30 | the address "a@b", allow-listed, with a 32-character secret, no expiry, no `DEMO_PASSWORD` and no password, is logged in by the handler as written and refused with 500 by the corrected one |
| Login.EmailLoginSucceeds | pages/api/auth/login.ts:18-39 | the e-mail login succeeds exactly for a POST before the expiry with a set matching password, a secret of at least 32 UTF-16 code units and an allow-listed address, then sets that address's session cookie and audits |
| Login.DefaultEmail | pages/login.tsx:36-37 | the password-only login signs a non-empty identity: the cleaned DEMO_DEFAULT_EMAIL or "demo@aif.local" |
| Login.PasswordLogin | pages/login.tsx:20-47 | every refusal of the password-only login leaves the store alone and sets no cookie |
| Login.PasswordLoginSucceeds | pages/login.tsx:20-47 | the password-only login succeeds exactly for a POST before the expiry with the set password and a secret of at least 32 UTF-16 code units, and signs the default identity without the allow list |
| Login.LoginSessionVerifies | pages/api/auth/login.ts:33-37 | the session a successful login signs verifies under the same secret for the next eight hours |
| Bearer.Token | pages/api/agents/check.ts:17 | a header that does not start with "bearer " in any case yields the empty token |
| Bearer.TokenAfterScheme | pages/api/gate/evaluate.ts:9-11 | whatever the case of the scheme, the token is the trimmed rest of the header |
| Bearer.NoSchemeNoToken | pages/api/agents/check.ts:17 | a header whose first seven characters are not "bearer " in any case carries no token |
| Intake.FirstMissing | pages/api/requests/submit.ts:69-74 | no field is reported exactly when every required field is present; a reported field is one that is missing and every earlier one is present |
| Intake.EnvelopeOf | pages/api/requests/submit.ts:77-87 | the envelope is stamped source "foundry", version "v1" and the receive time, with a null payload when none is sent |
| Intake.Submit | pages/api/requests/submit.ts:54-113 | an envelope is queued exactly when the answer is 202 |
| Intake.SubmitAccepted | pages/api/requests/submit.ts:40-74 | a submission is queued exactly for a POST that is authorised or sent while no key is set and carries every required field; any other method is 405; with no key nothing is refused as unauthorised |
| Intake.EnvelopeFields | pages/api/requests/submit.ts:77-79 | the queued envelope carries the body's request and agent ids |
| Intake.Evaluate | pages/api/gate/evaluate.ts:31-49 | an authorised request is answered with the constant ALLOW and echoes its request id |
| Intake.UnsetKeyOpposite | pages/api/gate/evaluate.ts:19-23 | with no key configured the gate refuses every POST while the submission endpoint accepts it |
| Intake.EvaluateAuthorised | pages/api/gate/evaluate.ts:3-39 | the gate answers 200 exactly for a POST whose authorization header, or the service header when that is empty, carries the set key |
| AgentCheck.RequireServiceAuth | pages/api/agents/check.ts:9-22 | authorised exactly when the service token is set and the bearer token equals it; "not configured" when it is unset, "Unauthorized" otherwise |
| AgentCheck.Decide | pages/api/agents/check.ts:31-49 | an unregistered agent is "agent_not_registered"; a registered one reports its status and approval |
| AgentCheck.DecideAllows | pages/api/agents/check.ts:31-49 | an agent may run exactly when registered, not killed, terminated or paused, and approved; the reason names the first failing condition, a stop before approval |
| AgentCheck.AgentIdOf | pages/api/agents/check.ts:64 | the agent id of a check is trimmed |
| AgentCheck.Refusal | pages/api/agents/check.ts:55-65 | a check passes the refusals exactly when it is a GET or POST with the service token and an agent id; a refusal is 400, 401 or 405 with `ok: false` |
| AgentCheck.Answer | pages/api/agents/check.ts:67-105 | a check past the refusals is answered 200 and changes only the agents and the written audit events |
| AgentCheck.Check | pages/api/agents/check.ts:54-106 | a refused check changes nothing; an answered one changes only the agents |
| AgentCheck.CheckAuditDecision | pages/api/agents/check.ts:77-88 | the audit event carries ALLOW or DENY as the verdict and its reason |
| AgentCheck.CheckBodyVerdict | pages/api/agents/check.ts:90-105 | the answer carries the verdict and its reason |
| AgentCheck.CheckAnswered | pages/api/agents/check.ts:54-65 | a check is answered exactly for a GET or POST with the service token and an agent id; without an id it is refused 400 with `{ ok: false, error }` and nothing changes |
| AgentCheck.CheckAudited | pages/api/agents/check.ts:67-105 | an answered check reports the verdict on the stored agent and writes one audit event, ALLOW exactly when the agent may run |
| AgentCheck.HeartbeatPatch | pages/api/agents/check.ts:72 | a heartbeat patch sets last_seen_at and nothing else |
| AgentCheck.HeartbeatRecorded | pages/api/agents/check.ts:70-73 | a heartbeat on a registered agent records last_seen_at and changes nothing else; a check without one leaves the agents alone |
| AgentCheck.CheckAsWritten | pages/api/agents/check.ts:54-88 | check.ts as written: a heartbeat on a known agent throws at the unimported `updateAgent`, and every other check past the refusals throws at `await writeAudit`; either way nothing is stored |
| AgentCheck.CheckAsWrittenFails | pages/api/agents/check.ts:67-77 | as written, every check the corrected handler refuses gets the same reply, and every check it answers is answered 500 with nothing stored: no check is ever answered 200 |
| AgentCheck.CheckAsWrittenWitness | pages/api/agents/check.ts:67-77 | an authorised POST naming "a1" is answered 200 by the corrected handler and 500 as written |
| Execute.TargetOf | pages/api/execute.ts:31-33 | the target picks the Salesforce or ServiceNow adapter exactly when its lower-cased name is that adapter's |
| Execute.ExecutedLines | pages/api/execute.ts:35-44 | an execution appends exactly two events after the existing ones: the EXECUTED status change, then the execution record |
| Execute.Handle | pages/api/execute.ts:13-47 | a refused request leaves the ledger as it was |
| Execute.ExecuteGate | pages/api/execute.ts:13-27 | a request executes exactly when it is a POST naming a decision the store finds that does not await a human approval; an unknown id is 404 and an unapproved HITL decision is 403, with the ledger left as it was |
| Execute.ExecutionKeepsChain | pages/api/execute.ts:35-44 | an execution keeps a valid hash chain valid |
| Execute.DispatchByTarget | pages/api/execute.ts:29-33 | the adapter is chosen without regard to case; any other target gets the generic simulated result |
| DecisionHandlers.RedeemRefusal | pages/api/decisions/approve.ts:19-23 | a token is redeemable exactly on a pending HITL decision holding that non-empty token with a set expiry not yet passed; otherwise 400 for a non-HITL or settled decision and 403 for a bad or expired token |
| DecisionHandlers.Approve | pages/api/decisions/approve.ts:10-36 | a refusal changes nothing; a redemption changes only the decisions and adds one audit event |
| DecisionHandlers.Deny | pages/api/decisions/deny.ts:15-54 | a refusal changes nothing; a denial changes only the decisions and writes one audit event |
| DecisionHandlers.DeniedRecord | pages/api/decisions/deny.ts:30-36 | a denied record has status DENIED, decision DENY and the denial time and user |
| DecisionHandlers.DenyAnyStatus | pages/api/decisions/deny.ts:25-36 | a denial has no transition guard: every existing decision is denied from any status and is then found DENIED |
| DecisionHandlers.DenyAudited | pages/api/decisions/deny.ts:38-51 | the denial's audit event says DENY for the reason decision_denied |
| DecisionHandlers.OutboxKind | pages/api/decisions/notify.ts:46 | the outbox kind is HITL_APPROVAL exactly for a HITL decision and HOTL_REVIEW for every other |
| DecisionHandlers.Notify | pages/api/decisions/notify.ts:15-63 | a refusal changes nothing; a notification leaves the agents alone and adds one outbox item and one audit event |
| DecisionHandlers.NotifySent | pages/api/decisions/notify.ts:15-27 | a notification is sent exactly for a POST before the demo expiry, to an allow-listed approver, about an existing decision; the approver is checked before the lookup |
| DecisionHandlers.OutboxItemKind | pages/api/decisions/notify.ts:43-49 | the outbox item names the decision and has the kind its control mode selects |
| DecisionHandlers.NotifyOutbox | pages/api/decisions/notify.ts:43-49 | a notification appends exactly its own item to the outbox |
| DecisionHandlers.NotifyIssuesToken | pages/api/decisions/notify.ts:29-40 | the notified decision carries the fresh token, expiring fifteen minutes after issue |
| DecisionHandlers.NotifyKeepsState | pages/api/decisions/notify.ts:36-40 | issuing a token leaves the decision's control mode and status as they were |
| DecisionHandlers.NotifyDecisions | pages/api/decisions/notify.ts:36-40 | a notification updates the decisions by exactly the token patch |
| DecisionHandlers.IssueKeeps | pages/api/decisions/notify.ts:36-40 | the token patch does not touch the control mode or status |
| DecisionHandlers.IssuedRecord | pages/api/decisions/notify.ts:36-40 | the token patch stores the token and its expiry |
| DecisionHandlers.RedeemedRecord | pages/api/decisions/approve.ts:26 | redeeming marks a record approved and allowed and removes the token and its expiry |
| DecisionHandlers.ApprovedDecisions | pages/api/decisions/approve.ts:26 | a redemption updates the decisions by exactly the redeem patch |
| DecisionHandlers.ApprovedLookup | pages/api/decisions/approve.ts:26 | after a redemption the decision is found approved without a token |
| DecisionHandlers.RedeemWindow | pages/api/decisions/approve.ts:19-26 | the token of a pending HITL decision redeems up to and including its expiry instant and not after |
| DecisionHandlers.TokenSingleUse | pages/api/decisions/approve.ts:20-26 | a token is single-use: the same request after a redemption is refused with 400 |
| DecisionHandlers.NotifyThenApprove | pages/api/decisions/notify.ts:29-40 | after a notification about a pending HITL decision, presenting the issued token approves it exactly until fifteen minutes after the notification |
| Api.HeaderOr | pages/api/decisions/deny.ts:21 | a header value is its own non-empty text or the fallback |
| Api.Defined | pages/api/decisions/deny.ts:38-51 | an object literal keeps exactly its defined members, with their values |
| Api.StringIfTruthy | pages/api/decisions/deny.ts:34 | a truthy value becomes its string form, a falsy one the fallback |
| Api.UpsertAgent | pages/api/agents/register.ts:197-219 | an upsert keeps the length or adds one record |
| Api.GetAfterUpsert | pages/api/agents/register.ts:197-219 | an upserted record is what a lookup of its id then finds |
| AgentHandlers.Approve | pages/api/approve.ts:16-64 | a refusal changes nothing; an approval changes only the agents and writes one audit event |
| AgentHandlers.ApproveAsWritten | pages/api/approve.ts:16-64 | approve.ts as written, without `await`: a POST with a non-blank id is always answered 200; other answers change nothing, and decisions and the audit list are never touched |
| AgentHandlers.KilledReapprovedAsWritten | pages/api/approve.ts:28-33 | as written, a killed agent is answered 200 and becomes approved and active again, where the guarded handler answers 403 |
| AgentHandlers.UnknownApprovedAsWritten | pages/api/approve.ts:28-29 | as written, an unknown id is answered 200 with no record changed, where the guarded handler answers 404 |
| AgentHandlers.KilledReapprovedWitness | pages/api/approve.ts:28-33 | the single killed agent "a1" is re-approved by a POST naming it, and refused by the guarded handler |
| AgentHandlers.Reject | pages/api/agents/reject.ts:16-63 | a refusal changes nothing; a rejection changes only the agents and writes one audit event |
| AgentHandlers.Kill | pages/api/agents/kill.ts:10-22 | a refusal changes nothing; a kill changes only the agents and adds one audit event |
| AgentHandlers.ApproveAgents | pages/api/approve.ts:33-42 | an approval updates the agents by exactly the approval patch |
| AgentHandlers.ApprovedRecord | pages/api/approve.ts:33-35 | an approved record is approved and active |
| AgentHandlers.ApproveGate | pages/api/approve.ts:16-42 | an approval succeeds exactly for a POST naming an existing agent that is not killed, a paused or terminated one included, and the agent is then found approved and active |
| AgentHandlers.RejectAgents | pages/api/agents/reject.ts:31-41 | a rejection updates the agents by exactly the rejection patch |
| AgentHandlers.RejectedRecord | pages/api/agents/reject.ts:31-40 | a rejected record is unapproved and killed, and its review notes default to "Rejected at design-time gate" |
| AgentHandlers.RejectGate | pages/api/agents/reject.ts:16-41 | a rejection succeeds exactly for a POST naming an existing agent, whatever its status, which is then found killed and unapproved |
| AgentHandlers.KilledRecord | pages/api/agents/kill.ts:17 | a kill sets the status to "killed" and nothing else |
| AgentHandlers.KillAgents | pages/api/agents/kill.ts:17 | a kill updates the agents by exactly the kill patch |
| AgentHandlers.KillGate | pages/api/agents/kill.ts:10-18 | a kill succeeds exactly for a POST naming an existing agent, without a blank-id check, and changes only that agent's status |
| AgentHandlers.KilledNotApproved | pages/api/approve.ts:31 | a killed agent is refused by the design-time approval with 403 |
| AgentHandlers.KilledStaysKilled | pages/api/agents/kill.ts:17 | after a kill the approval refuses the agent and the runtime check denies it with agent_killed |
| AgentHandlers.RejectedStaysRejected | pages/api/agents/reject.ts:31-33 | once rejected, an agent cannot be approved |
| FoundryRun.TrimmedOrEmpty | pages/api/foundry/run.ts:20-21 | a falsy field reads as "", and the result is trimmed |
| FoundryRun.TierFor | pages/api/foundry/run.ts:38-40 | the tier is the requested one whenever it is allowed, else the existing agent's truthy tier, else A2 |
| FoundryRun.ControlsOf | pages/api/foundry/run.ts:42 | a string tier gets the policy engine's controls; any other value matches no tier and throws |
| FoundryRun.Run | pages/api/foundry/run.ts:10-95 | a refusal changes nothing; a link changes only the agents and writes one audit event |
| FoundryRun.RunThrows | pages/api/foundry/run.ts:42 | a link throws exactly when the chosen tier has no definition in the pack, before anything is written |
| FoundryRun.RunLinks | pages/api/foundry/run.ts:25-72 | without upsertAgent a link succeeds exactly when the agent's internal record already exists, and a first link is answered 500; with it every such POST succeeds |
| FoundryRun.UpdatedAgents | pages/api/foundry/run.ts:60-65 | a link without upsertAgent updates the agents by exactly the tier-and-controls patch |
| FoundryRun.LinkedRecordFields | pages/api/foundry/run.ts:60-65 | the link patch sets the tier and controls and keeps every other field |
| FoundryRun.LinkSetsTier | pages/api/foundry/run.ts:34-65 | after a link the internal record carries the chosen tier and its default controls, every other field unchanged; an allowed requested tier is the one chosen |
| FoundryRun.LinkedIdentity | pages/api/foundry/run.ts:48-59 | the upserted record carries the internal id and the chosen tier and controls |
| FoundryRun.FirstLinkRegisters | pages/api/foundry/run.ts:51-55 | a first link registers the agent requested and unapproved, owned by the caller, created now |
| FoundryRun.UpsertLinks | pages/api/foundry/run.ts:46-59 | with upsertAgent the linked record is then found under the internal id |
| AifRun.Registry | pages/api/aif/run.ts:6-10 | exactly the three demo agents are registered |
| AifRun.Refusal | pages/api/aif/run.ts:37-56 | a registered agent is refused exactly when it is not active or is a high-risk agent asked to write |
| AifRun.Run | pages/api/aif/run.ts:12-67 | the answer is 200, 400, 403 or 405, and approved is true exactly on 200 |
| AifRun.RunApproved | pages/api/aif/run.ts:12-62 | a run is approved exactly for a POST with an agent id and input whose agent is registered, active and not a high-risk agent asked to write |
| AifRun.RefusalsAudited | pages/api/aif/run.ts:28-56 | every refusal of a well-formed POST is a 403 with a reason and the audit id of the time |
| AifRun.RegistryOutcomes | pages/api/aif/run.ts:6-56 | the Salesforce agent is approved even to write, the ServiceNow agent is refused exactly the writes, the Workday agent is always refused as paused |
| Register.NewAgentId | pages/api/agents/register.ts:32-35 | a non-blank external id gives "foundry_" + the trimmed id; otherwise the id starts "agent_" |
| Register.IntentFromProblemStatement | pages/api/agents/register.ts:37-55 | each intent field as the keywords of the lower-cased statement set it: a write keyword gives update_record on Salesforce, an HR keyword overrides the system with Workday, a PII keyword gives PII, a cross-border keyword sets the flag |
| Register.RegisteredIntent | pages/api/agents/register.ts:180-184 | the registered intent always names at least one action and one system |
| Register.IntentDefaults | pages/api/agents/register.ts:180-184 | with no lists and no problem statement the intent is retrieve from kb; actions the body gives are kept |
| Register.KeywordIntent | pages/api/agents/register.ts:181 | a body without actions takes the keyword intent of its problem statement |
| Register.KeywordExample | pages/api/agents/register.ts:46-50 | "Update HR" is an update_record intent on Workday |
| Register.ChosenTier | pages/api/agents/register.ts:186-187 | an override naming A1..A6 wins over the resolved tier; any other override is ignored |
| Register.AllowedTools | pages/api/agents/register.ts:190 | every agent may read; write_via_gateway exactly from A3 on |
| Register.Picks | pages/api/agents/register.ts:63-88 | the indices picked are exactly the matching rules, in increasing order |
| Register.ExplainTiering | pages/api/agents/register.ts:57-95 | the explanation carries the final tier and one entry per matching rule, in policy order |
| Register.ExplanationMatchesResolution | pages/api/agents/register.ts:57-95 | every rule the tier resolution matches is listed, a rule without an id as rule_<index>; when none is listed the resolved tier is A1 |
| Register.PlanOf | pages/api/agents/register.ts:180-195 | a registration throws exactly when its tier has no definition; otherwise its tier, controls and id are the registered ones |
| Register.RegisteredTier | pages/api/agents/register.ts:186-187 | the registered tier is always one of A1..A6 |
| Register.Register | pages/api/agents/register.ts:155-269 | a refusal changes nothing; a registration changes only the agents and writes one audit event |
| Register.UnionRight | pages/api/agents/register.ts:197-219 | in a record union the fields of the second record win |
| Register.StandingFields | pages/api/agents/register.ts:197-219 | the standing fields say requested, unapproved, owned by the caller, pending review, with the tier and its tools |
| Register.NewAgentPending | pages/api/agents/register.ts:197-219 | the stored agent is requested and unapproved, owned by the caller, pending review, with its tier and the tools the tier allows |
| Register.RegisterStores | pages/api/agents/register.ts:155-219 | a POST registers exactly when its tier is defined, given upsertAgent, and the agent is then found under its id; without upsertAgent it throws |
| Register.RegisteredId | pages/api/agents/register.ts:32-33 | an external id gives the same foundry_ id the Foundry link uses |
| OverrideStore.RequestOverride | lib/overrideStore.ts:50-70 | the new record is stored under the fresh id, PENDING, requested now by the caller for the agent and tier, with the reason or "" and no approval or expiry |
| OverrideStore.Ttl | lib/overrideStore.ts:81 | the TTL lies in 1..1440 minutes: an absent or zero TTL is 60, one inside the range is kept, one above is 1440, a negative one is 1 |
| OverrideStore.Approve | lib/overrideStore.ts:84-90 | the approved record is APPROVED by the approver, now, expiring TTL minutes later, and otherwise unchanged |
| OverrideStore.ApproveOverride | lib/overrideStore.ts:72-95 | an unknown id changes nothing and yields null; otherwise only that record is replaced by its approval, whatever its status, and the key set is kept |
| OverrideStore.WriteBack | lib/overrideStore.ts:92 | writing back a present key keeps the key set and every other entry |
| OverrideStore.Revoke | lib/overrideStore.ts:101-107 | the revoked record is REVOKED and expires now, keeping a truthy earlier approver and approval time |
| OverrideStore.RevokeOverride | lib/overrideStore.ts:97-111 | an unknown id changes nothing and yields null; otherwise only that record is replaced by its revocation |
| OverrideStore.RevokeTwice | lib/overrideStore.ts:101-107 | revoking twice keeps the approver and approval time of the first revocation and the later expiry |
| OverrideStore.ListOverrides | lib/overrideStore.ts:113-115 | the list is a permutation of the stored records, newest request first |
| OverrideStore.Candidates | lib/overrideStore.ts:119-120 | the candidates are exactly the approved records of the agent that have an expiry |
| OverrideStore.ActiveOverride | lib/overrideStore.ts:117-130 | the active override is a stored, unexpired candidate whose expiry is the latest; there is none exactly when every candidate has expired |
| OverrideStore.ActiveAfterApprove | lib/overrideStore.ts:117-130 | right after an approval the agent has an active override until at least the new expiry |
| OverrideStore.RevokedNeverActive | lib/overrideStore.ts:97-130 | a revoked record is never the active override |
| OverrideStore.ExpiredIsInactive | lib/overrideStore.ts:123-127 | once no override is active, none becomes active later without a new approval |
| OverrideHandlers.TrimmedField | pages/api/overrides/request.ts:15-16 | a field read for an override endpoint is trimmed |
| OverrideHandlers.Request | pages/api/overrides/request.ts:8-39 | a refusal changes nothing, and the store keeps unique ids |
| OverrideHandlers.RequestAccepted | pages/api/overrides/request.ts:8-39 | a request is accepted exactly for a POST with a non-blank agent id and tier; it stores a PENDING override by the caller under the fresh id, changes no other, and writes one audit event |
| OverrideHandlers.TtlArg | pages/api/overrides/approve.ts:22 | a falsy TTL is 60 minutes and a number is taken as it is |
| OverrideHandlers.Approve | pages/api/overrides/approve.ts:8-40 | a refusal changes nothing, and the store keeps unique ids |
| OverrideHandlers.ApproveSucceeds | pages/api/overrides/approve.ts:8-40 | an approval succeeds exactly for a POST naming a stored override, whatever its status; an unknown id is 404 with nothing written; the override is then APPROVED by the caller and expires TTL minutes from now |
| OverrideHandlers.ApprovedIsActive | pages/api/overrides/approve.ts:19-25 | an approval through the endpoint makes the override the agent's active one until it expires |
| OverrideHandlers.Revoke | pages/api/overrides/revoke.ts:8-32 | a refusal changes nothing, and the store keeps unique ids |
| OverrideHandlers.RevokeSucceeds | pages/api/overrides/revoke.ts:8-32 | a revocation succeeds exactly for a POST naming a stored override, which is then REVOKED, expires now and is never the active override |
| DecisionWorker.Decide | scripts/decision_worker.ts:34-43 | exactly a high-sensitivity write_log to demo_log is denied; everything else is allowed with reason "ok", always policy v1 |
| DecisionWorker.KvArrayToObject | scripts/decision_worker.ts:55-64 | the keys are exactly the strings of the even-indexed elements, each mapped to the value of its last pair; anything but an array gives {} |
| Mailer.AllowedDomain | lib/mailer.ts:14-18 | an empty list allows every address; an address without '@' is allowed only by an empty list |
| Mailer.AllowedAddress | lib/mailer.ts:14-18 | an address with one '@' is allowed exactly when the list is empty or holds its domain lower-cased, whatever the local part |
| Mailer.AllowedDomainFacts | lib/mailer.ts:14-18 | an address without '@' is never allowed by a non-empty list, and case makes no difference |
| Mailer.LowerDomain | lib/mailer.ts:16 | lower-casing an address lower-cases its domain |
| Mailer.LowerSplit | lib/mailer.ts:16 | splitting on a non-letter commutes with lower-casing |
| Mailer.SendMailOrSimulate | lib/mailer.ts:20-52 | mail is sent exactly when its domain is allowed, a provider key and sender are set and the provider accepts it; otherwise it is simulated |
| Mailer.NeverOutsideDomains | lib/mailer.ts:21-24 | mail to a domain outside a non-empty allow-list is never sent |
| SpecChat.NewlineRun | pages/api/spec-chat.ts:33 | the newline run at the front is maximal |
| SpecChat.Collapse | pages/api/spec-chat.ts:33 | the collapsed text is no longer, has no three newlines in a row, is empty exactly when the input is, and starts with a newline exactly when the input does |
| SpecChat.CollapseKeeps | pages/api/spec-chat.ts:33 | text without three newlines in a row is left as it is |
| SpecChat.CollapseIdempotent | pages/api/spec-chat.ts:33 | collapsing twice is collapsing once |
| SpecChat.Spans | pages/api/spec-chat.ts:35-42 | the loop cuts no span exactly from the end, and its first span starts where it is and is at most a chunk long |
| SpecChat.SpansRest | pages/api/spec-chat.ts:36-41 | a span that stops short of the end is followed by the spans from overlap before its end |
| SpecChat.SpansLast | pages/api/spec-chat.ts:41 | the last span ends at the end of the text |
| SpecChat.SpansStep | pages/api/spec-chat.ts:36-41 | each span is non-empty, inside the text and at most a chunk long, and exactly a chunk long, overlapping the next, when another follows |
| SpecChat.SpansCover | pages/api/spec-chat.ts:35-42 | every position of the text lies in some span |
| SpecChat.ChunkText | pages/api/spec-chat.ts:32-44 | one chunk per span, none when the text is empty, each non-empty and at most a chunk long |
| SpecChat.ChunkAlongSpan | pages/api/spec-chat.ts:37-38 | chunk k is the collapsed text along span k |
| SpecChat.Scrub | pages/api/spec-chat.ts:49 | scrubbing keeps the length and leaves only token characters and white space |
| SpecChat.Words | pages/api/spec-chat.ts:50-51 | the words are non-empty runs of non-space characters of the text |
| SpecChat.Tokenize | pages/api/spec-chat.ts:46-52 | every token is non-empty and made of [a-z0-9] |
| SpecChat.WordsLoseOnlySpace | pages/api/spec-chat.ts:50-51 | the words run together are the text without its white space |
| SpecChat.ScrubFilter | pages/api/spec-chat.ts:49-51 | scrubbing then dropping white space keeps exactly the token characters |
| SpecChat.TokensAreTheTokenChars | pages/api/spec-chat.ts:46-52 | the tokens run together are the lower-cased text with every character outside [a-z0-9] dropped |
| SpecChat.TokenSet | pages/api/spec-chat.ts:55 | the question set holds exactly the question's tokens |
| SpecChat.ScoreChunk | pages/api/spec-chat.ts:54-59 | the loop counts the chunk tokens, with repetition, that occur in the question |
| SpecChat.ScoreBounds | pages/api/spec-chat.ts:54-59 | a score is at most the chunk's token count, zero exactly when no token is shared, full exactly when every chunk token is a question token |
| SpecChat.ScoreAll | pages/api/spec-chat.ts:63 | every chunk is paired with its own score, in order |
| SpecChat.Ranked | pages/api/spec-chat.ts:64 | the ranking is a permutation of the scored chunks, best first |
| SpecChat.SelectTopChunks | pages/api/spec-chat.ts:61-67 | the selection has the smaller of k and the number of chunks |
| SpecChat.RankedEntries | pages/api/spec-chat.ts:62-64 | every ranked entry is one of the chunks with its own score |
| SpecChat.TopChunksOrdered | pages/api/spec-chat.ts:61-67 | the selected chunks are input chunks, best first |
| SpecChat.RankedContains | pages/api/spec-chat.ts:62-64 | every chunk is ranked with its own score |
| SpecChat.TopChunksAreBest | pages/api/spec-chat.ts:61-67 | no chunk left out scores higher than a selected one |
| SpecChat.Excerpts | pages/api/spec-chat.ts:114-117 | at most six excerpts ground an answer |
| SpecChat.Handle | pages/api/spec-chat.ts:101-147 | the answer is 200, 400, 405 or 500 |
| SpecChat.HandleOutcome | pages/api/spec-chat.ts:101-147 | a question is answered exactly for a POST with a non-blank question when the policy text is read and the model call does not fail; a blank question is 400; the answer carries the best excerpts and the model's answer or the no-key text |
| Console.BulletAt | pages/console/registry.tsx:13-21 | the bullet built for a rank sits at that rank |
| Console.BulletsFrom | pages/console/registry.tsx:13-21 | the bullets from a rank on are in rank order and are exactly those whose control is set |
| Console.Bullets | pages/console/registry.tsx:10-22 | no controls give no bullets; the bullets are in the fixed order |
| Console.BulletsListed | pages/console/registry.tsx:10-22 | each flag bullet is listed exactly when its flag is truthy, and nothing without controls |
| Console.ValueBulletsListed | pages/console/registry.tsx:18-20 | the rate-limit bullet appears exactly for a numeric limit and shows it; the audit-level bullet exactly for a truthy level and shows its text |
| Console.SummarizeControls | pages/console/registry.tsx:10-22 | one text per listed bullet, in order |
| Console.ExplainTierCases | pages/console/registry.tsx:25-35 | the explanation is a tier description exactly for A1..A6 and "No tier assigned." exactly for a missing or empty tier |
| Console.FirstTierMention | pages/console/registry.tsx:47-48 | a mention is "A" and a digit 1..6, and there is none exactly when no "a" is followed by such a digit |
| Console.TopicWhatIsTier | pages/console/registry.tsx:43-50 | A4 questions by name are about A4; other "what is a" questions are about the first tier mentioned |
| Console.AnswerWhatIsTier | pages/console/registry.tsx:37-50 | "what is aN" questions get that tier's description, whatever their case; questions naming A4 get A4's |
| Console.MentionDescribed | pages/console/registry.tsx:26-34 | every tier a question can mention has a description |
| Console.AnswerSuggests | pages/console/registry.tsx:37-85 | a question none of whose keywords the page knows gets the suggestion naming the agent's tier |
| Console.AnswerIgnoresCase | pages/console/registry.tsx:38 | the answer does not depend on the case of the question |
| Console.ContainsStart | pages/console/registry.tsx:43-47 | an occurrence of a longer text is an occurrence of its start |
| Console.ClassifyPayload | pages/console/classify.tsx:47-65 | a payload is posted exactly when the trimmed name and problem are non-blank and nothing is in flight; it holds them trimmed, the review notes or null, and the override only when one is chosen |
| Console.FmtTs | pages/console/agent-inventory.tsx:37-41 | a falsy value shows as "", a short one as it is, a long one as 19 characters |
| Console.FmtTsOfIso | pages/console/agent-inventory.tsx:37-41 | an ISO timestamp shows as its date, a space and its time to the second |
| Console.SafeStr | pages/console/agent-inventory.tsx:43-46 | null and undefined show as "" |
| Console.SafeStrFits | pages/console/agent-inventory.tsx:43-46 | a value that fits shows as its string; a longer one as exactly max characters ending in an ellipsis |
| Console.CountLabelled | pages/console/agent-inventory.tsx:160-166 | a count never exceeds the number of items |
| Console.CountsBounded | pages/console/agent-inventory.tsx:160-166 | no item is counted twice: the allow, deny and pending counts together never exceed the items |
| Console.CountIgnoresCase | pages/console/agent-inventory.tsx:161-164 | decisions are counted whatever their case |
| Sorting.SortDesc | lib/store.ts:131 | the sorted list is a permutation of its input with the greatest key first |
| Sorting.SortDescHeadIsFirstMax | lib/policy/tierRules.ts:16 | the head of the stable sort is the first input with the greatest key |
| Sorting.TakeSorted | pages/api/spec-chat.ts:64-65 | a prefix of a sorted list is sorted |
| Base.IndexOf | lib/policy/tierRules.ts:15 | the index is the first position of the element, or -1 exactly when it is absent |
| Base.DedupeAfterSpec | lib/aura/deterministicRules.ts:28 | building a set keeps what came before, adds exactly the missing elements, and repeats none |
| Base.DedupeAfterAppend | lib/aura/deterministicRules.ts:28 | deduplicating a concatenation starts with the deduplicated first part |
| Text.LowerTrim | lib/demoAuth.ts:52 | trimming and lower-casing commute |
| Text.TrimSpec | lib/demoAuth.ts:52 | a trimmed string neither starts nor ends with white space and is no longer than its input |
| Text.TrimIdempotent | lib/demoAuth.ts:52 | trimming twice is trimming once |
| Text.Utf16Length | pages/api/auth/login.ts:29 | `.length` counts between one and two UTF-16 code units per character |
| Text.Utf16LengthOfBmp | pages/api/auth/login.ts:29 | on Basic Multilingual Plane text `.length` is the number of characters |
| Text.Utf16LengthOfAstral | pages/api/auth/login.ts:29 | a character above the Basic Multilingual Plane counts twice, so 16 of them make a 32-unit secret |
| Text.Split | lib/demoAuth.ts:73 | a split gives at least one part, exactly one when the separator is absent, and no part holds the separator |
| Text.JoinSplit | lib/demoAuth.ts:73 | joining the parts of a split with the separator gives the string back |
| Text.SplitPair | lib/demoAuth.ts:73 | two separator-free strings joined by the separator split back into exactly those two |
| OrderedMap.Find | lib/store.ts:115 | the position found holds the key and is its first; none is found exactly when the key is absent |
| OrderedMap.PutOther | lib/store.ts:115 | setting one key leaves every other key's value as it was |
| OrderedMap.PutShape | lib/store.ts:115 | setting a key keeps keys unique and grows the map only for a new key |
| Json.Merge | lib/demoStore.ts:56-59 | a merge takes each defined patch value, drops each undefined one, and keeps every other field |
| Json.MergeTwice | lib/demoStore.ts:56-59 | merging two patches in turn is merging their union, the later winning |

## Left out

- File and Redis I/O are not modelled. This covers:
  - the `fs` reads and appends of the ledger, override store, policy loaders and demo log;
  - the Upstash branch of lib/store.ts;
  - `emitPlatformStreams` (pages/api/agents/register.ts:107-153);
  - the Upstash `xadd` call inside `writeAudit`, of which `AuditFields.WriteAudit` states only the outcome for each value `redis` can hold.
- State is modelled as in-memory sequences and maps instead.
- A ledger file that cannot be read is treated like an empty one.
- Concurrent appends and forks of the ledger are not modelled.
- The decision worker's main loop and `ensureGroup` (scripts/decision_worker.ts:66 onward) are not modelled. They are stream plumbing around the `decide` and `kvArrayToObject` functions that are modelled.
- Cryptography and randomness are parameters with no properties assumed beyond what each lemma states:
  - SHA-256 and HMAC;
  - `randomBytes`, `Math.random` and `uid`;
  - fresh ids, approval tokens and session nonces.
- Language-model and network calls (`callOpenAI` in pages/api/spec-chat.ts, the Resend `fetch` in lib/mailer.ts) are parameters. They appear only as their outcome: an answer, a failure, an HTTP status.
- The spec-chat prompt text and its module-level chunk cache are not modelled. The cache only avoids re-chunking the same policy text.
- `redactString` (lib/safety/redact.ts:22-31) is a parameter: its regular expressions are not modelled, only the structure around them. The `\b`-delimited keyword tests of `intentFromProblemStatement` are modelled concretely, by `WordAt`/`HasWord` in the `Register` module.
- `JSON.parse` and `JSON.stringify` are parameters.
- Base64 decoding is exact only on well-formed base64url text. Node's decoder is lenient and skips stray characters; such text decodes to nothing in the model.
- `Number` of a string is a parameter, `strNum`.
- SpecChat.ChunkText, Console.FmtTs, Console.SafeStr: a Dafny string counts code points, while JavaScript's `.length` and `.slice` count UTF-16 code units. On text containing characters outside the Basic Multilingual Plane, the model's chunk boundaries differ from the source's. The same holds for the 1200/150 slicing of pages/api/spec-chat.ts:36-41 and for `slice(0, 19)` / `slice(0, max - 1)` of pages/console/agent-inventory.tsx:40,45. For text of BMP characters only, the two agree.
- Intake.Evaluate: the debug logging of pages/api/gate/evaluate.ts:14-17 is not modelled. As written, that logging prints the whole Authorization header and the first and last six characters of the token to the server log.
- TierEngine.ComputeTier, TierRules.EvalTierFromRules: the pack is assumed to have `tiers` and a `tiering` block with `rules` and `tierOrder` arrays. lib/policy/auraPolicyLoader.ts:32-38 declares that shape but does not check it. As written, a pack without `tiering` throws a TypeError at lib/policy/tierRules.ts:34, and one without `tiers` throws at lib/policy/tierEngine.ts:25. `DeterministicRules.Evaluate` does model the corresponding error of lib/aura/deterministicRules.ts.
- Case mapping is ASCII-only. The source's `toLowerCase`/`toUpperCase` are Unicode-aware.
- Wall-clock time is the parameter `now`. ISO timestamp strings are the integer instants they denote: strings of one format compare like their instants.
  - The `requestedAt` sort of lib/overrideStore.ts:113-115 is therefore modelled on instants.
  - The order that sort gives to equal timestamps is not stated.
- The handlers that read lib/demoStore.ts are modelled over a store whose calls complete before the handler goes on. The source differs in the ways below. Each line names the members it concerns and says what the handler does as written.
- AgentHandlers.Approve, AgentHandlers.ApproveGate, AgentHandlers.KilledNotApproved, AgentHandlers.KilledStaysKilled, AgentHandlers.RejectedStaysRejected: pages/api/approve.ts:28,33 call the async `getAgent` and `updateAgent` without `await`. As written, no 404 or 403 is ever returned, because a pending promise is truthy and has no `status`. A found record is patched all the same, so a killed or rejected agent is approved again. An unknown id is answered 200. This is modelled as written by `AgentHandlers.ApproveAsWritten` and is listed under Findings.
- AgentHandlers.Reject, AgentHandlers.RejectGate: pages/api/agents/reject.ts:28,31 have the same missing `await`. As written, an unknown id is answered 200 instead of 404, and a found record is still rejected.
- AgentHandlers.Kill, AgentHandlers.KillGate: pages/api/agents/kill.ts:17 has the same missing `await`, so an unknown id is not answered 404. Line 20 then calls `redact`, which lib/safeLog.ts does not export, and `appendAudit`, which lib/demoStore.ts does not export. As written, every POST therefore ends in a 500 after the kill has been stored.
- DecisionHandlers.Approve, DecisionHandlers.Deny, DecisionHandlers.Notify: these handlers call functions that their imports do not provide. lib/demoStore.ts exports none of `getDecision`, `updateDecision`, `appendAudit` and `pushOutbox`. lib/safeLog.ts does not export `redact`; it has `hashEmail` and `redactForAudit`. lib/demoAuth.ts does not export `isExpiredNow`; it has `isDemoExpiredNow` (lib/demoAuth.ts:43). As written, nothing changes, and:
  - pages/api/decisions/notify.ts:17 calls `isExpiredNow` right after the method check, so every POST is answered 500, before the expiry and allow-list checks;
  - pages/api/decisions/approve.ts:17 calls `getDecision` right after the method check, so every POST is answered 500;
  - pages/api/decisions/deny.ts:27 calls `getDecision` right after the 400 for a missing `decision_id`, so every POST naming a decision is answered 500; the `await writeAudit` that follows would reject as well (see Findings).
  The model gives these handlers the decision-table semantics the names describe, with the expiry check of `isDemoExpiredNow`.
- Register.Register: pages/api/agents/register.ts:197 awaits `upsertAgent`, which lib/demoStore.ts does not export; as written the call throws and the request is answered 500. Line 223 awaits `emitPlatformStreams`, which rejects as well, because line 119 calls the async `getRedis()` without `await` and the `xadd` on the pending promise throws. Line 237 also awaits `writeAudit`, which as written always rejects (see Findings). The model uses the upsert `Api.UpsertAgent` and records the audit event.
- AgentCheck.Check, AgentCheck.CheckAnswered, AgentCheck.CheckAudited, AgentCheck.HeartbeatRecorded: as written, pages/api/agents/check.ts answers no check 200.
  - A heartbeat on a known agent throws at line 72, because `updateAgent` is not imported, and records nothing.
  - Every other check past the refusals throws at the `await writeAudit` of line 77, because lib/audit/audit.ts:53 does not await `getRedis()`.
  - These members state the handler with the import in place and the audit write succeeding. `AgentCheck.CheckAsWritten` models the file as written, and the discrepancy is listed under Findings.
  - Even with `getRedis()` awaited, an unset Redis makes `writeAudit` reject (`AuditFields.WriteAuditOutcomes`), so these members also assume that Redis is configured and accepts the entry.
- FoundryRun.Run, FoundryRun.RunLinks: pages/api/foundry/run.ts:74 awaits `writeAudit`, which as written always rejects (see Findings). As written, every link that reaches that line is answered 500, after the agent record has already been updated. The model answers 200 and records the audit event, as the handler does once the audit write succeeds.
- AgentHandlers.Approve, AgentHandlers.ApproveAsWritten, AgentHandlers.Reject, OverrideHandlers.Request, OverrideHandlers.Approve, OverrideHandlers.Revoke: pages/api/approve.ts:44, pages/api/agents/reject.ts:43, pages/api/overrides/request.ts:27, pages/api/overrides/approve.ts:27 and pages/api/overrides/revoke.ts:21 call `writeAudit` without `await`. As written, the promise it returns rejects, the handler answers as the model does, and no entry reaches the audit stream. The `written` list of the model holds the events handed to `writeAudit`, not what the stream holds.
- Intake.Submit, Intake.SubmitAccepted: pages/api/requests/submit.ts:24 imports `redis` from lib/redis.ts, which exports only `getRedis`, `multiExec` and `cmdUrl`. So `redis` is undefined, `redis.set` at line 92 throws a TypeError inside the `try`, and the `catch` answers 500 `{ error: message }`. As written, nothing is ever queued and no submission is answered 202. The model answers 202 and queues the envelope, as the handler does once the client resolves.
- The `demoUser` argument of the handlers is the request's `x-demo-user` header as the client sent it. middleware.ts:45-46 sets that header on the response of `NextResponse.next()`, which the route handler does not see, so it never carries the session's e-mail. Every handler that reads it trusts a value the caller chose.
- Look-ups of `REGISTRY` (pages/api/aif/run.ts:6-10) and of the tier-explanation maps on inherited property names such as "constructor" are not modelled.
- OverrideStore.ApproveOverride, OverrideStore.RevokeOverride, OverrideHandlers.Approve, OverrideHandlers.ApproveSucceeds, OverrideHandlers.Revoke, OverrideHandlers.RevokeSucceeds: lib/overrideStore.ts:78 and :99 look the id up in a plain object, and the model's store holds only the stored keys. As written:
  - an id naming an inherited property, such as "constructor" or "toString", finds a truthy function; the request is answered 200, and an APPROVED or REVOKED record holding only the fields the update sets is stored under that key;
  - "__proto__" finds `Object.prototype`; the assignment then replaces the object's prototype instead of storing a record, and the request is still answered 200.
  The model answers such an id 404 and stores nothing.
- The `url` diagnostic field of the 405 reply of pages/api/agents/register.ts:163 is not modelled; its `got` field is.
- JSX rendering and page layout are not modelled. Only the console pages' pure helpers are.
- Helpers that the source duplicates verbatim are modelled once:
  - `summarizeControls`/`explainTier` of pages/console/classify.tsx and pages/console/registry.tsx;
  - `safeStr`/`fmtTs`/the decision counts of pages/console/platform.tsx and pages/console/agent-inventory.tsx;
  - `parseCsv`/`isExpiredNow` of lib/demoAuthEdge.ts and lib/demoAuth.ts.
- A `matched_rule_ids` value that is not an array is treated as absent.
- Floating-point arithmetic is not modelled. Numbers are integers, since every number the core compares or adds is a count, a number of minutes or an instant in milliseconds.
- SpecChat.ChunkText: requires `overlap < chunkSize`. With a larger overlap the source's loop never advances. The source calls it only with its defaults, 1200 and 150.
- SpecChat.Ranked: states that the ranking is sorted and a permutation, not that equal scores keep their input order (the sort is stable).
- FoundryRun.AllowedTiers: its contract states the default list and the length of a given list, not the given list's elements, so it has no row in the table. The tier choice that uses it is stated by the rows of `FoundryRun`.

## Findings

| source | as written | input that shows it | evidently intended | confidence | as-written member | corrected member |
|---|---|---|---|---|---|---|
| pages/api/auth/login.ts:26-30 | an unset `DEMO_PASSWORD` makes the expected password "", so a request without a password is accepted | `DEMO_PASSWORD` unset, a secret of 32 or more characters, an allow-listed email such as "a@b", no password in the body | refuse with 500 "Missing DEMO_PASSWORD", as the login page does (pages/login.tsx:30) | not executed | Login.EmailLoginAsWritten (exhibited by Login.UnsetPasswordAcceptedAsWritten and the concrete Login.UnsetPasswordWitness) | Login.EmailLogin (proved by Login.EmailLoginSucceeds) |
| pages/api/approve.ts:28-33 | `getAgent` and `updateAgent` are called without `await`, so `existing` is a pending promise: it is truthy and has no `status`, the 404 and 403 checks never fire, and `updateAgent` still patches the record | a POST naming an agent whose status is "killed" | refuse a killed agent with 403 and an unknown one with 404, as lines 29 and 31 are written to do | not executed | AgentHandlers.ApproveAsWritten (exhibited by AgentHandlers.KilledReapprovedAsWritten, AgentHandlers.UnknownApprovedAsWritten and the concrete AgentHandlers.KilledReapprovedWitness) | AgentHandlers.Approve (proved by AgentHandlers.KilledNotApproved and AgentHandlers.ApproveGate) |
| lib/audit/audit.ts:53-91 | `getRedis()` is called without `await`, so `redis` is a pending promise with no `xadd`: both `xadd` calls throw a TypeError and `writeAudit` always rejects, so pages/api/agents/check.ts:77 answers every check past its refusals 500 | an authorised POST to /api/agents/check naming any agent, whether or not Redis is configured | await the client and write the entry, so that with Redis configured the check is answered 200 with its verdict | not executed | AgentCheck.CheckAsWritten (exhibited by AgentCheck.CheckAsWrittenFails and the concrete AgentCheck.CheckAsWrittenWitness, with AuditFields.WriteAuditOutcomes) | AgentCheck.Check (proved by AgentCheck.CheckAnswered and AgentCheck.CheckAudited) |
