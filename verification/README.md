# The AI gateway's control plane, in Dafny

The gateway compiles operator intent into an immutable runtime snapshot and serves requests
from the latest one. This project models that control plane and the domain types behind it,
and proves what it is for: intent survives compilation, invariants survive every write,
publication converges, and the small codecs and policies around it do what they say.

The model follows the program's own form. Code that mutates state is a class or a method with
loops, proved against a specification function or relation; code that computes is a function.
What such a function gives is stated a second time, column by column and without naming it:
`SnapshotContents` and `RoutingContents` do so for the tables, and the lemmas named `...Iff`,
`...Is`, `...Are` and `...Stores` beside the other definitions.

| module | what it models |
|---|---|
| `Base`, `Seqs`, `Strings` | shared vocabulary; filtering, first-occurrence deduplication, the stable sort behind `sort_by` and `ORDER BY`; string order and blanks |
| `JsonDiff` | the structural diff of provider presets, against a patch function |
| `Metadata` | the three-layer metadata merge and its refresh |
| `Discovery` | discovery, user edits and confirmations on a source's catalog rows |
| `Lifecycle` | the upsert of protocol capabilities and the life of a capability row |
| `Features`, `Tables` | feature intersection; the database tables, with their keys and references |
| `Snapshot`, `SnapshotLaws`, `SnapshotContents` | the snapshot query and the fold into runtime routes, accounts, providers and models; what a built snapshot guarantees; the capability-chain check; every column of a snapshot in terms of the tables |
| `Validation` | the binding, family and route checks |
| `Routing`, `RoutingView`, `RoutingContents`, `RoutingLaws` | compiling an ordered list of lines, reading it back, what it asks for and leaves in the tables column by column, and what it becomes at runtime |
| `Writes`, `ControlPlane`, `AdminLaws` | every admin write as a transaction; the object that runs them; invariants over all runs |
| `Publication` | delayed and reordered delivery of snapshots to the live cell |
| `Matrix`, `MatrixLaws` | the effective capability matrix |
| `Config` | the static configuration: layered capabilities, validation and lookup |
| `Csv` | the CSV export of usage events and a reader for section 2 of RFC 4180 |
| `SourceUrl` | prefix masks, address classes, allowlists and redirect runs |

How the environment is modelled. Tables are maps and sequences; a transaction is "the new
state or the old one"; `Tables.Integrity` is what PostgreSQL's primary, unique and foreign keys
guarantee. The adapter registry, the URL policy, timestamps and fresh identifiers are
parameters. A query with `LIMIT 1` and a search through a hash map may return any matching
row, and every result holds for every choice.

Where the code falls short of what one would expect, the code is modelled as it is:

- Two JSON paths render alike exactly when they are the same path once every key is cut at its
  dots (`JsonDiff.RenderEqualIffFlat`), and a preset diff can hold two such entries
  (`JsonDiff.DiffRendersAlike`).
- The rule against chained adapters is checked layer by layer. For each pair of declared layers
  it holds over all accepted configurations if and only if the layer of the source protocol is
  consulted when the layer of the adapter is checked (`Config.RuleHoldsIffConsulted`); an
  undeclared source is native exactly when the provider lists it (`Config.SourceIsDirect`).
- Discovery changes the catalog without a new revision, so two reloads around it carry the same
  revision and the later arrival wins: `Publication.ReloadsCross` runs into a stale live snapshot.
  `Publication.OrderIrrelevantIffTopsAgree` is the exact condition under which order does not
  matter, and `Publication.DistinctRevisionsCommute` the case of distinct revisions.
- A model feature stored as translated comes out as native when nothing stands in its way
  (`Features.IntersectIsWeakest` says that this is the only exception to "the weaker of the two").
- An allowlist entry for an IPv4 address does not cover its IPv4-mapped form
  (`SourceUrl.ListingMissesMappedForm`); `SourceUrl.MappedIsAllowedAlikeIff` says exactly when the
  two forms are treated alike.

## Model

| member | source | states |
|---|---|---|
| `JsonDiff.DiffJson` | src/control_plane/model_catalog.rs:336-378 | the recursive procedure appends exactly the specified diff, under its path, to the shared list |
| `JsonDiff.PatchDiff` | src/control_plane/model_catalog.rs:336-378 | applying the entries of a diff to the old value gives the new one, for all JSON values, absent ones included |
| `JsonDiff.DiffEmptyIffEqual` | src/control_plane/model_catalog.rs:336-378 | the diff is empty exactly when the two values are equal |
| `JsonDiff.DiffIsExact` | src/control_plane/model_catalog.rs:336-378 | an entry is in the diff exactly when both values are objects at every proper prefix of its path and at its end differ and are not both objects; it carries the two values found there, and is added or missing exactly when the one before or after is absent |
| `JsonDiff.DiffPrefixFree` | src/control_plane/model_catalog.rs:336-378 | no entry's path is a prefix of another's |
| `JsonDiff.PatchPermutation` | src/control_plane/model_catalog.rs:315-333 | prefix-free entries may be applied in any order, so sorting by path cannot change the result |
| `JsonDiff.DiffUndo` | src/control_plane/model_catalog.rs:336-378 | the inverted entries lead from the new value back to the old one |
| `JsonDiff.ProviderPresetDiff` | src/control_plane/model_catalog.rs:315-333 | the sorted list of changes still patches the stored snapshot into the latest definition, undoes it inverted, and is a permutation of the diff |
| `JsonDiff.RenderInjective` | src/control_plane/model_catalog.rs:336-378 | rendered paths are distinct for distinct key lists without dots |
| `JsonDiff.RenderEqualIffFlat` | src/control_plane/model_catalog.rs:336-378 | two paths render alike exactly when cutting every key at its dots makes them the same path |
| `JsonDiff.DiffRendersAlike` | src/control_plane/model_catalog.rs:315-378 | for any two keys, two presets whose diff holds two entries of one rendered path |
| `Metadata.CatalogMetadata.ApplyValues` | src/domain/catalog.rs:374-395 | in place, every known value of the layer and its source are written and nothing else |
| `Metadata.CatalogMetadata.ApplyUserOverrides` | src/domain/catalog.rs:328-335 | validated overrides are written as user fields; invalid ones change nothing |
| `Metadata.CatalogMetadata.RefreshedPreservingUserFields` | src/domain/catalog.rs:337-372 | a refresh is the merge of the layers with the user's fields put back; a confirmed row is returned as it is |
| `Metadata.ResolveIsPerField` | src/domain/catalog.rs:297-326 | for validated layers the overlays are the rule "known preset, else known upstream, else unknown" on every field |
| `Metadata.ResolveIsPerFieldIff` | src/domain/catalog.rs:374-395 | on any layers, validated or not, the overlays are that rule exactly where the last word on an unknown field is the canonical unknown |
| `Metadata.CatalogMetadata.ResolveLayers` | src/domain/catalog.rs:297-311 | refuses exactly the layers that do not validate; otherwise the overlays of upstream and preset over all-unknown |
| `Metadata.RefreshForgetsHistory` | src/domain/catalog.rs:337-356 | on a pending row two refreshes equal the last one |
| `Metadata.RefreshCommutesWithOverrides` | src/domain/catalog.rs:328-356 | on a pending row refreshing and applying user overrides commute |
| `Metadata.RefreshKeepsUserField` | src/domain/catalog.rs:337-356 | no refresh changes a user field |
| `Metadata.OverrideStores` | src/domain/catalog.rs:328-335 | after a user override every named field holds the given value as the user's, and every other field what it held |
| `Metadata.RefreshStores` | src/domain/catalog.rs:337-372 | after a refresh a user field holds what it held, and every other field the known preset value, else the known upstream value, else unknown; confirmed metadata is as it was |
| `Discovery.SourceCatalog.ApplyDiscovery` | src/control_plane/model_catalog.rs:738-859 | accepted exactly under the stated checks, and otherwise nothing changes; a reported row ends available with the finding's raw snapshot and time and no unavailability time, keeps its first time and confirmation, and takes the finding's preset and metadata unless confirmed; an unreported one is withdrawn; a changed entry names exactly the columns that differ |
| `Discovery.SourceCatalog.UpdateUserOverrides` | src/control_plane/model_catalog.rs:628-650 | the named row's overridden fields hold the given values as the user's, its other columns and all other rows are unchanged |
| `Discovery.SourceCatalog.ConfirmModels` | src/control_plane/model_catalog.rs:671-720 | all named rows are confirmed with their edits, at the first confirmation time, with no other column changed, or none is |
| `Discovery.DiscoveryStoresRows` | src/control_plane/model_catalog.rs:1077-1168 | every column of every row after a discovery, reported or not, in terms of the finding and the row before |
| `Discovery.DiffNamesChanges` | src/control_plane/model_catalog.rs:1169-1192 | a model is reported as changed exactly when one of the five columns differs, and its entry lists each of the five names exactly when that column differs |
| `Discovery.DiscoveryIsExact` | src/control_plane/model_catalog.rs:738-859 | afterwards a row is available iff it was discovered, and no row is deleted |
| `Discovery.DiffPartitions` | src/control_plane/model_catalog.rs:1169-1192 | added, changed, missing and unchanged partition the old and the discovered ids |
| `Discovery.DiscoveryIsIdempotent` | src/control_plane/model_catalog.rs:738-859 | repeating a discovery gives an empty diff and leaves every row as it was but for its last-seen time |
| `Discovery.RepetitionIsAccepted` | src/control_plane/model_catalog.rs:738-859 | an accepted discovery is accepted when repeated |
| `Discovery.UserFieldPersists` | src/control_plane/model_catalog.rs:628-720 | over every interleaving of discoveries, edits and confirmations, a user field keeps its value until the next user write of it |
| `Discovery.ConfirmationIsFinal` | src/control_plane/model_catalog.rs:1077-1132 | over every interleaving, discovery never changes a confirmed row's metadata, field sources, preset match or confirmation time |
| `Lifecycle.CapabilityTable.Upsert` | src/control_plane/model_catalog.rs:1241-1310 | accepted exactly under the stated checks; an accepted write that is not absorbed leaves its input's status, mode, source protocol, adapter, features, origin and observation time, with the time of the write where it confirms for the first time or withdraws; an absorbed one leaves the row as it was; no other row changes, and refused upserts change nothing |
| `Lifecycle.ValidateInput` | src/domain/catalog.rs:563-607 | an input passes exactly when it is not a confirmed unknown and its adapter fields fit its mode and a registered direction |
| `Lifecycle.AcceptedIff` | src/control_plane/model_catalog.rs:1241-1284 | when a write is accepted, column by column: the shape of its adapter fields, the two refused transitions, and, unless it is absorbed, a stored source model and a confirmed native source protocol |
| `Lifecycle.RunKeepsRows` | src/control_plane/model_catalog.rs:1285-1302 | in every reachable table confirmed rows carry their confirmation time, exactly unavailable rows carry an unavailability time, adapters are registered for their direction |
| `Lifecycle.ConfirmedAtIsFinal` | src/control_plane/model_catalog.rs:1286-1288 | the confirmation time is written once |
| `Lifecycle.ReconfirmationPassesPending` | src/domain/catalog.rs:25-33 | every way from unavailable to confirmed passes through pending |
| `Lifecycle.ConfirmedChangesByUserOnly` | src/control_plane/model_catalog.rs:1246-1268 | a row that stays confirmed changes only by a user write |
| `Lifecycle.AdapterRestsOnNative` | src/control_plane/model_catalog.rs:1268-1284 | a row with an adapter has had it since the start, or was written at a step at which its source protocol was confirmed native, and has not changed since |
| `Features.IntersectFailsIff` | src/domain/routing.rs:499-543 | an adapter is refused exactly when it would lose a feature without leave, and the first such feature is named |
| `Features.IntersectIsWeakest` | src/domain/routing.rs:499-543 | each effective feature is the weaker of model and adapter, except exactly for a translated feature behind a native pass-through |
| `Features.DegradedIsExact` | src/domain/routing.rs:499-543 | the reported degradations are exactly the features that came out weaker than the model offers |
| `Features.IntersectGives` | src/domain/routing.rs:499-543 | feature by feature: what the model lacks stays lacking, and anything else becomes what the adapter makes of it, native where there is none |
| `Features.CatalogIs` | src/control_plane/snapshot.rs:312-348 | a stored column decodes exactly when it is null or an object whose listed features have known values; a feature is native exactly for `true`, "supported" and "native", translated for "translated", and otherwise absent |
| `Snapshot.SnapshotRowsMembers` | src/control_plane/snapshot.rs:75-90 | the query's rows are exactly the joins of its routes and bindings |
| `Snapshot.BuildSnapshot` | src/control_plane/snapshot.rs:75-309 | it succeeds exactly when no row fails and model maps agree; the result is the in-order grouping of the kept rows into routes, accounts, providers and models (whose columns `SnapshotContents` gives) |
| `SnapshotLaws.BuiltRowsAreListed` | src/control_plane/snapshot.rs:93-186 | when a database builds, the rows behind the snapshot are exactly the query's rows whose protocol the route lists, in order |
| `SnapshotLaws.SnapshotConservesRows` | src/control_plane/snapshot.rs:81-289 | route keys are distinct; each route's bindings are, one by one and in order, the query's rows under its key that the route lists; every listed row is in its route; bindings are as many as listed rows |
| `SnapshotLaws.RoutesConserveRows` | src/control_plane/snapshot.rs:252-289 | whatever rows are kept, route keys are unique, bindings are as many as kept rows, and every kept row is in its route |
| `SnapshotLaws.BindingsAreConfigured` | src/control_plane/snapshot.rs:190-251 | every binding's account and source are in the published configuration |
| `SnapshotLaws.ModelMapAgrees` | src/control_plane/snapshot.rs:213-241 | outside ordered fallback, a binding's upstream model is its account's entry for the logical model, across all rows and routes |
| `SnapshotLaws.ValidateCapabilityChains` | src/control_plane/validation.rs:452-532 | accepts exactly the databases whose confirmed routable capabilities are all backed by an endpoint, natively or through a registered adapter over a confirmed native protocol |
| `SnapshotLaws.ChainsDischargeBuilder` | src/control_plane/validation.rs:452-532 | on such a database the builder never reports a broken chain, adapter or endpoint |
| `SnapshotContents.SnapshotRowsAre` | src/control_plane/snapshot.rs:81-86 | a row is in the query exactly when some route and binding with everything between them enabled, confirmed, available and routable give each of its columns; its account counts as enabled exactly when account and source both are |
| `SnapshotContents.SnapshotRowsAreOrdered` | src/control_plane/snapshot.rs:81-86 | rows come by route, protocol in database order, falling priority, native before adapter, binding id |
| `SnapshotContents.RowIsJudged` | src/control_plane/snapshot.rs:93-251 | a routable row is skipped exactly when its route does not list its protocol, published exactly when it is listed and can be served, and then with the stated protocol, endpoint, mode, adapter, provider, effective and degraded features |
| `SnapshotContents.BuiltRowsAreServable` | src/control_plane/snapshot.rs:93-212 | in a database that builds, every route list decodes and every listed row has an endpoint, a readable feature column, a fitting adapter, no forbidden loss and a positive weight |
| `SnapshotContents.BuildsWhenServable` | src/control_plane/snapshot.rs:93-292 | conversely, such a database fails to build exactly when an account has two upstream models for one public name |
| `SnapshotContents.BindingReflectsTables` | src/control_plane/snapshot.rs:242-277 | each published binding's ids, protocol, endpoint, mode, adapter, features and provider, and its route's key and policy, are those of a route, a model, a binding, a source and a capability in the tables |
| `SnapshotContents.AccountReflectsTables` | src/control_plane/snapshot.rs:213-228 | an account is published exactly when it serves a listed row, under its source, with its name and weight, enabled exactly when its row and its source's row both are |
| `SnapshotContents.ProviderReflectsTables` | src/control_plane/snapshot.rs:190-203 | a provider is published exactly when its source serves a listed row, with the source's name, base URL and endpoints |
| `SnapshotContents.ProviderModelsAre` | src/control_plane/snapshot.rs:204-206 | its models are exactly the upstream models of the source that serve a listed row |
| `SnapshotContents.ModelIsPublishedIff` | src/control_plane/snapshot.rs:278-288 | a public name is published exactly when its model has a listed row |
| `SnapshotContents.ModelReflectsTables` | src/control_plane/snapshot.rs:278-288 | a published model has its row's display name and exactly the accounts that serve one of its listed rows |
| `SnapshotContents.ListsAreOrdered` | src/control_plane/snapshot.rs:293-297 | providers, accounts and models are in ascending order of their ids |
| `SnapshotContents.AgreementIs` | src/control_plane/snapshot.rs:229-241 | model maps agree exactly when every row outside ordered fallback goes to the upstream model of the first row with its account and public name |
| `SnapshotContents.ModelMapIs` | src/control_plane/snapshot.rs:229-241 | an account's map holds the upstream model of the first row with each public name, and nothing else |
| `SnapshotContents.ChainsAre` | src/control_plane/validation.rs:452-532 | the chain check accepts exactly when every confirmed capability of a stored source is native at a filled-in endpoint or adapted, in a registered direction, from a confirmed native one with an endpoint |
| `SnapshotContents.JoinEndpointIs` | src/domain/routing.rs:487-497 | an absolute endpoint is used as it is; any other follows the base URL after exactly one slash, whatever slashes either has there |
| `Validation.ValidateBindingReference` | src/control_plane/validation.rs:292-392 | acceptance is sound whichever rival row the family query returns, and exact once the stored bindings agree on a family |
| `Validation.BindingAdmittedIff` | src/control_plane/validation.rs:292-392 | which rows must be stored for a binding, what must be confirmed, enabled, available and routable once it is active, and which preset some active binding elsewhere must share |
| `Validation.AdmittedAgrees` | src/control_plane/validation.rs:357-392 | despite the same-source exclusion and LIMIT 1, an admitted binding shares the family of every active binding of its model |
| `Validation.ValidateRouteReference` | src/control_plane/validation.rs:394-439 | accepts exactly the routes whose protocols are bound and, when enabled, in no conflict, also with stored lists that do not decode |
| `Validation.RouteAdmittedIff` | src/control_plane/validation.rs:394-439 | a stored model; for each protocol a confirmed binding the catalog offers; and, when enabled, no other enabled route of the model that lists it |
| `Routing.ValidateModelRouting` | src/control_plane/model_routing.rs:191-230 | accepts exactly well-formed intents: no blanks, no duplicate lines, sane limits, lines when enabled |
| `Routing.CompileRouting` | src/control_plane/model_routing.rs:50-188 | compiles exactly the acceptable intents; the tables are the table picture of the intent |
| `Routing.LineBindingsMembers` | src/control_plane/model_routing.rs:121-165 | the compiled bindings are one per line and protocol the line serves, and nothing else |
| `Routing.CompiledRouteIsAdmitted` | src/control_plane/model_routing.rs:166-180 | the compiled route always passes the route check |
| `RoutingContents.RoutingAcceptedIff` | src/control_plane/model_routing.rs:50-230 | when an intent is accepted, column by column: names, limits, distinct complete lines of one preset that each offer a protocol, a public name and a route id that are not another model's |
| `RoutingContents.RouteIdIs` | src/control_plane/model_routing.rs:104-111 | the route keeps the least id of the model's routes, or gets the fresh one |
| `RoutingContents.CompiledModelIs` | src/control_plane/model_routing.rs:68-103 | the model's row holds the intent; lines confirm it and without lines a stored model keeps its status; no other model and no catalog table changes |
| `RoutingContents.CompiledBindingsAre` | src/control_plane/model_routing.rs:121-165 | the model's bindings are line i's at priority -i, confirmed and enabled, one for each protocol it offers, under fresh ids in order; other models keep theirs |
| `RoutingContents.CompiledRouteIs` | src/control_plane/model_routing.rs:162-180 | the model has one route, enabled, in ordered fallback and lossless, or none without lines; other models keep theirs |
| `RoutingContents.CompiledProtocolsAre` | src/control_plane/model_routing.rs:157-162 | the route lists exactly the protocols some line offers, by name |
| `RoutingContents.PausedHasNoRoute` | src/control_plane/model_routing.rs:181-188 | a paused intent has no runtime route under its name |
| `RoutingView.FetchModelRouting` | src/control_plane/model_routing.rs:241-303 | the view groups the ordered bindings by line in first-occurrence order, with sorted routable protocols |
| `RoutingView.RoutingRoundTrip` | src/control_plane/model_routing.rs:50-303 | reading an accepted intent back gives its names, limits, switch and status, its lines in order, each with its sorted served protocols, their sorted union, and ordered fallback |
| `RoutingContents.ViewLinesAre` | src/control_plane/model_routing.rs:241-290 | for any tables, a line is shown exactly when the model has a binding on it whose source and account are stored |
| `RoutingContents.ViewLinesAreOrdered` | src/control_plane/model_routing.rs:241-290 | lines come in the order of their best binding, by falling priority and then by id |
| `RoutingContents.ViewLineProtocolsAre` | src/control_plane/model_routing.rs:241-296 | a shown line lists, by name, exactly the protocols of its bindings that serve now: active, on enabled rows, offered by the catalog and listed by an enabled route |
| `RoutingContents.ViewProtocolsAre` | src/control_plane/model_routing.rs:241-296 | and the view those of all the model's bindings |
| `RoutingLaws.CompileToRuntime` | src/control_plane/snapshot.rs:81-289 | when the snapshot builds, each served protocol has exactly one runtime route under the public name: the serving lines in input order, one binding each, with the intent's policy; an unserved one has none |
| `RoutingLaws.OtherModelsUnaffected` | src/control_plane/model_routing.rs:110-188 | a routing write leaves the runtime routes of every other model as they were |
| `Writes.StoredBindingKeepsFamily` | src/control_plane/bindings.rs:124-216 | storing an admitted binding, new or in place, keeps one provider family per model |
| `Writes.StoredRouteKeepsOneRoute` | src/control_plane/routes.rs:26-121 | storing a route that met no conflict keeps at most one enabled route per model and protocol |
| `Writes.BindingWriteIsLocal` | src/control_plane/bindings.rs:124-233 | a binding write changes the one row it names, to the input, the flag, or nothing left, and no other row |
| `Writes.RouteWriteIsLocal` | src/control_plane/routes.rs:26-138 | a route write changes the one route it names, to the input, the flag, or nothing left, and nothing else |
| `Writes.BindingWriteFrame` | src/control_plane/bindings.rs:124-233 | a binding write changes no table but the bindings |
| `Writes.SourceWriteIsLocal` | src/control_plane/sources.rs:152-272 | a source created or updated is the input's row, one switched is the stored row with the given flag, every other source and every other table is unchanged |
| `Writes.BindingWriteAdmittedIff` | src/control_plane/bindings.rs:124-233 | which binding writes are let through: names, a free line, references, and no step from confirmed to pending or from unavailable to confirmed; switching off is not checked |
| `Writes.RouteWriteAdmittedIff` | src/control_plane/routes.rs:26-138 | which route writes are let through: names, a list of different protocols, a new or a stored id, and the tables' consent; switching off is not checked |
| `Writes.SourceWriteAdmittedIff` | src/control_plane/sources.rs:152-289 | which source writes are let through: a new source of a stored preset version, or a stored one that keeps its preset version |
| `Writes.DeleteSourceIsExact` | src/control_plane/sources.rs:274-289 | deleting a source removes exactly what belongs to it, in every table |
| `Writes.DeleteAccountIsExact` | src/control_plane/accounts.rs:141-156 | deleting an account removes it and its bindings, and nothing else |
| `Writes.DeleteModelIsExact` | src/control_plane/models.rs:125-140 | deleting a logical model removes it, its bindings and its routes, and nothing else |
| `Writes.WriteKeepsSound` | src/control_plane/validation.rs:318-439 | every admitted write keeps the keys, one family per model and one enabled route per model and protocol |
| `ControlPlane.Admin.Commit` | src/control_plane/service.rs:72-116 | commits exactly the databases that pass URL, chain and snapshot checks, at the next revision, with their snapshot; otherwise nothing changes |
| `ControlPlane.Admin.CreateModelBinding` | src/control_plane/bindings.rs:124-149 | all or nothing: the tables with the input's row appended under the next id, committed at the next revision and published, or the tables unchanged |
| `ControlPlane.Admin.UpdateModelBinding` | src/control_plane/bindings.rs:151-183 | as above, with the input in place of the row of that id and along an allowed status transition |
| `ControlPlane.Admin.SetModelBindingEnabled` | src/control_plane/bindings.rs:185-216 | as above, with the stored row's flag set as asked; enabling is checked like creating |
| `ControlPlane.Admin.DeleteModelBinding` | src/control_plane/bindings.rs:218-233 | as above, without the row |
| `ControlPlane.Admin.CreateRouteRow` | src/control_plane/routes.rs:26-56 | all or nothing: the tables with a new, admissible route appended, at the next revision |
| `ControlPlane.Admin.UpdateRouteRow` | src/control_plane/routes.rs:58-89 | all or nothing: the tables with the input in place of the route of its id |
| `ControlPlane.Admin.SetRouteEnabled` | src/control_plane/routes.rs:91-121 | all or nothing: the stored route's flag set as asked; enabling is checked against the other routes |
| `ControlPlane.Admin.DeleteRouteRow` | src/control_plane/routes.rs:123-138 | all or nothing: the tables without the route |
| `ControlPlane.Admin.WriteModelRouting` | src/control_plane/model_routing.rs:50-188 | all or nothing: the compiled tables committed and published, or the tables unchanged |
| `ControlPlane.ValidateSourceInput` | src/control_plane/validation.rs:67-129 | accepts exactly the sources with their names, an allowed URL, non-blank endpoints, and declared capabilities that can be acted on at those endpoints |
| `ControlPlane.SourceInputIff` | src/control_plane/validation.rs:67-129 | what is asked of a source, spelled out: names, a preset version, decodable settings, an allowed base URL, filled-in endpoints and declarations allowed at them |
| `ControlPlane.Admin.CreateSourceRow` | src/control_plane/sources.rs:152-196 | all or nothing: the tables with the input's row under a new id, for an acceptable input of a stored preset version |
| `ControlPlane.Admin.UpdateSourceRow` | src/control_plane/sources.rs:198-247 | all or nothing: the tables with the input's row in place, for an acceptable input; preset and version never change |
| `ControlPlane.Admin.SetSourceEnabled` | src/control_plane/sources.rs:249-272 | all or nothing: the stored source with its flag equal to the argument, and every other row of every table as it was |
| `ControlPlane.Admin.DeleteSourceRow` | src/control_plane/sources.rs:274-289 | all or nothing, with the accounts, catalog rows and bindings of the source |
| `AdminLaws.RunKeepsSound` | src/control_plane/service.rs:72-116 | over every run of writes from a sound state, every state is sound, every changed state has passed the whole-database checks, and revisions only grow |
| `AdminLaws.RunKeepsSourcesServable` | src/control_plane/service.rs:72-116 | in every state a run has committed, every base URL is allowed and every confirmed capability is served, natively or through an adapter over a confirmed native protocol |
| `AdminLaws.RuntimeIsUnambiguous` | src/control_plane/validation.rs:394-439 | the snapshot of a sound state has at most one route per public model and protocol |
| `AdminLaws.RuntimeOneFamily` | src/control_plane/validation.rs:357-392 | all runtime bindings of one public model, across its routes, go to one provider family |
| `AdminLaws.RoutingWritePublishesIntent` | src/control_plane/model_routing.rs:50-188 | a routing write that answers with a snapshot has published its lines in order, per protocol |
| `Publication.AppState.ReloadSnapshot` | src/state.rs:81-94 | the candidate is taken exactly when it is not older than the live one; the live revision never falls |
| `Publication.PublicationConverges` | src/state.rs:81-94 | over every interleaving of commits, reloads and reordered deliveries, the live revision never decreases, never exceeds the committed one, and equals it once nothing is pending |
| `Publication.LiveIsCurrent` | src/control_plane/service.rs:72-116 | if the tables changed only by commits since some commit, the quiet live snapshot is the snapshot of the tables |
| `Publication.OrderIrrelevantIffTopsAgree` | src/state.rs:81-94 | the order of delivery is irrelevant exactly when all candidates of the highest revision are the same snapshot |
| `Publication.DistinctRevisionsCommute` | src/state.rs:81-94 | for candidates of distinct revisions the order of delivery never matters |
| `Publication.ReloadsCross` | src/control_plane/service.rs:170-195 | from any database with a route, a reload, a withdrawal of its models and a second reload can be delivered in two orders that leave different snapshots live, one of them stale |
| `Matrix.BuildMatrix` | src/domain/capabilities.rs:173-213 | it fails exactly on an unroutable mode or two bindings for one cell, and then names the first binding that cannot be laid out; otherwise the rows are the lines with a binding, in key order, with three cells each |
| `Matrix.InsertBinding` | src/domain/capabilities.rs:285-354 | one more binding is laid into its row and cell, or refused because it is unroutable or the cell is taken |
| `MatrixLaws.PlacementsMembers` | src/domain/capabilities.rs:215-283 | what is laid out is exactly the resolved bindings of the published models |
| `MatrixLaws.EveryBindingHasItsCell` | src/domain/capabilities.rs:285-354 | every resolved binding of a published model has a cell in the one row of its line, with the binding's own id, protocols, endpoint, mode, adapter, features and rank and its route's leave to lose |
| `MatrixLaws.EveryCellHasItsBinding` | src/domain/capabilities.rs:285-354 | every routable cell shows one binding of the route its model and protocol resolve to, field by field, and no other binding shares its place |
| `MatrixLaws.RankIsHeldIff` | src/domain/capabilities.rs:215-252 | the ranks that occur for a resolved model and protocol are exactly those below the number of bindings |
| `MatrixLaws.RankHolder` | src/domain/capabilities.rs:215-252 | the row with a rank shows the binding of that rank on its line; only rank 0 is primary |
| `MatrixLaws.RankIsHeldOnce` | src/domain/capabilities.rs:215-252 | no two rows hold the same rank |
| `MatrixLaws.EmptyCellsExplainThemselves` | src/domain/capabilities.rs:373-407 | cells come in the fixed protocol order; an unroutable one carries the resolver's error when resolution failed, and otherwise says that its line has no binding |
| `MatrixLaws.ResolveIs` | src/domain/routing.rs:406-435 | resolution takes the first route of the protocol and model: not found exactly when there is none, unavailable exactly when that one has no binding |
| `MatrixLaws.RowExistsIff` | src/domain/capabilities.rs:215-354 | a line has a row exactly when some protocol of a published model resolves to a binding on it |
| `MatrixLaws.RowsAreOrdered` | src/domain/capabilities.rs:173-213 | rows are in strictly ascending order of model, route, source, account and upstream model |
| `MatrixLaws.PublishedMatrixBuilds` | src/domain/capabilities.rs:173-213 | the matrix of a snapshot built from any database with its keys intact always builds |
| `Config.ValidateMatrix` | src/domain/config.rs:639-721 | accepts exactly the matrices whose entries can all be acted on and whose adapters rest on nothing but native protocols |
| `Config.ValidateOverrideMatrix` | src/domain/config.rs:729-766 | the same, and adapters rest on nothing but native protocols in the base matrix |
| `Config.MatrixOkIff` | src/domain/config.rs:639-721 | which matrices pass, declaration by declaration |
| `Config.LayersPassIff` | src/domain/config.rs:344-405 | which layer each override and each account matrix is checked against |
| `Config.ValidateConfig` | src/domain/config.rs:344-505 | acceptance is sound for the patterns the lookups chose, over providers, accounts, overrides and routes, and whatever passes for every choice is accepted |
| `Config.ExactWhenUnambiguous` | src/domain/config.rs:344-505 | where no lookup has a choice of pattern the two coincide, so validation is exact |
| `Config.RouteCheck` | src/domain/config.rs:407-497 | a route passes when its provider exists, its protocols fit its mode, and fallbacks of other providers are native and not behind an adapter |
| `Config.RoutePassesIff` | src/domain/config.rs:407-497 | which routes pass, mode by mode and fallback by fallback |
| `Config.NativeForIff` | src/domain/config.rs:407-497 | a protocol counts as native for a route exactly when the documented precedence says so, for some choice of patterns or for every one |
| `Config.FindModelOverride` | src/domain/config.rs:768-781 | the exact entry, else some matching pattern, else none |
| `Config.ProtocolCapability` | src/domain/config.rs:512-551 | for some choice of patterns, the declaration in the account's override, else in the provider's override, else in the account's matrix, else in the provider's, else native exactly when the provider lists the protocol and has its endpoint |
| `Config.EffectiveByPrecedence` | src/domain/config.rs:512-551 | the layers of chosen overrides answer by the documented precedence |
| `Config.MatchesIff` | src/domain/config.rs:768-781 | a pattern is a prefix of the model with a star behind it |
| `Config.LookupIsSafe` | src/domain/config.rs:512-551 | in an accepted configuration every lookup, for every choice, is unsupported, native with an endpoint, or a registered adapter of that direction over another protocol with an endpoint |
| `Config.SourceIsDirect` | src/domain/config.rs:692-721 | the source of an effective adapter is effectively native whenever its layer was consulted, and, where undeclared, exactly when the provider lists it as native |
| `Config.RuleHoldsIffConsulted` | src/domain/config.rs:639-766 | for each pair of declared layers, the source is native in every accepted configuration if and only if its layer was consulted |
| `Config.UnconsultedLayerBreaksChain` | src/domain/config.rs:729-766 | for every registered adapter, every model and every unconsulted pair of layers there is an accepted configuration that answers with the adapter over an unsupported protocol |
| `Csv.CsvField` | src/api/usage.rs:476-482 | the field is quoted and escaped exactly when it holds a comma, a quote or a line break |
| `Csv.FieldIs` | src/api/usage.rs:476-482 | a field is the value itself exactly unless a comma, a quote, a line feed or a carriage return occurs in it, and then the value in quotes with nothing but quotes changed |
| `Csv.PlainDocument` | src/api/usage.rs:422-474 | without such characters an export has one line feed for each record, no carriage return and no quote |
| `Csv.UsageEventsCsv` | src/api/usage.rs:422-474 | a reader for section 2 of RFC 4180 gives back the header and the exact values of every event |
| `Csv.PrintedIsParsed` | src/api/usage.rs:422-482 | reading what was printed gives back every record, for all field values |
| `Csv.CsvIsInjective` | src/api/usage.rs:422-482 | two exports are the same text only for the same rendered columns (an absent and an empty value render alike) |
| `SourceUrl.PrefixMatchIsBlock` | src/source_url.rs:374-386 | for every width and prefix length, the mask test is membership in the aligned block of 2^(width - prefix) addresses |
| `SourceUrl.BlocksNest` | src/source_url.rs:374-386 | two blocks that share an address are nested |
| `SourceUrl.PublicIsUnreserved` | src/source_url.rs:339-353 | an IPv4 address is public exactly when it lies in none of the fifteen reserved blocks |
| `SourceUrl.PublicIpv6BySegments` | src/source_url.rs:355-360 | an IPv6 address is public exactly when its first segment is 2000 to 3fff and it is not 2002, 2001:0 to 2001:1ff, or 2001:db8 |
| `SourceUrl.MappedIffEmbedded` | src/source_url.rs:362-372 | unmapping and embedding an IPv4 address undo each other |
| `SourceUrl.MappedIsClassifiedAsEmbedded` | src/source_url.rs:318-337 | an IPv4-mapped address (section 2.5.5.2 of RFC 4291) is public, metadata or never allowed as its embedded address is |
| `SourceUrl.Ipv4AllowedIff` | src/source_url.rs:205-337 | which IPv4 addresses may be reached, by their octets, the public class and the allowlist |
| `SourceUrl.Ipv6AllowedIff` | src/source_url.rs:205-372 | which IPv6 addresses may be reached, mapped ones by their embedded address |
| `SourceUrl.MappedIsAllowedAlikeIff` | src/source_url.rs:213-224 | the two forms are allowed alike exactly when the allowlist does not decide or lists both or neither |
| `SourceUrl.ListingMissesMappedForm` | src/source_url.rs:213-224 | listing any address that needs the list allows it and refuses its mapped form |
| `SourceUrl.ListedPrivateAddress` | src/source_url.rs:213-224 | for one, listing 10.0.0.1 refuses ::ffff:10.0.0.1 |
| `SourceUrl.RequestUrlIff` | src/source_url.rs:123-204 | a request goes out exactly to an http or https URL without credentials, fragment or port 0, whose host is no metadata service and is an allowed address or a name that is public or listed |
| `SourceUrl.SameOriginIff` | src/source_url.rs:388-393 | two URLs share an origin exactly when scheme, host and port agree, an absent port being 80 or 443 |
| `SourceUrl.RedirectRunIsBounded` | src/source_url.rs:160-176 | every followed redirect run makes at most five hops, over distinct URLs of one origin that pass the request check |
| `SourceUrl.RedirectBoundIsTight` | src/source_url.rs:160-176 | every such list of up to six URLs is a run |

## Left out

- Error texts and the order of error messages: an operation reports that it failed, and where it matters which check refused.
- Integer widths: priorities, weights and revisions are unbounded, so `-(position as i32)` and revision overflow are not modelled.
- Timestamps other than confirmation and unavailability times, audit records, discovery run records and system events.
- Binding id sequences keep counting after a rollback in PostgreSQL; here a refused write leaves the next id as well.
- Writes to accounts, logical models, presets and the catalog outside bindings, routes, routing and sources: in the run of admin writes they are one event, `Elsewhere`, that leaves bindings, routes and the presets of stored sources alone.
- The stored authentication settings and declared capabilities of a source, which are checked and then read by nothing modelled here, and manual health transitions.
- Import and restore (src/control_plane/import.rs, `initialize_from_config`): they run neither the family nor the route check, so they only provide initial states.
- A process that dies between commit and delivery: a pending snapshot is eventually delivered.
- The feature capabilities of the static configuration and the strategy of its routes, which validation does not look at.
- Feature derivation from model metadata before a capability upsert.
- Display names of sources and accounts in the capability matrix; the missing binding id error, which resolved runtime routes cannot raise.
- JSON numbers are integers, and of a JSON column that does not decode only the protocols named in it are known.
- The rendering of numbers and dates in CSV columns; a printed header has the same text because its names need no quotes.
- URL and DNS parsing: URLs, hosts and addresses are taken as already parsed and normalized.
- HTTP handlers, authentication, secrets, virtual keys, health tracking, proxying, stream settlement, usage accounting and the web console.
