# Verified model of the conformance harness

The project models the parts of greentic-conformance that decide something, and proves what they promise.

**The mock OAuth server** (`Model`, `Server`, `History`, `Codes`, `Families`, `Devices`, `DeviceRuns`,
`Conservation`, `Framing`, `Requests`, `Answers`, `DeviceAnswers`, with `Scope` and `Text` for the strings).
`Server.MockServer` is the server as it runs: a class whose handlers update the collections of `InnerState`.
`Model.Read` is what a handler takes from the request alone (credentials, dispatch, missing parameters, parsed
scopes) and `Model.Step` the transition it makes under the write lock. Each handler method is proved to make
that transition, and the ghost `log` of an object that is `Valid` is a run in the sense of `Model.Run`: any
sequence of requests, made by any clients. All later results are about every run. `Requests` says on headers
and form fields what is read from a request, and `Answers` and `DeviceAnswers` give for each request the
condition of every answer, on its fields and the log. What is random or external is drawn from an `Oracle` for
each request; what `Model.Plausible` assumes of it is that `generate_code` does not repeat a string, and that
the search for a user code finds some matching entry if there is one. Nothing is assumed of the clock, of
which entry that is, or of the signed tokens, and signing may fail at any time. S256, URL parsing and base64
are arbitrary functions in `Env`, and the two cargo features are arbitrary switches.

Properties that do not hold, and the condition that does:

- A device code is not single use: `approve_device_code` overwrites any status, so an approval after an exchange
  allows another. `Devices.DeviceExchange` says exactly when a presentation, the first or a further one, is
  exchanged: it is in order (`Devices.Ready`) and signing works. Exchanges never outnumber approvals
  (`Devices.ExchangesNeedApprovals`), and runs with any number of both exist (`DeviceRuns.ExchangesAreUnbounded`).
- A device entry can be lost: an exchange whose access or id token cannot be signed returns before the entry is
  put back. An entry is lost if and only if signing fails for a presentation in order (`Devices.DeviceIsKept`),
  and it never comes back (`Devices.LostForGood`). `DeviceRuns.LossIsReached` gives such a run.
- An authorization request whose registered redirect URI is not a URL is answered with an error after its code
  has been stored. `Codes.CodeIsCreated` says when a code is created and when it is handed out.
- Printing and parsing a scope set gives it back if and only if its members are scope tokens; the builder accepts
  others (`Scope.RoundTrip`).
- Component keys `name@version` do not always identify components: two components share a key if and only if
  they have the same name and version, or the version of one starts with what the name of the other has beyond
  its own, like `x@1`, `2` and `x`, `1@2` (`Structure.KeysShared`). Versions without `@` rule this out
  (`Structure.KeysIdentify`).
- The repository's README says that a runtime adapter's view is ensured to match the manifest. The code compares
  sets, so a runtime that lists every flow twice also matches (`Pack.DoubledListMatches`). A matching list is a
  permutation if and only if it is no longer than the manifest's (`Pack.MatchingRuntimeLists`).

**The validators.** `Json` is the containment test of the runner suite, `Flow` the flow validator and its
folder loop, `Pack` manifest verification, `Structure` and `Listing` the structural checks of the command-line
tool and what they list, `Driver` the Python driver of the hosted conformance modules. `Distinct` holds facts
on counting different elements. Loops and accumulated lists are methods with invariants, proved against
predicates that say what is accepted.

## Model

| member | source | states |
|---|---|---|
| Scope.ParseYieldsRuns | crates/oauth-mock/src/lib.rs:1066-1077 | parsing yields exactly the maximal runs of non-white-space characters of the text |
| Scope.ScopeToString | crates/oauth-mock/src/lib.rs:1079-1083 | the hash set, drained in any order, sorted and joined, gives the one text `ScopeText` |
| Scope.PrintIgnoresOrder | crates/oauth-mock/src/lib.rs:1079-1083 | the text is the same for every iteration order of the set |
| Scope.SortSorts | crates/oauth-mock/src/lib.rs:1081 | the listed scopes are in strictly increasing order |
| Scope.RoundTrip | crates/oauth-mock/src/lib.rs:1066-1083 | parsing a printed set gives the set back if and only if its members are scope tokens |
| Scope.PrintInjective | crates/oauth-mock/src/lib.rs:1079-1083 | different sets of scope tokens print differently |
| Scope.PrintParseIdempotent | crates/oauth-mock/src/lib.rs:1066-1083 | printing a parsed request and parsing again changes nothing, so order and repetition in a request do not matter |
| Requests.TokenRequestIsRead | crates/oauth-mock/src/lib.rs:911-948 | a token request is read as a call if and only if it carries the credentials of the caller and asks for that call: a Basic header decodes to id, colon and secret, whatever the form holds, or without a header the form has both; and each parameter stands in its own field under its grant type |
| Requests.TokenRequestIsRefused | crates/oauth-mock/src/lib.rs:911-948 | every other token request is refused, for its credentials first, then its grant type, then its parameters |
| Requests.BearerIsRead | crates/oauth-mock/src/lib.rs:950-957 | a bearer token is exactly what follows "Bearer " in the header |
| Requests.TokenIsNamed | crates/oauth-mock/src/lib.rs:839-899 | introspection and revocation want a Basic header with any credentials, and are about the `token` field |
| Server.MockServer.constructor | crates/oauth-mock/src/lib.rs:247-256 | a server starts empty with the clients of its builder, as the empty run |
| Server.MockServer.HandleAuthorize | crates/oauth-mock/src/lib.rs:438-505 | the checks in order, the code stored before the redirect URI is parsed, and no other change |
| Server.MockServer.HandleAuthorizationCode | crates/oauth-mock/src/lib.rs:540-606 | a found code is removed before it is checked; tokens only if client, redirect URI and challenge match and signing works |
| Server.MockServer.HandleClientCredentials | crates/oauth-mock/src/lib.rs:608-643 | the only grant that compares the client secret; an empty request stands for all allowed scopes |
| Server.MockServer.HandleRefreshToken | crates/oauth-mock/src/lib.rs:645-687 | a found token is removed before its client is checked, and replaced on success |
| Server.MockServer.HandleDeviceCode | crates/oauth-mock/src/lib.rs:689-752 | removing and reinserting the entry amounts to updating its status in place, except where the early returns lose it |
| Server.MockServer.HandleToken | crates/oauth-mock/src/lib.rs:520-538 | credentials first, then dispatch on the grant type |
| Server.MockServer.Authorize | crates/oauth-mock/src/lib.rs:438-505 | the request extends the run of the server by one entry |
| Server.MockServer.Token | crates/oauth-mock/src/lib.rs:520-538 | the request extends the run of the server by one entry |
| Server.MockServer.DeviceAuthorization | crates/oauth-mock/src/lib.rs:760-817 | stores a pending entry that expires in ten minutes, for the allowed part of the scope |
| Server.MockServer.UserInfo | crates/oauth-mock/src/lib.rs:819-837 | serves the claims exactly to access tokens that some response gave out and no revocation has named since |
| Server.MockServer.Introspect | crates/oauth-mock/src/lib.rs:839-874 | answers active exactly for access and refresh tokens that are live by the log |
| Server.MockServer.Revoke | crates/oauth-mock/src/lib.rs:876-903 | removes the named string from both token collections, whoever asks |
| Server.MockServer.Decide | crates/oauth-mock/src/lib.rs:342-363 | sets the status of some entry whose user code matches without regard to case, or fails if there is none |
| Server.MockServer.ApproveDeviceCode | crates/oauth-mock/src/lib.rs:342-351 | the approval extends the run of the server by one entry |
| Server.MockServer.DenyDeviceCode | crates/oauth-mock/src/lib.rs:354-363 | the denial extends the run of the server by one entry |
| History.BuilderIsWellKeyed | crates/oauth-mock/src/lib.rs:164-215 | however the builder is called, every client is stored under its own id |
| History.BuilderKeepsTheLast | crates/oauth-mock/src/lib.rs:194-215 | a client has the secret, redirect URIs and scopes of the last registration of its id |
| History.BuilderStartsWithDefault | crates/oauth-mock/src/lib.rs:164-184 | no other id is known but that of the default client, as built in |
| History.ReachableIsSound | crates/oauth-mock/src/lib.rs:446-488 | in every reachable state codes, refresh tokens and device entries name registered clients and stay within their allowed scopes; codes have a scope, a registered redirect URI and with PKCE a challenge |
| History.DeadBranches | crates/oauth-mock/src/lib.rs:577-589 | no run answers a found code, refresh token or device entry with "unknown client" or "missing code challenge" |
| History.TokensStayWithin | crates/oauth-mock/src/lib.rs:591-605 | every token response is for the caller and names scopes that the caller is allowed |
| History.ClientCredentials | crates/oauth-mock/src/lib.rs:608-643 | a client gets a token in its own name if and only if it sends its registered secret and signing works, for what it asked and is allowed, or all it is allowed if it asked for nothing |
| History.StateFollowsLog | crates/oauth-mock/src/lib.rs:540-752 | what is stored is exactly what the log issued and has not ended since, for access tokens, refresh tokens, codes, device entries and waiting approvals |
| History.IntrospectionFollowsLog | crates/oauth-mock/src/lib.rs:863-873 | at any point of a run introspection answers from the history (section 2.2 of RFC 7662) |
| History.UserInfoFollowsLog | crates/oauth-mock/src/lib.rs:825-836 | at any point of a run userinfo answers from the history |
| Answers.ClientAnswers | crates/oauth-mock/src/lib.rs:608-643 | for the credentials that header or form carry: unknown client, wrong secret, server error or tokens, each with its exact condition |
| Answers.UserInfoAnswers | crates/oauth-mock/src/lib.rs:819-837 | claims exactly for a header with a live access token; what the other headers are told |
| Answers.IntrospectionAnswers | crates/oauth-mock/src/lib.rs:839-874 | every answer of introspection, on its header, its field and the log |
| Answers.RevocationAnswers | crates/oauth-mock/src/lib.rs:876-903 | every answer of a revocation; the token that it names is then live nowhere, and no other token is affected |
| History.StoredWasGenerated | crates/oauth-mock/src/lib.rs:144-147 | every stored code, refresh token and device code came out of the generator |
| Codes.CodeIsCreated | crates/oauth-mock/src/lib.rs:442-504 | exactly which authorization requests create a code, and that it is handed out only if the redirect URI is a URL |
| Answers.AuthorizationAnswers | crates/oauth-mock/src/lib.rs:438-505 | every answer to an authorization request with its exact condition on the query: response type, client, redirect URI, scope, S256 challenge, URL; the redirect carries the code and the state |
| Codes.CodeIsAsGranted | crates/oauth-mock/src/lib.rs:478-488 | a stored code is for ever as the one request that created it left it |
| Codes.CodeExchange | crates/oauth-mock/src/lib.rs:540-606 | an exchange succeeds if and only if signing works and one earlier authorization created the code for the same client, redirect URI and S256 challenge, with no presentation between (section 4.1.2 of RFC 6749, section 4.6 of RFC 7636) |
| Codes.ExchangeGrantsTheRequest | crates/oauth-mock/src/lib.rs:591-605 | the response carries the client and nonce of the authorization request, and its scope text parses to what was requested and allowed |
| Codes.CodeIsSingleUse | crates/oauth-mock/src/lib.rs:561-573 | once a code exists, every presentation after the first finds no such code, whatever became of the first |
| Codes.CodeSucceedsOnce | crates/oauth-mock/src/lib.rs:540-606 | at most one exchange of a code succeeds in a run |
| Answers.CodeAnswers | crates/oauth-mock/src/lib.rs:561-606 | every answer to the presentation of a code with its exact condition: unknown, of another client, other redirect URI, failed verifier, server error, tokens |
| Families.TokensKeepRootGrant | crates/oauth-mock/src/lib.rs:672-676 | every stored refresh token has exactly the client and scope of the exchange at the root of its chain (section 6 of RFC 6749) |
| Families.OneLiveTokenPerFamily | crates/oauth-mock/src/lib.rs:655-676 | at most one refresh token that descends from a given exchange is stored at any time |
| Families.RotationKeepsGrant | crates/oauth-mock/src/lib.rs:667-686 | every response that gives out a refresh token is for the root's client and names the root's scope, over any number of rotations |
| Families.RefreshExchange | crates/oauth-mock/src/lib.rs:645-687 | a refresh token is exchanged if and only if signing works, it is live by the log, and the caller is the client of the exchange at its root |
| Answers.RefreshAnswers | crates/oauth-mock/src/lib.rs:655-687 | every answer to the presentation of a refresh token with its exact condition, and the whole token response |
| Families.RootIsStable | crates/oauth-mock/src/lib.rs:1047-1064 | the root of a token never changes once it is given out |
| Devices.DeviceIsCreated | crates/oauth-mock/src/lib.rs:764-815 | a device code is given out exactly to registered clients, with the feature on |
| Devices.GrantNeverChanges | crates/oauth-mock/src/lib.rs:797-806 | client, scope, user code and deadline of an entry are for ever those of the request that created it |
| Devices.NeverPendingAgain | crates/oauth-mock/src/lib.rs:349-361 | an entry that has left Pending never returns to it |
| Devices.DeviceIsKept | crates/oauth-mock/src/lib.rs:699-751 | from its creation on an entry is stored if and only if signing has failed for no presentation of it that was in order |
| Devices.LostForGood | crates/oauth-mock/src/lib.rs:697-731 | after such a failure every later presentation of the code, by anyone, finds no entry |
| Devices.DeviceExchange | crates/oauth-mock/src/lib.rs:705-752 | an exchange succeeds if and only if signing works, the owner presents the code within ten minutes of its creation, and an approval has since been neither denied, used nor found expired; it fails with `server_error` if and only if all but the signing is in order |
| DeviceAnswers.StatusFollowsLog | crates/oauth-mock/src/lib.rs:710-750 | the status of a stored entry is the last verdict of the log: approved, denied, exchanged or found expired; pending while there is none |
| DeviceAnswers.PresentationAnswers | crates/oauth-mock/src/lib.rs:699-752 | every answer to the presentation of a stored device code with its exact condition: another client's, expired after ten minutes or once found expired, denied, used, wait while undecided, exchanged while approved |
| DeviceAnswers.UnknownDevice | crates/oauth-mock/src/lib.rs:699-703 | a device code is unknown if and only if it is not stored by the log |
| DeviceAnswers.RequestAnswers | crates/oauth-mock/src/lib.rs:760-817 | every answer to a device request; the user code is the drawn one in upper case |
| DeviceAnswers.DecisionAnswers | crates/oauth-mock/src/lib.rs:342-363 | a decision fails if and only if no stored device code was given out with that user code, in any case of letters; otherwise it stands on one that was, and no other entry changes |
| Devices.ExchangeGrantsTheRequest | crates/oauth-mock/src/lib.rs:729-747 | the tokens are for the client of the device request and name the scope it asked for and is allowed; the text parses to that scope if and only if its members are scope tokens |
| Devices.ExchangesNeedApprovals | crates/oauth-mock/src/lib.rs:342-351 | exchanges of a device code, and one more while it is approved, never outnumber the approvals that hit it |
| DeviceRuns.Reissues | crates/oauth-mock/src/lib.rs:342-351 | any run can go on with an approval of a stored entry, whatever its status, and before the deadline with a further exchange |
| DeviceRuns.ExchangesAreUnbounded | crates/oauth-mock/src/lib.rs:349 | on every server with the feature, each client has for every n a run that exchanges one device code n times with n approvals |
| DeviceRuns.LossIsReached | crates/oauth-mock/src/lib.rs:729-731 | on every server with the feature, each client has a run in which an entry is lost, to a failing access token or a failing id token |
| Devices.PollsAreCounted | crates/oauth-mock/src/lib.rs:714-722 | while an entry is Pending its counter is its owner's polls in time modulo 2^32, whatever comes between, and `SlowDowns` of them were told to slow down, the rest that the authorization is pending (section 3.5 of RFC 8628) |
| Devices.SlowDownsBeforeWrap | crates/oauth-mock/src/lib.rs:716-721 | among the first n polls, n below 2^32, exactly n / 3 are told to slow down |
| Devices.NextSlowDown | crates/oauth-mock/src/lib.rs:716-721 | the count of slow-downs stays exact when the `u32` wraps around |
| Conservation.CodesAreConserved | crates/oauth-mock/src/lib.rs:478-564 | the number of stored codes is the codes created less the presentations that found one |
| Conservation.RefreshTokensAreConserved | crates/oauth-mock/src/lib.rs:655-687 | the number of refresh tokens is the successful code and device exchanges less the failed presentations and the revocations that hit one |
| Framing.StepFrames | crates/oauth-mock/src/lib.rs:705-708 | a request of another client leaves a client's device entries alone, adds or alters none of its codes and refresh tokens |
| Framing.OthersOnlyRemove | crates/oauth-mock/src/lib.rs:561-570 | the same over any number of requests of other clients |
| Json.Transitive | src/runner_suite.rs:275-290 | containment is transitive through nested objects and arrays |
| Json.Reflexive | src/runner_suite.rs:275-290 | every value contains itself |
| Json.NotAntisymmetric | src/runner_suite.rs:283-287 | two different arrays can contain one another |
| Json.Monotone | src/runner_suite.rs:275-290 | adding keys and items to the actual value, or dropping them from the expected one, at any depth, keeps containment |
| Json.IgnoresOrderAndMultiplicity | src/runner_suite.rs:283-287 | reordering and repeating array items on either side, at any depth, does not change the answer |
| Json.ContainsMeansShowsMore | src/runner_suite.rs:275-290 | a value contains another if and only if every observation that the other shows, it shows too |
| Text.BlankMeansWhitespace | src/flow_suite.rs:300 | a text is blank after trimming if and only if all its characters are Unicode white space |
| Text.TrimmedLowerMeans | src/flow_suite.rs:360-381 | trimming and lower-casing gives a keyword if and only if the keyword stands in the text, in any case, with nothing but white space around it |
| Flow.ValidateRouting | src/flow_suite.rs:453-500 | no fault exactly for routes whose checked targets are there; otherwise the missing target list or the first unknown target |
| Flow.ValidateFlowType | src/flow_suite.rs:383-451 | no fault exactly if the nodes fit the declared type; otherwise the first node of a wrong kind, or what is missing |
| Flow.ValidateNodes | src/flow_suite.rs:309-344 | no fault exactly if every node passes; otherwise the first node that does not, with the first check it fails |
| Flow.ValidateFlow | src/flow_suite.rs:298-349 | accepts exactly the well-formed flows, and names the first failing check of a rejected one |
| Flow.AnyOrderOfNodes | src/flow_suite.rs:309-346 | acceptance is the same for every permutation of the nodes |
| Flow.TargetsResolveOnce | src/flow_suite.rs:453-500 | in an accepted flow every checked target is the id of exactly one node |
| Flow.RoutesResolveOnce | src/flow_suite.rs:453-500 | the first target of `to_node` and each target of `to_nodes` is the id of exactly one node of an accepted flow |
| Flow.GoodNodeMeans | src/flow_suite.rs:309-344 | what is asked of a node, on its texts: id, kind, metadata with tool and action for `mcp.` kinds, routes that lead to nodes |
| Flow.TypeTextDecides | src/flow_suite.rs:369-451 | a flow with a type is accepted if and only if it is without and the nodes meet the condition of that text; a text that is none of the five adds nothing |
| Flow.SchemaTextDecides | src/flow_suite.rs:354-367 | a flow with a schema marker is accepted if and only if it is without and the marker spells 1, v1 or flow.v1 |
| Flow.SelectedMeans | src/flow_suite.rs:224-239 | a file is selected if and only if its extension is, up to case, an allowed one without upper-case letters |
| Flow.SelectionKeepsOrder | src/flow_suite.rs:218-262 | the files selected have strictly increasing places in the walk, and no selected file is left out |
| Flow.CheckFile | src/flow_suite.rs:245-254 | one file passes if it parses, is well formed, and all custom validators accept it; otherwise the first of these that fails |
| Flow.ValidateFolder | src/flow_suite.rs:214-270 | succeeds exactly if some file is selected and all selected files pass, and reports their documents in walk order; otherwise names the first that does not |
| Flow.ReportedTargetsResolve | src/flow_suite.rs:245-269 | in every flow of a report each checked target is the id of exactly one node |
| Pack.CheckIdentity | src/pack_suite.rs:396-436 | no fault exactly for manifests with a name, a version and no blank entries; otherwise the first fault in the order of the checks |
| Pack.CheckSupplyChain | src/pack_suite.rs:452-474 | missing references are faults where required and warnings where not, blank ones are always faults; the first fault is named, and the warnings are those pushed before it |
| Pack.CheckFlows | src/pack_suite.rs:480-500 | no fault exactly if the flow ids are all different and each export is good; otherwise the first bad export with the first check it fails |
| Pack.ValidateManifest | src/pack_suite.rs:387-513 | accepts exactly the good manifests, names the first failing check of a rejected one, and pushes exactly the warnings due until then |
| Pack.FaultMeansBad | src/pack_suite.rs:387-513 | a manifest of which a fault holds is not good |
| Pack.FaultIsUnique | src/pack_suite.rs:387-513 | at most one fault is the first, so the error and the warnings of a rejection are settled by the manifest and the requirements |
| Pack.VerifyPackExports | src/pack_suite.rs:190-262 | accepts exactly the components with a good manifest and, where required, a matching runtime; otherwise the first failing check is named |
| Pack.SupplyChainMeansNoWarnings | src/pack_suite.rs:452-474 | requiring the supply chain is the same as not requiring it and getting no warnings |
| Pack.RequiringFlows | src/pack_suite.rs:476-478 | requiring flows adds that there is one |
| Pack.RequiringSignature | src/pack_suite.rs:438-450 | requiring a signature adds that there is one with three parts that are not blank |
| Pack.RequiringArtifacts | src/pack_suite.rs:497-510 | requiring artifacts adds that each path named by the manifest exists |
| Pack.RequiringRuntimeMatch | src/pack_suite.rs:240-253 | requiring a runtime match adds that a runtime lists the ids of the manifest's flows and no others |
| Pack.RuntimeMatchMeans | src/pack_suite.rs:528-545 | a runtime list matches if and only if an id is in it exactly when some flow has it |
| Pack.SchemaTextDecides | src/pack_suite.rs:169-182 | a component with a schema marker is accepted if and only if it is without and the marker spells 1, v1 or pack.v1 |
| Pack.NameStandsIn | src/pack_suite.rs:396-403 | a name stands in for a missing id and is not looked at otherwise |
| Pack.RequiringMoreAcceptsLess | src/pack_suite.rs:387-513 | turning requirements on only shrinks what is accepted |
| Pack.MatchingRuntimeLists | src/pack_suite.rs:528-545 | a matching runtime list is at least as long as the manifest's flows, and a permutation of their ids if and only if it is no longer |
| Pack.DoubledListMatches | src/pack_suite.rs:528-545 | a runtime that lists every flow twice matches, and is no permutation |
| Structure.CheckFlows | src/bin/greentic-conformance.rs:841-850 | pushes the issues of all flows in order and collects their ids |
| Structure.CheckComponents | src/bin/greentic-conformance.rs:860-877 | pushes the issues of all components in order, duplicates with the latest earlier one |
| Structure.PerformStructuralChecks | src/bin/greentic-conformance.rs:832-891 | pushes all issues and warnings in the order of the checks |
| Structure.CheckPack | src/bin/greentic-conformance.rs:417-445 | basic exactly for good packs; full exactly for good packs that are signed, have a good SBOM and opened without warnings |
| Structure.NoIssuesMeansGood | src/bin/greentic-conformance.rs:832-891 | the list of issues is empty if and only if the pack is good |
| Listing.IssueIsListed | src/bin/greentic-conformance.rs:832-922 | each issue is listed if and only if the pack deserves it, with its path, id, key, and the latest earlier component of that key |
| Listing.IssuesInOrder | src/bin/greentic-conformance.rs:838-883 | issues of metadata, flows, entry flows, components and signature stand in this order |
| Listing.FlowInOrder | src/bin/greentic-conformance.rs:842-849 | the issues of one flow stand in the order of its checks, each at most once |
| Listing.ComponentInOrder | src/bin/greentic-conformance.rs:862-876 | the issues of one component stand in the order of its checks, each at most once |
| Listing.FlowIssuesGrow | src/bin/greentic-conformance.rs:841-850 | later flows only append to what is listed |
| Listing.ComponentIssuesGrow | src/bin/greentic-conformance.rs:861-877 | later components only append to what is listed |
| Listing.WarningsMean | src/bin/greentic-conformance.rs:879-890 | the warnings are those of opening, in order, then one if an unsigned pack is allowed, then one for a bad SBOM |
| Structure.DuplicatesAreCounted | src/bin/greentic-conformance.rs:841-868 | one issue for every flow and component beyond the first of its id or key |
| Structure.KeysShared | src/bin/greentic-conformance.rs:862 | two components share a key if and only if they have the same name and version or are shifted over an `@` |
| Structure.KeysIdentify | src/bin/greentic-conformance.rs:862 | keys identify name and version if versions contain no `@` |
| Structure.KeysCollide | src/bin/greentic-conformance.rs:862 | shifted components share a key under different names |
| Driver.PollModule | ci/tools/run_rp_modules.py:149-167 | at most 450 polls; true exactly if the module finishes in time with an acceptable result |
| Driver.SucceedsMeans | ci/tools/run_rp_modules.py:149-163 | a success is a passing report within 900 seconds that follows only reports of a running module |
| Driver.EnsureModules | ci/tools/run_rp_modules.py:170-185 | keeps the modules that have an identifier, in plan order and each with the identifier chosen, and fails if there are none |
| Driver.NormalizedSelects | ci/tools/run_rp_modules.py:175-177 | a module is kept if and only if some module of the plan has that identifier: the first of the three keys that is there and not empty |
| Driver.NormalizedKeepsOrder | ci/tools/run_rp_modules.py:174-182 | the modules kept have strictly increasing places in the plan, and every module with an identifier is kept |
| Driver.DriveModule | ci/tools/run_rp_modules.py:193-227 | raises only if the set-up fails, or with fail-fast if the module is not good; otherwise says whether it is good |
| Driver.GoodMeans | ci/tools/run_rp_modules.py:196-212 | what is asked of a module by the status it reports first: start, trigger, success |
| Driver.DriveModules | ci/tools/run_rp_modules.py:188-229 | true in either mode exactly if all modules are good; without fail-fast all are visited, with it the first that is not good ends the run |

## Left out

- HTTP routing, JSON serialisation, spawning and shutdown of the server, the discovery and key documents.
- SHA-256, base64, URL parsing, RSA, JWT encoding and UUIDs: arbitrary functions or drawn values; that random strings of 32 characters never repeat is assumed.
- Claims of access and id tokens other than audience, scope and nonce; the fields of stored entries that nothing reads.
- A debug build stops at the overflow of the poll counter; the model wraps around as a release build does.
- Error messages: errors are variants with the offending index or path.
- Server.MockServer.Decide: does not say which of several entries with the same user code is found, because a hash map does not.
- `resolve_pack_manifest`, `validate_pack_layout`, the directory walk, and YAML and JSON parsing: their results are inputs.
- Driver.PollModule: `requires` that each sleep takes two seconds or more; with a clock that stands still the original polls for ever.
- Exceptions of the HTTP client other than `RuntimeError` leave the driver at once in either mode and are not modelled; identifiers of modules are strings.
- `src/suites/oauth.rs`, the component, deployer, events, broker and policy suites, and the command-line plumbing: network, processes, or checks of single fields.
- The types of packs come from another crate, which is not part of this model: versions and paths are strings here.
