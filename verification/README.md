# Verified models of the Colony agent harness

Dafny models of the stateful and byte-level cores of the repository, and proofs about them.
`dafny verify dfyconfig.toml` covers every file.

| files | what they model |
|---|---|
| `acp_*.dfy`, `json.dfy` | the ACP client: the prompt read loop with mid-turn steers, idle and hard deadlines, permission requests, prompts, cancels and plain requests |
| `config_merge.dfy` | the layered `CODEX_CONFIG` merge |
| `profile_cache.dfy` | the business profile cache shared by concurrent workers |
| `rust_lexer.dfy`, `rust_search.dfy`, `rust_attributes.dfy`, `brace_matching.dfy`, `rust_modules.dfy` | the Rust scanner of the test discovery script |
| `release_ledger.dfy` | which release a desktop release follows, and which commits its changelog lists |
| `png_filters.dfy`, `png_file.dfy`, `bytes.dfy` | the PNG reader and writer of the mobile screenshot tool |
| `resp.dfy` | the Redis protocol printer and parser |
| `rule_matching.dfy`, `timeout_counter.dfy`, `evaluation_pool.dfy` | subscription rules, their timeout counters alone and under concurrent calls, and the pool that evaluates filters |
| `audio_reframing.dfy` | the microphone worklet |

How the client model is built: `acp_wire.dfy` defines frames, events and what can be read off a
history of events; `acp_rules.dfy` says which event may follow a history and proves what every legal
history guarantees; `acp_turn.dfy` is the client as a state machine over select outcomes;
`acp_refinement.dfy` shows that the machine produces legal histories only and that its fields are
folds of the history; `acp_timing.dfy` and `acp_routing.dfy` add deadlines and routing;
`acp_theorems.dfy` states the results over any sequence of calls; `acp_counterexamples.dfy` holds runs
that break two promises one might expect; `acp_client.dfy` is the object that
updates its fields in place, each method proved equal to the machine.

Which select arm wins, the frames, the time that passes before each clock reading, the authorization
verdict and the success of each write are inputs, so a theorem covers every choice of them. A script
that stops while a loop runs stands for a future that was dropped.

Findings:

- The comment at `crates/buzz-acp/src/acp.rs:1515-1516` promises that a pending steer is drained on
  every return path. The two `?` exits do not drain it. `SteerLostOnQuestionMark` is a run that loses
  a steer request. `StepLosesIff` gives the guard of the loss, and `TurnAcksIff` and `DrainAcksIff` say
  exactly when a whole turn or the drain of a cancel loses one.
- Only steers of one read loop are kept from overlapping. A prompt can be answered while its steer is
  not, and the next turn can steer again (`SteersOverlapAcrossTurns`). A steer overlaps exactly those
  that earlier loops left behind (`LegalOverlaps`).
- The double-response guard in the cancel path never has anything to guard against
  (`PermissionsAnsweredOnce`).
- The configuration merge is not associative (`MergeNotAssociative`). Two groupings of three layers
  agree exactly under the condition of `AssociativeIff`.
- A worklet call fails exactly when it transmits more samples than two frames have room for
  (`FailsIff`); inputs of at most one frame never do (`NeverFails`).
- A rule that was switched off after five time-outs can come back on when calls overlap
  (`DisabledRuleReopens`), and its counter can pass five (`BoundIsMet`). `StaysDisabledIff` says exactly
  when it stays off, and `CounterBounded` how far the counter goes.

## Model

| member | source | states |
|---|---|---|
| `AcpTheorems.ClientSafety` | crates/buzz-acp/src/acp.rs:937-1914 | Over any sequence of requests, prompts, cancels and dropped futures: request ids strictly increase; every `expectedRunId` written equals the fold of the run id updates read so far, and the extension method is written only when advertised and no run id is known; no steer is written while another of the same read loop is unanswered, and the unanswered steers it overlaps are exactly those that earlier read loops left behind; every success ack directly follows the agent's delivery of that very steer; each prompt is cancelled at most once and never after its response was returned; a permission response that selects an option directly follows its own request, and that request offers the option |
| `AcpTheorems.RunIdIsFold` | crates/buzz-acp/src/acp.rs:2018-2053 | After any calls the stored run id is the left fold of all `activeRunId` set and null updates read, and the stored capability is what the last `initialize` answer advertised |
| `AcpTheorems.PermissionsAnsweredOnce` | crates/buzz-acp/src/acp.rs:2171-2321 | Over any run the completed responses to a permission id never outnumber its requests, so a distinct id is answered at most once, also through cancels; the responded flag is never set while an id is pending |
| `AcpTheorems.SteersConserved` | crates/buzz-acp/src/acp.rs:1575-1872 | Between calls, takes of a steer request equal its acks plus the times it was lost with its loop |
| `AcpTheorems.TurnAcks` | crates/buzz-acp/src/acp.rs:1517-1521 | At every point of every turn each steer request taken has exactly one ack, except the single pending one, which is the one the wire shows unanswered |
| `AcpTheorems.TurnAcksIff` | crates/buzz-acp/src/acp.rs:1512-1521 | All steer requests of a turn are acked if and only if it left by a draining exit or no steer is in flight; it loses one through `?` if and only if, with a steer pending and no deadline passed, one of its inputs is a frame whose handling fails |
| `AcpTheorems.StepLosesIff` | crates/buzz-acp/src/acp.rs:1877-1910 | An iteration, in a prompt loop or a drain, leaves through `?` with a steer request unacked if and only if a steer is pending, no deadline has passed, and the frame is an unusable permission request or an agent request whose answer cannot be written |
| `AcpTheorems.RunLosesIff` | crates/buzz-acp/src/acp.rs:1494-1914 | The same for any run of the loop: it loses a steer request so if and only if one of its inputs meets that guard while the loop is open |
| `AcpTheorems.LoopAcksIff` | crates/buzz-acp/src/acp.rs:1512-1521 | At any point of any loop all steer requests taken are acked if and only if none is pending |
| `AcpTheorems.PropagatesIff` | crates/buzz-acp/src/acp.rs:1877-1910 | An iteration leaves through `?` if and only if no deadline has passed and the frame is an unusable permission request or an agent request whose answer cannot be written |
| `AcpCounterexamples.SteerLostOnQuestionMark` | crates/buzz-acp/src/acp.rs:1905 | A run in which a steer request is taken, and the loop returns without acking it |
| `AcpCounterexamples.SteersOverlapAcrossTurns` | crates/buzz-acp/src/acp.rs:1859-1872 | A run of two turns in which a steer is written while the steer of the first turn has no reply |
| `AcpTheorems.TurnTiming` | crates/buzz-acp/src/acp.rs:1523-1561 | In every turn the idle deadline is last activity plus the idle timeout; an idle time-out means no valid frame for that long, a hard time-out that the hard deadline passed, with the true silence; the client's stored deadline follows renewals |
| `AcpTiming.StepTiming` | crates/buzz-acp/src/acp.rs:1797-1829 | Every iteration leaves the hard deadline alone, or moves it up to the maximum duration from now on a goose success or `injected` reply to the pending steer |
| `AcpTheorems.HardDeadlineBounds` | crates/buzz-acp/src/acp.rs:1538-1561 | After the hard deadline at most one more outcome is handled before the loop returns, unless that outcome renews the deadline |
| `AcpTheorems.CancelInheritsDeadline` | crates/buzz-acp/src/acp.rs:1127-1156 | After a timed-out turn the prompt is still the one to cancel, and the drain may last to that turn's hard deadline, or 30 seconds if that is later |
| `AcpTheorems.TurnRouting` | crates/buzz-acp/src/acp.rs:1753-1874 | A turn returns a response exactly when it has read a frame with the prompt's id and no method, and returns that frame; steer replies, late replies and agent requests with a colliding id never end it |
| `AcpTheorems.DrainKeepsRules` | crates/buzz-acp/src/acp.rs:1187-1235 | The drain loop of every cancel waits for the cancelled prompt, returns a response exactly when it has read that prompt's own, and then that one, and times out only when a deadline is due |
| `AcpTheorems.DrainAcks` | crates/buzz-acp/src/acp.rs:1187-1235 | At every point of every drain each steer request taken has exactly one ack, except the single pending one |
| `AcpTheorems.DrainAcksIff` | crates/buzz-acp/src/acp.rs:1187-1235 | When a drain has acked all its steer requests, and exactly when it loses one through `?`, as for a turn |
| `AcpTheorems.CallRouting` | crates/buzz-acp/src/acp.rs:1367-1461 | A plain request returns an answer exactly when a reply with its id and no method was read after the request was written, and returns that reply |
| `AcpTiming.FramesAreActivity` | crates/buzz-acp/src/acp.rs:1744-1746 | Exactly the valid frames count as activity, when they are read; a tool call counts again after it was handled; blank lines, bad JSON and steers do not count |
| `AcpRefinement.ChoiceOffered` | crates/buzz-acp/src/acp.rs:2171-2321 | Whatever the decision, the option selected is one of the request's own allow or reject options, or `reject` for a reject option without an id |
| `AcpRefinement.FindsFirst` | crates/buzz-acp/src/acp.rs:2225-2233 | The option chosen by kind is the first of that kind, and none is chosen only if none exists |
| `AcpTheorems.ChoiceRespectsDecision` | crates/buzz-acp/src/acp.rs:2171-2321 | A refused tool, or any tool in a connection probe, is never answered with an allow option; otherwise an allow option wins when offered |
| `AcpRules.LegalIds` | crates/buzz-acp/src/acp.rs:957-959 | In every legal history request ids strictly increase |
| `AcpRules.LegalTransports` | crates/buzz-acp/src/acp.rs:1609-1660 | In every legal history steers use the transport that run ids and capability call for |
| `AcpRules.LegalPermissions` | crates/buzz-acp/src/acp.rs:2171-2321 | In every legal history answers to an id plus an open request never exceed the requests |
| `AcpRules.LegalSelections` | crates/buzz-acp/src/acp.rs:2171-2321 | In every legal history each selecting response directly follows the request that offers its option |
| `AcpRules.LegalAcks` | crates/buzz-acp/src/acp.rs:1575-1872 | In every legal history takes of a ticket are its acks, its losses and the one owed |
| `AcpRules.LegalLoopAcks` | crates/buzz-acp/src/acp.rs:1575-1872 | The same balance within the current read loop |
| `AcpRules.LegalFlight` | crates/buzz-acp/src/acp.rs:1575-1600 | In every legal history no steer was written while another of the same read loop was unanswered, and the unanswered steer of the loop is the pending one |
| `AcpRules.UnansweredSplits` | crates/buzz-acp/src/acp.rs:1575-1600 | In any history each unanswered steer was left behind by an earlier read loop or is in flight in the current one |
| `AcpRules.LegalOverlaps` | crates/buzz-acp/src/acp.rs:1517-1521 | In every legal history the steers unanswered when one goes out are exactly those left behind by earlier read loops |
| `AcpRules.LegalSuccesses` | crates/buzz-acp/src/acp.rs:1755-1857 | In every legal history each success ack follows a delivery of its own steer |
| `AcpRules.LegalCancels` | crates/buzz-acp/src/acp.rs:1187-1235 | In every legal history cancels are unique and precede the returned response |
| `AcpRefinement.RunRemembers` | crates/buzz-acp/src/acp.rs:1494-1914 | Every run of the read loop keeps the history legal and the fields and the pending steer equal to its folds |
| `AcpRefinement.ExecAllRests` | crates/buzz-acp/src/acp.rs:937-1302 | So does every sequence of calls on the client |
| `AcpClientObject.AcpClient.constructor` | crates/buzz-acp/src/acp.rs:640-664 | A spawned client is the fresh state and satisfies its invariant |
| `AcpClientObject.AcpClient.WriteNdjson` | crates/buzz-acp/src/acp.rs:1241-1258 | One write is one history event, completed or failed |
| `AcpClientObject.AcpClient.HandlePermissionRequest` | crates/buzz-acp/src/acp.rs:2171-2321 | The handshake in place equals the specified step, every early error included |
| `AcpClientObject.AcpClient.HandleFrame` | crates/buzz-acp/src/acp.rs:1877-1910 | Dispatch of notifications and agent requests in place equals the specified step |
| `AcpClientObject.AcpClient.DrainSteer` | crates/buzz-acp/src/acp.rs:1546-1552 | Releases exactly the pending steer |
| `AcpClientObject.AcpClient.ReturnOnDeadline` | crates/buzz-acp/src/acp.rs:1666-1682 | The error returned is that of the deadline classified first |
| `AcpClientObject.AcpClient.HandleSteer` | crates/buzz-acp/src/acp.rs:1575-1665 | The steer arm in place equals the specified step |
| `AcpClientObject.AcpClient.HandleSteerReply` | crates/buzz-acp/src/acp.rs:1753-1858 | Routing of a steer reply in place, with its renewal, equals the specified step |
| `AcpClientObject.AcpClient.ReceiveFrame` | crates/buzz-acp/src/acp.rs:1744-1910 | One valid line in place equals the specified step |
| `AcpClientObject.AcpClient.SelectOnce` | crates/buzz-acp/src/acp.rs:1563-1713 | One select outcome in place equals the specified step |
| `AcpClientObject.AcpClient.Iterate` | crates/buzz-acp/src/acp.rs:1528-1914 | One iteration with its deadline check equals the specified step |
| `AcpClientObject.AcpClient.ReadUntilResponseWithIdleTimeout` | crates/buzz-acp/src/acp.rs:1494-1914 | The loop over raw lines equals the machine's run, so all turn theorems hold of the object |
| `AcpClientObject.AcpClient.ReadUntilResponse` | crates/buzz-acp/src/acp.rs:1367-1461 | The plain loop equals its specified run |
| `AcpClientObject.AcpClient.SendRequest` | crates/buzz-acp/src/acp.rs:1272-1302 | A plain request spends one id and equals its specified run |
| `AcpClientObject.AcpClient.Initialize` | crates/buzz-acp/src/acp.rs:755-768 | Records the advertised steering capability from the result, and returns what the request returns |
| `AcpClientObject.AcpClient.SessionPrompt` | crates/buzz-acp/src/acp.rs:937-1002 | A prompt call is the specified call on every exit, returns that exit, and keeps the client's invariant |
| `AcpClientObject.AcpClient.CancelWithCleanupUntil` | crates/buzz-acp/src/acp.rs:1187-1235 | A cancel to a given deadline is the specified call, and returns what that call returns: an early error, or the exit of its drain |
| `AcpClientObject.AcpClient.CancelWithCleanup` | crates/buzz-acp/src/acp.rs:1127-1185 | Both public cancels keep the invariant and return that exit, with a hard time-out under a grace turned into the drain time-out |
| `AcpClientObject.AcpClient.InstallSteerRx` | crates/buzz-acp/src/acp.rs:1090-1092 | Installs the receiver and changes nothing else |
| `AcpClientObject.AcpClient.ClearSteerRx` | crates/buzz-acp/src/acp.rs:1105-1107 | Removes the receiver and changes nothing else |
| `AcpClientObject.AcpClient.CaptureConnectionReply` | crates/buzz-acp/src/acp.rs:666-671 | From then on the client is in a connection test; nothing else changes |
| `AcpClientObject.AcpClient.TakeConnectionReply` | crates/buzz-acp/src/acp.rs:701-706 | Ends the test, unless the client was spawned as a probe; nothing else changes |
| `ConfigMerge.DeepMerge` | crates/buzz-acp/src/acp.rs:247-267 | The loop over overlay keys, in any order, computes the recursive merge |
| `ConfigMerge.MergeAt` | crates/buzz-acp/src/acp.rs:247-267 | What a merge holds at every path: the overlay's value, over the base where both are objects; nothing where an overlay leaf cuts the path off; the base's value elsewhere |
| `ConfigMerge.OverlayLeafWins` | crates/buzz-acp/src/acp.rs:247-267 | Every overlay value that is not an object appears unchanged |
| `ConfigMerge.BaseLeafSurvivesIff` | crates/buzz-acp/src/acp.rs:247-267 | A base leaf survives if and only if the overlay has no non-object at a proper prefix and no different value at its path |
| `ConfigMerge.MergeNotAssociative` | crates/buzz-acp/src/acp.rs:247-267 | A family of three layers on which the two groupings differ |
| `ConfigMerge.AssociativeIff` | crates/buzz-acp/src/acp.rs:247-267 | The two groupings of three layers agree if and only if, under every key that all three have, a middle value that is no object stands between two objects only where the upper one absorbs the lower, at every level |
| `ConfigMerge.AbsorbsIff` | crates/buzz-acp/src/acp.rs:247-267 | Merging a layer below another adds nothing if and only if the upper one has all its keys, at every level where both have objects |
| `ConfigMerge.TopmostLayerWins` | crates/buzz-acp/src/acp.rs:341-365 | In a stack of layers a leaf is decided by the topmost layer that says anything about its path |
| `ConfigMerge.BuildCodexConfigEnv` | crates/buzz-acp/src/acp.rs:296-384 | Skips exactly without a generated entry; otherwise fails at the first bad entry with its source, or is the fold of the entries and then the parent, with network access forced |
| `ConfigMerge.FindBadEntry` | crates/buzz-acp/src/acp.rs:322-339 | The first entry that is not a JSON object, if there is one |
| `ConfigMerge.MergeEntries` | crates/buzz-acp/src/acp.rs:342-345 | The entries merged in order are the stack of their layers |
| `ConfigMerge.CollectValues` | crates/buzz-acp/src/acp.rs:308-312 | The `CODEX_CONFIG` entries, in order |
| `ConfigMerge.ForcedAt` | crates/buzz-acp/src/acp.rs:363-382 | The forced setting is true, and every path that is not on it or below it is as the layers left it |
| `ProfileCache.BusinessProfileCache.constructor` | crates/buzz-acp/src/business_profile.rs:160-167 | An empty cache |
| `ProfileCache.BusinessProfileCache.UseOrClaim` | crates/buzz-acp/src/business_profile.rs:185-197 | Claims exactly when the last answer or claim is not fresh, and then only stamps the claim |
| `ProfileCache.BusinessProfileCache.Apply` | crates/buzz-acp/src/business_profile.rs:142-153 | Stamps the answer, and replaces the snapshot unless it is newer |
| `ProfileCache.BusinessProfileCache.Complete` | crates/buzz-acp/src/business_profile.rs:222-232 | The fenced completion, and what it returns |
| `ProfileCache.RunSound` | crates/buzz-acp/src/business_profile.rs:181-233 | Invariant of every interleaving of claims, answers, time-outs and cancellations of any number of workers |
| `ProfileCache.ClaimsSpaced` | crates/buzz-acp/src/business_profile.rs:155-196 | Any two claims are at least the refresh interval apart, so claim instants are unique |
| `ProfileCache.StoredIsNewest` | crates/buzz-acp/src/business_profile.rs:142-153 | The stored snapshot is the latest among those of greatest revision that passed the fence; nothing is stored exactly when none passed |
| `ProfileCache.FenceIff` | crates/buzz-acp/src/business_profile.rs:223-226 | A completion passes the fence if and only if no other refresh was claimed since its own claim |
| `ProfileCache.SupersededChangesNothing` | crates/buzz-acp/src/business_profile.rs:223-226 | A superseded answer or time-out changes none of the three fields |
| `ProfileCache.RunMonotone` | crates/buzz-acp/src/business_profile.rs:142-153 | Between any two points of a run no snapshot is lost, no revision decreases, and a known relay identity stays |
| `ProfileCache.ClaimsEndOnce` | crates/buzz-acp/src/business_profile.rs:181-233 | The claims of a call are its ends plus the one still waiting |
| `ProfileCache.RefreshIff` | crates/buzz-acp/src/business_profile.rs:185-196 | A caller refreshes if and only if no claim and no answer is younger than the interval |
| `ProfileCache.CancelledClaimExpires` | crates/buzz-acp/src/business_profile.rs:192-195 | After the latest claimant is cancelled, the next claim succeeds exactly once the interval since that claim has passed |
| `ProfileCache.SessionReceivesNewer` | crates/buzz-acp/src/business_profile.rs:117-122 | Over any cache run and any delivered or failed turns, a session receives strictly increasing revisions, and a delivered turn leaves it with the revision that turn read |
| `ProfileCache.NewestHeadIsLast` | crates/buzz-acp/src/business_profile.rs:62-71 | The head chosen is the greatest by revision and then time, the last among equals, and is missing only if no event is valid |
| `RustLexer.SanitizeRust` | scripts/check-postgres-test-discovery.py:30-99 | The in-place scanner computes the blanked text, unterminated tokens included |
| `RustLexer.SanitizeAligned` | scripts/check-postgres-test-discovery.py:30-99 | Length and newlines survive, characters change only to blanks, and a visible character was kept by the scanner |
| `RustLexer.NothingLeftToBlank` | scripts/check-postgres-test-discovery.py:30-99 | For every input, no offset of the blanked text opens a comment or literal |
| `RustLexer.SanitizeIdempotent` | scripts/check-postgres-test-discovery.py:30-99 | Blanking twice is blanking once |
| `RustLexer.TokenBounds` | scripts/check-postgres-test-discovery.py:36-97 | Every token advances the scanner and ends inside the text |
| `RustLexer.BlankRange` | scripts/check-postgres-test-discovery.py:57-59 | Blanks exactly one range, keeping newlines |
| `RustLexer.SkipBlock` | scripts/check-postgres-test-discovery.py:44-56 | Ends a nested block comment where its depth returns to zero |
| `RustLexer.SkipString` | scripts/check-postgres-test-discovery.py:83-92 | Ends an ordinary string at its first unescaped quote |
| `RustLexer.ScanToken` | scripts/check-postgres-test-discovery.py:36-97 | Recognises exactly the token at an offset, in the scanner's order of preference |
| `RustLexer.ParseRustStringLiteral` | scripts/check-postgres-test-discovery.py:102-132 | The second scanner: content and end offset of the literal at or after an offset, or nothing |
| `RustLexer.ReadString` | scripts/check-postgres-test-discovery.py:119-132 | Its loop over an ordinary string, escapes resolved |
| `RustLexer.LiteralIsToken` | scripts/check-postgres-test-discovery.py:102-132 | A literal the second scanner accepts is a token of the first with the same end |
| `RustLexer.ReachedLiteralIsBlanked` | scripts/check-postgres-test-discovery.py:69-132 | For every literal that the second scanner accepts and whose opener the sanitizer reaches, the sanitizer blanks exactly the span from the opener to the returned end and resumes there |
| `RustLexer.ScannersAgree` | scripts/check-postgres-test-discovery.py:135-149 | The case of attributes: after a character that the sanitizer keeps, the blanks up to the literal are kept and exactly the literal is blanked |
| `RustAttributes.IgnoreAttributes` | scripts/check-postgres-test-discovery.py:135-149 | The search loop lists, in order, every attribute of every match |
| `RustAttributes.ReadAttribute` | scripts/check-postgres-test-discovery.py:139-148 | Reason and end of one attribute, or nothing |
| `RustAttributes.MatchHasOneHash` | scripts/check-postgres-test-discovery.py:138 | Matches do not overlap, so the search may resume after each |
| `RustAttributes.ReasonIsBlanked` | scripts/check-postgres-test-discovery.py:135-149 | An attribute found starts outside comments and literals; its reason is blank in the blanked text and its closing bracket is not |
| `BraceMatching.BracePairs` | scripts/check-postgres-test-discovery.py:152-160 | The stack loop records a pair if and only if the text strictly between its braces is balanced |
| `BraceMatching.PairsLaminar` | scripts/check-postgres-test-discovery.py:152-160 | Any two pairs are disjoint or nested |
| `BraceMatching.PartnerUnique` | scripts/check-postgres-test-discovery.py:152-160 | An opening brace has at most one partner |
| `BraceMatching.ClosedRanges` | scripts/check-postgres-test-discovery.py:162-168 | One range for each header whose brace is closed, in the order of the headers, from the brace to its partner |
| `RustModules.ModuleRanges` | scripts/check-postgres-test-discovery.py:152-168 | From the source text: one such range for each module header of the blanked text |
| `RustModules.FindHeaders` | scripts/check-postgres-test-discovery.py:163-165 | The search lists, in order, the headers at every offset |
| `RustModules.HeadersDoNotOverlap` | scripts/check-postgres-test-discovery.py:163 | No header starts inside another, so the search may resume after each match |
| `RustModules.HeaderIsCode` | scripts/check-postgres-test-discovery.py:152-168 | A header stands outside every comment and literal, and its name is the source's text |
| `BraceMatching.EnclosingModulesNest` | scripts/check-postgres-test-discovery.py:341-343 | The modules around an offset form a nesting chain |
| `ReleaseLedger.StableTags` | scripts/desktop_release.py:68-84 | Refuses exactly when two tags stand for one version; otherwise returns exactly the stable tags, one per version |
| `ReleaseLedger.GroupByVersion` | scripts/desktop_release.py:70-77 | The dictionary holds, per version, its tags in listing order |
| `ReleaseLedger.LatestIsGreatest` | scripts/desktop_release.py:117-120 | The tag chosen is the greatest below the target, and none is chosen only if there is none |
| `ReleaseLedger.PreviousReleaseSound` | scripts/desktop_release.py:87-146 | An answer names the greatest older stable tag, its recorded base and the squash commit of its one merged pull request, and no stable tag is newer |
| `ReleaseLedger.RetryAgrees` | scripts/desktop_release.py:98-111 | Once the release has its tag, asking again for the same commit gives the same answer, and for any other commit is refused |
| `ReleaseLedger.AcceptedIncreases` | scripts/desktop_release.py:102-116 | In an accepted history versions strictly increase |
| `ReleaseLedger.FollowsImmediatePredecessor` | scripts/desktop_release.py:87-146 | Every accepted release follows the one accepted just before it and takes over its base; the first follows none |
| `ReleaseLedger.ExpectedAccountsOnce` | scripts/desktop_release.py:160-169 | The two lists hold every commit of the range but the squash commit exactly once, split by the desktop paths |
| `ReleaseLedger.LedgerPartitionsHistory` | scripts/desktop_release.py:160-169 | Over any accepted history with descending bases the changelogs are pairwise disjoint, disjoint from the squash commits left out, and with those are exactly the non-merge commits reachable from the last base |
| `ReleaseLedger.ChangelogIsWritten` | scripts/desktop_release.py:172-182 | The lists rendered for a release are its share of that partition, each commit once |
| `PngFilters.PaethTieOrder` | mobile/tool/compare_mobile_shell.py:25-32 | The predictor picks a nearest neighbour and breaks ties left, above, upper left, as section 6.6 of RFC 2083 does |
| `PngFilters.RebuildUndoesFilter` | mobile/tool/compare_mobile_shell.py:77-93 | Reconstruction undoes filtering for every predictor, pixel width, row and prior row |
| `PngFilters.Rebuild` | mobile/tool/compare_mobile_shell.py:76-93 | The in-place loop over one row computes the reconstruction; bytes missing at the end stay zero |
| `PngFilters.RebuildRow` | mobile/tool/compare_mobile_shell.py:76-93 | Filter types past 4 fail exactly when there is a byte to rebuild |
| `PngFilters.ReadRow` | mobile/tool/compare_mobile_shell.py:72-95 | One scanline against the row before it, or why it fails |
| `PngFilters.ReadRows` | mobile/tool/compare_mobile_shell.py:68-95 | The row loop computes all rows, or stops at the first failure |
| `PngFilters.ReaderInvertsFilters` | mobile/tool/compare_mobile_shell.py:68-95 | For every image and every choice of filter per scanline the reader recovers the rows |
| `PngFile.UnpackPack` | mobile/tool/compare_mobile_shell.py:44 | Big-endian lengths read back |
| `PngFile.ReadChunks` | mobile/tool/compare_mobile_shell.py:40-60 | The chunk loop computes the specified reading, errors included |
| `PngFile.ReadsChunks` | mobile/tool/compare_mobile_shell.py:43-60 | A file written from any list of chunks reads as the meaning of that list: headers and data in order, up to the end chunk |
| `PngFile.AlphaIsOpaque` | mobile/tool/compare_mobile_shell.py:97-101 | Each RGB pixel keeps its samples in order and gains a sample of 255 |
| `PngFile.ReadPng` | mobile/tool/compare_mobile_shell.py:35-102 | The whole reader computes the specified result or failure |
| `PngFile.ReadsAnyFiltering` | mobile/tool/compare_mobile_shell.py:35-102 | A file of any chunks whose data inflates to any filtering of an image reads back as that image, RGB or RGBA |
| `PngFile.RawIsUnfiltered` | mobile/tool/compare_mobile_shell.py:107 | What the encoder joins is the image under filter type 0 |
| `PngFile.ReadEncodeRoundTrip` | mobile/tool/compare_mobile_shell.py:105-119 | Reading an encoded image returns its width, height and rows, if inflate undoes deflate on those bytes; encoding fails exactly when a number does not fit 32 bits |
| `Resp.EncodeCommand` | perf/relay_bus_scaling.py:110-117 | The loop prints the array and bulk strings of a command |
| `Resp.ToIntOfDecimal` | perf/relay_bus_scaling.py:140 | A printed length reads back |
| `Resp.ReadLineOf` | perf/relay_bus_scaling.py:120-126 | A line without line feed is read back exactly, and no more |
| `Resp.CommandRoundTrip` | perf/relay_bus_scaling.py:129-153 | A printed command followed by any bytes reads back as exactly its parts and leaves exactly those bytes, whatever CR and LF the parts hold |
| `Resp.NegativeLengths` | perf/relay_bus_scaling.py:139-152 | Length -1 reads as nil for bulk strings and arrays; any lower length is malformed for a bulk string and an empty array for an array |
| `Resp.ParseExtends` | perf/relay_bus_scaling.py:129-153 | A reply of any shape that was read is read the same way whatever follows it |
| `Resp.TruncatedIsRefused` | perf/relay_bus_scaling.py:129-153 | A command cut short anywhere is never taken for a reply |
| `Resp.PipelineRoundTrip` | perf/relay_bus_scaling.py:148-152 | Commands printed one after another read back in order |
| `Resp.Stream.constructor` | perf/relay_bus_scaling.py:161 | A stream over some bytes |
| `Resp.Stream.Take` | perf/relay_bus_scaling.py:143-144 | Counted reads, short only at the end |
| `Resp.Stream.NextLine` | perf/relay_bus_scaling.py:120-126 | The stateful line reader equals its specification |
| `Resp.Stream.BulkString` | perf/relay_bus_scaling.py:139-147 | Body, terminator and the malformed cases |
| `Resp.Stream.ReadReply` | perf/relay_bus_scaling.py:129-153 | The stateful parser equals its specification, result and unread bytes, so the round trips hold of it |
| `Resp.Stream.ReadItems` | perf/relay_bus_scaling.py:148-152 | The items of an array, stopping at the first failure |
| `RuleMatching.MatchEvent` | crates/buzz-acp/src/filter.rs:368-460 | The rule loop over counters updated in place equals its specification |
| `RuleMatching.FindMention` | crates/buzz-acp/src/filter.rs:390-399 | A mention is a `p` tag with the agent's key |
| `RuleMatching.MatchEventIff` | crates/buzz-acp/src/filter.rs:368-460 | Rule i is returned with its tag if and only if it passes every check and each earlier rule fails a static check or evaluates to false, judged by the counters before the call |
| `RuleMatching.FailsClosed` | crates/buzz-acp/src/filter.rs:402-447 | A filter that errs, times out or is switched off keeps every later rule from matching |
| `RuleMatching.CountersSound` | crates/buzz-acp/src/filter.rs:402-447 | Over any sequence of calls, one at a time, each counter is the number of time-outs since its last answered evaluation, is at most 5, and allowed every evaluation that was started |
| `RuleMatching.DisabledForever` | crates/buzz-acp/src/filter.rs:403-415 | With calls one at a time, a counter at the limit stays there, and no later call evaluates a rule of it |
| `TimeoutCounter.CounterBounded` | crates/buzz-acp/src/filter.rs:402-447 | In every interleaving of loads, evaluations and updates, the counter plus the evaluations under way is at most four plus the greatest number that overlapped |
| `TimeoutCounter.BoundIsMet` | crates/buzz-acp/src/filter.rs:402-447 | For every positive number of overlapping calls, a run that reaches that bound |
| `TimeoutCounter.StaysDisabledIff` | crates/buzz-acp/src/filter.rs:402-447 | Once the limit is reached the rule stays disabled through a run if and only if no call that was let in before answers true or false in it; while it stays disabled no new call is let in |
| `TimeoutCounter.QuietDisabledForever` | crates/buzz-acp/src/filter.rs:402-415 | With no evaluation under way when the limit is reached, no interleaving switches the rule on again |
| `TimeoutCounter.DisabledRuleReopens` | crates/buzz-acp/src/filter.rs:422-432 | A run of overlapping calls in which a disabled rule is evaluated again |
| `EvaluationPool.AtMostFourLive` | crates/buzz-acp/src/filter.rs:173-247 | In every interleaving live tasks and free permits add up to 4, permits return with their tasks, and no caller is answered twice |
| `EvaluationPool.GivingUpFreesNothing` | crates/buzz-acp/src/filter.rs:212-247 | A caller that times out or is dropped frees no permit; with four live tasks nobody else starts |
| `AudioReframing.SttTapProcessor.constructor` | desktop/public/worklet.js:19-32 | Starts open, with an empty buffer and nothing posted |
| `AudioReframing.SttTapProcessor.OnMessage` | desktop/public/worklet.js:27-31 | Sets the gate and nothing else |
| `AudioReframing.SttTapProcessor.Process` | desktop/public/worklet.js:34-64 | One call equals its specification, writes no posted array, and only appends to what was posted |
| `AudioReframing.SttTapProcessor.Post` | desktop/public/worklet.js:50-61 | Hands over the full buffer and starts a fresh one with the rest |
| `AudioReframing.SegmentConserved` | desktop/public/worklet.js:34-64 | Fed at most a frame at a time, every posted batch has 960 samples, and the batches of a segment followed by the buffer are exactly the samples transmitted in it, in order |
| `AudioReframing.FailsIff` | desktop/public/worklet.js:45-60 | After any run, a call fails if and only if the gate is open and its samples with the buffered ones exceed two frames |
| `AudioReframing.NeverFails` | desktop/public/worklet.js:56-60 | Fed at most a frame at a time, no call fails |
| `AudioReframing.PostedGrows` | desktop/public/worklet.js:50-54 | What was posted stays posted |

## Left out

- Process spawning, environment set-up, process groups, stdio framing limits and tracing of the ACP client: operating-system calls.
- Session ids, prompt text, usage tracking, assistant text capture and stop-reason parsing in the ACP client: they do not feed back into the protocol state.
- A write is one atomic step that completes or fails; a future dropped in the middle of a write is not modelled.
- AcpClientObject.AcpClient.WriteNdjson: does not move the clock; the time of a write is an input of the call around it, or part of the wait before the next clock reading of the loop.
- `u64` request ids, `u32` revisions and `u32` timeout counters are unbounded numbers.
- Tool authorization is an arbitrary verdict, or none when the future is dropped while it waits.
- `drain_stale_responses` and the model and authentication helpers of the ACP client: they would add only plain requests.
- ConfigMerge.DeepMerge: the map is a value that the method reassigns, so sharing between the merged maps is not modelled.
- Event signatures, profile validation, relay queries and the rendered block of a business profile: a valid head or none, and arbitrary answers.
- The regular expressions of attributes and module headers are modelled with the white space that Python's `\s` and `isspace` share; which characters count as word characters before `mod` is an input.
- The rest of the test discovery script: Cargo manifests, file paths and lane rules.
- git and the GitHub API: tags, metadata, pull requests and log listings are inputs; a log listing is any order of the commits of its range, and the path-limited listing is any set.
- Tag and version parsing, metadata files, changelog text and candidate validation in the release tool.
- zlib and the checksum: functions with no assumed property but that inflate undoes deflate where stated.
- The side-by-side picture of the screenshot tool.
- UTF-8 in the Redis tool: encoding and decoding are functions with no assumed property but that decoding undoes encoding of the parts; a length below -1 is refused as the buffered socket reader refuses it; Python's limit on the number of digits of an integer and its recursion limit are not modelled.
- Filter expressions: an evaluation answers true, false, time-out or error. Concurrent calls are modelled for one counter, not for which rule wins; permits are granted in any order.
- Float rounding: samples are copied, never computed.
- The user interface, the site, the desktop and mobile applications and the benchmark scripts.
