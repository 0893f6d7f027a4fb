# Pack-collection deployment: a verified model

This project models the two files that hold the logic of the pack-collection
feature:

- the deploy endpoint `POST /api/deploy-pack-collection`
  (`app/api/deploy-pack-collection/route.ts`);
- the wizard page that builds and sends its request
  (`app/series/pack-collection/page.tsx`).

The endpoint checks its configuration and the request. It then
authenticates the caller and checks a prepaid credit balance of 100. It
submits a sponsored (gas-less) `createCollection` call to the relay, polls the
relay task, and reads the receipt. It verifies the `CollectionCreated` event
and its owner. Finally it records the collection on a best-effort basis and
debits 100 credits.

All external services are inputs: the environment, the JSON body, the data
store, the ABI encoder, the relay and the chain node. The relay's answers to
successive status requests form a function `status: nat -> TaskStatus`. The
time each request takes forms a function `latency: nat -> nat`. The clock is
the sum of those latencies plus the 2000 ms sleep after each poll.

Modules:

- `Wrappers` — `Option` and `Result`.
- `Text` — ASCII `toLowerCase`, `includes`, `join`, and decimal rendering.
- `Relay` — `sponsoredCall` and its error rewrite. `waitForTask` is the method
  `WaitForTask`, a `while` loop proved to compute the specification `Wait`.
- `DeployRoute` — the handler as the decision function `Decide`. Its result is
  the response plus the writes attempted on the data store, in order
  (`InsertPack`, the fallback `InsertNft`, `SetCredits`). The method `Post`
  runs the same chain step by step. It calls the in-place URI normalisation
  `NormalizeUris` and the polling loop, and it is proved to return
  `Decide`'s outcome.
- `DeployProperties` — lemmas about `Decide`: the order of the checks, the
  credit gate, when writes happen, what a success carries, timeouts and
  persistence.
- `PackWizard` — the page. Its pure helpers are the token-URI assembly,
  `readyToDeploy`, `hasEnoughCredits` and the wallet choice. It also holds the
  chunking and chunk-upload loops. The class `Wizard` holds the page's React
  state; its methods are `HandleImageUpload` and `HandleDeploy`.
- `WizardProperties` — lemmas about the page and how it fits the endpoint.

## Behaviour of the code worth noting

- A reverted or cancelled task is not reported as such. In `waitForTask`,
  the errors thrown for `ExecReverted` and `Cancelled` sit inside the `try`
  whose `catch` only sleeps, so the loop keeps polling until the 300000 ms
  budget runs out and the route answers the 500 timeout, never the revert
  reason
  (`Relay.WaitIgnoresFailures`, `DeployProperties.FailedTaskTimesOut`).
- The "No token image provided" check runs after authentication and the
  credit check, so a request with no token image and too few credits gets
  402 (`DeployProperties.TokenImageCheckedAfterCredits`).
- Normalisation copies later entries as they are, so an empty second entry
  stays empty. Only missing slots are filled with the first entry.
- The credit update is awaited outside the best-effort block. If it raises,
  the outer handler answers 500, even though the collection was deployed and
  recorded (`DeployProperties.DebitFailureIsServerError`). If it returns an
  error object, the error is ignored.
- A `pack_collections` insert that raises is caught without any fallback. The
  `nft_collections` insert follows only an insert that returned an error.
- The factory's `createCollection` tuple has 11 components. The route
  supplies values for 9 of them and omits `initialMintTo` and
  `initialMintAmount` (`DeployProperties.CallLeavesOutInitialMint`). Encoding
  is an abstract step whose failure gives a 500. The model does not decide
  whether the encoder accepts the incomplete tuple.

## Model

| member | source | states |
|---|---|---|
| `Text.EqualsIgnoreCaseIff` | app/api/deploy-pack-collection/route.ts:133 | two strings match ignoring case iff they have equal length and agree character by character after ASCII folding |
| `Text.MixedCaseAddressMatches` | app/api/deploy-pack-collection/route.ts:133 | an address in capitals matches its lower-case spelling |
| `Text.ContainsIff` | app/api/deploy-pack-collection/route.ts:34 | `includes` holds iff the text occurs at some offset |
| `Text.Join` | app/api/deploy-pack-collection/route.ts:66 | every joined name occurs in the joined text |
| `Relay.SponsoredCall` | app/api/deploy-pack-collection/route.ts:24-39 | a task id passes through; an error containing "Unauthorized sponsored targ" becomes the whitelist message, which names the target; any other error is passed on unchanged |
| `Relay.WaitForTask` | app/api/deploy-pack-collection/route.ts:41-55 | the polling loop returns exactly `Wait`: a success hash or the timeout error |
| `Relay.WaitSucceedsIff` | app/api/deploy-pack-collection/route.ts:43-46 | the result is `Ok(h)` iff some poll started before the deadline reports `ExecSuccess(h)` and no earlier poll reported success |
| `Relay.WaitFailsOnlyByTimeout` | app/api/deploy-pack-collection/route.ts:54 | the only error is "Gelato task polling timed out after <timeout>ms" |
| `Relay.WaitIgnoresFailures` | app/api/deploy-pack-collection/route.ts:47-52 | reverted, cancelled, pending and failed polls are indistinguishable: relays that agree on which polls succeed, and with which hash, give the same result |
| `Relay.RevertedThenSuccess` | app/api/deploy-pack-collection/route.ts:47-52 | a task that reverts on one poll and succeeds on the next, in time, yields the hash |
| `Relay.PollStartAtLeast` | app/api/deploy-pack-collection/route.ts:49-51 | poll k starts at least 2000·k ms after the first |
| `Relay.PollsWithinDefaultBudget` | app/api/deploy-pack-collection/route.ts:41-43 | with the 300000 ms budget, at most 150 polls happen |
| `DeployRoute.MissingNames` | app/api/deploy-pack-collection/route.ts:59-64 | the result is a subsequence of the names, and holds exactly the names whose value is empty |
| `DeployRoute.MissingEnv` | app/api/deploy-pack-collection/route.ts:59-65 | the missing settings in their fixed order; empty iff all four settings are set |
| `DeployRoute.FirstUri` | app/api/deploy-pack-collection/route.ts:95 | a non-empty array yields its first entry, anything else yields "" |
| `DeployRoute.Normalized` | app/api/deploy-pack-collection/route.ts:97-98 | exactly six URIs; slot i is entry i for i below min(6, length); every later slot is the first URI |
| `DeployRoute.NormalizeUris` | app/api/deploy-pack-collection/route.ts:97-98 | filling a six-slot array with the first URI and overwriting its prefix in place gives `Normalized` |
| `DeployRoute.Unsupplied` | app/api/deploy-pack-collection/route.ts:106-116 | the tuple components the call gives no value, exactly |
| `DeployRoute.FindCreated` | app/api/deploy-pack-collection/route.ts:126 | the first parsed log named CollectionCreated, skipping unparsable logs; none iff no log is such an event |
| `DeployRoute.Decide` | app/api/deploy-pack-collection/route.ts:57-186 | status 200 exactly when a deployment is reported; a deployment, and any write, happens only for a request that passed every check up to the token image and whose encoding succeeded; a deployment deducts 100 credits |
| `DeployRoute.Post` | app/api/deploy-pack-collection/route.ts:57-186 | the step-by-step handler returns the outcome `Decide` specifies |
| `DeployProperties.EnvCheckComesFirst` | app/api/deploy-pack-collection/route.ts:59-67 | a missing setting gives 500 "Missing env: …" naming every missing setting, with no writes |
| `DeployProperties.MissingEnvNamesExactly` | app/api/deploy-pack-collection/route.ts:59-64 | a name is listed iff it is one of the four settings and that setting is empty |
| `DeployProperties.FieldsCheckedBeforeAuth` | app/api/deploy-pack-collection/route.ts:77-79 | a missing name, symbol or owner gives 400 "Missing required fields", whatever the user and profile |
| `DeployProperties.NoUserIsUnauthorized` | app/api/deploy-pack-collection/route.ts:85-86 | no user gives 401 "Unauthorized" |
| `DeployProperties.NoProfileIsBadRequest` | app/api/deploy-pack-collection/route.ts:88-90 | a profile error or a missing profile gives 400 "Profile not found" |
| `DeployProperties.CreditGate` | app/api/deploy-pack-collection/route.ts:91-92 | once authenticated, the status is 402 iff the balance (null read as 0) is below 100 |
| `DeployProperties.CreditBoundary` | app/api/deploy-pack-collection/route.ts:91-92 | 99 credits and a null balance give 402; 100 credits do not |
| `DeployProperties.TokenImageCheckedAfterCredits` | app/api/deploy-pack-collection/route.ts:91-96 | with no token image, too few credits still give 402; enough credits give 400 "No token image provided" |
| `DeployProperties.WritesOnlyAfterVerifiedEvent` | app/api/deploy-pack-collection/route.ts:118-180 | any write implies a relay hash, a receipt, a CollectionCreated event and a matching owner; the last write, and only that one, sets credits to the old balance minus 100, which is ≥ 0 |
| `DeployProperties.SuccessIsConfirmed` | app/api/deploy-pack-collection/route.ts:119-182 | a success has status 200 and 100 deducted credits; it carries the relay's hash and the first event's collection, whose owner matches ignoring case |
| `DeployProperties.VerifiedEventSucceeds` | app/api/deploy-pack-collection/route.ts:122-182 | with every check passed and no raising debit, the response is 200 with the event's collection and the hash |
| `DeployProperties.PersistenceDoesNotChangeResponse` | app/api/deploy-pack-collection/route.ts:137-177 | the insert outcome never changes the response |
| `DeployProperties.FallbackOnlyWhenRejected` | app/api/deploy-pack-collection/route.ts:159-176 | the first write is the pack record; the reduced fallback record is written iff that insert returned an error |
| `DeployProperties.DebitFailureIsServerError` | app/api/deploy-pack-collection/route.ts:180-185 | a credit update that raises turns the deployment into a 500 |
| `DeployProperties.FailedTaskTimesOut` | app/api/deploy-pack-collection/route.ts:43-54 | a task that never succeeds gives 500 with the timeout message, not a revert reason, and nothing is written |
| `DeployProperties.UnwhitelistedTarget` | app/api/deploy-pack-collection/route.ts:33-36 | an unauthorized-target rejection gives 500 with a message naming the factory address |
| `DeployProperties.MissingReceiptIsUpstreamError` | app/api/deploy-pack-collection/route.ts:122-123 | no receipt gives 502 "Transaction receipt not found" |
| `DeployProperties.NoCreationEventIsUpstreamError` | app/api/deploy-pack-collection/route.ts:126-127 | a receipt without a CollectionCreated event gives 502 "CollectionCreated event not found" |
| `DeployProperties.OwnerMismatchIsUpstreamError` | app/api/deploy-pack-collection/route.ts:133-135 | an owner that differs beyond letter case gives 502, with both addresses in the message |
| `DeployProperties.MismatchMessageNamesBoth` | app/api/deploy-pack-collection/route.ts:134 | the mismatch message contains the expected and the reported owner |
| `DeployProperties.NormalizedKeepsEverySuppliedEntry` | app/api/deploy-pack-collection/route.ts:97-98 | six or more URIs: the first six are kept and the rest are ignored |
| `DeployProperties.SingleUriReplicated` | app/api/deploy-pack-collection/route.ts:97-98 | one URI fills all six slots |
| `DeployProperties.SixUrisUnchanged` | app/api/deploy-pack-collection/route.ts:95-98 | six URIs with a non-empty first one pass through unchanged |
| `DeployProperties.CallLeavesOutInitialMint` | app/api/deploy-pack-collection/route.ts:106-116 | the call supplies no value for `initialMintTo` and `initialMintAmount` |
| `DeployProperties.EndToEndDeployment` | app/api/deploy-pack-collection/route.ts:57-182 | one URI, 150 credits, a relay pending once then succeeding, and an owner in capitals: 200 with the collection and hash, six copies of the URI, and a balance set to 50 |
| `PackWizard.FirstFilled` | app/series/pack-collection/page.tsx:170 | the first non-empty slot; present iff some slot is filled |
| `PackWizard.TokenUris` | app/series/pack-collection/page.tsx:169-178 | six non-empty URIs; with a shared image, slots 0–4 are the first URL and slot 5 is its own upload or that URL; otherwise each slot is its own upload or the first URL |
| `PackWizard.EmbeddedAddress` | app/series/pack-collection/page.tsx:71 | the address of the first privy or privy-v2 wallet, and none when no wallet is embedded |
| `PackWizard.OwnerAddress` | app/series/pack-collection/page.tsx:71-72 | the owner is the embedded wallet, else the connected account, else the first wallet, else none; empty addresses count as none |
| `PackWizard.ReadyToDeploy` | app/series/pack-collection/page.tsx:153-158 | ready iff there is an owner, a signed-in user, an upload, the five NFT slots filled unless one image is shared, a name and a symbol; with separate images each of the five NFT URIs is that slot's own upload |
| `PackWizard.HasEnoughCredits` | app/series/pack-collection/page.tsx:97 | `hasEnoughCredits` is exactly the endpoint's credit gate passing |
| `PackWizard.DataUrlYieldsPayload` | app/series/pack-collection/page.tsx:107 | splitting "header,payload" at commas yields the payload |
| `PackWizard.ChunksPartition` | app/series/pack-collection/page.tsx:108-110 | the chunks concatenate back to the payload; each is non-empty and at most 2 MiB; all but the last are exactly 2 MiB |
| `PackWizard.SplitChunks` | app/series/pack-collection/page.tsx:108-110 | the chunking loop computes `Chunks` |
| `PackWizard.UploadChunks` | app/series/pack-collection/page.tsx:112-123 | the sequential upload loop computes `ChunkUpload` |
| `PackWizard.UploadUrlIsLastNonEmpty` | app/series/pack-collection/page.tsx:112-123 | a completed upload stored every chunk, and its URL is the last non-empty URL returned |
| `PackWizard.UploadCompletesWhenStored` | app/series/pack-collection/page.tsx:112-123 | an upload whose chunks were all stored and that got a non-empty URL for some chunk completes |
| `PackWizard.EmptyPayloadIsIncomplete` | app/series/pack-collection/page.tsx:110-123 | an empty payload has no chunks and fails as incomplete |
| `PackWizard.UploadOutcome` | app/series/pack-collection/page.tsx:104-146 | a failed read gives "Failed to read file"; a pinned URL is non-empty and comes only from a data URL with a non-empty payload |
| `PackWizard.PlaceUpload` | app/series/pack-collection/page.tsx:127-133 | a shared image at a non-cover index fills all six slots; otherwise only slot `index` changes |
| `PackWizard.Wizard.constructor` | app/series/pack-collection/page.tsx:20-40 | the page's initial state |
| `PackWizard.Wizard.LoadAccount` | app/series/pack-collection/page.tsx:75-89 | with a signed-in user, the user is stored, and the credits too when the profile has a number; without one, nothing changes |
| `PackWizard.Wizard.HandleImageUpload` | app/series/pack-collection/page.tsx:100-151 | a successful upload places the object URL and the pinned URL by `PlaceUpload` and moves to the form; a failed one leaves slots and step alone; no upload is in progress afterwards |
| `PackWizard.Wizard.HandleDeploy` | app/series/pack-collection/page.tsx:160-208 | nothing happens unless ready; without a session it returns to the form; otherwise it sends the request and ends in `complete` with the address and hash, or in `form`; it is never left loading |
| `WizardProperties.ReadyRequestPassesRouteChecks` | app/series/pack-collection/page.tsx:153-158 | a ready form sends the required fields and six non-empty URIs, which the endpoint's normalisation leaves unchanged |
| `WizardProperties.ReadyRequestNotRejectedAsInput` | app/series/pack-collection/page.tsx:169-193 | such a request never gets "Missing required fields" or "No token image provided" |
| `WizardProperties.ServerReplyDrivesStep` | app/series/pack-collection/page.tsx:195-200 | the page accepts the endpoint's reply iff it reports a deployment, and takes its address and hash |
| `WizardProperties.SharedUploadFillsAllUris` | app/series/pack-collection/page.tsx:127-129 | a shared image uploaded to an NFT slot becomes all six token URIs |
| `WizardProperties.SharedUploadMakesFormReady` | app/series/pack-collection/page.tsx:153-158 | with a wallet, a user, a name and a symbol, one shared image uploaded to the first slot makes the form ready to deploy |
| `WizardProperties.CoverUploadIsSixthUri` | app/series/pack-collection/page.tsx:130-132 | a cover upload leaves slots 0–4 unchanged and becomes the sixth token URI |
| `WizardProperties.SeparateImagesKeepTheirSlots` | app/series/pack-collection/page.tsx:177 | with separate images, each NFT URI is its own slot's, and an empty cover falls back to slot 0 |
| `WizardProperties.EmbeddedWalletWins` | app/series/pack-collection/page.tsx:71-72 | the first embedded wallet's address wins over a connected account |
| `WizardProperties.ChunkBoundary` | app/series/pack-collection/page.tsx:108-110 | 2 MiB plus one character gives a full chunk and a one-character chunk |

## Left out

- Supabase, the relay SDK, the JSON-RPC provider, `fetch` and `FileReader` are replaced by their results, which are inputs. `createClient` failures and a `getUser` that raises are not modelled.
- `parseEther`, `BigInt` and `encodeFunctionData` form one abstract step that yields a price in wei, or an error (a 500). The calldata it builds is not modelled; the relay's answer to it is an input. Prices are JavaScript floats and are carried as text.
- Real time and `setTimeout` are replaced by the clock described above.
- The race between the credit check and the debit across concurrent requests is not modelled, because it needs concurrency.
- JSON values are assumed to be strings already. `String(x)` coercion of non-string array entries, and falsy non-string fields such as `0`, are not modelled. A null body is a body with empty fields.
- `toLowerCase` folds ASCII letters only. Addresses are hexadecimal.
- An `ExecSuccess` status always carries a hash. An undefined hash is not modelled.
- The constant columns `token_id_map` and `active` are not part of the rows.
- The upload endpoint's reply depends only on the chunk index, not on the chunk text. The random `fileId`, object-URL creation and toasts are not modelled.
- `PackWizard.Wizard.HandleImageUpload`: only the final `uploadingIndex` (none) is stated. The value it holds while the upload runs is not observable in this sequential model.
- Step changes made directly by buttons are not modelled: Back, Review, and the form button on the images step. The effect that moves to `images` once a wallet connects is not modelled either. Rendering and wallet creation are left out.
- The 0–10000 royalty range is only an HTML input attribute. It is not a check of the endpoint.
- The launch page, the provider wiring, the wallet button and the ABI files are not part of this model. The ABI's tuple is used only to name its components.
