# A verified model of sceau

sceau is a Kubernetes KMS v2 plugin that seals data encryption keys with a TPM 2.0. For
clusters with several controllers it shares one *fleet key*: `genesis` creates it on one
node, `enroll` duplicates it for a joiner, `join` imports and persists it, and `serve`
prefers it over the per-node storage root key (SRK). A companion tool derives OpenVEX
statements for findings whose package is in no SBOM.

This project models that behaviour in Dafny 4.11 and proves what it keeps, in every run and
under every pattern of failing TPM commands. `dafny verify dfyconfig.toml` checks all of it.

## How the model is built

- `Tpm.dfy` is a symbolic TPM. Keys are a public area plus a secret; wrapped buffers name the
  secret that opens them; a policy digest is the chain of policy commands that produced it.
  Class `Context` holds the persistent slot, the loaded objects and the sessions. **Every
  command may fail, before or after it took effect**; a ghost tally records which did, so that
  "nothing failed" can be said. A null-authorisation session is a balanced bracket around its
  commands; only sessions made by `start_session` are tracked.
- The cryptographic library and the client's marshalling are a parameter, the record `Crypto`.
  The only assumption about it is `Sound`: what it wrote it reads back, hashes are 32 bytes
  long, and a sealed object's public area fits 16 bits of length. Nothing is assumed about
  bytes it did not write, and key ids may collide. `Witness.dfy` proves the assumption
  satisfiable.
- `Fleet.dfy`, `Wire.dfy`, `Enroll.dfy` (modules `Enroll` and `Join`), `Sealer.dfy` (modules
  `Envelope` and `Sealer`) and `Kms.dfy` follow the source function by function, as methods
  that issue the same commands in the same order with the same early returns.
- `Balance.dfy` follows the loaded objects over any sequence of sealer calls; each call is tied
  to the method that makes it.
- `Cluster.dfy`, `History.dfy` and `Sessions.dfy` are about whole runs: any number of nodes, every
  order of genesis, enrol, join, serve, restart and Encrypt. What a step may do to a slot is the very
  predicate (`GenesisOutcome`, `JoinOutcome`, `Delivers`, `SealedTo`) the methods guarantee
  under failures, and `Refinement.dfy` proves that each command, run against a TPM with failing
  commands, is such a step. `Interleaving.dfy` breaks the commands up into the single TPM commands
  that read or write the slot, lets those of several processes on one TPM interleave, and proves
  that every interleaving is again a run of the cluster.
- `Permits.dfy` is the permit counter as a state machine over its atomic operations.
- `AutoVex.dfy` is the auto-VEX derivation.

## Main results

1. *Fleet agreement.* One fleet key everywhere, in every state of a run, if and only if no
   genesis wrote a key while a different one was in use (`AgreementExactly`), also when the TPM
   commands of several processes on a node interleave (`InterleavedAgreement`); geneses on one TPM,
   however often, are enough (`FleetAgreement`, `InterleavedFleetAgreement`), two on different TPMs
   break it (`DoubleGenesis`).
2. *Who can read what.* Decrypt never returns a wrong plaintext, without any assumption on key
   ids (`DecryptSound`); under agreement a serving node reads a ciphertext exactly when it holds
   the key it was sealed under (`DecryptExactly`), which gives cross-node decrypt; what a node can
   read of its own history is stated exactly, whatever the others do (`HistoryReadable`). All answers
   of a serve session name the key it was started with, which is the one `status` prints
   (`OneKeyPerSession`, `StatusThenServe`). The running commands refine these steps (`Refinement`).
3. *Permits.* The counter is conserved in every interleaving (`PermitConservation`). The bound
   `--max` holds if and only if no request takes while all permits are in use and a rejection has
   not been put back (`PermitBound`); it is lost otherwise (`BoundLost`). The closing signal has its
   exact conditions too: never lost, in every interleaving (`SignalNeverLost`), and never early, in
   runs that keep the bound (`SignalNeverEarly`).
4. *Slots and handles under failures.* Genesis never replaces an occupied slot unforced; a join
   leaves the old key, nothing, or the seed's key, and a retry without failures converges when no
   other process writes the slot meanwhile. No interleaving overwrites a key (`EmptyBetween`), and
   without joins and forced geneses none takes one away (`OccupiedSurvives`). Objects
   left loaded are bounded from both sides by the calls that leave one (`SealersBalance`).
5. *Duplicate, send, import is the identity* on public area and secret, for the owner of the
   transport key and for nobody else.
6. *Auto-VEX* is its set specification in lexicographic order, whatever the order of its inputs.

## Where the code and its comments differ

- `src/fleet.rs:250-253` calls the fleet key randomly generated. The code calls TPM2_CreatePrimary
  with a fixed template, which is a function of the owner seed and the template (TPM 2.0 Library
  Part 3, section 24.1). The model follows the code; so a TPM's genesis key and its transport key
  are the same key. No result needs them to differ or the key to be fresh.
- `src/enroll.rs:92-94` explains that a request finding zero puts its permit back, so that `--max`
  stays a bound. `BoundLost` is an interleaving in which the counter wraps and `--max` is exceeded.
- `src/enroll.rs:208-211` says the listener serves until `max` requests succeed. With concurrent
  requests it may close earlier (`ClosesEarly`); in runs that keep the bound, exactly when a flagged
  request notifies before all permits are used and all other handlers done (`SignalNeverEarly`). Or
  it may not be told at all (`SignalLost`, `FlagGivenUp`): in every interleaving, exactly when the
  last running handler finishes with `max` or more served and nobody flagged (`SignalNeverLost`).
  Seen from the permits, somebody is to notify whenever none is free, exactly when the last one is
  taken with every rejection put back or somebody flagged, and no permit is given back past the
  bound by the only one flagged (`SignalCovered`).
- `src/enroll.rs:169-172` answers "--max already reached". A request can be told so while a permit is
  free (`EntitledRejected`), exactly when as many rejections are under way as permits are free
  (`TakeRejected`, which also covers runs past the bound).
- `src/main.rs:97-104` chooses the key once at start-up. In the model the handle of a fleet key names
  the slot, so a join under a running serve changes the key it seals under but not the id it reports
  (`KeyMoves`); `OneKeyPerSession` says exactly when the two still belong together. This rests on
  the handle naming the slot: the client library keeps a record of its own for an object it has
  looked up, and nothing in the source shows whether it accepts such a handle once the key behind it
  was replaced. If it does not, those Encrypt requests fail instead.

## Model

| member | source | states |
|---|---|---|
| Fleet.StartSession | src/fleet.rs:227-248 | success is a new session that survives several commands; on failure at most that one session is left over |
| Fleet.DuplicationAuthPolicyDigest | src/fleet.rs:182-190 | success yields the digest of PolicyCommandCode(Duplicate) and leaves no session behind |
| Fleet.DuplicableStoragePublic | src/fleet.rs:139-162 | every duplicable key, on any TPM, gets the same template with that digest as authPolicy, stated attribute by attribute |
| Fleet.DuplicationAuthPolicySession | src/fleet.rs:199-205 | success is a policy session with exactly that digest which no command has used |
| Fleet.LoadFleetKey | src/fleet.rs:456-462 | barring a fault it finds the key exactly when the slot is occupied |
| Fleet.DeletePersistedFleetKey | src/fleet.rs:289-302 | empties the slot when nothing fails; a failed probe passes for an empty slot and the key stays; an error is always a failed eviction |
| Fleet.Persist | src/fleet.rs:441-451 | fills an empty slot only; an occupied one is refused and unchanged |
| Fleet.CreateFleetKey | src/fleet.rs:269-280 | unforced, an occupied slot survives every failure pattern; otherwise the slot ends as it was, with this TPM's key, or (forced) empty; success and no-failure cases are exact; "already defined" needs a failed probe |
| Fleet.CreateTransportKey | src/fleet.rs:307-315 | loads one new key that opens what is wrapped for the returned public area |
| Fleet.DuplicateUnderPolicy | src/fleet.rs:351-360 | the policy session is gone again whether or not the duplicate succeeded, and it authorises that one command |
| Fleet.DuplicateForJoiner | src/fleet.rs:321-377 | the blob gives the fleet key to the owner of the joiner's public area and to nobody else; slot untouched; sessions and objects as before when only the duplicate itself may have failed; without failures it succeeds exactly when the TPM's policy rules allow it |
| Fleet.ImportAndLoad | src/fleet.rs:406-420 | one session carries both commands; success loads exactly the key the blob imports to |
| Fleet.ImportUnderSession | src/fleet.rs:405-422 | the session is gone again whether or not the import succeeded; at most the imported key is newly loaded |
| Fleet.ReplaceFleetKey | src/fleet.rs:423-424 | slot ends with its old key, nothing, or the new key; no "already defined" without a failed probe |
| Fleet.ImportAndPersist | src/fleet.rs:396-429 | outcomes of the slot under arbitrary failures; untouched before the key is loaded; Ok means the imported key; without failures every importable blob ends in the slot whatever it held |
| Wire.MessageFields | src/enroll.rs:144-156 | each field of the message carries the blob's buffer of that name, on the way out and on the way in |
| Wire.DecodeUndoesEncode | src/enroll.rs:144-156 | the joiner rebuilds the seed's blob exactly when the library accepts its buffers |
| Wire.EncodeUndoesDecode | src/join.rs:113-125 | an accepted message is the encoding of its blob exactly when it is canonical: no key bytes behind a cleared flag |
| Wire.DuplicateSendImport | src/join.rs:113-127 | for every duplicable key, transport key, inner key and seed: same blob after the wire, same public area and secret after import, nothing for any other secret |
| Wire.EncodedBlobDelivers | src/enroll.rs:138-158 | what the seed answers delivers the key to the owner of the transport key only |
| Enroll.NodeNameFromCn | src/authz.rs:36-44 | accepts exactly the names `system:node:` followed by something, and returns that |
| Enroll.AuthorisedExactly | src/enroll.rs:122-133 | authorised exactly when the leaf certificate's common name is `system:node:` and the name of a current Node |
| Enroll.EnrollService.constructor | src/enroll.rs:250-257 | starts with all permits and no notification |
| Enroll.EnrollService.HandleDuplicate | src/enroll.rs:114-159 | not denied exactly when the leaf certificate's common name is `system:node:` and the name of a current Node; an answer delivers the fleet key to the owner of the sent transport key only |
| Enroll.EnrollService.Duplicate | src/enroll.rs:164-197 | one request at a time: only served requests use a permit, `done` is notified exactly at the max-th, failures change nothing, max reached is refused |
| Join.RunJoin | src/join.rs:79-130 | success means the seed's key in this slot; any failure on either side leaves the old key, nothing, or the seed's key; a leaf that names no current Node changes nothing; without failures an authorised joiner with a permit left always succeeds |
| Permits.PermitConservation | src/enroll.rs:164-197 | in every interleaving counter = max - served - held - rejecting (mod 2^64); at rest max - served |
| Permits.PermitBound | src/enroll.rs:168-172 | never more than max permits in use if and only if no take happens with all permits in use and a rejection not put back |
| Permits.BoundLost | src/enroll.rs:168-172 | a three-request interleaving with max = 1 in which two are served |
| Permits.UndisturbedIsClean | src/enroll.rs:168-171 | runs whose rejection windows are undisturbed keep the bound and never lose the signal |
| Permits.TakeRejected | src/enroll.rs:168-172 | in any state: a request is turned away exactly when the rejections under way equal the free permits, or past the bound when they and the excess add up to a multiple of 2^64; hence the exact condition for "turned away if and only if no permit is free" |
| Permits.EntitledRejected | src/enroll.rs:168-172 | a three-request run with max = 1 in which a request is turned away although the permit is free |
| Permits.LastTake | src/enroll.rs:168-173 | whoever finds one permit free is flagged with no rejection under way, turned away with one, let in unflagged otherwise |
| Permits.SignalCovered | src/enroll.rs:168-191 | in every interleaving: somebody is flagged to notify whenever no permit is free, if and only if max is positive, the last free permit is taken with every rejection put back or somebody flagged, and nobody gives a permit back past the bound as the only one flagged |
| Permits.SignalNeverLost | src/enroll.rs:173-191 | in every interleaving: with max or more served and no handler running `done` has been notified or is about to be, if and only if max is positive and the last running handler never finishes with max or more served and nobody flagged |
| Permits.SignalNeverEarly | src/enroll.rs:186-191 | in every run that keeps the bound: notified only when max have been served, if and only if flagged requests notify with all permits used and no other handler running |
| Permits.ClosingSignal | src/enroll.rs:208-211 | where somebody is always to notify: at rest with max or more served `done` has been notified, the bound kept or not; with the bound, once max are served it has been or is about to be; never early either, at rest notified if and only if max have been served |
| Permits.ClosesEarly | src/enroll.rs:186-195 | two requests, max = 2: notified after one success, the other fails |
| Permits.SignalLost | src/enroll.rs:168-191 | four requests, max = 1: one is served and nobody notifies |
| Permits.FlagGivenUp | src/enroll.rs:168-195 | four requests, max = 1: the flagged one fails past the bound, two are served, all are at rest and nobody has notified |
| Envelope.EnvelopeEncode | src/tpm.rs:256-264 | byte 1, the length of the marshalled public area in 16 bits big-endian, that area, the private bytes |
| Envelope.SplitUndoesFramed | src/tpm.rs:256-291 | splitting gives back both parts exactly when the public part is shorter than 65536 bytes |
| Envelope.FramedUndoesSplit | src/tpm.rs:279-291 | every accepted input is the frame of its two parts |
| Envelope.DecodeAccepts | src/tpm.rs:279-292 | an envelope is accepted exactly when it has three bytes, the first is 1, the public area fits and the client library takes both parts; anything else is malformed |
| Envelope.SplitOfPrefix | src/tpm.rs:280-291 | a cut envelope is rejected until the public part is complete, then only the private part is short |
| Sealer.KeyIdDigits | src/tpm.rs:193-196 | a key id is `sceau-` and the first eight bytes of the name's hash in lower-case hexadecimal, high nibble first |
| Sealer.KeyIdsCollide | src/tpm.rs:193-196 | two keys share a key id exactly when their name hashes agree in eight bytes |
| Sealer.New | src/tpm.rs:83-102 | success re-creates the same SRK, key id and attribute on every start and loads one object; the SRK's attributes one by one |
| Sealer.FromPrimary | src/tpm.rs:112-124 | takes id and attribute from the key behind the handle and loads nothing |
| Sealer.Seal | src/tpm.rs:132-151 | the envelope opens to the plaintext under the primary's secret and under nothing else; sealed exactly for 1 to 128 bytes; the object is as fixed as the sealer says, its other attributes one by one; refused for attributes only when that contradicts the primary |
| Sealer.Unseal | src/tpm.rs:154-164 | success is the content under the primary with nothing left loaded; without failures an object stays loaded exactly when it loads but is not sealed data |
| Sealer.Drop | src/tpm.rs:167-187 | frees the primary it owns, never anything else |
| Balance.TracedNew | src/tpm.rs:83-102 | running `New` is the balance model's new call, failed or not |
| Balance.TracedFromPrimary | src/tpm.rs:112-124 | running `FromPrimary` loads nothing and makes a sealer that owns nothing |
| Balance.TracedSeal | src/tpm.rs:132-151 | running `Seal` changes nothing that is loaded |
| Balance.TracedUnseal | src/tpm.rs:154-164 | running `Unseal` is the unseal call with what the envelope loads to, failed or not |
| Balance.TracedDrop | src/tpm.rs:167-187 | running `Drop` is the drop call, failed or not |
| Balance.CallKeeps | src/tpm.rs:83-187 | each call keeps every live owner's primary loaded and distinct, and leaves over one object exactly when an unfailed unseal loads something else than sealed data, at most one when it failed |
| Balance.SealersBalance | src/tpm.rs:83-187 | over any sequence of calls, failures included, the left-over objects number at least the misloads and at most misloads plus failed calls; with neither, loaded objects are exactly the primaries of live sealers made by `new` |
| Kms.AnswerIsPlaintext | src/kms.rs:90-120 | whichever key a key id routes to, an answer to a sealed ciphertext is its plaintext |
| Kms.Encrypt | src/kms.rs:75-88 | sealed to the preferred key only, under its id; refused for fixedTPM/fixedParent only if the sealer does not follow its primary |
| Kms.Decrypt | src/kms.rs:90-120 | never a wrong answer; the routed answer when nothing fails; "unknown key_id" exactly for ids of neither key; nothing left loaded on success, and without failures an object stays loaded exactly when it loads under the routed key but is not sealed data |
| Kms.BuildSealer | src/main.rs:105-120 | fleet key when found, with the SRK for old ciphertexts, else the SRK alone; falls back despite a fleet key only after a failed probe; without failures its key id is the one the slot dictates |
| Kms.ChooseSealer | src/main.rs:66-74 | `--force-legacy` serves under the SRK whatever the slot holds; the chosen sealer follows its primary |
| Kms.RunStatus | src/main.rs:144-159 | without failures prints the very key id a serve started now reports, and leaves nothing loaded |
| Cluster.ReplyImports | src/join.rs:113-127 | in every run and at whichever node it arrives, a reply imports to the key the seed held if the request carried that node's transport key, and to nothing otherwise |
| Cluster.RunKeepsInv | src/fleet.rs:269-429 | in every run slots hold keys of the duplicable template, replies deliver their key, ciphertexts open under their key and no other |
| Cluster.WriteAgrees | src/fleet.rs:269-280 | a genesis write keeps agreement exactly when no other fleet key is in use |
| Cluster.AgreementExactly | src/fleet.rs:262-280 | one fleet key in all states if and only if every genesis write was safe; joins, restarts and failures never break it |
| Cluster.FleetAgreement | src/fleet.rs:396-429 | if genesis wrote on one TPM only, once or over and over, forced or not, its key is the only one in use in every state and all occupied slots hold it, public area and secret |
| Cluster.OneWriteOneOwner | src/fleet.rs:262-280 | a run with at most one genesis write meets that condition |
| Cluster.DoubleGenesis | docs/adr/0003-fleet-key-duplication-for-ha-multi-controller.md:317-327 | two unforced geneses on different TPMs end in disagreement |
| Cluster.EveryCopyCanSeed | src/fleet.rs:164-205 | after any chain of joins a held key is released to exactly the unused policy sessions with the duplicate digest, among them the one the next enrol makes |
| History.DecryptSound | src/kms.rs:96-114 | in every run, forced geneses included and for any key id, an answer is what was encrypted |
| History.IdsStayHonest | src/kms.rs:82-86 | under agreement every ciphertext carries the id of the key it was sealed under |
| History.AnsweredByOpener | src/kms.rs:96-114 | only a node holding the ciphertext's key answers |
| History.DecryptExactly | src/kms.rs:90-120 | under agreement a serving node decrypts a ciphertext if and only if it is under the key it serves with, or under its own SRK behind a fleet key with another id |
| History.CrossNodeDecrypt | src/main.rs:105-120 | what any node encrypted under the fleet key every node serving under it decrypts |
| History.HistoryReadable | src/main.rs:97-120 | while a node's slot never changes to a different fleet key: what it sealed under the fleet key it reads exactly while it serves with the fleet key and the slot is occupied; what it sealed under its SRK always, except behind a fleet key with the same key id |
| Refinement.RunGenesis | src/main.rs:128-134 | with any command failing, genesis is a genesis step of the cluster machine and keeps a running service intact |
| Refinement.ServeEnrol | src/enroll.rs:164-197 | whatever public area was sent, a served request adds exactly one reply made from the slot's key, any other request nothing; a service running on that TPM is left intact |
| Refinement.FinishJoin | src/join.rs:113-129 | with any command failing, the end of a join is a join step and keeps a running service intact |
| Refinement.StartServe | src/main.rs:65-84 | starting up is a serve step; without failures under the fleet key exactly when there is one and it is not overridden |
| Refinement.StopServe | src/tpm.rs:167-187 | ending a serve is a stop step; without failures it frees the SRK it loaded, and never anything else |
| Refinement.ServeEncrypt | src/kms.rs:75-88 | an answered Encrypt is an encrypt step that records what was returned; in a reachable state never refused for attributes, and without failures answered exactly for 1 to 128 bytes while the key is there |
| Refinement.SealerFollows | src/tpm.rs:237-250 | in reachable states a running sealer's children are as fixed as the key it seals under, even after that key changed |
| Refinement.ServeStatus | src/kms.rs:64-73 | Status reports the id of the key the service was started with, which is the one Decrypt routes to first |
| Refinement.PrintStatus | src/main.rs:144-159 | `status` prints the id a serve started in this state takes and leaves a running service intact |
| Refinement.ServeDecrypt | src/kms.rs:90-120 | Decrypt answers what the cluster machine's node answers; failures only withhold it |
| Sessions.OneKeyPerSession | src/kms.rs:64-88 | from a serve step to the node's next serve or stop, every Encrypt answer and Status carry the id of the start-up key; fleet sessions never seal under an SRK and the other way round; sealed under the start-up key exactly when the slot still holds it |
| Sessions.SteadySession | src/main.rs:97-120 | while the slot holds no other fleet key, everything the session hands out is under its start-up key |
| Sessions.KeyMoves | src/main.rs:97-120 | a run in which a join under a running serve changes the sealing key and not the id |
| Sessions.StatusThenServe | src/main.rs:144-159 | `status`, then a serve with any requests: when both probes agree every Status and Encrypt answer has the printed id, is under the key it stands for and is never refused for attributes, whatever else fails; without failures they agree |
| Interleaving.CommandIsStep | src/fleet.rs:269-302 | each single TPM command of a genesis, join, serve or enrol is a step of the cluster machine |
| Interleaving.RacedReply | src/fleet.rs:326-376 | if the slot changed between the seed's two commands, the reply imports under no key |
| Interleaving.Flattened | src/fleet.rs:269-451 | every interleaving of the processes' commands is a run of the cluster machine |
| Interleaving.InterleavedAgreement | src/fleet.rs:262-451 | one fleet key in all states of an interleaving if and only if no genesis persisted a key while a different one was in use |
| Interleaving.InterleavedFleetAgreement | src/fleet.rs:262-451 | geneses on one TPM only, in any number of concurrent processes: its key is the only one in use in every state |
| Interleaving.EmptyBetween | src/fleet.rs:289-302 | in every interleaving a slot that comes to hold a different key was empty in between |
| Interleaving.SuccessMeansKey | src/fleet.rs:423-451 | a process that succeeds has its key in the slot at that moment, unless it is a genesis that found one |
| Interleaving.OccupiedSurvives | src/fleet.rs:269-280 | any number of concurrent unforced geneses, enrols and serves never takes a key away, whatever fails |
| Interleaving.AloneIsGenesis | src/fleet.rs:269-280 | uninterrupted, the commands of a genesis have exactly the outcomes promised of the whole |
| Interleaving.AloneIsJoin | src/fleet.rs:423-424 | uninterrupted, the commands of a join have exactly the outcomes promised of the whole |
| Interleaving.AloneIsServe | src/main.rs:105-120 | uninterrupted, a serve comes up under the fleet key exactly when there is one and the probe did not fail, else under the SRK; it comes up exactly when nothing else failed, and a failed read of the key is no fallback |
| Interleaving.AloneIsForcedLegacy | src/main.rs:66-71 | with `--force-legacy` it comes up under the SRK whatever the slot holds |
| Interleaving.AloneIsEnrol | src/fleet.rs:326-376 | uninterrupted, a seed replies from the slot's key exactly when neither command failed, the slot is occupied and the TPM releases the key |
| Interleaving.Execute | src/fleet.rs:289-302 | probe, eviction and persist on a TPM with failing commands are the commands of that machine |
| Interleaving.ServeCommand | src/main.rs:105-120 | probe, reading the public area and creating the SRK on a TPM with failing commands are the commands of a starting serve there, and the sealer made is the one its new service stands for |
| Interleaving.EnrolReadCommand | src/fleet.rs:326-327 | reading the key's public area on a TPM with failing commands is the seed's first command there |
| Interleaving.EnrolDuplicateCommand | src/fleet.rs:343-376 | duplicating the key on a TPM with failing commands is the seed's second command there; a reply is sent exactly when it succeeds, without failures exactly when the policy rules allow it |
| Interleaving.EnrolAlone | src/fleet.rs:326-376 | both on a TPM: a reply delivers the slot's key; without failures it is made exactly when there is one and it may be duplicated for the target |
| AutoVex.LessIsLexicographic | crates/sceau-vex/src/auto_vex_presence.rs:198-199 | the key order is the lexicographic one |
| AutoVex.SbomPurls | crates/sceau-vex/src/auto_vex_presence.rs:192-196 | exactly the purls some component of some SBOM has |
| AutoVex.ComputePresenceVex | crates/sceau-vex/src/auto_vex_presence.rs:185-230 | ids strictly increasing and exactly the untriaged CVEs with some match whose non-empty purl is in no component of any SBOM; products, status, justification, impact statement and timestamp of every statement, literally |
| AutoVex.OrderIrrelevant | crates/sceau-vex/src/auto_vex_presence.rs:183-184 | permuting or repeating matches, SBOMs or components changes nothing |
| AutoVex.ShrinksAsInputsGrow | crates/sceau-vex/src/auto_vex_presence.rs:202-214 | more SBOM components or more triage only removes statements |
| AutoVex.NothingTwice | crates/sceau-vex/src/auto_vex_presence.rs:202-204 | nothing is emitted once the output's own ids are triaged |
| AutoVex.ConsideredNames | crates/sceau-vex/src/auto_vex_presence.rs:271-281 | a file counts exactly when it is a non-dot stem followed by `.json` |
| AutoVex.LoadTriagedFromVexDir | crates/sceau-vex/src/auto_vex_presence.rs:261-294 | exactly the names in all considered files; the first bad entry fails the load; a missing directory is empty, one that cannot be listed an error |
| AutoVex.FileCounts | crates/sceau-vex/src/auto_vex_presence.rs:271-291 | a file that is a non-dot stem followed by `.json` fails the load if it is bad, and otherwise has all its names triaged |
| AutoVex.OtherFilesIgnored | crates/sceau-vex/src/auto_vex_presence.rs:268-281 | any other file changes nothing, whatever is in it; an unreadable entry fails the load |
| AutoVex.ListingOrderIrrelevant | crates/sceau-vex/src/auto_vex_presence.rs:268-293 | success and result do not depend on the listing order |
| AutoVex.LoadSboms | crates/sceau-vex/src/auto_vex_presence.rs:155-175 | loads exactly when every SBOM parses and has a component, in order; otherwise the first unusable one's error; one without components or with none in the list anywhere means an error |
| AutoVex.AutoVexPresence | crates/sceau-vex/src/bin/auto_vex_presence.rs:108-145 | statements if and only if every SBOM has components and the triage loads, and then exactly the specified ones; none from an SBOM without a component; a bad SBOM is reported before a bad triage directory |
| AutoVex.RerunIsEmpty | crates/sceau-vex/src/auto_vex_presence.rs:261-294 | writing the output into the triage directory makes the next output empty |

## Left out

- Interleaving.CommandIsStep: TPM commands that do not name the slot are not steps of their own, and at most one serve runs per node.
- Separate client connections to one TPM: all functions share one `Context`; the loaded copy that genesis and join leave behind is freed with the connection in the source and stays loaded here.
- The dropped-future case of a request (a client disconnecting in the middle) and mutex poisoning.
- The shutdown choice between notification and timeout in `run_enroll`, and every timeout.
- TLS, certificate minting and parsing; authorisation is reduced to the leaf certificate's common name and the set of Node names.
- gRPC transport, the Unix socket, the Kubernetes client, CLI parsing and logging.
- RSA, AES, SHA-256 and the marshalling of public areas: see `Crypto` above.
- Credential-activation attestation, which the design describes and the source does not implement.
- File size caps, JSON parsing, timestamps and the document envelope of the auto-VEX tool.
- The exit status of `enroll` when nothing was enrolled.
