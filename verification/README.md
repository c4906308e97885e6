# A model of the n-party MuSig2 signing tool

The repository is a command-line tool in which n parties, found over libp2p, sign a message together
with MuSig2 (eprint 2020/1261, page 12) and check the result with BIP 340 verification. This project
models the part that has to be right for a signature to come out: the algebra of the scheme, the
round machine every party runs, the network of machines, the asynchronous executor and the lock-step
simulation. The layers meet in one theorem: over every schedule, all parties that finish hold the
same signature, and it verifies.

| file | contents |
|---|---|
| `Wrappers.dfy`, `Arith.dfy` | outcomes (value, error, panic); modular sums, primes, big-endian bytes |
| `Curves.dfy`, `ToyCurve.dfy` | the curve group and what is assumed of it; a curve of 31 points that meets the assumptions |
| `Keys.dfy` | checked scalar and point operations, encodings |
| `Hashing.dfy` | what exactly is hashed, block by block |
| `Musig2.dfy` | key and nonce aggregation, binding coefficients, shares, combination, `verify` |
| `SignatureTheory.dfy`, `SignatureCorrectness.dfy` | folds as sums, agreement, the share equation; the combined signature verifies |
| `SigningGuards.dfy` | exactly when each computation of round 1 succeeds |
| `Broadcast.dfy` | the message store, as a class that refines a map |
| `Rounds.dfy`, `RoundOneOutcome.dfy`, `RoundTwoOutcome.dfy` | what each round computes from wire messages; how rounds 1 and 2 end on any messages |
| `Machine.dfy`, `MachineOutcomes.dfy`, `MachineRuns.dfy`, `RoundNumbers.dfy` | the round machine on values; how each call ends; invariant, normal form and confluence; when the round number jumps |
| `Instance.dfy` | `Musig2Instance`, the class whose methods refine the machine |
| `HonestRounds.dfy` | what the rounds compute among honest parties |
| `HonestRuns.dfy` | one party among honest peers over a transport that loses, repeats and reorders |
| `Network.dfy`, `Liveness.dfy` | all schedules of n parties: safety, conservation of copies, termination, quiescence |
| `ExecutorSteps.dfy`, `ExecutorCompletion.dfy`, `Executor.dfy` | a run of the executor as a function, when it completes, and the class `AsyncProtocol` |
| `SimulationStages.dfy`, `Simulation.dfy` | the lock-step simulation |
| `ToyRuns.dfy` | complete runs of three honest parties on the toy curve |

## How it is modelled

- A scalar is a natural number, reduced modulo the group order q where the source reduces. A point is
  `Infinity` or a pair of coordinates on y^2 = x^3 + 7. The addition law and the tagged hash are
  parameters. `Curve.Valid` lists what is assumed: p and q are odd primes below 2^256, the points form
  a group generated by g of order q under that law with the usual negation, and a hash has 32 bytes.
  Parity under negation, x coordinates up to sign and the homomorphism from scalars are proved, not
  assumed. `ToyCurve.ToyIsValid` proves that a concrete curve of 31 points over the field of 43 elements
  meets all the assumptions.
- The hash is otherwise an arbitrary function; nothing depends on its values.
- What the theorems assume of honest parties does occur: `ToyRuns.dfy` has three honest parties who all
  sign and finish, and three who all sign but of whom one finishes and another does not.
- Every `expect`, `unwrap`, `assert!`, slice copy and index that can panic yields `Panic`, and every
  error return yields `Err`. No theorem about honest parties assumes that a computation succeeds unless
  it says so (`AllSigning`, `AllSucceed`).
- Code that changes state step by step is a class or a method with loops (`BroadcastMsgsStore`,
  `Musig2Instance`, `AsyncProtocol`, `Simulation`, the three round computations, the vector
  conversions, nonce aggregation), each proved equal to a function on values; the theorems are about
  those functions.
- A schedule of the network is any list of calls of `proceed`, deliveries of single copies and flushes of
  an outbox. Round 2 messages may overtake round 1 messages, and parties may be called at any time.
- The executor reads its stream as a finite sequence, in which `Elapsed` marks the moment a running
  deadline expires before the next item; its sink fails after a number of messages. All sequences and
  all numbers are covered.
- Honest parties (`Setup.Honest`) have the indices 1 to n, key pairs whose public key belongs to a nonzero
  secret, and no nonce that hashes to exactly zero. They sign one common message. The message is not
  restricted: one that is not 32 bytes, or not below the order, makes computations fail, and the
  theorems cover that.

## Where the code differs from its comments

- The `Index` operator of received messages is zero-based (`src/cli/party/broadcast.rs:24-29`), while its
  comment counts from 1 (`Broadcast.IndexIsZeroBased`).
- One call can cross several rounds, while `src/cli/party/traits/state_machine.rs:105-107` speaks of an
  increase by 1 per call of `proceed` or `handle_incoming`. Exactly when it jumps, over every run, is
  `RoundNumbers.JumpsIff`; `RoundNumbers.OvertakenRunCrosses` is the shortest run that does.
- `src/cli/party/traits/state_machine.rs:32-34` gives an unexpected message as an example of a
  non-critical error. A repeated round 1 message is refused without harm only while the first store
  exists; in Round2 it is a critical error that ends the run (`ExecutorCompletion.LateRepetitionEndsRun`).
- A key that does not parse is dropped with a warning, which shifts the keys behind it. A party then
  looks up its coefficient at an index where its own key no longer is (`RoundOneOutcome.OwnKeyPlace`),
  and the last party panics (`RoundOneOutcome.LastPartyNeedsAllKeys`).
- A late round 2 message reports `msg_round: 1` (`src/cli/party/musig2_instance.rs:168-171`); the model does
  the same.
- The `message` field of a received round 1 message is never read. Agreement therefore needs the common
  message, which `Setup` has.
- `verify` and the share combination use the full aggregate point, with whatever parity it has.
  Correctness is stated for that point and not for an x-only key.
- Parties need not finish together. The combination of shares fails when a partial sum is zero modulo
  the order, and every party starts from its own share: `SignatureTheory.OrderOfSharesMatters` gives
  three shares, and `ToyRuns.QuietWithOneFailed` three key pairs and a whole schedule, on which one party
  fails and another succeeds. The exact condition is in `HonestRounds.HonestFinishing` and
  `Liveness.QuietMeansDone`.

## Model

| member | source | states |
|---|---|---|
| Network.FinishedPartiesAgree | src/cli/party/musig2_instance.rs:58-182 | Safety over every schedule of any number of honest parties: whoever is Finished holds the joint (R, s, c), one function of keys and message, and it verifies under the full aggregate key; no computation is assumed to succeed |
| Network.Agreement | src/cli/party/rounds.rs:78-183 | Any two finished parties of any schedule hold the same result |
| SignatureCorrectness.CombinedSignatureVerifies | src/cli/protocals/musig2.rs:194-387 | Signature correctness for every n, keys, nonces and message: shares from successful `sign_prime` calls, received in any order and combined by any signer without a zero partial sum, give the joint response, and `verify` returns true |
| HonestRounds.HonestFinishing | src/cli/party/rounds.rs:159-184 | Round 2 of an honest party never panics, so the `verify` assertion never fires; it returns Ok exactly when no partial sum of shares, own first, vanishes, and then the joint result |
| SignatureCorrectness.VerifyIff | src/cli/protocals/musig2.rs:330-387 | `verify` returns true exactly when s, rx and x(P) are below the order, P is valid and an even-y point R with x(R) = rx satisfies s*G = R + h*P, where h is the hash of the three 32-byte blocks rx, x(P) and message, reduced; it never returns `Ok(false)` and never panics |
| SignatureCorrectness.RejectionKinds | src/cli/protocals/musig2.rs:330-387 | A rejection reports `InvalidPrivateKey` exactly when x(P), or the x coordinate of a recomputed even-y R, is not below the order, and otherwise `Invalid` |
| Hashing.ConcatConsists | src/cli/protocals/key.rs:143-147 | Feeding scalars to the hash one by one feeds exactly their 32-byte encodings, all of them and in order |
| Hashing.HashOfBlocks | src/cli/protocals/musig2.rs:91-95 | A hash of scalars is the hash of any string that consists of those blocks |
| Hashing.ChallengeHash | src/cli/protocals/musig2.rs:313-327 | The challenge is the hash of rx, x(P) and message, reduced; it is an error exactly when x(P) is not a scalar |
| Hashing.KeyCoefficientHash | src/cli/protocals/musig2.rs:84-99 | a_i is the hash of the scalar 1, x(P_i) and all x coordinates in order, and is below the order |
| Hashing.NonceHash | src/cli/protocals/musig2.rs:127-147 | A nonce is the hash of the private key and the counter, with its public point, exactly when that is below the order, and otherwise an error |
| Hashing.BindingHashes | src/cli/protocals/musig2.rs:233-247 | b_j is the hash of x(X), the x coordinates of both aggregated nonces, the message and j |
| SignatureCorrectness.AtMostOneResponse | src/cli/protocals/musig2.rs:330-387 | For a given rx, message and key at most one s is accepted |
| SignatureCorrectness.ResponseIff | src/cli/protocals/musig2.rs:363-366 | The recomputed point s*G - h*P is R exactly when s*G = R + h*P |
| SignatureCorrectness.CombinationIsJoint | src/cli/protocals/musig2.rs:299-309 | The combination of the shares, received in any order, is e * log R + c * log X modulo the order, with e = -1 exactly when R has odd y |
| SignatureCorrectness.ResponseIsEvenNonce | src/cli/protocals/musig2.rs:280-288 | For a response with that logarithm, s*G - c*X is R or -R, whichever has even y |
| SignatureCorrectness.JointResponseVerifies | src/cli/protocals/musig2.rs:330-387 | The closed-form response passes `verify` under the aggregate key whenever that key is finite |
| SignatureCorrectness.SignedShare | src/cli/protocals/musig2.rs:268-290 | A successful `sign_prime` yields the joint R and a share that satisfies the share equation with the party's own coefficient |
| SignatureCorrectness.ParametersAreJoint | src/cli/protocals/musig2.rs:223-266 | Whoever computes the global parameters, from messages in any order, obtains the joint ones |
| SignatureCorrectness.JointNonceHasLog | src/cli/protocals/musig2.rs:249-260 | R is the public point of the b-weighted sum of all nonce secrets, and is finite |
| SignatureCorrectness.JointKeyFinite | src/cli/protocals/musig2.rs:107-117 | The aggregate key is finite as soon as one signer's secret is nonzero modulo the order |
| SignatureTheory.ParameterAgreement | src/cli/protocals/musig2.rs:223-266 | Any two parties whose computations succeed obtain the same c, R and b, although each starts the nonce folds with its own nonce |
| SignatureTheory.NonceAgreement | src/cli/protocals/musig2.rs:181-192 | A fold started with one's own nonce over the others in any order gives the same R_j for everybody |
| SignatureTheory.KeyAggregationIgnoresIndex | src/cli/protocals/musig2.rs:71-118 | The aggregate key does not depend on the party index; only a_i does |
| SignatureTheory.AggregateKeyLog | src/cli/protocals/musig2.rs:71-118 | The aggregate key is the public key of sum a_i x_i |
| SignatureTheory.ShareEquation | src/cli/protocals/musig2.rs:194-220 | s_i = e * sum_j b_j r_ij + c a_i x_i modulo the order, for nonce lists of any length at least 1 |
| SignatureTheory.SumOfShares | src/cli/protocals/musig2.rs:194-220 | Summed over the parties, the share equations give e * (weighted nonces) + c * (aggregate secret) |
| SignatureTheory.AddScalarIff | src/cli/protocals/key.rs:56-62 | `add_scalar` yields the nonzero scalar congruent to the sum, and `InvalidPrivateKey` exactly when there is none |
| SignatureTheory.MulScalarIff | src/cli/protocals/key.rs:64-70 | The same for `mul_scalar` and the product |
| SignatureTheory.AddPointOutcome | src/cli/protocals/key.rs:28-39 | `add_point` adds logarithms, and reports `InvalidPublicKey` exactly at infinity |
| SignatureTheory.MulPointOutcome | src/cli/protocals/key.rs:41-51 | `mul_scalar` on points multiplies the logarithm, and reports `InvalidPrivateKey` exactly for the scalar zero |
| SignatureTheory.MessageOutcome | src/cli/protocals/musig2.rs:263 | A message is 32 bytes, read big-endian and reduced modulo the order; any other length is `InvalidInputLength` |
| SignatureTheory.FoldScalarsSum | src/cli/protocals/musig2.rs:299-309 | The fold of `add_scalar` is the sum modulo the order and never panics |
| SignatureTheory.FoldScalarsSucceedsIff | src/cli/protocals/musig2.rs:299-309 | It succeeds exactly when no partial sum vanishes modulo the order |
| ToyRuns.EverybodyFinishes | src/cli/party/rounds.rs:27-184 | Three concrete honest parties of whom all computations succeed |
| ToyRuns.OneFinishesOneFails | src/cli/party/rounds.rs:159-164 | Three concrete honest parties who all sign, the first of whom finishes and the third fails |
| ToyRuns.QuietWithAllFinished | src/cli/party/musig2_instance.rs:107-117 | A schedule at whose quiet end all three have finished |
| ToyRuns.QuietWithOneFailed | src/cli/party/musig2_instance.rs:107-117 | A schedule at whose quiet end the first has finished and the third has not |
| SignatureTheory.OrderOfSharesMatters | src/cli/protocals/musig2.rs:299-309 | On shares 1, q-1, 1 the first party's combination fails while the third's succeeds |
| SignatureTheory.FoldPointsSum | src/cli/protocals/key.rs:28-39 | The fold of `add_point` is the point of the sum of logarithms, and never infinite after an addition |
| Musig2.CreateEphemeralKeys | src/cli/protocals/musig2.rs:149-156 | The loop yields the two derived nonces in order, or the first failure |
| Musig2.AddEphemeralKeys | src/cli/protocals/musig2.rs:181-192 | The loop over j computes the vector R_j, or the first panic |
| Musig2.ComputeGlobalParams | src/cli/protocals/musig2.rs:223-266 | The loop that grows the b coefficients computes the specified parameters, failing where and how the source fails |
| Arith.LeadingByte | src/cli/protocals/key.rs:277-288 | Encodings are big-endian: the first byte weighs most |
| Keys.ScalarRefused | src/cli/protocals/key.rs:281-297 | `parse_slice` refuses with `InvalidInputLength` exactly what is not 32 bytes, and with `InvalidPrivateKey` exactly what is not below the order |
| Keys.ScalarRoundTrip | src/cli/protocals/key.rs:277-297 | `parse_slice` accepts exactly the 32-byte big-endian encodings of scalars below the order, and undoes `serialize` |
| Keys.PointLayout | src/cli/protocals/key.rs:168-181 | A serialized point is the tag 4, then x, then y |
| Keys.PointParsesIff | src/cli/protocals/key.rs:215-236 | `parse` yields exactly the finite curve point with the two coordinates read, and otherwise `InvalidPublicKey` |
| Keys.LiftOutcome | src/cli/protocals/key.rs:242-250 | `parse_x_coor` succeeds exactly when a finite point has this x coordinate, with even y, and otherwise reports `XCoordinateNotExist` |
| Keys.DecodedList | src/cli/protocals/key.rs:252-266 | Reading a list of points panics exactly when an entry is not 65 bytes; otherwise each entry that parses stands behind those that parse before it, and there is nothing else |
| Keys.PointRoundTrip | src/cli/protocals/key.rs:168-236 | `parse(serialize(P))` is P for every finite curve point |
| Keys.ParsedPointIsTheEncoded | src/cli/protocals/key.rs:215-236 | `parse` yields only valid points, and its input is the encoding of its output up to the tag byte, which is never looked at |
| Keys.XCoorRoundTrip | src/cli/protocals/key.rs:242-250 | `parse_x_coor(x_coor(P))` is P or -P, whichever has even y |
| Keys.EvenRoot | src/cli/protocals/key.rs:242-250 | The lift finds a curve point with even y for the x coordinate exactly when there is one |
| Keys.VectorRoundTrip | src/cli/protocals/key.rs:252-273 | `convert_from_vec(convert_to_vec(v))` is v, in length and order, for finite points |
| Keys.ConvertToVec | src/cli/protocals/key.rs:267-273 | The loop encodes every point in order |
| Keys.ConvertFromVec | src/cli/protocals/key.rs:252-266 | The loop drops entries that do not parse, keeps the order, and panics exactly on an entry that is not 65 bytes |
| Curves.Curve.NegFlipsParity | src/cli/protocals/key.rs:195-213 | Negation keeps x and flips the parity of y on finite points |
| Curves.Curve.SameXUpToSign | src/cli/protocals/key.rs:242-250 | Two curve points with the same x are equal or opposite |
| Curves.Curve.ExpInjective | src/cli/protocals/key.rs:201-207 | Public keys are equal exactly when the secrets are congruent modulo the order |
| Curves.Curve.MulFinite | src/cli/protocals/key.rs:41-51 | A nonzero scalar below the order times a finite point is finite, which is why `mul_scalar` need not test its result |
| Broadcast.SlotBijection | src/cli/party/broadcast.rs:88-96 | Slots 0 to n-2 and the parties other than oneself correspond one to one, in ascending order |
| Broadcast.BroadcastMsgsStore.constructor | src/cli/party/broadcast.rs:56-65 | A new store stands for the empty map |
| Broadcast.BroadcastMsgsStore.PushMsg | src/cli/party/broadcast.rs:81-104 | A push is accepted exactly when it is a new broadcast of another party, and then adds its body and decrements `msgs_left`; otherwise nothing changes and the answer is `MsgOverwrite` exactly for a broadcast of another party already in the store, `ItsFromMe` exactly for one's own broadcast, `ExpectedBroadcast` exactly for a receiver with a nonzero sender, and `UnknownSender` exactly for sender 0 or a broadcast from beyond n |
| Broadcast.AnswerIsDetermined | src/cli/party/broadcast.rs:81-104 | Those conditions exclude each other and leave no gap |
| Broadcast.BroadcastMsgsStore.ContainsMsgFrom | src/cli/party/broadcast.rs:106-117 | True exactly of the accepted senders; index 0 underflows |
| Broadcast.BroadcastMsgsStore.WantsMore | src/cli/party/broadcast.rs:119-121 | True exactly while some other party's message is missing |
| Broadcast.BroadcastMsgsStore.Finish | src/cli/party/broadcast.rs:123-131 | The bodies in ascending order of sender exactly when all are there, otherwise `WantsMoreMessages` |
| Broadcast.BroadcastMsgsStore.Blame | src/cli/party/broadcast.rs:133-154 | The list of missing parties, and `msgs_left` is its length |
| Broadcast.MissingIsExact | src/cli/party/broadcast.rs:133-154 | That list names exactly the other parties from which nothing was accepted, ascending and without repetition |
| Broadcast.MissingIffNotFull | src/cli/party/broadcast.rs:119-154 | Nobody is blamed exactly when the store is complete |
| Broadcast.FirstBodyWins | src/cli/party/broadcast.rs:81-104 | After any sequence of pushes the store maps exactly the valid senders to their first valid bodies |
| Broadcast.IndexIsZeroBased | src/cli/party/broadcast.rs:17-31 | Index k yields the body of party k+1, and panics at one's own place and from n on |
| Rounds.PrepareProceed | src/cli/party/rounds.rs:27-55 | The Prepare step: next round and round 1 broadcast, or the failure of nonce generation |
| Rounds.Round1Proceed | src/cli/party/rounds.rs:78-131 | The loop with own-key insertion and the computations after it are the step that `Round1Outcome` describes |
| RoundOneOutcome.Round1Outcome | src/cli/party/rounds.rs:78-131 | On any messages, honest or not: a panic for a key or nonce of the wrong size, for a list without a key at one's own index or that cannot be aggregated, for a missing nonce or an infinite partial sum of nonces; an error exactly when then the parameters or the share do not exist; and otherwise the parameters, the share and the broadcast that belong to what was read |
| RoundOneOutcome.CollectOutcome | src/cli/party/rounds.rs:82-104 | What is read: the keys of the parties before one that parse, one's own key, the keys of the parties after one that parse, and the nonces that parse; a panic exactly when a key or nonce is not 65 bytes |
| RoundOneOutcome.OwnKeyPlace | src/cli/party/rounds.rs:87-105 | One's own key stands behind the earlier keys that parse, hence at `my_ind - 1` exactly when all earlier keys parse |
| RoundOneOutcome.LastPartyNeedsAllKeys | src/cli/party/rounds.rs:93-107 | The last party panics over any earlier key that does not parse |
| RoundOneOutcome.KeyAggregationOutcome | src/cli/protocals/musig2.rs:71-118 | Aggregation of any curve points: the sum and one's coefficient, or a panic, with the cause that belongs to it, and never an error |
| RoundOneOutcome.NonceSumOutcome | src/cli/protocals/musig2.rs:183-190 | A fold over any received nonces: their sum exactly when every list is long enough and no partial sum is infinite, and otherwise a panic |
| RoundOneOutcome.ParametersOutcome | src/cli/protocals/musig2.rs:223-266 | Deriving the parameters from any keys and nonces: a panic, an error or the closed-form values, each exactly when |
| RoundOneOutcome.SignPrimeOutcome | src/cli/protocals/musig2.rs:268-290 | The share satisfies the share equation, or is an error exactly when it does not exist |
| RoundOneOutcome.ShareNeverPanics | src/cli/protocals/musig2.rs:194-220 | `compute_signature_share` panics exactly without nonces or coefficients |
| Rounds.Round2Proceed | src/cli/party/rounds.rs:159-184 | The loop over the received shares, the combination and the `verify` assertion |
| SigningGuards.SigningIff | src/cli/party/rounds.rs:78-131 | Exactly when an honest party signs: x coordinates, message and hashes on the way are scalars, no coefficient hash is zero, no partial sum of weighted keys or of nonces in its own order is infinite, R is finite, and neither its combined nonce, the challenge, nor its share vanishes |
| SigningGuards.PrepareIff | src/cli/party/rounds.rs:27-55 | Preparation succeeds exactly when both nonce hashes are below the order, and the nonces are those hashes |
| SigningGuards.KeyAggregationIff | src/cli/protocals/musig2.rs:71-118 | Aggregation succeeds exactly when x coordinates and coefficient hashes are below the order, no hash is zero and no partial sum of the weighted keys is infinite |
| SigningGuards.FoldPointsSucceedsIff | src/cli/protocals/key.rs:28-39 | A fold of `add_point` succeeds exactly when no partial sum of logarithms vanishes, and never panics |
| SigningGuards.NonceSumsIff | src/cli/protocals/musig2.rs:181-192 | Nonce aggregation succeeds exactly when neither of its two folds, own nonce first, meets infinity |
| SigningGuards.ParamsIff | src/cli/protocals/musig2.rs:232-265 | Binding coefficients, R and c exist exactly when the listed coordinates, message and hash are scalars, the hash is not zero and R is finite; and their values in closed form |
| SigningGuards.ParametersIff | src/cli/protocals/musig2.rs:223-266 | A party derives the global parameters exactly when keys, nonces in its order, and parameters allow; then they are these |
| SigningGuards.ShareIff | src/cli/protocals/musig2.rs:194-220 | `compute_signature_share` succeeds exactly when nonces, challenge and key are nonzero and neither the combined nonce nor the share vanishes |
| RoundTwoOutcome.Round2Outcome | src/cli/party/rounds.rs:159-184 | On any messages, honest or not: an error exactly when some fragment is not the encoding of a scalar or a partial sum vanishes; otherwise the sum of the shares is the result when it verifies, and when it does not the assertion panics, or an `unwrap` of R or of the message before it |
| RoundTwoOutcome.SharesReadIff | src/cli/party/rounds.rs:160-163 | The loop reads these shares exactly when the fragments are their encodings |
| Rounds.CollectInsertsOwnKey | src/cli/party/rounds.rs:82-105 | When every received key parses, the key list is the received keys with one's own inserted at `my_ind - 1`, for every position including first and last |
| HonestRounds.PreparedState | src/cli/party/rounds.rs:27-55 | An honest party's preparation keeps its key, derives finite nonce points from its nonce secrets, and broadcasts the encodings of both |
| HonestRounds.HonestMessageParses | src/cli/party/rounds.rs:90-100 | An honest round 1 message parses back to the sender's key and nonces |
| HonestRounds.HonestRound1 | src/cli/party/rounds.rs:82-105 | Every honest party builds the same key list, whose k-th entry is party k+1's key, and reads the nonces of exactly the others |
| HonestRounds.HonestSigning | src/cli/party/rounds.rs:105-131 | A successful round 1 of an honest party yields the joint R and c, the joint key, a correct share, and a message that encodes it |
| HonestRounds.HonestShares | src/cli/party/rounds.rs:160-163 | The shares an honest party reads are those the others computed, in ascending order |
| MachineOutcomes.ProceedEnds | src/cli/party/musig2_instance.rs:58-138 | A call panics exactly when a computation that it reaches panics, with that panic, fails exactly when one returns an error, and otherwise returns Ok; the round it reaches, the stores it uses up and the broadcasts it emits are stated for each case |
| MachineOutcomes.HandleEnds | src/cli/party/musig2_instance.rs:147-182 | A message whose store is gone is out of order, with the current round and message round 1; one that the store refuses changes nothing and reports the store's answer; one that it accepts is followed by a call |
| MachineOutcomes.LastShareEnds | src/cli/party/rounds.rs:159-184 | The last share in Round2, honest or not: no scalar or a vanishing partial sum is an error, a sum that does not verify is a panic, one that does is the result |
| MachineOutcomes.MalformedKeyPanics | src/cli/party/rounds.rs:90-91 | The last round 1 message panics the call when a key or nonce then read is not 65 bytes |
| MachineOutcomes.OnlyFirstPick | src/cli/party/musig2_instance.rs:232-243 | Of any sequence of picks from a finished machine only the first yields the result, and all later ones a critical `DoublePickResult`; before the end there is none |
| Machine.ProceedKeepsInv | src/cli/party/musig2_instance.rs:58-138 | A call keeps the round/store invariant, never goes back a round, never meets "store gone" or a `finish` error, wants nothing more after Ok, and ends in Gone otherwise |
| Machine.HandleKeepsInv | src/cli/party/musig2_instance.rs:147-202 | The same invariant, monotony and idleness after any incoming message |
| Machine.NonCriticalIsStutter | src/cli/party/musig2_instance.rs:147-182 | A step that reports a non-critical error leaves round, stores and queue as they were; `proceed` reports none |
| MachineRuns.RunKeepsInv | src/cli/party/musig2_instance.rs:58-182 | The invariant holds after every run |
| MachineRuns.RunHasNormalForm | src/cli/party/musig2_instance.rs:58-182 | After every run the machine, with its drained output put back, is a closed form of the accepted messages alone |
| MachineRuns.HandleOnClosed | src/cli/party/musig2_instance.rs:147-182 | One more message of any kind moves the closed form to the closed form of the stores that accepted it |
| MachineRuns.Confluence | src/cli/party/musig2_instance.rs:58-182 | The same valid messages in any two orders, with calls and drains anywhere, lead to the same round, stores and total output; only of runs that deliver nothing does it matter whether `proceed` is ever called |
| MachineRuns.RefusedLeavesNoTrace | src/cli/party/musig2_instance.rs:147-182 | A run with a refused delivery equals the run with it deleted |
| MachineRuns.ProceedIsIdle | src/cli/party/musig2_instance.rs:98-130 | A call with nothing new to work on changes nothing and returns Ok |
| MachineRuns.OutboxDiscipline | src/cli/party/rounds.rs:27-131 | Drained output plus queue is a prefix of one round 1 and one round 2 broadcast, the second only after all n-1 round 1 messages and a successful round 1 computation |
| RoundNumbers.RoundAfterRun | src/cli/party/musig2_instance.rs:58-252 | The round number after any run, by what has been accepted and which computations succeed |
| RoundNumbers.JumpsIff | src/cli/party/musig2_instance.rs:58-182 | One event of any run never lowers the round number, and raises it by more than 1 exactly when it leaves Prepare although that fails or no round 1 message is missing, or completes the first store in Round1 although signing fails or no round 2 message is missing |
| RoundNumbers.MessageInPrepare | src/cli/party/musig2_instance.rs:147-182 | The round a first message leads to: 0 exactly when refused, 1 exactly when preparation succeeds and a round 1 message is missing, 2 exactly when signing succeeds and a share is missing |
| RoundNumbers.MessageInRound1 | src/cli/party/musig2_instance.rs:147-182 | A message in Round1 leaves the round exactly while a round 1 message is missing, raises it by 1 exactly when signing succeeds and a share is missing, and otherwise takes it to 3 |
| RoundNumbers.MessageInRound2 | src/cli/party/musig2_instance.rs:147-182 | A message in Round2 raises the round, by 1, exactly when the last share arrives |
| RoundNumbers.FirstCallAdvancesIff | src/cli/party/musig2_instance.rs:68-77 | A first call of `proceed` raises the round by exactly 1 if and only if preparation succeeds and n is at least 2 |
| RoundNumbers.LastMessageCrosses | src/cli/party/musig2_instance.rs:132-134 | With all shares already there, the last round 1 message takes any party from round 1 to round 3 |
| RoundNumbers.OvertakenRunCrosses | src/cli/party/musig2_instance.rs:132-134 | The same as a run: of two parties, a share that overtakes the round 1 message |
| ToyRuns.ToyPartyCrosses | src/cli/party/musig2_instance.rs:132-134 | A concrete party and run with that crossing, whatever the two messages say |
| Instance.Musig2Instance.WithFixedSeed | src/cli/party/musig2_instance.rs:29-47 | A new instance stands for the initial machine |
| Instance.Musig2Instance.ProceedRound | src/cli/party/musig2_instance.rs:58-138 | The self-recursive method changes fields and stores as the machine function says, panics and errors included |
| Instance.Musig2Instance.ProceedNow | src/cli/party/musig2_instance.rs:204-206 | `proceed` on the object ends as `ProceedEnds` states |
| Instance.Musig2Instance.HandleIncoming | src/cli/party/musig2_instance.rs:147-182 | An incoming message on the object ends as `HandleEnds` states |
| Instance.Musig2Instance.WantsMore | src/cli/party/musig2_instance.rs:60-62 | Whether each store is present and incomplete |
| Instance.Musig2Instance.WantsToProceed | src/cli/party/musig2_instance.rs:188-202 | Agrees with the machine: always in Prepare, in a round exactly when its store is complete |
| Instance.Musig2Instance.CurrentRound | src/cli/party/musig2_instance.rs:245-252 | The round number of the machine |
| Instance.Musig2Instance.RoundTimeout | src/cli/party/musig2_instance.rs:208-214 | A timeout is set exactly while the current round number is 2, and it is five seconds |
| Instance.Musig2Instance.RoundTimeoutReached | src/cli/party/musig2_instance.rs:216-226 | Blames the parties whose round 2 message is missing; panics outside Round2 |
| Instance.Musig2Instance.PickOutput | src/cli/party/musig2_instance.rs:232-243 | From Finished the result, leaving Gone and all else unchanged; from Gone `DoublePickResult` and no change; otherwise nothing and no change |
| Instance.Musig2Instance.DrainQueue | src/cli/party/musig2_instance.rs:184-186 | Returns the outbox in order and empties it, changing nothing else |
| Network.PartyRuns | src/cli/party/musig2_instance.rs:147-206 | In every schedule each party's state is a run of its own machine |
| Network.CopiesConserved | src/cli/party/sim/async_simulation.rs:136-155 | Copies in flight to a party plus copies delivered to it are the copies flushed for it, message by message |
| Network.ReceivedIsBatch | src/cli/party/sim/async_simulation.rs:149-154 | What a party receives from honest parties is never duplicated, forged or its own |
| Network.ReceivedWasSent | src/cli/party/sim/async_simulation.rs:136-155 | A received message was flushed by the party it names, and is received once |
| Network.FullGot1 | src/cli/party/rounds.rs:34-47 | A complete round 1 store holds exactly what the others broadcast |
| Network.FullGot2 | src/cli/party/rounds.rs:114-120 | A complete round 2 store holds exactly the others' shares, so all signed |
| Liveness.UsefulSchedulesAreShort | src/cli/party/musig2_instance.rs:64-137 | Termination: a schedule in which each action makes progress has at most n(2(n-1)+3) actions |
| Liveness.UsefulUntilQuiescent | src/cli/party/musig2_instance.rs:64-182 | Deadlock freedom: until nobody is in Prepare, outboxes are empty and nothing is in flight, some action makes progress |
| Liveness.QuietIsReachable | src/cli/party/musig2_instance.rs:64-182 | Every schedule can be extended to one at whose end all is quiet |
| Liveness.QuietMeansDone | src/cli/party/musig2_instance.rs:107-117 | When all is quiet and all round 1 computations succeeded, a party has received exactly 2(n-1) messages and is Finished exactly when no partial sum of its combination vanishes |
| Liveness.QuietMeansAllFinished | src/cli/party/musig2_instance.rs:107-117 | If a party's round 2 computation succeeds, quiet means it is Finished with its result |
| Liveness.QuietFull1 | src/cli/party/musig2_instance.rs:87-97 | When all is quiet, everybody has everybody's round 1 message |
| Liveness.QuietFull2 | src/cli/party/musig2_instance.rs:107-117 | When moreover all round 1 computations succeeded, everybody has everybody's share |
| Liveness.FullRunDeliveries | src/cli/party/sim/async_simulation.rs:136-155 | A full run delivers exactly 2n(n-1) copies |
| Executor.AsyncProtocol.Run | src/cli/party/async_protocol.rs:110-147 | A first run ends, sends and reads exactly as `WholeRun` says; each ending has its cause (the last item read, the answer of the machine to the last call or message, or more messages than the sink takes), a timeout names exactly the parties whose share was not accepted, and no ending means a bug; on honest peers' messages it completes exactly when all computations succeed and stream and sink allow; every later run returns Exhausted and changes nothing |
| ExecutorCompletion.RunCompletesIff | src/cli/party/async_protocol.rs:110-147 | Among honest peers a run completes if and only if everybody signs, the party's own combination succeeds, the sink takes two messages, and the stream fills both stores before a receive error, the end, an expiry in Round2 or a round 1 message too many |
| ExecutorCompletion.HonestRunCompletes | src/cli/party/async_protocol.rs:110-147 | Its output is then the joint result, and it verifies |
| ExecutorCompletion.AnyOrderBrings | src/cli/party/async_protocol.rs:127-146 | All messages of the two rounds, each once, in any order, are such a stream |
| ExecutorCompletion.LateRepetitionEndsRun | src/cli/party/musig2_instance.rs:151-156 | A round 1 message in Round2, even a repetition, ends the run with a critical `OutOfOrderMsg` |
| ExecutorCompletion.HonestTurn | src/cli/party/async_protocol.rs:149-174 | How one honest message moves a waiting executor: it waits on with the message accepted, completes exactly when it was the last one needed, and otherwise ends only for a failed computation, a sink that is too small or a late round 1 message |
| Executor.AsyncProtocol.OutputAmongHonestPeers | src/cli/party/async_protocol.rs:110-147 | The output of a run whose stream carried only honest parties' messages, in any order and any number of times, is the joint result, and it verifies |
| HonestRuns.HonestRunFinishes | src/cli/party/musig2_instance.rs:107-117 | A party that finishes on honest messages has both stores complete and the result its own round 2 computes |
| HonestRuns.HonestRunGone | src/cli/party/musig2_instance.rs:71-115 | A party that gives up on honest messages does so over a failed computation |
| HonestRuns.HonestRunResult | src/cli/party/musig2_instance.rs:58-182 | The same for any run of the machine: lost, repeated and reordered honest messages never lead to another result |
| Executor.AsyncProtocol.constructor | src/cli/party/async_protocol.rs:66-75 | A new executor has no deadline, no round and an unused machine |
| Executor.AsyncProtocol.Iterate | src/cli/party/async_protocol.rs:127-146 | One turn of the loop takes the next visible item and does exactly what `Turned` says with it: same machine, messages sent, and ending with its cause |
| Executor.AsyncProtocol.Advance | src/cli/party/async_protocol.rs:114-121 | Timer, call and send in sequence, exactly as `Progress` says: it fails with the error of the call when the machine fails, with Send when the sink is too small, and otherwise leaves an idle machine, an empty outbox and a fresh timer |
| Executor.AsyncProtocol.NextItem | src/cli/party/async_protocol.rs:239-250 | The next item, where an expiry is seen only while a deadline runs |
| Executor.AsyncProtocol.Settle | src/cli/party/async_protocol.rs:114-125 | The same followed by finishing, exactly as `Settled` says: a finished machine completes; otherwise the machine waits, its round is the one the timer was set for, and a deadline is set exactly in Round2 |
| Executor.AsyncProtocol.HandleNext | src/cli/party/async_protocol.rs:149-174 | Per kind of item: the end of the stream gives RecvEof, a receive error Recv, an expiry a timeout, and a message goes to the machine once, whose non-critical errors do not end the run |
| Executor.AsyncProtocol.Timeout | src/cli/party/async_protocol.rs:166-171 | The timeout finds the machine in Round2 and blames exactly the silent parties, at least one |
| Executor.AsyncProtocol.ProceedIfNeeded | src/cli/party/async_protocol.rs:176-192 | Calls `proceed` exactly when the machine wants it; afterwards it wants nothing more, or a panic or critical error ended the run with that error |
| Executor.AsyncProtocol.SendOutgoing | src/cli/party/async_protocol.rs:194-207 | The whole outbox is sent in order and emptied; or the sink fails, having taken exactly the first messages of all that was ever emitted, as many as it takes |
| Executor.AsyncProtocol.FinishIfPossible | src/cli/party/async_protocol.rs:209-225 | An output exactly when the machine is Finished, and never an error |
| Executor.AsyncProtocol.RefreshTimer | src/cli/party/async_protocol.rs:227-238 | Records the machine's round with the deadline that belongs to it; MissingState exactly when there is no machine |
| SimulationStages.FiltersAgree | src/cli/party/sim/simulation.rs:204-208 | A broadcast reaches everybody but its sender and an addressed message its receiver; the filter equals that of the asynchronous simulation except on a message a party addresses to itself |
| SimulationStages.PrepareStage | src/cli/party/sim/simulation.rs:118-125 | Before the loop everybody broadcasts round 1 and waits, exactly when all preparations succeed |
| SimulationStages.SignStage | src/cli/party/sim/simulation.rs:127-138 | The first batch makes everybody sign and broadcast round 2, exactly when all round 1 computations succeed |
| SimulationStages.FinishStage | src/cli/party/sim/simulation.rs:127-138 | The second batch makes everybody finish with its own result, exactly when all round 2 computations succeed |
| SimulationStages.SimulationOutput | src/cli/party/sim/simulation.rs:105-145 | Each output of an honest simulation is the joint result, and it verifies |
| SimulationStages.SimulationAgreesWithNetwork | src/cli/party/sim/simulation.rs:105-145 | Its outputs equal those of every asynchronous schedule |
| SimulationStages.FirstTurn | src/cli/party/sim/simulation.rs:118-121 | A party's first turn performs Prepare and leaves it waiting in Round1 with its broadcast in the outbox |
| SimulationStages.Round1Turn | src/cli/party/sim/simulation.rs:202-228 | A new round 1 message stops the simulation exactly when it was the last one missing and the signing computation fails |
| SimulationStages.Round2Turn | src/cli/party/sim/simulation.rs:202-228 | A new round 2 message stops it exactly when it was the last one missing and the final computation fails |
| SimulationStages.WaitingStage | src/cli/party/sim/simulation.rs:135-141 | After the first batch nobody wants to proceed, has anything to send, or is finished |
| SimulationStages.FeedStopped | src/cli/party/sim/simulation.rs:218-221 | After a stop the rest of the batch has no influence |
| Simulation.ProceedIfNeeded | src/cli/party/sim/simulation.rs:158-187 | A party's turn to proceed, stopping on a critical error or panic |
| Simulation.HandleBatch | src/cli/party/sim/simulation.rs:202-228 | A party handles the messages of the batch meant for it in order, up to the first critical error or panic |
| Simulation.TakeOutput | src/cli/party/sim/simulation.rs:247-252 | The output of a finished party is there, so neither the `expect` nor the error branch is reached |
| Simulation.Simulation.constructor | src/cli/party/sim/simulation.rs:56-61 | No parties yet |
| Simulation.Simulation.AddParty | src/cli/party/sim/simulation.rs:64-67 | One more party at the end of the list |
| Simulation.Simulation.SendOutgoing | src/cli/party/sim/simulation.rs:189-200 | The outbox moves to the end of the next batch; no other party changes |
| Simulation.Simulation.FeedAll | src/cli/party/sim/simulation.rs:130-133 | All parties handle the same frozen batch in turn and send, up to the first stop |
| Simulation.Simulation.ProceedAll | src/cli/party/sim/simulation.rs:135-138 | All parties proceed in turn and send, up to the first stop |
| Simulation.Simulation.FinishIfPossible | src/cli/party/sim/simulation.rs:231-278 | All outputs, in order, exactly when all parties are finished; the warning exactly when some are and some are not |
| Simulation.Simulation.Exchange | src/cli/party/sim/simulation.rs:127-139 | One turn of the loop leads from each stage to the next, or stops for a failed computation |
| Simulation.Simulation.Run | src/cli/party/sim/simulation.rs:105-145 | Refuses fewer than two parties; otherwise yields outputs exactly when all computations succeed, then after exactly two batches and each party's own result; never warns, never exceeds two batches, and stops early exactly with the panic or error of the first party that fails in the first round that anybody fails |

## Left out

- The libp2p swarm, floodsub, mDNS, transport, standard input and `Node::run`: input/output and user interface. That the drivers hand out the indices 1 to n is a hypothesis.
- `musig2_party.rs`, `session.rs` and `watcher.rs`: channel plumbing and logging. Of the asynchronous simulation only the delivery filter and the fact that every subscriber gets each broadcast once are kept.
- Tokio channels (capacity, lag), `spawn_blocking` and real clocks: a receive is an item, a receive error, the end of the stream, or `Elapsed`. The executor theorems are about finite streams, of any length; in `Elapsed` the length of the deadline itself has no part.
- libsecp256k1's formulas and SHA-256: group operations, big-endian encoding and an arbitrary hash stand for them. The tag of the hash is part of that parameter.
- Security (unforgeability, quality of nonces, rogue keys): nonces are what the source derives, and only correctness is stated.
- The coordinates of the point at infinity are taken as 0, and the debug assertion in `serialize` is ignored; honest parties never encode that point.
- `may_block` is dropped, because all three `is_expensive` functions return false.
- Key generation from a random source, hex input, compressed encodings, `Display` and `Debug`, serde, benchmarks, the `Push`/`gmap` adaptors: only easy facts.
- Party counts and one's own index are numbers from 1 to 65535, as the drivers hand them out; the sender of a message is any number. No `u16` addition in the modelled code can then overflow.
- SumOfShares: stated for two nonces per party, the constant of the source, while the share equation itself is stated for lists of any length.
- BroadcastMsgsStore.ContainsMsgFrom: for sender 0 the slot computation underflows, which panics or wraps depending on the build; the model only marks the case.
- UsefulSchedulesAreShort: counts actions that make progress; idle calls and empty flushes may be repeated at will and change nothing.
