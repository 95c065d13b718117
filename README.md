# StellarPoll, modelled in Dafny

StellarPoll is a single-question poll that lives in a Soroban smart contract
on the Stellar network, with a Next.js page in front of it. This project
models three parts of it:

- **The poll contract** (`contracts/poll/src/lib.rs`), module `PollContract`,
  with the counting rules as values in module `Ballots`. Contract storage is
  the class `Poll`: the initialised flag, question, options, one count per
  option, each voter's current choice, and a log of published events. `init`
  stores a poll. `vote` casts, changes or undoes a voter's vote. The three
  `PollError` codes are in module `PollErrors`. The central invariant is
  `Ballots.Consistent`: every option has a count, each count is the number of
  voters whose stored choice is that option, and every stored choice is an
  option. `Init` and `Vote` preserve it.
- **The contract client** (`src/app/utils/soroban.ts`), module `Client`.
  It decodes the `votes` field into one count per option, whatever shape that
  field arrives in. It also maps preparation failures to messages, selects the
  signed envelope, and defines the voter-choice sentinel −1. Each RPC or wallet
  call is replaced by the value it produced (`Simulation`, `SignResponse`,
  `Preparation`, `Submission`).
- **The page controller** (`src/app/page.tsx`), class `Controller.Home`: the
  UI state and how `handleVote`, `handleConnect` and `fetchPollState` change
  it, plus `totalVotes`. `handleVote` is split at its `await vote(...)` into
  `BeginVote` and `CompleteVote`. `HandleVote` composes the two.

Lemmas tie the layers together. `Controller.TotalVotesCountsVoters` shows
that the total the page displays equals the number of addresses holding a
vote. It starts from a consistent contract, allows any of the three shapes
the counts can arrive in, and goes through the client's decoder.

Some behaviour is modelled as written, even where it may be surprising:

- The 5-second refresh runs the `fetchPollState` captured when the page
  mounted, while the wallet address was still empty. It therefore refreshes
  the results but never the user's choice, which changes only on connect and
  after a vote (`Controller.Home.IntervalTick`).
- `handleVote` treats every result whose status is not `"ERROR"` as a
  success. A transaction that settles as `"FAILED"` is therefore shown as a
  success (`Controller.SettledFailureCountsAsSuccess`).
- The two files use different message tables for the same three error codes
  (`Client.PrepareText`, `Controller.FaultText`). Both look for the codes in
  the same order, through the shared `PollErrors.MentionedError`.
- A `SUCCESS` timer that fires while a later vote is pending sets the status
  back to `IDLE`. The `isVoting` flag still refuses a further vote
  (`Controller.StaleTimerScenario`).

## Model

| member | source | states |
|---|---|---|
| PollErrors.Code | contracts/poll/src/lib.rs:22-29 | each error's code is 1, 2 or 3 |
| PollErrors.CodeInjective | contracts/poll/src/lib.rs:25-28 | two errors with the same code are the same error |
| PollErrors.MentionedError | src/app/utils/soroban.ts:143-151 | the error is named exactly when some "Error(Contract, #k)" text occurs in the message; the one chosen occurs there, and no error with a smaller code does (order #1, #2, #3) |
| PollErrors.TagsDoNotOverlap | src/app/utils/soroban.ts:144-149 | the host text of one error never contains the text of another |
| PollErrors.MentionedErrorOfSingleTag | src/app/page.tsx:107-113 | a message naming exactly one contract error is mapped to that error |
| PollErrors.TagIsRecognised | src/app/utils/soroban.ts:144-149 | the host's report of error e, on its own, is recognised as e |
| Ballots.Bump | contracts/poll/src/lib.rs:134-150 | updating one count leaves every other option's count and presence unchanged |
| Ballots.DecrementFloorsAtZero | contracts/poll/src/lib.rs:145-149 | a decrement at 0 writes nothing; above 0 it removes exactly one |
| Ballots.RecastOutcomes | contracts/poll/src/lib.rs:88-129 | on a consistent poll: a first vote adds one to the chosen count and stores the choice; a change takes one from the old count, adds one to the new and stores the new choice; a repeat takes one from that count and removes the choice |
| Ballots.RecastIsLocal | contracts/poll/src/lib.rs:85-129 | a vote changes only the counts of the voter's old and new option and only that voter's choice |
| Ballots.RecastKeepsConsistent | contracts/poll/src/lib.rs:79-129 | every accepted vote preserves the invariant: counts equal the number of voters per option, and choices are options |
| Ballots.RecastTwiceRestores | contracts/poll/src/lib.rs:88-117 | voting for the same option twice, starting without a vote, restores counts and choices exactly |
| Ballots.EveryVoterCountedOnce | contracts/poll/src/lib.rs:88-129 | on a consistent poll the voter sets of all options add up to the number of voters, and so do the stored counts |
| Ballots.CountSumIsTallySum | contracts/poll/src/lib.rs:88-129 | on a consistent poll the stored counts of the first k options add up to the same total as those options' voter sets |
| Ballots.Recast | contracts/poll/src/lib.rs:88-129 | the new counts and choices after one accepted vote; its meaning is given by RecastOutcomes, RecastIsLocal and RecastKeepsConsistent |
| PollContract.Poll.constructor | contracts/poll/src/lib.rs:37-38 | a freshly deployed contract has empty storage and satisfies the invariant |
| PollContract.Poll.Init | contracts/poll/src/lib.rs:43-63 | fewer than 2 options panics, checked before the already-initialised check; a second init returns PollAlreadyInitialized; both change nothing; otherwise the question and options are stored, every option's count is 0, and the poll is initialised with the invariant kept |
| PollContract.Poll.Vote | contracts/poll/src/lib.rs:65-132 | PollNotInitialized before init and InvalidOption for an index beyond the options, both without writes; otherwise counts and choices become Recast of the old ones, exactly one event is appended, and the invariant is kept |
| PollContract.Poll.UpdateVoteCount | contracts/poll/src/lib.rs:134-150 | the count map becomes Bump of the old one, and nothing else is written |
| PollContract.Poll.GetPollState | contracts/poll/src/lib.rs:152-177 | returns the stored question and options and a votes map with keys exactly 0..n-1, reading missing counts as 0; on valid storage each entry is the number of voters holding that option |
| PollContract.Poll.HasVoted | contracts/poll/src/lib.rs:179-183 | true exactly when get_voter_choice returns Some |
| PollContract.Poll.GetVoterChoice | contracts/poll/src/lib.rs:185-189 | Some exactly for a voter with a stored choice, and then it is that stored choice; on valid storage it is an option index |
| Client.FindEntry | src/app/utils/soroban.ts:94 | returns the position of the first entry whose key matches, or None when no entry matches |
| Client.DecodeVotes | src/app/utils/soroban.ts:87-101 | the decoded votes have exactly one entry per option |
| Client.VoteAt | src/app/utils/soroban.ts:87-100 | the count read for one option from one shape; its meaning is given by DecodeRecoversCounts, BigKeyWins, NumberKeyFallback and UnknownShapeGivesZeros |
| Client.DecodeRecoversCounts | src/app/utils/soroban.ts:87-101 | for a Map with BigInt or number keys, a keyed object, or an entry array listing the counts in any order, entry i is the count of option i, and 0 where there is none |
| Client.BigKeyWins | src/app/utils/soroban.ts:88-91 | in a Map, an option's BigInt key is read first and wins over its number key |
| Client.NumberKeyFallback | src/app/utils/soroban.ts:88-91 | in a Map without an option's BigInt key, its number key is read, and a missing option reads as 0 |
| Client.UnknownShapeGivesZeros | src/app/utils/soroban.ts:96-100 | any other votes value, including null, decodes to all zeros |
| Client.GetPollState | src/app/utils/soroban.ts:50-115 | null unless the simulation succeeded with an options array; then the question and options as returned (positional or named), and the votes are the decoding of the returned counts against those options, one per option |
| Client.GetVoterChoice | src/app/utils/soroban.ts:197-224 | -1 exactly when there is no stored choice, the simulation failed or it threw; otherwise a non-negative choice |
| Client.HasVoted | src/app/utils/soroban.ts:192-195 | true exactly when the simulation returned a stored choice |
| Client.ClientReadsStoredChoice | src/app/utils/soroban.ts:211-219 | read through a successful simulation, the choice is the contract's stored one, and -1 with has-voted false exactly when the voter holds none |
| Client.SignedXdr | src/app/utils/soroban.ts:159-171 | null for a falsy response or one without a signed envelope; a non-empty string response is used directly; from an object, a result is its `signedTxXdr` field; a result is never empty |
| Client.PrepareMessage | src/app/utils/soroban.ts:141-151 | the message for a preparation failure is never empty |
| Client.PrepareFailure | src/app/utils/soroban.ts:138-154 | the result always has status ERROR and carries the first named contract error's message, else the generic simulation message |
| Client.PrepareMessageOfTag | src/app/utils/soroban.ts:144-150 | a failure text holding only error e's report gets e's message |
| Client.SubmitVote | src/app/utils/soroban.ts:117-190 | an account-lookup fault escapes; a failed preparation returns an ERROR result with the mapped message; a cancelled signature returns null; a submission returns its settled status, or null if it threw |
| Controller.FirstLine | src/app/page.tsx:114 | the result is a prefix of the text, holds no newline, and stops exactly at the first newline |
| Controller.FaultMessage | src/app/page.tsx:106-115 | the message for a caught fault is never empty |
| Controller.FaultMessageOfPlainFault | src/app/page.tsx:114 | a fault naming no contract error and not starting with a newline is reported by its first line, and a one-line fault by its whole text |
| Controller.FailureMessage | src/app/page.tsx:97-115 | every failed vote leaves a non-empty error message |
| Controller.SettledFailureCountsAsSuccess | src/app/page.tsx:86 | a result with status "FAILED" counts as a success |
| Controller.CancelledVoteIsError | src/app/page.tsx:97-99 | a null result is an error with the message "Transaction failed to submit." |
| Controller.TotalVotes | src/app/page.tsx:121 | 0 when there is no poll state |
| Controller.TotalVotesCountsVoters | src/app/page.tsx:121 | the total shown for the state the client reads back from a consistent contract, with its counts in any of the three shapes, is the number of voters holding a vote |
| Controller.Home.constructor | src/app/page.tsx:10-16 | initial state: no wallet, no poll state, IDLE, no message, not voting, choice -1 |
| Controller.Home.IntervalTick | src/app/page.tsx:37 | the interval keeps the first render's `fetchPollState` (page.tsx:43-58), whose wallet address is empty: a tick may replace the poll state but never refreshes the user's choice; nothing else changes |
| Controller.Home.FetchPollState | src/app/page.tsx:43-58 | a null fetch keeps the previous poll state; the choice is refreshed only with a connected wallet; nothing else changes |
| Controller.Home.HandleConnect | src/app/page.tsx:60-71 | only a non-empty address sets the address and the user's choice; a refusal or fault changes nothing |
| Controller.Home.BeginVote | src/app/page.tsx:73-80 | proceeds exactly when a wallet is connected, no vote is in flight and the status is not PENDING, and otherwise changes nothing; on proceeding it sets voting, PENDING and an empty message |
| Controller.Home.CompleteVote | src/app/page.tsx:82-118 | a non-null result with a status other than ERROR gives SUCCESS and refreshes the choice and poll state; otherwise ERROR with the failure message; voting is false on every path |
| Controller.Home.HandleVote | src/app/page.tsx:73-119 | a guarded click changes nothing; otherwise it settles on SUCCESS with no message, or ERROR with a non-empty message, and is no longer voting; ERROR always carries a message and PENDING implies voting |
| Controller.Home.SuccessTimerFires | src/app/page.tsx:96 | the status returns to IDLE and the UI invariant is kept |

## Left out

- Voter authentication (`voter.require_auth()`, lib.rs:66) belongs to the host. Every call to `Vote` is taken as authorised.
- TTL extension calls (lib.rs:60, 83, 102-106, 117-122) are ledger rent bookkeeping and do not affect the poll.
- PollContract.Poll.Vote: counts are unbounded naturals, so the u32 overflow of `count + 1` (lib.rs:144) is not modelled. Overflow would need more than 4 billion voters on one option.
- The `PollState` struct's `votes` is a Soroban `Map`. It is modelled as a Dafny map with the same keys and values.
- The wallet and RPC calls are not modelled. This covers `isConnected`, `requestAccess`, `setAllowed`, `getAccount`, `prepareTransaction`, `simulateTransaction`, `signTransaction`, `sendTransaction`, `getTransaction` and XDR conversion. Their results are parameters.
- Client.SubmitVote: the loop that polls a PENDING transaction every 2 seconds (soroban.ts:175-183) has no bound. It is represented only by the status it ends on (`Settled`). A fault thrown by the wallet's signer is not modelled.
- `checkConnection` and `connectWallet` are not modelled separately. They are thin wrappers over the wallet, and their results reach the page as `Connection`.
- BigInt and Number coercions in the decoder are not modelled: keys and counts are naturals. A Map's BigInt and number keys are kept apart (`MapKey`). A stored `null` or non-numeric count is not modelled.
- Client.GetPollState: converted values whose field types differ from the declared ones are not modelled, except an `options` that is not an array. Examples are a question that is not a string, or an array with fewer than three items.
- The page's load-time effect is modelled only in part. Its silent reconnect is the same step as `HandleConnect`, and the `isLoading` flag is not modelled. The 5-second refresh it starts is `Controller.Home.IntervalTick`.
- Interleavings of concurrent async handlers are not modelled, apart from the stale SUCCESS timer scenario. Interleavings that depend on await order, such as last-write-wins between refreshes, are event-loop concerns.
- `PollCard.tsx`, `ConnectWallet.tsx`, `Background.tsx` and `ProgressBar.tsx` are presentation only. The percentage in `PollCard.tsx` uses floating-point division.
- Controller.Home.CompleteVote: the fault text is taken as already resolved from `e.message || String(e)`.
