/** The front end's contract client (src/app/utils/soroban.ts). Every RPC and
    wallet call is replaced by the value it produced: a simulation outcome, a
    signer response, the settled status of a submitted transaction. What is
    modelled is how the client turns those values into its results. */
module Client {
  import opened Wrappers
  import opened PollErrors
  import opened Ballots

  /** `PollState` of the front end: one vote count per option, in order. */
  datatype PollState = PollState(question: string, options: seq<string>, votes: seq<nat>)

  ghost predicate WellFormed(p: PollState)
  {
    |p.votes| == |p.options|
  }

  /** A key of a JavaScript `Map`: a BigInt and a number are different keys. */
  datatype MapKey = BigKey(big: nat) | NumberKey(num: nat)

  /** The shapes the `votes` field can take after conversion to native
      values: something with a `get` method, an array of `[key, value]`
      entries, a plain keyed object, or anything else (including null). */
  datatype RawVotes =
    | MapLike(m: map<MapKey, nat>)
    | EntryList(pairs: seq<(nat, nat)>)
    | PlainObject(fields: map<nat, nat>)
    | Other

  /** The converted `get_poll_state` result: an array read positionally as
      `[question, options, votes]`, or an object with those named fields.
      `options` is `None` when it is not an array, so that `options.map`
      throws. */
  datatype RawPoll =
    | Positional(question: string, options: Option<seq<string>>, votes: RawVotes)
    | Named(question: string, options: Option<seq<string>>, votes: RawVotes)

  /** A read-only simulation: it succeeded with a return value, reported
      failure (or no result), or threw. */
  datatype Simulation<T> = Simulated(retval: T) | SimulationFailed | Threw

  /** The position of the first entry whose key is `key` (`Array.find`). */
  function FindEntry(pairs: seq<(nat, nat)>, key: nat): (r: Option<nat>)
    ensures r.Some? ==> r.value < |pairs| && pairs[r.value].0 == key
    ensures r.Some? ==> forall j :: 0 <= j < r.value ==> pairs[j].0 != key
    ensures r.None? ==> forall j :: 0 <= j < |pairs| ==> pairs[j].0 != key
  {
    if pairs == [] then None
    else if pairs[0].0 == key then Some(0)
    else match FindEntry(pairs[1..], key) {
      case Some(k) => Some(k + 1)
      case None => None
    }
  }

  /** The count the decoder reads for option `i` from one shape of `votes`:
      the BigInt key before the number key for a map, the first matching
      entry for an entry array, the keyed field for an object, else 0. */
  function VoteAt(raw: RawVotes, i: nat): nat
  {
    match raw
    case MapLike(m) =>
      if BigKey(i) in m then m[BigKey(i)] else if NumberKey(i) in m then m[NumberKey(i)] else 0
    case EntryList(pairs) =>
      match FindEntry(pairs, i) {
        case Some(k) => pairs[k].1
        case None => 0
      }
    case PlainObject(fields) => if i in fields then fields[i] else 0
    case Other => 0
  }

  /** The `options.map(...)` decode: a dense count array aligned with the
      options. */
  function DecodeVotes(options: seq<string>, raw: RawVotes): (votes: seq<nat>)
    ensures |votes| == |options|
  {
    seq(|options|, i requires 0 <= i < |options| => VoteAt(raw, i))
  }

  /** `getPollState`: `None` (null) unless the simulation succeeded with an
      options array; then the question, the options and their decoded
      counts. */
  function GetPollState(sim: Simulation<RawPoll>): (r: Option<PollState>)
    ensures r.Some? <==> sim.Simulated? && sim.retval.options.Some?
    ensures r.Some? ==> WellFormed(r.value)
    ensures r.Some? ==> r.value.question == sim.retval.question && r.value.options == sim.retval.options.value
    ensures r.Some? ==> r.value.votes == DecodeVotes(r.value.options, sim.retval.votes)
  {
    if sim.Simulated? && sim.retval.options.Some? then
      var options := sim.retval.options.value;
      Some(PollState(sim.retval.question, options, DecodeVotes(options, sim.retval.votes)))
    else
      None
  }

  /** The contract's `votes` map as a JavaScript `Map` with number keys. */
  function NumberKeyed(counts: map<nat, nat>): map<MapKey, nat>
  {
    map i | i in counts :: NumberKey(i) := counts[i]
  }

  /** The contract's `votes` map as a JavaScript `Map` with BigInt keys,
      the form the decoder looks up first. */
  function BigKeyed(counts: map<nat, nat>): map<MapKey, nat>
  {
    map k | k in (set i | i in counts :: BigKey(i)) :: counts[k.big]
  }

  /** `pairs` lists exactly the entries of `counts`, in any order, possibly
      repeated. */
  ghost predicate ListsEntries(pairs: seq<(nat, nat)>, counts: map<nat, nat>)
  {
    && (forall k :: 0 <= k < |pairs| ==> pairs[k].0 in counts && pairs[k].1 == counts[pairs[k].0])
    && (forall i :: i in counts ==> exists k :: 0 <= k < |pairs| && pairs[k].0 == i)
  }

  /** `raw` is one of the three shapes the contract's counts may arrive in. */
  ghost predicate EncodesCounts(raw: RawVotes, counts: map<nat, nat>)
  {
    || raw == MapLike(NumberKeyed(counts))
    || raw == MapLike(BigKeyed(counts))
    || raw == PlainObject(counts)
    || (raw.EntryList? && ListsEntries(raw.pairs, counts))
  }

  /** Whichever shape the counts arrive in, the decoder reads back the
      count of each option, 0 where the map has none. */
  lemma DecodeRecoversCounts(options: seq<string>, counts: map<nat, nat>, raw: RawVotes)
    requires EncodesCounts(raw, counts)
    ensures forall i :: 0 <= i < |options| ==> DecodeVotes(options, raw)[i] == CountOf(counts, i)
  {
  }

  /** In a Map holding a BigInt key for an option, that entry is the one
      read, whatever the number key beside it holds. */
  lemma BigKeyWins(options: seq<string>, m: map<MapKey, nat>, i: nat)
    requires i < |options| && BigKey(i) in m
    ensures DecodeVotes(options, MapLike(m))[i] == m[BigKey(i)]
  {
  }

  /** In a Map without a BigInt key for an option, the number key is read,
      and a missing option reads as 0. */
  lemma NumberKeyFallback(options: seq<string>, m: map<MapKey, nat>, i: nat)
    requires i < |options| && BigKey(i) !in m
    ensures DecodeVotes(options, MapLike(m))[i] == if NumberKey(i) in m then m[NumberKey(i)] else 0
  {
  }

  /** A shape the decoder does not recognise yields all zeros. */
  lemma UnknownShapeGivesZeros(options: seq<string>)
    ensures forall i :: 0 <= i < |options| ==> DecodeVotes(options, Other)[i] == 0
  {
  }

  /** The value `getVoterChoice` uses for "no vote". */
  const NoChoice: int := -1

  /** `getVoterChoice`: the stored choice, or -1 when there is none, the
      simulation failed or it threw. */
  function GetVoterChoice(sim: Simulation<Option<nat>>): (choice: int)
    ensures choice >= NoChoice
    ensures choice == NoChoice <==> !(sim.Simulated? && sim.retval.Some?)
  {
    if sim.Simulated? && sim.retval.Some? then sim.retval.value else NoChoice
  }

  /** `hasVoted`: the choice is not the sentinel. */
  function HasVoted(sim: Simulation<Option<nat>>): (voted: bool)
    ensures voted <==> sim.Simulated? && sim.retval.Some?
  {
    GetVoterChoice(sim) != NoChoice
  }

  /** Read through a successful simulation, the client agrees with the
      contract's storage: the choice it reports is the stored one, and -1
      exactly when the voter holds no vote. */
  lemma ClientReadsStoredChoice(choices: map<Address, nat>, voter: Address)
    ensures GetVoterChoice(Simulated(ChoiceOf(choices, voter))) == if voter in choices then choices[voter] else NoChoice
    ensures HasVoted(Simulated(ChoiceOf(choices, voter))) <==> voter in choices
  {
  }

  /** What the wallet's `signTransaction` gave back: a falsy value, the
      signed envelope as a string, or an object with an optional
      `signedTxXdr`. */
  datatype SignResponse = Falsy | XdrText(xdr: string) | SignedObject(signedTxXdr: Option<string>)

  /** The signed envelope to submit, or `None` when the user cancelled. */
  function SignedXdr(resp: SignResponse): (r: Option<string>)
    ensures r.Some? ==> r.value != ""
    ensures r.None? <==> (resp.Falsy? || resp == XdrText("") || (resp.SignedObject? && (resp.signedTxXdr.None? || resp.signedTxXdr == Some(""))))
    ensures resp.XdrText? && resp.xdr != "" ==> r == Some(resp.xdr)
    ensures resp.SignedObject? && r.Some? ==> r == resp.signedTxXdr
  {
    match resp
    case Falsy => None
    case XdrText(x) => if x == "" then None else Some(x)
    case SignedObject(x) => if x.None? || x.value == "" then None else x
  }

  /** The object `vote` returns: a status and, on a local failure, a
      message. Responses of the RPC server carry no `error` field. */
  datatype VoteResult = VoteResult(status: string, error: Option<string>)

  const ErrorStatus := "ERROR"
  const GenericPrepareFailure := "Simulation failed. Please check your connection."

  /** The messages of the prepare-failure table. */
  function PrepareText(e: PollError): string
  {
    match e
    case InvalidOption => "Invalid Option Selected"
    case PollNotInitialized => "Poll Not Initialized"
    case PollAlreadyInitialized => "Poll Already Initialized"
  }

  /** The message for a failed preparation: the first contract error the
      failure text names, else the generic message. */
  function PrepareMessage(message: string): (t: string)
    ensures t != ""
  {
    match MentionedError(message)
    case Some(e) => PrepareText(e)
    case None => GenericPrepareFailure
  }

  /** The catch block around `prepareTransaction`: always an ERROR result,
      carrying the message for the failure text (empty when the fault had no
      message). */
  method PrepareFailure(message: string) returns (r: VoteResult)
    ensures r.status == ErrorStatus
    ensures r.error == Some(PrepareMessage(message))
  {
    var errorMessage := GenericPrepareFailure;
    if message != "" {
      if Contains(message, Tag(InvalidOption)) {
        errorMessage := PrepareText(InvalidOption);
      } else if Contains(message, Tag(PollNotInitialized)) {
        errorMessage := PrepareText(PollNotInitialized);
      } else if Contains(message, Tag(PollAlreadyInitialized)) {
        errorMessage := PrepareText(PollAlreadyInitialized);
      }
    }
    r := VoteResult(ErrorStatus, Some(errorMessage));
  }

  /** The host's report of a contract error alone gets that error's message. */
  lemma PrepareMessageOfTag(e: PollError)
    ensures PrepareMessage(Tag(e)) == PrepareText(e)
  {
    TagIsRecognised(e);
  }

  /** How building and preparing the transaction went: the account lookup
      threw, the preparation (simulation) threw, or it succeeded. */
  datatype Preparation = AccountLookupThrew(reason: string) | PrepareThrew(message: string) | Prepared

  /** How submission went: the status the transaction settled on (after any
      PENDING polling), or a thrown fault. */
  datatype Submission = Settled(status: string) | SubmitThrew

  /** What awaiting `vote` gives its caller: a returned value (`None` is
      null) or a fault it let through. */
  datatype Completion = Returned(result: Option<VoteResult>) | Thrown(message: string)

  /** `vote`: a failed account lookup escapes; a failed preparation returns
      an ERROR result; a cancelled signature returns null; a submission
      returns its settled response, or null if it threw. */
  method SubmitVote(prep: Preparation, sign: SignResponse, send: Submission) returns (c: Completion)
    ensures prep.AccountLookupThrew? ==> c == Thrown(prep.reason)
    ensures prep.PrepareThrew? ==> c == Returned(Some(VoteResult(ErrorStatus, Some(PrepareMessage(prep.message)))))
    ensures prep.Prepared? && SignedXdr(sign).None? ==> c == Returned(None)
    ensures prep.Prepared? && SignedXdr(sign).Some? && send.SubmitThrew? ==> c == Returned(None)
    ensures prep.Prepared? && SignedXdr(sign).Some? && send.Settled? ==> c == Returned(Some(VoteResult(send.status, None)))
  {
    match prep {
      case AccountLookupThrew(reason) =>
        return Thrown(reason);
      case PrepareThrew(message) =>
        var failure := PrepareFailure(message);
        return Returned(Some(failure));
      case Prepared =>
    }
    var signedXdr := SignedXdr(sign);
    if signedXdr.None? {
      return Returned(None);
    }
    match send {
      case Settled(status) => c := Returned(Some(VoteResult(status, None)));
      case SubmitThrew => c := Returned(None);
    }
  }
}
