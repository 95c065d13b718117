/** The on-chain poll contract (contracts/poll/src/lib.rs): one instance whose
    storage holds the question, the options, a count per option and each
    voter's current choice. Storage entries become fields; events published
    by `vote` are kept in an append-only log. */
module PollContract {
  import opened Wrappers
  import opened PollErrors
  import opened Ballots

  /** How an invocation ends: normally, with a returned `PollError`, or by a
      panic that aborts it (nothing it wrote survives). */
  datatype CallResult = Done | Failed(error: PollError) | Panicked(reason: string)

  /** Events of `vote`, one per topic ("poll", "vote" | "change" | "unvote"). */
  datatype Event =
    | Voted(voter: Address, index: nat)
    | Changed(voter: Address, from: nat, to: nat)
    | Unvoted(voter: Address, index: nat)

  /** `PollState` as `get_poll_state` returns it. */
  datatype PollState = PollState(question: string, options: seq<string>, votes: map<nat, nat>)

  const MinOptionsReason := "At least 2 options required"

  /** The event an accepted vote publishes, given the choices before it. */
  function VoteEvent(choices: map<Address, nat>, voter: Address, index: nat): Event
  {
    match ChoiceOf(choices, voter)
    case None => Voted(voter, index)
    case Some(prior) => if prior == index then Unvoted(voter, prior) else Changed(voter, prior, index)
  }

  class Poll {
    /** `IsInit` */
    var isInit: bool
    /** `Question`; the empty string while unset, as `get_poll_state` reads it */
    var question: string
    /** `Options`; empty while unset */
    var options: seq<string>
    /** `VoteCount(i)` entries */
    var voteCount: map<nat, nat>
    /** `VoterChoice(voter)` entries */
    var voterChoice: map<Address, nat>
    /** Events published so far */
    var events: seq<Event>

    ghost function Ballots(): Tally
      reads this
    {
      Tally(voteCount, voterChoice)
    }

    /** Storage as `init` and `vote` leave it: nothing is stored before
        `init`, an initialised poll has at least two options, and the counts
        agree with the stored choices. */
    ghost predicate Valid()
      reads this
    {
      && Consistent(Ballots(), |options|)
      && (isInit ==> |options| >= 2)
      && (!isInit ==> options == [] && question == "" && voterChoice == map[] && events == [])
    }

    /** A freshly deployed contract: empty storage. */
    constructor ()
      ensures Valid() && !isInit
      ensures question == "" && options == [] && voteCount == map[] && voterChoice == map[] && events == []
    {
      isInit := false;
      question := "";
      options := [];
      voteCount := map[];
      voterChoice := map[];
      events := [];
    }

    /** `init`: fewer than two options panics (checked first, so it wins even
        on an initialised poll); a second `init` is refused; otherwise the
        question and options are stored and every option's count is 0. */
    method Init(q: string, opts: seq<string>) returns (r: CallResult)
      requires Valid()
      modifies this
      ensures Valid()
      ensures |opts| < 2 ==> r == Panicked(MinOptionsReason) && unchanged(this)
      ensures |opts| >= 2 && old(isInit) ==> r == Failed(PollAlreadyInitialized) && unchanged(this)
      ensures |opts| >= 2 && !old(isInit) ==>
        && r == Done && isInit && question == q && options == opts
        && (forall i: nat :: i in voteCount <==> i < |opts|)
        && (forall i :: i in voteCount ==> voteCount[i] == 0)
        && voterChoice == old(voterChoice) && events == old(events)
    {
      if |opts| < 2 {
        return Panicked(MinOptionsReason);
      }
      if isInit {
        return Failed(PollAlreadyInitialized);
      }
      question := q;
      options := opts;
      for i := 0 to |opts|
        modifies this`voteCount
        invariant forall j: nat :: j in voteCount <==> j < i
        invariant forall j :: j in voteCount ==> voteCount[j] == 0
      {
        voteCount := voteCount[i := 0];
      }
      isInit := true;
      return Done;
    }

    /** `vote`: refused before `init` and for an index outside the options;
        otherwise a first vote, a change of vote, or an undo. Voter
        authentication is the host's and is not modelled. */
    method Vote(voter: Address, optionIndex: nat) returns (r: CallResult)
      requires Valid()
      modifies this
      ensures Valid()
      ensures !old(isInit) ==> r == Failed(PollNotInitialized) && unchanged(this)
      ensures old(isInit) && optionIndex >= |old(options)| ==> r == Failed(InvalidOption) && unchanged(this)
      ensures old(isInit) && optionIndex < |old(options)| ==>
        && r == Done
        && Ballots() == Recast(old(Ballots()), voter, optionIndex)
        && events == old(events) + [VoteEvent(old(voterChoice), voter, optionIndex)]
        && isInit && question == old(question) && options == old(options)
    {
      if !isInit {
        return Failed(PollNotInitialized);
      }
      if optionIndex >= |options| {
        return Failed(InvalidOption);
      }
      ghost var before := Ballots();
      var existing := GetVoterChoice(voter);
      match existing {
        case Some(prior) =>
          if prior == optionIndex {
            UpdateVoteCount(prior, false);
            voterChoice := voterChoice - {voter};
            events := events + [Unvoted(voter, prior)];
          } else {
            UpdateVoteCount(prior, false);
            UpdateVoteCount(optionIndex, true);
            voterChoice := voterChoice[voter := optionIndex];
            events := events + [Changed(voter, prior, optionIndex)];
          }
        case None =>
          UpdateVoteCount(optionIndex, true);
          voterChoice := voterChoice[voter := optionIndex];
          events := events + [Voted(voter, optionIndex)];
      }
      RecastKeepsConsistent(before, |options|, voter, optionIndex);
      return Done;
    }

    /** `update_vote_count`. */
    method UpdateVoteCount(index: nat, increment: bool)
      modifies this`voteCount
      ensures voteCount == Bump(old(voteCount), index, increment)
    {
      var count := CountOf(voteCount, index);
      if increment {
        voteCount := voteCount[index := count + 1];
      } else if count > 0 {
        voteCount := voteCount[index := count - 1];
      }
    }

    /** `get_poll_state`: one vote entry per option, reading a missing count
        as 0; on valid storage each entry is the number of voters holding
        that option. */
    method GetPollState() returns (s: PollState)
      ensures s.question == question && s.options == options
      ensures forall i: nat :: i in s.votes <==> i < |options|
      ensures forall i :: i in s.votes ==> s.votes[i] == CountOf(voteCount, i)
      ensures Valid() ==> s.votes == voteCount
      ensures Valid() ==> forall i :: i in s.votes ==> s.votes[i] == |VotersFor(voterChoice, i)|
    {
      var votes: map<nat, nat> := map[];
      for i := 0 to |options|
        invariant forall j: nat :: j in votes <==> j < i
        invariant forall j :: j in votes ==> votes[j] == CountOf(voteCount, j)
      {
        votes := votes[i := CountOf(voteCount, i)];
      }
      s := PollState(question, options, votes);
    }

    /** `has_voted`. */
    function HasVoted(voter: Address): (b: bool)
      reads this
      ensures b <==> GetVoterChoice(voter).Some?
    {
      voter in voterChoice
    }

    /** `get_voter_choice`: on valid storage a stored choice is an option. */
    function GetVoterChoice(voter: Address): (r: Option<nat>)
      reads this
      ensures r.Some? <==> voter in voterChoice
      ensures r.Some? ==> r.value == voterChoice[voter]
      ensures Valid() && r.Some? ==> r.value < |options|
    {
      ChoiceOf(voterChoice, voter)
    }
  }

  /** The scenarios of contracts/poll/src/test.rs, replayed on the model. */
  method TestInitAndVote(voter1: Address, voter2: Address)
    requires voter1 != voter2
  {
    var poll := new Poll();
    var r := poll.Init("Favorite Color?", ["Red", "Blue"]);
    assert r == Done;
    r := poll.Vote(voter1, 0);
    r := poll.Vote(voter2, 1);
    var state := poll.GetPollState();
    assert state.question == "Favorite Color?" && state.options == ["Red", "Blue"];
    assert state.votes[0] == 1 && state.votes[1] == 1;
  }

  method TestChangeAndUndoVote(voter: Address)
  {
    var poll := new Poll();
    var r := poll.Init("Q?", ["A", "B"]);
    r := poll.Vote(voter, 0);
    var state := poll.GetPollState();
    assert state.votes[0] == 1 && poll.GetVoterChoice(voter) == Some(0);
    r := poll.Vote(voter, 1);
    state := poll.GetPollState();
    assert state.votes[0] == 0 && state.votes[1] == 1 && poll.GetVoterChoice(voter) == Some(1);
    r := poll.Vote(voter, 1);
    state := poll.GetPollState();
    assert state.votes[1] == 0 && poll.GetVoterChoice(voter) == None;
  }

  /** With a single option `init` already panics, so the InvalidOption
      outcome is reached on a two-option poll instead. */
  method TestInvalidOption(voter: Address)
  {
    var poll := new Poll();
    var r := poll.Init("Q?", ["A"]);
    assert r.Panicked? && !poll.isInit;
    r := poll.Init("Q?", ["A", "B"]);
    r := poll.Vote(voter, 2);
    assert r == Failed(InvalidOption) && !poll.HasVoted(voter);
  }
}
