/** The page's controller (src/app/page.tsx): the UI state the page holds
    and how its handlers change it. Each handler receives, as parameters,
    what the client calls it awaits produced. React's rendering, effects and
    timers are not modelled; the 5-second reset of a SUCCESS status is the
    separate step `SuccessTimerFires`. */
module Controller {
  import opened Wrappers
  import opened PollErrors
  import opened Ballots
  import Client

  datatype TxStatus = Idle | Pending | Success | Error

  const SubmitFallback := "Transaction failed to submit."
  const UnexpectedFallback := "An unexpected error occurred."

  /** The page's own sentences for the contract errors. */
  function FaultText(e: PollError): string
  {
    match e
    case InvalidOption => "Invalid option selected."
    case PollNotInitialized => "The poll has not been initialized yet."
    case PollAlreadyInitialized => "This poll has already been initialized."
  }

  /** `s.split('\n')[0]`: the text before the first newline. */
  function FirstLine(s: string): (r: string)
    ensures |r| <= |s| && r == s[..|r|]
    ensures '\n' !in r
    ensures |r| < |s| ==> s[|r|] == '\n'
  {
    if s == [] || s[0] == '\n' then [] else [s[0]] + FirstLine(s[1..])
  }

  /** The message for a fault caught around `vote`: a contract error's
      sentence, else the fault's first line, else a fallback. */
  function FaultMessage(msg: string): (m: string)
    ensures m != ""
  {
    match MentionedError(msg)
    case Some(e) => FaultText(e)
    case None => if FirstLine(msg) != "" then FirstLine(msg) else UnexpectedFallback
  }

  /** A fault naming no contract error is reported by its first line, which
      is all of a one-line message. */
  lemma FaultMessageOfPlainFault(msg: string)
    requires MentionedError(msg).None? && msg != [] && msg[0] != '\n'
    ensures FaultMessage(msg) == FirstLine(msg) && FaultMessage(msg) <= msg
    ensures '\n' !in msg ==> FaultMessage(msg) == msg
  {
  }

  /** `vote` counts as a success when it returned a result whose status is
      not "ERROR". */
  predicate Succeeded(c: Client.Completion)
  {
    c.Returned? && c.result.Some? && c.result.value.status != Client.ErrorStatus
  }

  /** The error message a failed vote leaves: the result's `error` unless
      it is missing or empty, else the fallback; for a fault, `FaultMessage`. */
  function FailureMessage(c: Client.Completion): (m: string)
    requires !Succeeded(c)
    ensures m != ""
  {
    match c
    case Thrown(msg) => FaultMessage(msg)
    case Returned(r) =>
      if r.Some? && r.value.error.Some? && r.value.error.value != "" then r.value.error.value
      else SubmitFallback
  }

  /** A transaction that settles as "FAILED" is not "ERROR", so the page
      reports it as a success. */
  lemma SettledFailureCountsAsSuccess()
    ensures Succeeded(Client.Returned(Some(Client.VoteResult("FAILED", None))))
  {
  }

  /** A cancelled signature (null result) is reported as an error with the
      fallback message. */
  lemma CancelledVoteIsError()
    ensures !Succeeded(Client.Returned(None))
    ensures FailureMessage(Client.Returned(None)) == SubmitFallback
  {
  }

  /** `reduce((a, b) => a + b, 0)`: the sum of the counts, left to right. */
  function Sum(votes: seq<nat>): nat
  {
    if votes == [] then 0 else Sum(votes[..|votes| - 1]) + votes[|votes| - 1]
  }

  /** `totalVotes`: 0 without a poll state. */
  function TotalVotes(p: Option<Client.PollState>): (total: nat)
    ensures p.None? ==> total == 0
  {
    if p.None? then 0 else Sum(p.value.votes)
  }

  /** Adding up counts that are each option's number of voters gives
      `TallySum`. */
  lemma {:induction false} SumOfTallies(votes: seq<nat>, choices: map<Address, nat>)
    requires forall i :: 0 <= i < |votes| ==> votes[i] == |VotersFor(choices, i)|
    ensures Sum(votes) == TallySum(choices, |votes|)
  {
    if votes != [] {
      SumOfTallies(votes[..|votes| - 1], choices);
    }
  }

  /** The total the page shows for a poll state decoded from a consistent
      contract's counts, in any of their shapes, is the number of voters
      holding a vote. */
  lemma TotalVotesCountsVoters(t: Tally, raw: Client.RawPoll)
    requires raw.options.Some? && Consistent(t, |raw.options.value|)
    requires Client.EncodesCounts(raw.votes, t.counts)
    ensures TotalVotes(Client.GetPollState(Client.Simulated(raw))) == |t.choices|
  {
    var options := raw.options.value;
    var votes := Client.DecodeVotes(options, raw.votes);
    Client.DecodeRecoversCounts(options, t.counts, raw.votes);
    SumOfTallies(votes, t.choices);
    EveryVoterCountedOnce(t, |options|);
  }

  /** What `connectWallet` gave `handleConnect`: an address (empty when
      permission was refused) or a fault. */
  datatype Connection = Connected(addr: string) | ConnectThrew

  class Home {
    var walletAddress: string
    var pollState: Option<Client.PollState>
    var txStatus: TxStatus
    var errorMessage: string
    var isVoting: bool
    var userChoice: int

    /** What the handlers keep true: a PENDING status only while a vote is
        in flight, an ERROR status always with a message, a poll state with
        one count per option, and a choice that is an index or -1. */
    ghost predicate Valid()
      reads this
    {
      && (txStatus == Pending ==> isVoting)
      && (txStatus == Error ==> errorMessage != "")
      && (pollState.Some? ==> Client.WellFormed(pollState.value))
      && userChoice >= Client.NoChoice
    }

    /** The page's initial state. */
    constructor ()
      ensures Valid()
      ensures walletAddress == "" && pollState == None && txStatus == Idle
      ensures errorMessage == "" && !isVoting && userChoice == Client.NoChoice
    {
      walletAddress := "";
      pollState := None;
      txStatus := Idle;
      errorMessage := "";
      isVoting := false;
      userChoice := Client.NoChoice;
    }

    /** `fetchPollState`: a failed fetch keeps the previous poll state; with
        a connected wallet the user's choice is refreshed. */
    method FetchPollState(state: Client.Simulation<Client.RawPoll>, choice: Client.Simulation<Option<nat>>)
      requires Valid()
      modifies this
      ensures Valid()
      ensures pollState == if Client.GetPollState(state).Some? then Client.GetPollState(state) else old(pollState)
      ensures userChoice == if walletAddress != "" then Client.GetVoterChoice(choice) else old(userChoice)
      ensures walletAddress == old(walletAddress) && txStatus == old(txStatus)
      ensures errorMessage == old(errorMessage) && isVoting == old(isVoting)
    {
      var fetched := Client.GetPollState(state);
      if fetched.Some? {
        pollState := fetched;
      }
      if walletAddress != "" {
        userChoice := Client.GetVoterChoice(choice);
      }
    }

    /** The 5-second refresh. The interval is set up once when the page
        mounts, so it runs the `fetchPollState` of the first render, whose
        wallet address is still empty: it may replace the poll state but
        never refreshes the user's choice. */
    method IntervalTick(state: Client.Simulation<Client.RawPoll>)
      requires Valid()
      modifies this
      ensures Valid()
      ensures pollState == if Client.GetPollState(state).Some? then Client.GetPollState(state) else old(pollState)
      ensures userChoice == old(userChoice) && walletAddress == old(walletAddress) && txStatus == old(txStatus)
      ensures errorMessage == old(errorMessage) && isVoting == old(isVoting)
    {
      var fetched := Client.GetPollState(state);
      if fetched.Some? {
        pollState := fetched;
      }
    }

    /** `handleConnect`: only a non-empty address connects, and then the
        user's choice is read for it. */
    method HandleConnect(connection: Connection, choice: Client.Simulation<Option<nat>>)
      requires Valid()
      modifies this
      ensures Valid()
      ensures connection.Connected? && connection.addr != "" ==>
        walletAddress == connection.addr && userChoice == Client.GetVoterChoice(choice)
      ensures !(connection.Connected? && connection.addr != "") ==>
        walletAddress == old(walletAddress) && userChoice == old(userChoice)
      ensures pollState == old(pollState) && txStatus == old(txStatus)
      ensures errorMessage == old(errorMessage) && isVoting == old(isVoting)
    {
      match connection {
        case Connected(addr) =>
          if addr != "" {
            walletAddress := addr;
            userChoice := Client.GetVoterChoice(choice);
          }
        case ConnectThrew =>
      }
    }

    /** The start of `handleVote`, up to `await vote(...)`: the guard against
        double submission, then PENDING with the error cleared. */
    method BeginVote() returns (proceed: bool)
      requires Valid()
      modifies this
      ensures Valid()
      ensures proceed <==> old(walletAddress != "" && !isVoting && txStatus != Pending)
      ensures !proceed ==> unchanged(this)
      ensures proceed ==> isVoting && txStatus == Pending && errorMessage == ""
      ensures walletAddress == old(walletAddress) && pollState == old(pollState) && userChoice == old(userChoice)
    {
      if walletAddress == "" || isVoting || txStatus == Pending {
        return false;
      }
      isVoting := true;
      txStatus := Pending;
      errorMessage := "";
      return true;
    }

    /** The rest of `handleVote`, once `vote` has completed: SUCCESS with the
        choice and poll state refreshed, or ERROR with a message; in every
        case the vote is no longer in flight. */
    method CompleteVote(
      c: Client.Completion,
      choice: Client.Simulation<Option<nat>>,
      state: Client.Simulation<Client.RawPoll>,
      refreshChoice: Client.Simulation<Option<nat>>)
      requires Valid()
      modifies this
      ensures Valid() && !isVoting
      ensures walletAddress == old(walletAddress)
      ensures Succeeded(c) ==>
        && txStatus == Success && errorMessage == old(errorMessage)
        && pollState == (if Client.GetPollState(state).Some? then Client.GetPollState(state) else old(pollState))
        && userChoice == (if walletAddress != "" then Client.GetVoterChoice(refreshChoice) else Client.GetVoterChoice(choice))
      ensures !Succeeded(c) ==>
        && txStatus == Error && errorMessage == FailureMessage(c)
        && pollState == old(pollState) && userChoice == old(userChoice)
    {
      if c.Returned? {
        var result := c.result;
        if result.Some? && result.value.status != Client.ErrorStatus {
          txStatus := Success;
          userChoice := Client.GetVoterChoice(choice);
          FetchPollState(state, refreshChoice);
        } else {
          txStatus := Error;
          if result.Some? && result.value.error.Some? && result.value.error.value != "" {
            errorMessage := result.value.error.value;
          } else {
            errorMessage := SubmitFallback;
          }
        }
      } else {
        txStatus := Error;
        var msg := c.message;
        if Contains(msg, Tag(InvalidOption)) {
          errorMessage := FaultText(InvalidOption);
        } else if Contains(msg, Tag(PollNotInitialized)) {
          errorMessage := FaultText(PollNotInitialized);
        } else if Contains(msg, Tag(PollAlreadyInitialized)) {
          errorMessage := FaultText(PollAlreadyInitialized);
        } else {
          var line := FirstLine(msg);
          errorMessage := if line != "" then line else UnexpectedFallback;
        }
      }
      isVoting := false;
    }

    /** `handleVote`: ignored when no wallet is connected, a vote is in
        flight or the status is PENDING; otherwise it settles on SUCCESS or
        ERROR and is no longer voting. */
    method HandleVote(
      c: Client.Completion,
      choice: Client.Simulation<Option<nat>>,
      state: Client.Simulation<Client.RawPoll>,
      refreshChoice: Client.Simulation<Option<nat>>)
      returns (submitted: bool)
      requires Valid()
      modifies this
      ensures Valid()
      ensures submitted <==> old(walletAddress != "" && !isVoting && txStatus != Pending)
      ensures !submitted ==> unchanged(this)
      ensures submitted ==> !isVoting && walletAddress == old(walletAddress)
      ensures submitted && Succeeded(c) ==>
        && txStatus == Success && errorMessage == ""
        && pollState == (if Client.GetPollState(state).Some? then Client.GetPollState(state) else old(pollState))
        && userChoice == Client.GetVoterChoice(refreshChoice)
      ensures submitted && !Succeeded(c) ==>
        && txStatus == Error && errorMessage == FailureMessage(c)
        && pollState == old(pollState) && userChoice == old(userChoice)
    {
      submitted := BeginVote();
      if submitted {
        CompleteVote(c, choice, state, refreshChoice);
      }
    }

    /** The timer `handleVote` sets after a success: back to IDLE. */
    method SuccessTimerFires()
      requires Valid()
      modifies this`txStatus
      ensures Valid() && txStatus == Idle
    {
      txStatus := Idle;
    }
  }

  /** A SUCCESS timer that fires while a later vote is PENDING sets the
      status back to IDLE, yet a further click is still refused because the
      vote is in flight. */
  method StaleTimerScenario(c: Client.Completion, choice: Client.Simulation<Option<nat>>,
                            state: Client.Simulation<Client.RawPoll>)
    requires Succeeded(c)
  {
    var home := new Home();
    home.HandleConnect(Connected("GUSER"), choice);
    var submitted := home.HandleVote(c, choice, state, choice);
    assert submitted && home.txStatus == Success;
    var proceed := home.BeginVote();
    assert proceed && home.txStatus == Pending;
    home.SuccessTimerFires();
    assert home.txStatus == Idle && home.isVoting;
    proceed := home.BeginVote();
    assert !proceed;
  }
}
