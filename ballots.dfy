/** The vote-counting part of the poll contract's storage, as values: the
    `VoteCount(i)` entries and the `VoterChoice(voter)` entries. The contract
    (module PollContract) keeps these in fields; the functions here say what
    one call does to them, and the lemmas what that keeps true. */
module Ballots {
  import opened Wrappers

  /** A voter's address, opaque to the contract. */
  type Address = string

  /** `VoteCount(i)` and `VoterChoice(voter)` storage entries. */
  datatype Tally = Tally(counts: map<nat, nat>, choices: map<Address, nat>)

  /** Reading `VoteCount(i)`: an absent entry reads as 0 (`unwrap_or(0)`). */
  function CountOf(counts: map<nat, nat>, i: nat): nat
  {
    if i in counts then counts[i] else 0
  }

  /** Reading `VoterChoice(voter)`: `None` when the voter holds no vote. */
  function ChoiceOf(choices: map<Address, nat>, voter: Address): Option<nat>
  {
    if voter in choices then Some(choices[voter]) else None
  }

  /** The voters whose stored choice is option `i`. */
  function VotersFor(choices: map<Address, nat>, i: nat): set<Address>
  {
    set v | v in choices && choices[v] == i
  }

  /** The voters whose stored choice is below `k`. */
  function VotersBelow(choices: map<Address, nat>, k: nat): set<Address>
  {
    set v | v in choices && choices[v] < k
  }

  /** The poll's central invariant over `n` options: there is a count for
      exactly the options, each count is the number of voters who chose that
      option, and every stored choice is an option. */
  ghost predicate Consistent(t: Tally, n: nat)
  {
    && (forall i: nat :: i in t.counts <==> i < n)
    && (forall v :: v in t.choices ==> t.choices[v] < n)
    && (forall i: nat :: i < n ==> CountOf(t.counts, i) == |VotersFor(t.choices, i)|)
  }

  /** `update_vote_count`: add one, or take one away unless the count is
      already 0, in which case nothing is written. */
  function Bump(counts: map<nat, nat>, index: nat, increment: bool): (r: map<nat, nat>)
    ensures forall j :: j != index ==> CountOf(r, j) == CountOf(counts, j)
    ensures forall j :: j != index ==> (j in r <==> j in counts)
  {
    var c := CountOf(counts, index);
    if increment then counts[index := c + 1]
    else if c > 0 then counts[index := c - 1]
    else counts
  }

  /** What one accepted `vote(voter, index)` does to the counts and choices:
      a first vote, a change of vote, or an undo of the same vote. */
  function Recast(t: Tally, voter: Address, index: nat): Tally
  {
    match ChoiceOf(t.choices, voter)
    case None =>
      Tally(Bump(t.counts, index, true), t.choices[voter := index])
    case Some(prior) =>
      if prior == index then
        Tally(Bump(t.counts, prior, false), t.choices - {voter})
      else
        Tally(Bump(Bump(t.counts, prior, false), index, true), t.choices[voter := index])
  }

  /** A decrement never takes a count below 0: at 0 it changes nothing, and
      otherwise it removes exactly one. */
  lemma DecrementFloorsAtZero(counts: map<nat, nat>, index: nat)
    ensures CountOf(counts, index) == 0 ==> Bump(counts, index, false) == counts
    ensures CountOf(counts, index) > 0 ==>
      CountOf(Bump(counts, index, false), index) == CountOf(counts, index) - 1
  {
  }

  /** Giving `voter` the choice `index` moves them into the voters of `index`
      and out of every other option's voters. */
  lemma {:induction false} VotersAfterChoose(choices: map<Address, nat>, voter: Address, index: nat, j: nat)
    ensures VotersFor(choices[voter := index], j) ==
      if j == index then VotersFor(choices, j) + {voter} else VotersFor(choices, j) - {voter}
  {
  }

  /** Removing `voter`'s choice takes them out of every option's voters. */
  lemma {:induction false} VotersAfterRemove(choices: map<Address, nat>, voter: Address, j: nat)
    ensures VotersFor(choices - {voter}, j) == VotersFor(choices, j) - {voter}
  {
  }

  /** The three outcomes of `vote` on a consistent poll, stated on the
      counts a reader sees and the voter's stored choice. */
  lemma RecastOutcomes(t: Tally, n: nat, voter: Address, index: nat)
    requires Consistent(t, n) && index < n
    ensures voter !in t.choices ==>
      && CountOf(Recast(t, voter, index).counts, index) == CountOf(t.counts, index) + 1
      && ChoiceOf(Recast(t, voter, index).choices, voter) == Some(index)
    ensures voter in t.choices && t.choices[voter] != index ==>
      && CountOf(Recast(t, voter, index).counts, t.choices[voter]) == CountOf(t.counts, t.choices[voter]) - 1
      && CountOf(Recast(t, voter, index).counts, index) == CountOf(t.counts, index) + 1
      && ChoiceOf(Recast(t, voter, index).choices, voter) == Some(index)
    ensures voter in t.choices && t.choices[voter] == index ==>
      && CountOf(Recast(t, voter, index).counts, index) == CountOf(t.counts, index) - 1
      && ChoiceOf(Recast(t, voter, index).choices, voter) == None
  {
    if voter in t.choices {
      var prior := t.choices[voter];
      assert voter in VotersFor(t.choices, prior);
    }
  }

  /** A vote touches only the counts of the voter's old and new option and
      only that voter's choice. */
  lemma RecastIsLocal(t: Tally, voter: Address, index: nat)
    ensures forall j :: j != index && ChoiceOf(t.choices, voter) != Some(j) ==>
      CountOf(Recast(t, voter, index).counts, j) == CountOf(t.counts, j)
    ensures forall w :: w != voter ==>
      ChoiceOf(Recast(t, voter, index).choices, w) == ChoiceOf(t.choices, w)
  {
  }

  /** Every accepted vote keeps the central invariant. */
  lemma RecastKeepsConsistent(t: Tally, n: nat, voter: Address, index: nat)
    requires Consistent(t, n) && index < n
    ensures Consistent(Recast(t, voter, index), n)
  {
    var r := Recast(t, voter, index);
    forall j: nat | j < n
      ensures CountOf(r.counts, j) == |VotersFor(r.choices, j)|
    {
      if voter in t.choices {
        var prior := t.choices[voter];
        assert voter in VotersFor(t.choices, prior);
        if prior == index {
          VotersAfterRemove(t.choices, voter, j);
        } else {
          VotersAfterChoose(t.choices, voter, index, j);
        }
      } else {
        VotersAfterChoose(t.choices, voter, index, j);
        assert voter !in VotersFor(t.choices, j);
      }
    }
  }

  /** Voting for the same option twice, starting without a vote, restores
      the counts and the choices exactly. */
  lemma RecastTwiceRestores(t: Tally, n: nat, voter: Address, index: nat)
    requires Consistent(t, n) && index < n && voter !in t.choices
    ensures Recast(Recast(t, voter, index), voter, index) == t
  {
  }

  /** Sum of the first `k` options' voter counts. */
  function TallySum(choices: map<Address, nat>, k: nat): nat
  {
    if k == 0 then 0 else TallySum(choices, k - 1) + |VotersFor(choices, k - 1)|
  }

  /** Adding up the voters of options 0..k-1 counts each voter whose choice
      is below `k` once. */
  lemma {:induction false} TallySumIsVotersBelow(choices: map<Address, nat>, k: nat)
    ensures TallySum(choices, k) == |VotersBelow(choices, k)|
  {
    if k > 0 {
      TallySumIsVotersBelow(choices, k - 1);
      assert VotersBelow(choices, k) == VotersBelow(choices, k - 1) + VotersFor(choices, k - 1);
      assert VotersBelow(choices, k - 1) !! VotersFor(choices, k - 1);
    }
  }

  /** The stored counts of options 0..k-1, added up. */
  function CountSum(counts: map<nat, nat>, k: nat): nat
  {
    if k == 0 then 0 else CountSum(counts, k - 1) + CountOf(counts, k - 1)
  }

  /** Below the number of options, the stored counts add up to the same
      total as the voter sets they stand for. */
  lemma {:induction false} CountSumIsTallySum(t: Tally, n: nat, k: nat)
    requires Consistent(t, n) && k <= n
    ensures CountSum(t.counts, k) == TallySum(t.choices, k)
  {
    if k > 0 {
      CountSumIsTallySum(t, n, k - 1);
    }
  }

  /** On a consistent poll each voter is counted once: the voter sets of
      the options, and so the stored counts, add up to the number of
      voters. */
  lemma EveryVoterCountedOnce(t: Tally, n: nat)
    requires Consistent(t, n)
    ensures TallySum(t.choices, n) == |t.choices|
    ensures CountSum(t.counts, n) == |t.choices|
  {
    TallySumIsVotersBelow(t.choices, n);
    assert VotersBelow(t.choices, n) == t.choices.Keys;
    CountSumIsTallySum(t, n, n);
  }
}
