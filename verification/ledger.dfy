/**
 * The ZDAO contract as the front end sees it through ethers: a stub whose every call is logged.
 * Its reverts are those the contract's tests show (smart-contracts/test/ZDAO.test.ts) and, for
 * `vote`, the two the front end matches on (hooks/useVoting.ts:87-97), raised under the
 * conditions their messages name. The contract's source is not part of this model; `faults`
 * stands for every other way a call can fail (a transport error, a revert the stub does not
 * know, a rejected transaction).
 */
module Ledger {
  import opened Wrappers
  import opened Js
  import Encoding

  /** One proposal as `proposals(id)` and the per-proposal views return it. */
  datatype ProposalRecord = ProposalRecord(
    description: string,
    encryptedYes: string,
    encryptedNo: string,
    isPublic: bool,
    publicYes: Encoding.byte,
    publicNo: Encoding.byte,
    ballots: map<string, string>)

  /** `getPublicVoteCounts(id)`: `[yesCount, noCount, isPublic]`. */
  datatype PublicCounts = PublicCounts(yes: int, no: int, isPublic: bool)

  /** A proposal just created: private, nothing counted, nobody voted (smart-contracts/test/ZDAO.test.ts:72-80). */
  function Fresh(description: string, encryptedYes: string, encryptedNo: string): (p: ProposalRecord)
    ensures !p.isPublic && p.publicYes == 0 && p.publicNo == 0 && p.ballots == map[]
  {
    ProposalRecord(description, encryptedYes, encryptedNo, false, 0, 0, map[])
  }

  /** Every call the front end makes, with its arguments. */
  datatype Call =
    | ProposalCount
    | Proposals(id: nat)
    | GetPublicVoteCounts(id: nat)
    | GetEncryptedVoteCount(id: nat)
    | HasUserVoted(id: nat, voter: string)
    | GetMyVote(id: nat, voter: string)
    | EstimateMakePublic(id: nat)
    | MakeVoteCountsPublic(id: nat)
    | SubmitDecryptedVoteCounts(id: nat, abi: Value, proof: Value)
    | Vote(id: nat, voter: string, handle: string, inputProof: string)

  /** The calls that send a transaction. */
  predicate IsTransaction(c: Call) {
    c.MakeVoteCountsPublic? || c.SubmitDecryptedVoteCounts? || c.Vote?
  }

  const InvalidProposal := "Invalid proposal"
  const AlreadyPublic := "Vote counts already public"
  const VotingClosed := "Voting is closed"
  const AlreadyVoted := "Already voted"

  /** The revert of every per-proposal call on an id past the last proposal (smart-contracts/test/ZDAO.test.ts:122-134). */
  function Lookup(proposals: seq<ProposalRecord>, id: nat): (r: Result<ProposalRecord, Failure>)
    ensures r.Ok? <==> id < |proposals|
    ensures r.Ok? ==> r.value == proposals[id]
    ensures r.Err? ==> r.error.message == InvalidProposal
  {
    if id < |proposals| then Ok(proposals[id]) else Err(Raise(InvalidProposal))
  }

  /** `makeVoteCountsPublic(id)`: once only (smart-contracts/test/ZDAO.test.ts:99-119); the counts wait for a submission. */
  function MadePublic(proposals: seq<ProposalRecord>, id: nat): (r: Result<seq<ProposalRecord>, Failure>)
    ensures r.Ok? <==> id < |proposals| && !proposals[id].isPublic
    ensures r.Ok? ==> |r.value| == |proposals| && r.value[id] == proposals[id].(isPublic := true)
    ensures r.Ok? ==> forall j | 0 <= j < |proposals| && j != id :: r.value[j] == proposals[j]
    ensures r.Err? && id < |proposals| ==> r.error.message == AlreadyPublic
  {
    match Lookup(proposals, id)
    case Err(f) => Err(f)
    case Ok(p) => if p.isPublic then Err(Raise(AlreadyPublic)) else Ok(proposals[id := p.(isPublic := true)])
  }

  /** Making the counts public a second time reverts, whatever happened in between. */
  lemma MadePublicOnce(proposals: seq<ProposalRecord>, id: nat)
    requires MadePublic(proposals, id).Ok?
    ensures MadePublic(MadePublic(proposals, id).value, id) == Err(Raise(AlreadyPublic))
  {
  }

  /**
   * `vote(id, handle, proof)` from `voter`: "Voting is closed" once public, "Already voted" for a
   * voter's second ballot. These are the reverts `vote`'s error handling expects; when the
   * contract raises them is assumed from their messages.
   */
  function Voted(proposals: seq<ProposalRecord>, id: nat, voter: string, handle: string): (r: Result<seq<ProposalRecord>, Failure>)
    ensures r.Ok? <==> id < |proposals| && !proposals[id].isPublic && voter !in proposals[id].ballots
    ensures r.Ok? ==> |r.value| == |proposals| && r.value[id] == proposals[id].(ballots := proposals[id].ballots[voter := handle])
    ensures r.Ok? ==> forall j | 0 <= j < |proposals| && j != id :: r.value[j] == proposals[j]
  {
    match Lookup(proposals, id)
    case Err(f) => Err(f)
    case Ok(p) =>
      if p.isPublic then Err(Raise(VotingClosed))
      else if voter in p.ballots then Err(Raise(AlreadyVoted))
      else Ok(proposals[id := p.(ballots := p.ballots[voter := handle])])
  }

  /** A voter who voted once is refused the second time. */
  lemma VotedOnce(proposals: seq<ProposalRecord>, id: nat, voter: string, first: string, second: string)
    requires Voted(proposals, id, voter, first).Ok?
    ensures Voted(Voted(proposals, id, voter, first).value, id, voter, second) == Err(Raise(AlreadyVoted))
  {
  }

  /**
   * `submitDecryptedVoteCounts(id, abi, proof)`: a proof the contract accepts for an
   * ABI-encoded `(uint8, uint8)` publishes those two counts.
   */
  function Submitted(proposals: seq<ProposalRecord>, id: nat, abi: Value, proof: Value,
                     accepts: (string, Value) -> bool, rejected: Failure): (r: Result<seq<ProposalRecord>, Failure>)
    ensures r.Ok? ==> id < |proposals| && abi.Str? && Encoding.AbiDecodeUint8Pair(abi.s).Some?
    ensures r.Ok? ==> (
      |r.value| == |proposals| &&
      r.value[id] == proposals[id].(publicYes := Encoding.AbiDecodeUint8Pair(abi.s).value.0,
                                    publicNo := Encoding.AbiDecodeUint8Pair(abi.s).value.1))
    ensures r.Ok? ==> forall j | 0 <= j < |proposals| && j != id :: r.value[j] == proposals[j]
  {
    match Lookup(proposals, id)
    case Err(f) => Err(f)
    case Ok(p) =>
      if !abi.Str? || !accepts(abi.s, proof) then Err(rejected)
      else match Encoding.AbiDecodeUint8Pair(abi.s)
        case None => Err(rejected)
        case Some(counts) => Ok(proposals[id := p.(publicYes := counts.0, publicNo := counts.1)])
  }

  /** Counts the coder encoded and the contract accepted are the counts it publishes. */
  lemma SubmittedPublishes(proposals: seq<ProposalRecord>, id: nat, yes: Encoding.byte, no: Encoding.byte,
                           proof: Value, accepts: (string, Value) -> bool, rejected: Failure)
    requires id < |proposals|
    requires accepts(Encoding.AbiEncodeUint8Pair([Int(yes), Int(no)]).value, proof)
    ensures
      var r := Submitted(proposals, id, Str(Encoding.AbiEncodeUint8Pair([Int(yes), Int(no)]).value), proof, accepts, rejected);
      r.Ok? && r.value[id].publicYes == yes && r.value[id].publicNo == no
  {
    Encoding.AbiRoundTrip(yes, no);
    var abi := Encoding.AbiEncodeUint8Pair([Int(yes), Int(no)]).value;
    assert Lookup(proposals, id) == Ok(proposals[id]);
    assert Encoding.AbiDecodeUint8Pair(abi) == Some((yes, no));
    var p := proposals[id].(publicYes := yes, publicNo := no);
    assert Submitted(proposals, id, Str(abi), proof, accepts, rejected) == Ok(proposals[id := p]);
  }

  /** The contract, a stub holding the proposals and the log of calls made to it. */
  class Zdao {
    var proposals: seq<ProposalRecord>
    var calls: seq<Call>
    const faults: map<Call, Failure>
    const accepts: (string, Value) -> bool
    const rejected: Failure
    const notVoted: Failure

    constructor (proposals: seq<ProposalRecord>, faults: map<Call, Failure>,
                 accepts: (string, Value) -> bool, rejected: Failure, notVoted: Failure)
      ensures this.proposals == proposals && this.calls == []
      ensures this.faults == faults && this.accepts == accepts
      ensures this.rejected == rejected && this.notVoted == notVoted
    {
      this.proposals := proposals;
      this.calls := [];
      this.faults := faults;
      this.accepts := accepts;
      this.rejected := rejected;
      this.notVoted := notVoted;
    }

    /** The failure, if any, that `c` meets before the contract looks at it. */
    function Fault(c: Call): Option<Failure> {
      if c in faults then Some(faults[c]) else None
    }

    method ReadProposalCount() returns (r: Result<nat, Failure>)
      modifies this`calls
      ensures calls == old(calls) + [ProposalCount]
      ensures r == if Fault(ProposalCount).Some? then Err(Fault(ProposalCount).value) else Ok(|proposals|)
    {
      calls := calls + [ProposalCount];
      if ProposalCount in faults {
        return Err(faults[ProposalCount]);
      }
      return Ok(|proposals|);
    }

    /** The answer to a read of proposal `id`. */
    function Read(c: Call, id: nat): Result<ProposalRecord, Failure>
      reads this`proposals
    {
      if c in faults then Err(faults[c]) else Lookup(proposals, id)
    }

    method ReadProposal(id: nat) returns (r: Result<ProposalRecord, Failure>)
      modifies this`calls
      ensures calls == old(calls) + [Proposals(id)]
      ensures r == Read(Proposals(id), id)
    {
      calls := calls + [Proposals(id)];
      r := if Proposals(id) in faults then Err(faults[Proposals(id)]) else Lookup(proposals, id);
    }

    /** The answer to a read of proposal `id` from a contract holding `proposals`. */
    function ReadIn(proposals: seq<ProposalRecord>, c: Call, id: nat): Result<ProposalRecord, Failure> {
      if c in faults then Err(faults[c]) else Lookup(proposals, id)
    }

    /** `getPublicVoteCounts(id)` on a contract holding `proposals`. */
    function PublicCountsIn(proposals: seq<ProposalRecord>, id: nat): Result<PublicCounts, Failure> {
      match ReadIn(proposals, GetPublicVoteCounts(id), id)
      case Err(f) => Err(f)
      case Ok(p) => Ok(PublicCounts(p.publicYes, p.publicNo, p.isPublic))
    }

    function PublicCountsOf(id: nat): Result<PublicCounts, Failure>
      reads this`proposals
    {
      PublicCountsIn(proposals, id)
    }

    method ReadPublicVoteCounts(id: nat) returns (r: Result<PublicCounts, Failure>)
      modifies this`calls
      ensures calls == old(calls) + [GetPublicVoteCounts(id)]
      ensures r == PublicCountsOf(id)
    {
      calls := calls + [GetPublicVoteCounts(id)];
      match Read(GetPublicVoteCounts(id), id)
      case Err(f) => r := Err(f);
      case Ok(p) => r := Ok(PublicCounts(p.publicYes, p.publicNo, p.isPublic));
    }

    /** `getEncryptedVoteCount(id)` on a contract holding `proposals`. */
    function EncryptedCountsIn(proposals: seq<ProposalRecord>, id: nat): Result<(string, string), Failure> {
      match ReadIn(proposals, GetEncryptedVoteCount(id), id)
      case Err(f) => Err(f)
      case Ok(p) => Ok((p.encryptedYes, p.encryptedNo))
    }

    function EncryptedCountsOf(id: nat): Result<(string, string), Failure>
      reads this`proposals
    {
      EncryptedCountsIn(proposals, id)
    }

    method ReadEncryptedVoteCount(id: nat) returns (r: Result<(string, string), Failure>)
      modifies this`calls
      ensures calls == old(calls) + [GetEncryptedVoteCount(id)]
      ensures r == EncryptedCountsOf(id)
    {
      calls := calls + [GetEncryptedVoteCount(id)];
      match Read(GetEncryptedVoteCount(id), id)
      case Err(f) => r := Err(f);
      case Ok(p) => r := Ok((p.encryptedYes, p.encryptedNo));
    }

    function HasVotedOf(id: nat, voter: string): Result<bool, Failure>
      reads this`proposals
    {
      match Read(HasUserVoted(id, voter), id)
      case Err(f) => Err(f)
      case Ok(p) => Ok(voter in p.ballots)
    }

    method ReadHasUserVoted(id: nat, voter: string) returns (r: Result<bool, Failure>)
      modifies this`calls
      ensures calls == old(calls) + [HasUserVoted(id, voter)]
      ensures r == HasVotedOf(id, voter)
    {
      calls := calls + [HasUserVoted(id, voter)];
      match Read(HasUserVoted(id, voter), id)
      case Err(f) => r := Err(f);
      case Ok(p) => r := Ok(voter in p.ballots);
    }

    function MyVoteOf(id: nat, voter: string): Result<string, Failure>
      reads this`proposals
    {
      match Read(GetMyVote(id, voter), id)
      case Err(f) => Err(f)
      case Ok(p) => if voter in p.ballots then Ok(p.ballots[voter]) else Err(notVoted)
    }

    method ReadMyVote(id: nat, voter: string) returns (r: Result<string, Failure>)
      modifies this`calls
      ensures calls == old(calls) + [GetMyVote(id, voter)]
      ensures r == MyVoteOf(id, voter)
    {
      calls := calls + [GetMyVote(id, voter)];
      match Read(GetMyVote(id, voter), id)
      case Err(f) => r := Err(f);
      case Ok(p) => r := if voter in p.ballots then Ok(p.ballots[voter]) else Err(notVoted);
    }

    /** The answer to `makeVoteCountsPublic.estimateGas(id)` from a contract holding `proposals`: the transaction's revert, if any. */
    function EstimateIn(proposals: seq<ProposalRecord>, id: nat): (r: Result<(), Failure>)
      ensures r.Ok? <==> EstimateMakePublic(id) !in faults && MadePublic(proposals, id).Ok?
      ensures r.Err? && EstimateMakePublic(id) !in faults ==> r.error == MadePublic(proposals, id).error
    {
      if EstimateMakePublic(id) in faults then Err(faults[EstimateMakePublic(id)])
      else match MadePublic(proposals, id)
        case Err(f) => Err(f)
        case Ok(_) => Ok(())
    }

    function EstimateOf(id: nat): (r: Result<(), Failure>)
      reads this`proposals
    {
      EstimateIn(proposals, id)
    }

    /** `makeVoteCountsPublic.estimateGas(id)`: the transaction simulated, nothing changed. */
    method EstimateMakeVoteCountsPublic(id: nat) returns (r: Result<(), Failure>)
      modifies this`calls
      ensures calls == old(calls) + [EstimateMakePublic(id)]
      ensures r == EstimateOf(id)
    {
      calls := calls + [EstimateMakePublic(id)];
      if EstimateMakePublic(id) in faults {
        return Err(faults[EstimateMakePublic(id)]);
      }
      match MadePublic(proposals, id)
      case Err(f) => r := Err(f);
      case Ok(_) => r := Ok(());
    }

    /** The outcome and the new proposals of a transaction `c` built from `effect`. */
    function Transact(c: Call, effect: Result<seq<ProposalRecord>, Failure>): Result<seq<ProposalRecord>, Failure> {
      if c in faults then Err(faults[c]) else effect
    }

    method SendMakeVoteCountsPublic(id: nat) returns (r: Result<(), Failure>)
      modifies this
      ensures calls == old(calls) + [MakeVoteCountsPublic(id)]
      ensures var t := Transact(MakeVoteCountsPublic(id), MadePublic(old(proposals), id));
        (r.Ok? <==> t.Ok?) && (t.Err? ==> r.error == t.error && proposals == old(proposals))
        && (t.Ok? ==> proposals == t.value)
    {
      calls := calls + [MakeVoteCountsPublic(id)];
      var t := Transact(MakeVoteCountsPublic(id), MadePublic(proposals, id));
      match t
      case Err(f) => r := Err(f);
      case Ok(next) => proposals := next; r := Ok(());
    }

    method SendSubmitDecryptedVoteCounts(id: nat, abi: Value, proof: Value) returns (r: Result<(), Failure>)
      modifies this
      ensures calls == old(calls) + [SubmitDecryptedVoteCounts(id, abi, proof)]
      ensures var t := Transact(SubmitDecryptedVoteCounts(id, abi, proof), Submitted(old(proposals), id, abi, proof, accepts, rejected));
        (r.Ok? <==> t.Ok?) && (t.Err? ==> r.error == t.error && proposals == old(proposals))
        && (t.Ok? ==> proposals == t.value)
    {
      calls := calls + [SubmitDecryptedVoteCounts(id, abi, proof)];
      var t := Transact(SubmitDecryptedVoteCounts(id, abi, proof), Submitted(proposals, id, abi, proof, accepts, rejected));
      match t
      case Err(f) => r := Err(f);
      case Ok(next) => proposals := next; r := Ok(());
    }

    method SendVote(id: nat, voter: string, handle: string, proof: string) returns (r: Result<(), Failure>)
      modifies this
      ensures calls == old(calls) + [Vote(id, voter, handle, proof)]
      ensures var t := Transact(Vote(id, voter, handle, proof), Voted(old(proposals), id, voter, handle));
        (r.Ok? <==> t.Ok?) && (t.Err? ==> r.error == t.error && proposals == old(proposals))
        && (t.Ok? ==> proposals == t.value)
    {
      calls := calls + [Vote(id, voter, handle, proof)];
      var t := Transact(Vote(id, voter, handle, proof), Voted(proposals, id, voter, handle));
      match t
      case Err(f) => r := Err(f);
      case Ok(next) => proposals := next; r := Ok(());
    }
  }
}
