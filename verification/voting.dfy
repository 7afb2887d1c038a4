/**
 * hooks/useVoting.ts: casting a ballot, revealing a tally, reading one's own ballot and the
 * published counts, and decrypting a tally (submitting it to the contract when that is due).
 * The contract is the `Ledger.Zdao` stub the shared store holds; the FHE functions are those
 * of an `FheClient`, defined only while its relayer instance exists.
 */
module Voting {
  import opened Wrappers
  import opened Js
  import opened Strings
  import Utils
  import Encoding
  import Ledger
  import Web3State
  import FheOperations

  // ---------------------------------------------------------------------------------------------
  // Messages

  const WalletNotConnected := "Wallet not connected"
  const FheNotInitializedText := "FHE service not initialized. " + "Please wait for initialization " + "to complete."
  const WrongNetworkText := "This app only supports " + "Sepolia network. Please " + "switch to Sepolia in " + "your wallet."
  const EncryptUnavailable := "FHE encrypt function not available"
  const AlreadyVotedText := "You have already voted on " + "this proposal. Each user " + "can only vote once."
  const InvalidProposalText := "Invalid proposal ID. " + "Please refresh and try again."
  const VotingClosedText := "Voting is closed" + " for this proposal. " + "Results have been " + "made public."
  const VotingFailedPrefix := "Voting failed: "

  const AlreadyPublicText := "Vote counts are already " + "public for this proposal."
  const NoVotesYetText := "Custom error: Vote counts " + "cannot be made public " + "(possibly no votes cast yet)"
  const CustomInvalidId := "Custom error: " + "Invalid proposal ID"
  const GasFailedPrefix := "Gas estimation failed: "
  const RevealFailedPrefix := "Failed to make vote counts public: "
  const CustomErrorTag := "Custom error:"

  const InvalidProposalId := "Invalid proposal ID"
  const NotVotedYet := "You have not voted on " + "this proposal yet"
  const PermissionDenied := "FHE permission denied - " + "you may not have voted or " + "FHE is not properly initialized"
  const MyVoteFailedPrefix := "Failed to get my vote: "

  const ContractOrFheMissing := "Contract or FHE not initialized"
  const DecryptUnavailable := "FHE decrypt functions not available"
  const DecryptFailedPrefix := "Failed to decrypt vote counts: "
  const ContractNotConnected := "Contract not connected"

  /** Selectors the front end recognises in revert data: two panic codes and the ACL error. */
  const PanicCode := "0x4e487b71"
  const PanicCode2 := "0x4e487b72"
  const AclCode := "0xd0d25976"

  /** `error?.message || 'Unknown error'`. */
  function OrUnknown(message: string): (m: string)
    ensures m != ""
    ensures message != "" ==> m == message
  {
    if message == "" then "Unknown error" else message
  }

  /** The catch block of `vote`: known reverts get their own texts, anything else goes through `handleFHEError`. */
  function VoteErrorMessage(message: string): (text: string)
    ensures Contains(message, "Already voted") ==> text == AlreadyVotedText
    ensures !Contains(message, "Already voted") && Contains(message, "Invalid proposal") ==> text == InvalidProposalText
    ensures (!Contains(message, "Already voted") && !Contains(message, "Invalid proposal") &&
             Contains(message, "Voting is closed")) ==> text == VotingClosedText
    ensures (!Contains(message, "Already voted") && !Contains(message, "Invalid proposal") &&
             !Contains(message, "Voting is closed")) ==>
      StartsWith(text, VotingFailedPrefix) && text[|VotingFailedPrefix|..] == Utils.HandleFheError(message)
  {
    if Contains(message, "Already voted") then AlreadyVotedText
    else if Contains(message, "Invalid proposal") then InvalidProposalText
    else if Contains(message, "Voting is closed") then VotingClosedText
    else
      StartsWithConcat(VotingFailedPrefix, Utils.HandleFheError(message));
      VotingFailedPrefix + Utils.HandleFheError(message)
  }

  lemma AlreadyVotedTranslated()
    ensures VoteErrorMessage(Ledger.AlreadyVoted) == AlreadyVotedText
  {
    assert StartsWith(Ledger.AlreadyVoted, "Already voted");
  }

  lemma InvalidProposalLacksA() ensures 'A' !in Ledger.InvalidProposal {}

  lemma {:induction false} InvalidProposalTranslated()
    ensures VoteErrorMessage(Ledger.InvalidProposal) == InvalidProposalText
  {
    InvalidProposalLacksA();
    assert StartsWith(Ledger.InvalidProposal, "Invalid proposal");
    if Contains(Ledger.InvalidProposal, "Already voted") {
      ContainsChar(Ledger.InvalidProposal, "Already voted", 0);
    }
  }

  lemma RevertLacksA() ensures 'A' !in Ledger.VotingClosed {}
  lemma RevertLacksI() ensures 'I' !in Ledger.VotingClosed {}

  lemma {:induction false} VotingClosedTranslated()
    ensures VoteErrorMessage(Ledger.VotingClosed) == VotingClosedText
  {
    RevertLacksA();
    RevertLacksI();
    assert StartsWith(Ledger.VotingClosed, "Voting is closed");
    if Contains(Ledger.VotingClosed, "Already voted") {
      ContainsChar(Ledger.VotingClosed, "Already voted", 0);
    }
    if Contains(Ledger.VotingClosed, "Invalid proposal") {
      ContainsChar(Ledger.VotingClosed, "Invalid proposal", 0);
    }
  }

  lemma VotingClosedLacksA() ensures 'A' !in VotingClosedText {}
  lemma VotingClosedLacksI() ensures 'I' !in VotingClosedText {}

  /** The "closed" text `vote` raises for a public proposal passes its catch block unchanged. */
  lemma {:induction false} ClosedTextKept()
    ensures VoteErrorMessage(VotingClosedText) == VotingClosedText
  {
    VotingClosedLacksA();
    VotingClosedLacksI();
    assert StartsWith(VotingClosedText, "Voting is closed");
    if Contains(VotingClosedText, "Already voted") {
      ContainsChar(VotingClosedText, "Already voted", 0);
    }
    if Contains(VotingClosedText, "Invalid proposal") {
      ContainsChar(VotingClosedText, "Invalid proposal", 0);
    }
  }

  /** `makeVoteCountsPublic`'s reading of a failed gas estimate: two custom errors by selector. */
  function GasFailure(e: Failure): (f: Failure)
    ensures e.data != "" && Contains(e.data, AclCode) ==> f == Raise(NoVotesYetText)
    ensures e.data != "" && !Contains(e.data, AclCode) && Contains(e.data, PanicCode) ==> f == Raise(CustomInvalidId)
    ensures !(e.data != "" && (Contains(e.data, AclCode) || Contains(e.data, PanicCode))) ==>
      f == Raise(GasFailedPrefix + OrUnknown(e.message))
  {
    if e.data != "" && Contains(e.data, AclCode) then Raise(NoVotesYetText)
    else if e.data != "" && Contains(e.data, PanicCode) then Raise(CustomInvalidId)
    else Raise(GasFailedPrefix + OrUnknown(e.message))
  }

  /** The outer catch block of `makeVoteCountsPublic`; a custom error is rethrown as it is. */
  function RevealFailure(e: Failure): (f: Failure)
    ensures Contains(e.message, "Vote counts already public") ==> f == Raise(AlreadyPublicText)
    ensures !Contains(e.message, "Vote counts already public") && Contains(e.message, "Invalid proposal") ==> f == Raise(InvalidProposalText)
    ensures (!Contains(e.message, "Vote counts already public") && !Contains(e.message, "Invalid proposal") &&
             Contains(e.message, CustomErrorTag)) ==> f == e
    ensures (!Contains(e.message, "Vote counts already public") && !Contains(e.message, "Invalid proposal") &&
             !Contains(e.message, CustomErrorTag)) ==> f == Raise(RevealFailedPrefix + OrUnknown(e.message))
  {
    if Contains(e.message, "Vote counts already public") then Raise(AlreadyPublicText)
    else if Contains(e.message, "Invalid proposal") then Raise(InvalidProposalText)
    else if Contains(e.message, CustomErrorTag) then e
    else Raise(RevealFailedPrefix + OrUnknown(e.message))
  }

  lemma CustomInvalidIdChars()
    ensures 'V' !in CustomInvalidId
  {
  }

  /**
   * "Invalid proposal" is tested before "Custom error:", so the custom invalid-id error of the
   * gas estimate surfaces as the generic invalid-proposal text.
   */
  lemma {:induction false} CustomInvalidIdBecomesGeneric(data: string)
    requires data != "" && !Contains(data, AclCode) && Contains(data, PanicCode)
    ensures RevealFailure(GasFailure(Failure("", data))) == Raise(InvalidProposalText)
  {
    CustomInvalidIdChars();
    if Contains(CustomInvalidId, "Vote counts already public") {
      ContainsChar(CustomInvalidId, "Vote counts already public", 0);
    }
    ContainsInfix("Custom error: ", "Invalid proposal", " ID");
    assert "Custom error: " + "Invalid proposal" + " ID" == CustomInvalidId;
  }

  /** Revealing a tally a second time is refused with the "already public" text. */
  lemma {:induction false} SecondRevealRefused()
    ensures RevealFailure(GasFailure(Raise(Ledger.AlreadyPublic))) == Raise(AlreadyPublicText)
  {
    ContainsInfix(GasFailedPrefix, Ledger.AlreadyPublic, "");
    assert GasFailedPrefix + Ledger.AlreadyPublic + "" == GasFailedPrefix + OrUnknown(Ledger.AlreadyPublic);
  }

  /** `getMyVote`'s reading of a failed call: three selectors in revert data, in this order. */
  function MyVoteFailure(e: Failure): (f: Failure)
    ensures e.data != "" && Contains(e.data, PanicCode) ==> f == Raise(InvalidProposalId)
    ensures e.data != "" && !Contains(e.data, PanicCode) && Contains(e.data, PanicCode2) ==> f == Raise(NotVotedYet)
    ensures (e.data != "" && !Contains(e.data, PanicCode) && !Contains(e.data, PanicCode2) &&
             Contains(e.data, AclCode)) ==> f == Raise(PermissionDenied)
    ensures !(e.data != "" && (Contains(e.data, PanicCode) || Contains(e.data, PanicCode2) || Contains(e.data, AclCode))) ==>
      f.data == "" && StartsWith(f.message, MyVoteFailedPrefix) && f.message[|MyVoteFailedPrefix|..] == OrUnknown(e.message)
  {
    if e.data != "" && Contains(e.data, PanicCode) then Raise(InvalidProposalId)
    else if e.data != "" && Contains(e.data, PanicCode2) then Raise(NotVotedYet)
    else if e.data != "" && Contains(e.data, AclCode) then Raise(PermissionDenied)
    else
      StartsWithConcat(MyVoteFailedPrefix, OrUnknown(e.message));
      Raise(MyVoteFailedPrefix + OrUnknown(e.message))
  }

  // ---------------------------------------------------------------------------------------------
  // When a tally is submitted

  /** The decrypted tally `decryptVoteCounts` returns: two numbers, either of which may be NaN. */
  datatype Counts = Counts(yes: Numeric, no: Numeric)

  /** `isPublic && publicYes + publicNo > 0`: the contract already holds a submitted tally. */
  predicate AlreadySubmitted(published: Ledger.PublicCounts) {
    published.isPublic && published.yes + published.no > 0
  }

  /**
   * `decryptVoteCounts` submits a decrypted tally exactly when `yes + no > 0` and none was
   * submitted; a NaN count makes the sum NaN, which is not positive.
   */
  predicate ShouldSubmit(published: Ledger.PublicCounts, decrypted: Counts) {
    Positive(Add(decrypted.yes, decrypted.no)) && !AlreadySubmitted(published)
  }

  /** A non-empty tally the contract accepted is never submitted again. */
  lemma SubmittedOnce(proposals: seq<Ledger.ProposalRecord>, id: nat, abi: Value, proof: Value,
                      accepts: (string, Value) -> bool, rejected: Failure, decrypted: Counts)
    requires Ledger.Submitted(proposals, id, abi, proof, accepts, rejected).Ok?
    requires proposals[id].isPublic
    requires var c := Ledger.Submitted(proposals, id, abi, proof, accepts, rejected).value[id]; c.publicYes + c.publicNo > 0
    ensures var c := Ledger.Submitted(proposals, id, abi, proof, accepts, rejected).value[id];
      !ShouldSubmit(Ledger.PublicCounts(c.publicYes, c.publicNo, c.isPublic), decrypted)
  {
  }

  /** `Number(clearValues[h])`: a handle the result does not hold reads `undefined`, which is NaN. */
  function ClearOf(clear: map<string, Numeric>, handle: string): Numeric {
    if handle in clear then clear[handle] else NaN
  }

  /** A tally with a NaN count is never submitted, whatever the contract holds. */
  lemma NaNNotSubmitted(published: Ledger.PublicCounts, decrypted: Counts)
    requires decrypted.yes.NaN? || decrypted.no.NaN?
    ensures !ShouldSubmit(published, decrypted)
  {
  }

  /** An ABI encoding the contract decodes to the two counts of `counts`. */
  predicate Encodes(abi: Value, counts: Counts) {
    abi.Str? && Encoding.AbiDecodeUint8Pair(abi.s).Some? &&
    counts.yes == Int(Encoding.AbiDecodeUint8Pair(abi.s).value.0) && counts.no == Int(Encoding.AbiDecodeUint8Pair(abi.s).value.1)
  }

  /** Some call from position `from` on is a submission. */
  predicate SubmitsIn(calls: seq<Ledger.Call>, from: int) {
    exists k | 0 <= from <= k < |calls| :: calls[k].SubmitDecryptedVoteCounts?
  }

  /** The proposals' `isPublic` flags are as they were. */
  predicate SameVisibility(before: seq<Ledger.ProposalRecord>, after: seq<Ledger.ProposalRecord>) {
    |after| == |before| && forall j | 0 <= j < |before| :: after[j].isPublic == before[j].isPublic
  }

  // ---------------------------------------------------------------------------------------------
  // The hook's operations

  /** `!contract || !account`. */
  predicate Connected(store: Web3State.Store)
    reads store
  {
    store.contract != null && store.account.Some? && store.account.value != ""
  }

  /** The objects an FHE function may change: its relayer's log and the cache's storage. */
  function FheFrame(client: FheOperations.FheClient?): set<object> {
    if client != null && client.relayer != null then {client.relayer, client.storage} else {}
  }

  /** `fheEncrypt` (or a decrypt function) is passed only while the client's relayer exists. */
  predicate Available(client: FheOperations.FheClient?) {
    client != null && client.relayer != null
  }

  /** `vote`'s ballot: `VOTE_OPTIONS.YES` for yes, `VOTE_OPTIONS.NO` for no. */
  function NumericVote(voteValue: bool): (v: int)
    ensures Utils.ValidateVoteValue(v)
    ensures v == Utils.VoteYes <==> voteValue
    ensures Utils.VoteOptionLabel(v) == (if voteValue then "Yes" else "No")
  {
    if voteValue then Utils.VoteYes else Utils.VoteNo
  }

  /** What `vote` resolves to when it does not throw. */
  datatype VoteOutcome = Sent | Alerted(message: string)

  /** What a step of a hook does to the contract: its result, the calls it makes, and the proposals after them. */
  datatype Effect<T> = Effect(result: Result<T, Failure>, sent: seq<Ledger.Call>, proposals: seq<Ledger.ProposalRecord>)

  /**
   * The `try` block of `vote`: read the proposal's public counts, refuse a public proposal,
   * encrypt the ballot (when `fheEncrypt` is defined) and send it. Errors are untranslated.
   */
  function Balloted(contract: Ledger.Zdao, voter: string, proposalId: nat, voteValue: bool,
                    fheEncrypt: FheOperations.FheClient?): (b: Effect<()>)
    reads contract`proposals
    ensures |b.sent| >= 1 && b.sent[0] == Ledger.GetPublicVoteCounts(proposalId)
    ensures b.result.Err? ==> b.proposals == contract.proposals
  {
    var read := [Ledger.GetPublicVoteCounts(proposalId)];
    var counts := contract.PublicCountsOf(proposalId);
    if counts.Err? then Effect(Err(counts.error), read, contract.proposals)
    else if counts.value.isPublic then Effect(Err(Raise(VotingClosedText)), read, contract.proposals)
    else if fheEncrypt == null || !fheEncrypt.Ready() then Effect(Err(Raise(EncryptUnavailable)), read, contract.proposals)
    else
      var encrypted := fheEncrypt.EncryptOutcome(NumericVote(voteValue));
      if encrypted.Err? then Effect(Err(encrypted.error), read, contract.proposals)
      else
        var s := Sending(contract, voter, proposalId, encrypted.value);
        Effect(s.result, read + s.sent, s.proposals)
  }

  /** `contract.vote(proposalId, encryptedValue, proof)` and `tx.wait()`. */
  function Sending(contract: Ledger.Zdao, voter: string, proposalId: nat, encrypted: FheOperations.EncryptedInput): (b: Effect<()>)
    reads contract`proposals
    ensures b.sent == [Ledger.Vote(proposalId, voter, encrypted.encryptedValue, encrypted.proof)]
    ensures b.result.Err? ==> b.proposals == contract.proposals
  {
    var handle := encrypted.encryptedValue;
    var call := Ledger.Vote(proposalId, voter, handle, encrypted.proof);
    var t := contract.Transact(call, Ledger.Voted(contract.proposals, proposalId, voter, handle));
    if t.Err? then Effect(Err(t.error), [call], contract.proposals)
    else Effect(Ok(()), [call], t.value)
  }

  /**
   * The relayer requests of the `try` block of `vote`: one encryption of the ballot, made only
   * when the read answered, the proposal is private, the client is ready and its buffers offer
   * an add method.
   */
  function BallotRequests(contract: Ledger.Zdao, proposalId: nat, voteValue: bool, fheEncrypt: FheOperations.FheClient?):
    (q: seq<FheOperations.Request>)
    reads contract`proposals
    ensures |q| <= 1
    ensures q != [] ==>
      contract.PublicCountsOf(proposalId).Ok? && !contract.PublicCountsOf(proposalId).value.isPublic &&
      fheEncrypt != null && fheEncrypt.Ready() && FheOperations.AddWidth(fheEncrypt.relayer.hasAdd8, fheEncrypt.relayer.hasAdd16).Some? &&
      q[0] == FheOperations.EncryptRequest(fheEncrypt.account.value,
                                           FheOperations.AddWidth(fheEncrypt.relayer.hasAdd8, fheEncrypt.relayer.hasAdd16).value,
                                           NumericVote(voteValue))
  {
    var counts := contract.PublicCountsOf(proposalId);
    if counts.Err? || counts.value.isPublic || fheEncrypt == null || !fheEncrypt.Ready() then []
    else match FheOperations.AddWidth(fheEncrypt.relayer.hasAdd8, fheEncrypt.relayer.hasAdd16)
      case None => []
      case Some(w) => [FheOperations.EncryptRequest(fheEncrypt.account.value, w, NumericVote(voteValue))]
  }

  /** A ballot that goes through was encrypted by the relayer exactly once. */
  lemma {:induction false} BallotEncryptedOnce(contract: Ledger.Zdao, voter: string, proposalId: nat, voteValue: bool,
                                               fheEncrypt: FheOperations.FheClient?)
    requires Balloted(contract, voter, proposalId, voteValue, fheEncrypt).result.Ok?
    ensures |BallotRequests(contract, proposalId, voteValue, fheEncrypt)| == 1
  {
    assert fheEncrypt != null && fheEncrypt.Ready();
    assert fheEncrypt.EncryptOutcome(NumericVote(voteValue)).Ok?;
  }

  method SendBallot(contract: Ledger.Zdao, voter: string, proposalId: nat, encrypted: FheOperations.EncryptedInput)
    returns (r: Result<(), Failure>)
    modifies contract
    ensures var b := old(Sending(contract, voter, proposalId, encrypted));
      r == b.result && contract.calls == old(contract.calls) + b.sent && contract.proposals == b.proposals
  {
    var sent := contract.SendVote(proposalId, voter, encrypted.encryptedValue, encrypted.proof);
    r := if sent.Ok? then Ok(()) else Err(sent.error);
  }

  /** A ballot that goes through records exactly one encrypted ballot, the caller's, and nothing else. */
  lemma BallotRecorded(contract: Ledger.Zdao, voter: string, proposalId: nat, voteValue: bool,
                       fheEncrypt: FheOperations.FheClient?)
    requires Balloted(contract, voter, proposalId, voteValue, fheEncrypt).result.Ok?
    ensures var b := Balloted(contract, voter, proposalId, voteValue, fheEncrypt);
      proposalId < |contract.proposals| && |b.proposals| == |contract.proposals| &&
      !contract.proposals[proposalId].isPublic &&
      voter !in contract.proposals[proposalId].ballots &&
      b.sent[1].Vote? && b.sent[1].voter == voter &&
      b.proposals[proposalId] == contract.proposals[proposalId].(
        ballots := contract.proposals[proposalId].ballots[voter := b.sent[1].handle]) &&
      forall j | 0 <= j < |contract.proposals| && j != proposalId :: b.proposals[j] == contract.proposals[j]
  {
  }

  /** A proposal whose counts are public refuses the ballot before anything is encrypted. */
  lemma {:induction false} BallotClosed(contract: Ledger.Zdao, voter: string, proposalId: nat, voteValue: bool,
                                        fheEncrypt: FheOperations.FheClient?)
    requires Ledger.GetPublicVoteCounts(proposalId) !in contract.faults
    requires proposalId < |contract.proposals| && contract.proposals[proposalId].isPublic
    ensures Balloted(contract, voter, proposalId, voteValue, fheEncrypt) ==
      Effect(Err(Raise(VotingClosedText)), [Ledger.GetPublicVoteCounts(proposalId)], contract.proposals)
    ensures VoteErrorMessage(Balloted(contract, voter, proposalId, voteValue, fheEncrypt).result.error.message) == VotingClosedText
    ensures BallotRequests(contract, proposalId, voteValue, fheEncrypt) == []
  {
    ClosedTextKept();
  }

  /**
   * A second ballot by the same voter reaches the contract, which refuses it, and `vote`
   * reports it as already cast.
   */
  lemma {:induction false} SecondBallotRefused(contract: Ledger.Zdao, voter: string, proposalId: nat, voteValue: bool,
                                               fheEncrypt: FheOperations.FheClient?)
    requires Ledger.GetPublicVoteCounts(proposalId) !in contract.faults
    requires proposalId < |contract.proposals| && !contract.proposals[proposalId].isPublic
    requires voter in contract.proposals[proposalId].ballots
    requires fheEncrypt != null && fheEncrypt.Ready() && fheEncrypt.EncryptOutcome(NumericVote(voteValue)).Ok?
    requires forall h, p :: Ledger.Vote(proposalId, voter, h, p) !in contract.faults
    ensures var b := Balloted(contract, voter, proposalId, voteValue, fheEncrypt);
      b.result == Err(Raise(Ledger.AlreadyVoted)) && |b.sent| == 2 && b.sent[1].Vote? && b.proposals == contract.proposals
    ensures VoteErrorMessage(Balloted(contract, voter, proposalId, voteValue, fheEncrypt).result.error.message) == AlreadyVotedText
  {
    var encrypted := fheEncrypt.EncryptOutcome(NumericVote(voteValue));
    var call := Ledger.Vote(proposalId, voter, encrypted.value.encryptedValue, encrypted.value.proof);
    assert call !in contract.faults;
    AlreadyVotedTranslated();
  }

  method CastBallot(contract: Ledger.Zdao, voter: string, proposalId: nat, voteValue: bool, fheEncrypt: FheOperations.FheClient?)
    returns (r: Result<(), Failure>)
    modifies contract, FheFrame(fheEncrypt)
    ensures var b := old(Balloted(contract, voter, proposalId, voteValue, fheEncrypt));
      r == b.result && contract.calls == old(contract.calls) + b.sent && contract.proposals == b.proposals
    ensures Available(fheEncrypt) ==>
      fheEncrypt.relayer.requests == old(fheEncrypt.relayer.requests) + old(BallotRequests(contract, proposalId, voteValue, fheEncrypt)) &&
      unchanged(fheEncrypt.storage)
  {
    var counts := contract.ReadPublicVoteCounts(proposalId);
    if counts.Err? {
      return Err(counts.error);
    }
    if counts.value.isPublic {
      return Err(Raise(VotingClosedText));
    }
    var numericVote := NumericVote(voteValue);
    assert Utils.ValidateVoteValue(numericVote);
    if fheEncrypt == null || !fheEncrypt.Ready() {
      return Err(Raise(EncryptUnavailable));
    }
    var encrypted := fheEncrypt.Encrypt(numericVote);
    if encrypted.Err? {
      return Err(encrypted.error);
    }
    r := SendBallot(contract, voter, proposalId, encrypted.value);
    assert contract.calls == old(contract.calls) + ([Ledger.GetPublicVoteCounts(proposalId)] + [contract.calls[|contract.calls| - 1]]);
  }

  /** What `vote` gives its caller for the outcome of its `try` block. */
  function Translated(result: Result<(), Failure>): (r: Result<VoteOutcome, Failure>)
    ensures r.Ok? <==> result.Ok?
    ensures r.Ok? ==> r.value == Sent
    ensures r.Err? ==> r.error.data == "" && r.error.message == VoteErrorMessage(result.error.message)
  {
    if result.Ok? then Ok(Sent) else Err(Raise(VoteErrorMessage(result.error.message)))
  }

  /**
   * `vote(proposalId, voteValue, ...)`: wallet, then FHE, then network; on the wrong network
   * it only alerts. The ballot is cast with the loading flag raised, and errors are translated.
   * The `loadProposals` refresh after a successful ballot is left to the caller.
   */
  method Vote(store: Web3State.Store, proposalId: nat, voteValue: bool, fheInitialized: bool,
              fheEncrypt: FheOperations.FheClient?, isCorrectNetwork: bool) returns (r: Result<VoteOutcome, Failure>)
    modifies store, store.contract, FheFrame(fheEncrypt)
    ensures store.contract == old(store.contract)
    ensures !(old(Connected(store)) && fheInitialized && isCorrectNetwork) ==>
      unchanged(store) && (store.contract != null ==> unchanged(store.contract)) && unchanged(FheFrame(fheEncrypt))
    ensures !old(Connected(store)) ==> r == Err(Raise(WalletNotConnected))
    ensures old(Connected(store)) && !fheInitialized ==> r == Err(Raise(FheNotInitializedText))
    ensures old(Connected(store)) && fheInitialized && !isCorrectNetwork ==> r == Ok(Alerted(WrongNetworkText))
    ensures old(Connected(store)) && fheInitialized && isCorrectNetwork ==>
      var b := old(Balloted(store.contract, store.account.value, proposalId, voteValue, fheEncrypt));
      r == Translated(b.result) &&
      store.contract.calls == old(store.contract.calls) + b.sent && store.contract.proposals == b.proposals &&
      store.GetState() == old(store.GetState()).(isLoading := false) &&
      store.listeners == old(store.listeners) && store.notified == old(store.notified) + [store.listeners, store.listeners]
    ensures old(Connected(store)) && fheInitialized && isCorrectNetwork && Available(fheEncrypt) ==>
      fheEncrypt.relayer.requests ==
        old(fheEncrypt.relayer.requests) + old(BallotRequests(store.contract, proposalId, voteValue, fheEncrypt)) &&
      unchanged(fheEncrypt.storage)
  {
    if !Connected(store) {
      return Err(Raise(WalletNotConnected));
    }
    var contract := store.contract;
    var voter := store.account.value;
    if !fheInitialized {
      return Err(Raise(FheNotInitializedText));
    }
    if !isCorrectNetwork {
      return Ok(Alerted(WrongNetworkText));
    }
    store.SetIsLoading(true);
    var cast := CastBallot(contract, voter, proposalId, voteValue, fheEncrypt);
    r := Translated(cast);
    store.SetIsLoading(false);
  }

  // ---------------------------------------------------------------------------------------------
  // decryptVoteCounts

  /** The catch block of `decryptVoteCounts`: every failure inside the `try` comes out under one prefix. */
  function Wrapped(f: Failure): (w: Failure)
    ensures w.data == "" && StartsWith(w.message, DecryptFailedPrefix)
    ensures w.message[|DecryptFailedPrefix|..] == OrUnknown(f.message)
  {
    StartsWithConcat(DecryptFailedPrefix, OrUnknown(f.message));
    Raise(DecryptFailedPrefix + OrUnknown(f.message))
  }

  /**
   * After a batch decryption: the counts are the clear values of the two handles, and a
   * non-empty tally not yet submitted is submitted with the batch's ABI encoding and proof to a
   * contract holding `proposals`. A failed submission is swallowed; a successful one is
   * followed by a check read.
   */
  function Submission(contract: Ledger.Zdao, proposals: seq<Ledger.ProposalRecord>, proposalId: nat, published: Ledger.PublicCounts,
                      yes: string, no: string, decrypted: FheOperations.DecryptResult): (e: Effect<Counts>)
    ensures e.result == Ok(Counts(ClearOf(decrypted.clearValues, yes), ClearOf(decrypted.clearValues, no)))
    ensures |e.sent| > 0 <==> ShouldSubmit(published, e.result.value)
    ensures |e.sent| > 0 ==>
      e.sent[0] == Ledger.SubmitDecryptedVoteCounts(proposalId, decrypted.abiEncodedClearValues, decrypted.decryptionProof)
    ensures SameVisibility(proposals, e.proposals)
  {
    var counts := Counts(ClearOf(decrypted.clearValues, yes), ClearOf(decrypted.clearValues, no));
    if !ShouldSubmit(published, counts) then Effect(Ok(counts), [], proposals)
    else
      var call := Ledger.SubmitDecryptedVoteCounts(proposalId, decrypted.abiEncodedClearValues, decrypted.decryptionProof);
      var t := contract.Transact(call, Ledger.Submitted(proposals, proposalId, decrypted.abiEncodedClearValues,
                                                        decrypted.decryptionProof, contract.accepts, contract.rejected));
      if t.Err? then Effect(Ok(counts), [call], proposals)
      else Effect(Ok(counts), [call, Ledger.GetPublicVoteCounts(proposalId)], t.value)
  }

  /**
   * When the batch's ABI encoding holds the two decrypted counts and the contract accepts the
   * proof, the counts the contract publishes are the counts `decryptVoteCounts` returns.
   */
  lemma SubmissionPublishes(contract: Ledger.Zdao, proposals: seq<Ledger.ProposalRecord>, proposalId: nat,
                            published: Ledger.PublicCounts, yes: string, no: string, decrypted: FheOperations.DecryptResult)
    requires proposalId < |proposals|
    requires ShouldSubmit(published, Counts(ClearOf(decrypted.clearValues, yes), ClearOf(decrypted.clearValues, no)))
    requires Encodes(decrypted.abiEncodedClearValues, Counts(ClearOf(decrypted.clearValues, yes), ClearOf(decrypted.clearValues, no)))
    requires Ledger.SubmitDecryptedVoteCounts(proposalId, decrypted.abiEncodedClearValues, decrypted.decryptionProof) !in contract.faults
    requires contract.accepts(decrypted.abiEncodedClearValues.s, decrypted.decryptionProof)
    ensures var e := Submission(contract, proposals, proposalId, published, yes, no, decrypted);
      |e.sent| == 2 && e.sent[1] == Ledger.GetPublicVoteCounts(proposalId) &&
      Int(e.proposals[proposalId].publicYes) == e.result.value.yes && Int(e.proposals[proposalId].publicNo) == e.result.value.no
  {
  }

  /**
   * A batch the engine computed itself (a direct map, or values without an encoding) encodes
   * exactly the two counts read off it, so `SubmissionPublishes` applies to it.
   */
  lemma {:induction false} NormalizedEncodesCounts(yes: string, no: string, reply: Value)
    requires FheOperations.Normalized([yes, no], reply).Ok?
    requires FheOperations.ShapeOf([yes, no], reply) == FheOperations.DirectMap ||
      (FheOperations.ShapeOf([yes, no], reply) == FheOperations.ValuesProof && !Truthy(Get(reply, "abiEncodedClearValues")))
    ensures var d := FheOperations.Normalized([yes, no], reply).value;
      Encodes(d.abiEncodedClearValues, Counts(ClearOf(d.clearValues, yes), ClearOf(d.clearValues, no)))
  {
    var d := FheOperations.Normalized([yes, no], reply).value;
    assert [yes, no][0] == yes && [yes, no][1] == no;
    assert yes in d.clearValues.Keys && no in d.clearValues.Keys;
  }

  /** Once a submission went through on a public proposal, the next decryption does not submit again. */
  lemma {:induction false} SubmissionNotRepeated(contract: Ledger.Zdao, proposals: seq<Ledger.ProposalRecord>, proposalId: nat,
                                                 published: Ledger.PublicCounts, yes: string, no: string,
                                                 decrypted: FheOperations.DecryptResult, again: Counts)
    requires proposalId < |proposals| && proposals[proposalId].isPublic
    requires var e := Submission(contract, proposals, proposalId, published, yes, no, decrypted);
      |e.sent| == 2 && e.proposals[proposalId].publicYes + e.proposals[proposalId].publicNo > 0
    ensures var c := Submission(contract, proposals, proposalId, published, yes, no, decrypted).proposals[proposalId];
      !ShouldSubmit(Ledger.PublicCounts(c.publicYes, c.publicNo, c.isPublic), again)
  {
    var e := Submission(contract, proposals, proposalId, published, yes, no, decrypted);
    assert e.proposals[proposalId].isPublic;
  }

  method SubmitIfDue(contract: Ledger.Zdao, proposalId: nat, published: Ledger.PublicCounts, yes: string, no: string,
                     decrypted: FheOperations.DecryptResult) returns (r: Result<Counts, Failure>)
    modifies contract
    ensures var e := old(Submission(contract, contract.proposals, proposalId, published, yes, no, decrypted));
      r == e.result && contract.calls == old(contract.calls) + e.sent && contract.proposals == e.proposals
  {
    var counts := Counts(ClearOf(decrypted.clearValues, yes), ClearOf(decrypted.clearValues, no));
    r := Ok(counts);
    if ShouldSubmit(published, counts) {
      var submitted := contract.SendSubmitDecryptedVoteCounts(proposalId, decrypted.abiEncodedClearValues, decrypted.decryptionProof);
      if submitted.Ok? {
        // the check read's outcome is only logged
        var check := contract.ReadPublicVoteCounts(proposalId);
      }
    }
  }

  /** The contents of a decryption cache. */
  type Cache = map<string, Utils.Item<FheOperations.CachedValue>>

  /** The decrypt function `decryptVoteCounts` uses: the batch one when it is defined, else the single one. */
  function Used(single: FheOperations.FheClient?, multiple: FheOperations.FheClient?): (c: FheOperations.FheClient?)
    ensures Available(multiple) ==> c == multiple
    ensures !Available(multiple) ==> c == single
  {
    if Available(multiple) then multiple else single
  }

  /** What a decrypt function's cache holds; nothing for a missing one. */
  function CacheOf(client: FheOperations.FheClient?): Cache
    reads if client != null then {client.storage} else {}
  {
    if client != null then client.storage.items else map[]
  }

  /** What the decrypt functions answered for a tally: the batch function's result, the single one's, or neither. */
  datatype Route =
    | Batched(batch: Result<FheOperations.DecryptResult, Failure>)
    | Paired(counts: Result<Counts, Failure>)
    | Unavailable

  /** What the decrypt functions answered, and the cache of the one used afterwards. */
  datatype Answer = Answer(route: Route, cache: Cache)

  /** The path through `publicDecrypt`, one handle after the other: the counts and the cache after them. */
  function OneByOne(single: FheOperations.FheClient, yes: string, no: string, cache: Cache, now: int): (Result<Counts, Failure>, Cache)
    requires single.relayer != null
  {
    var first := single.SingleOutcome(yes, cache, now);
    var afterYes := single.ItemsAfterSingle(yes, cache, now);
    if first.Err? then (Err(first.error), afterYes)
    else
      var second := single.SingleOutcome(no, afterYes, now);
      var afterNo := single.ItemsAfterSingle(no, afterYes, now);
      (if second.Err? then Err(second.error) else Ok(Counts(first.value.value, second.value.value)), afterNo)
  }

  /**
   * The answer for the tally `(yes, no)`, with the cache of the function used holding `cache`:
   * `publicDecryptMultiple` whenever it is defined, else `publicDecrypt` on each handle, else none.
   */
  function Answered(single: FheOperations.FheClient?, multiple: FheOperations.FheClient?, yes: string, no: string,
                    cache: Cache, now: int): (a: Answer)
    ensures a.route.Batched? <==> Available(multiple)
    ensures a.route.Paired? <==> !Available(multiple) && Available(single)
    ensures a.route.Unavailable? ==> a.cache == cache
  {
    if Available(multiple) then
      Answer(Batched(multiple.MultipleOutcome([yes, no], cache, now)), multiple.ItemsAfterMultiple([yes, no], cache, now))
    else if Available(single) then
      var each := OneByOne(single, yes, no, cache, now);
      Answer(Paired(each.0), each.1)
    else Answer(Unavailable, cache)
  }

  /**
   * What `decryptVoteCounts` makes of the answer for the tally `(yes, no)` on a contract holding
   * `proposals`: a decrypted batch is submitted when due, a pair is only returned, and every
   * failure comes out under the decryption prefix. Only a batch calls the contract.
   */
  function Tally(contract: Ledger.Zdao, proposals: seq<Ledger.ProposalRecord>, proposalId: nat, published: Ledger.PublicCounts,
                 yes: string, no: string, route: Route): (e: Effect<Counts>)
    ensures SameVisibility(proposals, e.proposals)
    ensures !route.Batched? ==> e.sent == [] && e.proposals == proposals
    ensures e.result.Err? ==>
      e.sent == [] && e.proposals == proposals && e.result.error.data == "" && StartsWith(e.result.error.message, DecryptFailedPrefix)
  {
    match route
    case Batched(batch) =>
      if batch.Err? then Effect(Err(Wrapped(batch.error)), [], proposals)
      else Submission(contract, proposals, proposalId, published, yes, no, batch.value)
    case Paired(counts) => Effect(if counts.Err? then Err(Wrapped(counts.error)) else counts, [], proposals)
    case Unavailable => Effect(Err(Wrapped(Raise(DecryptUnavailable))), [], proposals)
  }

  /** The two reads `decryptVoteCounts` starts with, what they answered and the calls they made. */
  datatype Fetch = Fetch(answer: Result<(Ledger.PublicCounts, string, string), Failure>, sent: seq<Ledger.Call>)

  /**
   * `getPublicVoteCounts(proposalId)`, then, if that answered, `getEncryptedVoteCount(proposalId)`,
   * on a contract holding `proposals`.
   */
  function Fetched(contract: Ledger.Zdao, proposals: seq<Ledger.ProposalRecord>, proposalId: nat): (f: Fetch)
    ensures f.answer.Ok? <==>
      contract.PublicCountsIn(proposals, proposalId).Ok? && contract.EncryptedCountsIn(proposals, proposalId).Ok?
    ensures f.answer.Ok? ==>
      f.answer.value == (contract.PublicCountsIn(proposals, proposalId).value,
                         contract.EncryptedCountsIn(proposals, proposalId).value.0,
                         contract.EncryptedCountsIn(proposals, proposalId).value.1)
    ensures f.answer.Ok? ==> f.sent == [Ledger.GetPublicVoteCounts(proposalId), Ledger.GetEncryptedVoteCount(proposalId)]
    ensures contract.PublicCountsIn(proposals, proposalId).Err? ==>
      f.answer == Err(contract.PublicCountsIn(proposals, proposalId).error) && f.sent == [Ledger.GetPublicVoteCounts(proposalId)]
    ensures contract.PublicCountsIn(proposals, proposalId).Ok? && contract.EncryptedCountsIn(proposals, proposalId).Err? ==>
      f.answer == Err(contract.EncryptedCountsIn(proposals, proposalId).error) &&
      f.sent == [Ledger.GetPublicVoteCounts(proposalId), Ledger.GetEncryptedVoteCount(proposalId)]
  {
    var published := contract.PublicCountsIn(proposals, proposalId);
    if published.Err? then Fetch(Err(published.error), [Ledger.GetPublicVoteCounts(proposalId)])
    else
      var encrypted := contract.EncryptedCountsIn(proposals, proposalId);
      var sent := [Ledger.GetPublicVoteCounts(proposalId), Ledger.GetEncryptedVoteCount(proposalId)];
      if encrypted.Err? then Fetch(Err(encrypted.error), sent)
      else Fetch(Ok((published.value, encrypted.value.0, encrypted.value.1)), sent)
  }

  method ReadTallyHandles(contract: Ledger.Zdao, proposalId: nat) returns (r: Result<(Ledger.PublicCounts, string, string), Failure>)
    modifies contract`calls
    ensures var f := Fetched(contract, contract.proposals, proposalId);
      r == f.answer && contract.calls == old(contract.calls) + f.sent
  {
    var published := contract.ReadPublicVoteCounts(proposalId);
    if published.Err? {
      return Err(published.error);
    }
    var encrypted := contract.ReadEncryptedVoteCount(proposalId);
    if encrypted.Err? {
      return Err(encrypted.error);
    }
    r := Ok((published.value, encrypted.value.0, encrypted.value.1));
  }

  /**
   * The `try` block of `decryptVoteCounts` on a contract holding `proposals`, with `route` what
   * the decrypt functions answered for the handles read: read whether a tally was already
   * submitted and the encrypted tally, then make the tally of the answer. A failed read sends
   * only the reads, and every failure comes out under the decryption prefix.
   */
  function Decryption(contract: Ledger.Zdao, proposals: seq<Ledger.ProposalRecord>, proposalId: nat, route: Route): (e: Effect<Counts>)
    ensures SameVisibility(proposals, e.proposals)
    ensures e.result.Err? ==>
      e.proposals == proposals && e.sent == Fetched(contract, proposals, proposalId).sent &&
      e.result.error.data == "" && StartsWith(e.result.error.message, DecryptFailedPrefix)
  {
    var f := Fetched(contract, proposals, proposalId);
    if f.answer.Err? then Effect(Err(Wrapped(f.answer.error)), f.sent, proposals)
    else
      var t := Tally(contract, proposals, proposalId, f.answer.value.0, f.answer.value.1, f.answer.value.2, route);
      assert t.result.Err? ==> f.sent + t.sent == f.sent;
      Effect(t.result, f.sent + t.sent, t.proposals)
  }

  /**
   * `answer` is what the decrypt functions answer for the tally `(yes, no)` with the cache of
   * the function used holding `cache`. The equation is stated for every cache equal to `cache`,
   * keyed on the `Answered` term, so that the verifier expands the decrypt functions only where
   * a contract asks about that answer.
   */
  predicate Answers(answer: Answer, single: FheOperations.FheClient?, multiple: FheOperations.FheClient?,
                    yes: string, no: string, cache: Cache, now: int)
  {
    forall c {:trigger Answered(single, multiple, yes, no, c, now)} | c == cache :: answer == Answered(single, multiple, yes, no, c, now)
  }

  /** `Answers` is the plain equation. */
  lemma AnswersIsEquation(answer: Answer, single: FheOperations.FheClient?, multiple: FheOperations.FheClient?,
                          yes: string, no: string, cache: Cache, now: int)
    ensures Answers(answer, single, multiple, yes, no, cache, now) <==> answer == Answered(single, multiple, yes, no, cache, now)
  {
  }

  /**
   * A decryption on a contract holding `proposals`, with `route` what the decrypt functions
   * answered, that started with `before` sent, answered `r` and ended with `calls` sent and the
   * contract holding `after`, as `Decryption` says. The equation is stated for every record list
   * equal to `proposals`, keyed on the `Decryption` term, like `Answers`.
   */
  predicate Decrypted(contract: Ledger.Zdao, proposals: seq<Ledger.ProposalRecord>, proposalId: nat, route: Route,
                      before: seq<Ledger.Call>, r: Result<Counts, Failure>, calls: seq<Ledger.Call>,
                      after: seq<Ledger.ProposalRecord>)
  {
    forall p {:trigger Decryption(contract, p, proposalId, route)} | p == proposals ::
      var e := Decryption(contract, p, proposalId, route);
      r == e.result && calls == before + e.sent && after == e.proposals
  }

  /** `Decrypted` is the plain equation. */
  lemma DecryptedIsEquation(contract: Ledger.Zdao, proposals: seq<Ledger.ProposalRecord>, proposalId: nat, route: Route,
                            before: seq<Ledger.Call>, r: Result<Counts, Failure>, calls: seq<Ledger.Call>,
                            after: seq<Ledger.ProposalRecord>)
    ensures Decrypted(contract, proposals, proposalId, route, before, r, calls, after) <==>
      var e := Decryption(contract, proposals, proposalId, route);
      r == e.result && calls == before + e.sent && after == e.proposals
  {
  }

  /**
   * `answer` is what the decrypt functions answer, from a cache holding `cache`, for the handles
   * read from a contract holding `proposals`; when the reads fail nothing is asked of them.
   */
  predicate AnswersReads(contract: Ledger.Zdao, proposals: seq<Ledger.ProposalRecord>, proposalId: nat,
                         single: FheOperations.FheClient?, multiple: FheOperations.FheClient?, cache: Cache, now: int, answer: Answer)
  {
    var f := Fetched(contract, proposals, proposalId);
    f.answer.Ok? ==> Answers(answer, single, multiple, f.answer.value.1, f.answer.value.2, cache, now)
  }

  /** Reads in front of a run of calls do not change whether it holds a submission. */
  lemma {:induction false} SubmitsAfterReads(fetched: seq<Ledger.Call>, sent: seq<Ledger.Call>)
    requires forall k | 0 <= k < |fetched| :: !fetched[k].SubmitDecryptedVoteCounts?
    ensures SubmitsIn(fetched + sent, 0) <==> SubmitsIn(sent, 0)
  {
    if SubmitsIn(fetched + sent, 0) {
      var k :| 0 <= k < |fetched + sent| && (fetched + sent)[k].SubmitDecryptedVoteCounts?;
      assert sent[k - |fetched|].SubmitDecryptedVoteCounts?;
    }
    if SubmitsIn(sent, 0) {
      var k :| 0 <= k < |sent| && sent[k].SubmitDecryptedVoteCounts?;
      assert (fetched + sent)[k + |fetched|].SubmitDecryptedVoteCounts?;
    }
  }

  /** A tally is submitted exactly when the batch function answered with a result and the tally is due. */
  lemma {:induction false} TallySubmitsWhenDue(contract: Ledger.Zdao, proposals: seq<Ledger.ProposalRecord>, proposalId: nat,
                                               published: Ledger.PublicCounts, yes: string, no: string, route: Route)
    ensures var t := Tally(contract, proposals, proposalId, published, yes, no, route);
      SubmitsIn(t.sent, 0) <==> route.Batched? && t.result.Ok? && ShouldSubmit(published, t.result.value)
  {
    var t := Tally(contract, proposals, proposalId, published, yes, no, route);
    if route.Batched? && t.result.Ok? {
      var e := Submission(contract, proposals, proposalId, published, yes, no, route.batch.value);
      assert t == e;
      if |e.sent| > 0 {
        assert e.sent[0].SubmitDecryptedVoteCounts?;
      }
    }
  }

  /**
   * A decryption submits the tally exactly when the batch function answered (which it does
   * whenever it is defined, by `Answered`), the reads and the batch succeeded, and the decrypted
   * tally is due for submission.
   */
  lemma {:induction false} DecryptionSubmitsWhenDue(contract: Ledger.Zdao, proposals: seq<Ledger.ProposalRecord>, proposalId: nat,
                                                    route: Route)
    ensures var d := Decryption(contract, proposals, proposalId, route);
      var published := contract.PublicCountsIn(proposals, proposalId);
      SubmitsIn(d.sent, 0) <==> route.Batched? && published.Ok? && d.result.Ok? && ShouldSubmit(published.value, d.result.value)
  {
    var f := Fetched(contract, proposals, proposalId);
    if f.answer.Ok? {
      var (published, yes, no) := f.answer.value;
      TallySubmitsWhenDue(contract, proposals, proposalId, published, yes, no, route);
      var t := Tally(contract, proposals, proposalId, published, yes, no, route);
      SubmitsAfterReads(f.sent, t.sent);
    }
  }

  /** The decrypt path through `publicDecryptMultiple`: one batch, one proof, then the submission if due. */
  method DecryptBatch(contract: Ledger.Zdao, multiple: FheOperations.FheClient, proposalId: nat, published: Ledger.PublicCounts,
                      yes: string, no: string, now: int) returns (r: Result<Counts, Failure>)
    requires multiple.relayer != null
    modifies contract, FheFrame(multiple)
    ensures var batch := old(multiple.MultipleOutcome([yes, no], multiple.storage.items, now));
      var e := Tally(contract, old(contract.proposals), proposalId, published, yes, no, Batched(batch));
      r == e.result && contract.calls == old(contract.calls) + e.sent && contract.proposals == e.proposals
    ensures multiple.storage.items == old(multiple.ItemsAfterMultiple([yes, no], multiple.storage.items, now))
  {
    var batch := multiple.PublicDecryptMultiple([yes, no], now);
    if batch.Err? {
      return Err(Wrapped(batch.error));
    }
    r := SubmitIfDue(contract, proposalId, published, yes, no, batch.value);
  }

  /** The decrypt path through `publicDecrypt`, one handle after the other; it never submits. */
  method DecryptEach(single: FheOperations.FheClient, yes: string, no: string, now: int) returns (r: Result<Counts, Failure>)
    requires single.relayer != null
    modifies FheFrame(single)
    ensures var each := OneByOne(single, yes, no, old(single.storage.items), now);
      r == each.0 && single.storage.items == each.1
  {
    var first := single.PublicDecrypt(yes, now);
    if first.Err? {
      return Err(first.error);
    }
    var second := single.PublicDecrypt(no, now);
    if second.Err? {
      return Err(second.error);
    }
    r := Ok(Counts(first.value.value, second.value.value));
  }

  /** The decryption of the tally `(yes, no)` by whichever decrypt function is defined. */
  method DecryptTally(contract: Ledger.Zdao, proposalId: nat, published: Ledger.PublicCounts, yes: string, no: string,
                      single: FheOperations.FheClient?, multiple: FheOperations.FheClient?, now: int)
    returns (r: Result<Counts, Failure>, ghost answer: Answer)
    modifies contract, FheFrame(single), FheFrame(multiple)
    ensures Answers(answer, single, multiple, yes, no, old(CacheOf(Used(single, multiple))), now)
    ensures var e := Tally(contract, old(contract.proposals), proposalId, published, yes, no, answer.route);
      r == e.result && contract.calls == old(contract.calls) + e.sent && contract.proposals == e.proposals
    ensures Available(Used(single, multiple)) ==> Used(single, multiple).storage.items == answer.cache
  {
    answer := Answered(single, multiple, yes, no, CacheOf(Used(single, multiple)), now);
    if Available(multiple) {
      r := DecryptBatch(contract, multiple, proposalId, published, yes, no, now);
    } else if Available(single) {
      var counts := DecryptEach(single, yes, no, now);
      r := if counts.Err? then Err(Wrapped(counts.error)) else counts;
    } else {
      r := Err(Wrapped(Raise(DecryptUnavailable)));
    }
  }

  /** The `try` block of `decryptVoteCounts`: the two reads, then the decryption of the handles read. */
  method DecryptFrom(contract: Ledger.Zdao, proposalId: nat, single: FheOperations.FheClient?,
                     multiple: FheOperations.FheClient?, now: int) returns (r: Result<Counts, Failure>, ghost answer: Answer)
    modifies contract, FheFrame(single), FheFrame(multiple)
    ensures AnswersReads(contract, old(contract.proposals), proposalId, single, multiple, old(CacheOf(Used(single, multiple))), now, answer)
    ensures var e := Decryption(contract, old(contract.proposals), proposalId, answer.route);
      r == e.result && contract.calls == old(contract.calls) + e.sent && contract.proposals == e.proposals
    ensures var read := old(Fetched(contract, contract.proposals, proposalId)).answer.Ok?;
      (read && Available(Used(single, multiple)) ==> Used(single, multiple).storage.items == answer.cache) &&
      (!read ==> unchanged(FheFrame(single)) && unchanged(FheFrame(multiple)))
  {
    var fetched := ReadTallyHandles(contract, proposalId);
    if fetched.Err? {
      r, answer := Err(Wrapped(fetched.error)), Answer(Unavailable, map[]);
      return;
    }
    ghost var sent := contract.calls;
    r, answer := DecryptTally(contract, proposalId, fetched.value.0, fetched.value.1, fetched.value.2, single, multiple, now);
    ghost var t := Tally(contract, old(contract.proposals), proposalId, fetched.value.0, fetched.value.1, fetched.value.2, answer.route);
    assert sent + t.sent == old(contract.calls) + ([Ledger.GetPublicVoteCounts(proposalId), Ledger.GetEncryptedVoteCount(proposalId)] + t.sent);
  }

  /**
   * `decryptVoteCounts(proposalId, ...)`: read whether a tally was already submitted and the
   * encrypted tally, then decrypt it through `publicDecryptMultiple` (submitting it when due)
   * or, failing that, through `publicDecrypt`. The guard's error is not wrapped; every later one is.
   */
  method DecryptVoteCounts(store: Web3State.Store, proposalId: nat, fheInitialized: bool,
                           single: FheOperations.FheClient?, multiple: FheOperations.FheClient?, now: int,
                           ghost proposals: seq<Ledger.ProposalRecord>, ghost cache: Cache)
    returns (r: Result<Counts, Failure>, ghost answer: Answer)
    requires store.contract != null ==> proposals == store.contract.proposals
    requires cache == CacheOf(Used(single, multiple))
    modifies store.contract, FheFrame(single), FheFrame(multiple)
    ensures store.contract == null || !fheInitialized ==>
      r == Err(Raise(ContractOrFheMissing)) && unchanged(FheFrame(single)) && unchanged(FheFrame(multiple))
    ensures store.contract != null && !fheInitialized ==> unchanged(store.contract)
    ensures store.contract != null && fheInitialized ==>
      AnswersReads(store.contract, proposals, proposalId, single, multiple, cache, now, answer)
    ensures store.contract != null && fheInitialized ==>
      Decrypted(store.contract, proposals, proposalId, answer.route, old(store.contract.calls),
                r, store.contract.calls, store.contract.proposals)
    ensures store.contract != null && fheInitialized ==>
      var read := Fetched(store.contract, proposals, proposalId).answer.Ok?;
      (read && Available(Used(single, multiple)) ==> Used(single, multiple).storage.items == answer.cache) &&
      (!read ==> unchanged(FheFrame(single)) && unchanged(FheFrame(multiple)))
  {
    var contract := store.contract;
    if contract == null || !fheInitialized {
      r, answer := Err(Raise(ContractOrFheMissing)), Answer(Unavailable, map[]);
      return;
    }
    r, answer := DecryptFrom(contract, proposalId, single, multiple, now);
  }

  // ---------------------------------------------------------------------------------------------
  // makeVoteCountsPublic

  /** What `makeVoteCountsPublic` gives its caller for the gas estimate and the transaction. */
  function RevealResult(estimate: Result<(), Failure>, sent: Result<seq<Ledger.ProposalRecord>, Failure>): (r: Result<(), Failure>)
    ensures r.Ok? <==> estimate.Ok? && sent.Ok?
    ensures estimate.Err? ==> r == Err(RevealFailure(GasFailure(estimate.error)))
    ensures estimate.Ok? && sent.Err? ==> r == Err(RevealFailure(sent.error))
  {
    if estimate.Err? then Err(RevealFailure(GasFailure(estimate.error)))
    else if sent.Err? then Err(RevealFailure(sent.error))
    else Ok(())
  }

  /** Revealing the counts of a proposal that is already public fails with the "already public" text. */
  lemma {:induction false} RevealRefusedWhenPublic(contract: Ledger.Zdao, proposalId: nat, sent: Result<seq<Ledger.ProposalRecord>, Failure>)
    requires Ledger.EstimateMakePublic(proposalId) !in contract.faults
    requires proposalId < |contract.proposals| && contract.proposals[proposalId].isPublic
    ensures RevealResult(contract.EstimateOf(proposalId), sent) == Err(Raise(AlreadyPublicText))
  {
    assert contract.EstimateOf(proposalId) == Err(Raise(Ledger.AlreadyPublic));
    SecondRevealRefused();
  }

  lemma GasInvalidChars()
    ensures 'V' !in GasFailedPrefix + Ledger.InvalidProposal
  {
  }

  /** Revealing the counts of a proposal that does not exist fails with the invalid-proposal text. */
  lemma {:induction false} RevealRefusedWhenMissing(contract: Ledger.Zdao, proposalId: nat, sent: Result<seq<Ledger.ProposalRecord>, Failure>)
    requires Ledger.EstimateMakePublic(proposalId) !in contract.faults
    requires proposalId >= |contract.proposals|
    ensures RevealResult(contract.EstimateOf(proposalId), sent) == Err(Raise(InvalidProposalText))
  {
    assert contract.EstimateOf(proposalId) == Err(Raise(Ledger.InvalidProposal));
    var m := GasFailedPrefix + Ledger.InvalidProposal;
    assert GasFailure(Raise(Ledger.InvalidProposal)) == Raise(m);
    GasInvalidChars();
    if Contains(m, "Vote counts already public") {
      ContainsChar(m, "Vote counts already public", 0);
    }
    ContainsInfix(GasFailedPrefix, Ledger.InvalidProposal, "");
    assert GasFailedPrefix + Ledger.InvalidProposal + "" == m;
  }

  /** The pre-check reads of `makeVoteCountsPublic` on a contract holding `proposals`: the proposal, then (if that answered) its public counts. */
  function PreCheck(contract: Ledger.Zdao, proposals: seq<Ledger.ProposalRecord>, proposalId: nat): (calls: seq<Ledger.Call>)
    ensures 1 <= |calls| <= 2 && calls[0] == Ledger.Proposals(proposalId)
    ensures |calls| == 2 <==> contract.ReadIn(proposals, Ledger.Proposals(proposalId), proposalId).Ok?
  {
    if contract.ReadIn(proposals, Ledger.Proposals(proposalId), proposalId).Ok? then
      [Ledger.Proposals(proposalId), Ledger.GetPublicVoteCounts(proposalId)]
    else [Ledger.Proposals(proposalId)]
  }

  /** The proposals after `makeVoteCountsPublic(proposalId)` went through; an unknown id reveals nothing. */
  function Revealed(proposals: seq<Ledger.ProposalRecord>, proposalId: nat): seq<Ledger.ProposalRecord>
  {
    if proposalId < |proposals| then proposals[proposalId := proposals[proposalId].(isPublic := true)] else proposals
  }

  /**
   * The pre-check reads, the gas estimate and the transaction of `makeVoteCountsPublic` on a
   * contract holding `proposals`. The transaction is sent only after the estimate passed.
   */
  function RevealSent(contract: Ledger.Zdao, proposals: seq<Ledger.ProposalRecord>, proposalId: nat): (e: Effect<()>)
    ensures e.result == RevealResult(contract.EstimateIn(proposals, proposalId),
                                     contract.Transact(Ledger.MakeVoteCountsPublic(proposalId), Ledger.MadePublic(proposals, proposalId)))
    ensures var checked := PreCheck(contract, proposals, proposalId) + [Ledger.EstimateMakePublic(proposalId)];
      e.sent == if contract.EstimateIn(proposals, proposalId).Err? then checked else checked + [Ledger.MakeVoteCountsPublic(proposalId)]
    ensures e.result.Err? ==> e.proposals == proposals
    ensures e.result.Ok? ==>
      proposalId < |proposals| && !proposals[proposalId].isPublic && e.proposals == Revealed(proposals, proposalId)
  {
    var checked := PreCheck(contract, proposals, proposalId) + [Ledger.EstimateMakePublic(proposalId)];
    var estimate := contract.EstimateIn(proposals, proposalId);
    if estimate.Err? then Effect(Err(RevealFailure(GasFailure(estimate.error))), checked, proposals)
    else
      var call := Ledger.MakeVoteCountsPublic(proposalId);
      var t := contract.Transact(call, Ledger.MadePublic(proposals, proposalId));
      if t.Err? then Effect(Err(RevealFailure(t.error)), checked + [call], proposals)
      else Effect(Ok(()), checked + [call], t.value)
  }

  /**
   * The reveal on a contract holding `proposals` with `before` sent answered `r` and ended with
   * `calls` sent and the contract holding `after`, as `RevealSent` says; keyed on the
   * `RevealSent` term, like `Answers`.
   */
  predicate SentAs(contract: Ledger.Zdao, proposals: seq<Ledger.ProposalRecord>, proposalId: nat,
                 before: seq<Ledger.Call>, r: Result<(), Failure>, calls: seq<Ledger.Call>, after: seq<Ledger.ProposalRecord>)
  {
    forall p {:trigger RevealSent(contract, p, proposalId)} | p == proposals ::
      var e := RevealSent(contract, p, proposalId);
      r == e.result && calls == before + e.sent && after == e.proposals
  }

  /** `SentAs` is the plain equation. */
  lemma SentAsIsEquation(contract: Ledger.Zdao, proposals: seq<Ledger.ProposalRecord>, proposalId: nat,
                       before: seq<Ledger.Call>, r: Result<(), Failure>, calls: seq<Ledger.Call>, after: seq<Ledger.ProposalRecord>)
    ensures SentAs(contract, proposals, proposalId, before, r, calls, after) <==>
      var e := RevealSent(contract, proposals, proposalId);
      r == e.result && calls == before + e.sent && after == e.proposals
  {
  }

  /**
   * The `try` block of `makeVoteCountsPublic` on a contract holding `proposals`, with `route`
   * what the decrypt functions answered afterwards: the reveal, then, when it went through with
   * FHE ready, `decryptVoteCounts` on the revealed proposals, whose outcome does not change the result.
   */
  function Revelation(contract: Ledger.Zdao, proposals: seq<Ledger.ProposalRecord>, proposalId: nat, fheInitialized: bool,
                      route: Route): (e: Effect<()>)
    ensures e.result == RevealSent(contract, proposals, proposalId).result
    ensures !(e.result.Ok? && fheInitialized) ==> e == RevealSent(contract, proposals, proposalId)
    ensures e.result.Ok? && fheInitialized ==>
      var d := Decryption(contract, RevealSent(contract, proposals, proposalId).proposals, proposalId, route);
      e.sent == RevealSent(contract, proposals, proposalId).sent + d.sent && e.proposals == d.proposals
  {
    var s := RevealSent(contract, proposals, proposalId);
    if s.result.Ok? && fheInitialized then
      var d := Decryption(contract, s.proposals, proposalId, route);
      Effect(s.result, s.sent + d.sent, d.proposals)
    else s
  }

  /**
   * `makeVoteCountsPublic` on a contract holding `proposals` with `before` sent, with `route`
   * what the decrypt functions answered, answered `r` and ended with `calls` sent and the
   * contract holding `after`, as `Revelation` says; keyed on the `Revelation` term, like `Answers`.
   */
  predicate Revealing(contract: Ledger.Zdao, proposals: seq<Ledger.ProposalRecord>, proposalId: nat, fheInitialized: bool,
                      route: Route, before: seq<Ledger.Call>, r: Result<(), Failure>, calls: seq<Ledger.Call>,
                      after: seq<Ledger.ProposalRecord>)
  {
    forall p {:trigger Revelation(contract, p, proposalId, fheInitialized, route)} | p == proposals ::
      var e := Revelation(contract, p, proposalId, fheInitialized, route);
      r == e.result && calls == before + e.sent && after == e.proposals
  }

  /** `Revealing` is the plain equation. */
  lemma RevealingIsEquation(contract: Ledger.Zdao, proposals: seq<Ledger.ProposalRecord>, proposalId: nat, fheInitialized: bool,
                            route: Route, before: seq<Ledger.Call>, r: Result<(), Failure>, calls: seq<Ledger.Call>,
                            after: seq<Ledger.ProposalRecord>)
    ensures Revealing(contract, proposals, proposalId, fheInitialized, route, before, r, calls, after) <==>
      var e := Revelation(contract, proposals, proposalId, fheInitialized, route);
      r == e.result && calls == before + e.sent && after == e.proposals
  {
  }

  /**
   * The reveal, then (when it went through with FHE ready) the decryption on the records it
   * left, make up `makeVoteCountsPublic`; a reveal that went through left the records `Revealed` says.
   */
  lemma RevealingComposes(contract: Ledger.Zdao, proposals: seq<Ledger.ProposalRecord>, proposalId: nat, fheInitialized: bool,
                          route: Route, before: seq<Ledger.Call>, r: Result<(), Failure>,
                          middle: seq<Ledger.Call>, revealed: seq<Ledger.ProposalRecord>, decrypted: Result<Counts, Failure>,
                          calls: seq<Ledger.Call>, after: seq<Ledger.ProposalRecord>)
    requires SentAs(contract, proposals, proposalId, before, r, middle, revealed)
    requires !(r.Ok? && fheInitialized) ==> calls == middle && after == revealed
    requires r.Ok? && fheInitialized ==> Decrypted(contract, revealed, proposalId, route, middle, decrypted, calls, after)
    ensures Revealing(contract, proposals, proposalId, fheInitialized, route, before, r, calls, after)
    ensures r.Ok? ==> proposalId < |proposals| && revealed == Revealed(proposals, proposalId)
  {
    var s := RevealSent(contract, proposals, proposalId);
    assert s.result == r && middle == before + s.sent && revealed == s.proposals;
    if r.Ok? && fheInitialized {
      var d := Decryption(contract, revealed, proposalId, route);
      assert decrypted == d.result && calls == middle + d.sent && after == d.proposals;
      assert calls == before + (s.sent + d.sent);
    }
  }

  /**
   * A reveal that went through leaves the proposal public for good, whatever the decryption
   * after it did, and a later reveal of it fails with the "already public" text.
   */
  lemma {:induction false} RevealStaysPublic(contract: Ledger.Zdao, proposals: seq<Ledger.ProposalRecord>, proposalId: nat,
                                             fheInitialized: bool, route: Route)
    requires Revelation(contract, proposals, proposalId, fheInitialized, route).result.Ok?
    requires Ledger.EstimateMakePublic(proposalId) !in contract.faults
    ensures var after := Revelation(contract, proposals, proposalId, fheInitialized, route).proposals;
      proposalId < |after| && after[proposalId].isPublic &&
      RevealResult(contract.EstimateIn(after, proposalId), contract.Transact(Ledger.MakeVoteCountsPublic(proposalId),
                   Ledger.MadePublic(after, proposalId))) == Err(Raise(AlreadyPublicText))
  {
    var after := Revelation(contract, proposals, proposalId, fheInitialized, route).proposals;
    assert SameVisibility(Revealed(proposals, proposalId), after);
    assert contract.EstimateIn(after, proposalId) == Err(Raise(Ledger.AlreadyPublic));
    SecondRevealRefused();
  }

  /**
   * With FHE ready and the batch function answering, a reveal of a proposal whose tally was never
   * submitted submits a non-empty decrypted tally right after the reveal's own calls: the reveal
   * is what brings the tally on chain.
   */
  lemma {:induction false} RevealThenSubmits(contract: Ledger.Zdao, proposals: seq<Ledger.ProposalRecord>, proposalId: nat, route: Route)
    requires RevealSent(contract, proposals, proposalId).result.Ok?
    requires proposals[proposalId].publicYes == 0 && proposals[proposalId].publicNo == 0
    requires route.Batched?
    requires var d := Decryption(contract, Revealed(proposals, proposalId), proposalId, route);
      d.result.Ok? && Positive(Add(d.result.value.yes, d.result.value.no))
    ensures SubmitsIn(Revelation(contract, proposals, proposalId, true, route).sent, |RevealSent(contract, proposals, proposalId).sent|)
  {
    var s := RevealSent(contract, proposals, proposalId);
    var d := Decryption(contract, Revealed(proposals, proposalId), proposalId, route);
    DecryptionSubmitsWhenDue(contract, Revealed(proposals, proposalId), proposalId, route);
    var k :| 0 <= k < |d.sent| && d.sent[k].SubmitDecryptedVoteCounts?;
    assert (s.sent + d.sent)[|s.sent| + k] == d.sent[k];
  }

  /** The pre-check reads, the gas estimate and the transaction of `makeVoteCountsPublic`. */
  method SendReveal(contract: Ledger.Zdao, proposalId: nat) returns (r: Result<(), Failure>)
    modifies contract
    ensures SentAs(contract, old(contract.proposals), proposalId, old(contract.calls), r, contract.calls, contract.proposals)
  {
    ghost var checked := PreCheck(contract, contract.proposals, proposalId) + [Ledger.EstimateMakePublic(proposalId)];
    var proposal := contract.ReadProposal(proposalId);
    if proposal.Ok? {
      // an "already public" answer here is caught and only logged
      var published := contract.ReadPublicVoteCounts(proposalId);
    }
    var estimate := contract.EstimateMakeVoteCountsPublic(proposalId);
    assert contract.calls == old(contract.calls) + checked;
    assert estimate == contract.EstimateIn(old(contract.proposals), proposalId);
    if estimate.Err? {
      return Err(RevealFailure(GasFailure(estimate.error)));
    }
    var sent := contract.SendMakeVoteCountsPublic(proposalId);
    if sent.Err? {
      return Err(RevealFailure(sent.error));
    }
    r := Ok(());
  }

  /**
   * The `try` block of `makeVoteCountsPublic`; the decryption that follows a reveal is best
   * effort, and `answer` is what the decrypt functions answered in it.
   */
  method Reveal(store: Web3State.Store, contract: Ledger.Zdao, proposalId: nat, fheInitialized: bool,
                single: FheOperations.FheClient?, multiple: FheOperations.FheClient?, now: int, ghost cache: Cache)
    returns (r: Result<(), Failure>, ghost answer: Answer)
    requires store.contract == contract
    requires cache == CacheOf(Used(single, multiple))
    modifies contract, FheFrame(single), FheFrame(multiple)
    ensures Revealing(contract, old(contract.proposals), proposalId, fheInitialized, answer.route, old(contract.calls),
                      r, contract.calls, contract.proposals)
    ensures r.Ok? && fheInitialized ==>
      AnswersReads(contract, Revealed(old(contract.proposals), proposalId), proposalId, single, multiple, cache, now, answer)
    ensures var read := r.Ok? && fheInitialized && Fetched(contract, Revealed(old(contract.proposals), proposalId), proposalId).answer.Ok?;
      (read && Available(Used(single, multiple)) ==> Used(single, multiple).storage.items == answer.cache) &&
      (!read ==> unchanged(FheFrame(single)) && unchanged(FheFrame(multiple)))
  {
    r := SendReveal(contract, proposalId);
    ghost var middle, revealed := contract.calls, contract.proposals;
    answer := Answer(Unavailable, map[]);
    ghost var decrypted: Result<Counts, Failure> := Err(Raise(ContractOrFheMissing));
    if r.Ok? && fheInitialized {
      // failures of the follow-up decryption are caught and only logged
      decrypted, answer := DecryptVoteCounts(store, proposalId, true, single, multiple, now, revealed, cache);
    }
    RevealingComposes(contract, old(contract.proposals), proposalId, fheInitialized, answer.route, old(contract.calls), r,
                      middle, revealed, decrypted, contract.calls, contract.proposals);
  }

  /**
   * `makeVoteCountsPublic(proposalId, ...)`: estimate the transaction, send it, then decrypt the
   * tally when FHE is ready, with the loading flag raised throughout. The `loadProposals`
   * refresh that follows is left to the caller.
   */
  method MakeVoteCountsPublic(store: Web3State.Store, proposalId: nat, fheInitialized: bool,
                              single: FheOperations.FheClient?, multiple: FheOperations.FheClient?, now: int)
    returns (r: Result<(), Failure>, ghost answer: Answer)
    modifies store, store.contract, FheFrame(single), FheFrame(multiple)
    ensures store.contract == old(store.contract)
    ensures !old(Connected(store)) ==>
      r == Err(Raise(WalletNotConnected)) && unchanged(store) &&
      unchanged(FheFrame(single)) && unchanged(FheFrame(multiple))
    ensures !old(Connected(store)) && store.contract != null ==> unchanged(store.contract)
    ensures old(Connected(store)) ==>
      store.GetState() == old(store.GetState()).(isLoading := false) && store.listeners == old(store.listeners) &&
      store.notified == old(store.notified) + [store.listeners, store.listeners]
    ensures old(Connected(store)) ==>
      Revealing(store.contract, old(store.contract.proposals), proposalId, fheInitialized, answer.route,
                old(store.contract.calls), r, store.contract.calls, store.contract.proposals)
    ensures old(Connected(store)) && r.Ok? && fheInitialized ==>
      AnswersReads(store.contract, Revealed(old(store.contract.proposals), proposalId), proposalId,
                   single, multiple, old(CacheOf(Used(single, multiple))), now, answer)
    ensures old(Connected(store)) ==>
      var read := r.Ok? && fheInitialized &&
        Fetched(store.contract, Revealed(old(store.contract.proposals), proposalId), proposalId).answer.Ok?;
      (read && Available(Used(single, multiple)) ==> Used(single, multiple).storage.items == answer.cache) &&
      (!read ==> unchanged(FheFrame(single)) && unchanged(FheFrame(multiple)))
  {
    if !Connected(store) {
      r, answer := Err(Raise(WalletNotConnected)), Answer(Unavailable, map[]);
      return;
    }
    var contract := store.contract;
    store.SetIsLoading(true);
    r, answer := Reveal(store, contract, proposalId, fheInitialized, single, multiple, now, old(CacheOf(Used(single, multiple))));
    store.SetIsLoading(false);
  }

  // ---------------------------------------------------------------------------------------------
  // Reads

  /** `hasUserVoted(proposalId)`: false without a wallet and on any failure. */
  method HasUserVoted(store: Web3State.Store, proposalId: nat) returns (voted: bool)
    modifies store.contract
    ensures !old(Connected(store)) ==> !voted
    ensures !old(Connected(store)) && store.contract != null ==> unchanged(store.contract)
    ensures old(Connected(store)) ==>
      store.contract.calls == old(store.contract.calls) + [Ledger.HasUserVoted(proposalId, store.account.value)] &&
      store.contract.proposals == old(store.contract.proposals) &&
      (voted <==> old(store.contract.HasVotedOf(proposalId, store.account.value)) == Ok(true))
  {
    if !Connected(store) {
      return false;
    }
    var answer := store.contract.ReadHasUserVoted(proposalId, store.account.value);
    voted := answer == Ok(true);
  }

  /** `getMyVote(proposalId)`: the caller's encrypted ballot, or a translated failure. */
  method GetMyVote(store: Web3State.Store, proposalId: nat) returns (r: Result<string, Failure>)
    modifies store.contract
    ensures !old(Connected(store)) ==> r == Err(Raise(WalletNotConnected))
    ensures !old(Connected(store)) && store.contract != null ==> unchanged(store.contract)
    ensures old(Connected(store)) ==>
      var mine := old(store.contract.MyVoteOf(proposalId, store.account.value));
      store.contract.calls == old(store.contract.calls) + [Ledger.GetMyVote(proposalId, store.account.value)] &&
      store.contract.proposals == old(store.contract.proposals) &&
      (mine.Ok? ==> r == mine) && (mine.Err? ==> r == Err(MyVoteFailure(mine.error)))
  {
    if !Connected(store) {
      return Err(Raise(WalletNotConnected));
    }
    var mine := store.contract.ReadMyVote(proposalId, store.account.value);
    if mine.Err? {
      return Err(MyVoteFailure(mine.error));
    }
    r := mine;
  }

  /** `getPublicVoteCounts(proposalId)`: any failure of the read reads as nothing published. */
  method GetPublicVoteCounts(store: Web3State.Store, proposalId: nat) returns (r: Result<Ledger.PublicCounts, Failure>)
    modifies store.contract
    ensures store.contract == null ==> r == Err(Raise(ContractNotConnected))
    ensures store.contract != null ==>
      var counts := old(store.contract.PublicCountsOf(proposalId));
      store.contract.calls == old(store.contract.calls) + [Ledger.GetPublicVoteCounts(proposalId)] &&
      store.contract.proposals == old(store.contract.proposals) &&
      r == Ok(if counts.Ok? then counts.value else Ledger.PublicCounts(0, 0, false))
  {
    if store.contract == null {
      return Err(Raise(ContractNotConnected));
    }
    var counts := store.contract.ReadPublicVoteCounts(proposalId);
    r := Ok(if counts.Ok? then counts.value else Ledger.PublicCounts(0, 0, false));
  }
}
