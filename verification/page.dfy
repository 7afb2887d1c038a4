/**
 * app/page.tsx: the state the home page keeps about the connected account's votes.
 *
 *  - `checkVotingStatus`: a single-flight check that asks the contract which proposals the
 *    account voted on, decrypts the account's own ballots in one batch and rebuilds the
 *    `userVotes` list, tracking the proposals being decrypted in an in-flight set;
 *  - `handleVote`: the replace-by-id update of `userVotes` after a vote;
 *  - the pagination slice (three proposals per page).
 *
 * The hooks the page calls are parameters: `hasUserVoted` (which never throws: it answers
 * false on any failure), `getMyVote`, and the batch `fheUserDecryptMultiple`, absent when the
 * relayer or the account is missing. `new Date()` is the parameter `now`.
 */
module Page {
  import opened Wrappers
  import opened Js
  import Web3State
  import Voting

  /** `UserVote.vote`: "yes", "no", "unknown" or "error". */
  datatype Choice = Yes | No | Unknown | Error

  datatype UserVote = UserVote(proposalId: nat, vote: Choice, votedAt: int)

  /* ---------------- Sequences filtered and keyed by proposal id ---------------- */

  /** `s.filter(p)`. */
  function Keep<T(==,!new)>(s: seq<T>, p: T -> bool): (r: seq<T>)
    ensures |r| <= |s|
    ensures forall x :: x in r <==> x in s && p(x)
  {
    if s == [] then []
    else (if p(s[0]) then [s[0]] else []) + Keep(s[1..], p)
  }

  /** Filtering a sequence that grew by one element: the loop's `push` behind a test. */
  lemma {:induction false} KeepAppend<T(!new)>(s: seq<T>, x: T, p: T -> bool)
    ensures Keep(s + [x], p) == Keep(s, p) + (if p(x) then [x] else [])
  {
    if s != [] {
      assert (s + [x])[1..] == s[1..] + [x];
      KeepAppend(s[1..], x, p);
    }
  }

  /** Filtering twice by the same test filters once. */
  lemma {:induction false} KeepTwice<T(!new)>(s: seq<T>, p: T -> bool)
    ensures Keep(Keep(s, p), p) == Keep(s, p)
  {
    if s != [] {
      KeepTwice(s[1..], p);
      if p(s[0]) {
        assert Keep(s, p) == [s[0]] + Keep(s[1..], p);
        assert ([s[0]] + Keep(s[1..], p))[1..] == Keep(s[1..], p);
        assert Keep(Keep(s, p), p) == [s[0]] + Keep(Keep(s[1..], p), p);
      } else {
        assert Keep(s, p) == [] + Keep(s[1..], p) == Keep(s[1..], p);
      }
    }
  }

  /** No two elements of `s` share a key. */
  predicate DistinctBy<T>(s: seq<T>, key: T -> nat) {
    forall j, k | 0 <= j < k < |s| :: key(s[j]) != key(s[k])
  }

  /** The keys of the elements of `s`. */
  function KeysOf<T(==,!new)>(s: seq<T>, key: T -> nat): set<nat> {
    set x | x in s :: key(x)
  }

  lemma {:induction false} KeepDistinct<T(!new)>(s: seq<T>, p: T -> bool, key: T -> nat)
    requires DistinctBy(s, key)
    ensures DistinctBy(Keep(s, p), key)
  {
    if s != [] {
      KeepDistinct(s[1..], p, key);
      var rest := Keep(s[1..], p);
      if p(s[0]) {
        var r := [s[0]] + rest;
        forall j, k | 0 <= j < k < |r| ensures key(r[j]) != key(r[k]) {
          if j == 0 {
            assert r[k] == rest[k - 1] && rest[k - 1] in s[1..];
            var m :| 0 <= m < |s[1..]| && s[1..][m] == rest[k - 1];
            assert s[m + 1] == r[k];
          } else {
            assert r[j] == rest[j - 1] && r[k] == rest[k - 1];
          }
        }
      }
    }
  }

  lemma ConcatDistinct<T(!new)>(a: seq<T>, b: seq<T>, key: T -> nat)
    requires DistinctBy(a, key) && DistinctBy(b, key) && KeysOf(a, key) !! KeysOf(b, key)
    ensures DistinctBy(a + b, key)
  {
    var r := a + b;
    forall j, k | 0 <= j < k < |r| ensures key(r[j]) != key(r[k]) {
      if j < |a| && k >= |a| {
        assert r[j] == a[j] && r[k] == b[k - |a|];
        assert key(r[j]) in KeysOf(a, key) && key(r[k]) in KeysOf(b, key);
      } else if k < |a| {
        assert r[j] == a[j] && r[k] == a[k];
      } else {
        assert r[j] == b[j - |a|] && r[k] == b[k - |a|];
      }
    }
  }

  lemma KeysOfConcat<T(!new)>(a: seq<T>, b: seq<T>, key: T -> nat)
    ensures KeysOf(a + b, key) == KeysOf(a, key) + KeysOf(b, key)
  {
    forall x | x in a + b ensures x in a || x in b {}
    forall x | x in a || x in b ensures x in a + b {}
  }

  lemma KeysOfAppend<T(!new)>(s: seq<T>, x: T, key: T -> nat)
    ensures KeysOf(s + [x], key) == KeysOf(s, key) + {key(x)}
  {
    KeysOfConcat(s, [x], key);
    assert x in [x];
  }

  function Self(n: nat): nat { n }
  function VoteKey(v: UserVote): nat { v.proposalId }
  function ViewKey(p: Web3State.ProposalView): nat { p.id }

  /** `userVotes.some((vote) => vote.proposalId === id)` for every `id` at once. */
  function VotedOn(votes: seq<UserVote>): set<nat> {
    KeysOf(votes, VoteKey)
  }

  /** One entry per element of `s`, keyed by `key`, with the same choice and date. */
  function Marked<T(==,!new)>(s: seq<T>, key: T -> nat, choice: Choice, now: int): (r: seq<UserVote>)
    ensures |r| == |s|
    ensures forall k | 0 <= k < |s| :: r[k] == UserVote(key(s[k]), choice, now)
    ensures VotedOn(r) == KeysOf(s, key)
    ensures DistinctBy(s, key) ==> DistinctBy(r, VoteKey)
  {
    var r := seq(|s|, k requires 0 <= k < |s| => UserVote(key(s[k]), choice, now));
    assert VotedOn(r) == KeysOf(s, key) by {
      forall x | x in VotedOn(r) ensures x in KeysOf(s, key) {
        var v :| v in r && v.proposalId == x;
        var k :| 0 <= k < |r| && r[k] == v;
        assert s[k] in s;
      }
      forall x | x in KeysOf(s, key) ensures x in VotedOn(r) {
        var y :| y in s && key(y) == x;
        var k :| 0 <= k < |s| && s[k] == y;
        assert r[k] in r;
      }
    }
    r
  }

  /* ---------------- checkVotingStatus as a value ---------------- */

  /** The ids of the proposals, in order: the `for (const proposal of proposals)` loop. */
  function ProposalIds(proposals: seq<Web3State.ProposalView>): (r: seq<nat>)
    ensures |r| == |proposals| && forall k | 0 <= k < |r| :: r[k] == proposals[k].id
  {
    seq(|proposals|, k requires 0 <= k < |proposals| => proposals[k].id)
  }

  /** `votedProposals`: the ids `hasUserVoted` answers true for. */
  function Voted(proposals: seq<Web3State.ProposalView>, hasUserVoted: nat -> bool): seq<nat> {
    Keep(ProposalIds(proposals), hasUserVoted)
  }

  /** `existingVotes`: the entries already held for proposals still reported as voted. */
  function Existing(userVotes: seq<UserVote>, voted: seq<nat>): (r: seq<UserVote>)
    ensures forall v :: v in r <==> v in userVotes && v.proposalId in voted
  {
    Keep(userVotes, (v: UserVote) => v.proposalId in voted)
  }

  /** `newProposals`: voted ids with no entry yet that are not already being decrypted. */
  function Fresh(voted: seq<nat>, userVotes: seq<UserVote>, decrypting: set<nat>): (r: seq<nat>)
    ensures forall id :: id in r <==> id in voted && id !in VotedOn(userVotes) && id !in decrypting
  {
    Keep(voted, id => id !in VotedOn(userVotes) && id !in decrypting)
  }

  /** `encryptedVotesResults`: each new id with its `getMyVote` answer, in order. */
  function Fetched(newIds: seq<nat>, getMyVote: nat -> Result<string, Failure>): (r: seq<(nat, Result<string, Failure>)>)
    ensures |r| == |newIds| && forall k | 0 <= k < |r| :: r[k] == (newIds[k], getMyVote(newIds[k]))
  {
    seq(|newIds|, k requires 0 <= k < |newIds| => (newIds[k], getMyVote(newIds[k])))
  }

  function PairKey(x: (nat, Result<string, Failure>)): nat { x.0 }
  function HandleKey(x: (nat, string)): nat { x.0 }

  /** `errorProposals`: the fetches that failed. */
  predicate FetchFailed(x: (nat, Result<string, Failure>)) { x.1.Err? }

  /** A fetch with a key distinct from the rest can lead the filtered rest. */
  lemma ValidConsDistinct(fetched: seq<(nat, Result<string, Failure>)>, h: string, rest: seq<(nat, string)>)
    requires |fetched| > 0 && DistinctBy(fetched, PairKey)
    requires forall x :: x in rest <==> (x.0, Ok(x.1)) in fetched[1..]
    requires DistinctBy(rest, HandleKey)
    ensures DistinctBy([(fetched[0].0, h)] + rest, HandleKey)
  {
    var r := [(fetched[0].0, h)] + rest;
    forall j, k | 0 <= j < k < |r| ensures HandleKey(r[j]) != HandleKey(r[k]) {
      assert r[k] == rest[k - 1];
      if j == 0 {
        assert rest[k - 1] in rest;
        var m :| 0 <= m < |fetched[1..]| && fetched[1..][m] == (rest[k - 1].0, Ok(rest[k - 1].1));
        assert fetched[m + 1] == fetched[1..][m];
        assert PairKey(fetched[0]) != PairKey(fetched[m + 1]);
      } else {
        assert r[j] == rest[j - 1];
      }
    }
  }

  /** Dropping the first element keeps the keys distinct. */
  lemma DistinctTail<T>(s: seq<T>, key: T -> nat)
    requires |s| > 0 && DistinctBy(s, key)
    ensures DistinctBy(s[1..], key)
  {
    forall j, k | 0 <= j < k < |s| - 1 ensures key(s[1..][j]) != key(s[1..][k]) {
      assert s[1..][j] == s[j + 1] && s[1..][k] == s[k + 1];
    }
  }

  /** `validEncryptedVotes`: the fetches that answered, with their handles. */
  function Valid(fetched: seq<(nat, Result<string, Failure>)>): (r: seq<(nat, string)>)
    ensures forall x :: x in r <==> (x.0, Ok(x.1)) in fetched
    ensures DistinctBy(fetched, PairKey) ==> DistinctBy(r, HandleKey)
  {
    if fetched == [] then []
    else
      var rest := Valid(fetched[1..]);
      assert fetched == [fetched[0]] + fetched[1..];
      match fetched[0].1
      case Err(_) =>
        assert DistinctBy(fetched, PairKey) ==> DistinctBy(fetched[1..], PairKey) by {
          if DistinctBy(fetched, PairKey) {
            DistinctTail(fetched, PairKey);
          }
        }
        rest
      case Ok(h) =>
        assert DistinctBy(fetched, PairKey) ==> DistinctBy([(fetched[0].0, h)] + rest, HandleKey) by {
          if DistinctBy(fetched, PairKey) {
            DistinctTail(fetched, PairKey);
            ValidConsDistinct(fetched, h, rest);
          }
        }
        [(fetched[0].0, h)] + rest
  }

  /** `encryptedValues`: the handles sent to the batch decryption. */
  function Handles(valid: seq<(nat, string)>): (r: seq<string>)
    ensures |r| == |valid| && forall k | 0 <= k < |r| :: r[k] == valid[k].1
  {
    seq(|valid|, k requires 0 <= k < |valid| => valid[k].1)
  }

  /** A decrypted ballot: 0 is "yes", any other number (NaN too) "no", a missing value "error". */
  function ChoiceOf(clear: map<string, Numeric>, handle: string): (c: Choice)
    ensures c == Error <==> handle !in clear
    ensures c == Yes <==> handle in clear && clear[handle] == Int(0)
    ensures c == No <==> handle in clear && clear[handle] != Int(0)
  {
    if handle !in clear then Error else if clear[handle] == Int(0) then Yes else No
  }

  /** The entries of a successful batch, one per valid fetch, in order. */
  function Decoded(valid: seq<(nat, string)>, clear: map<string, Numeric>, now: int): (r: seq<UserVote>)
    ensures |r| == |valid|
    ensures forall k | 0 <= k < |valid| :: r[k] == UserVote(valid[k].0, ChoiceOf(clear, valid[k].1), now)
    ensures VotedOn(r) == KeysOf(valid, HandleKey)
    ensures DistinctBy(valid, HandleKey) ==> DistinctBy(r, VoteKey)
  {
    var r := seq(|valid|, k requires 0 <= k < |valid| => UserVote(valid[k].0, ChoiceOf(clear, valid[k].1), now));
    assert VotedOn(r) == KeysOf(valid, HandleKey) by {
      forall x | x in VotedOn(r) ensures x in KeysOf(valid, HandleKey) {
        var v :| v in r && v.proposalId == x;
        var k :| 0 <= k < |r| && r[k] == v;
        assert valid[k] in valid;
      }
      forall x | x in KeysOf(valid, HandleKey) ensures x in VotedOn(r) {
        var y :| y in valid && y.0 == x;
        var k :| 0 <= k < |valid| && valid[k] == y;
        assert r[k] in r;
      }
    }
    r
  }

  /** Decoding one more valid fetch appends its entry. */
  lemma DecodedAppend(valid: seq<(nat, string)>, x: (nat, string), clear: map<string, Numeric>, now: int)
    ensures Decoded(valid + [x], clear, now) == Decoded(valid, clear, now) + [UserVote(x.0, ChoiceOf(clear, x.1), now)]
  {
    var r := Decoded(valid + [x], clear, now);
    assert forall k | 0 <= k < |valid| :: r[k] == Decoded(valid, clear, now)[k];
  }

  /** `remainingProposals`: the new ids the list has no entry for yet. */
  function Remaining(newIds: seq<nat>, votes: seq<UserVote>): (r: seq<nat>)
    ensures forall id :: id in r <==> id in newIds && id !in VotedOn(votes)
  {
    Keep(newIds, id => id !in VotedOn(votes))
  }

  /** The handles the batch decryption of a check receives. */
  function BatchHandles(userVotes: seq<UserVote>, decrypting: set<nat>, proposals: seq<Web3State.ProposalView>,
                        hasUserVoted: nat -> bool, getMyVote: nat -> Result<string, Failure>): seq<string>
  {
    var voted := Voted(proposals, hasUserVoted);
    Handles(Valid(Fetched(Fresh(voted, userVotes, decrypting), getMyVote)))
  }

  /**
   * The batch branch after `votes`: an "error" for each failed fetch, then the decrypted
   * choices, or "error" for every new id still without an entry when the batch fails.
   */
  function Resolved(votes: seq<UserVote>, newIds: seq<nat>, getMyVote: nat -> Result<string, Failure>,
                    decrypt: seq<string> -> Result<map<string, Numeric>, Failure>, now: int): seq<UserVote>
  {
    var fetched := Fetched(newIds, getMyVote);
    var valid := Valid(fetched);
    var errors := votes + Marked(Keep(fetched, FetchFailed), PairKey, Error, now);
    if |valid| == 0 then errors
    else match decrypt(Handles(valid))
      case Ok(clear) => errors + Decoded(valid, clear, now)
      case Err(_) => errors + Marked(Remaining(newIds, errors), Self, Error, now)
  }

  /**
   * The list `checkVotingStatus` stores: the entries kept for proposals still voted on, then the
   * new ids resolved by the batch decryption, or each listed as "unknown" without one.
   */
  function VotingStatus(userVotes: seq<UserVote>, decrypting: set<nat>, proposals: seq<Web3State.ProposalView>,
                        hasUserVoted: nat -> bool, getMyVote: nat -> Result<string, Failure>, fheInitialized: bool,
                        decrypt: Option<seq<string> -> Result<map<string, Numeric>, Failure>>, now: int): seq<UserVote>
  {
    var voted := Voted(proposals, hasUserVoted);
    if |voted| == 0 then []
    else
      var existing := Existing(userVotes, voted);
      var newIds := Fresh(voted, userVotes, decrypting);
      if |newIds| == 0 then existing
      else if fheInitialized && decrypt.Some? then Resolved(existing, newIds, getMyVote, decrypt.value, now)
      else existing + Marked(newIds, Self, Unknown, now)
  }

  /** Proposal `id` gets a new entry in a check: voted, no entry yet, not being decrypted. */
  predicate Pending(userVotes: seq<UserVote>, decrypting: set<nat>, proposals: seq<Web3State.ProposalView>,
                    hasUserVoted: nat -> bool, id: nat)
  {
    id in ProposalIds(proposals) && hasUserVoted(id) && id !in VotedOn(userVotes) && id !in decrypting
  }

  /* ---------------- What a check stores ---------------- */

  lemma SelfKeys(s: seq<nat>)
    ensures forall id :: id in KeysOf(s, Self) <==> id in s
  {
    forall id | id in s ensures id in KeysOf(s, Self) {
      assert Self(id) == id;
    }
  }

  /** The new ids are exactly those that failed to fetch and those that fetched. */
  lemma FetchesCover(newIds: seq<nat>, getMyVote: nat -> Result<string, Failure>)
    ensures KeysOf(Keep(Fetched(newIds, getMyVote), FetchFailed), PairKey) + KeysOf(Valid(Fetched(newIds, getMyVote)), HandleKey) ==
      KeysOf(newIds, Self)
  {
    var fetched := Fetched(newIds, getMyVote);
    SelfKeys(newIds);
    forall id | id in newIds
      ensures id in KeysOf(Keep(fetched, FetchFailed), PairKey) + KeysOf(Valid(fetched), HandleKey)
    {
      var k :| 0 <= k < |newIds| && newIds[k] == id;
      assert fetched[k] in fetched;
      if getMyVote(id).Err? {
        assert fetched[k] in Keep(fetched, FetchFailed);
      } else {
        assert (id, getMyVote(id).value) in Valid(fetched);
      }
    }
    forall id | id in KeysOf(Keep(fetched, FetchFailed), PairKey) + KeysOf(Valid(fetched), HandleKey)
      ensures id in newIds
    {
      if id in KeysOf(Keep(fetched, FetchFailed), PairKey) {
        var x :| x in Keep(fetched, FetchFailed) && x.0 == id;
        var k :| 0 <= k < |fetched| && fetched[k] == x;
      } else {
        var x :| x in Valid(fetched) && x.0 == id;
        var k :| 0 <= k < |fetched| && fetched[k] == (x.0, Ok(x.1));
      }
    }
  }

  /** The failed fetches and the valid ones are about different proposals. */
  lemma FetchesApart(newIds: seq<nat>, getMyVote: nat -> Result<string, Failure>)
    ensures KeysOf(Keep(Fetched(newIds, getMyVote), FetchFailed), PairKey) !! KeysOf(Valid(Fetched(newIds, getMyVote)), HandleKey)
  {
    var fetched := Fetched(newIds, getMyVote);
    forall y | y in Valid(fetched) ensures getMyVote(y.0).Ok? {
      var m :| 0 <= m < |fetched| && fetched[m] == (y.0, Ok(y.1));
    }
    forall id | id in KeysOf(Keep(fetched, FetchFailed), PairKey) ensures getMyVote(id).Err? {
      var x :| x in Keep(fetched, FetchFailed) && x.0 == id;
      var k :| 0 <= k < |fetched| && fetched[k] == x;
    }
  }

  lemma FreshIn(voted: seq<nat>, userVotes: seq<UserVote>, decrypting: set<nat>)
    ensures KeysOf(Fresh(voted, userVotes, decrypting), Self) !! VotedOn(userVotes)
    ensures KeysOf(Fresh(voted, userVotes, decrypting), Self) !! decrypting
    ensures forall id | id in Fresh(voted, userVotes, decrypting) :: id in voted
  {
    SelfKeys(Fresh(voted, userVotes, decrypting));
  }

  lemma ExistingIn(userVotes: seq<UserVote>, voted: seq<nat>)
    ensures VotedOn(Existing(userVotes, voted)) <= VotedOn(userVotes)
    ensures forall id | id in VotedOn(Existing(userVotes, voted)) :: id in voted
  {
    forall id | id in VotedOn(Existing(userVotes, voted)) ensures id in VotedOn(userVotes) && id in voted {
      var v :| v in Existing(userVotes, voted) && v.proposalId == id;
    }
  }

  /** On a failed batch the ids still without an entry are exactly the valid fetches. */
  lemma RemainingAreValid(votes: seq<UserVote>, newIds: seq<nat>, getMyVote: nat -> Result<string, Failure>, now: int)
    requires VotedOn(votes) !! KeysOf(newIds, Self)
    ensures var fetched := Fetched(newIds, getMyVote);
      var errors := votes + Marked(Keep(fetched, FetchFailed), PairKey, Error, now);
      KeysOf(Remaining(newIds, errors), Self) == KeysOf(Valid(fetched), HandleKey)
  {
    var fetched := Fetched(newIds, getMyVote);
    var problems := Keep(fetched, FetchFailed);
    var errors := votes + Marked(problems, PairKey, Error, now);
    KeysOfConcat(votes, Marked(problems, PairKey, Error, now), VoteKey);
    FetchesCover(newIds, getMyVote);
    FetchesApart(newIds, getMyVote);
    SelfKeys(newIds);
    SelfKeys(Remaining(newIds, errors));
  }

  /** Whatever the batch answers, the batch branch gives every new id an entry and no other id. */
  lemma ResolvedCovers(votes: seq<UserVote>, newIds: seq<nat>, getMyVote: nat -> Result<string, Failure>,
                       decrypt: seq<string> -> Result<map<string, Numeric>, Failure>, now: int)
    requires VotedOn(votes) !! KeysOf(newIds, Self)
    ensures VotedOn(Resolved(votes, newIds, getMyVote, decrypt, now)) == VotedOn(votes) + KeysOf(newIds, Self)
  {
    var fetched := Fetched(newIds, getMyVote);
    var valid := Valid(fetched);
    var problems := Keep(fetched, FetchFailed);
    var errors := votes + Marked(problems, PairKey, Error, now);
    FetchesCover(newIds, getMyVote);
    KeysOfConcat(votes, Marked(problems, PairKey, Error, now), VoteKey);
    if |valid| == 0 {
      assert KeysOf(valid, HandleKey) == {};
    } else {
      match decrypt(Handles(valid))
      case Ok(clear) =>
        KeysOfConcat(errors, Decoded(valid, clear, now), VoteKey);
      case Err(_) =>
        RemainingAreValid(votes, newIds, getMyVote, now);
        KeysOfConcat(errors, Marked(Remaining(newIds, errors), Self, Error, now), VoteKey);
    }
  }

  /** The ids a check lists split into those whose entry is kept and the new ones. */
  lemma StatusParts(userVotes: seq<UserVote>, decrypting: set<nat>, proposals: seq<Web3State.ProposalView>,
                    hasUserVoted: nat -> bool)
    ensures (set id | id in ProposalIds(proposals) && hasUserVoted(id) && (id in VotedOn(userVotes) || id !in decrypting)) ==
      VotedOn(Existing(userVotes, Voted(proposals, hasUserVoted))) + KeysOf(Fresh(Voted(proposals, hasUserVoted), userVotes, decrypting), Self)
  {
    var voted := Voted(proposals, hasUserVoted);
    var existing := Existing(userVotes, voted);
    var newIds := Fresh(voted, userVotes, decrypting);
    ExistingIn(userVotes, voted);
    FreshIn(voted, userVotes, decrypting);
    SelfKeys(newIds);
    assert VotedOn(existing) == set id | id in voted && id in VotedOn(userVotes) by {
      forall id | id in voted && id in VotedOn(userVotes) ensures id in VotedOn(existing) {
        var v :| v in userVotes && v.proposalId == id;
        assert v in existing;
      }
    }
  }

  /** A check lists exactly the voted proposals that had an entry or were not being decrypted. */
  lemma StatusCovers(userVotes: seq<UserVote>, decrypting: set<nat>, proposals: seq<Web3State.ProposalView>,
                     hasUserVoted: nat -> bool, getMyVote: nat -> Result<string, Failure>, fheInitialized: bool,
                     decrypt: Option<seq<string> -> Result<map<string, Numeric>, Failure>>, now: int)
    ensures VotedOn(VotingStatus(userVotes, decrypting, proposals, hasUserVoted, getMyVote, fheInitialized, decrypt, now)) ==
      set id | id in ProposalIds(proposals) && hasUserVoted(id) && (id in VotedOn(userVotes) || id !in decrypting)
  {
    var voted := Voted(proposals, hasUserVoted);
    var wanted := set id | id in ProposalIds(proposals) && hasUserVoted(id) && (id in VotedOn(userVotes) || id !in decrypting);
    var existing := Existing(userVotes, voted);
    var newIds := Fresh(voted, userVotes, decrypting);
    StatusParts(userVotes, decrypting, proposals, hasUserVoted);
    if |voted| == 0 {
      assert wanted == {} by {
        forall id | id in ProposalIds(proposals) && hasUserVoted(id) ensures id in voted {}
      }
    } else if |newIds| == 0 {
      assert KeysOf(newIds, Self) == {};
    } else if fheInitialized && decrypt.Some? {
      ResolvedCovers(existing, newIds, getMyVote, decrypt.value, now);
    } else {
      KeysOfConcat(existing, Marked(newIds, Self, Unknown, now), VoteKey);
    }
  }

  /** With distinct held entries apart from the new ids, the batch branch keeps ids distinct. */
  lemma ResolvedDistinct(votes: seq<UserVote>, newIds: seq<nat>, getMyVote: nat -> Result<string, Failure>,
                         decrypt: seq<string> -> Result<map<string, Numeric>, Failure>, now: int)
    requires DistinctBy(votes, VoteKey) && DistinctBy(newIds, Self) && VotedOn(votes) !! KeysOf(newIds, Self)
    ensures DistinctBy(Resolved(votes, newIds, getMyVote, decrypt, now), VoteKey)
  {
    var fetched := Fetched(newIds, getMyVote);
    assert DistinctBy(fetched, PairKey) by {
      forall j, k | 0 <= j < k < |fetched| ensures PairKey(fetched[j]) != PairKey(fetched[k]) {
        assert Self(newIds[j]) != Self(newIds[k]);
      }
    }
    var valid := Valid(fetched);
    var problems := Keep(fetched, FetchFailed);
    KeepDistinct(fetched, FetchFailed, PairKey);
    var marked := Marked(problems, PairKey, Error, now);
    FetchesCover(newIds, getMyVote);
    FetchesApart(newIds, getMyVote);
    ConcatDistinct(votes, marked, VoteKey);
    var errors := votes + marked;
    KeysOfConcat(votes, marked, VoteKey);
    if |valid| > 0 {
      match decrypt(Handles(valid))
      case Ok(clear) =>
        ConcatDistinct(errors, Decoded(valid, clear, now), VoteKey);
      case Err(_) =>
        var remaining := Remaining(newIds, errors);
        KeepDistinct(newIds, id => id !in VotedOn(errors), Self);
        RemainingAreValid(votes, newIds, getMyVote, now);
        ConcatDistinct(errors, Marked(remaining, Self, Error, now), VoteKey);
    }
  }

  /** With distinct proposal ids and distinct held entries, a check stores at most one entry per proposal. */
  lemma StatusDistinct(userVotes: seq<UserVote>, decrypting: set<nat>, proposals: seq<Web3State.ProposalView>,
                       hasUserVoted: nat -> bool, getMyVote: nat -> Result<string, Failure>, fheInitialized: bool,
                       decrypt: Option<seq<string> -> Result<map<string, Numeric>, Failure>>, now: int)
    requires DistinctBy(proposals, ViewKey) && DistinctBy(userVotes, VoteKey)
    ensures DistinctBy(VotingStatus(userVotes, decrypting, proposals, hasUserVoted, getMyVote, fheInitialized, decrypt, now), VoteKey)
  {
    var ids := ProposalIds(proposals);
    assert DistinctBy(ids, Self) by {
      forall j, k | 0 <= j < k < |ids| ensures Self(ids[j]) != Self(ids[k]) {
        assert ViewKey(proposals[j]) != ViewKey(proposals[k]);
      }
    }
    var voted := Voted(proposals, hasUserVoted);
    KeepDistinct(ids, hasUserVoted, Self);
    var existing := Existing(userVotes, voted);
    KeepDistinct(userVotes, (v: UserVote) => v.proposalId in voted, VoteKey);
    var newIds := Fresh(voted, userVotes, decrypting);
    KeepDistinct(voted, id => id !in VotedOn(userVotes) && id !in decrypting, Self);
    ExistingIn(userVotes, voted);
    FreshIn(voted, userVotes, decrypting);
    if |voted| > 0 && |newIds| > 0 {
      if fheInitialized && decrypt.Some? {
        ResolvedDistinct(existing, newIds, getMyVote, decrypt.value, now);
      } else {
        ConcatDistinct(existing, Marked(newIds, Self, Unknown, now), VoteKey);
      }
    }
  }

  /** An entry held for a proposal still reported as voted is kept as it is. */
  lemma ExistingKept(userVotes: seq<UserVote>, decrypting: set<nat>, proposals: seq<Web3State.ProposalView>,
                     hasUserVoted: nat -> bool, getMyVote: nat -> Result<string, Failure>, fheInitialized: bool,
                     decrypt: Option<seq<string> -> Result<map<string, Numeric>, Failure>>, now: int, v: UserVote)
    requires v in userVotes && v.proposalId in ProposalIds(proposals) && hasUserVoted(v.proposalId)
    ensures v in VotingStatus(userVotes, decrypting, proposals, hasUserVoted, getMyVote, fheInitialized, decrypt, now)
  {
    var voted := Voted(proposals, hasUserVoted);
    assert v in Existing(userVotes, voted);
  }

  /** Without a batch decryption every new proposal is listed as "unknown". */
  lemma UndecryptedUnknown(userVotes: seq<UserVote>, decrypting: set<nat>, proposals: seq<Web3State.ProposalView>,
                           hasUserVoted: nat -> bool, getMyVote: nat -> Result<string, Failure>, fheInitialized: bool,
                           decrypt: Option<seq<string> -> Result<map<string, Numeric>, Failure>>, now: int, id: nat)
    requires !(fheInitialized && decrypt.Some?)
    requires Pending(userVotes, decrypting, proposals, hasUserVoted, id)
    ensures UserVote(id, Unknown, now) in VotingStatus(userVotes, decrypting, proposals, hasUserVoted, getMyVote, fheInitialized, decrypt, now)
  {
    var voted := Voted(proposals, hasUserVoted);
    var newIds := Fresh(voted, userVotes, decrypting);
    assert id in newIds;
    var k :| 0 <= k < |newIds| && newIds[k] == id;
    assert Marked(newIds, Self, Unknown, now)[k] == UserVote(id, Unknown, now);
  }

  /** A failed `getMyVote` lists that proposal as "error". */
  lemma FailedFetchIsError(userVotes: seq<UserVote>, decrypting: set<nat>, proposals: seq<Web3State.ProposalView>,
                           hasUserVoted: nat -> bool, getMyVote: nat -> Result<string, Failure>,
                           decrypt: seq<string> -> Result<map<string, Numeric>, Failure>, now: int, id: nat)
    requires Pending(userVotes, decrypting, proposals, hasUserVoted, id) && getMyVote(id).Err?
    ensures UserVote(id, Error, now) in VotingStatus(userVotes, decrypting, proposals, hasUserVoted, getMyVote, true, Some(decrypt), now)
  {
    var voted := Voted(proposals, hasUserVoted);
    var newIds := Fresh(voted, userVotes, decrypting);
    PendingResolved(userVotes, decrypting, proposals, hasUserVoted, getMyVote, decrypt, now, id);
    FailedFetchMarked(newIds, getMyVote, id, now);
    ResolvedKeepsErrors(Existing(userVotes, voted), newIds, getMyVote, decrypt, now);
  }

  /** A pending proposal is one of the new ids, and with FHE ready the check takes the batch branch. */
  lemma PendingResolved(userVotes: seq<UserVote>, decrypting: set<nat>, proposals: seq<Web3State.ProposalView>,
                        hasUserVoted: nat -> bool, getMyVote: nat -> Result<string, Failure>,
                        decrypt: seq<string> -> Result<map<string, Numeric>, Failure>, now: int, id: nat)
    requires Pending(userVotes, decrypting, proposals, hasUserVoted, id)
    ensures id in Fresh(Voted(proposals, hasUserVoted), userVotes, decrypting)
    ensures VotingStatus(userVotes, decrypting, proposals, hasUserVoted, getMyVote, true, Some(decrypt), now) ==
      Resolved(Existing(userVotes, Voted(proposals, hasUserVoted)), Fresh(Voted(proposals, hasUserVoted), userVotes, decrypting),
               getMyVote, decrypt, now)
  {
    var voted := Voted(proposals, hasUserVoted);
    assert id in voted;
    assert id in Fresh(voted, userVotes, decrypting);
  }

  /** A new id whose fetch failed is among the "error" entries of the batch branch. */
  lemma FailedFetchMarked(newIds: seq<nat>, getMyVote: nat -> Result<string, Failure>, id: nat, now: int)
    requires id in newIds && getMyVote(id).Err?
    ensures UserVote(id, Error, now) in Marked(Keep(Fetched(newIds, getMyVote), FetchFailed), PairKey, Error, now)
  {
    var fetched := Fetched(newIds, getMyVote);
    var k :| 0 <= k < |newIds| && newIds[k] == id;
    var problems := Keep(fetched, FetchFailed);
    assert fetched[k] in problems;
    var m :| 0 <= m < |problems| && problems[m] == fetched[k];
    assert Marked(problems, PairKey, Error, now)[m] == UserVote(id, Error, now);
  }

  /** The batch branch keeps the entries it starts from and the "error" entries of failed fetches, in front. */
  lemma ResolvedKeepsErrors(votes: seq<UserVote>, newIds: seq<nat>, getMyVote: nat -> Result<string, Failure>,
                            decrypt: seq<string> -> Result<map<string, Numeric>, Failure>, now: int)
    ensures votes + Marked(Keep(Fetched(newIds, getMyVote), FetchFailed), PairKey, Error, now) <=
      Resolved(votes, newIds, getMyVote, decrypt, now)
  {
  }

  /** A new id that fetched is among the valid fetches, with its handle. */
  lemma FetchedIsValid(newIds: seq<nat>, getMyVote: nat -> Result<string, Failure>, id: nat)
    requires id in newIds && getMyVote(id).Ok?
    ensures (id, getMyVote(id).value) in Valid(Fetched(newIds, getMyVote))
  {
    var k :| 0 <= k < |newIds| && newIds[k] == id;
    assert Fetched(newIds, getMyVote)[k] == (id, Ok(getMyVote(id).value));
  }

  /** After a successful batch, a new id that fetched is listed with its decrypted choice. */
  lemma ResolvedDecoded(votes: seq<UserVote>, newIds: seq<nat>, getMyVote: nat -> Result<string, Failure>,
                        decrypt: seq<string> -> Result<map<string, Numeric>, Failure>, now: int, id: nat, clear: map<string, Numeric>)
    requires id in newIds && getMyVote(id).Ok?
    requires decrypt(Handles(Valid(Fetched(newIds, getMyVote)))) == Ok(clear)
    ensures UserVote(id, ChoiceOf(clear, getMyVote(id).value), now) in Resolved(votes, newIds, getMyVote, decrypt, now)
  {
    var valid := Valid(Fetched(newIds, getMyVote));
    FetchedIsValid(newIds, getMyVote, id);
    var m :| 0 <= m < |valid| && valid[m] == (id, getMyVote(id).value);
    assert Decoded(valid, clear, now)[m] == UserVote(id, ChoiceOf(clear, getMyVote(id).value), now);
  }

  /** After a failed batch, a new id that fetched is listed as "error". */
  lemma ResolvedBatchFailed(votes: seq<UserVote>, newIds: seq<nat>, getMyVote: nat -> Result<string, Failure>,
                            decrypt: seq<string> -> Result<map<string, Numeric>, Failure>, now: int, id: nat)
    requires id in newIds && getMyVote(id).Ok?
    requires VotedOn(votes) !! KeysOf(newIds, Self)
    requires decrypt(Handles(Valid(Fetched(newIds, getMyVote)))).Err?
    ensures UserVote(id, Error, now) in Resolved(votes, newIds, getMyVote, decrypt, now)
  {
    var fetched := Fetched(newIds, getMyVote);
    var valid := Valid(fetched);
    FetchedIsValid(newIds, getMyVote, id);
    assert id in KeysOf(valid, HandleKey);
    var errors := votes + Marked(Keep(fetched, FetchFailed), PairKey, Error, now);
    RemainingAreValid(votes, newIds, getMyVote, now);
    var remaining := Remaining(newIds, errors);
    SelfKeys(remaining);
    var m :| 0 <= m < |remaining| && remaining[m] == id;
    assert Marked(remaining, Self, Error, now)[m] == UserVote(id, Error, now);
  }

  /** A ballot that fetched and decrypted is listed with its choice: 0 is "yes", anything else "no". */
  lemma DecryptedChoice(userVotes: seq<UserVote>, decrypting: set<nat>, proposals: seq<Web3State.ProposalView>,
                        hasUserVoted: nat -> bool, getMyVote: nat -> Result<string, Failure>,
                        decrypt: seq<string> -> Result<map<string, Numeric>, Failure>, now: int, id: nat, clear: map<string, Numeric>)
    requires Pending(userVotes, decrypting, proposals, hasUserVoted, id) && getMyVote(id).Ok?
    requires decrypt(BatchHandles(userVotes, decrypting, proposals, hasUserVoted, getMyVote)) == Ok(clear)
    requires getMyVote(id).value in clear
    ensures UserVote(id, if clear[getMyVote(id).value] == Int(0) then Yes else No, now) in
      VotingStatus(userVotes, decrypting, proposals, hasUserVoted, getMyVote, true, Some(decrypt), now)
  {
    var voted := Voted(proposals, hasUserVoted);
    var newIds := Fresh(voted, userVotes, decrypting);
    PendingResolved(userVotes, decrypting, proposals, hasUserVoted, getMyVote, decrypt, now, id);
    ResolvedDecoded(Existing(userVotes, voted), newIds, getMyVote, decrypt, now, id, clear);
  }

  /** When the batch decryption fails, every new proposal is listed as "error". */
  lemma FailedBatchIsError(userVotes: seq<UserVote>, decrypting: set<nat>, proposals: seq<Web3State.ProposalView>,
                           hasUserVoted: nat -> bool, getMyVote: nat -> Result<string, Failure>,
                           decrypt: seq<string> -> Result<map<string, Numeric>, Failure>, now: int, id: nat)
    requires Pending(userVotes, decrypting, proposals, hasUserVoted, id)
    requires decrypt(BatchHandles(userVotes, decrypting, proposals, hasUserVoted, getMyVote)).Err?
    ensures UserVote(id, Error, now) in VotingStatus(userVotes, decrypting, proposals, hasUserVoted, getMyVote, true, Some(decrypt), now)
  {
    if getMyVote(id).Err? {
      FailedFetchIsError(userVotes, decrypting, proposals, hasUserVoted, getMyVote, decrypt, now, id);
    } else {
      var voted := Voted(proposals, hasUserVoted);
      var newIds := Fresh(voted, userVotes, decrypting);
      var existing := Existing(userVotes, voted);
      PendingResolved(userVotes, decrypting, proposals, hasUserVoted, getMyVote, decrypt, now, id);
      ExistingIn(userVotes, voted);
      FreshIn(voted, userVotes, decrypting);
      ResolvedBatchFailed(existing, newIds, getMyVote, decrypt, now, id);
    }
  }

  /* ---------------- checkVotingStatus in place ---------------- */

  /** The page's refs and `userVotes` state. */
  class VoteStatus {
    /** `isCheckingVotesRef.current` */
    var checking: bool
    /** `decryptingProposalsRef.current` */
    var decrypting: set<nat>
    var userVotes: seq<UserVote>

    constructor()
      ensures !checking && decrypting == {} && userVotes == []
    {
      checking := false;
      decrypting := {};
      userVotes := [];
    }

    /** The `hasUserVoted` loop that fills `votedProposals`. */
    static method CollectVoted(proposals: seq<Web3State.ProposalView>, hasUserVoted: nat -> bool) returns (voted: seq<nat>)
      ensures voted == Voted(proposals, hasUserVoted)
    {
      voted := [];
      var i := 0;
      while i < |proposals|
        invariant 0 <= i <= |proposals|
        invariant voted == Keep(ProposalIds(proposals)[..i], hasUserVoted)
      {
        assert ProposalIds(proposals)[..i + 1] == ProposalIds(proposals)[..i] + [proposals[i].id];
        KeepAppend(ProposalIds(proposals)[..i], proposals[i].id, hasUserVoted);
        if hasUserVoted(proposals[i].id) {
          voted := voted + [proposals[i].id];
        }
        i := i + 1;
      }
      assert ProposalIds(proposals)[..i] == ProposalIds(proposals);
    }

    /** `newProposals.forEach((id) => decryptingProposalsRef.current.add(id))`. */
    method Mark(newIds: seq<nat>)
      modifies this`decrypting
      ensures decrypting == old(decrypting) + KeysOf(newIds, Self)
    {
      var i := 0;
      while i < |newIds|
        invariant 0 <= i <= |newIds|
        invariant decrypting == old(decrypting) + KeysOf(newIds[..i], Self)
      {
        assert newIds[..i + 1] == newIds[..i] + [newIds[i]];
        KeysOfConcat(newIds[..i], [newIds[i]], Self);
        assert newIds[i] in [newIds[i]];
        assert KeysOf([newIds[i]], Self) == {newIds[i]};
        decrypting := decrypting + {newIds[i]};
        i := i + 1;
      }
      assert newIds[..i] == newIds;
    }

    /** A loop that pushes one entry with the same choice per element and drops its id from the in-flight set. */
    method Settle<T(==,!new)>(votes: seq<UserVote>, items: seq<T>, key: T -> nat, choice: Choice, now: int) returns (out: seq<UserVote>)
      modifies this`decrypting
      ensures out == votes + Marked(items, key, choice, now)
      ensures decrypting == old(decrypting) - KeysOf(items, key)
    {
      out := votes;
      var i := 0;
      while i < |items|
        invariant 0 <= i <= |items|
        invariant out == votes + Marked(items[..i], key, choice, now)
        invariant decrypting == old(decrypting) - KeysOf(items[..i], key)
      {
        assert items[..i + 1] == items[..i] + [items[i]];
        KeysOfConcat(items[..i], [items[i]], key);
        assert items[i] in [items[i]];
        assert KeysOf([items[i]], key) == {key(items[i])};
        assert Marked(items[..i + 1], key, choice, now) == Marked(items[..i], key, choice, now) + [UserVote(key(items[i]), choice, now)];
        out := out + [UserVote(key(items[i]), choice, now)];
        decrypting := decrypting - {key(items[i])};
        i := i + 1;
      }
      assert items[..i] == items;
    }

    /** The loop that maps the batch's clear values back to proposals. */
    method DecodeAll(votes: seq<UserVote>, valid: seq<(nat, string)>, clear: map<string, Numeric>, now: int) returns (out: seq<UserVote>)
      modifies this`decrypting
      ensures out == votes + Decoded(valid, clear, now)
      ensures decrypting == old(decrypting) - KeysOf(valid, HandleKey)
    {
      out := votes;
      var i := 0;
      while i < |valid|
        invariant 0 <= i <= |valid|
        invariant out == votes + Decoded(valid[..i], clear, now)
        invariant decrypting == old(decrypting) - KeysOf(valid[..i], HandleKey)
      {
        assert valid[..i + 1] == valid[..i] + [valid[i]];
        KeysOfAppend(valid[..i], valid[i], HandleKey);
        DecodedAppend(valid[..i], valid[i], clear, now);
        var (proposalId, encryptedVote) := valid[i];
        var decryptedVote: Choice;
        if encryptedVote in clear {
          decryptedVote := if clear[encryptedVote] == Int(0) then Yes else No;
        } else {
          decryptedVote := Error;
        }
        var entry := UserVote(proposalId, decryptedVote, now);
        assert entry == UserVote(valid[i].0, ChoiceOf(clear, valid[i].1), now);
        assert out + [entry] == votes + (Decoded(valid[..i], clear, now) + [entry]);
        out := out + [entry];
        decrypting := decrypting - {proposalId};
        i := i + 1;
      }
      assert valid[..i] == valid;
    }

    /** The batch branch of a check: every new id it resolves leaves the in-flight set. */
    method Decrypt(votes: seq<UserVote>, newIds: seq<nat>, getMyVote: nat -> Result<string, Failure>,
                   decrypt: seq<string> -> Result<map<string, Numeric>, Failure>, now: int) returns (out: seq<UserVote>)
      requires VotedOn(votes) !! KeysOf(newIds, Self)
      modifies this`decrypting
      ensures out == Resolved(votes, newIds, getMyVote, decrypt, now)
      ensures decrypting == old(decrypting) - KeysOf(newIds, Self)
    {
      var fetched := Fetched(newIds, getMyVote);
      var valid := Valid(fetched);
      FetchesCover(newIds, getMyVote);
      out := Settle(votes, Keep(fetched, FetchFailed), PairKey, Error, now);
      if |valid| > 0 {
        var reply := decrypt(Handles(valid));
        if reply.Ok? {
          out := DecodeAll(out, valid, reply.value, now);
        } else {
          RemainingAreValid(votes, newIds, getMyVote, now);
          var remaining := Remaining(newIds, out);
          out := Settle(out, remaining, Self, Error, now);
        }
      } else {
        assert KeysOf(valid, HandleKey) == {};
      }
    }

    /**
     * `checkVotingStatus()`: returns at once while a check is running; otherwise stores
     * `VotingStatus` of the entries and in-flight set it found, and releases the guard.
     */
    method CheckVotingStatus(proposals: seq<Web3State.ProposalView>, hasUserVoted: nat -> bool,
                             getMyVote: nat -> Result<string, Failure>, fheInitialized: bool,
                             decrypt: Option<seq<string> -> Result<map<string, Numeric>, Failure>>, now: int)
      modifies this
      ensures old(checking) ==> checking && decrypting == old(decrypting) && userVotes == old(userVotes)
      ensures !old(checking) ==>
        !checking && decrypting == old(decrypting) &&
        userVotes == VotingStatus(old(userVotes), old(decrypting), proposals, hasUserVoted, getMyVote, fheInitialized, decrypt, now)
    {
      if checking {
        return;
      }
      checking := true;
      var votes: seq<UserVote> := [];
      var voted := CollectVoted(proposals, hasUserVoted);
      if |voted| > 0 {
        var existing := Existing(userVotes, voted);
        var newIds := Fresh(voted, userVotes, decrypting);
        votes := votes + existing;
        assert votes == existing;
        if |newIds| > 0 {
          ExistingIn(userVotes, voted);
          FreshIn(voted, userVotes, decrypting);
          ghost var found := decrypting;
          Mark(newIds);
          if fheInitialized && decrypt.Some? {
            votes := Decrypt(votes, newIds, getMyVote, decrypt.value, now);
          } else {
            votes := Settle(votes, newIds, Self, Unknown, now);
          }
          assert decrypting == found;
        }
      }
      checking := false;
      userVotes := votes;
    }
  }

  /* ---------------- handleVote ---------------- */

  /** `[...prev.filter((v) => v.proposalId !== proposalId), newVote]`. */
  function Replaced(userVotes: seq<UserVote>, vote: UserVote): (r: seq<UserVote>)
    ensures |r| > 0 && r[|r| - 1] == vote
    ensures forall v :: v in r[..|r| - 1] <==> v in userVotes && v.proposalId != vote.proposalId
    ensures forall v | v in r && v.proposalId == vote.proposalId :: v == vote
    ensures DistinctBy(userVotes, VoteKey) ==> DistinctBy(r, VoteKey)
  {
    var others := Keep(userVotes, (v: UserVote) => v.proposalId != vote.proposalId);
    assert (others + [vote])[..|others|] == others;
    assert DistinctBy(userVotes, VoteKey) ==> DistinctBy(others + [vote], VoteKey) by {
      if DistinctBy(userVotes, VoteKey) {
        KeepDistinct(userVotes, (v: UserVote) => v.proposalId != vote.proposalId, VoteKey);
        assert DistinctBy([vote], VoteKey);
        assert vote in [vote];
        assert VotedOn([vote]) == {vote.proposalId};
        ConcatDistinct(others, [vote], VoteKey);
      }
    }
    others + [vote]
  }

  /** Recording the same vote twice leaves the list as recording it once. */
  lemma {:induction false} ReplacedIdempotent(userVotes: seq<UserVote>, vote: UserVote)
    ensures Replaced(Replaced(userVotes, vote), vote) == Replaced(userVotes, vote)
  {
    var p := (v: UserVote) => v.proposalId != vote.proposalId;
    var once := Keep(userVotes, p) + [vote];
    KeepAppend(Keep(userVotes, p), vote, p);
    KeepTwice(userVotes, p);
  }

  /** The toast `handleVote` shows. */
  datatype Toast = Toast(title: string, description: string, destructive: bool)

  /** What `handleVote` leaves: the votes, the toast, whether it refreshes the proposals, and the button's state. */
  datatype Handled = Handled(userVotes: seq<UserVote>, toast: Option<Toast>, refresh: bool, votingState: string)

  function Label(voteYes: bool): string { if voteYes then "yes" else "no" }

  /** `handleVote(proposalId, voteValue)` as written: any normal return of `vote` records the ballot. */
  function HandleVoteAsWritten(userVotes: seq<UserVote>, proposalId: nat, voteYes: bool,
                               outcome: Result<Voting.VoteOutcome, Failure>, now: int): (h: Handled)
    ensures h.votingState == ""
    ensures outcome.Ok? <==> h.refresh
    ensures outcome.Err? ==> h.userVotes == userVotes && h.toast == Some(Toast("Error", outcome.error.message, true))
  {
    match outcome
    case Ok(_) =>
      Handled(Replaced(userVotes, UserVote(proposalId, if voteYes then Yes else No, now)),
              Some(Toast("Vote Submitted", "Your " + Label(voteYes) + " vote has been recorded on the blockchain.", false)),
              true, "")
    case Err(f) => Handled(userVotes, Some(Toast("Error", f.message, true)), false, "")
  }

  /** On the wrong network `vote` only alerts and sends nothing, yet the ballot is recorded as submitted. */
  lemma AlertRecordedAsWritten(userVotes: seq<UserVote>, proposalId: nat, voteYes: bool, now: int)
    ensures var h := HandleVoteAsWritten(userVotes, proposalId, voteYes, Ok(Voting.Alerted(Voting.WrongNetworkText)), now);
      UserVote(proposalId, if voteYes then Yes else No, now) in h.userVotes &&
      h.toast.Some? && h.toast.value.title == "Vote Submitted" && h.refresh
  {
    var vote := UserVote(proposalId, if voteYes then Yes else No, now);
    var r := Replaced(userVotes, vote);
    assert r[|r| - 1] == vote;
  }

  /**
   * `handleVote` as intended: the ballot is recorded, announced and followed by a refresh only
   * when `vote` sent it; an alert leaves everything as it was.
   */
  function HandleVote(userVotes: seq<UserVote>, proposalId: nat, voteYes: bool,
                      outcome: Result<Voting.VoteOutcome, Failure>, now: int): (h: Handled)
    ensures h.votingState == ""
    ensures h.refresh <==> outcome == Ok(Voting.Sent)
    ensures outcome != Ok(Voting.Sent) ==> h.userVotes == userVotes
    ensures outcome == Ok(Voting.Sent) ==>
      h.userVotes == Replaced(userVotes, UserVote(proposalId, if voteYes then Yes else No, now)) &&
      h.toast == Some(Toast("Vote Submitted", "Your " + Label(voteYes) + " vote has been recorded on the blockchain.", false))
    ensures outcome.Err? ==> h.toast == Some(Toast("Error", outcome.error.message, true))
    ensures outcome.Ok? && outcome.value.Alerted? ==> h.toast.None?
  {
    match outcome
    case Ok(Sent) =>
      Handled(Replaced(userVotes, UserVote(proposalId, if voteYes then Yes else No, now)),
              Some(Toast("Vote Submitted", "Your " + Label(voteYes) + " vote has been recorded on the blockchain.", false)),
              true, "")
    case Ok(Alerted(_)) => Handled(userVotes, None, false, "")
    case Err(f) => Handled(userVotes, Some(Toast("Error", f.message, true)), false, "")
  }

  /** After a vote the list holds exactly one entry for the proposal, the new one, and the others unchanged. */
  lemma VoteRecordedOnce(userVotes: seq<UserVote>, proposalId: nat, voteYes: bool, now: int)
    requires DistinctBy(userVotes, VoteKey)
    ensures var h := HandleVote(userVotes, proposalId, voteYes, Ok(Voting.Sent), now);
      DistinctBy(h.userVotes, VoteKey) &&
      UserVote(proposalId, if voteYes then Yes else No, now) in h.userVotes &&
      forall v | v in userVotes && v.proposalId != proposalId :: v in h.userVotes
  {
    var vote := UserVote(proposalId, if voteYes then Yes else No, now);
    var r := Replaced(userVotes, vote);
    assert r[|r| - 1] == vote;
    forall v | v in userVotes && v.proposalId != proposalId ensures v in r {
      assert v in r[..|r| - 1];
    }
  }

  /* ---------------- Pagination ---------------- */

  /** `proposalsPerPage` */
  const PerPage: nat := 3

  /** A `slice` bound: negative counts from the end, then clamped to `[0, n]`. */
  function SliceBound(i: int, n: nat): (b: nat)
    ensures b <= n
    ensures 0 <= i <= n ==> b == i
    ensures i > n ==> b == n
    ensures i < 0 ==> b == if n + i < 0 then 0 else n + i
  {
    if i < 0 then (if n + i < 0 then 0 else n + i) else if i > n then n else i
  }

  /** `s.slice(start, end)`. */
  function JsSlice<T>(s: seq<T>, start: int, end: int): (r: seq<T>)
    ensures SliceBound(start, |s|) < SliceBound(end, |s|) ==> r == s[SliceBound(start, |s|)..SliceBound(end, |s|)]
    ensures SliceBound(start, |s|) >= SliceBound(end, |s|) ==> r == []
  {
    var from := SliceBound(start, |s|);
    var to := SliceBound(end, |s|);
    if from < to then s[from..to] else []
  }

  /** `currentProposals`: the proposals shown on page `currentPage`. */
  function PageOf<T>(proposals: seq<T>, currentPage: int): seq<T> {
    var indexOfLastProposal := currentPage * PerPage;
    var indexOfFirstProposal := indexOfLastProposal - PerPage;
    JsSlice(proposals, indexOfFirstProposal, indexOfLastProposal)
  }

  /** `Math.ceil(n / proposalsPerPage)`. */
  function TotalPages(n: nat): (pages: nat)
    ensures pages * PerPage >= n
    ensures pages > 0 ==> (pages - 1) * PerPage < n
  {
    (n + PerPage - 1) / PerPage
  }

  /** Page `p` of the page buttons shows items `(p-1)·3` up to `p·3`, at least one and at most three. */
  lemma PageWithin<T>(proposals: seq<T>, p: int)
    requires 1 <= p <= TotalPages(|proposals|)
    ensures var last := if p * PerPage < |proposals| then p * PerPage else |proposals|;
      PageOf(proposals, p) == proposals[(p - 1) * PerPage..last] &&
      1 <= |PageOf(proposals, p)| <= PerPage
  {
  }

  /** Past the last page, and on page 0, nothing is shown. */
  lemma PageOutside<T>(proposals: seq<T>, p: int)
    requires p > TotalPages(|proposals|) || p == 0
    ensures PageOf(proposals, p) == []
  {
  }

  /** The first `k` pages, one after the other. */
  function Pages<T>(proposals: seq<T>, k: nat): seq<T> {
    if k == 0 then [] else Pages(proposals, k - 1) + PageOf(proposals, k)
  }

  lemma {:induction false} PagesPrefix<T>(proposals: seq<T>, k: nat)
    ensures Pages(proposals, k) == proposals[..if k * PerPage < |proposals| then k * PerPage else |proposals|]
  {
    if k > 0 {
      PagesPrefix(proposals, k - 1);
    }
  }

  /** The pages from 1 to `totalPages` list every proposal once, in order. */
  lemma PagesPartition<T>(proposals: seq<T>)
    ensures Pages(proposals, TotalPages(|proposals|)) == proposals
  {
    PagesPrefix(proposals, TotalPages(|proposals|));
  }
}
