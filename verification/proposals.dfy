/**
 * hooks/useProposals.ts: `loadProposals`, which reads every proposal from the contract, settles
 * the counts each one shows (published counts, a fresh decryption, or the encrypted handles),
 * and stores the list newest first.
 *
 * The contract's answers are given as a `Chain`: one answer per read and proposal id. The
 * decryption callback is a function of the id. The second read of the public counts, made after
 * a decryption that may have submitted a tally, has its own answers (`recheck`).
 */
module Proposals {
  import opened Wrappers
  import opened Js
  import Ledger
  import Web3State
  import Voting

  /** The contract's answers to the reads `loadProposals` makes. */
  datatype Chain = Chain(
    proposalCount: Result<int, Failure>,
    description: nat -> Result<string, Failure>,
    publicCounts: nat -> Result<Ledger.PublicCounts, Failure>,
    encryptedCounts: nat -> Result<(string, string), Failure>,
    recheck: nat -> Result<Ledger.PublicCounts, Failure>)

  /** The counts a proposal shows (a decrypted one may be NaN) and the encrypted handles it carries. */
  datatype Shown = Shown(yes: Numeric, no: Numeric, encryptedYes: Option<string>, encryptedNo: Option<string>)

  /** `encryptedYesCount`/`encryptedNoCount`: the handles when the read answers, else undefined. */
  function Handles(encrypted: Result<(string, string), Failure>): (h: (Option<string>, Option<string>))
    ensures h.0.Some? <==> encrypted.Ok?
    ensures h.1.Some? <==> encrypted.Ok?
    ensures encrypted.Ok? ==> h == (Some(encrypted.value.0), Some(encrypted.value.1))
  {
    if encrypted.Ok? then (Some(encrypted.value.0), Some(encrypted.value.1)) else (None, None)
  }

  /** Whether `loadProposals` tries to decrypt proposal `i`. */
  predicate Decrypts(published: Ledger.PublicCounts, decrypt: Option<nat -> Result<Voting.Counts, Failure>>, fheInitialized: bool) {
    published.isPublic && fheInitialized && decrypt.Some?
  }

  /** The counts proposal `i` shows, given its public counts `published`. */
  function Settled(chain: Chain, decrypt: Option<nat -> Result<Voting.Counts, Failure>>, fheInitialized: bool,
                   i: nat, published: Ledger.PublicCounts): Shown
  {
    if !Decrypts(published, decrypt, fheInitialized) then
      var h := Handles(chain.encryptedCounts(i));
      Shown(Int(published.yes), Int(published.no), h.0, h.1)
    else if published.yes + published.no > 0 then
      // the decryption only double-checks; the published counts are shown
      Shown(Int(published.yes), Int(published.no), None, None)
    else match decrypt.value(i)
      case Err(_) =>
        var h := Handles(chain.encryptedCounts(i));
        Shown(Int(0), Int(0), h.0, h.1)
      case Ok(d) =>
        if Positive(Add(d.yes, d.no)) && chain.recheck(i).Ok? && chain.recheck(i).value.yes + chain.recheck(i).value.no > 0 then
          Shown(Int(chain.recheck(i).value.yes), Int(chain.recheck(i).value.no), None, None)
        else Shown(d.yes, d.no, None, None)
  }

  /** The entry `loadProposals` pushes for proposal `i`; none when either of the first two reads fails. */
  function Entry(chain: Chain, decrypt: Option<nat -> Result<Voting.Counts, Failure>>, fheInitialized: bool,
                 i: nat, now: int): (e: Option<Web3State.ProposalView>)
    ensures e.Some? <==> chain.description(i).Ok? && chain.publicCounts(i).Ok?
    ensures e.Some? ==>
      e.value.id == i && e.value.description == chain.description(i).value &&
      e.value.isPublic == chain.publicCounts(i).value.isPublic && e.value.createdAt == now &&
      e.value.totalVotes == Add(e.value.yesCount, e.value.noCount)
  {
    var description := chain.description(i);
    var published := chain.publicCounts(i);
    if description.Err? || published.Err? then None
    else
      var s := Settled(chain, decrypt, fheInitialized, i, published.value);
      Some(Web3State.ProposalView(i, description.value, s.yes, s.no, published.value.isPublic, now,
                                  s.encryptedYes, s.encryptedNo, Add(s.yes, s.no)))
  }

  /** Once a tally is published, the published counts are shown whatever the decryption says. */
  lemma PublishedCountsWin(chain: Chain, decrypt: Option<nat -> Result<Voting.Counts, Failure>>, fheInitialized: bool, i: nat, now: int)
    requires chain.description(i).Ok? && chain.publicCounts(i).Ok?
    requires chain.publicCounts(i).value.isPublic
    requires chain.publicCounts(i).value.yes + chain.publicCounts(i).value.no > 0
    ensures var e := Entry(chain, decrypt, fheInitialized, i, now).value;
      e.yesCount == Int(chain.publicCounts(i).value.yes) && e.noCount == Int(chain.publicCounts(i).value.no)
  {
  }

  /** A public proposal whose tally is not published and does not decrypt shows zero votes and its handles. */
  lemma FailedDecryptionShowsNothing(chain: Chain, decrypt: Option<nat -> Result<Voting.Counts, Failure>>, i: nat, now: int)
    requires chain.description(i).Ok? && chain.publicCounts(i).Ok?
    requires chain.publicCounts(i).value.isPublic
    requires chain.publicCounts(i).value.yes + chain.publicCounts(i).value.no == 0
    requires decrypt.Some? && decrypt.value(i).Err?
    ensures var e := Entry(chain, decrypt, true, i, now).value;
      e.yesCount == Int(0) && e.noCount == Int(0) && e.totalVotes == Int(0) &&
      (e.encryptedYes.Some? <==> chain.encryptedCounts(i).Ok?)
  {
    var h := Handles(chain.encryptedCounts(i));
    assert Settled(chain, decrypt, true, i, chain.publicCounts(i).value) == Shown(Int(0), Int(0), h.0, h.1);
  }

  /**
   * A public proposal whose tally is not published shows what decrypts, unless the check read
   * after the decryption sees a published non-empty tally, which then wins.
   */
  lemma DecryptionShown(chain: Chain, decrypt: Option<nat -> Result<Voting.Counts, Failure>>, i: nat, now: int)
    requires chain.description(i).Ok? && chain.publicCounts(i).Ok?
    requires chain.publicCounts(i).value.isPublic
    requires chain.publicCounts(i).value.yes + chain.publicCounts(i).value.no == 0
    requires decrypt.Some? && decrypt.value(i).Ok?
    ensures var e := Entry(chain, decrypt, true, i, now).value;
      var d := decrypt.value(i).value;
      var c := chain.recheck(i);
      e.encryptedYes.None? && e.encryptedNo.None? &&
      (Positive(Add(d.yes, d.no)) && c.Ok? && c.value.yes + c.value.no > 0 ==>
        e.yesCount == Int(c.value.yes) && e.noCount == Int(c.value.no)) &&
      (!(Positive(Add(d.yes, d.no)) && c.Ok? && c.value.yes + c.value.no > 0) ==> e.yesCount == d.yes && e.noCount == d.no)
  {
  }

  /** A proposal that is not decrypted shows its public counts and carries its encrypted handles when they read. */
  lemma UndecryptedCarriesHandles(chain: Chain, decrypt: Option<nat -> Result<Voting.Counts, Failure>>, fheInitialized: bool, i: nat, now: int)
    requires chain.description(i).Ok? && chain.publicCounts(i).Ok?
    requires !Decrypts(chain.publicCounts(i).value, decrypt, fheInitialized)
    ensures var e := Entry(chain, decrypt, fheInitialized, i, now).value;
      e.yesCount == Int(chain.publicCounts(i).value.yes) && e.noCount == Int(chain.publicCounts(i).value.no) &&
      (e.encryptedYes.Some? <==> chain.encryptedCounts(i).Ok?) &&
      (chain.encryptedCounts(i).Ok? ==>
        e.encryptedYes == Some(chain.encryptedCounts(i).value.0) && e.encryptedNo == Some(chain.encryptedCounts(i).value.1))
  {
  }

  /** The entries pushed for ids `0 .. n-1`, in the order they are pushed. */
  function Loaded(chain: Chain, decrypt: Option<nat -> Result<Voting.Counts, Failure>>, fheInitialized: bool,
                  n: nat, now: int): (r: seq<Web3State.ProposalView>)
    ensures |r| <= n
  {
    if n == 0 then []
    else
      var before := Loaded(chain, decrypt, fheInitialized, n - 1, now);
      match Entry(chain, decrypt, fheInitialized, n - 1, now)
      case None => before
      case Some(e) => before + [e]
  }

  /** The ids of a list of proposals. */
  function Ids(r: seq<Web3State.ProposalView>): set<nat> {
    set k | 0 <= k < |r| :: r[k].id
  }

  /** Every entry of `r` is the entry of a proposal below `n`. */
  predicate EntriesBelow(chain: Chain, decrypt: Option<nat -> Result<Voting.Counts, Failure>>, fheInitialized: bool,
                         r: seq<Web3State.ProposalView>, n: nat, now: int)
  {
    forall k | 0 <= k < |r| :: r[k].id < n && Entry(chain, decrypt, fheInitialized, r[k].id, now) == Some(r[k])
  }

  /** Every entry of the list is the entry of a proposal below `n`. */
  lemma {:induction false} LoadedEntries(chain: Chain, decrypt: Option<nat -> Result<Voting.Counts, Failure>>, fheInitialized: bool,
                                         n: nat, now: int)
    ensures EntriesBelow(chain, decrypt, fheInitialized, Loaded(chain, decrypt, fheInitialized, n, now), n, now)
  {
    if n > 0 {
      LoadedEntries(chain, decrypt, fheInitialized, n - 1, now);
      var before := Loaded(chain, decrypt, fheInitialized, n - 1, now);
      var r := Loaded(chain, decrypt, fheInitialized, n, now);
      match Entry(chain, decrypt, fheInitialized, n - 1, now)
      case None =>
        assert r == before;
      case Some(e) =>
        assert r == before + [e];
        forall k | 0 <= k < |r| ensures r[k].id < n && Entry(chain, decrypt, fheInitialized, r[k].id, now) == Some(r[k]) {
          if k < |before| {
            assert r[k] == before[k];
            assert before[k].id < n - 1;
          }
        }
    }
  }

  /** Ids strictly increase along `r`. */
  predicate Ascending(r: seq<Web3State.ProposalView>) {
    forall k, m | 0 <= k < m < |r| :: r[k].id < r[m].id
  }

  /** The list is in increasing id order, the order of the loop. */
  lemma {:induction false} LoadedAscending(chain: Chain, decrypt: Option<nat -> Result<Voting.Counts, Failure>>, fheInitialized: bool,
                                           n: nat, now: int)
    ensures Ascending(Loaded(chain, decrypt, fheInitialized, n, now))
  {
    if n > 0 {
      LoadedAscending(chain, decrypt, fheInitialized, n - 1, now);
      LoadedEntries(chain, decrypt, fheInitialized, n - 1, now);
      var before := Loaded(chain, decrypt, fheInitialized, n - 1, now);
      var r := Loaded(chain, decrypt, fheInitialized, n, now);
      match Entry(chain, decrypt, fheInitialized, n - 1, now)
      case None =>
        assert r == before;
      case Some(e) =>
        assert r == before + [e];
        forall k, m | 0 <= k < m < |r| ensures r[k].id < r[m].id {
          assert r[k] == before[k];
          assert before[k].id < n - 1;
          if m < |before| {
            assert r[m] == before[m];
          }
        }
    }
  }

  /** Appending an entry adds its id. */
  lemma IdsAppend(before: seq<Web3State.ProposalView>, e: Web3State.ProposalView)
    ensures Ids(before + [e]) == Ids(before) + {e.id}
  {
    var r := before + [e];
    forall x | x in Ids(r) ensures x in Ids(before) + {e.id} {
      var k :| 0 <= k < |r| && r[k].id == x;
      if k < |before| {
        assert before[k] == r[k];
      }
    }
    forall x | x in Ids(before) + {e.id} ensures x in Ids(r) {
      if x in Ids(before) {
        var k :| 0 <= k < |before| && before[k].id == x;
        assert r[k] == before[k];
      } else {
        assert r[|before|] == e;
      }
    }
  }

  /** The proposals below `n` whose description and public counts could both be read. */
  function Answered(chain: Chain, n: nat): (r: set<nat>)
    ensures forall i: nat :: i in r <==> i < n && chain.description(i).Ok? && chain.publicCounts(i).Ok?
  {
    set i: nat | i < n && chain.description(i).Ok? && chain.publicCounts(i).Ok?
  }

  /** A proposal below `n` is listed exactly when its reads answered: a failed one is skipped, not fatal. */
  lemma {:induction false} LoadedIds(chain: Chain, decrypt: Option<nat -> Result<Voting.Counts, Failure>>, fheInitialized: bool,
                                     n: nat, now: int)
    ensures Ids(Loaded(chain, decrypt, fheInitialized, n, now)) == Answered(chain, n)
  {
    if n > 0 {
      LoadedIds(chain, decrypt, fheInitialized, n - 1, now);
      var before := Loaded(chain, decrypt, fheInitialized, n - 1, now);
      match Entry(chain, decrypt, fheInitialized, n - 1, now)
      case None =>
        assert Answered(chain, n) == Answered(chain, n - 1);
      case Some(e) =>
        assert Loaded(chain, decrypt, fheInitialized, n, now) == before + [e];
        IdsAppend(before, e);
        assert Answered(chain, n) == Answered(chain, n - 1) + {n - 1};
    }
  }

  /** `a.reverse()` as a value. */
  function Reversed<T>(s: seq<T>): (r: seq<T>)
    ensures |r| == |s|
    ensures forall k | 0 <= k < |s| :: r[k] == s[|s| - 1 - k]
  {
    if s == [] then [] else Reversed(s[1..]) + [s[0]]
  }

  /** The stored list is newest first: ids strictly decrease. */
  lemma {:induction false} NewestFirst(chain: Chain, decrypt: Option<nat -> Result<Voting.Counts, Failure>>, fheInitialized: bool,
                                       n: nat, now: int)
    ensures var r := Reversed(Loaded(chain, decrypt, fheInitialized, n, now));
      forall k, m | 0 <= k < m < |r| :: r[k].id > r[m].id
  {
    var s := Loaded(chain, decrypt, fheInitialized, n, now);
    LoadedAscending(chain, decrypt, fheInitialized, n, now);
    var r := Reversed(s);
    forall k, m | 0 <= k < m < |r| ensures r[k].id > r[m].id {
      assert r[k] == s[|s| - 1 - k] && r[m] == s[|s| - 1 - m];
    }
  }

  /** `loadedProposals.reverse()`: in place. */
  method Reverse<T>(a: array<T>)
    modifies a
    ensures a[..] == Reversed(old(a[..]))
  {
    ghost var o := a[..];
    var i, j := 0, a.Length - 1;
    while i < j
      invariant 0 <= i <= j + 1 && j == a.Length - 1 - i
      invariant forall k | 0 <= k < i :: a[k] == o[a.Length - 1 - k] && a[a.Length - 1 - k] == o[k]
      invariant forall k | i <= k <= j :: a[k] == o[k]
    {
      a[i], a[j] := a[j], a[i];
      i, j := i + 1, j - 1;
    }
    forall k | 0 <= k < a.Length ensures a[k] == o[a.Length - 1 - k] {
      if k > j {
        assert a[a.Length - 1 - (a.Length - 1 - k)] == o[a.Length - 1 - k];
      }
    }
    assert a[..] == Reversed(o);
  }

  /** The body of the loop of `loadProposals` for proposal `i`. */
  method LoadOne(chain: Chain, decrypt: Option<nat -> Result<Voting.Counts, Failure>>, fheInitialized: bool,
                 i: nat, now: int) returns (e: Option<Web3State.ProposalView>)
    ensures e == Entry(chain, decrypt, fheInitialized, i, now)
  {
    var description := chain.description(i);
    if description.Err? {
      return None;
    }
    var published := chain.publicCounts(i);
    if published.Err? {
      return None;
    }
    var actualYes := Int(published.value.yes);
    var actualNo := Int(published.value.no);
    var totalVotes := Add(actualYes, actualNo);
    var publicTotal := published.value.yes + published.value.no;
    var encryptedYes: Option<string> := None;
    var encryptedNo: Option<string> := None;
    if published.value.isPublic && fheInitialized && decrypt.Some? {
      if publicTotal <= 0 {
        var decrypted := decrypt.value(i);
        if decrypted.Ok? {
          actualYes := decrypted.value.yes;
          actualNo := decrypted.value.no;
          totalVotes := Add(actualYes, actualNo);
          if Positive(totalVotes) {
            var updated := chain.recheck(i);
            if updated.Ok? && updated.value.yes + updated.value.no > 0 {
              actualYes := Int(updated.value.yes);
              actualNo := Int(updated.value.no);
              totalVotes := Int(updated.value.yes + updated.value.no);
            }
          }
        } else {
          actualYes, actualNo, totalVotes := Int(0), Int(0), Int(0);
          var encrypted := chain.encryptedCounts(i);
          if encrypted.Ok? {
            encryptedYes, encryptedNo := Some(encrypted.value.0), Some(encrypted.value.1);
          }
        }
      }
    } else {
      var encrypted := chain.encryptedCounts(i);
      if encrypted.Ok? {
        encryptedYes, encryptedNo := Some(encrypted.value.0), Some(encrypted.value.1);
      }
    }
    e := Some(Web3State.ProposalView(i, description.value, actualYes, actualNo, published.value.isPublic, now,
                                     encryptedYes, encryptedNo, totalVotes));
  }

  /** The loop of `loadProposals` over ids `0 .. proposalCount-1`, then the in-place reversal. */
  method Listed(contract: Chain, decrypt: Option<nat -> Result<Voting.Counts, Failure>>, fheInitialized: bool,
                proposalCount: int, now: int) returns (listed: seq<Web3State.ProposalView>)
    ensures listed == Reversed(Loaded(contract, decrypt, fheInitialized, if proposalCount < 0 then 0 else proposalCount, now))
  {
    var loaded: seq<Web3State.ProposalView> := [];
    var i := 0;
    while i < proposalCount
      invariant 0 <= i && (proposalCount >= 0 ==> i <= proposalCount) && (proposalCount < 0 ==> i == 0)
      invariant loaded == Loaded(contract, decrypt, fheInitialized, i, now)
      decreases proposalCount - i
    {
      var e := LoadOne(contract, decrypt, fheInitialized, i, now);
      if e.Some? {
        loaded := loaded + [e.value];
      }
      i := i + 1;
    }
    assert i == if proposalCount < 0 then 0 else proposalCount;
    var reversed := new Web3State.ProposalView[|loaded|](k requires 0 <= k < |loaded| => loaded[k]);
    assert reversed[..] == loaded;
    Reverse(reversed);
    listed := reversed[..];
  }

  /**
   * `loadProposals(contract, decryptVoteCounts, fheInitialized)`: nothing without a contract;
   * otherwise, with the loading flag raised, every proposal is read and the list is stored
   * newest first. A failed proposal count stores nothing.
   */
  method LoadProposals(store: Web3State.Store, chain: Option<Chain>, decrypt: Option<nat -> Result<Voting.Counts, Failure>>,
                       fheInitialized: bool, now: int)
    modifies store
    ensures chain.None? ==> store.GetState() == old(store.GetState()) && store.notified == old(store.notified)
    ensures chain.Some? && chain.value.proposalCount.Err? ==>
      store.GetState() == old(store.GetState()).(isLoading := false) &&
      store.notified == old(store.notified) + [store.listeners, store.listeners]
    ensures chain.Some? && chain.value.proposalCount.Ok? ==>
      var n := if chain.value.proposalCount.value < 0 then 0 else chain.value.proposalCount.value;
      store.GetState() == old(store.GetState()).(isLoading := false,
        proposals := Reversed(Loaded(chain.value, decrypt, fheInitialized, n, now))) &&
      store.notified == old(store.notified) + [store.listeners, store.listeners, store.listeners]
  {
    if chain.None? {
      return;
    }
    var contract := chain.value;
    store.SetIsLoading(true);
    if contract.proposalCount.Err? {
      store.SetIsLoading(false);
      return;
    }
    var listed := Listed(contract, decrypt, fheInitialized, contract.proposalCount.value, now);
    ghost var notified := store.notified;
    store.SetProposals(listed);
    store.SetIsLoading(false);
    assert store.notified == notified + [store.listeners, store.listeners];
  }
}
