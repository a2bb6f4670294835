/**
 * Which vote results a node accepts: `validate_vote`, `validate_vote_result` and the
 * count. A vote counts for the address it names, and its signature is checked only where
 * its key belongs to a validator. Where the two go together no two blocks of one number
 * have accepted results, unless the faulty validators can complete two counts.
 */
module VoteAgreement {
  import opened Primitives
  import opened ChainStore
  import opened Consensus
  import opened ConsensusChain
  import opened ConsensusVotes
  import opened VoteQuorum

  const KEY_LENGTH := 33

  /** The address of a key, the table of each epoch, and which signatures verify. */
  datatype Checks = Checks(addressOf: Key -> Option<Address>, tableOf: Epoch -> Table,
                           signed: Vote -> bool, signedResult: VoteResult -> bool)

  predicate IsValidator(chk: Checks, a: Address, e: Epoch) { a in chk.tableOf(e).validators }

  /** `validate_vote` */
  predicate VoteValid(chk: Checks, v: Vote, h: Header) {
    var address := chk.addressOf(v.key);
    && address.Some?
    && (IsValidator(chk, address.value, v.epoch) ==>
          && v.number == h.number && v.hash == h.hash && v.cluster == h.cluster
          && |v.key| == KEY_LENGTH && chk.signed(v))
  }

  predicate VoteFits(chk: Checks, v: Vote, r: VoteResult, h: Header) {
    v.number == r.number && v.hash == r.hash && v.cluster == r.cluster && VoteValid(chk, v, h)
  }

  /** `validate_vote_result` */
  predicate ResultFits(chk: Checks, r: VoteResult, h: Header) {
    && r.number == h.number && r.hash == h.hash && r.cluster == h.cluster
    && |r.key| == KEY_LENGTH && chk.signedResult(r)
    && forall i :: 0 <= i < |r.votes| ==> VoteFits(chk, r.votes[i], r, h)
  }

  method ValidateVoteResult(chk: Checks, r: VoteResult, h: Header) returns (ok: bool)
    ensures ok == ResultFits(chk, r, h)
  {
    if r.number != h.number || r.hash != h.hash || r.cluster != h.cluster {
      return false;
    }
    if |r.key| != KEY_LENGTH || !chk.signedResult(r) {
      return false;
    }
    for i := 0 to |r.votes|
      invariant forall j :: 0 <= j < i ==> VoteFits(chk, r.votes[j], r, h)
    {
      if !VoteFits(chk, r.votes[i], r, h) {
        return false;
      }
    }
    return true;
  }

  /** The result is valid for the block, and its count passes in the table of the epoch that the block names. */
  predicate Accepted(chk: Checks, r: VoteResult, h: Header) {
    ResultFits(chk, r, h) && PassesIn(Counted(r.votes), chk.tableOf(h.epoch))
  }

  // --------------------------------------------------------------- whose vote it is

  /** A vote is accepted under any signature exactly when its key has an address that is no validator's. */
  lemma UncheckedIff(chk: Checks, v: Vote, h: Header)
    ensures (forall signed :: VoteValid(chk.(signed := signed), v, h))
        <==> chk.addressOf(v.key).Some? && !IsValidator(chk, chk.addressOf(v.key).value, v.epoch)
  {
    var none := chk.(signed := _ => false);
    if chk.addressOf(v.key).Some? && !IsValidator(chk, chk.addressOf(v.key).value, v.epoch) {
      forall signed ensures VoteValid(chk.(signed := signed), v, h) {
      }
    } else {
      assert !VoteValid(none, v, h);
    }
  }

  /** With a validator's key a vote is valid exactly when it is for the block, with a full key, and signed. */
  lemma CheckedIff(chk: Checks, v: Vote, h: Header)
    requires chk.addressOf(v.key).Some? && IsValidator(chk, chk.addressOf(v.key).value, v.epoch)
    ensures VoteValid(chk, v, h)
        <==> v.number == h.number && v.hash == h.hash && v.cluster == h.cluster && |v.key| == 33 && chk.signed(v)
  {
  }

  /** A result fits a block exactly when it is signed and for it, and so is every vote, signed where that is checked. */
  lemma ResultFitsIff(chk: Checks, r: VoteResult, h: Header)
    ensures ResultFits(chk, r, h)
        <==> (&& r.number == h.number && r.hash == h.hash && r.cluster == h.cluster
              && |r.key| == 33 && chk.signedResult(r)
              && forall v :: v in r.votes ==>
                   && v.number == h.number && v.hash == h.hash && v.cluster == h.cluster && chk.addressOf(v.key).Some?
                   && (IsValidator(chk, chk.addressOf(v.key).value, v.epoch) ==> |v.key| == 33 && chk.signed(v)))
  {
    forall i | 0 <= i < |r.votes| ensures r.votes[i] in r.votes {
    }
    if ResultFits(chk, r, h) {
      forall v | v in r.votes ensures VoteFits(chk, v, r, h) {
        var i :| 0 <= i < |r.votes| && r.votes[i] == v;
      }
    }
  }

  function ForgedVote(h: Header, epoch: Epoch, key: Key, a: Address): Vote {
    Vote(h.number, h.hash, h.cluster, epoch, true, a, key)
  }

  lemma {:induction false} DistinctAreUnique(votes: seq<Vote>)
    requires DistinctIds(votes)
    ensures Uniques(votes, votes)
    decreases |votes|
  {
    forall v ensures v in votes <==> FirstOf(votes, IdentityOf(v)) == Some(v) {
      FirstOfIdentity(votes, IdentityOf(v));
      if v in votes {
        var w := FirstOf(votes, IdentityOf(v)).value;
        var i :| 0 <= i < |votes| && votes[i] == v;
        var j :| 0 <= j < |votes| && votes[j] == w;
      }
    }
  }

  /** Votes of different validators are all counted. */
  lemma CountsOneEach(votes: seq<Vote>, t: Table)
    requires OneEach(votes) && PassesIn(votes, t)
    ensures PassesIn(Counted(votes), t)
  {
    hide Passes;
    DistinctAreUnique(votes);
    CountedUnique(votes);
    OrderIrrelevant(votes, votes, Counted(votes), t.validators, Needed(t), t.stakeOf);
  }

  /**
   * Whoever holds one key that is no validator's gets a vote result accepted for any block,
   * with a vote in the name of every validator and without a single valid vote signature.
   */
  lemma ForgedResultAccepted(chk: Checks, h: Header, key: Key, epoch: Epoch) returns (r: VoteResult)
    requires |key| == KEY_LENGTH && chk.addressOf(key).Some? && !IsValidator(chk, chk.addressOf(key).value, epoch)
    requires forall r: VoteResult :: r.key == key ==> chk.signedResult(r)
    requires Staked(chk.tableOf(h.epoch).validators, chk.tableOf(h.epoch).stakeOf) && CountableIn(chk.tableOf(h.epoch))
    ensures Accepted(chk, r, h) && Voters(r.votes) == chk.tableOf(h.epoch).validators
    ensures forall v :: v in r.votes ==> v.key == key
  {
    hide Passes, Countable, Staked;
    var t := chk.tableOf(h.epoch);
    var votes := VotesOf(t.validators, a => ForgedVote(h, epoch, key, a));
    r := VoteResult(h.number, h.hash, h.cluster, chk.addressOf(key).value, key, true, votes);
    MinVotesFit(|t.validators|);
    AyesPass(votes, t.validators, Needed(t), t.stakeOf);
    CountsOneEach(votes, t);
  }

  lemma MinVotesFit(n: nat)
    ensures MinVotes(n) <= n
  {
  }

  const SOLE: Table := Table({1}, UnitStake)

  /** Validator 1 is alone in every epoch; the key of address 9 signs two results, and no vote is signed. */
  lemma ForgedResultsConflict(h1: Header, h2: Header)
    requires h1.number == h2.number && h1.hash != h2.hash
    ensures exists chk: Checks, r1, r2 ::
              && (forall v :: !chk.signed(v)) && (forall e :: chk.tableOf(e) == SOLE)
              && Accepted(chk, r1, h1) && Accepted(chk, r2, h2)
  {
    hide Accepted, Countable, Staked;
    var key := seq(KEY_LENGTH, i => 7);
    var chk := Checks(k => Some(9), e => SOLE, v => false, r => true);
    UnitStakes(1);
    var r1 := ForgedResultAccepted(chk, h1, key, 1);
    var r2 := ForgedResultAccepted(chk, h2, key, 1);
  }

  lemma UnitStakes(a: Address)
    ensures Staked({a}, UnitStake) && Countable({a}, UnitStake)
  {
    assert a in {a};
    SumWithout({a}, a, UnitStake);
    assert {a} - {a} == {};
  }

  // -------------------------------------------------------------------- agreement

  /** The vote names the address of its key, which is a validator's. */
  predicate Genuine(chk: Checks, v: Vote) {
    chk.addressOf(v.key) == Some(v.validator) && IsValidator(chk, v.validator, v.epoch)
  }

  ghost predicate AllGenuine(chk: Checks, votes: seq<Vote>) {
    forall v :: v in votes ==> Genuine(chk, v)
  }

  /** No two keys of full length have one address. */
  ghost predicate OneKeyEach(chk: Checks) {
    forall k, k' :: |k| == |k'| == KEY_LENGTH && chk.addressOf(k).Some? && chk.addressOf(k) == chk.addressOf(k')
                    ==> k == k'
  }

  /** Genuine votes that were accepted are signed, and those of one validator carry one key. */
  lemma GenuineSigned(chk: Checks, r: VoteResult, h: Header, v: Vote)
    requires ResultFits(chk, r, h) && AllGenuine(chk, r.votes) && v in r.votes
    ensures chk.signed(v) && |v.key| == KEY_LENGTH && chk.addressOf(v.key) == Some(v.validator)
    ensures v.number == h.number && v.hash == h.hash
  {
    var i :| 0 <= i < |r.votes| && r.votes[i] == v;
    assert VoteFits(chk, r.votes[i], r, h);
    assert Genuine(chk, v);
  }

  lemma CountedIn(votes: seq<Vote>)
    ensures DistinctIds(Counted(votes)) && forall v :: v in Counted(votes) ==> v in votes
  {
    CountedUnique(votes);
    forall v | v in Counted(votes) ensures v in votes {
      FirstOfIdentity(votes, IdentityOf(v));
    }
  }

  lemma GenuineOneEach(chk: Checks, r: VoteResult, h: Header)
    requires ResultFits(chk, r, h) && AllGenuine(chk, r.votes) && OneKeyEach(chk)
    ensures OneEach(Counted(r.votes))
  {
    hide ResultFits, AllGenuine, Counted;
    var unique := Counted(r.votes);
    CountedIn(r.votes);
    forall i, j | 0 <= i < j < |unique| ensures unique[i].validator != unique[j].validator {
      assert unique[i] in unique && unique[j] in unique;
      GenuineSigned(chk, r, h, unique[i]);
      GenuineSigned(chk, r, h, unique[j]);
    }
  }

  /** A validator that is not faulty votes in both results only if it is the same vote. */
  ghost predicate HonestOnce(r1: VoteResult, r2: VoteResult, honest: set<Address>) {
    forall v, w :: v in r1.votes && w in r2.votes && v.validator == w.validator && v.validator in honest ==> v == w
  }

  /** Those who may vote on either block. */
  function Electorate(chk: Checks, h1: Header, h2: Header): set<Address> {
    chk.tableOf(h1.epoch).validators + chk.tableOf(h2.epoch).validators
  }

  /** Accepted results with genuine votes for two blocks of one number, though no honest validator voted for both. */
  ghost predicate Conflict(chk: Checks, faulty: set<Address>, h1: Header, h2: Header, r1: VoteResult, r2: VoteResult) {
    && h1.number == h2.number && h1.hash != h2.hash
    && Accepted(chk, r1, h1) && AllGenuine(chk, r1.votes) && Accepted(chk, r2, h2) && AllGenuine(chk, r2.votes)
    && HonestOnce(r1, r2, Electorate(chk, h1, h2) - faulty)
  }

  /** The validators voting in both results of a conflict are faulty. */
  lemma ConflictShares(chk: Checks, faulty: set<Address>, h1: Header, h2: Header, r1: VoteResult, r2: VoteResult)
    requires Conflict(chk, faulty, h1, h2, r1, r2)
    ensures Voters(Counted(r1.votes)) * Voters(Counted(r2.votes))
            * chk.tableOf(h1.epoch).validators * chk.tableOf(h2.epoch).validators <= faulty
  {
    hide PassesIn, ResultFits, AllGenuine, Counted;
    CountedIn(r1.votes);
    CountedIn(r2.votes);
    var both := chk.tableOf(h1.epoch).validators * chk.tableOf(h2.epoch).validators;
    forall a | a in Voters(Counted(r1.votes)) * Voters(Counted(r2.votes)) && a in both ensures a in faulty {
      var v :| v in Counted(r1.votes) && v.validator == a;
      var w :| w in Counted(r2.votes) && w.validator == a;
      GenuineSigned(chk, r1, h1, v);
      GenuineSigned(chk, r2, h2, w);
    }
  }

  /**
   * Agreement: as long as the faulty validators cannot complete a count for either block,
   * each in the table of the epoch it names, no two blocks of one number have accepted
   * results whose votes are genuine.
   */
  lemma Agreement(chk: Checks, faulty: set<Address>, h1: Header, h2: Header, r1: VoteResult, r2: VoteResult)
    requires OneKeyEach(chk) && !Separable(chk.tableOf(h1.epoch), chk.tableOf(h2.epoch), faulty)
    ensures !Conflict(chk, faulty, h1, h2, r1, r2)
  {
    hide OneKeyEach, Separable, AllGenuine, HonestOnce, ResultFits, PassesIn, OneEach, Voters;
    if Conflict(chk, faulty, h1, h2, r1, r2) {
      GenuineOneEach(chk, r1, h1);
      GenuineOneEach(chk, r2, h2);
      ConflictShares(chk, faulty, h1, h2, r1, r2);
      BothPassSplits(chk.tableOf(h1.epoch), chk.tableOf(h2.epoch), faulty, Counted(r1.votes), Counted(r2.votes));
    }
  }

  /** Every validator of the epoch has a key. */
  ghost predicate Keyed(chk: Checks, keyOf: Address -> Key, epoch: Epoch) {
    forall a :: a in chk.tableOf(epoch).validators ==> |keyOf(a)| == KEY_LENGTH && chk.addressOf(keyOf(a)) == Some(a)
  }

  function VoteFor(h: Header, keyOf: Address -> Key, a: Address): Vote { ForgedVote(h, h.epoch, keyOf(a), a) }

  function ResultFor(h: Header, key: Key, votes: seq<Vote>): VoteResult {
    VoteResult(h.number, h.hash, h.cluster, 0, key, true, votes)
  }

  function Signing(chk: Checks): Checks { chk.(signed := v => true, signedResult := r => true) }

  lemma VotesForAccepted(chk: Checks, keyOf: Address -> Key, h: Header, key: Key, votes: seq<Vote>)
    requires Keyed(chk, keyOf, h.epoch) && |key| == KEY_LENGTH
    requires OneEach(votes) && PassesIn(votes, chk.tableOf(h.epoch)) && Voters(votes) <= chk.tableOf(h.epoch).validators
    requires forall v :: v in votes ==> v == VoteFor(h, keyOf, v.validator)
    ensures Accepted(Signing(chk), ResultFor(h, key, votes), h) && AllGenuine(Signing(chk), votes)
  {
    CountsOneEach(votes, chk.tableOf(h.epoch));
    hide PassesIn, OneEach;
    forall i | 0 <= i < |votes| ensures VoteFits(Signing(chk), votes[i], ResultFor(h, key, votes), h) {
      assert votes[i] in votes && votes[i].validator in Voters(votes);
    }
    forall v | v in votes ensures Genuine(Signing(chk), v) {
      assert v.validator in Voters(votes);
    }
  }

  lemma SplitConflicts(chk: Checks, faulty: set<Address>, keyOf: Address -> Key, h1: Header, h2: Header)
    requires Keyed(chk, keyOf, h1.epoch) && Keyed(chk, keyOf, h2.epoch)
    requires CountableIn(chk.tableOf(h1.epoch)) && CountableIn(chk.tableOf(h2.epoch))
    requires Separable(chk.tableOf(h1.epoch), chk.tableOf(h2.epoch), faulty)
    requires h1.number == h2.number && h1.hash != h2.hash
    ensures exists r1, r2 :: Conflict(Signing(chk), faulty, h1, h2, r1, r2)
  {
    hide Keyed, CountableIn, Separable, PassesIn, OneEach, Accepted, AllGenuine, HonestOnce;
    var votes1, votes2 := SplitPasses(chk.tableOf(h1.epoch), chk.tableOf(h2.epoch), faulty,
                                      a => VoteFor(h1, keyOf, a), a => VoteFor(h2, keyOf, a));
    var key := seq(KEY_LENGTH, i => 7);
    VotesForAccepted(chk, keyOf, h1, key, votes1);
    VotesForAccepted(chk, keyOf, h2, key, votes2);
    var r1, r2 := ResultFor(h1, key, votes1), ResultFor(h2, key, votes2);
    SharedOnce(Electorate(chk, h1, h2), faulty, r1, r2);
    assert Conflict(Signing(chk), faulty, h1, h2, r1, r2);
  }

  lemma SharedOnce(electorate: set<Address>, faulty: set<Address>, r1: VoteResult, r2: VoteResult)
    requires Voters(r1.votes) * Voters(r2.votes) <= faulty
    ensures HonestOnce(r1, r2, electorate - faulty)
  {
    forall v, w | v in r1.votes && w in r2.votes && v.validator == w.validator ensures v.validator in faulty {
      assert v.validator in Voters(r1.votes) * Voters(r2.votes);
    }
  }

  /**
   * For two blocks of one number: over all signatures there may be, a conflict can arise
   * exactly when the faulty validators, with the others divided between them, can complete
   * a count for each block in the table of the epoch it names.
   */
  lemma AgreementIff(chk: Checks, faulty: set<Address>, keyOf: Address -> Key, h1: Header, h2: Header)
    requires OneKeyEach(chk) && Keyed(chk, keyOf, h1.epoch) && Keyed(chk, keyOf, h2.epoch)
    requires CountableIn(chk.tableOf(h1.epoch)) && CountableIn(chk.tableOf(h2.epoch))
    requires h1.number == h2.number && h1.hash != h2.hash
    ensures (exists signed, signedResult, r1, r2 ::
               Conflict(chk.(signed := signed, signedResult := signedResult), faulty, h1, h2, r1, r2))
        <==> Separable(chk.tableOf(h1.epoch), chk.tableOf(h2.epoch), faulty)
    ensures h1.epoch == h2.epoch ==>
              (Separable(chk.tableOf(h1.epoch), chk.tableOf(h2.epoch), faulty)
               <==> Splittable(chk.tableOf(h1.epoch), faulty))
  {
    hide Conflict, Separable, Splittable, Keyed, CountableIn;
    SameTable(chk.tableOf(h1.epoch), faulty);
    if Separable(chk.tableOf(h1.epoch), chk.tableOf(h2.epoch), faulty) {
      SplitConflicts(chk, faulty, keyOf, h1, h2);
    } else {
      forall signed, signedResult, r1, r2
        ensures !Conflict(chk.(signed := signed, signedResult := signedResult), faulty, h1, h2, r1, r2)
      {
        Agreement(chk.(signed := signed, signedResult := signedResult), faulty, h1, h2, r1, r2);
      }
    }
  }

  /** One validator in epoch 1, another in epoch 2: neither table can be divided, but the two together can. */
  lemma TwoEpochsConflict(h1: Header, h2: Header)
    requires h1.number == h2.number && h1.hash != h2.hash && h1.epoch == 1 && h2.epoch == 2
    ensures exists chk: Checks, r1, r2 ::
              && OneKeyEach(chk) && !Splittable(chk.tableOf(1), {}) && !Splittable(chk.tableOf(2), {})
              && Conflict(chk, {}, h1, h2, r1, r2)
  {
    hide Conflict, Separable, Countable, Staked, Bears, OneKeyEach;
    var chk := Checks(KeyOwner, e => if e == 1 then SOLE else Table({2}, UnitStake), v => false, r => false);
    OwnersDiffer(chk);
    UnitStakes(1);
    UnitStakes(2);
    TwoSolesSeparate();
    NoneToDivide(1);
    NoneToDivide(2);
    assert Keyed(chk, OwnerKey, 1) && Keyed(chk, OwnerKey, 2);
    SplitConflicts(chk, {}, OwnerKey, h1, h2);
    assert OneKeyEach(Signing(chk)) by {
      OwnersDiffer(Signing(chk));
    }
    var r1, r2 :| Conflict(Signing(chk), {}, h1, h2, r1, r2);
  }

  /** Full-length keys that differ in their first byte, for addresses 1 and 2. */
  function OwnerKey(a: Address): Key { [if a == 1 then 1 else 2] + seq(KEY_LENGTH - 1, i => 0) }

  function KeyOwner(k: Key): Option<Address> {
    if k == OwnerKey(1) then Some(1) else if k == OwnerKey(2) then Some(2) else None
  }

  lemma OwnersDiffer(chk: Checks)
    requires chk.addressOf == KeyOwner
    ensures OneKeyEach(chk) && KeyOwner(OwnerKey(1)) == Some(1) && KeyOwner(OwnerKey(2)) == Some(2)
  {
    assert OwnerKey(1)[0] != OwnerKey(2)[0];
  }

  lemma NoneToDivide(a: Address)
    ensures !Splittable(Table({a}, UnitStake), {})
  {
    assert {a} - {} == {a} && {a} * {} == {};
  }

  lemma TwoSolesSeparate()
    ensures Separable(SOLE, Table({2}, UnitStake), {})
  {
    var s, u: set<Address> := {1}, {2};
    assert 1 in s && 2 in u;
    assert s * u == {};
    SplitBears(SOLE, Table({2}, UnitStake), {}, s, u);
  }

  // ------------------------------------------------------------------- whole nodes

  /** A validator's node process: its configuration, what it starts with and the messages it has handled. */
  datatype Peer = Peer(cfg: Config, start: Core, steps: seq<Step>)

  function SentBy(p: Peer): seq<Vote> { Run(p.cfg, Started(p.start), p.steps).sent }

  ghost predicate Correct(p: Peer) {
    ChainOk(p.start, p.cfg.cluster) && AllWellFormed(p.steps) && NeverBreaks(p.cfg, Started(p.start), p.steps)
  }

  /** All that is signed agrees; the validator address is not signed. */
  predicate SameBallot(v: Vote, w: Vote) {
    v.number == w.number && v.hash == w.hash && v.cluster == w.cluster && v.epoch == w.epoch && v.aye == w.aye
  }

  /** What verifies under the node's key is something the node has sent. */
  ghost predicate Unforged(chk: Checks, p: Peer) {
    forall v :: chk.signed(v) && v.key == p.cfg.key ==> exists w :: w in SentBy(p) && SameBallot(v, w)
  }

  /** The node of validator `a`, with a key of its own that nobody else signs with. */
  ghost predicate PeerOf(chk: Checks, a: Address, p: Peer) {
    Correct(p) && |p.cfg.key| == KEY_LENGTH && chk.addressOf(p.cfg.key) == Some(a) && Unforged(chk, p)
  }

  lemma OneVoiceOf(p: Peer)
    requires Correct(p)
    ensures OneVoice(SentBy(p))
  {
    hide Run, NeverBreaks, ChainOk, AllWellFormed;
    NoEquivocation(p.cfg, p.start, p.steps);
  }

  /** Two signed votes of such a node for one number are one vote. */
  lemma PeerVotesOnce(chk: Checks, a: Address, p: Peer, v: Vote, w: Vote)
    requires OneKeyEach(chk) && PeerOf(chk, a, p) && v.validator == w.validator == a && v.number == w.number
    requires chk.signed(v) && |v.key| == KEY_LENGTH && chk.addressOf(v.key) == Some(a)
    requires chk.signed(w) && |w.key| == KEY_LENGTH && chk.addressOf(w.key) == Some(a)
    ensures v == w
  {
    hide SentBy, Correct;
    OneVoiceOf(p);
    assert v.key == p.cfg.key && w.key == p.cfg.key;
    var v' :| v' in SentBy(p) && SameBallot(v, v');
    var w' :| w' in SentBy(p) && SameBallot(w, w');
    assert v' == w';
  }

  /**
   * Nodes that follow the handlers and take no breaking step cannot, with genuine votes, let
   * two blocks of one number pass, as long as the other validators cannot complete a count
   * for each, in the tables of the epochs that the blocks name.
   */
  lemma CorrectPeersAgree(chk: Checks, peers: map<Address, Peer>, h1: Header, h2: Header,
                          r1: VoteResult, r2: VoteResult)
    requires OneKeyEach(chk) && forall a :: a in peers ==> PeerOf(chk, a, peers[a])
    requires Accepted(chk, r1, h1) && AllGenuine(chk, r1.votes) && Accepted(chk, r2, h2) && AllGenuine(chk, r2.votes)
    requires h1.number == h2.number
    requires !Separable(chk.tableOf(h1.epoch), chk.tableOf(h2.epoch), Electorate(chk, h1, h2) - peers.Keys)
    ensures h1.hash == h2.hash
  {
    hide ResultFits, PassesIn, AllGenuine, PeerOf, Separable, OneKeyEach, Counted;
    var faulty := Electorate(chk, h1, h2) - peers.Keys;
    forall v, w | v in r1.votes && w in r2.votes && v.validator == w.validator
                  && v.validator in Electorate(chk, h1, h2) - faulty
      ensures v == w
    {
      GenuineSigned(chk, r1, h1, v);
      GenuineSigned(chk, r2, h2, w);
      PeerVotesOnce(chk, v.validator, peers[v.validator], v, w);
    }
    Agreement(chk, faulty, h1, h2, r1, r2);
  }

  // ---------------------------------------------------------- two finalising nodes

  /** What an attempt is told about vote results comes from the checks, or is an error. */
  ghost predicate Checked(chk: Checks, h: Header, a: Answers) {
    forall r: VoteResult ::
      && (a.resultOk(r) ==> ResultFits(chk, r, h))
      && (a.passes(r) == Some(true) ==> PassesIn(Counted(r.votes), chk.tableOf(h.epoch)))
  }

  /** A pending block that an attempt finalises with such answers, on genuine votes. */
  ghost predicate Finalises(chk: Checks, cfg: Config, nd: Node, n: BlockNumber, a: Answers) {
    && n in nd.pending && Filed(nd.pending) && nd.pending[n].block.Some? && TryOne(cfg, nd, n, a).ok
    && Checked(chk, nd.pending[n].block.value.block.header, a)
    && forall r :: r in nd.pending[n].results ==> AllGenuine(chk, r.votes)
  }

  function HeaderAt(nd: Node, n: BlockNumber): Header
    requires n in nd.pending && nd.pending[n].block.Some?
  {
    nd.pending[n].block.value.block.header
  }

  lemma FinalisedOnResult(chk: Checks, cfg: Config, nd: Node, n: BlockNumber, a: Answers) returns (r: VoteResult)
    requires Finalises(chk, cfg, nd, n, a)
    ensures HeaderAt(nd, n).number == n && Accepted(chk, r, HeaderAt(nd, n)) && AllGenuine(chk, r.votes)
  {
    hide ResultFits, PassesIn, Counted, HeaderOk, Accept, AllGenuine, CastVote;
    var p := nd.pending[n];
    assert Carried(p.results, p.block.value.block, a);
    var i :| 0 <= i < |p.results| && FirstVerdict(p.results, a.passes, i);
    r := p.results[i];
    assert ResultValid(p.results[i], p.block.value.block, a.resultOk) && r in p.results;
  }

  /**
   * Two nodes, or one at two times, that each finalise a pending block of one number
   * finalise the same block: on genuine votes, while the validators without a correct node
   * cannot complete a count for each, in the tables of the epochs that the blocks name.
   */
  lemma FinalisedBlocksAgree(chk: Checks, peers: map<Address, Peer>, n: BlockNumber,
                             cfg1: Config, nd1: Node, a1: Answers, cfg2: Config, nd2: Node, a2: Answers)
    requires OneKeyEach(chk) && forall a :: a in peers ==> PeerOf(chk, a, peers[a])
    requires Finalises(chk, cfg1, nd1, n, a1) && Finalises(chk, cfg2, nd2, n, a2)
    requires var h1, h2 := HeaderAt(nd1, n), HeaderAt(nd2, n);
             !Separable(chk.tableOf(h1.epoch), chk.tableOf(h2.epoch), Electorate(chk, h1, h2) - peers.Keys)
    ensures HeaderAt(nd1, n).hash == HeaderAt(nd2, n).hash
  {
    var h1, h2 := HeaderAt(nd1, n), HeaderAt(nd2, n);
    hide Finalises, Accepted, AllGenuine, PeerOf, Separable, OneKeyEach;
    var r1 := FinalisedOnResult(chk, cfg1, nd1, n, a1);
    var r2 := FinalisedOnResult(chk, cfg2, nd2, n, a2);
    CorrectPeersAgree(chk, peers, h1, h2, r1, r2);
  }
}
