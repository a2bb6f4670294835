/**
 * Vote counting: `get_unique_votes` and `is_passed`, that the hash map's order does not
 * matter, and when two passing counts must share a validator.
 */
module VoteQuorum {
  import opened Primitives
  import opened ChainStore
  import opened Consensus

  /** `validators.len() as f64 * 0.60`, cut to an integer. */
  function MinVotes(n: nat): nat { n * 3 / 5 }

  // ------------------------------------------------------------ specification

  /** The votes of validators. */
  function Eligible(votes: seq<Vote>, validators: set<Address>): seq<Vote>
    decreases |votes|
  {
    if votes == [] then [] else
    (if votes[0].validator in validators then [votes[0]] else []) + Eligible(votes[1..], validators)
  }

  type Stakes = Address -> U128

  function Stake(votes: seq<Vote>, stakeOf: Stakes, ayesOnly: bool): nat
    decreases |votes|
  {
    if votes == [] then 0 else
    (if votes[0].aye || !ayesOnly then stakeOf(votes[0].validator) else 0) + Stake(votes[1..], stakeOf, ayesOnly)
  }

  /** Stakes are added up in u128, and the sum wraps around. */
  function Wrapped(stake: nat): U128 { stake % 0x1_0000_0000_0000_0000_0000_0000_0000_0000 }

  /** 60 per cent of the stake that voted; a product that overflows u128 counts as a no. */
  predicate Majority(ayes: U128, total: U128) {
    total > 0 && ayes * 100 < U128_LIMIT && total * 60 < U128_LIMIT && ayes * 100 >= total * 60
  }

  predicate Passes(votes: seq<Vote>, validators: set<Address>, min: nat, stakeOf: Stakes) {
    var valid := Eligible(votes, validators);
    |valid| >= min && Majority(Wrapped(Stake(valid, stakeOf, true)), Wrapped(Stake(valid, stakeOf, false)))
  }

  /** The votes counted once each, in the order they were filed. */
  function Counted(votes: seq<Vote>): seq<Vote>
    decreases |votes|
  {
    if votes == [] then [] else
    var init, last := votes[..|votes| - 1], votes[|votes| - 1];
    Counted(init) + if FirstOf(init, IdentityOf(last)).Some? then [] else [last]
  }

  lemma {:induction false} FirstOfAppend(votes: seq<Vote>, more: seq<Vote>, id: Identity)
    ensures FirstOf(votes + more, id) == if FirstOf(votes, id).Some? then FirstOf(votes, id) else FirstOf(more, id)
    decreases |votes|
  {
    if votes == [] {
      assert votes + more == more;
    } else {
      assert (votes + more)[1..] == votes[1..] + more;
      FirstOfAppend(votes[1..], more, id);
    }
  }

  lemma {:induction false} FirstOfIdentity(votes: seq<Vote>, id: Identity)
    ensures FirstOf(votes, id).Some? ==> IdentityOf(FirstOf(votes, id).value) == id && FirstOf(votes, id).value in votes
    ensures FirstOf(votes, id).None? ==> forall v :: v in votes ==> IdentityOf(v) != id
    decreases |votes|
  {
    if votes != [] {
      FirstOfIdentity(votes[1..], id);
    }
  }

  lemma CountedSnoc(init: seq<Vote>, last: Vote, unique: seq<Vote>)
    requires Uniques(init, unique)
    ensures Uniques(init + [last], unique + if FirstOf(init, IdentityOf(last)).Some? then [] else [last])
  {
    var id := IdentityOf(last);
    forall v ensures FirstOf(init + [last], IdentityOf(v))
      == if FirstOf(init, IdentityOf(v)).Some? then FirstOf(init, IdentityOf(v))
         else if IdentityOf(v) == id then Some(last) else None
    {
      FirstOfAppend(init, [last], IdentityOf(v));
      assert [last][1..] == [];
    }
    FirstOfIdentity(init, id);
    forall i | 0 <= i < |unique| ensures FirstOf(init, IdentityOf(unique[i])) == Some(unique[i]) {
      assert unique[i] in unique;
    }
  }

  lemma {:induction false} CountedUnique(votes: seq<Vote>)
    ensures Uniques(votes, Counted(votes))
    decreases |votes|
  {
    if votes != [] {
      var init, last := votes[..|votes| - 1], votes[|votes| - 1];
      CountedUnique(init);
      CountedSnoc(init, last, Counted(init));
      assert votes == init + [last];
    }
  }

  // -------------------------------------------------------------- the methods

  predicate ShortKey(v: Vote) { |v.key| < KEY_PREFIX }

  /** Two votes are counted once between them exactly when they name one validator and their keys start alike. */
  lemma SameIdentityIff(v: Vote, w: Vote)
    requires |v.key| >= 8 && |w.key| >= 8
    ensures !ShortKey(v) && !ShortKey(w)
    ensures IdentityOf(v) == IdentityOf(w)
        <==> v.validator == w.validator && forall i :: 0 <= i < 8 ==> v.key[i] == w.key[i]
  {
    if forall i :: 0 <= i < 8 ==> v.key[i] == w.key[i] {
      assert v.key[..8] == w.key[..8];
    }
    if v.key[..8] == w.key[..8] {
      forall i | 0 <= i < 8 ensures v.key[i] == w.key[i] {
        assert v.key[..8][i] == w.key[..8][i];
      }
    }
  }

  lemma SevenBytesAreShort(v: Vote)
    requires |v.key| <= 7
    ensures ShortKey(v)
  {
  }

  /** The map is keyed by a slice of the vote's key, so a key that is too short is a panic (None). */
  method FirstVotes(votes: seq<Vote>) returns (r: Option<map<Identity, Vote>>)
    ensures r.None? <==> exists i :: 0 <= i < |votes| && ShortKey(votes[i])
    ensures r.Some? ==> forall id :: FirstOf(votes, id) == if id in r.value then Some(r.value[id]) else None
  {
    var entries: map<Identity, Vote> := map[];
    for i := 0 to |votes|
      invariant forall j :: 0 <= j < i ==> !ShortKey(votes[j])
      invariant forall id :: FirstOf(votes[..i], id) == if id in entries then Some(entries[id]) else None
    {
      var v := votes[i];
      if ShortKey(v) {
        return None;
      }
      assert votes[..i + 1] == votes[..i] + [v];
      forall id ensures FirstOf(votes[..i + 1], id)
        == if FirstOf(votes[..i], id).Some? then FirstOf(votes[..i], id)
           else if IdentityOf(v) == id then Some(v) else None
      {
        FirstOfAppend(votes[..i], [v], id);
        assert [v][1..] == [];
      }
      if IdentityOf(v) !in entries {
        entries := entries[IdentityOf(v) := v];
      }
    }
    assert votes[..|votes|] == votes;
    r := Some(entries);
  }

  /** The hash map's values come out in any order. */
  method UniqueVotes(votes: seq<Vote>) returns (r: Option<seq<Vote>>)
    ensures r.None? <==> exists i :: 0 <= i < |votes| && ShortKey(votes[i])
    ensures r.Some? ==> Uniques(votes, r.value)
  {
    var first := FirstVotes(votes);
    if first.None? {
      return None;
    }
    var entries := first.value;
    var unique: seq<Vote> := [];
    var left := entries.Keys;
    while left != {}
      invariant left <= entries.Keys && DistinctIds(unique)
      invariant forall v :: v in unique <==> IdentityOf(v) in entries.Keys - left && entries[IdentityOf(v)] == v
      decreases |left|
    {
      var id :| id in left;
      FirstOfIdentity(votes, id);
      unique := unique + [entries[id]];
      left := left - {id};
    }
    r := Some(unique);
  }

  method FilterEligible(votes: seq<Vote>, validators: set<Address>) returns (valid: seq<Vote>)
    ensures valid == Eligible(votes, validators)
  {
    valid := [];
    for i := 0 to |votes|
      invariant valid + Eligible(votes[i..], validators) == Eligible(votes, validators)
    {
      assert votes[i..][1..] == votes[i + 1..];
      if votes[i].validator in validators {
        valid := valid + [votes[i]];
      }
    }
  }

  method CountStakes(valid: seq<Vote>, stakeOf: Stakes) returns (total: U128, ayes: U128)
    ensures total == Wrapped(Stake(valid, stakeOf, false)) && ayes == Wrapped(Stake(valid, stakeOf, true))
  {
    hide Wrapped;
    total, ayes := 0, 0;
    for i := 0 to |valid|
      invariant Wrapped(total + Stake(valid[i..], stakeOf, false)) == Wrapped(Stake(valid, stakeOf, false))
      invariant Wrapped(ayes + Stake(valid[i..], stakeOf, true)) == Wrapped(Stake(valid, stakeOf, true))
    {
      assert valid[i..][1..] == valid[i + 1..];
      var stake := stakeOf(valid[i].validator);
      WrapLater(total, stake, Stake(valid[i + 1..], stakeOf, false));
      WrapLater(ayes, stake, Stake(valid[i + 1..], stakeOf, true));
      total := Wrapped(total + stake);
      if valid[i].aye {
        ayes := Wrapped(ayes + stake);
      }
    }
    WrapFits(total);
    WrapFits(ayes);
  }

  method IsPassed(votes: seq<Vote>, validators: set<Address>, min: nat, stakeOf: Stakes) returns (passed: bool)
    ensures passed == Passes(votes, validators, min, stakeOf)
  {
    hide Wrapped, Majority;
    var valid := FilterEligible(votes, validators);
    if |valid| < min {
      return false;
    }
    var total, ayes := CountStakes(valid, stakeOf);
    passed := Majority(ayes, total);
  }

  lemma WrapFits(stake: U128)
    ensures Wrapped(stake) == stake
  {
  }

  lemma WrapLater(sum: nat, stake: nat, rest: nat)
    ensures Wrapped(Wrapped(sum + stake) + rest) == Wrapped(sum + (stake + rest))
  {
  }

  // ----------------------------------------------------- the order does not matter

  lemma {:induction false} EligibleConcat(a: seq<Vote>, b: seq<Vote>, validators: set<Address>)
    ensures Eligible(a + b, validators) == Eligible(a, validators) + Eligible(b, validators)
    decreases |a|
  {
    if a == [] {
      assert a + b == b;
    } else {
      assert (a + b)[1..] == a[1..] + b;
      EligibleConcat(a[1..], b, validators);
      var first := if a[0].validator in validators then [a[0]] else [];
      var x, y := Eligible(a[1..], validators), Eligible(b, validators);
      assert first + (x + y) == (first + x) + y;
    }
  }

  lemma {:induction false} StakeConcat(a: seq<Vote>, b: seq<Vote>, stakeOf: Stakes, ayesOnly: bool)
    ensures Stake(a + b, stakeOf, ayesOnly) == Stake(a, stakeOf, ayesOnly) + Stake(b, stakeOf, ayesOnly)
    decreases |a|
  {
    if a == [] {
      assert a + b == b;
    } else {
      assert (a + b)[1..] == a[1..] + b;
      StakeConcat(a[1..], b, stakeOf, ayesOnly);
    }
  }

  /** Both lists count the same eligible votes and stakes. */
  ghost predicate CountsAgree(a: seq<Vote>, b: seq<Vote>, validators: set<Address>, stakeOf: Stakes) {
    var x, y := Eligible(a, validators), Eligible(b, validators);
    && |x| == |y|
    && Stake(x, stakeOf, true) == Stake(y, stakeOf, true) && Stake(x, stakeOf, false) == Stake(y, stakeOf, false)
  }

  lemma MoveToFront(x: seq<Vote>, v: Vote, y: seq<Vote>, rest: seq<Vote>, validators: set<Address>,
                    stakeOf: Stakes)
    requires CountsAgree(rest, x + y, validators, stakeOf)
    ensures CountsAgree([v] + rest, x + [v] + y, validators, stakeOf)
  {
    EligibleConcat([v], rest, validators);
    EligibleConcat(x + [v], y, validators);
    EligibleConcat(x, [v], validators);
    EligibleConcat(x, y, validators);
    var ex, ev, ey := Eligible(x, validators), Eligible([v], validators), Eligible(y, validators);
    forall ayesOnly
      ensures Stake(ex + ev + ey, stakeOf, ayesOnly) == Stake(ev, stakeOf, ayesOnly) + Stake(ex + ey, stakeOf, ayesOnly)
    {
      StakeConcat(ex + ev, ey, stakeOf, ayesOnly);
      StakeConcat(ex, ev, stakeOf, ayesOnly);
      StakeConcat(ex, ey, stakeOf, ayesOnly);
    }
    StakeConcat(ev, Eligible(rest, validators), stakeOf, true);
    StakeConcat(ev, Eligible(rest, validators), stakeOf, false);
  }

  /** The same votes in some order. */
  ghost predicate SameVotes(a: seq<Vote>, b: seq<Vote>) {
    DistinctIds(a) && DistinctIds(b) && forall v :: v in a <==> v in b
  }

  lemma HeadIn(votes: seq<Vote>)
    ensures votes != [] ==> votes[0] in votes
  {
  }

  lemma SameWithout(a: seq<Vote>, x: seq<Vote>, y: seq<Vote>)
    requires a != [] && SameVotes(a, x + [a[0]] + y)
    ensures SameVotes(a[1..], x + y)
  {
    var b := x + [a[0]] + y;
    assert a == [a[0]] + a[1..];
    forall i, j | 0 <= i < j < |x + y| ensures IdentityOf((x + y)[i]) != IdentityOf((x + y)[j]) {
      assert (x + y)[i] == b[if i < |x| then i else i + 1] && (x + y)[j] == b[if j < |x| then j else j + 1];
    }
    forall v | v in x + y ensures v != a[0] && v in b {
      var i :| 0 <= i < |x + y| && (x + y)[i] == v;
      assert b[|x|] == a[0] && b[if i < |x| then i else i + 1] == v;
    }
    forall v | v in a[1..] ensures v != a[0] && v in a {
      var i :| 0 <= i < |a[1..]| && a[1..][i] == v;
      assert a[i + 1] == v;
    }
  }

  lemma {:induction false} CountPermuted(a: seq<Vote>, b: seq<Vote>, validators: set<Address>, stakeOf: Stakes)
    requires SameVotes(a, b)
    ensures CountsAgree(a, b, validators, stakeOf)
    decreases |a|
  {
    if a == [] {
      HeadIn(b);
    } else {
      assert a[0] in b;
      var i :| 0 <= i < |b| && b[i] == a[0];
      var x, y := b[..i], b[i + 1..];
      hide CountsAgree, SameVotes;
      assert a == [a[0]] + a[1..] && b == x + [a[0]] + y;
      SameWithout(a, x, y);
      CountPermuted(a[1..], x + y, validators, stakeOf);
      MoveToFront(x, a[0], y, a[1..], validators, stakeOf);
    }
  }

  /** Whatever order the hash map yields the unique votes in, the outcome is the same. */
  lemma OrderIrrelevant(votes: seq<Vote>, a: seq<Vote>, b: seq<Vote>, validators: set<Address>, min: nat,
                        stakeOf: Stakes)
    requires Uniques(votes, a) && Uniques(votes, b)
    ensures Passes(a, validators, min, stakeOf) <==> Passes(b, validators, min, stakeOf)
  {
    assert SameVotes(a, b);
    CountPermuted(a, b, validators, stakeOf);
  }

  // --------------------------------------------------------------- quorums

  /** No validator votes twice. */
  ghost predicate OneEach(votes: seq<Vote>) {
    forall i, j :: 0 <= i < j < |votes| ==> votes[i].validator != votes[j].validator
  }

  function Voters(votes: seq<Vote>): set<Address> { set v | v in votes :: v.validator }

  lemma {:induction false} EligibleMembers(votes: seq<Vote>, validators: set<Address>)
    ensures forall v :: v in Eligible(votes, validators) <==> v in votes && v.validator in validators
    decreases |votes|
  {
    if votes != [] {
      EligibleMembers(votes[1..], validators);
      assert votes == [votes[0]] + votes[1..];
    }
  }

  lemma OneMoreVoter(rest: seq<Vote>, v: Vote)
    requires OneEach(rest) && v.validator !in Voters(rest)
    ensures OneEach([v] + rest) && Voters([v] + rest) == {v.validator} + Voters(rest)
  {
    forall j | 0 <= j < |rest| ensures rest[j].validator != v.validator {
      assert rest[j].validator in Voters(rest);
    }
  }

  lemma {:induction false} EligibleOneEach(votes: seq<Vote>, validators: set<Address>)
    requires OneEach(votes)
    ensures OneEach(Eligible(votes, validators))
    decreases |votes|
  {
    if votes != [] {
      var v, rest := votes[0], votes[1..];
      EligibleOneEach(rest, validators);
      EligibleMembers(rest, validators);
      forall w | w in rest ensures w.validator != v.validator {
        var i :| 0 <= i < |rest| && rest[i] == w;
        assert votes[i + 1] == w;
      }
      hide OneEach;
      OneMoreVoter(Eligible(rest, validators), v);
      assert [] + Eligible(rest, validators) == Eligible(rest, validators);
    }
  }

  lemma {:induction false} VotersCount(votes: seq<Vote>)
    requires OneEach(votes)
    ensures |Voters(votes)| == |votes|
    decreases |votes|
  {
    if votes != [] {
      VotersCount(votes[1..]);
      var rest := Voters(votes[1..]);
      assert Voters(votes) == {votes[0].validator} + rest;
      assert votes[0].validator !in rest;
    }
  }

  /** Some member has stake. */
  ghost predicate Staked(s: set<Address>, stakeOf: Stakes) { exists a :: a in s && stakeOf(a) > 0 }

  lemma {:induction false} StakePositive(votes: seq<Vote>, stakeOf: Stakes)
    ensures Stake(votes, stakeOf, false) > 0 <==> Staked(Voters(votes), stakeOf)
    decreases |votes|
  {
    if votes != [] {
      StakePositive(votes[1..], stakeOf);
      assert Voters(votes) == {votes[0].validator} + Voters(votes[1..]);
      assert votes[0].validator in Voters(votes);
    }
  }

  /** A passing count without double votes comes from enough validators, one of them with stake. */
  lemma PassingVoters(votes: seq<Vote>, validators: set<Address>, min: nat, stakeOf: Stakes) returns (q: set<Address>)
    requires OneEach(votes) && Passes(votes, validators, min, stakeOf)
    ensures q <= validators && q <= Voters(votes) && |q| >= min && Staked(q, stakeOf)
    ensures forall a :: a in q ==> exists v :: v in votes && v.validator == a
  {
    var valid := Eligible(votes, validators);
    EligibleMembers(votes, validators);
    EligibleOneEach(votes, validators);
    VotersCount(valid);
    StakePositive(valid, stakeOf);
    q := Voters(valid);
  }

  // ------------------------------------------------- sets of votes that do pass

  ghost function SumOf(s: set<Address>, stakeOf: Stakes): nat
    decreases |s|
  {
    if s == {} then 0 else var x :| x in s; stakeOf(x) + SumOf(s - {x}, stakeOf)
  }

  lemma {:induction false} SumWithout(s: set<Address>, x: Address, stakeOf: Stakes)
    requires x in s
    ensures SumOf(s, stakeOf) == stakeOf(x) + SumOf(s - {x}, stakeOf)
    decreases |s|
  {
    var y :| y in s && SumOf(s, stakeOf) == stakeOf(y) + SumOf(s - {y}, stakeOf);
    if x != y {
      SumWithout(s - {y}, x, stakeOf);
      SumWithout(s - {x}, y, stakeOf);
      assert s - {y} - {x} == s - {x} - {y};
    }
  }

  lemma {:induction false} StakeBounded(votes: seq<Vote>, s: set<Address>, stakeOf: Stakes)
    requires OneEach(votes) && Voters(votes) <= s
    ensures Stake(votes, stakeOf, false) <= SumOf(s, stakeOf)
    decreases |votes|
  {
    if votes != [] {
      var x := votes[0].validator;
      assert x in Voters(votes) && Voters(votes) == {x} + Voters(votes[1..]) && x !in Voters(votes[1..]);
      SumWithout(s, x, stakeOf);
      StakeBounded(votes[1..], s - {x}, stakeOf);
    }
  }

  lemma {:induction false} AllAyes(votes: seq<Vote>, validators: set<Address>, stakeOf: Stakes)
    requires Voters(votes) <= validators && forall v :: v in votes ==> v.aye
    ensures Eligible(votes, validators) == votes && Stake(votes, stakeOf, true) == Stake(votes, stakeOf, false)
    decreases |votes|
  {
    if votes != [] {
      assert votes[0].validator in Voters(votes) && Voters(votes[1..]) <= Voters(votes);
      AllAyes(votes[1..], validators, stakeOf);
      assert votes == [votes[0]] + votes[1..];
    }
  }

  /** All stakes together, times one hundred, fit in u128. */
  ghost predicate Countable(validators: set<Address>, stakeOf: Stakes) {
    SumOf(validators, stakeOf) * 100 < U128_LIMIT
  }

  lemma AyesPass(votes: seq<Vote>, validators: set<Address>, min: nat, stakeOf: Stakes)
    requires OneEach(votes) && Voters(votes) <= validators && forall v :: v in votes ==> v.aye
    requires |votes| >= min && Staked(Voters(votes), stakeOf) && Countable(validators, stakeOf)
    ensures Passes(votes, validators, min, stakeOf)
  {
    hide Wrapped, Staked, OneEach, Voters;
    AllAyes(votes, validators, stakeOf);
    StakePositive(votes, stakeOf);
    StakeBounded(votes, validators, stakeOf);
    WrapFits(Stake(votes, stakeOf, false));
  }

  /** The validators among the voters, and those of them who voted aye. */
  function Voting(votes: seq<Vote>, validators: set<Address>): set<Address> {
    set v | v in votes && v.validator in validators :: v.validator
  }

  function Approving(votes: seq<Vote>, validators: set<Address>): set<Address> {
    set v | v in votes && v.validator in validators && v.aye :: v.validator
  }

  function Backing(votes: seq<Vote>, validators: set<Address>, ayesOnly: bool): set<Address> {
    if ayesOnly then Approving(votes, validators) else Voting(votes, validators)
  }

  lemma {:induction false} SumPositive(s: set<Address>, stakeOf: Stakes)
    ensures SumOf(s, stakeOf) > 0 <==> Staked(s, stakeOf)
    decreases |s|
  {
    if s != {} {
      var x :| x in s && SumOf(s, stakeOf) == stakeOf(x) + SumOf(s - {x}, stakeOf);
      SumPositive(s - {x}, stakeOf);
      assert s == {x} + (s - {x});
    }
  }

  lemma {:induction false} SumMonotone(s: set<Address>, t: set<Address>, stakeOf: Stakes)
    requires s <= t
    ensures SumOf(s, stakeOf) <= SumOf(t, stakeOf)
    decreases |s|
  {
    if s != {} {
      var x :| x in s && SumOf(s, stakeOf) == stakeOf(x) + SumOf(s - {x}, stakeOf);
      SumWithout(t, x, stakeOf);
      SumMonotone(s - {x}, t - {x}, stakeOf);
    }
  }

  lemma SumAdds(s: set<Address>, x: Address, stakeOf: Stakes)
    requires x !in s
    ensures SumOf({x} + s, stakeOf) == stakeOf(x) + SumOf(s, stakeOf)
  {
    SumWithout({x} + s, x, stakeOf);
    assert {x} + s - {x} == s;
  }

  lemma VotingTail(votes: seq<Vote>, validators: set<Address>)
    requires votes != [] && OneEach(votes)
    ensures var v, rest := votes[0], votes[1..];
            && OneEach(rest) && v.validator !in Voting(rest, validators) && v.validator !in Approving(rest, validators)
            && Voting(votes, validators)
               == (if v.validator in validators then {v.validator} else {}) + Voting(rest, validators)
            && Approving(votes, validators)
               == (if v.validator in validators && v.aye then {v.validator} else {}) + Approving(rest, validators)
  {
    assert votes == [votes[0]] + votes[1..];
  }

  lemma StakeCons(v: Vote, rest: seq<Vote>, stakeOf: Stakes, ayesOnly: bool)
    ensures Stake([v] + rest, stakeOf, ayesOnly)
         == (if v.aye || !ayesOnly then stakeOf(v.validator) else 0) + Stake(rest, stakeOf, ayesOnly)
  {
    assert ([v] + rest)[1..] == rest;
  }

  /** Each counted vote adds its validator to the voting ones, and to the approving ones if it is an aye. */
  lemma CountOneMore(votes: seq<Vote>, validators: set<Address>, stakeOf: Stakes, ayesOnly: bool)
    requires votes != [] && OneEach(votes)
    ensures Stake(Eligible(votes, validators), stakeOf, ayesOnly) - SumOf(Backing(votes, validators, ayesOnly), stakeOf)
         == Stake(Eligible(votes[1..], validators), stakeOf, ayesOnly)
            - SumOf(Backing(votes[1..], validators, ayesOnly), stakeOf)
  {
    hide Voting, Approving, SumOf, Stake, OneEach;
    var v, rest := votes[0], votes[1..];
    var e := Eligible(rest, validators);
    VotingTail(votes, validators);
    SumAdds(if ayesOnly then Approving(rest, validators) else Voting(rest, validators), v.validator, stakeOf);
    StakeCons(v, e, stakeOf, ayesOnly);
    assert [] + e == e;
    assert {} + Voting(rest, validators) == Voting(rest, validators);
    assert {} + Approving(rest, validators) == Approving(rest, validators);
  }

  lemma NothingCounted(votes: seq<Vote>, validators: set<Address>, stakeOf: Stakes)
    requires votes == []
    ensures Stake(Eligible(votes, validators), stakeOf, false) == 0 == SumOf(Voting(votes, validators), stakeOf)
    ensures Stake(Eligible(votes, validators), stakeOf, true) == 0 == SumOf(Approving(votes, validators), stakeOf)
  {
    assert Voting(votes, validators) == {} == Approving(votes, validators);
  }

  /** The stakes counted are those of the voting validators, and of the approving ones. */
  lemma {:induction false} StakeIsSum(votes: seq<Vote>, validators: set<Address>, stakeOf: Stakes)
    requires OneEach(votes)
    ensures Stake(Eligible(votes, validators), stakeOf, false) == SumOf(Voting(votes, validators), stakeOf)
    ensures Stake(Eligible(votes, validators), stakeOf, true) == SumOf(Approving(votes, validators), stakeOf)
    decreases |votes|
  {
    hide Voting, Approving, SumOf, Stake, Eligible, OneEach;
    if votes == [] {
      NothingCounted(votes, validators, stakeOf);
    } else {
      VotingTail(votes, validators);
      StakeIsSum(votes[1..], validators, stakeOf);
      CountOneMore(votes, validators, stakeOf, false);
      CountOneMore(votes, validators, stakeOf, true);
    }
  }

  lemma VotingSize(votes: seq<Vote>, validators: set<Address>)
    requires OneEach(votes)
    ensures |Eligible(votes, validators)| == |Voting(votes, validators)|
  {
    EligibleMembers(votes, validators);
    EligibleOneEach(votes, validators);
    VotersCount(Eligible(votes, validators));
    assert Voters(Eligible(votes, validators)) == Voting(votes, validators);
  }

  /**
   * What a count decides, without double votes and while all stakes times one hundred fit
   * u128: enough validators voted, one of them with stake, and those who voted aye have 60
   * per cent of the stake of those who voted.
   */
  lemma PassesIff(votes: seq<Vote>, validators: set<Address>, min: nat, stakeOf: Stakes)
    requires OneEach(votes) && Countable(validators, stakeOf)
    ensures Passes(votes, validators, min, stakeOf)
        <==> (&& |Voting(votes, validators)| >= min && Staked(Voting(votes, validators), stakeOf)
              && 100 * SumOf(Approving(votes, validators), stakeOf) >= 60 * SumOf(Voting(votes, validators), stakeOf))
  {
    hide Voting, Approving, SumOf, Stake, Eligible, Staked, Wrapped, OneEach;
    var all, ayes := Voting(votes, validators), Approving(votes, validators);
    StakeIsSum(votes, validators, stakeOf);
    VotingSize(votes, validators);
    SumPositive(all, stakeOf);
    VotersWithin(votes, validators);
    SumMonotone(all, validators, stakeOf);
    SumMonotone(ayes, validators, stakeOf);
    WrapFits(SumOf(all, stakeOf));
    WrapFits(SumOf(ayes, stakeOf));
  }

  lemma VotersWithin(votes: seq<Vote>, validators: set<Address>)
    ensures Approving(votes, validators) <= Voting(votes, validators) <= validators
  {
  }

  /** So a block that every voter votes against never passes. */
  lemma NoesNeverPass(votes: seq<Vote>, validators: set<Address>, min: nat, stakeOf: Stakes)
    requires OneEach(votes) && Countable(validators, stakeOf) && forall v :: v in votes ==> !v.aye
    ensures !Passes(votes, validators, min, stakeOf)
  {
    PassesIff(votes, validators, min, stakeOf);
    SumPositive(Voting(votes, validators), stakeOf);
    assert Approving(votes, validators) == {};
  }

  lemma PairStakes(v: Vote, w: Vote, validators: set<Address>, stakeOf: Stakes, ayesOnly: bool)
    requires v.validator in validators && w.validator in validators && v.aye && w.aye
    ensures Stake(Eligible([v, w], validators), stakeOf, ayesOnly) == stakeOf(v.validator) + stakeOf(w.validator)
  {
    assert [v, w][1..] == [w] && [w][1..] == [];
    assert Eligible([w], validators) == [w] && [v] + [w] == [v, w];
    StakeCons(v, [w], stakeOf, ayesOnly);
    StakeCons(w, [], stakeOf, ayesOnly);
    assert [w] + [] == [w];
  }

  /** Where the stakes do not fit: a product past u128 is a no, and a sum of 2^128 is a sum of nothing. */
  lemma BigStakesNeverPass(v: Vote, w: Vote, validators: set<Address>, stakeOf: Stakes)
    requires v.validator in validators && w.validator in validators && v.aye && w.aye
    requires var sum := stakeOf(v.validator) + stakeOf(w.validator);
             sum == U128_LIMIT || U128_LIMIT <= sum * 100 < U128_LIMIT * 100
    ensures !Passes([v, w], validators, 0, stakeOf)
  {
    hide Eligible, Stake;
    PairStakes(v, w, validators, stakeOf, true);
    PairStakes(v, w, validators, stakeOf, false);
    if stakeOf(v.validator) + stakeOf(w.validator) < U128_LIMIT {
      hide Wrapped;
      WrapFits(stakeOf(v.validator) + stakeOf(w.validator));
    }
  }

  /** And a sum just past 2^128 is a small one: with 2^128 + 1 the two pass again. */
  lemma WrappedSumPasses(v: Vote, w: Vote, validators: set<Address>, stakeOf: Stakes)
    requires v.validator in validators && w.validator in validators && v.aye && w.aye
    requires stakeOf(v.validator) + stakeOf(w.validator) == U128_LIMIT + 1
    ensures Passes([v, w], validators, 0, stakeOf)
  {
    hide Eligible, Stake;
    PairStakes(v, w, validators, stakeOf, true);
    PairStakes(v, w, validators, stakeOf, false);
    assert Wrapped(U128_LIMIT + 1) == 1;
  }

  /** One vote of each member. */
  lemma {:induction false} VotesOf(s: set<Address>, voteOf: Address -> Vote) returns (votes: seq<Vote>)
    requires forall a :: voteOf(a).validator == a
    ensures OneEach(votes) && Voters(votes) == s && |votes| == |s|
    ensures forall v :: v in votes ==> v == voteOf(v.validator)
    decreases |s|
  {
    if s == {} {
      votes := [];
    } else {
      var x :| x in s;
      var rest := VotesOf(s - {x}, voteOf);
      votes := [voteOf(x)] + rest;
      OneMoreVoter(rest, voteOf(x));
    }
  }

  // -------------------------------------------------------- two of them at once

  /** The validators of an epoch and what each has staked. */
  datatype Table = Table(validators: set<Address>, stakeOf: Stakes)

  function Needed(t: Table): nat { MinVotes(|t.validators|) }

  predicate PassesIn(votes: seq<Vote>, t: Table) { Passes(votes, t.validators, Needed(t), t.stakeOf) }

  /** Two sets of validators, each enough to pass in its table, that share members of `shared` at most. */
  ghost predicate IsSplit(t1: Table, t2: Table, shared: set<Address>, a: set<Address>, b: set<Address>) {
    && a <= t1.validators && b <= t2.validators && a * b <= shared
    && |a| >= Needed(t1) && |b| >= Needed(t2) && Staked(a, t1.stakeOf) && Staked(b, t2.stakeOf)
  }

  /** Disjoint sets of `k1` and `k2` members can be taken from `p` and `q`. */
  predicate Room(p: set<Address>, q: set<Address>, k1: nat, k2: nat) {
    k1 <= |p| && k2 <= |q| && k1 + k2 <= |p + q|
  }

  /** The votes still missing once all of `shared` and `x` have voted. */
  function Missing(t: Table, shared: set<Address>, x: set<Address>): nat {
    Max(Needed(t) - |t.validators * shared| - |x|, 0)
  }

  /** With at most one staked voter set aside for each side, there is room for the votes still missing. */
  ghost predicate Bears(t1: Table, t2: Table, shared: set<Address>, x: set<Address>, y: set<Address>) {
    var p, q := t1.validators - shared, t2.validators - shared;
    && x <= p && y <= q && x !! y && |x| <= 1 && |y| <= 1
    && Staked(t1.validators * shared + x, t1.stakeOf) && Staked(t2.validators * shared + y, t2.stakeOf)
    && Room(p - x - y, q - x - y, Missing(t1, shared, x), Missing(t2, shared, y))
  }

  ghost predicate Separable(t1: Table, t2: Table, shared: set<Address>) {
    exists x, y :: Bears(t1, t2, shared, x, y)
  }

  lemma {:induction false} SubsetSize(a: set<Address>, b: set<Address>)
    requires a <= b
    ensures |a| <= |b|
    decreases |a|
  {
    if a != {} {
      var x :| x in a;
      SubsetSize(a - {x}, b - {x});
    }
  }

  lemma OutsideSize(validators: set<Address>, shared: set<Address>, a: set<Address>)
    requires a <= validators
    ensures |a - shared| >= |a| - |validators * shared|
  {
    assert a == (a - shared) + (a * shared);
    SubsetSize(a * shared, validators * shared);
  }

  lemma BearerOf(t: Table, shared: set<Address>, a: set<Address>) returns (x: set<Address>)
    requires a <= t.validators && Staked(a, t.stakeOf)
    ensures x <= a - shared && |x| <= 1 && Staked(t.validators * shared + x, t.stakeOf)
  {
    var z :| z in a && t.stakeOf(z) > 0;
    if z in shared {
      x := {};
      assert z in t.validators * shared + x;
    } else {
      x := {z};
      assert z in t.validators * shared + x;
    }
  }

  /** What `a` has beyond the shared members and the one set aside is missing votes or more. */
  lemma Beyond(t: Table, shared: set<Address>, a: set<Address>, x: set<Address>)
    requires a <= t.validators && |a| >= Needed(t) && x <= a - shared
    ensures |a - shared - x| >= Missing(t, shared, x)
  {
    OutsideSize(t.validators, shared, a);
    assert |a - shared - x| == |a - shared| - |x|;
  }

  lemma RoomFor(p: set<Address>, q: set<Address>, a: set<Address>, b: set<Address>, k1: nat, k2: nat)
    requires a <= p && b <= q && a !! b && k1 <= |a| && k2 <= |b|
    ensures Room(p, q, k1, k2)
  {
    SubsetSize(a, p);
    SubsetSize(b, q);
    SubsetSize(a + b, p + q);
  }

  /** What is left of two sets that meet inside `shared` only, once `x` and `y` are set aside. */
  lemma SetAside(v1: set<Address>, v2: set<Address>, shared: set<Address>, a: set<Address>, b: set<Address>,
                 x: set<Address>, y: set<Address>)
    requires a <= v1 && b <= v2 && a * b <= shared && x <= a - shared && y <= b - shared
    ensures x !! y && a - shared - x <= v1 - shared - x - y && b - shared - y <= v2 - shared - x - y
    ensures a - shared - x !! b - shared - y
  {
    forall z | z in a - shared ensures z !in b {
      assert z in b ==> z in a * b;
    }
  }

  lemma SplitBears(t1: Table, t2: Table, shared: set<Address>, a: set<Address>, b: set<Address>)
    requires IsSplit(t1, t2, shared, a, b)
    ensures Separable(t1, t2, shared)
  {
    hide Staked, Room, Missing, Needed;
    var x := BearerOf(t1, shared, a);
    var y := BearerOf(t2, shared, b);
    var p, q := t1.validators - shared, t2.validators - shared;
    SetAside(t1.validators, t2.validators, shared, a, b, x, y);
    Beyond(t1, shared, a, x);
    Beyond(t2, shared, b, y);
    RoomFor(p - x - y, q - x - y, a - shared - x, b - shared - y, Missing(t1, shared, x), Missing(t2, shared, y));
    assert Bears(t1, t2, shared, x, y);
  }

  lemma {:induction false} Choose(s: set<Address>, k: nat) returns (t: set<Address>)
    requires k <= |s|
    ensures t <= s && |t| == k
    decreases k
  {
    if k == 0 {
      t := {};
    } else {
      var x :| x in s;
      var rest := Choose(s - {x}, k - 1);
      t := rest + {x};
    }
  }

  /** Taking first from what only `p` has leaves enough in `q`. */
  lemma ChooseApart(p: set<Address>, q: set<Address>, k1: nat, k2: nat) returns (a: set<Address>, b: set<Address>)
    requires Room(p, q, k1, k2)
    ensures a <= p && b <= q && a !! b && |a| == k1 && |b| == k2
  {
    if k1 <= |p - q| {
      a := Choose(p - q, k1);
      b := Choose(q, k2);
    } else {
      assert p == (p - q) + p * q && p + q == (p - q) + q;
      var both := Choose(p * q, k1 - |p - q|);
      a := (p - q) + both;
      assert |q - both| == |q| - |both|;
      b := Choose(q - both, k2);
    }
  }

  /** A table's shared validators, the one set aside and as many others as are missing. */
  lemma Assemble(t: Table, shared: set<Address>, x: set<Address>, a: set<Address>)
    requires x <= t.validators - shared && a <= t.validators - shared - x && |a| == Missing(t, shared, x)
    requires Staked(t.validators * shared + x, t.stakeOf)
    ensures var s := t.validators * shared + x + a;
            s <= t.validators && |s| >= Needed(t) && Staked(s, t.stakeOf) && s - shared == x + a
  {
    hide Staked;
    var c := t.validators * shared;
    assert c !! x && c + x !! a;
    assert |c + x + a| == |c + x| + |a| == |c| + |x| + |a|;
    StakedMore(c + x, c + x + a, t.stakeOf);
  }

  lemma MeetInside(a: set<Address>, b: set<Address>, shared: set<Address>)
    requires a - shared !! b - shared
    ensures a * b <= shared
  {
    forall z | z in a * b ensures z in shared {
      assert z !in shared ==> z in a - shared && z in b - shared;
    }
  }

  lemma BearsSplit(t1: Table, t2: Table, shared: set<Address>, x: set<Address>, y: set<Address>)
      returns (a: set<Address>, b: set<Address>)
    requires Bears(t1, t2, shared, x, y)
    ensures IsSplit(t1, t2, shared, a, b)
  {
    hide Staked, Room, Missing, Needed;
    var p, q := t1.validators - shared, t2.validators - shared;
    var a', b' := ChooseApart(p - x - y, q - x - y, Missing(t1, shared, x), Missing(t2, shared, y));
    a, b := t1.validators * shared + x + a', t2.validators * shared + y + b';
    Assemble(t1, shared, x, a');
    Assemble(t2, shared, y, b');
    assert x + a' !! y + b';
    MeetInside(a, b, shared);
  }

  lemma StakedMore(s: set<Address>, t: set<Address>, stakeOf: Stakes)
    requires s <= t && Staked(s, stakeOf)
    ensures Staked(t, stakeOf)
  {
  }

  // ------------------------------------------------------------------ one table

  ghost predicate TwoStaked(s: set<Address>, stakeOf: Stakes) {
    exists a, b :: a in s && b in s && a != b && stakeOf(a) > 0 && stakeOf(b) > 0
  }

  /** Enough validators outside `shared` to complete both sets, with stake on either side. */
  ghost predicate Splittable(t: Table, shared: set<Address>) {
    var others, common := t.validators - shared, t.validators * shared;
    if Staked(common, t.stakeOf) then 2 * Max(Needed(t) - |common|, 0) <= |others|
    else 2 * Max(Needed(t) - |common|, 1) <= |others| && TwoStaked(others, t.stakeOf)
  }

  lemma SelfRoom(p: set<Address>, k1: nat, k2: nat)
    ensures Room(p, p, k1, k2) <==> k1 + k2 <= |p|
  {
    assert p + p == p;
  }

  lemma SetAsideSize(p: set<Address>, x: set<Address>, y: set<Address>)
    requires x <= p && y <= p && x !! y
    ensures |p - x - y| == |p| - |x| - |y|
  {
  }

  lemma SharedBears(t: Table, shared: set<Address>)
    requires Staked(t.validators * shared, t.stakeOf) && Splittable(t, shared)
    ensures Bears(t, t, shared, {}, {})
  {
    hide Staked;
    var others, common := t.validators - shared, t.validators * shared;
    assert others - {} - {} == others && common + {} == common;
    SelfRoom(others, Missing(t, shared, {}), Missing(t, shared, {}));
  }

  lemma PairBears(t: Table, shared: set<Address>, x: Address, y: Address)
    requires x in t.validators - shared && y in t.validators - shared && x != y
    requires t.stakeOf(x) > 0 && t.stakeOf(y) > 0
    requires 2 * Max(Needed(t) - |t.validators * shared|, 1) <= |t.validators - shared|
    ensures Bears(t, t, shared, {x}, {y})
  {
    hide Room, Needed;
    var others, common := t.validators - shared, t.validators * shared;
    assert x in common + {x} && y in common + {y};
    SetAsideSize(others, {x}, {y});
    SelfRoom(others - {x} - {y}, Missing(t, shared, {x}), Missing(t, shared, {y}));
  }

  lemma SplittableBears(t: Table, shared: set<Address>)
    requires Splittable(t, shared)
    ensures Separable(t, t, shared)
  {
    hide Bears;
    var others := t.validators - shared;
    if Staked(t.validators * shared, t.stakeOf) {
      SharedBears(t, shared);
    } else {
      var x, y :| x in others && y in others && x != y && t.stakeOf(x) > 0 && t.stakeOf(y) > 0;
      PairBears(t, shared, x, y);
    }
  }

  lemma NewBearer(common: set<Address>, x: set<Address>, stakeOf: Stakes) returns (u: Address)
    requires !Staked(common, stakeOf) && Staked(common + x, stakeOf) && |x| <= 1
    ensures u in x && stakeOf(u) > 0 && |x| == 1
  {
    u :| u in common + x && stakeOf(u) > 0;
    assert u !in common;
    SubsetSize({u}, x);
  }

  lemma BearsSizes(t: Table, shared: set<Address>, x: set<Address>, y: set<Address>)
    requires Bears(t, t, shared, x, y)
    ensures Missing(t, shared, x) + Missing(t, shared, y) <= |t.validators - shared| - |x| - |y|
  {
    hide Staked, Missing;
    SetAsideSize(t.validators - shared, x, y);
    SelfRoom(t.validators - shared - x - y, Missing(t, shared, x), Missing(t, shared, y));
  }

  lemma BearsStake(t: Table, shared: set<Address>, x: set<Address>, y: set<Address>)
    requires Bears(t, t, shared, x, y) && !Staked(t.validators * shared, t.stakeOf)
    ensures |x| == 1 && |y| == 1 && TwoStaked(t.validators - shared, t.stakeOf)
  {
    hide Room, Missing, Staked;
    var u := NewBearer(t.validators * shared, x, t.stakeOf);
    var v := NewBearer(t.validators * shared, y, t.stakeOf);
    assert u in t.validators - shared && v in t.validators - shared && u != v;
  }

  lemma BearsSplittable(t: Table, shared: set<Address>, x: set<Address>, y: set<Address>)
    requires Bears(t, t, shared, x, y)
    ensures Splittable(t, shared)
  {
    hide Bears, Staked, TwoStaked, Needed;
    BearsSizes(t, shared, x, y);
    if !Staked(t.validators * shared, t.stakeOf) {
      BearsStake(t, shared, x, y);
    }
  }

  /** Two blocks judged by one table: what may be shared decides by size and stake alone. */
  lemma SameTable(t: Table, shared: set<Address>)
    ensures Separable(t, t, shared) <==> Splittable(t, shared)
  {
    hide Splittable, Bears;
    if Splittable(t, shared) {
      SplittableBears(t, shared);
    }
    if Separable(t, t, shared) {
      var x, y :| Bears(t, t, shared, x, y);
      BearsSplittable(t, shared, x, y);
    }
  }

  // ------------------------------------------------------------- two passing counts

  /** Both lists pass, without double votes, and only members of `shared` vote in both. */
  ghost predicate BothPass(t1: Table, t2: Table, shared: set<Address>, a: seq<Vote>, b: seq<Vote>) {
    && OneEach(a) && OneEach(b) && PassesIn(a, t1) && PassesIn(b, t2)
    && Voters(a) * Voters(b) * t1.validators * t2.validators <= shared
  }

  ghost predicate CountableIn(t: Table) { Countable(t.validators, t.stakeOf) }

  /** The votes are made by `voteOf1` and `voteOf2`, all of them ayes. */
  lemma SplitPasses(t1: Table, t2: Table, shared: set<Address>, voteOf1: Address -> Vote, voteOf2: Address -> Vote)
      returns (a: seq<Vote>, b: seq<Vote>)
    requires forall x :: voteOf1(x).validator == x && voteOf1(x).aye
    requires forall x :: voteOf2(x).validator == x && voteOf2(x).aye
    requires CountableIn(t1) && CountableIn(t2) && Separable(t1, t2, shared)
    ensures BothPass(t1, t2, shared, a, b) && Voters(a) <= t1.validators && Voters(b) <= t2.validators
    ensures (forall v :: v in a ==> v == voteOf1(v.validator)) && (forall v :: v in b ==> v == voteOf2(v.validator))
    ensures Voters(a) * Voters(b) <= shared
  {
    hide Bears, Passes, Countable;
    var x, y :| Bears(t1, t2, shared, x, y);
    var s, u := BearsSplit(t1, t2, shared, x, y);
    a := VotesOf(s, voteOf1);
    b := VotesOf(u, voteOf2);
    AyesPass(a, t1.validators, Needed(t1), t1.stakeOf);
    AyesPass(b, t2.validators, Needed(t2), t2.stakeOf);
  }

  lemma BothPassSplits(t1: Table, t2: Table, shared: set<Address>, a: seq<Vote>, b: seq<Vote>)
    requires BothPass(t1, t2, shared, a, b)
    ensures Separable(t1, t2, shared)
  {
    hide Separable, Passes;
    var s := PassingVoters(a, t1.validators, Needed(t1), t1.stakeOf);
    var u := PassingVoters(b, t2.validators, Needed(t2), t2.stakeOf);
    assert s * u <= Voters(a) * Voters(b) * t1.validators * t2.validators;
    SplitBears(t1, t2, shared, s, u);
  }

  function AyeOf(a: Address): Vote { Vote(0, ZERO_HASH, a, 0, true, a, []) }

  /** Two counts can pass with no more than `shared` voting in both exactly when the validators can be so divided. */
  lemma BothPassIff(t1: Table, t2: Table, shared: set<Address>)
    requires CountableIn(t1) && CountableIn(t2)
    ensures (exists a, b :: BothPass(t1, t2, shared, a, b)) <==> Separable(t1, t2, shared)
  {
    hide Separable, BothPass, CountableIn;
    if Separable(t1, t2, shared) {
      var a, b := SplitPasses(t1, t2, shared, AyeOf, AyeOf);
    }
    forall a, b | BothPass(t1, t2, shared, a, b) ensures Separable(t1, t2, shared) {
      BothPassSplits(t1, t2, shared, a, b);
    }
  }

  /**
   * Any two counts that pass in one table share a voting validator exactly when no two
   * validators have stake, or the threshold, and at least one vote, is more than half of
   * the validators. Of the latter the 60 per cent, cut to an integer, takes care for 0, 1,
   * 5, 7 and at least 9 validators, and for no other number.
   */
  lemma QuorumsMeetIff(t: Table)
    requires CountableIn(t)
    ensures (forall a, b :: OneEach(a) && PassesIn(a, t) && OneEach(b) && PassesIn(b, t)
                            ==> Voters(a) * Voters(b) * t.validators != {})
        <==> !TwoStaked(t.validators, t.stakeOf) || 2 * Max(Needed(t), 1) > |t.validators|
    ensures var n := |t.validators|;
            2 * Max(Needed(t), 1) > n <==> n <= 1 || n == 5 || n == 7 || n >= 9
  {
    hide Splittable, Separable, PassesIn, OneEach, Voters, CountableIn, TwoStaked, Needed, BothPass;
    ThresholdSizes(t);
    NothingShared(t);
    SameTable(t, {});
    BothPassIff(t, t, {});
    if exists a, b :: BothPass(t, t, {}, a, b) {
      var a, b :| BothPass(t, t, {}, a, b);
      MeetNowhere(t, a, b);
    } else {
      forall a, b | OneEach(a) && PassesIn(a, t) && OneEach(b) && PassesIn(b, t)
        ensures Voters(a) * Voters(b) * t.validators != {}
      {
        MeetNowhere(t, a, b);
      }
    }
  }

  lemma ThresholdSizes(t: Table)
    ensures var n := |t.validators|;
            2 * Max(Needed(t), 1) > n <==> n <= 1 || n == 5 || n == 7 || n >= 9
  {
  }

  lemma MeetNowhere(t: Table, a: seq<Vote>, b: seq<Vote>)
    ensures BothPass(t, t, {}, a, b)
        <==> (OneEach(a) && PassesIn(a, t) && OneEach(b) && PassesIn(b, t)
              && Voters(a) * Voters(b) * t.validators == {})
  {
    hide PassesIn, OneEach, Voters;
    assert Voters(a) * Voters(b) * t.validators * t.validators == Voters(a) * Voters(b) * t.validators;
  }

  lemma NothingShared(t: Table)
    ensures Splittable(t, {}) <==> 2 * Max(Needed(t), 1) <= |t.validators| && TwoStaked(t.validators, t.stakeOf)
  {
    assert t.validators - {} == t.validators && t.validators * {} == {};
  }

  lemma PairPasses(v: Vote, w: Vote, validators: set<Address>, stakeOf: Stakes)
    requires v.validator in validators && w.validator in validators && v.aye && w.aye
    requires 0 < stakeOf(v.validator) + stakeOf(w.validator) < 1000
    ensures Passes([v, w], validators, 2, stakeOf)
  {
    PairStakes(v, w, validators, stakeOf, true);
    PairStakes(v, w, validators, stakeOf, false);
    assert [v, w][1..] == [w] && [w][1..] == [];
    assert |Eligible([v, w], validators)| == 2 by {
      assert Eligible([w], validators) == [w];
    }
    hide Eligible, Stake, Wrapped;
    WrapFits(stakeOf(v.validator) + stakeOf(w.validator));
  }

  function UnitStake(a: Address): U128 { 1 }

  /** Four validators of equal stake: two of them pass a count, and so do the other two. */
  lemma DisjointCountsPass()
    ensures Passes([AyeOf(1), AyeOf(2)], {1, 2, 3, 4}, MinVotes(4), UnitStake)
    ensures Passes([AyeOf(3), AyeOf(4)], {1, 2, 3, 4}, MinVotes(4), UnitStake)
    ensures Voters([AyeOf(1), AyeOf(2)]) !! Voters([AyeOf(3), AyeOf(4)])
  {
    PairPasses(AyeOf(1), AyeOf(2), {1, 2, 3, 4}, UnitStake);
    PairPasses(AyeOf(3), AyeOf(4), {1, 2, 3, 4}, UnitStake);
  }
}
