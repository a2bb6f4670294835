/**
 * The node as an object: the pending blocks and chain tables that the handlers change in
 * place, each method proved against the function of `Consensus` it carries out.
 */
module ConsensusNode {
  import opened Primitives
  import opened ChainStore
  import opened Consensus

  // ------------------------------------------------------------ searching and sorting

  method FindVote(votes: seq<Vote>, key: Key) returns (r: Option<Vote>)
    ensures r == FirstVote(votes, key)
  {
    for i := 0 to |votes|
      invariant FirstVote(votes[i..], key) == FirstVote(votes, key)
    {
      assert votes[i..][1..] == votes[i + 1..];
      if votes[i].key == key {
        return Some(votes[i]);
      }
    }
    return None;
  }

  method ValidateVoteResults(results: seq<VoteResult>, b: Block, resultOk: VoteResult -> bool) returns (ok: bool)
    ensures ok <==> forall i :: 0 <= i < |results| ==> ResultValid(results[i], b, resultOk)
  {
    for i := 0 to |results|
      invariant forall j :: 0 <= j < i ==> ResultValid(results[j], b, resultOk)
    {
      if !ResultValid(results[i], b, resultOk) {
        return false;
      }
    }
    return true;
  }

  /** The first vote result that passes; an error before it ends the search with an error. */
  method PassedVoteResult(results: seq<VoteResult>, passes: VoteResult -> Option<bool>) returns (r: Option<VoteResult>)
    ensures r.Some? <==> exists i :: 0 <= i < |results| && FirstVerdict(results, passes, i)
    ensures r.Some? ==> exists i :: 0 <= i < |results| && FirstVerdict(results, passes, i) && results[i] == r.value
  {
    r := None;
    for i := 0 to |results|
      invariant r == None && forall j :: 0 <= j < i ==> passes(results[j]) == Some(false)
    {
      if passes(results[i]).None? {
        return None;
      }
      if passes(results[i]).value {
        assert FirstVerdict(results, passes, i);
        r := Some(results[i]);
        break;
      }
    }
  }

  lemma LeastFirst(ns: seq<BlockNumber>)
    requires ns != [] && Increasing(ns)
    ensures Elements(ns) != {} && Least(Elements(ns)) == ns[0] && Elements(ns) - {ns[0]} == Elements(ns[1..])
    ensures Increasing(ns[1..])
  {
    assert ns[0] in Elements(ns);
    forall k | k in ns[1..] ensures k in ns && ns[0] < k {
      var i :| 0 <= i < |ns[1..]| && ns[1..][i] == k;
      assert ns[i + 1] == k;
    }
    forall k | k in ns ensures k == ns[0] || k in ns[1..] {
      var i :| 0 <= i < |ns| && ns[i] == k;
      assert i > 0 ==> ns[1..][i - 1] == k;
    }
  }

  /** There is only one ascending list of a set of numbers. */
  lemma AscendingNone(ns: seq<BlockNumber>)
    requires ns == []
    ensures Ascending(Elements(ns)) == []
  {
    assert Elements(ns) == {};
  }

  lemma AscendingStarts(s: set<BlockNumber>)
    requires s != {}
    ensures Ascending(s) == [Least(s)] + Ascending(s - {Least(s)})
  {
    hide Least;
  }

  lemma {:induction false} AscendingUnique(ns: seq<BlockNumber>)
    requires Increasing(ns)
    ensures Ascending(Elements(ns)) == ns
    decreases |ns|
  {
    hide Elements, Increasing, Least, Ascending, IsLeast;
    if ns == [] {
      AscendingNone(ns);
    } else {
      LeastFirst(ns);
      AscendingUnique(ns[1..]);
      AscendingStarts(Elements(ns));
      assert [ns[0]] + ns[1..] == ns;
    }
  }

  function InsertNumber(ns: seq<BlockNumber>, k: BlockNumber): seq<BlockNumber>
    decreases |ns|
  {
    if ns == [] || k < ns[0] then [k] + ns else [ns[0]] + InsertNumber(ns[1..], k)
  }

  lemma {:induction false} InsertIncreasing(ns: seq<BlockNumber>, k: BlockNumber)
    requires Increasing(ns) && k !in ns
    ensures forall x :: x in InsertNumber(ns, k) <==> x in ns || x == k
    ensures Increasing(InsertNumber(ns, k))
    decreases |ns|
  {
    if !(ns == [] || k < ns[0]) {
      var rest := InsertNumber(ns[1..], k);
      InsertIncreasing(ns[1..], k);
      assert ns == [ns[0]] + ns[1..];
      forall i | 0 <= i < |rest| ensures ns[0] < rest[i] {
        assert rest[i] in rest;
      }
    }
  }

  method SortNumbers(keys: set<BlockNumber>) returns (ns: seq<BlockNumber>)
    ensures ns == Ascending(keys)
  {
    hide InsertNumber, Increasing;
    var rest := keys;
    ns := [];
    NoneIncreasing();
    while rest != {}
      invariant rest <= keys && Increasing(ns) && forall x :: x in ns <==> x in keys - rest
      decreases rest
    {
      var k :| k in rest;
      InsertIncreasing(ns, k);
      ns := InsertNumber(ns, k);
      rest := rest - {k};
    }
    assert Elements(ns) == keys;
    AscendingUnique(ns);
  }

  lemma NoneIncreasing()
    ensures Increasing([])
  {
  }

  // ------------------------------------------------------------- pending blocks

  lemma FiledMinus(m: PendingMap, ns: set<BlockNumber>)
    requires Filed(m)
    ensures Filed(m - ns)
  {
  }

  lemma TryOneFiled(cfg: Config, nd: Node, n: BlockNumber, a: Answers)
    requires n in nd.pending && Filed(nd.pending)
    ensures TryOne(cfg, nd, n, a).node.pending.Keys == nd.pending.Keys && Filed(TryOne(cfg, nd, n, a).node.pending)
  {
    hide Accept, HeaderOk, Carried;
  }

  class PendingBlocks {
    const cfg: Config
    const store: BlockStore
    var blocks: PendingMap
    var log: seq<Header>
    var sent: seq<Vote>
    var created: seq<Vote>
    var published: seq<VoteResult>
    var relayed: seq<Vote>
    var elected: seq<Epoch>

    ghost function View(): Node
      reads this, store
    {
      Node(Core(store.View(), log), blocks, sent, created, published, relayed, elected)
    }

    constructor (cfg: Config, store: BlockStore, log: seq<Header>)
      ensures this.cfg == cfg && this.store == store
      ensures View() == Started(Core(store.View(), log))
    {
      this.cfg, this.store, this.log, blocks := cfg, store, log, map[];
      sent, created, published, relayed, elected := [], [], [], [], [];
    }

    method AddVote(v: Vote)
      modifies this`blocks
      ensures blocks == Consensus.AddVote(old(blocks), v)
    {
      if v.number in blocks {
        var p := blocks[v.number];
        blocks := blocks[v.number := p.(votes := p.votes + [v])];
      } else {
        blocks := blocks[v.number := NEW_PENDING.(votes := [v])];
        assert [] + [v] == [v];
      }
    }

    method AddVoteResult(r: VoteResult)
      modifies this`blocks
      ensures blocks == AddResult(old(blocks), r)
    {
      if r.number in blocks {
        var p := blocks[r.number];
        blocks := blocks[r.number := p.(results := p.results + [r])];
      } else {
        blocks := blocks[r.number := NEW_PENDING.(results := [r])];
        assert [] + [r] == [r];
      }
    }

    method AddBlock(p: Payload)
      modifies this`blocks
      ensures blocks == Consensus.AddBlock(old(blocks), p)
    {
      var n := p.block.header.number;
      if n in blocks {
        blocks := blocks[n := blocks[n].(block := Some(p))];
      } else {
        blocks := blocks[n := NEW_PENDING.(block := Some(p))];
      }
    }

    method RemoveBlock(n: BlockNumber)
      modifies this`blocks
      ensures blocks == old(blocks) - {n}
    {
      blocks := blocks - {n};
    }

    method Announce(r: VoteResult, v: Vote)
      modifies this`published, this`sent, this`relayed
      ensures View() == Publish(cfg, old(View()), r, v)
    {
      published := published + [r];
      sent := sent + OwnIn(cfg, r.votes);
      relayed := relayed + [v];
    }

    method IsBlockExecuted(n: BlockNumber, c: Address) returns (r: bool)
      ensures r == IsExecuted(store.View(), n, c)
    {
      r := (c, n) in store.executed && store.executed[(c, n)];
    }

    method ValidateHeader(b: Block) returns (ok: bool)
      ensures ok == HeaderOk(store.View(), cfg.cluster, b)
    {
      var chain := if cfg.cluster in store.heads then store.heads[cfg.cluster] else Head(0, ZERO_HASH);
      if chain.number !in store.headers {
        return false;
      }
      var last := RowHeader(store.headers[chain.number]);
      ok := true;
      if last != b.header {
        ok := Succeeds(last, b);
      }
    }

    method ExecuteBlock(b: Block, executes: bool) returns (ok: bool)
      modifies this`log, store`executed
      ensures var done := Execute(old(View()).core, b.header, executes); View().core == done.core && ok == done.ok
    {
      var already := IsBlockExecuted(b.header.number, b.header.cluster);
      if already {
        return true;
      }
      if executes {
        store.SetBlockExecuted(b.header.number, b.header.cluster);
        log := log + [b.header];
      }
      ok := executes;
    }

    method StoreAndExecute(b: Block, executes: bool) returns (ok: bool)
      requires b.header.number >= 1
      modifies this`log, store
      ensures var done := Accept(old(View()).core, b, executes); View().core == done.core && ok == done.ok
    {
      store.InsertBlock(b);
      ok := ExecuteBlock(b, executes);
    }

    method Vote(n: BlockNumber, h: Header)
      requires n in blocks
      modifies this`blocks, this`sent, this`created
      ensures View() == CastVote(cfg, old(View()), n, h)
    {
      var p := blocks[n];
      var found := FindVote(p.votes, cfg.key);
      if found.Some? {
        sent := sent + OwnIn(cfg, [found.value]);
      } else {
        var v := OwnVote(cfg, h);
        blocks := blocks[n := p.(votes := p.votes + [v])];
        created := created + [v];
        sent := sent + [v];
      }
    }

    /** `PendingBlock::try_to_finalize` */
    method TryBlock(n: BlockNumber, a: Answers) returns (ok: bool)
      requires n in blocks && Filed(blocks)
      modifies this, store
      ensures var t := TryOne(cfg, old(View()), n, a); View() == t.node && ok == t.ok
      ensures blocks.Keys == old(blocks.Keys) && Filed(blocks)
    {
      hide Filed, Carried, HeaderOk, Accept, CastVote, StartsEpoch;
      TryOneFiled(cfg, View(), n, a);
      var p := blocks[n];
      if p.block.None? || !a.belowMaxHeight || p.block.value.block.header.kind == SystemBlock || !a.proposalOk {
        return false;
      }
      var b := p.block.value.block;
      FiledAt(blocks, n);
      var valid := ValidateHeader(b);
      if !valid || !a.validatorsKnown {
        return false;
      }
      if a.isValidator && !a.isProposer {
        Vote(n, b.header);
      }
      var passed := CheckVotes(p.results, b, a);
      if !passed {
        return false;
      }
      if StartsEpoch(cfg, b.header) {
        if !a.selects {
          return false;
        }
        elected := elected + [cfg.epochOf(b.header.number + 1)];
      }
      ok := StoreAndExecute(b, a.executes);
    }

    method CheckVotes(results: seq<VoteResult>, b: Block, a: Answers) returns (ok: bool)
      ensures ok == Carried(results, b, a)
    {
      var valid := ValidateVoteResults(results, b, a.resultOk);
      if !valid {
        return false;
      }
      var r := PassedVoteResult(results, a.passes);
      ok := r.Some?;
    }

    /** The loop over the ascending numbers, up to the first that cannot be finalised. */
    method Sweep(ns: seq<BlockNumber>, ask: Oracle) returns (finalised: seq<BlockNumber>)
      requires Filed(blocks) && forall i :: 0 <= i < |ns| ==> ns[i] in blocks
      modifies this, store
      ensures var p := RunPass(cfg, old(View()), ns, ask); View() == p.node && finalised == p.finalised
      ensures Filed(blocks)
    {
      hide TryOne, Filed;
      ghost var whole := RunPass(cfg, View(), ns, ask);
      finalised := [];
      var i := 0;
      while i < |ns|
        invariant 0 <= i <= |ns| && Filed(blocks)
        invariant forall j :: 0 <= j < |ns| ==> ns[j] in blocks
        invariant var rest := RunPass(cfg, View(), ns[i..], ask);
                  rest.node == whole.node && finalised + rest.finalised == whole.finalised
      {
        assert ns[i..][1..] == ns[i + 1..];
        var executed := IsBlockExecuted(ns[i], cfg.cluster);
        if !executed {
          var ok := TryBlock(ns[i], ask(ns[i]));
          if !ok {
            return;
          }
        }
        finalised := finalised + [ns[i]];
        i := i + 1;
      }
    }

    method RemoveAll(ns: seq<BlockNumber>)
      modifies this`blocks
      ensures blocks == old(blocks) - Elements(ns)
    {
      var i := 0;
      while i < |ns|
        invariant 0 <= i <= |ns| && blocks == old(blocks) - Elements(ns[..i])
      {
        RemoveBlock(ns[i]);
        assert Elements(ns[..i + 1]) == Elements(ns[..i]) + {ns[i]};
        i := i + 1;
      }
      assert ns[..i] == ns;
    }

    /** `PendingBlocks::try_to_finalize` */
    method TryToFinalize(ask: Oracle)
      requires Filed(blocks)
      modifies this, store
      ensures View() == Finalize(cfg, old(View()), ask) && Filed(blocks)
    {
      hide RunPass, Filed, Elements;
      var ns := SortNumbers(blocks.Keys);
      var finalised := Sweep(ns, ask);
      FiledMinus(blocks, Elements(finalised));
      RemoveAll(finalised);
    }
  }

  // ---------------------------------------------------------------- the handlers

  class Handlers {
    const pending: PendingBlocks
    const cfg: Config

    constructor (pending: PendingBlocks)
      ensures this.pending == pending && cfg == pending.cfg
    {
      this.pending, cfg := pending, pending.cfg;
    }

    ghost predicate Valid() reads this, pending { cfg == pending.cfg && Filed(pending.blocks) }

    ghost function View(): Node reads this, pending, pending.store { pending.View() }

    method ReceiveValidateBlock(p: Payload, authorised: bool, ask: Oracle)
      requires Valid() && p.block.header.number >= 1
      modifies pending, pending.store
      ensures Valid() && View() == OnValidateBlock(cfg, old(View()), p, authorised, ask)
    {
      hide Finalize;
      if !authorised {
        return;
      }
      var executed := pending.IsBlockExecuted(p.block.header.number, cfg.cluster);
      if executed {
        return;
      }
      pending.AddBlock(p);
      pending.TryToFinalize(ask);
    }

    method ReceiveVote(v: Vote, asProposer: bool, validatorsKnown: bool, tally: seq<Vote> -> Option<seq<Vote>>,
                       ask: Oracle)
      requires Valid()
      modifies pending, pending.store
      ensures Valid() && View() == OnVote(cfg, old(View()), v, asProposer, validatorsKnown, tally, ask)
    {
      hide Finalize, Publish, VoteResultOf, AddResult;
      if cfg.addressOf(cfg.key).None? || !asProposer {
        return;
      }
      if v.number !in pending.blocks {
        var executed := pending.IsBlockExecuted(v.number, cfg.cluster);
        if executed {
          return;
        }
      }
      pending.AddVote(v);
      if !validatorsKnown {
        return;
      }
      var r := VoteResultOf(cfg, pending.blocks[v.number].votes, tally);
      if r.None? {
        return;
      }
      FiledAddResult(pending.blocks, r.value);
      pending.AddVoteResult(r.value);
      if cfg.multinode {
        pending.Announce(r.value, v);
        pending.TryToFinalize(ask);
      }
    }

    method ReceiveVoteResult(r: VoteResult, ask: Oracle)
      requires Valid()
      modifies pending, pending.store
      ensures Valid() && View() == OnVoteResult(cfg, old(View()), r, ask)
    {
      hide Finalize;
      pending.AddVoteResult(r);
      pending.TryToFinalize(ask);
    }

    method ReceiveBlock(p: Payload, valid: bool, evidence: Option<VoteResult>, resultOk: VoteResult -> bool,
                        executes: bool, ask: Oracle)
      requires Valid() && p.block.header.number >= 1
      modifies pending, pending.store
      ensures Valid() && View() == OnBlock(cfg, old(View()), p, valid, evidence, resultOk, executes, ask)
    {
      hide Finalize, HeaderOk, Execute, StoreBlock;
      var executed := pending.IsBlockExecuted(p.block.header.number, cfg.cluster);
      if executed || !valid || cfg.addressOf(p.key) != Some(p.sender) {
        return;
      }
      var headerOk := pending.ValidateHeader(p.block);
      if !headerOk {
        return;
      }
      pending.store.InsertBlock(p.block);
      if evidence.Some? && !ResultValid(evidence.value, p.block, resultOk) {
        return;
      }
      var ok := pending.ExecuteBlock(p.block, executes);
      if ok {
        pending.TryToFinalize(ask);
      }
    }

    method AddAndBroadcastBlock(p: Payload, authorised: bool)
      requires Valid() && p.block.header.number >= 1
      modifies pending
      ensures Valid() && View() == OnPropose(cfg, old(View()), p, authorised)
    {
      var n := p.block.header.number;
      if !authorised || n in pending.store.headers {
        return;
      }
      if pending.blocks != map[] && n - 1 !in pending.blocks {
        return;
      }
      if n in pending.blocks {
        var entry := pending.blocks[n];
        var proposer := cfg.addressOf(p.key);
        if proposer.None? || entry.block.None? {
          return;
        }
        var previous := cfg.addressOf(entry.block.value.key);
        if previous.None? {
          return;
        }
        if proposer == previous {
          var again := FindVote(entry.votes, p.key);
          if again.Some? {
            pending.sent := pending.sent + OwnIn(cfg, [again.value]);
          }
          return;
        }
        if entry.block.value.block.header.hash != p.block.header.hash {
          pending.RemoveBlock(n);
          return;
        }
      }
      pending.AddVote(OwnVote(cfg, p.block.header));
      pending.AddBlock(p);
    }
  }
}
