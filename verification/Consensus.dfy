/**
 * One node's consensus state: pending blocks by number with their votes and vote
 * results, and the chain tables. Each message handler is a function from node state to
 * node state. What other crates decide (signatures, proposer and validator tables,
 * transaction checks, vote thresholds, execution results) comes in as answers that may
 * be anything.
 */
module Consensus {
  import opened Primitives
  import opened ChainStore

  datatype Payload = Payload(block: Block, key: Key, sender: Address)

  datatype Vote = Vote(number: BlockNumber, hash: Hash, cluster: Address, epoch: Epoch, aye: bool,
                       validator: Address, key: Key)

  datatype VoteResult = VoteResult(number: BlockNumber, hash: Hash, cluster: Address, validator: Address, key: Key,
                                   passed: bool, votes: seq<Vote>)

  datatype Pending = Pending(votes: seq<Vote>, results: seq<VoteResult>, block: Option<Payload>)

  const NEW_PENDING := Pending([], [], None)

  type PendingMap = map<BlockNumber, Pending>

  datatype Config = Config(cluster: Address, address: Address, key: Key, multinode: bool,
                           addressOf: Key -> Option<Address>, epochOf: nat -> Epoch)

  /**
   * What the rest of the node answers while one pending block is tried. Whether a vote
   * result passes may itself end in an error (None).
   */
  datatype Answers = Answers(belowMaxHeight: bool, proposalOk: bool, validatorsKnown: bool, isValidator: bool,
                             isProposer: bool, resultOk: VoteResult -> bool, passes: VoteResult -> Option<bool>,
                             selects: bool, executes: bool)

  type Oracle = BlockNumber -> Answers

  /** The tables, and the headers of the executed blocks in execution order. */
  datatype Core = Core(store: Store, log: seq<Header>)

  /**
   * `sent` lists the own votes that left the node, by themselves or inside a vote result it
   * generated, and `created` those its finalise path signed; `published` and `relayed` are
   * the vote results it generated and the received votes it passed on; `elected` lists the
   * epochs for which it selected validators and proposer.
   */
  datatype Node = Node(core: Core, pending: PendingMap, sent: seq<Vote>, created: seq<Vote>,
                       published: seq<VoteResult>, relayed: seq<Vote>, elected: seq<Epoch>)

  // ------------------------------------------------------------ the pending map

  function Entry(m: PendingMap, n: BlockNumber): Pending { if n in m then m[n] else NEW_PENDING }

  function AddVote(m: PendingMap, v: Vote): PendingMap {
    m[v.number := Entry(m, v.number).(votes := Entry(m, v.number).votes + [v])]
  }

  function AddResult(m: PendingMap, r: VoteResult): PendingMap {
    m[r.number := Entry(m, r.number).(results := Entry(m, r.number).results + [r])]
  }

  function AddBlock(m: PendingMap, p: Payload): PendingMap {
    m[p.block.header.number := Entry(m, p.block.header.number).(block := Some(p))]
  }

  /** Every pending block is filed under its own number, which is at least 1. */
  ghost predicate Filed(m: PendingMap) {
    forall n :: n in m && m[n].block.Some? ==> m[n].block.value.block.header.number == n && n >= 1
  }

  lemma FiledAddVote(m: PendingMap, v: Vote)
    requires Filed(m)
    ensures Filed(AddVote(m, v))
  {
  }

  lemma FiledAddResult(m: PendingMap, r: VoteResult)
    requires Filed(m)
    ensures Filed(AddResult(m, r))
  {
  }

  lemma FiledAddBlock(m: PendingMap, p: Payload)
    requires Filed(m) && p.block.header.number >= 1
    ensures Filed(AddBlock(m, p))
  {
  }

  lemma FiledAt(m: PendingMap, n: BlockNumber)
    requires Filed(m) && n in m && m[n].block.Some?
    ensures m[n].block.value.block.header.number == n && n >= 1
  {
  }

  /** The first vote cast with this key. */
  function FirstVote(votes: seq<Vote>, key: Key): Option<Vote>
    decreases |votes|
  {
    if votes == [] then None else if votes[0].key == key then Some(votes[0]) else FirstVote(votes[1..], key)
  }

  /** A vote under the node's own address and key. */
  predicate IsOwn(cfg: Config, v: Vote) { v.validator == cfg.address && v.key == cfg.key }

  function OwnIn(cfg: Config, votes: seq<Vote>): seq<Vote>
    decreases |votes|
  {
    if votes == [] then [] else (if IsOwn(cfg, votes[0]) then [votes[0]] else []) + OwnIn(cfg, votes[1..])
  }

  const KEY_PREFIX := 8

  type Identity = (Address, seq<Byte>)

  /** Counted votes are told apart by validator address and the first bytes of the key. */
  function IdentityOf(v: Vote): Identity { (v.validator, v.key[..Min(KEY_PREFIX, |v.key|)]) }

  /** The first vote of an identity. */
  function FirstOf(votes: seq<Vote>, id: Identity): Option<Vote>
    decreases |votes|
  {
    if votes == [] then None else if IdentityOf(votes[0]) == id then Some(votes[0]) else FirstOf(votes[1..], id)
  }

  ghost predicate DistinctIds(votes: seq<Vote>) {
    forall i, j :: 0 <= i < j < |votes| ==> IdentityOf(votes[i]) != IdentityOf(votes[j])
  }

  /** `unique` holds, in some order, exactly the first vote of every identity in `votes`. */
  ghost predicate Uniques(votes: seq<Vote>, unique: seq<Vote>) {
    DistinctIds(unique) && forall v :: v in unique <==> FirstOf(votes, IdentityOf(v)) == Some(v)
  }

  // ------------------------------------------------------- validity and execution

  /** `validate_expected_block_fields` */
  predicate Succeeds(last: Header, b: Block) {
    && b.header.number == last.number + 1
    && b.header.parent == last.hash
    && b.header.state == last.state
    && b.header.cluster == last.cluster
    && last.timestamp <= b.header.timestamp
    && |b.txs| == b.header.count
  }

  /** The header check shared by `validate_proposed_block` and `validate_block`. */
  predicate HeaderOk(st: Store, c: Address, b: Block) {
    var head := HeadHeader(st, c);
    head.Some? && (head.value == b.header || Succeeds(head.value, b))
  }

  datatype Outcome = Outcome(core: Core, ok: bool)

  /** `execute_block`: an executed block is skipped, a failed execution is rolled back. */
  function Execute(s: Core, h: Header, ok: bool): Outcome {
    if IsExecuted(s.store, h.number, h.cluster) then Outcome(s, true)
    else if ok then Outcome(Core(SetExecuted(s.store, h.number, h.cluster), s.log + [h]), true)
    else Outcome(s, false)
  }

  /** Storing a block, then executing it. */
  function Accept(s: Core, b: Block, ok: bool): Outcome {
    Execute(s.(store := StoreBlock(s.store, b)), b.header, ok)
  }

  // --------------------------------------------------------- trying one pending block

  predicate Proposable(cfg: Config, st: Store, b: Block, a: Answers) {
    && a.belowMaxHeight && b.header.kind != SystemBlock && a.proposalOk
    && HeaderOk(st, cfg.cluster, b) && a.validatorsKnown
  }

  function OwnVote(cfg: Config, h: Header): Vote {
    Vote(h.number, h.hash, cfg.cluster, h.epoch, true, cfg.address, cfg.key)
  }

  /** Broadcasts the vote with the own key in the entry, signing one first where there is none. */
  function CastVote(cfg: Config, nd: Node, n: BlockNumber, h: Header): Node
    requires n in nd.pending
  {
    var p := nd.pending[n];
    match FirstVote(p.votes, cfg.key)
    case Some(v) => nd.(sent := nd.sent + OwnIn(cfg, [v]))
    case None =>
      var v := OwnVote(cfg, h);
      nd.(pending := nd.pending[n := p.(votes := p.votes + [v])], sent := nd.sent + [v], created := nd.created + [v])
  }

  predicate ResultValid(r: VoteResult, b: Block, resultOk: VoteResult -> bool) {
    r.number == b.header.number && r.hash == b.header.hash && r.cluster == b.header.cluster && resultOk(r)
  }

  /** All results are valid, and the first that does not fail passes. */
  predicate Carried(results: seq<VoteResult>, b: Block, a: Answers) {
    && (forall i :: 0 <= i < |results| ==> ResultValid(results[i], b, a.resultOk))
    && (exists i :: 0 <= i < |results| && FirstVerdict(results, a.passes, i))
  }

  predicate FirstVerdict(results: seq<VoteResult>, passes: VoteResult -> Option<bool>, i: nat)
    requires i < |results|
  {
    passes(results[i]) == Some(true) && forall j :: 0 <= j < i ==> passes(results[j]) == Some(false)
  }

  /** The block after this one belongs to a later epoch than its header names. */
  predicate StartsEpoch(cfg: Config, h: Header) { cfg.epochOf(h.number + 1) > h.epoch }

  datatype Attempt = Attempt(node: Node, ok: bool)

  /** `PendingBlock::try_to_finalize` */
  function TryOne(cfg: Config, nd: Node, n: BlockNumber, a: Answers): Attempt
    requires n in nd.pending
  {
    var p := nd.pending[n];
    if p.block.None? || !Proposable(cfg, nd.core.store, p.block.value.block, a) then Attempt(nd, false) else
    var b := p.block.value.block;
    var voted := if a.isValidator && !a.isProposer then CastVote(cfg, nd, n, b.header) else nd;
    if !Carried(p.results, b, a) || (StartsEpoch(cfg, b.header) && !a.selects) then Attempt(voted, false) else
    var done := Accept(nd.core, b, a.executes);
    Attempt(Elect(cfg, voted, b.header).(core := done.core), done.ok)
  }

  function Elect(cfg: Config, nd: Node, h: Header): Node {
    if StartsEpoch(cfg, h) then nd.(elected := nd.elected + [cfg.epochOf(h.number + 1)]) else nd
  }

  // ------------------------------------------------------------------- the pass

  datatype Pass = Pass(node: Node, finalised: seq<BlockNumber>)

  /** The loop over the sorted pending numbers: it stops at the first block that cannot be finalised. */
  function RunPass(cfg: Config, nd: Node, ns: seq<BlockNumber>, ask: Oracle): Pass
    requires forall i :: 0 <= i < |ns| ==> ns[i] in nd.pending
    decreases |ns|
  {
    if ns == [] then Pass(nd, [])
    else if IsExecuted(nd.core.store, ns[0], cfg.cluster) then
      var rest := RunPass(cfg, nd, ns[1..], ask);
      Pass(rest.node, [ns[0]] + rest.finalised)
    else
      var one := TryOne(cfg, nd, ns[0], ask(ns[0]));
      if !one.ok then Pass(one.node, []) else
      var rest := RunPass(cfg, one.node, ns[1..], ask);
      Pass(rest.node, [ns[0]] + rest.finalised)
  }

  predicate IsLeast(s: set<BlockNumber>, m: BlockNumber) {
    m in s && forall k :: k in s ==> m <= k
  }

  function Least(s: set<BlockNumber>): (m: BlockNumber)
    requires s != {}
    ensures IsLeast(s, m)
  {
    LeastExists(s);
    var m :| IsLeast(s, m); m
  }

  lemma {:induction false} LeastExists(s: set<BlockNumber>)
    requires s != {}
    ensures exists m :: IsLeast(s, m)
    decreases |s|
  {
    var x :| x in s;
    var rest := s - {x};
    forall k | k in s ensures k == x || k in rest {
    }
    if rest == {} {
      assert IsLeast(s, x);
    } else {
      LeastExists(rest);
      var y :| IsLeast(rest, y);
      assert IsLeast(s, if x < y then x else y);
    }
  }

  ghost predicate Increasing(ns: seq<BlockNumber>) {
    forall i, j :: 0 <= i < j < |ns| ==> ns[i] < ns[j]
  }

  /** The numbers in ascending order. */
  function Ascending(s: set<BlockNumber>): (ns: seq<BlockNumber>)
    ensures forall k :: k in ns <==> k in s
    ensures Increasing(ns)
    decreases |s|
  {
    if s == {} then [] else [Least(s)] + Ascending(s - {Least(s)})
  }

  function Elements(ns: seq<BlockNumber>): set<BlockNumber> { set k | k in ns }

  /** `PendingBlocks::try_to_finalize` */
  function Finalize(cfg: Config, nd: Node, ask: Oracle): Node {
    var p := RunPass(cfg, nd, Ascending(nd.pending.Keys), ask);
    p.node.(pending := p.node.pending - Elements(p.finalised))
  }

  // ---------------------------------------------------------------- the handlers

  datatype Step =
    | ReceiveValidateBlock(payload: Payload, authorised: bool, ask: Oracle)
    | ReceiveVote(vote: Vote, asProposer: bool, validatorsKnown: bool, tally: seq<Vote> -> Option<seq<Vote>>,
                  ask: Oracle)
    | ReceiveVoteResult(result: VoteResult, ask: Oracle)
    | ReceiveBlock(payload: Payload, valid: bool, evidence: Option<VoteResult>, resultOk: VoteResult -> bool,
                   executes: bool, ask: Oracle)
    | AddAndBroadcast(payload: Payload, authorised: bool)

  function OnValidateBlock(cfg: Config, nd: Node, p: Payload, authorised: bool, ask: Oracle): Node {
    if !authorised || IsExecuted(nd.core.store, p.block.header.number, cfg.cluster) then nd
    else Finalize(cfg, nd.(pending := AddBlock(nd.pending, p)), ask)
  }

  /** `try_to_vote_result`: the counted votes, when they reach the threshold, under the first vote's block. */
  function VoteResultOf(cfg: Config, votes: seq<Vote>, tally: seq<Vote> -> Option<seq<Vote>>): Option<VoteResult> {
    var self := cfg.addressOf(cfg.key);
    var counted := tally(votes);
    if votes == [] || self.None? || counted.None? then None
    else Some(VoteResult(votes[0].number, votes[0].hash, votes[0].cluster, self.value, cfg.key, true, counted.value))
  }

  function OnVote(cfg: Config, nd: Node, v: Vote, asProposer: bool, validatorsKnown: bool,
                  tally: seq<Vote> -> Option<seq<Vote>>, ask: Oracle): Node
  {
    if cfg.addressOf(cfg.key).None? || !asProposer
       || (v.number !in nd.pending && IsExecuted(nd.core.store, v.number, cfg.cluster)) then nd else
    var pending := AddVote(nd.pending, v);
    var voted := nd.(pending := pending);
    if !validatorsKnown then voted else
    var r := VoteResultOf(cfg, pending[v.number].votes, tally);
    if r.None? then voted else
    var counted := nd.(pending := AddResult(pending, r.value));
    if cfg.multinode then Finalize(cfg, Publish(cfg, counted, r.value, v), ask) else counted
  }

  /** The vote result goes out with the own votes in it, and so does the vote that completed it. */
  function Publish(cfg: Config, nd: Node, r: VoteResult, v: Vote): Node {
    nd.(published := nd.published + [r], sent := nd.sent + OwnIn(cfg, r.votes), relayed := nd.relayed + [v])
  }

  function OnVoteResult(cfg: Config, nd: Node, r: VoteResult, ask: Oracle): Node {
    Finalize(cfg, nd.(pending := AddResult(nd.pending, r)), ask)
  }

  function OnBlock(cfg: Config, nd: Node, p: Payload, valid: bool, evidence: Option<VoteResult>,
                   resultOk: VoteResult -> bool, executes: bool, ask: Oracle): Node
  {
    var b := p.block;
    if IsExecuted(nd.core.store, b.header.number, cfg.cluster)
       || !valid || cfg.addressOf(p.key) != Some(p.sender) || !HeaderOk(nd.core.store, cfg.cluster, b) then nd
    else if evidence.Some? && !ResultValid(evidence.value, b, resultOk) then
      nd.(core := nd.core.(store := StoreBlock(nd.core.store, b)))
    else
      var done := Accept(nd.core, b, executes);
      var stored := nd.(core := done.core);
      if done.ok then Finalize(cfg, stored, ask) else stored
  }

  /** The proposer refuses a number that is stored, or whose predecessor is not the one pending. */
  predicate MayPropose(nd: Node, n: BlockNumber) {
    n !in nd.core.store.headers && (nd.pending == map[] || n - 1 in nd.pending)
  }

  /** The proposal finds a conflicting block pending and `remove_block` drops its entry. */
  predicate Removes(cfg: Config, nd: Node, p: Payload, authorised: bool) {
    var n := p.block.header.number;
    && authorised && MayPropose(nd, n) && n in nd.pending && nd.pending[n].block.Some?
    && cfg.addressOf(p.key).Some? && cfg.addressOf(nd.pending[n].block.value.key).Some?
    && cfg.addressOf(p.key) != cfg.addressOf(nd.pending[n].block.value.key)
    && nd.pending[n].block.value.block.header.hash != p.block.header.hash
  }

  function OnPropose(cfg: Config, nd: Node, p: Payload, authorised: bool): Node {
    var h := p.block.header;
    if !authorised || !MayPropose(nd, h.number) then nd else
    var fresh' := nd.(pending := AddBlock(AddVote(nd.pending, OwnVote(cfg, h)), p));
    if h.number !in nd.pending then fresh' else
    var old' := nd.pending[h.number];
    var proposer := cfg.addressOf(p.key);
    if proposer.None? || old'.block.None? || cfg.addressOf(old'.block.value.key).None? then nd
    else if proposer == cfg.addressOf(old'.block.value.key) then
      var again := FirstVote(old'.votes, p.key);
      if again.Some? then nd.(sent := nd.sent + OwnIn(cfg, [again.value])) else nd
    else if old'.block.value.block.header.hash != h.hash then nd.(pending := nd.pending - {h.number})
    else fresh'
  }

  function Next(cfg: Config, nd: Node, step: Step): Node {
    match step
    case ReceiveValidateBlock(p, authorised, ask) => OnValidateBlock(cfg, nd, p, authorised, ask)
    case ReceiveVote(v, asProposer, known, tally, ask) => OnVote(cfg, nd, v, asProposer, known, tally, ask)
    case ReceiveVoteResult(r, ask) => OnVoteResult(cfg, nd, r, ask)
    case ReceiveBlock(p, valid, evidence, resultOk, executes, ask) =>
      OnBlock(cfg, nd, p, valid, evidence, resultOk, executes, ask)
    case AddAndBroadcast(p, authorised) => OnPropose(cfg, nd, p, authorised)
  }

  /** Block messages carry a number of at least 1: the source subtracts one from it unsigned. */
  predicate Numbered(step: Step) {
    match step
    case ReceiveValidateBlock(p, _, _) => p.block.header.number >= 1
    case ReceiveBlock(p, _, _, _, _, _) => p.block.header.number >= 1
    case AddAndBroadcast(p, _) => p.block.header.number >= 1
    case _ => true
  }

  function Run(cfg: Config, nd: Node, steps: seq<Step>): Node
    decreases |steps|
  {
    if steps == [] then nd else Next(cfg, Run(cfg, nd, steps[..|steps| - 1]), steps[|steps| - 1])
  }

  // ------------------------------------------------------------------- genesis

  const GENESIS_EPOCH: Epoch := 1

  function GenesisHeader(c: Address): Header {
    Header(0, ZERO_HASH, ZERO_HASH, L1XTokenBlock, c, 0, 0, 0, ZERO_HASH, GENESIS_EPOCH)
  }

  function GenesisCore(c: Address): Core {
    Core(Store(map[c := Head(0, ZERO_HASH)], map[0 := GenesisHeader(c)], map[], map[]), [])
  }

  /** A node process starts with what is stored and nothing pending. */
  function Started(s: Core): Node { Node(s, map[], [], [], [], [], []) }

  function Genesis(c: Address): Node { Started(GenesisCore(c)) }
}
