/**
 * Nested contract calls across the two virtual machines. Every call and create
 * clones the caller's overlay, runs the callee on the clone (itself on a further
 * clone) and merges back only on success.
 *
 * `FlatAll` lists the primitive writes of a call tree whose enclosing frames all
 * succeeded; `TreeIsFlatReplay` shows that clone, run and merge come to replaying
 * that list.
 */
module CallTree {
  import opened Primitives
  import opened Ledger
  import opened StateOverlay
  import CallTrap

  /** What contract code writes by itself; accounts and contracts come into being by creates only. */
  type ContractWrite = w: Write | w.SetSlot? || w.DeleteSlot? || w.Move? || w.Emit? witness Emit(0)

  /**
   * What a contract did while it ran. `body` is what the callee did in turn, `ok`
   * whether it exited successfully, `ret` the event its frame records.
   */
  datatype Action =
    | Read(slot: Slot)
    | Do(write: ContractWrite)
    | EvmCall(caller: Address, target: Address, transfer: Option<Transfer>, isStatic: bool,
              body: seq<Action>, ok: bool, ret: Event)
    | L1xCall(caller: Address, target: Address, deposit: U128, isStatic: bool,
              body: seq<Action>, ok: bool, ret: Event)
    | Create(caller: Address, address: Address, value: U256,
             body: seq<Action>, ok: bool, code: nat, deployed: Event)

  /** `u256_to_balance` refuses u128::MAX as well as everything above it. */
  function ToBalance(v: U256): Option<U128> {
    if v >= U128_LIMIT - 1 then None else Some(v)
  }

  // ------------------------------------------------------------- on overlays

  datatype Callee = Missing | Broken | Found(contract: Contract)

  function FindCallee(db: Db, o: Overlay, target: Address): Callee {
    var instance := Lookup(db.instances, o.instances, target);
    if instance.None? then Missing else
    var contract := Lookup(db.contracts, o.contracts, instance.value);
    if contract.None? then Broken else Found(contract.value)
  }

  /** The cached entries the lookups of `FindCallee` leave behind. */
  function FetchCallee(db: Db, o: Overlay, target: Address): Overlay {
    var instance := Lookup(db.instances, o.instances, target);
    var o1 := o.(instances := Fetched(db.instances, o.instances, target));
    if instance.None? then o1
    else o1.(contracts := Fetched(db.contracts, o1.contracts, instance.value))
  }

  function Payment(payer: Address, target: Address, deposit: U128, isStatic: bool): seq<Write> {
    if !isStatic && deposit > 0 then [Move(payer, target, deposit)] else []
  }

  /** The writes an EVM deployment makes after its constructor returned. */
  function DeployWrites(address: Address, code: nat, deployed: Event): seq<Write> {
    [PutContract(address, Contract(EVM, code)), PutInstance(address, address), Emit(deployed)]
  }

  /** Writes one after another, stopping at the first that fails. */
  function WriteAll(db: Db, o: Overlay, ws: seq<Write>): (Overlay, bool)
    decreases |ws|
  {
    if ws == [] then (o, true) else
    var (o', ok) := OverlayWrite(db, o, ws[0]);
    if ok then WriteAll(db, o', ws[1..]) else (o', false)
  }

  /** Clone, prepare, run the body on a second clone, finish, merge on success. */
  function RunFrame(db: Db, o: Overlay, first: seq<Write>, body: seq<Action>, ok: bool, last: seq<Write>)
    : (Overlay, bool)
    decreases body, 1
  {
    var (clone, ready) := WriteAll(db, o, first);
    if !ready then (o, false) else
    var inner := ExecAll(db, clone, body);
    var ran := if ok then Merge(clone, inner) else clone;
    var (finished, _) := WriteAll(db, ran, last);
    if ok then (Merge(o, finished), true) else (o, false)
  }

  /** The overlay after an action, and whether the contract saw it succeed. */
  function Exec(db: Db, o: Overlay, a: Action): (Overlay, bool)
    decreases a, 2
  {
    match a
    case Read(k) => (o.(storage := FetchedSlot(db.storage, o.storage, k)), true)
    case Do(w) => OverlayWrite(db, o, w)
    case EvmCall(caller, target, transfer, isStatic, body, ok, ret) =>
      var o1 := FetchCallee(db, o, target);
      var deposit := if transfer.None? then Some(0) else ToBalance(transfer.value.value);
      (match FindCallee(db, o, target)
       case Missing =>
         if transfer.None? then (o1, true)
         else if deposit.None? then (o1, false)
         else OverlayWrite(db, o1, Move(transfer.value.source, transfer.value.target, deposit.value))
       case Broken => (o1, false)
       case Found(contract) =>
         if deposit.None? then (o1, false)
         else if contract.kind.XTALK? then (Merge(o1, o1), true)
         else RunFrame(db, o1, Payment(caller, target, deposit.value, isStatic), body, ok,
                       if isStatic then [] else [Emit(ret)]))
    case L1xCall(caller, target, deposit, isStatic, body, ok, ret) =>
      var o1 := FetchCallee(db, o, target);
      (match FindCallee(db, o, target)
       case Missing => (o1, false)
       case Broken => (o1, false)
       case Found(contract) =>
         if contract.kind.XTALK? then (Merge(o1, o1), true)
         else RunFrame(db, o1, Payment(L1xPayer(contract.kind, caller, target), target, deposit, isStatic), body, ok,
                       if isStatic then [] else [Emit(ret)]))
    case Create(caller, address, value, body, ok, code, deployed) =>
      var deposit := ToBalance(value);
      if deposit.None? then (o, false) else
      var (o1, bumped) := OverlayWrite(db, o, BumpNonce(caller));
      if !bumped then (o1, false)
      else RunFrame(db, o1, [NewSystemAccount(address)] + Payment(caller, address, deposit.value, false), body, ok,
                    DeployWrites(address, code, deployed))
  }

  function ExecAll(db: Db, o: Overlay, actions: seq<Action>): Overlay
    decreases actions, 0
  {
    if actions == [] then o else ExecAll(db, Exec(db, o, actions[0]).0, actions[1..])
  }

  /** Who pays the deposit of an L1XVM call: for an EVM callee the source names the callee itself. */
  function L1xPayer(kind: ContractKind, caller: Address, target: Address): Address {
    if kind.EVM? then target else caller
  }

  // ------------------------------------------------------------- flat replay

  function Replay(s: World, ws: seq<Write>): World
    decreases |ws|
  {
    if ws == [] then s else Replay(WorldWrite(s, ws[0]).0, ws[1..])
  }

  /** All of `ws` succeed from `s`. */
  function AllSucceed(s: World, ws: seq<Write>): bool
    decreases |ws|
  {
    ws == [] || (WorldWrite(s, ws[0]).1 && AllSucceed(WorldWrite(s, ws[0]).0, ws[1..]))
  }

  function FlatCallee(s: World, target: Address): Callee {
    if target !in s.instances then Missing
    else if s.instances[target] !in s.contracts then Broken
    else Found(s.contracts[s.instances[target]])
  }

  /** A frame contributes its writes if its preparation and its callee succeed, else nothing. */
  function FlatFrame(s: World, first: seq<Write>, body: seq<Action>, ok: bool, last: seq<Write>): seq<Write>
    decreases body, 1
  {
    if !ok || !AllSucceed(s, first) then []
    else first + FlatAll(Replay(s, first), body) + last
  }

  function Flat(s: World, a: Action): seq<Write>
    decreases a, 2
  {
    match a
    case Read(_) => []
    case Do(w) => [w]
    case EvmCall(caller, target, transfer, isStatic, body, ok, ret) =>
      var deposit := if transfer.None? then Some(0) else ToBalance(transfer.value.value);
      if deposit.None? then [] else
      (match FlatCallee(s, target)
       case Missing =>
         if transfer.None? then []
         else [Move(transfer.value.source, transfer.value.target, deposit.value)]
       case Broken => []
       case Found(contract) =>
         if contract.kind.XTALK? then []
         else FlatFrame(s, Payment(caller, target, deposit.value, isStatic), body, ok,
                        if isStatic then [] else [Emit(ret)]))
    case L1xCall(caller, target, deposit, isStatic, body, ok, ret) =>
      (match FlatCallee(s, target)
       case Found(contract) =>
         if contract.kind.XTALK? then []
         else FlatFrame(s, Payment(L1xPayer(contract.kind, caller, target), target, deposit, isStatic), body, ok,
                        if isStatic then [] else [Emit(ret)])
       case _ => [])
    case Create(caller, address, value, body, ok, code, deployed) =>
      var deposit := ToBalance(value);
      if deposit.None? || !WorldWrite(s, BumpNonce(caller)).1 then []
      else
        // the nonce bump belongs to the caller's frame and survives a failed create
        [BumpNonce(caller)]
        + FlatFrame(WorldWrite(s, BumpNonce(caller)).0,
                    [NewSystemAccount(address)] + Payment(caller, address, deposit.value, false), body, ok,
                    DeployWrites(address, code, deployed))
  }

  function FlatAll(s: World, actions: seq<Action>): seq<Write>
    decreases actions, 0
  {
    if actions == [] then [] else
    var head := Flat(s, actions[0]);
    head + FlatAll(Replay(s, head), actions[1..])
  }

  // -------------------------------------------------------------- the object

  /** A contract instance manager: one overlay, changed by what its contract does. */
  class Manager {
    const db: Db
    var state: Overlay

    constructor (db: Db, state: Overlay)
      ensures this.db == db && this.state == state
    {
      this.db, this.state := db, state;
    }

    method Apply(ws: seq<Write>) returns (ok: bool)
      modifies this
      ensures (state, ok) == WriteAll(db, old(state), ws)
    {
      ok := true;
      var i := 0;
      while i < |ws|
        invariant 0 <= i <= |ws| && ok
        invariant WriteAll(db, state, ws[i..]) == WriteAll(db, old(state), ws)
      {
        var (next, done) := OverlayWrite(db, state, ws[i]);
        assert ws[i..][1..] == ws[i + 1..];
        state := next;
        if !done { return false; }
        i := i + 1;
      }
    }

    method Frame(first: seq<Write>, body: seq<Action>, ok: bool, last: seq<Write>) returns (done: bool)
      modifies this
      ensures (state, done) == RunFrame(db, old(state), first, body, ok, last)
      decreases body, 1
    {
      var clone := new Manager(db, state);
      var ready := clone.Apply(first);
      if !ready { return false; }
      var inner := new Manager(db, clone.state);
      inner.Run(body);
      if ok {
        clone.state := Merge(clone.state, inner.state);
      }
      var _ := clone.Apply(last);
      if ok {
        state := Merge(state, clone.state);
      }
      done := ok;
    }

    method Step(a: Action) returns (done: bool)
      modifies this
      ensures (state, done) == Exec(db, old(state), a)
      decreases a, 2
    {
      match a {
        case Read(k) =>
          state := state.(storage := FetchedSlot(db.storage, state.storage, k));
          done := true;
        case Do(w) =>
          var (next, ok) := OverlayWrite(db, state, w);
          state, done := next, ok;
        case EvmCall(caller, target, transfer, isStatic, body, ok, ret) =>
          var callee := FindCallee(db, state, target);
          state := FetchCallee(db, state, target);
          var deposit := if transfer.None? then Some(0) else ToBalance(transfer.value.value);
          match callee {
            case Missing =>
              if transfer.None? { return true; }
              if deposit.None? { return false; }
              var (next, moved) :=
                OverlayWrite(db, state, Move(transfer.value.source, transfer.value.target, deposit.value));
              state, done := next, moved;
            case Broken => done := false;
            case Found(contract) =>
              if deposit.None? { return false; }
              if contract.kind.XTALK? {
                state := Merge(state, state);
                done := true;
              } else {
                done := Frame(Payment(caller, target, deposit.value, isStatic), body, ok,
                              if isStatic then [] else [Emit(ret)]);
              }
          }
        case L1xCall(caller, target, deposit, isStatic, body, ok, ret) =>
          var callee := FindCallee(db, state, target);
          state := FetchCallee(db, state, target);
          if !callee.Found? { return false; }
          if callee.contract.kind.XTALK? {
            state := Merge(state, state);
            done := true;
          } else {
            done := Frame(Payment(L1xPayer(callee.contract.kind, caller, target), target, deposit, isStatic),
                          body, ok, if isStatic then [] else [Emit(ret)]);
          }
        case Create(caller, address, value, body, ok, code, deployed) =>
          var deposit := ToBalance(value);
          if deposit.None? { return false; }
          var (bumped, fine) := OverlayWrite(db, state, BumpNonce(caller));
          state := bumped;
          if !fine { return false; }
          done := Frame([NewSystemAccount(address)] + Payment(caller, address, deposit.value, false), body, ok,
                        DeployWrites(address, code, deployed));
      }
    }

    method Run(actions: seq<Action>)
      modifies this
      ensures state == ExecAll(db, old(state), actions)
      decreases actions, 0
    {
      if actions != [] {
        var _ := Step(actions[0]);
        Run(actions[1..]);
      }
    }
  }

  // ------------------------------------------------------ the main refinement

  lemma {:induction false} ReplayConcat(s: World, a: seq<Write>, b: seq<Write>)
    ensures Replay(s, a + b) == Replay(Replay(s, a), b)
    decreases |a|
  {
    if a == [] {
      assert a + b == b;
    } else {
      assert (a + b)[0] == a[0] && (a + b)[1..] == a[1..] + b;
      ReplayConcat(WorldWrite(s, a[0]).0, a[1..], b);
    }
  }

  ghost predicate AllHarmless(db: Db, ws: seq<Write>) {
    forall i :: 0 <= i < |ws| ==> Harmless(db, ws[i])
  }

  /** Harmless writes, one after another, are the plain writes. */
  lemma {:induction false} WriteAllRefines(db: Db, o: Overlay, ws: seq<Write>)
    requires Consistent(db, o) && AllHarmless(db, ws)
    ensures var (o', ok) := WriteAll(db, o, ws);
            && Extends(o, o') && Consistent(db, o') && ok == AllSucceed(View(db, o), ws)
            && (ok ==> View(db, o') == Replay(View(db, o), ws))
    decreases |ws|
  {
    hide Consistent, View, OverlayWrite, WorldWrite, Harmless;
    if ws != [] {
      assert Harmless(db, ws[0]);
      WriteRefinesIff(db, o, ws[0]);
      HarmlessIsLossless(db, o, ws[0]);
      WriteConsistent(db, o, ws[0]);
      if OverlayWrite(db, o, ws[0]).1 {
        WriteAllRefines(db, OverlayWrite(db, o, ws[0]).0, ws[1..]);
      }
    }
  }

  lemma CalleeRefines(db: Db, o: Overlay, target: Address)
    requires Consistent(db, o)
    ensures var o1 := FetchCallee(db, o, target);
            && Extends(o, o1) && Consistent(db, o1) && View(db, o1) == View(db, o) && Merge(o1, o1) == o1
            && FindCallee(db, o, target) == FlatCallee(View(db, o), target)
  {
    hide AccountsConsistent, SlotsConsistent;
    FetchKeepsEffective(db.instances, o.instances, target);
    var instance := Lookup(db.instances, o.instances, target);
    if instance.Some? {
      FetchKeepsEffective(db.contracts, o.contracts, instance.value);
    }
    MergeAdopts(FetchCallee(db, o, target), FetchCallee(db, o, target));
  }

  /** `last` writes cannot fail once the frame has run. */
  ghost predicate Infallible(ws: seq<Write>) {
    forall i :: 0 <= i < |ws| ==> ws[i].Emit? || ws[i].PutContract? || ws[i].PutInstance?
  }

  lemma {:induction false} InfallibleSucceed(s: World, ws: seq<Write>)
    requires Infallible(ws)
    ensures AllSucceed(s, ws)
    decreases |ws|
  {
    if ws != [] {
      InfallibleSucceed(WorldWrite(s, ws[0]).0, ws[1..]);
    }
  }

  /** Every contract and every instance has an account row. */
  ghost predicate Registered(db: Db) {
    db.contracts.Keys <= db.accounts.Keys && db.instances.Keys <= db.accounts.Keys
  }

  /** The overlay that `o'` must be, given what the flat replay `ws` makes of the state of `o`. */
  ghost predicate IsReplay(db: Db, o: Overlay, ws: seq<Write>, o': Overlay) {
    Extends(o, o') && Consistent(db, o') && View(db, o') == Replay(View(db, o), ws)
  }

  lemma ReplayNothing(db: Db, o: Overlay)
    requires Consistent(db, o)
    ensures IsReplay(db, o, [], o)
  {
  }

  lemma ReplayThen(db: Db, o: Overlay, a: seq<Write>, o1: Overlay, b: seq<Write>, o2: Overlay)
    requires IsReplay(db, o, a, o1) && IsReplay(db, o1, b, o2)
    ensures IsReplay(db, o, a + b, o2)
  {
    hide Consistent, View;
    ReplayConcat(View(db, o), a, b);
  }

  lemma AdoptReplay(db: Db, o: Overlay, ws: seq<Write>, o': Overlay)
    requires IsReplay(db, o, ws, o')
    ensures Merge(o, o') == o'
  {
    hide Consistent, View;
    MergeAdopts(o, o');
  }

  lemma WritesAreReplay(db: Db, o: Overlay, ws: seq<Write>)
    requires Consistent(db, o) && AllHarmless(db, ws)
    ensures WriteAll(db, o, ws).1 == AllSucceed(View(db, o), ws)
    ensures AllSucceed(View(db, o), ws) ==> IsReplay(db, o, ws, WriteAll(db, o, ws).0)
  {
    hide Consistent, View;
    WriteAllRefines(db, o, ws);
  }

  lemma {:induction false} FrameRefines(db: Db, o: Overlay, first: seq<Write>, body: seq<Action>, ok: bool,
                                        last: seq<Write>)
    requires Registered(db) && Consistent(db, o) && Infallible(last) && AllHarmless(db, first)
    requires AllSucceed(View(db, o), first) ==> AllHarmless(db, last)
    ensures IsReplay(db, o, FlatFrame(View(db, o), first, body, ok, last), RunFrame(db, o, first, body, ok, last).0)
    decreases body, 1
  {
    hide Consistent, View, Infallible, AllHarmless, IsReplay, Merge, Registered;
    var s := View(db, o);
    ReplayNothing(db, o);
    WritesAreReplay(db, o, first);
    if AllSucceed(s, first) && ok {
      var clone := WriteAll(db, o, first).0;
      ReplayParts(db, o, first, clone);
      TreeIsFlatReplay(db, clone, body);
      var inner := ExecAll(db, clone, body);
      var ran := FlatAll(View(db, clone), body);
      AdoptReplay(db, clone, ran, inner);
      ReplayParts(db, clone, ran, inner);
      InfallibleSucceed(View(db, inner), last);
      WritesAreReplay(db, inner, last);
      var finished := WriteAll(db, inner, last).0;
      ReplayThen(db, o, first, clone, ran, inner);
      ReplayThen(db, o, first + ran, inner, last, finished);
      AdoptReplay(db, o, first + ran + last, finished);
    }
  }

  lemma ReplayParts(db: Db, o: Overlay, ws: seq<Write>, o': Overlay)
    requires IsReplay(db, o, ws, o')
    ensures Consistent(db, o') && View(db, o') == Replay(View(db, o), ws)
  {
  }

  lemma {:induction false} ActionRefines(db: Db, o: Overlay, a: Action)
    requires Registered(db) && Consistent(db, o)
    ensures IsReplay(db, o, Flat(View(db, o), a), Exec(db, o, a).0)
    decreases a, 2
  {
    match a
    case Read(k) => ReadRefines(db, o, k);
    case Do(w) => WriteIsReplay(db, o, w);
    case EvmCall(_, _, _, _, _, _, _) => EvmCallRefines(db, o, a);
    case L1xCall(_, _, _, _, _, _, _) => L1xCallRefines(db, o, a);
    case Create(_, _, _, _, _, _, _) => DeployRefines(db, o, a);
  }

  lemma ReadRefines(db: Db, o: Overlay, k: Slot)
    requires Consistent(db, o)
    ensures IsReplay(db, o, [], o.(storage := FetchedSlot(db.storage, o.storage, k)))
  {
    hide AccountsConsistent, InsertsConsistent, Effective;
    FetchedSlotKeepsEffective(db.storage, o.storage, k);
  }

  lemma ReplayOne(s: World, w: Write)
    ensures Replay(s, [w]) == WorldWrite(s, w).0
  {
    assert [w][1..] == [];
  }

  /** One harmless write; a failed one changes no state on either side. */
  lemma WriteIsReplay(db: Db, o: Overlay, w: Write)
    requires Consistent(db, o) && Harmless(db, w)
    ensures IsReplay(db, o, [w], OverlayWrite(db, o, w).0)
    ensures OverlayWrite(db, o, w).1 == WorldWrite(View(db, o), w).1
  {
    hide Consistent, View, OverlayWrite, WorldWrite, Harmless;
    WriteRefinesIff(db, o, w);
    HarmlessIsLossless(db, o, w);
    WriteConsistent(db, o, w);
    ReplayOne(View(db, o), w);
  }

  lemma {:induction false} EvmCallRefines(db: Db, o: Overlay, a: Action)
    requires a.EvmCall? && Registered(db) && Consistent(db, o)
    ensures IsReplay(db, o, Flat(View(db, o), a), Exec(db, o, a).0)
    decreases a, 1
  {
    hide View, FetchCallee, FindCallee, FlatCallee, OverlayWrite, WorldWrite, RunFrame, FlatFrame, IsReplay, Consistent;
    hide Merge, Registered;
    var s := View(db, o);
    var o1 := FetchCallee(db, o, a.target);
    FetchIsReplay(db, o, a.target);
    var callee := FindCallee(db, o, a.target);
    var deposit := if a.transfer.None? then Some(0) else ToBalance(a.transfer.value.value);
    if deposit.Some? && callee.Missing? && a.transfer.Some? {
      var w := Move(a.transfer.value.source, a.transfer.value.target, deposit.value);
      WriteIsReplay(db, o1, w);
      ReplayThen(db, o, [], o1, [w], OverlayWrite(db, o1, w).0);
      assert [] + [w] == [w];
    } else if deposit.Some? && callee.Found? && !callee.contract.kind.XTALK? {
      var first := Payment(a.caller, a.target, deposit.value, a.isStatic);
      var last := if a.isStatic then [] else [Emit(a.ret)];
      FrameRefines(db, o1, first, a.body, a.ok, last);
      var ws := FlatFrame(s, first, a.body, a.ok, last);
      ReplayThen(db, o, [], o1, ws, RunFrame(db, o1, first, a.body, a.ok, last).0);
      assert [] + ws == ws;
    }
  }

  lemma FetchIsReplay(db: Db, o: Overlay, target: Address)
    requires Consistent(db, o)
    ensures var o1 := FetchCallee(db, o, target);
            && IsReplay(db, o, [], o1) && Consistent(db, o1) && View(db, o1) == View(db, o) && Merge(o1, o1) == o1
            && FindCallee(db, o, target) == FlatCallee(View(db, o), target)
  {
    hide Consistent, View, FetchCallee, FindCallee, FlatCallee;
    CalleeRefines(db, o, target);
  }

  lemma {:induction false} L1xCallRefines(db: Db, o: Overlay, a: Action)
    requires a.L1xCall? && Registered(db) && Consistent(db, o)
    ensures IsReplay(db, o, Flat(View(db, o), a), Exec(db, o, a).0)
    decreases a, 1
  {
    hide View, FetchCallee, FindCallee, FlatCallee, OverlayWrite, WorldWrite, RunFrame, FlatFrame, IsReplay, Consistent;
    hide Merge, Registered;
    var s := View(db, o);
    var o1 := FetchCallee(db, o, a.target);
    FetchIsReplay(db, o, a.target);
    var callee := FindCallee(db, o, a.target);
    if callee.Found? && !callee.contract.kind.XTALK? {
      var payer := L1xPayer(callee.contract.kind, a.caller, a.target);
      var first := Payment(payer, a.target, a.deposit, a.isStatic);
      var last := if a.isStatic then [] else [Emit(a.ret)];
      FrameRefines(db, o1, first, a.body, a.ok, last);
      var ws := FlatFrame(s, first, a.body, a.ok, last);
      ReplayThen(db, o, [], o1, ws, RunFrame(db, o1, first, a.body, a.ok, last).0);
      assert [] + ws == ws;
    }
  }

  /** A new account has no row, and so neither a contract nor an instance of its address has one. */
  lemma DeploymentIsHarmless(db: Db, o: Overlay, address: Address, code: nat, deployed: Event, rest: seq<Write>)
    requires Registered(db) && Consistent(db, o)
    ensures AllSucceed(View(db, o), [NewSystemAccount(address)] + rest)
            ==> AllHarmless(db, DeployWrites(address, code, deployed))
  {
    if AllSucceed(View(db, o), [NewSystemAccount(address)] + rest) {
      FetchKeepsEffective(db.accounts, o.accounts, address);
      assert AccountConsistent(db.accounts, o.accounts, address);
      assert address !in db.accounts;
    }
  }

  lemma {:induction false} DeployRefines(db: Db, o: Overlay, a: Action)
    requires a.Create? && Registered(db) && Consistent(db, o)
    ensures IsReplay(db, o, Flat(View(db, o), a), Exec(db, o, a).0)
    decreases a, 1
  {
    hide View, OverlayWrite, WorldWrite, RunFrame, FlatFrame, IsReplay, Consistent, Registered, AllSucceed;
    var s := View(db, o);
    var bump := BumpNonce(a.caller);
    var deposit := ToBalance(a.value);
    ReplayNothing(db, o);
    if deposit.Some? {
      WriteIsReplay(db, o, bump);
      var o1 := OverlayWrite(db, o, bump).0;
      ReplayParts(db, o, [bump], o1);
      ReplayOne(s, bump);
      if OverlayWrite(db, o, bump).1 {
        var pay := Payment(a.caller, a.address, deposit.value, false);
        var first := [NewSystemAccount(a.address)] + pay;
        var last := DeployWrites(a.address, a.code, a.deployed);
        DeploymentIsHarmless(db, o1, a.address, a.code, a.deployed, pay);
        FrameRefines(db, o1, first, a.body, a.ok, last);
        ReplayThen(db, o, [bump], o1, FlatFrame(View(db, o1), first, a.body, a.ok, last),
                   RunFrame(db, o1, first, a.body, a.ok, last).0);
      } else {
        FailedBump(db, o, a.caller);
      }
    }
  }

  /** A refused nonce bump leaves at most a cached read. */
  lemma FailedBump(db: Db, o: Overlay, caller: Address)
    requires Consistent(db, o) && !OverlayWrite(db, o, BumpNonce(caller)).1
    ensures IsReplay(db, o, [], OverlayWrite(db, o, BumpNonce(caller)).0)
  {
    hide Consistent, View;
    WriteRefinesIff(db, o, BumpNonce(caller));
    WriteConsistent(db, o, BumpNonce(caller));
  }

  /**
   * For every finite tree of calls and creates: clone, run and merge give the same state as
   * replaying exactly the writes of the frames that succeeded.
   */
  lemma {:induction false} TreeIsFlatReplay(db: Db, o: Overlay, actions: seq<Action>)
    requires Registered(db) && Consistent(db, o)
    ensures IsReplay(db, o, FlatAll(View(db, o), actions), ExecAll(db, o, actions))
    decreases actions, 0
  {
    hide Consistent, View, IsReplay, Registered;
    if actions == [] {
      ReplayNothing(db, o);
    } else {
      var s := View(db, o);
      ActionRefines(db, o, actions[0]);
      var o1 := Exec(db, o, actions[0]).0;
      ReplayParts(db, o, Flat(s, actions[0]), o1);
      TreeIsFlatReplay(db, o1, actions[1..]);
      ReplayThen(db, o, Flat(s, actions[0]), o1, FlatAll(View(db, o1), actions[1..]), ExecAll(db, o1, actions[1..]));
    }
  }

  // ------------------------------------------------------------- consequences

  lemma {:induction false} ReplayConserves(s: World, ws: seq<Write>)
    ensures Total(Replay(s, ws).accounts) == Total(s.accounts)
    decreases |ws|
  {
    if ws != [] {
      WriteConserves(s, ws[0]);
      ReplayConserves(WorldWrite(s, ws[0]).0, ws[1..]);
    }
  }

  /** No call tree, however it nests and fails, makes or destroys tokens. */
  lemma TreeConserves(db: Db, o: Overlay, actions: seq<Action>)
    requires Registered(db) && Consistent(db, o)
    ensures Total(View(db, ExecAll(db, o, actions)).accounts) == Total(View(db, o).accounts)
  {
    hide Consistent, View, Registered;
    TreeIsFlatReplay(db, o, actions);
    ReplayConserves(View(db, o), FlatAll(View(db, o), actions));
  }

  /** A callee that fails leaves no trace, whatever it and its own callees did. */
  lemma FailedCallLeavesNoTrace(db: Db, o: Overlay, a: Action)
    requires Registered(db) && Consistent(db, o)
    requires (a.EvmCall? || a.L1xCall?) && FindCallee(db, o, a.target).Found? && !a.ok
    requires !FindCallee(db, o, a.target).contract.kind.XTALK?
    ensures View(db, Exec(db, o, a).0) == View(db, o)
  {
    hide View, FetchCallee, FindCallee, FlatCallee, Exec, Consistent, Registered;
    ActionRefines(db, o, a);
    CalleeRefines(db, o, a.target);
    assert Flat(View(db, o), a) == [];
  }

  /** A create that fails leaves the caller's nonce one higher and nothing else. */
  lemma FailedCreateKeepsNonce(db: Db, o: Overlay, a: Action)
    requires Registered(db) && Consistent(db, o)
    requires a.Create? && !a.ok && ToBalance(a.value).Some?
    ensures View(db, Exec(db, o, a).0) == WorldWrite(View(db, o), BumpNonce(a.caller)).0
  {
    hide View, Exec, Consistent, Registered;
    var s, bump := View(db, o), BumpNonce(a.caller);
    ActionRefines(db, o, a);
    ReplayOne(s, bump);
    assert [bump] + [] == [bump];
    assert Flat(s, a) == if WorldWrite(s, bump).1 then [bump] else [];
  }

  /**
   * An L1XVM call pays its deposit first. The caller pays exactly when the callee is not an
   * EVM contract: towards an EVM contract the deposit is taken from the callee itself.
   */
  lemma L1xDepositPaidByCaller(s: World, a: Action)
    requires a.L1xCall? && a.ok && !a.isStatic && a.caller != a.target && a.deposit > 0
    requires FlatCallee(s, a.target).Found? && !FlatCallee(s, a.target).contract.kind.XTALK?
    requires AllSucceed(s, Payment(L1xPayer(FlatCallee(s, a.target).contract.kind, a.caller, a.target),
                                   a.target, a.deposit, false))
    ensures Flat(s, a) != []
    ensures var paid := Replay(s, Flat(s, a)[..1]).accounts;
            && (Balance(paid, a.caller) == Balance(s.accounts, a.caller) - a.deposit
                && Balance(paid, a.target) == Balance(s.accounts, a.target) + a.deposit
                <==> FlatCallee(s, a.target).contract.kind.L1XVM?)
            && (FlatCallee(s, a.target).contract.kind.EVM? ==> paid == s.accounts)
  {
    hide FlatCallee;
    var pay := Move(L1xPayer(FlatCallee(s, a.target).contract.kind, a.caller, a.target), a.target, a.deposit);
    assert Flat(s, a) == [pay] + FlatAll(Replay(s, [pay]), a.body) + [Emit(a.ret)];
    assert Flat(s, a)[..1] == [pay];
    ReplayOne(s, pay);
  }

  // -------------------------------------------------- what a success leaves behind

  lemma PaymentSucceeds(s: World, payer: Address, target: Address, deposit: U128, isStatic: bool)
    ensures AllSucceed(s, Payment(payer, target, deposit, isStatic))
        <==> isStatic || deposit == 0
             || (&& payer in s.accounts && Balance(s.accounts, payer) >= deposit
                 && (payer == target || Balance(s.accounts, target) + deposit < U128_LIMIT))
  {
    assert !isStatic && deposit > 0 ==> Payment(payer, target, deposit, isStatic)[1..] == [];
  }

  /** Balances after a payment: the payer has the deposit less, the target has it more, nobody else changes. */
  ghost predicate Paid(before: Rows, after: Rows, payer: Address, target: Address, deposit: U128) {
    forall a :: Balance(after, a)
      == Balance(before, a) - (if a == payer then deposit else 0) + (if a == target then deposit else 0)
  }

  lemma PaymentPays(s: World, payer: Address, target: Address, deposit: U128, isStatic: bool)
    requires AllSucceed(s, Payment(payer, target, deposit, isStatic))
    ensures var t := Replay(s, Payment(payer, target, deposit, isStatic));
            && Paid(s.accounts, t.accounts, payer, target, if isStatic then 0 else deposit)
            && t == s.(accounts := t.accounts) && KeepsIdentity(s.accounts, t.accounts)
            && t.accounts.Keys == s.accounts.Keys + (if !isStatic && deposit > 0 then {target} else {})
            && (target in t.accounts && target !in s.accounts ==> t.accounts[target] == Account(deposit, 0, User))
  {
    if !isStatic && deposit > 0 {
      ReplayOne(s, Move(payer, target, deposit));
    }
  }

  /** A deployment's own writes: an EVM contract with the code, an instance of it at its address, and the event. */
  lemma DeployLeaves(s: World, address: Address, code: nat, deployed: Event)
    ensures var t := Replay(s, DeployWrites(address, code, deployed));
            && FlatCallee(t, address) == Found(Contract(EVM, code)) && t.instances[address] == address
            && t.events == s.events + [deployed] && t.accounts == s.accounts && t.storage == s.storage
            && t.contracts == s.contracts[address := t.contracts[address]]
            && t.instances == s.instances[address := address]
  {
    var ws := DeployWrites(address, code, deployed);
    assert ws == [ws[0]] + [ws[1]] + [ws[2]];
    ReplayConcat(s, [ws[0]] + [ws[1]], [ws[2]]);
    ReplayConcat(s, [ws[0]], [ws[1]]);
    ReplayOne(s, ws[0]);
    ReplayOne(Replay(s, [ws[0]]), ws[1]);
    ReplayOne(Replay(Replay(s, [ws[0]]), [ws[1]]), ws[2]);
  }

  /** When a create runs its constructor: value and nonce fit, the address is free, and the deposit is covered. */
  ghost predicate CreateStarts(s: World, a: Action)
    requires a.Create?
  {
    && ToBalance(a.value).Some? && a.caller in s.accounts && s.accounts[a.caller].nonce + 1 < U128_LIMIT
    && a.address !in s.accounts && Balance(s.accounts, a.caller) >= a.value
  }

  /**
   * What a create leaves behind: whatever its constructor does, an EVM contract with the
   * code at the new address and the event last; and around a constructor that does nothing,
   * a system account with exactly the deposit, the caller with the deposit less and a nonce
   * one higher, and nothing else changed.
   */
  lemma CreateLeaves(s: World, a: Action)
    requires a.Create? && a.ok && CreateStarts(s, a)
    ensures var t := Replay(s, Flat(s, a));
            && FlatCallee(t, a.address) == Found(Contract(EVM, a.code)) && t.instances[a.address] == a.address
            && |t.events| > 0 && t.events[|t.events| - 1] == a.deployed
            && (a.body == [] ==>
                  && t.accounts.Keys == s.accounts.Keys + {a.address}
                  && t.accounts[a.address] == Account(a.value, 0, System)
                  && t.accounts[a.caller] == Account(s.accounts[a.caller].balance - a.value,
                                                     s.accounts[a.caller].nonce + 1, s.accounts[a.caller].kind)
                  && (forall b :: b in s.accounts && b != a.caller ==> t.accounts[b] == s.accounts[b])
                  && t.contracts == s.contracts[a.address := Contract(EVM, a.code)]
                  && t.instances == s.instances[a.address := a.address]
                  && t.storage == s.storage && t.events == s.events + [a.deployed])
  {
    var bump := BumpNonce(a.caller);
    var s1 := Replay(s, [bump]);
    var first := [NewSystemAccount(a.address)] + Payment(a.caller, a.address, ToBalance(a.value).value, false);
    var last := DeployWrites(a.address, a.code, a.deployed);
    ReplayOne(s, bump);
    CreateOpens(s1, a);
    var s2 := Replay(s1, first);
    var inner := FlatAll(s2, a.body);
    var s3 := Replay(s2, inner);
    assert Flat(s, a) == [bump] + (first + inner + last);
    ReplayConcat(s, [bump], first + inner + last);
    ReplayConcat(s1, first + inner, last);
    ReplayConcat(s1, first, inner);
    DeployLeaves(s3, a.address, a.code, a.deployed);
  }

  lemma CreateOpens(s: World, a: Action)
    requires a.Create? && ToBalance(a.value).Some? && a.caller in s.accounts && a.address !in s.accounts
    requires Balance(s.accounts, a.caller) >= a.value
    ensures var first := [NewSystemAccount(a.address)] + Payment(a.caller, a.address, ToBalance(a.value).value, false);
            && AllSucceed(s, first)
            && Replay(s, first)
               == s.(accounts := s.accounts[a.caller := s.accounts[a.caller]
                                              .(balance := s.accounts[a.caller].balance - a.value)]
                                           [a.address := Account(a.value, 0, System)])
  {
    var new', pay := NewSystemAccount(a.address), Payment(a.caller, a.address, ToBalance(a.value).value, false);
    var s1 := WorldWrite(s, new').0;
    assert ([new'] + pay)[1..] == pay;
    PaymentSucceeds(s1, a.caller, a.address, ToBalance(a.value).value, false);
    if a.value > 0 {
      ReplayOne(s1, Move(a.caller, a.address, ToBalance(a.value).value));
    } else {
      assert pay == [];
    }
  }

  /** A create that cannot start, or whose constructor fails, leaves a nonce bump at most. */
  lemma CreateElse(s: World, a: Action)
    requires a.Create? && !(a.ok && CreateStarts(s, a))
    ensures Flat(s, a) == [] || Flat(s, a) == [BumpNonce(a.caller)]
  {
    var s1 := WorldWrite(s, BumpNonce(a.caller)).0;
    var deposit := ToBalance(a.value);
    if deposit.Some? && WorldWrite(s, BumpNonce(a.caller)).1 && a.ok {
      var new', pay := NewSystemAccount(a.address), Payment(a.caller, a.address, deposit.value, false);
      assert ([new'] + pay)[0] == new' && ([new'] + pay)[1..] == pay;
      PaymentSucceeds(WorldWrite(s1, new').0, a.caller, a.address, deposit.value, false);
    }
  }

  /**
   * What a call to an existing contract leaves behind, around a callee that does nothing:
   * the payment, unless the call is static, and the event of its frame; and a call that
   * fails, or whose payment does, leaves nothing.
   */
  lemma CallLeaves(s: World, a: Action)
    requires a.EvmCall? || a.L1xCall?
    requires FlatCallee(s, a.target).Found? && !FlatCallee(s, a.target).contract.kind.XTALK? && a.body == []
    requires a.EvmCall? && a.transfer.Some? ==> ToBalance(a.transfer.value.value).Some?
    ensures var evm := FlatCallee(s, a.target).contract.kind.EVM?;
            var payer := if a.L1xCall? && evm then a.target else a.caller;
            var deposit := if a.L1xCall? then a.deposit else if a.transfer.None? then 0 else a.transfer.value.value;
            var t := Replay(s, Flat(s, a));
            var runs := a.ok && AllSucceed(s, Payment(payer, a.target, deposit, a.isStatic));
            && (!runs ==> t == s)
            && (runs ==>
                  && Paid(s.accounts, t.accounts, payer, a.target, if a.isStatic then 0 else deposit)
                  && KeepsIdentity(s.accounts, t.accounts)
                  && t.events == s.events + (if a.isStatic then [] else [a.ret])
                  && t.contracts == s.contracts && t.instances == s.instances && t.storage == s.storage)
  {
    hide FlatCallee;
    var evm := FlatCallee(s, a.target).contract.kind.EVM?;
    var payer := if a.L1xCall? && evm then a.target else a.caller;
    var deposit := if a.L1xCall? then a.deposit else if a.transfer.None? then 0 else a.transfer.value.value;
    var pay := Payment(payer, a.target, deposit, a.isStatic);
    var last := if a.isStatic then [] else [Emit(a.ret)];
    if a.ok && AllSucceed(s, pay) {
      assert FlatAll(Replay(s, pay), []) == [];
      assert Flat(s, a) == pay + [] + last && pay + [] == pay;
      ReplayConcat(s, pay, last);
      PaymentPays(s, payer, a.target, deposit, a.isStatic);
      if !a.isStatic {
        ReplayOne(Replay(s, pay), Emit(a.ret));
      }
    } else {
      assert Flat(s, a) == [];
    }
  }

  /** A call to a contract of the third kind does nothing, and so does one whose contract row is missing. */
  lemma NothingToRun(s: World, a: Action)
    requires a.EvmCall? || a.L1xCall?
    requires FlatCallee(s, a.target).Broken? || (FlatCallee(s, a.target).Missing? && a.L1xCall?)
             || (FlatCallee(s, a.target).Found? && FlatCallee(s, a.target).contract.kind.XTALK?)
    ensures Flat(s, a) == []
  {
  }

  /** A value is refused, before anything else happens, exactly from 2^128 - 1 on: u128::MAX itself is refused too. */
  lemma ValueRefusedIff(s: World, a: Action)
    requires a.Create? || (a.EvmCall? && a.transfer.Some?)
    ensures var value := if a.Create? then a.value else a.transfer.value.value;
            && (ToBalance(value) == Some(value) <==> value < U128_LIMIT - 1)
            && (value >= U128_LIMIT - 1 ==> Flat(s, a) == [])
  {
  }

  /** A call to an address without a contract: the transfer that the trap asks for, and nothing else. */
  lemma PlainTransfer(s: World, a: Action)
    requires a.EvmCall? && FlatCallee(s, a.target).Missing?
    ensures Flat(s, a) == if a.transfer.None? || ToBalance(a.transfer.value.value).None? then []
                          else [Move(a.transfer.value.source, a.transfer.value.target, a.transfer.value.value)]
  {
  }

  /** The move that a trap's transfer asks for. */
  function Asked(transfer: Option<Transfer>): seq<Write> {
    if transfer.None? || transfer.value.value == 0 then []
    else if ToBalance(transfer.value.value).None? then []
    else [Move(transfer.value.source, transfer.value.target, transfer.value.value)]
  }

  /** The action that the handler makes of a trap on a call to code at `to`. */
  function TrapCall(scheme: CallTrap.Scheme, to: Address, value: U256, self: CallTrap.Context, body: seq<Action>,
                    ok: bool, ret: Event): Action
  {
    EvmCall(CallTrap.CallContext(scheme, to, value, self).caller, to, CallTrap.CallTransfer(scheme, to, value, self),
            scheme.StaticCall?, body, ok, ret)
  }

  /** The payment of the callee's frame, where the callee exists. */
  function FramePayment(a: Action): seq<Write>
    requires a.EvmCall? && (a.transfer.Some? ==> ToBalance(a.transfer.value.value).Some?)
  {
    Payment(a.caller, a.target, if a.transfer.None? then 0 else ToBalance(a.transfer.value.value).value, a.isStatic)
  }

  /**
   * The callee's frame is paid what the trap's transfer asks for, except for CALLCODE with a
   * value at another contract's code: its transfer is to the caller itself, and the payment
   * goes to that contract.
   */
  lemma TrapTransferPaidIff(scheme: CallTrap.Scheme, to: Address, value: U256, self: CallTrap.Context,
                            body: seq<Action>, ok: bool, ret: Event)
    requires ToBalance(value).Some?
    ensures FramePayment(TrapCall(scheme, to, value, self, body, ok, ret))
         == Asked(CallTrap.CallTransfer(scheme, to, value, self))
        <==> !scheme.CallCode? || value == 0 || to == self.address
  {
    if scheme.CallCode? && value != 0 && to != self.address {
      var paid, asked := Move(self.address, to, value), Move(self.address, self.address, value);
      assert [paid][0] != [asked][0];
    }
  }

  /** Contract 1 runs the code of contract 2 with a value of 5: contract 2 has the 5 afterwards. */
  lemma CallCodePaysCode()
    ensures var system := Account(10, 0, System);
            var s := World(map[1 := system, 2 := system], map[2 := Contract(EVM, 0)], map[2 := 2], map[], []);
            var a := TrapCall(CallTrap.CallCode, 2, 5, CallTrap.Context(1, 9, 0), [], true, 0);
            && Balance(Replay(s, Flat(s, a)).accounts, 1) == 5 && Balance(Replay(s, Flat(s, a)).accounts, 2) == 15
  {
    var system := Account(10, 0, System);
    var s := World(map[1 := system, 2 := system], map[2 := Contract(EVM, 0)], map[2 := 2], map[], []);
    var pay := Move(1, 2, 5);
    assert AllSucceed(s, [pay]);
    assert FlatAll(Replay(s, [pay]), []) == [];
    assert Flat(s, TrapCall(CallTrap.CallCode, 2, 5, CallTrap.Context(1, 9, 0), [], true, 0)) == [pay] + [] + [Emit(0)];
    ReplayConcat(s, [pay] + [], [Emit(0)]);
    assert [pay] + [] == [pay];
    ReplayOne(s, pay);
    ReplayOne(Replay(s, [pay]), Emit(0));
  }

  /** Account 1 calls the EVM contract 2 with a deposit of 5 and keeps its tokens. */
  lemma EvmCalleePaysItself()
    ensures var user, system := Account(10, 0, User), Account(5, 0, System);
            var s := World(map[1 := user, 2 := system], map[2 := Contract(EVM, 0)], map[2 := 2], map[], []);
            var a := L1xCall(1, 2, 5, false, [], true, 0);
            Replay(s, Flat(s, a)).accounts == s.accounts && Replay(s, Flat(s, a)).events == [0]
  {
    var user, system := Account(10, 0, User), Account(5, 0, System);
    var s := World(map[1 := user, 2 := system], map[2 := Contract(EVM, 0)], map[2 := 2], map[], []);
    var pay := Move(2, 2, 5);
    assert AllSucceed(s, [pay]);
    assert FlatAll(Replay(s, [pay]), []) == [];
    assert Flat(s, L1xCall(1, 2, 5, false, [], true, 0)) == [pay] + [] + [Emit(0)];
    ReplayConcat(s, [pay] + [], [Emit(0)]);
    assert [pay] + [] == [pay];
    ReplayOne(s, pay);
    ReplayOne(s, Emit(0));
  }

  // ------------------------------------------------------------------ commit

  ghost predicate WorldRegistered(s: World) {
    s.contracts.Keys <= s.accounts.Keys && s.instances.Keys <= s.accounts.Keys
  }

  /** Storing needs the account. */
  predicate Anchored(s: World, w: Write) {
    match w
    case PutContract(a, _) => a in s.accounts
    case PutInstance(a, _) => a in s.accounts
    case _ => true
  }

  lemma WriteRegisters(s: World, w: Write)
    requires WorldRegistered(s) && Anchored(s, w)
    ensures WorldRegistered(WorldWrite(s, w).0) && s.accounts.Keys <= WorldWrite(s, w).0.accounts.Keys
  {
  }

  /** A list of writes keeps every contract and instance registered and drops no account. */
  ghost predicate Registers(s: World, ws: seq<Write>) {
    WorldRegistered(Replay(s, ws)) && s.accounts.Keys <= Replay(s, ws).accounts.Keys
  }

  lemma RegistersParts(s: World, ws: seq<Write>)
    requires Registers(s, ws)
    ensures WorldRegistered(Replay(s, ws)) && s.accounts.Keys <= Replay(s, ws).accounts.Keys
  {
  }

  lemma RegistersThen(s: World, a: seq<Write>, b: seq<Write>)
    requires Registers(s, a) && Registers(Replay(s, a), b)
    ensures Registers(s, a + b)
  {
    ReplayConcat(s, a, b);
  }

  lemma {:induction false} PlainRegisters(s: World, ws: seq<Write>)
    requires WorldRegistered(s) && forall i :: 0 <= i < |ws| ==> !ws[i].PutContract? && !ws[i].PutInstance?
    ensures Registers(s, ws)
    decreases |ws|
  {
    if ws != [] {
      WriteRegisters(s, ws[0]);
      PlainRegisters(WorldWrite(s, ws[0]).0, ws[1..]);
    }
  }

  lemma DeployRegisters(s: World, address: Address, code: nat, deployed: Event)
    requires WorldRegistered(s) && address in s.accounts
    ensures Registers(s, DeployWrites(address, code, deployed))
  {
    var w1, w2, w3 := PutContract(address, Contract(EVM, code)), PutInstance(address, address), Emit(deployed);
    var s1 := WorldWrite(s, w1).0;
    var s2 := WorldWrite(s1, w2).0;
    WriteRegisters(s, w1);
    WriteRegisters(s1, w2);
    ReplayOne(s, w1);
    ReplayOne(s1, w2);
    ReplayConcat(s, [w1], [w2]);
    ReplayConcat(s, [w1] + [w2], [w3]);
    ReplayOne(s2, w3);
    assert [w1] + [w2] + [w3] == DeployWrites(address, code, deployed);
  }

  lemma {:induction false} FrameRegisters(s: World, first: seq<Write>, body: seq<Action>, ok: bool, last: seq<Write>)
    requires WorldRegistered(s) && forall i :: 0 <= i < |first| ==> !first[i].PutContract? && !first[i].PutInstance?
    requires AllSucceed(s, first)
             ==> forall t: World :: WorldRegistered(t) && Replay(s, first).accounts.Keys <= t.accounts.Keys
                                    ==> Registers(t, last)
    ensures Registers(s, FlatFrame(s, first, body, ok, last))
    decreases body, 1
  {
    hide WorldRegistered, Registers, Replay, FlatAll;
    PlainRegisters(s, first);
    RegistersParts(s, first);
    if ok && AllSucceed(s, first) {
      var t := Replay(s, first);
      var ran := FlatAll(t, body);
      TreeRegisters(t, body);
      RegistersParts(t, ran);
      RegistersThen(s, first, ran);
      ReplayConcat(s, first, ran);
      RegistersThen(s, first + ran, last);
    } else {
      PlainRegisters(s, []);
    }
  }

  lemma {:induction false} ActionRegisters(s: World, a: Action)
    requires WorldRegistered(s)
    ensures Registers(s, Flat(s, a))
    decreases a, 2
  {
    hide WorldRegistered, FlatFrame, FlatCallee, WorldWrite;
    PlainRegisters(s, []);
    match a
    case Read(_) =>
    case Do(w) => PlainRegisters(s, [w]);
    case EvmCall(caller, target, transfer, isStatic, body, ok, ret) =>
      var deposit := if transfer.None? then Some(0) else ToBalance(transfer.value.value);
      if deposit.Some? {
        if transfer.Some? {
          PlainRegisters(s, [Move(transfer.value.source, transfer.value.target, deposit.value)]);
        }
        CallRegisters(s, Payment(caller, target, deposit.value, isStatic), body, ok, isStatic, ret);
      }
    case L1xCall(caller, target, deposit, isStatic, body, ok, ret) =>
      if FlatCallee(s, target).Found? {
        var payer := L1xPayer(FlatCallee(s, target).contract.kind, caller, target);
        CallRegisters(s, Payment(payer, target, deposit, isStatic), body, ok, isStatic, ret);
      }
    case Create(caller, address, value, body, ok, code, deployed) =>
      var deposit := ToBalance(value);
      if deposit.Some? && WorldWrite(s, BumpNonce(caller)).1 {
        PlainRegisters(s, [BumpNonce(caller)]);
        ReplayOne(s, BumpNonce(caller));
        CreateRegisters(WorldWrite(s, BumpNonce(caller)).0, caller, address, deposit.value, body, ok, code, deployed);
        RegistersThen(s, [BumpNonce(caller)],
                      FlatFrame(WorldWrite(s, BumpNonce(caller)).0,
                                [NewSystemAccount(address)] + Payment(caller, address, deposit.value, false), body, ok,
                                DeployWrites(address, code, deployed)));
      }
  }

  lemma {:induction false} CallRegisters(s: World, first: seq<Write>, body: seq<Action>, ok: bool, isStatic: bool,
                                         ret: Event)
    requires WorldRegistered(s) && forall i :: 0 <= i < |first| ==> !first[i].PutContract? && !first[i].PutInstance?
    ensures Registers(s, FlatFrame(s, first, body, ok, if isStatic then [] else [Emit(ret)]))
    decreases body, 2
  {
    hide WorldRegistered, FlatFrame, Registers;
    var last := if isStatic then [] else [Emit(ret)];
    forall t: World | WorldRegistered(t) ensures Registers(t, last) {
      PlainRegisters(t, last);
    }
    FrameRegisters(s, first, body, ok, last);
  }

  lemma {:induction false} CreateRegisters(s: World, caller: Address, address: Address, deposit: U128,
                                           body: seq<Action>, ok: bool, code: nat, deployed: Event)
    requires WorldRegistered(s)
    ensures Registers(s, FlatFrame(s, [NewSystemAccount(address)] + Payment(caller, address, deposit, false), body, ok,
                                   DeployWrites(address, code, deployed)))
    decreases body, 2
  {
    hide WorldRegistered, FlatFrame, Registers;
    var pay := Payment(caller, address, deposit, false);
    var first := [NewSystemAccount(address)] + pay;
    var last := DeployWrites(address, code, deployed);
    if AllSucceed(s, first) {
      AccountCreated(s, address, pay);
      forall t: World | WorldRegistered(t) && Replay(s, first).accounts.Keys <= t.accounts.Keys
        ensures Registers(t, last)
      {
        DeployRegisters(t, address, code, deployed);
      }
    }
    FrameRegisters(s, first, body, ok, last);
  }

  lemma AccountCreated(s: World, address: Address, pay: seq<Write>)
    requires WorldRegistered(s) && AllSucceed(s, [NewSystemAccount(address)] + pay)
    requires forall i :: 0 <= i < |pay| ==> !pay[i].PutContract? && !pay[i].PutInstance?
    ensures address in Replay(s, [NewSystemAccount(address)] + pay).accounts
  {
    var create := NewSystemAccount(address);
    assert ([create] + pay)[0] == create;
    ReplayConcat(s, [create], pay);
    ReplayOne(s, create);
    WriteRegisters(s, create);
    PlainRegisters(WorldWrite(s, create).0, pay);
  }

  lemma {:induction false} TreeRegisters(s: World, actions: seq<Action>)
    requires WorldRegistered(s)
    ensures Registers(s, FlatAll(s, actions))
    decreases actions, 0
  {
    hide WorldRegistered;
    if actions != [] {
      ActionRegisters(s, actions[0]);
      TreeRegisters(Replay(s, Flat(s, actions[0])), actions[1..]);
      RegistersThen(s, Flat(s, actions[0]), FlatAll(Replay(s, Flat(s, actions[0])), actions[1..]));
    }
  }

  const EMPTY: Overlay := Overlay(map[], map[], map[], map[], [])

  function WorldOf(db: Db): World { World(db.accounts, db.contracts, db.instances, db.storage, []) }

  lemma EmptyOverlay(db: Db)
    ensures Consistent(db, EMPTY) && View(db, EMPTY) == WorldOf(db)
  {
  }

  /**
   * End to end: running a whole tree on a fresh overlay, the commit cannot fail, and it
   * leaves all tables as the flat replay of the surviving writes leaves them, the events to
   * append included; the database it leaves is again one where every contract has an account.
   */
  lemma CommittedTreeIsFlatReplay(db: Db, actions: seq<Action>)
    requires Registered(db)
    ensures var o := ExecAll(db, EMPTY, actions);
            var end := Replay(WorldOf(db), FlatAll(WorldOf(db), actions));
            && Committable(db, o) && o.events == end.events
            && Commit(db, o) == Db(end.accounts, end.contracts, end.instances, end.storage)
            && Registered(Commit(db, o))
  {
    hide Consistent, View, Commit, Committable;
    EmptyOverlay(db);
    TreeIsFlatReplay(db, EMPTY, actions);
    TreeRegisters(WorldOf(db), actions);
    var o := ExecAll(db, EMPTY, actions);
    CommitIsView(db, o);
    ViewEvents(db, o);
  }

  lemma ViewEvents(db: Db, o: Overlay)
    ensures View(db, o).events == o.events
  {
  }
}
