/**
 * The call trap of the EVM interpreter: `new_from` suspends the caller and
 * `feedback` resumes it with the callee's exit reason and return data.
 */
module CallTrap {
  import opened Primitives
  import opened EvmMemory
  import Ledger

  type Word = U256

  /** The last 20 bytes of a word. */
  function ToAddress(w: Word): Address { (w % ADDRESS_LIMIT) as Address }

  datatype Scheme = Call | CallCode | DelegateCall | StaticCall

  datatype Exit = Succeeded | Reverted | Exception | Fatal

  /** `Panicked` is no error value: a vector was asked for more than isize::MAX bytes. */
  datatype Error = StackUnderflow | StackOverflow | InvalidRange | NotSupported | CalleeFatal | Panicked

  datatype Context = Context(address: Address, caller: Address, value: Word)

  datatype TrapData = TrapData(target: Address, transfer: Option<Ledger.Transfer>, input: seq<Byte>, gas: Word,
                               isStatic: bool, outOffset: Word, outLen: Word, context: Context)

  /** The part of a machine that a call reads or changes. */
  datatype Frame = Frame(stack: seq<Word>, stackLimit: nat, data: seq<Byte>, effectiveLen: U256,
                         memoryLimit: Usize, retbuf: seq<Byte>, context: Context)

  // --------------------------------------------------------------- on values

  function Arity(scheme: Scheme): nat {
    if scheme.Call? || scheme.CallCode? then 7 else 6
  }

  /** The operand `k` places below the top of the stack. */
  function Peek(stack: seq<Word>, k: nat): Word
    requires k < |stack|
  {
    stack[|stack| - 1 - k]
  }

  function CallContext(scheme: Scheme, to: Address, value: Word, self: Context): Context {
    match scheme
    case Call => Context(to, self.address, value)
    case StaticCall => Context(to, self.address, value)
    case CallCode => Context(self.address, self.address, value)
    case DelegateCall => Context(self.address, self.caller, self.value)
  }

  function CallTransfer(scheme: Scheme, to: Address, value: Word, self: Context): Option<Ledger.Transfer> {
    match scheme
    case Call => Some(Ledger.Transfer(self.address, to, value))
    case CallCode => Some(Ledger.Transfer(self.address, self.address, value))
    case _ => None
  }

  function ParamsSpec(f: Frame, scheme: Scheme, gas: Word, to: Word, value: Word, inOffset: Word,
                      inLen: Word, outOffset: Word, outLen: Word): Result<(TrapData, Frame), Error>
  {
    if inOffset + inLen >= U256_LIMIT || outOffset + outLen >= U256_LIMIT then Err(Error.InvalidRange)
    else if inLen != 0 && (inOffset > USIZE_MAX || inLen > USIZE_MAX) then Err(Error.NotSupported)
    else
      var resized := ResizeSpec(f.effectiveLen, End(Max(inOffset + inLen, outOffset + outLen)));
      if resized.None? then Err(Error.InvalidRange)
      else if inLen > ISIZE_MAX then Err(Panicked) else
      var input := if inLen == 0 then [] else Window(f.data, inOffset, inLen);
      var target := ToAddress(to);
      Ok((TrapData(target, CallTransfer(scheme, target, value, f.context), input, gas, scheme.StaticCall?,
                   outOffset, outLen, CallContext(scheme, target, value, f.context)),
          f.(effectiveLen := resized.value, retbuf := [])))
  }

  /** `new_from`: pops the operands only if the trap is raised. */
  function TrapSpec(f: Frame, scheme: Scheme): Result<(TrapData, Frame), Error> {
    var n := Arity(scheme);
    if |f.stack| < n then Err(StackUnderflow)
    else if |f.stack| - n + 1 > f.stackLimit then Err(StackOverflow)
    else
      var s := f.stack;
      var r := if n == 7
        then ParamsSpec(f, scheme, Peek(s, 0), Peek(s, 1), Peek(s, 2), Peek(s, 3), Peek(s, 4), Peek(s, 5), Peek(s, 6))
        else ParamsSpec(f, scheme, Peek(s, 0), Peek(s, 1), 0, Peek(s, 2), Peek(s, 3), Peek(s, 4), Peek(s, 5));
      match r
      case Err(e) => Err(e)
      case Ok((trap, g)) => Ok((trap, g.(stack := s[..|s| - n])))
  }

  function TargetLen(trap: TrapData, ret: seq<Byte>): nat { Min(trap.outLen, |ret|) }

  function CopyBack(f: Frame, trap: TrapData, ret: seq<Byte>): Outcome {
    CopySpec(f.data, f.memoryLimit, trap.outOffset, 0, TargetLen(trap, ret), ret)
  }

  /** `feedback`: the error the caller sees, if any, and the resumed frame. */
  function FeedbackSpec(f: Frame, trap: TrapData, reason: Exit, ret: seq<Byte>): (Option<Error>, Frame) {
    var copies := reason.Succeeded? || reason.Reverted?;
    var copied := CopyBack(f, trap, ret);
    var data := if copies && copied.Wrote? then copied.data else f.data;
    var full := |f.stack| + 1 > f.stackLimit;
    if reason.Succeeded? && copied.Panics? then (Some(Panicked), f)
    else if full then (Some(StackOverflow), if reason.Succeeded? then f.(data := data) else f)
    else
      var flag := if reason.Succeeded? && copied.Wrote? then 1 else 0;
      var resumed := f.(data := data, stack := f.stack + [flag]);
      if copies && copied.Panics? then (Some(Panicked), resumed)
      else if reason.Fatal? then (Some(CalleeFatal), resumed) else (None, resumed.(retbuf := ret))
  }

  // --------------------------------------------------------------- the object

  class Machine {
    var stack: seq<Word>
    const stackLimit: nat
    const memory: Memory
    var retbuf: seq<Byte>
    const context: Context

    ghost predicate Valid() reads this, memory { memory.Valid() }

    ghost function View(): Frame reads this, memory {
      Frame(stack, stackLimit, memory.data, memory.effectiveLen, memory.limit, retbuf, context)
    }

    constructor (stackLimit: nat, memory: Memory, context: Context)
      ensures View() == Frame([], stackLimit, memory.data, memory.effectiveLen, memory.limit, [], context)
      ensures this.memory == memory
    {
      stack, retbuf := [], [];
      this.stackLimit, this.memory, this.context := stackLimit, memory, context;
    }

    method NewFromParams(scheme: Scheme, gas: Word, to: Word, value: Option<Word>, inOffset: Word,
                         inLen: Word, outOffset: Word, outLen: Word) returns (r: Result<TrapData, Error>)
      requires Valid()
      modifies this`retbuf, memory`effectiveLen
      ensures Valid()
      ensures var amount := if value.Some? then value.value else 0;
              match ParamsSpec(old(View()), scheme, gas, to, amount, inOffset, inLen, outOffset, outLen)
              case Err(e) => r == Err(e) && (e != Panicked ==> View() == old(View()))
              case Ok((trap, f)) => r == Ok(trap) && View() == f
    {
      var amount := if value.Some? then value.value else 0;
      if inOffset + inLen >= U256_LIMIT { return Err(Error.InvalidRange); }
      var inEnd := inOffset + inLen;
      if outOffset + outLen >= U256_LIMIT { return Err(Error.InvalidRange); }
      var outEnd := outOffset + outLen;
      if inLen != 0 && (inOffset > USIZE_MAX || inLen > USIZE_MAX) { return Err(Error.NotSupported); }
      var resized := memory.ResizeEnd(Max(inEnd, outEnd));
      if resized.Err? { return Err(Error.InvalidRange); }
      var input: seq<Byte> := [];
      if inLen != 0 {
        var got := memory.Get(inOffset, inLen);
        if got.None? { return Err(Panicked); }
        input := got.value;
      }
      var target := ToAddress(to);
      retbuf := [];
      r := Ok(TrapData(target, CallTransfer(scheme, target, amount, context), input, gas, scheme == StaticCall,
                       outOffset, outLen, CallContext(scheme, target, amount, context)));
    }

    method NewFrom(scheme: Scheme) returns (r: Result<TrapData, Error>)
      requires Valid()
      modifies this, memory`effectiveLen
      ensures Valid()
      ensures match TrapSpec(old(View()), scheme)
              case Err(e) => r == Err(e) && (e != Panicked ==> View() == old(View()))
              case Ok((trap, f)) => r == Ok(trap) && View() == f
    {
      var n := Arity(scheme);
      if |stack| < n { return Err(StackUnderflow); }
      if |stack| - n + 1 > stackLimit { return Err(StackOverflow); }
      if n == 7 {
        r := NewFromParams(scheme, Peek(stack, 0), Peek(stack, 1), Some(Peek(stack, 2)), Peek(stack, 3),
                           Peek(stack, 4), Peek(stack, 5), Peek(stack, 6));
      } else {
        r := NewFromParams(scheme, Peek(stack, 0), Peek(stack, 1), None, Peek(stack, 2), Peek(stack, 3),
                           Peek(stack, 4), Peek(stack, 5));
      }
      if r.Ok? {
        stack := stack[..|stack| - n];
      }
    }

    method Push(w: Word) returns (r: Result<(), Error>)
      modifies this`stack
      ensures r.Ok? <==> old(|stack|) < stackLimit
      ensures stack == if r.Ok? then old(stack) + [w] else old(stack)
      ensures r.Err? ==> r.error == StackOverflow
    {
      if |stack| + 1 > stackLimit { return Err(StackOverflow); }
      stack := stack + [w];
      r := Ok(());
    }

    method Feedback(trap: TrapData, reason: Exit, ret: seq<Byte>) returns (r: Result<(), Error>)
      requires Valid() && |ret| <= ISIZE_MAX
      modifies this, memory`data
      ensures Valid()
      ensures View() == FeedbackSpec(old(View()), trap, reason, ret).1
      ensures r == match FeedbackSpec(old(View()), trap, reason, ret).0
                   case None => Ok(())
                   case Some(e) => Err(e)
    {
      var targetLen := Min(trap.outLen, |ret|);
      match reason {
        case Succeeded =>
          var copied := memory.CopyLarge(trap.outOffset, 0, targetLen, ret);
          if copied == Err(CapacityOverflow) { return Err(Panicked); }
          r := Push(if copied.Ok? then 1 else 0);
          if r.Err? { return; }
        case Reverted =>
          r := Push(0);
          if r.Err? { return; }
          var copied := memory.CopyLarge(trap.outOffset, 0, targetLen, ret);
          if copied == Err(CapacityOverflow) { return Err(Panicked); }
        case Exception =>
          r := Push(0);
          if r.Err? { return; }
        case Fatal =>
          r := Push(0);
          if r.Err? { return; }
          return Err(CalleeFatal);
      }
      retbuf := ret;
      r := Ok(());
    }
  }

  // -------------------------------------------------------------- properties

  /** Memory never holds bytes past the length that was paid for. */
  ghost predicate Sized(f: Frame) { |f.data| <= f.effectiveLen }

  /** The operands of a call, by what they mean. */
  datatype Operands = Operands(gas: Word, to: Word, value: Word, inOffset: Word, inLen: Word, outOffset: Word,
                               outLen: Word)

  /** How the operands lie on the stack, the gas on top; the last two schemes take no value. */
  function Pushed(scheme: Scheme, ops: Operands): seq<Word> {
    if scheme.Call? || scheme.CallCode?
    then [ops.outLen, ops.outOffset, ops.inLen, ops.inOffset, ops.value, ops.to, ops.gas]
    else [ops.outLen, ops.outOffset, ops.inLen, ops.inOffset, ops.to, ops.gas]
  }

  /** The account whose storage the callee works on, who it sees as its caller, and the value it sees. */
  ghost predicate RunsAs(scheme: Scheme, self: Context, ops: Operands, target: Address, as': Context) {
    match scheme
    case Call => as'.address == target && as'.caller == self.address && as'.value == ops.value
    case CallCode => as'.address == self.address && as'.caller == self.address && as'.value == ops.value
    case DelegateCall => as' == self
    case StaticCall => as'.address == target && as'.caller == self.address && as'.value == 0
  }

  /**
   * Which operand becomes what: a raised trap asks for exactly the gas given, calls the
   * address in the last 20 bytes of the target word, passes the bytes of the input range,
   * remembers the output range, and leaves the rest of the stack.
   */
  lemma TrapOperands(f: Frame, scheme: Scheme, rest: seq<Word>, ops: Operands)
    requires f.stack == rest + Pushed(scheme, ops) && TrapSpec(f, scheme).Ok?
    ensures var (trap, g) := TrapSpec(f, scheme).value;
            && trap.gas == ops.gas && trap.outOffset == ops.outOffset && trap.outLen == ops.outLen
            && (exists high: nat :: ops.to == high * ADDRESS_LIMIT + trap.target as int)
            && |trap.input| == ops.inLen
            && (forall i :: 0 <= i < ops.inLen ==> trap.input[i] == At(f.data, ops.inOffset + i))
            && RunsAs(scheme, f.context, ops, trap.target, trap.context)
            && (trap.isStatic <==> scheme.StaticCall?)
            && (trap.transfer.Some? <==> scheme.Call? || scheme.CallCode?)
            && (trap.transfer.Some? ==>
                  && trap.transfer.value.source == f.context.address && trap.transfer.value.value == ops.value
                  && trap.transfer.value.target == (if scheme.Call? then trap.target else f.context.address))
            && g == f.(stack := rest, effectiveLen := g.effectiveLen, retbuf := [])
  {
    var (trap, g) := TrapSpec(f, scheme).value;
    assert f.stack[..|rest|] == rest;
    var high := ops.to / ADDRESS_LIMIT;
    assert ops.to == high * ADDRESS_LIMIT + trap.target as int;
  }

  /** Both ranges end where memory reaches already, or can be rounded up to without passing 2^256. */
  predicate Reachable(f: Frame, ops: Operands) {
    Max(ops.inOffset + ops.inLen, ops.outOffset + ops.outLen) <= Max(f.effectiveLen, U256_LIMIT - 32)
  }

  /** The input range is empty, or usize can express its bounds. */
  predicate Expressible(ops: Operands) {
    ops.inLen == 0 || (ops.inOffset <= USIZE_MAX && ops.inLen <= USIZE_MAX)
  }

  lemma ResizedIff(f: Frame, end: nat)
    requires end < U256_LIMIT
    ensures ResizeSpec(f.effectiveLen, End(end)).Some? <==> end <= Max(f.effectiveLen, U256_LIMIT - 32)
  {
    hide NextMultipleOf32;
    var _ := NextMultipleOf32(end);
  }

  lemma ParamsRaisedIff(f: Frame, scheme: Scheme, ops: Operands)
    ensures var inEnd, outEnd := ops.inOffset + ops.inLen, ops.outOffset + ops.outLen;
            var r := ParamsSpec(f, scheme, ops.gas, ops.to, ops.value, ops.inOffset, ops.inLen,
                                ops.outOffset, ops.outLen);
            && (r.Ok? <==> Expressible(ops) && Reachable(f, ops) && ops.inLen <= ISIZE_MAX)
            && (r == Err(Error.NotSupported) <==> inEnd < U256_LIMIT && outEnd < U256_LIMIT && !Expressible(ops))
            && (r == Err(Panicked) <==> Expressible(ops) && Reachable(f, ops) && ops.inLen > ISIZE_MAX)
            && (r.Err? ==> r.error in {Error.InvalidRange, Error.NotSupported, Panicked})
  {
    hide ResizeSpec, CallTransfer, CallContext;
    var end := Max(ops.inOffset + ops.inLen, ops.outOffset + ops.outLen);
    if end < U256_LIMIT {
      ResizedIff(f, end);
    }
  }

  /** With operands for the scheme on the stack, only room for the flag matters before they are looked at. */
  lemma TrapIsParams(f: Frame, scheme: Scheme, rest: seq<Word>, ops: Operands)
    requires f.stack == rest + Pushed(scheme, ops)
    ensures var value := if scheme.Call? || scheme.CallCode? then ops.value else 0;
            var r := ParamsSpec(f, scheme, ops.gas, ops.to, value, ops.inOffset, ops.inLen, ops.outOffset, ops.outLen);
            && (TrapSpec(f, scheme).Ok? <==> |rest| < f.stackLimit && r.Ok?)
            && (TrapSpec(f, scheme).Err? ==>
                  TrapSpec(f, scheme).error == if |rest| >= f.stackLimit then StackOverflow else r.error)
  {
    hide ParamsSpec;
  }

  /**
   * When a trap is raised, and what stops it: no room for the flag, an input that usize
   * cannot express, an input that no vector can hold, or else a range that ends too high.
   */
  lemma TrapRaisedIff(f: Frame, scheme: Scheme, rest: seq<Word>, ops: Operands)
    requires f.stack == rest + Pushed(scheme, ops)
    ensures var r, room := TrapSpec(f, scheme), |rest| < f.stackLimit;
            var inEnd, outEnd := ops.inOffset + ops.inLen, ops.outOffset + ops.outLen;
            && (r.Ok? <==> room && Expressible(ops) && Reachable(f, ops) && ops.inLen <= ISIZE_MAX)
            && (r == Err(StackOverflow) <==> !room)
            && (r == Err(Error.NotSupported)
                <==> room && inEnd < U256_LIMIT && outEnd < U256_LIMIT && !Expressible(ops))
            && (r == Err(Panicked) <==> room && Expressible(ops) && Reachable(f, ops) && ops.inLen > ISIZE_MAX)
  {
    hide TrapSpec, ParamsSpec, Expressible, Reachable;
    var taken := if scheme.Call? || scheme.CallCode? then ops else ops.(value := 0);
    TrapIsParams(f, scheme, rest, ops);
    ParamsRaisedIff(f, scheme, taken);
    SameRanges(f, ops, taken);
  }

  lemma SameRanges(f: Frame, a: Operands, b: Operands)
    requires b == a.(value := b.value)
    ensures Reachable(f, a) == Reachable(f, b) && Expressible(a) == Expressible(b)
  {
  }

  /** A stack with fewer operands than the scheme takes is an error, and only that. */
  lemma TrapUnderflowIff(f: Frame, scheme: Scheme)
    ensures TrapSpec(f, scheme) == Err(StackUnderflow)
        <==> |f.stack| < (if scheme.Call? || scheme.CallCode? then 7 else 6)
  {
  }

  /** A raised trap covers the return range and keeps the contents of memory. */
  lemma TrapCoversOutput(f: Frame, scheme: Scheme)
    requires Sized(f) && TrapSpec(f, scheme).Ok?
    ensures var (trap, g) := TrapSpec(f, scheme).value;
            && Sized(g) && g.data == f.data && g.retbuf == []
            && trap.outOffset + trap.outLen <= g.effectiveLen
            && f.effectiveLen <= g.effectiveLen
            && g.stack == f.stack[..|f.stack| - Arity(scheme)]
            && |g.stack| + 1 <= g.stackLimit
  {
  }

  /** The return range is within the limit, yet past what a vector can hold. */
  predicate TooLong(f: Frame, trap: TrapData, ret: seq<Byte>) {
    var n := TargetLen(trap, ret);
    n > 0 && ISIZE_MAX < trap.outOffset + n <= f.memoryLimit
  }

  /** What the return range holds once the caller resumes. */
  lemma CopyBackBytes(f: Frame, trap: TrapData, ret: seq<Byte>)
    requires |ret| <= ISIZE_MAX
    ensures var n := TargetLen(trap, ret);
            var copied := CopyBack(f, trap, ret);
            && (copied.Panics? <==> TooLong(f, trap, ret))
            && (copied.Wrote? <==> (n == 0 || trap.outOffset + n <= f.memoryLimit) && !TooLong(f, trap, ret))
            && (copied.Wrote? ==>
                  && (n > 0 ==> |copied.data| == Max(|f.data|, trap.outOffset + n))
                  && (n == 0 ==> copied.data == f.data)
                  && forall i: nat ::
                       At(copied.data, i) == if trap.outOffset <= i < trap.outOffset + n
                                             then ret[i - trap.outOffset] else At(f.data, i))
  {
    var n := TargetLen(trap, ret);
    if 0 < n {
      assert CopySource(0, n, ret) == ret[..n];
    }
  }

  /**
   * Trap then feedback, for every scheme, exit reason and return data: the caller's
   * memory changes only inside the return range, and only on success or revert;
   * the flag is 1 exactly on a success whose copy fits; the resume cannot overflow
   * the stack; and memory stays covered. It panics exactly when the copy is too long
   * for a vector.
   */
  lemma CallRoundTrip(f: Frame, scheme: Scheme, reason: Exit, ret: seq<Byte>)
    requires Sized(f) && |ret| <= ISIZE_MAX && TrapSpec(f, scheme).Ok?
    ensures var (trap, g) := TrapSpec(f, scheme).value;
            var (e, h) := FeedbackSpec(g, trap, reason, ret);
            var n := TargetLen(trap, ret);
            var copies := reason.Succeeded? || reason.Reverted?;
            var fits := n == 0 || trap.outOffset + n <= f.memoryLimit;
            && (e == Some(Panicked) <==> copies && TooLong(f, trap, ret))
            && (e != Some(Panicked) ==>
                  && Sized(h)
                  && h.stack == f.stack[..|f.stack| - Arity(scheme)]
                                + [if reason.Succeeded? && fits then 1 else 0]
                  && e == (if reason.Fatal? then Some(CalleeFatal) else None)
                  && h.retbuf == (if reason.Fatal? then [] else ret)
                  && forall i: nat ::
                       At(h.data, i) == if trap.outOffset <= i < trap.outOffset + n && fits && copies
                                        then ret[i - trap.outOffset] else At(f.data, i))
  {
    var (trap, g) := TrapSpec(f, scheme).value;
    TrapCoversOutput(f, scheme);
    CopyBackBytes(g, trap, ret);
    hide TrapSpec, CopyBack;
  }
}
