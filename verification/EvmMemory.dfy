/**
 * The EVM memory: a lazily grown vector that stands for an infinite,
 * zero-initialised byte map, together with the word-granular effective length
 * that gas accounting reads.
 */
module EvmMemory {
  import opened Primitives

  // ---------------------------------------------------------------- windows

  /** The byte at position `i` of the infinite zero extension of `data`. */
  function At(data: seq<Byte>, i: nat): Byte {
    if i < |data| then data[i] else 0
  }

  /** `len` bytes of the zero extension of `data`, from position `start`. */
  function Window(data: seq<Byte>, start: nat, len: nat): (r: seq<Byte>)
    ensures |r| == len && forall k :: 0 <= k < len ==> r[k] == At(data, start + k)
  {
    seq(len, k requires 0 <= k => At(data, start + k))
  }

  // ---------------------------------------------------------- word rounding

  function Low32(x: U256): nat { x % 0x1_0000_0000 }
  function Not32(x: int): int { 0xFFFF_FFFF - x }
  function WrappingAdd32(x: int, y: int): int { (x + y) % 0x1_0000_0000 }

  /** Masking an unsigned integer with 31 keeps its remainder modulo 32. */
  function And31(x: int): int { x % 32 }

  lemma PadIsDistance(x: U256)
    ensures And31(WrappingAdd32(Not32(And31(Low32(x))), 1)) == (32 - x % 32) % 32
  {
    LowRemainder(x);
    NegatedRemainder(x % 32);
  }

  lemma LowRemainder(x: U256)
    ensures x % 0x1_0000_0000 % 32 == x % 32
  {
  }

  lemma NegatedRemainder(y: nat)
    requires y < 32
    ensures (0xFFFF_FFFF - y + 1) % 0x1_0000_0000 % 32 == (32 - y) % 32
  {
  }

  lemma PadReachesMultiple(x: nat, pad: nat)
    requires pad == (32 - x % 32) % 32
    ensures (x + pad) % 32 == 0 && pad < 32
  {
  }

  /** The two's complement trick of the source, on the low 32 bits of `x`. */
  function NextMultipleOf32(x: U256): (r: Option<U256>)
    ensures r.Some? ==> r.value % 32 == 0 && x <= r.value < x + 32
    ensures r.None? <==> x > U256_LIMIT - 32
  {
    var pad := And31(WrappingAdd32(Not32(And31(Low32(x))), 1));
    PadIsDistance(x);
    PadReachesMultiple(x, pad);
    if x + pad < U256_LIMIT then Some(x + pad) else None
  }

  /** The least multiple of 32 that is not below `x`. */
  function Ceil32(x: nat): (r: nat)
    ensures r % 32 == 0 && x <= r < x + 32
  {
    (x + 31) / 32 * 32
  }

  lemma CeilIsLeast(x: nat, m: nat)
    requires x <= m && m % 32 == 0
    ensures Ceil32(x) <= m
  {
  }

  /** The least multiple of 32 not below `x`, and nothing exactly when that overflows. */
  lemma NextMultipleIsCeil(x: U256)
    ensures NextMultipleOf32(x) == if Ceil32(x) < U256_LIMIT then Some(Ceil32(x)) else None
  {
    hide NextMultipleOf32, Ceil32;
    if NextMultipleOf32(x).Some? {
      CeilIsLeast(x, NextMultipleOf32(x).value);
    } else {
      assert Ceil32(x) >= x > U256_LIMIT - 32;
    }
  }

  // ------------------------------------------------------ writing, on values

  /** The last one is no error value: asking a vector for more than isize::MAX bytes panics. */
  datatype Failure = NotSupported | InvalidRange | CapacityOverflow

  /** The size `set` works on: the given one, else the length of the value. */
  function TargetSize(value: seq<Byte>, target: Option<Usize>): nat {
    if target.Some? then target.value else |value|
  }

  /** Contents after writing the window 0..size of `value` at `offset`. */
  function Written(data: seq<Byte>, offset: nat, value: seq<Byte>, size: nat): (r: seq<Byte>)
    ensures forall i: nat ::
              At(r, i) == if offset <= i < offset + size then At(value, i - offset) else At(data, i)
  {
    if size == 0 then data else
    seq(Max(|data|, offset + size), i requires 0 <= i =>
      if offset <= i < offset + size then At(value, i - offset) else At(data, i))
  }

  /** Growing with zeros first makes no difference. */
  lemma GrownIsSame(data: seq<Byte>, offset: nat, value: seq<Byte>, size: nat)
    requires 0 < size && |data| < offset + size
    ensures Written(data + seq(offset + size - |data|, _ => 0 as Byte), offset, value, size)
         == Written(data, offset, value, size)
  {
  }

  datatype Outcome = Wrote(data: seq<Byte>) | Refused | Panics

  /** `set`: refused past the limit; a panic when the vector cannot grow that far. */
  function SetSpec(data: seq<Byte>, limit: Usize, offset: Usize, value: seq<Byte>, target: Option<Usize>): Outcome {
    var size := TargetSize(value, target);
    if size == 0 then Wrote(data)
    else if offset + size > limit then Refused
    else if offset + size > ISIZE_MAX then Panics
    else Wrote(Written(data, offset, value, size))
  }

  /** The part of the source that `copy_large` hands to `set`. */
  function CopySource(dataOffset: U256, len: U256, source: seq<Byte>): seq<Byte> {
    if dataOffset + len > USIZE_MAX || dataOffset > |source| then []
    else source[dataOffset..Min(dataOffset + len, |source|)]
  }

  function CopySpec(data: seq<Byte>, limit: Usize, memoryOffset: U256, dataOffset: U256,
                    len: U256, source: seq<Byte>): Outcome
  {
    if len == 0 then Wrote(data)
    else if memoryOffset > USIZE_MAX || len > USIZE_MAX then Refused
    else SetSpec(data, limit, memoryOffset, CopySource(dataOffset, len, source), Some(len))
  }

  /**
   * The slice `copy_large` takes is the requested window of the zero-extended
   * source exactly when the window ends within usize, or nothing but zeros
   * follows its start.
   */
  lemma CopySourceIsWindow(dataOffset: U256, len: U256, source: seq<Byte>)
    requires |source| <= ISIZE_MAX
    ensures Window(CopySource(dataOffset, len, source), 0, len) == Window(source, dataOffset, len)
        <==> dataOffset + len <= USIZE_MAX
             || forall i :: dataOffset <= i < |source| ==> source[i] == 0
  {
    var taken, wanted := Window(CopySource(dataOffset, len, source), 0, len), Window(source, dataOffset, len);
    if dataOffset + len <= USIZE_MAX {
      assert taken == wanted;
    } else if i :| dataOffset <= i < |source| && source[i] != 0 {
      assert taken[i - dataOffset] == 0 != wanted[i - dataOffset];
    } else {
      assert taken == wanted;
    }
  }

  /** A copy that returns has taken the requested window: any other one is too long for a vector. */
  lemma ReturningCopyIsWindow(data: seq<Byte>, limit: Usize, memoryOffset: U256, dataOffset: U256, len: U256,
                              source: seq<Byte>)
    requires |source| <= ISIZE_MAX && CopySpec(data, limit, memoryOffset, dataOffset, len, source).Wrote?
    ensures Window(CopySource(dataOffset, len, source), 0, len) == Window(source, dataOffset, len)
  {
    CopySourceIsWindow(dataOffset, len, source);
  }

  // ------------------------------------------------------------- the object

  class Memory {
    var data: seq<Byte>
    var effectiveLen: U256
    const limit: Usize

    /** A vector holds at most isize::MAX bytes. */
    ghost predicate Valid() reads this { |data| <= ISIZE_MAX }

    constructor (limit: Usize)
      ensures Valid() && data == [] && effectiveLen == 0 && this.limit == limit
    {
      data, effectiveLen := [], 0;
      this.limit := limit;
    }

    method ResizeOffset(offset: U256, len: U256) returns (r: Result<(), Failure>)
      modifies this`effectiveLen
      ensures r.Ok? <==> ResizeSpec(old(effectiveLen), OffsetLen(offset, len)).Some?
      ensures r.Err? ==> r.error == InvalidRange && effectiveLen == old(effectiveLen)
      ensures r.Ok? ==> ResizeSpec(old(effectiveLen), OffsetLen(offset, len)) == Some(effectiveLen)
    {
      if len == 0 { return Ok(()); }
      if offset + len < U256_LIMIT {
        r := ResizeEnd(offset + len);
      } else {
        r := Err(InvalidRange);
      }
    }

    method ResizeEnd(end: U256) returns (r: Result<(), Failure>)
      modifies this`effectiveLen
      ensures r.Ok? <==> ResizeSpec(old(effectiveLen), End(end)).Some?
      ensures r.Err? ==> r.error == InvalidRange && effectiveLen == old(effectiveLen)
      ensures r.Ok? ==> ResizeSpec(old(effectiveLen), End(end)) == Some(effectiveLen)
    {
      if end > effectiveLen {
        var newEnd := NextMultipleOf32(end);
        if newEnd.None? { return Err(InvalidRange); }
        effectiveLen := newEnd.value;
      }
      r := Ok(());
    }

    /** The three size cases of the source all leave the same window behind, or all panic. */
    method ResizeToRange(start: U256, end: U256) returns (ok: bool)
      requires Valid() && start <= end
      modifies this
      ensures Valid() && (ok <==> end - start <= ISIZE_MAX)
      ensures ok ==> data == Window(old(data), start, end - start) && effectiveLen == end - start
      ensures !ok ==> data == old(data) && effectiveLen == old(effectiveLen)
    {
      if end - start > USIZE_MAX { return false; }
      var ret: seq<Byte>;
      if start > USIZE_MAX {
        if end - start > ISIZE_MAX { return false; }
        ret := seq(end - start, _ => 0 as Byte);
      } else if end > USIZE_MAX {
        var got := Get(start, USIZE_MAX - start);
        if got.None? { return false; }
        ret := got.value;
        while |ret| < end - start
          invariant |ret| <= end - start && |ret| <= ISIZE_MAX
          invariant ret == Window(data, start, |ret|)
        {
          if |ret| == ISIZE_MAX { return false; }
          ret := ret + [0];
        }
      } else {
        var got := Get(start, end - start);
        if got.None? { return false; }
        ret := got.value;
      }
      data := ret;
      effectiveLen := end - start;
      ok := true;
    }

    /** None is the panic of a buffer that is too long. */
    method Get(offset: Usize, size: Usize) returns (r: Option<seq<Byte>>)
      requires Valid()
      ensures r == if size <= ISIZE_MAX then Some(Window(data, offset, size)) else None
    {
      if size > ISIZE_MAX { return None; }
      var ret := seq(size, _ => 0 as Byte);
      for index := 0 to size
        invariant |ret| == size
        invariant forall k :: 0 <= k < index ==> ret[k] == At(data, offset + k)
        invariant forall k :: index <= k < size ==> ret[k] == 0
      {
        if offset + index > USIZE_MAX || offset + index >= |data| { break; }
        ret := ret[index := data[offset + index]];
      }
      assert ret == Window(data, offset, size);
      r := Some(ret);
    }

    method ZeroRange(start: nat, end: nat)
      requires start <= end <= |data|
      modifies this`data
      ensures |data| == old(|data|)
      ensures forall i :: 0 <= i < |data| ==> data[i] == if start <= i < end then 0 else old(data)[i]
    {
      for index := start to end
        invariant |data| == old(|data|)
        invariant forall i :: 0 <= i < |data| ==> data[i] == if start <= i < index then 0 else old(data)[i]
      {
        data := data[index := 0];
      }
    }

    method Set(offset: Usize, value: seq<Byte>, target: Option<Usize>) returns (r: Result<(), Failure>)
      requires Valid() && |value| <= ISIZE_MAX
      modifies this`data
      ensures Valid()
      ensures match SetSpec(old(data), limit, offset, value, target)
              case Wrote(d) => r == Ok(()) && data == d
              case Refused => r == Err(NotSupported) && data == old(data)
              case Panics => r == Err(CapacityOverflow) && data == old(data)
    {
      var size: Usize := if target.Some? then target.value else |value|;
      if size == 0 { return Ok(()); }
      if offset + size > USIZE_MAX || offset + size > limit { return Err(NotSupported); }
      if |data| < offset + size {
        if offset + size > ISIZE_MAX { return Err(CapacityOverflow); }
        GrownIsSame(data, offset, value, size);
        data := data + seq(offset + size - |data|, _ => 0 as Byte);
      }
      Overwrite(offset, value, size);
      r := Ok(());
    }

    method Overwrite(offset: nat, value: seq<Byte>, size: nat)
      requires 0 < size && offset + size <= |data|
      modifies this`data
      ensures data == Written(old(data), offset, value, size)
    {
      if size > |value| {
        data := data[..offset] + value + data[offset + |value|..];
        ZeroRange(offset + |value|, offset + size);
      } else {
        data := data[..offset] + value[..size] + data[offset + size..];
      }
      assert forall i :: 0 <= i < |data| ==>
               data[i] == if offset <= i < offset + size then At(value, i - offset) else At(old(data), i);
    }

    method CopyLarge(memoryOffset: U256, dataOffset: U256, len: U256, source: seq<Byte>)
      returns (r: Result<(), Failure>)
      requires Valid() && |source| <= ISIZE_MAX
      modifies this`data
      ensures Valid()
      ensures match CopySpec(old(data), limit, memoryOffset, dataOffset, len, source)
              case Wrote(d) => r == Ok(()) && data == d
              case Refused => r == Err(NotSupported) && data == old(data)
              case Panics => r == Err(CapacityOverflow) && data == old(data)
    {
      if len == 0 { return Ok(()); }
      if memoryOffset > USIZE_MAX { return Err(NotSupported); }
      if len > USIZE_MAX { return Err(NotSupported); }
      var taken: seq<Byte> := [];
      if dataOffset + len < U256_LIMIT {
        var end := dataOffset + len;
        if end <= USIZE_MAX {
          if dataOffset <= |source| {
            taken := source[dataOffset..Min(end, |source|)];
          }
        }
      }
      r := Set(memoryOffset, taken, Some(len));
    }
  }

  // ------------------------------------------------------- effective length

  datatype Request = OffsetLen(offset: U256, len: U256) | End(end: U256)

  function ResizeSpec(effectiveLen: U256, q: Request): Option<U256> {
    if q.OffsetLen? && q.len == 0 then Some(effectiveLen)
    else if q.OffsetLen? && q.offset + q.len >= U256_LIMIT then None
    else
      var end := if q.OffsetLen? then q.offset + q.len else q.end;
      if end <= effectiveLen then Some(effectiveLen) else NextMultipleOf32(end)
  }

  /** Successive requests; a refused one changes nothing. */
  function ResizeRun(effectiveLen: U256, qs: seq<Request>): U256
    decreases |qs|
  {
    if qs == [] then effectiveLen else
    var next := ResizeSpec(effectiveLen, qs[0]);
    ResizeRun(if next.Some? then next.value else effectiveLen, qs[1..])
  }

  /** What one request asks for: its end rounded up, 0 when empty or refused. */
  function Demand(q: Request): nat {
    if q.OffsetLen? && q.len == 0 then 0 else
    var end := if q.OffsetLen? then q.offset + q.len else q.end;
    if Ceil32(end) < U256_LIMIT then Ceil32(end) else 0
  }

  ghost function LargestDemand(qs: seq<Request>): nat {
    if qs == [] then 0 else Max(Demand(qs[0]), LargestDemand(qs[1..]))
  }

  lemma ResizeOnce(effectiveLen: U256, q: Request)
    requires effectiveLen % 32 == 0
    ensures var next := ResizeSpec(effectiveLen, q);
            var r := if next.Some? then next.value else effectiveLen;
            r == Max(effectiveLen, Demand(q)) && r % 32 == 0
  {
    hide NextMultipleOf32, Ceil32;
    if q.End? || (q.len != 0 && q.offset + q.len < U256_LIMIT) {
      var end := if q.OffsetLen? then q.offset + q.len else q.end;
      NextMultipleIsCeil(end);
      if end <= effectiveLen {
        CeilIsLeast(end, effectiveLen);
      }
    }
  }

  lemma {:induction false} ResizeRunIsLargest(effectiveLen: U256, qs: seq<Request>)
    requires effectiveLen % 32 == 0
    ensures ResizeRun(effectiveLen, qs) == Max(effectiveLen, LargestDemand(qs))
    decreases |qs|
  {
    hide ResizeSpec, Demand;
    if qs != [] {
      var next := ResizeSpec(effectiveLen, qs[0]);
      ResizeOnce(effectiveLen, qs[0]);
      ResizeRunIsLargest(if next.Some? then next.value else effectiveLen, qs[1..]);
    }
  }

  lemma {:induction false} LargestDemandBounds(qs: seq<Request>)
    ensures forall q :: q in qs ==> Demand(q) <= LargestDemand(qs)
    ensures LargestDemand(qs) == 0 || exists q :: q in qs && Demand(q) == LargestDemand(qs)
  {
    if qs != [] {
      LargestDemandBounds(qs[1..]);
      assert qs[0] in qs && forall q :: q in qs[1..] ==> q in qs;
    }
  }

  /** On fresh memory the effective length does not depend on request order or repetition. */
  lemma ResizeOrderIrrelevant(qs: seq<Request>, rs: seq<Request>)
    requires forall q :: q in qs <==> q in rs
    ensures ResizeRun(0, qs) == ResizeRun(0, rs)
  {
    ResizeRunIsLargest(0, qs);
    ResizeRunIsLargest(0, rs);
    LargestDemandBounds(qs);
    LargestDemandBounds(rs);
  }

  // ------------------------------------------- refinement of an infinite map

  datatype Op =
    | SetOp(offset: Usize, value: seq<Byte>, target: Option<Usize>)
    | CopyOp(memoryOffset: U256, dataOffset: U256, len: U256, source: seq<Byte>)

  function Step(data: seq<Byte>, limit: Usize, op: Op): Outcome {
    match op
    case SetOp(o, v, t) => SetSpec(data, limit, o, v, t)
    case CopyOp(m, d, l, s) => CopySpec(data, limit, m, d, l, s)
  }

  /** Successive operations: a refused one changes nothing, a panic ends the run. */
  function Run(data: seq<Byte>, limit: Usize, ops: seq<Op>): Option<seq<Byte>>
    decreases |ops|
  {
    if ops == [] then Some(data) else
    match Step(data, limit, ops[0])
    case Wrote(d) => Run(d, limit, ops[1..])
    case Refused => Run(data, limit, ops[1..])
    case Panics => None
  }

  /** The same operation on an unbounded byte map: the source window, zero-extended, is laid over it. */
  ghost function MapStep(m: nat -> Byte, limit: Usize, op: Op): nat -> Byte {
    match op
    case SetOp(o, v, t) =>
      var size := TargetSize(v, t);
      if o + size > limit then m
      else (i: nat) => if o <= i < o + size then At(v, i - o) else m(i)
    case CopyOp(o, d, l, s) =>
      if o + l > limit then m
      else (i: nat) => if o <= i < o + l then At(s, d + (i - o)) else m(i)
  }

  ghost function MapRun(m: nat -> Byte, limit: Usize, ops: seq<Op>): nat -> Byte
    decreases |ops|
  {
    if ops == [] then m else MapRun(MapStep(m, limit, ops[0]), limit, ops[1..])
  }

  /** `data` and `m` are the same infinite memory. */
  ghost predicate Represents(data: seq<Byte>, m: nat -> Byte) {
    forall i: nat :: At(data, i) == m(i)
  }

  function Touched(op: Op): (nat, nat) {
    match op
    case SetOp(o, v, t) => (o, TargetSize(v, t))
    case CopyOp(o, _, l, _) => (o, l)
  }

  /** What an operation is handed is a slice, which holds at most isize::MAX bytes. */
  ghost predicate Sliced(op: Op) {
    match op
    case SetOp(_, v, _) => |v| <= ISIZE_MAX
    case CopyOp(_, _, _, s) => |s| <= ISIZE_MAX
  }

  /** An operation panics exactly when it stays within the limit and still ends past isize::MAX. */
  lemma PanicsIff(data: seq<Byte>, limit: Usize, op: Op)
    requires Sliced(op)
    ensures var (o, size) := Touched(op);
            Step(data, limit, op).Panics? <==> size > 0 && ISIZE_MAX < o + size <= limit
  {
  }

  lemma CopyStepRefines(data: seq<Byte>, m: nat -> Byte, limit: Usize, op: Op)
    requires op.CopyOp? && Sliced(op) && |data| <= limit && Represents(data, m) && Step(data, limit, op).Wrote?
    ensures Represents(Step(data, limit, op).data, MapStep(m, limit, op)) && |Step(data, limit, op).data| <= limit
  {
    var o, len := op.memoryOffset, op.len;
    if len > 0 {
      ReturningCopyIsWindow(data, limit, o, op.dataOffset, len, op.source);
      var taken := CopySource(op.dataOffset, len, op.source);
      hide CopySource, Window;
      forall k | 0 <= k < len ensures At(taken, k) == At(op.source, op.dataOffset + k) {
        assert Window(taken, 0, len)[k] == Window(op.source, op.dataOffset, len)[k];
      }
    }
  }

  /** Every operation that returns is the operation on the infinite map, and stays within the limit. */
  lemma StepRefines(data: seq<Byte>, m: nat -> Byte, limit: Usize, op: Op)
    requires Sliced(op) && |data| <= limit && Represents(data, m) && !Step(data, limit, op).Panics?
    ensures var r := Step(data, limit, op);
            var d := if r.Wrote? then r.data else data;
            Represents(d, MapStep(m, limit, op)) && |d| <= limit
  {
    if op.CopyOp? && Step(data, limit, op).Wrote? {
      CopyStepRefines(data, m, limit, op);
    } else {
      hide CopySource;
    }
  }

  /** Main refinement: after any operations that return, every read is a read of the infinite map. */
  lemma {:induction false} RunRefines(data: seq<Byte>, m: nat -> Byte, limit: Usize, ops: seq<Op>)
    requires |data| <= limit && Represents(data, m) && forall op :: op in ops ==> Sliced(op)
    ensures var r := Run(data, limit, ops);
            r.Some? ==>
              && |r.value| <= limit && Represents(r.value, MapRun(m, limit, ops))
              && forall start: nat, len: nat ::
                   Window(r.value, start, len) == seq(len, k requires 0 <= k => MapRun(m, limit, ops)(start + k))
    decreases |ops|
  {
    if ops != [] && !Step(data, limit, ops[0]).Panics? {
      StepRefines(data, m, limit, ops[0]);
      var r := Step(data, limit, ops[0]);
      hide Step, MapStep;
      RunRefines(if r.Wrote? then r.data else data, MapStep(m, limit, ops[0]), limit, ops[1..]);
    }
  }
}
