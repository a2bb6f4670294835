/**
 * Jump destination analysis, against the recursive definition of valid jump
 * destinations in section 9.4.3 of the Ethereum Yellow Paper.
 */
module JumpTable {
  import opened Primitives

  const JUMPDEST: Byte := 0x5b
  const PUSH1: Byte := 0x60
  const PUSH32: Byte := 0x7f

  /** The number of immediate bytes of a push instruction. */
  function IsPush(opcode: Byte): Option<nat> {
    if PUSH1 <= opcode <= PUSH32 then Some(opcode as int - 0x60 + 1) else None
  }

  /** N(i, w): the position of the instruction that follows instruction `w` at `i`. */
  function NextInstruction(i: nat, w: Byte): nat {
    if PUSH1 <= w <= PUSH32 then i + w as int - PUSH1 as int + 2 else i + 1
  }

  /** D_J(c, i): the valid destinations of `c` found from instruction position `i` on. */
  function Destinations(c: seq<Byte>, i: nat): set<nat>
    decreases if i < |c| then |c| - i else 0
  {
    if i >= |c| then {}
    else if c[i] == JUMPDEST then {i} + Destinations(c, NextInstruction(i, c[i]))
    else Destinations(c, NextInstruction(i, c[i]))
  }

  /** Where the scan from `i` leaves `c`: at its end, or past it inside push data. */
  function ScanEnd(c: seq<Byte>, i: nat): (end: nat)
    ensures |c| <= end && i <= end
    decreases if i < |c| then |c| - i else 0
  {
    if i >= |c| then i else ScanEnd(c, NextInstruction(i, c[i]))
  }

  lemma {:induction false} DestinationsRange(c: seq<Byte>, i: nat)
    ensures forall d :: d in Destinations(c, i) ==> i <= d < |c| && c[d] == JUMPDEST
    decreases if i < |c| then |c| - i else 0
  {
    if i < |c| {
      DestinationsRange(c, NextInstruction(i, c[i]));
    }
  }

  method New(code: seq<Byte>) returns (valids: seq<bool>)
    ensures |valids| == |code|
    ensures forall k :: 0 <= k < |code| ==> (valids[k] <==> k in Destinations(code, 0))
  {
    valids := seq(|code|, _ => false);
    var i := 0;
    while i < |code|
      invariant 0 <= i && |valids| == |code|
      invariant forall k :: i <= k < |code| ==> !valids[k]
      invariant forall k :: 0 <= k < |code| ==>
                  (k in Destinations(code, 0) <==> valids[k] || k in Destinations(code, i))
      decreases |code| - i
    {
      DestinationsRange(code, NextInstruction(i, code[i]));
      var width := IsPush(code[i]);
      if code[i] == JUMPDEST {
        valids := valids[i := true];
        i := i + 1;
      } else if width.Some? {
        i := i + width.value + 1;
      } else {
        i := i + 1;
      }
    }
  }

  method IsValid(valids: seq<bool>, ghost code: seq<Byte>, position: Usize) returns (ok: bool)
    requires |valids| == |code|
    requires forall k :: 0 <= k < |code| ==> (valids[k] <==> k in Destinations(code, 0))
    ensures ok <==> position in Destinations(code, 0)
  {
    DestinationsRange(code, 0);
    if position >= |valids| { return false; }
    if !valids[position] { return false; }
    ok := true;
  }

  ghost function Shift(s: set<nat>, n: nat): set<nat> {
    set d | d in s :: d + n
  }

  /** Analysing `b` at offset `|a|` behind `a` is analysing `b` on its own, moved along. */
  lemma {:induction false} DestinationsShift(a: seq<Byte>, b: seq<Byte>, i: nat)
    ensures Destinations(a + b, |a| + i) == Shift(Destinations(b, i), |a|)
    decreases if i < |b| then |b| - i else 0
  {
    if i < |b| {
      assert (a + b)[|a| + i] == b[i];
      DestinationsShift(a, b, NextInstruction(i, b[i]));
      var rest := Destinations(b, NextInstruction(i, b[i]));
      assert Shift({i} + rest, |a|) == {i + |a|} + Shift(rest, |a|);
    }
  }

  /**
   * Concatenation, for all code: the first part keeps its destinations, and the
   * second is scanned from wherever the first part's last instruction ends.
   */
  lemma {:induction false} DestinationsConcat(a: seq<Byte>, b: seq<Byte>, i: nat)
    requires i <= |a|
    ensures Destinations(a + b, i)
         == Destinations(a, i) + Shift(Destinations(b, ScanEnd(a, i) - |a|), |a|)
    decreases |a| - i
  {
    if i == |a| {
      DestinationsShift(a, b, 0);
    } else {
      assert (a + b)[i] == a[i];
      var j := NextInstruction(i, a[i]);
      if j <= |a| {
        DestinationsConcat(a, b, j);
      } else {
        DestinationsShift(a, b, j - |a|);
      }
    }
  }

  /** Appended bytes never change which positions of a prefix are destinations. */
  lemma PrefixIndependent(a: seq<Byte>, b: seq<Byte>, k: nat)
    requires k < |a|
    ensures k in Destinations(a + b, 0) <==> k in Destinations(a, 0)
  {
    DestinationsConcat(a, b, 0);
  }

  /** The destinations of `b` survive behind `a` if the scan of `a` ends on its last byte. */
  lemma AlignedConcat(a: seq<Byte>, b: seq<Byte>)
    requires ScanEnd(a, 0) == |a|
    ensures Destinations(a + b, 0) == Destinations(a, 0) + Shift(Destinations(b, 0), |a|)
  {
    DestinationsConcat(a, b, 0);
  }

  /** Otherwise some continuation loses a destination: its first byte is push data of `a`. */
  lemma UnalignedConcatLoses(a: seq<Byte>)
    ensures ScanEnd(a, 0) == |a|
        <==> forall b: seq<Byte> ::
               Destinations(a + b, 0) == Destinations(a, 0) + Shift(Destinations(b, 0), |a|)
  {
    if ScanEnd(a, 0) == |a| {
      forall b: seq<Byte>
        ensures Destinations(a + b, 0) == Destinations(a, 0) + Shift(Destinations(b, 0), |a|)
      {
        AlignedConcat(a, b);
      }
    } else {
      var b := [JUMPDEST];
      DestinationsConcat(a, b, 0);
      DestinationsRange(a, 0);
      assert Destinations(b, 0) == {0} + Destinations(b, 1);
      assert 0 + |a| in Shift(Destinations(b, 0), |a|);
      assert Destinations(b, ScanEnd(a, 0) - |a|) == {};
      assert |a| !in Destinations(a + b, 0);
    }
  }

  // ------------------------------------------------------- without the recursion

  /** The bytes that follow an opcode as its data: 1 for 0x60 up to 32 for 0x7f. */
  function DataWidth(opcode: Byte): nat {
    if 0x60 <= opcode <= 0x7f then opcode as int - 0x5f else 0
  }

  /** Instruction positions from `i` on, each right behind the data of the one before. */
  ghost predicate Path(c: seq<Byte>, i: nat, ps: seq<nat>) {
    && ps != [] && ps[0] == i
    && forall k :: 0 <= k < |ps| - 1 ==> ps[k] < |c| && ps[k + 1] == ps[k] + 1 + DataWidth(c[ps[k]])
  }

  ghost predicate Reaches(c: seq<Byte>, i: nat, d: nat) {
    exists ps :: Path(c, i, ps) && ps[|ps| - 1] == d
  }

  lemma PathCons(c: seq<Byte>, i: nat, ps: seq<nat>)
    requires i < |c| && Path(c, i + 1 + DataWidth(c[i]), ps)
    ensures Path(c, i, [i] + ps) && ([i] + ps)[|[i] + ps| - 1] == ps[|ps| - 1]
  {
    var qs := [i] + ps;
    forall k | 0 <= k < |qs| - 1 ensures qs[k] < |c| && qs[k + 1] == qs[k] + 1 + DataWidth(c[qs[k]]) {
      assert k > 0 ==> qs[k] == ps[k - 1] && qs[k + 1] == ps[k];
    }
  }

  lemma PathTail(c: seq<Byte>, i: nat, ps: seq<nat>)
    requires Path(c, i, ps) && |ps| > 1
    ensures i < |c| && Path(c, i + 1 + DataWidth(c[i]), ps[1..]) && ps[1..][|ps| - 2] == ps[|ps| - 1]
  {
    forall k | 0 <= k < |ps[1..]| - 1
      ensures ps[1..][k] < |c| && ps[1..][k + 1] == ps[1..][k] + 1 + DataWidth(c[ps[1..][k]])
    {
      assert ps[1..][k] == ps[k + 1] && ps[1..][k + 1] == ps[k + 2];
    }
  }

  lemma ReachesIff(c: seq<Byte>, i: nat, d: nat)
    ensures Reaches(c, i, d) <==> d == i || (i < |c| && Reaches(c, i + 1 + DataWidth(c[i]), d))
  {
    if d == i {
      OnePath(c, i);
    } else if i < |c| && Reaches(c, i + 1 + DataWidth(c[i]), d) {
      var ps :| Path(c, i + 1 + DataWidth(c[i]), ps) && ps[|ps| - 1] == d;
      PathCons(c, i, ps);
    } else if Reaches(c, i, d) {
      var ps :| Path(c, i, ps) && ps[|ps| - 1] == d;
      PathStart(c, i, ps);
      PathTail(c, i, ps);
    }
  }

  lemma OnePath(c: seq<Byte>, i: nat)
    ensures Path(c, i, [i])
  {
  }

  lemma PathStart(c: seq<Byte>, i: nat, ps: seq<nat>)
    requires Path(c, i, ps)
    ensures ps != [] && (ps[|ps| - 1] != i ==> |ps| > 1)
  {
  }

  /**
   * A position is a valid destination exactly when it holds 0x5b and a walk over the
   * instructions from the start, skipping the data of 0x60 to 0x7f, comes to it.
   */
  lemma {:induction false} DestinationIff(c: seq<Byte>, i: nat, d: nat)
    ensures d in Destinations(c, i) <==> d < |c| && c[d] == 0x5b && Reaches(c, i, d)
    decreases if i < |c| then |c| - i else 0
  {
    hide Reaches;
    ReachesIff(c, i, d);
    if i < |c| {
      DestinationIff(c, NextInstruction(i, c[i]), d);
      DestinationsRange(c, NextInstruction(i, c[i]));
    }
  }

  /** A push of one byte: the 0x5b that it pushes is no destination, the next one is. */
  lemma PushedByteIsNoDestination()
    ensures Destinations([0x60, 0x5b, 0x5b], 0) == {2}
  {
    var c: seq<Byte> := [0x60, 0x5b, 0x5b];
    assert Destinations(c, 3) == {};
    assert Destinations(c, 2) == {2} + Destinations(c, 3);
    assert Destinations(c, 0) == Destinations(c, 2);
  }
}
