/**
 The MIPS routines `ones` (`asm/mips/test2.s`) and `fib` (`asm/mips/test3.s`) on an
 instruction-level machine: 32-bit registers with $0 fixed to zero, `add`/`addi` that trap on
 signed overflow, word loads and stores that fault on unaligned or unmapped addresses.
 The assembler fills the branch delay slots itself, so branches take effect at once here.
 */
module Mips {
  import opened MachineWords

  type Regs = r: seq<u32> | |r| == 32 witness seq(32, _ => 0)

  const ZERO: nat := 0
  const V0: nat := 2
  const A0: nat := 4
  const T0: nat := 8
  const T1: nat := 9
  const S0: nat := 16
  const S1: nat := 17
  const S2: nat := 18
  const SP: nat := 29

  /** Branch and jump targets are instruction numbers. `Jr` leaves the routine. */
  datatype Instr =
    | Li(rt: nat, value: u32)
    | Move(rd: nat, rs: nat)
    | Addi(rt: nat, rs: nat, imm: int)
    | Add(rd: nat, rs: nat, rt: nat)
    | Addu(rd: nat, rs: nat, rt: nat)
    | Andi(rt: nat, rs: nat, mask: u32)
    | Srl(rd: nat, rt: nat, shift: nat)
    | Slt(rd: nat, rs: nat, rt: nat)
    | Lw(rt: nat, offset: int, base: nat)
    | Sw(rt: nat, offset: int, base: nat)
    | Beq(rs: nat, rt: nat, target: nat)
    | J(target: nat)
    | Jr
  {
    predicate Valid() {
      match this
      case Li(a, _) => a < 32
      case Move(a, b) => a < 32 && b < 32
      case Addi(a, b, _) => a < 32 && b < 32
      case Add(a, b, c) => a < 32 && b < 32 && c < 32
      case Addu(a, b, c) => a < 32 && b < 32 && c < 32
      case Andi(a, b, _) => a < 32 && b < 32
      case Srl(a, b, _) => a < 32 && b < 32
      case Slt(a, b, c) => a < 32 && b < 32 && c < 32
      case Lw(a, _, b) => a < 32 && b < 32
      case Sw(a, _, b) => a < 32 && b < 32
      case Beq(a, b, _) => a < 32 && b < 32
      case _ => true
    }
  }

  datatype Status = Running | Returned | Trapped | Faulted
  datatype State = State(regs: Regs, mem: map<u32, u32>, pc: nat, status: Status)

  function Put(r: Regs, rd: nat, v: int): Regs
    requires rd < 32
  {
    if rd == 0 then r else r[rd := Wrap(v)]
  }

  function Get(r: Regs, rs: nat): u32
    requires rs < 32
  {
    if rs == 0 then 0 else r[rs]
  }

  /** Address arithmetic wraps around. */
  function Offset(base: u32, k: int): u32 {
    Wrap(base + k)
  }

  predicate Overflows(v: int) {
    !(-TWO_31 <= v < TWO_31)
  }

  /** Bitwise conjunction. */
  function And(x: nat, y: nat): nat {
    if x == 0 || y == 0 then 0 else (x % 2) * (y % 2) + 2 * And(x / 2, y / 2)
  }

  function Pow2(k: nat): nat
    ensures Pow2(k) > 0
  {
    if k == 0 then 1 else 2 * Pow2(k - 1)
  }

  function Step(p: seq<Instr>, s: State): State {
    if !s.status.Running? then s
    else if !(s.pc < |p|) || !p[s.pc].Valid() then s.(status := Faulted)
    else
      var r, next := s.regs, s.(pc := s.pc + 1);
      match p[s.pc]
      case Li(rt, value) => next.(regs := Put(r, rt, value))
      case Move(rd, rs) => next.(regs := Put(r, rd, Get(r, rs)))
      case Addi(rt, rs, imm) =>
        var v := ToSigned(Get(r, rs)) + imm;
        if Overflows(v) then s.(status := Trapped) else next.(regs := Put(r, rt, v))
      case Add(rd, rs, rt) =>
        var v := ToSigned(Get(r, rs)) + ToSigned(Get(r, rt));
        if Overflows(v) then s.(status := Trapped) else next.(regs := Put(r, rd, v))
      case Addu(rd, rs, rt) => next.(regs := Put(r, rd, Get(r, rs) + Get(r, rt)))
      case Andi(rt, rs, mask) => next.(regs := Put(r, rt, And(Get(r, rs), mask)))
      case Srl(rd, rt, shift) => next.(regs := Put(r, rd, Get(r, rt) / Pow2(shift)))
      case Slt(rd, rs, rt) => next.(regs := Put(r, rd, if ToSigned(Get(r, rs)) < ToSigned(Get(r, rt)) then 1 else 0))
      case Lw(rt, offset, base) =>
        var address := Offset(Get(r, base), offset);
        if address % 4 == 0 && address in s.mem then next.(regs := Put(r, rt, s.mem[address]))
        else s.(status := Faulted)
      case Sw(rt, offset, base) =>
        var address := Offset(Get(r, base), offset);
        if address % 4 == 0 && address in s.mem then next.(mem := s.mem[address := Get(r, rt)])
        else s.(status := Faulted)
      case Beq(rs, rt, target) => if Get(r, rs) == Get(r, rt) then s.(pc := target) else next
      case J(target) => s.(pc := target)
      case Jr => s.(status := Returned)
  }

  function Run(p: seq<Instr>, s: State, n: nat): State
    decreases n
  {
    if n == 0 then s else Run(p, Step(p, s), n - 1)
  }

  lemma {:induction false} RunAppend(p: seq<Instr>, s: State, m: nat, n: nat)
    ensures Run(p, s, m + n) == Run(p, Run(p, s, m), n)
    decreases m
  {
    if m > 0 {
      RunAppend(p, Step(p, s), m - 1, n);
    }
  }

  lemma {:induction false} StopsForGood(p: seq<Instr>, s: State, n: nat)
    requires !s.status.Running?
    ensures Run(p, s, n) == s
    decreases n
  {
    if n > 0 {
      StopsForGood(p, s, n - 1);
    }
  }

  /** `t` follows `s` after `n` instructions, along some sequence of states. */
  ghost predicate Reaches(p: seq<Instr>, s: State, n: nat, t: State) {
    exists path: seq<State> :: Path(p, path, n) && path[0] == s && path[n] == t
  }

  predicate Path(p: seq<Instr>, path: seq<State>, n: nat) {
    |path| == n + 1 && forall k :: 0 <= k < n ==> path[k + 1] == Step(p, path[k])
  }

  lemma {:induction false} PathIsRun(p: seq<Instr>, path: seq<State>, n: nat)
    requires Path(p, path, n)
    ensures Run(p, path[0], n) == path[n]
    decreases n
  {
    if n > 0 {
      PathIsRun(p, path[1..], n - 1);
    }
  }

  lemma {:induction false} RunReaches(p: seq<Instr>, s: State, n: nat)
    ensures Reaches(p, s, n, Run(p, s, n))
    decreases n
  {
    if n == 0 {
      assert Path(p, [s], 0);
    } else {
      RunReaches(p, Step(p, s), n - 1);
      var path :| Path(p, path, n - 1) && path[0] == Step(p, s) && path[n - 1] == Run(p, s, n);
      assert Path(p, [s] + path, n);
    }
  }

  lemma ReachesIsRun(p: seq<Instr>, s: State, n: nat, t: State)
    requires Reaches(p, s, n, t)
    ensures Run(p, s, n) == t
  {
    var path :| Path(p, path, n) && path[0] == s && path[n] == t;
    PathIsRun(p, path, n);
  }

  lemma Compose(p: seq<Instr>, s: State, m: nat, t: State, n: nat, u: State)
    requires Reaches(p, s, m, t) && Reaches(p, t, n, u)
    ensures Reaches(p, s, m + n, u)
  {
    ReachesIsRun(p, s, m, t);
    ReachesIsRun(p, t, n, u);
    RunAppend(p, s, m, n);
    RunReaches(p, s, m + n);
  }

  lemma OneStep(p: seq<Instr>, s: State)
    ensures Reaches(p, s, 1, Step(p, s))
  {
    assert Path(p, [s, Step(p, s)], 1);
  }

  lemma TwoSteps(p: seq<Instr>, s: State)
    ensures Reaches(p, s, 2, Step(p, Step(p, s)))
  {
    var s1 := Step(p, s);
    assert Path(p, [s, s1, Step(p, s1)], 2);
  }

  function Call(r: Regs, mem: map<u32, u32>): State {
    State(r, mem, 0, Running)
  }

  // ----- ones -----

  const ONES: seq<Instr> := [
    Li(V0, 0),
    Andi(T0, A0, 1),      // loop
    Add(V0, V0, T0),
    Srl(A0, A0, 1),
    Beq(A0, ZERO, 6),
    J(1),
    Jr]                   // done

  function PopCount(x: nat): nat {
    if x == 0 then 0 else x % 2 + PopCount(x / 2)
  }

  /** Number of binary digits; 1 for zero. */
  function BitLength(x: nat): nat {
    if x < 2 then 1 else 1 + BitLength(x / 2)
  }

  lemma {:induction false} BitLengthBound(x: nat, k: nat)
    requires x < Pow2(k)
    ensures BitLength(x) <= k + 1 && PopCount(x) <= k && (0 < k ==> BitLength(x) <= k)
    decreases k
  {
    if x >= 2 {
      BitLengthBound(x / 2, k - 1);
    }
  }

  /** At `loop` with `x` still to count and `v` counted. */
  function OnesHead(r: Regs, mem: map<u32, u32>, x: nat, v: nat): State {
    State(r[A0 := Wrap(x)][V0 := Wrap(v)], mem, 1, Running)
  }

  function OnesEnd(r: Regs, mem: map<u32, u32>, last: u32, v: nat): State {
    OnesHead(r[T0 := last], mem, 0, v).(pc := 6, status := Returned)
  }

  /** `andi` and `add`: the lowest digit is counted. */
  lemma OnesAddsDigit(r: Regs, mem: map<u32, u32>, x: nat, v: nat)
    requires x < TWO_32 && v < 100
    ensures Reaches(ONES, OnesHead(r, mem, x, v), 2, OnesHead(r[T0 := x % 2], mem, x, v + x % 2).(pc := 3))
  {
    var s0 := OnesHead(r, mem, x, v);
    assert And(x, 1) == x % 2 by { assert And(x / 2, 0) == 0; }
    var s1 := Step(ONES, s0);
    assert s1 == OnesHead(r[T0 := x % 2], mem, x, v).(pc := 2);
    var s2 := Step(ONES, s1);
    assert s2 == OnesHead(r[T0 := x % 2], mem, x, v + x % 2).(pc := 3);
    TwoSteps(ONES, s0);
  }

  /** `srl`: the digit is dropped. */
  lemma OnesShifts(r: Regs, mem: map<u32, u32>, x: nat, v: nat)
    requires x < TWO_32
    ensures Reaches(ONES, OnesHead(r, mem, x, v).(pc := 3), 1, OnesHead(r, mem, x / 2, v).(pc := 4))
  {
    var s0 := OnesHead(r, mem, x, v).(pc := 3);
    assert Pow2(1) == 2;
    assert Step(ONES, s0) == OnesHead(r, mem, x / 2, v).(pc := 4);
    OneStep(ONES, s0);
  }

  function AfterBranch(s: State, x: nat): State {
    if x == 0 then s.(pc := 6, status := Returned) else s
  }

  /** `beq` and what follows: back to `loop`, or out of the routine when nothing is left. */
  lemma OnesBranches(r: Regs, mem: map<u32, u32>, x: nat, v: nat)
    requires x < TWO_32
    ensures Reaches(ONES, OnesHead(r, mem, x, v).(pc := 4), 2, AfterBranch(OnesHead(r, mem, x, v), x))
  {
    var s0 := OnesHead(r, mem, x, v).(pc := 4);
    var s1 := Step(ONES, s0);
    assert s1 == s0.(pc := if x == 0 then 6 else 5);
    assert Step(ONES, s1) == AfterBranch(OnesHead(r, mem, x, v), x);
    TwoSteps(ONES, s0);
  }

  /** What one pass ends in: back at `loop`, or out of the routine. */
  lemma OnesIterates(r: Regs, mem: map<u32, u32>, x: nat, v: nat)
    requires x < TWO_32 && v < 100
    ensures Reaches(ONES, OnesHead(r, mem, x, v), 5,
                    AfterBranch(OnesHead(r[T0 := x % 2], mem, x / 2, v + x % 2), x / 2))
  {
    var q: Regs := r[T0 := x % 2];
    var w := v + x % 2;
    var s0, s2, s3 := OnesHead(r, mem, x, v), OnesHead(q, mem, x, w).(pc := 3), OnesHead(q, mem, x / 2, w).(pc := 4);
    OnesAddsDigit(r, mem, x, v);
    OnesShifts(q, mem, x, w);
    OnesBranches(q, mem, x / 2, w);
    Compose(ONES, s0, 2, s2, 1, s3);
    Compose(ONES, s0, 3, s3, 2, AfterBranch(OnesHead(q, mem, x / 2, w), x / 2));
  }

  lemma BitsOfHalf(x: nat)
    ensures x < 2 ==> BitLength(x) == 1 && PopCount(x) == x
    ensures x >= 2 ==> BitLength(x) == 1 + BitLength(x / 2) && PopCount(x) == x % 2 + PopCount(x / 2)
  {
    assert x < 2 ==> PopCount(x / 2) == 0;
  }

  lemma CountsOfHalf(x: nat, v: nat)
    requires x >= 2
    ensures 5 * BitLength(x) == 5 + 5 * BitLength(x / 2)
    ensures v + x % 2 + PopCount(x / 2) == v + PopCount(x)
  {
    BitsOfHalf(x);
  }

  /** From `loop` with `x` to count and `v` counted, the routine returns the sum of `v` and the number
      of ones in `x`, in 5 instructions for each digit of `x`. */
  ghost predicate OnesFinishes(r: Regs, mem: map<u32, u32>, x: nat, v: nat) {
    exists last: u32 :: OnesFinishesWith(r, mem, x, v, last)
  }

  ghost predicate OnesFinishesWith(r: Regs, mem: map<u32, u32>, x: nat, v: nat, last: u32) {
    Reaches(ONES, OnesHead(r, mem, x, v), 5 * BitLength(x), OnesEnd(r, mem, last, v + PopCount(x)))
  }

  lemma OnesStops(r: Regs, mem: map<u32, u32>, x: nat, v: nat)
    requires x < 2 && v < 100
    ensures OnesFinishes(r, mem, x, v)
  {
    BitsOfHalf(x);
    OnesIterates(r, mem, x, v);
    assert AfterBranch(OnesHead(r[T0 := x], mem, 0, v + x), 0) == OnesEnd(r, mem, x, v + x);
    assert OnesFinishesWith(r, mem, x, v, x);
  }

  lemma OnesGoesOn(r: Regs, mem: map<u32, u32>, x: nat, v: nat)
    requires 2 <= x < TWO_32 && v < 100
    requires OnesFinishes(r[T0 := x % 2], mem, x / 2, v + x % 2)
    ensures OnesFinishes(r, mem, x, v)
  {
    var last: u32 :| OnesFinishesWith(r[T0 := x % 2], mem, x / 2, v + x % 2, last);
    OnesGoesOnWith(r, mem, x, v, last);
  }

  lemma OnesGoesOnWith(r: Regs, mem: map<u32, u32>, x: nat, v: nat, last: u32)
    requires 2 <= x < TWO_32 && v < 100
    requires OnesFinishesWith(r[T0 := x % 2], mem, x / 2, v + x % 2, last)
    ensures OnesFinishesWith(r, mem, x, v, last)
  {
    var n, total := 5 * BitLength(x / 2), v + x % 2 + PopCount(x / 2);
    var end := OnesEnd(r[T0 := x % 2], mem, last, total);
    OnesPasses(r, mem, x, v, n, end);
    CountsOfHalf(x, v);
    OnesEndForgets(r, mem, x % 2, last, total);
  }

  /** One more pass in front of a run from `loop`. */
  lemma OnesPasses(r: Regs, mem: map<u32, u32>, x: nat, v: nat, n: nat, t: State)
    requires 2 <= x < TWO_32 && v < 100
    requires Reaches(ONES, OnesHead(r[T0 := x % 2], mem, x / 2, v + x % 2), n, t)
    ensures Reaches(ONES, OnesHead(r, mem, x, v), 5 + n, t)
  {
    OnesIterates(r, mem, x, v);
    Compose(ONES, OnesHead(r, mem, x, v), 5, OnesHead(r[T0 := x % 2], mem, x / 2, v + x % 2), n, t);
  }

  lemma OnesEndForgets(r: Regs, mem: map<u32, u32>, digit: u32, last: u32, v: nat)
    ensures OnesEnd(r[T0 := digit], mem, last, v) == OnesEnd(r, mem, last, v)
  {
    assert r[T0 := digit][T0 := last] == r[T0 := last];
  }

  lemma {:induction false} OnesLoops(r: Regs, mem: map<u32, u32>, x: nat, v: nat)
    requires x < TWO_32 && v + BitLength(x) < 100
    ensures OnesFinishes(r, mem, x, v)
    decreases x
  {
    if x < 2 {
      OnesStops(r, mem, x, v);
    } else {
      OnesLoops(r[T0 := x % 2], mem, x / 2, v + x % 2);
      OnesGoesOn(r, mem, x, v);
    }
  }

  lemma Pow2Of32()
    ensures Pow2(32) == TWO_32
  {
    assert Pow2(8) == 256;
    assert Pow2(16) == 256 * Pow2(8);
    assert Pow2(24) == 256 * Pow2(16);
    assert Pow2(32) == 256 * Pow2(24);
  }

  /** `ones` returns the number of one bits of every 32-bit argument, after 5 instructions for each
      binary digit and one more; its trapping `add` never overflows. */
  lemma OnesCountsBits(r: Regs, mem: map<u32, u32>, x: nat) returns (t: State)
    requires x == r[A0]
    ensures BitLength(x) <= 32
    ensures Reaches(ONES, Call(r, mem), 5 * BitLength(x) + 1, t) && t.status.Returned?
    ensures t.regs[V0] == PopCount(x) <= 32 && t.mem == mem
    ensures forall k :: 0 <= k < 32 && k !in {V0, A0, T0} ==> t.regs[k] == r[k]
  {
    Pow2Of32();
    BitLengthBound(x, 32);
    OnesStarts(r, mem, x);
    OnesLoops(r, mem, x, 0);
    var last: u32 :| OnesFinishesWith(r, mem, x, 0, last);
    t := OnesReturns(r, mem, x, last);
  }

  lemma OnesReturns(r: Regs, mem: map<u32, u32>, x: nat, last: u32) returns (t: State)
    requires PopCount(x) <= 32 && OnesFinishesWith(r, mem, x, 0, last)
    requires Reaches(ONES, Call(r, mem), 1, OnesHead(r, mem, x, 0))
    ensures Reaches(ONES, Call(r, mem), 5 * BitLength(x) + 1, t) && t.status.Returned?
    ensures t.regs[V0] == PopCount(x) && t.mem == mem
    ensures forall k :: 0 <= k < 32 && k !in {V0, A0, T0} ==> t.regs[k] == r[k]
  {
    var n := 5 * BitLength(x);
    t := OnesEnd(r, mem, last, PopCount(x));
    OnesEndKeeps(r, mem, last, PopCount(x));
    assert 0 + PopCount(x) == PopCount(x);
    Compose(ONES, Call(r, mem), 1, OnesHead(r, mem, x, 0), n, t);
    assert 1 + n == n + 1;
  }

  lemma OnesEndKeeps(r: Regs, mem: map<u32, u32>, last: u32, v: nat)
    requires v < TWO_32
    ensures var t := OnesEnd(r, mem, last, v);
      t.status.Returned? && t.regs[V0] == v && t.mem == mem
      && forall k :: 0 <= k < 32 && k !in {V0, A0, T0} ==> t.regs[k] == r[k]
  {
  }

  lemma OnesStarts(r: Regs, mem: map<u32, u32>, x: nat)
    requires x == r[A0]
    ensures Reaches(ONES, Call(r, mem), 1, OnesHead(r, mem, x, 0))
  {
    assert r[A0 := x] == r;
    assert Step(ONES, Call(r, mem)) == OnesHead(r, mem, x, 0);
    OneStep(ONES, Call(r, mem));
  }

  // ----- fib -----

  const FIB: seq<Instr> := [
    Addi(SP, SP, -12),
    Sw(S0, 0, SP),
    Sw(S1, 4, SP),
    Sw(S2, 8, SP),
    Li(S0, 1),
    Li(S1, 1),
    Li(T0, 3),
    Slt(T1, A0, T0),
    Beq(T1, ZERO, 10),
    J(16),
    Addu(S2, S1, S0),     // calc, loop
    Move(S0, S1),
    Move(S1, S2),
    Beq(T0, A0, 16),
    Addi(T0, T0, 1),
    J(10),
    Move(V0, S1),         // done
    Lw(S0, 0, SP),
    Lw(S1, 4, SP),
    Lw(S2, 8, SP),
    Addi(SP, SP, 12),
    Jr]

  /** The Fibonacci sequence 1, 1, 2, 3, ... counted from 1. */
  function Fib(n: nat): nat {
    if n <= 2 then 1 else Fib(n - 1) + Fib(n - 2)
  }

  /** The routine reads its argument as a signed number. */
  function FibResult(n: u32): u32 {
    if ToSigned(n) < 3 then 1 else Wrap(Fib(n))
  }

  /** Address of the `k`-th word pushed. */
  function Slot(r: Regs, k: nat): u32 {
    Wrap(r[SP] - 12 + 4 * k)
  }

  /** The stack pointer is aligned, three words below it are mapped, and moving it does not trap. */
  predicate StackReady(r: Regs, mem: map<u32, u32>) {
    && r[SP] % 4 == 0 && !Overflows(ToSigned(r[SP]) - 12)
    && Slot(r, 0) in mem && Slot(r, 1) in mem && Slot(r, 2) in mem
  }

  function Pushed(r: Regs, mem: map<u32, u32>): map<u32, u32> {
    mem[Slot(r, 0) := r[S0]][Slot(r, 1) := r[S1]][Slot(r, 2) := r[S2]]
  }

  /** Inside the routine, with stack moved and memory pushed. */
  function FibAt(r: Regs, mem: map<u32, u32>, pc: nat, t1: u32, i: u32, a: u32, b: u32, c: u32): State {
    State(r[SP := Slot(r, 0)][T1 := t1][T0 := i][S0 := a][S1 := b][S2 := c], Pushed(r, mem), pc, Running)
  }

  lemma OffsetZero(base: u32)
    ensures Offset(base, 0) == base
  {
  }

  lemma AlignedOffset(base: u32, k: int)
    requires base % 4 == 0 && k % 4 == 0
    ensures Offset(base, k) % 4 == 0
  {
  }

  /** A load and a store of a word above an aligned stack pointer. */
  lemma LoadsWord(p: seq<Instr>, s: State, rt: nat, k: int)
    requires s.status.Running? && s.pc < |p| && p[s.pc] == Lw(rt, k, SP) && 0 < rt < 32 && k % 4 == 0
    requires s.regs[SP] % 4 == 0 && Offset(s.regs[SP], k) in s.mem
    ensures Step(p, s) == s.(regs := s.regs[rt := s.mem[Offset(s.regs[SP], k)]], pc := s.pc + 1)
  {
    AlignedOffset(s.regs[SP], k);
  }

  lemma StoresWord(p: seq<Instr>, s: State, rt: nat, k: int)
    requires s.status.Running? && s.pc < |p| && p[s.pc] == Sw(rt, k, SP) && 0 < rt < 32 && k % 4 == 0
    requires s.regs[SP] % 4 == 0 && Offset(s.regs[SP], k) in s.mem
    ensures Step(p, s) == s.(mem := s.mem[Offset(s.regs[SP], k) := s.regs[rt]], pc := s.pc + 1)
  {
    AlignedOffset(s.regs[SP], k);
  }

  /** The three words are the aligned one at the new stack pointer and the two above it. */
  lemma SlotsAbove(r: Regs)
    requires r[SP] % 4 == 0
    ensures Slot(r, 0) % 4 == 0 && Offset(Slot(r, 0), 4) == Slot(r, 1) && Offset(Slot(r, 0), 8) == Slot(r, 2)
  {
  }

  lemma FibPushesFirst(r: Regs, mem: map<u32, u32>)
    requires StackReady(r, mem)
    ensures Reaches(FIB, Call(r, mem), 2, State(r[SP := Slot(r, 0)], mem[Slot(r, 0) := r[S0]], 2, Running))
  {
    var s0 := Call(r, mem);
    var q: Regs := r[SP := Slot(r, 0)];
    var s1 := State(q, mem, 1, Running);
    assert Step(FIB, s0) == s1;
    OffsetZero(q[SP]);
    StoresWord(FIB, s1, S0, 0);
    TwoSteps(FIB, s0);
  }

  lemma FibPushesRest(q: Regs, m: map<u32, u32>, x: u32, y: u32)
    requires q[SP] % 4 == 0 && x == Offset(q[SP], 4) && y == Offset(q[SP], 8) && x in m && y in m
    ensures Reaches(FIB, State(q, m, 2, Running), 2, State(q, m[x := q[S1]][y := q[S2]], 4, Running))
  {
    var s2, s3 := State(q, m, 2, Running), State(q, m[x := q[S1]], 3, Running);
    StoresWord(FIB, s2, S1, 4);
    StoresWord(FIB, s3, S2, 8);
    TwoSteps(FIB, s2);
  }

  lemma FibPushes(r: Regs, mem: map<u32, u32>)
    requires StackReady(r, mem)
    ensures Reaches(FIB, Call(r, mem), 4, State(r[SP := Slot(r, 0)], Pushed(r, mem), 4, Running))
  {
    var q: Regs, m := r[SP := Slot(r, 0)], mem[Slot(r, 0) := r[S0]];
    SlotsAbove(r);
    FibPushesFirst(r, mem);
    FibPushesRest(q, m, Slot(r, 1), Slot(r, 2));
    Compose(FIB, Call(r, mem), 2, State(q, m, 2, Running), 2, State(q, Pushed(r, mem), 4, Running));
  }

  function BelowThree(r: Regs): u32 {
    if ToSigned(r[A0]) < 3 then 1 else 0
  }

  /** The first two loads of constants, with any registers and memory. */
  lemma FibOnes(q: Regs, m: map<u32, u32>)
    ensures Reaches(FIB, State(q, m, 4, Running), 2, State(q[S0 := 1][S1 := 1], m, 6, Running))
  {
    var s := State(q, m, 4, Running);
    assert Step(FIB, s) == State(q[S0 := 1], m, 5, Running);
    assert Step(FIB, State(q[S0 := 1], m, 5, Running)) == State(q[S0 := 1][S1 := 1], m, 6, Running);
    TwoSteps(FIB, s);
  }

  lemma FibCompares(q: Regs, m: map<u32, u32>)
    ensures Reaches(FIB, State(q, m, 6, Running), 2, State(q[T0 := 3][T1 := BelowThree(q)], m, 8, Running))
  {
    var s := State(q, m, 6, Running);
    assert Step(FIB, s) == State(q[T0 := 3], m, 7, Running);
    assert Step(FIB, State(q[T0 := 3], m, 7, Running)) == State(q[T0 := 3][T1 := BelowThree(q)], m, 8, Running);
    TwoSteps(FIB, s);
  }

  lemma FibInits(r: Regs, mem: map<u32, u32>)
    ensures Reaches(FIB, State(r[SP := Slot(r, 0)], Pushed(r, mem), 4, Running), 5,
                    FibAt(r, mem, if BelowThree(r) == 1 then 9 else 10, BelowThree(r), 3, 1, 1, r[S2]))
  {
    var m, c := Pushed(r, mem), BelowThree(r);
    var q: Regs := r[SP := Slot(r, 0)];
    var s4, s6 := State(q, m, 4, Running), State(q[S0 := 1][S1 := 1], m, 6, Running);
    var s8 := FibAt(r, mem, 8, c, 3, 1, 1, r[S2]);
    FibOnes(q, m);
    FibCompares(q[S0 := 1][S1 := 1], m);
    assert s8.regs == q[S0 := 1][S1 := 1][T0 := 3][T1 := c];
    Compose(FIB, s4, 2, s6, 2, s8);
    FibChooses(s8, c);
    Compose(FIB, s4, 4, s8, 1, s8.(pc := if c == 1 then 9 else 10));
  }

  lemma FibChooses(s: State, c: u32)
    requires s.pc == 8 && s.status.Running? && s.regs[T1] == c && c <= 1
    ensures Reaches(FIB, s, 1, s.(pc := if c == 1 then 9 else 10))
  {
    assert Step(FIB, s) == s.(pc := if c == 1 then 9 else 10);
    OneStep(FIB, s);
  }

  lemma FibAdds(q: Regs, m: map<u32, u32>, f: u32)
    requires f == Offset(q[S0], q[S1])
    ensures Reaches(FIB, State(q, m, 10, Running), 1, State(q[S2 := f], m, 11, Running))
  {
    assert Step(FIB, State(q, m, 10, Running)) == State(q[S2 := f], m, 11, Running);
    OneStep(FIB, State(q, m, 10, Running));
  }

  lemma FibMoves(q: Regs, m: map<u32, u32>)
    ensures Reaches(FIB, State(q, m, 11, Running), 2, State(q[S0 := q[S1]][S1 := q[S2]], m, 13, Running))
  {
    var s, s1 := State(q, m, 11, Running), State(q[S0 := q[S1]], m, 12, Running);
    assert Step(FIB, s) == s1;
    assert Step(FIB, s1) == State(q[S0 := q[S1]][S1 := q[S2]], m, 13, Running);
    TwoSteps(FIB, s);
  }

  lemma FibAdvances(r: Regs, mem: map<u32, u32>, t1: u32, i: u32, a: u32, b: u32, c: u32)
    ensures Reaches(FIB, FibAt(r, mem, 10, t1, i, a, b, c), 3, FibAt(r, mem, 13, t1, i, b, Wrap(a + b), Wrap(a + b)))
  {
    var s0, s3 := FibAt(r, mem, 10, t1, i, a, b, c), FibAt(r, mem, 13, t1, i, b, Wrap(a + b), Wrap(a + b));
    var q: Regs := s0.regs[S2 := Wrap(a + b)];
    FibAdds(s0.regs, s0.mem, Wrap(a + b));
    FibMoves(q, s0.mem);
    assert s3.regs == q[S0 := b][S1 := Wrap(a + b)];
    Compose(FIB, s0, 1, State(q, s0.mem, 11, Running), 2, s3);
  }

  /** The counter has reached the argument: on to `done`. */
  lemma FibLeaves(r: Regs, mem: map<u32, u32>, t1: u32, a: u32, b: u32, c: u32)
    ensures Reaches(FIB, FibAt(r, mem, 13, t1, r[A0], a, b, c), 1, FibAt(r, mem, 16, t1, r[A0], a, b, c))
  {
    var s := FibAt(r, mem, 13, t1, r[A0], a, b, c);
    assert Step(FIB, s) == FibAt(r, mem, 16, t1, r[A0], a, b, c);
    OneStep(FIB, s);
  }

  /** It has not: count on, without trapping, and loop. */
  lemma FibRepeats(r: Regs, mem: map<u32, u32>, t1: u32, i: u32, a: u32, b: u32, c: u32)
    requires i < r[A0] < TWO_31
    ensures Reaches(FIB, FibAt(r, mem, 13, t1, i, a, b, c), 3, FibAt(r, mem, 10, t1, Wrap(i + 1), a, b, c))
  {
    var s0 := FibAt(r, mem, 13, t1, i, a, b, c);
    var s2 := FibAt(r, mem, 15, t1, Wrap(i + 1), a, b, c);
    FibCounts(s0.regs, s0.mem, i);
    assert s2.regs == s0.regs[T0 := Wrap(i + 1)];
    FibJumps(s2.regs, s2.mem);
    Compose(FIB, s0, 2, s2, 1, s2.(pc := 10));
  }

  lemma FibCounts(q: Regs, m: map<u32, u32>, i: u32)
    requires q[T0] == i < q[A0] < TWO_31
    ensures Reaches(FIB, State(q, m, 13, Running), 2, State(q[T0 := Wrap(i + 1)], m, 15, Running))
  {
    var s0, s1 := State(q, m, 13, Running), State(q, m, 14, Running);
    assert Step(FIB, s0) == s1;
    assert Step(FIB, s1) == State(q[T0 := Wrap(i + 1)], m, 15, Running);
    TwoSteps(FIB, s0);
  }

  lemma FibJumps(q: Regs, m: map<u32, u32>)
    ensures Reaches(FIB, State(q, m, 15, Running), 1, State(q, m, 10, Running))
  {
    assert Step(FIB, State(q, m, 15, Running)) == State(q, m, 10, Running);
    OneStep(FIB, State(q, m, 15, Running));
  }

  lemma WrapSum(x: int, y: int)
    ensures Wrap(Wrap(x) + Wrap(y)) == Wrap(x + y)
  {
  }

  /** From `loop` with counter `i`, holding the Fibonacci numbers before it, to `done` at `n`. */
  ghost predicate FibFinishes(r: Regs, mem: map<u32, u32>, n: u32, i: u32, c: u32, prev: u32, last: u32)
    requires 3 <= i <= n
  {
    Reaches(FIB, FibAt(r, mem, 10, 0, i, Wrap(Fib(i - 2)), Wrap(Fib(i - 1)), c), 6 * (n - i) + 4,
            FibAt(r, mem, 16, 0, n, prev, Wrap(Fib(n)), last))
  }

  /** The numbers move on by one. */
  lemma FibMovesOn(r: Regs, mem: map<u32, u32>, i: u32, c: u32)
    requires 3 <= i
    ensures Reaches(FIB, FibAt(r, mem, 10, 0, i, Wrap(Fib(i - 2)), Wrap(Fib(i - 1)), c), 3,
                    FibAt(r, mem, 13, 0, i, Wrap(Fib(i - 1)), Wrap(Fib(i)), Wrap(Fib(i))))
  {
    WrapSum(Fib(i - 2), Fib(i - 1));
    FibAdvances(r, mem, 0, i, Wrap(Fib(i - 2)), Wrap(Fib(i - 1)), c);
  }

  lemma FibLastPass(r: Regs, mem: map<u32, u32>, n: u32, c: u32)
    requires 3 <= n == r[A0]
    ensures FibFinishes(r, mem, n, n, c, Wrap(Fib(n - 1)), Wrap(Fib(n)))
  {
    var b, f: u32 := Wrap(Fib(n - 1)), Wrap(Fib(n));
    FibMovesOn(r, mem, n, c);
    FibLeaves(r, mem, 0, b, f, f);
    Compose(FIB, FibAt(r, mem, 10, 0, n, Wrap(Fib(n - 2)), b, c), 3, FibAt(r, mem, 13, 0, n, b, f, f), 1,
            FibAt(r, mem, 16, 0, n, b, f, f));
  }

  lemma FibNextPass(r: Regs, mem: map<u32, u32>, n: u32, i: u32, c: u32, prev: u32, last: u32)
    requires 3 <= i < n == r[A0] < TWO_31 && FibFinishes(r, mem, n, i + 1, Wrap(Fib(i)), prev, last)
    ensures FibFinishes(r, mem, n, i, c, prev, last)
  {
    FibMovesOn(r, mem, i, c);
    FibPasses(r, mem, i, Wrap(Fib(i - 2)), Wrap(Fib(i - 1)), Wrap(Fib(i)), c, 6 * (n - (i + 1)) + 4,
              FibAt(r, mem, 16, 0, n, prev, Wrap(Fib(n)), last));
  }

  /** One more pass in front of a run from `loop`. */
  lemma FibPasses(r: Regs, mem: map<u32, u32>, i: u32, a: u32, b: u32, f: u32, c: u32, k: nat, t: State)
    requires i + 1 <= r[A0] < TWO_31
    requires Reaches(FIB, FibAt(r, mem, 10, 0, i, a, b, c), 3, FibAt(r, mem, 13, 0, i, b, f, f))
    requires Reaches(FIB, FibAt(r, mem, 10, 0, i + 1, b, f, f), k, t)
    ensures Reaches(FIB, FibAt(r, mem, 10, 0, i, a, b, c), 6 + k, t)
  {
    var s0, s6 := FibAt(r, mem, 10, 0, i, a, b, c), FibAt(r, mem, 10, 0, i + 1, b, f, f);
    FibRepeats(r, mem, 0, i, b, f, f);
    Compose(FIB, s0, 3, FibAt(r, mem, 13, 0, i, b, f, f), 3, s6);
    Compose(FIB, s0, 6, s6, k, t);
  }

  lemma {:induction false} FibLoops(r: Regs, mem: map<u32, u32>, n: nat, i: nat, c: u32) returns (prev: u32, last: u32)
    requires 3 <= i <= n == r[A0] < TWO_31
    ensures FibFinishes(r, mem, n, i, c, prev, last)
    decreases n - i
  {
    if i == n {
      prev, last := Wrap(Fib(n - 1)), Wrap(Fib(n));
      FibLastPass(r, mem, n, c);
    } else {
      prev, last := FibLoops(r, mem, n, i + 1, Wrap(Fib(i)));
      FibNextPass(r, mem, n, i, c, prev, last);
    }
  }

  /** The state in which the routine returns: result in $v0, saved registers and stack as found. */
  function FibDone(r: Regs, mem: map<u32, u32>, t1: u32, i: u32, b: u32): State {
    State(r[T1 := t1][T0 := i][V0 := b], Pushed(r, mem), 21, Returned)
  }

  /** The result is moved and the first saved register reloaded. */
  lemma FibPopsFirst(q: Regs, m: map<u32, u32>, saved: u32)
    requires q[SP] % 4 == 0 && q[SP] in m && m[q[SP]] == saved
    ensures Reaches(FIB, State(q, m, 16, Running), 2, State(q[V0 := q[S1]][S0 := saved], m, 18, Running))
  {
    var s, s1 := State(q, m, 16, Running), State(q[V0 := q[S1]], m, 17, Running);
    assert Step(FIB, s) == s1;
    OffsetZero(q[SP]);
    LoadsWord(FIB, s1, S0, 0);
    TwoSteps(FIB, s);
  }

  lemma FibPopsNext(q: Regs, m: map<u32, u32>, x: u32, y: u32)
    requires q[SP] % 4 == 0 && Offset(q[SP], 4) in m && Offset(q[SP], 8) in m
    requires m[Offset(q[SP], 4)] == x && m[Offset(q[SP], 8)] == y
    ensures Reaches(FIB, State(q, m, 18, Running), 2, State(q[S1 := x][S2 := y], m, 20, Running))
  {
    var s, s1 := State(q, m, 18, Running), State(q[S1 := x], m, 19, Running);
    LoadsWord(FIB, s, S1, 4);
    LoadsWord(FIB, s1, S2, 8);
    TwoSteps(FIB, s);
  }

  lemma FibReturns(q: Regs, m: map<u32, u32>, sp: u32)
    requires !Overflows(ToSigned(sp) - 12) && q[SP] == Wrap(sp - 12)
    ensures Reaches(FIB, State(q, m, 20, Running), 2, State(q[SP := sp], m, 21, Returned))
  {
    var s, s1 := State(q, m, 20, Running), State(q[SP := sp], m, 21, Running);
    assert ToSigned(q[SP]) == ToSigned(sp) - 12;
    assert Step(FIB, s) == s1;
    assert Step(FIB, s1) == s1.(status := Returned);
    TwoSteps(FIB, s);
  }

  /** Only the slots' own words changed, and they hold the saved registers. */
  lemma PushedHolds(r: Regs, mem: map<u32, u32>)
    requires StackReady(r, mem)
    ensures var m := Pushed(r, mem);
      m.Keys == mem.Keys && m[Slot(r, 0)] == r[S0] && m[Slot(r, 1)] == r[S1] && m[Slot(r, 2)] == r[S2]
      && Slot(r, 0) % 4 == 0 && Slot(r, 1) == Offset(Slot(r, 0), 4) && Slot(r, 2) == Offset(Slot(r, 0), 8)
  {
  }

  lemma FibPops(r: Regs, mem: map<u32, u32>, t1: u32, i: u32, a: u32, b: u32, c: u32)
    requires StackReady(r, mem)
    ensures Reaches(FIB, FibAt(r, mem, 16, t1, i, a, b, c), 6, FibDone(r, mem, t1, i, b))
  {
    var m, s16, end := Pushed(r, mem), FibAt(r, mem, 16, t1, i, a, b, c), FibDone(r, mem, t1, i, b);
    PushedHolds(r, mem);
    var q18: Regs := s16.regs[V0 := b][S0 := r[S0]];
    var q20: Regs := q18[S1 := r[S1]][S2 := r[S2]];
    FibPopsFirst(s16.regs, m, r[S0]);
    FibPopsNext(q18, m, r[S1], r[S2]);
    Compose(FIB, s16, 2, State(q18, m, 18, Running), 2, State(q20, m, 20, Running));
    FibReturns(q20, m, r[SP]);
    assert q20[SP := r[SP]] == end.regs;
    Compose(FIB, s16, 4, State(q20, m, 20, Running), 2, end);
  }

  /** Arguments read as less than 3 skip the loop. */
  lemma FibShort(r: Regs, mem: map<u32, u32>)
    requires StackReady(r, mem) && BelowThree(r) == 1
    ensures Reaches(FIB, FibAt(r, mem, 9, 1, 3, 1, 1, r[S2]), 7, FibDone(r, mem, 1, 3, 1))
  {
    var s9, s10 := FibAt(r, mem, 9, 1, 3, 1, 1, r[S2]), FibAt(r, mem, 16, 1, 3, 1, 1, r[S2]);
    assert Step(FIB, s9) == s10;
    OneStep(FIB, s9);
    FibPops(r, mem, 1, 3, 1, 1, r[S2]);
    Compose(FIB, s9, 1, s10, 6, FibDone(r, mem, 1, 3, 1));
  }

  lemma FibLong(r: Regs, mem: map<u32, u32>, n: nat)
    requires StackReady(r, mem) && 3 <= n == r[A0] < TWO_31
    ensures Reaches(FIB, FibAt(r, mem, 10, 0, 3, 1, 1, r[S2]), 6 * (n - 3) + 10, FibDone(r, mem, 0, n, Wrap(Fib(n))))
  {
    assert Fib(1) == 1 && Fib(2) == 1;
    var s := FibAt(r, mem, 10, 0, 3, 1, 1, r[S2]);
    var prev, last := FibLoops(r, mem, n, 3, r[S2]);
    var done := FibAt(r, mem, 16, 0, n, prev, Wrap(Fib(n)), last);
    FibPops(r, mem, 0, n, prev, Wrap(Fib(n)), last);
    Compose(FIB, s, 6 * (n - 3) + 4, done, 6, FibDone(r, mem, 0, n, Wrap(Fib(n))));
  }

  /** `fib` returns Fib(n) modulo 2^32 for every 1 <= n < 2^31, and 1 for the arguments it reads as
      less than 3; it gives back $s0, $s1, $s2, $sp and every register but $v0, $t0 and $t1, and
      writes no memory but the three words below the stack pointer. */
  lemma FibReturnsFibonacci(r: Regs, mem: map<u32, u32>, n: nat) returns (steps: nat, t: State)
    requires StackReady(r, mem) && n == r[A0]
    ensures Reaches(FIB, Call(r, mem), steps, t) && t.status.Returned?
    ensures t.regs[V0] == FibResult(n)
    ensures 1 <= n < TWO_31 ==> t.regs[V0] == Wrap(Fib(n)) && steps <= 6 * n + 15
    ensures forall k :: 0 <= k < 32 && k !in {V0, T0, T1} ==> t.regs[k] == r[k]
    ensures t.mem.Keys == mem.Keys
    ensures forall x :: x in mem && x !in {Slot(r, 0), Slot(r, 1), Slot(r, 2)} ==> t.mem[x] == mem[x]
  {
    FibBegins(r, mem);
    if BelowThree(r) == 1 {
      FibShort(r, mem);
      steps, t := 16, FibDone(r, mem, 1, 3, 1);
      FibDoneKeeps(r, mem, 1, 3, 1);
      Compose(FIB, Call(r, mem), 9, FibAt(r, mem, 9, 1, 3, 1, 1, r[S2]), 7, t);
    } else {
      FibLong(r, mem, n);
      steps, t := 6 * (n - 3) + 19, FibDone(r, mem, 0, n, Wrap(Fib(n)));
      FibDoneKeeps(r, mem, 0, n, Wrap(Fib(n)));
      Compose(FIB, Call(r, mem), 9, FibAt(r, mem, 10, 0, 3, 1, 1, r[S2]), 6 * (n - 3) + 10, t);
    }
  }

  lemma FibBegins(r: Regs, mem: map<u32, u32>)
    requires StackReady(r, mem)
    ensures var at := if BelowThree(r) == 1 then 9 else 10;
            Reaches(FIB, Call(r, mem), 9, FibAt(r, mem, at, BelowThree(r), 3, 1, 1, r[S2]))
  {
    FibPushes(r, mem);
    FibInits(r, mem);
    Compose(FIB, Call(r, mem), 4, State(r[SP := Slot(r, 0)], Pushed(r, mem), 4, Running), 5,
            FibAt(r, mem, if BelowThree(r) == 1 then 9 else 10, BelowThree(r), 3, 1, 1, r[S2]));
  }

  lemma FibDoneKeeps(r: Regs, mem: map<u32, u32>, t1: u32, i: u32, b: u32)
    requires StackReady(r, mem)
    ensures var t := FibDone(r, mem, t1, i, b);
      t.status.Returned? && t.regs[V0] == b && t.mem.Keys == mem.Keys
      && (forall k :: 0 <= k < 32 && k !in {V0, T0, T1} ==> t.regs[k] == r[k])
      && (forall x :: x in mem && x !in {Slot(r, 0), Slot(r, 1), Slot(r, 2)} ==> t.mem[x] == mem[x])
  {
    PushedHolds(r, mem);
  }

  // ----- traps -----

  /** `add` and `addi` trap exactly when the signed sum does not fit into 32 bits, and then change nothing. */
  lemma AdditionsTrap(p: seq<Instr>, s: State)
    requires s.status.Running? && s.pc < |p| && p[s.pc].Valid() && (p[s.pc].Add? || p[s.pc].Addi?)
    ensures var i := p[s.pc];
      var v := ToSigned(Get(s.regs, i.rs)) + if i.Add? then ToSigned(Get(s.regs, i.rt)) else i.imm;
      Step(p, s) == if -0x8000_0000 <= v < 0x8000_0000 then
                      s.(regs := Put(s.regs, if i.Add? then i.rd else i.rt, v), pc := s.pc + 1)
                    else s.(status := Trapped)
  {
  }

  // ----- when there is no stack -----

  lemma StoreFaults(s: State, k: nat, rt: nat)
    requires s.status.Running? && s.pc < |FIB| && FIB[s.pc] == Sw(rt, k, SP) && rt < 32
    requires Offset(s.regs[SP], k) % 4 != 0 || Offset(s.regs[SP], k) !in s.mem
    ensures Step(FIB, s) == s.(status := Faulted)
  {
  }

  lemma RunsOn(s: State, n: nat, t: State)
    requires Run(FIB, s, n) == t
    ensures Run(FIB, s, n + 1) == Step(FIB, t)
  {
    RunAppend(FIB, s, n, 1);
    assert Run(FIB, t, 1) == Run(FIB, Step(FIB, t), 0);
  }

  /** The first push of an aligned stack pointer. */
  lemma FirstPush(r: Regs, mem: map<u32, u32>)
    requires !Overflows(ToSigned(r[SP]) - 12)
    ensures var q: Regs := r[SP := Slot(r, 0)];
      Run(FIB, Call(r, mem), 1) == State(q, mem, 1, Running)
      && Offset(q[SP], 0) == Slot(r, 0) && (r[SP] % 4 == 0 <==> Slot(r, 0) % 4 == 0)
      && (Slot(r, 0) % 4 == 0 && Slot(r, 0) in mem ==>
            Run(FIB, Call(r, mem), 2) == State(q, mem[Slot(r, 0) := r[S0]], 2, Running))
  {
    var q: Regs := r[SP := Slot(r, 0)];
    assert Run(FIB, Call(r, mem), 0) == Call(r, mem);
    RunsOn(Call(r, mem), 0, Call(r, mem));
    assert Step(FIB, Call(r, mem)) == State(q, mem, 1, Running);
    OffsetZero(q[SP]);
    RunsOn(Call(r, mem), 1, State(q, mem, 1, Running));
    if Slot(r, 0) % 4 == 0 && Slot(r, 0) in mem {
      StoresWord(FIB, State(q, mem, 1, Running), S0, 0);
    }
  }

  lemma FaultsNext(s: State, n: nat, t: State, k: nat, rt: nat)
    requires Run(FIB, s, n) == t
    requires t.status.Running? && t.pc < |FIB| && FIB[t.pc] == Sw(rt, k, SP) && rt < 32
    requires Offset(t.regs[SP], k) % 4 != 0 || Offset(t.regs[SP], k) !in t.mem
    ensures Run(FIB, s, n + 1).status == Faulted
  {
    RunsOn(s, n, t);
    StoreFaults(t, k, rt);
  }

  /** The conditions on the stack are exact: without them `fib` traps, when moving the stack pointer
      overflows, or faults on one of its three pushes. */
  lemma FibNeedsItsStack(r: Regs, mem: map<u32, u32>) returns (n: nat)
    requires !StackReady(r, mem)
    ensures n <= 4
    ensures Run(FIB, Call(r, mem), n).status == if Overflows(ToSigned(r[SP]) - 12) then Trapped else Faulted
  {
    if Overflows(ToSigned(r[SP]) - 12) {
      n := 1;
      assert Run(FIB, Call(r, mem), 0) == Call(r, mem);
      RunsOn(Call(r, mem), 0, Call(r, mem));
    } else {
      FirstPush(r, mem);
      var q: Regs := r[SP := Slot(r, 0)];
      if r[SP] % 4 != 0 || Slot(r, 0) !in mem {
        n := 2;
        FaultsNext(Call(r, mem), 1, State(q, mem, 1, Running), 0, S0);
      } else {
        n := LaterPushFaults(r, mem);
      }
    }
  }

  lemma LaterPushFaults(r: Regs, mem: map<u32, u32>) returns (n: nat)
    requires r[SP] % 4 == 0 && Slot(r, 0) in mem && (Slot(r, 1) !in mem || Slot(r, 2) !in mem)
    requires !Overflows(ToSigned(r[SP]) - 12)
    ensures n <= 4 && Run(FIB, Call(r, mem), n).status == Faulted
  {
    FirstPush(r, mem);
    SlotsAbove(r);
    var q: Regs, m := r[SP := Slot(r, 0)], mem[Slot(r, 0) := r[S0]];
    var s2 := State(q, m, 2, Running);
    if Slot(r, 1) !in mem {
      n := 3;
      FaultsNext(Call(r, mem), 2, s2, 4, S1);
    } else {
      n := 4;
      StoresWord(FIB, s2, S1, 4);
      RunsOn(Call(r, mem), 2, s2);
      FaultsNext(Call(r, mem), 3, s2.(mem := m[Slot(r, 1) := q[S1]], pc := 3), 8, S2);
    }
  }

  // ----- the machine on its registers and memory -----

  class Cpu {
    var regs: array<u32>
    var mem: map<u32, u32>
    var pc: nat
    var status: Status

    ghost function Model(): State
      reads this, regs
      requires regs.Length == 32
    {
      State(regs[..], mem, pc, status)
    }

    constructor (r: Regs, m: map<u32, u32>)
      ensures fresh(regs) && regs.Length == 32 && Model() == Call(r, m)
    {
      regs := new u32[32](k requires 0 <= k < 32 => r[k]);
      mem, pc, status := m, 0, Running;
      new;
      assert regs[..] == r;
    }

    method Write(rd: nat, v: int)
      requires regs.Length == 32 && rd < 32
      modifies regs, this`pc
      ensures regs[..] == Put(old(regs[..]), rd, v) && pc == old(pc) + 1
    {
      if rd != 0 {
        regs[rd] := Wrap(v);
        assert regs[..] == old(regs[..])[rd := Wrap(v)];
      }
      pc := pc + 1;
    }

    method Read(rs: nat) returns (v: u32)
      requires regs.Length == 32 && rs < 32
      ensures v == Get(regs[..], rs)
    {
      v := if rs == 0 then 0 else regs[rs];
    }

    /** `addi` and `add`: the sum is written, or the machine traps. */
    method WriteChecked(rd: nat, v: int)
      requires regs.Length == 32 && rd < 32
      modifies regs, this`pc, this`status
      ensures if Overflows(v) then Model() == old(Model()).(status := Trapped)
              else Model() == old(Model()).(regs := Put(old(regs[..]), rd, v), pc := old(pc) + 1)
    {
      if Overflows(v) { status := Trapped; } else { Write(rd, v); }
    }

    method Load(rt: nat, address: u32)
      requires regs.Length == 32 && rt < 32
      modifies regs, this`pc, this`status
      ensures if address % 4 == 0 && address in mem
              then Model() == old(Model()).(regs := Put(old(regs[..]), rt, mem[address]), pc := old(pc) + 1)
              else Model() == old(Model()).(status := Faulted)
    {
      if address % 4 == 0 && address in mem { Write(rt, mem[address]); } else { status := Faulted; }
    }

    method Store(address: u32, w: u32)
      requires regs.Length == 32
      modifies this`mem, this`pc, this`status
      ensures if address % 4 == 0 && address in old(mem)
              then Model() == old(Model()).(mem := old(mem)[address := w], pc := old(pc) + 1)
              else Model() == old(Model()).(status := Faulted)
    {
      if address % 4 == 0 && address in mem { mem := mem[address := w]; pc := pc + 1; } else { status := Faulted; }
    }

    /** Executes one instruction. */
    method Tick(p: seq<Instr>)
      requires regs.Length == 32
      modifies this`pc, this`status, this`mem, regs
      ensures Model() == Step(p, old(Model()))
    {
      if !status.Running? { return; }
      if !(pc < |p|) || !p[pc].Valid() { status := Faulted; return; }
      match p[pc] {
        case Lw(rt, offset, base) => var v := Read(base); Load(rt, Offset(v, offset));
        case Sw(rt, offset, base) => var v := Read(base); var w := Read(rt); Store(Offset(v, offset), w);
        case Beq(rs, rt, target) => var v := Read(rs); var w := Read(rt); pc := if v == w then target else pc + 1;
        case J(target) => pc := target;
        case Jr => status := Returned;
        case _ => Compute(p);
      }
    }

    /** The instructions that only work on registers. */
    method Compute(p: seq<Instr>)
      requires regs.Length == 32 && status.Running? && pc < |p| && p[pc].Valid()
      requires !p[pc].Lw? && !p[pc].Sw? && !p[pc].Beq? && !p[pc].J? && !p[pc].Jr?
      modifies this`pc, this`status, regs
      ensures Model() == Step(p, old(Model()))
    {
      match p[pc] {
        case Li(rt, value) => Write(rt, value);
        case Move(rd, rs) => var v := Read(rs); Write(rd, v);
        case Addi(rt, rs, imm) => var v := Read(rs); WriteChecked(rt, ToSigned(v) + imm);
        case Add(rd, rs, rt) => var v := Read(rs); var w := Read(rt); WriteChecked(rd, ToSigned(v) + ToSigned(w));
        case Addu(rd, rs, rt) => var v: int := Read(rs); var w: int := Read(rt); Write(rd, v + w);
        case Andi(rt, rs, mask) => var v := Read(rs); Write(rt, And(v, mask));
        case Srl(rd, rt, shift) => var v := Read(rt); Write(rd, v / Pow2(shift));
        case Slt(rd, rs, rt) =>
          var v := Read(rs);
          var w := Read(rt);
          Write(rd, if ToSigned(v) < ToSigned(w) then 1 else 0);
      }
    }

    /** Executes until the routine returns, traps or faults, for at most `budget` instructions. */
    method Execute(p: seq<Instr>, budget: nat)
      requires regs.Length == 32
      modifies this`pc, this`status, this`mem, regs
      ensures Model() == Run(p, old(Model()), budget)
    {
      var n := budget;
      while n > 0 && status.Running?
        invariant Run(p, Model(), n) == Run(p, old(Model()), budget)
      {
        Tick(p);
        n := n - 1;
      }
      if !status.Running? {
        StopsForGood(p, Model(), n);
      }
    }
  }
}
