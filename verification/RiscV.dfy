/**
 The RISC-V routines `sum` and `sum2` (`asm/riscv32/t/test1.s`) on an instruction-level machine:
 32-bit registers with x0 fixed to zero, wrap-around addition, the low half of products, unsigned
 branches (sections 2.4, 2.5 and 7.1 of the RISC-V Unprivileged ISA, 20191213).
 */
module RiscV {
  import opened MachineWords

  type Regs = r: seq<u32> | |r| == 32 witness seq(32, _ => 0)

  // register numbers of the ABI names
  const T0: nat := 5
  const T1: nat := 6
  const T2: nat := 7
  const A0: nat := 10

  /** Branch offsets count instructions. `Ret` leaves the routine. */
  datatype Instr =
    | Addi(rd: nat, rs: nat, imm: int)
    | Add(rd: nat, rs1: nat, rs2: nat)
    | Mul(rd: nat, rs1: nat, rs2: nat)
    | Bgeu(rs1: nat, rs2: nat, offset: int)
    | Ret
  {
    predicate Valid() {
      match this
      case Addi(rd, rs, _) => rd < 32 && rs < 32
      case Add(rd, a, b) => rd < 32 && a < 32 && b < 32
      case Mul(rd, a, b) => rd < 32 && a < 32 && b < 32
      case Bgeu(a, b, _) => a < 32 && b < 32
      case Ret => true
    }
  }

  datatype Status = Running | Returned | Faulted
  datatype State = State(regs: Regs, pc: int, status: Status)

  function Put(r: Regs, rd: nat, v: int): Regs
    requires rd < 32
  {
    if rd == 0 then r else r[rd := Wrap(v)]
  }

  function Get(r: Regs, rs: nat): u32
    requires rs < 32
  {
    if rs == 0 then 0 else r[rs]
  }

  function Step(p: seq<Instr>, s: State): State {
    if !s.status.Running? then s
    else if !(0 <= s.pc < |p|) || !p[s.pc].Valid() then s.(status := Faulted)
    else
      match p[s.pc]
      case Addi(rd, rs, imm) => s.(regs := Put(s.regs, rd, Get(s.regs, rs) + imm), pc := s.pc + 1)
      case Add(rd, a, b) => s.(regs := Put(s.regs, rd, Get(s.regs, a) + Get(s.regs, b)), pc := s.pc + 1)
      case Mul(rd, a, b) => s.(regs := Put(s.regs, rd, Get(s.regs, a) * Get(s.regs, b)), pc := s.pc + 1)
      case Bgeu(a, b, offset) => s.(pc := if Get(s.regs, a) >= Get(s.regs, b) then s.pc + offset else s.pc + 1)
      case Ret => s.(status := Returned)
  }

  function Run(p: seq<Instr>, s: State, n: nat): State
    decreases n
  {
    if n == 0 then s else Run(p, Step(p, s), n - 1)
  }

  lemma {:induction false} RunAppend(p: seq<Instr>, s: State, m: nat, n: nat)
    ensures Run(p, s, m + n) == Run(p, Run(p, s, m), n)
    decreases m
  {
    if m > 0 {
      RunAppend(p, Step(p, s), m - 1, n);
    }
  }

  lemma {:induction false} StopsForGood(p: seq<Instr>, s: State, n: nat)
    requires !s.status.Running?
    ensures Run(p, s, n) == s
    decreases n
  {
    if n > 0 {
      StopsForGood(p, s, n - 1);
    }
  }

  /** A machine that runs after `m` instructions ran after any fewer. */
  lemma RanBefore(p: seq<Instr>, s: State, n: nat, m: nat)
    requires n <= m && Run(p, s, m).status.Running?
    ensures Run(p, s, n).status.Running?
  {
    RunAppend(p, s, n, m - n);
    if !Run(p, s, n).status.Running? {
      StopsForGood(p, Run(p, s, n), m - n);
    }
  }

  // ----- the programs -----

  // Loading a constant and copying a register are additions here: to the zero register, and of zero.

  const SUM: seq<Instr> := [
    Addi(T0, 0, 0),
    Addi(T1, 0, 0),
    Add(T1, T1, T0),
    Addi(T0, T0, 1),
    Bgeu(A0, T0, -2),
    Addi(A0, T1, 0),
    Ret]

  const SUM2: seq<Instr> := [
    Addi(T0, 0, 0),
    Addi(T1, 0, 0),
    Mul(T2, T0, T0),
    Add(T1, T1, T2),
    Addi(T0, T0, 1),
    Bgeu(A0, T0, -3),
    Addi(A0, T1, 0),
    Ret]

  /** A call with the given registers. */
  function Call(r: Regs): State {
    State(r, 0, Running)
  }

  // ----- what they compute -----

  function SumTo(n: nat): nat {
    if n == 0 then 0 else SumTo(n - 1) + n
  }

  function SquaresTo(n: nat): nat {
    if n == 0 then 0 else SquaresTo(n - 1) + n * n
  }

  lemma {:induction false} SumClosedForm(n: nat)
    ensures 2 * SumTo(n) == n * (n + 1)
  {
    if n > 0 {
      SumClosedForm(n - 1);
    }
  }

  lemma {:induction false} SquaresClosedForm(n: nat)
    ensures 6 * SquaresTo(n) == n * (n + 1) * (2 * n + 1)
  {
    if n > 0 {
      SquaresClosedForm(n - 1);
      CubicStep(n);
    }
  }

  lemma CubicStep(n: int)
    ensures (n - 1) * n * (2 * (n - 1) + 1) + 6 * (n * n) == n * (n + 1) * (2 * n + 1)
  {
    calc {
      (n - 1) * n * (2 * (n - 1) + 1) + 6 * (n * n);
      n * ((n - 1) * (2 * n - 1)) + n * (6 * n);
      n * ((n - 1) * (2 * n - 1) + 6 * n);
      n * ((n + 1) * (2 * n + 1));
      n * (n + 1) * (2 * n + 1);
    }
  }

  lemma WrapAdd(a: int, b: int)
    ensures Wrap(Wrap(a) + b) == Wrap(a + b)
  {
  }

  // ----- sum -----

  /** At L1 with counter `i` and the sum of the numbers below `i`. */
  function SumHead(r: Regs, i: u32, acc: int): State {
    State(r[T0 := i][T1 := Wrap(acc)], 2, Running)
  }

  lemma SumEnters(r: Regs)
    ensures Run(SUM, Call(r), 2) == SumHead(r, 0, 0)
  {
    var s1 := Step(SUM, Call(r));
    assert s1 == State(r[T0 := 0], 1, Running);
    assert Step(SUM, s1) == SumHead(r, 0, 0);
    assert Run(SUM, s1, 1) == Run(SUM, Step(SUM, s1), 0);
  }

  lemma SumIterates(r: Regs, i: u32, acc: int)
    ensures Run(SUM, SumHead(r, i, acc), 3)
         == SumHead(r, Wrap(i + 1), acc + i).(pc := if r[A0] >= Wrap(i + 1) then 2 else 5)
  {
    var s0 := SumHead(r, i, acc);
    var s1 := Step(SUM, s0);
    WrapAdd(acc, i);
    assert s1 == State(r[T0 := i][T1 := Wrap(acc + i)], 3, Running);
    var s2 := Step(SUM, s1);
    assert s2 == State(r[T0 := Wrap(i + 1)][T1 := Wrap(acc + i)], 4, Running);
    var s3 := Step(SUM, s2);
    assert Run(SUM, s2, 1) == Run(SUM, s3, 0);
    assert Run(SUM, s1, 2) == Run(SUM, s2, 1);
  }

  lemma SumLeaves(s: State)
    requires s.pc == 5 && s.status.Running?
    ensures Run(SUM, s, 2) == State(s.regs[A0 := s.regs[T1]], 6, Returned)
    ensures Run(SUM, s, 1).status.Running?
  {
    var s1 := Step(SUM, s);
    assert s1 == State(s.regs[A0 := s.regs[T1]], 6, Running);
    assert Run(SUM, s1, 1) == Run(SUM, Step(SUM, s1), 0);
    assert Run(SUM, s, 1) == Run(SUM, s1, 0);
  }

  lemma {:induction false} SumLoops(r: Regs, n: nat, i: nat, acc: int)
    requires i <= n == r[A0] < TWO_32 - 1
    requires acc == if i == 0 then 0 else SumTo(i - 1)
    ensures Run(SUM, SumHead(r, i, acc), 3 * (n - i + 1)) == SumHead(r, n + 1, SumTo(n)).(pc := 5)
    decreases n - i
  {
    SumIterates(r, i, acc);
    assert acc + i == SumTo(i) && Wrap(i + 1) == i + 1;
    if i < n {
      SumLoops(r, n, i + 1, acc + i);
      RunAppend(SUM, SumHead(r, i, acc), 3, 3 * (n - i));
    } else {
      assert 3 * (n - i + 1) == 3;
    }
  }

  /** `sum` returns 0 + 1 + ... + n modulo 2^32 for every n below 2^32 - 1, after exactly 3n + 7
      instructions, and changes no register but a0, t0 and t1. */
  lemma SumReturnsTheSum(r: Regs, n: nat)
    requires n == r[A0] < TWO_32 - 1
    ensures var t := Run(SUM, Call(r), 3 * n + 7);
      t.status.Returned? && Run(SUM, Call(r), 3 * n + 6).status.Running?
      && t.regs[A0] == Wrap(n * (n + 1) / 2)
      && forall k :: 0 <= k < 32 && k !in {A0, T0, T1} ==> t.regs[k] == r[k]
  {
    var s := SumHead(r, n + 1, SumTo(n)).(pc := 5);
    SumEnters(r);
    SumLoops(r, n, 0, 0);
    RunAppend(SUM, Call(r), 2, 3 * (n + 1));
    SumLeaves(s);
    RunAppend(SUM, Call(r), 2 + 3 * (n + 1), 2);
    RunAppend(SUM, Call(r), 2 + 3 * (n + 1), 1);
    SumClosedForm(n);
  }

  lemma {:induction false} SumCirclesFrom(r: Regs, i: u32, acc: int, n: nat)
    requires r[A0] == TWO_32 - 1
    ensures Run(SUM, SumHead(r, i, acc), n).status.Running?
    decreases n
  {
    SumIterates(r, i, acc);
    if n < 3 {
      RanBefore(SUM, SumHead(r, i, acc), n, 3);
    } else {
      SumCirclesFrom(r, Wrap(i + 1), acc + i, n - 3);
      RunAppend(SUM, SumHead(r, i, acc), 3, n - 3);
    }
  }

  /** The one argument `sum` never returns from is 2^32 - 1: the counter wraps before passing it. */
  lemma SumHaltsExactlyBelowTheTop(r: Regs)
    ensures (exists n: nat :: !Run(SUM, Call(r), n).status.Running?) <==> r[A0] != TWO_32 - 1
  {
    if r[A0] == TWO_32 - 1 {
      forall n: nat
        ensures Run(SUM, Call(r), n).status.Running?
      {
        SumEnters(r);
        SumCirclesFrom(r, 0, 0, n);
        RunAppend(SUM, Call(r), 2, n);
        RanBefore(SUM, Call(r), n, 2 + n);
      }
    } else {
      var n: nat := r[A0];
      SumReturnsTheSum(r, n);
      assert !Run(SUM, Call(r), 3 * n + 7).status.Running?;
    }
  }

  /** The expression the C test compares with, `n * (n + 1) / 2` in 32-bit arithmetic, is that sum
      exactly when bit 32 of the full product is clear. */
  lemma TestExpressionAgrees(n: nat)
    ensures Wrap(n * (n + 1)) / 2 == Wrap(n * (n + 1) / 2) <==> n * (n + 1) / TWO_32 % 2 == 0
  {
    SumClosedForm(n);
    HalfOfWrapped(n * (n + 1));
  }

  lemma HalfOfWrapped(p: int)
    requires p % 2 == 0
    ensures Wrap(p) / 2 == Wrap(p / 2) <==> p / TWO_32 % 2 == 0
  {
  }

  // ----- sum2 -----

  /** At L2 with counter `i`, the squares below `i` summed, and whatever is left in t2. */
  function Sum2Head(r: Regs, i: u32, acc: int): State {
    State(r[T0 := i][T1 := Wrap(acc)], 2, Running)
  }

  lemma Sum2Enters(r: Regs)
    ensures Run(SUM2, Call(r), 2) == Sum2Head(r, 0, 0)
  {
    var s1 := Step(SUM2, Call(r));
    assert s1 == State(r[T0 := 0], 1, Running);
    assert Step(SUM2, s1) == Sum2Head(r, 0, 0);
    assert Run(SUM2, s1, 1) == Run(SUM2, Step(SUM2, s1), 0);
  }

  lemma Sum2Iterates(r: Regs, i: nat, acc: int, square: int)
    requires i < TWO_32 && square == i * i
    ensures Run(SUM2, Sum2Head(r, i, acc), 4)
         == Sum2Head(r[T2 := Wrap(square)], Wrap(i + 1), acc + square).(pc := if r[A0] >= Wrap(i + 1) then 2 else 6)
  {
    var s0 := Sum2Head(r, i, acc);
    var q: Regs := r[T2 := Wrap(square)];
    var s1 := Step(SUM2, s0);
    assert s1 == State(q[T0 := i][T1 := Wrap(acc)], 3, Running);
    var s2 := Step(SUM2, s1);
    WrapAdd(acc, square);
    WrapAdd(square, Wrap(acc));
    assert s2 == State(q[T0 := i][T1 := Wrap(acc + square)], 4, Running);
    var s3 := Step(SUM2, s2);
    assert s3 == State(q[T0 := Wrap(i + 1)][T1 := Wrap(acc + square)], 5, Running);
    var s4 := Step(SUM2, s3);
    assert Run(SUM2, s3, 1) == Run(SUM2, s4, 0);
    assert Run(SUM2, s2, 2) == Run(SUM2, s3, 1);
    assert Run(SUM2, s1, 3) == Run(SUM2, s2, 2);
  }

  lemma Sum2Leaves(s: State)
    requires s.pc == 6 && s.status.Running?
    ensures Run(SUM2, s, 2) == State(s.regs[A0 := s.regs[T1]], 7, Returned)
    ensures Run(SUM2, s, 1).status.Running?
  {
    var s1 := Step(SUM2, s);
    assert s1 == State(s.regs[A0 := s.regs[T1]], 7, Running);
    assert Run(SUM2, s1, 1) == Run(SUM2, Step(SUM2, s1), 0);
    assert Run(SUM2, s, 1) == Run(SUM2, s1, 0);
  }

  /** From L2 with counter `i` the loop ends with all squares up to `n` summed, and `last` in t2. */
  predicate Sum2Finishes(r: Regs, n: nat, i: nat, acc: int, last: u32)
    requires i <= n < TWO_32 - 1
  {
    Run(SUM2, Sum2Head(r, i, acc), 4 * (n - i + 1)) == Sum2Head(r[T2 := last], n + 1, SquaresTo(n)).(pc := 6)
  }

  lemma Sum2LastPass(r: Regs, n: nat, acc: int)
    requires n == r[A0] < TWO_32 - 1 && acc + n * n == SquaresTo(n)
    ensures Sum2Finishes(r, n, n, acc, Wrap(n * n))
  {
    Sum2Iterates(r, n, acc, n * n);
  }

  lemma Sum2GoesOn(r: Regs, n: nat, i: nat, acc: int, square: int, last: u32)
    requires i < n < TWO_32 - 1
    requires Run(SUM2, Sum2Head(r, i, acc), 4) == Sum2Head(r[T2 := Wrap(square)], i + 1, acc + square)
    requires Sum2Finishes(r[T2 := Wrap(square)], n, i + 1, acc + square, last)
    ensures Sum2Finishes(r, n, i, acc, last)
  {
    assert r[T2 := Wrap(square)][T2 := last] == r[T2 := last];
    RunAppend(SUM2, Sum2Head(r, i, acc), 4, 4 * (n - i));
  }

  lemma {:induction false} Sum2Loops(r: Regs, n: nat, i: nat, acc: int) returns (last: u32)
    requires i <= n == r[A0] < TWO_32 - 1
    requires acc == if i == 0 then 0 else SquaresTo(i - 1)
    ensures Sum2Finishes(r, n, i, acc, last)
    decreases n - i
  {
    var square := i * i;
    assert acc + square == SquaresTo(i);
    Sum2Iterates(r, i, acc, square);
    assert Wrap(i + 1) == i + 1;
    if i < n {
      last := Sum2Loops(r[T2 := Wrap(square)], n, i + 1, acc + square);
      Sum2GoesOn(r, n, i, acc, square, last);
    } else {
      last := Wrap(square);
      Sum2LastPass(r, n, acc);
    }
  }

  /** `sum2` returns 0 + 1 + 4 + ... + n^2 modulo 2^32 for every n below 2^32 - 1, after exactly
      4n + 8 instructions, and changes no register but a0, t0, t1 and t2. */
  lemma Sum2ReturnsTheSum(r: Regs, n: nat)
    requires n == r[A0] < TWO_32 - 1
    ensures var t := Run(SUM2, Call(r), 4 * n + 8);
      t.status.Returned? && Run(SUM2, Call(r), 4 * n + 7).status.Running?
      && t.regs[A0] == Wrap(n * (n + 1) * (2 * n + 1) / 6)
      && forall k :: 0 <= k < 32 && k !in {A0, T0, T1, T2} ==> t.regs[k] == r[k]
  {
    Sum2Enters(r);
    var last := Sum2Loops(r, n, 0, 0);
    var s := Sum2Head(r[T2 := last], n + 1, SquaresTo(n)).(pc := 6);
    RunAppend(SUM2, Call(r), 2, 4 * (n + 1));
    Sum2Leaves(s);
    RunAppend(SUM2, Call(r), 2 + 4 * (n + 1), 2);
    RunAppend(SUM2, Call(r), 2 + 4 * (n + 1), 1);
    SquaresClosedForm(n);
    assert n * (n + 1) * (2 * n + 1) / 6 == SquaresTo(n);
  }

  lemma {:induction false} Sum2CirclesFrom(r: Regs, i: u32, acc: int, n: nat)
    requires r[A0] == TWO_32 - 1
    ensures Run(SUM2, Sum2Head(r, i, acc), n).status.Running?
    decreases n
  {
    var square: int := (i as int) * (i as int);
    Sum2Iterates(r, i, acc, square);
    if n < 4 {
      RanBefore(SUM2, Sum2Head(r, i, acc), n, 4);
    } else {
      Sum2CirclesFrom(r[T2 := Wrap(square)], Wrap(i + 1), acc + square, n - 4);
      RunAppend(SUM2, Sum2Head(r, i, acc), 4, n - 4);
    }
  }

  /** Likewise `sum2` returns for every argument but 2^32 - 1. */
  lemma Sum2HaltsExactlyBelowTheTop(r: Regs)
    ensures (exists n: nat :: !Run(SUM2, Call(r), n).status.Running?) <==> r[A0] != TWO_32 - 1
  {
    if r[A0] == TWO_32 - 1 {
      forall n: nat
        ensures Run(SUM2, Call(r), n).status.Running?
      {
        Sum2Enters(r);
        Sum2CirclesFrom(r, 0, 0, n);
        RunAppend(SUM2, Call(r), 2, n);
        RanBefore(SUM2, Call(r), n, 2 + n);
      }
    } else {
      var n: nat := r[A0];
      Sum2ReturnsTheSum(r, n);
      assert !Run(SUM2, Call(r), 4 * n + 8).status.Running?;
    }
  }

  // ----- the machine on its registers -----

  class Hart {
    var regs: array<u32>
    var pc: int
    var status: Status

    ghost function Model(): State
      reads this, regs
      requires regs.Length == 32
    {
      State(regs[..], pc, status)
    }

    constructor (r: Regs)
      ensures fresh(regs) && regs.Length == 32 && Model() == Call(r)
    {
      regs := new u32[32](k requires 0 <= k < 32 => r[k]);
      pc, status := 0, Running;
      new;
      assert regs[..] == r;
    }

    method Write(rd: nat, v: int)
      requires regs.Length == 32 && rd < 32
      modifies regs
      ensures regs[..] == Put(old(regs[..]), rd, v)
    {
      if rd != 0 {
        regs[rd] := Wrap(v);
        assert regs[..] == old(regs[..])[rd := Wrap(v)];
      }
    }

    method Read(rs: nat) returns (v: u32)
      requires regs.Length == 32 && rs < 32
      ensures v == Get(regs[..], rs)
    {
      v := if rs == 0 then 0 else regs[rs];
    }

    /** Executes one instruction. */
    method Tick(p: seq<Instr>)
      requires regs.Length == 32
      modifies this`pc, this`status, regs
      ensures Model() == Step(p, old(Model()))
    {
      if !status.Running? { return; }
      if !(0 <= pc < |p|) || !p[pc].Valid() { status := Faulted; return; }
      match p[pc] {
        case Addi(rd, rs, imm) => var v := Read(rs); Write(rd, v + imm); pc := pc + 1;
        case Add(rd, a, b) => var v: int := Read(a); var w: int := Read(b); Write(rd, v + w); pc := pc + 1;
        case Mul(rd, a, b) => var v: int := Read(a); var w: int := Read(b); Write(rd, v * w); pc := pc + 1;
        case Bgeu(a, b, offset) => var v := Read(a); var w := Read(b); pc := if v >= w then pc + offset else pc + 1;
        case Ret => status := Returned;
      }
    }

    /** Executes until the routine returns, for at most `budget` instructions. */
    method Execute(p: seq<Instr>, budget: nat)
      requires regs.Length == 32
      modifies this`pc, this`status, regs
      ensures Model() == Run(p, old(Model()), budget)
    {
      var n := budget;
      while n > 0 && status.Running?
        invariant Run(p, Model(), n) == Run(p, old(Model()), budget)
      {
        Tick(p);
        n := n - 1;
      }
      if !status.Running? {
        StopsForGood(p, Model(), n);
      }
    }
  }
}
