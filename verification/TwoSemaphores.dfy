/**
 Parent and child of `exec_fd.c` read one file through a shared descriptor, taking turns by two
 semaphores: the child waits on A and posts B, the parent waits on B and posts A.
 */
module TwoSemaphores {

  /** Where a process is in its loop. */
  datatype Place = AtWait | AtRead | AtPost

  /** `rounds` completed passes of the loop, and the bytes read so far. */
  datatype Process = Process(place: Place, rounds: nat, got: seq<int>) {
    predicate Inside() { place != AtWait }
  }

  datatype State = State(semA: nat, semB: nat, child: Process, parent: Process, offset: nat)

  /** One step of the child or of the parent. */
  datatype Who = Child | Parent

  /** `n` is the cycle count of both loops. */
  predicate Enabled(s: State, n: nat, file: seq<int>, who: Who) {
    var p := if who.Child? then s.child else s.parent;
    match p.place
    case AtWait => p.rounds < n && (if who.Child? then s.semA else s.semB) > 0
    case AtRead => s.offset < |file|
    case AtPost => true
  }

  function Next(s: State, n: nat, file: seq<int>, who: Who): State
    requires Enabled(s, n, file, who)
  {
    var p := if who.Child? then s.child else s.parent;
    match p.place
    case AtWait =>
      if who.Child? then s.(semA := s.semA - 1, child := p.(place := AtRead))
      else s.(semB := s.semB - 1, parent := p.(place := AtRead))
    case AtRead =>
      var q := p.(place := AtPost, got := p.got + [file[s.offset]]);
      if who.Child? then s.(child := q, offset := s.offset + 1) else s.(parent := q, offset := s.offset + 1)
    case AtPost =>
      var q := p.(place := AtWait, rounds := p.rounds + 1);
      if who.Child? then s.(child := q, semB := s.semB + 1) else s.(parent := q, semA := s.semA + 1)
  }

  const START := State(1, 0, Process(AtWait, 0, []), Process(AtWait, 0, []), 0)

  predicate Finished(s: State, n: nat) {
    s.child.place == AtWait && s.child.rounds == n && s.parent.place == AtWait && s.parent.rounds == n
  }

  predicate Run(s0: State, n: nat, file: seq<int>, schedule: seq<Who>, s: State)
    decreases |schedule|
  {
    if schedule == [] then s == s0
    else Enabled(s0, n, file, schedule[0]) && Run(Next(s0, n, file, schedule[0]), n, file, schedule[1..], s)
  }

  function In(p: Process): nat {
    if p.Inside() then 1 else 0
  }

  function Reads(p: Process): nat {
    p.rounds + if p.place == AtPost then 1 else 0
  }

  /** Exactly one of: A is up, B is up, the child is inside, the parent is inside; the child is never
      behind and never more than one round ahead; each has the bytes of its own turns. */
  predicate Inv(s: State, n: nat, file: seq<int>) {
    && s.semA + s.semB + In(s.child) + In(s.parent) == 1
    && s.child.rounds <= n && s.parent.rounds <= n
    && (s.child.Inside() ==> s.child.rounds < n) && (s.parent.Inside() ==> s.parent.rounds < n)
    && s.child.rounds == s.parent.rounds + s.semB + In(s.parent)
    && s.offset == Reads(s.child) + Reads(s.parent) <= |file|
    && |s.child.got| == Reads(s.child) && |s.parent.got| == Reads(s.parent)
    && (forall k :: 0 <= k < |s.child.got| ==> 2 * k < |file| && s.child.got[k] == file[2 * k])
    && (forall k :: 0 <= k < |s.parent.got| ==> 2 * k + 1 < |file| && s.parent.got[k] == file[2 * k + 1])
  }

  function Done(p: Process): nat {
    3 * p.rounds + match p.place case AtWait => 0 case AtRead => 1 case AtPost => 2
  }

  /** Steps taken so far. */
  function Progress(s: State): nat {
    Done(s.child) + Done(s.parent)
  }

  lemma StepKeepsInv(s: State, n: nat, file: seq<int>, who: Who)
    requires Inv(s, n, file) && |file| >= 2 * n && Enabled(s, n, file, who)
    ensures Inv(Next(s, n, file, who), n, file)
    ensures Progress(Next(s, n, file, who)) == Progress(s) + 1
  {
  }

  /** Until both are through, exactly one of the two can take a step. */
  lemma OneCanMove(s: State, n: nat, file: seq<int>)
    requires Inv(s, n, file) && |file| >= 2 * n
    ensures Finished(s, n) <==> !Enabled(s, n, file, Child) && !Enabled(s, n, file, Parent)
    ensures !(Enabled(s, n, file, Child) && Enabled(s, n, file, Parent))
    ensures Finished(s, n) <==> Progress(s) == 6 * n
    ensures Progress(s) <= 6 * n
  {
  }

  lemma {:induction false} RunKeepsInv(s0: State, n: nat, file: seq<int>, schedule: seq<Who>, s: State)
    requires Inv(s0, n, file) && |file| >= 2 * n && Run(s0, n, file, schedule, s)
    ensures Inv(s, n, file) && Progress(s) == Progress(s0) + |schedule|
    decreases |schedule|
  {
    if schedule != [] {
      StepKeepsInv(s0, n, file, schedule[0]);
      RunKeepsInv(Next(s0, n, file, schedule[0]), n, file, schedule[1..], s);
    }
  }

  /** Under every schedule: the two semaphores and the process in its section always total one, the
      child has read the bytes at 0, 2, 4, ... and the parent those at 1, 3, 5, ...; no state before
      completion is stuck, no run is longer than 6n steps, and a complete run has made 2n reads. */
  lemma TurnsAlternate(n: nat, file: seq<int>, schedule: seq<Who>, s: State)
    requires |file| >= 2 * n && Run(START, n, file, schedule, s)
    ensures s.semA + s.semB + In(s.child) + In(s.parent) == 1
    ensures forall k :: 0 <= k < |s.child.got| ==> 2 * k < |file| && s.child.got[k] == file[2 * k]
    ensures forall k :: 0 <= k < |s.parent.got| ==> 2 * k + 1 < |file| && s.parent.got[k] == file[2 * k + 1]
    ensures |schedule| <= 6 * n
    ensures !Finished(s, n) ==> Enabled(s, n, file, Child) || Enabled(s, n, file, Parent)
    ensures Finished(s, n) <==> |schedule| == 6 * n
    ensures Finished(s, n) ==> s.offset == 2 * n && |s.child.got| == |s.parent.got| == n
  {
    RunKeepsInv(START, n, file, schedule, s);
    OneCanMove(s, n, file);
  }

  // ----- the two loops on their shared variables -----

  /** Whichever process moves, the invariant is kept and the end comes nearer. */
  lemma EitherMoves(s: State, n: nat, file: seq<int>)
    requires Inv(s, n, file) && |file| >= 2 * n
    ensures forall who :: Enabled(s, n, file, who) ==>
      Inv(Next(s, n, file, who), n, file) && Progress(Next(s, n, file, who)) == Progress(s) + 1
    ensures Finished(s, n) <==> !Enabled(s, n, file, Child) && !Enabled(s, n, file, Parent)
    ensures Progress(s) <= 6 * n && (Finished(s, n) <==> Progress(s) == 6 * n)
  {
    forall who | Enabled(s, n, file, who)
      ensures Inv(Next(s, n, file, who), n, file) && Progress(Next(s, n, file, who)) == Progress(s) + 1
    {
      StepKeepsInv(s, n, file, who);
    }
    OneCanMove(s, n, file);
  }

  /** Runs both loops to the end, interleaved in any way the semaphores allow; the guards below are
      exhaustive because the protocol cannot deadlock. */
  method ReadAlternately(n: nat, file: seq<int>) returns (childGot: seq<int>, parentGot: seq<int>, offset: nat)
    requires |file| >= 2 * n
    ensures offset == 2 * n && |childGot| == |parentGot| == n
    ensures forall k :: 0 <= k < n ==> childGot[k] == file[2 * k] && parentGot[k] == file[2 * k + 1]
  {
    var lockA, lockB, i, j := 1, 0, 0, 0;
    var childAt, parentAt := AtWait, AtWait;
    childGot, parentGot, offset := [], [], 0;
    while i < n || j < n
      invariant 0 <= lockA && 0 <= lockB && 0 <= i && 0 <= j
      invariant Inv(State(lockA, lockB, Process(childAt, i, childGot), Process(parentAt, j, parentGot), offset),
                    n, file)
      decreases 6 * n
        - Progress(State(lockA, lockB, Process(childAt, i, childGot), Process(parentAt, j, parentGot), offset))
    {
      ghost var s := State(lockA, lockB, Process(childAt, i, childGot), Process(parentAt, j, parentGot), offset);
      EitherMoves(s, n, file);
      if {
        case childAt == AtWait && i < n && lockA > 0 => lockA, childAt := lockA - 1, AtRead;
        case childAt == AtRead => childGot, offset, childAt := childGot + [file[offset]], offset + 1, AtPost;
        case childAt == AtPost => lockB, i, childAt := lockB + 1, i + 1, AtWait;
        case parentAt == AtWait && j < n && lockB > 0 => lockB, parentAt := lockB - 1, AtRead;
        case parentAt == AtRead => parentGot, offset, parentAt := parentGot + [file[offset]], offset + 1, AtPost;
        case parentAt == AtPost => lockA, j, parentAt := lockA + 1, j + 1, AtWait;
      }
    }
  }
}
