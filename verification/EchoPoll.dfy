/**
 The poll echo server (`s_poll.c`). Only the entries up to the last used one are polled, so the
 entries above keep the events of an earlier round; the count `poll` returned is what normally
 keeps the scan from looking at them.
 */
module EchoPoll {
  import opened EchoTable
  import opened Slots

  datatype Revents = Revents(pollin: bool, pollerr: bool, other: bool) {
    predicate Nonzero() { pollin || pollerr || other }
    predicate Serviced() { pollin || pollerr }
  }

  const NONE := Revents(false, false, false)

  /** `revents[0]` belongs to the listener, `revents[j + 1]` to table slot `j`. */
  datatype State = State(table: Table, revents: seq<Revents>) {
    predicate Valid() {
      0 < |table.fds| && |revents| == |table.fds| + 1
    }
  }

  /** Number of table slots that are polled: up to the last used one. */
  function Polled(fds: seq<int>): (n: nat)
    ensures n <= |fds| && (n > 0 ==> fds[n - 1] != -1)
    ensures forall j :: n <= j < |fds| ==> fds[j] == -1
  {
    if fds == [] then 0
    else if fds[|fds| - 1] != -1 then |fds|
    else Polled(fds[..|fds| - 1])
  }

  function CountNonzero(rs: seq<Revents>): (n: nat)
    ensures n <= |rs|
  {
    if rs == [] then 0
    else CountNonzero(rs[..|rs| - 1]) + if rs[|rs| - 1].Nonzero() then 1 else 0
  }

  /** What `poll` may report: one word for the listener and each polled slot, none for a free slot. */
  predicate Reportable(s: State, reported: seq<Revents>) {
    && |reported| == Polled(s.table.fds) + 1
    && forall j :: 0 <= j < Polled(s.table.fds) && s.table.fds[j] == -1 ==> reported[j + 1] == NONE
  }

  /** The scan over the slots from `j` on, with `count` events still to be found. */
  function Scan(s: State, j: nat, count: int, answers: seq<Answer>): (r: (State, seq<nat>, bool))
    requires s.Valid() && j <= |s.table.fds| == |answers|
    ensures r.0.Valid() && |r.0.table.fds| == |s.table.fds|
    ensures forall k :: k in r.1 ==> j <= k < |s.table.fds|
    decreases |s.table.fds| - j
  {
    if j == |s.table.fds| then (s, [], false)
    else if s.table.fds[j] == -1 || !s.revents[j + 1].Serviced() then Scan(s, j + 1, count, answers)
    else
      var (t, exited) := Serve(s.table, j, answers[j]);
      var s1 := s.(table := t);
      if exited || count - 1 == 0 then (s1, [j], exited)
      else
        var (u, served, x) := Scan(s1, j + 1, count - 1, answers);
        (u, [j] + served, x)
  }

  /** A scan that has served the slots `served` and goes on at slot `j` ends up with `goal`. */
  predicate Leads(s: State, j: nat, count: int, answers: seq<Answer>, served: seq<nat>, goal: (State, seq<nat>, bool))
    requires s.Valid() && j <= |s.table.fds| == |answers|
  {
    var rest := Scan(s, j, count, answers);
    goal == (rest.0, served + rest.1, rest.2)
  }

  lemma ScanSkips(s: State, j: nat, count: int, answers: seq<Answer>, served: seq<nat>, goal: (State, seq<nat>, bool))
    requires s.Valid() && j < |s.table.fds| == |answers|
    requires Leads(s, j, count, answers, served, goal) && (s.table.fds[j] == -1 || !s.revents[j + 1].Serviced())
    ensures Leads(s, j + 1, count, answers, served, goal)
  {
  }

  lemma ScanServes(s: State, j: nat, count: int, answers: seq<Answer>, served: seq<nat>, goal: (State, seq<nat>, bool))
    requires s.Valid() && j < |s.table.fds| == |answers|
    requires Leads(s, j, count, answers, served, goal) && s.table.fds[j] != -1 && s.revents[j + 1].Serviced()
    ensures var (t, exited) := Serve(s.table, j, answers[j]);
      var s1 := s.(table := t);
      if exited || count - 1 == 0 then goal == (s1, served + [j], exited)
      else Leads(s1, j + 1, count - 1, answers, served + [j], goal)
  {
    var (t, exited) := Serve(s.table, j, answers[j]);
    if !exited {
      var rest := Scan(s.(table := t), j + 1, count - 1, answers).1;
      assert served + ([j] + rest) == served + [j] + rest;
    }
  }

  /** The same, from the state that serving the slot has led to. */
  lemma ScanServedTo(s: State, j: nat, count: int, answers: seq<Answer>, served: seq<nat>,
                     goal: (State, seq<nat>, bool), t: State, exited: bool)
    requires s.Valid() && j < |s.table.fds| == |answers|
    requires Leads(s, j, count, answers, served, goal) && s.table.fds[j] != -1 && s.revents[j + 1].Serviced()
    requires (t.table, exited) == Serve(s.table, j, answers[j]) && t.revents == s.revents
    ensures t.Valid() && |t.table.fds| == |answers|
    ensures if exited || count - 1 == 0 then goal == (t, served + [j], exited)
            else Leads(t, j + 1, count - 1, answers, served + [j], goal)
  {
    ScanServes(s, j, count, answers, served, goal);
    assert t == s.(table := t.table);
  }

  /** One round in which `poll` reported `reported`; the slots served, and whether the process exits. */
  function Round(s: State, reported: seq<Revents>, incoming: Incoming, answers: seq<Answer>):
      (r: (State, seq<nat>, bool))
    requires s.Valid() && Reportable(s, reported) && |answers| == |s.table.fds|
    ensures r.0.Valid() && |r.0.table.fds| == |s.table.fds|
    ensures forall k :: k in r.1 ==> k < |s.table.fds|
  {
    var count := CountNonzero(reported);
    var s1 := s.(revents := reported + s.revents[|reported|..]);
    if count == 0 then (s1, [], false)
    else if !reported[0].pollin then Scan(s1, 0, count, answers)
    else
      match incoming
      case Interrupted => (s1, [], false)
      case AcceptFails => (s1, [], true)
      case Connection(fd, named) =>
        var (t, exited) := Admit(s1.table, fd, named);
        var s2 := s1.(table := t);
        if exited || count - 1 == 0 then (s2, [], exited) else Scan(s2, 0, count - 1, answers)
  }

  // ----- which clients a round serves -----

  /** The scan would serve slot `k`. */
  predicate Wanted(s: State, k: nat)
    requires s.Valid() && k < |s.table.fds|
  {
    s.table.fds[k] != -1 && s.revents[k + 1].Serviced()
  }

  /** The occupied slots from `j` on whose events call for service. */
  function Candidates(s: State, j: nat): seq<nat>
    requires s.Valid() && j <= |s.table.fds|
    decreases |s.table.fds| - j
  {
    if j == |s.table.fds| then []
    else (if Wanted(s, j) then [j] else []) + Candidates(s, j + 1)
  }

  lemma {:induction false} CandidatesAgree(s: State, t: State, j: nat)
    requires s.Valid() && t.Valid() && j <= |s.table.fds| == |t.table.fds|
    requires forall k :: j <= k < |s.table.fds| ==> (Wanted(s, k) <==> Wanted(t, k))
    ensures Candidates(s, j) == Candidates(t, j)
    decreases |s.table.fds| - j
  {
    if j < |s.table.fds| {
      CandidatesAgree(s, t, j + 1);
    }
  }

  lemma FirstOf(j: nat, c: seq<nat>, count: nat)
    requires 0 < count
    ensures (if count < |[j] + c| then ([j] + c)[..count] else [j] + c)
         == [j] + if count - 1 < |c| then c[..count - 1] else c
  {
    if count < |[j] + c| {
      assert ([j] + c)[..count] == [j] + c[..count - 1];
    }
  }

  /** The scan serves the candidates in order, as many as the count allows. */
  lemma {:induction false} ScanServesCandidates(s: State, j: nat, count: nat, answers: seq<Answer>)
    requires s.Valid() && j <= |s.table.fds| == |answers| && 0 < count
    requires !Scan(s, j, count, answers).2
    ensures var c := Candidates(s, j);
      Scan(s, j, count, answers).1 == if count < |c| then c[..count] else c
    decreases |s.table.fds| - j
  {
    if j < |s.table.fds| {
      if s.table.fds[j] == -1 || !s.revents[j + 1].Serviced() {
        ScanServesCandidates(s, j + 1, count, answers);
        assert Candidates(s, j) == Candidates(s, j + 1);
      } else {
        ScanServesFirst(s, j, count, answers);
      }
    }
  }

  lemma ScanNext(s: State, j: nat, count: nat, answers: seq<Answer>)
    requires s.Valid() && j < |s.table.fds| == |answers| && 0 < count && Wanted(s, j)
    requires !Scan(s, j, count, answers).2
    ensures var s1 := s.(table := Serve(s.table, j, answers[j]).0);
      if count == 1 then Scan(s, j, count, answers).1 == [j]
      else !Scan(s1, j + 1, count - 1, answers).2
           && Scan(s, j, count, answers).1 == [j] + Scan(s1, j + 1, count - 1, answers).1
  {
  }

  /** ... the first of them first. */
  lemma {:induction false} ScanServesFirst(s: State, j: nat, count: nat, answers: seq<Answer>)
    requires s.Valid() && j < |s.table.fds| == |answers| && 0 < count && Wanted(s, j)
    requires !Scan(s, j, count, answers).2
    ensures var c := Candidates(s, j);
      Scan(s, j, count, answers).1 == if count < |c| then c[..count] else c
    decreases |s.table.fds| - j, 0
  {
    var s1, c := s.(table := Serve(s.table, j, answers[j]).0), Candidates(s, j + 1);
    ScanNext(s, j, count, answers);
    CandidatesAgree(s, s1, j + 1);
    assert Candidates(s, j) == [j] + c;
    FirstOf(j, c, count);
    if count > 1 {
      ScanServesCandidates(s1, j + 1, count - 1, answers);
    } else {
      assert c[..0] == [] && [j] + [] == [j];
    }
  }

  /** The clients `poll` reported for service, in slot order. */
  function ReportedFrom(reported: seq<Revents>, j: nat): seq<nat>
    requires j + 1 <= |reported|
    decreases |reported| - j
  {
    if j + 1 == |reported| then []
    else (if reported[j + 1].Serviced() then [j] else []) + ReportedFrom(reported, j + 1)
  }

  /** The list is increasing, and has the clients with POLLIN or POLLERR, each once. */
  lemma {:induction false} ReportedAre(reported: seq<Revents>, j: nat)
    requires j + 1 <= |reported|
    ensures forall k: nat :: k in ReportedFrom(reported, j) <==>
      j <= k && k + 1 < |reported| && (reported[k + 1].pollin || reported[k + 1].pollerr)
    ensures Increasing(ReportedFrom(reported, j))
    decreases |reported| - j
  {
    if j + 1 < |reported| {
      ReportedAre(reported, j + 1);
      IncreasingFrom(j, ReportedFrom(reported, j + 1));
    }
  }

  /** Events in the count that no step of the round takes out of it. */
  function Unconsumed(reported: seq<Revents>): int
    requires reported != []
  {
    CountNonzero(reported) - |ReportedFrom(reported, 0)| - if reported[0].pollin then 1 else 0
  }

  function UnservicedFrom(reported: seq<Revents>, j: nat): nat
    requires j <= |reported|
    decreases |reported| - j
  {
    if j == |reported| then 0
    else (if reported[j].Nonzero() && !reported[j].Serviced() then 1 else 0) + UnservicedFrom(reported, j + 1)
  }

  lemma {:induction false} CountSplit(reported: seq<Revents>, j: nat)
    requires j + 1 <= |reported|
    ensures CountNonzero(reported)
         == CountNonzero(reported[..j + 1]) + |ReportedFrom(reported, j)| + UnservicedFrom(reported, j + 1)
    decreases |reported| - j
  {
    if j + 1 == |reported| {
      assert reported[..j + 1] == reported;
    } else {
      CountSplit(reported, j + 1);
      assert reported[..j + 2][..j + 1] == reported[..j + 1];
    }
  }

  /** Nothing is left unconsumed exactly when every client event, and the listener's, calls for service. */
  lemma {:induction false} UnconsumedWhen(reported: seq<Revents>)
    requires reported != []
    ensures Unconsumed(reported) >= 0
    ensures Unconsumed(reported) == 0 <==>
      (reported[0].Nonzero() ==> reported[0].pollin)
      && forall j :: 1 <= j < |reported| && reported[j].Nonzero() ==> reported[j].Serviced()
  {
    CountSplit(reported, 0);
    UnservicedZero(reported, 1);
    assert reported[..1] == [reported[0]];
    assert [reported[0]][..0] == [];
  }

  lemma {:induction false} UnservicedZero(reported: seq<Revents>, j: nat)
    requires j <= |reported|
    ensures UnservicedFrom(reported, j) == 0 <==>
      forall k :: j <= k < |reported| && reported[k].Nonzero() ==> reported[k].Serviced()
    decreases |reported| - j
  {
    if j < |reported| {
      UnservicedZero(reported, j + 1);
    }
  }

  /** The slot a new connection takes in a round, if it lies just above the polled ones and holds
      an old event that calls for service. */
  predicate TakesStaleSlot(s: State, reported: seq<Revents>, incoming: Incoming)
    requires s.Valid()
  {
    var k := Polled(s.table.fds);
    reported != [] && reported[0].pollin && incoming.Connection? && FirstFree(s.table.fds) == k
    && k < |s.table.fds| && s.revents[k + 1].Serviced()
  }

  /** What the scan will find: the reported clients, and after them a new one in a stale slot. */
  lemma {:induction false} CandidatesAreReported(s: State, reported: seq<Revents>, s2: State, stale: bool, j: nat)
    requires s.Valid() && s2.Valid() && Reportable(s, reported) && |s2.table.fds| == |s.table.fds|
    requires s2.revents == reported + s.revents[|reported|..]
    requires j <= Polled(s.table.fds)
    requires forall k :: 0 <= k < |s.table.fds| && s.table.fds[k] != -1 ==> s2.table.fds[k] == s.table.fds[k]
    requires forall k :: Polled(s.table.fds) <= k < |s.table.fds| ==>
      (Wanted(s2, k) <==> stale && k == Polled(s.table.fds))
    requires stale ==> Polled(s.table.fds) < |s.table.fds|
    ensures Candidates(s2, j) == ReportedFrom(reported, j) + if stale then [Polled(s.table.fds)] else []
    decreases Polled(s.table.fds) - j
  {
    var n := Polled(s.table.fds);
    if j < n {
      CandidatesAreReported(s, reported, s2, stale, j + 1);
    } else {
      if n < |s.table.fds| {
        NoCandidatesFrom(s2, n + 1);
      }
    }
  }

  lemma {:induction false} NoCandidatesFrom(s: State, j: nat)
    requires s.Valid() && j <= |s.table.fds|
    requires forall k :: j <= k < |s.table.fds| ==> !Wanted(s, k)
    ensures Candidates(s, j) == []
    decreases |s.table.fds| - j
  {
    if j < |s.table.fds| {
      NoCandidatesFrom(s, j + 1);
    }
  }

  /** Above the polled slots, only a new client in a stale slot looks as if it were ready. */
  lemma AdmittedCandidates(s: State, reported: seq<Revents>, incoming: Incoming, s2: State)
    requires s.Valid() && Reportable(s, reported) && reported[0].pollin
    requires incoming.Connection? && incoming.fd >= 0
    requires !Admit(s.table, incoming.fd, incoming.named).1
    requires s2 == State(Admit(s.table, incoming.fd, incoming.named).0, reported + s.revents[|reported|..])
    ensures s2.Valid() && |s2.table.fds| == |s.table.fds|
    ensures forall k :: 0 <= k < |s.table.fds| && s.table.fds[k] != -1 ==> s2.table.fds[k] == s.table.fds[k]
    ensures forall k :: Polled(s.table.fds) <= k < |s.table.fds| ==>
      (Wanted(s2, k) <==> TakesStaleSlot(s, reported, incoming) && k == Polled(s.table.fds))
  {
    var n := Polled(s.table.fds);
    assert n < |s.table.fds| ==> s.table.fds[n] == -1 && FirstFree(s.table.fds) <= n;
    forall k | n <= k < |s.table.fds|
      ensures Wanted(s2, k) <==> TakesStaleSlot(s, reported, incoming) && k == n
    {
      assert s2.revents[k + 1] == s.revents[k + 1];
    }
  }

  lemma TakeOneMore(r: seq<nat>, extra: seq<nat>, c: nat)
    requires |r| <= c && |extra| <= 1
    ensures (if c < |r + extra| then (r + extra)[..c] else r + extra) == r + if c > |r| then extra else []
  {
    assert (r + extra)[..|r|] == r;
    assert extra == [] ==> r + extra == r;
    assert r + [] == r;
  }

  lemma AcceptingRoundServes(s: State, reported: seq<Revents>, incoming: Incoming, answers: seq<Answer>)
    requires s.Valid() && Reportable(s, reported) && |answers| == |s.table.fds|
    requires reported[0].pollin && incoming.Connection? && incoming.fd >= 0 && CountNonzero(reported) > 0
    requires !Round(s, reported, incoming, answers).2
    ensures Round(s, reported, incoming, answers).1 == ReportedFrom(reported, 0)
      + if Unconsumed(reported) > 0 && TakesStaleSlot(s, reported, incoming) then [Polled(s.table.fds)] else []
  {
    UnconsumedWhen(reported);
    var count, stale := CountNonzero(reported), TakesStaleSlot(s, reported, incoming);
    var s2 := State(Admit(s.table, incoming.fd, incoming.named).0, reported + s.revents[|reported|..]);
    var r, extra := ReportedFrom(reported, 0), if stale then [Polled(s.table.fds)] else [];
    AdmittedCandidates(s, reported, incoming, s2);
    CandidatesAreReported(s, reported, s2, stale, 0);
    TakeOneMore(r, extra, count - 1);
    if count > 1 {
      assert Round(s, reported, incoming, answers) == Scan(s2, 0, count - 1, answers);
      ScanServesCandidates(s2, 0, count - 1, answers);
    }
  }

  /** A round whose accept is not interrupted and that does not exit serves exactly the clients
      `poll` reported, plus one more precisely when an event stays unconsumed and the new client
      took the stale slot above the polled ones. */
  lemma RoundServes(s: State, reported: seq<Revents>, incoming: Incoming, answers: seq<Answer>)
    requires s.Valid() && Reportable(s, reported) && |answers| == |s.table.fds|
    requires reported[0].pollin ==> incoming.Connection? && incoming.fd >= 0
    requires !Round(s, reported, incoming, answers).2
    ensures Round(s, reported, incoming, answers).1 == ReportedFrom(reported, 0)
      + if Unconsumed(reported) > 0 && TakesStaleSlot(s, reported, incoming) then [Polled(s.table.fds)] else []
  {
    UnconsumedWhen(reported);
    var count, r := CountNonzero(reported), ReportedFrom(reported, 0);
    assert r + [] == r;
    if count > 0 {
      if reported[0].pollin {
        AcceptingRoundServes(s, reported, incoming, answers);
      } else {
        var s1 := s.(revents := reported + s.revents[|reported|..]);
        CandidatesAreReported(s, reported, s1, false, 0);
        ScanServesCandidates(s1, 0, count, answers);
      }
    }
  }

  /** So when every reported client event calls for service, the served are exactly the reported, whatever
      old events sit in the slots above the polled ones. */
  lemma RoundServesReported(s: State, reported: seq<Revents>, incoming: Incoming, answers: seq<Answer>)
    requires s.Valid() && Reportable(s, reported) && |answers| == |s.table.fds|
    requires reported[0].pollin ==> incoming.Connection? && incoming.fd >= 0
    requires !Round(s, reported, incoming, answers).2
    ensures Round(s, reported, incoming, answers).1 == ReportedFrom(reported, 0) <==>
      !(Unconsumed(reported) > 0 && TakesStaleSlot(s, reported, incoming))
    ensures (forall j :: 1 <= j < |reported| && reported[j].Nonzero() ==> reported[j].pollin || reported[j].pollerr)
      ==> Round(s, reported, incoming, answers).1 == ReportedFrom(reported, 0)
  {
    RoundServes(s, reported, incoming, answers);
    UnconsumedWhen(reported);
    var r := ReportedFrom(reported, 0);
    assert |r + [Polled(s.table.fds)]| != |r|;
  }

  /** `poll` has overwritten the events of the entries it was given; those above keep theirs, whatever the
      round does. An interrupted `accept` leaves it at that: the clients reported with it wait for the next
      round. */
  lemma RoundLeavesEvents(s: State, reported: seq<Revents>, incoming: Incoming, answers: seq<Answer>)
    requires s.Valid() && Reportable(s, reported) && |answers| == |s.table.fds|
    ensures Round(s, reported, incoming, answers).0.revents == reported + s.revents[|reported|..]
    ensures reported[0].pollin && incoming.Interrupted? ==>
      Round(s, reported, incoming, answers) == (s.(revents := reported + s.revents[|reported|..]), [], false)
  {
    var s1 := s.(revents := reported + s.revents[|reported|..]);
    ScanKeepsEvents(s1, 0, CountNonzero(reported), answers);
    if incoming.Connection? {
      var s2 := s1.(table := Admit(s1.table, incoming.fd, incoming.named).0);
      ScanKeepsEvents(s2, 0, CountNonzero(reported) - 1, answers);
    }
  }

  lemma {:induction false} ScanKeepsEvents(s: State, j: nat, count: int, answers: seq<Answer>)
    requires s.Valid() && j <= |s.table.fds| == |answers|
    ensures Scan(s, j, count, answers).0.revents == s.revents
    decreases |s.table.fds| - j
  {
    if j < |s.table.fds| {
      ScanKeepsEvents(s, j + 1, count, answers);
      ScanKeepsEvents(s.(table := Serve(s.table, j, answers[j]).0), j + 1, count - 1, answers);
    }
  }

  // ----- when the process exits -----

  /** As many slots of the list as the count allows. */
  function Counted(slots: seq<nat>, count: nat): seq<nat> {
    if count < |slots| then slots[..count] else slots
  }

  /** The scan exits exactly when one of the clients it comes to has no name. */
  lemma {:induction false} ScanExits(s: State, j: nat, count: nat, answers: seq<Answer>)
    requires s.Valid() && j <= |s.table.fds| == |answers| && 0 < count
    ensures Scan(s, j, count, answers).2 <==> Nameless(Counted(Candidates(s, j), count), answers)
    decreases |s.table.fds| - j
  {
    if j < |s.table.fds| {
      if s.table.fds[j] == -1 || !s.revents[j + 1].Serviced() {
        ScanExits(s, j + 1, count, answers);
        assert Candidates(s, j) == Candidates(s, j + 1);
      } else {
        ScanExitsAt(s, j, count, answers);
      }
    }
  }

  lemma ScanExitsNext(s: State, j: nat, count: nat, answers: seq<Answer>)
    requires s.Valid() && j < |s.table.fds| == |answers| && 0 < count && Wanted(s, j)
    ensures var s1 := s.(table := Serve(s.table, j, answers[j]).0);
      Scan(s, j, count, answers).2 ==
        (answers[j].NoPeerName? || (count > 1 && Scan(s1, j + 1, count - 1, answers).2))
  {
  }

  lemma CountedFirst(j: nat, c: seq<nat>, count: nat)
    requires 0 < count
    ensures Counted([j] + c, count) == [j] + Counted(c, count - 1)
  {
    FirstOf(j, c, count);
  }

  /** ... at a client that calls for service. */
  lemma {:induction false} ScanExitsAt(s: State, j: nat, count: nat, answers: seq<Answer>)
    requires s.Valid() && j < |s.table.fds| == |answers| && 0 < count && Wanted(s, j)
    ensures Scan(s, j, count, answers).2 <==> Nameless(Counted(Candidates(s, j), count), answers)
    decreases |s.table.fds| - j, 0
  {
    var s1, c := s.(table := Serve(s.table, j, answers[j]).0), Candidates(s, j + 1);
    ScanExitsNext(s, j, count, answers);
    CandidatesAgree(s, s1, j + 1);
    assert Candidates(s, j) == [j] + c;
    CountedFirst(j, c, count);
    NamelessFirst(j, Counted(c, count - 1), answers);
    if count > 1 {
      ScanExits(s1, j + 1, count - 1, answers);
    }
  }

  /** It has then served them up to the first of these. */
  lemma {:induction false} ExitingScanServes(s: State, j: nat, count: nat, answers: seq<Answer>)
    requires s.Valid() && j <= |s.table.fds| == |answers| && 0 < count && Scan(s, j, count, answers).2
    ensures var served := Scan(s, j, count, answers).1;
      served <= Candidates(s, j) && |served| <= count && OnlyLastNameless(served, answers)
    decreases |s.table.fds| - j
  {
    if s.table.fds[j] == -1 || !s.revents[j + 1].Serviced() {
      ExitingScanServes(s, j + 1, count, answers);
    } else if answers[j].NoPeerName? {
      assert [j][..0] == [];
    } else {
      var s1 := s.(table := Serve(s.table, j, answers[j]).0);
      var rest := Scan(s1, j + 1, count - 1, answers).1;
      CandidatesAgree(s, s1, j + 1);
      ExitingScanServes(s1, j + 1, count - 1, answers);
      OnlyLastAfter(j, rest, answers);
      PrefixBehind(j, rest, Candidates(s, j + 1));
    }
  }

  /** The listener's part of a round ends the process: `accept` fails, or a slot is free for a peer without
      a name. */
  predicate AcceptExits(s: State, reported: seq<Revents>, incoming: Incoming)
    requires reported != []
  {
    reported[0].pollin
    && (incoming.AcceptFails? || (incoming.Connection? && !incoming.named && -1 in s.table.fds))
  }

  /** The clients a round comes to, if nothing ends the process before. */
  function ToServe(s: State, reported: seq<Revents>, incoming: Incoming): seq<nat>
    requires s.Valid() && Reportable(s, reported)
  {
    ReportedFrom(reported, 0)
    + if Unconsumed(reported) > 0 && TakesStaleSlot(s, reported, incoming) then [Polled(s.table.fds)] else []
  }

  lemma AcceptingRoundComesTo(s: State, reported: seq<Revents>, incoming: Incoming, s2: State)
    requires s.Valid() && Reportable(s, reported)
    requires reported[0].pollin && incoming.Connection? && incoming.fd >= 0 && CountNonzero(reported) > 0
    requires !Admit(s.table, incoming.fd, incoming.named).1
    requires s2 == State(Admit(s.table, incoming.fd, incoming.named).0, reported + s.revents[|reported|..])
    ensures s2.Valid() && |s2.table.fds| == |s.table.fds|
    ensures Counted(Candidates(s2, 0), CountNonzero(reported) - 1) == ToServe(s, reported, incoming)
  {
    UnconsumedWhen(reported);
    var count, stale := CountNonzero(reported), TakesStaleSlot(s, reported, incoming);
    AdmittedCandidates(s, reported, incoming, s2);
    CandidatesAreReported(s, reported, s2, stale, 0);
    TakeOneMore(ReportedFrom(reported, 0), if stale then [Polled(s.table.fds)] else [], count - 1);
  }

  lemma AcceptingRoundExits(s: State, reported: seq<Revents>, incoming: Incoming, answers: seq<Answer>)
    requires s.Valid() && Reportable(s, reported) && |answers| == |s.table.fds|
    requires reported[0].pollin && incoming.Connection? && incoming.fd >= 0 && CountNonzero(reported) > 0
    requires !Admit(s.table, incoming.fd, incoming.named).1
    ensures Round(s, reported, incoming, answers).2 <==> Nameless(ToServe(s, reported, incoming), answers)
  {
    var left := CountNonzero(reported) - 1;
    var s2 := State(Admit(s.table, incoming.fd, incoming.named).0, reported + s.revents[|reported|..]);
    AcceptingRoundComesTo(s, reported, incoming, s2);
    assert Round(s, reported, incoming, answers).2 == (left != 0 && Scan(s2, 0, left, answers).2);
    if left > 0 {
      ScanExits(s2, 0, left, answers);
    }
  }

  /** A round ends the process exactly then, or when `accept` was not interrupted and one of the clients it
      comes to has no name. */
  lemma RoundExits(s: State, reported: seq<Revents>, incoming: Incoming, answers: seq<Answer>)
    requires s.Valid() && Reportable(s, reported) && |answers| == |s.table.fds|
    requires incoming.Connection? ==> incoming.fd >= 0
    ensures Round(s, reported, incoming, answers).2 <==>
      AcceptExits(s, reported, incoming)
      || (!(reported[0].pollin && incoming.Interrupted?) && Nameless(ToServe(s, reported, incoming), answers))
  {
    UnconsumedWhen(reported);
    var count, r := CountNonzero(reported), ReportedFrom(reported, 0);
    if reported[0].pollin {
      CountPositive(reported, 0);
      if incoming.Connection? && !Admit(s.table, incoming.fd, incoming.named).1 {
        AcceptingRoundExits(s, reported, incoming, answers);
      }
    } else {
      assert r + [] == r;
      if count > 0 {
        var s1 := s.(revents := reported + s.revents[|reported|..]);
        CandidatesAreReported(s, reported, s1, false, 0);
        ScanExits(s1, 0, count, answers);
      }
    }
  }

  // ----- refinement of the abstract server -----

  lemma {:induction false} ScanRefines(s: State, j: nat, count: int, answers: seq<Answer>)
    requires s.Valid() && j <= |s.table.fds| == |answers| && EchoTable.Inv(s.table)
    requires !Scan(s, j, count, answers).2
    ensures var (u, served, _) := Scan(s, j, count, answers);
      EchoTable.Inv(u.table)
      && u.table.open == AbstractRun(s.table.open, ServeOps(s.table.fds, served, answers), |s.table.fds|)
    decreases |s.table.fds| - j
  {
    if j < |s.table.fds| {
      if s.table.fds[j] == -1 || !s.revents[j + 1].Serviced() {
        ScanRefines(s, j + 1, count, answers);
      } else {
        var s1 := s.(table := Serve(s.table, j, answers[j]).0);
        ServeRefines(s.table, j, answers[j]);
        if count - 1 == 0 {
          assert [j][1..] == [];
        } else {
          ScanRefines(s1, j + 1, count - 1, answers);
          var rest := Scan(s1, j + 1, count - 1, answers).1;
          assert ([j] + rest)[1..] == rest;
          ServeOpsAgree(s.table.fds, s1.table.fds, rest, answers);
        }
      }
    }
  }

  /** What a round does to the set of clients. */
  function RoundOps(s: State, reported: seq<Revents>, incoming: Incoming, answers: seq<Answer>): seq<Op>
    requires s.Valid() && Reportable(s, reported) && |answers| == |s.table.fds|
  {
    var served := Round(s, reported, incoming, answers).1;
    if reported[0].pollin && incoming.Connection? then
      [Connect(incoming.fd)] + ServeOps(Admit(s.table, incoming.fd, incoming.named).0.fds, served, answers)
    else ServeOps(s.table.fds, served, answers)
  }

  lemma AcceptingRoundRefines(s: State, reported: seq<Revents>, incoming: Incoming, answers: seq<Answer>)
    requires s.Valid() && Reportable(s, reported) && |answers| == |s.table.fds| && EchoTable.Inv(s.table)
    requires reported[0].pollin && incoming.Connection? && incoming.fd >= 0 && incoming.fd !in s.table.open
    requires !Round(s, reported, incoming, answers).2
    ensures var u := Round(s, reported, incoming, answers).0;
      EchoTable.Inv(u.table)
      && u.table.open == AbstractRun(s.table.open, RoundOps(s, reported, incoming, answers), |s.table.fds|)
  {
    CountPositive(reported, 0);
    AdmitRefines(s.table, incoming.fd, incoming.named);
    AcceptingRound(s, reported, incoming, answers, CountNonzero(reported) - 1);
    var s2 := State(Admit(s.table, incoming.fd, incoming.named).0, reported + s.revents[|reported|..]);
    ConnectThenScan(s.table.open, incoming.fd, s2, CountNonzero(reported) - 1, answers);
  }

  /** A round that accepts is the placing of the new connection, and a scan if events are left. */
  lemma AcceptingRound(s: State, reported: seq<Revents>, incoming: Incoming, answers: seq<Answer>, left: int)
    requires s.Valid() && Reportable(s, reported) && |answers| == |s.table.fds|
    requires reported[0].pollin && incoming.Connection? && left == CountNonzero(reported) - 1 >= 0
    requires !Round(s, reported, incoming, answers).2
    ensures var s2 := State(Admit(s.table, incoming.fd, incoming.named).0, reported + s.revents[|reported|..]);
      s2.Valid() && |s2.table.fds| == |s.table.fds| && !Admit(s.table, incoming.fd, incoming.named).1
      && Round(s, reported, incoming, answers) == ScanIfLeft(s2, left, answers)
  {
  }

  function ScanIfLeft(s: State, left: int, answers: seq<Answer>): (r: (State, seq<nat>, bool))
    requires s.Valid() && |s.table.fds| == |answers|
    ensures forall k :: k in r.1 ==> k < |s.table.fds|
  {
    if left == 0 then (s, [], false) else Scan(s, 0, left, answers)
  }

  lemma ConnectThenScan(clients: set<int>, fd: int, s: State, left: int, answers: seq<Answer>)
    requires s.Valid() && |s.table.fds| == |answers| && EchoTable.Inv(s.table)
    requires s.table.open == AbstractStep(clients, Connect(fd), |s.table.fds|)
    requires !ScanIfLeft(s, left, answers).2
    ensures var (u, served, _) := ScanIfLeft(s, left, answers);
      EchoTable.Inv(u.table)
      && u.table.open == AbstractRun(clients, [Connect(fd)] + ServeOps(s.table.fds, served, answers), |s.table.fds|)
  {
    ConnectFirst(clients, fd, ServeOps(s.table.fds, ScanIfLeft(s, left, answers).1, answers), |s.table.fds|);
    if left != 0 {
      ScanRefines(s, 0, left, answers);
    }
  }

  lemma ConnectFirst(clients: set<int>, fd: int, ops: seq<Op>, capacity: nat)
    ensures AbstractRun(clients, [Connect(fd)] + ops, capacity)
         == AbstractRun(AbstractStep(clients, Connect(fd), capacity), ops, capacity)
  {
    assert ([Connect(fd)] + ops)[1..] == ops;
  }

  /** A round that does not exit keeps the table equal to the open descriptors and is a run of the
      abstract server: one connect for the accepted connection, then one step for each client served. */
  lemma RoundRefines(s: State, reported: seq<Revents>, incoming: Incoming, answers: seq<Answer>)
    requires s.Valid() && Reportable(s, reported) && |answers| == |s.table.fds| && EchoTable.Inv(s.table)
    requires incoming.Connection? ==> incoming.fd >= 0 && incoming.fd !in s.table.open
    requires !Round(s, reported, incoming, answers).2
    ensures var u := Round(s, reported, incoming, answers).0;
      EchoTable.Inv(u.table)
      && u.table.open == AbstractRun(s.table.open, RoundOps(s, reported, incoming, answers), |s.table.fds|)
  {
    var count := CountNonzero(reported);
    var s1 := s.(revents := reported + s.revents[|reported|..]);
    if reported[0].pollin && incoming.Connection? {
      AcceptingRoundRefines(s, reported, incoming, answers);
    } else if count > 0 && !reported[0].pollin {
      ScanRefines(s1, 0, count, answers);
    }
  }

  // ----- any number of rounds -----

  datatype Input = Input(reported: seq<Revents>, incoming: Incoming, answers: seq<Answer>)

  /** What `poll` and `accept` may do in a round. */
  predicate CanRound(s: State, r: Input) {
    && s.Valid() && Reportable(s, r.reported) && |r.answers| == |s.table.fds|
    && (r.incoming.Connection? ==> r.incoming.fd >= 0 && r.incoming.fd !in s.table.open)
  }

  function RoundOf(s: State, r: Input): (State, seq<nat>, bool)
    requires CanRound(s, r)
  {
    Round(s, r.reported, r.incoming, r.answers)
  }

  /** Round after round, none of them the last, leads from `s0` to `s`. */
  predicate Rounds(s0: State, rs: seq<Input>, s: State)
    decreases |rs|
  {
    if rs == [] then s == s0
    else CanRound(s0, rs[0]) && !RoundOf(s0, rs[0]).2 && Rounds(RoundOf(s0, rs[0]).0, rs[1..], s)
  }

  /** The connects, echoes and closes of those rounds, in order. */
  function RoundsOps(s: State, rs: seq<Input>): seq<Op>
    decreases |rs|
  {
    if rs == [] || !CanRound(s, rs[0]) then []
    else RoundOps(s, rs[0].reported, rs[0].incoming, rs[0].answers) + RoundsOps(RoundOf(s, rs[0]).0, rs[1..])
  }

  lemma {:induction false} RoundsRefine(s0: State, rs: seq<Input>, s: State)
    requires s0.Valid() && EchoTable.Inv(s0.table) && Rounds(s0, rs, s)
    ensures s.Valid() && |s.table.fds| == |s0.table.fds| && EchoTable.Inv(s.table)
    ensures s.table.open == AbstractRun(s0.table.open, RoundsOps(s0, rs), |s0.table.fds|)
    decreases |rs|
  {
    if rs != [] {
      var r, s1 := rs[0], RoundOf(s0, rs[0]).0;
      RoundRefines(s0, r.reported, r.incoming, r.answers);
      RoundsRefine(s1, rs[1..], s);
      var ops := RoundOps(s0, r.reported, r.incoming, r.answers);
      AbstractRunAppend(s0.table.open, ops, RoundsOps(s1, rs[1..]), |s0.table.fds|);
    }
  }

  /** However many rounds the server has run since it started, its table holds exactly the descriptors it
      has open, and they are the clients of the abstract server after the same connects and closes. */
  lemma ServerRefines(s0: State, rs: seq<Input>, s: State)
    requires s0.Valid() && s0.table.open == {} && (forall j :: 0 <= j < |s0.table.fds| ==> s0.table.fds[j] == -1)
    requires Rounds(s0, rs, s)
    ensures EchoTable.Inv(s.table)
    ensures s.table.open == AbstractRun({}, RoundsOps(s0, rs), |s0.table.fds|)
  {
    assert Entries(s0.table.fds) == {};
    RoundsRefine(s0, rs, s);
  }

  // ----- a run that serves a client nothing was reported for -----

  const IN := Revents(true, false, false)
  const HANGUP := Revents(false, false, true)

  /** A table whose first two slots hold `x` and `y`, all others being free. */
  function TwoSlots(capacity: nat, x: int, y: int): (fds: seq<int>)
    requires 2 <= capacity
    ensures |fds| == capacity && fds[0] == x && fds[1] == y && forall j :: 2 <= j < capacity ==> fds[j] == -1
  {
    [x, y] + seq(capacity - 2, _ => -1)
  }

  function Start(capacity: nat): State {
    State(Table(seq(capacity, _ => -1), {}), seq(capacity + 1, _ => NONE))
  }

  /** The input of a round: all clients the round serves have gone. */
  function RoundInput(reported: seq<Revents>, incoming: Incoming, capacity: nat): Input {
    Input(reported, incoming, seq(capacity, _ => PeerGone))
  }

  lemma CountOf(rs: seq<Revents>, last: Revents)
    ensures CountNonzero(rs + [last]) == CountNonzero(rs) + if last.Nonzero() then 1 else 0
  {
    assert (rs + [last])[..|rs|] == rs;
  }

  lemma Counts()
    ensures CountNonzero([IN]) == 1 && CountNonzero([IN, NONE]) == 1
    ensures CountNonzero([NONE, NONE, IN]) == 1 && CountNonzero([IN, HANGUP]) == 2
  {
    CountOf([], IN);
    CountOf([IN], NONE);
    CountOf([], NONE);
    CountOf([NONE], NONE);
    CountOf([NONE, NONE], IN);
    CountOf([IN], HANGUP);
    assert [] + [IN] == [IN] && [IN] + [NONE] == [IN, NONE] && [] + [NONE] == [NONE] && [NONE] + [NONE] == [NONE, NONE];
    assert [NONE, NONE] + [IN] == [NONE, NONE, IN] && [IN] + [HANGUP] == [IN, HANGUP];
  }

  /** A round with a new connection for slot 0 or 1 and no other event. */
  lemma ConnectRound(s: State, x: int, fd: int, capacity: nat)
    requires 2 <= capacity && s.Valid() && fd >= 0 && x >= -1 && fd !in s.table.open
    requires s.table.fds == TwoSlots(capacity, x, -1)
    ensures var reported := if x == -1 then [IN] else [IN, NONE];
      var r := RoundInput(reported, Connection(fd, true), capacity);
      CanRound(s, r)
      && RoundOf(s, r) == (State(Table(if x == -1 then TwoSlots(capacity, fd, -1) else TwoSlots(capacity, x, fd),
                                       s.table.open + {fd}), reported + s.revents[|reported|..]), [], false)
  {
    Counts();
    var fds := s.table.fds;
    assert FirstFree(fds) == if x == -1 then 0 else 1 by {
      FirstFreeOf(fds);
    }
    assert Polled(fds) == if x == -1 then 0 else 1;
    assert x == -1 ==> fds[0 := fd] == TwoSlots(capacity, fd, -1);
    assert x != -1 ==> fds[1 := fd] == TwoSlots(capacity, x, fd);
  }

  lemma FirstFreeOf(fds: seq<int>)
    requires |fds| >= 2 && fds[1] == -1
    ensures FirstFree(fds) == if fds[0] == -1 then 0 else 1
  {
  }

  /** The client in slot 1 has closed, and goes. */
  lemma GoneRound(s: State, x: int, y: int, capacity: nat)
    requires 2 <= capacity && s.Valid() && x >= 0 && y >= 0
    requires s.table.fds == TwoSlots(capacity, x, y)
    ensures var r := RoundInput([NONE, NONE, IN], Interrupted, capacity);
      CanRound(s, r)
      && RoundOf(s, r) == (State(Table(TwoSlots(capacity, x, -1), s.table.open - {y}),
                                 [NONE, NONE, IN] + s.revents[3..]), [1], false)
  {
    Counts();
    assert Polled(s.table.fds) == 2;
    var r := RoundInput([NONE, NONE, IN], Interrupted, capacity);
    var s1 := s.(revents := [NONE, NONE, IN] + s.revents[3..]);
    assert s.table.fds[1 := -1] == TwoSlots(capacity, x, -1);
    assert Scan(s1, 0, 1, r.answers) == Scan(s1, 1, 1, r.answers);
  }

  /** The client in slot 0 hangs up without POLLIN while another one takes slot 1. */
  lemma StaleRound(s: State, x: int, fd: int, capacity: nat)
    requires 2 <= capacity && s.Valid() && x >= 0 && fd >= 0 && fd !in s.table.open
    requires s.table.fds == TwoSlots(capacity, x, -1) && s.revents[2] == IN
    ensures var r := RoundInput([IN, HANGUP], Connection(fd, true), capacity);
      CanRound(s, r) && !RoundOf(s, r).2 && ReportedFrom(r.reported, 0) == [] && RoundOf(s, r).1 == [1]
  {
    Counts();
    FirstFreeOf(s.table.fds);
    assert Polled(s.table.fds) == 1;
    var r := RoundInput([IN, HANGUP], Connection(fd, true), capacity);
    var s2 := State(Admit(s.table, fd, true).0, r.reported + s.revents[2..]);
    assert ReportedFrom(r.reported, 1) == [];
    assert RoundOf(s, r) == Scan(s2, 0, 1, r.answers) == Scan(s2, 1, 1, r.answers);
  }

  /** From the start, whatever the size of the table: two clients connect, the second one closes, then a
      third connects in the same round in which the first is reported with an event other than POLLIN and
      POLLERR. `poll` has reported nothing for the third, which is served all the same. */
  lemma UnreportedIsServed(capacity: nat, x: int, y: int, z: int) returns (rs: seq<Input>, s: State, r: Input)
    requires 2 <= capacity && x >= 0 && y >= 0 && z >= 0 && x != y && x != z && y != z
    ensures Start(capacity).Valid() && Rounds(Start(capacity), rs, s) && CanRound(s, r) && !RoundOf(s, r).2
    ensures r.reported == [IN, HANGUP] && r.incoming == Connection(z, true) && FirstFree(s.table.fds) == 1
    ensures ReportedFrom(r.reported, 0) == [] && RoundOf(s, r).1 == [1]
  {
    var s0 := Start(capacity);
    assert s0.table.fds == TwoSlots(capacity, -1, -1);
    var r1 := RoundInput([IN], Connection(x, true), capacity);
    var r2 := RoundInput([IN, NONE], Connection(y, true), capacity);
    var r3 := RoundInput([NONE, NONE, IN], Interrupted, capacity);
    ConnectRound(s0, -1, x, capacity);
    var s1 := RoundOf(s0, r1).0;
    ConnectRound(s1, x, y, capacity);
    var s2 := RoundOf(s1, r2).0;
    GoneRound(s2, x, y, capacity);
    s, r := RoundOf(s2, r3).0, RoundInput([IN, HANGUP], Connection(z, true), capacity);
    StaleRound(s, x, z, capacity);
    FirstFreeOf(s.table.fds);
    ThreeRounds(s0, r1, s1, r2, s2, r3, s);
    rs := [r1, r2, r3];
  }

  lemma ThreeRounds(s0: State, r1: Input, s1: State, r2: Input, s2: State, r3: Input, s: State)
    requires CanRound(s0, r1) && !RoundOf(s0, r1).2 && s1 == RoundOf(s0, r1).0
    requires CanRound(s1, r2) && !RoundOf(s1, r2).2 && s2 == RoundOf(s1, r2).0
    requires CanRound(s2, r3) && !RoundOf(s2, r3).2 && s == RoundOf(s2, r3).0
    ensures Rounds(s0, [r1, r2, r3], s)
  {
    assert [r1, r2, r3][1..] == [r2, r3] && [r2, r3][1..] == [r3] && [r3][1..] == [];
    assert Rounds(s2, [r3], s);
    assert Rounds(s1, [r2, r3], s);
  }

  lemma {:induction false} CountPositive(rs: seq<Revents>, j: nat)
    requires j < |rs| && rs[j].Nonzero()
    ensures CountNonzero(rs) > 0
    decreases |rs|
  {
    if j < |rs| - 1 {
      CountPositive(rs[..|rs| - 1], j);
    }
  }

  // ----- the loop on its arrays -----

  class PollServer {
    var fds: array<int>             // fds[0] is the listener
    var revents: array<Revents>
    var open: set<int>

    ghost predicate Valid()
      reads this
    {
      1 < fds.Length == revents.Length
    }

    ghost function Model(): (s: State)
      reads this, fds, revents
      requires Valid()
      ensures s.Valid()
    {
      State(Table(fds[1..], open), revents[..])
    }

    constructor (listener: int, slots: nat)
      requires 1 < slots
      ensures Valid() && fresh(fds) && fresh(revents) && fds.Length == slots
      ensures EchoTable.Inv(Model().table) && Model().table.open == {} && fds[0] == listener
    {
      fds := new int[slots](k => if k == 0 then listener else -1);
      revents := new Revents[slots](_ => NONE);
      open := {};
      new;
      assert forall j :: 0 <= j < slots - 1 ==> fds[1..][j] == -1;
    }

    /** The highest used entry; 0 when there is no client. */
    method HighestUsed() returns (max: nat)
      requires Valid()
      ensures max == Polled(fds[1..])
    {
      max := 0;
      var i := 1;
      while i < fds.Length
        invariant 1 <= i <= fds.Length && max < i
        invariant max > 0 ==> fds[max] != -1
        invariant forall j :: max < j < i ==> fds[j] == -1
      {
        if fds[i] != -1 { max := i; }
        i := i + 1;
      }
      ghost var t, n := fds[1..], Polled(fds[1..]);
      assert n > 0 ==> t[n - 1] == fds[n] != -1;
      assert max > 0 ==> t[max - 1] == fds[max] != -1;
    }

    /** The first free entry takes the connection; without one it is closed. */
    method AcceptClient(fd: int, named: bool) returns (exited: bool)
      requires Valid()
      modifies this`open, fds
      ensures Valid() && (Model().table, exited) == Admit(old(Model().table), fd, named)
    {
      var i := 1;
      while i < fds.Length
        invariant 1 <= i <= fds.Length
        invariant forall j :: 1 <= j < i ==> fds[j] != -1
        invariant fds[..] == old(fds[..]) && open == old(open)
      {
        ghost var t := old(fds[1..]);
        assert t == fds[1..];
        if fds[i] == -1 {
          assert t[i - 1] == -1 && FirstFree(t) == i - 1;
          if !named { return true; }
          fds[i] := fd;
          open := open + {fd};
          assert fds[1..] == t[i - 1 := fd];
          return false;
        }
        i := i + 1;
      }
      assert fds[1..] == old(fds[1..]);
      assert forall j :: 0 <= j < |fds[1..]| ==> fds[1..][j] == fds[j + 1];
      return false;
    }

    method ServeClient(i: nat, a: Answer) returns (exited: bool)
      requires Valid() && 1 <= i < fds.Length
      modifies this`open, fds
      ensures Valid() && (Model().table, exited) == Serve(old(Model().table), i - 1, a)
    {
      exited := a.NoPeerName?;
      if a.PeerGone? || a.SocketError? {
        open := open - {fds[i]};
        fds[i] := -1;
        assert fds[1..] == old(fds[1..])[i - 1 := -1];
      }
    }

    method ScanClients(events: int, answers: seq<Answer>) returns (served: seq<nat>, exited: bool)
      requires Valid() && |answers| == fds.Length - 1
      modifies this`open, fds
      ensures Valid() && (Model(), served, exited) == Scan(old(Model()), 0, events, answers)
    {
      var count, i := events, 1;
      served, exited := [], false;
      ghost var goal := Scan(Model(), 0, events, answers);
      assert served + goal.1 == goal.1;
      while i < fds.Length
        invariant Valid() && 1 <= i <= fds.Length && !exited && |answers| == fds.Length - 1
        invariant Leads(Model(), i - 1, count, answers, served, goal)
      {
        ghost var s := Model();
        if fds[i] != -1 && revents[i].Serviced() {
          exited := ServeClient(i, answers[i - 1]);
          ScanServedTo(s, i - 1, count, answers, served, goal, Model(), exited);
          served := served + [i - 1];
          if exited { return; }
          count := count - 1;
          if count == 0 { return; }
        } else {
          ScanSkips(s, i - 1, count, answers, served, goal);
        }
        i := i + 1;
      }
      assert served + [] == served;
    }

    /** One round of the loop after `poll` has reported on the entries up to the highest used. */
    method PollRound(reported: seq<Revents>, incoming: Incoming, answers: seq<Answer>)
        returns (served: seq<nat>, exited: bool)
      requires Valid() && Reportable(Model(), reported) && |answers| == fds.Length - 1
      modifies this`open, fds, revents
      ensures Valid()
      ensures (Model(), served, exited) == Round(old(Model()), reported, incoming, answers)
    {
      served, exited := [], false;
      var max := HighestUsed();
      WriteEvents(reported, max);
      var count := CountNonzero(reported);
      if count == 0 { return; }
      if revents[0].pollin {
        match incoming {
          case Interrupted => return;
          case AcceptFails => exited := true; return;
          case Connection(fd, named) =>
            exited := AcceptClient(fd, named);
            if exited { return; }
        }
        count := count - 1;
        if count == 0 { return; }
      }
      served, exited := ScanClients(count, answers);
    }

    /** What `poll` itself does to the array: it writes the first `max + 1` events. */
    method WriteEvents(reported: seq<Revents>, max: nat)
      requires Valid() && max < fds.Length && |reported| == max + 1
      modifies revents
      ensures revents[..] == reported + old(revents[..])[|reported|..]
    {
      forall k | 0 <= k <= max {
        revents[k] := reported[k];
      }
    }
  }
}
