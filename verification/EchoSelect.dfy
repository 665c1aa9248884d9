/**
 The select echo server (`s_select.c`): the set of watched descriptors is rebuilt from the table in
 every round, so nothing of an earlier round can be served again.
 */
module EchoSelect {
  import opened EchoTable
  import opened Slots

  /** The scan over the slots from `j` on; `ready` is the descriptor set `select` left. */
  function Scan(t: Table, j: nat, ready: set<int>, answers: seq<Answer>): (r: (Table, seq<nat>, bool))
    requires j <= |t.fds| == |answers|
    ensures |r.0.fds| == |t.fds|
    ensures forall k :: k in r.1 ==> j <= k < |t.fds|
    decreases |t.fds| - j
  {
    if j == |t.fds| then (t, [], false)
    else if t.fds[j] == -1 || t.fds[j] !in ready then Scan(t, j + 1, ready, answers)
    else
      var (t1, exited) := Serve(t, j, answers[j]);
      if exited then (t1, [j], true)
      else
        var (u, served, x) := Scan(t1, j + 1, ready, answers);
        (u, [j] + served, x)
  }

  /** A scan that has served the slots `served` and goes on at slot `j` ends up with `goal`. */
  predicate Leads(t: Table, j: nat, ready: set<int>, answers: seq<Answer>, served: seq<nat>,
                  goal: (Table, seq<nat>, bool))
    requires j <= |t.fds| == |answers|
  {
    var rest := Scan(t, j, ready, answers);
    goal == (rest.0, served + rest.1, rest.2)
  }

  lemma ScanSkips(t: Table, j: nat, ready: set<int>, answers: seq<Answer>, served: seq<nat>,
                  goal: (Table, seq<nat>, bool))
    requires j < |t.fds| == |answers|
    requires Leads(t, j, ready, answers, served, goal) && (t.fds[j] == -1 || t.fds[j] !in ready)
    ensures Leads(t, j + 1, ready, answers, served, goal)
  {
  }

  lemma ScanServes(t: Table, j: nat, ready: set<int>, answers: seq<Answer>, served: seq<nat>,
                   goal: (Table, seq<nat>, bool))
    requires j < |t.fds| == |answers|
    requires Leads(t, j, ready, answers, served, goal) && t.fds[j] != -1 && t.fds[j] in ready
    ensures var (t1, exited) := Serve(t, j, answers[j]);
      if exited then goal == (t1, served + [j], true) else Leads(t1, j + 1, ready, answers, served + [j], goal)
  {
    var (t1, exited) := Serve(t, j, answers[j]);
    if !exited {
      var rest := Scan(t1, j + 1, ready, answers).1;
      assert served + ([j] + rest) == served + [j] + rest;
    }
  }

  /** One round after `select` reported descriptors; the slots served, and whether the process exits. */
  function Round(t: Table, listener: int, ready: set<int>, incoming: Incoming, answers: seq<Answer>):
      (r: (Table, seq<nat>, bool))
    requires |answers| == |t.fds|
    ensures |r.0.fds| == |t.fds|
    ensures forall k :: k in r.1 ==> k < |t.fds|
  {
    if listener !in ready then Scan(t, 0, ready, answers)
    else
      match incoming
      case Interrupted => (t, [], false)
      case AcceptFails => (t, [], true)
      case Connection(fd, named) =>
        var (t1, exited) := Admit(t, fd, named);
        if exited then (t1, [], true) else Scan(t1, 0, ready, answers)
  }

  /** The slots from `j` on whose descriptor was reported. */
  function ReadyFrom(fds: seq<int>, ready: set<int>, j: nat): seq<nat>
    requires j <= |fds|
    decreases |fds| - j
  {
    if j == |fds| then []
    else (if fds[j] != -1 && fds[j] in ready then [j] else []) + ReadyFrom(fds, ready, j + 1)
  }

  lemma {:induction false} ReadyMembers(fds: seq<int>, ready: set<int>, j: nat)
    requires j <= |fds|
    ensures forall k: nat :: k in ReadyFrom(fds, ready, j) <==> j <= k < |fds| && fds[k] != -1 && fds[k] in ready
    decreases |fds| - j
  {
    if j < |fds| {
      ReadyMembers(fds, ready, j + 1);
      InFront(j, fds[j] != -1 && fds[j] in ready, ReadyFrom(fds, ready, j + 1));
    }
  }

  /** The list is increasing, and has the occupied slots whose descriptor was reported, each once. */
  lemma {:induction false} ReadyAre(fds: seq<int>, ready: set<int>, j: nat)
    requires j <= |fds|
    ensures forall k: nat :: k in ReadyFrom(fds, ready, j) <==> j <= k < |fds| && fds[k] != -1 && fds[k] in ready
    ensures Increasing(ReadyFrom(fds, ready, j))
    decreases |fds| - j
  {
    ReadyMembers(fds, ready, j);
    if j < |fds| {
      ReadyAre(fds, ready, j + 1);
      IncreasingFrom(j, ReadyFrom(fds, ready, j + 1));
    }
  }

  lemma {:induction false} ReadyFromAgrees(fds: seq<int>, other: seq<int>, ready: set<int>, j: nat)
    requires j <= |fds| == |other|
    requires forall k :: j <= k < |fds| ==> (fds[k] != -1 && fds[k] in ready <==> other[k] != -1 && other[k] in ready)
    ensures ReadyFrom(fds, ready, j) == ReadyFrom(other, ready, j)
    decreases |fds| - j
  {
    if j < |fds| {
      ReadyFromAgrees(fds, other, ready, j + 1);
    }
  }

  /** The scan serves the reported clients ... */
  lemma {:induction false} ScanServesReported(t: Table, j: nat, ready: set<int>, answers: seq<Answer>)
    requires j <= |t.fds| == |answers| && !Scan(t, j, ready, answers).2
    ensures Scan(t, j, ready, answers).1 == ReadyFrom(t.fds, ready, j)
    decreases |t.fds| - j
  {
    if j < |t.fds| {
      if t.fds[j] == -1 || t.fds[j] !in ready {
        ScanServesReported(t, j + 1, ready, answers);
      } else {
        var t1 := Serve(t, j, answers[j]).0;
        ScanServesReported(t1, j + 1, ready, answers);
        ReadyFromAgrees(t.fds, t1.fds, ready, j + 1);
      }
    }
  }

  /** ... and is a run of the abstract server. */
  lemma {:induction false} ScanRefines(t: Table, j: nat, ready: set<int>, answers: seq<Answer>)
    requires j <= |t.fds| == |answers| && Inv(t) && !Scan(t, j, ready, answers).2
    ensures var (u, served, _) := Scan(t, j, ready, answers);
      Inv(u) && u.open == AbstractRun(t.open, ServeOps(t.fds, served, answers), |t.fds|)
    decreases |t.fds| - j
  {
    if j < |t.fds| {
      if t.fds[j] == -1 || t.fds[j] !in ready {
        ScanRefines(t, j + 1, ready, answers);
      } else {
        var t1 := Serve(t, j, answers[j]).0;
        ServeRefines(t, j, answers[j]);
        ScanRefines(t1, j + 1, ready, answers);
        ServedFirst(t, t1, j, Scan(t1, j + 1, ready, answers).1, answers);
      }
    }
  }

  /** The first slot served, and then the others, which it does not touch. */
  lemma ServedFirst(t: Table, t1: Table, j: nat, rest: seq<nat>, answers: seq<Answer>)
    requires j < |t.fds| == |t1.fds| == |answers| && forall k :: k in rest ==> j < k < |t.fds|
    requires forall k :: j < k < |t.fds| ==> t1.fds[k] == t.fds[k]
    ensures ServeOps(t.fds, [j] + rest, answers)
         == [if answers[j].LineEchoed? then Echo(t.fds[j]) else Finish(t.fds[j])] + ServeOps(t1.fds, rest, answers)
  {
    assert ([j] + rest)[1..] == rest;
    ServeOpsAgree(t.fds, t1.fds, rest, answers);
  }

  function RoundOps(t: Table, listener: int, ready: set<int>, incoming: Incoming, answers: seq<Answer>): seq<Op>
    requires |answers| == |t.fds|
  {
    var served := Round(t, listener, ready, incoming, answers).1;
    if listener in ready && incoming.Connection? then
      [Connect(incoming.fd)] + ServeOps(Admit(t, incoming.fd, incoming.named).0.fds, served, answers)
    else ServeOps(t.fds, served, answers)
  }

  lemma AdmitThenScan(t: Table, fd: int, ready: set<int>, answers: seq<Answer>)
    requires |answers| == |t.fds| && Inv(t) && fd >= 0 && fd !in t.open && fd !in ready
    requires var (t1, exited) := Admit(t, fd, true); !exited && !Scan(t1, 0, ready, answers).2
    ensures var t1 := Admit(t, fd, true).0;
      var (u, served, _) := Scan(t1, 0, ready, answers);
      Inv(u) && served == ReadyFrom(t.fds, ready, 0)
      && u.open == AbstractRun(t.open, [Connect(fd)] + ServeOps(t1.fds, served, answers), |t.fds|)
  {
    var t1 := Admit(t, fd, true).0;
    AdmitRefines(t, fd, true);
    ScanServesReported(t1, 0, ready, answers);
    ScanRefines(t1, 0, ready, answers);
    ReadyFromAgrees(t.fds, t1.fds, ready, 0);
    var ops := ServeOps(t1.fds, Scan(t1, 0, ready, answers).1, answers);
    assert ([Connect(fd)] + ops)[1..] == ops;
  }

  /** A round that does not exit serves exactly the reported clients, also when a new client has just
      joined (a round whose accept is interrupted serves none), keeps the table equal to the open
      descriptors, and is a run of the same abstract server as the poll server's. */
  lemma RoundServesAndRefines(t: Table, listener: int, ready: set<int>, incoming: Incoming, answers: seq<Answer>)
    requires |answers| == |t.fds| && Inv(t) && ready <= t.open + {listener} && listener !in t.open
    requires incoming.Connection? ==> incoming.fd >= 0 && incoming.fd !in t.open && incoming.fd != listener
    requires !Round(t, listener, ready, incoming, answers).2
    ensures var (u, served, _) := Round(t, listener, ready, incoming, answers);
      Inv(u) && u.open == AbstractRun(t.open, RoundOps(t, listener, ready, incoming, answers), |t.fds|)
      && served == if listener in ready && incoming.Interrupted? then [] else ReadyFrom(t.fds, ready, 0)
  {
    if listener !in ready {
      ScanServesReported(t, 0, ready, answers);
      ScanRefines(t, 0, ready, answers);
    } else if incoming.Connection? {
      assert Admit(t, incoming.fd, incoming.named) == Admit(t, incoming.fd, true);
      AdmitThenScan(t, incoming.fd, ready, answers);
    }
  }

  // ----- when the process exits -----

  /** The scan exits exactly when a reported client has no name. */
  lemma {:induction false} ScanExits(t: Table, j: nat, ready: set<int>, answers: seq<Answer>)
    requires j <= |t.fds| == |answers|
    ensures Scan(t, j, ready, answers).2 <==> Nameless(ReadyFrom(t.fds, ready, j), answers)
    decreases |t.fds| - j
  {
    if j < |t.fds| {
      if t.fds[j] == -1 || t.fds[j] !in ready {
        ScanExits(t, j + 1, ready, answers);
      } else {
        var t1 := Serve(t, j, answers[j]).0;
        ReadyFromAgrees(t.fds, t1.fds, ready, j + 1);
        NamelessFirst(j, ReadyFrom(t.fds, ready, j + 1), answers);
        ScanExits(t1, j + 1, ready, answers);
      }
    }
  }

  /** It has then served the reported clients up to the first of these. */
  lemma {:induction false} ExitingScanServes(t: Table, j: nat, ready: set<int>, answers: seq<Answer>)
    requires j <= |t.fds| == |answers| && Scan(t, j, ready, answers).2
    ensures var served := Scan(t, j, ready, answers).1;
      served <= ReadyFrom(t.fds, ready, j) && OnlyLastNameless(served, answers)
    decreases |t.fds| - j
  {
    if t.fds[j] == -1 || t.fds[j] !in ready {
      ExitingScanServes(t, j + 1, ready, answers);
    } else if answers[j].NoPeerName? {
      assert [j][..0] == [];
    } else {
      var t1 := Serve(t, j, answers[j]).0;
      var rest := Scan(t1, j + 1, ready, answers).1;
      ReadyFromAgrees(t.fds, t1.fds, ready, j + 1);
      ExitingScanServes(t1, j + 1, ready, answers);
      OnlyLastAfter(j, rest, answers);
      PrefixBehind(j, rest, ReadyFrom(t.fds, ready, j + 1));
    }
  }

  /** The listener's part of a round ends the process: `accept` fails, or a slot is free for a peer without
      a name. */
  predicate AcceptExits(t: Table, listener: int, ready: set<int>, incoming: Incoming) {
    listener in ready
    && (incoming.AcceptFails? || (incoming.Connection? && !incoming.named && -1 in t.fds))
  }

  /** A round ends the process exactly then, or when `accept` was not interrupted and a reported client has
      no name. */
  lemma RoundExits(t: Table, listener: int, ready: set<int>, incoming: Incoming, answers: seq<Answer>)
    requires |answers| == |t.fds|
    requires incoming.Connection? ==> incoming.fd !in ready
    ensures Round(t, listener, ready, incoming, answers).2 <==>
      AcceptExits(t, listener, ready, incoming)
      || (!(listener in ready && incoming.Interrupted?) && Nameless(ReadyFrom(t.fds, ready, 0), answers))
  {
    ScanExits(t, 0, ready, answers);
    if listener in ready && incoming.Connection? {
      var t1 := Admit(t, incoming.fd, incoming.named).0;
      ReadyFromAgrees(t.fds, t1.fds, ready, 0);
      ScanExits(t1, 0, ready, answers);
    }
  }

  // ----- any number of rounds -----

  datatype Input = Input(ready: set<int>, incoming: Incoming, answers: seq<Answer>)

  /** What `select` and `accept` may do in a round. */
  predicate CanRound(t: Table, listener: int, r: Input) {
    && |r.answers| == |t.fds| && r.ready <= t.open + {listener}
    && (r.incoming.Connection? ==> r.incoming.fd >= 0 && r.incoming.fd !in t.open && r.incoming.fd != listener)
  }

  function RoundOf(t: Table, listener: int, r: Input): (Table, seq<nat>, bool)
    requires CanRound(t, listener, r)
  {
    Round(t, listener, r.ready, r.incoming, r.answers)
  }

  predicate Rounds(t0: Table, listener: int, rs: seq<Input>, t: Table)
    decreases |rs|
  {
    if rs == [] then t == t0
    else
      CanRound(t0, listener, rs[0]) && !RoundOf(t0, listener, rs[0]).2
      && Rounds(RoundOf(t0, listener, rs[0]).0, listener, rs[1..], t)
  }

  function RoundsOps(t: Table, listener: int, rs: seq<Input>): seq<Op>
    decreases |rs|
  {
    if rs == [] || !CanRound(t, listener, rs[0]) then []
    else
      RoundOps(t, listener, rs[0].ready, rs[0].incoming, rs[0].answers)
      + RoundsOps(RoundOf(t, listener, rs[0]).0, listener, rs[1..])
  }

  lemma {:induction false} ScanOpensNothing(t: Table, j: nat, ready: set<int>, answers: seq<Answer>)
    requires j <= |t.fds| == |answers|
    ensures Scan(t, j, ready, answers).0.open <= t.open
    decreases |t.fds| - j
  {
    if j < |t.fds| {
      ScanOpensNothing(t, j + 1, ready, answers);
      ScanOpensNothing(Serve(t, j, answers[j]).0, j + 1, ready, answers);
    }
  }

  /** The listener never becomes a client. */
  lemma RoundSparesListener(t: Table, listener: int, r: Input)
    requires CanRound(t, listener, r) && listener !in t.open
    ensures listener !in RoundOf(t, listener, r).0.open
  {
    ScanOpensNothing(t, 0, r.ready, r.answers);
    if r.incoming.Connection? {
      ScanOpensNothing(Admit(t, r.incoming.fd, r.incoming.named).0, 0, r.ready, r.answers);
    }
  }

  lemma {:induction false} RoundsRefine(t0: Table, listener: int, rs: seq<Input>, t: Table)
    requires Inv(t0) && listener !in t0.open && Rounds(t0, listener, rs, t)
    ensures |t.fds| == |t0.fds| && Inv(t)
    ensures t.open == AbstractRun(t0.open, RoundsOps(t0, listener, rs), |t0.fds|)
    decreases |rs|
  {
    if rs != [] {
      var r, t1 := rs[0], RoundOf(t0, listener, rs[0]).0;
      RoundServesAndRefines(t0, listener, r.ready, r.incoming, r.answers);
      RoundSparesListener(t0, listener, r);
      RoundsRefine(t1, listener, rs[1..], t);
      var ops := RoundOps(t0, listener, r.ready, r.incoming, r.answers);
      AbstractRunAppend(t0.open, ops, RoundsOps(t1, listener, rs[1..]), |t0.fds|);
    }
  }

  /** However many rounds the server has run since it started, its table holds exactly the descriptors it
      has open, and they are the clients of the abstract server after the same connects and closes. */
  lemma ServerRefines(t0: Table, listener: int, rs: seq<Input>, t: Table)
    requires t0.open == {} && (forall j :: 0 <= j < |t0.fds| ==> t0.fds[j] == -1) && Rounds(t0, listener, rs, t)
    ensures Inv(t) && t.open == AbstractRun({}, RoundsOps(t0, listener, rs), |t0.fds|)
  {
    assert Entries(t0.fds) == {};
    RoundsRefine(t0, listener, rs, t);
  }

  // ----- the loop on its array -----

  class SelectServer {
    var clients: array<int>
    var open: set<int>
    const listener: int

    ghost function Model(): Table
      reads this, clients
    {
      Table(clients[..], open)
    }

    constructor (listener: int, slots: nat)
      ensures fresh(clients) && clients.Length == slots && this.listener == listener
      ensures Inv(Model()) && Model().open == {}
    {
      this.listener := listener;
      clients := new int[slots](_ => -1);
      open := {};
    }

    /** Rebuilds the descriptor set; `max` is the highest descriptor in it. */
    method WatchedSet() returns (rset: set<int>, max: int)
      ensures rset == Entries(clients[..]) + {listener}
      ensures max in rset && forall fd :: fd in rset ==> fd <= max
    {
      rset, max := {listener}, listener;
      assert Entries(clients[..0]) == {};
      for i := 0 to clients.Length
        invariant rset == Entries(clients[..i]) + {listener}
        invariant max in rset && forall fd :: fd in rset ==> fd <= max
      {
        assert clients[..i + 1] == clients[..i] + [clients[i]];
        EntriesGrow(clients[..i], clients[i]);
        if clients[i] != -1 {
          rset := rset + {clients[i]};
          if max < clients[i] { max := clients[i]; }
        }
      }
      assert clients[..clients.Length] == clients[..];
    }

    method AcceptClient(fd: int, named: bool) returns (exited: bool)
      modifies this`open, clients
      ensures (Model(), exited) == Admit(old(Model()), fd, named)
    {
      for i := 0 to clients.Length
        invariant clients[..] == old(clients[..]) && open == old(open)
        invariant forall j :: 0 <= j < i ==> clients[j] != -1
      {
        if clients[i] == -1 {
          assert FirstFree(clients[..]) == i;
          if !named { return true; }
          clients[i] := fd;
          open := open + {fd};
          assert clients[..] == old(clients[..])[i := fd];
          return false;
        }
      }
      return false;
    }

    /** `handle_echo` on one reported client, and what follows its result. */
    method ServeClient(i: nat, a: Answer) returns (exited: bool)
      requires i < clients.Length
      modifies this`open, clients
      ensures (Model(), exited) == Serve(old(Model()), i, a)
    {
      exited := a.NoPeerName?;
      if a.PeerGone? || a.SocketError? {
        open := open - {clients[i]};
        clients[i] := -1;
        assert clients[..] == old(clients[..])[i := -1];
      }
    }

    method ScanClients(ready: set<int>, answers: seq<Answer>) returns (served: seq<nat>, exited: bool)
      requires |answers| == clients.Length
      modifies this`open, clients
      ensures (Model(), served, exited) == Scan(old(Model()), 0, ready, answers)
    {
      served, exited := [], false;
      ghost var goal := Scan(Model(), 0, ready, answers);
      assert served + goal.1 == goal.1;
      var i := 0;
      while i < clients.Length
        invariant 0 <= i <= clients.Length == |answers| && !exited
        invariant Leads(Model(), i, ready, answers, served, goal)
      {
        ghost var t := Model();
        if clients[i] != -1 && clients[i] in ready {
          ScanServes(t, i, ready, answers, served, goal);
          served := served + [i];
          exited := ServeClient(i, answers[i]);
          if exited { return; }
        } else {
          ScanSkips(t, i, ready, answers, served, goal);
        }
        i := i + 1;
      }
      assert served + [] == served;
    }

    method SelectRound(ready: set<int>, incoming: Incoming, answers: seq<Answer>)
        returns (served: seq<nat>, exited: bool)
      requires |answers| == clients.Length
      modifies this`open, clients
      ensures (Model(), served, exited) == Round(old(Model()), listener, ready, incoming, answers)
    {
      served, exited := [], false;
      if listener in ready {
        match incoming {
          case Interrupted => return;
          case AcceptFails => exited := true; return;
          case Connection(fd, named) =>
            exited := AcceptClient(fd, named);
            if exited { return; }
        }
      }
      served, exited := ScanClients(ready, answers);
    }
  }

  lemma EntriesGrow(fds: seq<int>, fd: int)
    ensures Entries(fds + [fd]) == Entries(fds) + if fd == -1 then {} else {fd}
  {
    var more := fds + [fd];
    assert more[|fds|] == fd;
    forall x | x in Entries(fds) ensures x in Entries(more) {
      var j :| 0 <= j < |fds| && fds[j] != -1 && fds[j] == x;
      assert more[j] == x;
    }
  }
}
