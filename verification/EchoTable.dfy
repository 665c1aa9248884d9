/**
 The client tables of the poll and select echo servers (`s_poll.c`, `s_select.c`) and the abstract
 server both refine: a set of open client descriptors of bounded size.
 */
module EchoTable {
  import opened Slots

  /** What the loop body finds for one ready client: no peer name (the process exits), a line echoed,
      the peer gone, or an error on the socket. */
  datatype Answer = NoPeerName | LineEchoed | PeerGone | SocketError

  /** What `accept` and `getpeername` do for a new connection. */
  datatype Incoming = Interrupted | AcceptFails | Connection(fd: int, named: bool)

  /** The table of client descriptors, -1 in free slots, and the client descriptors the process has open. */
  datatype Table = Table(fds: seq<int>, open: set<int>)

  function Entries(fds: seq<int>): set<int> {
    set j | 0 <= j < |fds| && fds[j] != -1 :: fds[j]
  }

  /** Entries are distinct, and they are exactly the open client descriptors. */
  predicate Inv(t: Table) {
    && (forall i, j :: 0 <= i < j < |t.fds| && t.fds[i] != -1 ==> t.fds[i] != t.fds[j])
    && (forall j :: 0 <= j < |t.fds| ==> t.fds[j] >= -1)
    && Entries(t.fds) == t.open
  }

  /** A new connection; the flag says whether the process exits. */
  function Admit(t: Table, fd: int, named: bool): (Table, bool) {
    var k := FirstFree(t.fds);
    if k == |t.fds| then (t, false)
    else if !named then (t, true)
    else (Table(t.fds[k := fd], t.open + {fd}), false)
  }

  /** One ready client in slot `j`. */
  function Serve(t: Table, j: nat, a: Answer): (r: (Table, bool))
    requires j < |t.fds|
    ensures |r.0.fds| == |t.fds|
    ensures r.0.fds == if a.PeerGone? || a.SocketError? then t.fds[j := -1] else t.fds
  {
    match a
    case NoPeerName => (t, true)
    case LineEchoed => (t, false)
    case _ => (Table(t.fds[j := -1], t.open - {t.fds[j]}), false)
  }

  // ----- the abstract server -----

  datatype Op = Connect(fd: int) | Finish(fd: int) | Echo(fd: int)

  /** At most `capacity` clients; a connection beyond that is dropped. */
  function AbstractStep(clients: set<int>, op: Op, capacity: nat): set<int> {
    match op
    case Connect(fd) => if |clients| < capacity then clients + {fd} else clients
    case Finish(fd) => clients - {fd}
    case Echo(_) => clients
  }

  function AbstractRun(clients: set<int>, ops: seq<Op>, capacity: nat): set<int>
    decreases |ops|
  {
    if ops == [] then clients else AbstractRun(AbstractStep(clients, ops[0], capacity), ops[1..], capacity)
  }

  lemma {:induction false} AbstractRunAppend(clients: set<int>, ops: seq<Op>, more: seq<Op>, capacity: nat)
    ensures AbstractRun(clients, ops + more, capacity)
         == AbstractRun(AbstractRun(clients, ops, capacity), more, capacity)
    decreases |ops|
  {
    if ops == [] {
      assert ops + more == more;
    } else {
      assert (ops + more)[1..] == ops[1..] + more;
      AbstractRunAppend(AbstractStep(clients, ops[0], capacity), ops[1..], more, capacity);
    }
  }

  /** Each ready client in turn: its descriptor, and whether it stays. */
  function ServeOps(fds: seq<int>, served: seq<nat>, answers: seq<Answer>): seq<Op>
    requires |answers| == |fds| && forall j :: j in served ==> j < |fds|
  {
    if served == [] then []
    else
      assert forall k :: 0 <= k < |served| ==> served[k] in served;
      var j := served[0];
      [if answers[j].LineEchoed? then Echo(fds[j]) else Finish(fds[j])] + ServeOps(fds, served[1..], answers)
  }

  /** Only the slots named matter. */
  lemma {:induction false} ServeOpsAgree(fds: seq<int>, other: seq<int>, served: seq<nat>, answers: seq<Answer>)
    requires |answers| == |fds| == |other| && forall j :: j in served ==> j < |fds| && fds[j] == other[j]
    ensures ServeOps(fds, served, answers) == ServeOps(other, served, answers)
  {
    if served != [] {
      assert served[0] in served && forall j :: j in served[1..] ==> j in served;
      ServeOpsAgree(fds, other, served[1..], answers);
    }
  }

  // ----- clients without a name -----

  /** Some slot of the list has a client without a name. */
  predicate Nameless(slots: seq<nat>, answers: seq<Answer>) {
    exists j :: j in slots && j < |answers| && answers[j].NoPeerName?
  }

  lemma NamelessFirst(j: nat, slots: seq<nat>, answers: seq<Answer>)
    requires j < |answers|
    ensures Nameless([j] + slots, answers) <==> answers[j].NoPeerName? || Nameless(slots, answers)
  {
    assert j in [j] + slots;
    assert forall k :: k in slots ==> k in [j] + slots;
  }

  /** The last one of the list is the first without a name. */
  predicate OnlyLastNameless(slots: seq<nat>, answers: seq<Answer>) {
    slots != [] && !Nameless(slots[..|slots| - 1], answers)
    && slots[|slots| - 1] < |answers| && answers[slots[|slots| - 1]].NoPeerName?
  }

  /** One named client in front. */
  lemma OnlyLastAfter(j: nat, slots: seq<nat>, answers: seq<Answer>)
    requires j < |answers| && !answers[j].NoPeerName? && OnlyLastNameless(slots, answers)
    ensures OnlyLastNameless([j] + slots, answers)
  {
    var most := slots[..|slots| - 1];
    assert ([j] + slots)[..|slots|] == [j] + most;
    NamelessFirst(j, most, answers);
  }

  // ----- table facts -----

  /** A table of distinct descriptors has as many entries as occupied slots: it is full exactly when
      the set of its entries has the size of the table. */
  lemma {:induction false} FullWhenNoFreeSlot(fds: seq<int>)
    requires forall i, j :: 0 <= i < j < |fds| && fds[i] != -1 ==> fds[i] != fds[j]
    ensures |Entries(fds)| <= |fds|
    ensures |Entries(fds)| == |fds| <==> forall j :: 0 <= j < |fds| ==> fds[j] != -1
    decreases |fds|
  {
    if fds == [] {
      assert Entries(fds) == {};
    } else {
      var n := |fds| - 1;
      var rest := fds[..n];
      FullWhenNoFreeSlot(rest);
      if fds[n] == -1 {
        assert Entries(fds) == Entries(rest);
      } else {
        assert fds[n] !in Entries(rest);
        assert Entries(fds) == Entries(rest) + {fds[n]};
      }
    }
  }

  lemma EntriesAfterPlacing(fds: seq<int>, k: nat, fd: int)
    requires k < |fds| && fds[k] == -1 && fd != -1
    ensures Entries(fds[k := fd]) == Entries(fds) + {fd}
  {
    var after := fds[k := fd];
    assert after[k] == fd;
    forall x | x in Entries(fds) ensures x in Entries(after) {
      var j :| 0 <= j < |fds| && fds[j] != -1 && fds[j] == x;
      assert after[j] == x;
    }
  }

  lemma PlacingKeepsInv(t: Table, k: nat, fd: int)
    requires Inv(t) && fd >= 0 && fd !in t.open && k < |t.fds| && t.fds[k] == -1
    ensures Inv(Table(t.fds[k := fd], t.open + {fd}))
  {
    EntriesAfterPlacing(t.fds, k, fd);
    forall j | 0 <= j < |t.fds| ensures t.fds[j] != fd {
      assert t.fds[j] != -1 ==> t.fds[j] in Entries(t.fds);
    }
  }

  /** Admitting a client is the abstract connect: it is dropped exactly when the table is full. A peer
      that has no name by then ends the process, unless it would have been dropped anyway. */
  lemma AdmitRefines(t: Table, fd: int, named: bool)
    requires Inv(t) && fd >= 0 && fd !in t.open
    ensures var (u, exits) := Admit(t, fd, named);
      (exits <==> !named && |t.open| < |t.fds|) && |u.fds| == |t.fds| && Inv(u)
      && (exits ==> u == t)
      && (!exits ==> u.open == AbstractStep(t.open, Connect(fd), |t.fds|) && (fd in u.open <==> |t.open| < |t.fds|))
  {
    FullWhenNoFreeSlot(t.fds);
    var k := FirstFree(t.fds);
    if k < |t.fds| {
      PlacingKeepsInv(t, k, fd);
    }
  }

  /** A new descriptor goes into the lowest slot that is free, and nowhere else. */
  lemma AdmitPlaces(t: Table, fd: int)
    ensures var u := Admit(t, fd, true).0;
      |u.fds| == |t.fds|
      && if -1 in t.fds then
           exists k :: 0 <= k < |t.fds| && t.fds[k] == -1 && u.fds[k] == fd
             && (forall j :: 0 <= j < k ==> t.fds[j] != -1)
             && (forall j :: 0 <= j < |t.fds| && j != k ==> u.fds[j] == t.fds[j])
         else u == t
  {
  }

  /** Serving a client is the abstract step: it leaves the table exactly when its descriptor is closed. A
      client without a name ends the process. */
  lemma ServeRefines(t: Table, j: nat, a: Answer)
    requires Inv(t) && j < |t.fds| && t.fds[j] != -1
    ensures var (u, exits) := Serve(t, j, a);
      Inv(u) && (exits <==> a.NoPeerName?) && (exits ==> u == t)
      && (!exits ==>
            u.open == AbstractStep(t.open, if a.LineEchoed? then Echo(t.fds[j]) else Finish(t.fds[j]), |t.fds|))
  {
    if a.PeerGone? || a.SocketError? {
      var fds, x := t.fds[j := -1], t.fds[j];
      assert Entries(fds) == Entries(t.fds) - {x} by {
        forall y | y in Entries(t.fds) && y != x ensures y in Entries(fds) {
          var i :| 0 <= i < |t.fds| && t.fds[i] != -1 && t.fds[i] == y;
          assert fds[i] == y;
        }
      }
    }
  }
}
