/**
 The arms of the event loop of `s_mio_poll.rs`, working on the token map in place. Each is a run of the
 steps of `MioEcho`, with whatever the peers do in the meantime.
 */
module MioLoop {
  import opened MioEcho
  import Utf8

  lemma ListenerDispatched(s: State, t: State)
    requires s.phase == Dispatching && s.queue != [] && s.queue[0].token == SERVER
    requires t == s.(queue := s.queue[1..], phase := Accepting)
    ensures Run(s, [Dispatch], t)
  {
    RunOne(s, Dispatch);
  }

  lemma ReadableDispatched(s: State, token: nat, t: State)
    requires s.phase == Dispatching && s.queue != [] && s.queue[0] == Event(token, false)
    requires token != SERVER && token in s.sockets && t == s.(queue := s.queue[1..], phase := Reading(token))
    ensures Run(s, [Dispatch], t)
  {
    RunOne(s, Dispatch);
  }

  lemma WritableRuns(s: State, token: nat, stillWritable: bool, t: State)
    requires s.phase == Dispatching && s.queue != [] && s.queue[0] == Event(token, true)
    requires token != SERVER && token in s.sockets
    requires var c := s.sockets[token].Write(|s.sockets[token].message|).(writable := stillWritable);
      t == s.(sockets := s.sockets[token := c.Register(ReadEdge)], queue := s.queue[1..])
    ensures Run(s, [WriteAll(stillWritable), ArmRead], t)
  {
    var c := s.sockets[token].Write(|s.sockets[token].message|).(writable := stillWritable);
    var u := Next(s, WriteAll(stillWritable));
    RunOne(s, WriteAll(stillWritable));
    assert u.sockets[token := c.Register(ReadEdge)] == t.sockets;
    RunMore(s, [WriteAll(stillWritable)], u, ArmRead);
    assert [WriteAll(stillWritable)] + [ArmRead] == [WriteAll(stillWritable), ArmRead];
  }

  /** `now` has what `was` has, but for client `token`. */
  ghost predicate OthersStay(was: map<nat, Client>, now: map<nat, Client>, token: nat) {
    forall t: nat :: t != token ==> (t in now <==> t in was) && (t in was ==> now[t] == was[t])
  }

  /** One handling of a readable event: the state it begins in, what the peer sends while it lasts, and
      whether it then closes. */
  datatype Visit = Visit(start: State, token: nat, arrivals: seq<seq<Byte>>, closes: bool)

  /** The peer has sent the first `k` of its arrivals, and has closed only if it was going to. */
  predicate Heard(v: Visit, c: Client, k: nat) {
    v.token in v.start.sockets && k <= |v.arrivals|
    && c.input == v.start.sockets[v.token].input + Concat(v.arrivals[..k])
    && (c.eof ==> v.start.sockets[v.token].eof || v.closes)
  }

  /** Nothing but this client has changed, and that by what the peer has sent so far. */
  ghost predicate Visited(v: Visit, s: State, k: nat) {
    && OthersStay(v.start.sockets, s.sockets, v.token) && OthersStay(v.start.removed, s.removed, v.token)
    && if v.token in s.sockets then Heard(v, s.sockets[v.token], k)
       else v.token in s.removed && Heard(v, s.removed[v.token], k)
  }

  lemma MoreHeard(input: seq<Byte>, arrivals: seq<seq<Byte>>, k: nat)
    requires k < |arrivals|
    ensures input + Concat(arrivals[..k]) + arrivals[k] == input + Concat(arrivals[..k + 1])
  {
    assert arrivals[..k + 1] == arrivals[..k] + [arrivals[k]];
    OneMore(arrivals[..k], arrivals[k]);
    assert input + Concat(arrivals[..k]) + arrivals[k] == input + (Concat(arrivals[..k]) + arrivals[k]);
  }

  lemma HeardMore(v: Visit, c: Client, k: nat)
    requires Heard(v, c, k) && k < |v.arrivals|
    ensures Heard(v, c.PeerSends(v.arrivals[k]), k + 1)
  {
    MoreHeard(v.start.sockets[v.token].input, v.arrivals, k);
  }

  lemma VisitHears(v: Visit, s: State, k: nat)
    requires Visited(v, s, k) && v.token in s.sockets && k < |v.arrivals|
    ensures Visited(v, Update(s, v.token, s.sockets[v.token].PeerSends(v.arrivals[k])), k + 1)
  {
    HeardMore(v, s.sockets[v.token], k);
  }

  lemma VisitGoesOn(v: Visit, s: State, c: Client, phase: Phase, k: nat)
    requires Visited(v, s, k) && v.token in s.sockets
    requires c.input == s.sockets[v.token].input && (c.eof ==> s.sockets[v.token].eof || v.closes)
    ensures Visited(v, Update(s, v.token, c).(phase := phase), k)
  {
  }

  lemma VisitEnds(v: Visit, s: State, k: nat)
    requires Visited(v, s, k) && v.token in s.sockets && s.phase == Reading(v.token)
    ensures Visited(v, AtEof(s, v.token, s.sockets[v.token]), k)
  {
    var c := s.sockets[v.token];
    if c.chunk != [] {
      if Utf8.Valid(c.chunk) {
        VisitGoesOn(v, s, c.EndCall(), s.phase, k);
      }
    }
  }

  /** How far the reading of `token` has come. */
  predicate ReadOk(s: State, token: nat) {
    if s.phase == Dispatching then
      token !in s.sockets && token in s.removed && s.removed[token].eof
      && s.removed[token].consumed == |s.removed[token].input|
    else
      token in s.sockets && s.sockets[token].consumed <= |s.sockets[token].input|
      && (s.phase == Reading(token) || s.phase == Drained(token) || s.phase == Panicked(token))
      && (s.phase.Drained? ==> s.sockets[token].chunk == [] && s.sockets[token].consumed == |s.sockets[token].input|)
      && (s.phase.Panicked? ==> s.sockets[token].eof && !Utf8.Valid(s.sockets[token].chunk))
  }

  /** The reading has come to `s` by `steps`, with the first `k` arrivals heard. */
  ghost predicate AtWork(v: Visit, k: nat, steps: seq<Step>, s: State) {
    ReadOk(s, v.token) && Run(v.start, steps, s) && Visited(v, s, k)
  }

  lemma WorkHears(v: Visit, k: nat, steps: seq<Step>, s: State)
    requires AtWork(v, k, steps, s) && s.phase == Reading(v.token) && k < |v.arrivals| && !s.sockets[v.token].eof
    ensures AtWork(v, k + 1, steps + [PeerSend(v.token, v.arrivals[k])],
                   Update(s, v.token, s.sockets[v.token].PeerSends(v.arrivals[k])))
  {
    VisitHears(v, s, k);
    RunMore(v.start, steps, s, PeerSend(v.token, v.arrivals[k]));
  }

  lemma WorkCloses(v: Visit, k: nat, steps: seq<Step>, s: State)
    requires AtWork(v, k, steps, s) && s.phase == Reading(v.token) && v.closes
    ensures AtWork(v, k, steps + [PeerClose(v.token)], Update(s, v.token, s.sockets[v.token].PeerCloses()))
  {
    VisitGoesOn(v, s, s.sockets[v.token].PeerCloses(), s.phase, k);
    RunMore(v.start, steps, s, PeerClose(v.token));
  }

  lemma WorkReads(v: Visit, k: nat, steps: seq<Step>, s: State, n: nat)
    requires AtWork(v, k, steps, s) && s.phase == Reading(v.token)
    requires 0 < n <= |s.sockets[v.token].input| - s.sockets[v.token].consumed
    ensures AtWork(v, k, steps + [ReadSome(n)], Update(s, v.token, s.sockets[v.token].Read(n)))
  {
    VisitGoesOn(v, s, s.sockets[v.token].Read(n), s.phase, k);
    RunMore(v.start, steps, s, ReadSome(n));
  }

  lemma WorkBlocks(v: Visit, k: nat, steps: seq<Step>, s: State)
    requires AtWork(v, k, steps, s) && s.phase == Reading(v.token) && !s.sockets[v.token].Readable()
    ensures AtWork(v, k, steps + [ReadBlocks],
                   Update(s, v.token, s.sockets[v.token].EndCall()).(phase := Drained(v.token)))
  {
    VisitGoesOn(v, s, s.sockets[v.token].EndCall(), Drained(v.token), k);
    RunMore(v.start, steps, s, ReadBlocks);
  }

  lemma EofLeavesOk(s: State, token: nat)
    requires ReadOk(s, token) && s.phase == Reading(token)
    requires s.sockets[token].eof && s.sockets[token].consumed == |s.sockets[token].input|
    ensures ReadOk(AtEof(s, token, s.sockets[token]), token)
    ensures Enabled(s, ReadEof) && Next(s, ReadEof) == AtEof(s, token, s.sockets[token])
  {
  }

  lemma WorkEnds(v: Visit, k: nat, steps: seq<Step>, s: State)
    requires AtWork(v, k, steps, s) && s.phase == Reading(v.token)
    requires s.sockets[v.token].eof && s.sockets[v.token].consumed == |s.sockets[v.token].input|
    ensures AtWork(v, k, steps + [ReadEof], AtEof(s, v.token, s.sockets[v.token]))
  {
    VisitEnds(v, s, k);
    EofLeavesOk(s, v.token);
    RunMore(v.start, steps, s, ReadEof);
  }

  lemma WorkBegins(v: Visit) returns (steps: seq<Step>)
    requires v.start.phase == Dispatching && v.start.queue != [] && v.start.queue[0] == Event(v.token, false)
    requires v.token != SERVER && v.token in v.start.sockets
    requires v.start.sockets[v.token].consumed <= |v.start.sockets[v.token].input|
    ensures AtWork(v, 0, steps, v.start.(queue := v.start.queue[1..], phase := Reading(v.token)))
  {
    steps := [Dispatch];
    ReadableDispatched(v.start, v.token, v.start.(queue := v.start.queue[1..], phase := Reading(v.token)));
    assert v.arrivals[..0] == [];
    assert v.start.sockets[v.token].input + [] == v.start.sockets[v.token].input;
  }

  lemma WorkArms(v: Visit, k: nat, steps: seq<Step>, s: State)
    requires AtWork(v, k, steps, s) && s.phase == Drained(v.token)
    ensures var t := Update(s, v.token, s.sockets[v.token].Register(WriteOneshot)).(phase := Dispatching);
      Run(v.start, steps + [ArmWrite], t) && Visited(v, t, k)
  {
    RunMore(v.start, steps, s, ArmWrite);
    VisitGoesOn(v, s, s.sockets[v.token].Register(WriteOneshot), Dispatching, k);
  }

  /** The clients that have dialled, `late` of them in the meantime, in order. */
  function Dialled(backlog: seq<Client>, late: nat): (all: seq<Client>)
    ensures |all| == |backlog| + late
  {
    backlog + seq(late, _ => NEW_CLIENT)
  }

  /** The first `n` of those clients have their tokens, from `first` on, and the others are as they were. */
  ghost predicate Accepted(was: map<nat, Client>, now: map<nat, Client>, first: nat, all: seq<Client>, n: nat) {
    && n <= |all| && (forall t: nat :: t in now <==> t in was || first <= t < first + n)
    && (forall t: nat :: t in was && t < first ==> now[t] == was[t])
    && (forall k :: 0 <= k < n ==> now[first + k] == all[k].Register(ReadEdge))
  }

  lemma AcceptedNext(was: map<nat, Client>, now: map<nat, Client>, first: nat, all: seq<Client>, n: nat)
    requires Accepted(was, now, first, all, n) && n < |all|
    ensures Accepted(was, now[first + n := all[n].Register(ReadEdge)], first, all, n + 1)
  {
  }

  /** One more peer in the queue, or one less. */
  lemma QueueMoves(all: seq<Client>, backlog: seq<Client>, n: nat, left: nat)
    requires n + left <= |all| && backlog == all[n..|all| - left]
    ensures left > 0 && all[|all| - left] == NEW_CLIENT ==> backlog + [NEW_CLIENT] == all[n..|all| - (left - 1)]
    ensures backlog != [] ==> backlog[0] == all[n] && backlog[1..] == all[n + 1..|all| - left]
  {
  }

  /** The listener's arm so far: of the clients `all`, the last `left` have yet to dial, and those before
      the backlog have their tokens. */
  ghost predicate Listening(start: State, all: seq<Client>, left: nat, s: State) {
    && start.queue != [] && s.queue == start.queue[1..] && s.removed == start.removed && start.counter <= s.counter
    && s.phase == Accepting
    && var n := s.counter - start.counter;
       n + left <= |all| && s.backlog == all[n..|all| - left]
       && (forall k :: |all| - left <= k < |all| ==> all[k] == NEW_CLIENT)
       && Accepted(start.sockets, s.sockets, start.counter, all, n)
  }

  /** `s` after one connection more, or one client more in the backlog. */
  function WithAccepted(s: State): State
    requires s.backlog != []
  {
    s.(sockets := s.sockets[s.counter := s.backlog[0].Register(ReadEdge)], counter := s.counter + 1,
       backlog := s.backlog[1..])
  }

  function WithDialled(s: State): State {
    s.(backlog := s.backlog + [NEW_CLIENT], listenerReady := true)
  }

  lemma ListeningAccepts(start: State, all: seq<Client>, left: nat, s: State)
    requires Listening(start, all, left, s) && s.backlog != []
    ensures Listening(start, all, left, WithAccepted(s))
  {
    var n := s.counter - start.counter;
    QueueMoves(all, s.backlog, n, left);
    AcceptedNext(start.sockets, s.sockets, start.counter, all, n);
  }

  lemma ListeningGrows(start: State, all: seq<Client>, left: nat, s: State)
    requires Listening(start, all, left, s) && left > 0
    ensures Listening(start, all, left - 1, WithDialled(s))
  {
    QueueMoves(all, s.backlog, s.counter - start.counter, left);
  }

  /** ... and it has come there by `steps`. */
  ghost predicate ListeningBy(start: State, all: seq<Client>, left: nat, s: State, steps: seq<Step>) {
    Listening(start, all, left, s) && Run(start, steps, s)
  }

  lemma AcceptsNext(start: State, all: seq<Client>, left: nat, s: State, steps: seq<Step>)
    requires ListeningBy(start, all, left, s, steps) && s.backlog != []
    ensures ListeningBy(start, all, left, WithAccepted(s), steps + [Step.AcceptOne])
  {
    ListeningAccepts(start, all, left, s);
    RunMore(start, steps, s, Step.AcceptOne);
  }

  lemma DialledNext(start: State, all: seq<Client>, left: nat, s: State, steps: seq<Step>)
    requires ListeningBy(start, all, left, s, steps) && left > 0
    ensures ListeningBy(start, all, left - 1, WithDialled(s), steps + [Dial])
  {
    ListeningGrows(start, all, left, s);
    RunMore(start, steps, s, Dial);
  }

  /** All that dialled have been accepted. */
  ghost predicate AllAccepted(start: State, s: State, late: nat) {
    Accepted(start.sockets, s.sockets, start.counter, Dialled(start.backlog, late), |start.backlog| + late)
  }

  lemma ListeningEnds(start: State, late: nat, s: State, steps: seq<Step>)
    requires ListeningBy(start, Dialled(start.backlog, late), 0, s, steps) && s.backlog == []
    ensures Run(start, steps + [AcceptBlocks], s.(phase := Dispatching))
    ensures s.counter == start.counter + |start.backlog| + late && AllAccepted(start, s.(phase := Dispatching), late)
    ensures s.queue == start.queue[1..] && s.removed == start.removed
  {
    RunMore(start, steps, s, AcceptBlocks);
  }

  lemma ListeningBegins(start: State, late: nat) returns (steps: seq<Step>)
    requires start.phase == Dispatching && start.queue != [] && start.queue[0].token == SERVER
    ensures ListeningBy(start, Dialled(start.backlog, late), late,
                        start.(queue := start.queue[1..], phase := Accepting), steps)
  {
    var all := Dialled(start.backlog, late);
    steps := [Dispatch];
    ListenerDispatched(start, start.(queue := start.queue[1..], phase := Accepting));
    assert all[..|all| - late] == start.backlog;
  }

  class EventLoop {
    var sockets: map<nat, Client>
    var counter: nat
    var events: seq<Event>          // those of the batch still to be handled
    var backlog: seq<Client>        // connections the kernel holds for `accept`
    var listenerReady: bool
    ghost var removed: map<nat, Client>

    ghost function Model(phase: Phase): State
      reads this
    {
      State(sockets, removed, counter, backlog, listenerReady, events, phase)
    }

    constructor ()
      ensures Init(Model(Polling))
    {
      sockets, counter, events, backlog, listenerReady, removed := map[], 1, [], [], false, map[];
    }

    /** The listener's arm: accepts until the backlog is empty, one new token per connection; `late` more
        peers dial in the meantime. */
    method OnListener(late: nat) returns (ghost steps: seq<Step>)
      requires events != [] && events[0].token == SERVER
      modifies this
      ensures Run(old(Model(Dispatching)), steps, Model(Dispatching))
      ensures events == old(events)[1..] && backlog == [] && removed == old(removed)
      ensures counter == old(counter) + |old(backlog)| + late
      ensures AllAccepted(old(Model(Dispatching)), Model(Dispatching), late)
    {
      ghost var start := Model(Dispatching);
      ghost var before := ListeningBegins(start, late);
      events := events[1..];
      steps := AcceptAll(late, start, Dialled(backlog, late), before);
      ghost var s := Model(Accepting);
      ListeningEnds(start, late, s, steps);
      steps := steps + [AcceptBlocks];
      assert Model(Dispatching) == s.(phase := Dispatching);
    }

    /** The accepting loop of the arm. */
    method AcceptAll(late: nat, ghost start: State, ghost all: seq<Client>, ghost before: seq<Step>)
        returns (ghost steps: seq<Step>)
      requires ListeningBy(start, all, late, Model(Accepting), before)
      modifies this`sockets, this`counter, this`backlog, this`listenerReady
      ensures ListeningBy(start, all, 0, Model(Accepting), steps) && backlog == []
    {
      var left := late;
      steps := before;
      while backlog != [] || left > 0
        invariant ListeningBy(start, all, left, Model(Accepting), steps)
        decreases |backlog| + 2 * left
      {
        if left > 0 {
          DialledNext(start, all, left, Model(Accepting), steps);
          NewPeer();
          left, steps := left - 1, steps + [Dial];
        } else {
          AcceptsNext(start, all, left, Model(Accepting), steps);
          AcceptOne();
          steps := steps + [Step.AcceptOne];
        }
      }
    }

    /** Another peer dials. */
    method NewPeer()
      modifies this`backlog, this`listenerReady
      ensures Model(Accepting) == WithDialled(old(Model(Accepting))) && |backlog| == |old(backlog)| + 1
    {
      backlog := backlog + [NEW_CLIENT];
      listenerReady := true;
    }

    /** `accept` and registration of one connection. */
    method AcceptOne()
      requires backlog != []
      modifies this`sockets, this`counter, this`backlog
      ensures Model(Accepting) == WithAccepted(old(Model(Accepting))) && |backlog| == |old(backlog)| - 1
    {
      sockets := sockets[counter := backlog[0].Register(ReadEdge)];
      counter := counter + 1;
      backlog := backlog[1..];
    }

    /** The readable arm: reads all there is, in calls that end when the socket blocks or is at its end,
        while the peer goes on sending and may close. A closed peer is removed, any other waits to be
        written to; a stream that ends inside a character makes the server panic. */
    method OnReadable(token: nat, arrivals: seq<seq<Byte>>, closes: bool)
        returns (panicked: bool, ghost heard: nat, ghost steps: seq<Step>)
      requires events != [] && events[0] == Event(token, false) && token != SERVER && token in sockets
      requires sockets[token].consumed <= |sockets[token].input|
      modifies this`sockets, this`events, this`removed
      ensures Run(old(Model(Dispatching)), steps, Model(if panicked then Panicked(token) else Dispatching))
      ensures events == old(events)[1..]
      ensures panicked ==> token in sockets && sockets[token].eof && !Utf8.Valid(sockets[token].chunk)
      ensures !panicked && token in sockets ==>
        var c := sockets[token]; c.consumed == |c.input| && c.chunk == [] && c.interest == WriteOneshot
      ensures !panicked && token !in sockets ==>
        token in removed && removed[token].eof && removed[token].consumed == |removed[token].input|
      ensures Visited(Visit(old(Model(Dispatching)), token, arrivals, closes), Model(Dispatching), heard)
    {
      ghost var v := Visit(Model(Dispatching), token, arrivals, closes);
      ghost var before := WorkBegins(v);
      events := events[1..];
      var phase: Phase;
      phase, heard, steps := ReadAll(token, arrivals, closes, v, before);
      panicked := phase.Panicked?;
      if phase.Drained? {
        steps := Arm(token, v, heard, steps);
      }
    }

    /** Asks for writability, once. */
    method Arm(token: nat, ghost v: Visit, ghost heard: nat, ghost before: seq<Step>) returns (ghost steps: seq<Step>)
      requires v.token == token && AtWork(v, heard, before, Model(Drained(token)))
      modifies this`sockets
      ensures Run(v.start, steps, Model(Dispatching)) && Visited(v, Model(Dispatching), heard)
      ensures token in sockets && sockets[token] == old(sockets)[token].Register(WriteOneshot)
    {
      WorkArms(v, heard, before, Model(Drained(token)));
      sockets := sockets[token := sockets[token].Register(WriteOneshot)];
      steps := before + [ArmWrite];
    }

    /** The reading loop of the arm. */
    method ReadAll(token: nat, arrivals: seq<seq<Byte>>, closes: bool, ghost v: Visit, ghost before: seq<Step>)
        returns (phase: Phase, ghost heard: nat, ghost steps: seq<Step>)
      requires v.token == token && v.arrivals == arrivals && v.closes == closes
      requires AtWork(v, 0, before, Model(Reading(token)))
      modifies this`sockets, this`removed
      ensures AtWork(v, heard, steps, Model(phase)) && phase != Reading(token)
    {
      var k, closing := 0, closes;
      phase, heard, steps := Reading(token), 0, before;
      while phase == Reading(token)
        invariant k <= |arrivals| && heard == k && (closing ==> closes) && AtWork(v, k, steps, Model(phase))
        decreases phase == Reading(token), |arrivals| - k, closing, Left(token).0, Left(token).1
      {
        var c := sockets[token];
        ghost var s := Model(phase);
        if {
          case k < |arrivals| && !c.eof =>
            WorkHears(v, k, steps, s);
            Become(token, c.PeerSends(arrivals[k]));
            steps := steps + [PeerSend(token, arrivals[k])];
            k, heard := k + 1, k + 1;
          case closing =>
            WorkCloses(v, k, steps, s);
            Become(token, c.PeerCloses());
            closing, steps := false, steps + [PeerClose(token)];
          case c.consumed < |c.input| =>
            var n :| 0 < n <= |c.input| - c.consumed;
            WorkReads(v, k, steps, s, n);
            Become(token, c.Read(n));
            steps := steps + [ReadSome(n)];
          case c.consumed == |c.input| && c.eof =>
            WorkEnds(v, k, steps, s);
            phase := AtEnd(token);
            steps := steps + [ReadEof];
          case !c.Readable() =>
            WorkBlocks(v, k, steps, s);
            Become(token, c.EndCall());
            phase, steps := Drained(token), steps + [ReadBlocks];
        }
      }
    }

    method Become(token: nat, c: Client)
      modifies this`sockets
      ensures sockets == old(sockets)[token := c]
    {
      sockets := sockets[token := c];
    }

    /** What there is still to read, and what the call under way has read. */
    ghost function Left(token: nat): (int, nat)
      reads this
    {
      if token in sockets then (|sockets[token].input| - sockets[token].consumed, |sockets[token].chunk|) else (0, 0)
    }

    /** The socket is at the end of its input. */
    method AtEnd(token: nat) returns (phase: Phase)
      requires token in sockets
      modifies this`sockets, this`removed
      ensures Model(phase) == AtEof(old(Model(Reading(token))), token, old(sockets)[token])
      ensures phase == Reading(token) ==> old(sockets)[token].chunk != [] && token in sockets
      ensures phase == Reading(token) ==> sockets[token] == old(sockets)[token].EndCall()
    {
      var c := sockets[token];
      if c.chunk == [] {
        sockets, removed := sockets - {token}, removed[token := c];
        phase := Dispatching;
      } else if Utf8.Valid(c.chunk) {
        sockets := sockets[token := c.EndCall()];
        phase := Reading(token);
      } else {
        phase := Panicked(token);
      }
    }

    /** The writable arm: the whole message is echoed and the client reads again, or it is removed after
        `n` bytes. */
    method OnWritable(token: nat, ok: bool, n: nat, stillWritable: bool)
      requires events != [] && events[0] == Event(token, true) && token != SERVER && token in sockets
      requires n <= |sockets[token].message|
      modifies this`sockets, this`events, this`removed
      ensures Run(old(Model(Dispatching)), if ok then [WriteAll(stillWritable), ArmRead] else [WriteFails(n)],
                  Model(Dispatching))
      ensures if ok then
          token in sockets && sockets[token].message == []
          && sockets[token].output == old(sockets)[token].output + old(sockets)[token].message
        else
          token !in sockets && token in removed
          && removed[token].output == old(sockets)[token].output + old(sockets)[token].message[..n]
    {
      ghost var start := Model(Dispatching);
      var c := sockets[token];
      events := events[1..];
      if ok {
        c := c.Write(|c.message|).(writable := stillWritable);
        sockets := sockets[token := c.Register(ReadEdge)];
        WritableRuns(start, token, stillWritable, Model(Dispatching));
      } else {
        RunOne(start, WriteFails(n));
        removed := removed[token := c.Write(n)];
        sockets := sockets - {token};
      }
    }
  }
}
