/**
 The event-driven echo server (`s_mio_poll.rs`): one token per client, edge-triggered events, a
 client that alternates between a reading and a writing phase. Peers send, close and drain their
 sockets between any two steps of the server.

 `read_to_string` collects what one call reads in a chunk of its own. When the socket blocks, the chunk
 joins the message only if it is well-formed UTF-8; otherwise it is dropped, and the call still answers
 that it would block. At end of file a chunk that is not well-formed is an error, and the server panics.
 */
module MioEcho {
  import opened Wrappers
  import Utf8

  type Byte = Utf8.Byte

  const SERVER: nat := 0

  /** What the socket is registered for; a delivered one-shot registration is disarmed. */
  datatype Interest = ReadEdge | WriteOneshot | Disarmed

  /** `input` is all the peer has sent, `consumed` how much of it was read, the last of it into `chunk`;
      `drained` lists the chunks of the calls that have returned, `output` is all that was written back.
      `ready` says that an event of the registered kind is waiting to be reported. */
  datatype Client = Client(
    input: seq<Byte>, eof: bool, consumed: nat, chunk: seq<Byte>, drained: seq<seq<Byte>>,
    message: seq<Byte>, output: seq<Byte>, writable: bool, interest: Interest, ready: bool)
  {
    predicate Readable() { consumed < |input| || eof }

    /** (Re)registering checks at once whether the socket is ready. */
    function Register(i: Interest): Client {
      this.(interest := i,
            ready := match i case ReadEdge => Readable() case WriteOneshot => writable case Disarmed => false)
    }

    function PeerSends(data: seq<Byte>): Client {
      this.(input := input + data, ready := ready || (interest.ReadEdge? && data != []))
    }

    function PeerCloses(): Client {
      this.(eof := true, ready := ready || interest.ReadEdge?)
    }

    function Drains(): Client {
      this.(writable := true, ready := ready || interest.WriteOneshot?)
    }

    /** `poll` reports the waiting event. */
    function Report(): Client {
      this.(ready := false, interest := if interest.WriteOneshot? then Disarmed else interest)
    }

    function Read(n: nat): Client
      requires consumed + n <= |input|
    {
      this.(chunk := chunk + input[consumed..consumed + n], consumed := consumed + n)
    }

    /** The call returns: its chunk is kept if it is whole characters, and gone if not. */
    function EndCall(): Client {
      this.(chunk := [], drained := drained + [chunk], message := message + Whole(chunk))
    }

    function Write(n: nat): Client
      requires n <= |message|
    {
      this.(output := output + message[..n], message := message[n..])
    }
  }

  function Whole(chunk: seq<Byte>): seq<Byte> {
    if Utf8.Valid(chunk) then chunk else []
  }

  datatype Event = Event(token: nat, writing: bool)

  /** Where the event loop is; `queue` holds the events of the current batch still to be handled. */
  datatype Phase =
    | Polling
    | Dispatching
    | Accepting
    | Reading(token: nat)
    | Drained(token: nat)
    | Flushed(token: nat)
    | Panicked(token: nat)
    | Unreachable

  datatype State = State(
    sockets: map<nat, Client>, removed: map<nat, Client>, counter: nat,
    backlog: seq<Client>, listenerReady: bool, queue: seq<Event>, phase: Phase)

  datatype Step =
    // the peers and the kernel
    | Dial
    | PeerSend(token: nat, data: seq<Byte>)
    | PeerClose(token: nat)
    | PeerDrain(token: nat)
    | BacklogSend(k: nat, data: seq<Byte>)
    | BacklogClose(k: nat)
    // the server
    | Poll(events: seq<Event>)
    | Dispatch
    | AcceptOne
    | AcceptBlocks
    | ReadSome(n: nat)
    | ReadBlocks
    | ReadEof
    | ArmWrite
    | WriteAll(stillWritable: bool)
    | WriteFails(n: nat)
    | ArmRead
    | EndBatch

  const NEW_CLIENT := Client([], false, 0, [], [], [], [], true, Disarmed, false)

  /** An event `poll` may report: the listener's, or a live client's of the kind it waits for. */
  predicate Pending(s: State, e: Event) {
    if e.token == SERVER then s.listenerReady && !e.writing
    else e.token in s.sockets && s.sockets[e.token].ready && e.writing == s.sockets[e.token].interest.WriteOneshot?
  }

  /** The kind of event the queue holds for token `t`, if any. */
  function Waiting(queue: seq<Event>, t: nat): Option<bool> {
    if queue == [] then None
    else if queue[0].token == t then Some(queue[0].writing)
    else Waiting(queue[1..], t)
  }

  /** No token comes twice. */
  predicate Distinct(queue: seq<Event>) {
    queue != [] ==> Waiting(queue[1..], queue[0].token) == None && Distinct(queue[1..])
  }

  /** The client whose socket the loop is reading. */
  predicate IsReading(s: State) {
    s.phase.Reading? && s.phase.token in s.sockets
  }

  predicate Enabled(s: State, step: Step) {
    match step
    case Dial => true
    case PeerSend(t, _) => t in s.sockets && !s.sockets[t].eof
    case PeerClose(t) => t in s.sockets
    case PeerDrain(t) => t in s.sockets
    case BacklogSend(k, _) => k < |s.backlog| && !s.backlog[k].eof
    case BacklogClose(k) => k < |s.backlog|
    case Poll(events) => s.phase == Polling && (forall e :: e in events ==> Pending(s, e)) && Distinct(events)
    case Dispatch => s.phase == Dispatching && s.queue != [] && !CanWrite(s)
    case AcceptOne => s.phase == Accepting && s.backlog != []
    case AcceptBlocks => s.phase == Accepting && s.backlog == []
    case ReadSome(n) =>
      IsReading(s) && 0 < n && s.sockets[s.phase.token].consumed + n <= |s.sockets[s.phase.token].input|
    case ReadBlocks => IsReading(s) && !s.sockets[s.phase.token].Readable()
    case ReadEof =>
      IsReading(s) && s.sockets[s.phase.token].eof
      && s.sockets[s.phase.token].consumed >= |s.sockets[s.phase.token].input|
    case ArmWrite => s.phase.Drained? && s.phase.token in s.sockets
    case WriteAll(_) => CanWrite(s)
    case WriteFails(n) => CanWrite(s) && n <= |s.sockets[s.queue[0].token].message|
    case ArmRead => s.phase.Flushed? && s.phase.token in s.sockets
    case EndBatch => s.phase == Dispatching && s.queue == []
  }

  /** The next event is a writable one of a known client. */
  predicate CanWrite(s: State) {
    s.phase == Dispatching && s.queue != [] && s.queue[0].token != SERVER && s.queue[0].writing
    && s.queue[0].token in s.sockets
  }

  function Update(s: State, t: nat, c: Client): State {
    s.(sockets := s.sockets[t := c])
  }

  function Remove(s: State, t: nat, c: Client): State {
    s.(sockets := s.sockets - {t}, removed := s.removed[t := c], phase := Dispatching)
  }

  /** `poll` hands over the batch: each reported socket's waiting event is taken. */
  function Reported(s: State, events: seq<Event>): State {
    s.(sockets := map t | t in s.sockets :: if Waiting(events, t).Some? then s.sockets[t].Report() else s.sockets[t],
       listenerReady := s.listenerReady && Waiting(events, SERVER).None?, queue := events, phase := Dispatching)
  }

  /** The peer has closed. A call that has read something returns it, and the next one finds the end of
      the file; a chunk that is not whole characters is an error. */
  function AtEof(s: State, t: nat, c: Client): State {
    if c.chunk == [] then Remove(s, t, c)
    else if Utf8.Valid(c.chunk) then Update(s, t, c.EndCall())
    else s.(phase := Panicked(t))
  }

  function Next(s: State, step: Step): State
    requires Enabled(s, step)
  {
    match step
    case Dial => s.(backlog := s.backlog + [NEW_CLIENT], listenerReady := true)
    case PeerSend(t, data) => Update(s, t, s.sockets[t].PeerSends(data))
    case PeerClose(t) => Update(s, t, s.sockets[t].PeerCloses())
    case PeerDrain(t) => Update(s, t, s.sockets[t].Drains())
    case BacklogSend(k, data) => s.(backlog := s.backlog[k := s.backlog[k].PeerSends(data)])
    case BacklogClose(k) => s.(backlog := s.backlog[k := s.backlog[k].PeerCloses()])
    case Poll(events) => Reported(s, events)
    case Dispatch =>
      var e := s.queue[0];
      if e.token == SERVER then s.(queue := s.queue[1..], phase := Accepting)
      else if e.token !in s.sockets then s.(phase := Unreachable)
      else s.(queue := s.queue[1..], phase := Reading(e.token))
    case AcceptOne =>
      s.(sockets := s.sockets[s.counter := s.backlog[0].Register(ReadEdge)], counter := s.counter + 1,
         backlog := s.backlog[1..])
    case AcceptBlocks => s.(phase := Dispatching)
    case ReadSome(n) => Update(s, s.phase.token, s.sockets[s.phase.token].Read(n))
    case ReadBlocks => Update(s, s.phase.token, s.sockets[s.phase.token].EndCall()).(phase := Drained(s.phase.token))
    case ReadEof => AtEof(s, s.phase.token, s.sockets[s.phase.token])
    case ArmWrite => Update(s, s.phase.token, s.sockets[s.phase.token].Register(WriteOneshot)).(phase := Dispatching)
    case WriteAll(w) =>
      var t := s.queue[0].token;
      var c := s.sockets[t];
      Update(s, t, c.Write(|c.message|).(writable := w)).(queue := s.queue[1..], phase := Flushed(t))
    case WriteFails(n) =>
      var t := s.queue[0].token;
      Remove(s, t, s.sockets[t].Write(n)).(queue := s.queue[1..])
    case ArmRead => Update(s, s.phase.token, s.sockets[s.phase.token].Register(ReadEdge)).(phase := Dispatching)
    case EndBatch => s.(phase := Polling)
  }

  predicate Init(s: State) {
    s.sockets == map[] && s.removed == map[] && s.counter == 1 && s.backlog == []
    && !s.listenerReady && s.queue == [] && s.phase == Polling
  }

  predicate Run(s0: State, steps: seq<Step>, s: State)
    decreases |steps|
  {
    if steps == [] then s == s0
    else Enabled(s0, steps[0]) && Run(Next(s0, steps[0]), steps[1..], s)
  }

  lemma {:induction false} RunAppend(s0: State, first: seq<Step>, s1: State, more: seq<Step>, s2: State)
    requires Run(s0, first, s1) && Run(s1, more, s2)
    ensures Run(s0, first + more, s2)
    decreases |first|
  {
    if first == [] {
      assert first + more == more;
    } else {
      assert (first + more)[1..] == first[1..] + more;
      RunAppend(Next(s0, first[0]), first[1..], s1, more, s2);
    }
  }

  lemma RunOne(s: State, step: Step)
    requires Enabled(s, step)
    ensures Run(s, [step], Next(s, step))
  {
  }

  lemma RunMore(s0: State, steps: seq<Step>, s: State, step: Step)
    requires Run(s0, steps, s) && Enabled(s, step)
    ensures Run(s0, steps + [step], Next(s, step))
  {
    RunOne(s, step);
    RunAppend(s0, steps, s, [step], Next(s, step));
  }

  // ----- what was read, kept and echoed -----

  function Concat(chunks: seq<seq<Byte>>): seq<Byte> {
    if chunks == [] then [] else Concat(chunks[..|chunks| - 1]) + chunks[|chunks| - 1]
  }

  /** What survives of the chunks. */
  function Kept(chunks: seq<seq<Byte>>): seq<Byte> {
    if chunks == [] then [] else Kept(chunks[..|chunks| - 1]) + Whole(chunks[|chunks| - 1])
  }

  predicate NoneLost(chunks: seq<seq<Byte>>) {
    forall chunk :: chunk in chunks ==> Utf8.Valid(chunk)
  }

  lemma OneMore(chunks: seq<seq<Byte>>, chunk: seq<Byte>)
    ensures Concat(chunks + [chunk]) == Concat(chunks) + chunk
    ensures Kept(chunks + [chunk]) == Kept(chunks) + Whole(chunk)
    ensures NoneLost(chunks + [chunk]) <==> NoneLost(chunks) && Utf8.Valid(chunk)
  {
    assert (chunks + [chunk])[..|chunks|] == chunks;
    assert chunk in chunks + [chunk] && forall c :: c in chunks ==> c in chunks + [chunk];
  }

  /** Something is missing exactly when a chunk was lost: a lost chunk is never empty. */
  lemma {:induction false} KeptIsAll(chunks: seq<seq<Byte>>)
    ensures NoneLost(chunks) ==> Kept(chunks) == Concat(chunks)
    ensures !NoneLost(chunks) ==> |Kept(chunks)| < |Concat(chunks)|
  {
    if chunks != [] {
      var most, last := chunks[..|chunks| - 1], chunks[|chunks| - 1];
      KeptIsAll(most);
      assert chunks == most + [last];
      OneMore(most, last);
      assert !Utf8.Valid(last) ==> last != [];
    }
  }

  // ----- the invariant -----

  /** What was read is the chunks of the calls so far and the one under way; what was kept of them is what
      was echoed, followed by what is buffered. */
  predicate Conserved(c: Client) {
    c.consumed <= |c.input| && c.input[..c.consumed] == Concat(c.drained) + c.chunk
    && Kept(c.drained) == c.output + c.message
  }

  predicate Handling(s: State, t: nat) {
    (s.phase.Reading? || s.phase.Drained? || s.phase.Flushed? || s.phase.Panicked?) && s.phase.token == t
  }

  /** What the event loop has in hand for a client. */
  datatype Situation = Resting | Queued(writing: bool) | InHand(phase: Phase)

  function Situated(s: State, t: nat): Situation {
    if Handling(s, t) then InHand(s.phase)
    else match Waiting(s.queue, t) case Some(w) => Queued(w) case None => Resting
  }

  /** A client that waits for input, or to write, with an event pending if there is reason for one. */
  predicate Attended(c: Client) {
    (c.interest.ReadEdge? && c.message == [] && (c.Readable() ==> c.ready))
    || (c.interest.WriteOneshot? && (c.writable ==> c.ready))
  }

  predicate ClientOk(c: Client, situation: Situation) {
    Conserved(c) &&
    match situation
    case Resting => c.chunk == [] && Attended(c)
    case Queued(writing) =>
      c.chunk == [] && if writing then c.interest.Disarmed? else c.interest.ReadEdge? && c.message == []
    case InHand(phase) =>
      if phase.Flushed? then c.chunk == [] && c.interest.Disarmed? && c.message == []
      else c.interest.ReadEdge? && (phase.Drained? ==> c.chunk == [])
  }

  predicate SocketFine(s: State, t: nat) {
    t in s.sockets ==> ClientOk(s.sockets[t], Situated(s, t))
  }

  /** A client goes between two calls. */
  predicate GoneOk(c: Client) {
    Conserved(c) && c.chunk == []
  }

  predicate BacklogOk(c: Client) {
    c.consumed == 0 && c.chunk == [] && c.drained == [] && c.message == [] && c.output == []
  }

  predicate EventOk(s: State, e: Event) {
    e.token in s.sockets || e == Event(SERVER, false)
  }

  predicate QueueOk(s: State) {
    && Distinct(s.queue) && (forall e :: e in s.queue ==> EventOk(s, e))
    && (s.phase == Polling ==> s.queue == [])
    && (s.phase.Reading? || s.phase.Drained? || s.phase.Flushed? || s.phase.Panicked? ==>
          s.phase.token in s.sockets && Waiting(s.queue, s.phase.token) == None)
    && s.phase != Unreachable
  }

  predicate TokensOk(s: State) {
    && 1 <= s.counter
    && (forall t :: t in s.sockets ==> SERVER < t < s.counter && t !in s.removed)
    && (forall t :: t in s.removed ==> SERVER < t < s.counter)
  }

  predicate ListenerOk(s: State) {
    s.backlog != [] ==> s.listenerReady || Waiting(s.queue, SERVER).Some? || s.phase == Accepting
  }

  predicate OthersOk(s: State) {
    && (forall t :: t in s.removed ==> GoneOk(s.removed[t]))
    && (forall k :: 0 <= k < |s.backlog| ==> BacklogOk(s.backlog[k]))
  }

  ghost predicate SocketsOk(s: State) {
    forall t: nat :: SocketFine(s, t)
  }

  ghost predicate Inv(s: State) {
    TokensOk(s) && QueueOk(s) && ListenerOk(s) && OthersOk(s) && SocketsOk(s)
  }

  // ----- steps -----

  lemma ReadConserves(c: Client, n: nat)
    requires Conserved(c) && c.consumed + n <= |c.input|
    ensures Conserved(c.Read(n))
  {
    var data := c.input[c.consumed..c.consumed + n];
    assert c.input[..c.consumed + n] == c.input[..c.consumed] + data;
    assert (Concat(c.drained) + c.chunk) + data == Concat(c.drained) + (c.chunk + data);
  }

  lemma EndCallConserves(c: Client)
    requires Conserved(c)
    ensures Conserved(c.EndCall())
  {
    OneMore(c.drained, c.chunk);
    assert (Concat(c.drained) + c.chunk) + [] == Concat(c.drained) + c.chunk;
    assert (c.output + c.message) + Whole(c.chunk) == c.output + (c.message + Whole(c.chunk));
  }

  lemma WriteConserves(c: Client, n: nat)
    requires Conserved(c) && n <= |c.message|
    ensures Conserved(c.Write(n))
  {
    assert c.message == c.message[..n] + c.message[n..];
    assert c.output + (c.message[..n] + c.message[n..]) == (c.output + c.message[..n]) + c.message[n..];
  }

  lemma SentConserves(c: Client, data: seq<Byte>)
    requires Conserved(c)
    ensures Conserved(c.PeerSends(data))
  {
    assert (c.input + data)[..c.consumed] == c.input[..c.consumed];
  }

  /** A change of one live client in its own situation keeps the invariant. */
  lemma UpdateKeepsInv(s: State, t: nat, c: Client)
    requires Inv(s) && t in s.sockets && ClientOk(c, Situated(s, t))
    ensures Inv(Update(s, t, c))
  {
    var u := Update(s, t, c);
    forall k: nat ensures SocketFine(u, k) {
      assert SocketFine(s, k);
    }
    forall e | e in u.queue ensures EventOk(u, e) {
      assert EventOk(s, e);
    }
  }

  /** All clients but `t` are as they were, and in the same situation. */
  ghost predicate SameOthers(s: State, u: State, t: nat) {
    && u.counter == s.counter && u.backlog == s.backlog
    && (forall k: nat :: k != t ==> SameAt(s, u, k))
  }

  predicate SameAt(s: State, u: State, k: nat) {
    && (k in u.sockets <==> k in s.sockets) && (k in s.sockets ==> u.sockets[k] == s.sockets[k])
    && Situated(u, k) == Situated(s, k)
  }

  /** The queue is as it was, or the event of `t` has been taken off it. */
  predicate QueueMoved(s: State, u: State, t: nat) {
    u.queue == s.queue || (s.queue != [] && u.queue == s.queue[1..] && s.queue[0].token == t)
  }

  lemma MovedSituation(s: State, u: State, t: nat, k: nat)
    requires QueueMoved(s, u, t) && k != t && !Handling(s, k) && !Handling(u, k)
    ensures Situated(u, k) == Situated(s, k)
  {
  }

  lemma OtherSockets(s: State, u: State, t: nat)
    requires SocketsOk(s) && SameOthers(s, u, t) && SocketFine(u, t)
    ensures SocketsOk(u)
  {
    forall k: nat ensures SocketFine(u, k) {
      if k != t {
        assert SocketFine(s, k) && SameAt(s, u, k);
      }
    }
  }

  lemma MovedQueueOk(s: State, u: State, t: nat)
    requires QueueOk(s) && QueueMoved(s, u, t) && s.sockets.Keys <= u.sockets.Keys
    ensures Distinct(u.queue) && forall e :: e in u.queue ==> EventOk(u, e)
  {
    forall e | e in u.queue ensures EventOk(u, e) {
      assert e in s.queue && EventOk(s, e);
    }
  }

  lemma PeerKeepsInv(s: State, t: nat, c: Client)
    requires Inv(s) && t in s.sockets
    requires var was := s.sockets[t];
      (exists data :: c == was.PeerSends(data)) || c == was.PeerCloses() || c == was.Drains()
    ensures Inv(Update(s, t, c))
  {
    var was := s.sockets[t];
    assert SocketFine(s, t);
    if data :| c == was.PeerSends(data) {
      SentConserves(was, data);
    }
    UpdateKeepsInv(s, t, c);
  }

  lemma {:induction false} WaitingIsThere(queue: seq<Event>, t: nat)
    ensures Waiting(queue, t).Some? ==> Event(t, Waiting(queue, t).value) in queue
    ensures Waiting(queue, t).None? ==> forall e :: e in queue ==> e.token != t
  {
    if queue != [] {
      WaitingIsThere(queue[1..], t);
      assert queue == [queue[0]] + queue[1..];
    }
  }

  lemma PollKeepsSocket(s: State, events: seq<Event>, t: nat)
    requires Inv(s) && Enabled(s, Poll(events))
    ensures SocketFine(Next(s, Poll(events)), t)
  {
    assert SocketFine(s, t);
    WaitingIsThere(events, t);
    if Waiting(events, t).Some? {
      assert Pending(s, Event(t, Waiting(events, t).value));
    }
  }

  lemma PollKeepsInv(s: State, events: seq<Event>)
    requires Inv(s) && Enabled(s, Poll(events))
    ensures Inv(Next(s, Poll(events)))
  {
    var u := Next(s, Poll(events));
    forall t: nat ensures SocketFine(u, t) {
      PollKeepsSocket(s, events, t);
    }
    forall e | e in u.queue ensures EventOk(u, e) {
      assert Pending(s, e);
    }
  }

  lemma DispatchKeepsInv(s: State)
    requires Inv(s) && Enabled(s, Dispatch)
    ensures Inv(Next(s, Dispatch))
  {
    var u, e := Next(s, Dispatch), s.queue[0];
    assert e in s.queue && EventOk(s, e) && SocketFine(s, e.token);
    forall k: nat | k != e.token ensures SameAt(s, u, k) {
      MovedSituation(s, u, e.token, k);
    }
    OtherSockets(s, u, e.token);
    MovedQueueOk(s, u, e.token);
  }

  lemma AcceptedOk(c: Client)
    requires BacklogOk(c)
    ensures ClientOk(c.Register(ReadEdge), Resting)
  {
  }

  lemma AcceptKeepsInv(s: State)
    requires Inv(s) && Enabled(s, AcceptOne)
    ensures Inv(Next(s, AcceptOne))
  {
    var u := Next(s, AcceptOne);
    AcceptedOk(s.backlog[0]);
    WaitingIsThere(s.queue, s.counter);
    assert Event(s.counter, false) in s.queue ==> EventOk(s, Event(s.counter, false));
    assert Event(s.counter, true) in s.queue ==> EventOk(s, Event(s.counter, true));
    forall t: nat ensures SocketFine(u, t) {
      assert SocketFine(s, t);
    }
    forall e | e in u.queue ensures EventOk(u, e) {
      assert EventOk(s, e);
    }
  }

  lemma ReadKeepsInv(s: State, n: nat)
    requires Inv(s) && Enabled(s, ReadSome(n))
    ensures Inv(Next(s, ReadSome(n)))
  {
    var t := s.phase.token;
    assert SocketFine(s, t);
    ReadConserves(s.sockets[t], n);
    UpdateKeepsInv(s, t, s.sockets[t].Read(n));
  }

  /** The client in hand moves on to another phase. */
  lemma InHandKeepsInv(s: State, u: State, t: nat, c: Client)
    requires Inv(s) && t in s.sockets && Handling(s, t) && u == Update(s, t, c).(phase := u.phase)
    requires u.phase == Dispatching || Handling(u, t)
    requires ClientOk(c, Situated(u, t))
    ensures Inv(u)
  {
    forall k: nat | k != t ensures SameAt(s, u, k) {
      MovedSituation(s, u, t, k);
    }
    OtherSockets(s, u, t);
    MovedQueueOk(s, u, t);
  }

  lemma BlockingKeepsInv(s: State)
    requires Inv(s) && Enabled(s, ReadBlocks)
    ensures Inv(Next(s, ReadBlocks))
  {
    var t := s.phase.token;
    assert SocketFine(s, t);
    EndCallConserves(s.sockets[t]);
    InHandKeepsInv(s, Next(s, ReadBlocks), t, s.sockets[t].EndCall());
  }

  /** The socket in hand is registered anew: it is out of hand. */
  lemma ArmingKeepsInv(s: State, step: Step)
    requires Inv(s) && Enabled(s, step) && (step.ArmWrite? || step.ArmRead?)
    ensures Inv(Next(s, step))
  {
    var t := s.phase.token;
    assert SocketFine(s, t);
    InHandKeepsInv(s, Next(s, step), t, s.sockets[t].Register(if step.ArmWrite? then WriteOneshot else ReadEdge));
  }

  lemma RemovalKeepsInv(s: State, u: State, t: nat, c: Client)
    requires Inv(s) && t in s.sockets && GoneOk(c) && QueueMoved(s, u, t)
    requires u == Remove(s, t, c).(queue := u.queue) && Waiting(u.queue, t) == None
    requires (s.phase == Dispatching && u.queue != s.queue) || (Handling(s, t) && u.queue == s.queue)
    ensures Inv(u)
  {
    forall k: nat | k != t ensures SameAt(s, u, k) {
      MovedSituation(s, u, t, k);
    }
    OtherSockets(s, u, t);
    WaitingIsThere(u.queue, t);
    forall e | e in u.queue ensures EventOk(u, e) {
      assert e in s.queue && EventOk(s, e);
    }
  }

  lemma EofKeepsInv(s: State)
    requires Inv(s) && Enabled(s, ReadEof)
    ensures Inv(Next(s, ReadEof))
  {
    var u, t := Next(s, ReadEof), s.phase.token;
    var c := s.sockets[t];
    assert SocketFine(s, t);
    if c.chunk == [] {
      RemovalKeepsInv(s, u, t, c);
    } else if Utf8.Valid(c.chunk) {
      EndCallConserves(c);
      UpdateKeepsInv(s, t, c.EndCall());
    } else {
      assert s.sockets[t := c] == s.sockets;
      InHandKeepsInv(s, u, t, c);
    }
  }

  lemma WriteAllKeepsInv(s: State, w: bool)
    requires Inv(s) && Enabled(s, WriteAll(w))
    ensures Inv(Next(s, WriteAll(w)))
  {
    var u, t := Next(s, WriteAll(w)), s.queue[0].token;
    var c := s.sockets[t];
    assert SocketFine(s, t);
    WriteConserves(c, |c.message|);
    forall k: nat | k != t ensures SameAt(s, u, k) {
      MovedSituation(s, u, t, k);
    }
    OtherSockets(s, u, t);
    MovedQueueOk(s, u, t);
  }

  lemma WriteFailsKeepsInv(s: State, n: nat)
    requires Inv(s) && Enabled(s, WriteFails(n))
    ensures Inv(Next(s, WriteFails(n)))
  {
    var u, t := Next(s, WriteFails(n)), s.queue[0].token;
    assert SocketFine(s, t);
    WriteConserves(s.sockets[t], n);
    RemovalKeepsInv(s, u, t, s.sockets[t].Write(n));
  }

  predicate QuietStep(step: Step) {
    step.Dial? || step.BacklogSend? || step.BacklogClose? || step.AcceptBlocks? || step.EndBatch?
  }

  lemma QuietStepKeepsSockets(s: State, step: Step)
    requires Inv(s) && Enabled(s, step) && QuietStep(step)
    ensures SocketsOk(Next(s, step))
  {
    forall t: nat ensures SocketFine(Next(s, step), t) {
      assert SocketFine(s, t);
    }
  }

  /** Steps that leave clients, queue and the client in hand alone. */
  lemma QuietStepKeepsInv(s: State, step: Step)
    requires Inv(s) && Enabled(s, step)
    requires QuietStep(step)
    ensures Inv(Next(s, step))
  {
    QuietStepKeepsSockets(s, step);
    forall e | e in s.queue ensures EventOk(Next(s, step), e) {
      assert EventOk(s, e);
    }
  }

  lemma StepKeepsInv(s: State, step: Step)
    requires Inv(s) && Enabled(s, step)
    ensures Inv(Next(s, step))
  {
    match step {
      case PeerSend(t, data) => PeerKeepsInv(s, t, s.sockets[t].PeerSends(data));
      case PeerClose(t) => PeerKeepsInv(s, t, s.sockets[t].PeerCloses());
      case PeerDrain(t) => PeerKeepsInv(s, t, s.sockets[t].Drains());
      case Poll(events) => PollKeepsInv(s, events);
      case Dispatch => DispatchKeepsInv(s);
      case AcceptOne => AcceptKeepsInv(s);
      case ReadSome(n) => ReadKeepsInv(s, n);
      case ReadBlocks => BlockingKeepsInv(s);
      case ReadEof => EofKeepsInv(s);
      case ArmWrite => ArmingKeepsInv(s, step);
      case ArmRead => ArmingKeepsInv(s, step);
      case WriteAll(w) => WriteAllKeepsInv(s, w);
      case WriteFails(n) => WriteFailsKeepsInv(s, n);
      case _ => QuietStepKeepsInv(s, step);
    }
  }

  lemma {:induction false} RunKeepsInv(s0: State, steps: seq<Step>, s: State)
    requires Inv(s0) && Run(s0, steps, s)
    ensures Inv(s)
    decreases |steps|
  {
    if steps != [] {
      StepKeepsInv(s0, steps[0]);
      RunKeepsInv(Next(s0, steps[0]), steps[1..], s);
    }
  }

  // ----- the guarantees -----

  /** What a live client has had read is the chunks of the calls so far, each drained until the socket
      blocked, and the one under way; the whole ones among them, in order, are what was echoed followed by
      the buffered message. */
  lemma WholeChunksAreEchoed(s0: State, steps: seq<Step>, s: State, t: nat)
    requires Init(s0) && Run(s0, steps, s) && t in s.sockets
    ensures var c := s.sockets[t];
      c.consumed <= |c.input| && c.input[..c.consumed] == Concat(c.drained) + c.chunk
      && Kept(c.drained) == c.output + c.message && (!Handling(s, t) ==> c.chunk == [])
  {
    RunKeepsInv(s0, steps, s);
    assert SocketFine(s, t);
  }

  /** Bytes read are bytes echoed, buffered or just being read, exactly when no call of this client has
      drained a chunk that is not whole characters; then the output is a prefix of the input. The same
      holds of a removed client, whose buffered message is gone with it: all that was read came back
      exactly when nothing was buffered either. */
  lemma OutputIsPrefixOfInput(s0: State, steps: seq<Step>, s: State, t: nat)
    requires Init(s0) && Run(s0, steps, s)
    ensures t in s.sockets ==>
      var c := s.sockets[t];
      c.consumed <= |c.input|
      && (c.input[..c.consumed] == c.output + c.message + c.chunk <==> NoneLost(c.drained))
    ensures t in s.sockets && NoneLost(s.sockets[t].drained) ==> s.sockets[t].output <= s.sockets[t].input
    ensures t in s.removed ==>
      var c := s.removed[t];
      c.consumed <= |c.input|
      && (c.input[..c.consumed] == c.output + c.message <==> NoneLost(c.drained))
      && (c.input[..c.consumed] == c.output <==> NoneLost(c.drained) && c.message == [])
      && (NoneLost(c.drained) ==> c.output <= c.input)
  {
    RunKeepsInv(s0, steps, s);
    if t in s.sockets {
      assert SocketFine(s, t);
      EchoedWhenNoneLost(s.sockets[t]);
    }
    if t in s.removed {
      GoneWhenNoneLost(s.removed[t]);
    }
  }

  lemma GoneWhenNoneLost(c: Client)
    requires GoneOk(c)
    ensures c.input[..c.consumed] == c.output + c.message <==> NoneLost(c.drained)
    ensures c.input[..c.consumed] == c.output <==> NoneLost(c.drained) && c.message == []
    ensures NoneLost(c.drained) ==> c.output <= c.input
  {
    EchoedWhenNoneLost(c);
    KeptIsAll(c.drained);
    assert c.output + c.message + [] == c.output + c.message;
    assert c.message == [] ==> c.output + c.message == c.output;
  }

  lemma EchoedWhenNoneLost(c: Client)
    requires Conserved(c)
    ensures c.input[..c.consumed] == c.output + c.message + c.chunk <==> NoneLost(c.drained)
    ensures NoneLost(c.drained) ==> c.output <= c.input
  {
    KeptIsAll(c.drained);
    var all, kept := Concat(c.drained), c.output + c.message;
    if all + c.chunk == kept + c.chunk {
      assert (all + c.chunk)[..|all|] == all && |all| == |kept| && (kept + c.chunk)[..|kept|] == kept;
    }
    assert c.output <= kept && all <= c.input[..c.consumed];
  }

  /** A live client is never stuck. While the loop is not at work on it, it either waits for input,
      with a readable event pending if there is any, or waits to write, with writability armed and
      a writable event pending if the socket is writable. Waiting connections are announced too. */
  lemma NeverStuck(s0: State, steps: seq<Step>, s: State, t: nat)
    requires Init(s0) && Run(s0, steps, s) && t in s.sockets && !Handling(s, t)
    ensures var c := s.sockets[t];
      (c.interest.ReadEdge? && (c.Readable() ==> c.ready || Waiting(s.queue, t).Some?))
      || (c.interest.WriteOneshot? && (c.writable ==> c.ready))
      || (c.interest.Disarmed? && Waiting(s.queue, t).Some?)
    ensures s.backlog != [] ==> s.listenerReady || Waiting(s.queue, SERVER).Some? || s.phase == Accepting
  {
    RunKeepsInv(s0, steps, s);
    assert SocketFine(s, t);
  }

  /** Every reported token is found in the map: the `unreachable!` arms are never reached, and all
      events still to be handled belong to the listener or to live clients. */
  lemma TokensAreFound(s0: State, steps: seq<Step>, s: State)
    requires Init(s0) && Run(s0, steps, s)
    ensures s.phase != Unreachable
    ensures forall e :: e in s.queue ==> e == Event(SERVER, false) || e.token in s.sockets
  {
    RunKeepsInv(s0, steps, s);
    forall e | e in s.queue ensures e == Event(SERVER, false) || e.token in s.sockets {
      assert EventOk(s, e);
    }
  }

  /** The token of a new client was never used before and is not the listener's. */
  lemma TokensAreFresh(s0: State, steps: seq<Step>, s: State)
    requires Init(s0) && Run(s0, steps, s) && Enabled(s, AcceptOne)
    ensures var t := s.counter;
      t != SERVER && t !in s.sockets && t !in s.removed && t in Next(s, AcceptOne).sockets
    ensures forall k :: k in s.sockets || k in s.removed ==> k < s.counter < Next(s, AcceptOne).counter
  {
    RunKeepsInv(s0, steps, s);
  }

  // ----- streams that are whole characters wherever they pause -----

  /** Everything the peers send at once is whole characters. */
  predicate WholeArrivals(steps: seq<Step>) {
    forall step :: step in steps ==> WholeArrival(step)
  }

  predicate WholeArrival(step: Step) {
    (step.PeerSend? ==> Utf8.Valid(step.data)) && (step.BacklogSend? ==> Utf8.Valid(step.data))
  }

  /** Nothing was lost, and what is to be read completes the chunk under way. */
  predicate Unbroken(c: Client) {
    c.consumed <= |c.input| && NoneLost(c.drained) && Utf8.Valid(c.chunk + c.input[c.consumed..])
  }

  predicate UnbrokenAt(s: State, t: nat) {
    (t in s.sockets ==> Unbroken(s.sockets[t])) && (t in s.removed ==> NoneLost(s.removed[t].drained))
  }

  ghost predicate AllUnbroken(s: State) {
    && (forall t: nat :: UnbrokenAt(s, t))
    && (forall k :: 0 <= k < |s.backlog| ==> Unbroken(s.backlog[k]))
    && !s.phase.Panicked?
  }

  lemma SentUnbroken(c: Client, data: seq<Byte>)
    requires Unbroken(c) && Utf8.Valid(data)
    ensures Unbroken(c.PeerSends(data))
  {
    Utf8.ValidAppend(c.chunk, c.input[c.consumed..], data);
    assert (c.input + data)[c.consumed..] == c.input[c.consumed..] + data;
  }

  lemma ReadUnbroken(c: Client, n: nat)
    requires Unbroken(c) && c.consumed + n <= |c.input|
    ensures Unbroken(c.Read(n))
  {
    assert c.input[c.consumed..] == c.input[c.consumed..c.consumed + n] + c.input[c.consumed + n..];
    assert c.chunk + (c.input[c.consumed..c.consumed + n] + c.input[c.consumed + n..])
        == (c.chunk + c.input[c.consumed..c.consumed + n]) + c.input[c.consumed + n..];
  }

  /** A chunk that was read to the end of what there is, is whole. */
  lemma DrainedIsWhole(c: Client)
    requires Unbroken(c) && c.consumed >= |c.input|
    ensures Utf8.Valid(c.chunk) && Unbroken(c.EndCall())
  {
    assert c.input[c.consumed..] == [] && c.chunk + [] == c.chunk && [] + c.input[c.consumed..] == [];
    OneMore(c.drained, c.chunk);
  }

  /** The steps that read. */
  lemma ReadingKeepsUnbroken(s: State, step: Step)
    requires Inv(s) && AllUnbroken(s) && Enabled(s, step) && (step.ReadSome? || step.ReadBlocks? || step.ReadEof?)
    ensures forall t: nat :: UnbrokenAt(Next(s, step), t)
  {
    assert UnbrokenAt(s, s.phase.token);
    var c := s.sockets[s.phase.token];
    match step {
      case ReadSome(n) => ReadUnbroken(c, n);
      case _ => DrainedIsWhole(c);
    }
    forall t: nat ensures UnbrokenAt(Next(s, step), t) {
      assert UnbrokenAt(s, t);
    }
  }

  lemma ArrivalKeepsUnbroken(s: State, k: nat, data: seq<Byte>, t: nat)
    requires UnbrokenAt(s, t) && Enabled(s, PeerSend(k, data)) && Utf8.Valid(data)
    ensures UnbrokenAt(Next(s, PeerSend(k, data)), t)
  {
    if k == t {
      SentUnbroken(s.sockets[t], data);
    }
  }

  lemma PollKeepsUnbroken(s: State, events: seq<Event>, t: nat)
    requires UnbrokenAt(s, t) && Enabled(s, Poll(events))
    ensures UnbrokenAt(Next(s, Poll(events)), t)
  {
  }

  lemma WritingKeepsUnbroken(s: State, step: Step, t: nat)
    requires UnbrokenAt(s, t) && Enabled(s, step) && (step.WriteAll? || step.WriteFails?)
    ensures UnbrokenAt(Next(s, step), t)
  {
  }

  /** The steps that leave what a client has sent and had read alone, but for what its peer adds. */
  lemma OtherStepKeepsUnbroken(s: State, step: Step, t: nat)
    requires Inv(s) && AllUnbroken(s) && Enabled(s, step) && WholeArrival(step)
    requires !step.ReadSome? && !step.ReadBlocks? && !step.ReadEof?
    ensures UnbrokenAt(Next(s, step), t)
  {
    assert UnbrokenAt(s, t);
    match step {
      case PeerSend(k, data) => ArrivalKeepsUnbroken(s, k, data, t);
      case Poll(events) => PollKeepsUnbroken(s, events, t);
      case WriteAll(_) => WritingKeepsUnbroken(s, step, t);
      case WriteFails(_) => WritingKeepsUnbroken(s, step, t);
      case AcceptOne => assert Unbroken(s.backlog[0]);
      case _ =>
    }
  }

  lemma StepKeepsUnbrokenAt(s: State, step: Step, t: nat)
    requires Inv(s) && AllUnbroken(s) && Enabled(s, step) && WholeArrival(step)
    ensures UnbrokenAt(Next(s, step), t)
  {
    if step.ReadSome? || step.ReadBlocks? || step.ReadEof? {
      ReadingKeepsUnbroken(s, step);
    } else {
      OtherStepKeepsUnbroken(s, step, t);
    }
  }

  lemma StepKeepsUnbroken(s: State, step: Step)
    requires Inv(s) && AllUnbroken(s) && Enabled(s, step) && WholeArrival(step)
    ensures AllUnbroken(Next(s, step))
  {
    var u := Next(s, step);
    forall t: nat ensures UnbrokenAt(u, t) {
      StepKeepsUnbrokenAt(s, step, t);
    }
    match step {
      case Dial => assert Unbroken(NEW_CLIENT);
      case BacklogSend(k, data) => SentUnbroken(s.backlog[k], data);
      case ReadEof =>
        assert UnbrokenAt(s, s.phase.token);
        DrainedIsWhole(s.sockets[s.phase.token]);
      case _ =>
    }
  }

  lemma {:induction false} RunKeepsUnbroken(s0: State, steps: seq<Step>, s: State)
    requires Inv(s0) && AllUnbroken(s0) && Run(s0, steps, s) && WholeArrivals(steps)
    ensures AllUnbroken(s)
    decreases |steps|
  {
    if steps != [] {
      assert WholeArrival(steps[0]);
      StepKeepsInv(s0, steps[0]);
      StepKeepsUnbroken(s0, steps[0]);
      RunKeepsUnbroken(Next(s0, steps[0]), steps[1..], s);
    }
  }

  /** If no peer pauses inside a character, no byte that was read is lost to the encoding and the server
      does not panic, however the arrivals are read. Of a client that has gone, only what was still
      buffered did not come back. */
  lemma WholeArrivalsAreEchoed(s0: State, steps: seq<Step>, s: State, t: nat)
    requires Init(s0) && Run(s0, steps, s) && WholeArrivals(steps)
    ensures !s.phase.Panicked?
    ensures t in s.sockets ==>
      var c := s.sockets[t];
      c.consumed <= |c.input| && c.input[..c.consumed] == c.output + c.message + c.chunk && c.output <= c.input
    ensures t in s.removed ==>
      var c := s.removed[t];
      c.consumed <= |c.input| && c.input[..c.consumed] == c.output + c.message && c.output <= c.input
      && (c.output == c.input[..c.consumed] <==> c.message == [])
  {
    RunKeepsInv(s0, steps, s);
    RunKeepsUnbroken(s0, steps, s);
    assert UnbrokenAt(s, t);
    OutputIsPrefixOfInput(s0, steps, s, t);
  }
}
