/**
 Arrivals at the event-driven echo server. What arrives between two pauses comes back whole or not at
 all; a well-formed stream that pauses inside a character comes back with holes.
 */
module MioPauses {
  import opened Wrappers
  import opened MioEcho
  import Utf8

  // ----- one client, one arrival at a time -----

  /** The loop at rest with one client. */
  function Alone(t: nat, c: Client): State {
    State(map[t := c], map[], t + 1, [], false, [], Polling)
  }

  /** The client has nothing to read, and nothing is in hand for it. */
  predicate AtRest(c: Client) {
    c.interest.ReadEdge? && !c.ready && !c.eof && c.consumed == |c.input| && c.chunk == [] && c.message == []
  }

  function Echoed(c: Client, data: seq<Byte>): Client {
    c.(input := c.input + data, consumed := |c.input| + |data|, drained := c.drained + [data],
       output := c.output + Whole(data), writable := true)
  }

  /** The client between the two halves: its chunk has been drained, and it waits to write. */
  function Armed(c: Client, data: seq<Byte>): Client {
    c.(input := c.input + data, consumed := |c.input| + |data|, drained := c.drained + [data],
       message := Whole(data), interest := WriteOneshot, ready := c.writable)
  }

  function ReadHalf(t: nat, data: seq<Byte>): seq<Step> {
    [PeerSend(t, data)] + HandleSteps(t, |data|)
  }

  function HandleSteps(t: nat, n: nat): seq<Step> {
    [Poll([Event(t, false)])] + ([Dispatch] + ([ReadSome(n)] + ([ReadBlocks] + ([ArmWrite] + [EndBatch]))))
  }

  function WriteHalf(t: nat): seq<Step> {
    [PeerDrain(t)] + ([Poll([Event(t, true)])] + ([WriteAll(true)] + ([ArmRead] + [EndBatch])))
  }

  lemma StepThenRun(s: State, step: Step, u: State, more: seq<Step>, v: State)
    requires Enabled(s, step) && u == Next(s, step) && Run(u, more, v)
    ensures Run(s, [step] + more, v)
  {
    assert ([step] + more)[1..] == more;
  }

  lemma PollOne(t: nat, c: Client, w: bool)
    requires t != SERVER && c.ready && w == c.interest.WriteOneshot?
    ensures Enabled(Alone(t, c), Poll([Event(t, w)]))
    ensures Next(Alone(t, c), Poll([Event(t, w)]))
         == Alone(t, c.Report()).(queue := [Event(t, w)], phase := Dispatching)
  {
    var e := Event(t, w);
    assert [e][1..] == [] && Waiting([e], t) == Some(w);
    assert Next(Alone(t, c), Poll([e])).sockets == map[t := c.Report()];
  }

  function InHandOf(t: nat, c: Client, phase: Phase): State {
    Alone(t, c).(phase := phase)
  }

  lemma AloneUpdates(t: nat, c: Client, d: Client, phase: Phase)
    ensures Update(InHandOf(t, c, phase), t, d) == InHandOf(t, d, phase)
  {
    assert map[t := c][t := d] == map[t := d];
  }

  lemma AloneReads(t: nat, c: Client)
    requires c.consumed < |c.input|
    ensures var s, n := InHandOf(t, c, Reading(t)), |c.input| - c.consumed;
      Enabled(s, ReadSome(n)) && Next(s, ReadSome(n)) == InHandOf(t, c.Read(n), Reading(t))
  {
    AloneUpdates(t, c, c.Read(|c.input| - c.consumed), Reading(t));
  }

  lemma AloneBlocks(t: nat, c: Client)
    requires !c.Readable()
    ensures var s := InHandOf(t, c, Reading(t));
      Enabled(s, ReadBlocks) && Next(s, ReadBlocks) == InHandOf(t, c.EndCall(), Drained(t))
  {
    AloneUpdates(t, c, c.EndCall(), Reading(t));
  }

  lemma AloneArms(t: nat, c: Client)
    ensures Next(InHandOf(t, c, Drained(t)), ArmWrite) == InHandOf(t, c.Register(WriteOneshot), Dispatching)
    ensures Next(InHandOf(t, c, Flushed(t)), ArmRead) == InHandOf(t, c.Register(ReadEdge), Dispatching)
  {
    AloneUpdates(t, c, c.Register(WriteOneshot), Drained(t));
    AloneUpdates(t, c, c.Register(ReadEdge), Flushed(t));
  }

  lemma AloneEnds(t: nat, c: Client)
    ensures Run(InHandOf(t, c, Dispatching), [EndBatch], Alone(t, c))
  {
    RunOne(InHandOf(t, c, Dispatching), EndBatch);
  }

  /** The three changes to a client whose input is read to the end. */
  function ReadOut(c: Client): Client
    requires c.consumed <= |c.input|
  {
    c.Read(|c.input| - c.consumed).EndCall().Register(WriteOneshot)
  }

  lemma ArmingEnds(t: nat, c: Client)
    ensures Run(InHandOf(t, c, Drained(t)), [ArmWrite] + [EndBatch], Alone(t, c.Register(WriteOneshot)))
    ensures Run(InHandOf(t, c, Flushed(t)), [ArmRead] + [EndBatch], Alone(t, c.Register(ReadEdge)))
  {
    AloneArms(t, c);
    AloneEnds(t, c.Register(WriteOneshot));
    AloneEnds(t, c.Register(ReadEdge));
    StepThenRun(InHandOf(t, c, Drained(t)), ArmWrite, InHandOf(t, c.Register(WriteOneshot), Dispatching), [EndBatch],
                Alone(t, c.Register(WriteOneshot)));
    StepThenRun(InHandOf(t, c, Flushed(t)), ArmRead, InHandOf(t, c.Register(ReadEdge), Dispatching), [EndBatch],
                Alone(t, c.Register(ReadEdge)));
  }

  lemma BlockingEnds(t: nat, c: Client)
    requires !c.Readable()
    ensures Run(InHandOf(t, c, Reading(t)), [ReadBlocks] + ([ArmWrite] + [EndBatch]),
                Alone(t, c.EndCall().Register(WriteOneshot)))
  {
    AloneBlocks(t, c);
    ArmingEnds(t, c.EndCall());
    StepThenRun(InHandOf(t, c, Reading(t)), ReadBlocks, InHandOf(t, c.EndCall(), Drained(t)), [ArmWrite] + [EndBatch],
                Alone(t, c.EndCall().Register(WriteOneshot)));
  }

  lemma ReadingDrains(t: nat, c: Client, n: nat)
    requires 0 < n == |c.input| - c.consumed && !c.eof
    ensures Run(InHandOf(t, c, Reading(t)), [ReadSome(n)] + ([ReadBlocks] + ([ArmWrite] + [EndBatch])),
                Alone(t, ReadOut(c)))
  {
    AloneReads(t, c);
    BlockingEnds(t, c.Read(n));
    StepThenRun(InHandOf(t, c, Reading(t)), ReadSome(n), InHandOf(t, c.Read(n), Reading(t)),
                [ReadBlocks] + ([ArmWrite] + [EndBatch]), Alone(t, ReadOut(c)));
  }

  /** The client with the arrival read into its chunk. */
  function ReadWhole(c: Client, data: seq<Byte>): Client {
    c.(input := c.input + data, consumed := |c.input| + |data|, chunk := data)
  }

  lemma ArrivalIsRead(c: Client, data: seq<Byte>)
    requires AtRest(c)
    ensures c.PeerSends(data).Report().Read(|data|) == ReadWhole(c, data)
  {
    SliceBehind(c.input, data);
  }

  lemma WholeIsArmed(c: Client, data: seq<Byte>)
    requires AtRest(c)
    ensures ReadWhole(c, data).EndCall().Register(WriteOneshot) == Armed(c, data)
  {
    assert [] + Whole(data) == Whole(data);
  }

  lemma ReadOutIsArmed(c: Client, data: seq<Byte>)
    requires AtRest(c)
    ensures ReadOut(c.PeerSends(data).Report()) == Armed(c, data)
  {
    ArrivalIsRead(c, data);
    WholeIsArmed(c, data);
  }

  lemma SliceBehind(a: seq<Byte>, b: seq<Byte>)
    ensures (a + b)[|a|..|a| + |b|] == b && [] + b == b
  {
  }

  /** `poll` reports the arrival and the loop turns to the client. */
  lemma ArrivalIsDispatched(t: nat, c: Client, rest: seq<Step>, goal: State)
    requires t != SERVER && c.ready && c.interest.ReadEdge? && Run(InHandOf(t, c.Report(), Reading(t)), rest, goal)
    ensures Run(Alone(t, c), [Poll([Event(t, false)])] + ([Dispatch] + rest), goal)
  {
    var e := Event(t, false);
    PollOne(t, c, false);
    var s2 := InHandOf(t, c.Report(), Dispatching).(queue := [e]);
    assert [e][1..] == [];
    StepThenRun(s2, Dispatch, InHandOf(t, c.Report(), Reading(t)), rest, goal);
    StepThenRun(Alone(t, c), Poll([e]), s2, [Dispatch] + rest, goal);
  }

  lemma ReadHalfRuns(t: nat, c: Client, data: seq<Byte>)
    requires t != SERVER && AtRest(c) && data != []
    ensures Run(Alone(t, c), ReadHalf(t, data), Alone(t, Armed(c, data)))
  {
    var rest := [ReadSome(|data|)] + ([ReadBlocks] + ([ArmWrite] + [EndBatch]));
    var sent := c.PeerSends(data);
    ReadingDrains(t, sent.Report(), |data|);
    ReadOutIsArmed(c, data);
    ArrivalIsDispatched(t, sent, rest, Alone(t, Armed(c, data)));
    AloneUpdates(t, c, sent, Polling);
    StepThenRun(Alone(t, c), PeerSend(t, data), Alone(t, sent), HandleSteps(t, |data|), Alone(t, Armed(c, data)));
  }

  /** What a writable event does to the client it is for. */
  function WrittenOut(c: Client): Client {
    c.Write(|c.message|).(writable := true).Register(ReadEdge)
  }

  lemma WritingFlushes(t: nat, c: Client)
    requires t != SERVER
    ensures Run(InHandOf(t, c, Dispatching).(queue := [Event(t, true)]), [WriteAll(true)] + ([ArmRead] + [EndBatch]),
                Alone(t, WrittenOut(c)))
  {
    var e, written := Event(t, true), c.Write(|c.message|).(writable := true);
    assert [e][1..] == [] && map[t := c][t := written] == map[t := written];
    ArmingEnds(t, written);
    StepThenRun(InHandOf(t, c, Dispatching).(queue := [e]), WriteAll(true), InHandOf(t, written, Flushed(t)),
                [ArmRead] + [EndBatch], Alone(t, WrittenOut(c)));
  }

  lemma WrittenOutIsEchoed(c: Client, data: seq<Byte>)
    requires AtRest(c)
    ensures WrittenOut(Armed(c, data).Drains().Report()) == Echoed(c, data)
  {
    assert Whole(data)[..|Whole(data)|] == Whole(data) && Whole(data)[|Whole(data)|..] == [];
  }

  lemma WriteHalfRuns(t: nat, c: Client, data: seq<Byte>)
    requires t != SERVER && AtRest(c)
    ensures Run(Alone(t, Armed(c, data)), WriteHalf(t), Alone(t, Echoed(c, data)))
  {
    var goal, rest := Alone(t, Echoed(c, data)), [WriteAll(true)] + ([ArmRead] + [EndBatch]);
    var d, e := Armed(c, data).Drains(), Event(t, true);
    PollOne(t, d, true);
    WritingFlushes(t, d.Report());
    WrittenOutIsEchoed(c, data);
    StepThenRun(Alone(t, d), Poll([e]), InHandOf(t, d.Report(), Dispatching).(queue := [e]), rest, goal);
    AloneUpdates(t, Armed(c, data), d, Polling);
    StepThenRun(Alone(t, Armed(c, data)), PeerDrain(t), Alone(t, d), [Poll([e])] + rest, goal);
  }

  // ----- what the peers send -----

  function Sent(step: Step): seq<seq<Byte>> {
    match step
    case PeerSend(_, data) => [data]
    case BacklogSend(_, data) => [data]
    case _ => []
  }

  /** All that the peers send, one piece per arrival. */
  function Arrivals(steps: seq<Step>): seq<seq<Byte>> {
    if steps == [] then [] else Sent(steps[0]) + Arrivals(steps[1..])
  }

  lemma {:induction false} ArrivalsAppend(a: seq<Step>, b: seq<Step>)
    ensures Arrivals(a + b) == Arrivals(a) + Arrivals(b)
  {
    if a == [] {
      assert a + b == b;
    } else {
      assert (a + b)[1..] == a[1..] + b;
      ArrivalsAppend(a[1..], b);
    }
  }

  predicate Quiet(steps: seq<Step>) {
    forall step :: step in steps ==> Sent(step) == []
  }

  lemma {:induction false} NothingSent(steps: seq<Step>)
    requires Quiet(steps)
    ensures Arrivals(steps) == []
  {
    if steps != [] {
      NothingSent(steps[1..]);
    }
  }

  lemma OneSent(t: nat, data: seq<Byte>, rest: seq<Step>)
    requires Quiet(rest)
    ensures Arrivals([PeerSend(t, data)] + rest) == [data]
  {
    NothingSent(rest);
    assert ([PeerSend(t, data)] + rest)[1..] == rest;
  }

  lemma QuietSteps(t: nat, n: nat)
    ensures Quiet(HandleSteps(t, n)) && Quiet(WriteHalf(t)) && Quiet(FirstSteps())
  {
  }

  lemma {:induction false} WholeArrivalsAre(steps: seq<Step>)
    ensures WholeArrivals(steps) <==> NoneLost(Arrivals(steps))
  {
    if steps != [] {
      WholeArrivalsAre(steps[1..]);
      var first, rest := Sent(steps[0]), Arrivals(steps[1..]);
      assert WholeArrival(steps[0]) <==> NoneLost(first);
      assert steps == [steps[0]] + steps[1..];
      assert WholeArrivals(steps) <==> WholeArrival(steps[0]) && WholeArrivals(steps[1..]);
      NoneLostAppend(first, rest);
    }
  }

  lemma NoneLostAppend(a: seq<seq<Byte>>, b: seq<seq<Byte>>)
    ensures NoneLost(a + b) <==> NoneLost(a) && NoneLost(b)
  {
    assert forall chunk :: chunk in a + b <==> chunk in a || chunk in b;
  }

  // ----- arrivals one by one -----

  /** A run in which the peers send just `arrivals`. */
  predicate Serves(s: State, steps: seq<Step>, arrivals: seq<seq<Byte>>, u: State) {
    Run(s, steps, u) && Arrivals(steps) == arrivals
  }

  lemma ServesAppend(s: State, a: seq<Step>, u: State, b: seq<Step>, v: State,
                     first: seq<seq<Byte>>, more: seq<seq<Byte>>)
    requires Serves(s, a, first, u) && Serves(u, b, more, v)
    ensures Serves(s, a + b, first + more, v)
  {
    RunAppend(s, a, u, b, v);
    ArrivalsAppend(a, b);
  }

  lemma ReadHalfServes(t: nat, c: Client, data: seq<Byte>)
    requires t != SERVER && AtRest(c) && data != []
    ensures Serves(Alone(t, c), ReadHalf(t, data), [data], Alone(t, Armed(c, data)))
  {
    ReadHalfRuns(t, c, data);
    QuietSteps(t, |data|);
    OneSent(t, data, HandleSteps(t, |data|));
  }

  lemma WriteHalfServes(t: nat, c: Client, data: seq<Byte>)
    requires t != SERVER && AtRest(c)
    ensures Serves(Alone(t, Armed(c, data)), WriteHalf(t), [], Alone(t, Echoed(c, data)))
  {
    WriteHalfRuns(t, c, data);
    QuietSteps(t, 0);
    NothingSent(WriteHalf(t));
  }

  /** A peer that sends nothing changes nothing. */
  lemma EmptyArrival(t: nat, c: Client)
    requires t != SERVER && AtRest(c)
    ensures Serves(Alone(t, c), [PeerSend(t, [])], [[]], Alone(t, c))
  {
    assert c.PeerSends([]) == c;
    AloneUpdates(t, c, c, Polling);
    RunOne(Alone(t, c), PeerSend(t, []));
    assert [PeerSend(t, [])] + [] == [PeerSend(t, [])];
    OneSent(t, [], []);
  }

  /** What arrives at once comes back if it is whole characters, and is gone if not. */
  lemma OneArrival(t: nat, c: Client, data: seq<Byte>) returns (steps: seq<Step>, d: Client)
    requires t != SERVER && AtRest(c)
    ensures Serves(Alone(t, c), steps, [data], Alone(t, d)) && AtRest(d)
    ensures d.input == c.input + data && d.output == c.output + Whole(data)
  {
    if data == [] {
      steps, d := [PeerSend(t, [])], c;
      EmptyArrival(t, c);
    } else {
      steps, d := ReadHalf(t, data) + WriteHalf(t), Echoed(c, data);
      ReadHalfServes(t, c, data);
      WriteHalfServes(t, c, data);
      ServesAppend(Alone(t, c), ReadHalf(t, data), Alone(t, Armed(c, data)), WriteHalf(t), Alone(t, d), [data], []);
      assert [data] + [] == [data];
    }
  }

  lemma {:induction false} ArrivalsOneByOne(t: nat, c: Client, arrivals: seq<seq<Byte>>)
      returns (steps: seq<Step>, d: Client)
    requires t != SERVER && AtRest(c)
    ensures Serves(Alone(t, c), steps, arrivals, Alone(t, d)) && AtRest(d)
    ensures d.input == c.input + Concat(arrivals) && d.output == c.output + Kept(arrivals)
  {
    if arrivals == [] {
      steps, d := [], c;
    } else {
      var before, last := arrivals[..|arrivals| - 1], arrivals[|arrivals| - 1];
      var first, e := ArrivalsOneByOne(t, c, before);
      var more;
      more, d := OneArrival(t, e, last);
      steps := first + more;
      ServesAppend(Alone(t, c), first, Alone(t, e), more, Alone(t, d), before, [last]);
      LastArrival(c.input, c.output, arrivals);
    }
  }

  lemma LastArrival(input: seq<Byte>, output: seq<Byte>, arrivals: seq<seq<Byte>>)
    requires arrivals != []
    ensures var before, last := arrivals[..|arrivals| - 1], arrivals[|arrivals| - 1];
      arrivals == before + [last]
      && input + Concat(before) + last == input + Concat(arrivals)
      && output + Kept(before) + Whole(last) == output + Kept(arrivals)
  {
  }

  const START := State(map[], map[], 1, [], false, [], Polling)

  function FirstSteps(): seq<Step> {
    [Dial] + ([Poll([Event(SERVER, false)])] + ([Dispatch] + LastSteps()))
  }

  function LastSteps(): seq<Step> {
    [AcceptOne] + ([AcceptBlocks] + [EndBatch])
  }

  lemma AcceptingRuns(s: State)
    requires s == START.(backlog := [NEW_CLIENT], phase := Accepting)
    ensures Run(s, LastSteps(), Alone(1, NEW_CLIENT.Register(ReadEdge)))
  {
    var c := NEW_CLIENT.Register(ReadEdge);
    var s4, s5 := InHandOf(1, c, Accepting), InHandOf(1, c, Dispatching);
    assert [NEW_CLIENT][1..] == [];
    assert Next(s, AcceptOne) == s4;
    RunOne(s5, EndBatch);
    StepThenRun(s4, AcceptBlocks, s5, [EndBatch], Alone(1, c));
    StepThenRun(s, AcceptOne, s4, [AcceptBlocks] + [EndBatch], Alone(1, c));
  }

  lemma FirstClient()
    ensures Run(START, FirstSteps(), Alone(1, NEW_CLIENT.Register(ReadEdge)))
  {
    var e, goal := Event(SERVER, false), Alone(1, NEW_CLIENT.Register(ReadEdge));
    var s1 := START.(backlog := [NEW_CLIENT], listenerReady := true);
    var s2 := s1.(listenerReady := false, queue := [e], phase := Dispatching);
    var s3 := s2.(queue := [], phase := Accepting);
    assert [e][1..] == [] && Waiting([e], SERVER) == Some(false);
    assert Next(s1, Poll([e])).sockets == map[];
    assert [] + [NEW_CLIENT] == [NEW_CLIENT];
    AcceptingRuns(s3);
    StepThenRun(s2, Dispatch, s3, LastSteps(), goal);
    StepThenRun(s1, Poll([e]), s2, [Dispatch] + LastSteps(), goal);
    StepThenRun(START, Dial, s1, [Poll([e])] + ([Dispatch] + LastSteps()), goal);
  }

  /** From the start: one client that sends `arrivals`, each once the server is at rest again. */
  lemma OneClient(arrivals: seq<seq<Byte>>) returns (steps: seq<Step>, c: Client)
    ensures Serves(START, steps, arrivals, Alone(1, c)) && AtRest(c)
    ensures c.input == Concat(arrivals) && c.output == Kept(arrivals)
  {
    var c0 := NEW_CLIENT.Register(ReadEdge);
    FirstClientServes();
    var more;
    more, c := ArrivalsOneByOne(1, c0, arrivals);
    steps := FirstSteps() + more;
    ServesAppend(START, FirstSteps(), Alone(1, c0), more, Alone(1, c), [], arrivals);
    assert [] + arrivals == arrivals;
    assert [] + Concat(arrivals) == Concat(arrivals) && [] + Kept(arrivals) == Kept(arrivals);
  }

  lemma FirstClientServes()
    ensures Serves(START, FirstSteps(), [], Alone(1, NEW_CLIENT.Register(ReadEdge)))
  {
    FirstClient();
    QuietSteps(1, 0);
    NothingSent(FirstSteps());
  }

  // ----- streams that pause inside a character -----

  /** Every byte read from anybody was echoed, is buffered, or was buffered when the client went. */
  ghost predicate KeepsAll(s: State) {
    && !s.phase.Panicked?
    && (forall t :: t in s.sockets ==>
          var c := s.sockets[t];
          c.consumed <= |c.input| && c.input[..c.consumed] == c.output + c.message + c.chunk)
    && (forall t :: t in s.removed ==>
          var c := s.removed[t];
          c.consumed <= |c.input| && c.input[..c.consumed] == c.output + c.message)
  }

  /** The server keeps all it reads, in every run with these arrivals, exactly when none of them begins
      or ends inside a character (or is not well-formed at all). */
  lemma ArrivalsDecide(arrivals: seq<seq<Byte>>)
    ensures NoneLost(arrivals) <==>
      forall steps, s :: Serves(START, steps, arrivals, s) ==> KeepsAll(s)
  {
    if NoneLost(arrivals) {
      forall steps, s | Serves(START, steps, arrivals, s) ensures KeepsAll(s) {
        WholeRunKeepsAll(steps, s);
      }
    } else {
      var steps, c := OneClient(arrivals);
      var s := Alone(1, c);
      BrokenLoses(1, c, arrivals);
      assert Serves(START, steps, arrivals, s) && !KeepsAll(s);
    }
  }

  lemma BrokenLoses(t: nat, c: Client, arrivals: seq<seq<Byte>>)
    requires AtRest(c) && c.input == Concat(arrivals) && c.output == Kept(arrivals) && !NoneLost(arrivals)
    ensures !KeepsAll(Alone(t, c))
  {
    KeptIsAll(arrivals);
    assert t in Alone(t, c).sockets && |c.input[..c.consumed]| == |Concat(arrivals)|;
    assert |c.output + c.message + c.chunk| == |Kept(arrivals)|;
  }

  lemma WholeRunKeepsAll(steps: seq<Step>, s: State)
    requires Run(START, steps, s) && NoneLost(Arrivals(steps))
    ensures KeepsAll(s)
  {
    WholeArrivalsAre(steps);
    WholeArrivalsAreEchoed(START, steps, s, 0);
    forall t | t in s.sockets || t in s.removed
      ensures t in s.sockets ==>
        var c := s.sockets[t];
        c.consumed <= |c.input| && c.input[..c.consumed] == c.output + c.message + c.chunk
      ensures t in s.removed ==>
        var c := s.removed[t];
        c.consumed <= |c.input| && c.input[..c.consumed] == c.output + c.message
    {
      WholeArrivalsAreEchoed(START, steps, s, t);
    }
  }

  const A: seq<Byte> := [0x61, 0xC3]
  const B: seq<Byte> := [0xA9, 0x62]
  const C: seq<Byte> := [0x63]

  /** A well-formed stream, an a, an e with acute accent, a b and a c, that pauses inside the accented
      letter: of its three arrivals only the last comes back, which is no prefix of the input. */
  lemma SplitCharacterIsLost() returns (steps: seq<Step>, s: State)
    ensures Init(START) && Run(START, steps, s) && 1 in s.sockets
    ensures var c := s.sockets[1];
      c.input == [0x61, 0xC3, 0xA9, 0x62, 0x63] && Utf8.Valid(c.input) && c.consumed == |c.input|
      && c.output == [0x63] && c.message == [] && !(c.output <= c.input)
  {
    var c;
    steps, c := OneClient([A, B, C]);
    s := Alone(1, c);
    BrokenArrivals();
  }

  lemma BrokenArrivals()
    ensures var input, output := Concat([A, B, C]), Kept([A, B, C]);
      input == [0x61, 0xC3, 0xA9, 0x62, 0x63] && Utf8.Valid(input) && output == [0x63] && !(output <= input)
  {
    BrokenChunks();
    ThreeArrivals();
    assert ([] + A) + B + C == [0x61, 0xC3, 0xA9, 0x62, 0x63];
    assert Kept([A, B, C])[0] != Concat([A, B, C])[0];
  }

  lemma ThreeArrivals()
    ensures Concat([A, B, C]) == ([] + A) + B + C
    ensures Kept([A, B, C]) == ([] + Whole(A)) + Whole(B) + Whole(C)
  {
    assert [] + [A] == [A] && [A] + [B] == [A, B] && [A, B] + [C] == [A, B, C];
    OneMore([], A);
    OneMore([A], B);
    OneMore([A, B], C);
  }

  lemma BrokenChunks()
    ensures !Utf8.Valid(A) && !Utf8.Valid(B) && Utf8.Valid(C)
    ensures Utf8.Valid([0x61, 0xC3, 0xA9, 0x62, 0x63])
  {
    var s: seq<Byte> := [0x61, 0xC3, 0xA9, 0x62, 0x63];
    assert A[1..] == [0xC3] && C[1..] == [];
    assert s[1..] == [0xC3, 0xA9, 0x62, 0x63] && s[1..][2..] == [0x62, 0x63] && [0x62, 0x63][1..] == [0x63];
  }
}
