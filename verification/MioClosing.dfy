/**
 Clients of the event-driven echo server that close. The readable event that finds the end of the file
 removes the client with what it has read; a peer that waits for its echo before it closes loses nothing.
 */
module MioClosing {
  import opened MioEcho
  import opened MioPauses
  import Utf8

  // ----- what the end of the file takes with it -----

  /** A step that can come between two steps of the reading loop of one event, or is one. */
  predicate InEvent(step: Step) {
    step.Dial? || step.PeerSend? || step.PeerClose? || step.PeerDrain? || step.BacklogSend? || step.BacklogClose?
    || step.ReadSome? || step.ReadEof?
  }

  predicate AllInEvent(steps: seq<Step>) {
    forall step :: step in steps ==> InEvent(step)
  }

  /** What was read from place `k` on is buffered, or just being read. */
  predicate ReadSince(s: State, t: nat, k: nat) {
    s.phase == Reading(t) && t in s.sockets
    && var c := s.sockets[t];
       k <= c.consumed <= |c.input| && c.input[k..c.consumed] == c.message + c.chunk
  }

  lemma PeerReadsOn(s: State, data: seq<Byte>, t: nat, k: nat)
    requires ReadSince(s, t, k)
    ensures ReadSince(Update(s, t, s.sockets[t].PeerSends(data)), t, k)
  {
    var c := s.sockets[t];
    assert (c.input + data)[k..c.consumed] == c.input[k..c.consumed];
  }

  lemma ReadReadsOn(s: State, n: nat, t: nat, k: nat)
    requires ReadSince(s, t, k) && s.sockets[t].consumed + n <= |s.sockets[t].input|
    ensures ReadSince(Update(s, t, s.sockets[t].Read(n)), t, k)
  {
    var c := s.sockets[t];
    assert c.input[k..c.consumed + n] == c.input[k..c.consumed] + c.input[c.consumed..c.consumed + n];
  }

  lemma EofReadsOn(s: State, t: nat, k: nat)
    requires ReadSince(s, t, k) && Utf8.Valid(s.sockets[t].chunk)
    ensures ReadSince(Update(s, t, s.sockets[t].EndCall()), t, k)
  {
    var c := s.sockets[t];
    assert (c.message + c.chunk) + [] == c.message + c.chunk;
  }

  lemma StepReadsOn(s: State, step: Step, t: nat, k: nat)
    requires Enabled(s, step) && InEvent(step) && ReadSince(s, t, k)
    ensures ReadSince(Next(s, step), t, k) || !Next(s, step).phase.Reading?
  {
    var c := s.sockets[t];
    match step {
      case PeerSend(k', data) =>
        if k' == t {
          PeerReadsOn(s, data, t, k);
        }
      case ReadSome(n) => ReadReadsOn(s, n, t, k);
      case ReadEof =>
        if Utf8.Valid(c.chunk) {
          EofReadsOn(s, t, k);
        }
      case _ =>
    }
  }

  /** Once the loop has left a client, only another event takes it up again. */
  lemma {:induction false} LeftForGood(s: State, steps: seq<Step>, u: State)
    requires Run(s, steps, u) && AllInEvent(steps) && !s.phase.Reading?
    ensures !u.phase.Reading?
    decreases |steps|
  {
    if steps != [] {
      assert InEvent(steps[0]);
      LeftForGood(Next(s, steps[0]), steps[1..], u);
    }
  }

  lemma {:induction false} EventReadsOn(s: State, steps: seq<Step>, u: State, t: nat, k: nat)
    requires Run(s, steps, u) && AllInEvent(steps) && ReadSince(s, t, k) && u.phase.Reading?
    ensures ReadSince(u, t, k)
    decreases |steps|
  {
    if steps != [] {
      var next := Next(s, steps[0]);
      assert InEvent(steps[0]);
      StepReadsOn(s, steps[0], t, k);
      if !next.phase.Reading? {
        LeftForGood(next, steps[1..], u);
      }
      EventReadsOn(next, steps[1..], u, t, k);
    }
  }

  /** When a readable event is taken up, nothing is buffered. */
  lemma EventStarts(s0: State, before: seq<Step>, s: State, t: nat)
    requires Init(s0) && Run(s0, before, s) && Enabled(s, Dispatch) && s.queue[0] == Event(t, false) && t != SERVER
    ensures t in s.sockets && ReadSince(Next(s, Dispatch), t, s.sockets[t].consumed)
  {
    RunKeepsInv(s0, before, s);
    assert s.queue[0] in s.queue && EventOk(s, s.queue[0]);
    assert SocketFine(s, t);
    var c := s.sockets[t];
    assert c.input[c.consumed..c.consumed] == [] == c.message + c.chunk;
  }

  /** A client that the loop finds closed is removed with what it sent between this event and the one
      before: exactly that is never echoed. So nothing is dropped exactly when the event brought nothing
      but the end of the file. */
  lemma EndOfFileDropsTheEvent(s0: State, before: seq<Step>, s: State, steps: seq<Step>, u: State, t: nat)
    requires Init(s0) && Run(s0, before, s) && Enabled(s, Dispatch) && s.queue[0] == Event(t, false) && t != SERVER
    requires Run(Next(s, Dispatch), steps, u) && AllInEvent(steps)
    requires Enabled(u, ReadEof) && u.phase == Reading(t) && u.sockets[t].chunk == []
    ensures var v := Next(u, ReadEof);
      t in s.sockets && t !in v.sockets && t in v.removed
      && var c, k := v.removed[t], s.sockets[t].consumed;
         k <= |c.input| == c.consumed && c.message == c.input[k..] && (c.message == [] <==> k == |c.input|)
  {
    EventStarts(s0, before, s, t);
    EventReadsOn(Next(s, Dispatch), steps, u, t, s.sockets[t].consumed);
    EofTakesTheEvent(u, t, s.sockets[t].consumed);
  }

  lemma EofTakesTheEvent(s: State, t: nat, k: nat)
    requires ReadSince(s, t, k) && Enabled(s, ReadEof) && s.sockets[t].chunk == []
    ensures var c := s.sockets[t];
      Next(s, ReadEof) == Remove(s, t, c) && k <= |c.input| == c.consumed && c.message == c.input[k..]
  {
    assert s.sockets[t].message + [] == s.sockets[t].message;
  }

  // ----- peers that wait for the echo -----

  /** A peer that closes only when all it sent has come back, and a server whose writes do not fail. */
  predicate PatientStep(s: State, step: Step)
    requires Enabled(s, step)
  {
    match step
    case PeerClose(t) => s.sockets[t].output == s.sockets[t].input
    case BacklogClose(k) => s.backlog[k].output == s.backlog[k].input
    case WriteFails(_) => false
    case _ => true
  }

  predicate Patient(s: State, steps: seq<Step>)
    decreases |steps|
  {
    steps == [] || (Enabled(s, steps[0]) && PatientStep(s, steps[0]) && Patient(Next(s, steps[0]), steps[1..]))
  }

  predicate Settled(c: Client) {
    c.output == c.input
  }

  predicate SettledAt(s: State, t: nat) {
    (t in s.sockets && s.sockets[t].eof ==> Settled(s.sockets[t])) && (t in s.removed ==> Settled(s.removed[t]))
  }

  ghost predicate AllSettled(s: State) {
    && (forall t: nat :: SettledAt(s, t))
    && (forall k :: 0 <= k < |s.backlog| && s.backlog[k].eof ==> Settled(s.backlog[k]))
  }

  /** A client that has had everything back has nothing unread and nothing buffered. */
  lemma SettledIsIdle(c: Client)
    requires Conserved(c) && Settled(c)
    ensures c.consumed == |c.input| && c.message == [] && c.chunk == []
  {
    KeptIsAll(c.drained);
    assert |c.output + c.message| <= |Concat(c.drained)| <= c.consumed - |c.chunk|;
  }

  /** The steps of peers. */
  lemma PeerKeepsSettledAt(s: State, step: Step, t: nat)
    requires Enabled(s, step) && PatientStep(s, step) && SettledAt(s, t)
    requires step.PeerSend? || step.PeerClose? || step.PeerDrain?
    ensures SettledAt(Next(s, step), t)
  {
  }

  /** The steps that read or write. */
  lemma ServiceKeepsSettledAt(s: State, step: Step, t: nat)
    requires Enabled(s, step) && PatientStep(s, step) && SettledAt(s, t) && SocketFine(s, t)
    requires step.ReadSome? || step.ReadBlocks? || step.ReadEof? || step.WriteAll?
    ensures SettledAt(Next(s, step), t)
  {
    if t in s.sockets && s.sockets[t].eof {
      var c := s.sockets[t];
      SettledIsIdle(c);
      assert c.output + c.message == c.output;
    }
  }

  lemma StepKeepsSettledAt(s: State, step: Step, t: nat)
    requires Inv(s) && AllSettled(s) && Enabled(s, step) && PatientStep(s, step)
    ensures SettledAt(Next(s, step), t)
  {
    assert SettledAt(s, t) && SocketFine(s, t);
    match step {
      case PeerSend(_, _) => PeerKeepsSettledAt(s, step, t);
      case PeerClose(_) => PeerKeepsSettledAt(s, step, t);
      case ReadSome(_) => ServiceKeepsSettledAt(s, step, t);
      case ReadBlocks => ServiceKeepsSettledAt(s, step, t);
      case ReadEof => ServiceKeepsSettledAt(s, step, t);
      case WriteAll(_) => ServiceKeepsSettledAt(s, step, t);
      case AcceptOne => assert s.backlog[0].eof ==> Settled(s.backlog[0]);
      case _ =>
    }
  }

  lemma StepKeepsSettled(s: State, step: Step)
    requires Inv(s) && AllSettled(s) && Enabled(s, step) && PatientStep(s, step)
    ensures AllSettled(Next(s, step))
  {
    forall t: nat ensures SettledAt(Next(s, step), t) {
      StepKeepsSettledAt(s, step, t);
    }
  }

  lemma {:induction false} RunKeepsSettled(s0: State, steps: seq<Step>, s: State)
    requires Inv(s0) && AllSettled(s0) && Run(s0, steps, s) && Patient(s0, steps)
    ensures AllSettled(s)
    decreases |steps|
  {
    if steps != [] {
      StepKeepsInv(s0, steps[0]);
      StepKeepsSettled(s0, steps[0]);
      RunKeepsSettled(Next(s0, steps[0]), steps[1..], s);
    }
  }

  /** If peers close only when all they sent has come back, and no write fails, every client that has
      gone has had back all it ever sent. */
  lemma PatientPeersGetEverything(s0: State, steps: seq<Step>, s: State, t: nat)
    requires Init(s0) && Run(s0, steps, s) && Patient(s0, steps) && t in s.removed
    ensures s.removed[t].output == s.removed[t].input
  {
    RunKeepsSettled(s0, steps, s);
    assert SettledAt(s, t);
  }

  // ----- a peer that does not wait -----

  /** The loop finds data and the end of the file in one event. */
  function ClosingSteps(t: nat, data: seq<Byte>): seq<Step> {
    [PeerSend(t, data)] + ([PeerClose(t)] + ([Poll([Event(t, false)])] + ([Dispatch] + EofSteps(|data|))))
  }

  function EofSteps(n: nat): seq<Step> {
    [ReadSome(n)] + ([ReadEof] + ([ReadEof] + [EndBatch]))
  }

  function Gone(t: nat, c: Client): State {
    State(map[], map[t := c], t + 1, [], false, [], Polling)
  }

  lemma AloneEof(t: nat, c: Client)
    requires c.eof && c.consumed == |c.input| && Utf8.Valid(c.chunk)
    ensures var s := InHandOf(t, c, Reading(t));
      Enabled(s, ReadEof)
      && Next(s, ReadEof) ==
           if c.chunk == [] then Gone(t, c).(phase := Dispatching) else InHandOf(t, c.EndCall(), Reading(t))
  {
    AloneUpdates(t, c, c.EndCall(), Reading(t));
    assert map[t := c] - {t} == map[] && map[][t := c] == map[t := c];
  }

  lemma EofRuns(t: nat, c: Client, n: nat, d: Client)
    requires c.eof && 0 < n == |c.input| - c.consumed && d == c.Read(n)
    requires d.chunk != [] && Utf8.Valid(d.chunk)
    ensures Run(InHandOf(t, c, Reading(t)), EofSteps(n), Gone(t, d.EndCall()))
  {
    AloneReads(t, c);
    EndOfFileRuns(t, d);
    StepThenRun(InHandOf(t, c, Reading(t)), ReadSome(n), InHandOf(t, d, Reading(t)),
                [ReadEof] + ([ReadEof] + [EndBatch]), Gone(t, d.EndCall()));
  }

  lemma EndOfFileRuns(t: nat, d: Client)
    requires d.eof && d.consumed == |d.input| && d.chunk != [] && Utf8.Valid(d.chunk)
    ensures Run(InHandOf(t, d, Reading(t)), [ReadEof] + ([ReadEof] + [EndBatch]), Gone(t, d.EndCall()))
  {
    var s2, s3 := InHandOf(t, d.EndCall(), Reading(t)), Gone(t, d.EndCall());
    AloneEof(t, d);
    AloneEof(t, d.EndCall());
    RunOne(s3.(phase := Dispatching), EndBatch);
    StepThenRun(s2, ReadEof, s3.(phase := Dispatching), [EndBatch], s3);
    StepThenRun(InHandOf(t, d, Reading(t)), ReadEof, s2, [ReadEof] + [EndBatch], s3);
  }

  function Closed(c: Client, data: seq<Byte>): Client {
    c.PeerSends(data).PeerCloses()
  }

  /** The client as it is dropped: read, and nothing of it echoed. */
  function Dropped(c: Client, data: seq<Byte>): Client {
    c.(input := c.input + data, eof := true, consumed := |c.input| + |data|, drained := c.drained + [data],
       message := data)
  }

  lemma ClosedIsRead(c: Client, data: seq<Byte>)
    requires AtRest(c)
    ensures Closed(c, data).Report().Read(|data|) == ReadWhole(c, data).(eof := true)
  {
    SliceBehind(c.input, data);
  }

  lemma ReadIsDropped(c: Client, data: seq<Byte>)
    requires AtRest(c) && Utf8.Valid(data)
    ensures ReadWhole(c, data).(eof := true).EndCall() == Dropped(c, data)
  {
    assert [] + data == data;
  }

  lemma ClosedRuns(t: nat, c: Client, data: seq<Byte>)
    requires t != SERVER && AtRest(c) && data != [] && Utf8.Valid(data)
    ensures Run(Alone(t, Closed(c, data)), [Poll([Event(t, false)])] + ([Dispatch] + EofSteps(|data|)),
                Gone(t, Dropped(c, data)))
  {
    ClosedIsRead(c, data);
    ReadIsDropped(c, data);
    EofRuns(t, Closed(c, data).Report(), |data|, ReadWhole(c, data).(eof := true));
    ArrivalIsDispatched(t, Closed(c, data), EofSteps(|data|), Gone(t, Dropped(c, data)));
  }

  lemma PeerActs(t: nat, c: Client, step: Step, d: Client, rest: seq<Step>, goal: State)
    requires (step == PeerClose(t) && d == c.PeerCloses())
      || (step.PeerSend? && step.token == t && !c.eof && d == c.PeerSends(step.data))
    requires Run(Alone(t, d), rest, goal)
    ensures Run(Alone(t, c), [step] + rest, goal)
  {
    AloneUpdates(t, c, d, Polling);
    StepThenRun(Alone(t, c), step, Alone(t, d), rest, goal);
  }

  /** A peer at rest that sends whole characters and closes at once gets nothing of them back. */
  lemma ClosingTooEarly(t: nat, c: Client, data: seq<Byte>)
    requires t != SERVER && AtRest(c) && data != [] && Utf8.Valid(data)
    ensures Run(Alone(t, c), ClosingSteps(t, data), Gone(t, Dropped(c, data)))
  {
    var rest, goal := [Poll([Event(t, false)])] + ([Dispatch] + EofSteps(|data|)), Gone(t, Dropped(c, data));
    ClosedRuns(t, c, data);
    PeerActs(t, c.PeerSends(data), PeerClose(t), Closed(c, data), rest, goal);
    PeerActs(t, c, PeerSend(t, data), c.PeerSends(data), [PeerClose(t)] + rest, goal);
  }

  const HI: seq<Byte> := [0x68, 0x69]

  /** A client that says hi and shuts down writing before it is served hears nothing. */
  lemma HiIsNotEchoed() returns (steps: seq<Step>, s: State)
    ensures Init(START) && Run(START, steps, s) && 1 in s.removed
    ensures var c := s.removed[1];
      c.input == HI && Utf8.Valid(HI) && c.consumed == |HI| && c.output == [] && c.message == HI
  {
    var c0 := NEW_CLIENT.Register(ReadEdge);
    assert HI[1..] == [0x69] && HI[1..][1..] == [];
    FirstClient();
    ClosingTooEarly(1, c0, HI);
    steps, s := FirstSteps() + ClosingSteps(1, HI), Gone(1, Dropped(c0, HI));
    RunAppend(START, FirstSteps(), Alone(1, c0), ClosingSteps(1, HI), s);
  }
}
