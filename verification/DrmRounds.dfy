/**
 The poll loop of the display server as steps of the whole system: what one round does to its arrays is
 what accepting, serving and hanging up do, one connection after the other. So what holds of every run
 of the system holds of the loop.
 */
module DrmRounds {
  import opened MachineWords
  import opened DrmProto
  import opened DrmClient
  import opened DrmServer
  import opened DrmProtocol
  import opened Slots

  /** What reading slot `i` finds is what client `c`, whose connection it is, has written or left. */
  predicate Delivers(s: System, i: nat, c: nat, input: Input) {
    Holds(s, i, c) &&
    match input.read
    case Message(text) => s.clients[c].toServer != [] && text == s.clients[c].toServer[0]
    case EndOfFile => s.clients[c].phase == Closed && s.clients[c].toServer == []
    case ReadFailed => s.clients[c].phase == Closed
  }

  /** Serving slot `i`, as a step of the system. */
  function SlotStep(c: nat, i: nat, input: Input): Step {
    if input.read.Message? then Serve(c, i, input.answers) else Hangup(c, i, input.read.ReadFailed?)
  }

  function SlotSteps(served: seq<nat>, holders: seq<nat>, inputs: seq<Input>): seq<Step>
    requires forall k :: k in served ==> k < |holders| == |inputs|
  {
    if served == [] then []
    else
      assert served[0] in served && forall k :: k in served[1..] ==> k in served;
      [SlotStep(holders[served[0]], served[0], inputs[served[0]])] + SlotSteps(served[1..], holders, inputs)
  }

  /** From slot `i` on, every reported slot is held by the client named, and delivers what is read. */
  predicate RoundFits(s: System, i: nat, ready: seq<bool>, inputs: seq<Input>, holders: seq<nat>) {
    && |s.server.fds| == |ready| == |inputs| == |holders|
    && forall k: nat :: i <= k < |s.server.fds| && Reported(s.server.fds, ready, k) ==>
         Delivers(s, k, holders[k], inputs[k])
  }

  /** One slot: the step can be taken, and does to the server what the loop body does. */
  lemma SlotIsStep(s: System, c: nat, i: nat, input: Input)
    requires s.server.Valid() && !s.server.crashed && i < |s.server.fds| && s.server.fds[i] != -1
    requires Delivers(s, i, c, input)
    ensures Enabled(s, SlotStep(c, i, input))
    ensures Next(s, SlotStep(c, i, input)).server == ServeSlot(s.server, i, input)
  {
  }

  /** It leaves the other connections as they are. */
  lemma OtherSlotsFit(s: System, i: nat, ready: seq<bool>, inputs: seq<Input>, holders: seq<nat>)
    requires s.server.Valid() && !s.server.crashed && SlotsDistinct(s.server.fds)
    requires RoundFits(s, i, ready, inputs, holders) && i < |s.server.fds| && Reported(s.server.fds, ready, i)
    ensures Enabled(s, SlotStep(holders[i], i, inputs[i]))
    ensures var t := Next(s, SlotStep(holders[i], i, inputs[i]));
      t.server.Valid() && SlotsDistinct(t.server.fds)
      && (!t.server.crashed ==> RoundFits(t, i + 1, ready, inputs, holders))
  {
    SlotIsStep(s, holders[i], i, inputs[i]);
    var t := Next(s, SlotStep(holders[i], i, inputs[i]));
    forall k: nat | i + 1 <= k < |t.server.fds| && Reported(t.server.fds, ready, k) && !t.server.crashed
      ensures Delivers(t, k, holders[k], inputs[k])
    {
      assert Reported(s.server.fds, ready, k) && Delivers(s, k, holders[k], inputs[k]);
      assert Delivers(s, i, holders[i], inputs[i]);
      assert holders[k] != holders[i];
    }
  }

  lemma RunFirst(s: System, step: Step, rest: seq<Step>, u: System)
    requires Enabled(s, step) && Run(Next(s, step), rest, u)
    ensures Run(s, [step] + rest, u)
  {
    assert ([step] + rest)[1..] == rest;
  }

  lemma RunRest(s: System, steps: seq<Step>, u: System)
    requires Run(s, steps, u) && steps != []
    ensures Enabled(s, steps[0]) && Run(Next(s, steps[0]), steps[1..], u)
  {
  }

  lemma StepsFirst(i: nat, rest: seq<nat>, holders: seq<nat>, inputs: seq<Input>)
    requires i < |holders| == |inputs| && forall k :: k in rest ==> k < |holders|
    ensures SlotSteps([i] + rest, holders, inputs)
         == [SlotStep(holders[i], i, inputs[i])] + SlotSteps(rest, holders, inputs)
  {
    assert ([i] + rest)[1..] == rest;
  }

  /** The run that the scan from slot `i` on amounts to. */
  predicate ScanIsRun(s: System, i: nat, rc: int, ready: seq<bool>, inputs: seq<Input>, holders: seq<nat>, u: System)
    requires s.server.Valid() && i <= |s.server.fds| == |ready| == |inputs| == |holders|
  {
    var (t, served) := Scan(s.server, i, rc, ready, inputs);
    u.server == t && (forall k :: k in served ==> k < |holders|)
    && Run(s, SlotSteps(served, holders, inputs), u)
  }

  /** The first slot the scan serves, and what it goes on with. */
  lemma ScanGoesOn(s: State, i: nat, rc: int, ready: seq<bool>, inputs: seq<Input>)
    requires s.Valid() && i < |s.fds| == |ready| == |inputs| && !s.crashed && Reported(s.fds, ready, i)
    ensures var t := ServeSlot(s, i, inputs[i]);
      var rest :=
        if EndsScan(t, rc, inputs[i]) then (t, []) else Scan(t, i + 1, CountAfter(rc, inputs[i]), ready, inputs);
      Scan(s, i, rc, ready, inputs) == (rest.0, [i] + rest.1)
  {
    assert [i] + [] == [i];
  }

  lemma FirstSlotRuns(s: System, i: nat, rc: int, ready: seq<bool>, inputs: seq<Input>, holders: seq<nat>,
                      rest: seq<nat>, u: System)
    requires s.server.Valid() && i < |s.server.fds| == |ready| == |inputs| == |holders|
    requires forall k :: k in rest ==> k < |holders|
    requires Scan(s.server, i, rc, ready, inputs) == (u.server, [i] + rest)
    requires Enabled(s, SlotStep(holders[i], i, inputs[i]))
    requires Run(Next(s, SlotStep(holders[i], i, inputs[i])), SlotSteps(rest, holders, inputs), u)
    ensures ScanIsRun(s, i, rc, ready, inputs, holders, u)
  {
    StepsFirst(i, rest, holders, inputs);
    RunFirst(s, SlotStep(holders[i], i, inputs[i]), SlotSteps(rest, holders, inputs), u);
  }

  /** The scan is a run of the system that serves the connections it lists. */
  lemma {:induction false} ScanRuns(s: System, i: nat, rc: int, ready: seq<bool>, inputs: seq<Input>, holders: seq<nat>)
      returns (u: System)
    requires s.server.Valid() && !s.server.crashed && SlotsDistinct(s.server.fds) && i <= |s.server.fds|
    requires RoundFits(s, i, ready, inputs, holders)
    ensures ScanIsRun(s, i, rc, ready, inputs, holders, u)
    decreases |s.server.fds| - i
  {
    if i == |s.server.fds| {
      u := s;
    } else if s.server.fds[i] == -1 || !ready[i] {
      u := ScanRuns(s, i + 1, rc, ready, inputs, holders);
    } else {
      var c, input := holders[i], inputs[i];
      assert Delivers(s, i, c, input);
      SlotIsStep(s, c, i, input);
      OtherSlotsFit(s, i, ready, inputs, holders);
      ScanGoesOn(s.server, i, rc, ready, inputs);
      var t, rest: seq<nat> := Next(s, SlotStep(c, i, input)), [];
      if EndsScan(t.server, rc, input) {
        u := t;
      } else {
        u := ScanRuns(t, i + 1, CountAfter(rc, input), ready, inputs, holders);
        rest := Scan(t.server, i + 1, CountAfter(rc, input), ready, inputs).1;
      }
      FirstSlotRuns(s, i, rc, ready, inputs, holders, rest, u);
    }
  }

  /** The client that `accept` finds, if any: `poll` reports no free slot, and the descriptor is new. */
  predicate AcceptFits(s: System, listener: ListenerEvent, ready: seq<bool>, c: nat) {
    && |ready| == |s.server.fds|
    && (forall k :: 0 <= k < |ready| && s.server.fds[k] == -1 ==> !ready[k])
    && (listener.Connected? ==> Enabled(s, Accept(c, listener.fd)))
  }

  function AcceptSteps(listener: ListenerEvent, c: nat): seq<Step> {
    if listener.Connected? then [Accept(c, listener.fd)] else []
  }

  lemma AcceptLeavesFitting(s: System, fd: int, c: nat, ready: seq<bool>, inputs: seq<Input>, holders: seq<nat>)
    requires s.server.Valid() && SlotsDistinct(s.server.fds) && RoundFits(s, 0, ready, inputs, holders)
    requires AcceptFits(s, Connected(fd), ready, c)
    ensures var t := Next(s, Accept(c, fd));
      t.server == AcceptInto(s.server, fd) && t.server.Valid() && SlotsDistinct(t.server.fds)
      && RoundFits(t, 0, ready, inputs, holders)
  {
    var t := Next(s, Accept(c, fd));
    forall k: nat | k < |t.server.fds| && Reported(t.server.fds, ready, k)
      ensures Delivers(t, k, holders[k], inputs[k])
    {
      assert Reported(s.server.fds, ready, k) && Delivers(s, k, holders[k], inputs[k]);
      assert holders[k] != c;
    }
  }

  /** One pass of the poll loop is a run of the system: the accept, if there is one, then one step for each
      slot it serves, in order, on that slot's own record and for that slot's own client. */
  lemma RoundIsRun(s: System, listener: ListenerEvent, c: nat, rc: int, ready: seq<bool>, inputs: seq<Input>,
                   holders: seq<nat>)
      returns (u: System)
    requires s.server.Valid() && !s.server.crashed && SlotsDistinct(s.server.fds)
    requires RoundFits(s, 0, ready, inputs, holders) && AcceptFits(s, listener, ready, c)
    ensures var (t, served, _) := Round(s.server, listener, rc, ready, inputs);
      u.server == t && (forall k :: k in served ==> k < |holders| == |inputs|)
      && Run(s, AcceptSteps(listener, c) + SlotSteps(served, holders, inputs), u)
  {
    match listener {
      case AcceptFailed =>
        u := s;
      case Quiet =>
        u := ScanRuns(s, 0, rc, ready, inputs, holders);
        var steps := SlotSteps(Scan(s.server, 0, rc, ready, inputs).1, holders, inputs);
        assert [] + steps == steps;
      case Connected(fd) =>
        AcceptLeavesFitting(s, fd, c, ready, inputs, holders);
        u := AcceptedThenScanned(s, fd, c, rc - 1, ready, inputs, holders);
    }
  }

  lemma AcceptedThenScanned(s: System, fd: int, c: nat, left: int, ready: seq<bool>, inputs: seq<Input>,
                            holders: seq<nat>)
      returns (u: System)
    requires s.server.Valid() && !s.server.crashed && Enabled(s, Accept(c, fd))
    requires var t := Next(s, Accept(c, fd));
      t.server == AcceptInto(s.server, fd) && t.server.Valid() && SlotsDistinct(t.server.fds)
      && RoundFits(t, 0, ready, inputs, holders)
    ensures var (t, served, _) := Round(s.server, Connected(fd), left + 1, ready, inputs);
      u.server == t && (forall k :: k in served ==> k < |holders| == |inputs|)
      && Run(s, [Accept(c, fd)] + SlotSteps(served, holders, inputs), u)
  {
    var t, served: seq<nat> := Next(s, Accept(c, fd)), [];
    if left == 0 {
      u := t;
    } else {
      served := Scan(t.server, 0, left, ready, inputs).1;
      u := ScanRuns(t, 0, left, ready, inputs, holders);
    }
    RunFirst(s, Accept(c, fd), SlotSteps(served, holders, inputs), u);
  }

  lemma RunFront(s: System, step: Step, rest: seq<Step>, first: seq<Step>, more: seq<Step>, u: System)
    requires first == [step] + rest && Enabled(s, step) && Run(Next(s, step), rest + more, u)
    ensures Run(s, first + more, u)
  {
    RunFirst(s, step, rest + more, u);
    assert [step] + (rest + more) == first + more;
  }

  lemma {:induction false} RunAppend(s0: System, first: seq<Step>, s1: System, more: seq<Step>, s2: System)
    requires Run(s0, first, s1) && Run(s1, more, s2)
    ensures Run(s0, first + more, s2)
    decreases |first|
  {
    if first == [] {
      assert first + more == more;
    } else {
      var step, rest := first[0], first[1..];
      assert first == [step] + rest;
      RunRest(s0, first, s1);
      var next := Next(s0, step);
      RunAppend(next, rest, s1, more, s2);
      RunFront(s0, step, rest, first, more, s2);
    }
  }

  /** So the loop reaches only what runs of the system reach, whatever the clients do between its rounds. */
  lemma RoundReaches(s0: System, before: seq<Step>, s: System, listener: ListenerEvent, c: nat, rc: int,
                     ready: seq<bool>, inputs: seq<Input>, holders: seq<nat>)
      returns (steps: seq<Step>, u: System)
    requires Init(s0) && Run(s0, before, s) && !s.server.crashed
    requires RoundFits(s, 0, ready, inputs, holders) && AcceptFits(s, listener, ready, c)
    ensures s.server.Valid() && u.server == Round(s.server, listener, rc, ready, inputs).0
    ensures Run(s0, before + steps, u)
  {
    ReachableKeepsInv(s0, before, s);
    u := RoundIsRun(s, listener, c, rc, ready, inputs, holders);
    steps := AcceptSteps(listener, c) + SlotSteps(Round(s.server, listener, rc, ready, inputs).1, holders, inputs);
    RunAppend(s0, before, s, steps, u);
  }
}
