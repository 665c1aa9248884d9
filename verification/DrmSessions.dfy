/**
 Runs of the whole display system seen as runs of requests and framebuffers: whatever clients,
 accepts, hang-ups and replies happen in between, the records and the display change only by the
 requests served and the framebuffers made and removed. So what holds of nested requests holds of the
 system; and when all clients have ended, a nested run has given the screen back.
 */
module DrmSessions {
  import opened MachineWords
  import opened Wrappers
  import opened DrmProto
  import opened DrmServer
  import opened DrmClient
  import opened DrmProtocol
  import opened Nesting = DrmNesting

  /** The server's variables without its connections. */
  function WithoutConnections(s: State): (t: State)
    requires s.Valid()
    ensures t.Valid() && |t.fds| == |s.fds|
  {
    s.(fds := seq(|s.fds|, _ => -1))
  }

  /** The client ends in this step. */
  predicate Ends(s: System, step: Step)
    requires Enabled(s, step)
  {
    IsTurn(step) && s.clients[step.c].phase != Closed && Next(s, step).clients[step.c].phase == Closed
  }

  /** What one step does to records and display. */
  function EventOf(s: System, step: Step): Option<Event>
    requires Enabled(s, step)
  {
    var cl := s.clients[step.c];
    if step.Serve? then Some(Event.Served(step.slot, cl.Pending(), step.answers))
    else if step.Connect? then Some(Created(cl.kind.fb))
    else if Ends(s, step) then Some(Removed(cl.kind.fb))
    else None
  }

  function AsSeq(e: Option<Event>): seq<Event> {
    match e case None => [] case Some(v) => [v]
  }

  /** The requests served and the framebuffers made and removed in a run, in order. */
  function Events(s: System, steps: seq<Step>): seq<Event>
    decreases |steps|
  {
    if steps == [] || !Enabled(s, steps[0]) then []
    else AsSeq(EventOf(s, steps[0])) + Events(Next(s, steps[0]), steps[1..])
  }

  /** An event works on records and display alone. */
  lemma ConnectionsDoNotMatter(s: State, e: Event)
    requires CanApply(s, e)
    ensures Apply(WithoutConnections(s), e) == WithoutConnections(Apply(s, e))
  {
  }

  /** Every step of the system is one event or leaves records and display alone. */
  lemma StepIsEventOrNothing(s: System, step: Step)
    requires Inv(s) && Enabled(s, step)
    ensures Next(s, step).server.Valid() && |Next(s, step).server.fds| == |s.server.fds|
    ensures match EventOf(s, step)
      case Some(e) =>
        CanApply(s.server, e)
        && WithoutConnections(Next(s, step).server) == WithoutConnections(Apply(s.server, e))
      case None => WithoutConnections(Next(s, step).server) == WithoutConnections(s.server)
  {
    if step.Serve? {
      HeadIsPending(s, step.c, step.slot, step.answers);
      ServedDisplay(s, step.c, step.slot, step.answers);
    } else if IsTurn(step) {
      TurnIsEvent(s, step);
    }
  }

  lemma TurnIsEvent(s: System, step: Step)
    requires s.server.Valid() && Enabled(s, step) && IsTurn(step)
    ensures Next(s, step).server == match EventOf(s, step)
      case Some(e) => Apply(s.server, e)
      case None => s.server
  {
  }

  lemma StepOnWithoutConnections(s: System, step: Step)
    requires Inv(s) && Enabled(s, step)
    ensures Next(s, step).server.Valid() && |Next(s, step).server.fds| == |s.server.fds|
    ensures var start, evs := WithoutConnections(s.server), AsSeq(EventOf(s, step));
      InTable(start, evs)
      && WithoutConnections(Next(s, step).server) == if evs == [] then start else Apply(start, evs[0])
  {
    StepIsEventOrNothing(s, step);
    if EventOf(s, step).Some? {
      ConnectionsDoNotMatter(s.server, EventOf(s, step).value);
    }
  }

  lemma ApplyAllSplits(s: State, first: seq<Event>, rest: seq<Event>)
    requires s.Valid() && |first| <= 1 && InTable(s, first) && InTable(s, rest)
    ensures InTable(s, first + rest)
    ensures var t := if first == [] then s else Apply(s, first[0]);
      t.Valid() && InTable(t, rest) && ApplyAll(s, first + rest) == ApplyAll(t, rest)
  {
    if first == [] {
      assert first + rest == rest;
    } else {
      assert first[0] in first && (first + rest)[1..] == rest;
    }
  }

  /** What a run does to records and display is what its events do, one by one. */
  lemma {:induction false} RunIsItsEvents(s0: System, steps: seq<Step>, s: System)
    requires s0.server.Valid() && (Inv(s0) || s0.server.crashed) && DrmProtocol.Run(s0, steps, s)
    ensures s.server.Valid() && InTable(WithoutConnections(s0.server), Events(s0, steps))
    ensures WithoutConnections(s.server) == ApplyAll(WithoutConnections(s0.server), Events(s0, steps))
    decreases |steps|
  {
    if steps != [] {
      var s1 := Next(s0, steps[0]);
      StepKeepsInv(s0, steps[0]);
      StepOnWithoutConnections(s0, steps[0]);
      RunIsItsEvents(s1, steps[1..], s);
      ApplyAllSplits(WithoutConnections(s0.server), AsSeq(EventOf(s0, steps[0])), Events(s1, steps[1..]));
    }
  }

  // ----- whose framebuffers -----

  /** The framebuffers `old` are still there, and no client that has started owns one of them. */
  predicate Foreign(s: System, before: set<u32>) {
    before <= s.server.display.fbs && forall c: nat :: c < |s.clients| ==> OwnsNew(s.clients[c], before)
  }

  predicate OwnsNew(cl: Client, before: set<u32>) {
    cl.phase != Idle ==> cl.kind.fb !in before
  }

  lemma StepKeepsForeign(s: System, step: Step, before: set<u32>)
    requires Enabled(s, step) && Foreign(s, before)
    ensures Foreign(Next(s, step), before)
  {
    var u := Next(s, step);
    if step.Serve? {
      ServingKeepsLit(s.server, step.slot, s.clients[step.c].toServer[0], step.answers);
    }
    assert OwnsNew(s.clients[step.c], before);
    forall c: nat | c < |u.clients| ensures OwnsNew(u.clients[c], before) {
      assert OwnsNew(s.clients[c], before);
    }
  }

  lemma StepSparesOthers(s: System, step: Step, before: set<u32>)
    requires Inv(s) && Enabled(s, step) && Foreign(s, before) && EventOf(s, step).Some?
    ensures SparesOne(EventOf(s, step).value, before)
  {
    assert OwnsNew(s.clients[step.c], before) && ClientFine(s, step.c);
    if step.Serve? {
      HeadIsPending(s, step.c, step.slot, step.answers);
    }
  }

  /** The events of a run never touch the framebuffers that were there before it. */
  predicate Spares(evs: seq<Event>, before: set<u32>) {
    forall e :: e in evs ==> SparesOne(e, before)
  }

  predicate SparesOne(e: Event, before: set<u32>) {
    match e
    case Created(_) => true
    case Removed(fb) => fb !in before
    case Served(_, request, _) => request.Crtc? ==> request.fb !in before
  }

  lemma {:induction false} RunSparesOthers(s0: System, steps: seq<Step>, s: System, before: set<u32>)
    requires (Inv(s0) || s0.server.crashed) && DrmProtocol.Run(s0, steps, s) && Foreign(s0, before)
    ensures Spares(Events(s0, steps), before) && Foreign(s, before)
    decreases |steps|
  {
    if steps != [] {
      StepKeepsInv(s0, steps[0]);
      StepKeepsForeign(s0, steps[0], before);
      if EventOf(s0, steps[0]).Some? {
        StepSparesOthers(s0, steps[0], before);
      }
      RunSparesOthers(Next(s0, steps[0]), steps[1..], s, before);
    }
  }

  lemma InitIsForeign(s: System)
    requires Init(s)
    ensures Foreign(s, s.server.display.fbs)
  {
    forall c: nat | c < |s.clients| ensures OwnsNew(s.clients[c], s.server.display.fbs) {
      assert Unborn(s.clients[c]);
    }
  }

  // ----- nested runs of the system -----

  /** The requests served in the run nest on `crtc`. */
  ghost predicate NestedRun(s0: System, steps: seq<Step>, crtc: u32) {
    s0.server.Valid() &&
    var start, evs := WithoutConnections(s0.server), Events(s0, steps);
    InTable(start, evs) && Nested(start, evs, crtc, [])
  }

  /** The client framebuffer the run leaves on a CRTC that was off. */
  function LeftByRun(s0: System, steps: seq<Step>, crtc: u32): Option<u32> {
    if !s0.server.Valid() then None
    else
      var start, evs := WithoutConnections(s0.server), Events(s0, steps);
      if InTable(start, evs) then LeftOn(start, evs, crtc, [], None) else None
  }

  /** In every run of the whole system in which the requests served on a CRTC nest, the CRTC ends up
      showing what it showed at the start exactly when it was on then, or no client's buffer is left on
      it: that of the first session to close over the dark CRTC stays until its client ends. */
  lemma SystemRunsRestore(s0: System, steps: seq<Step>, s: System, crtc: u32)
    requires DrmProtocol.Init(s0) && DrmProtocol.Run(s0, steps, s) && NestedRun(s0, steps, crtc)
    requires crtc in s0.server.display.crtcs
    ensures !s.server.crashed && crtc in s.server.display.crtcs
    ensures OnScreen(s.server.display.crtcs[crtc]) == OnScreen(s0.server.display.crtcs[crtc]) <==>
      s0.server.display.crtcs[crtc].modeValid || LeftByRun(s0, steps, crtc) == None
  {
    var before := s0.server.display.fbs;
    InitEstablishesInv(s0);
    InitIsForeign(s0);
    RunSparesOthers(s0, steps, s, before);
    RunIsItsEvents(s0, steps, s);
    var start, evs := WithoutConnections(s0.server), Events(s0, steps);
    var base := start.display.crtcs[crtc];
    assert Removed(base.bufferId) in evs ==> SparesOne(Removed(base.bufferId), before);
    NestedSessionsRestore(start, evs, crtc);
    NestedUnwinds(start, evs, crtc, [], base);
  }

  // ----- when everybody has gone -----

  predicate Live(cl: Client) {
    cl.phase != Idle && cl.phase != Closed
  }

  predicate Owned(clients: seq<Client>, fb: u32) {
    exists c: nat :: c < |clients| && Owns(clients, c, fb)
  }

  predicate Owns(clients: seq<Client>, c: nat, fb: u32)
    requires c < |clients|
  {
    Live(clients[c]) && clients[c].kind.fb == fb
  }

  predicate OwnsAlone(clients: seq<Client>, c: nat, d: nat)
    requires c < |clients| && d < |clients|
  {
    Live(clients[c]) && Live(clients[d]) && clients[c].kind.fb == clients[d].kind.fb ==> c == d
  }

  /** There are no framebuffers but those from before and those of the live clients, one each. */
  predicate Accounted(s: System, before: set<u32>) {
    && (forall fb :: fb in s.server.display.fbs ==> fb in before || Owned(s.clients, fb))
    && (forall c: nat :: c < |s.clients| && Live(s.clients[c]) ==> s.clients[c].kind.fb in s.server.display.fbs)
    && (forall c: nat, d: nat :: c < |s.clients| && d < |s.clients| ==> OwnsAlone(s.clients, c, d))
  }

  /** Client `c` is still alive, or has just ended or started; all others are as they were. */
  lemma StillOwned(s: System, u: System, c: nat, fb: u32)
    requires c < |s.clients| == |u.clients| && u.clients == s.clients[c := u.clients[c]]
    requires Owned(s.clients, fb) && (Owns(s.clients, c, fb) ==> Owns(u.clients, c, fb))
    ensures Owned(u.clients, fb)
  {
    var k: nat :| k < |s.clients| && Owns(s.clients, k, fb);
    assert Owns(u.clients, k, fb);
  }

  /** A step that neither starts nor ends a client keeps its framebuffer and its owner. */
  lemma SameLifeKeepsAccounts(s: System, u: System, c: nat, before: set<u32>)
    requires Accounted(s, before) && c < |s.clients| == |u.clients| && u.clients == s.clients[c := u.clients[c]]
    requires Live(u.clients[c]) == Live(s.clients[c]) && u.clients[c].kind == s.clients[c].kind
    requires u.server.display.fbs == s.server.display.fbs
    ensures Accounted(u, before)
  {
    forall fb | fb in u.server.display.fbs ensures fb in before || Owned(u.clients, fb) {
      if fb !in before {
        StillOwned(s, u, c, fb);
      }
    }
    forall i: nat, j: nat | i < |u.clients| && j < |u.clients| ensures OwnsAlone(u.clients, i, j) {
      assert OwnsAlone(s.clients, i, j);
    }
    forall i: nat | i < |u.clients| && Live(u.clients[i]) ensures u.clients[i].kind.fb in u.server.display.fbs {
      assert Live(s.clients[i]);
    }
  }

  lemma BirthKeepsAccounts(s: System, u: System, c: nat, before: set<u32>)
    requires Accounted(s, before) && c < |s.clients| == |u.clients| && u.clients == s.clients[c := u.clients[c]]
    requires !Live(s.clients[c]) && Live(u.clients[c]) && u.clients[c].kind.fb !in s.server.display.fbs
    requires u.server.display.fbs == s.server.display.fbs + {u.clients[c].kind.fb}
    ensures Accounted(u, before)
  {
    assert Owns(u.clients, c, u.clients[c].kind.fb);
    forall fb | fb in u.server.display.fbs ensures fb in before || Owned(u.clients, fb) {
      if fb !in before && fb != u.clients[c].kind.fb {
        StillOwned(s, u, c, fb);
      }
    }
    forall i: nat, j: nat | i < |u.clients| && j < |u.clients| ensures OwnsAlone(u.clients, i, j) {
      assert OwnsAlone(s.clients, i, j);
      assert Live(s.clients[i]) ==> s.clients[i].kind.fb in s.server.display.fbs;
      assert Live(s.clients[j]) ==> s.clients[j].kind.fb in s.server.display.fbs;
    }
    forall i: nat | i < |u.clients| && Live(u.clients[i]) ensures u.clients[i].kind.fb in u.server.display.fbs {
      assert i != c ==> Live(s.clients[i]);
    }
  }

  lemma DeathKeepsAccounts(s: System, u: System, c: nat, before: set<u32>)
    requires Accounted(s, before) && c < |s.clients| == |u.clients| && u.clients == s.clients[c := u.clients[c]]
    requires Live(s.clients[c]) && !Live(u.clients[c])
    requires u.server.display.fbs == s.server.display.fbs - {s.clients[c].kind.fb}
    ensures Accounted(u, before)
  {
    forall fb | fb in u.server.display.fbs ensures fb in before || Owned(u.clients, fb) {
      if fb !in before {
        StillOwned(s, u, c, fb);
      }
    }
    forall i: nat, j: nat | i < |u.clients| && j < |u.clients| ensures OwnsAlone(u.clients, i, j) {
      assert OwnsAlone(s.clients, i, j);
    }
    forall i: nat | i < |u.clients| && Live(u.clients[i]) ensures u.clients[i].kind.fb in u.server.display.fbs {
      assert i != c && Live(s.clients[i]) && OwnsAlone(s.clients, i, c);
    }
  }

  lemma TurnKeepsAccounts(s: System, step: Step, before: set<u32>)
    requires Inv(s) && Enabled(s, step) && Accounted(s, before) && IsTurn(step) && !step.Connect?
    ensures Accounted(Next(s, step), before)
  {
    var u, c := Next(s, step), step.c;
    assert ClientFine(s, c);
    TurnedIsFine(s.clients[c], step, DrmProtocol.Served(s.log, c));
    TurnIsOneClient(s, step);
    if Ends(s, step) {
      DeathKeepsAccounts(s, u, c, before);
    } else {
      SameLifeKeepsAccounts(s, u, c, before);
    }
  }

  lemma ServerStepKeepsAccounts(s: System, step: Step, before: set<u32>)
    requires Inv(s) && Enabled(s, step) && Accounted(s, before) && !IsTurn(step)
    ensures Accounted(Next(s, step), before)
  {
    if step.Serve? {
      ServingKeepsLit(s.server, step.slot, s.clients[step.c].toServer[0], step.answers);
    }
    SameLifeKeepsAccounts(s, Next(s, step), step.c, before);
  }

  lemma StepKeepsAccounts(s: System, step: Step, before: set<u32>)
    requires Inv(s) && Enabled(s, step) && Accounted(s, before)
    ensures Accounted(Next(s, step), before)
  {
    if step.Connect? {
      BirthKeepsAccounts(s, Next(s, step), step.c, before);
    } else if IsTurn(step) {
      TurnKeepsAccounts(s, step, before);
    } else {
      ServerStepKeepsAccounts(s, step, before);
    }
  }

  lemma {:induction false} RunKeepsAccounts(s0: System, steps: seq<Step>, s: System, before: set<u32>)
    requires Inv(s0) && DrmProtocol.Run(s0, steps, s) && Accounted(s0, before) && !s.server.crashed
    ensures Accounted(s, before)
    decreases |steps|
  {
    if steps != [] {
      StepKeepsInv(s0, steps[0]);
      StepKeepsAccounts(s0, steps[0], before);
      RunKeepsAccounts(Next(s0, steps[0]), steps[1..], s, before);
    }
  }

  /** Every event keeps what is on showing a framebuffer that exists. */
  lemma EventKeepsLit(s: State, e: Event)
    requires CanApply(s, e) && s.display.LitExists()
    ensures Apply(s, e).display.LitExists()
  {
    if e.Served? {
      ServingKeepsLit(s, e.slot, Encode(e.request), e.answers);
    }
  }

  lemma {:induction false} EventsKeepLit(s: State, evs: seq<Event>)
    requires s.Valid() && InTable(s, evs) && s.display.LitExists()
    ensures ApplyAll(s, evs).display.LitExists()
    decreases |evs|
  {
    if evs != [] {
      EventKeepsLit(s, evs[0]);
      EventsKeepLit(Apply(s, evs[0]), evs[1..]);
    }
  }

  /** The sessions open on a CRTC show framebuffers of this run. */
  predicate OpenAreNew(s: State, open: seq<nat>, before: set<u32>) {
    forall k: nat :: k < |open| && open[k] < |s.infos| ==> s.infos[open[k]].fb !in before
  }

  lemma EventKeepsOpenNew(s: State, e: Event, crtc: u32, open: seq<nat>, base: CrtcState, before: set<u32>)
    requires Stacked(s, crtc, open, base) && !s.crashed && CanApply(s, e) && Fits(s, e, crtc, open)
    requires OpenAreNew(s, open, before) && SparesOne(e, before)
    ensures OpenAreNew(Apply(s, e), OpenAfter(s, e, crtc, open), before)
  {
    if e.Served? && e.slot in open {
      ClosedSession(s, e);
    } else {
      OpenRecordsStay(s, e, crtc, open, base);
      if e.Served? && OpensSession(s, e, crtc) {
        OpenedSession(s, e);
      }
    }
  }

  /** What is left on a dark CRTC is a framebuffer of this run. */
  lemma {:induction false} LeftIsNew(s: State, evs: seq<Event>, crtc: u32, open: seq<nat>, base: CrtcState,
                                     left: Option<u32>, before: set<u32>)
    requires Stacked(s, crtc, open, base) && !s.crashed && base.crtcId == crtc
    requires InTable(s, evs) && Nested(s, evs, crtc, open) && Spares(evs, before)
    requires OpenAreNew(s, open, before) && (left.Some? ==> left.value !in before)
    ensures var l := LeftOn(s, evs, crtc, open, left); l.Some? ==> l.value !in before
    decreases |evs|
  {
    if evs != [] {
      var e := evs[0];
      assert SparesOne(e, before);
      EventKeepsStacked(s, e, crtc, open, base);
      EventKeepsOpenNew(s, e, crtc, open, base, before);
      AllRecordsThere(s, crtc, open, base);
      LeftIsNew(Apply(s, e), evs[1..], crtc, OpenAfter(s, e, crtc, open), BaseAfter(s, e, crtc, open, base),
                LeftAfter(s, e, open, left), before);
    }
  }

  /** When every client has ended, a nested run has given the screen back, whether the CRTC was on at the
      start or off. */
  lemma EverybodyGoneRestores(s0: System, steps: seq<Step>, s: System, crtc: u32)
    requires DrmProtocol.Init(s0) && DrmProtocol.Run(s0, steps, s) && NestedRun(s0, steps, crtc)
    requires crtc in s0.server.display.crtcs
    requires forall c: nat :: c < |s.clients| ==> !Live(s.clients[c])
    ensures crtc in s.server.display.crtcs
    ensures OnScreen(s.server.display.crtcs[crtc]) == OnScreen(s0.server.display.crtcs[crtc])
  {
    SystemRunsRestore(s0, steps, s, crtc);
    if !s0.server.display.crtcs[crtc].modeValid {
      NothingLeft(s0, steps, s, crtc);
    }
  }

  lemma NothingLeft(s0: System, steps: seq<Step>, s: System, crtc: u32)
    requires DrmProtocol.Init(s0) && DrmProtocol.Run(s0, steps, s) && NestedRun(s0, steps, crtc) && !s.server.crashed
    requires crtc in s0.server.display.crtcs && !s0.server.display.crtcs[crtc].modeValid
    requires forall c: nat :: c < |s.clients| ==> !Live(s.clients[c])
    ensures LeftByRun(s0, steps, crtc) == None
  {
    var before := s0.server.display.fbs;
    var start, evs := WithoutConnections(s0.server), Events(s0, steps);
    var base := start.display.crtcs[crtc];
    InitEstablishesInv(s0);
    InitIsForeign(s0);
    RunSparesOthers(s0, steps, s, before);
    InitIsAccounted(s0);
    RunKeepsAccounts(s0, steps, s, before);
    RunIsItsEvents(s0, steps, s);
    EventsKeepLit(start, evs);
    LeftIsNew(start, evs, crtc, [], base, None, before);
    LeftOnIsTheBase(start, evs, crtc, [], base);
    NestedUnwinds(start, evs, crtc, [], base);
  }

  lemma InitIsAccounted(s: System)
    requires Init(s)
    ensures Accounted(s, s.server.display.fbs)
  {
    assert forall c: nat :: c < |s.clients| ==> Unborn(s.clients[c]);
  }
}
