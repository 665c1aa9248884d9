/**
 Sessions that come about: a client that connects to a running server with a free slot, and whose calls the
 kernel grants, gets its picture on the display, stops, and is gone; the display is then as it was.
 */
module DrmShowing {
  import opened MachineWords
  import opened Wrappers
  import opened Wire
  import opened DrmProto
  import opened DrmClient
  import opened DrmServer
  import opened DrmProtocol
  import opened DrmRounds
  import opened Slots

  const GRANTED := Answers(true, true, true, true, true)

  /** The kernel would grant the session of such a client: what it names exists. */
  predicate Grantable(d: Display, kind: Kind) {
    kind.fb != 0 && kind.fb !in d.fbs &&
    match kind
    case CrtcClient(crtcId, connId, _, modeName) =>
      crtcId in d.crtcs && HasMode(d, connId, NameRead(modeName)) && !LongName(kind)
    case PlaneClient(_, planeId, _, _, _, _, _) => planeId in d.planes
  }

  /** Client `c` has not begun, there is room for it, and its session would be granted. */
  predicate Welcome(s: System, c: nat, fd: int) {
    && !s.server.crashed && s.server.Valid() && s.server.display.Valid() && c < |s.clients| && Unborn(s.clients[c])
    && -1 in s.server.fds && fd >= 0 && fd !in s.server.fds
    && (forall k :: 0 <= k < |s.clients| ==> s.clients[k].link != Accepted(fd))
    && Grantable(s.server.display, s.clients[c].kind)
  }

  /** Only client `c` and the server differ. */
  predicate OnlyOne(s: System, t: System, c: nat) {
    c < |s.clients| == |t.clients| && t.clients == s.clients[c := t.clients[c]]
    && t.clients[c].kind == s.clients[c].kind && t.clients[c].magic == s.clients[c].magic
  }

  /** How far the client in slot `i` has come: it waits, with a message in one direction or none. */
  predicate Stage(s: System, c: nat, i: nat, fd: int, phase: Phase, command: u32, toServer: seq<string>,
                  toClient: seq<string>)
  {
    && !s.server.crashed && s.server.Valid() && c < |s.clients| && i < |s.server.fds|
    && fd >= 0 && s.server.fds[i] == fd && s.clients[c].link == Accepted(fd)
    && s.clients[c].phase == phase && s.clients[c].command == command
    && s.clients[c].toServer == toServer && s.clients[c].toClient == toClient
  }

  /** Some run leads from `s` to `t`, and only client `c` takes part in it. */
  ghost predicate Reaches(s: System, t: System, c: nat) {
    OnlyOne(s, t, c) && exists steps :: Run(s, steps, t)
  }

  lemma ReachesNext(s: System, step: Step, c: nat)
    requires Enabled(s, step) && OnlyOne(s, Next(s, step), c)
    ensures Reaches(s, Next(s, step), c)
  {
    assert [step][1..] == [];
    assert Run(s, [step], Next(s, step));
  }

  lemma ReachesFar(s: System, u: System, t: System, c: nat)
    requires Reaches(s, u, c) && Reaches(u, t, c)
    ensures Reaches(s, t, c)
  {
    var first :| Run(s, first, u);
    var more :| Run(u, more, t);
    RunAppend(s, first, u, more, t);
  }

  lemma ConnectsAndIsAccepted(s: System, c: nat, fd: int) returns (t: System)
    requires Welcome(s, c, fd)
    ensures Reaches(s, t, c)
    ensures var i := FirstFree(s.server.fds);
      Stage(t, c, i, fd, Opened, CMD_AUTH, [], []) && t.server.fds == s.server.fds[i := fd]
    ensures t.server.infos == s.server.infos && t.server.display == AddFb(s.server.display, s.clients[c].kind.fb)
  {
    var u := Next(s, Connect(c));
    t := Next(u, Accept(c, fd));
    ReachesNext(s, Connect(c), c);
    ReachesNext(u, Accept(c, fd), c);
    ReachesFar(s, u, t, c);
  }

  lemma SendsMagic(s: System, c: nat, i: nat, fd: int)
    requires Stage(s, c, i, fd, Opened, CMD_AUTH, [], [])
    ensures Enabled(s, SendAuth(c))
    ensures var t := Next(s, SendAuth(c));
      OnlyOne(s, t, c) && t.server == s.server
      && Stage(t, c, i, fd, Waiting, CMD_AUTH, [Encode(Auth(s.clients[c].magic))], [])
  {
    assert [] + [Encode(Auth(s.clients[c].magic))] == [Encode(Auth(s.clients[c].magic))];
  }

  /** The server grants the request that is waiting in the slot. */
  lemma IsServed(s: System, c: nat, i: nat, fd: int, command: u32, req: Request)
    requires Stage(s, c, i, fd, Waiting, command, [Encode(req)], []) && req.magic == s.clients[c].magic
    requires CallsSucceed(req, s.server.infos[i], s.server.display, GRANTED) && !Breaks(req, s.server.infos[i])
    ensures Enabled(s, Serve(c, i, GRANTED))
    ensures var t := Next(s, Serve(c, i, GRANTED));
      OnlyOne(s, t, c) && t.server == ServeMessage(s.server, i, Encode(req), GRANTED)
      && Stage(t, c, i, fd, Waiting, command, [], [Response(req.magic, DRM_OK)])
  {
    ReplyTellsTheOutcome(s.server, i, req, GRANTED);
  }

  /** The client reads an OK. */
  lemma ReadsOk(s: System, c: nat, i: nat, fd: int, command: u32)
    requires c < |s.clients| && Stage(s, c, i, fd, Waiting, command, [], [Response(s.clients[c].magic, DRM_OK)])
    ensures Enabled(s, Receive(c))
    ensures var t, kind, d := Next(s, Receive(c)), s.clients[c].kind, s.server.display;
      OnlyOne(s, t, c)
      && (command == CMD_AUTH ==>
            Stage(t, c, i, fd, Waiting, OpeningCommand(kind), [OpeningText(kind, s.clients[c].magic)], [])
            && t.server == s.server)
      && (command == OpeningCommand(kind) ==> Stage(t, c, i, fd, Shown, command, [], []) && t.server == s.server)
      && (command == ClosingCommand(kind) ==>
            Stage(t, c, i, fd, Closed, command, [], []) && t.server == s.server.(display := RemoveFb(d, kind.fb)))
  {
    var cl := s.clients[c];
    ReplyMovesClient(cl, cl.magic, DRM_OK);
    assert [] + [OpeningText(cl.kind, cl.magic)] == [OpeningText(cl.kind, cl.magic)];
    assert cl.Receive().kind == cl.kind;
  }

  lemma SendsStop(s: System, c: nat, i: nat, fd: int)
    requires c < |s.clients| && Stage(s, c, i, fd, Shown, OpeningCommand(s.clients[c].kind), [], [])
    ensures Enabled(s, SendStop(c))
    ensures var t, cl := Next(s, SendStop(c)), s.clients[c];
      OnlyOne(s, t, c) && t.server == s.server
      && Stage(t, c, i, fd, Waiting, ClosingCommand(cl.kind), [Encode(cl.Stop())], [])
  {
    assert [] + [Encode(s.clients[c].Stop())] == [Encode(s.clients[c].Stop())];
  }

  lemma HangsUp(s: System, c: nat, i: nat, fd: int, command: u32)
    requires Stage(s, c, i, fd, Closed, command, [], [])
    ensures Enabled(s, Hangup(c, i, false))
    ensures var t := Next(s, Hangup(c, i, false));
      OnlyOne(s, t, c) && t.server == s.server.(fds := s.server.fds[i := -1]) && t.clients[c].phase == Closed
      && t.clients[c].link == Dropped
  {
  }

  // ----- what the display shows meanwhile -----

  /** The picture of such a client is on the display `e`, which was `d` before. */
  ghost predicate PictureShown(d: Display, e: Display, kind: Kind) {
    match kind
    case CrtcClient(crtcId, connId, fb, modeName) =>
      exists m: Mode :: connId in d.modes && FirstOfName(d.modes[connId], NameRead(modeName), m)
        && e == d.(crtcs := d.crtcs[crtcId := CrtcState(crtcId, fb, 0, 0, true, m)])
    case PlaneClient(crtcId, planeId, fb, w, h, x, y) =>
      e == d.(planes := d.planes[planeId :=
                Showing(crtcId, fb, x, y, w, h, w * 65536 % 0x1_0000_0000, h * 65536 % 0x1_0000_0000)])
  }

  /** The record that the STOP of such a client needs. */
  predicate StopReady(info: ClientInfo, d: Display, kind: Kind) {
    match kind
    case CrtcClient(crtcId, _, _, _) => crtcId in d.crtcs && info.saved == Some(d.crtcs[crtcId])
    case PlaneClient(_, planeId, _, _, _, _, _) => info.planeId == planeId
  }

  lemma AuthServed(s: State, i: nat, magic: u32)
    requires s.Valid() && i < |s.fds| && !s.crashed
    ensures var t := ServeMessage(s, i, Encode(Auth(magic)), GRANTED);
      t.Valid() && t.fds == s.fds && t.display == s.display && t.infos[i].modeName == ""
      && t.infos == s.infos[i := t.infos[i]]
  {
    AuthEffect(s, i, magic, GRANTED);
  }

  lemma OpeningGranted(s: State, i: nat, cl: Client, d: Display)
    requires s.Valid() && i < |s.fds| && !s.crashed && s.infos[i].modeName == ""
    requires Grantable(d, cl.kind) && s.display == AddFb(d, cl.kind.fb)
    ensures !Breaks(cl.Start(), s.infos[i]) && CallsSucceed(cl.Start(), s.infos[i], s.display, GRANTED)
  {
    if cl.kind.CrtcClient? {
      LongNamesOverrun(cl.Start());
      NameAskedIsScanned(s.infos[i], cl.Start());
    }
  }

  /** Serving the opening request. */
  lemma OpeningServed(s: State, i: nat, cl: Client, d: Display)
    requires s.Valid() && i < |s.fds| && !s.crashed && s.infos[i].modeName == ""
    requires Grantable(d, cl.kind) && s.display == AddFb(d, cl.kind.fb)
    ensures var t := ServeMessage(s, i, Encode(cl.Start()), GRANTED);
      t.fds == s.fds && t.Valid() && PictureShown(s.display, t.display, cl.kind)
      && StopReady(t.infos[i], s.display, cl.kind) && t.infos == s.infos[i := t.infos[i]]
  {
    OpeningGranted(s, i, cl, d);
    if cl.kind.CrtcClient? {
      OkCrtcShows(s, i, cl.Start(), GRANTED);
      CrtcRequestEffect(s, i, cl.Start(), GRANTED);
    } else {
      PlaneRequestEffect(s, i, cl.Start(), GRANTED);
    }
  }

  /** What the display is after the whole session: as before, but a plane is off. */
  predicate GivenBack(d: Display, e: Display, kind: Kind) {
    && e.fbs == d.fbs && e.modes == d.modes && e.crtcs.Keys == d.crtcs.Keys && e.planes.Keys == d.planes.Keys
    && (forall id :: id in d.crtcs ==> OnScreen(e.crtcs[id]) == OnScreen(d.crtcs[id]) && e.crtcs[id].crtcId == id)
    && (kind.PlaneClient? ==> kind.planeId in e.planes && e.planes[kind.planeId] == Disabled)
  }

  lemma StopGranted(s: State, i: nat, cl: Client, d: Display)
    requires s.Valid() && i < |s.fds| && !s.crashed && d.Valid() && Grantable(d, cl.kind)
    requires PictureShown(AddFb(d, cl.kind.fb), s.display, cl.kind)
    requires StopReady(s.infos[i], AddFb(d, cl.kind.fb), cl.kind)
    ensures !Breaks(cl.Stop(), s.infos[i]) && CallsSucceed(cl.Stop(), s.infos[i], s.display, GRANTED)
  {
  }

  /** The CRTC is set back, or was off and shows only what goes. */
  lemma CrtcGivenBack(d: Display, shown: Display, back: Display, kind: Kind, m: Mode)
    requires kind.CrtcClient? && d.Valid() && Grantable(d, kind)
    requires var with := AddFb(d, kind.fb);
      shown == with.(crtcs := with.crtcs[kind.crtcId := CrtcState(kind.crtcId, kind.fb, 0, 0, true, m)])
    requires var base := d.crtcs[kind.crtcId];
      back == if base.modeValid then shown.(crtcs := shown.crtcs[kind.crtcId := base]) else shown
    ensures GivenBack(d, RemoveFb(back, kind.fb), kind)
  {
    var e := RemoveFb(back, kind.fb);
    forall id | id in d.crtcs ensures OnScreen(e.crtcs[id]) == OnScreen(d.crtcs[id]) && e.crtcs[id].crtcId == id {
      assert d.crtcs[id].modeValid ==> d.crtcs[id].bufferId in d.fbs;
    }
  }

  lemma PlaneGivenBack(d: Display, shown: Display, kind: Kind, p: PlaneState)
    requires kind.PlaneClient? && d.Valid() && Grantable(d, kind)
    requires var with := AddFb(d, kind.fb); shown == with.(planes := with.planes[kind.planeId := p])
    ensures GivenBack(d, RemoveFb(shown.(planes := shown.planes[kind.planeId := Disabled]), kind.fb), kind)
  {
    var e := RemoveFb(shown.(planes := shown.planes[kind.planeId := Disabled]), kind.fb);
    forall id | id in d.crtcs ensures OnScreen(e.crtcs[id]) == OnScreen(d.crtcs[id]) && e.crtcs[id].crtcId == id {
      assert d.crtcs[id].modeValid ==> d.crtcs[id].bufferId in d.fbs;
    }
  }

  /** Serving the STOP, and the end of the client with its framebuffer. */
  lemma StopServed(s: State, i: nat, cl: Client, d: Display)
    requires s.Valid() && i < |s.fds| && !s.crashed && d.Valid() && Grantable(d, cl.kind)
    requires PictureShown(AddFb(d, cl.kind.fb), s.display, cl.kind)
    requires StopReady(s.infos[i], AddFb(d, cl.kind.fb), cl.kind)
    ensures var t := ServeMessage(s, i, Encode(cl.Stop()), GRANTED);
      t.fds == s.fds && t.infos == s.infos && GivenBack(d, RemoveFb(t.display, cl.kind.fb), cl.kind)
  {
    var t := ServeMessage(s, i, Encode(cl.Stop()), GRANTED);
    match cl.kind {
      case CrtcClient(crtcId, connId, fb, modeName) =>
        CrtcStopDisplay(s, i, cl.magic, GRANTED);
        var with := AddFb(d, fb);
        var m :| connId in with.modes && FirstOfName(with.modes[connId], NameRead(modeName), m)
          && s.display == with.(crtcs := with.crtcs[crtcId := CrtcState(crtcId, fb, 0, 0, true, m)]);
        assert d.crtcs[crtcId].modeValid ==> d.crtcs[crtcId].bufferId in d.fbs;
        CrtcGivenBack(d, s.display, t.display, cl.kind, m);
      case PlaneClient(crtcId, planeId, fb, w, h, x, y) =>
        PlaneStopDisplay(s, i, cl.magic, GRANTED);
        var asked := Showing(crtcId, fb, x, y, w, h, w * 65536 % 0x1_0000_0000, h * 65536 % 0x1_0000_0000);
        PlaneGivenBack(d, s.display, cl.kind, asked);
    }
  }

  // ----- the whole session -----

  /** The server grants the request that is waiting, and the client reads its OK. */
  lemma IsGranted(s: System, c: nat, i: nat, fd: int, command: u32, req: Request) returns (t: System)
    requires c < |s.clients| && req.magic == s.clients[c].magic
    requires Stage(s, c, i, fd, Waiting, command, [Encode(req)], [])
    requires command in {CMD_AUTH, OpeningCommand(s.clients[c].kind), ClosingCommand(s.clients[c].kind)}
    requires CallsSucceed(req, s.server.infos[i], s.server.display, GRANTED) && !Breaks(req, s.server.infos[i])
    ensures Reaches(s, t, c)
    ensures var u, kind := ServeMessage(s.server, i, Encode(req), GRANTED), s.clients[c].kind;
      if command == CMD_AUTH then
        Stage(t, c, i, fd, Waiting, OpeningCommand(kind), [OpeningText(kind, req.magic)], []) && t.server == u
      else if command == OpeningCommand(kind) then
        Stage(t, c, i, fd, Shown, command, [], []) && t.server == u
      else
        Stage(t, c, i, fd, Closed, command, [], []) && t.server == u.(display := RemoveFb(u.display, kind.fb))
  {
    IsServed(s, c, i, fd, command, req);
    var v := Next(s, Serve(c, i, GRANTED));
    ReadsOk(v, c, i, fd, command);
    t := Next(v, Receive(c));
    ReachesNext(s, Serve(c, i, GRANTED), c);
    ReachesNext(v, Receive(c), c);
    ReachesFar(s, v, t, c);
  }

  /** AUTH, its OK, and the opening request. */
  lemma IsAuthenticated(s: System, c: nat, i: nat, fd: int) returns (t: System)
    requires Stage(s, c, i, fd, Opened, CMD_AUTH, [], [])
    ensures Reaches(s, t, c) && t.server.fds == s.server.fds
    ensures var cl := t.clients[c];
      Stage(t, c, i, fd, Waiting, OpeningCommand(cl.kind), [Encode(cl.Start())], [])
    ensures t.server.display == s.server.display && t.server.infos[i].modeName == ""
  {
    var magic := s.clients[c].magic;
    SendsMagic(s, c, i, fd);
    var u := Next(s, SendAuth(c));
    AuthServed(u.server, i, magic);
    t := IsGranted(u, c, i, fd, CMD_AUTH, Auth(magic));
    ReachesNext(s, SendAuth(c), c);
    ReachesFar(s, u, t, c);
  }

  /** From its AUTH to its picture. */
  lemma GetsItsPicture(s: System, c: nat, i: nat, fd: int, d: Display) returns (t: System)
    requires Stage(s, c, i, fd, Opened, CMD_AUTH, [], []) && Grantable(d, s.clients[c].kind)
    requires s.server.display == AddFb(d, s.clients[c].kind.fb)
    ensures Reaches(s, t, c) && t.server.fds == s.server.fds
    ensures Stage(t, c, i, fd, Shown, OpeningCommand(s.clients[c].kind), [], [])
    ensures PictureShown(s.server.display, t.server.display, s.clients[c].kind)
    ensures StopReady(t.server.infos[i], s.server.display, s.clients[c].kind)
  {
    var u := IsAuthenticated(s, c, i, fd);
    var cl := u.clients[c];
    OpeningGranted(u.server, i, cl, d);
    OpeningServed(u.server, i, cl, d);
    t := IsGranted(u, c, i, fd, OpeningCommand(cl.kind), cl.Start());
    ReachesFar(s, u, t, c);
  }

  /** The STOP is served, and its OK read. */
  lemma StopIsAnswered(s: System, c: nat, i: nat, fd: int, d: Display) returns (t: System)
    requires c < |s.clients|
    requires Stage(s, c, i, fd, Waiting, ClosingCommand(s.clients[c].kind), [Encode(s.clients[c].Stop())], [])
    requires d.Valid() && Grantable(d, s.clients[c].kind)
    requires PictureShown(AddFb(d, s.clients[c].kind.fb), s.server.display, s.clients[c].kind)
    requires StopReady(s.server.infos[i], AddFb(d, s.clients[c].kind.fb), s.clients[c].kind)
    ensures Reaches(s, t, c) && t.server.fds == s.server.fds
    ensures Stage(t, c, i, fd, Closed, ClosingCommand(s.clients[c].kind), [], [])
    ensures GivenBack(d, t.server.display, s.clients[c].kind)
  {
    var cl := s.clients[c];
    StopGranted(s.server, i, cl, d);
    StopServed(s.server, i, cl, d);
    t := IsGranted(s, c, i, fd, ClosingCommand(cl.kind), cl.Stop());
  }

  /** From the key press to the end. */
  lemma StopsAndEnds(s: System, c: nat, i: nat, fd: int, d: Display) returns (t: System)
    requires c < |s.clients| && Stage(s, c, i, fd, Shown, OpeningCommand(s.clients[c].kind), [], [])
    requires d.Valid() && Grantable(d, s.clients[c].kind)
    requires PictureShown(AddFb(d, s.clients[c].kind.fb), s.server.display, s.clients[c].kind)
    requires StopReady(s.server.infos[i], AddFb(d, s.clients[c].kind.fb), s.clients[c].kind)
    ensures Reaches(s, t, c) && t.server.fds == s.server.fds[i := -1] && !t.server.crashed
    ensures t.clients[c].phase == Closed && t.clients[c].link == Dropped && t.server.Valid()
    ensures GivenBack(d, t.server.display, s.clients[c].kind)
  {
    SendsStop(s, c, i, fd);
    var u := Next(s, SendStop(c));
    ReachesNext(s, SendStop(c), c);
    var v := StopIsAnswered(u, c, i, fd, d);
    ReachesFar(s, u, v, c);
    HangsUp(v, c, i, fd, ClosingCommand(s.clients[c].kind));
    t := Next(v, Hangup(c, i, false));
    ReachesNext(v, Hangup(c, i, false), c);
    ReachesFar(s, v, t, c);
  }

  /** From the connection to the picture. */
  lemma SessionOpens(s: System, c: nat, fd: int) returns (t: System)
    requires Welcome(s, c, fd)
    ensures Reaches(s, t, c)
    ensures var i, kind := FirstFree(s.server.fds), s.clients[c].kind;
      t.server.fds == s.server.fds[i := fd] && Stage(t, c, i, fd, Shown, OpeningCommand(kind), [], [])
      && PictureShown(AddFb(s.server.display, kind.fb), t.server.display, kind)
      && StopReady(t.server.infos[i], AddFb(s.server.display, kind.fb), kind)
  {
    var u := ConnectsAndIsAccepted(s, c, fd);
    t := GetsItsPicture(u, c, FirstFree(s.server.fds), fd, s.server.display);
    ReachesFar(s, u, t, c);
  }

  /** A welcome client has a run in which it is accepted, has its picture on the display, stops and is gone,
      with nothing left behind but its plane switched off. */
  lemma SessionTakesPlace(s: System, c: nat, fd: int) returns (shown: System, t: System)
    requires Welcome(s, c, fd)
    ensures Reaches(s, shown, c) && shown.clients[c].phase == Shown
    ensures PictureShown(AddFb(s.server.display, s.clients[c].kind.fb), shown.server.display, s.clients[c].kind)
    ensures Reaches(shown, t, c) && Reaches(s, t, c) && t.clients[c].phase == Closed && t.clients[c].link == Dropped
    ensures t.server.fds == s.server.fds && t.server.Valid() && !t.server.crashed
    ensures GivenBack(s.server.display, t.server.display, s.clients[c].kind)
  {
    var i := FirstFree(s.server.fds);
    shown := SessionOpens(s, c, fd);
    t := StopsAndEnds(shown, c, i, fd, s.server.display);
    ReachesFar(s, shown, t, c);
    assert s.server.fds[i := fd][i := -1] == s.server.fds;
  }

  lemma StillWelcome(s: System, t: System, c: nat, k: nat, fd: int)
    requires Welcome(s, c, fd) && Welcome(s, k, fd) && k != c && OnlyOne(s, t, c)
    requires t.clients[c].link == Dropped && t.server.fds == s.server.fds && t.server.Valid() && !t.server.crashed
    requires GivenBack(s.server.display, t.server.display, s.clients[c].kind)
    ensures Welcome(t, k, fd)
  {
    var d, e := s.server.display, t.server.display;
    forall id | id in e.crtcs && e.crtcs[id].modeValid ensures e.crtcs[id].bufferId in e.fbs {
      assert OnScreen(e.crtcs[id]) == OnScreen(d.crtcs[id]);
    }
  }

  /** From the start, one client of each kind, one after the other. */
  lemma OneOfEachKind(s: System, c: nat, k: nat, fd: int) returns (steps: seq<Step>, t: System)
    requires Init(s) && Welcome(s, c, fd) && Welcome(s, k, fd)
    requires s.clients[c].kind.CrtcClient? && s.clients[k].kind.PlaneClient?
    ensures Run(s, steps, t) && c < |t.clients| && k < |t.clients|
    ensures t.clients[c].phase == Closed && t.clients[k].phase == Closed && !t.server.crashed
    ensures forall id :: id in s.server.display.crtcs ==>
      id in t.server.display.crtcs
      && OnScreen(t.server.display.crtcs[id]) == OnScreen(s.server.display.crtcs[id])
  {
    var shown, u := SessionTakesPlace(s, c, fd);
    StillWelcome(s, u, c, k, fd);
    shown, t := SessionTakesPlace(u, k, fd);
    var first :| Run(s, first, u);
    var more :| Run(u, more, t);
    steps := first + more;
    RunAppend(s, first, u, more, t);
  }
}
