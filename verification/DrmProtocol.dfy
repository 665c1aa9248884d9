/**
 The display server together with any number of clients (`drm_client_crtc.c`,
 `drm_client_plane.c`), their sockets and the display, as one transition system.
 A step is taken by one client, by the server for one slot, or by both for an accept; clients may
 vanish at any point and every kernel call may fail. The server serves any ready slot at any
 time, which covers every order its poll rounds can produce.
 */
module DrmProtocol {
  import opened MachineWords
  import opened Wire
  import opened DrmProto
  import opened DrmClient
  import opened DrmServer
  import opened Slots
  import opened Wrappers

  /** What the server did for one request it read: what it had before it, which kernel calls worked,
      and what it answered. */
  datatype Entry = Entry(
    client: nat, slot: nat, text: string, asked: Request, answers: Answers,
    info: ClientInfo, before: Display, reply: string)

  datatype System = System(clients: seq<Client>, server: State, log: seq<Entry>)

  datatype Step =
    | Connect(c: nat)
    | SendAuth(c: nat)
    | Receive(c: nat)
    | SendStop(c: nat)
    | Quit(c: nat)
    | Accept(c: nat, fd: int)
    | Serve(c: nat, slot: nat, answers: Answers)
    | Hangup(c: nat, slot: nat, failed: bool)

  /** The server holds the connection of client `c` in slot `i`. */
  predicate Holds(s: System, i: nat, c: nat) {
    i < |s.server.fds| && c < |s.clients| && s.clients[c].link == Accepted(s.server.fds[i])
  }

  predicate Enabled(s: System, step: Step) {
    !s.server.crashed && s.server.Valid() && step.c < |s.clients| &&
    var cl := s.clients[step.c];
    match step
    case Connect(_) => cl.phase == Idle && cl.kind.fb !in s.server.display.fbs && cl.kind.fb != 0
    case SendAuth(_) => cl.phase == Opened
    case Receive(_) => cl.phase == Waiting && cl.toClient != []
    case SendStop(_) => cl.phase == Shown
    case Quit(_) => cl.phase != Idle && cl.phase != Closed
    case Accept(_, fd) =>
      cl.link == Backlog && fd >= 0 && fd !in s.server.fds
      && forall k :: 0 <= k < |s.clients| ==> s.clients[k].link != Accepted(fd)
    case Serve(c, i, _) => Holds(s, i, c) && s.server.fds[i] != -1 && cl.toServer != []
    case Hangup(c, i, failed) =>
      Holds(s, i, c) && s.server.fds[i] != -1 && cl.phase == Closed && (failed || cl.toServer == [])
  }

  /** The server has gone to state `t` over the request at the head of client `c`'s queue. */
  function AfterServing(s: System, c: nat, i: nat, a: Answers, t: State): System
    requires s.server.Valid() && i < |s.server.infos| && c < |s.clients| && s.clients[c].toServer != []
  {
    var cl := s.clients[c];
    var rest := cl.(toServer := cl.toServer[1..]);
    // the reply to a client that has gone is lost
    var answered := if cl.phase == Closed then rest else rest.(toClient := cl.toClient + [t.txBuf]);
    var entry := Entry(c, i, cl.toServer[0], cl.Pending(), a, s.server.infos[i], s.server.display, t.txBuf);
    if t.crashed then s.(server := t) else System(s.clients[c := answered], t, s.log + [entry])
  }

  /** Client `c` has become `d`; when it has ended, its framebuffer is removed. */
  function AfterTurn(s: System, c: nat, d: Client): System
    requires c < |s.clients|
  {
    var gone := d.phase == Closed && s.clients[c].phase != Closed;
    var display := if gone then RemoveFb(s.server.display, d.kind.fb) else s.server.display;
    s.(clients := s.clients[c := d], server := s.server.(display := display))
  }

  /** Connecting stands for the whole set-up of a client: it has then made its framebuffer. */
  function Next(s: System, step: Step): System
    requires Enabled(s, step)
  {
    var cl := s.clients[step.c];
    match step
    case Connect(c) =>
      s.(clients := s.clients[c := cl.(phase := Opened, link := Backlog)],
         server := s.server.(display := AddFb(s.server.display, cl.kind.fb)))
    case SendAuth(c) => AfterTurn(s, c, cl.Send(Auth(cl.magic)))
    case Receive(c) => AfterTurn(s, c, cl.Receive())
    case SendStop(c) => AfterTurn(s, c, cl.Send(cl.Stop()))
    case Quit(c) => AfterTurn(s, c, cl.Close())
    case Accept(c, fd) =>
      if FirstFree(s.server.fds) < |s.server.fds| then
        s.(clients := s.clients[c := cl.(link := Accepted(fd))], server := AcceptInto(s.server, fd))
      else
        s.(clients := s.clients[c := cl.(link := Dropped, toServer := [])])
    case Serve(c, i, a) =>
      AfterServing(s, c, i, a, ServeMessage(s.server, i, cl.toServer[0], a))
    case Hangup(c, i, failed) =>
      s.(clients := s.clients[c := cl.(link := Dropped, toServer := [])],
         server := ServeSlot(s.server, i,
           Input(if failed then ReadFailed else EndOfFile, Answers(true, true, true, true, true))))
  }

  /** Before anything has happened; the records are uninitialised memory, so they may hold anything. */
  predicate Init(s: System) {
    && s.server.Valid() && !s.server.crashed && s.log == [] && s.server.display.Valid()
    && (forall i :: 0 <= i < |s.server.fds| ==> s.server.fds[i] == -1)
    && (forall c :: 0 <= c < |s.clients| ==> Unborn(s.clients[c]))
  }

  predicate Unborn(cl: Client) {
    && cl.phase == Idle && cl.link == Unlinked && cl.command == CMD_AUTH
    && cl.toServer == [] && cl.toClient == [] && cl.sent == 0 && cl.received == 0
  }

  /** `s` can be reached from `s0` by the given steps. */
  predicate Run(s0: System, steps: seq<Step>, s: System)
    decreases |steps|
  {
    if steps == [] then s == s0
    else Enabled(s0, steps[0]) && Run(Next(s0, steps[0]), steps[1..], s)
  }

  // ----- the invariant -----

  predicate Lockstep(cl: Client) {
    |cl.toServer| + |cl.toClient| <= 1
  }

  predicate OneReply(cl: Client) {
    cl.toClient == [Response(cl.magic, DRM_OK)] || cl.toClient == [Response(cl.magic, DRM_ERROR)]
  }

  predicate ClientOk(cl: Client) {
    && KnownCommand(cl)
    && (cl.link.Backlog? ==> cl.command == CMD_AUTH && cl.phase != Shown && cl.phase != Idle && cl.toClient == [])
    && (cl.link.Unlinked? <==> cl.phase == Idle)
    && (cl.link.Dropped? ==> cl.toServer == [])
    && match cl.phase
       case Idle => cl.command == CMD_AUTH && cl.toServer == [] && cl.toClient == []
       case Opened => cl.command == CMD_AUTH && cl.toServer == [] && cl.toClient == []
       case Waiting =>
         if cl.link.Dropped? then cl.toClient == []
         else (cl.toServer == [Encode(cl.Pending())] && cl.toClient == []) || (cl.toServer == [] && OneReply(cl))
       case Shown => cl.command == cl.Start().Command() && cl.link.Accepted? && cl.toServer == [] && cl.toClient == []
       case Closed => cl.toClient == [] && (cl.toServer == [] || cl.toServer == [Encode(cl.Pending())])
  }

  /** The client's session is on the display, or its STOP request is still to be read. */
  predicate Settled(cl: Client) {
    || cl.phase == Shown
    || (cl.command == cl.Stop().Command() && cl.toServer != [])
    || (cl.command == cl.Start().Command() && cl.phase == Waiting && cl.toClient == [Response(cl.magic, DRM_OK)])
  }

  /** `e` is the service of client `c`'s own CRTC or PLANE request in slot `i`, answered OK. */
  predicate Opening(cl: Client, e: Entry, c: nat, i: nat) {
    e.client == c && e.slot == i && e.asked == cl.Start() && e.reply == Response(cl.magic, DRM_OK)
  }

  /** ... and it has saved what the CRTC showed then. */
  predicate SavedBy(cl: Client, e: Entry, info: ClientInfo)
    requires cl.kind.CrtcClient?
  {
    && cl.kind.crtcId in e.before.crtcs && info.saved == Some(e.before.crtcs[cl.kind.crtcId])
    && info.connId == cl.kind.connId
  }

  /** The `k`-th entry of the log is where the record of slot `i` comes from. */
  predicate EstablishedBy(s: System, i: nat, c: nat, k: nat)
    requires Holds(s, i, c) && s.server.Valid() && k < |s.log|
  {
    var cl, info := s.clients[c], s.server.infos[i];
    Opening(cl, s.log[k], c, i)
    && if cl.kind.CrtcClient? then SavedBy(cl, s.log[k], info) else info.planeId == cl.kind.planeId
  }

  /** The record in slot `i` comes from this connection's own opening request. */
  ghost predicate Established(s: System, i: nat, c: nat)
    requires Holds(s, i, c) && s.server.Valid()
  {
    exists k: nat :: k < |s.log| && EstablishedBy(s, i, c, k)
  }

  predicate SlotsDistinct(fds: seq<int>) {
    forall i, j :: 0 <= i < j < |fds| && fds[i] != -1 ==> fds[i] != fds[j]
  }

  predicate LinksDistinct(clients: seq<Client>) {
    && (forall c, d :: 0 <= c < d < |clients| && clients[c].link.Accepted? ==> clients[c].link != clients[d].link)
    && (forall c :: 0 <= c < |clients| && clients[c].link.Accepted? ==> clients[c].link.fd >= 0)
  }

  function Served(log: seq<Entry>, c: nat): nat {
    if log == [] then 0
    else Served(log[..|log| - 1], c) + if log[|log| - 1].client == c then 1 else 0
  }

  /** Requests and replies balance: what was sent was served or is in flight, and likewise back. */
  predicate Balanced(cl: Client, served: nat) {
    && (!cl.link.Dropped? ==> cl.sent == served + |cl.toServer|)
    && (cl.phase != Closed ==> served == cl.received + |cl.toClient|)
  }

  function Verdict(ok: bool): u32 { if ok then DRM_OK else DRM_ERROR }

  /** Every request was answered with its magic, and OK exactly when its calls succeeded. */
  ghost predicate EntryFine(clients: seq<Client>, e: Entry) {
    && e.client < |clients| && e.text == Encode(e.asked) && e.asked.magic == clients[e.client].magic
    && e.reply == Response(e.asked.magic, Verdict(CallsSucceed(e.asked, e.info, e.before, e.answers)))
  }

  ghost predicate LogFine(s: System) {
    forall k: nat :: k < |s.log| ==> EntryFine(s.clients, s.log[k])
  }

  predicate ClientFine(s: System, c: nat)
    requires c < |s.clients|
  {
    ClientOk(s.clients[c]) && Balanced(s.clients[c], Served(s.log, c))
  }

  predicate ClientsFine(s: System) {
    forall c: nat :: c < |s.clients| ==> ClientFine(s, c)
  }

  ghost predicate SessionFine(s: System, i: nat, c: nat)
    requires s.server.Valid()
  {
    Holds(s, i, c) && Settled(s.clients[c]) ==> Established(s, i, c)
  }

  ghost predicate SessionsFine(s: System)
    requires s.server.Valid()
  {
    forall i: nat, c: nat :: SessionFine(s, i, c)
  }

  ghost predicate Inv(s: System) {
    && s.server.Valid() && !s.server.crashed
    && SlotsDistinct(s.server.fds) && LinksDistinct(s.clients)
    && LogFine(s) && ClientsFine(s) && SessionsFine(s)
  }

  /** A mode name too long for the server's record. */
  predicate LongName(kind: Kind) {
    kind.CrtcClient? && |NameRead(kind.modeName)| >= MODE_NAME_SIZE
  }

  /** The server has crashed over a mode name. */
  predicate Broken(s: System) {
    s.server.crashed && exists c :: 0 <= c < |s.clients| && LongName(s.clients[c].kind)
  }

  lemma InitEstablishesInv(s: System)
    requires Init(s)
    ensures Inv(s)
  {
    forall c: nat | c < |s.clients| ensures ClientFine(s, c) {
      assert Unborn(s.clients[c]);
    }
    forall i: nat, c: nat ensures SessionFine(s, i, c) {
      assert c < |s.clients| ==> Unborn(s.clients[c]);
    }
    assert forall c :: 0 <= c < |s.clients| ==> Unborn(s.clients[c]);
  }

  // ----- steps of one client -----

  lemma OkIsNotError(magic: u32)
    ensures Response(magic, DRM_OK) != Response(magic, DRM_ERROR)
  {
    ResponseRoundTrip(magic, DRM_OK);
    ResponseRoundTrip(magic, DRM_ERROR);
  }

  /** A client that is well-formed stays so whatever it does next, and becomes settled only by
      having been so. */
  lemma ClientSteps(cl: Client, served: nat)
    requires ClientOk(cl) && Balanced(cl, served)
    ensures cl.phase == Idle ==> var d := cl.(phase := Opened, link := Backlog);
              ClientOk(d) && Balanced(d, served) && !Settled(d)
    ensures cl.phase == Opened ==> var d := cl.Send(Auth(cl.magic));
              ClientOk(d) && Balanced(d, served) && !Settled(d)
    ensures cl.phase == Shown ==> var d := cl.Send(cl.Stop());
              ClientOk(d) && Balanced(d, served)
    ensures cl.phase != Idle ==> ClientOk(cl.Close()) && Balanced(cl.Close(), served)
    ensures Settled(cl.Close()) ==> Settled(cl)
  {
  }

  lemma ClientReceives(cl: Client, served: nat)
    requires ClientOk(cl) && Balanced(cl, served) && cl.phase == Waiting && cl.toClient != []
    ensures ClientOk(cl.Receive()) && Balanced(cl.Receive(), served)
    ensures Settled(cl.Receive()) ==> Settled(cl)
    ensures Scanf(HEADER_FORMAT, cl.toClient[0]) == [Num(cl.magic), Num(DRM_OK)]
         || Scanf(HEADER_FORMAT, cl.toClient[0]) == [Num(cl.magic), Num(DRM_ERROR)]
  {
    ResponseRoundTrip(cl.magic, DRM_OK);
    ResponseRoundTrip(cl.magic, DRM_ERROR);
  }

  predicate SameSession(cl: Client, d: Client) {
    && d.kind == cl.kind && d.magic == cl.magic
    && (d.link == cl.link || (cl.link.Unlinked? && d.link.Backlog?))
  }

  /** `t` differs from `s` in client `c` and in what the display shows. */
  predicate OnlyClient(s: System, t: System, c: nat) {
    && c < |s.clients| == |t.clients| && t.log == s.log
    && t.server == s.server.(display := t.server.display)
    && t.clients == s.clients[c := t.clients[c]] && SameSession(s.clients[c], t.clients[c])
  }

  lemma OneClientKeepsOthers(s: System, t: System, c: nat)
    requires Inv(s) && OnlyClient(s, t, c) && ClientFine(t, c)
    ensures ClientsFine(t) && LinksDistinct(t.clients)
  {
    forall k: nat | k < |t.clients| ensures ClientFine(t, k) {
      assert ClientFine(s, k);
    }
  }

  lemma OneClientKeepsLog(s: System, t: System, c: nat)
    requires Inv(s) && OnlyClient(s, t, c)
    ensures LogFine(t)
  {
    forall k: nat | k < |t.log| ensures EntryFine(t.clients, t.log[k]) {
      assert EntryFine(s.clients, s.log[k]);
    }
  }

  lemma OneClientKeepsSession(s: System, t: System, c: nat, i: nat, k: nat)
    requires Inv(s) && OnlyClient(s, t, c) && t.server.Valid()
    requires Settled(t.clients[c]) ==> Settled(s.clients[c])
    requires Holds(t, i, k) && Settled(t.clients[k])
    ensures Established(t, i, k)
  {
    assert Holds(s, i, k) && SessionFine(s, i, k);
    assert SameSession(s.clients[k], t.clients[k]);
    SameSessionKeepsEstablished(s, t, i, k);
  }

  /** A turn of one client that fits its phase keeps the invariant. */
  lemma ClientOnlyStep(s: System, t: System, c: nat)
    requires Inv(s) && OnlyClient(s, t, c) && ClientFine(t, c)
    requires Settled(t.clients[c]) ==> Settled(s.clients[c])
    ensures Inv(t)
  {
    OneClientKeepsOthers(s, t, c);
    OneClientKeepsLog(s, t, c);
    forall i: nat, k: nat ensures SessionFine(t, i, k) {
      if Holds(t, i, k) && Settled(t.clients[k]) {
        OneClientKeepsSession(s, t, c, i, k);
      }
    }
  }

  lemma SameSessionKeepsEstablished(s: System, t: System, i: nat, c: nat)
    requires s.server.Valid() && t.server.Valid() && Holds(s, i, c) && Holds(t, i, c)
    requires t.server.infos[i] == s.server.infos[i] && |s.log| <= |t.log| && t.log[..|s.log|] == s.log
    requires SameSession(s.clients[c], t.clients[c]) && Established(s, i, c)
    ensures Established(t, i, c)
  {
    var k: nat :| k < |s.log| && EstablishedBy(s, i, c, k);
    assert t.log[k] == s.log[k] && t.clients[c].Start() == s.clients[c].Start();
    assert EstablishedBy(t, i, c, k);
  }

  // ----- accepting and hanging up -----

  lemma AcceptKeepsTable(s: System, c: nat, fd: int)
    requires Inv(s) && Enabled(s, Accept(c, fd))
    ensures SlotsDistinct(Next(s, Accept(c, fd)).server.fds)
  {
  }

  lemma AcceptKeepsLinks(s: System, c: nat, fd: int)
    requires Inv(s) && Enabled(s, Accept(c, fd))
    ensures LinksDistinct(Next(s, Accept(c, fd)).clients)
  {
    var t := Next(s, Accept(c, fd));
    forall i, j | 0 <= i < j < |t.clients| && t.clients[i].link.Accepted?
      ensures t.clients[i].link != t.clients[j].link
    {
      assert s.clients[i].link != Accepted(fd) && s.clients[j].link != Accepted(fd);
    }
  }

  lemma AcceptedIsFine(cl: Client, fd: int, served: nat)
    requires ClientOk(cl) && Balanced(cl, served) && cl.link == Backlog
    ensures var d := cl.(link := Accepted(fd)); ClientOk(d) && Balanced(d, served) && !Settled(d)
    ensures var d := cl.(link := Dropped, toServer := []); ClientOk(d) && Balanced(d, served) && !Settled(d)
  {
  }

  lemma AcceptKeepsClients(s: System, c: nat, fd: int)
    requires Inv(s) && Enabled(s, Accept(c, fd))
    ensures ClientsFine(Next(s, Accept(c, fd))) && !Settled(Next(s, Accept(c, fd)).clients[c])
  {
    var t := Next(s, Accept(c, fd));
    assert ClientFine(s, c);
    AcceptedIsFine(s.clients[c], fd, Served(s.log, c));
    forall k: nat | k < |t.clients| ensures ClientFine(t, k) {
      if k != c {
        assert ClientFine(s, k) && t.clients[k] == s.clients[k];
      }
    }
  }

  lemma AcceptKeepsLog(s: System, c: nat, fd: int)
    requires Inv(s) && Enabled(s, Accept(c, fd))
    ensures LogFine(Next(s, Accept(c, fd)))
  {
    var t := Next(s, Accept(c, fd));
    forall k: nat | k < |t.log| ensures EntryFine(t.clients, t.log[k]) {
      assert EntryFine(s.clients, s.log[k]);
    }
  }

  lemma AcceptKeepsSession(s: System, c: nat, fd: int, i: nat, k: nat)
    requires Inv(s) && Enabled(s, Accept(c, fd)) && k != c
    requires Holds(Next(s, Accept(c, fd)), i, k) && Settled(s.clients[k])
    ensures Next(s, Accept(c, fd)).server.Valid() && Established(Next(s, Accept(c, fd)), i, k)
  {
    var t := Next(s, Accept(c, fd));
    assert t.clients[k] == s.clients[k] && s.clients[k].link != Accepted(fd);
    assert Holds(s, i, k) && SessionFine(s, i, k);
    assert t.server.infos == s.server.infos;
    SameSessionKeepsEstablished(s, t, i, k);
  }

  lemma AcceptKeepsInv(s: System, c: nat, fd: int)
    requires Inv(s) && Enabled(s, Accept(c, fd))
    ensures Inv(Next(s, Accept(c, fd)))
  {
    var t := Next(s, Accept(c, fd));
    AcceptKeepsTable(s, c, fd);
    AcceptKeepsLinks(s, c, fd);
    AcceptKeepsClients(s, c, fd);
    AcceptKeepsLog(s, c, fd);
    forall i: nat, k: nat ensures SessionFine(t, i, k) {
      if Holds(t, i, k) && Settled(t.clients[k]) {
        AcceptKeepsSession(s, c, fd, i, k);
      }
    }
  }

  lemma HangupKeepsSession(s: System, c: nat, i: nat, failed: bool, j: nat, k: nat)
    requires Inv(s) && Enabled(s, Hangup(c, i, failed)) && k != c && j != i
    requires Holds(Next(s, Hangup(c, i, failed)), j, k) && Settled(s.clients[k])
    ensures Next(s, Hangup(c, i, failed)).server.Valid() && Established(Next(s, Hangup(c, i, failed)), j, k)
  {
    var t := Next(s, Hangup(c, i, failed));
    assert Holds(s, j, k) && SessionFine(s, j, k);
    SameSessionKeepsEstablished(s, t, j, k);
  }

  lemma HangupKeepsClients(s: System, c: nat, i: nat, failed: bool)
    requires Inv(s) && Enabled(s, Hangup(c, i, failed))
    ensures ClientsFine(Next(s, Hangup(c, i, failed))) && LogFine(Next(s, Hangup(c, i, failed)))
  {
    var t := Next(s, Hangup(c, i, failed));
    forall k: nat | k < |t.clients| ensures ClientFine(t, k) {
      assert ClientFine(s, k);
    }
    forall k: nat | k < |t.log| ensures EntryFine(t.clients, t.log[k]) {
      assert EntryFine(s.clients, s.log[k]);
    }
  }

  lemma HangupKeepsInv(s: System, c: nat, i: nat, failed: bool)
    requires Inv(s) && Enabled(s, Hangup(c, i, failed))
    ensures Inv(Next(s, Hangup(c, i, failed)))
  {
    var t := Next(s, Hangup(c, i, failed));
    HangupKeepsClients(s, c, i, failed);
    forall j: nat, k: nat ensures SessionFine(t, j, k) {
      if Holds(t, j, k) && Settled(t.clients[k]) {
        HangupKeepsSession(s, c, i, failed, j, k);
      }
    }
  }

  // ----- the server serves a request -----

  /** The request at the head of an accepted client's queue is the one its `command` stands for. */
  lemma HeadIsPending(s: System, c: nat, i: nat, a: Answers)
    requires Inv(s) && Enabled(s, Serve(c, i, a))
    ensures var cl := s.clients[c];
            cl.toServer == [Encode(cl.Pending())] && cl.toClient == [] && cl.phase in {Waiting, Closed}
  {
    assert ClientFine(s, c);
  }

  /** What the proofs need to know about the service of one request of client `cl` in slot `i`. */
  ghost predicate GoodService(s: State, i: nat, cl: Client, a: Answers, t: State)
    requires s.Valid() && i < |s.fds|
  {
    && t.Valid() && t.fds == s.fds && !t.crashed
    && (forall j :: 0 <= j < |s.infos| && j != i ==> t.infos[j] == s.infos[j])
    && t.txBuf == Response(cl.magic, Verdict(CallsSucceed(cl.Pending(), s.infos[i], s.display, a)))
    && (cl.command == cl.Start().Command() && t.txBuf == Response(cl.magic, DRM_OK) ==> FilledRecord(s, i, cl, t))
  }

  /** An opening request answered OK leaves its own identifiers, and what the CRTC showed before it,
      in the record of the slot. */
  predicate FilledRecord(s: State, i: nat, cl: Client, t: State)
    requires s.Valid() && t.Valid() && i < |s.fds| == |t.fds|
  {
    match cl.kind
    case CrtcClient(crtcId, connId, _, _) =>
      crtcId in s.display.crtcs && t.infos[i].saved == Some(s.display.crtcs[crtcId]) && t.infos[i].connId == connId
    case PlaneClient(_, planeId, _, _, _, _, _) => t.infos[i].planeId == planeId
  }

  lemma OkCrtcFillsRecord(info: ClientInfo, d: Display, req: Request, a: Answers)
    requires req.Crtc? && !Breaks(req, info) && Handle(req, info, d, a).Handled? && Handle(req, info, d, a).ok
    ensures var filled := Handle(req, info, d, a).info;
      req.crtcId in d.crtcs && filled.saved == Some(d.crtcs[req.crtcId]) && filled.connId == req.connId
  {
    LongNamesOverrun(req);
    ScannedCrtcNumbers(info, req);
  }

  lemma OkPlaneFillsRecord(info: ClientInfo, d: Display, req: Request, a: Answers)
    requires req.Plane? && Handle(req, info, d, a).Handled?
    ensures Handle(req, info, d, a).info.planeId == req.planeId
  {
    ScannedPlaneNumbers(info, req);
  }

  lemma OpeningFillsRecord(s: State, i: nat, cl: Client, a: Answers)
    requires s.Valid() && i < |s.fds| && !s.crashed && !Breaks(cl.Start(), s.infos[i])
    requires ServeMessage(s, i, Encode(cl.Start()), a).txBuf == Response(cl.magic, DRM_OK)
    ensures FilledRecord(s, i, cl, ServeMessage(s, i, Encode(cl.Start()), a))
  {
    OkIsNotError(cl.magic);
    ServeEncoded(s, i, cl.Start(), a);
    HandlingOutcome(s.infos[i], s.display, cl.Start(), a);
    if cl.kind.CrtcClient? {
      OkCrtcFillsRecord(s.infos[i], s.display, cl.Start(), a);
    } else {
      OkPlaneFillsRecord(s.infos[i], s.display, cl.Start(), a);
    }
  }

  predicate KnownCommand(cl: Client) {
    cl.command == CMD_AUTH || cl.command == cl.Start().Command() || cl.command == cl.Stop().Command()
  }

  /** Serving a request answers with the client's magic and the verdict of its kernel calls, and touches
      no other record; it crashes over a mode name that does not fit, and over nothing else when a STOP
      finds something saved. */
  lemma ServiceIsGood(s: State, i: nat, cl: Client, a: Answers)
    requires s.Valid() && i < |s.fds| && !s.crashed && KnownCommand(cl)
    requires cl.command == CMD_CRTC_STOP ==> s.infos[i].saved.Some?
    ensures var t := ServeMessage(s, i, Encode(cl.Pending()), a);
      t.Valid() && if t.crashed then LongName(cl.kind) && cl.command == CMD_CRTC else GoodService(s, i, cl, a, t)
  {
    ServeEncoded(s, i, cl.Pending(), a);
    ReplyTellsTheOutcome(s, i, cl.Pending(), a);
    var t := ServeMessage(s, i, Encode(cl.Pending()), a);
    if !t.crashed && cl.command == cl.Start().Command() && t.txBuf == Response(cl.magic, DRM_OK) {
      OpeningFillsRecord(s, i, cl, a);
    }
  }

  lemma StopFindsSaved(s: System, c: nat, i: nat, a: Answers)
    requires Inv(s) && Enabled(s, Serve(c, i, a)) && s.clients[c].command == CMD_CRTC_STOP
    ensures s.server.infos[i].saved.Some?
  {
    HeadIsPending(s, c, i, a);
    assert ClientFine(s, c) && SessionFine(s, i, c) && Settled(s.clients[c]);
    var k: nat :| k < |s.log| && EstablishedBy(s, i, c, k);
  }

  lemma ServeIsSafe(s: System, c: nat, i: nat, a: Answers)
    requires Inv(s) && Enabled(s, Serve(c, i, a))
    ensures var t := ServeMessage(s.server, i, s.clients[c].toServer[0], a);
      if t.crashed then LongName(s.clients[c].kind) && s.clients[c].command == CMD_CRTC
      else GoodService(s.server, i, s.clients[c], a, t)
  {
    var cl := s.clients[c];
    HeadIsPending(s, c, i, a);
    assert ClientFine(s, c);
    if cl.command == CMD_CRTC_STOP {
      StopFindsSaved(s, c, i, a);
    }
    ServiceIsGood(s.server, i, cl, a);
  }

  ghost predicate ServiceStep(s: System, c: nat, i: nat, a: Answers, t: State) {
    && s.server.Valid() && Holds(s, i, c)
    && s.clients[c].toServer == [Encode(s.clients[c].Pending())] && s.clients[c].toClient == []
    && s.clients[c].phase in {Waiting, Closed}
    && GoodService(s.server, i, s.clients[c], a, t)
  }

  lemma ServiceKeepsLog(s: System, c: nat, i: nat, a: Answers, t: State)
    requires Inv(s) && ServiceStep(s, c, i, a, t)
    ensures LogFine(AfterServing(s, c, i, a, t))
  {
    var u := AfterServing(s, c, i, a, t);
    assert ClientFine(s, c);
    forall k: nat | k < |u.log| ensures EntryFine(u.clients, u.log[k]) {
      if k < |s.log| {
        assert u.log[k] == s.log[k] && EntryFine(s.clients, s.log[k]);
      }
    }
  }

  lemma ServiceKeepsClient(s: System, c: nat, i: nat, a: Answers, t: State, k: nat)
    requires Inv(s) && ServiceStep(s, c, i, a, t) && k < |s.clients|
    ensures ClientFine(AfterServing(s, c, i, a, t), k)
  {
    var u := AfterServing(s, c, i, a, t);
    assert ClientFine(s, k);
    assert u.log[..|u.log| - 1] == s.log;
  }

  /** A served client is settled only by an opening request that was answered OK. */
  lemma ServiceEstablishes(s: System, c: nat, i: nat, a: Answers, t: State)
    requires Inv(s) && ServiceStep(s, c, i, a, t)
    ensures var u := AfterServing(s, c, i, a, t);
            Holds(u, i, c) && (Settled(u.clients[c]) ==> Established(u, i, c))
  {
    var u := AfterServing(s, c, i, a, t);
    var cl, k, d := s.clients[c], |s.log|, u.clients[c];
    assert ClientFine(s, c);
    if Settled(d) {
      assert d.toClient == [t.txBuf] && cl.Pending() == cl.Start();
      assert FilledRecord(s.server, i, cl, t);
      assert EstablishedBy(u, i, c, k);
    }
  }

  lemma ServiceKeepsSession(s: System, c: nat, i: nat, a: Answers, t: State, j: nat, k: nat)
    requires Inv(s) && ServiceStep(s, c, i, a, t) && k != c
    requires Holds(AfterServing(s, c, i, a, t), j, k) && Settled(s.clients[k])
    ensures Established(AfterServing(s, c, i, a, t), j, k)
  {
    var u := AfterServing(s, c, i, a, t);
    assert Holds(s, j, k) && SessionFine(s, j, k) && j != i;
    assert u.log[..|s.log|] == s.log;
    SameSessionKeepsEstablished(s, u, j, k);
  }

  lemma OneSlotPerClient(s: System, u: System, c: nat, i: nat, j: nat)
    requires SlotsDistinct(s.server.fds) && LinksDistinct(s.clients) && u.server.fds == s.server.fds
    requires Holds(s, i, c) && Holds(u, j, c) && u.clients[c].link == s.clients[c].link
    ensures j == i
  {
  }

  lemma ServiceKeepsInv(s: System, c: nat, i: nat, a: Answers, t: State)
    requires Inv(s) && ServiceStep(s, c, i, a, t)
    ensures Inv(AfterServing(s, c, i, a, t))
  {
    var u := AfterServing(s, c, i, a, t);
    ServiceKeepsLog(s, c, i, a, t);
    forall k: nat | k < |u.clients| ensures ClientFine(u, k) {
      ServiceKeepsClient(s, c, i, a, t, k);
    }
    forall j: nat, k: nat ensures SessionFine(u, j, k) {
      if Holds(u, j, k) && Settled(u.clients[k]) {
        if k == c {
          OneSlotPerClient(s, u, c, i, j);
          ServiceEstablishes(s, c, i, a, t);
        } else {
          ServiceKeepsSession(s, c, i, a, t, j, k);
        }
      }
    }
  }

  lemma ServeKeepsInv(s: System, c: nat, i: nat, a: Answers)
    requires Inv(s) && Enabled(s, Serve(c, i, a))
    ensures var u := Next(s, Serve(c, i, a)); Inv(u) || Broken(u)
  {
    HeadIsPending(s, c, i, a);
    ServeIsSafe(s, c, i, a);
    var t := ServeMessage(s.server, i, s.clients[c].toServer[0], a);
    if !t.crashed {
      ServiceKeepsInv(s, c, i, a, t);
    }
  }

  // ----- whole runs -----

  predicate IsTurn(step: Step) {
    step.Connect? || step.SendAuth? || step.Receive? || step.SendStop? || step.Quit?
  }

  /** What client `cl` is after the step. */
  function Turned(cl: Client, step: Step): Client
    requires IsTurn(step) && (step.Receive? ==> cl.toClient != [])
  {
    match step
    case Connect(_) => cl.(phase := Opened, link := Backlog)
    case SendAuth(_) => cl.Send(Auth(cl.magic))
    case Receive(_) => cl.Receive()
    case SendStop(_) => cl.Send(cl.Stop())
    case _ => cl.Close()
  }

  lemma TurnedIsFine(cl: Client, step: Step, served: nat)
    requires IsTurn(step) && ClientOk(cl) && Balanced(cl, served)
    requires match step
      case Connect(_) => cl.phase == Idle
      case SendAuth(_) => cl.phase == Opened
      case Receive(_) => cl.phase == Waiting && cl.toClient != []
      case SendStop(_) => cl.phase == Shown
      case _ => cl.phase != Idle
    ensures var d := Turned(cl, step);
      SameSession(cl, d) && ClientOk(d) && Balanced(d, served) && (Settled(d) ==> Settled(cl))
  {
    if step.Receive? {
      ClientReceives(cl, served);
    } else {
      ClientSteps(cl, served);
    }
  }

  lemma TurnIsOneClient(s: System, step: Step)
    requires s.server.Valid() && Enabled(s, step) && IsTurn(step)
    requires SameSession(s.clients[step.c], Turned(s.clients[step.c], step))
    ensures OnlyClient(s, Next(s, step), step.c) && Next(s, step).clients[step.c] == Turned(s.clients[step.c], step)
  {
  }

  lemma TurnKeepsInv(s: System, step: Step)
    requires Inv(s) && Enabled(s, step) && IsTurn(step)
    ensures Inv(Next(s, step))
  {
    var c, t := step.c, Next(s, step);
    assert ClientFine(s, c);
    TurnedIsFine(s.clients[c], step, Served(s.log, c));
    TurnIsOneClient(s, step);
    ClientOnlyStep(s, t, c);
  }

  /** Every step keeps the invariant, or breaks the server over a mode name that does not fit. */
  lemma StepKeepsInv(s: System, step: Step)
    requires Inv(s) && Enabled(s, step)
    ensures Inv(Next(s, step)) || Broken(Next(s, step))
  {
    match step {
      case Accept(c, fd) => AcceptKeepsInv(s, c, fd);
      case Serve(c, i, a) => ServeKeepsInv(s, c, i, a);
      case Hangup(c, i, failed) => HangupKeepsInv(s, c, i, failed);
      case _ => TurnKeepsInv(s, step);
    }
  }

  lemma {:induction false} RunKeepsInv(s0: System, steps: seq<Step>, s: System)
    requires Inv(s0) && Run(s0, steps, s)
    ensures Inv(s) || Broken(s)
    decreases |steps|
  {
    if steps != [] {
      StepKeepsInv(s0, steps[0]);
      if Inv(Next(s0, steps[0])) {
        RunKeepsInv(Next(s0, steps[0]), steps[1..], s);
      }
    }
  }

  lemma ReachableKeepsInv(s0: System, steps: seq<Step>, s: System)
    requires Init(s0) && Run(s0, steps, s) && !s.server.crashed
    ensures Inv(s)
  {
    InitEstablishesInv(s0);
    RunKeepsInv(s0, steps, s);
  }

  /** In every run, whenever the server reads a CRTC_STOP from a slot, the slot's saved CRTC is
      non-null and is what that CRTC showed when the server served, in that slot, this same
      connection's own CRTC request, and answered it OK; restoring it never crashes. */
  lemma StopRestoresOwnCrtc(s0: System, steps: seq<Step>, s: System, c: nat, i: nat, a: Answers)
    requires Init(s0) && Run(s0, steps, s) && Enabled(s, Serve(c, i, a))
    requires s.clients[c].kind.CrtcClient? && s.clients[c].toServer[0] == Encode(s.clients[c].Stop())
    ensures var cl, saved := s.clients[c], s.server.infos[i].saved;
      && saved.Some? && s.server.infos[i].connId == cl.kind.connId
      && exists k :: 0 <= k < |s.log| && Opening(cl, s.log[k], c, i)
           && cl.kind.crtcId in s.log[k].before.crtcs && saved.value == s.log[k].before.crtcs[cl.kind.crtcId]
    ensures !Next(s, Serve(c, i, a)).server.crashed
    ensures var d, saved := s.server.display, s.server.infos[i].saved.value;
      Next(s, Serve(c, i, a)).server.display
      == if saved.modeValid && a.change && saved.crtcId in d.crtcs && saved.bufferId in d.fbs
         then d.(crtcs := d.crtcs[saved.crtcId := saved]) else d
  {
    ReachableKeepsInv(s0, steps, s);
    StopIsSettled(s, c, i, a);
    var k: nat :| k < |s.log| && EstablishedBy(s, i, c, k);
    ServeIsSafe(s, c, i, a);
    CrtcStopDisplay(s.server, i, s.clients[c].magic, a);
  }

  lemma StopIsSettled(s: System, c: nat, i: nat, a: Answers)
    requires Inv(s) && Enabled(s, Serve(c, i, a)) && s.clients[c].toServer[0] == Encode(s.clients[c].Stop())
    ensures Established(s, i, c) && s.clients[c].command == s.clients[c].Stop().Command()
  {
    HeadIsPending(s, c, i, a);
    assert ClientFine(s, c) && SessionFine(s, i, c);
    PendingIsWhatWasSent(s.clients[c]);
  }

  /** Likewise a PLANE_STOP switches off the plane that this same connection's PLANE request named, a
      request that was answered OK and so had set the plane. */
  lemma StopDisablesOwnPlane(s0: System, steps: seq<Step>, s: System, c: nat, i: nat, a: Answers)
    requires Init(s0) && Run(s0, steps, s) && Enabled(s, Serve(c, i, a))
    requires s.clients[c].kind.PlaneClient? && s.clients[c].toServer[0] == Encode(s.clients[c].Stop())
    ensures var cl := s.clients[c];
      && s.server.infos[i].planeId == cl.kind.planeId
      && exists k :: 0 <= k < |s.log| && Opening(cl, s.log[k], c, i)
           && CallsSucceed(cl.Start(), s.log[k].info, s.log[k].before, s.log[k].answers)
    ensures var d, id := s.server.display, s.clients[c].kind.planeId;
      Next(s, Serve(c, i, a)).server.display
      == if a.change && id in d.planes then d.(planes := d.planes[id := Disabled]) else d
  {
    ReachableKeepsInv(s0, steps, s);
    StopIsSettled(s, c, i, a);
    var k: nat :| k < |s.log| && EstablishedBy(s, i, c, k);
    OpeningCallsSucceeded(s, c, i, k);
    ServedDisplay(s, c, i, a);
    PlaneStopDisplay(s.server, i, s.clients[c].magic, a);
  }

  lemma ServedDisplay(s: System, c: nat, i: nat, a: Answers)
    requires Enabled(s, Serve(c, i, a))
    ensures Next(s, Serve(c, i, a)).server == ServeMessage(s.server, i, s.clients[c].toServer[0], a)
  {
  }

  lemma OpeningCallsSucceeded(s: System, c: nat, i: nat, k: nat)
    requires LogFine(s) && c < |s.clients| && k < |s.log| && Opening(s.clients[c], s.log[k], c, i)
    ensures CallsSucceed(s.clients[c].Start(), s.log[k].info, s.log[k].before, s.log[k].answers)
  {
    assert EntryFine(s.clients, s.log[k]);
    OkIsNotError(s.clients[c].magic);
  }

  lemma PendingIsWhatWasSent(cl: Client)
    requires ClientOk(cl) && Encode(cl.Pending()) == Encode(cl.Stop())
    ensures cl.command == cl.Stop().Command()
  {
    HeaderRoundTrip(cl.Pending());
    HeaderRoundTrip(cl.Stop());
  }

  /** Client and server run in lockstep: at most one message is in flight on a connection, in either
      direction; every reply a client finds carries its magic; and a live client has sent one request
      for each reply it has read, up to the one message in flight. */
  lemma RunsInLockstep(s0: System, steps: seq<Step>, s: System, c: nat)
    requires Init(s0) && Run(s0, steps, s) && c < |s.clients| && !s.server.crashed
    ensures Lockstep(s.clients[c])
    ensures forall r :: r in s.clients[c].toClient ==>
      Scanf(HEADER_FORMAT, r) == [Num(s.clients[c].magic), Num(DRM_OK)]
      || Scanf(HEADER_FORMAT, r) == [Num(s.clients[c].magic), Num(DRM_ERROR)]
    ensures var cl := s.clients[c];
      cl.phase != Closed && !cl.link.Dropped? ==>
        cl.sent == Served(s.log, c) + |cl.toServer| && Served(s.log, c) == cl.received + |cl.toClient|
  {
    ReachableKeepsInv(s0, steps, s);
    assert ClientFine(s, c);
    FineIsLockstep(s.clients[c], Served(s.log, c));
  }

  lemma FineIsLockstep(cl: Client, served: nat)
    requires ClientOk(cl) && Balanced(cl, served)
    ensures Lockstep(cl)
    ensures forall r :: r in cl.toClient ==>
      Scanf(HEADER_FORMAT, r) == [Num(cl.magic), Num(DRM_OK)]
      || Scanf(HEADER_FORMAT, r) == [Num(cl.magic), Num(DRM_ERROR)]
    ensures cl.phase != Closed && !cl.link.Dropped? ==>
      cl.sent == served + |cl.toServer| && served == cl.received + |cl.toClient|
  {
    ResponseRoundTrip(cl.magic, DRM_OK);
    ResponseRoundTrip(cl.magic, DRM_ERROR);
  }

  /** In every run, each request the server has read was one its client had encoded, and its one reply
      carries the magic and says OK exactly when every kernel call and look-up it needed succeeded. */
  lemma RepliesTellTheTruth(s0: System, steps: seq<Step>, s: System, k: nat)
    requires Init(s0) && Run(s0, steps, s) && k < |s.log| && !s.server.crashed
    ensures var e := s.log[k];
      e.client < |s.clients| && e.text == Encode(e.asked) && e.asked.magic == s.clients[e.client].magic
      && Scanf(HEADER_FORMAT, e.reply)
         == [Num(e.asked.magic), Num(Verdict(CallsSucceed(e.asked, e.info, e.before, e.answers)))]
  {
    ReachableKeepsInv(s0, steps, s);
    var e := s.log[k];
    assert EntryFine(s.clients, e);
    ResponseRoundTrip(e.asked.magic, Verdict(CallsSucceed(e.asked, e.info, e.before, e.answers)));
  }

  /** No run reaches the null dereference: the server crashes only over the mode name of some client
      that is too long for its record, and when it serves such a client's CRTC request, it does. */
  lemma CrashesOnlyOverLongNames(s0: System, steps: seq<Step>, s: System)
    requires Init(s0) && Run(s0, steps, s)
    ensures s.server.crashed ==> exists c :: 0 <= c < |s.clients| && LongName(s.clients[c].kind)
  {
    InitEstablishesInv(s0);
    RunKeepsInv(s0, steps, s);
  }

  lemma ServingLongNameCrashes(s0: System, steps: seq<Step>, s: System, c: nat, i: nat, a: Answers)
    requires Init(s0) && Run(s0, steps, s) && Enabled(s, Serve(c, i, a))
    ensures Next(s, Serve(c, i, a)).server.crashed <==>
      LongName(s.clients[c].kind) && s.clients[c].command == CMD_CRTC
  {
    ReachableKeepsInv(s0, steps, s);
    HeadIsPending(s, c, i, a);
    ServeIsSafe(s, c, i, a);
    ReplyTellsTheOutcome(s.server, i, s.clients[c].Pending(), a);
  }
}
