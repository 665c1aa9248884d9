/**
 The display clients (`drm_client_crtc.c`, `drm_client_plane.c`): one client with its two directions
 of the connection. The functions say what one turn does; class `ClientLoop` is the communication
 loop itself, working on its variables in place.
 */
module DrmClient {
  import opened MachineWords
  import opened Wire
  import opened DrmProto

  datatype Kind =
    | CrtcClient(crtcId: u32, connId: u32, fb: u32, modeName: string)
    | PlaneClient(crtcId: u32, planeId: u32, fb: u32, w: u32, h: u32, x: u32, y: u32)

  datatype Phase = Idle | Opened | Waiting | Shown | Closed

  datatype Link = Unlinked | Backlog | Accepted(fd: int) | Dropped

  datatype Client = Client(
    kind: Kind, magic: u32, phase: Phase, command: u32, link: Link,
    toServer: seq<string>, toClient: seq<string>, sent: nat, received: nat)
  {
    function Start(): Request {
      match kind
      case CrtcClient(c, n, f, m) => Request.Crtc(magic, c, n, f, m)
      case PlaneClient(c, p, f, w, h, x, y) => Request.Plane(magic, c, p, f, w, h, x, y)
    }

    function Stop(): Request {
      if kind.CrtcClient? then CrtcStop(magic) else PlaneStop(magic)
    }

    /** The request the client's `command` variable stands for. */
    function Pending(): Request {
      if command == CMD_AUTH then Auth(magic)
      else if command == Start().Command() then Start()
      else Stop()
    }

    /** Sets `command` and writes the request; writing to a closed connection ends the client. */
    function Send(req: Request): Client {
      if link.Dropped? then this.(command := req.Command()).Close()
      else this.(phase := Waiting, command := req.Command(), toServer := toServer + [Encode(req)], sent := sent + 1)
    }

    /** The process ends; what it has written can still be read, what it has not read is lost. Its
        framebuffer `kind.fb` goes with it. */
    function Close(): Client {
      this.(phase := Closed, toClient := [])
    }

    /** One turn of the client's communication loop with a message to read. */
    function Receive(): Client
      requires toClient != []
    {
      var c := this.(toClient := toClient[1..], received := received + 1);
      var vs := Scanf(HEADER_FORMAT, toClient[0]);
      if |vs| < 2 then c.Close()
      else if vs[0] != Num(magic) then c
      else if vs[1] != Num(DRM_OK) then c.Close()
      else if command == CMD_AUTH then c.Send(Start())
      else if command == Start().Command() then c.(phase := Shown)
      else if command == Stop().Command() then c.Close()
      else c
    }
  }

  // ----- what a turn does -----

  /** The text of the request that opens the session of a client: its own identifiers, after its magic. */
  function OpeningText(kind: Kind, magic: u32): string {
    match kind
    case CrtcClient(crtcId, connId, fb, modeName) => NumberText([magic, CMD_CRTC, crtcId, connId, fb]) + ":" + modeName
    case PlaneClient(crtcId, planeId, fb, w, h, x, y) =>
      NumberText([magic, CMD_PLANE, crtcId, planeId, fb, w, h, x, y])
  }

  function OpeningCommand(kind: Kind): u32 {
    if kind.CrtcClient? then CMD_CRTC else CMD_PLANE
  }

  function ClosingCommand(kind: Kind): u32 {
    if kind.CrtcClient? then CMD_CRTC_STOP else CMD_PLANE_STOP
  }

  /** The client with one message read. */
  function Read(cl: Client): Client
    requires cl.toClient != []
  {
    cl.(toClient := cl.toClient[1..], received := cl.received + 1)
  }

  /** `d` is `cl` with `text` written under the new command, and waits for the reply; on a connection that
      has been closed it ends instead. */
  predicate Wrote(cl: Client, d: Client, command: u32, text: string) {
    if cl.link.Dropped? then d == cl.(command := command, phase := Closed, toClient := [])
    else d == cl.(command := command, phase := Waiting, toServer := cl.toServer + [text], sent := cl.sent + 1)
  }

  /** The first message of a client is AUTH with its magic, and the one after a key press is the STOP of
      its kind. */
  lemma FirstAndLastMessage(cl: Client)
    ensures Wrote(cl, cl.Send(Auth(cl.magic)), CMD_AUTH, NumberText([cl.magic, CMD_AUTH]))
    ensures Wrote(cl, cl.Send(cl.Stop()), ClosingCommand(cl.kind), NumberText([cl.magic, ClosingCommand(cl.kind)]))
  {
  }

  /** What a client does with a reply: one with another magic only takes it off the queue; anything but OK
      ends it; OK goes on, from AUTH to the opening request, from there to the picture on the display, and
      from the STOP to the end. */
  lemma ReplyMovesClient(cl: Client, magic: u32, value: u32)
    requires cl.toClient != [] && cl.toClient[0] == Response(magic, value)
    ensures var d, c := cl.Receive(), Read(cl);
      if magic != cl.magic then d == c
      else if value != DRM_OK then d == c.(phase := Closed, toClient := [])
      else if cl.command == CMD_AUTH then Wrote(c, d, OpeningCommand(cl.kind), OpeningText(cl.kind, cl.magic))
      else if cl.command == OpeningCommand(cl.kind) then d == c.(phase := Shown)
      else if cl.command == ClosingCommand(cl.kind) then d == c.(phase := Closed, toClient := [])
      else d == c
  {
    ResponseRoundTrip(magic, value);
  }

  /** A message that does not hold two numbers ends the client. */
  lemma ShortReplyEndsClient(cl: Client)
    requires cl.toClient != [] && |Scanf(HEADER_FORMAT, cl.toClient[0])| < 2
    ensures cl.Receive() == Read(cl).(phase := Closed, toClient := [])
  {
  }

  // ----- the loop on its variables -----

  class ClientLoop {
    const kind: Kind
    const magic: u32
    var phase: Phase
    var command: u32
    var link: Link
    var toServer: seq<string>
    var toClient: seq<string>
    var sent: nat
    var received: nat

    ghost function Model(): Client
      reads this
    {
      Client(kind, magic, phase, command, link, toServer, toClient, sent, received)
    }

    constructor (kind: Kind, magic: u32)
      ensures Model() == Client(kind, magic, Idle, CMD_AUTH, Unlinked, [], [], 0, 0)
    {
      this.kind, this.magic := kind, magic;
      phase, command, link, toServer, toClient, sent, received := Idle, CMD_AUTH, Unlinked, [], [], 0, 0;
    }

    /** Writes the request `req` that goes with the command just set. */
    method WriteRequest(req: Request)
      requires command == req.Command()
      modifies this`phase, this`toServer, this`toClient, this`sent
      ensures Model() == old(Model()).Send(req)
    {
      if link.Dropped? {
        phase, toClient := Phase.Closed, [];
        return;
      }
      toServer := toServer + [Encode(req)];
      phase, sent := Waiting, sent + 1;
    }

    method SendMagic()
      modifies this
      ensures Model() == old(Model()).Send(Auth(magic))
    {
      command := CMD_AUTH;
      WriteRequest(Auth(magic));
    }

    /** A key was pressed while the image was on the display. */
    method SendStop()
      modifies this
      ensures Model() == old(Model()).Send(old(Model()).Stop())
    {
      if kind.CrtcClient? {
        command := CMD_CRTC_STOP;
        WriteRequest(CrtcStop(magic));
      } else {
        command := CMD_PLANE_STOP;
        WriteRequest(PlaneStop(magic));
      }
    }

    method SendStart()
      modifies this
      ensures Model() == old(Model()).Send(old(Model()).Start())
    {
      match kind {
        case CrtcClient(crtcId, connId, fb, modeName) =>
          command := CMD_CRTC;
          WriteRequest(Request.Crtc(magic, crtcId, connId, fb, modeName));
        case PlaneClient(crtcId, planeId, fb, w, h, x, y) =>
          command := CMD_PLANE;
          WriteRequest(Request.Plane(magic, crtcId, planeId, fb, w, h, x, y));
      }
    }

    /** One pass of the loop when the socket is readable. */
    method ReadReply()
      requires toClient != []
      modifies this
      ensures Model() == old(Model()).Receive()
    {
      var answer := Scanf(HEADER_FORMAT, toClient[0]);
      toClient, received := toClient[1..], received + 1;
      if |answer| < 2 {
        phase, toClient := Phase.Closed, [];
        return;
      }
      if answer[0] != Num(magic) { return; }
      if answer[1] != Num(DRM_OK) {
        phase, toClient := Phase.Closed, [];
        return;
      }
      if command == CMD_AUTH {
        SendStart();
      } else if command == if kind.CrtcClient? then CMD_CRTC else CMD_PLANE {
        phase := Shown;
      } else if command == if kind.CrtcClient? then CMD_CRTC_STOP else CMD_PLANE_STOP {
        phase, toClient := Phase.Closed, [];
      }
    }
  }
}
