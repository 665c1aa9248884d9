/**
 The display server (`drm_server.c`): the slot table, the five command handlers and the poll loop.
 The functions say what one request or one poll round does to the server and to the display;
 class `Server` is the loop itself, working on its arrays in place.
 */
module DrmServer {
  import opened MachineWords
  import opened Slots
  import opened Wrappers
  import opened Wire
  import opened DrmProto

  // ----- the display behind the device descriptor -----

  datatype Mode = Mode(name: string, hdisplay: nat, vdisplay: nat)

  datatype CrtcState = CrtcState(crtcId: u32, bufferId: u32, x: u32, y: u32, modeValid: bool, mode: Mode)

  datatype PlaneState =
    | Disabled
    | Showing(crtcId: u32, fb: u32, x: u32, y: u32, w: u32, h: u32, srcW: u32, srcH: u32)

  const NO_MODE := Mode("", 0, 0)

  /** `fbs` are the framebuffers that exist, whoever made them. */
  datatype Display = Display(
    crtcs: map<u32, CrtcState>, planes: map<u32, PlaneState>, modes: map<u32, seq<Mode>>, fbs: set<u32>)
  {
    /** Whatever is on shows a framebuffer that exists. */
    predicate LitExists() {
      forall id :: id in crtcs && crtcs[id].modeValid ==> crtcs[id].bufferId in fbs
    }

    predicate Valid() {
      && (forall id :: id in crtcs ==> crtcs[id].crtcId == id)
      && LitExists() && 0 !in fbs
    }
  }

  /** What is on the screen of a CRTC, if it is on. */
  function OnScreen(c: CrtcState): Option<(u32, u32, u32, Mode)> {
    if c.modeValid then Some((c.bufferId, c.x, c.y, c.mode)) else None
  }

  function SwitchedOff(id: u32): CrtcState {
    CrtcState(id, 0, 0, 0, false, NO_MODE)
  }

  predicate Shows(c: CrtcState, fb: u32) {
    c.modeValid && c.bufferId == fb
  }

  function AddFb(d: Display, fb: u32): Display {
    d.(fbs := d.fbs + {fb})
  }

  /** `drmModeRmFB`, or the end of the process that made it: whatever shows the framebuffer goes off. */
  function RemoveFb(d: Display, fb: u32): Display {
    d.(crtcs := map id | id in d.crtcs :: if Shows(d.crtcs[id], fb) then SwitchedOff(id) else d.crtcs[id],
       planes := map id | id in d.planes ::
         if d.planes[id].Showing? && d.planes[id].fb == fb then Disabled else d.planes[id],
       fbs := d.fbs - {fb})
  }

  /** Which of the kernel calls a request makes succeed; a call on an unknown object fails anyway. */
  datatype Answers = Answers(auth: bool, lookup: bool, getOld: bool, change: bool, getNew: bool)

  function FirstNamed(modes: seq<Mode>, name: string): Option<Mode> {
    if modes == [] then None
    else if modes[0].name == name then Some(modes[0])
    else FirstNamed(modes[1..], name)
  }

  function FindMode(d: Display, connId: u32, name: string, works: bool): Option<Mode> {
    if works && connId in d.modes then FirstNamed(d.modes[connId], name) else None
  }

  function GetCrtc(d: Display, id: u32, works: bool): Option<CrtcState> {
    if works && id in d.crtcs then Some(d.crtcs[id]) else None
  }

  /** `drmModeSetCrtc` with a mode: all of the new state or none of it. The framebuffer must exist. */
  function SetCrtc(d: Display, id: u32, fb: u32, x: u32, y: u32, mode: Mode, works: bool): Option<Display> {
    if works && id in d.crtcs && fb in d.fbs then
      Some(d.(crtcs := d.crtcs[id := CrtcState(id, fb, x, y, true, mode)]))
    else None
  }

  function SetPlane(d: Display, id: u32, plane: PlaneState, works: bool): Option<Display> {
    if works && id in d.planes && (plane.Showing? ==> plane.fb in d.fbs) then
      Some(d.(planes := d.planes[id := plane]))
    else None
  }

  // ----- one client's record and the server's variables -----

  type ModeName = s: string | |s| < MODE_NAME_SIZE witness ""

  datatype ClientInfo = ClientInfo(
    magic: u32, saved: Option<CrtcState>, current: Option<CrtcState>,
    crtcId: u32, connId: u32, planeId: u32, w: u32, h: u32, x: u32, y: u32, fb: u32,
    modeName: ModeName, mode: Option<Mode>)

  const ZERO_INFO := ClientInfo(0, None, None, 0, 0, 0, 0, 0, 0, 0, 0, "", None)

  /** `crashed` records the dereference of a null `saved_crtc` and the overrun of `mode_name`, after
      which nothing is promised. */
  datatype State = State(
    fds: seq<int>, infos: seq<ClientInfo>, magic: u32, command: u32,
    txBuf: string, display: Display, crashed: bool)
  {
    predicate Valid() {
      |fds| == |infos|
    }
  }

  datatype Outcome =
    | Handled(ok: bool, info: ClientInfo, display: Display)
    | NullSavedCrtc
    | NameOverrun

  function NumAt(vs: seq<Value>, k: nat, default: u32): u32 {
    if k < |vs| && vs[k].Num? then vs[k].n else default
  }

  function NameAt(vs: seq<Value>, k: nat, default: ModeName): ModeName
    requires k < |vs| && vs[k].Str? ==> |vs[k].s| < MODE_NAME_SIZE
  {
    if k < |vs| && vs[k].Str? then vs[k].s else default
  }

  // ----- the five commands -----

  function HandleAuth(info: ClientInfo, d: Display, magic: u32, a: Answers): Outcome {
    if a.auth then Handled(true, ZERO_INFO.(magic := magic), d) else Handled(false, info, d)
  }

  function ScannedCrtc(info: ClientInfo, rx: string): ClientInfo
    requires ScanCrtc(rx).Some?
  {
    var vs := ScanCrtc(rx).value;
    info.(crtcId := NumAt(vs, 2, info.crtcId), connId := NumAt(vs, 3, info.connId),
          fb := NumAt(vs, 4, info.fb), modeName := NameAt(vs, 5, info.modeName))
  }

  function HandleCrtc(info: ClientInfo, d: Display, rx: string, a: Answers): Outcome {
    if ScanCrtc(rx).None? then NameOverrun else
    var i1 := ScannedCrtc(info, rx);
    match FindMode(d, i1.connId, i1.modeName, a.lookup)
    case None => Handled(false, i1, d)
    case Some(tm) =>
      var i2 := i1.(mode := Some(tm), saved := GetCrtc(d, i1.crtcId, a.getOld));
      if i2.saved.None? then Handled(false, i2, d)
      else
        match SetCrtc(d, i2.crtcId, i2.fb, 0, 0, tm, a.change)
        case None => Handled(false, i2, d)
        case Some(d1) =>
          var i3 := i2.(current := GetCrtc(d1, i2.crtcId, a.getNew));
          Handled(i3.current.Some?, i3, d1)
  }

  function ScannedPlane(info: ClientInfo, rx: string): ClientInfo {
    var vs := Scanf(PLANE_FORMAT, rx);
    info.(crtcId := NumAt(vs, 2, info.crtcId), planeId := NumAt(vs, 3, info.planeId),
          fb := NumAt(vs, 4, info.fb), w := NumAt(vs, 5, info.w), h := NumAt(vs, 6, info.h),
          x := NumAt(vs, 7, info.x), y := NumAt(vs, 8, info.y))
  }

  /** What `drmModeSetPlane` is asked to show; framebuffer 0 switches the plane off. */
  function PlaneFrom(i: ClientInfo): PlaneState {
    if i.fb == 0 then Disabled
    else Showing(i.crtcId, i.fb, i.x, i.y, i.w, i.h, Wrap(i.w * 0x1_0000), Wrap(i.h * 0x1_0000))
  }

  function HandlePlane(info: ClientInfo, d: Display, rx: string, a: Answers): Outcome {
    var i1 := ScannedPlane(info, rx);
    match SetPlane(d, i1.planeId, PlaneFrom(i1), a.change)
    case None => Handled(false, i1, d)
    case Some(d1) => Handled(true, i1, d1)
  }

  function HandleCrtcStop(info: ClientInfo, d: Display, a: Answers): Outcome {
    match info.saved
    case None => NullSavedCrtc
    case Some(c) =>
      if !c.modeValid then Handled(true, info, d)
      else
        match SetCrtc(d, c.crtcId, c.bufferId, c.x, c.y, c.mode, a.change)
        case None => Handled(false, info, d)
        case Some(d1) => Handled(true, info, d1)
  }

  function HandlePlaneStop(info: ClientInfo, d: Display, a: Answers): Outcome {
    match SetPlane(d, info.planeId, Disabled, a.change)
    case None => Handled(false, info, d)
    case Some(d1) => Handled(true, info, d1)
  }

  function Dispatch(command: u32, info: ClientInfo, d: Display, magic: u32, rx: string, a: Answers): Outcome {
    if command == CMD_AUTH then HandleAuth(info, d, magic, a)
    else if command == CMD_CRTC then HandleCrtc(info, d, rx, a)
    else if command == CMD_PLANE then HandlePlane(info, d, rx, a)
    else if command == CMD_CRTC_STOP then HandleCrtcStop(info, d, a)
    else if command == CMD_PLANE_STOP then HandlePlaneStop(info, d, a)
    else Handled(false, info, d)
  }

  /** One request read from slot `i`: the record, the display and the reply left in `txBuf`. */
  function ServeMessage(s: State, i: nat, rx: string, a: Answers): (t: State)
    requires s.Valid() && i < |s.fds|
    ensures t.Valid() && t.fds == s.fds
  {
    var header := Scanf(HEADER_FORMAT, rx);
    var magic := NumAt(header, 0, s.magic);
    var command := NumAt(header, 1, s.command);
    var s1 := s.(magic := magic, command := command);
    match Dispatch(command, s.infos[i], s.display, magic, rx, a)
    case NullSavedCrtc => s1.(crashed := true)
    case NameOverrun => s1.(crashed := true)
    case Handled(ok, info, d) =>
      s1.(infos := s.infos[i := info], display := d,
          txBuf := Response(magic, if ok then DRM_OK else DRM_ERROR))
  }

  // ----- one poll round -----

  datatype ListenerEvent = Quiet | Connected(fd: int) | AcceptFailed
  datatype ReadResult = ReadFailed | EndOfFile | Message(text: string)
  datatype Input = Input(read: ReadResult, answers: Answers)

  /** A new connection takes the first free slot; with no free slot it is closed again. */
  function AcceptInto(s: State, fd: int): State {
    var k := FirstFree(s.fds);
    if k < |s.fds| then s.(fds := s.fds[k := fd]) else s
  }

  /** What the loop body does for one ready slot. */
  function ServeSlot(s: State, i: nat, input: Input): (t: State)
    requires s.Valid() && i < |s.fds|
    ensures t.Valid() && |t.fds| == |s.fds|
    ensures t.fds == if input.read.Message? then s.fds else s.fds[i := -1]
  {
    match input.read
    case Message(text) => ServeMessage(s, i, text, input.answers)
    case _ => s.(fds := s.fds[i := -1])
  }

  /** The slots the scan serves from slot `i` on, given `rc` events still to be found. */
  function Scan(s: State, i: nat, rc: int, ready: seq<bool>, inputs: seq<Input>): (r: (State, seq<nat>))
    requires s.Valid() && i <= |s.fds| == |ready| == |inputs|
    ensures r.0.Valid() && |r.0.fds| == |s.fds|
    decreases |s.fds| - i
  {
    if s.crashed || i == |s.fds| then (s, [])
    else if s.fds[i] == -1 || !ready[i] then Scan(s, i + 1, rc, ready, inputs)
    else
      var t := ServeSlot(s, i, inputs[i]);
      // a closed connection is skipped by `continue`, so its event stays in the count
      if t.crashed then (t, [i])
      else if inputs[i].read.Message? && rc - 1 == 0 then (t, [i])
      else
        var (u, served) := Scan(t, i + 1, if inputs[i].read.Message? then rc - 1 else rc, ready, inputs);
        (u, [i] + served)
  }

  /** A scan that has served the slots `served` and goes on at slot `i` ends up with `goal`. */
  predicate Leads(s: State, i: nat, rc: int, ready: seq<bool>, inputs: seq<Input>, served: seq<nat>,
                  goal: (State, seq<nat>))
    requires s.Valid() && i <= |s.fds| == |ready| == |inputs|
  {
    var rest := Scan(s, i, rc, ready, inputs);
    goal == (rest.0, served + rest.1)
  }

  lemma ScanSkips(s: State, i: nat, rc: int, ready: seq<bool>, inputs: seq<Input>, served: seq<nat>,
                  goal: (State, seq<nat>))
    requires s.Valid() && i < |s.fds| == |ready| == |inputs| && !s.crashed
    requires Leads(s, i, rc, ready, inputs, served, goal) && (s.fds[i] == -1 || !ready[i])
    ensures Leads(s, i + 1, rc, ready, inputs, served, goal)
  {
  }

  predicate EndsScan(t: State, rc: int, input: Input) {
    t.crashed || (input.read.Message? && rc - 1 == 0)
  }

  function CountAfter(rc: int, input: Input): int {
    if input.read.Message? then rc - 1 else rc
  }

  lemma Rebracket(served: seq<nat>, i: nat, rest: seq<nat>)
    ensures served + ([i] + rest) == served + [i] + rest
  {
  }

  lemma ScanServes(s: State, i: nat, rc: int, ready: seq<bool>, inputs: seq<Input>, served: seq<nat>,
                   goal: (State, seq<nat>), t: State)
    requires s.Valid() && i < |s.fds| == |ready| == |inputs| && !s.crashed && t == ServeSlot(s, i, inputs[i])
    requires Leads(s, i, rc, ready, inputs, served, goal) && s.fds[i] != -1 && ready[i]
    ensures if EndsScan(t, rc, inputs[i]) then goal == (t, served + [i])
            else Leads(t, i + 1, CountAfter(rc, inputs[i]), ready, inputs, served + [i], goal)
  {
    Rebracket(served, i, Scan(t, i + 1, CountAfter(rc, inputs[i]), ready, inputs).1);
  }

  /** A whole round after `poll` returned `rc > 0`; the flag says whether the loop goes on. */
  function Round(s: State, listener: ListenerEvent, rc: int, ready: seq<bool>, inputs: seq<Input>):
      (r: (State, seq<nat>, bool))
    requires s.Valid() && |s.fds| == |ready| == |inputs|
    ensures r.0.Valid() && |r.0.fds| == |s.fds|
  {
    match listener
    case AcceptFailed => (s, [], false)
    case Quiet => var (t, served) := Scan(s, 0, rc, ready, inputs); (t, served, !t.crashed)
    case Connected(fd) =>
      var s1 := AcceptInto(s, fd);
      if rc - 1 == 0 then (s1, [], true)
      else var (t, served) := Scan(s1, 0, rc - 1, ready, inputs); (t, served, !t.crashed)
  }

  // ----- what a round and a request achieve -----

  /** The occupied slots from `i` on that `poll` reported. */
  function ReadyFrom(fds: seq<int>, ready: seq<bool>, i: nat): seq<nat>
    requires i <= |fds| == |ready|
    decreases |fds| - i
  {
    if i == |fds| then []
    else (if Reported(fds, ready, i) then [i] else []) + ReadyFrom(fds, ready, i + 1)
  }

  predicate Reported(fds: seq<int>, ready: seq<bool>, k: nat)
    requires k < |fds| == |ready|
  {
    fds[k] != -1 && ready[k]
  }

  /** The list is increasing, and has the occupied slots that `poll` reported, each once. */
  lemma {:induction false} ReadyAre(fds: seq<int>, ready: seq<bool>, i: nat)
    requires i <= |fds| == |ready|
    ensures forall k: nat :: k in ReadyFrom(fds, ready, i) <==> i <= k < |fds| && fds[k] != -1 && ready[k]
    ensures Increasing(ReadyFrom(fds, ready, i))
    decreases |fds| - i
  {
    if i < |fds| {
      ReadyAre(fds, ready, i + 1);
      IncreasingFrom(i, ReadyFrom(fds, ready, i + 1));
    }
  }

  lemma {:induction false} ReadyFromAgrees(fds: seq<int>, other: seq<int>, ready: seq<bool>, i: nat)
    requires i <= |fds| == |ready| == |other|
    requires forall k :: i <= k < |fds| ==> (Reported(fds, ready, k) <==> Reported(other, ready, k))
    ensures ReadyFrom(fds, ready, i) == ReadyFrom(other, ready, i)
    decreases |fds| - i
  {
    if i < |fds| {
      ReadyFromAgrees(fds, other, ready, i + 1);
    }
  }

  /** With the count `poll` returned, the scan never stops early: connections closed on the way
      leave their event in the count, and every reported slot is served, once and in order. */
  lemma {:induction false} ScanServesReady(s: State, i: nat, rc: int, ready: seq<bool>, inputs: seq<Input>)
    requires s.Valid() && i <= |s.fds| == |ready| == |inputs|
    requires |ReadyFrom(s.fds, ready, i)| <= rc
    requires !Scan(s, i, rc, ready, inputs).0.crashed
    ensures Scan(s, i, rc, ready, inputs).1 == ReadyFrom(s.fds, ready, i)
    decreases |s.fds| - i
  {
    if i < |s.fds| && !s.crashed {
      if s.fds[i] == -1 || !ready[i] {
        ScanServesReady(s, i + 1, rc, ready, inputs);
      } else {
        var t := ServeSlot(s, i, inputs[i]);
        ReadyFromAgrees(s.fds, t.fds, ready, i + 1);
        if !(inputs[i].read.Message? && rc - 1 == 0) {
          ScanServesReady(t, i + 1, if inputs[i].read.Message? then rc - 1 else rc, ready, inputs);
        } else {
          assert ReadyFrom(s.fds, ready, i + 1) == [];
        }
      }
    }
  }

  /** A round serves exactly the slots `poll` reported, also when a new client took a slot in it:
      `poll` covers the whole table, so a free slot never carries an event. */
  lemma RoundServesReported(s: State, listener: ListenerEvent, rc: int, ready: seq<bool>, inputs: seq<Input>)
    requires s.Valid() && |s.fds| == |ready| == |inputs| && !s.crashed && !listener.AcceptFailed?
    requires forall k :: 0 <= k < |s.fds| && s.fds[k] == -1 ==> !ready[k]
    requires rc >= |ReadyFrom(s.fds, ready, 0)| + if listener.Connected? then 1 else 0
    requires !Round(s, listener, rc, ready, inputs).0.crashed
    ensures Round(s, listener, rc, ready, inputs).1 == ReadyFrom(s.fds, ready, 0)
  {
    if listener.Connected? {
      var s1 := AcceptInto(s, listener.fd);
      var k := FirstFree(s.fds);
      ReadyFromAgrees(s.fds, s1.fds, ready, 0);
      if rc - 1 != 0 {
        ScanServesReady(s1, 0, rc - 1, ready, inputs);
      }
    } else {
      ScanServesReady(s, 0, rc, ready, inputs);
    }
  }

  /** The kernel calls and look-ups a request needs all succeed. */
  ghost predicate CallsSucceed(req: Request, info: ClientInfo, d: Display, a: Answers) {
    match req
    case Auth(_) => a.auth
    case Crtc(_, crtcId, connId, fb, _) =>
      && ScanCrtc(Encode(req)).Some?
      && a.lookup && connId in d.modes
      && (exists m :: m in d.modes[connId] && m.name == ScannedCrtc(info, Encode(req)).modeName)
      && crtcId in d.crtcs && a.getOld && fb in d.fbs && a.change && a.getNew
    case Plane(_, _, planeId, fb, _, _, _, _) => planeId in d.planes && (fb == 0 || fb in d.fbs) && a.change
    case CrtcStop(_) =>
      info.saved.Some? && (info.saved.value.modeValid ==>
        info.saved.value.crtcId in d.crtcs && info.saved.value.bufferId in d.fbs && a.change)
    case PlaneStop(_) => info.planeId in d.planes && a.change
  }

  /** The requests no handler survives: a STOP with nothing saved, and a mode name that does not fit. */
  predicate Breaks(req: Request, info: ClientInfo) {
    (req.CrtcStop? && info.saved.None?) || (req.Crtc? && |NameRead(req.modeName)| >= MODE_NAME_SIZE)
  }

  lemma {:induction false} FirstNamedFinds(modes: seq<Mode>, name: string)
    ensures FirstNamed(modes, name).Some? <==> exists m :: m in modes && m.name == name
    ensures FirstNamed(modes, name).Some? ==> FirstNamed(modes, name).value.name == name
  {
    if modes != [] {
      FirstNamedFinds(modes[1..], name);
      assert modes == [modes[0]] + modes[1..];
    }
  }

  /** The record after scanning a CRTC request holds the numbers the client printed, and its mode name
      if that is clean and fits. */
  lemma ScannedCrtcNumbers(info: ClientInfo, req: Request)
    requires req.Crtc? && ScanCrtc(Encode(req)).Some?
    ensures var i := ScannedCrtc(info, Encode(req));
            i == info.(crtcId := req.crtcId, connId := req.connId, fb := req.fb, modeName := i.modeName)
    ensures CleanName(req.modeName) ==> ScannedCrtc(info, Encode(req)).modeName == req.modeName
  {
    CrtcNumbersRoundTrip(req);
    ScannedName(req);
    CleanNameIsRead(req.modeName);
  }

  lemma ScannedPlaneNumbers(info: ClientInfo, req: Request)
    requires req.Plane?
    ensures ScannedPlane(info, Encode(req))
         == info.(crtcId := req.crtcId, planeId := req.planeId, fb := req.fb, w := req.w, h := req.h,
                  x := req.x, y := req.y)
  {
    PlaneRoundTrip(req);
  }

  /** A message cut short leaves the fields it does not reach as an earlier request left them. */
  lemma ShortRequestKeepsRest(info: ClientInfo, rx: string)
    ensures |Scanf(PLANE_FORMAT, rx)| <= 2 ==> ScannedPlane(info, rx) == info
    ensures |Scanf(PLANE_FORMAT, rx)| <= 5 ==>
      var i := ScannedPlane(info, rx); (i.w, i.h, i.x, i.y) == (info.w, info.h, info.x, info.y)
    ensures ScanCrtc(rx).Some? && |Scanf(CRTC_FORMAT, rx)| <= 2 ==> ScannedCrtc(info, rx) == info
    ensures ScanCrtc(rx).Some? && |Scanf(CRTC_FORMAT, rx)| <= 4 ==>
      ScannedCrtc(info, rx).fb == info.fb && ScannedCrtc(info, rx).modeName == info.modeName
  {
  }

  /** Serving a printed request is running the handler of its command on its own fields. */
  lemma ServeEncoded(s: State, i: nat, req: Request, a: Answers)
    requires s.Valid() && i < |s.fds|
    ensures var t := ServeMessage(s, i, Encode(req), a);
            match Dispatch(req.Command(), s.infos[i], s.display, req.magic, Encode(req), a)
            case NullSavedCrtc => t == s.(magic := req.magic, command := req.Command(), crashed := true)
            case NameOverrun => t == s.(magic := req.magic, command := req.Command(), crashed := true)
            case Handled(ok, info, d) =>
              t == s.(magic := req.magic, command := req.Command(), infos := s.infos[i := info], display := d,
                      txBuf := Response(req.magic, if ok then DRM_OK else DRM_ERROR))
  {
    HeaderRoundTrip(req);
  }

  function Handle(req: Request, info: ClientInfo, d: Display, a: Answers): Outcome {
    Dispatch(req.Command(), info, d, req.magic, Encode(req), a)
  }

  lemma ModeIsFound(info: ClientInfo, d: Display, req: Request)
    requires req.Crtc? && ScanCrtc(Encode(req)).Some?
    ensures var i := ScannedCrtc(info, Encode(req));
      i.connId == req.connId && i.crtcId == req.crtcId && i.fb == req.fb
      && (FindMode(d, i.connId, i.modeName, true).Some? <==>
          i.connId in d.modes && exists m :: m in d.modes[i.connId] && m.name == i.modeName)
  {
    ScannedCrtcNumbers(info, req);
    var i := ScannedCrtc(info, Encode(req));
    if i.connId in d.modes {
      FirstNamedFinds(d.modes[i.connId], i.modeName);
    }
  }

  lemma CrtcOutcome(info: ClientInfo, d: Display, req: Request, a: Answers)
    requires req.Crtc?
    ensures var o := Handle(req, info, d, a);
      if Breaks(req, info) then o == NameOverrun else o.Handled? && (o.ok <==> CallsSucceed(req, info, d, a))
  {
    LongNamesOverrun(req);
    if ScanCrtc(Encode(req)).Some? {
      ModeIsFound(info, d, req);
    }
  }

  lemma HandlingOutcome(info: ClientInfo, d: Display, req: Request, a: Answers)
    ensures var o := Handle(req, info, d, a);
      if Breaks(req, info) then !o.Handled? else o.Handled? && (o.ok <==> CallsSucceed(req, info, d, a))
  {
    if req.Crtc? {
      CrtcOutcome(info, d, req, a);
    } else if req.Plane? {
      ScannedPlaneNumbers(info, req);
    }
  }

  /** A request makes and removes no framebuffer, and what is on still shows one that exists. */
  predicate KeepsLit(d: Display, o: Outcome) {
    o.Handled? ==> o.display.fbs == d.fbs && (d.LitExists() ==> o.display.LitExists())
  }

  lemma CrtcKeepsLit(info: ClientInfo, d: Display, rx: string, a: Answers)
    ensures KeepsLit(d, HandleCrtc(info, d, rx, a))
  {
  }

  lemma CrtcStopKeepsLit(info: ClientInfo, d: Display, a: Answers)
    ensures KeepsLit(d, HandleCrtcStop(info, d, a))
  {
  }

  lemma DispatchKeepsLit(command: u32, info: ClientInfo, d: Display, magic: u32, rx: string, a: Answers)
    ensures KeepsLit(d, Dispatch(command, info, d, magic, rx, a))
  {
    CrtcKeepsLit(info, d, rx, a);
    CrtcStopKeepsLit(info, d, a);
  }

  lemma ServingKeepsLit(s: State, i: nat, rx: string, a: Answers)
    requires s.Valid() && i < |s.fds|
    ensures var d := ServeMessage(s, i, rx, a).display;
            d.fbs == s.display.fbs && (s.display.LitExists() ==> d.LitExists())
  {
    var header := Scanf(HEADER_FORMAT, rx);
    var magic := NumAt(header, 0, s.magic);
    DispatchKeepsLit(NumAt(header, 1, s.command), s.infos[i], s.display, magic, rx, a);
  }

  /** Each request gets one reply with its own magic; the reply says OK exactly when every kernel
      call and look-up the command needs succeeded; only a CRTC_STOP without a saved CRTC and a mode
      name that does not fit crash. */
  lemma ReplyTellsTheOutcome(s: State, i: nat, req: Request, a: Answers)
    requires s.Valid() && i < |s.fds| && !s.crashed
    ensures var t := ServeMessage(s, i, Encode(req), a);
      && (t.crashed <==> Breaks(req, s.infos[i]))
      && (!t.crashed ==>
            var value := if CallsSucceed(req, s.infos[i], s.display, a) then DRM_OK else DRM_ERROR;
            t.txBuf == Response(req.magic, value) && Scanf(HEADER_FORMAT, t.txBuf) == [Num(req.magic), Num(value)])
  {
    ServeEncoded(s, i, req, a);
    HandlingOutcome(s.infos[i], s.display, req, a);
    ResponseRoundTrip(req.magic, DRM_OK);
    ResponseRoundTrip(req.magic, DRM_ERROR);
  }

  /** A PLANE_STOP switches off the recorded plane and touches nothing else, or does nothing at all. */
  lemma PlaneStopDisplay(s: State, i: nat, magic: u32, a: Answers)
    requires s.Valid() && i < |s.fds|
    ensures var d, id := s.display, s.infos[i].planeId;
      ServeMessage(s, i, Encode(PlaneStop(magic)), a).display
      == if a.change && id in d.planes then d.(planes := d.planes[id := Disabled]) else d
    ensures ServeMessage(s, i, Encode(PlaneStop(magic)), a).infos == s.infos
  {
    ServeEncoded(s, i, PlaneStop(magic), a);
  }

  /** A CRTC_STOP puts the saved state back whole, or does nothing at all. */
  lemma CrtcStopDisplay(s: State, i: nat, magic: u32, a: Answers)
    requires s.Valid() && i < |s.fds| && s.infos[i].saved.Some?
    ensures var d, c := s.display, s.infos[i].saved.value;
      ServeMessage(s, i, Encode(CrtcStop(magic)), a).display
      == if c.modeValid && a.change && c.crtcId in d.crtcs && c.bufferId in d.fbs then
           d.(crtcs := d.crtcs[c.crtcId := c])
         else d
    ensures ServeMessage(s, i, Encode(CrtcStop(magic)), a).infos == s.infos
  {
    ServeEncoded(s, i, CrtcStop(magic), a);
  }

  /** Only the CRTC named shows something else, the buffer `fb`. */
  predicate OnlyShows(d: Display, e: Display, id: u32, fb: u32) {
    && e.crtcs.Keys == d.crtcs.Keys && e.fbs == d.fbs && e.planes == d.planes
    && (forall k :: k in e.crtcs && k != id ==> e.crtcs[k] == d.crtcs[k])
    && id in e.crtcs && e.crtcs[id].bufferId == fb
  }

  lemma CrtcErrorDisplay(info: ClientInfo, d: Display, req: Request, a: Answers)
    requires req.Crtc? && !CallsSucceed(req, info, d, a) && !Breaks(req, info)
    ensures var o := Handle(req, info, d, a);
      o.Handled? && if CallsSucceed(req, info, d, a.(getNew := true)) then OnlyShows(d, o.display, req.crtcId, req.fb)
                    else o.display == d
  {
    LongNamesOverrun(req);
    ModeIsFound(info, d, req);
  }

  /** An ERROR reply leaves the display alone, except after a CRTC request whose read-back alone
      failed: then the CRTC already shows the client's buffer. */
  lemma ErrorLeavesDisplay(s: State, i: nat, req: Request, a: Answers)
    requires s.Valid() && i < |s.fds| && !s.crashed
    requires !CallsSucceed(req, s.infos[i], s.display, a) && !Breaks(req, s.infos[i])
    ensures var d := ServeMessage(s, i, Encode(req), a).display;
      if req.Crtc? && CallsSucceed(req, s.infos[i], s.display, a.(getNew := true)) then
        OnlyShows(s.display, d, req.crtcId, req.fb)
      else d == s.display
  {
    ServeEncoded(s, i, req, a);
    if req.Crtc? {
      CrtcErrorDisplay(s.infos[i], s.display, req, a);
    } else if req.Plane? {
      ScannedPlaneNumbers(s.infos[i], req);
    }
  }

  // ----- what each request does to its record and to the display -----

  /** `m` is the first mode of the list that has the name. */
  ghost predicate FirstOfName(modes: seq<Mode>, name: string, m: Mode) {
    exists k :: FirstAt(modes, name, k) && modes[k] == m
  }

  predicate FirstAt(modes: seq<Mode>, name: string, k: int) {
    0 <= k < |modes| && modes[k].name == name && forall j :: 0 <= j < k ==> modes[j].name != name
  }

  lemma {:induction false} FirstNamedIsFirst(modes: seq<Mode>, name: string)
    ensures FirstNamed(modes, name).Some? ==> FirstOfName(modes, name, FirstNamed(modes, name).value)
  {
    if modes != [] {
      if modes[0].name == name {
        assert FirstAt(modes, name, 0);
      } else {
        FirstNamedIsFirst(modes[1..], name);
        if m :| FirstNamed(modes, name) == Some(m) {
          var k :| FirstAt(modes[1..], name, k) && modes[1..][k] == m;
          assert FirstAt(modes, name, k + 1);
        }
      }
    }
  }

  /** The mode name the record holds after a CRTC request: a request without a word for it leaves the
      name of an earlier one. */
  function NameAsked(req: Request, info: ClientInfo): string
    requires req.Crtc?
  {
    if NameRead(req.modeName) == "" then info.modeName else NameRead(req.modeName)
  }

  lemma NameAskedIsScanned(info: ClientInfo, req: Request)
    requires req.Crtc? && ScanCrtc(Encode(req)).Some?
    ensures ScannedCrtc(info, Encode(req)).modeName == NameAsked(req, info)
    ensures CleanName(req.modeName) ==> NameAsked(req, info) == req.modeName
  {
    CrtcNumbersRoundTrip(req);
    ScannedName(req);
    CleanNameIsRead(req.modeName);
  }

  /** The display has a mode of that name for the connector. */
  predicate HasMode(d: Display, connId: u32, name: string) {
    connId in d.modes && exists m :: m in d.modes[connId] && m.name == name
  }

  lemma FindModeFinds(d: Display, connId: u32, name: string, works: bool)
    ensures FindMode(d, connId, name, works).Some? <==> works && HasMode(d, connId, name)
    ensures FindMode(d, connId, name, works).Some? ==>
      FirstOfName(d.modes[connId], name, FindMode(d, connId, name, works).value)
  {
    if connId in d.modes {
      FirstNamedFinds(d.modes[connId], name);
      FirstNamedIsFirst(d.modes[connId], name);
    }
  }

  /** What a CRTC request leaves in the record: its own numbers and name; ... */
  predicate NumbersTaken(was: ClientInfo, now: ClientInfo, req: Request)
    requires req.Crtc?
  {
    && now.crtcId == req.crtcId && now.connId == req.connId && now.fb == req.fb && now.modeName == NameAsked(req, was)
    && (now.magic, now.planeId, now.w, now.h, now.x, now.y) == (was.magic, was.planeId, was.w, was.h, was.x, was.y)
  }

  /** ... the first mode of the connector that has the name, and nothing else new when there is none; ... */
  ghost predicate ModeTaken(was: ClientInfo, now: ClientInfo, d: Display, req: Request, a: Answers)
    requires req.Crtc?
  {
    if a.lookup && HasMode(d, req.connId, NameAsked(req, was)) then
      now.mode.Some? && FirstOfName(d.modes[req.connId], NameAsked(req, was), now.mode.value)
      && now.saved == if a.getOld && req.crtcId in d.crtcs then Some(d.crtcs[req.crtcId]) else None
    else now.mode == was.mode && now.saved == was.saved
  }

  /** The CRTC request gets as far as switching the CRTC. */
  predicate Switches(was: ClientInfo, d: Display, req: Request, a: Answers)
    requires req.Crtc?
  {
    a.lookup && HasMode(d, req.connId, NameAsked(req, was)) && a.getOld && req.crtcId in d.crtcs
    && a.change && req.fb in d.fbs
  }

  /** ... and the CRTC then shows the client's framebuffer at 0,0 in that mode, or nothing has changed. */
  predicate CrtcSwitched(was: ClientInfo, now: ClientInfo, d: Display, e: Display, req: Request, a: Answers)
    requires req.Crtc?
  {
    if Switches(was, d, req, a) then
      now.mode.Some?
      && var shown := CrtcState(req.crtcId, req.fb, 0, 0, true, now.mode.value);
         e == d.(crtcs := d.crtcs[req.crtcId := shown]) && now.current == if a.getNew then Some(shown) else None
    else e == d && now.current == was.current
  }

  /** A CRTC request that fits: the whole effect, at whichever step it stops, told from the request, the
      list of modes and the display alone. */
  lemma CrtcRequestEffect(s: State, i: nat, req: Request, a: Answers)
    requires s.Valid() && i < |s.fds| && !s.crashed && req.Crtc? && !Breaks(req, s.infos[i])
    ensures var t, was := ServeMessage(s, i, Encode(req), a), s.infos[i];
      !t.crashed && t.infos == s.infos[i := t.infos[i]]
      && NumbersTaken(was, t.infos[i], req) && ModeTaken(was, t.infos[i], s.display, req, a)
      && CrtcSwitched(was, t.infos[i], s.display, t.display, req, a)
  {
    ServeEncoded(s, i, req, a);
    CrtcHandled(s.infos[i], s.display, req, a);
  }

  lemma CrtcHandled(was: ClientInfo, d: Display, req: Request, a: Answers)
    requires req.Crtc? && !Breaks(req, was)
    ensures var o := Handle(req, was, d, a);
      o.Handled? && NumbersTaken(was, o.info, req) && ModeTaken(was, o.info, d, req, a)
      && CrtcSwitched(was, o.info, d, o.display, req, a)
  {
    LongNamesOverrun(req);
    ScannedCrtcNumbers(was, req);
    NameAskedIsScanned(was, req);
    FindModeFinds(d, req.connId, NameAsked(req, was), a.lookup);
  }

  /** The CRTC an OK request leaves: the client's framebuffer in the first mode of the name it gave, on
      the CRTC it gave; the record holds what was there before. */
  lemma OkCrtcShows(s: State, i: nat, req: Request, a: Answers)
    requires s.Valid() && i < |s.fds| && !s.crashed && req.Crtc? && !Breaks(req, s.infos[i])
    requires CallsSucceed(req, s.infos[i], s.display, a)
    ensures var t, d := ServeMessage(s, i, Encode(req), a), s.display;
      && req.crtcId in d.crtcs && t.infos[i].saved == Some(d.crtcs[req.crtcId])
      && t.infos[i].mode.Some? && req.connId in d.modes
      && FirstOfName(d.modes[req.connId], NameAsked(req, s.infos[i]), t.infos[i].mode.value)
      && var shown := CrtcState(req.crtcId, req.fb, 0, 0, true, t.infos[i].mode.value);
         t.display == d.(crtcs := d.crtcs[req.crtcId := shown])
    ensures CleanName(req.modeName) ==> NameAsked(req, s.infos[i]) == req.modeName
  {
    LongNamesOverrun(req);
    NameAskedIsScanned(s.infos[i], req);
    CrtcRequestEffect(s, i, req, a);
  }

  /** What a PLANE request asks the kernel to show: source rectangles are in 1/65536 of a pixel, in 32-bit
      words. */
  function PlaneAsked(req: Request): PlaneState
    requires req.Plane?
  {
    if req.fb == 0 then Disabled
    else
      Showing(req.crtcId, req.fb, req.x, req.y, req.w, req.h,
              req.w * 65536 % 0x1_0000_0000, req.h * 65536 % 0x1_0000_0000)
  }

  /** A PLANE request puts all its numbers in the record, and its plane shows what they say or nothing has
      changed. */
  lemma PlaneRequestEffect(s: State, i: nat, req: Request, a: Answers)
    requires s.Valid() && i < |s.fds| && !s.crashed && req.Plane?
    ensures var t, d, was := ServeMessage(s, i, Encode(req), a), s.display, s.infos[i];
      && !t.crashed
      && t.infos == s.infos[i := was.(crtcId := req.crtcId, planeId := req.planeId, fb := req.fb,
                                      w := req.w, h := req.h, x := req.x, y := req.y)]
      && t.display == if CallsSucceed(req, was, d, a) then d.(planes := d.planes[req.planeId := PlaneAsked(req)]) else d
  {
    ServeEncoded(s, i, req, a);
    ScannedPlaneNumbers(s.infos[i], req);
  }

  /** An AUTH the kernel agrees to leaves nothing of an earlier client in the record; otherwise the record
      stays. */
  lemma AuthEffect(s: State, i: nat, magic: u32, a: Answers)
    requires s.Valid() && i < |s.fds| && !s.crashed
    ensures var t := ServeMessage(s, i, Encode(Auth(magic)), a);
      && !t.crashed && t.display == s.display && t.infos == s.infos[i := t.infos[i]]
      && if a.auth then
           t.infos[i].magic == magic && t.infos[i].saved.None? && t.infos[i].current.None? && t.infos[i].mode.None?
           && t.infos[i].modeName == "" && t.infos[i].fb == 0
           && t.infos[i].crtcId == 0 && t.infos[i].connId == 0 && t.infos[i].planeId == 0
           && t.infos[i].w == 0 && t.infos[i].h == 0 && t.infos[i].x == 0 && t.infos[i].y == 0
         else t.infos[i] == s.infos[i]
  {
    ServeEncoded(s, i, Auth(magic), a);
  }

  /** A command that is none of the five is answered ERROR and changes nothing. */
  lemma UnknownCommandEffect(s: State, i: nat, magic: u32, command: u32, a: Answers)
    requires s.Valid() && i < |s.fds| && command > CMD_PLANE_STOP
    ensures ServeMessage(s, i, NumberText([magic, command]), a)
         == s.(magic := magic, command := command, txBuf := Response(magic, DRM_ERROR))
  {
    ResponseRoundTrip(magic, command);
    assert s.infos[i := s.infos[i]] == s.infos;
  }

  /** The request that an AUTH or STOP command stands for. */
  function Bare(magic: u32, command: u32): Request {
    if command == CMD_AUTH then Auth(magic) else if command == CMD_CRTC_STOP then CrtcStop(magic) else PlaneStop(magic)
  }

  /** `magic` and `command` outlive a message: one that does not begin with a number runs the command of
      the message before it again, whichever slot that came from, on the slot it is read from. */
  lemma HeaderlessRepeats(s: State, i: nat, text: string, a: Answers)
    requires s.Valid() && i < |s.fds| && Scanf(HEADER_FORMAT, text) == []
    requires s.command in {CMD_AUTH, CMD_CRTC_STOP, CMD_PLANE_STOP}
    ensures ServeMessage(s, i, text, a) == ServeMessage(s, i, Encode(Bare(s.magic, s.command)), a)
  {
    HeaderRoundTrip(Bare(s.magic, s.command));
  }

  /** Whatever a client writes, only the record of its own slot changes. */
  lemma MessageStaysInItsSlot(s: State, i: nat, text: string, a: Answers)
    requires s.Valid() && i < |s.fds|
    ensures var t := ServeSlot(s, i, Input(Message(text), a));
      t.fds == s.fds && forall j :: 0 <= j < |s.infos| && j != i ==> t.infos[j] == s.infos[j]
  {
  }

  /** A request read from slot `i` in a round is answered by the verdict of its calls on the record of
      that slot, and a failed or empty read frees that slot and does nothing else. */
  lemma SlotIsServed(s: State, i: nat, req: Request, a: Answers)
    requires s.Valid() && i < |s.fds| && !s.crashed
    ensures var t := ServeSlot(s, i, Input(Message(Encode(req)), a));
      (t.crashed <==> Breaks(req, s.infos[i]))
      && (!t.crashed ==>
            t.txBuf == Response(req.magic, if CallsSucceed(req, s.infos[i], s.display, a) then DRM_OK else DRM_ERROR))
    ensures ServeSlot(s, i, Input(ReadFailed, a)) == ServeSlot(s, i, Input(EndOfFile, a)) == s.(fds := s.fds[i := -1])
  {
    ReplyTellsTheOutcome(s, i, req, a);
  }

  /** A new connection is in the table afterwards, in the lowest slot that was free, or nothing changes
      when there was none. */
  lemma NewClientIsPlaced(s: State, fd: int)
    ensures var t := AcceptInto(s, fd);
      t == s.(fds := t.fds) && |t.fds| == |s.fds|
      && if -1 in s.fds then
           exists k :: 0 <= k < |s.fds| && s.fds[k] == -1 && t.fds[k] == fd
             && (forall j :: 0 <= j < k ==> s.fds[j] != -1)
             && (forall j :: 0 <= j < |s.fds| && j != k ==> t.fds[j] == s.fds[j])
         else t.fds == s.fds
  {
  }

  /** The loop goes on unless `accept` failed or a request broke the server. */
  lemma RoundGoesOn(s: State, listener: ListenerEvent, rc: int, ready: seq<bool>, inputs: seq<Input>)
    requires s.Valid() && |s.fds| == |ready| == |inputs| && !s.crashed
    ensures var (t, served, running) := Round(s, listener, rc, ready, inputs);
      running <==> !listener.AcceptFailed? && !t.crashed
  {
  }

  // ----- the loop on its arrays -----

  class Server {
    var fds: array<int>
    var infos: array<ClientInfo>
    var magic: u32
    var command: u32
    var txBuf: string
    var display: Display
    var crashed: bool

    ghost predicate Valid()
      reads this
    {
      fds.Length == infos.Length
    }

    ghost function Model(): (s: State)
      reads this, fds, infos
      requires Valid()
      ensures s.Valid()
    {
      State(fds[..], infos[..], magic, command, txBuf, display, crashed)
    }

    constructor (slots: nat, d: Display)
      ensures Valid() && fresh(fds) && fresh(infos)
      ensures fds.Length == slots && !crashed && display == d
      ensures forall k :: 0 <= k < slots ==> fds[k] == -1
    {
      fds := new int[slots](_ => -1);
      infos := new ClientInfo[slots](_ => ZERO_INFO);
      magic, command, txBuf, display, crashed := 0, 0, "", d, false;
    }

    method Authenticate(i: nat, a: Answers) returns (ok: bool)
      requires Valid() && i < fds.Length
      modifies infos
      ensures HandleAuth(old(infos[i]), display, magic, a) == Handled(ok, infos[i], display)
      ensures infos[..] == old(infos[..])[i := infos[i]]
    {
      ok := a.auth;
      if ok {
        infos[i] := ZERO_INFO;
        infos[i] := infos[i].(magic := magic);
      }
    }

    /** The caller has checked that the mode name fits its field. */
    method StartCrtc(i: nat, rx: string, a: Answers) returns (ok: bool)
      requires Valid() && i < fds.Length && ScanCrtc(rx).Some?
      modifies infos, this`display
      ensures HandleCrtc(old(infos[i]), old(display), rx, a) == Handled(ok, infos[i], display)
      ensures infos[..] == old(infos[..])[i := infos[i]]
    {
      ok := false;
      infos[i] := ScannedCrtc(infos[i], rx);
      var tm := FindMode(display, infos[i].connId, infos[i].modeName, a.lookup);
      if tm.None? { return; }
      infos[i] := infos[i].(mode := tm);

      infos[i] := infos[i].(saved := GetCrtc(display, infos[i].crtcId, a.getOld));
      if infos[i].saved.None? { return; }

      var changed := SetCrtc(display, infos[i].crtcId, infos[i].fb, 0, 0, tm.value, a.change);
      if changed.None? { return; }
      display := changed.value;

      infos[i] := infos[i].(current := GetCrtc(display, infos[i].crtcId, a.getNew));
      ok := infos[i].current.Some?;
    }

    method StartPlane(i: nat, rx: string, a: Answers) returns (ok: bool)
      requires Valid() && i < fds.Length
      modifies infos, this`display
      ensures HandlePlane(old(infos[i]), old(display), rx, a) == Handled(ok, infos[i], display)
      ensures infos[..] == old(infos[..])[i := infos[i]]
    {
      infos[i] := ScannedPlane(infos[i], rx);
      var changed := SetPlane(display, infos[i].planeId, PlaneFrom(infos[i]), a.change);
      ok := changed.Some?;
      if ok { display := changed.value; }
    }

    /** Restores the CRTC saved in slot `i`; the caller has checked that there is one. */
    method StopCrtc(i: nat, a: Answers) returns (ok: bool)
      requires Valid() && i < fds.Length && infos[i].saved.Some?
      modifies this`display
      ensures HandleCrtcStop(infos[i], old(display), a) == Handled(ok, infos[i], display)
    {
      var c := infos[i].saved.value;
      ok := true;
      if c.modeValid {
        var changed := SetCrtc(display, c.crtcId, c.bufferId, c.x, c.y, c.mode, a.change);
        ok := changed.Some?;
        if ok { display := changed.value; }
      }
    }

    method StopPlane(i: nat, a: Answers) returns (ok: bool)
      requires Valid() && i < fds.Length
      modifies this`display
      ensures HandlePlaneStop(infos[i], old(display), a) == Handled(ok, infos[i], display)
    {
      var changed := SetPlane(display, infos[i].planeId, Disabled, a.change);
      ok := changed.Some?;
      if ok { display := changed.value; }
    }

    method HandleMessage(i: nat, rx: string, a: Answers)
      requires Valid() && i < fds.Length
      modifies this`magic, this`command, this`txBuf, this`display, this`crashed, infos
      ensures Valid() && Model() == ServeMessage(old(Model()), i, rx, a)
    {
      var header := Scanf(HEADER_FORMAT, rx);
      magic := NumAt(header, 0, magic);
      command := NumAt(header, 1, command);
      var ok := false;
      if command == CMD_AUTH {
        ok := Authenticate(i, a);
      } else if command == CMD_CRTC {
        if ScanCrtc(rx).None? {
          crashed := true;
          return;
        }
        ok := StartCrtc(i, rx, a);
      } else if command == CMD_PLANE {
        ok := StartPlane(i, rx, a);
      } else if command == CMD_CRTC_STOP {
        if infos[i].saved.None? {
          crashed := true;
          return;
        }
        ok := StopCrtc(i, a);
      } else if command == CMD_PLANE_STOP {
        ok := StopPlane(i, a);
      }
      txBuf := Response(magic, if ok then DRM_OK else DRM_ERROR);
      assert infos[..] == old(infos[..])[i := infos[i]];
    }

    method AcceptClient(fd: int)
      requires Valid()
      modifies fds
      ensures Valid() && Model() == AcceptInto(old(Model()), fd)
    {
      var i := 0;
      while i < fds.Length
        invariant i <= fds.Length && fds[..] == old(fds[..])
        invariant forall j :: 0 <= j < i ==> fds[j] != -1
      {
        if fds[i] == -1 {
          fds[i] := fd;
          assert fds[..] == old(fds[..])[i := fd];
          return;
        }
        i := i + 1;
      }
    }

    /** The loop body for a slot that `poll` reported ready. */
    method ServeReady(i: nat, input: Input)
      requires Valid() && i < fds.Length
      modifies this`magic, this`command, this`txBuf, this`display, this`crashed, fds, infos
      ensures Valid() && Model() == ServeSlot(old(Model()), i, input)
    {
      match input.read {
        case Message(text) => HandleMessage(i, text, input.answers);
        case _ =>
          fds[i] := -1;
          assert fds[..] == old(fds[..])[i := -1];
      }
    }

    /** The scan over the client slots, with `events` reported events still to be found. */
    method ScanSlots(events: int, ready: seq<bool>, inputs: seq<Input>) returns (served: seq<nat>)
      requires Valid() && |ready| == |inputs| == fds.Length && !crashed
      modifies this`magic, this`command, this`txBuf, this`display, this`crashed, fds, infos
      ensures Valid() && (Model(), served) == Scan(old(Model()), 0, events, ready, inputs)
    {
      var rc, i := events, 0;
      served := [];
      ghost var goal := Scan(Model(), 0, rc, ready, inputs);
      assert served + goal.1 == goal.1;
      while i < fds.Length
        invariant Valid() && i <= fds.Length == |ready| && !crashed
        invariant Leads(Model(), i, rc, ready, inputs, served, goal)
      {
        ghost var s := Model();
        if fds[i] != -1 && ready[i] {
          ScanServes(s, i, rc, ready, inputs, served, goal, ServeSlot(s, i, inputs[i]));
          served := served + [i];
          ServeReady(i, inputs[i]);
          if crashed { return; }
          if inputs[i].read.Message? {
            rc := rc - 1;
            if rc == 0 { return; }
          }
        } else {
          ScanSkips(s, i, rc, ready, inputs, served, goal);
        }
        i := i + 1;
      }
      assert served + [] == served;
    }

    /** One pass of the poll loop; `served` lists the slots it read from. */
    method PollRound(listener: ListenerEvent, events: int, ready: seq<bool>, inputs: seq<Input>)
        returns (served: seq<nat>, running: bool)
      requires Valid() && |ready| == |inputs| == fds.Length && !crashed
      modifies this`magic, this`command, this`txBuf, this`display, this`crashed, fds, infos
      ensures Valid()
      ensures (Model(), served, running) == Round(old(Model()), listener, events, ready, inputs)
    {
      served, running := [], true;
      var rc := events;
      match listener {
        case AcceptFailed => running := false; return;
        case Quiet =>
        case Connected(fd) =>
          AcceptClient(fd);
          rc := rc - 1;
          if rc == 0 { return; }
      }
      served := ScanSlots(rc, ready, inputs);
      running := !crashed;
    }
  }
}
