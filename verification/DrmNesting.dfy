/**
 Display sessions on one CRTC: a CRTC request saves what the CRTC shows, the STOP of the same slot
 puts it back, and a client that ends takes its framebuffer with it. Sessions that nest properly give
 the CRTC back as they found it.
 */
module DrmNesting {
  import opened MachineWords
  import opened Wrappers
  import opened Wire
  import opened DrmProto
  import opened DrmServer

  /** The server reads one request from a slot; a framebuffer comes into being or goes. */
  datatype Event =
    | Served(slot: nat, request: Request, answers: Answers)
    | Created(fb: u32)
    | Removed(fb: u32)

  predicate CanApply(s: State, e: Event) {
    s.Valid() && (e.Served? ==> e.slot < |s.fds|)
  }

  function Apply(s: State, e: Event): (t: State)
    requires CanApply(s, e)
    ensures t.Valid() && t.fds == s.fds
  {
    match e
    case Served(slot, request, answers) => ServeMessage(s, slot, Encode(request), answers)
    case Created(fb) => s.(display := AddFb(s.display, fb))
    case Removed(fb) => s.(display := RemoveFb(s.display, fb))
  }

  function ApplyAll(s: State, evs: seq<Event>): State
    requires s.Valid() && InTable(s, evs)
    decreases |evs|
  {
    if evs == [] then s else ApplyAll(Apply(s, evs[0]), evs[1..])
  }

  predicate InTable(s: State, evs: seq<Event>) {
    forall e :: e in evs && e.Served? ==> e.slot < |s.fds|
  }

  predicate AnsweredOk(s: State, e: Event)
    requires CanApply(s, e) && e.Served?
  {
    var t := Apply(s, e);
    !t.crashed && t.txBuf == Response(e.request.magic, DRM_OK)
  }

  /** A CRTC request on `crtc` that failed before `drmModeSetCrtc` had changed anything. */
  ghost predicate FailedEarly(s: State, e: Event, crtc: u32)
    requires CanApply(s, e) && e.Served?
  {
    e.request.Crtc? && e.request.crtcId == crtc && !Breaks(e.request, s.infos[e.slot])
    && !CallsSucceed(e.request, s.infos[e.slot], s.display, e.answers.(getNew := true))
  }

  /** The request cannot touch `crtc`. */
  predicate Elsewhere(s: State, e: Event, crtc: u32)
    requires CanApply(s, e) && e.Served?
  {
    !Breaks(e.request, s.infos[e.slot]) &&
    match e.request
    case Crtc(_, id, _, _, _) => id != crtc
    case CrtcStop(_) => s.infos[e.slot].saved.Some? && s.infos[e.slot].saved.value.crtcId != crtc
    case _ => true
  }

  /** The session of this record has put `fb` on the screen or found it there. */
  predicate Uses(info: ClientInfo, fb: u32) {
    info.fb == fb || (info.saved.Some? && Shows(info.saved.value, fb))
  }

  /** An OK CRTC request on `crtc`. */
  predicate OpensSession(s: State, e: Event, crtc: u32)
    requires CanApply(s, e)
  {
    e.Served? && e.request.Crtc? && e.request.crtcId == crtc && AnsweredOk(s, e)
  }

  /** The slots with an open session on `crtc`, innermost last, after one more event. */
  function OpenAfter(s: State, e: Event, crtc: u32, open: seq<nat>): seq<nat>
    requires CanApply(s, e)
  {
    if !e.Served? then open
    else if e.slot in open then open[..|open| - 1]
    else if OpensSession(s, e, crtc) then open + [e.slot]
    else open
  }

  /** The event fits the nesting: a STOP closes the innermost session; a slot inside a session sends
      nothing but its STOP; everything answered about `crtc` is answered OK, or has failed early; and no
      framebuffer is removed that an open session uses. */
  ghost predicate Fits(s: State, e: Event, crtc: u32, open: seq<nat>)
    requires CanApply(s, e)
  {
    match e
    case Created(_) => true
    case Removed(fb) => forall k :: 0 <= k < |open| && open[k] < |s.infos| ==> !Uses(s.infos[open[k]], fb)
    case Served(slot, request, _) =>
      if slot in open then request.CrtcStop? && slot == open[|open| - 1] && AnsweredOk(s, e)
      else OpensSession(s, e, crtc) || FailedEarly(s, e, crtc) || Elsewhere(s, e, crtc)
  }

  /** The sessions on `crtc` nest, and all are closed in the end. */
  ghost predicate Nested(s: State, evs: seq<Event>, crtc: u32, open: seq<nat>)
    requires s.Valid() && InTable(s, evs)
    decreases |evs|
  {
    if evs == [] then open == []
    else Fits(s, evs[0], crtc, open) && Nested(Apply(s, evs[0]), evs[1..], crtc, OpenAfter(s, evs[0], crtc, open))
  }

  /** What `crtc` shows with the first `k` of the open sessions on it. */
  function Level(s: State, crtc: u32, open: seq<nat>, base: CrtcState, k: nat): Option<CrtcState>
    requires s.Valid() && k <= |open|
  {
    if k == 0 then Some(base)
    else if open[k - 1] < |s.infos| && s.infos[open[k - 1]].mode.Some? then
      var info := s.infos[open[k - 1]];
      Some(CrtcState(crtc, info.fb, 0, 0, true, info.mode.value))
    else None
  }

  /** The `k`-th open session has saved the level below it. */
  predicate HasSaved(s: State, crtc: u32, open: seq<nat>, base: CrtcState, k: nat)
    requires s.Valid() && k < |open|
  {
    open[k] < |s.infos| && Level(s, crtc, open, base, k).Some?
    && s.infos[open[k]].saved == Level(s, crtc, open, base, k)
  }

  predicate Distinct(slots: seq<nat>) {
    forall i, j :: 0 <= i < j < |slots| ==> slots[i] != slots[j]
  }

  /** Each open session has saved the level below it, and the display shows the top level. */
  predicate Stacked(s: State, crtc: u32, open: seq<nat>, base: CrtcState) {
    && s.Valid() && Distinct(open)
    && (forall k :: 0 <= k < |open| ==> HasSaved(s, crtc, open, base, k))
    && crtc in s.display.crtcs && Level(s, crtc, open, base, |open|) == Some(s.display.crtcs[crtc])
  }

  // ----- single events -----

  lemma OkExactlyWhenHandled(s: State, e: Event)
    requires CanApply(s, e) && e.Served? && !s.crashed
    ensures var o := Handle(e.request, s.infos[e.slot], s.display, e.answers);
            AnsweredOk(s, e) <==> o.Handled? && o.ok
  {
    ServeEncoded(s, e.slot, e.request, e.answers);
    ResponseRoundTrip(e.request.magic, DRM_OK);
    ResponseRoundTrip(e.request.magic, DRM_ERROR);
  }

  lemma OkWhenCallsSucceed(s: State, e: Event)
    requires CanApply(s, e) && e.Served? && !s.crashed
    ensures AnsweredOk(s, e) <==>
            !Breaks(e.request, s.infos[e.slot]) && CallsSucceed(e.request, s.infos[e.slot], s.display, e.answers)
  {
    OkExactlyWhenHandled(s, e);
    HandlingOutcome(s.infos[e.slot], s.display, e.request, e.answers);
  }

  /** Only the record of the request's own slot changes. */
  lemma OtherRecordsStay(s: State, e: Event, j: nat)
    requires CanApply(s, e) && j < |s.fds| && (e.Served? ==> j != e.slot)
    ensures Apply(s, e).infos[j] == s.infos[j]
  {
    if e.Served? {
      ServeEncoded(s, e.slot, e.request, e.answers);
    }
  }

  lemma OpenedSession(s: State, e: Event)
    requires CanApply(s, e) && e.Served? && !s.crashed
    requires e.request.Crtc? && AnsweredOk(s, e)
    ensures var t, c := Apply(s, e), e.request.crtcId;
      !t.crashed && c in s.display.crtcs && t.infos[e.slot].saved == Some(s.display.crtcs[c])
      && t.infos[e.slot].mode.Some? && t.infos[e.slot].fb == e.request.fb
      && var shown := CrtcState(c, e.request.fb, 0, 0, true, t.infos[e.slot].mode.value);
         t.display == s.display.(crtcs := s.display.crtcs[c := shown])
  {
    OkExactlyWhenHandled(s, e);
    ServeEncoded(s, e.slot, e.request, e.answers);
    ScannedCrtcNumbers(s.infos[e.slot], e.request);
  }

  lemma ClosedSession(s: State, e: Event)
    requires CanApply(s, e) && e.Served? && !s.crashed
    requires e.request.CrtcStop? && AnsweredOk(s, e)
    ensures var t, saved := Apply(s, e), s.infos[e.slot].saved;
      !t.crashed && t.infos == s.infos && saved.Some?
      && var c := saved.value;
         t.display == if c.modeValid then s.display.(crtcs := s.display.crtcs[c.crtcId := c]) else s.display
  {
    OkExactlyWhenHandled(s, e);
    ServeEncoded(s, e.slot, e.request, e.answers);
  }

  lemma FailedEarlyLeavesDisplay(s: State, e: Event, crtc: u32)
    requires CanApply(s, e) && e.Served? && !s.crashed && FailedEarly(s, e, crtc)
    ensures !Apply(s, e).crashed && Apply(s, e).display == s.display
  {
    ReplyTellsTheOutcome(s, e.slot, e.request, e.answers);
    ErrorLeavesDisplay(s, e.slot, e.request, e.answers);
  }

  lemma UntouchedCrtc(s: State, e: Event, crtc: u32)
    requires CanApply(s, e) && e.Served? && !s.crashed && crtc in s.display.crtcs
    requires FailedEarly(s, e, crtc) || Elsewhere(s, e, crtc)
    ensures var t := Apply(s, e);
      !t.crashed && crtc in t.display.crtcs && t.display.crtcs[crtc] == s.display.crtcs[crtc]
  {
    if FailedEarly(s, e, crtc) {
      FailedEarlyLeavesDisplay(s, e, crtc);
    } else {
      ElsewhereLeavesCrtc(s, e, crtc);
    }
  }

  lemma ElsewhereLeavesCrtc(s: State, e: Event, crtc: u32)
    requires CanApply(s, e) && e.Served? && !s.crashed && crtc in s.display.crtcs && Elsewhere(s, e, crtc)
    ensures var t := Apply(s, e);
      !t.crashed && crtc in t.display.crtcs && t.display.crtcs[crtc] == s.display.crtcs[crtc]
  {
    ServeEncoded(s, e.slot, e.request, e.answers);
    HandlingElsewhere(s.infos[e.slot], s.display, e.request, e.answers, crtc);
  }

  /** A request that names another CRTC, or none, leaves this one alone. */
  lemma HandlingElsewhere(info: ClientInfo, d: Display, req: Request, a: Answers, crtc: u32)
    requires !Breaks(req, info) && crtc in d.crtcs
    requires req.Crtc? ==> req.crtcId != crtc
    requires req.CrtcStop? ==> info.saved.Some? && info.saved.value.crtcId != crtc
    ensures var o := Handle(req, info, d, a);
      o.Handled? && crtc in o.display.crtcs && o.display.crtcs[crtc] == d.crtcs[crtc]
  {
    HandlingOutcome(info, d, req, a);
    if req.Crtc? {
      ModeIsFound(info, d, req);
    }
  }

  // ----- the stack of open sessions -----

  /** The lowest `m` levels depend only on the records of the lowest `m` sessions. */
  predicate SameRecords(s: State, t: State, open: seq<nat>, other: seq<nat>, m: nat) {
    && |s.infos| == |t.infos| && m <= |open| && m <= |other|
    && forall k :: 0 <= k < m ==> open[k] == other[k] < |s.infos| && t.infos[open[k]] == s.infos[open[k]]
  }

  lemma SameLevels(s: State, t: State, crtc: u32, open: seq<nat>, other: seq<nat>, base: CrtcState, m: nat)
    requires s.Valid() && t.Valid() && SameRecords(s, t, open, other, m)
    ensures Level(t, crtc, other, base, m) == Level(s, crtc, open, base, m)
    ensures forall k :: 0 <= k < m ==> (HasSaved(t, crtc, other, base, k) <==> HasSaved(s, crtc, open, base, k))
  {
  }

  /** The state under all open sessions, after the outermost has closed: a CRTC that was off is left as
      the session had it. */
  function Beneath(s: State, crtc: u32, open: seq<nat>, base: CrtcState): CrtcState {
    if |open| == 1 && !base.modeValid && crtc in s.display.crtcs then s.display.crtcs[crtc] else base
  }

  lemma PopStacked(s: State, e: Event, crtc: u32, open: seq<nat>, base: CrtcState)
    requires Stacked(s, crtc, open, base) && !s.crashed && base.crtcId == crtc
    requires e.Served? && open != [] && e.slot == open[|open| - 1]
    requires e.request.CrtcStop? && CanApply(s, e) && AnsweredOk(s, e)
    ensures !Apply(s, e).crashed && Stacked(Apply(s, e), crtc, open[..|open| - 1], Beneath(s, crtc, open, base))
  {
    var t, n := Apply(s, e), |open| - 1;
    ClosedSession(s, e);
    assert HasSaved(s, crtc, open, base, n);
    if n > 0 || base.modeValid {
      PoppedOff(s, t, crtc, open, base);
    } else {
      assert open[..0] == [];
    }
  }

  lemma AllRecordsThere(s: State, crtc: u32, open: seq<nat>, base: CrtcState)
    requires Stacked(s, crtc, open, base)
    ensures forall k :: 0 <= k < |open| ==> open[k] < |s.infos|
  {
    forall k | 0 <= k < |open| ensures open[k] < |s.infos| {
      assert HasSaved(s, crtc, open, base, k);
    }
  }

  /** One session less on top, when the CRTC shows what that one had saved. */
  lemma PoppedOff(s: State, t: State, crtc: u32, open: seq<nat>, base: CrtcState)
    requires Stacked(s, crtc, open, base) && open != []
    requires t.Valid() && t.infos == s.infos && crtc in t.display.crtcs
    requires Level(s, crtc, open, base, |open| - 1) == Some(t.display.crtcs[crtc])
    ensures Stacked(t, crtc, open[..|open| - 1], base)
  {
    var n := |open| - 1;
    AllRecordsThere(s, crtc, open, base);
    SameLevels(s, t, crtc, open, open[..n], base, n);
  }

  lemma OpenRecordsStay(s: State, e: Event, crtc: u32, open: seq<nat>, base: CrtcState)
    requires Stacked(s, crtc, open, base) && CanApply(s, e) && (e.Served? ==> e.slot !in open)
    ensures SameRecords(s, Apply(s, e), open, open, |open|)
  {
    AllRecordsThere(s, crtc, open, base);
    forall k | 0 <= k < |open|
      ensures Apply(s, e).infos[open[k]] == s.infos[open[k]]
    {
      OtherRecordsStay(s, e, open[k]);
    }
  }

  lemma PushStacked(s: State, e: Event, crtc: u32, open: seq<nat>, base: CrtcState)
    requires Stacked(s, crtc, open, base) && !s.crashed
    requires CanApply(s, e) && OpensSession(s, e, crtc) && e.slot !in open
    ensures !Apply(s, e).crashed && Stacked(Apply(s, e), crtc, open + [e.slot], base)
  {
    OpenedSession(s, e);
    OpenRecordsStay(s, e, crtc, open, base);
    PushedOn(s, Apply(s, e), crtc, open, e.slot, base);
  }

  /** One more session on top, from what it has saved and what it shows. */
  lemma PushedOn(s: State, t: State, crtc: u32, open: seq<nat>, slot: nat, base: CrtcState)
    requires Stacked(s, crtc, open, base) && t.Valid() && slot !in open && slot < |t.infos|
    requires SameRecords(s, t, open, open, |open|)
    requires t.infos[slot].saved == Some(s.display.crtcs[crtc]) && t.infos[slot].mode.Some?
    requires crtc in t.display.crtcs
    requires t.display.crtcs[crtc] == CrtcState(crtc, t.infos[slot].fb, 0, 0, true, t.infos[slot].mode.value)
    ensures Stacked(t, crtc, open + [slot], base)
  {
    var n, more := |open|, open + [slot];
    assert SameRecords(s, t, open, more, n);
    SameLevels(s, t, crtc, open, more, base, n);
    assert more[n] == slot && HasSaved(t, crtc, more, base, n);
  }

  lemma KeepStacked(s: State, e: Event, crtc: u32, open: seq<nat>, base: CrtcState)
    requires Stacked(s, crtc, open, base) && !s.crashed
    requires CanApply(s, e) && e.Served? && e.slot !in open
    requires FailedEarly(s, e, crtc) || Elsewhere(s, e, crtc)
    ensures !Apply(s, e).crashed && Stacked(Apply(s, e), crtc, open, base)
  {
    UntouchedCrtc(s, e, crtc);
    OpenRecordsStay(s, e, crtc, open, base);
    SameLevels(s, Apply(s, e), crtc, open, open, base, |open|);
  }

  /** What is left under the sessions when `fb` goes while none is open. */
  function Without(base: CrtcState, open: seq<nat>, fb: u32, crtc: u32): CrtcState {
    if open == [] && Shows(base, fb) then SwitchedOff(crtc) else base
  }

  lemma RemovalKeepsStacked(s: State, fb: u32, crtc: u32, open: seq<nat>, base: CrtcState)
    requires Stacked(s, crtc, open, base)
    requires forall k :: 0 <= k < |open| && open[k] < |s.infos| ==> !Uses(s.infos[open[k]], fb)
    ensures Stacked(Apply(s, Removed(fb)), crtc, open, Without(base, open, fb, crtc))
  {
    var t := Apply(s, Removed(fb));
    if open != [] {
      AllRecordsThere(s, crtc, open, base);
      assert !Uses(s.infos[open[|open| - 1]], fb);
      assert t.display.crtcs[crtc] == s.display.crtcs[crtc];
      SameLevels(s, t, crtc, open, open, base, |open|);
    }
  }

  // ----- nested runs -----

  /** The state under the open sessions after one more event. */
  function BaseAfter(s: State, e: Event, crtc: u32, open: seq<nat>, base: CrtcState): CrtcState {
    match e
    case Created(_) => base
    case Removed(fb) => Without(base, open, fb, crtc)
    case Served(slot, _, _) => if slot in open then Beneath(s, crtc, open, base) else base
  }

  lemma EventKeepsStacked(s: State, e: Event, crtc: u32, open: seq<nat>, base: CrtcState)
    requires Stacked(s, crtc, open, base) && !s.crashed && base.crtcId == crtc
    requires CanApply(s, e) && Fits(s, e, crtc, open)
    ensures !Apply(s, e).crashed
    ensures Stacked(Apply(s, e), crtc, OpenAfter(s, e, crtc, open), BaseAfter(s, e, crtc, open, base))
    ensures BaseAfter(s, e, crtc, open, base).crtcId == crtc
  {
    match e {
      case Created(fb) =>
        AllRecordsThere(s, crtc, open, base);
        SameLevels(s, Apply(s, e), crtc, open, open, base, |open|);
      case Removed(fb) => RemovalKeepsStacked(s, fb, crtc, open, base);
      case Served(slot, _, _) =>
        if slot in open {
          PopStacked(s, e, crtc, open, base);
        } else if OpensSession(s, e, crtc) {
          PushStacked(s, e, crtc, open, base);
        } else {
          KeepStacked(s, e, crtc, open, base);
        }
    }
  }

  /** The state a nested run leaves under its sessions: `base`, unless that was off, or its framebuffer
      has gone. */
  function Base(s: State, evs: seq<Event>, crtc: u32, open: seq<nat>, base: CrtcState): CrtcState
    requires s.Valid() && InTable(s, evs)
    decreases |evs|
  {
    if evs == [] then base
    else
      var e := evs[0];
      Base(Apply(s, e), evs[1..], crtc, OpenAfter(s, e, crtc, open), BaseAfter(s, e, crtc, open, base))
  }

  lemma {:induction false} NestedUnwinds(s: State, evs: seq<Event>, crtc: u32, open: seq<nat>, base: CrtcState)
    requires Stacked(s, crtc, open, base) && !s.crashed && base.crtcId == crtc
    requires InTable(s, evs) && Nested(s, evs, crtc, open)
    ensures var t := ApplyAll(s, evs);
      !t.crashed && crtc in t.display.crtcs && t.display.crtcs[crtc] == Base(s, evs, crtc, open, base)
    decreases |evs|
  {
    if evs != [] {
      var e := evs[0];
      EventKeepsStacked(s, e, crtc, open, base);
      NestedUnwinds(Apply(s, e), evs[1..], crtc, OpenAfter(s, e, crtc, open), BaseAfter(s, e, crtc, open, base));
    }
  }

  /** A base that was on stays the base as long as its framebuffer does. */
  lemma {:induction false} LitBaseStays(s: State, evs: seq<Event>, crtc: u32, open: seq<nat>, base: CrtcState)
    requires s.Valid() && InTable(s, evs) && base.modeValid && Removed(base.bufferId) !in evs
    ensures Base(s, evs, crtc, open, base) == base
    decreases |evs|
  {
    if evs != [] {
      assert evs[0] in evs;
      LitBaseStays(Apply(s, evs[0]), evs[1..], crtc, OpenAfter(s, evs[0], crtc, open), base);
    }
  }

  /** The framebuffer left on a CRTC that was off, after one more event: that of the first session to
      close over it, until it is removed while no session is open. */
  function LeftAfter(s: State, e: Event, open: seq<nat>, left: Option<u32>): Option<u32>
    requires CanApply(s, e)
  {
    match e
    case Created(_) => left
    case Removed(fb) => if open == [] && left == Some(fb) then None else left
    case Served(slot, _, _) => if slot in open && |open| == 1 && left == None then Some(s.infos[slot].fb) else left
  }

  /** The same after a whole run. It is told from the requests and the framebuffers alone. */
  function LeftOn(s: State, evs: seq<Event>, crtc: u32, open: seq<nat>, left: Option<u32>): Option<u32>
    requires s.Valid() && InTable(s, evs)
    decreases |evs|
  {
    if evs == [] then left
    else LeftOn(Apply(s, evs[0]), evs[1..], crtc, OpenAfter(s, evs[0], crtc, open), LeftAfter(s, evs[0], open, left))
  }

  function Buffer(c: CrtcState): Option<u32> {
    if c.modeValid then Some(c.bufferId) else None
  }

  lemma LeftAfterIsTheBase(s: State, e: Event, crtc: u32, open: seq<nat>, base: CrtcState)
    requires Stacked(s, crtc, open, base) && CanApply(s, e) && Fits(s, e, crtc, open)
    ensures LeftAfter(s, e, open, Buffer(base)) == Buffer(BaseAfter(s, e, crtc, open, base))
  {
  }

  lemma {:induction false} LeftOnIsTheBase(s: State, evs: seq<Event>, crtc: u32, open: seq<nat>, base: CrtcState)
    requires Stacked(s, crtc, open, base) && !s.crashed && base.crtcId == crtc
    requires InTable(s, evs) && Nested(s, evs, crtc, open)
    ensures LeftOn(s, evs, crtc, open, Buffer(base)) == Buffer(Base(s, evs, crtc, open, base))
    decreases |evs|
  {
    if evs != [] {
      var e := evs[0];
      EventKeepsStacked(s, e, crtc, open, base);
      LeftAfterIsTheBase(s, e, crtc, open, base);
      LeftOnIsTheBase(Apply(s, e), evs[1..], crtc, OpenAfter(s, e, crtc, open), BaseAfter(s, e, crtc, open, base));
    }
  }

  /** Properly nested sessions, to any depth and in any number, leave on the screen what was there before
      the outermost one exactly when the CRTC had a valid mode then, or nothing is left on it that it did
      not have: a CRTC that was off stays on the client's buffer until that client removes it. */
  lemma NestedSessionsRestore(s: State, evs: seq<Event>, crtc: u32)
    requires s.Valid() && !s.crashed && s.display.Valid() && crtc in s.display.crtcs
    requires InTable(s, evs) && Nested(s, evs, crtc, [])
    requires s.display.crtcs[crtc].modeValid ==> Removed(s.display.crtcs[crtc].bufferId) !in evs
    ensures var t, base := ApplyAll(s, evs), s.display.crtcs[crtc];
      crtc in t.display.crtcs
      && (base.modeValid ==> t.display.crtcs[crtc] == base)
      && (OnScreen(t.display.crtcs[crtc]) == OnScreen(base) <==>
            base.modeValid || LeftOn(s, evs, crtc, [], None) == None)
  {
    var base := s.display.crtcs[crtc];
    NestedUnwinds(s, evs, crtc, [], base);
    LeftOnIsTheBase(s, evs, crtc, [], base);
    if base.modeValid {
      LitBaseStays(s, evs, crtc, [], base);
    }
  }

  // ----- one session on a CRTC that is off -----

  const ALL_WORK := Answers(true, true, true, true, true)

  lemma OpensAndCloses(s: State, i: nat, a: Request)
    requires s.Valid() && !s.crashed && s.display.Valid() && i < |s.fds| && a.Crtc?
    requires CallsSucceed(a, s.infos[i], s.display, ALL_WORK) && !s.display.crtcs[a.crtcId].modeValid
    ensures AnsweredOk(s, Start(i, a)) && AnsweredOk(Apply(s, Start(i, a)), Stop(i, a))
    ensures var t := Apply(Apply(s, Start(i, a)), Stop(i, a));
      t.infos == Apply(s, Start(i, a)).infos && t.infos[i].fb == a.fb
      && a.crtcId in t.display.crtcs && Shows(t.display.crtcs[a.crtcId], a.fb)
  {
    StartWorks(s, i, a);
    OpenedSession(s, Start(i, a));
    var s1 := Apply(s, Start(i, a));
    StopWorks(s1, i, a);
    ClosedSession(s1, Stop(i, a));
  }

  /** The events are a nested run to `t` that leaves `end` on a dark CRTC. */
  ghost predicate Leaves(s: State, evs: seq<Event>, crtc: u32, open: seq<nat>, left: Option<u32>, t: State,
                         end: Option<u32>)
  {
    s.Valid() && InTable(s, evs) && Nested(s, evs, crtc, open)
    && ApplyAll(s, evs) == t && LeftOn(s, evs, crtc, open, left) == end
  }

  lemma LeavesNext(s: State, e: Event, rest: seq<Event>, crtc: u32, open: seq<nat>, left: Option<u32>, t: State,
                   end: Option<u32>)
    requires CanApply(s, e) && Fits(s, e, crtc, open)
    requires Leaves(Apply(s, e), rest, crtc, OpenAfter(s, e, crtc, open), LeftAfter(s, e, open, left), t, end)
    ensures Leaves(s, [e] + rest, crtc, open, left, t, end)
  {
    assert ([e] + rest)[1..] == rest;
  }

  /** On a CRTC that is off, START and STOP are both answered OK, and the client's buffer stays on it until
      that client ends. */
  lemma DarkScreenStaysOn(s: State, i: nat, a: Request)
    requires s.Valid() && !s.crashed && s.display.Valid() && i < |s.fds| && a.Crtc?
    requires CallsSucceed(a, s.infos[i], s.display, ALL_WORK) && !s.display.crtcs[a.crtcId].modeValid
    ensures AnsweredOk(s, Start(i, a)) && AnsweredOk(Apply(s, Start(i, a)), Stop(i, a))
    ensures var t := Apply(Apply(s, Start(i, a)), Stop(i, a));
      Leaves(s, [Start(i, a)] + ([Stop(i, a)] + []), a.crtcId, [], None, t, Some(a.fb))
      && a.crtcId in t.display.crtcs && Shows(t.display.crtcs[a.crtcId], a.fb)
      && Apply(t, Removed(a.fb)).display.crtcs[a.crtcId] == SwitchedOff(a.crtcId)
  {
    OpensAndCloses(s, i, a);
    LastStopLeaves(Apply(s, Start(i, a)), i, a);
    StartLeaves(s, i, a, [Stop(i, a)] + [], Apply(Apply(s, Start(i, a)), Stop(i, a)));
  }

  lemma LastStopLeaves(s: State, i: nat, a: Request)
    requires s.Valid() && i < |s.fds| && a.Crtc? && s.infos[i].fb == a.fb && AnsweredOk(s, Stop(i, a))
    ensures Leaves(s, [Stop(i, a)] + [], a.crtcId, [i], None, Apply(s, Stop(i, a)), Some(a.fb))
  {
    var t := Apply(s, Stop(i, a));
    assert [i][..0] == [];
    assert Leaves(t, [], a.crtcId, [], Some(a.fb), t, Some(a.fb));
    LeavesNext(s, Stop(i, a), [], a.crtcId, [i], None, t, Some(a.fb));
  }

  lemma StartLeaves(s: State, i: nat, a: Request, rest: seq<Event>, t: State)
    requires s.Valid() && i < |s.fds| && a.Crtc? && AnsweredOk(s, Start(i, a))
    requires Leaves(Apply(s, Start(i, a)), rest, a.crtcId, [i], None, t, Some(a.fb))
    ensures Leaves(s, [Start(i, a)] + rest, a.crtcId, [], None, t, Some(a.fb))
  {
    assert [] + [i] == [i];
    LeavesNext(s, Start(i, a), rest, a.crtcId, [], None, t, Some(a.fb));
  }

  // ----- two sessions -----

  /** Two clients that want the same CRTC and would each get it; neither owns what it shows now. */
  ghost predicate TwoClients(s: State, i: nat, j: nat, a: Request, b: Request) {
    && s.Valid() && !s.crashed && s.display.Valid() && i < |s.fds| && j < |s.fds| && i != j
    && a.Crtc? && b.Crtc? && a.crtcId == b.crtcId && a.fb != b.fb
    && CallsSucceed(a, s.infos[i], s.display, ALL_WORK) && CallsSucceed(b, s.infos[j], s.display, ALL_WORK)
    && !Shows(s.display.crtcs[a.crtcId], a.fb) && !Shows(s.display.crtcs[a.crtcId], b.fb)
  }

  function Start(i: nat, a: Request): Event { Served(i, a, ALL_WORK) }
  function Stop(i: nat, a: Request): Event { Served(i, CrtcStop(a.magic), ALL_WORK) }

  lemma StartWorks(s: State, i: nat, a: Request)
    requires s.Valid() && i < |s.fds| && !s.crashed && a.Crtc?
    requires CallsSucceed(a, s.infos[i], s.display, ALL_WORK)
    ensures AnsweredOk(s, Start(i, a))
  {
    LongNamesOverrun(a);
    OkWhenCallsSucceed(s, Start(i, a));
  }

  /** The STOP of a session is answered OK just when what it saved can still be shown. */
  lemma StopWorks(s: State, i: nat, a: Request)
    requires s.Valid() && i < |s.fds| && !s.crashed && s.infos[i].saved.Some?
    requires s.infos[i].saved.value.crtcId in s.display.crtcs
    ensures var saved := s.infos[i].saved.value;
            AnsweredOk(s, Stop(i, a)) <==> (saved.modeValid ==> saved.bufferId in s.display.fbs)
  {
    OkWhenCallsSucceed(s, Stop(i, a));
  }

  /** What both sessions open leave behind. */
  predicate BothOpen(s: State, t: State, i: nat, j: nat, a: Request, b: Request) {
    && t.Valid() && !t.crashed && i < |t.infos| && j < |t.infos| && a.Crtc? && b.Crtc?
    && a.crtcId in s.display.crtcs && a.crtcId in t.display.crtcs && |t.fds| == |s.fds|
    && t.infos[i].saved == Some(s.display.crtcs[a.crtcId]) && t.infos[i].fb == a.fb && t.infos[i].mode.Some?
    && t.infos[j].saved == Some(CrtcState(a.crtcId, a.fb, 0, 0, true, t.infos[i].mode.value)) && t.infos[j].fb == b.fb
    && Shows(t.display.crtcs[a.crtcId], b.fb) && t.display.fbs == s.display.fbs
    && {a.fb, b.fb} <= t.display.fbs
  }

  lemma TwoOpen(s: State, i: nat, j: nat, a: Request, b: Request)
    requires TwoClients(s, i, j, a, b)
    ensures AnsweredOk(s, Start(i, a)) && AnsweredOk(Apply(s, Start(i, a)), Start(j, b))
    ensures BothOpen(s, Apply(Apply(s, Start(i, a)), Start(j, b)), i, j, a, b)
  {
    var ea, eb := Start(i, a), Start(j, b);
    StartWorks(s, i, a);
    OpenedSession(s, ea);
    OtherRecordsStay(s, ea, j);
    var s1 := Apply(s, ea);
    StartWorks(s1, j, b);
    OpenedSession(s1, eb);
    OtherRecordsStay(s1, eb, i);
  }

  /** The inner session closes and its client goes: the outer one is back on the screen and can close. */
  lemma InnerCloses(s: State, t: State, i: nat, j: nat, a: Request, b: Request)
    requires TwoClients(s, i, j, a, b) && BothOpen(s, t, i, j, a, b)
    ensures AnsweredOk(t, Stop(j, b))
    ensures var u := Apply(Apply(t, Stop(j, b)), Removed(b.fb));
      u.infos == t.infos && !u.crashed && a.crtcId in u.display.crtcs && AnsweredOk(u, Stop(i, a))
  {
    StopWorks(t, j, b);
    ClosedSession(t, Stop(j, b));
    var u := Apply(Apply(t, Stop(j, b)), Removed(b.fb));
    StopWorks(u, i, a);
  }

  /** The events are a nested run that leaves nothing on a dark CRTC. */
  ghost predicate Closes(s: State, evs: seq<Event>, crtc: u32, open: seq<nat>, left: Option<u32>) {
    s.Valid() && InTable(s, evs) && Nested(s, evs, crtc, open) && LeftOn(s, evs, crtc, open, left) == None
  }

  lemma ClosesNext(s: State, e: Event, rest: seq<Event>, crtc: u32, open: seq<nat>, left: Option<u32>)
    requires CanApply(s, e) && Fits(s, e, crtc, open)
    requires Closes(Apply(s, e), rest, crtc, OpenAfter(s, e, crtc, open), LeftAfter(s, e, open, left))
    ensures Closes(s, [e] + rest, crtc, open, left)
  {
    assert ([e] + rest)[1..] == rest;
  }

  function BothStarts(i: nat, j: nat, a: Request, b: Request): seq<Event> {
    [Start(i, a)] + ([Start(j, b)] + BothStops(i, j, a, b))
  }

  function BothStops(i: nat, j: nat, a: Request, b: Request): seq<Event>
  {
    [Stop(j, b)] + ([Removed(OwnFb(b))] + ([Stop(i, a)] + ([Removed(OwnFb(a))] + [])))
  }

  function OwnFb(a: Request): u32 {
    if a.Crtc? then a.fb else 0
  }

  /** Nesting is what clients get when the second one is closed first: two sessions that the kernel
      grants, whatever their slots and modes, are a nested run, each client ending after its STOP, and
      leave on the screen what was there. */
  lemma TwoSessionsNest(s: State, i: nat, j: nat, a: Request, b: Request)
    requires TwoClients(s, i, j, a, b)
    ensures Closes(s, BothStarts(i, j, a, b), a.crtcId, [], None)
    ensures var t := ApplyAll(s, BothStarts(i, j, a, b));
      a.crtcId in t.display.crtcs && OnScreen(t.display.crtcs[a.crtcId]) == OnScreen(s.display.crtcs[a.crtcId])
  {
    TwoOpen(s, i, j, a, b);
    var s2 := Apply(Apply(s, Start(i, a)), Start(j, b));
    InnerCloses(s, s2, i, j, a, b);
    StopsClose(s2, i, j, a, b);
    StartsClose(s, i, j, a, b);
    RemovedAreOwn(i, j, a, b);
    NestedSessionsRestore(s, BothStarts(i, j, a, b), a.crtcId);
  }

  lemma RemovedAreOwn(i: nat, j: nat, a: Request, b: Request)
    ensures forall fb :: Removed(fb) in BothStarts(i, j, a, b) ==> fb == OwnFb(a) || fb == OwnFb(b)
  {
  }

  lemma StartsClose(s: State, i: nat, j: nat, a: Request, b: Request)
    requires s.Valid() && i < |s.fds| && j < |s.fds| && i != j && a.Crtc? && b.Crtc? && a.crtcId == b.crtcId
    requires AnsweredOk(s, Start(i, a)) && AnsweredOk(Apply(s, Start(i, a)), Start(j, b))
    requires Closes(Apply(Apply(s, Start(i, a)), Start(j, b)), BothStops(i, j, a, b), a.crtcId, [i, j], None)
    ensures Closes(s, BothStarts(i, j, a, b), a.crtcId, [], None)
  {
    assert [] + [i] == [i] && [i] + [j] == [i, j];
    ClosesNext(Apply(s, Start(i, a)), Start(j, b), BothStops(i, j, a, b), a.crtcId, [i], None);
    ClosesNext(s, Start(i, a), [Start(j, b)] + BothStops(i, j, a, b), a.crtcId, [], None);
  }

  lemma StopsClose(s: State, i: nat, j: nat, a: Request, b: Request)
    requires s.Valid() && i < |s.fds| && j < |s.fds| && i != j && a.Crtc? && b.Crtc? && a.fb != b.fb
    requires s.infos[i].fb == a.fb && s.infos[i].saved.Some? && !Shows(s.infos[i].saved.value, b.fb)
    requires AnsweredOk(s, Stop(j, b))
    requires var u := Apply(Apply(s, Stop(j, b)), Removed(b.fb)); u.infos == s.infos && AnsweredOk(u, Stop(i, a))
    ensures Closes(s, BothStops(i, j, a, b), a.crtcId, [i, j], None)
  {
    var s3 := Apply(s, Stop(j, b));
    LastStopCloses(Apply(s3, Removed(b.fb)), i, a);
    RemovalBetween(s3, i, a, b.fb, [Stop(i, a)] + ([Removed(a.fb)] + []));
    InnerStop(s, i, j, b, a.crtcId, [Removed(b.fb)] + ([Stop(i, a)] + ([Removed(a.fb)] + [])));
  }

  lemma InnerStop(s: State, i: nat, j: nat, b: Request, crtc: u32, rest: seq<Event>)
    requires s.Valid() && j < |s.fds| && i != j && AnsweredOk(s, Stop(j, b))
    requires Closes(Apply(s, Stop(j, b)), rest, crtc, [i], None)
    ensures Closes(s, [Stop(j, b)] + rest, crtc, [i, j], None)
  {
    assert [i, j][..1] == [i];
    ClosesNext(s, Stop(j, b), rest, crtc, [i, j], None);
  }

  lemma RemovalBetween(s: State, i: nat, a: Request, fb: u32, last: seq<Event>)
    requires s.Valid() && i < |s.fds| && a.Crtc? && !Uses(s.infos[i], fb)
    requires Closes(Apply(s, Removed(fb)), last, a.crtcId, [i], None)
    ensures Closes(s, [Removed(fb)] + last, a.crtcId, [i], None)
  {
    ClosesNext(s, Removed(fb), last, a.crtcId, [i], None);
  }

  lemma LastStopCloses(s: State, i: nat, a: Request)
    requires s.Valid() && i < |s.fds| && a.Crtc? && s.infos[i].fb == a.fb && AnsweredOk(s, Stop(i, a))
    ensures Closes(s, [Stop(i, a)] + ([Removed(a.fb)] + []), a.crtcId, [i], None)
  {
    var c, t := a.crtcId, Apply(s, Stop(i, a));
    assert [i][..0] == [];
    assert Closes(Apply(t, Removed(a.fb)), [], c, [], None);
    ClosesNext(t, Removed(a.fb), [], c, [], Some(a.fb));
    ClosesNext(s, Stop(i, a), [Removed(a.fb)] + [], c, [i], None);
  }

  /** Two sessions that overlap instead of nesting: the first is closed first. Everything is answered OK,
      the first client's buffer ends up on the CRTC again, and when that client ends the CRTC is off,
      whatever it showed before. */
  lemma OverlapLosesTheScreen(s: State, i: nat, j: nat, a: Request, b: Request)
    requires TwoClients(s, i, j, a, b)
    ensures var s2 := Apply(Apply(s, Start(i, a)), Start(j, b));
      AnsweredOk(s, Start(i, a)) && AnsweredOk(Apply(s, Start(i, a)), Start(j, b)) && AnsweredOk(s2, Stop(i, a))
      && AnsweredOk(Apply(s2, Stop(i, a)), Stop(j, b))
      && var t := Apply(Apply(s2, Stop(i, a)), Stop(j, b));
         a.crtcId in t.display.crtcs && Shows(t.display.crtcs[a.crtcId], a.fb)
         && Apply(Apply(t, Removed(a.fb)), Removed(b.fb)).display.crtcs[a.crtcId] == SwitchedOff(a.crtcId)
  {
    TwoOpen(s, i, j, a, b);
    var s2 := Apply(Apply(s, Start(i, a)), Start(j, b));
    StopWorks(s2, i, a);
    ClosedSession(s2, Stop(i, a));
    var s3 := Apply(s2, Stop(i, a));
    StopWorks(s3, j, b);
    ClosedSession(s3, Stop(j, b));
  }

  /** If the first client is gone before the second one's STOP is served, that STOP is answered ERROR, and
      what was on the screen before both sessions stays there: the outcome depends on the race. */
  lemma OverlapWithEarlyExit(s: State, i: nat, j: nat, a: Request, b: Request)
    requires TwoClients(s, i, j, a, b)
    ensures var s2 := Apply(Apply(s, Start(i, a)), Start(j, b));
      AnsweredOk(s2, Stop(i, a))
      && var s4 := Apply(Apply(s2, Stop(i, a)), Removed(a.fb));
         !AnsweredOk(s4, Stop(j, b)) && !Apply(s4, Stop(j, b)).crashed
         && (s.display.crtcs[a.crtcId].modeValid ==>
               var t := Apply(Apply(s4, Stop(j, b)), Removed(b.fb));
               a.crtcId in t.display.crtcs && t.display.crtcs[a.crtcId] == s.display.crtcs[a.crtcId])
  {
    TwoOpen(s, i, j, a, b);
    var s2 := Apply(Apply(s, Start(i, a)), Start(j, b));
    StopWorks(s2, i, a);
    ClosedSession(s2, Stop(i, a));
    var s4 := Apply(Apply(s2, Stop(i, a)), Removed(a.fb));
    StopWorks(s4, j, b);
    CrtcStopDisplay(s4, j, b.magic, ALL_WORK);
    ReplyTellsTheOutcome(s4, j, CrtcStop(b.magic), ALL_WORK);
  }
}
