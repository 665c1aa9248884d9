/**
 The two double-buffered video sinks (`drmsink.c`, `drmplanesink.c`): `render` copies a frame, row by
 row, into the buffer that is not on the screen and then asks the kernel to scan that buffer out.
 They differ in what is allocated and in the call that flips; the copy and the bookkeeping are one.
 */
module VideoSink {
  import opened Wrappers

  type Byte = x: int | 0 <= x < 256

  // ----- images in strided buffers -----

  /** All rows below `h` lie inside the buffer. */
  predicate Holds(size: nat, stride: nat, n: nat, h: nat) {
    n <= stride && h * stride <= size
  }

  /** Position of byte `j` of row `s`. */
  function At(stride: nat, s: nat, j: nat): nat {
    s * stride + j
  }

  lemma RowFits(size: nat, stride: nat, n: nat, h: nat, s: nat)
    requires Holds(size, stride, n, h) && s < h
    ensures At(stride, s, n) <= At(stride, s, stride) <= size
  {
    assert (s + 1) * stride <= h * stride;
  }

  /** The first `m` bytes of row `s` of a buffer whose rows start `stride` bytes apart. */
  function Row(buf: seq<Byte>, stride: nat, h: nat, m: nat, s: nat): seq<Byte>
    requires Holds(|buf|, stride, m, h) && s < h
  {
    RowFits(|buf|, stride, m, h, s);
    buf[At(stride, s, 0)..At(stride, s, m)]
  }

  /** The first `rows` rows of the buffer are those of the packed picture `src`. */
  predicate ShowsRows(buf: seq<Byte>, src: seq<Byte>, stride: nat, n: nat, h: nat, rows: nat)
    requires Holds(|buf|, stride, n, h) && Holds(|src|, n, n, h) && rows <= h
  {
    forall s: nat :: s < rows ==> Row(buf, stride, h, n, s) == Row(src, n, h, n, s)
  }

  /** That is, byte `j` of row `s` of the picture is byte `s * stride + j` of the buffer. */
  lemma ShowsRowsBytewise(buf: seq<Byte>, src: seq<Byte>, stride: nat, n: nat, h: nat, s: nat, j: nat)
    requires Holds(|buf|, stride, n, h) && Holds(|src|, n, n, h) && ShowsRows(buf, src, stride, n, h, h)
    requires s < h && j < n
    ensures s * stride + j < |buf| && s * n + j < |src| && buf[s * stride + j] == src[s * n + j]
  {
    RowFits(|buf|, stride, n, h, s);
    RowFits(|src|, n, n, h, s);
    assert Row(buf, stride, h, n, s)[j] == Row(src, n, h, n, s)[j];
  }

  /** Byte `p` of a buffer belongs to the picture. */
  ghost predicate InPicture(p: nat, stride: nat, n: nat, h: nat) {
    exists s: nat, j: nat :: s < h && j < n && p == At(stride, s, j)
  }

  /** Only bytes of the picture differ. */
  ghost predicate PaddingKept(a: seq<Byte>, b: seq<Byte>, stride: nat, n: nat, h: nat) {
    |a| == |b| && forall p: nat :: p < |a| && !InPicture(p, stride, n, h) ==> a[p] == b[p]
  }

  /** Writing inside one row leaves the rows before it alone. */
  lemma EarlierRowStays(buf: seq<Byte>, dst: seq<Byte>, stride: nat, n: nat, h: nat, s: nat, k: nat)
    requires |dst| == |buf| && Holds(|buf|, stride, n, h) && k < s < h
    requires forall p :: 0 <= p < At(stride, s, 0) ==> dst[p] == buf[p]
    ensures Row(dst, stride, h, n, k) == Row(buf, stride, h, n, k)
  {
    RowFits(At(stride, s, 0), stride, n, s, k);
    SameSlice(buf, dst, At(stride, k, 0), At(stride, k, n), At(stride, s, 0));
  }

  lemma SameSlice(a: seq<Byte>, b: seq<Byte>, from: nat, to: nat, bound: nat)
    requires from <= to <= bound <= |a| == |b| && forall p :: 0 <= p < bound ==> b[p] == a[p]
    ensures b[from..to] == a[from..to]
  {
  }

  // ----- the sink as a state machine, one byte at a time -----

  /** A copy in progress: the frame, and the position `memcpy` has reached. */
  datatype Copy = Copy(src: seq<Byte>, row: nat, byte: nat)

  /** What the sink's CRTC or plane shows: nothing, one of the sink's two buffers, or what somebody else
      has put there (framebuffer, position and mode). */
  datatype Screen = Off | Theirs(picture: nat) | Ours(k: nat)

  /** `shown` is the last frame whose render succeeded, `saved` what the CRTC showed at the setup (a plane
      is not asked). `stop` ends the session and unmaps the buffers. */
  datatype State = State(
    width: nat, height: nat, strides: seq<nat>, frames: seq<seq<Byte>>, current: nat, screen: Screen,
    saved: Option<Screen>, copying: Option<Copy>, shown: Option<seq<Byte>>, stopped: bool)
  {
    function RowBytes(): nat { 4 * width }

    predicate Valid() {
      && |strides| == 2 && |frames| == 2 && current < 2
      && Holds(|frames[0]|, strides[0], RowBytes(), height)
      && Holds(|frames[1]|, strides[1], RowBytes(), height)
      && (copying.Some? ==> Holds(|copying.value.src|, RowBytes(), RowBytes(), height))
      && (copying.Some? ==> copying.value.row <= height && copying.value.byte <= RowBytes())
      && (shown.Some? ==> Holds(|shown.value|, RowBytes(), RowBytes(), height))
      && (screen.Ours? ==> screen.k < 2)
    }
  }

  datatype Step = Begin(src: seq<Byte>) | CopyByte | NextRow | Flip(ok: bool) | Stop(works: bool)

  predicate Enabled(s: State, step: Step) {
    s.Valid() && !s.stopped &&
    match step
    case Begin(_) => s.copying.None?
    case CopyByte => s.copying.Some? && s.copying.value.row < s.height && s.copying.value.byte < s.RowBytes()
    case NextRow => s.copying.Some? && s.copying.value.row < s.height && s.copying.value.byte == s.RowBytes()
    case Flip(_) => s.copying.Some? && s.copying.value.row == s.height
    case Stop(_) => s.copying.None?
  }

  function Next(s: State, step: Step): State
    requires Enabled(s, step)
  {
    match step
    case Begin(src) =>
      // a frame that is too small is refused
      if |src| < s.height * s.RowBytes() then s
      else s.(copying := Some(Copy(src, 0, 0)))
    case CopyByte =>
      var c, i := s.copying.value, s.current;
      RowFits(|s.frames[i]|, s.strides[i], s.RowBytes(), s.height, c.row);
      RowFits(|c.src|, s.RowBytes(), s.RowBytes(), s.height, c.row);
      var dst := s.frames[i][At(s.strides[i], c.row, c.byte) := c.src[At(s.RowBytes(), c.row, c.byte)]];
      s.(frames := s.frames[i := dst], copying := Some(c.(byte := c.byte + 1)))
    case NextRow => s.(copying := Some(Copy(s.copying.value.src, s.copying.value.row + 1, 0)))
    case Flip(ok) =>
      if ok then
        s.(copying := None, screen := Ours(s.current), shown := Some(s.copying.value.src), current := 1 - s.current)
      else s.(copying := None)
    case Stop(works) => s.(screen := AfterStop(s.screen, s.saved, works), shown := None, stopped := true)
  }

  /** `stop` sets a CRTC back to what was saved, if that was on, and switches a plane off; the call may
      fail. Then it removes its framebuffers, which takes them off the screen in any case. */
  function AfterStop(screen: Screen, saved: Option<Screen>, works: bool): Screen {
    var called :=
      if !works then screen
      else match saved
        case None => Off
        case Some(Off) => screen
        case Some(before) => before;
    if called.Ours? then Off else called
  }

  predicate Run(s0: State, steps: seq<Step>, s: State)
    decreases |steps|
  {
    if steps == [] then s == s0
    else Enabled(s0, steps[0]) && Run(Next(s0, steps[0]), steps[1..], s)
  }

  /** After a successful setup: nothing rendered, the screen shows what it did. */
  predicate Init(s: State) {
    s.Valid() && s.current == 0 && !s.screen.Ours? && s.copying == None && s.shown == None && !s.stopped
    && (s.saved.Some? ==> s.saved.value == s.screen)
  }

  /** How far the copy in progress has come in the buffer it fills. */
  predicate CopyOk(s: State)
    requires s.Valid()
  {
    s.copying.Some? ==>
    var c, i, n := s.copying.value, s.current, s.RowBytes();
    && ShowsRows(s.frames[i], c.src, s.strides[i], n, s.height, c.row)
    && (c.row < s.height ==>
        Row(s.frames[i], s.strides[i], s.height, c.byte, c.row) == Row(c.src, n, s.height, c.byte, c.row))
  }

  predicate Inv(s: State) {
    && s.Valid() && CopyOk(s)
    && (s.screen.Ours? <==> s.shown.Some?)
    && (s.screen.Ours? ==> s.screen.k != s.current && OnScreen(s))
  }

  /** The buffer on the screen holds the last frame shown, every row of it. */
  predicate OnScreen(s: State)
    requires s.Valid() && s.screen.Ours? && s.shown.Some?
  {
    var k := s.screen.k;
    ShowsRows(s.frames[k], s.shown.value, s.strides[k], s.RowBytes(), s.height, s.height)
  }

  lemma InitIsInv(s: State)
    requires Init(s)
    ensures Inv(s)
  {
  }

  lemma CopyByteKeepsInv(s: State)
    requires Inv(s) && Enabled(s, CopyByte)
    ensures Inv(Next(s, CopyByte))
  {
    var u := Next(s, CopyByte);
    var c, i, n, h := s.copying.value, s.current, s.RowBytes(), s.height;
    var stride, buf, dst := s.strides[i], s.frames[i], u.frames[i];
    RowFits(|buf|, stride, n, h, c.row);
    RowFits(|c.src|, n, n, h, c.row);
    forall k: nat | k < c.row ensures Row(dst, stride, h, n, k) == Row(c.src, n, h, n, k) {
      EarlierRowStays(buf, dst, stride, n, h, c.row, k);
    }
    var p, q := At(stride, c.row, c.byte), At(n, c.row, c.byte);
    assert Row(dst, stride, h, c.byte + 1, c.row) == Row(buf, stride, h, c.byte, c.row) + [dst[p]];
    assert Row(c.src, n, h, c.byte + 1, c.row) == Row(c.src, n, h, c.byte, c.row) + [c.src[q]];
  }

  lemma BeginKeepsInv(s: State, src: seq<Byte>)
    requires Inv(s) && Enabled(s, Begin(src))
    ensures Inv(Next(s, Begin(src)))
  {
  }

  lemma NextRowKeepsInv(s: State)
    requires Inv(s) && Enabled(s, NextRow)
    ensures Inv(Next(s, NextRow))
  {
    var c, i, n, h := s.copying.value, s.current, s.RowBytes(), s.height;
    var stride, buf := s.strides[i], s.frames[i];
    assert ShowsRows(buf, c.src, stride, n, h, c.row + 1);
    if c.row + 1 < h {
      EmptyRow(buf, stride, h, c.row + 1);
      EmptyRow(c.src, n, h, c.row + 1);
    }
  }

  lemma EmptyRow(buf: seq<Byte>, stride: nat, h: nat, s: nat)
    requires Holds(|buf|, stride, 0, h) && s < h
    ensures Row(buf, stride, h, 0, s) == []
  {
  }

  lemma FlipKeepsInv(s: State, ok: bool)
    requires Inv(s) && Enabled(s, Flip(ok))
    ensures Inv(Next(s, Flip(ok)))
  {
  }

  lemma StepKeepsInv(s: State, step: Step)
    requires Inv(s) && Enabled(s, step)
    ensures Inv(Next(s, step))
  {
    match step {
      case CopyByte => CopyByteKeepsInv(s);
      case Begin(src) => BeginKeepsInv(s, src);
      case NextRow => NextRowKeepsInv(s);
      case Flip(ok) => FlipKeepsInv(s, ok);
      case Stop(_) =>
    }
  }

  lemma {:induction false} RunKeepsInv(s0: State, steps: seq<Step>, s: State)
    requires Inv(s0) && Run(s0, steps, s)
    ensures Inv(s)
    decreases |steps|
  {
    if steps != [] {
      StepKeepsInv(s0, steps[0]);
      RunKeepsInv(Next(s0, steps[0]), steps[1..], s);
    }
  }

  /** In every run of renders, failing ones included, the buffer on the screen is never the one being
      written, and it holds the last successfully rendered frame whole, also in the middle of the
      next copy. */
  lemma ScreenHoldsLastFrame(s0: State, steps: seq<Step>, s: State)
    requires Init(s0) && Run(s0, steps, s)
    ensures s.Valid() && (s.screen.Ours? <==> s.shown.Some?)
    ensures s.screen.Ours? ==> s.screen.k != s.current && OnScreen(s)
  {
    RunKeepsInv(s0, steps, s);
  }

  /** Until it stops, the sink puts nothing on the screen but its own buffers. */
  lemma {:induction false} ScreenIsOursOrAsBefore(s0: State, steps: seq<Step>, s: State, before: Screen)
    requires (s0.screen.Ours? || s0.screen == before) && Run(s0, steps, s) && !s.stopped
    ensures (s.screen.Ours? || s.screen == before) && s.saved == s0.saved
    decreases |steps|
  {
    if steps != [] {
      if steps[0].Stop? {
        assert Next(s0, steps[0]).stopped;
        StoppedForGood(Next(s0, steps[0]), steps[1..], s);
      }
      ScreenIsOursOrAsBefore(Next(s0, steps[0]), steps[1..], s, before);
    }
  }

  lemma StoppedForGood(s0: State, steps: seq<Step>, s: State)
    requires s0.stopped && Run(s0, steps, s)
    ensures s.stopped
  {
  }

  /** What is on the screen after `stop` is what was there at the setup, exactly when that was nothing, or
      no frame has been shown and no plane switched off, or a CRTC could be set back. So whatever a plane
      showed before is gone once a frame was shown. */
  lemma StopRestores(s0: State, steps: seq<Step>, s: State, works: bool)
    requires Init(s0) && Run(s0, steps, s) && Enabled(s, Stop(works))
    ensures var after := Next(s, Stop(works)).screen;
      !after.Ours?
      && (after == s0.screen <==>
            s0.screen == Off || (if s0.saved.Some? then works || s.shown == None else !works && s.shown == None))
  {
    RunKeepsInv(s0, steps, s);
    ScreenIsOursOrAsBefore(s0, steps, s, s0.screen);
  }

  lemma OneByteInPicture(buf: seq<Byte>, stride: nat, n: nat, h: nat, s: nat, j: nat, v: Byte)
    requires Holds(|buf|, stride, n, h) && s < h && j < n && At(stride, s, j) < |buf|
    ensures PaddingKept(buf, buf[At(stride, s, j) := v], stride, n, h)
  {
    assert InPicture(At(stride, s, j), stride, n, h);
  }

  lemma StepKeepsShape(s: State, step: Step)
    requires Enabled(s, step)
    ensures var u := Next(s, step);
      u.Valid() && u.strides == s.strides && u.width == s.width && u.height == s.height
  {
    if step.CopyByte? {
      var u, c, i, n := Next(s, step), s.copying.value, s.current, s.RowBytes();
      RowFits(|s.frames[i]|, s.strides[i], n, s.height, c.row);
      RowFits(|c.src|, n, n, s.height, c.row);
      assert u.RowBytes() == n && u.copying.value.src == c.src;
      assert |u.frames[0]| == |s.frames[0]| && |u.frames[1]| == |s.frames[1]|;
    }
  }

  lemma StepKeepsPadding(s: State, step: Step, k: nat)
    requires Enabled(s, step) && k < 2
    ensures |Next(s, step).frames| == 2
    ensures PaddingKept(s.frames[k], Next(s, step).frames[k], s.strides[k], s.RowBytes(), s.height)
  {
    if step.CopyByte? && k == s.current {
      var c, buf, n := s.copying.value, s.frames[k], s.RowBytes();
      RowFits(|buf|, s.strides[k], n, s.height, c.row);
      RowFits(|c.src|, n, n, s.height, c.row);
      var v := c.src[At(n, c.row, c.byte)];
      OneByteInPicture(buf, s.strides[k], n, s.height, c.row, c.byte, v);
      assert Next(s, step).frames[k] == buf[At(s.strides[k], c.row, c.byte) := v];
    } else {
      assert Next(s, step).frames[k] == s.frames[k];
    }
  }

  /** No run ever writes a byte outside the picture: the padding of the rows and the rest of the
      buffers stay as they were allocated. */
  lemma {:induction false} PaddingStays(s0: State, steps: seq<Step>, s: State, k: nat)
    requires s0.Valid() && Run(s0, steps, s) && k < 2
    ensures s.Valid() && PaddingKept(s0.frames[k], s.frames[k], s0.strides[k], s0.RowBytes(), s0.height)
    decreases |steps|
  {
    if steps != [] {
      StepKeepsShape(s0, steps[0]);
      StepKeepsPadding(s0, steps[0], k);
      PaddingStays(Next(s0, steps[0]), steps[1..], s, k);
    }
  }

  // ----- a whole render as steps -----

  lemma {:induction false} RunAppend(s0: State, first: seq<Step>, s1: State, more: seq<Step>, s2: State)
    requires Run(s0, first, s1) && Run(s1, more, s2)
    ensures Run(s0, first + more, s2)
    decreases |first|
  {
    if first == [] {
      assert first + more == more;
    } else {
      assert (first + more)[1..] == first[1..] + more;
      RunAppend(Next(s0, first[0]), first[1..], s1, more, s2);
    }
  }

  lemma RunOne(s: State, step: Step)
    requires Enabled(s, step)
    ensures Run(s, [step], Next(s, step))
  {
  }

  /** `u` is `s` with another content of the current buffer and the copy elsewhere. */
  predicate CopyMoved(s: State, u: State) {
    && s.Valid() && u.Valid() && s.copying.Some? && u.copying.Some? && u.copying.value.src == s.copying.value.src
    && u == s.(frames := s.frames[s.current := u.frames[s.current]], copying := u.copying)
    && |u.frames[s.current]| == |s.frames[s.current]|
  }

  lemma CopyStepMoves(s: State, step: Step)
    requires Enabled(s, step) && (step.CopyByte? || step.NextRow?)
    ensures CopyMoved(s, Next(s, step))
  {
    StepKeepsShape(s, step);
    if step.CopyByte? {
      var c, i := s.copying.value, s.current;
      RowFits(|s.frames[i]|, s.strides[i], s.RowBytes(), s.height, c.row);
    } else {
      assert s.frames[s.current := s.frames[s.current]] == s.frames;
    }
  }

  /** A copy can always be brought to its end. */
  lemma {:induction false} CopyRuns(s: State) returns (steps: seq<Step>, u: State)
    requires Inv(s) && !s.stopped && s.copying.Some?
    ensures Run(s, steps, u) && Inv(u) && CopyMoved(s, u) && u.copying.value.row == s.height
    decreases s.height - s.copying.value.row, s.RowBytes() - s.copying.value.byte
  {
    if s.copying.value.row == s.height {
      steps, u := [], s;
      assert s.frames[s.current := s.frames[s.current]] == s.frames;
    } else {
      var step := if s.copying.value.byte < s.RowBytes() then CopyByte else NextRow;
      StepKeepsInv(s, step);
      CopyStepMoves(s, step);
      var rest;
      rest, u := CopyRuns(Next(s, step));
      steps := [step] + rest;
      assert steps[1..] == rest;
    }
  }

  /** The rows and the padding make up the whole buffer. */
  lemma SameRowsSameBuffer(before: seq<Byte>, a: seq<Byte>, b: seq<Byte>, src: seq<Byte>, stride: nat, n: nat, h: nat)
    requires Holds(|before|, stride, n, h) && Holds(|src|, n, n, h)
    requires PaddingKept(before, a, stride, n, h) && PaddingKept(before, b, stride, n, h)
    requires ShowsRows(a, src, stride, n, h, h) && ShowsRows(b, src, stride, n, h, h)
    ensures a == b
  {
    forall p: nat | p < |a| ensures a[p] == b[p] {
      if InPicture(p, stride, n, h) {
        var s: nat, j: nat :| s < h && j < n && p == At(stride, s, j);
        SameByte(a, b, src, stride, n, h, s, j);
      }
    }
  }

  lemma SameByte(a: seq<Byte>, b: seq<Byte>, src: seq<Byte>, stride: nat, n: nat, h: nat, s: nat, j: nat)
    requires |a| == |b| && Holds(|a|, stride, n, h) && Holds(|src|, n, n, h) && s < h && j < n
    requires ShowsRows(a, src, stride, n, h, h) && ShowsRows(b, src, stride, n, h, h)
    ensures At(stride, s, j) < |a| && a[At(stride, s, j)] == b[At(stride, s, j)]
  {
    RowFits(|a|, stride, n, h, s);
    assert Row(a, stride, h, n, s) == Row(b, stride, h, n, s);
    assert Row(a, stride, h, n, s)[j] == a[At(stride, s, j)] && Row(b, stride, h, n, s)[j] == b[At(stride, s, j)];
  }

  /** The state a render of a large enough frame leads to, when it leaves `dst` in the current buffer. */
  function AfterRender(s: State, src: seq<Byte>, dst: seq<Byte>, flips: bool): State
    requires s.Valid()
  {
    var t := s.(frames := s.frames[s.current := dst]);
    if flips then t.(screen := Ours(s.current), shown := Some(src), current := 1 - s.current) else t
  }

  /** A whole `render`: whatever buffer has the frame's rows and its old padding, the steps lead to it. */
  lemma RenderRuns(s: State, src: seq<Byte>, dst: seq<Byte>, flips: bool) returns (steps: seq<Step>)
    requires Inv(s) && !s.stopped && s.copying == None && Holds(|src|, s.RowBytes(), s.RowBytes(), s.height)
    requires PaddingKept(s.frames[s.current], dst, s.strides[s.current], s.RowBytes(), s.height)
    requires ShowsRows(dst, src, s.strides[s.current], s.RowBytes(), s.height, s.height)
    ensures Run(s, steps, AfterRender(s, src, dst, flips)) && Inv(AfterRender(s, src, dst, flips))
  {
    var s1, i := Next(s, Begin(src)), s.current;
    StepKeepsInv(s, Begin(src));
    RunOne(s, Begin(src));
    var copy, s2 := CopyRuns(s1);
    RunAppend(s, [Begin(src)], s1, copy, s2);
    PaddingStays(s1, copy, s2, i);
    SameRowsSameBuffer(s.frames[i], s2.frames[i], dst, src, s.strides[i], s.RowBytes(), s.height);
    StepKeepsInv(s2, Flip(flips));
    RunOne(s2, Flip(flips));
    assert Next(s2, Flip(flips)) == AfterRender(s, src, dst, flips);
    RunAppend(s, [Begin(src)] + copy, s2, [Flip(flips)], Next(s2, Flip(flips)));
    steps := ([Begin(src)] + copy) + [Flip(flips)];
  }

  // ----- the sink on its buffers -----

  /** `drmsink` scans out a whole CRTC in a fixed mode, `drmplanesink` a plane as large as the video. */
  datatype Target = CrtcTarget(hdisplay: nat, vdisplay: nat) | PlaneTarget

  class Sink {
    const target: Target
    var enabled: bool
    var mapped: bool                // the buffers of the last setup still exist
    var frame0: array<Byte>
    var frame1: array<Byte>
    var stride0: nat
    var stride1: nat
    var width: nat
    var height: nat
    var current: nat
    var screen: Screen
    var saved: Screen               // what the CRTC showed at the setup
    ghost var before: Screen        // what the screen showed at the setup, for a plane too
    ghost var shown: Option<seq<Byte>>

    ghost function Model(): State
      reads this, frame0, frame1
    {
      State(width, height, [stride0, stride1], [frame0[..], frame1[..]], current, screen,
            if target.CrtcTarget? then Some(saved) else None, None, shown, !mapped)
    }

    function Frame(k: nat): array<Byte>
      reads this
    {
      if k == 0 then frame0 else frame1
    }

    function Stride(k: nat): nat
      reads this
    {
      if k == 0 then stride0 else stride1
    }

    /** Two distinct buffers with room for the picture, and all that holds of the sink between steps: the
        buffer on the screen is not the current one and holds the last frame shown. */
    ghost predicate Valid()
      reads this, frame0, frame1
    {
      enabled && mapped && frame0 != frame1 && Inv(Model())
      && (screen.Ours? || screen == before) && !before.Ours? && (target.CrtcTarget? ==> saved == before)
    }

    /** A CRTC sink takes no picture larger than its mode, and needs to read what to restore. */
    predicate Accepts(w: nat, h: nat, crtcRead: bool) {
      target.CrtcTarget? ==> w <= target.hdisplay && h <= target.vdisplay && crtcRead
    }

    /** A CRTC sink allocates the whole mode, a plane sink the picture. */
    function AllocatedRows(h: nat): nat {
      if target.CrtcTarget? then target.vdisplay else h
    }

    /** An allocated buffer has at least four bytes for each pixel of a row. */
    predicate PitchOk(pitch: Option<nat>, w: nat) {
      pitch.Some? ==> pitch.value >= 4 * (if target.CrtcTarget? then target.hdisplay else w)
    }

    constructor (target: Target)
      ensures !enabled && !mapped && this.target == target
    {
      this.target := target;
      enabled, mapped, screen, saved, before, shown := false, false, Off, Off, Off, None;
      frame0, frame1 := new Byte[0](_ => 0), new Byte[0](_ => 0);
      stride0, stride1, width, height, current := 0, 0, 0, 0, 0;
    }

    /** A buffer of `rows` rows, with room for a picture of `w` by `h`. */
    method Allocate(rows: nat, stride: nat, w: nat, h: nat) returns (frame: array<Byte>)
      requires h <= rows && 4 * w <= stride
      ensures fresh(frame) && Holds(frame.Length, stride, 4 * w, h) && frame.Length == rows * stride
    {
      frame := new Byte[rows * stride](_ => 0);
      RoomForPicture(frame.Length, rows, stride, w, h);
    }

    /** The allocations, one after the other. */
    method AllocateBoth(rows: nat, w: nat, h: nat, pitch0: Option<nat>, pitch1: Option<nat>) returns (ok: bool)
      requires h <= rows && (pitch0.Some? ==> 4 * w <= pitch0.value) && (pitch1.Some? ==> 4 * w <= pitch1.value)
      modifies this`stride0, this`stride1, this`frame0, this`frame1
      ensures ok <==> pitch0.Some? && pitch1.Some?
      ensures ok ==> frame0 != frame1
      ensures ok ==> Holds(frame0.Length, stride0, 4 * w, h) && Holds(frame1.Length, stride1, 4 * w, h)
      ensures ok ==> stride0 == pitch0.value && frame0.Length == rows * stride0
      ensures ok ==> stride1 == pitch1.value && frame1.Length == rows * stride1
    {
      if pitch0.None? { return false; }
      stride0 := pitch0.value;
      frame0 := Allocate(rows, stride0, w, h);
      if pitch1.None? { return false; }
      stride1 := pitch1.value;
      frame1 := Allocate(rows, stride1, w, h);
      return true;
    }

    /** `setup`: allocates both buffers for the negotiated size, and reads what the CRTC shows; an allocation
        or the reading may fail. `now` is what the screen shows. */
    method Setup(w: nat, h: nat, pitch0: Option<nat>, pitch1: Option<nat>, now: Screen, crtcRead: bool)
        returns (ok: bool)
      requires !enabled && !now.Ours? && PitchOk(pitch0, w) && PitchOk(pitch1, w)
      modifies this
      ensures ok == enabled && screen == now
      ensures ok <==> (pitch0.Some? && pitch1.Some?
                       && (target == PlaneTarget || (w <= target.hdisplay && h <= target.vdisplay && crtcRead)))
      ensures ok ==> Valid() && Init(Model()) && width == w && height == h && before == now
      ensures ok ==> stride0 == pitch0.value && stride1 == pitch1.value
      ensures ok ==> var rows := if target == PlaneTarget then h else target.vdisplay;
        frame0.Length == rows * stride0 && frame1.Length == rows * stride1
    {
      screen := now;
      if target.CrtcTarget? && (w > target.hdisplay || h > target.vdisplay) { return false; }
      width, height := w, h;
      ok := AllocateBoth(AllocatedRows(h), w, h, pitch0, pitch1);
      if !ok || (target.CrtcTarget? && !crtcRead) { return false; }
      Enable();
      return true;
    }

    /** The end of a `setup` that succeeds. */
    method Enable()
      requires frame0 != frame1 && !screen.Ours?
      requires Holds(frame0.Length, stride0, 4 * width, height) && Holds(frame1.Length, stride1, 4 * width, height)
      modifies this`saved, this`before, this`shown, this`enabled, this`mapped, this`current
      ensures enabled && Valid() && Init(Model()) && before == screen
    {
      saved, before, shown := screen, screen, None;
      enabled, mapped, current := true, true, 0;
      InitIsInv(Model());
    }

    /** `setcaps`: sets the sink up, once. After a `stop` it still answers true, but allocates nothing: the
        sink is then not usable. */
    method SetCaps(w: nat, h: nat, pitch0: Option<nat>, pitch1: Option<nat>, now: Screen, crtcRead: bool)
        returns (ok: bool)
      requires enabled && mapped ==> Valid()
      requires !now.Ours? && PitchOk(pitch0, w) && PitchOk(pitch1, w)
      modifies this
      ensures ok == enabled
      ensures ok ==> (Valid() <==> !old(enabled) || old(mapped))
      ensures old(enabled) ==> ok && unchanged(this)
      ensures !old(enabled) ==> screen == now && (ok ==> Init(Model()) && width == w && height == h && before == now)
      ensures !old(enabled) ==> (ok <==> pitch0.Some? && pitch1.Some? && Accepts(w, h, crtcRead))
    {
      if enabled { return true; }
      ok := Setup(w, h, pitch0, pitch1, now, crtcRead);
    }

    /** `memcpy` of one row. */
    method CopyRow(dst: array<Byte>, stride: nat, src: seq<Byte>, n: nat, h: nat, s: nat)
      requires Holds(dst.Length, stride, n, h) && Holds(|src|, n, n, h) && s < h
      modifies dst
      ensures Row(dst[..], stride, h, n, s) == Row(src, n, h, n, s)
      ensures OnlyRow(old(dst[..]), dst[..], stride, n, s)
    {
      RowFits(dst.Length, stride, n, h, s);
      RowFits(|src|, n, n, h, s);
      var to, from := At(stride, s, 0), At(n, s, 0);
      for j := 0 to n
        invariant dst[to..to + j] == src[from..from + j]
        invariant forall p :: 0 <= p < dst.Length && !(to <= p < to + j) ==> dst[p] == old(dst[p])
      {
        dst[to + j] := src[from + j];
      }
      assert dst[to..to + n] == dst[..][to..to + n];
    }

    /** The row loop of `render`. */
    method CopyFrame(dst: array<Byte>, stride: nat, src: seq<Byte>, n: nat, h: nat)
      requires Holds(dst.Length, stride, n, h) && Holds(|src|, n, n, h)
      modifies dst
      ensures ShowsRows(dst[..], src, stride, n, h, h)
      ensures PaddingKept(old(dst[..]), dst[..], stride, n, h)
    {
      var s := 0;
      while s < h
        invariant s <= h
        invariant ShowsRows(dst[..], src, stride, n, h, s)
        invariant PaddingKept(old(dst[..]), dst[..], stride, n, h)
      {
        ghost var earlier := dst[..];
        CopyRow(dst, stride, src, n, h, s);
        RowExtends(earlier, dst[..], src, stride, n, h, s);
        RowInPicture(old(dst[..]), earlier, dst[..], stride, n, h, s);
        s := s + 1;
      }
    }

    /** Copies the frame into the current buffer and flips to it: a run of the sink's steps. The other
        buffer, the one on the screen, is not written at all. */
    method Render(src: seq<Byte>, flips: bool) returns (ok: bool, ghost steps: seq<Step>)
      requires Valid()
      modifies this`current, this`screen, this`shown, Frame(current)
      ensures Valid() && Run(old(Model()), steps, Model())
      ensures ok <==> flips && |src| >= height * (4 * width)
      ensures if ok then screen == Ours(old(current)) && current == 1 - old(current) && shown == Some(src)
              else screen == old(screen) && current == old(current) && shown == old(shown)
      ensures PaddingKept(old(Frame(current)[..]), Frame(old(current))[..], Stride(old(current)), 4 * width, height)
      ensures |src| >= height * (4 * width) ==>
        ShowsRows(Frame(old(current))[..], src, Stride(old(current)), 4 * width, height, height)
      ensures |src| < height * (4 * width) ==> Frame(old(current))[..] == old(Frame(current)[..])
    {
      ghost var s, k := Model(), current;
      var n := 4 * width;
      if |src| < height * n {
        steps := [Begin(src)];
        return false, steps;
      }
      CopyFrame(Frame(current), Stride(current), src, n, height);
      steps := RenderRuns(s, src, Frame(k)[..], flips);
      ok := flips;
      if flips { FlipTo(src); }
      assert Model() == AfterRender(s, src, Frame(k)[..], flips);
    }

    /** The kernel shows the current buffer, and the other one becomes current. */
    method FlipTo(ghost src: seq<Byte>)
      requires current < 2
      modifies this`current, this`screen, this`shown
      ensures screen == Ours(old(current)) && current == 1 - old(current) && shown == Some(src)
    {
      screen, shown := Ours(current), Some(src);
      current := 1 - current;
    }

    /** `stop`: a CRTC is set back to what was saved if that was on, a plane is switched off; then the
        framebuffers are removed and the buffers unmapped. `enabled` is left as it is. */
    method Stop(works: bool) returns (ghost steps: seq<Step>)
      requires Valid()
      modifies this`screen, this`mapped, this`shown
      ensures steps == [Step.Stop(works)] && Run(old(Model()), steps, Model())
      ensures enabled && !mapped && !screen.Ours?
      ensures screen == before <==>
        before == Off || (if target.CrtcTarget? then works || old(shown) == None else !works && old(shown) == None)
    {
      RunOne(Model(), Step.Stop(works));
      steps := [Step.Stop(works)];
      if works {
        if target.PlaneTarget? {
          screen := Off;
        } else if saved != Off {
          screen := saved;
        }
      }
      if screen.Ours? { screen := Off; }
      mapped, shown := false, None;
    }
  }

  /** Nothing but row `s` differs. */
  predicate OnlyRow(a: seq<Byte>, b: seq<Byte>, stride: nat, n: nat, s: nat) {
    |a| == |b| && forall p :: 0 <= p < |a| && !(At(stride, s, 0) <= p < At(stride, s, n)) ==> b[p] == a[p]
  }

  lemma RowExtends(a: seq<Byte>, b: seq<Byte>, src: seq<Byte>, stride: nat, n: nat, h: nat, s: nat)
    requires Holds(|a|, stride, n, h) && Holds(|src|, n, n, h) && s < h
    requires ShowsRows(a, src, stride, n, h, s) && OnlyRow(a, b, stride, n, s)
    requires Row(b, stride, h, n, s) == Row(src, n, h, n, s)
    ensures ShowsRows(b, src, stride, n, h, s + 1)
  {
    assert forall p :: 0 <= p < At(stride, s, 0) && p < |a| ==> b[p] == a[p];
    RowFits(|a|, stride, n, h, s);
    forall k: nat | k < s + 1 ensures Row(b, stride, h, n, k) == Row(src, n, h, n, k) {
      if k < s {
        EarlierRowStays(a, b, stride, n, h, s, k);
        assert Row(a, stride, h, n, k) == Row(src, n, h, n, k);
      }
    }
  }

  lemma RoomForPicture(size: nat, rows: nat, stride: nat, w: nat, h: nat)
    requires size == rows * stride && h <= rows && 4 * w <= stride
    ensures Holds(size, stride, 4 * w, h)
  {
    assert rows * stride == h * stride + (rows - h) * stride;
  }

  /** A copied row adds no byte outside the picture. */
  lemma RowInPicture(before: seq<Byte>, a: seq<Byte>, b: seq<Byte>, stride: nat, n: nat, h: nat, s: nat)
    requires PaddingKept(before, a, stride, n, h) && OnlyRow(a, b, stride, n, s) && s < h
    ensures PaddingKept(before, b, stride, n, h)
  {
    forall p: nat | p < |b| ensures InPicture(p, stride, n, h) || before[p] == b[p] {
      if At(stride, s, 0) <= p < At(stride, s, n) {
        assert p == At(stride, s, p - At(stride, s, 0));
      }
    }
  }
}
