/**
 The frame handoff between the sink's `render` (`gles2.c`) and the GL thread's `main_loop`
 (`gles2util.c`): one shared pixel buffer, guarded only by the word `gles2_sem`, which goes
 0 (free) -> 1 (being filled) -> 2 (full) -> 3 (being uploaded) -> 0 by compare-and-swap.
 Copies and uploads move one byte at a time, in any order, and interleave freely.
 */
module FrameHandoff {

  type Byte = x: int | 0 <= x < 256
  type Frame = seq<Byte>

  const FREE := 0
  const FILLING := 1
  const FULL := 2
  const UPLOADING := 3

  /** A thread inside `render`: which call it serves and the bytes `memcpy` has still to copy. */
  datatype Producer = Outside | Copying(call: nat, left: set<nat>)

  /** The GL thread: outside `update_texture`, or with bytes still to fetch. */
  datatype Consumer = Drawing | Fetching(left: set<nat>)

  /** `calls` lists the frames passed to `render`, in the order of their compare-and-swap;
      `accepted` the calls whose compare-and-swap succeeded; `uploads` the images handed to GL. */
  datatype State = State(
    sem: int, buffer: Frame, texture: Frame, producers: seq<Producer>, consumer: Consumer,
    calls: seq<Frame>, accepted: seq<nat>, uploads: seq<Frame>)

  datatype Step =
    | Render(t: nat, frame: Frame)
    | CopyByte(t: nat, k: nat)
    | EndCopy(t: nat)
    | Poll
    | FetchByte(k: nat)
    | EndFetch

  function Indices(n: nat): (ks: set<nat>)
    ensures forall k: nat :: k in ks <==> k < n
  {
    if n == 0 then {} else Indices(n - 1) + {n - 1}
  }

  predicate Enabled(s: State, step: Step) {
    match step
    case Render(t, frame) => t < |s.producers| && s.producers[t].Outside? && |frame| == |s.buffer|
    case CopyByte(t, k) => t < |s.producers| && s.producers[t].Copying? && k in s.producers[t].left
        && k < |s.buffer| && s.producers[t].call < |s.calls| && k < |s.calls[s.producers[t].call]|
    case EndCopy(t) => t < |s.producers| && s.producers[t].Copying? && s.producers[t].left == {}
    case Poll => s.consumer.Drawing?
    case FetchByte(k) => s.consumer.Fetching? && k in s.consumer.left && k < |s.buffer| && k < |s.texture|
    case EndFetch => s.consumer.Fetching? && s.consumer.left == {}
  }

  function Next(s: State, step: Step): State
    requires Enabled(s, step)
  {
    match step
    case Render(t, frame) =>
      var called := s.(calls := s.calls + [frame]);
      if s.sem == FREE then
        called.(sem := FILLING, accepted := s.accepted + [|s.calls|],
                producers := s.producers[t := Copying(|s.calls|, Indices(|s.buffer|))])
      else called
    case CopyByte(t, k) =>
      var p := s.producers[t];
      s.(buffer := s.buffer[k := s.calls[p.call][k]], producers := s.producers[t := p.(left := p.left - {k})])
    case EndCopy(t) => s.(sem := FULL, producers := s.producers[t := Outside])
    case Poll =>
      if s.sem == FULL then s.(sem := UPLOADING, consumer := Fetching(Indices(|s.buffer|))) else s
    case FetchByte(k) =>
      s.(texture := s.texture[k := s.buffer[k]], consumer := Fetching(s.consumer.left - {k}))
    case EndFetch => s.(sem := FREE, consumer := Drawing, uploads := s.uploads + [s.texture])
  }

  /** Any number of render threads, all outside, a free buffer and nothing rendered yet. */
  predicate Init(s: State) {
    && s.sem == FREE && s.consumer == Drawing && s.calls == [] && s.accepted == [] && s.uploads == []
    && |s.texture| == |s.buffer|
    && forall t :: 0 <= t < |s.producers| ==> s.producers[t] == Outside
  }

  predicate Run(s0: State, steps: seq<Step>, s: State)
    decreases |steps|
  {
    if steps == [] then s == s0
    else Enabled(s0, steps[0]) && Run(Next(s0, steps[0]), steps[1..], s)
  }

  // ----- the invariant -----

  predicate HistoryOk(s: State) {
    && |s.texture| == |s.buffer|
    && (forall c :: 0 <= c < |s.calls| ==> |s.calls[c]| == |s.buffer|)
    && (forall j :: 0 <= j < |s.accepted| ==> s.accepted[j] < |s.calls|)
    && (forall i, j :: 0 <= i < j < |s.accepted| ==> s.accepted[i] < s.accepted[j])
    && |s.accepted| == |s.uploads| + (if s.sem == FREE then 0 else 1)
    && (forall j :: 0 <= j < |s.uploads| ==> s.uploads[j] == s.calls[s.accepted[j]])
  }

  /** The word tells who owns the buffer. */
  predicate OwnershipOk(s: State) {
    && s.sem in {FREE, FILLING, FULL, UPLOADING}
    && (s.consumer.Fetching? <==> s.sem == UPLOADING)
    && (forall t :: 0 <= t < |s.producers| && s.producers[t].Copying? ==> s.sem == FILLING)
    && (forall t, u :: 0 <= t < u < |s.producers| ==> !(s.producers[t].Copying? && s.producers[u].Copying?))
  }

  /** What the owner has copied so far is what it should be. */
  predicate ContentsOk(s: State)
    requires HistoryOk(s)
  {
    && (forall t :: 0 <= t < |s.producers| && s.producers[t].Copying? ==>
          s.accepted != [] && s.producers[t].call == s.accepted[|s.accepted| - 1])
    && (forall t, k :: 0 <= t < |s.producers| && s.producers[t].Copying? && 0 <= k < |s.buffer| ==>
          k in s.producers[t].left || s.buffer[k] == s.calls[s.producers[t].call][k])
    && (s.sem == FULL || s.sem == UPLOADING ==> s.buffer == s.calls[s.accepted[|s.accepted| - 1]])
    && (s.consumer.Fetching? ==>
          forall k :: 0 <= k < |s.buffer| && k !in s.consumer.left ==> s.texture[k] == s.buffer[k])
  }

  predicate Inv(s: State) {
    HistoryOk(s) && OwnershipOk(s) && ContentsOk(s)
  }

  lemma RenderKeepsInv(s: State, t: nat, frame: Frame)
    requires Inv(s) && Enabled(s, Render(t, frame))
    ensures Inv(Next(s, Render(t, frame)))
  {
  }

  lemma CopyByteKeepsInv(s: State, t: nat, k: nat)
    requires Inv(s) && Enabled(s, CopyByte(t, k))
    ensures Inv(Next(s, CopyByte(t, k)))
  {
  }

  lemma EndCopyKeepsInv(s: State, t: nat)
    requires Inv(s) && Enabled(s, EndCopy(t))
    ensures Inv(Next(s, EndCopy(t)))
  {
    assert s.buffer == s.calls[s.producers[t].call];
  }

  lemma ConsumerKeepsInv(s: State, step: Step)
    requires Inv(s) && Enabled(s, step) && (step.Poll? || step.FetchByte?)
    ensures Inv(Next(s, step))
  {
  }

  lemma EndFetchKeepsInv(s: State)
    requires Inv(s) && Enabled(s, EndFetch)
    ensures Inv(Next(s, EndFetch))
  {
    assert s.texture == s.buffer;
  }

  lemma StepKeepsInv(s: State, step: Step)
    requires Inv(s) && Enabled(s, step)
    ensures Inv(Next(s, step))
  {
    match step {
      case Render(t, frame) => RenderKeepsInv(s, t, frame);
      case CopyByte(t, k) => CopyByteKeepsInv(s, t, k);
      case EndCopy(t) => EndCopyKeepsInv(s, t);
      case EndFetch => EndFetchKeepsInv(s);
      case _ => ConsumerKeepsInv(s, step);
    }
  }

  lemma {:induction false} RunKeepsInv(s0: State, steps: seq<Step>, s: State)
    requires Inv(s0) && Run(s0, steps, s)
    ensures Inv(s)
    decreases |steps|
  {
    if steps != [] {
      StepKeepsInv(s0, steps[0]);
      RunKeepsInv(Next(s0, steps[0]), steps[1..], s);
    }
  }

  // ----- the guarantees -----

  /** However many threads render, at most one copies, and never while the GL thread fetches. */
  lemma CopyExcludesUpload(s0: State, steps: seq<Step>, s: State, t: nat)
    requires Init(s0) && Run(s0, steps, s)
    requires t < |s.producers| && s.producers[t].Copying?
    ensures s.consumer.Drawing?
    ensures forall u :: 0 <= u < |s.producers| && u != t ==> s.producers[u].Outside?
  {
    RunKeepsInv(s0, steps, s);
  }

  /** Every uploaded image is one whole rendered frame, and the uploaded frames are those of a
      strictly increasing sequence of render calls: no frame is torn, repeated or reordered. */
  lemma UploadsAreWholeFramesInOrder(s0: State, steps: seq<Step>, s: State)
    requires Init(s0) && Run(s0, steps, s)
    ensures |s.uploads| <= |s.accepted| <= |s.uploads| + 1
    ensures forall j :: 0 <= j < |s.uploads| ==> s.accepted[j] < |s.calls| && s.uploads[j] == s.calls[s.accepted[j]]
    ensures forall i, j :: 0 <= i < j < |s.accepted| ==> s.accepted[i] < s.accepted[j]
  {
    RunKeepsInv(s0, steps, s);
  }

  /** The steps of one whole `memcpy` in address order, from byte `k` on, and the final store. */
  function CopySteps(t: nat, k: nat, n: nat): seq<Step>
    requires k <= n
    decreases n - k
  {
    if k == n then [EndCopy(t)] else [CopyByte(t, k)] + CopySteps(t, k + 1, n)
  }

  /** Bytes `k` up to `n`. */
  function From(k: nat, n: nat): set<nat> {
    Indices(n) - Indices(k)
  }

  /** In the middle of the copy: `k` bytes are there. */
  function PartlyCopied(s: State, t: nat, frame: Frame, k: nat): State
    requires t < |s.producers| && k <= |frame| == |s.buffer|
  {
    s.(sem := FILLING, buffer := frame[..k] + s.buffer[k..], calls := s.calls + [frame],
       accepted := s.accepted + [|s.calls|],
       producers := s.producers[t := Copying(|s.calls|, From(k, |frame|))])
  }

  function Rendered(s: State, frame: Frame): State {
    s.(sem := FULL, buffer := frame, calls := s.calls + [frame], accepted := s.accepted + [|s.calls|])
  }

  lemma OneByteCopied(s: State, t: nat, frame: Frame, k: nat)
    requires t < |s.producers| && k < |frame| == |s.buffer|
    ensures var p := PartlyCopied(s, t, frame, k);
      Enabled(p, CopyByte(t, k)) && Next(p, CopyByte(t, k)) == PartlyCopied(s, t, frame, k + 1)
  {
    assert From(k, |frame|) - {k} == From(k + 1, |frame|);
    assert (frame[..k] + s.buffer[k..])[k := frame[k]] == frame[..k + 1] + s.buffer[k + 1..];
  }

  lemma CopyEnds(s: State, t: nat, frame: Frame)
    requires t < |s.producers| && s.producers[t].Outside? && |frame| == |s.buffer|
    ensures var p := PartlyCopied(s, t, frame, |frame|);
      Enabled(p, EndCopy(t)) && Next(p, EndCopy(t)) == Rendered(s, frame)
  {
    var n := |frame|;
    assert From(n, n) == {} && frame[..n] + s.buffer[n..] == frame;
    assert s.producers[t := Copying(|s.calls|, From(n, n))][t := Outside] == s.producers;
  }

  lemma {:induction false} CopyRuns(s: State, t: nat, frame: Frame, k: nat)
    requires t < |s.producers| && s.producers[t].Outside? && k <= |frame| == |s.buffer|
    ensures Run(PartlyCopied(s, t, frame, k), CopySteps(t, k, |frame|), Rendered(s, frame))
    decreases |frame| - k
  {
    var steps := CopySteps(t, k, |frame|);
    if k == |frame| {
      CopyEnds(s, t, frame);
    } else {
      OneByteCopied(s, t, frame, k);
      CopyRuns(s, t, frame, k + 1);
      assert steps[1..] == CopySteps(t, k + 1, |frame|);
    }
  }

  /** The steps of a `render` call that nobody interrupts: they can be taken in every state, and leave the
      whole frame in a buffer that was free, and nothing but the record of the call otherwise. */
  lemma RenderRuns(s: State, t: nat, frame: Frame)
    requires Enabled(s, Render(t, frame))
    ensures if s.sem == FREE then Run(s, [Render(t, frame)] + CopySteps(t, 0, |frame|), Rendered(s, frame))
            else Run(s, [Render(t, frame)], s.(calls := s.calls + [frame]))
  {
    if s.sem == FREE {
      var more := CopySteps(t, 0, |frame|);
      CopyRuns(s, t, frame, 0);
      assert frame[..0] + s.buffer[0..] == s.buffer && From(0, |frame|) == Indices(|frame|);
      assert Next(s, Render(t, frame)) == PartlyCopied(s, t, frame, 0);
      assert ([Render(t, frame)] + more)[1..] == more;
    }
  }

  /** The steps of one whole upload in address order, from byte `k` on, and the final store. */
  function FetchSteps(k: nat, n: nat): seq<Step>
    requires k <= n
    decreases n - k
  {
    if k == n then [EndFetch] else [FetchByte(k)] + FetchSteps(k + 1, n)
  }

  function PartlyFetched(s: State, k: nat): State
    requires k <= |s.texture| == |s.buffer|
  {
    s.(sem := UPLOADING, texture := s.buffer[..k] + s.texture[k..], consumer := Fetching(From(k, |s.buffer|)))
  }

  function Uploaded(s: State): State {
    s.(sem := FREE, texture := s.buffer, uploads := s.uploads + [s.buffer])
  }

  lemma OneByteFetched(s: State, k: nat)
    requires k < |s.texture| == |s.buffer|
    ensures var p := PartlyFetched(s, k);
      Enabled(p, FetchByte(k)) && Next(p, FetchByte(k)) == PartlyFetched(s, k + 1)
  {
    assert From(k, |s.buffer|) - {k} == From(k + 1, |s.buffer|);
    assert (s.buffer[..k] + s.texture[k..])[k := s.buffer[k]] == s.buffer[..k + 1] + s.texture[k + 1..];
  }

  lemma {:induction false} FetchRuns(s: State, k: nat)
    requires s.consumer.Drawing? && k <= |s.texture| == |s.buffer|
    ensures Run(PartlyFetched(s, k), FetchSteps(k, |s.buffer|), Uploaded(s))
    decreases |s.buffer| - k
  {
    var n, steps := |s.buffer|, FetchSteps(k, |s.buffer|);
    if k == n {
      assert From(n, n) == {} && s.buffer[..n] + s.texture[n..] == s.buffer;
      assert Next(PartlyFetched(s, n), EndFetch) == Uploaded(s);
    } else {
      OneByteFetched(s, k);
      FetchRuns(s, k + 1);
      assert steps[1..] == FetchSteps(k + 1, n);
    }
  }

  /** Likewise one turn of the GL loop: it uploads the buffer whole if that is full. */
  lemma UploadRuns(s: State)
    requires Enabled(s, Poll) && |s.texture| == |s.buffer|
    ensures if s.sem == FULL then Run(s, [Poll] + FetchSteps(0, |s.buffer|), Uploaded(s)) else Run(s, [Poll], s)
  {
    if s.sem == FULL {
      var more := FetchSteps(0, |s.buffer|);
      FetchRuns(s, 0);
      assert s.buffer[..0] + s.texture[0..] == s.texture && From(0, |s.buffer|) == Indices(|s.buffer|);
      assert ([Poll] + more)[1..] == more;
    }
  }

  // ----- the code on its shared variables -----

  class SharedBuffer {
    var sem: int
    var img: array<Byte>

    constructor (size: nat)
      ensures fresh(img) && img.Length == size && sem == FREE
    {
      sem := FREE;
      img := new Byte[size](_ => 0);
    }

    method CompareAndExchange(expected: int, value: int) returns (ok: bool)
      modifies this`sem
      ensures ok <==> old(sem) == expected
      ensures sem == if ok then value else old(sem)
    {
      ok := sem == expected;
      if ok { sem := value; }
    }

    /** One call of `render` that no other thread interrupts: the whole frame, or nothing. From a state `s`
        that these variables are part of, it is the run `steps` to `u`. */
    method RenderFrame(frame: Frame, ghost s: State, ghost t: nat) returns (ghost steps: seq<Step>, ghost u: State)
      requires |frame| == img.Length
      requires s.sem == sem && s.buffer == img[..] && Enabled(s, Render(t, frame))
      modifies this`sem, img
      ensures Run(s, steps, u) && u.sem == sem && u.buffer == img[..]
      ensures u.calls == s.calls + [frame] && u.producers == s.producers && u.uploads == s.uploads
      ensures if old(sem) == FREE then sem == FULL && img[..] == frame
              else sem == old(sem) && img[..] == old(img[..])
    {
      RenderRuns(s, t, frame);
      steps, u := [Render(t, frame)], s.(calls := s.calls + [frame]);
      var ok := CompareAndExchange(FREE, FILLING);
      if ok {
        for k := 0 to img.Length
          invariant sem == FILLING && img[..k] == frame[..k]
        {
          img[k] := frame[k];
        }
        assert img[..] == frame;
        sem := FULL;
        steps, u := [Render(t, frame)] + CopySteps(t, 0, |frame|), Rendered(s, frame);
      }
    }

    /** One turn of the GL loop: uploads the buffer if it is full, and frees it. */
    method UpdateTexture(texture: array<Byte>, ghost s: State)
        returns (uploaded: bool, ghost steps: seq<Step>, ghost u: State)
      requires texture.Length == img.Length && texture != img
      requires s.sem == sem && s.buffer == img[..] && s.texture == texture[..] && Enabled(s, Poll)
      modifies this`sem, texture
      ensures Run(s, steps, u) && u.sem == sem && u.buffer == img[..] && u.texture == texture[..]
      ensures u.uploads == s.uploads + if uploaded then [img[..]] else []
      ensures uploaded <==> old(sem) == FULL
      ensures if uploaded then sem == FREE && texture[..] == img[..]
              else sem == old(sem) && texture[..] == old(texture[..])
    {
      UploadRuns(s);
      steps, u := [Poll], s;
      uploaded := CompareAndExchange(FULL, UPLOADING);
      if uploaded {
        for k := 0 to img.Length
          invariant sem == UPLOADING && texture[..k] == img[..k]
        {
          texture[k] := img[k];
        }
        assert texture[..] == img[..];
        sem := FREE;
        steps, u := [Poll] + FetchSteps(0, |s.buffer|), Uploaded(s);
      }
    }
  }
}
