/**
 The walk of `fs_notify.c` over a buffer of inotify events: each event is a 16-byte header whose last
 word is the length of the name that follows it.
 */
module EventWalk {
  import opened MachineWords

  type Byte = x: int | 0 <= x < 256

  const HEADER := 16

  /** One `struct inotify_event` with its padded name. */
  datatype Event = Event(wd: u32, mask: u32, cookie: u32, name: seq<Byte>) {
    predicate Valid() { |name| < TWO_32 }
  }

  /** A word in memory, least significant byte first. */
  function Bytes(u: u32): (b: seq<Byte>)
    ensures |b| == 4
  {
    var n: int := u;
    var n1 := n / 256;
    var n2 := n1 / 256;
    [n % 256, n1 % 256, n2 % 256, n2 / 256]
  }

  function Word(b0: int, b1: int, b2: int, b3: int): int { b0 + 256 * b1 + 65536 * b2 + 16777216 * b3 }

  function WordAt(buf: seq<Byte>, i: nat): u32
    requires i + 4 <= |buf|
  {
    Word(buf[i], buf[i + 1], buf[i + 2], buf[i + 3])
  }

  /** The first byte of a word counts once, the last 2^24 times. */
  lemma LittleEndian(buf: seq<Byte>)
    requires |buf| == 4
    ensures var b0: int, b1: int, b2: int, b3: int := buf[0], buf[1], buf[2], buf[3];
            WordAt(buf, 0) == b0 + 0x100 * b1 + 0x1_0000 * b2 + 0x100_0000 * b3
  {
  }

  lemma BytesOfWord(n: int, n1: int, n2: int)
    requires n1 == n / 256 && n2 == n1 / 256
    ensures n == Word(n % 256, n1 % 256, n2 % 256, n2 / 256)
  {
  }

  lemma WordRoundTrip(u: u32, buf: seq<Byte>, i: nat)
    requires i + 4 <= |buf| && buf[i..i + 4] == Bytes(u)
    ensures WordAt(buf, i) == u
  {
    var n: int, b := u, buf[i..i + 4];
    assert buf[i] == b[0] && buf[i + 1] == b[1] && buf[i + 2] == b[2] && buf[i + 3] == b[3];
    BytesOfWord(n, n / 256, n / 256 / 256);
  }

  /** What the kernel writes for one event. */
  function Serialise(e: Event): (b: seq<Byte>)
    requires e.Valid()
    ensures |b| == HEADER + |e.name|
  {
    Bytes(e.wd) + Bytes(e.mask) + Bytes(e.cookie) + Bytes(|e.name|) + e.name
  }

  predicate AllValid(es: seq<Event>) {
    forall e :: e in es ==> e.Valid()
  }

  function SerialiseAll(es: seq<Event>): seq<Byte>
    requires AllValid(es)
  {
    if es == [] then [] else Serialise(es[0]) + SerialiseAll(es[1..])
  }

  /** The event whose header starts at byte `i`. */
  function EventAt(buf: seq<Byte>, i: nat): Event
    requires i + HEADER <= |buf| && i + HEADER + WordAt(buf, i + 12) <= |buf|
  {
    Event(WordAt(buf, i), WordAt(buf, i + 4), WordAt(buf, i + 8), buf[i + HEADER..i + HEADER + WordAt(buf, i + 12)])
  }

  /** Bytes `i` up to `len` of the buffer hold exactly the events `es`. */
  predicate Holds(buf: seq<Byte>, i: nat, len: nat, es: seq<Event>)
    requires i <= len <= |buf| && AllValid(es)
  {
    buf[i..len] == SerialiseAll(es)
  }

  /** A stretch of a buffer that begins with `s` and goes on with `rest`, taken apart. */
  lemma Split(buf: seq<Byte>, i: nat, len: nat, s: seq<Byte>, rest: seq<Byte>)
    requires i <= len <= |buf| && buf[i..len] == s + rest
    ensures i + |s| <= len && buf[i..i + |s|] == s && buf[i + |s|..len] == rest
  {
    var b := buf[i..len];
    assert b[..|s|] == s && b[|s|..] == rest;
    assert b[..|s|] == buf[i..i + |s|];
    assert b[|s|..] == buf[i + |s|..len];
  }

  /** A serialised event at byte `i` is read back whole. */
  lemma ReadsBack(buf: seq<Byte>, i: nat, e: Event)
    requires e.Valid() && i + HEADER + |e.name| <= |buf|
    requires buf[i..i + HEADER + |e.name|] == Serialise(e)
    ensures WordAt(buf, i + 12) == |e.name| && EventAt(buf, i) == e
  {
    var wd, mask, cookie, size := Bytes(e.wd), Bytes(e.mask), Bytes(e.cookie), Bytes(|e.name|);
    var end := i + HEADER + |e.name|;
    assert wd + mask + cookie + size + e.name == wd + (mask + (cookie + (size + e.name)));
    Split(buf, i, end, wd, mask + (cookie + (size + e.name)));
    Split(buf, i + 4, end, mask, cookie + (size + e.name));
    Split(buf, i + 8, end, cookie, size + e.name);
    Split(buf, i + 12, end, size, e.name);
    WordRoundTrip(e.wd, buf, i);
    WordRoundTrip(e.mask, buf, i + 4);
    WordRoundTrip(e.cookie, buf, i + 8);
    WordRoundTrip(|e.name|, buf, i + 12);
  }

  /** Reading the header at the front of serialised events gives back the first of them and the place
      of the next. */
  lemma FirstEvent(buf: seq<Byte>, i: nat, len: nat, es: seq<Event>)
    requires i <= len <= |buf| && AllValid(es) && es != [] && Holds(buf, i, len, es)
    ensures i + HEADER <= len && WordAt(buf, i + 12) == |es[0].name| && i + HEADER + |es[0].name| <= len
    ensures EventAt(buf, i) == es[0]
    ensures Holds(buf, i + HEADER + |es[0].name|, len, es[1..])
  {
    var s := Serialise(es[0]);
    Split(buf, i, len, s, SerialiseAll(es[1..]));
    ReadsBack(buf, i, es[0]);
  }

  /** Two lists of events with the same bytes are the same list: the format is unambiguous. */
  lemma {:induction false} SerialisationIsInjective(es: seq<Event>, fs: seq<Event>)
    requires AllValid(es) && AllValid(fs) && SerialiseAll(es) == SerialiseAll(fs)
    ensures es == fs
    decreases |es|
  {
    var buf := SerialiseAll(es);
    assert buf[0..|buf|] == buf;
    if es != [] && fs != [] {
      FirstEvent(buf, 0, |buf|, es);
      FirstEvent(buf, 0, |buf|, fs);
      SerialisationIsInjective(es[1..], fs[1..]);
      assert es == [es[0]] + es[1..] && fs == [fs[0]] + fs[1..];
    }
  }

  lemma MovesOn(es: seq<Event>, visited: seq<Event>, left: seq<Event>)
    requires left != [] && AllValid(left) && es == visited + left
    ensures AllValid(left[1..]) && es == (visited + [left[0]]) + left[1..]
  {
  }

  /** The walk: for a buffer the kernel filled with `es`, it visits exactly those events in order, and
      stops with `i` at the end of the data and `j` at their number. What lies behind the data in the
      buffer does not matter. */
  method Walk(events: array<Byte>, len: nat, ghost es: seq<Event>) returns (visited: seq<Event>, i: nat, j: nat)
    requires len <= events.Length && AllValid(es) && Holds(events[..], 0, len, es)
    ensures visited == es && i == len && j == |es|
  {
    i, j, visited := 0, 0, [];
    ghost var left := es;
    while i < len
      invariant i <= len && j == |visited|
      invariant AllValid(left) && es == visited + left && Holds(events[..], i, len, left)
      decreases len - i
    {
      assert left != [];
      FirstEvent(events[..], i, len, left);
      MovesOn(es, visited, left);
      var event := EventAt(events[..], i);
      i := i + HEADER + |event.name|;
      j := j + 1;
      visited := visited + [event];
      left := left[1..];
    }
    assert left == [] by {
      if left != [] { FirstEvent(events[..], i, len, left); }
    }
  }
}
