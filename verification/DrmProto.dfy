/** The requests and responses of `drm_proto.h`, as the clients print them. */
module DrmProto {
  import opened MachineWords
  import opened Wrappers
  import opened Wire

  const DRM_SRV_MSGLEN := 1024
  const MODE_NAME_SIZE := 20
  const DRM_DISPLAY_MODE_LEN := 32

  const CMD_AUTH: u32 := 0
  const CMD_CRTC: u32 := 1
  const CMD_PLANE: u32 := 2
  const CMD_CRTC_STOP: u32 := 3
  const CMD_PLANE_STOP: u32 := 4

  const DRM_OK: u32 := 0
  const DRM_ERROR: u32 := 1

  datatype Request =
    | Auth(magic: u32)
    | Crtc(magic: u32, crtcId: u32, connId: u32, fb: u32, modeName: string)
    | Plane(magic: u32, crtcId: u32, planeId: u32, fb: u32, w: u32, h: u32, x: u32, y: u32)
    | CrtcStop(magic: u32)
    | PlaneStop(magic: u32)
  {
    function Command(): u32 {
      match this
      case Auth(_) => CMD_AUTH
      case Crtc(_, _, _, _, _) => CMD_CRTC
      case Plane(_, _, _, _, _, _, _, _) => CMD_PLANE
      case CrtcStop(_) => CMD_CRTC_STOP
      case PlaneStop(_) => CMD_PLANE_STOP
    }

    /** The numeric fields of the message, in wire order. */
    function Numbers(): (ns: seq<u32>)
      ensures |ns| >= 2 && ns[0] == magic && ns[1] == Command()
    {
      match this
      case Crtc(m, c, n, f, _) => [m, CMD_CRTC, c, n, f]
      case Plane(m, c, p, f, w, h, x, y) => [m, CMD_PLANE, c, p, f, w, h, x, y]
      case _ => [magic, Command()]
    }
  }

  /** `%d:%d:...:%d` with `n` conversions. */
  function NumberFormat(n: nat): seq<Directive>
    requires 0 < n
  {
    if n == 1 then [Decimal] else [Decimal, Literal(':')] + NumberFormat(n - 1)
  }

  const NAME_FORMAT: seq<Directive> := [Literal(':'), Word]
  const HEADER_FORMAT: seq<Directive> := NumberFormat(2)
  const CRTC_FORMAT: seq<Directive> := NumberFormat(5) + NAME_FORMAT
  const PLANE_FORMAT: seq<Directive> := NumberFormat(9)

  function Nums(ns: seq<u32>): (vs: seq<Value>)
    ensures |vs| == |ns| && forall k :: 0 <= k < |ns| ==> vs[k] == Num(ns[k])
  {
    seq(|ns|, k requires 0 <= k < |ns| => Num(ns[k]))
  }

  function NumberText(ns: seq<u32>): string
    requires ns != []
  {
    NumberFormatMatches(ns);
    Printf(NumberFormat(|ns|), Nums(ns))
  }

  /** The text a client hands to `write`. */
  function Encode(req: Request): string {
    var numbers := NumberText(req.Numbers());
    if req.Crtc? then numbers + ":" + req.modeName else numbers
  }

  /** The text of a response. */
  function Response(magic: u32, value: u32): string {
    NumberText([magic, value])
  }

  lemma {:induction false} NumberFormatMatches(ns: seq<u32>)
    requires ns != []
    ensures Matches(NumberFormat(|ns|), Nums(ns))
    ensures Unambiguous(NumberFormat(|ns|))
    ensures NumberFormat(|ns|)[|NumberFormat(|ns|)| - 1] == Decimal
  {
    var fmt := NumberFormat(|ns|);
    assert Nums(ns)[1..] == Nums(ns[1..]);
    if |ns| == 1 {
      assert fmt[1..] == [] && Nums(ns)[1..] == [];
    } else {
      NumberFormatMatches(ns[1..]);
      assert fmt[1..] == [Literal(':')] + NumberFormat(|ns| - 1);
      assert fmt[1..][1..] == NumberFormat(|ns| - 1);
      assert fmt[1..][0] == fmt[1];
    }
  }

  lemma NameTextIsPrintf(name: string)
    ensures Matches(NAME_FORMAT, [Str(name)])
    ensures Printf(NAME_FORMAT, [Str(name)]) == ":" + name
  {
    assert NAME_FORMAT[1..] == [Word] && [Word][1..] == [] && [Str(name)][1..] == [];
    assert Printf([Word], [Str(name)]) == name + Printf([], []);
    assert name + [] == name;
  }

  /** A printed CRTC message is what `snprintf("%d:%d:%d:%d:%d:%s")` produces. */
  lemma EncodeIsPrintf(req: Request)
    requires req.Crtc?
    ensures Matches(CRTC_FORMAT, Nums(req.Numbers()) + [Str(req.modeName)])
    ensures Encode(req) == Printf(CRTC_FORMAT, Nums(req.Numbers()) + [Str(req.modeName)])
  {
    var ns, name := req.Numbers(), req.modeName;
    NumberFormatMatches(ns);
    NameTextIsPrintf(name);
    PrintfPrefix(NumberFormat(5), NAME_FORMAT, Nums(ns), [Str(name)]);
    assert Encode(req) == NumberText(ns) + (":" + name);
  }

  lemma ScanNumbers(ns: seq<u32>, more: seq<Directive>, tail: string)
    requires ns != []
    requires tail == [] || !IsDigit(tail[0])
    ensures Scanf(NumberFormat(|ns|) + more, NumberText(ns) + tail) == Nums(ns) + Scanf(more, tail)
  {
    NumberFormatMatches(ns);
    ScanfThroughPrintf(NumberFormat(|ns|), Nums(ns), more, tail);
  }

  lemma NumberTextSingle(n: u32)
    ensures NumberText([n]) == PrintDecimal(n)
  {
    NumberFormatMatches([n]);
    assert NumberFormat(1) == [Decimal] && Nums([n]) == [Num(n)];
    assert [Decimal][1..] == [] && [Num(n)][1..] == [];
    assert Printf([Decimal], [Num(n)]) == PrintDecimal(n) + Printf([], []);
    assert PrintDecimal(n) + [] == PrintDecimal(n);
  }

  lemma {:induction false} NumberTextSplit(ns: seq<u32>, k: nat)
    requires 0 < k < |ns|
    ensures NumberText(ns) == NumberText(ns[..k]) + ":" + NumberText(ns[k..])
  {
    NumberTextStep(ns);
    if k == 1 {
      NumberTextSingle(ns[0]);
      assert ns[..1] == [ns[0]];
    } else {
      NumberTextSplit(ns[1..], k - 1);
      NumberTextStep(ns[..k]);
      assert ns[1..][..k - 1] == ns[..k][1..] && ns[1..][k - 1..] == ns[k..];
    }
  }

  lemma NumberTextStep(ns: seq<u32>)
    requires |ns| > 1
    ensures NumberText(ns) == PrintDecimal(ns[0]) + ":" + NumberText(ns[1..])
  {
    NumberFormatMatches(ns);
    NumberFormatMatches(ns[1..]);
    var fmt := NumberFormat(|ns|);
    assert fmt[1..][1..] == NumberFormat(|ns| - 1);
    assert Nums(ns)[1..] == Nums(ns[1..]);
    assert Printf(fmt[1..], Nums(ns[1..])) == ":" + NumberText(ns[1..]);
  }

  /** What follows `magic:command` in the text of a request. */
  function AfterHeader(req: Request): (tail: string)
    ensures tail == [] || !IsDigit(tail[0])
  {
    var ns := req.Numbers();
    (if |ns| == 2 then "" else ":" + NumberText(ns[2..])) + (if req.Crtc? then ":" + req.modeName else "")
  }

  lemma HeaderThenRest(req: Request)
    ensures Encode(req) == NumberText([req.magic, req.Command()]) + AfterHeader(req)
  {
    var ns := req.Numbers();
    assert ns[..2] == [req.magic, req.Command()];
    if |ns| > 2 {
      NumberTextSplit(ns, 2);
    } else {
      assert ns[..2] == ns;
    }
  }

  /** The server's first `sscanf("%d:%d")` finds magic and command in every request. */
  lemma HeaderRoundTrip(req: Request)
    ensures Scanf(HEADER_FORMAT, Encode(req)) == [Num(req.magic), Num(req.Command())]
  {
    var ns := [req.magic, req.Command()];
    HeaderThenRest(req);
    ScanNumbers(ns, [], AfterHeader(req));
    assert HEADER_FORMAT + [] == HEADER_FORMAT;
    assert Nums(ns) + [] == [Num(req.magic), Num(req.Command())];
  }

  /** A CRTC request gives back its numbers whatever the mode name is ... */
  lemma CrtcNumbersRoundTrip(req: Request)
    requires req.Crtc?
    ensures Scanf(CRTC_FORMAT, Encode(req)) == Nums(req.Numbers()) + Scanf([Word], req.modeName)
  {
    var tail := ":" + req.modeName;
    assert Encode(req) == NumberText(req.Numbers()) + tail;
    ScanNumbers(req.Numbers(), NAME_FORMAT, tail);
    assert NAME_FORMAT[1..] == [Word] && tail[1..] == req.modeName;
  }

  /** What the server's scan of a CRTC request stores; `None` when the name, with its closing NUL, runs
      past the end of the 20 bytes it is stored in. */
  function ScanCrtc(text: string): Option<seq<Value>> {
    var vs := Scanf(CRTC_FORMAT, text);
    if |vs| > 5 && vs[5].Str? && |vs[5].s| >= MODE_NAME_SIZE then None else Some(vs)
  }

  /** The word `%s` finds at the front of a mode name. */
  function NameRead(name: string): string {
    match ScanWord(name) case None => "" case Some(p) => p.0
  }

  lemma ScannedName(req: Request)
    requires req.Crtc?
    ensures var vs, name := Scanf(CRTC_FORMAT, Encode(req)), NameRead(req.modeName);
            vs == Nums(req.Numbers()) + if name == "" then [] else [Str(name)]
  {
    CrtcNumbersRoundTrip(req);
    assert [Word][1..] == [];
  }

  /** The scan overruns the field exactly when the name begins with a word of 20 characters or more. */
  lemma LongNamesOverrun(req: Request)
    requires req.Crtc?
    ensures ScanCrtc(Encode(req)) == None <==> |NameRead(req.modeName)| >= MODE_NAME_SIZE
    ensures CleanName(req.modeName) && |req.modeName| == MODE_NAME_SIZE ==> ScanCrtc(Encode(req)) == None
  {
    ScannedName(req);
    CleanNameIsRead(req.modeName);
  }

  lemma CleanNameIsRead(name: string)
    ensures NameRead(name) == name <==> CleanName(name) || name == ""
  {
    if CleanName(name) {
      WordRoundTrip(name, "");
      assert name + "" == name;
    }
  }

  /** ... and the name itself exactly when `%s` can read it back into its field: non-empty, free of
      white space and shorter than 20 characters. */
  lemma CrtcRoundTrip(req: Request)
    requires req.Crtc?
    ensures ScanCrtc(Encode(req)) == Some(Nums(req.Numbers()) + [Str(req.modeName)])
            <==> CleanName(req.modeName) && |req.modeName| < MODE_NAME_SIZE
  {
    ScannedName(req);
    CleanNameIsRead(req.modeName);
    var ns, name := Nums(req.Numbers()), NameRead(req.modeName);
    assert (ns + [Str(req.modeName)])[|ns|..] == [Str(req.modeName)];
    assert (ns + if name == "" then [] else [Str(name)])[|ns|..] == if name == "" then [] else [Str(name)];
  }

  /** A PLANE request gives back all nine numbers. */
  lemma PlaneRoundTrip(req: Request)
    requires req.Plane?
    ensures Scanf(PLANE_FORMAT, Encode(req)) == Nums(req.Numbers())
  {
    var ns := req.Numbers();
    ScanNumbers(ns, [], "");
    assert NumberFormat(9) + [] == PLANE_FORMAT && Encode(req) + "" == Encode(req);
  }

  lemma ResponseRoundTrip(magic: u32, value: u32)
    ensures Scanf(HEADER_FORMAT, Response(magic, value)) == [Num(magic), Num(value)]
  {
    var ns := [magic, value];
    ScanNumbers(ns, [], "");
    assert NumberText(ns) + "" == NumberText(ns) && HEADER_FORMAT + [] == HEADER_FORMAT;
    assert Nums(ns) + [] == [Num(magic), Num(value)];
  }

  lemma {:induction false} NumberTextLength(ns: seq<u32>)
    requires ns != []
    ensures |NumberText(ns)| < 12 * |ns|
    decreases |ns|
  {
    DecimalLength(ns[0]);
    if |ns| == 1 {
      NumberTextSingle(ns[0]);
      assert ns == [ns[0]];
    } else {
      NumberTextStep(ns);
      NumberTextLength(ns[1..]);
    }
  }

  /** No request is cut short by the transmit buffer. */
  lemma RequestFits(req: Request)
    requires req.Crtc? ==> |req.modeName| < DRM_DISPLAY_MODE_LEN
    ensures Snprintf(DRM_SRV_MSGLEN + 1, Encode(req)) == Encode(req)
  {
    NumberTextLength(req.Numbers());
  }

  // ----- the texts themselves -----

  lemma TwoDigits(d: nat, e: nat)
    requires 0 < d < 10 && e < 10
    ensures Digits(10 * d + e) == ['0' + d as char, '0' + e as char]
  {
    assert Digits(d) == ['0' + d as char];
  }

  lemma PrintedNumbers()
    ensures PrintDecimal(0) == "0" && PrintDecimal(7) == "7" && PrintDecimal(42) == "42"
    ensures PrintDecimal(0x1_0000_0000 - 1) == "-1" && PrintDecimal(0x1_0000_0000 - 42) == "-42"
  {
    TwoDigits(4, 2);
    assert ['-'] + Digits(1) == "-1";
    assert ['-'] + Digits(42) == "-42";
  }

  lemma TwoNumbers(a: u32, b: u32)
    ensures NumberText([a, b]) == PrintDecimal(a) + ":" + PrintDecimal(b)
  {
    NumberTextStep([a, b]);
    NumberTextSingle(b);
  }

  /** Some messages as they stand on the wire: the header of every request and response, a number that is
      negative when read with a sign, and a whole CRTC request. */
  lemma TextsOnTheWire()
    ensures Encode(Auth(7)) == "7:0" && Encode(CrtcStop(7)) == "7:3" && Encode(PlaneStop(42)) == "42:4"
    ensures Response(7, DRM_OK) == "7:0" && Response(0x1_0000_0000 - 42, DRM_ERROR) == "-42:1"
    ensures Encode(Crtc(7, 42, 7, 0, "800x600")) == "7:1:42:7:0:800x600"
  {
    PrintedNumbers();
    SmallNumbers();
    TwoNumbers(7, 0);
    TwoNumbers(7, 3);
    TwoNumbers(42, 4);
    TwoNumbers(0x1_0000_0000 - 42, 1);
    FiveNumbers();
    assert "7:1:42:7:0" + ":" + "800x600" == "7:1:42:7:0:800x600";
  }

  lemma FiveNumbers()
    ensures NumberText([7, 1, 42, 7, 0]) == "7:1:42:7:0"
  {
    PrintedNumbers();
    SmallNumbers();
    TwoNumbers(7, 0);
    NumberTextStep([7, 1, 42, 7, 0]);
    NumberTextStep([1, 42, 7, 0]);
    NumberTextStep([42, 7, 0]);
    assert "7" + ":" + ("1" + ":" + ("42" + ":" + "7:0")) == "7:1:42:7:0";
  }

  lemma SmallNumbers()
    ensures PrintDecimal(1) == "1" && PrintDecimal(3) == "3" && PrintDecimal(4) == "4"
  {
  }
}
