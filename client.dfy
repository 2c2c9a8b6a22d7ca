/** The TCPClip client: `query` with its busy check, `exit`, the Y4M colour-space
    and header text of `to_stdout`, and the loop that streams the frames.

    The server is represented by the answers it gives, one per query, in order;
    standard output by the list of writes made to it. */
module Client {
  import opened Wire
  import opened Util
  import opened Clips
  import opened Prefetch
  import opened Server

  // ---------------------------------------------------------------------------
  // Decimal text, as an f-string prints an int

  function DigitChar(d: int): char
    requires 0 <= d < 10
  {
    ('0' as int + d) as char
  }

  predicate IsDigit(c: char)
  {
    '0' <= c <= '9'
  }

  function NatToString(n: nat): (s: string)
    ensures |s| >= 1
    ensures forall i :: 0 <= i < |s| ==> IsDigit(s[i])
    decreases n
  {
    if n < 10 then [DigitChar(n)] else NatToString(n / 10) + [DigitChar(n % 10)]
  }

  function IntToString(n: int): (s: string)
    ensures |s| >= 1
    ensures forall i :: 0 <= i < |s| ==> IsDigit(s[i]) || (i == 0 && s[i] == '-')
  {
    if n < 0 then "-" + NatToString(-n) else NatToString(n)
  }

  /** The value of a string of decimal digits. */
  function ParseNat(s: string): int
    requires forall i :: 0 <= i < |s| ==> IsDigit(s[i])
  {
    if |s| == 0 then 0 else ParseNat(s[..|s| - 1]) * 10 + (s[|s| - 1] as int - '0' as int)
  }

  /** Printing a natural number is reversible: its digits read back as the number. */
  lemma {:induction false} NatToStringRoundTrip(n: nat)
    ensures ParseNat(NatToString(n)) == n
    decreases n
  {
    if n >= 10 {
      var s := NatToString(n);
      NatToStringRoundTrip(n / 10);
      assert s[..|s| - 1] == NatToString(n / 10);
    }
  }

  // ---------------------------------------------------------------------------
  // The Y4M colour space (`get_y4m_csp`)

  function Pow2(k: nat): (p: nat)
    ensures p >= 1
  {
    if k == 0 then 1 else 2 * Pow2(k - 1)
  }

  /** One halving step of `Shr`: bounds on `x / 2` by `p` give bounds on `x` by `2 * p`. */
  lemma HalveBounds(x: nat, h: nat, p: nat)
    requires h * p <= x / 2 < (h + 1) * p
    ensures h * (2 * p) <= x < (h + 1) * (2 * p)
  {
    var lo := h * p;
    var hi := (h + 1) * p;
    assert h * (2 * p) == 2 * lo;
    assert (h + 1) * (2 * p) == 2 * hi;
    assert 2 * (x / 2) <= x <= 2 * (x / 2) + 1;
  }

  /** `x >> k` for `k >= 0`: the largest `r` with `r * 2^k <= x`. */
  function Shr(x: nat, k: nat): (r: nat)
    ensures r * Pow2(k) <= x < (r + 1) * Pow2(k)
    ensures k >= 3 && x <= 4 ==> r == 0
    decreases k
  {
    if k == 0 then x
    else
      var h := Shr(x / 2, k - 1);
      HalveBounds(x, h, Pow2(k - 1));
      h
  }

  function Abs(x: int): nat
  {
    if x < 0 then -x else x
  }

  datatype Csp = CspText(text: string) | NegativeShift

  /** The colour-space tag of a format: `Cmono<bits>` for one plane, `C4<u><v>p<bits>`
      from the subsampling for three, `C420p8` for any other plane count; a negative
      subsampling makes the shift raise. */
  function Y4mCsp(f: Format): (r: Csp)
    ensures r.NegativeShift? <==> f.numPlanes == 3 && (f.subsamplingW < 0 || f.subsamplingH < 0)
    ensures f.numPlanes == 1 ==> r == CspText("Cmono" + IntToString(f.bitsPerSample))
    ensures f.numPlanes != 1 && f.numPlanes != 3 ==> r == CspText("C420p8")
  {
    if f.numPlanes == 3 then
      if f.subsamplingW < 0 || f.subsamplingH < 0 then NegativeShift
      else
        var w := Shr(4, f.subsamplingW);
        var h := Shr(4, f.subsamplingH);
        CspText("C4" + IntToString(w) + IntToString(Abs(4 - w - h)) + "p" + IntToString(f.bitsPerSample))
    else if f.numPlanes == 1 then CspText("Cmono" + IntToString(f.bitsPerSample))
    else CspText("C420p8")
  }

  function Planar(f: Format, sw: int, sh: int): Format
  {
    f.(numPlanes := 3, subsamplingW := sw, subsamplingH := sh)
  }

  /** The three usual chroma layouts: subsampling (1,1), (1,0) and (0,0) give 4:2:0,
      4:2:2 and 4:4:4 at the format's depth. */
  lemma CspChromaLayouts(f: Format)
    ensures Y4mCsp(Planar(f, 1, 1)) == CspText("C420p" + IntToString(f.bitsPerSample))
    ensures Y4mCsp(Planar(f, 1, 0)) == CspText("C422p" + IntToString(f.bitsPerSample))
    ensures Y4mCsp(Planar(f, 0, 0)) == CspText("C444p" + IntToString(f.bitsPerSample))
  {
    assert Shr(4, 1) == 2 && Shr(4, 0) == 4;
    assert IntToString(4) == "4" && IntToString(2) == "2" && IntToString(0) == "0";
    assert "C4" + "2" + "0" + "p" == "C420p";
    assert "C4" + "2" + "2" + "p" == "C422p";
    assert "C4" + "4" + "4" + "p" == "C444p";
  }

  /** Concrete tags: 10-bit 4:2:2 and 8-bit grey. */
  lemma CspExamples(f: Format)
    requires f.bitsPerSample == 10
    ensures Y4mCsp(Planar(f, 1, 0)) == CspText("C422p10")
    ensures Y4mCsp(f.(numPlanes := 1, bitsPerSample := 8)) == CspText("Cmono8")
  {
    CspChromaLayouts(f);
    assert IntToString(10) == "10";
    assert IntToString(8) == "8";
  }

  // ---------------------------------------------------------------------------
  // The header line

  /** `str()` of a property value. */
  function PropText(v: PropValue): string
  {
    match v
    case IntProp(k) => IntToString(k)
    case TextProp(t) => t
  }

  /** The interlacing letter: `_FieldBased` 2 is top field first, 1 bottom field
      first, anything else or no entry progressive. */
  function FieldOrder(props: Props): (c: char)
    ensures c == 't' <==> "_FieldBased" in props && props["_FieldBased"] == IntProp(2)
    ensures c == 'b' <==> "_FieldBased" in props && props["_FieldBased"] == IntProp(1)
    ensures c == 't' || c == 'b' || c == 'p'
  {
    if "_FieldBased" in props then
      match props["_FieldBased"]
      case IntProp(k) => if k == 2 then 't' else if k == 1 then 'b' else 'p'
      case TextProp(_) => 'p'
    else 'p'
  }

  /** The sample aspect ratio the header carries.  The test only looks for
      `_SARDen` (the `'_SARNum' and` part is a non-empty string, always true), so
      without `_SARDen` the ratio is `0:0`, and with `_SARDen` but no `_SARNum`
      reading `_SARNum` raises (`None`). */
  function Sar(props: Props): (r: Option<(string, string)>)
    ensures r.None? <==> "_SARDen" in props && "_SARNum" !in props
    ensures "_SARDen" !in props ==> r == Some(("0", "0"))
    ensures "_SARDen" in props && "_SARNum" in props ==>
      r == Some((PropText(props["_SARNum"]), PropText(props["_SARDen"])))
  {
    if "_SARDen" in props then
      if "_SARNum" in props then Some((PropText(props["_SARNum"]), PropText(props["_SARDen"])))
      else None
    else Some(("0", "0"))
  }

  /** A clip that carries only `_SARNum` is written with the ratio `0:0`. */
  lemma SarNumAloneIgnored(props: Props)
    requires "_SARNum" in props && "_SARDen" !in props
    ensures Sar(props) == Some(("0", "0"))
  {
  }

  /** The YUV4MPEG2 stream header written before the first frame. */
  function Y4mHeader(m: Meta, field: char, sar: (string, string), csp: string): (h: string)
    ensures |h| > 10 && h[..10] == "YUV4MPEG2 " && h[|h| - 1] == '\n'
  {
    "YUV4MPEG2 W" + IntToString(m.width) + " H" + IntToString(m.height)
      + " F" + IntToString(m.fpsNum) + ":" + IntToString(m.fpsDen)
      + " I" + [field] + " A" + sar.0 + ":" + sar.1
      + " " + csp + " XYSCSS=" + csp + " XLENGTH=" + IntToString(m.numFrames) + "\n"
  }

  /** The header of a progressive 1080p 23.976 fps 8-bit 4:2:0 clip of 100 frames. */
  lemma HeaderExample(m: Meta)
    requires m.width == 1920 && m.height == 1080 && m.fpsNum == 24000 && m.fpsDen == 1001
    requires m.numFrames == 100
    requires m.format.numPlanes == 3 && m.format.subsamplingW == 1 && m.format.subsamplingH == 1
    requires m.format.bitsPerSample == 8
    requires m.props == map[]
    ensures Sar(m.props).Some? && Y4mCsp(m.format).CspText?
    ensures Y4mHeader(m, FieldOrder(m.props), Sar(m.props).value, Y4mCsp(m.format).text)
         == "YUV4MPEG2 W1920 H1080 F24000:1001 Ip A0:0 C420p8 XYSCSS=C420p8 XLENGTH=100\n"
  {
    CspChromaLayouts(m.format);
    assert Planar(m.format, 1, 1) == m.format;
    assert IntToString(8) == "8";
    assert FieldOrder(m.props) == 'p';
    assert Sar(m.props) == Some(("0", "0"));
    assert Y4mCsp(m.format) == CspText("C420p8");
    HeaderNumbers();
    HeaderLiteral(m);
  }

  /** The geometry and timing part of the example header. */
  lemma HeaderPrefix()
    ensures "YUV4MPEG2 W" + "1920" + " H" + "1080" + " F" + "24000" + ":" + "1001" + " I" + ['p'] + " A" + "0" + ":" + "0"
         == "YUV4MPEG2 W1920 H1080 F24000:1001 Ip A0:0"
  {
    var a := "YUV4MPEG2 W" + "1920" + " H" + "1080";
    assert a == "YUV4MPEG2 W1920 H1080";
    var b := a + " F" + "24000" + ":" + "1001";
    assert b == "YUV4MPEG2 W1920 H1080 F24000:1001";
  }

  lemma HeaderLiteral(m: Meta)
    requires m.width == 1920 && m.height == 1080 && m.fpsNum == 24000 && m.fpsDen == 1001
    requires m.numFrames == 100
    requires IntToString(1920) == "1920" && IntToString(1080) == "1080"
    requires IntToString(24000) == "24000" && IntToString(1001) == "1001"
    requires IntToString(100) == "100"
    ensures Y4mHeader(m, 'p', ("0", "0"), "C420p8")
         == "YUV4MPEG2 W1920 H1080 F24000:1001 Ip A0:0 C420p8 XYSCSS=C420p8 XLENGTH=100\n"
  {
    HeaderPrefix();
    var c := "YUV4MPEG2 W1920 H1080 F24000:1001 Ip A0:0";
    var d := c + " " + "C420p8" + " XYSCSS=" + "C420p8";
    assert d == "YUV4MPEG2 W1920 H1080 F24000:1001 Ip A0:0 C420p8 XYSCSS=C420p8";
    var e := d + " XLENGTH=" + "100" + "\n";
    assert e == "YUV4MPEG2 W1920 H1080 F24000:1001 Ip A0:0 C420p8 XYSCSS=C420p8 XLENGTH=100\n";
  }

  lemma HeaderNumbers()
    ensures IntToString(1920) == "1920" && IntToString(1080) == "1080"
    ensures IntToString(24000) == "24000" && IntToString(1001) == "1001"
    ensures IntToString(100) == "100"
  {
    assert NatToString(1) == "1" && NatToString(0) == "0";
    assert NatToString(19) == "19" && NatToString(192) == "192";
    assert NatToString(10) == "10" && NatToString(108) == "108";
    assert NatToString(24) == "24" && NatToString(240) == "240" && NatToString(2400) == "2400";
    assert NatToString(100) == "100";
  }

  /** The header is one line: its only newline is the last character, whenever the
      aspect-ratio texts hold none. */
  lemma HeaderIsOneLine(m: Meta, field: char, sar: (string, string), csp: string)
    requires field != '\n' && '\n' !in sar.0 && '\n' !in sar.1 && '\n' !in csp
    ensures var h := Y4mHeader(m, field, sar, csp);
      |h| > 0 && h[|h| - 1] == '\n' && '\n' !in h[..|h| - 1]
  {
    var h := Y4mHeader(m, field, sar, csp);
    var body := h[..|h| - 1];
    assert h == body + "\n";
    assert forall i :: 0 <= i < |IntToString(m.width)| ==> IntToString(m.width)[i] != '\n';
    assert forall i :: 0 <= i < |IntToString(m.height)| ==> IntToString(m.height)[i] != '\n';
    assert forall i :: 0 <= i < |IntToString(m.fpsNum)| ==> IntToString(m.fpsNum)[i] != '\n';
    assert forall i :: 0 <= i < |IntToString(m.fpsDen)| ==> IntToString(m.fpsDen)[i] != '\n';
    assert forall i :: 0 <= i < |IntToString(m.numFrames)| ==> IntToString(m.numFrames)[i] != '\n';
  }

  // ---------------------------------------------------------------------------
  // Queries

  /** What the client receives for a query: a reply, or something `pickle.loads`
      rejects (the `None` of a closed stream included). */
  datatype Answer = Got(reply: Reply) | Garbled

  /** One write to standard output. */
  datatype Out = Text(text: string) | Data(bytes: Bytes)

  /** How the client process ends: `to_stdout` returns, `sys.exit(code)`, or an
      exception nobody catches. */
  datatype End = Done | ExitStatus(code: int) | Uncaught

  /** The client's side of the conversation: whether the socket is open, the
      answers the server still has to give, the queries sent, what was written,
      and the compression method learnt from the header. */
  datatype CState = CState(open: bool, answers: seq<Answer>, sent: seq<Query>, out: seq<Out>,
                           compression: Option<string>)

  function ActionQuery(a: Action): Query
  {
    Query(Is(a), None, None)
  }

  function FrameQuery(n: int): Query
  {
    Query(Is(FrameAction), Some(n), Some(true))
  }

  /** `query(data)`: send, receive, and return the answer; a closed socket, an
      answer that cannot be decoded or the answer `'busy'` all end the process
      with status 2 (`None`). */
  function Ask(cs: CState, q: Query): (r: (Option<Reply>, CState))
    ensures r.1.out == cs.out && r.1.open == cs.open && r.1.compression == cs.compression
    ensures !cs.open ==> r == (None, cs)
    ensures cs.open ==> r.1.sent == cs.sent + [q]
    ensures r.0.Some? <==> cs.open && |cs.answers| > 0 && cs.answers[0].Got? && cs.answers[0].reply != TextReply("busy")
    ensures r.0.Some? ==> r.0.value == cs.answers[0].reply && r.1.answers == cs.answers[1..]
  {
    if !cs.open then (None, cs)
    else
      var cs1 := cs.(sent := cs.sent + [q]);
      if |cs.answers| == 0 then (None, cs1)
      else
        var cs2 := cs1.(answers := cs.answers[1..]);
        match cs.answers[0]
        case Garbled => (None, cs2)
        case Got(reply) => if reply == TextReply("busy") then (None, cs2) else (Some(reply), cs2)
  }

  /** `exit()`: ask the server to exit, then close the socket.  The `SystemExit`
      that follows is swallowed by its own `except BaseException`, so the caller
      goes on.  When the query itself ends in `sys.exit(2)`, that exit is swallowed
      too, before the socket is closed: the socket stays open. */
  function Exit(cs: CState): (r: CState)
    ensures r.out == cs.out && r.compression == cs.compression
    ensures cs.open ==> r.sent == cs.sent + [ActionQuery(ExitAction)]
    ensures !cs.open ==> r == cs
    ensures r.open <==> cs.open && !(|cs.answers| > 0 && cs.answers[0].Got? && cs.answers[0].reply != TextReply("busy"))
  {
    var (a, cs1) := Ask(cs, ActionQuery(ExitAction));
    if a.Some? then cs1.(open := false) else cs1
  }

  /** The server's major version as `version()` reads it: the first item of the
      reply; a non-empty text gives its first character, which never equals 2. */
  function MajorOf(r: Reply): (m: Option<int>)
    ensures m == Some(Major) <==> r.VersionReply? && r.major == Major
    ensures m.None? <==> !r.VersionReply? && !(r.TextReply? && |r.text| > 0)
  {
    match r
    case VersionReply(major, _, _) => Some(major)
    case TextReply(t) => if |t| > 0 then Some(-1) else None
    case _ => None
  }

  // ---------------------------------------------------------------------------
  // Streaming frames

  function PlanesOut(planes: seq<Bytes>): (r: seq<Out>)
    ensures |r| == |planes|
    ensures forall i :: 0 <= i < |planes| ==> r[i] == Out.Data(planes[i])
  {
    if |planes| == 0 then [] else [Out.Data(planes[0])] + PlanesOut(planes[1..])
  }

  /** One frame of the stream: the `FRAME` line, then every plane in order. */
  function FrameOut(planes: seq<Bytes>): seq<Out>
  {
    [Text("FRAME\n")] + PlanesOut(planes)
  }

  /** Several frames one after another. */
  function FramesOut(frames: seq<seq<Bytes>>): seq<Out>
  {
    if |frames| == 0 then [] else FramesOut(frames[..|frames| - 1]) + FrameOut(frames[|frames| - 1])
  }

  /** The planes of a frame answer: the data itself, or the decompressed data when
      the header announced LZO; `None` when the answer is not frame data of the
      expected kind.  Whether the `FRAME` line was already written before the
      failure is the second component. */
  function FramePlanes(r: Reply, compression: Option<string>): (p: (Option<seq<Bytes>>, bool))
    ensures p.0.Some? ==> p.1
    ensures compression == Some("lzo") ==> (p.0.Some? <==> r.FrameReply? && r.payload.PipePayload? && r.payload.data.Lzo?)
    ensures compression != Some("lzo") ==> (p.0.Some? <==> r.FrameReply? && r.payload.PipePayload? && r.payload.data.Raw?)
    ensures p.0.Some? ==> p.0.value == r.payload.data.planes
  {
    if compression == Some("lzo") then
      if r.FrameReply? && r.payload.PipePayload? && r.payload.data.Lzo? then (Some(r.payload.data.planes), true)
      else (None, false)
    else if r.FrameReply? && r.payload.PipePayload? && r.payload.data.Raw? then (Some(r.payload.data.planes), true)
    else (None, true)
  }

  /** The frame loop of `to_stdout` from frame `n`: stop before frame `stopAt` (the
      `_stop` flag set by Ctrl-C, looked at before each frame) or after the last
      frame; otherwise request frame `n` and write it. */
  function Frames(cs: CState, n: int, numFrames: int, stopAt: int): (r: (CState, End))
    ensures r.0.compression == cs.compression && r.0.open == cs.open
    ensures cs.out <= r.0.out && cs.sent <= r.0.sent
    ensures !cs.open ==> r.0 == cs
    decreases numFrames - n
  {
    if n >= numFrames || n >= stopAt then (cs, Done)
    else
      var (a, cs1) := Ask(cs, FrameQuery(n));
      if a.None? then (cs1, ExitStatus(2))
      else
        var (planes, marked) := FramePlanes(a.value, cs.compression);
        var cs2 := if marked then cs1.(out := cs1.out + [Text("FRAME\n")]) else cs1;
        if planes.None? then (cs2, Uncaught)
        else Frames(cs2.(out := cs2.out + PlanesOut(planes.value)), n + 1, numFrames, stopAt)
  }

  /** `to_stdout`: check the version, read the header, then write the stream. */
  function ToStdout(cs: CState, lzoAvailable: bool, stopAt: int): (r: (CState, End))
    ensures !cs.open ==> r == (cs, ExitStatus(2))
    ensures cs.out <= r.0.out
    ensures |r.0.out| > |cs.out| ==> OpensStream(r.0.out[|cs.out|])
  {
    var (v, cs1) := Ask(cs, ActionQuery(VersionAction));
    if v.None? then (cs1, ExitStatus(2))
    else if MajorOf(v.value).None? then (cs1, Uncaught)
    else
      var cs2 := if MajorOf(v.value).value != Major then Exit(cs1) else cs1;
      var (h, cs3) := Ask(cs2, ActionQuery(HeaderAction));
      if h.None? then (cs3, ExitStatus(2))
      else if !h.value.MetaReply? then (cs3, Uncaught)
      else WriteStream(cs3, h.value.meta, lzoAvailable, stopAt)
  }

  /** The part of `to_stdout` after the header `meta` has arrived: take up LZO if
      announced, work out the aspect ratio and colour space, write the header line
      and stream the frames. */
  function WriteStream(cs: CState, meta: Meta, lzoAvailable: bool, stopAt: int): (r: (CState, End))
    ensures cs.out <= r.0.out
    ensures |r.0.out| > |cs.out| ==> OpensStream(r.0.out[|cs.out|])
  {
    if meta.compression == Some("lzo") && !lzoAvailable then (cs, Uncaught)
    else
      var cs4 := if meta.compression == Some("lzo") then cs.(compression := Some("lzo")) else cs;
      var sar := Sar(meta.props);
      if sar.None? then (cs4, Uncaught)
      else
        var cs5 := if meta.format.bitsPerSample > 16 then Exit(cs4) else cs4;
        match Y4mCsp(meta.format)
        case NegativeShift => (cs5, Uncaught)
        case CspText(csp) =>
          var header := Y4mHeader(meta, FieldOrder(meta.props), sar.value, csp);
          FramesKeepFirst(cs5, header, meta.numFrames, stopAt);
          Frames(cs5.(out := cs5.out + [Text(header)]), 0, meta.numFrames, stopAt)
  }

  /** A write that opens a YUV4MPEG2 stream. */
  predicate OpensStream(o: Out)
  {
    o.Text? && |o.text| >= 10 && o.text[..10] == "YUV4MPEG2 "
  }

  /** The frame loop only appends: a header written just before it stays first. */
  lemma FramesKeepFirst(cs: CState, header: string, numFrames: int, stopAt: int)
    requires OpensStream(Text(header))
    ensures var r := Frames(cs.(out := cs.out + [Text(header)]), 0, numFrames, stopAt);
      |r.0.out| > |cs.out| && r.0.out[|cs.out|] == Text(header)
  {
    var cs6 := cs.(out := cs.out + [Text(header)]);
    var r := Frames(cs6, 0, numFrames, stopAt);
    assert cs6.out <= r.0.out;
    assert cs6.out[|cs.out|] == Text(header);
  }

  // ---------------------------------------------------------------------------
  // Properties of the stream

  /** An answer carrying the planes of a frame in the form the header announced:
      LZO-compressed data when it announced LZO, raw data otherwise. */
  predicate Serves(a: Answer, planes: seq<Bytes>, compression: Option<string>)
  {
    && a.Got? && a.reply.FrameReply? && a.reply.payload.PipePayload?
    && a.reply.payload.data.planes == planes
    && (if compression == Some("lzo") then a.reply.payload.data.Lzo? else a.reply.payload.data.Raw?)
  }

  /** The client state after frame `n` was requested and written. */
  function Advance(cs: CState, n: int, planes: seq<Bytes>): CState
    requires |cs.answers| > 0
  {
    CState(cs.open, cs.answers[1..], cs.sent + [FrameQuery(n)], cs.out + FrameOut(planes), cs.compression)
  }

  /** A frame answered with its data is written whole, and the loop moves on. */
  lemma FramesOneStep(cs: CState, n: int, numFrames: int, stopAt: int, planes: seq<Bytes>)
    requires cs.open && |cs.answers| > 0 && Serves(cs.answers[0], planes, cs.compression)
    requires n < numFrames && n < stopAt
    ensures Frames(cs, n, numFrames, stopAt) == Frames(Advance(cs, n, planes), n + 1, numFrames, stopAt)
  {
    var (a, cs1) := Ask(cs, FrameQuery(n));
    assert a == Some(cs.answers[0].reply);
    assert FramePlanes(a.value, cs.compression) == (Some(planes), true);
    var cs2 := cs1.(out := cs1.out + [Text("FRAME\n")]);
    assert cs2.(out := cs2.out + PlanesOut(planes)) == Advance(cs, n, planes);
  }

  /** The client state after frames `n`, `n + 1`, ... with the given planes were
      requested and written. */
  function Written(cs: CState, n: int, frames: seq<seq<Bytes>>): CState
    requires |cs.answers| >= |frames|
  {
    CState(cs.open, cs.answers[|frames|..], cs.sent + FrameQueries(n, |frames|), cs.out + FramesOut(frames),
           cs.compression)
  }

  lemma WrittenAdvance(cs: CState, n: int, frames: seq<seq<Bytes>>)
    requires |frames| > 0 && |cs.answers| >= |frames|
    ensures Written(Advance(cs, n, frames[0]), n + 1, frames[1..]) == Written(cs, n, frames)
  {
    var cs3 := Advance(cs, n, frames[0]);
    FramesOutCons(frames);
    FrameQueriesCons(n, |frames|);
    assert cs3.answers[|frames[1..]|..] == cs.answers[|frames|..];
    assert (cs.out + FrameOut(frames[0])) + FramesOut(frames[1..]) == cs.out + FramesOut(frames);
    assert (cs.sent + [FrameQuery(n)]) + FrameQueries(n + 1, |frames| - 1) == cs.sent + FrameQueries(n, |frames|);
  }

  /** Whole frames only: with the socket open and each request answered with frame
      data in the announced form (decompressed first under LZO), the loop writes frames `n` up to (but not including) the first of
      `numFrames` and `stopAt`, each whole and in order, and asks for them in order. */
  lemma {:induction false} FramesWritten(cs: CState, n: int, numFrames: int, stopAt: int,
                                         frames: seq<seq<Bytes>>)
    requires cs.open
    requires var k := if numFrames < stopAt then numFrames else stopAt;
      && |frames| == (if k < n then 0 else k - n)
      && |cs.answers| >= |frames|
      && forall i :: 0 <= i < |frames| ==> Serves(cs.answers[i], frames[i], cs.compression)
    ensures Frames(cs, n, numFrames, stopAt) == (Written(cs, n, frames), Done)
    decreases numFrames - n
  {
    if n >= numFrames || n >= stopAt {
      assert |frames| == 0;
      assert cs.answers[0..] == cs.answers;
      assert Written(cs, n, frames) == cs;
    } else {
      FramesOneStep(cs, n, numFrames, stopAt, frames[0]);
      var cs3 := Advance(cs, n, frames[0]);
      forall i | 0 <= i < |frames[1..]|
        ensures Serves(cs3.answers[i], frames[1..][i], cs3.compression)
      {
        assert cs3.answers[i] == cs.answers[i + 1];
      }
      FramesWritten(cs3, n + 1, numFrames, stopAt, frames[1..]);
      WrittenAdvance(cs, n, frames);
    }
  }

  /** The frame queries `n`, `n + 1`, ... in order. */
  function FrameQueries(n: int, k: nat): (qs: seq<Query>)
    ensures |qs| == k
    ensures forall i :: 0 <= i < k ==> qs[i] == FrameQuery(n + i)
  {
    seq(k, i => FrameQuery(n + i))
  }

  lemma FrameQueriesCons(n: int, k: nat)
    requires k > 0
    ensures FrameQueries(n, k) == [FrameQuery(n)] + FrameQueries(n + 1, k - 1)
  {
    assert forall i :: 0 < i < k ==> FrameQueries(n, k)[i] == FrameQueries(n + 1, k - 1)[i - 1];
  }

  /** `FramesOut` taken from the front. */
  lemma {:induction false} FramesOutCons(frames: seq<seq<Bytes>>)
    requires |frames| > 0
    ensures FramesOut(frames) == FrameOut(frames[0]) + FramesOut(frames[1..])
    decreases |frames|
  {
    if |frames| > 1 {
      var init := frames[..|frames| - 1];
      FramesOutCons(init);
      assert init[0] == frames[0];
      assert init[1..] == frames[1..][..|frames[1..]| - 1];
    } else {
      assert frames[1..] == [];
    }
  }

  /** A version mismatch makes the client ask the server to exit; once the server
      has confirmed, the header query meets a closed socket, so nothing is written
      and the client ends with status 2 after exactly two queries. */
  lemma VersionMismatchStopsServer(cs: CState, lzoAvailable: bool, stopAt: int, major: int, minor: int, bugfix: int)
    requires cs.open && |cs.answers| >= 2 && cs.answers[0] == Got(VersionReply(major, minor, bugfix))
    requires cs.answers[1] == Got(TextReply("exit"))
    requires major != 2
    ensures var r := ToStdout(cs, lzoAvailable, stopAt);
      && r.1 == ExitStatus(2)
      && r.0.out == cs.out
      && r.0.sent == cs.sent + [ActionQuery(VersionAction), ActionQuery(ExitAction)]
      && !r.0.open
  {
  }

  /** A busy server ends the client with status 2 before anything is written. */
  lemma BusyServerExits(cs: CState, lzoAvailable: bool, stopAt: int)
    requires cs.open && |cs.answers| >= 1 && cs.answers[0] == Got(TextReply("busy"))
    ensures var r := ToStdout(cs, lzoAvailable, stopAt);
      r.1 == ExitStatus(2) && r.0.out == cs.out
  {
  }

  /** A sample depth above 16 bits still writes the header (the exit inside
      `get_y4m_csp` is swallowed) but, once the server has confirmed the exit, the
      connection is closed, so the first frame request ends the client with status 2. */
  lemma DeepSamplesWriteHeaderOnly(cs: CState, lzoAvailable: bool, stopAt: int, m: Meta)
    requires cs.open && |cs.answers| >= 3
    requires cs.answers[0] == Got(VersionReply(2, 4, 0)) && cs.answers[1] == Got(MetaReply(m))
    requires cs.answers[2] == Got(TextReply("exit"))
    requires m.compression.None? && "_SARDen" !in m.props
    requires m.format.bitsPerSample > 16 && m.format.numPlanes == 1
    requires m.numFrames > 0 && stopAt > 0
    ensures var r := ToStdout(cs, lzoAvailable, stopAt);
      && r.1 == ExitStatus(2)
      && r.0.out == cs.out + [Text(Y4mHeader(m, FieldOrder(m.props), ("0", "0"), "Cmono" + IntToString(m.format.bitsPerSample)))]
      && r.0.sent == cs.sent + [ActionQuery(VersionAction), ActionQuery(HeaderAction), ActionQuery(ExitAction)]
      && !r.0.open
  {
  }

  /** The compression the frame loop works with once the header `m` is read. */
  function Announced(cs: CState, m: Meta): Option<string>
  {
    if m.compression == Some("lzo") then Some("lzo") else cs.compression
  }

  /** The header line `to_stdout` writes for a header `m` it accepts. */
  function HeaderLine(m: Meta): string
    requires Sar(m.props).Some? && Y4mCsp(m.format).CspText?
  {
    Y4mHeader(m, FieldOrder(m.props), Sar(m.props).value, Y4mCsp(m.format).text)
  }

  /** Against a server of the same major version whose header is usable, `to_stdout`
      asks for the version and the header, writes the header line, and enters the
      frame loop at frame 0 with the announced compression. */
  lemma PreludeThenFrames(cs: CState, lzoAvailable: bool, stopAt: int, m: Meta, minor: int, bugfix: int)
    requires cs.open
    requires m.compression == Some("lzo") ==> lzoAvailable
    requires Sar(m.props).Some? && Y4mCsp(m.format).CspText?
    requires m.format.bitsPerSample <= 16
    requires |cs.answers| >= 2
    requires cs.answers[0] == Got(VersionReply(Major, minor, bugfix)) && cs.answers[1] == Got(MetaReply(m))
    ensures ToStdout(cs, lzoAvailable, stopAt)
         == Frames(CState(true, cs.answers[2..], cs.sent + [ActionQuery(VersionAction), ActionQuery(HeaderAction)],
                          cs.out + [Text(HeaderLine(m))], Announced(cs, m)),
                   0, m.numFrames, stopAt)
  {
    var (v, cs1) := Ask(cs, ActionQuery(VersionAction));
    assert v == Some(VersionReply(Major, minor, bugfix)) && MajorOf(v.value) == Some(Major);
    var (h, cs3) := Ask(cs1, ActionQuery(HeaderAction));
    assert h == Some(MetaReply(m));
    assert cs3.answers == cs.answers[2..];
    assert cs3.(compression := Announced(cs, m), out := cs3.out + [Text(HeaderLine(m))])
        == CState(true, cs.answers[2..], cs.sent + [ActionQuery(VersionAction), ActionQuery(HeaderAction)],
                  cs.out + [Text(HeaderLine(m))], Announced(cs, m));
  }

  /** The whole of `to_stdout` against a server of the same major version: the
      header line, then frames 0, 1, ... whole and in order (decompressed when the
      header announces LZO and LZO is installed), up to the clip's end or the
      interruption, whichever comes first; the queries are the version, the header
      and the frames in order. */
  lemma StreamIsHeaderThenFrames(cs: CState, lzoAvailable: bool, stopAt: int, m: Meta, frames: seq<seq<Bytes>>,
                                 minor: int, bugfix: int)
    requires cs.open
    requires m.compression == Some("lzo") ==> lzoAvailable
    requires Sar(m.props).Some? && Y4mCsp(m.format).CspText?
    requires m.format.bitsPerSample <= 16
    requires var k := if m.numFrames < stopAt then m.numFrames else stopAt;
      |frames| == (if k < 0 then 0 else k)
    requires |cs.answers| >= 2 + |frames|
    requires cs.answers[0] == Got(VersionReply(Major, minor, bugfix)) && cs.answers[1] == Got(MetaReply(m))
    requires forall i :: 0 <= i < |frames| ==> Serves(cs.answers[2 + i], frames[i], Announced(cs, m))
    ensures var r := ToStdout(cs, lzoAvailable, stopAt);
      && r.1 == Done
      && r.0.out == cs.out + [Text(HeaderLine(m))] + FramesOut(frames)
      && r.0.sent == cs.sent + [ActionQuery(VersionAction), ActionQuery(HeaderAction)] + FrameQueries(0, |frames|)
  {
    PreludeThenFrames(cs, lzoAvailable, stopAt, m, minor, bugfix);
    var cs5 := CState(true, cs.answers[2..], cs.sent + [ActionQuery(VersionAction), ActionQuery(HeaderAction)],
                      cs.out + [Text(HeaderLine(m))], Announced(cs, m));
    forall i | 0 <= i < |frames|
      ensures Serves(cs5.answers[i], frames[i], cs5.compression)
    {
      assert cs5.answers[i] == cs.answers[2 + i];
    }
    FramesWritten(cs5, 0, m.numFrames, stopAt, frames);
  }

  // ---------------------------------------------------------------------------
  // The client object

  class Client {
    var open: bool
    var answers: seq<Answer>
    var sent: seq<Query>
    var out: seq<Out>
    var compression: Option<string>
    const lzoAvailable: bool

    function State(): CState
      reads this
    {
      CState(open, answers, sent, out, compression)
    }

    /** A connected client; `answers` stands for the server at the other end. */
    constructor(answers: seq<Answer>, lzoAvailable: bool)
      ensures State() == CState(true, answers, [], [], None)
      ensures this.lzoAvailable == lzoAvailable
    {
      open := true;
      this.answers := answers;
      sent := [];
      out := [];
      compression := None;
      this.lzoAvailable := lzoAvailable;
    }

    /** `query(data)`; `None` stands for the `sys.exit(2)` it ends in. */
    method Query(q: Query) returns (r: Option<Reply>)
      modifies this
      ensures (r, State()) == Ask(old(State()), q)
    {
      if !open {
        return None;
      }
      sent := sent + [q];
      if |answers| == 0 {
        return None;
      }
      var a := answers[0];
      answers := answers[1..];
      if a.Garbled? || a.reply == TextReply("busy") {
        return None;
      }
      r := Some(a.reply);
    }

    /** `exit()`. */
    method ExitServer()
      modifies this
      ensures State() == Exit(old(State()))
    {
      var a := Query(ActionQuery(ExitAction));
      if a.Some? {
        open := false;
      }
    }

    /** The frame loop of `to_stdout`, frames `0` to `numFrames - 1` unless stopped
        before frame `stopAt`. */
    method StreamFrames(numFrames: int, stopAt: int) returns (e: End)
      modifies this
      ensures (State(), e) == Frames(old(State()), 0, numFrames, stopAt)
    {
      var n := 0;
      while n < numFrames
        invariant Frames(old(State()), 0, numFrames, stopAt) == Frames(State(), n, numFrames, stopAt)
        decreases numFrames - n
      {
        if n >= stopAt {
          return Done;
        }
        var a := Query(FrameQuery(n));
        if a.None? {
          return ExitStatus(2);
        }
        var (planes, marked) := FramePlanes(a.value, compression);
        if marked {
          out := out + [Text("FRAME\n")];
        }
        if planes.None? {
          return Uncaught;
        }
        out := out + PlanesOut(planes.value);
        n := n + 1;
      }
      e := Done;
    }

    /** `to_stdout()`. */
    method ToStdoutRun(stopAt: int) returns (e: End)
      modifies this
      ensures (State(), e) == ToStdout(old(State()), lzoAvailable, stopAt)
    {
      var v := Query(ActionQuery(VersionAction));
      if v.None? {
        return ExitStatus(2);
      }
      var major := MajorOf(v.value);
      if major.None? {
        return Uncaught;
      }
      if major.value != Major {
        ExitServer();
      }
      var h := Query(ActionQuery(HeaderAction));
      if h.None? {
        return ExitStatus(2);
      }
      if !h.value.MetaReply? {
        return Uncaught;
      }
      var meta := h.value.meta;
      if meta.compression == Some("lzo") {
        if !lzoAvailable {
          return Uncaught;
        }
        compression := Some("lzo");
      }
      var sar := Sar(meta.props);
      if sar.None? {
        return Uncaught;
      }
      if meta.format.bitsPerSample > 16 {
        ExitServer();
      }
      var csp := Y4mCsp(meta.format);
      if csp.NegativeShift? {
        return Uncaught;
      }
      out := out + [Text(Y4mHeader(meta, FieldOrder(meta.props), sar.value, csp.text))];
      e := StreamFrames(meta.numFrames, stopAt);
    }
  }
}
