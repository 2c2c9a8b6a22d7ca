/** The TCPClip server: its configuration arithmetic, the admission gate of the
    accept loop, and the request dispatch of `server_loop` with the frame path of
    `get_frame`.

    A decoded request is a `Query` value (the dictionary `pickle.loads` would give);
    a reply is a `Reply` value (what `pickle.dumps` would be given). */
module Server {
  import opened Wire
  import opened Util
  import opened Clips
  import opened Prefetch

  /** `Version`: 2.4.0. */
  const Major: int := 2
  const Minor: int := 4
  const Bugfix: int := 0

  // ---------------------------------------------------------------------------
  // Configuration

  function LowerChar(c: char): char
  {
    if 'A' <= c <= 'Z' then (c as int + 32) as char else c
  }

  /** `str.lower()` on ASCII text. */
  function Lower(s: string): (r: string)
    ensures |r| == |s|
    ensures forall i :: 0 <= i < |s| ==> r[i] == LowerChar(s[i])
  {
    if |s| == 0 then [] else [LowerChar(s[0])] + Lower(s[1..])
  }

  /** Lower-casing twice is lower-casing once. */
  lemma LowerIdempotent(s: string)
    ensures Lower(Lower(s)) == Lower(s)
  {
    assert forall i :: 0 <= i < |s| ==> LowerChar(LowerChar(s[i])) == LowerChar(s[i]);
  }

  /** The compression method the server keeps: the given name in lower case, or
      none when none was given or LZO was asked for but cannot be loaded. */
  function NormalizeMethod(m: Option<string>, lzoAvailable: bool): (r: Option<string>)
    ensures r.None? <==> m.None? || (Lower(m.value) == "lzo" && !lzoAvailable)
    ensures r.Some? ==> r.value == Lower(m.value) && Lower(r.value) == r.value
  {
    match m
    case None => None
    case Some(name) =>
      LowerIdempotent(name);
      if Lower(name) == "lzo" && !lzoAvailable then None else Some(Lower(name))
  }

  /** The server settings fixed by the constructor. */
  datatype Config = Config(
    threads: int,
    compressionThreads: int,
    poolWorkers: Option<int>,
    compression: Option<string>,
    level: int)

  /** The constructor's arithmetic: `threads == 0` means the core's thread count,
      `compression_threads == 0` means half of the threads (rounded down), and a
      compression pool of at least two workers exists unless one compression
      thread is asked for. */
  function Configure(threads: int, coreThreads: int, compressionThreads: int,
                     compression: Option<string>, level: int, lzoAvailable: bool): (c: Config)
    ensures c.threads == (if threads == 0 then coreThreads else threads)
    ensures compressionThreads != 0 ==> c.compressionThreads == compressionThreads
    ensures compressionThreads == 0 ==> 2 * c.compressionThreads <= c.threads < 2 * c.compressionThreads + 2
    ensures c.poolWorkers.Some? <==> c.compressionThreads != 1
    ensures c.poolWorkers.Some? ==>
      && 2 <= c.poolWorkers.value
      && c.compressionThreads <= c.poolWorkers.value
      && (c.poolWorkers.value == 2 || c.poolWorkers.value == c.compressionThreads)
    ensures c.compression == NormalizeMethod(compression, lzoAvailable)
    ensures c.level == level
  {
    var t := if threads == 0 then coreThreads else threads;
    var ct := if compressionThreads == 0 then t / 2 else compressionThreads;
    var pool := if ct != 1 then Some(if ct < 2 then 2 else ct) else None;
    Config(t, ct, pool, NormalizeMethod(compression, lzoAvailable), level)
  }

  /** `min(limit, get_usable_cpus_count())`, or `limit` alone when the probe raises
      (`cpus` is `None`). */
  function Usable(limit: int, cpus: Option<int>): (r: int)
    ensures r <= limit
    ensures cpus.None? ==> r == limit
    ensures cpus.Some? ==> r <= cpus.value && (r == limit || r == cpus.value)
  {
    match cpus
    case None => limit
    case Some(n) => if n < limit then n else limit
  }

  // ---------------------------------------------------------------------------
  // Requests and replies

  /** The members of the `Action` enum. */
  datatype Action = VersionAction | CloseAction | ExitAction | HeaderAction | FrameAction

  /** What a query holds under its `type` key: nothing, an `Action`, or anything else. */
  datatype TypeField = NoType | Is(action: Action) | OtherType

  /** A decoded query dictionary: its `type`, `frame` and `pipe` entries. */
  datatype Query = Query(kind: TypeField, frame: Option<int>, pipe: Option<bool>)

  /** What one turn of `server_loop` reads: a decoded query, something `pickle.loads`
      rejects (including the `None` of a closed stream), or an exception raised
      inside `recv` itself. */
  datatype Incoming = Decoded(query: Query) | Undecodable | RecvFailed

  /** `recv` followed by `pickle.loads`, with the decoder given as the table of
      payloads it accepts. */
  function Classify(r: Received, decode: map<Bytes, Query>): (i: Incoming)
    ensures i.RecvFailed? <==> r.Crashed?
    ensures i.Decoded? <==> r.Message? && r.payload in decode
    ensures i.Decoded? ==> i.query == decode[r.payload]
  {
    match r
    case Message(p) => if p in decode then Decoded(decode[p]) else Undecodable
    case NoMessage => Undecodable
    case Crashed => RecvFailed
  }

  /** The dictionary `get_meta` sends. */
  datatype Meta = Meta(
    format: Format,
    width: int,
    height: int,
    numFrames: int,
    fpsNum: int,
    fpsDen: int,
    props: Props,
    compression: Option<string>)

  datatype Reply =
    | VersionReply(major: int, minor: int, bugfix: int)
    | TextReply(text: string)
    | MetaReply(meta: Meta)
    | FrameReply(payload: Payload)

  /** `get_meta`: the clip's description with the properties of frame 0; a clip
      without frames makes `get_frame(0)` raise. */
  function MetaOf(clip: Clip, cfg: Config): (r: Option<Meta>)
    ensures r.Some? <==> |clip.frames| > 0
    ensures r.Some? ==>
      && r.value.props == clip.frames[0].props
      && r.value.numFrames == |clip.frames|
      && r.value.format == clip.format
      && r.value.width == clip.width && r.value.height == clip.height
      && r.value.fpsNum == clip.fpsNum && r.value.fpsDen == clip.fpsDen
      && r.value.compression == cfg.compression
  {
    if |clip.frames| == 0 then None
    else Some(Meta(clip.format, clip.width, clip.height, |clip.frames|,
                   clip.fpsNum, clip.fpsDen, clip.frames[0].props, cfg.compression))
  }

  // ---------------------------------------------------------------------------
  // Server state and its transitions

  /** The fields `get_frame` and `server_loop` update. */
  datatype SState = SState(queue: Queue, cqueue: TaskQueue, last: int, connected: bool)

  ghost predicate StateOk(clip: Clip, st: SState)
  {
    QueueValid(clip, st.queue) && -1 <= st.last
  }

  /** A fresh server: empty maps, mark -1, nobody connected. */
  function Initial(): SState
  {
    SState(map[], map[], -1, false)
  }

  datatype Admission = Admitted | Refused(reply: Reply)

  /** One turn of the accept loop: the first client is admitted and marks the server
      connected; any other gets `'busy'` and changes nothing. */
  function Accept(st: SState): (r: (Admission, SState))
    ensures r.0.Admitted? <==> !st.connected
    ensures r.0.Admitted? ==> r.1 == st.(connected := true)
    ensures r.0.Refused? ==> r.0.reply == TextReply("busy") && r.1 == st
  {
    if !st.connected then (Admitted, st.(connected := true))
    else (Refused(TextReply("busy")), st)
  }

  /** The end of `get_frame`: a reply sent, or an exception that ends the session
      thread; either way the state reached. */
  datatype FrameOutcome = FrameSent(payload: Payload, next: SState) | FrameCrashed(next: SState)

  /** `get_frame(frame, pipe)`: prefetch, then one of three paths chosen by the
      compression settings.
      - LZO with a pool: submit the compression window, pop the task of `frame`
        (`KeyError` when there is none), and send its result; a task holding
        data without properties cannot be unpacked for a non-pipe request.
      - No compression, or one compression thread: deliver the frame as on the
        uncompressed path, compressing it in place when LZO is on.
      - Any other method with a pool: `frame_data` is never bound, so the send
        raises. */
  function FrameRequest(clip: Clip, cfg: Config, st: SState, cpus: Option<int>, frame: int, pipe: bool)
    : (r: FrameOutcome)
    requires StateOk(clip, st)
    ensures StateOk(clip, r.next) && r.next.connected == st.connected
  {
    var st1 := AfterPrefetch(clip, cfg, st, cpus, frame);
    if cfg.compression == Some("lzo") && cfg.compressionThreads != 1 then PoolPath(clip, cfg, st1, cpus, frame, pipe)
    else if cfg.compression.None? || cfg.compressionThreads == 1 then DirectPath(clip, cfg, st1, frame, pipe)
    else FrameCrashed(st1)
  }

  /** The state after the prefetch loop of `get_frame`. */
  function AfterPrefetch(clip: Clip, cfg: Config, st: SState, cpus: Option<int>, frame: int): (r: SState)
    requires StateOk(clip, st)
    ensures StateOk(clip, r) && r.cqueue == st.cqueue && r.connected == st.connected
  {
    var w := Window(Usable(cfg.threads, cpus), |clip.frames|, frame);
    var q := st.queue + FuturesFor(Dispatched(st.queue, st.last, frame, w));
    assert QueueValid(clip, q);
    SState(q, st.cqueue, PrefetchMark(st.queue, st.last, frame, w), st.connected)
  }

  /** The LZO pool path of `get_frame`, after the prefetch. */
  function PoolPath(clip: Clip, cfg: Config, st: SState, cpus: Option<int>, frame: int, pipe: bool): (r: FrameOutcome)
    requires StateOk(clip, st)
    ensures StateOk(clip, r.next) && r.next.connected == st.connected
  {
    var nf := |clip.frames|;
    var cw := Window(Usable(cfg.compressionThreads, cpus), nf, frame);
    var sub := Submitted(st.cqueue, frame, cw);
    var cq := st.cqueue + TasksFor(clip, sub, pipe, cfg.level);
    var st2 := SState(st.queue - sub, cq, CompressMark(st.queue, st.cqueue, st.last, frame, cw, nf), st.connected);
    if frame !in cq then FrameCrashed(st2)
    else
      var st3 := st2.(cqueue := cq - {frame});
      match cq[frame]
      case TaskFailed => FrameCrashed(st3)
      case Ready(p) => if pipe || p.PropsPayload? then FrameSent(p, st3) else FrameCrashed(st3)
  }

  /** The path of `get_frame` without a compression pool, after the prefetch. */
  function DirectPath(clip: Clip, cfg: Config, st: SState, frame: int, pipe: bool): (r: FrameOutcome)
    requires StateOk(clip, st)
    ensures StateOk(clip, r.next) && r.next.connected == st.connected && r.next.cqueue == st.cqueue
  {
    match Deliver(clip, st.queue, st.last, frame)
    case Unavailable => FrameCrashed(st)
    case Delivered(v, q2, m2) =>
      var data := if cfg.compression == Some("lzo") then Lzo(v.planes, cfg.level) else Raw(v.planes);
      FrameSent(Pack(data, v, pipe), SState(q2, st.cqueue, m2, st.connected))
  }

  /** How a turn of `server_loop` ends: loop again, or leave it by `return`,
      `os._exit` or an exception. */
  datatype Outcome = Continue | Returned | Exited | Raised

  /** The replies a turn sends, the state after it, and how it ends. */
  datatype Step = Step(replies: seq<Reply>, next: SState, outcome: Outcome)

  /** CLOSE: reply `'close'`, drop every frame future, release the gate; the
      compression tasks and the mark stay as they are. */
  function CloseStep(st: SState): (r: Step)
    ensures r.replies == [TextReply("close")] && r.outcome == Returned
    ensures r.next.queue == map[] && !r.next.connected
    ensures r.next.(queue := st.queue, connected := st.connected) == st
  {
    Step([TextReply("close")], SState(map[], st.cqueue, st.last, false), Returned)
  }

  /** One turn of `server_loop` on what `recv`/`pickle.loads` produced. */
  function Handle(clip: Clip, cfg: Config, st: SState, input: Incoming, cpus: Option<int>): (r: Step)
    requires StateOk(clip, st)
    ensures StateOk(clip, r.next)
    ensures r.outcome == Returned || r.outcome == Exited ==> !r.next.connected
    ensures r.outcome == Continue || r.outcome == Raised ==> r.next.connected == st.connected
    ensures r.outcome != Continue ==> |r.replies| <= 1
    ensures if input.Decoded? && input.query.kind == Is(FrameAction) && input.query.frame.Some? && input.query.pipe.Some?
            then r.next == FrameRequest(clip, cfg, st, cpus, input.query.frame.value, input.query.pipe.value).next
            else r.next.cqueue == st.cqueue
  {
    match input
    case RecvFailed => Step([], st, Raised)
    case Undecodable => CloseStep(st)
    case Decoded(q) =>
      match q.kind
      case NoType => Step([], st, Raised)
      case OtherType => Step([], st.(connected := false), Returned)
      case Is(a) =>
        match a
        case VersionAction => Step([VersionReply(Major, Minor, Bugfix)], st, Continue)
        case CloseAction => CloseStep(st)
        case ExitAction => Step([TextReply("exit")], st.(connected := false), Exited)
        case HeaderAction =>
          (match MetaOf(clip, cfg)
           case Some(m) => Step([MetaReply(m)], st, Continue)
           case None => Step([], st, Raised))
        case FrameAction =>
          if q.frame.None? || q.pipe.None? then Step([], st, Raised)
          else
            match FrameRequest(clip, cfg, st, cpus, q.frame.value, q.pipe.value)
            case FrameSent(p, n) => Step([FrameReply(p)], n, Continue)
            case FrameCrashed(n) => Step([], n, Raised)
  }

  /** `replies` sent before the turns of `s`. */
  function After(replies: seq<Reply>, s: Step): Step
  {
    Step(replies + s.replies, s.next, s.outcome)
  }

  /** A whole session of `server_loop` on the queries `inputs`; once they are used up
      the client has closed the stream, `recv` returns `None`, and that is a CLOSE. */
  function Session(clip: Clip, cfg: Config, st: SState, inputs: seq<Incoming>, cpus: Option<int>): (r: Step)
    requires StateOk(clip, st)
    ensures StateOk(clip, r.next)
    ensures r.outcome != Continue
    decreases |inputs|
  {
    var s := Handle(clip, cfg, st, if |inputs| == 0 then Undecodable else inputs[0], cpus);
    if s.outcome == Continue && |inputs| > 0 then
      After(s.replies, Session(clip, cfg, s.next, inputs[1..], cpus))
    else s
  }

  lemma AfterAfter(a: seq<Reply>, b: seq<Reply>, s: Step)
    ensures After(a, After(b, s)) == After(a + b, s)
  {
    assert a + (b + s.replies) == (a + b) + s.replies;
  }

  /** The session loop's account of the whole session: replies so far, then
      either the rest of the session from state `st`, or the outcome reached. */
  ghost predicate Accounted(clip: Clip, cfg: Config, cpus: Option<int>, whole: Step, replies: seq<Reply>,
                            st: SState, rest: seq<Incoming>, outcome: Outcome)
  {
    && StateOk(clip, st)
    && (outcome == Continue ==> whole == After(replies, Session(clip, cfg, st, rest, cpus)))
    && (outcome != Continue ==> whole == Step(replies, st, outcome))
  }

  /** One turn of the session loop keeps the loop's account of the whole session. */
  lemma LoopStep(clip: Clip, cfg: Config, cpus: Option<int>, whole: Step, replies: seq<Reply>, before: SState,
                 inputs: seq<Incoming>, i: nat, r: seq<Reply>, after: SState, o: Outcome)
    requires i <= |inputs| && Accounted(clip, cfg, cpus, whole, replies, before, inputs[i..], Continue)
    requires Step(r, after, o) == Handle(clip, cfg, before, if i < |inputs| then inputs[i] else Undecodable, cpus)
    ensures o == Continue ==> i < |inputs|
    ensures Accounted(clip, cfg, cpus, whole, replies + r, after, inputs[(if o == Continue then i + 1 else i)..], o)
  {
    var rest := inputs[i..];
    SessionUnfold(clip, cfg, before, rest, cpus);
    if o == Continue && i < |inputs| {
      assert rest[1..] == inputs[i + 1..];
      AfterAfter(replies, r, Session(clip, cfg, after, inputs[i + 1..], cpus));
    } else {
      AfterAfter(replies, r, Step([], after, o));
    }
  }

  /** The first turn of a session, and the rest. */
  lemma SessionUnfold(clip: Clip, cfg: Config, st: SState, inputs: seq<Incoming>, cpus: Option<int>)
    requires StateOk(clip, st)
    ensures var s := Handle(clip, cfg, st, if |inputs| == 0 then Undecodable else inputs[0], cpus);
      Session(clip, cfg, st, inputs, cpus)
        == if s.outcome == Continue && |inputs| > 0
           then After(s.replies, Session(clip, cfg, s.next, inputs[1..], cpus))
           else s
  {
  }

  // ---------------------------------------------------------------------------
  // Properties

  /** Whatever cannot be decoded, the `None` of a closed stream included, is
      handled exactly as a CLOSE query. */
  lemma UndecodableIsClose(clip: Clip, cfg: Config, st: SState, q: Query, cpus: Option<int>)
    requires StateOk(clip, st) && q.kind == Is(CloseAction)
    ensures Handle(clip, cfg, st, Undecodable, cpus) == Handle(clip, cfg, st, Decoded(q), cpus)
    ensures Handle(clip, cfg, st, Classify(NoMessage, map[]), cpus) == Handle(clip, cfg, st, Decoded(q), cpus)
  {
  }

  /** A stream that ends before a whole message closes the session. */
  lemma EarlyEndCloses(clip: Clip, cfg: Config, st: SState, s: Stream, decode: map<Bytes, Query>, cpus: Option<int>)
    requires StateOk(clip, st)
    requires Chunked(s)
    requires |Flatten(s)| < 4 || |Flatten(s)| < 4 + Unbe32(Flatten(s)[..4])
    ensures Handle(clip, cfg, st, Classify(RecvSpec(s).0, decode), cpus) == CloseStep(st)
  {
    RecvEndsEarly(s);
  }

  /** CLOSE replies `'close'`, empties the frame futures and releases the gate, but
      keeps the compression tasks and the mark. */
  lemma CloseKeepsCompressionState(clip: Clip, cfg: Config, st: SState, q: Query, cpus: Option<int>)
    requires StateOk(clip, st) && q.kind == Is(CloseAction)
    ensures var r := Handle(clip, cfg, st, Decoded(q), cpus);
      && r.replies == [TextReply("close")]
      && r.next.queue == map[] && !r.next.connected
      && r.next.cqueue == st.cqueue && r.next.last == st.last
      && r.outcome == Returned
  {
  }

  /** VERSION replies `(2, 4, 0)` and changes nothing. */
  lemma VersionReplies(clip: Clip, cfg: Config, st: SState, q: Query, cpus: Option<int>)
    requires StateOk(clip, st) && q.kind == Is(VersionAction)
    ensures Handle(clip, cfg, st, Decoded(q), cpus) == Step([VersionReply(2, 4, 0)], st, Continue)
  {
  }

  /** A query whose type is not an `Action` closes the session without any reply
      and leaves both maps and the mark alone. */
  lemma UnknownTypeCloses(clip: Clip, cfg: Config, st: SState, q: Query, cpus: Option<int>)
    requires StateOk(clip, st) && q.kind == OtherType
    ensures var r := Handle(clip, cfg, st, Decoded(q), cpus);
      && r.replies == [] && r.outcome == Returned && !r.next.connected
      && r.next.queue == st.queue && r.next.cqueue == st.cqueue && r.next.last == st.last
  {
  }

  /** HEADER replies with the clip's description and changes nothing; on a clip
      without frames it raises. */
  lemma HeaderReplies(clip: Clip, cfg: Config, st: SState, q: Query, cpus: Option<int>)
    requires StateOk(clip, st) && q.kind == Is(HeaderAction)
    ensures var r := Handle(clip, cfg, st, Decoded(q), cpus);
      && (|clip.frames| > 0 ==> r == Step([MetaReply(MetaOf(clip, cfg).value)], st, Continue))
      && (|clip.frames| == 0 ==> r == Step([], st, Raised))
  {
  }

  /** FRAME without a `frame` or `pipe` entry raises (`KeyError`) and changes
      nothing; with both it runs `get_frame`, whose payload is the one reply. */
  lemma FrameTurn(clip: Clip, cfg: Config, st: SState, q: Query, cpus: Option<int>)
    requires StateOk(clip, st) && q.kind == Is(FrameAction)
    ensures var r := Handle(clip, cfg, st, Decoded(q), cpus);
      && (q.frame.None? || q.pipe.None? ==> r == Step([], st, Raised))
      && (q.frame.Some? && q.pipe.Some? ==>
            var f := FrameRequest(clip, cfg, st, cpus, q.frame.value, q.pipe.value);
            r == (if f.FrameSent? then Step([FrameReply(f.payload)], f.next, Continue) else Step([], f.next, Raised)))
  {
  }

  /** EXIT replies `'exit'` and ends the server process. */
  lemma ExitEnds(clip: Clip, cfg: Config, st: SState, q: Query, cpus: Option<int>)
    requires StateOk(clip, st) && q.kind == Is(ExitAction)
    ensures var r := Handle(clip, cfg, st, Decoded(q), cpus);
      r.replies == [TextReply("exit")] && r.outcome == Exited && !r.next.connected
  {
  }

  /** A session ends by CLOSE, EXIT or an unknown type with the gate released; a
      session ended by an exception leaves the gate as it found it. */
  lemma {:induction false} SessionGate(clip: Clip, cfg: Config, st: SState, inputs: seq<Incoming>, cpus: Option<int>)
    requires StateOk(clip, st)
    ensures var r := Session(clip, cfg, st, inputs, cpus);
      && (r.outcome == Raised ==> r.next.connected == st.connected)
      && (r.outcome != Raised ==> !r.next.connected)
    decreases |inputs|
  {
    var s := Handle(clip, cfg, st, if |inputs| == 0 then Undecodable else inputs[0], cpus);
    if s.outcome == Continue && |inputs| > 0 {
      SessionGate(clip, cfg, s.next, inputs[1..], cpus);
    }
  }

  /** An admitted session that ends in an exception leaves the server marked as
      connected: every later client is refused as busy. */
  lemma CrashedSessionBlocksServer(clip: Clip, cfg: Config, st: SState, inputs: seq<Incoming>, cpus: Option<int>)
    requires StateOk(clip, st) && !st.connected
    requires Session(clip, cfg, Accept(st).1, inputs, cpus).outcome == Raised
    ensures Accept(Session(clip, cfg, Accept(st).1, inputs, cpus).next).0 == Refused(TextReply("busy"))
  {
    SessionGate(clip, cfg, Accept(st).1, inputs, cpus);
  }

  /** A session that ends normally lets the next client in. */
  lemma ClosedSessionReadmits(clip: Clip, cfg: Config, st: SState, inputs: seq<Incoming>, cpus: Option<int>)
    requires StateOk(clip, st) && !st.connected
    requires Session(clip, cfg, Accept(st).1, inputs, cpus).outcome == Returned
    ensures Accept(Session(clip, cfg, Accept(st).1, inputs, cpus).next).0 == Admitted
  {
    SessionGate(clip, cfg, Accept(st).1, inputs, cpus);
  }

  /** Without compression (or with a single compression thread) a request for a
      frame of the clip is answered with exactly that frame, compressed when LZO
      is on, and its future is gone afterwards; any other index raises. */
  lemma FrameRequestServes(clip: Clip, cfg: Config, st: SState, cpus: Option<int>, frame: int, pipe: bool)
    requires StateOk(clip, st)
    requires cfg.compression.None? || cfg.compressionThreads == 1
    ensures var r := FrameRequest(clip, cfg, st, cpus, frame, pipe);
      && (r.FrameSent? <==> 0 <= frame < |clip.frames|)
      && (r.FrameSent? ==>
            && r.payload == Pack(if cfg.compression == Some("lzo")
                                 then Lzo(clip.frames[frame].planes, cfg.level)
                                 else Raw(clip.frames[frame].planes),
                                 clip.frames[frame], pipe)
            && frame !in r.next.queue
            && r.next.cqueue == st.cqueue)
  {
  }

  /** Every compression task waiting holds the outcome of compressing its own index
      at the server's level, made either for a `pipe` request or for one with
      properties. */
  ghost predicate TasksOk(clip: Clip, level: int, cq: TaskQueue)
  {
    forall k :: k in cq ==> cq[k] == TaskOutcome(clip, k, true, level) || cq[k] == TaskOutcome(clip, k, false, level)
  }

  /** The pool path files only tasks that compress their own index. */
  lemma PoolPathKeepsTasks(clip: Clip, cfg: Config, st: SState, cpus: Option<int>, frame: int, pipe: bool)
    requires StateOk(clip, st) && TasksOk(clip, cfg.level, st.cqueue)
    ensures TasksOk(clip, cfg.level, PoolPath(clip, cfg, st, cpus, frame, pipe).next.cqueue)
  {
    var cw := Window(Usable(cfg.compressionThreads, cpus), |clip.frames|, frame);
    var tasks := TasksFor(clip, Submitted(st.cqueue, frame, cw), pipe, cfg.level);
    var cq := st.cqueue + tasks;
    forall k | k in cq
      ensures cq[k] == TaskOutcome(clip, k, true, cfg.level) || cq[k] == TaskOutcome(clip, k, false, cfg.level)
    {
      if k in tasks {
        assert cq[k] == TaskOutcome(clip, k, pipe, cfg.level);
      } else {
        assert cq[k] == st.cqueue[k];
      }
    }
    assert TasksOk(clip, cfg.level, cq - {frame});
  }

  /** `get_frame` only ever files tasks that compress their own index. */
  lemma FrameRequestKeepsTasks(clip: Clip, cfg: Config, st: SState, cpus: Option<int>, frame: int, pipe: bool)
    requires StateOk(clip, st) && TasksOk(clip, cfg.level, st.cqueue)
    ensures TasksOk(clip, cfg.level, FrameRequest(clip, cfg, st, cpus, frame, pipe).next.cqueue)
  {
    var st1 := AfterPrefetch(clip, cfg, st, cpus, frame);
    if cfg.compression == Some("lzo") && cfg.compressionThreads != 1 {
      PoolPathKeepsTasks(clip, cfg, st1, cpus, frame, pipe);
    }
  }

  /** Every turn of `server_loop` keeps the compression tasks well formed. */
  lemma HandleKeepsTasks(clip: Clip, cfg: Config, st: SState, input: Incoming, cpus: Option<int>)
    requires StateOk(clip, st) && TasksOk(clip, cfg.level, st.cqueue)
    ensures TasksOk(clip, cfg.level, Handle(clip, cfg, st, input, cpus).next.cqueue)
  {
    if input.Decoded? && input.query.kind == Is(FrameAction) && input.query.frame.Some? && input.query.pipe.Some? {
      FrameRequestKeepsTasks(clip, cfg, st, cpus, input.query.frame.value, input.query.pipe.value);
    }
  }

  /** A whole session keeps the compression tasks well formed, so the next session
      starts from tasks that compress their own index. */
  lemma {:induction false} SessionKeepsTasks(clip: Clip, cfg: Config, st: SState, inputs: seq<Incoming>, cpus: Option<int>)
    requires StateOk(clip, st) && TasksOk(clip, cfg.level, st.cqueue)
    ensures TasksOk(clip, cfg.level, Session(clip, cfg, st, inputs, cpus).next.cqueue)
    decreases |inputs|
  {
    var s := Handle(clip, cfg, st, if |inputs| == 0 then Undecodable else inputs[0], cpus);
    HandleKeepsTasks(clip, cfg, st, if |inputs| == 0 then Undecodable else inputs[0], cpus);
    if s.outcome == Continue && |inputs| > 0 {
      SessionKeepsTasks(clip, cfg, s.next, inputs[1..], cpus);
    }
  }

  /** Without a pool, `get_frame` on the server is the uncompressed frame step of a
      session: the same frame is served or not, with the same futures and mark
      afterwards, and the compression tasks are untouched. */
  lemma DirectRequestIsFrameStep(clip: Clip, cfg: Config, st: SState, cpus: Option<int>, frame: int, pipe: bool)
    requires StateOk(clip, st)
    requires cfg.compression.None? || cfg.compressionThreads == 1
    ensures var r := FrameRequest(clip, cfg, st, cpus, frame, pipe);
      var f := FrameStep(clip, PState(st.queue, st.last), Usable(cfg.threads, cpus), frame);
      && (r.FrameSent? <==> f.Served?)
      && r.next.queue == f.next.queue && r.next.last == f.next.last
      && r.next.cqueue == st.cqueue && r.next.connected == st.connected
      && (r.FrameSent? ==>
            && r.payload.data.planes == f.out.planes
            && (r.payload.PropsPayload? ==> r.payload.props == f.out.props))
  {
  }

  /** With an LZO pool, a request for a frame of the clip is served from the task
      waiting for it, or from the one the request submits itself.  It is served
      unless there is no task (the compression window is empty) or the waiting task
      was made for a `pipe` request and this one is not.  What is served is always
      that frame, compressed, and its task is gone afterwards; when the waiting task
      was made for the same kind of request, the reply is exactly what this request
      asks for. */
  lemma CompressedRequestServes(clip: Clip, cfg: Config, st: SState, cpus: Option<int>, frame: int, pipe: bool)
    requires StateOk(clip, st) && TasksOk(clip, cfg.level, st.cqueue)
    requires cfg.compression == Some("lzo") && cfg.compressionThreads != 1
    requires 0 <= frame < |clip.frames|
    ensures var r := FrameRequest(clip, cfg, st, cpus, frame, pipe);
      var waiting := frame in st.cqueue;
      && (r.FrameSent? <==>
            && (waiting || Usable(cfg.compressionThreads, cpus) >= 1)
            && (pipe || !waiting || st.cqueue[frame] == TaskOutcome(clip, frame, false, cfg.level)))
      && (r.FrameSent? ==>
            && r.payload.data == Lzo(clip.frames[frame].planes, cfg.level)
            && (r.payload.PropsPayload? ==> r.payload.props == clip.frames[frame].props))
      && (r.FrameSent? && (!waiting || st.cqueue[frame] == TaskOutcome(clip, frame, pipe, cfg.level)) ==>
            r.payload == Pack(Lzo(clip.frames[frame].planes, cfg.level), clip.frames[frame], pipe))
      && (r.FrameSent? && !waiting ==> frame !in r.next.queue)
      && frame !in r.next.cqueue
  {
    var nf := |clip.frames|;
    var cw := Window(Usable(cfg.compressionThreads, cpus), nf, frame);
    if frame in st.cqueue {
      assert frame !in Submitted(st.cqueue, frame, cw);
    } else if cw > 0 {
      assert frame in Submitted(st.cqueue, frame, cw);
    } else {
      assert Submitted(st.cqueue, frame, cw) == {};
    }
  }

  /** A task queued by a `pipe` request cannot serve a later non-pipe request for the
      same frame: unpacking its result raises. */
  lemma StalePipeTaskCrashes(clip: Clip, cfg: Config, st: SState, cpus: Option<int>, frame: int, d: FrameData)
    requires StateOk(clip, st)
    requires cfg.compression == Some("lzo") && cfg.compressionThreads != 1
    requires frame in st.cqueue && st.cqueue[frame] == Ready(PipePayload(d))
    ensures FrameRequest(clip, cfg, st, cpus, frame, false).FrameCrashed?
  {
    var nf := |clip.frames|;
    var cw := Window(Usable(cfg.compressionThreads, cpus), nf, frame);
    var cq := st.cqueue + TasksFor(clip, Submitted(st.cqueue, frame, cw), false, cfg.level);
    assert frame !in Submitted(st.cqueue, frame, cw);
    assert cq[frame] == st.cqueue[frame];
  }

  /** One thread with `compression_threads=0` and LZO available gives a pool whose
      compression window is empty: on a fresh server every frame request raises
      `KeyError`. */
  lemma SingleThreadLzoPoolCrashes(clip: Clip, coreThreads: int, level: int, st: SState,
                                   cpus: Option<int>, frame: int, pipe: bool)
    requires StateOk(clip, st) && st.cqueue == map[]
    ensures var cfg := Configure(1, coreThreads, 0, Some("lzo"), level, true);
      && cfg.compressionThreads == 0 && cfg.poolWorkers == Some(2)
      && FrameRequest(clip, cfg, st, cpus, frame, pipe).FrameCrashed?
      && FrameRequest(clip, cfg, st, cpus, frame, pipe).next.cqueue == map[]
  {
    var cfg := Configure(1, coreThreads, 0, Some("lzo"), level, true);
    assert Lower("lzo") == "lzo";
    var cw := Window(Usable(cfg.compressionThreads, cpus), |clip.frames|, frame);
    assert cw == 0;
    assert Submitted(st.cqueue, frame, cw) == {};
  }

  /** A compression method other than LZO with a pool never binds `frame_data`:
      every frame request raises, after its prefetch. */
  lemma OtherMethodWithPoolCrashes(clip: Clip, cfg: Config, st: SState, cpus: Option<int>, frame: int, pipe: bool)
    requires StateOk(clip, st)
    requires cfg.compression.Some? && cfg.compression != Some("lzo") && cfg.compressionThreads != 1
    ensures FrameRequest(clip, cfg, st, cpus, frame, pipe).FrameCrashed?
  {
  }

  // ---------------------------------------------------------------------------
  // The server object

  /** A `Server` after its constructor: the clip and settings, plus the fields the
      session thread updates. */
  class Server {
    const clip: Clip
    const config: Config
    var frameQueue: Queue
    var cframeQueue: TaskQueue
    var lastQueued: int
    var clientConnected: bool

    ghost predicate Valid()
      reads this
    {
      StateOk(clip, State()) && TasksOk(clip, config.level, cframeQueue)
    }

    function State(): SState
      reads this
    {
      SState(frameQueue, cframeQueue, lastQueued, clientConnected)
    }

    constructor(clip: Clip, threads: int, coreThreads: int, compressionThreads: int,
                compression: Option<string>, level: int, lzoAvailable: bool)
      ensures Valid()
      ensures this.clip == clip
      ensures config == Configure(threads, coreThreads, compressionThreads, compression, level, lzoAvailable)
      ensures State() == Initial()
    {
      this.clip := clip;
      config := Configure(threads, coreThreads, compressionThreads, compression, level, lzoAvailable);
      frameQueue := map[];
      cframeQueue := map[];
      lastQueued := -1;
      clientConnected := false;
    }

    /** One turn of the accept loop. */
    method AcceptClient() returns (a: Admission)
      modifies this
      ensures (a, State()) == Accept(old(State()))
    {
      if !clientConnected {
        clientConnected := true;
        a := Admitted;
      } else {
        a := Refused(TextReply("busy"));
      }
    }

    /** `get_frame(frame, pipe)`: the payload sent, or `None` when it raised. */
    method GetFrame(frame: int, pipe: bool, cpus: Option<int>) returns (sent: Option<Payload>)
      requires Valid()
      modifies this
      ensures Valid()
      ensures FrameRequest(clip, config, old(State()), cpus, frame, pipe)
           == (if sent.Some? then FrameSent(sent.value, State()) else FrameCrashed(State()))
    {
      var w := Window(Usable(config.threads, cpus), |clip.frames|, frame);
      frameQueue, lastQueued := Dispatch(frameQueue, lastQueued, frame, w);
      assert State() == AfterPrefetch(clip, config, old(State()), cpus, frame);
      if config.compression == Some("lzo") && config.compressionThreads != 1 {
        sent := PoolFrame(frame, pipe, cpus);
      } else if config.compression.None? || config.compressionThreads == 1 {
        sent := DirectFrame(frame, pipe);
      } else {
        sent := None;
      }
    }

    /** The LZO pool path: submit the compression window, then pop the task. */
    method PoolFrame(frame: int, pipe: bool, cpus: Option<int>) returns (sent: Option<Payload>)
      requires Valid()
      modifies this
      ensures Valid()
      ensures PoolPath(clip, config, old(State()), cpus, frame, pipe)
           == (if sent.Some? then FrameSent(sent.value, State()) else FrameCrashed(State()))
    {
      PoolPathKeepsTasks(clip, config, State(), cpus, frame, pipe);
      var cw := Window(Usable(config.compressionThreads, cpus), |clip.frames|, frame);
      frameQueue, cframeQueue, lastQueued :=
        CompressWindow(clip, frameQueue, cframeQueue, lastQueued, frame, cw, pipe, config.level);
      if frame !in cframeQueue {
        return None;
      }
      var task := cframeQueue[frame];
      cframeQueue := cframeQueue - {frame};
      if task.TaskFailed? || (!pipe && task.payload.PipePayload?) {
        return None;
      }
      sent := Some(task.payload);
    }

    /** The path without a pool: pop the future or compute the frame now. */
    method DirectFrame(frame: int, pipe: bool) returns (sent: Option<Payload>)
      requires Valid()
      modifies this
      ensures Valid()
      ensures DirectPath(clip, config, old(State()), frame, pipe)
           == (if sent.Some? then FrameSent(sent.value, State()) else FrameCrashed(State()))
    {
      var v: VideoFrame;
      if frame in frameQueue {
        v := Resolve(clip, frameQueue[frame]);
        frameQueue := frameQueue - {frame};
      } else if 0 <= frame < |clip.frames| {
        v := clip.frames[frame];
        lastQueued := frame;
      } else {
        return None;
      }
      var data := if config.compression == Some("lzo") then Lzo(v.planes, config.level) else Raw(v.planes);
      sent := Some(Pack(data, v, pipe));
    }

    /** One turn of `server_loop`. */
    method HandleOne(input: Incoming, cpus: Option<int>) returns (replies: seq<Reply>, outcome: Outcome)
      requires Valid()
      modifies this
      ensures Valid()
      ensures Step(replies, State(), outcome) == Handle(clip, config, old(State()), input, cpus)
    {
      if input.RecvFailed? {
        // the exception raised inside `recv` leaves the session thread
        replies, outcome := [], Raised;
        return;
      }
      // what `pickle.loads` rejects is replaced by a CLOSE query
      var q := if input.Decoded? then input.query else Query(Is(CloseAction), None, None);
      match q.kind
      case NoType =>
        replies, outcome := [], Raised;
      case OtherType =>
        clientConnected := false;
        replies, outcome := [], Returned;
      case Is(a) =>
        match a
        case VersionAction =>
          replies, outcome := [VersionReply(Major, Minor, Bugfix)], Continue;
        case CloseAction =>
          frameQueue := map[];
          clientConnected := false;
          replies, outcome := [TextReply("close")], Returned;
        case ExitAction =>
          clientConnected := false;
          replies, outcome := [TextReply("exit")], Exited;
        case HeaderAction =>
          var meta := MetaOf(clip, config);
          if meta.Some? {
            replies, outcome := [MetaReply(meta.value)], Continue;
          } else {
            replies, outcome := [], Raised;
          }
        case FrameAction =>
          if q.frame.None? || q.pipe.None? {
            replies, outcome := [], Raised;
          } else {
            var sent := GetFrame(q.frame.value, q.pipe.value, cpus);
            if sent.Some? {
              replies, outcome := [FrameReply(sent.value)], Continue;
            } else {
              replies, outcome := [], Raised;
            }
          }
    }

    /** `server_loop`: handle queries until a turn leaves the loop; once `inputs`
        are used up the stream is closed and `recv` returns `None`. */
    method ServerLoop(inputs: seq<Incoming>, cpus: Option<int>) returns (replies: seq<Reply>, outcome: Outcome)
      requires Valid()
      modifies this
      ensures Valid()
      ensures Step(replies, State(), outcome) == Session(clip, config, old(State()), inputs, cpus)
    {
      ghost var whole := Session(clip, config, State(), inputs, cpus);
      var i := 0;
      replies, outcome := [], Continue;
      assert After([], whole) == whole;
      while outcome == Continue
        invariant Valid()
        invariant 0 <= i <= |inputs|
        invariant Accounted(clip, config, cpus, whole, replies, State(), inputs[i..], outcome)
        decreases |inputs| - i + (if outcome == Continue then 1 else 0)
      {
        ghost var before := State();
        var input := if i < |inputs| then inputs[i] else Undecodable;
        var r, o := HandleOne(input, cpus);
        LoopStep(clip, config, cpus, whole, replies, before, inputs, i, r, State(), o);
        replies, outcome := replies + r, o;
        if o == Continue {
          i := i + 1;
        }
      }
    }
  }
}
