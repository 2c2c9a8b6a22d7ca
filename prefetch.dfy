/** The bookkeeping of `Server.get_frame` and `Server.execute_parallel_lzo`:
    the map of frame futures (`frame_queue_buffer`), the high-water mark
    (`last_queued_frame`) and the map of compression tasks (`cframe_queue_buffer`).

    Futures are handles naming the frame they compute; resolving one yields that
    frame of the clip.  A compression task is modelled as run to completion when it
    is submitted (the pool is free to run it at once), so a task entry holds its
    outcome. */
module Prefetch {
  import opened Wire
  import opened Clips

  /** A handle returned by `clip.get_frame_async(index)`. */
  datatype Future = Pending(index: int)

  type Queue = map<int, Future>

  /** Every queued handle computes a frame of the clip and is filed under its index. */
  ghost predicate QueueValid(clip: Clip, queue: Queue)
  {
    forall k :: k in queue ==> 0 <= k < |clip.frames| && queue[k] == Pending(k)
  }

  /** `future.result()`. */
  function Resolve(clip: Clip, fut: Future): VideoFrame
    requires 0 <= fut.index < |clip.frames|
  {
    clip.frames[fut.index]
  }

  /** The number of iterations of `for pf in range(min(avail, num_frames - frame))`. */
  function Window(avail: int, numFrames: int, frame: int): (w: nat)
    ensures w == 0 <==> avail <= 0 || numFrames <= frame
    ensures w <= avail || w == 0
    ensures frame + w <= numFrames || w == 0
    ensures w == 0 || w == avail || frame + w == numFrames
  {
    var k := if avail < numFrames - frame then avail else numFrames - frame;
    if k < 0 then 0 else k
  }

  /** The indices the prefetch loop dispatches: those of the window that are neither
      queued nor at or below the mark when the loop starts. */
  function Dispatched(queue: Queue, last: int, frame: int, w: nat): set<int>
  {
    set f | frame <= f < frame + w && f !in queue && last < f
  }

  function FuturesFor(s: set<int>): Queue
  {
    map f | f in s :: Pending(f)
  }

  /** The mark after the prefetch loop: the last index dispatched, or the old mark
      when nothing was. */
  function PrefetchMark(queue: Queue, last: int, frame: int, w: nat): (m: int)
    ensures last <= m
    ensures m == last || frame <= m < frame + w
    decreases w
  {
    if w == 0 then last
    else if frame + w - 1 !in queue && last < frame + w - 1 then frame + w - 1
    else PrefetchMark(queue, last, frame, w - 1)
  }

  /** After the prefetch loop the mark is the greatest index dispatched, or the old
      mark when nothing was. */
  lemma {:induction false} PrefetchMarkIsMax(queue: Queue, last: int, frame: int, w: nat)
    ensures var m := PrefetchMark(queue, last, frame, w);
      && (m == last || m in Dispatched(queue, last, frame, w))
      && (forall f :: f in Dispatched(queue, last, frame, w) ==> f <= m)
    decreases w
  {
    if w > 0 && !(frame + w - 1 !in queue && last < frame + w - 1) {
      assert Dispatched(queue, last, frame, w) == Dispatched(queue, last, frame, w - 1);
      PrefetchMarkIsMax(queue, last, frame, w - 1);
    }
  }

  /** The prefetch loop of `get_frame` (the first `for` loop): dispatch every index
      of the window that is not queued and lies above the mark, raising the mark
      to each index dispatched. */
  method Dispatch(queue: Queue, last: int, frame: int, w: nat) returns (q: Queue, m: int)
    ensures q == queue + FuturesFor(Dispatched(queue, last, frame, w))
    ensures m == PrefetchMark(queue, last, frame, w)
  {
    q, m := queue, last;
    DispatchStart(queue, last, frame);
    for pf := 0 to w
      invariant Dispatching(queue, last, frame, pf, q, m)
    {
      var f := frame + pf;
      DispatchStep(queue, last, frame, pf, q, m);
      if f !in q && m < f {
        q, m := q[f := Pending(f)], f;
      }
    }
  }

  /** The futures and mark after the first `n` iterations of the prefetch loop. */
  ghost predicate Dispatching(queue: Queue, last: int, frame: int, n: nat, q: Queue, m: int)
  {
    q == queue + FuturesFor(Dispatched(queue, last, frame, n)) && m == PrefetchMark(queue, last, frame, n)
  }

  lemma DispatchStart(queue: Queue, last: int, frame: int)
    ensures Dispatching(queue, last, frame, 0, queue, last)
  {
    assert Dispatched(queue, last, frame, 0) == {};
    assert queue + FuturesFor({}) == queue;
  }

  /** One iteration of the prefetch loop extends the closed forms by index `frame + n`. */
  lemma DispatchStep(queue: Queue, last: int, frame: int, n: nat, q: Queue, m: int)
    requires Dispatching(queue, last, frame, n, q, m)
    ensures var f := frame + n;
      var take := f !in q && m < f;
      Dispatching(queue, last, frame, n + 1, if take then q[f := Pending(f)] else q, if take then f else m)
  {
    var f := frame + n;
    PrefetchMarkIsMax(queue, last, frame, n);
    assert f in q <==> f in queue;
    assert m < f <==> last < f;
    if f !in q && m < f {
      assert Dispatched(queue, last, frame, n + 1) == Dispatched(queue, last, frame, n) + {f};
    } else {
      assert Dispatched(queue, last, frame, n + 1) == Dispatched(queue, last, frame, n);
    }
  }

  /** A set of integers inside an interval of length `n` has at most `n` elements. */
  lemma {:induction false} CardWithin(s: set<int>, lo: int, n: nat)
    requires forall x :: x in s ==> lo <= x < lo + n
    ensures |s| <= n
    decreases n
  {
    if n == 0 {
      assert forall x :: x !in s;
      assert s == {};
    } else {
      CardWithin(s - {lo + n - 1}, lo, n - 1);
    }
  }

  /** One `get_frame(frame)` call dispatches at most `min(avail, num_frames - frame)`
      computations, all for frames of the clip at or after `frame`, none already
      queued, none at or below the mark. */
  lemma PrefetchBounded(queue: Queue, last: int, frame: int, avail: int, numFrames: int)
    requires -1 <= last
    ensures var d := Dispatched(queue, last, frame, Window(avail, numFrames, frame));
      && (d != {} ==> |d| <= avail && |d| <= numFrames - frame)
      && forall f :: f in d ==> 0 <= f < numFrames && frame <= f && f !in queue && last < f
  {
    var w := Window(avail, numFrames, frame);
    CardWithin(Dispatched(queue, last, frame, w), frame, w);
  }

  /** The outcome of fetching the requested frame on the uncompressed path: the frame
      with the new map and mark, or the exception `get_frame_async` raises for an
      index outside the clip. */
  datatype Delivery = Delivered(frame: VideoFrame, queue: Queue, last: int) | Unavailable

  /** The delivery step of `get_frame` (lines popping `frame_queue_buffer`): pop the
      future of `frame`, or compute the frame synchronously and reset the mark. */
  function Deliver(clip: Clip, queue: Queue, last: int, frame: int): (d: Delivery)
    requires QueueValid(clip, queue)
    ensures d.Delivered? <==> 0 <= frame < |clip.frames|
    ensures d.Delivered? ==> d.frame == clip.frames[frame] && frame !in d.queue
    ensures d.Delivered? ==> d.queue == queue - {frame}
    ensures d.Delivered? ==> d.last == (if frame in queue then last else frame)
  {
    if frame in queue then Delivered(Resolve(clip, queue[frame]), queue - {frame}, last)
    else if 0 <= frame < |clip.frames| then
      assert queue - {frame} == queue;
      Delivered(clip.frames[frame], queue, frame)
    else Unavailable
  }

  /** The uncompressed pipeline state of one session: futures and mark. */
  datatype PState = PState(queue: Queue, last: int)

  ghost predicate StateValid(clip: Clip, s: PState)
  {
    QueueValid(clip, s.queue) && -1 <= s.last
  }

  datatype StepResult = Served(out: VideoFrame, next: PState) | Failed(next: PState)

  /** `get_frame(frame)` on the uncompressed path: prefetch the window, then deliver. */
  function FrameStep(clip: Clip, s: PState, avail: int, frame: int): (r: StepResult)
    requires StateValid(clip, s)
    ensures StateValid(clip, r.next)
  {
    var w := Window(avail, |clip.frames|, frame);
    var q := s.queue + FuturesFor(Dispatched(s.queue, s.last, frame, w));
    var m := PrefetchMark(s.queue, s.last, frame, w);
    assert QueueValid(clip, q);
    match Deliver(clip, q, m, frame)
    case Delivered(v, q2, m2) => Served(v, PState(q2, m2))
    case Unavailable => Failed(PState(q, m))
  }

  /** Delivery: a request for a frame of the clip is served with exactly that frame;
      afterwards the frame's future is gone, every other entry that was queued is
      still there unchanged, the only new entries are the ones dispatched, and if
      the frame had to be computed synchronously the mark is set to it. */
  lemma FrameStepDelivers(clip: Clip, s: PState, avail: int, frame: int)
    requires StateValid(clip, s)
    ensures var r := FrameStep(clip, s, avail, frame);
      var d := Dispatched(s.queue, s.last, frame, Window(avail, |clip.frames|, frame));
      && (r.Served? <==> 0 <= frame < |clip.frames|)
      && (r.Served? ==> r.out == clip.frames[frame] && frame !in r.next.queue)
      && (forall k :: k in s.queue && k != frame ==> k in r.next.queue && r.next.queue[k] == s.queue[k])
      && (forall k :: k in r.next.queue ==> k in s.queue || k in d)
      && (r.Served? && frame !in s.queue && frame !in d ==> r.next.last == frame)
  {
  }

  /** Going backwards resets the mark: after frames 5 and then 2 of a ten-frame clip
      (four requests in flight), the mark has dropped from 8 to 2. */
  lemma BackwardRequestLowersMark(clip: Clip)
    requires |clip.frames| == 10
    ensures var s1 := FrameStep(clip, PState(map[], -1), 4, 5);
      && s1.Served? && s1.next.last == 8
      && FrameStep(clip, s1.next, 4, 2).Served? && FrameStep(clip, s1.next, 4, 2).next.last == 2
  {
    var s0 := PState(map[], -1);
    assert Dispatched(s0.queue, -1, 5, 4) == {5, 6, 7, 8};
    var s1 := FrameStep(clip, s0, 4, 5);
    assert s1.next.queue.Keys == {6, 7, 8};
    assert Dispatched(s1.next.queue, 8, 2, 4) == {};
  }

  /** A record of one step of a session: what it dispatched, whether the frame was
      served, and the state after it. */
  datatype StepRecord = StepRecord(dispatched: set<int>, served: bool, after: PState)

  /** A session of uncompressed frame requests, stopping at the first failure. */
  function Run(clip: Clip, s: PState, avail: int, reqs: seq<int>): (t: seq<StepRecord>)
    requires StateValid(clip, s)
    ensures |t| <= |reqs|
    decreases |reqs|
  {
    if |reqs| == 0 then []
    else
      var d := Dispatched(s.queue, s.last, reqs[0], Window(avail, |clip.frames|, reqs[0]));
      match FrameStep(clip, s, avail, reqs[0])
      case Served(_, next) => [StepRecord(d, true, next)] + Run(clip, next, avail, reqs[1..])
      case Failed(next) => [StepRecord(d, false, next)]
  }

  /** Invariant of a session whose requests increase: every index between the last
      request and the mark is still queued, and every index dispatched so far is at
      or below the mark. */
  ghost predicate IncreasingInv(s: PState, prev: int, seen: set<int>)
  {
    && (forall f :: prev < f <= s.last ==> f in s.queue)
    && (forall h :: h in seen ==> h <= s.last)
  }

  lemma StepKeepsIncreasingInv(clip: Clip, s: PState, avail: int, frame: int, prev: int, seen: set<int>)
    requires StateValid(clip, s) && IncreasingInv(s, prev, seen) && prev < frame
    ensures Dispatched(s.queue, s.last, frame, Window(avail, |clip.frames|, frame)) !! seen
    ensures FrameStep(clip, s, avail, frame).Served? ==>
      IncreasingInv(FrameStep(clip, s, avail, frame).next, frame,
                    seen + Dispatched(s.queue, s.last, frame, Window(avail, |clip.frames|, frame)))
  {
    var w := Window(avail, |clip.frames|, frame);
    var d := Dispatched(s.queue, s.last, frame, w);
    var q := s.queue + FuturesFor(d);
    var m := PrefetchMark(s.queue, s.last, frame, w);
    PrefetchMarkIsMax(s.queue, s.last, frame, w);
    var r := FrameStep(clip, s, avail, frame);
    if r.Served? {
      if frame in q {
        assert r.next == PState(q - {frame}, m);
        forall f | frame < f <= m
          ensures f in r.next.queue
        {
          if f > s.last {
            assert m in d;
            assert f in s.queue || f in d;
          }
        }
      } else {
        assert frame !in s.queue && frame !in d;
        assert s.last < frame;
        assert w == 0;
        assert r.next.last == frame;
      }
    }
  }

  /** No step of `t` dispatches an index of `seen` or one another step dispatched. */
  ghost predicate RunDisjoint(t: seq<StepRecord>, seen: set<int>)
  {
    && (forall i :: 0 <= i < |t| ==> t[i].dispatched !! seen)
    && (forall i, j :: 0 <= i < j < |t| ==> t[i].dispatched !! t[j].dispatched)
  }

  /** No index is dispatched twice by a session whose requests strictly increase
      from above `prev`, and none of them was dispatched before it (`seen`). */
  lemma {:induction false} RunNeverRedispatchesFrom(clip: Clip, s: PState, avail: int, reqs: seq<int>,
                                                    prev: int, seen: set<int>)
    requires StateValid(clip, s) && IncreasingInv(s, prev, seen)
    requires forall i :: 0 <= i < |reqs| ==> prev < reqs[i]
    requires forall i, j :: 0 <= i < j < |reqs| ==> reqs[i] < reqs[j]
    ensures RunDisjoint(Run(clip, s, avail, reqs), seen)
    decreases |reqs|
  {
    if |reqs| > 0 {
      var frame := reqs[0];
      var t := Run(clip, s, avail, reqs);
      var d := Dispatched(s.queue, s.last, frame, Window(avail, |clip.frames|, frame));
      StepKeepsIncreasingInv(clip, s, avail, frame, prev, seen);
      var r := FrameStep(clip, s, avail, frame);
      if r.Served? {
        var t' := Run(clip, r.next, avail, reqs[1..]);
        assert t == [StepRecord(d, true, r.next)] + t';
        RunNeverRedispatchesFrom(clip, r.next, avail, reqs[1..], frame, seen + d);
        assert |t| == |t'| + 1;
        assert RunDisjoint(t', seen + d);
        forall i | 0 <= i < |t|
          ensures t[i].dispatched !! seen
        {
          if i > 0 {
            assert t[i] == t'[i - 1];
            assert t'[i - 1].dispatched !! seen + d;
          }
        }
        forall i, j | 0 <= i < j < |t|
          ensures t[i].dispatched !! t[j].dispatched
        {
          assert t[j] == t'[j - 1];
          if i > 0 {
            assert t[i] == t'[i - 1];
          } else {
            assert t[0].dispatched == d;
            assert t'[j - 1].dispatched !! seen + d;
          }
        }
      }
    }
  }

  /** Exactly-once dispatch: a fresh server (no futures, mark -1) serving strictly
      increasing requests on the uncompressed path never dispatches the same frame
      index twice. */
  lemma IncreasingRequestsNeverRedispatch(clip: Clip, avail: int, reqs: seq<int>)
    requires forall i, j :: 0 <= i < j < |reqs| ==> reqs[i] < reqs[j]
    ensures var t := Run(clip, PState(map[], -1), avail, reqs);
      forall i, j :: 0 <= i < j < |t| ==> t[i].dispatched !! t[j].dispatched
  {
    var s := PState(map[], -1);
    if |reqs| > 0 && reqs[0] < 0 {
      assert FrameStep(clip, s, avail, reqs[0]).Failed?;
    } else {
      RunNeverRedispatchesFrom(clip, s, avail, reqs, -1, {});
    }
  }

  /** Requests that go backwards do dispatch a frame twice: on a ten-frame clip with
      four requests in flight, frames 5, 2, 3 dispatch frame 5 at the first and at
      the third request. */
  lemma BackwardRequestsRedispatch(clip: Clip)
    requires |clip.frames| == 10
    ensures var t := Run(clip, PState(map[], -1), 4, [5, 2, 3]);
      |t| == 3 && 5 in t[0].dispatched && 5 in t[2].dispatched
  {
    var s0 := PState(map[], -1);
    assert Dispatched(s0.queue, -1, 5, 4) == {5, 6, 7, 8};
    var r1 := FrameStep(clip, s0, 4, 5);
    assert r1.next.queue.Keys == {6, 7, 8} && r1.next.last == 8;
    assert Dispatched(r1.next.queue, 8, 2, 4) == {};
    var r2 := FrameStep(clip, r1.next, 4, 2);
    assert r2.next.last == 2 && r2.next.queue.Keys == {6, 7, 8};
    assert 5 in Dispatched(r2.next.queue, 2, 3, 4);
    var r3 := FrameStep(clip, r2.next, 4, 3);
    assert [5, 2, 3][1..] == [2, 3] && [2, 3][1..] == [3];
  }

  /** Invariant of a session asking for consecutive frames: the queue holds exactly
      the indices after the last request up to the mark, and the mark is less than
      `avail` ahead of the last request. */
  ghost predicate ConsecutiveInv(s: PState, prev: int, avail: int)
  {
    && (forall k :: k in s.queue ==> prev < k <= s.last)
    && (forall f :: prev < f <= s.last ==> f in s.queue)
    && prev <= s.last
    && s.last - prev <= (if avail < 1 then 0 else avail - 1)
  }

  lemma StepKeepsConsecutiveInv(clip: Clip, s: PState, avail: int, prev: int)
    requires StateValid(clip, s) && ConsecutiveInv(s, prev, avail)
    ensures var r := FrameStep(clip, s, avail, prev + 1);
      r.Served? ==> ConsecutiveInv(r.next, prev + 1, avail)
  {
    var frame := prev + 1;
    var w := Window(avail, |clip.frames|, frame);
    var d := Dispatched(s.queue, s.last, frame, w);
    var q := s.queue + FuturesFor(d);
    var m := PrefetchMark(s.queue, s.last, frame, w);
    PrefetchMarkIsMax(s.queue, s.last, frame, w);
    var r := FrameStep(clip, s, avail, frame);
    if r.Served? {
      if frame in q {
        assert r.next == PState(q - {frame}, m);
        assert frame <= m by {
          if frame !in s.queue {
            assert frame in d;
          }
        }
        assert m - frame <= (if avail < 1 then 0 else avail - 1) by {
          if m != s.last {
            assert m in d;
          }
        }
        forall f | frame < f <= m
          ensures f in r.next.queue
        {
          if f > s.last {
            assert m in d;
            assert f in s.queue || f in d;
          }
        }
      } else {
        assert frame !in s.queue && frame !in d;
        assert s.last == prev;
        assert w == 0;
        assert forall k :: k !in s.queue;
        assert s.queue.Keys == {};
        assert r.next == PState(s.queue, frame);
      }
    }
  }

  /** After every step of `t` that served its frame, at most `bound` futures wait. */
  ghost predicate RunBounded(t: seq<StepRecord>, bound: int)
  {
    forall i :: 0 <= i < |t| && t[i].served ==> |t[i].after.queue| <= bound
  }

  /** Bounded prefetch: while a session asks for consecutive frames, fewer than
      `avail` futures are left waiting after each request served (none at all when
      `avail` is below 1). */
  lemma {:induction false} ConsecutiveRequestsBounded(clip: Clip, s: PState, avail: int, prev: int, reqs: seq<int>)
    requires StateValid(clip, s) && ConsecutiveInv(s, prev, avail)
    requires forall i :: 0 <= i < |reqs| ==> reqs[i] == prev + 1 + i
    ensures RunBounded(Run(clip, s, avail, reqs), if avail < 1 then 0 else avail - 1)
    decreases |reqs|
  {
    if |reqs| > 0 {
      var t := Run(clip, s, avail, reqs);
      StepKeepsConsecutiveInv(clip, s, avail, prev);
      var r := FrameStep(clip, s, avail, prev + 1);
      if r.Served? {
        var t' := Run(clip, r.next, avail, reqs[1..]);
        assert t == [StepRecord(t[0].dispatched, true, r.next)] + t';
        ConsecutiveRequestsBounded(clip, r.next, avail, prev + 1, reqs[1..]);
        assert RunBounded(t', if avail < 1 then 0 else avail - 1);
        CardWithin(r.next.queue.Keys, prev + 2, r.next.last - prev - 1);
        assert |r.next.queue| == |r.next.queue.Keys|;
        forall i | 0 <= i < |t| && t[i].served
          ensures |t[i].after.queue| <= (if avail < 1 then 0 else avail - 1)
        {
          if i > 0 {
            assert t[i] == t'[i - 1];
          } else {
            assert t[0].after == r.next;
          }
        }
      }
    }
  }

  /** A fresh session reading frames 0, 1, 2, ... in turn never leaves `avail` or
      more futures waiting. */
  lemma SequentialReadingBounded(clip: Clip, avail: int, n: nat)
    ensures RunBounded(Run(clip, PState(map[], -1), avail, seq(n, i => i)), if avail < 1 then 0 else avail - 1)
  {
    ConsecutiveRequestsBounded(clip, PState(map[], -1), avail, -1, seq(n, i => i));
  }

  /** What the server sends for a frame: the plane data, raw or LZO-compressed
      (compression is kept symbolic, so decompressing is reading `planes` back). */
  datatype FrameData = Raw(planes: seq<Bytes>) | Lzo(planes: seq<Bytes>, level: int)

  /** A frame reply: the data alone (`pipe` requests) or the data with the frame's
      properties. */
  datatype Payload = PipePayload(data: FrameData) | PropsPayload(data: FrameData, props: Props)

  function Pack(data: FrameData, v: VideoFrame, pipe: bool): (p: Payload)
    ensures p.data == data
    ensures p.PipePayload? <==> pipe
    ensures p.PropsPayload? ==> p.props == v.props
  {
    if pipe then PipePayload(data) else PropsPayload(data, v.props)
  }

  /** The outcome a finished compression task holds: its return value, or the
      exception it raised. */
  datatype Task = Ready(payload: Payload) | TaskFailed

  type TaskQueue = map<int, Task>

  /** One run of `execute_parallel_lzo`: the task's outcome and the map and mark it
      leaves behind. */
  datatype TaskRun = TaskRun(task: Task, queue: Queue, last: int)

  /** The task that compresses frame `f`: it fails exactly for an index outside
      the clip. */
  function TaskOutcome(clip: Clip, f: int, pipe: bool, level: int): (t: Task)
    ensures t.Ready? <==> 0 <= f < |clip.frames|
    ensures t.Ready? ==> t.payload == Pack(Lzo(clip.frames[f].planes, level), clip.frames[f], pipe)
  {
    if 0 <= f < |clip.frames| then Ready(Pack(Lzo(clip.frames[f].planes, level), clip.frames[f], pipe))
    else TaskFailed
  }

  /** `execute_parallel_lzo(frame, pipe)`: take the frame as `get_frame` does (pop its
      future, or compute it at once and move the mark to it), then compress it. */
  function CompressTask(clip: Clip, queue: Queue, last: int, frame: int, pipe: bool, level: int): (r: TaskRun)
    requires QueueValid(clip, queue)
    ensures r.task == TaskOutcome(clip, frame, pipe, level)
    ensures r.queue == queue - {frame}
    ensures r.last == (if frame in queue || r.task.TaskFailed? then last else frame)
  {
    match Deliver(clip, queue, last, frame)
    case Delivered(v, q, m) => TaskRun(Ready(Pack(Lzo(v.planes, level), v, pipe)), q, m)
    case Unavailable => TaskRun(TaskFailed, queue, last)
  }

  /** The indices the compression loop submits: those of its window without a task. */
  function Submitted(cqueue: TaskQueue, frame: int, cw: nat): set<int>
  {
    set f | frame <= f < frame + cw && f !in cqueue
  }

  function TasksFor(clip: Clip, s: set<int>, pipe: bool, level: int): TaskQueue
  {
    map f | f in s :: TaskOutcome(clip, f, pipe, level)
  }

  /** The indices whose task finds no future and computes the frame itself. */
  function Computed(queue: Queue, cqueue: TaskQueue, frame: int, cw: nat, numFrames: int): set<int>
  {
    set f | f in Submitted(cqueue, frame, cw) && f !in queue && 0 <= f < numFrames
  }

  /** The mark once the submitted tasks have run in order: the greatest index a
      task computed itself, or the old mark when none did; it may be lower than
      before. */
  function CompressMark(queue: Queue, cqueue: TaskQueue, last: int, frame: int, cw: nat, numFrames: int): (m: int)
    ensures m == last || (frame <= m < frame + cw && 0 <= m < numFrames)
    decreases cw
  {
    if cw == 0 then last
    else
      var f := frame + cw - 1;
      if f !in cqueue && f !in queue && 0 <= f < numFrames then f
      else CompressMark(queue, cqueue, last, frame, cw - 1, numFrames)
  }

  /** After the compression loop the mark is the greatest index a task computed
      itself, or the old mark when no task did. */
  lemma {:induction false} CompressMarkIsMax(queue: Queue, cqueue: TaskQueue, last: int, frame: int, cw: nat, numFrames: int)
    ensures var m := CompressMark(queue, cqueue, last, frame, cw, numFrames);
      var c := Computed(queue, cqueue, frame, cw, numFrames);
      && (c == {} ==> m == last)
      && (c != {} ==> m in c && forall f :: f in c ==> f <= m)
    decreases cw
  {
    if cw == 0 {
      assert Computed(queue, cqueue, frame, cw, numFrames) == {};
    } else {
      var f := frame + cw - 1;
      if f !in cqueue && f !in queue && 0 <= f < numFrames {
        assert f in Computed(queue, cqueue, frame, cw, numFrames);
      } else {
        assert Computed(queue, cqueue, frame, cw, numFrames) == Computed(queue, cqueue, frame, cw - 1, numFrames);
        CompressMarkIsMax(queue, cqueue, last, frame, cw - 1, numFrames);
      }
    }
  }

  /** Submitting one more index of the window extends the closed forms by that index. */
  lemma SubmitStep(clip: Clip, queue: Queue, cqueue: TaskQueue, frame: int, n: nat, pipe: bool, level: int)
    requires frame + n !in cqueue
    ensures Submitted(cqueue, frame, n + 1) == Submitted(cqueue, frame, n) + {frame + n}
    ensures queue - Submitted(cqueue, frame, n + 1) == (queue - Submitted(cqueue, frame, n)) - {frame + n}
    ensures cqueue + TasksFor(clip, Submitted(cqueue, frame, n + 1), pipe, level)
         == (cqueue + TasksFor(clip, Submitted(cqueue, frame, n), pipe, level))[frame + n := TaskOutcome(clip, frame + n, pipe, level)]
  {
    assert Submitted(cqueue, frame, n + 1) == Submitted(cqueue, frame, n) + {frame + n};
  }

  /** One task of the compression loop, run on the state the loop has reached after
      `n` indices, extends every closed form by index `frame + n`. */
  lemma CompressStep(clip: Clip, queue: Queue, cqueue: TaskQueue, last: int, frame: int, n: nat,
                     pipe: bool, level: int)
    requires QueueValid(clip, queue) && frame + n !in cqueue
    ensures QueueValid(clip, queue - Submitted(cqueue, frame, n))
    ensures var run := CompressTask(clip, queue - Submitted(cqueue, frame, n),
                                    CompressMark(queue, cqueue, last, frame, n, |clip.frames|),
                                    frame + n, pipe, level);
      && run.queue == queue - Submitted(cqueue, frame, n + 1)
      && run.last == CompressMark(queue, cqueue, last, frame, n + 1, |clip.frames|)
      && (cqueue + TasksFor(clip, Submitted(cqueue, frame, n), pipe, level))[frame + n := run.task]
         == cqueue + TasksFor(clip, Submitted(cqueue, frame, n + 1), pipe, level)
  {
    SubmitStep(clip, queue, cqueue, frame, n, pipe, level);
    assert frame + n !in Submitted(cqueue, frame, n);
  }

  /** An empty window submits nothing. */
  lemma SubmitNone(clip: Clip, queue: Queue, cqueue: TaskQueue, frame: int, pipe: bool, level: int)
    ensures queue - Submitted(cqueue, frame, 0) == queue
    ensures cqueue + TasksFor(clip, Submitted(cqueue, frame, 0), pipe, level) == cqueue
  {
    assert Submitted(cqueue, frame, 0) == {};
  }

  /** An index of the window that already has a task is skipped. */
  lemma SkipStep(cqueue: TaskQueue, frame: int, n: nat)
    requires frame + n in cqueue
    ensures Submitted(cqueue, frame, n + 1) == Submitted(cqueue, frame, n)
  {
  }

  /** The compression loop of `get_frame`: submit a task for every index of the
      window that has none; each task runs `execute_parallel_lzo` to completion. */
  method CompressWindow(clip: Clip, queue: Queue, cqueue: TaskQueue, last: int, frame: int, cw: nat,
                        pipe: bool, level: int)
    returns (q: Queue, cq: TaskQueue, m: int)
    requires QueueValid(clip, queue)
    ensures q == queue - Submitted(cqueue, frame, cw)
    ensures cq == cqueue + TasksFor(clip, Submitted(cqueue, frame, cw), pipe, level)
    ensures m == CompressMark(queue, cqueue, last, frame, cw, |clip.frames|)
  {
    q, cq, m := queue, cqueue, last;
    SubmitNone(clip, queue, cqueue, frame, pipe, level);
    for cpf := 0 to cw
      invariant QueueValid(clip, q)
      invariant q == queue - Submitted(cqueue, frame, cpf)
      invariant cq == cqueue + TasksFor(clip, Submitted(cqueue, frame, cpf), pipe, level)
      invariant m == CompressMark(queue, cqueue, last, frame, cpf, |clip.frames|)
    {
      var f := frame + cpf;
      if f !in cq {
        assert f !in cqueue;
        CompressStep(clip, queue, cqueue, last, frame, cpf, pipe, level);
        var run := CompressTask(clip, q, m, f, pipe, level);
        q, m := run.queue, run.last;
        cq := cq[f := run.task];
      } else {
        SkipStep(cqueue, frame, cpf);
      }
    }
  }

  /** The compression loop never replaces a task already waiting, submits at most
      one task per index of its window, and each new task holds the compressed
      frame of its index (or fails, for an index outside the clip). */
  lemma CompressWindowKeepsPending(clip: Clip, cqueue: TaskQueue, frame: int, cw: nat, pipe: bool, level: int)
    ensures var cq := cqueue + TasksFor(clip, Submitted(cqueue, frame, cw), pipe, level);
      && (forall k :: k in cqueue ==> k in cq && cq[k] == cqueue[k])
      && (forall k :: k in cq && k !in cqueue ==> frame <= k < frame + cw && cq[k] == TaskOutcome(clip, k, pipe, level))
      && |Submitted(cqueue, frame, cw)| <= cw
  {
    CardWithin(Submitted(cqueue, frame, cw), frame, cw);
  }
}
