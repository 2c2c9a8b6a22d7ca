# TCPClip in Dafny

A model of TCPClip, the VapourSynth script module that serves a clip over TCP.
It covers the parts of the program that decide what goes over the wire and what
state the server keeps:

- **Framing** (`wire.dfy`, module `Wire`). `Helper.send`, `Helper.recv` and
  `Helper.recvall` frame each message with a 4-byte big-endian length. The socket is
  modelled as the sequence of events `socket.recv` would hand out: packets of any
  size, an abort, or a reset. An empty packet, or the end of the sequence, means the
  peer closed the stream.
- **Log levels** (`util.dfy`, module `Util`). `Util.as_enum` and the level filter of
  `Util.message`.
- **Clip values** (`clips.dfy`, module `Clips`). The values the frame producer
  provides: format, geometry, frame rate, and each frame's planes and properties.
- **Frame bookkeeping** (`prefetch.dfy`, module `Prefetch`). This covers the prefetch
  loop of `Server.get_frame` and the delivery of a frame, with the map of frame
  futures and the high-water mark `last_queued_frame`. It also covers the compression
  loop, `execute_parallel_lzo` and the map of compression tasks. The loops are
  methods proved equal to closed-form functions. The lemmas cover sessions of several
  requests:
  - a fresh server on the uncompressed path never dispatches the same frame twice
    while requests increase;
  - going backwards does compute a frame twice;
  - the number of waiting futures stays bounded while frames are read in order.
- **Server** (`server.dfy`, module `Server`):
  - the constructor's settings arithmetic;
  - the admission gate of the accept loop;
  - the dispatch of `server_loop` over VERSION, CLOSE, EXIT, HEADER, FRAME and unknown
    types;
  - the three paths of `get_frame`.
  
  `class Server` holds the fields the session updates. Its methods are proved equal
  to the functions `Accept`, `FrameRequest`, `Handle` and `Session`. A decoded request
  is a `Query` value and a reply is a `Reply` value: pickling is not modelled.
- **Client** (`client.dfy`, module `Client`):
  - `query` with its busy check;
  - `exit`;
  - the version check;
  - `get_y4m_csp`;
  - the header line and frame stream written by `to_stdout`.
  
  The server is represented by the answers it will give, in order. Standard output is
  represented by the list of writes. `class Client` holds that state. Its methods are
  proved equal to the functions `Ask`, `Exit`, `Frames` and `ToStdout`.

Where the code's behaviour is surprising, the model follows the code:

- **Abort during `recvall`.** `ConnectionAbortedError` inside `recvall` is caught, and
  the bytes gathered so far are returned. An abort in the payload therefore yields a
  truncated message. An abort after one to three length bytes makes `struct.unpack`
  raise out of `recv`.
- **Reset during `recv`.** `ConnectionResetError` inside `recv` is caught, and `recv`
  returns `None`. The server loop then fails to unpickle `None` and handles that turn
  as a CLOSE.
- **Unknown request type.** A query whose type is not an `Action` does not behave like
  a CLOSE. The connection is dropped without a reply, and the frame futures are
  kept.
- **Version mismatch.** `exit()` swallows its own `SystemExit`. After a version
  mismatch the client has still sent EXIT, and it ends with status 2 only at the next
  query.
- **Sample depth above 16 bits.** `exit()` swallows its own `SystemExit` here as well,
  so the header line is still written.
- **`KeyError` in a session.** A FRAME query without `frame` or `pipe`, or a missing
  compression task, raises `KeyError` in the session thread. That leaves
  `client_connected` set, and every later client is refused as busy.

## Model

Every source path below is `VapourSynth64Portable_2020_09_06/VapourSynth64Portable/Scripts/TCPClip.py`.

| member | source | states |
|---|---|---|
| Wire.Be32 | VapourSynth64Portable_2020_09_06/VapourSynth64Portable/Scripts/TCPClip.py:163 | the length header is 4 bytes; a length below 256 is three zero bytes and then the length |
| Wire.Unbe32 | VapourSynth64Portable_2020_09_06/VapourSynth64Portable/Scripts/TCPClip.py:174 | any 4 header bytes give a length below 2^32; three zero bytes followed by `b` give `b` |
| Wire.Be32RoundTrip | VapourSynth64Portable_2020_09_06/VapourSynth64Portable/Scripts/TCPClip.py:164-175 | unpacking the packed 32-bit big-endian length gives the length back |
| Wire.Unbe32RoundTrip | VapourSynth64Portable_2020_09_06/VapourSynth64Portable/Scripts/TCPClip.py:164-175 | packing an unpacked 4-byte header gives the same 4 bytes |
| Wire.Send | VapourSynth64Portable_2020_09_06/VapourSynth64Portable/Scripts/TCPClip.py:161-168 | the wire form is 4 length bytes that decode to the payload length, followed by the payload; `struct.error` exactly when the payload has 2^32 bytes or more |
| Wire.RecvAllSpec | VapourSynth64Portable_2020_09_06/VapourSynth64Portable/Scripts/TCPClip.py:180-191 | `recvall(n)` never returns more than `n` bytes |
| Wire.RecvAll | VapourSynth64Portable_2020_09_06/VapourSynth64Portable/Scripts/TCPClip.py:180-191 | the receive loop returns exactly what `RecvAllSpec` gives and leaves the same unread rest |
| Wire.Recv | VapourSynth64Portable_2020_09_06/VapourSynth64Portable/Scripts/TCPClip.py:169-178 | `recv` (length, then payload) returns exactly `RecvSpec` of the stream |
| Wire.RecvAllChunked | VapourSynth64Portable_2020_09_06/VapourSynth64Portable/Scripts/TCPClip.py:180-191 | however the bytes are split into packets, `recvall(n)` returns the first `n` bytes and leaves exactly the rest |
| Wire.RecvAllShort | VapourSynth64Portable_2020_09_06/VapourSynth64Portable/Scripts/TCPClip.py:184-187 | a stream with fewer than `n` bytes makes `recvall(n)` return `None` |
| Wire.RecvRoundTrip | VapourSynth64Portable_2020_09_06/VapourSynth64Portable/Scripts/TCPClip.py:161-191 | whatever the chunking, `recv` returns exactly the payload `send` framed, and leaves the bytes after it unread |
| Wire.RecvEndsEarly | VapourSynth64Portable_2020_09_06/VapourSynth64Portable/Scripts/TCPClip.py:169-176 | a stream that ends inside the header or before the announced payload length yields `None` |
| Wire.AbortTruncatesPayload | VapourSynth64Portable_2020_09_06/VapourSynth64Portable/Scripts/TCPClip.py:176-191 | an abort after `k` payload bytes makes `recv` return the first `k` bytes as if they were the whole message |
| Wire.AbortInHeaderCrashes | VapourSynth64Portable_2020_09_06/VapourSynth64Portable/Scripts/TCPClip.py:172-175 | an abort after 1 to 3 header bytes makes `recv` raise |
| Wire.ResetMeansNoMessage | VapourSynth64Portable_2020_09_06/VapourSynth64Portable/Scripts/TCPClip.py:177-178 | a reset before a whole message has arrived makes `recv` return `None` |
| Wire.ResetAfterShort | VapourSynth64Portable_2020_09_06/VapourSynth64Portable/Scripts/TCPClip.py:184-185 | a reset met before `n` bytes have arrived makes `recvall(n)` raise |
| Util.AsEnum | VapourSynth64Portable_2020_09_06/VapourSynth64Portable/Scripts/TCPClip.py:125-133 | a string is known iff it names a level, and then maps to that level's rank 1..4; any non-string is returned unchanged |
| Util.AsEnumNames | VapourSynth64Portable_2020_09_06/VapourSynth64Portable/Scripts/TCPClip.py:128-132 | each level's name maps back to that level |
| Util.Filter | VapourSynth64Portable_2020_09_06/VapourSynth64Portable/Scripts/TCPClip.py:135-139 | a message is printed iff both levels are known and the message level is at most the caller's; it raises iff either level is unknown |
| Util.FilterByRank | VapourSynth64Portable_2020_09_06/VapourSynth64Portable/Scripts/TCPClip.py:138-139 | for named levels, printing is decided by rank comparison alone |
| Util.UnknownLevelRaises | VapourSynth64Portable_2020_09_06/VapourSynth64Portable/Scripts/TCPClip.py:132-138 | a caller configured with an unknown level name raises on every message |
| Prefetch.Window | VapourSynth64Portable_2020_09_06/VapourSynth64Portable/Scripts/TCPClip.py:371 | the prefetch range is empty iff no request is usable or `frame` is past the end; otherwise it is `avail` long or reaches the last frame |
| Prefetch.PrefetchMark | VapourSynth64Portable_2020_09_06/VapourSynth64Portable/Scripts/TCPClip.py:371-376 | the prefetch loop never lowers the mark, and a new mark lies in the window |
| Prefetch.PrefetchMarkIsMax | VapourSynth64Portable_2020_09_06/VapourSynth64Portable/Scripts/TCPClip.py:371-376 | after the prefetch loop the mark is the highest index dispatched, or the old mark when nothing was dispatched |
| Prefetch.Dispatch | VapourSynth64Portable_2020_09_06/VapourSynth64Portable/Scripts/TCPClip.py:371-376 | the prefetch loop adds one future for each index of the window that is neither queued nor at or below the mark, and sets the mark to `PrefetchMark` |
| Prefetch.PrefetchBounded | VapourSynth64Portable_2020_09_06/VapourSynth64Portable/Scripts/TCPClip.py:365-376 | one call dispatches at most `min(avail, num_frames - frame)` frames, all inside the clip, at or after `frame`, not yet queued and above the mark |
| Prefetch.Deliver | VapourSynth64Portable_2020_09_06/VapourSynth64Portable/Scripts/TCPClip.py:393-396 | a frame of the clip is delivered iff its index is in range, and it is exactly that frame; its future is popped, or else the mark is set to it |
| Prefetch.FrameStep | VapourSynth64Portable_2020_09_06/VapourSynth64Portable/Scripts/TCPClip.py:371-398 | the uncompressed `get_frame` keeps every queued future filed under its own index, and the mark at -1 or above |
| Prefetch.FrameStepDelivers | VapourSynth64Portable_2020_09_06/VapourSynth64Portable/Scripts/TCPClip.py:371-398 | a request is served iff the index is in the clip, with exactly that frame. Its future is then gone, other queued futures are untouched, and the only new ones are those dispatched. A frame computed synchronously becomes the mark |
| Prefetch.BackwardRequestLowersMark | VapourSynth64Portable_2020_09_06/VapourSynth64Portable/Scripts/TCPClip.py:373-396 | requests for frames 5 then 2 move the mark from 8 down to 2 |
| Prefetch.StepKeepsIncreasingInv | VapourSynth64Portable_2020_09_06/VapourSynth64Portable/Scripts/TCPClip.py:371-398 | for an increasing request, every index between the request and the mark stays queued, and nothing already dispatched is dispatched again |
| Prefetch.RunNeverRedispatchesFrom | VapourSynth64Portable_2020_09_06/VapourSynth64Portable/Scripts/TCPClip.py:371-398 | over strictly increasing requests, no two steps dispatch the same index, and none dispatches an index dispatched earlier |
| Prefetch.IncreasingRequestsNeverRedispatch | VapourSynth64Portable_2020_09_06/VapourSynth64Portable/Scripts/TCPClip.py:371-398 | on a fresh server (no futures, mark -1), strictly increasing uncompressed requests dispatch pairwise disjoint sets of frames: no frame is dispatched twice |
| Prefetch.BackwardRequestsRedispatch | VapourSynth64Portable_2020_09_06/VapourSynth64Portable/Scripts/TCPClip.py:371-398 | requests 5, 2, 3 with four usable threads dispatch frame 5 twice |
| Prefetch.StepKeepsConsecutiveInv | VapourSynth64Portable_2020_09_06/VapourSynth64Portable/Scripts/TCPClip.py:371-398 | for consecutive requests, the queue stays exactly the indices after the request up to the mark, and the mark stays less than `avail` ahead |
| Prefetch.ConsecutiveRequestsBounded | VapourSynth64Portable_2020_09_06/VapourSynth64Portable/Scripts/TCPClip.py:371-398 | while requests are consecutive, fewer than `avail` futures wait after each served request |
| Prefetch.SequentialReadingBounded | VapourSynth64Portable_2020_09_06/VapourSynth64Portable/Scripts/TCPClip.py:371-398 | reading frames 0, 1, 2, ... from a fresh server never leaves `avail` or more futures waiting |
| Prefetch.Pack | VapourSynth64Portable_2020_09_06/VapourSynth64Portable/Scripts/TCPClip.py:356-360 | a pipe reply carries only the data; otherwise the data travels with the frame's properties |
| Prefetch.TaskOutcome | VapourSynth64Portable_2020_09_06/VapourSynth64Portable/Scripts/TCPClip.py:342-360 | a compression task succeeds iff its index is in the clip, and then holds that frame's planes compressed at the configured level |
| Prefetch.CompressTask | VapourSynth64Portable_2020_09_06/VapourSynth64Portable/Scripts/TCPClip.py:342-360 | `execute_parallel_lzo` pops the frame's future. If none is queued, it computes the frame and moves the mark to it, unless the index is invalid |
| Prefetch.CompressMark | VapourSynth64Portable_2020_09_06/VapourSynth64Portable/Scripts/TCPClip.py:347-350 | after the compression tasks the mark is the old one, or an index of the window inside the clip |
| Prefetch.CompressMarkIsMax | VapourSynth64Portable_2020_09_06/VapourSynth64Portable/Scripts/TCPClip.py:347-350 | the mark after the tasks is the highest index a task computed synchronously; it is the old mark when no task did |
| Prefetch.CompressWindow | VapourSynth64Portable_2020_09_06/VapourSynth64Portable/Scripts/TCPClip.py:381-385 | the compression loop submits one task for each window index without a task; futures, tasks and mark end in closed form |
| Prefetch.CompressWindowKeepsPending | VapourSynth64Portable_2020_09_06/VapourSynth64Portable/Scripts/TCPClip.py:381-385 | tasks already waiting are never replaced; each new task lies in the window and holds the outcome for its own index; at most one task per index |
| Server.Lower | VapourSynth64Portable_2020_09_06/VapourSynth64Portable/Scripts/TCPClip.py:216 | lower-casing keeps the length and maps each character |
| Server.LowerIdempotent | VapourSynth64Portable_2020_09_06/VapourSynth64Portable/Scripts/TCPClip.py:216 | lower-casing twice is lower-casing once |
| Server.NormalizeMethod | VapourSynth64Portable_2020_09_06/VapourSynth64Portable/Scripts/TCPClip.py:215-220 | there is no method iff none was given, or LZO was asked for without the module; otherwise the kept name is the lower-cased one |
| Server.Configure | VapourSynth64Portable_2020_09_06/VapourSynth64Portable/Scripts/TCPClip.py:207-226 | `threads == 0` means the core's thread count, and `compression_threads == 0` means half of it. A pool exists iff compression threads != 1, with `max(compression_threads, 2)` workers |
| Server.Usable | VapourSynth64Portable_2020_09_06/VapourSynth64Portable/Scripts/TCPClip.py:364-370 | the usable count is the minimum of the limit and the CPU count, or the limit when the CPU probe fails |
| Server.MetaOf | VapourSynth64Portable_2020_09_06/VapourSynth64Portable/Scripts/TCPClip.py:313-340 | the header holds the clip's format, size, frame count, rate, frame 0's properties and the method in use; a clip without frames raises |
| Server.Accept | VapourSynth64Portable_2020_09_06/VapourSynth64Portable/Scripts/TCPClip.py:245-257 | the client is admitted iff nobody is connected, and admission marks the server connected; otherwise the reply is `'busy'` and nothing changes |
| Server.AfterPrefetch | VapourSynth64Portable_2020_09_06/VapourSynth64Portable/Scripts/TCPClip.py:364-376 | the prefetch leaves the compression tasks and the connection flag alone, and keeps the queue well formed |
| Server.PoolPath | VapourSynth64Portable_2020_09_06/VapourSynth64Portable/Scripts/TCPClip.py:379-390 | the pool path keeps the queue well formed and the connection flag unchanged |
| Server.DirectPath | VapourSynth64Portable_2020_09_06/VapourSynth64Portable/Scripts/TCPClip.py:391-405 | the direct path keeps the queue well formed and the connection flag unchanged |
| Server.FrameRequest | VapourSynth64Portable_2020_09_06/VapourSynth64Portable/Scripts/TCPClip.py:362-405 | `get_frame` never changes the connection flag and keeps the queue well formed |
| Server.Handle | VapourSynth64Portable_2020_09_06/VapourSynth64Portable/Scripts/TCPClip.py:264-311 | a turn that ends the session by return or exit releases the gate; one that continues or raises leaves it alone; one that ends sends at most one reply. A FRAME turn with both keys takes `FrameRequest`'s state; every other turn leaves the compression tasks alone |
| Server.Session | VapourSynth64Portable_2020_09_06/VapourSynth64Portable/Scripts/TCPClip.py:264-311 | every session ends (return, exit or exception), with a well-formed state |
| Server.UndecodableIsClose | VapourSynth64Portable_2020_09_06/VapourSynth64Portable/Scripts/TCPClip.py:268-272 | anything `pickle.loads` rejects, including the `None` of a closed stream, is handled exactly as CLOSE |
| Server.Classify | VapourSynth64Portable_2020_09_06/VapourSynth64Portable/Scripts/TCPClip.py:268-272 | `pickle.loads` fails on every undecodable payload and on `None`; the query is the decoded one iff the payload decodes; a crash inside `recv` propagates |
| Server.EarlyEndCloses | VapourSynth64Portable_2020_09_06/VapourSynth64Portable/Scripts/TCPClip.py:268-289 | a stream that ends before a whole message closes the session |
| Server.CloseKeepsCompressionState | VapourSynth64Portable_2020_09_06/VapourSynth64Portable/Scripts/TCPClip.py:280-289 | CLOSE replies `'close'`, empties the futures and releases the gate, but keeps the tasks and the mark |
| Server.CloseStep | VapourSynth64Portable_2020_09_06/VapourSynth64Portable/Scripts/TCPClip.py:280-289 | CLOSE replies `'close'`, returns, empties the futures and releases the gate; nothing else in the state changes |
| Server.VersionReplies | VapourSynth64Portable_2020_09_06/VapourSynth64Portable/Scripts/TCPClip.py:274-279 | VERSION replies `(2, 4, 0)` and changes nothing |
| Server.HeaderReplies | VapourSynth64Portable_2020_09_06/VapourSynth64Portable/Scripts/TCPClip.py:298-301 | HEADER replies with the clip header and changes nothing; for a clip without frames it raises, still changing nothing |
| Server.FrameTurn | VapourSynth64Portable_2020_09_06/VapourSynth64Portable/Scripts/TCPClip.py:302-305 | FRAME without `frame` or `pipe` raises and changes nothing; with both, the turn sends `get_frame`'s payload as its one reply and takes its new state, or raises with that state |
| Server.UnknownTypeCloses | VapourSynth64Portable_2020_09_06/VapourSynth64Portable/Scripts/TCPClip.py:306-311 | an unknown type ends the session without a reply and leaves futures, tasks and mark alone |
| Server.ExitEnds | VapourSynth64Portable_2020_09_06/VapourSynth64Portable/Scripts/TCPClip.py:290-297 | EXIT replies `'exit'`, releases the gate and ends the process |
| Server.SessionGate | VapourSynth64Portable_2020_09_06/VapourSynth64Portable/Scripts/TCPClip.py:264-311 | a session that returns or exits releases the gate; one that raises leaves it as it was |
| Server.CrashedSessionBlocksServer | VapourSynth64Portable_2020_09_06/VapourSynth64Portable/Scripts/TCPClip.py:249-311 | after an admitted session dies by an exception, the next client is refused as busy |
| Server.ClosedSessionReadmits | VapourSynth64Portable_2020_09_06/VapourSynth64Portable/Scripts/TCPClip.py:249-311 | after a session that returned, the next client is admitted |
| Server.FrameRequestServes | VapourSynth64Portable_2020_09_06/VapourSynth64Portable/Scripts/TCPClip.py:391-405 | without a pool, a request is served iff the index is in the clip. The reply holds exactly that frame, LZO-compressed when LZO is on. The frame's future is gone and the tasks are untouched |
| Server.CompressedRequestServes | VapourSynth64Portable_2020_09_06/VapourSynth64Portable/Scripts/TCPClip.py:379-390 | with an LZO pool, a request for a frame of the clip is served iff its task is waiting or the window is non-empty, and a waiting task made by a pipe request is not popped by a non-pipe one. Whatever is served holds that frame's planes compressed at the configured level (and its properties when sent with them); it is exactly `Pack` of them when the task matches `pipe`. The frame's task is gone afterwards |
| Server.PoolPathKeepsTasks | VapourSynth64Portable_2020_09_06/VapourSynth64Portable/Scripts/TCPClip.py:379-390 | the pool path keeps every waiting compression task the outcome of compressing its own index |
| Server.FrameRequestKeepsTasks | VapourSynth64Portable_2020_09_06/VapourSynth64Portable/Scripts/TCPClip.py:362-405 | `get_frame` keeps every waiting task the outcome for its own index |
| Server.HandleKeepsTasks | VapourSynth64Portable_2020_09_06/VapourSynth64Portable/Scripts/TCPClip.py:264-311 | every turn of `server_loop` keeps every waiting task the outcome for its own index |
| Server.SessionKeepsTasks | VapourSynth64Portable_2020_09_06/VapourSynth64Portable/Scripts/TCPClip.py:264-311 | a whole session keeps every waiting task the outcome for its own index, so a later session pops tasks for the right frames |
| Server.DirectRequestIsFrameStep | VapourSynth64Portable_2020_09_06/VapourSynth64Portable/Scripts/TCPClip.py:364-398 | without a pool, `get_frame` serves iff the prefetch-and-deliver step `FrameStep` serves, with the same futures and mark afterwards and that frame's planes and properties; the tasks and the gate are untouched |
| Server.StalePipeTaskCrashes | VapourSynth64Portable_2020_09_06/VapourSynth64Portable/Scripts/TCPClip.py:383-390 | a task left by a pipe request makes a later non-pipe request for that frame raise |
| Server.SingleThreadLzoPoolCrashes | VapourSynth64Portable_2020_09_06/VapourSynth64Portable/Scripts/TCPClip.py:221-226 | one thread with `compression_threads=0` and LZO gives a pool with an empty window: every frame request raises |
| Server.OtherMethodWithPoolCrashes | VapourSynth64Portable_2020_09_06/VapourSynth64Portable/Scripts/TCPClip.py:379-405 | a non-LZO method with a pool leaves `frame_data` unbound: every frame request raises |
| Server.Server.constructor | VapourSynth64Portable_2020_09_06/VapourSynth64Portable/Scripts/TCPClip.py:197-231 | the new server has the `Configure` settings, empty maps, mark -1 and nobody connected |
| Server.Server.AcceptClient | VapourSynth64Portable_2020_09_06/VapourSynth64Portable/Scripts/TCPClip.py:245-257 | one turn of the accept loop on the fields is exactly `Accept` |
| Server.Server.GetFrame | VapourSynth64Portable_2020_09_06/VapourSynth64Portable/Scripts/TCPClip.py:362-405 | `get_frame` on the fields gives exactly the payload and new state of `FrameRequest` |
| Server.Server.PoolFrame | VapourSynth64Portable_2020_09_06/VapourSynth64Portable/Scripts/TCPClip.py:379-390 | the pool path on the fields is exactly `PoolPath` |
| Server.Server.DirectFrame | VapourSynth64Portable_2020_09_06/VapourSynth64Portable/Scripts/TCPClip.py:391-405 | the direct path on the fields is exactly `DirectPath` |
| Server.Server.HandleOne | VapourSynth64Portable_2020_09_06/VapourSynth64Portable/Scripts/TCPClip.py:268-311 | one turn on the fields gives exactly `Handle`'s replies, state and outcome |
| Server.Server.ServerLoop | VapourSynth64Portable_2020_09_06/VapourSynth64Portable/Scripts/TCPClip.py:264-311 | the loop over the incoming queries gives exactly `Session`'s replies, state and outcome |
| Client.NatToStringRoundTrip | VapourSynth64Portable_2020_09_06/VapourSynth64Portable/Scripts/TCPClip.py:553 | the decimal text of a number in the header reads back as that number |
| Client.Shr | VapourSynth64Portable_2020_09_06/VapourSynth64Portable/Scripts/TCPClip.py:499-500 | `x >> k` is the largest `r` with `r * 2^k <= x`; so `4 >> k` is 0 for `k >= 3` |
| Client.Y4mCsp | VapourSynth64Portable_2020_09_06/VapourSynth64Portable/Scripts/TCPClip.py:491-507 | one plane gives `Cmono<bits>`, and a count other than 1 or 3 gives `C420p8`; three planes raise iff a subsampling is negative |
| Client.CspChromaLayouts | VapourSynth64Portable_2020_09_06/VapourSynth64Portable/Scripts/TCPClip.py:497-507 | subsampling (1,1), (1,0) and (0,0) give `C420p`, `C422p` and `C444p` at the format's depth |
| Client.CspExamples | VapourSynth64Portable_2020_09_06/VapourSynth64Portable/Scripts/TCPClip.py:497-507 | 10-bit 4:2:2 is `C422p10` and 8-bit grey is `Cmono8` |
| Client.FieldOrder | VapourSynth64Portable_2020_09_06/VapourSynth64Portable/Scripts/TCPClip.py:537-540 | `_FieldBased` 2 gives `t` and 1 gives `b` (both iff); any other int or text value, or no entry, gives `p` |
| Client.Sar | VapourSynth64Portable_2020_09_06/VapourSynth64Portable/Scripts/TCPClip.py:541-544 | without `_SARDen` the ratio is `0:0`; with both keys it is their text; with `_SARDen` alone, reading `_SARNum` raises (iff) |
| Client.Y4mHeader | VapourSynth64Portable_2020_09_06/VapourSynth64Portable/Scripts/TCPClip.py:553 | the header line starts with `YUV4MPEG2 ` and ends with a newline |
| Client.SarNumAloneIgnored | VapourSynth64Portable_2020_09_06/VapourSynth64Portable/Scripts/TCPClip.py:541-544 | a clip with `_SARNum` but no `_SARDen` is written with ratio `0:0` |
| Client.HeaderExample | VapourSynth64Portable_2020_09_06/VapourSynth64Portable/Scripts/TCPClip.py:537-554 | a progressive 1920x1080 24000/1001 8-bit 4:2:0 clip of 100 frames gives the exact header line `YUV4MPEG2 W1920 H1080 F24000:1001 Ip A0:0 C420p8 XYSCSS=C420p8 XLENGTH=100` |
| Client.HeaderIsOneLine | VapourSynth64Portable_2020_09_06/VapourSynth64Portable/Scripts/TCPClip.py:553 | the header's only newline is its last character |
| Client.Ask | VapourSynth64Portable_2020_09_06/VapourSynth64Portable/Scripts/TCPClip.py:440-451 | a query returns the server's next answer iff the socket is open and the answer is decodable and not `'busy'`; otherwise the process exits with status 2 |
| Client.Exit | VapourSynth64Portable_2020_09_06/VapourSynth64Portable/Scripts/TCPClip.py:466-473 | `exit()` sends EXIT and returns to its caller. The socket ends closed iff it was open and the query succeeded |
| Client.MajorOf | VapourSynth64Portable_2020_09_06/VapourSynth64Portable/Scripts/TCPClip.py:455-459 | the major version is 2 iff the answer is a version triple whose first item is 2; there is none exactly for answers without a first item |
| Client.PlanesOut | VapourSynth64Portable_2020_09_06/VapourSynth64Portable/Scripts/TCPClip.py:567-568 | each plane is written once, in order |
| Client.FramePlanes | VapourSynth64Portable_2020_09_06/VapourSynth64Portable/Scripts/TCPClip.py:563-568 | a frame answer yields its planes iff it is pipe data of the kind the header announced (LZO or raw) |
| Client.Frames | VapourSynth64Portable_2020_09_06/VapourSynth64Portable/Scripts/TCPClip.py:556-568 | the frame loop only appends to what was written and sent, and keeps the open flag and the compression setting; on a closed socket it writes and sends nothing |
| Client.FramesWritten | VapourSynth64Portable_2020_09_06/VapourSynth64Portable/Scripts/TCPClip.py:556-568 | against a server answering with frame data in the announced form (raw, or LZO then decompressed), frames are requested in order and each is written whole (`FRAME` line then planes). Writing stops before the end or the interruption |
| Client.VersionMismatchStopsServer | VapourSynth64Portable_2020_09_06/VapourSynth64Portable/Scripts/TCPClip.py:517-523 | a major version other than 2 sends EXIT, writes nothing, and ends with status 2 after exactly two queries |
| Client.BusyServerExits | VapourSynth64Portable_2020_09_06/VapourSynth64Portable/Scripts/TCPClip.py:445-447 | a `'busy'` answer ends the client with status 2 before anything is written |
| Client.DeepSamplesWriteHeaderOnly | VapourSynth64Portable_2020_09_06/VapourSynth64Portable/Scripts/TCPClip.py:493-495 | samples deeper than 16 bits still get the header written, and the server is told to exit. The client ends with status 2 at the first frame |
| Client.ToStdout | VapourSynth64Portable_2020_09_06/VapourSynth64Portable/Scripts/TCPClip.py:513-568 | for a client whose log level is known: on a closed socket `to_stdout` ends with status 2 and does nothing; it only appends to the output, and the first thing it writes, if anything, is the YUV4MPEG2 header line |
| Client.WriteStream | VapourSynth64Portable_2020_09_06/VapourSynth64Portable/Scripts/TCPClip.py:524-568 | after the header arrives, the output only grows, and its first new write, if any, is the YUV4MPEG2 header line |
| Client.FramesKeepFirst | VapourSynth64Portable_2020_09_06/VapourSynth64Portable/Scripts/TCPClip.py:553-568 | a header written before the frame loop stays the first new write |
| Client.PreludeThenFrames | VapourSynth64Portable_2020_09_06/VapourSynth64Portable/Scripts/TCPClip.py:513-555 | against a server of major version 2 with a usable header, `to_stdout` asks for version and header, writes the header line and enters the frame loop at 0 with the announced compression |
| Client.StreamIsHeaderThenFrames | VapourSynth64Portable_2020_09_06/VapourSynth64Portable/Scripts/TCPClip.py:513-568 | against a server of major version 2, with or without LZO, the output is the header line and then frames 0, 1, ... in order up to the clip's end or the interruption; the queries are the version, the header and the frames in order |
| Client.Client.constructor | VapourSynth64Portable_2020_09_06/VapourSynth64Portable/Scripts/TCPClip.py:411-433 | a new client is connected, with nothing sent or written and no compression |
| Client.Client.Query | VapourSynth64Portable_2020_09_06/VapourSynth64Portable/Scripts/TCPClip.py:440-451 | `query` on the fields is exactly `Ask` |
| Client.Client.ExitServer | VapourSynth64Portable_2020_09_06/VapourSynth64Portable/Scripts/TCPClip.py:466-473 | `exit` on the fields is exactly `Exit` |
| Client.Client.StreamFrames | VapourSynth64Portable_2020_09_06/VapourSynth64Portable/Scripts/TCPClip.py:556-568 | the frame loop on the fields is exactly `Frames` |
| Client.Client.ToStdoutRun | VapourSynth64Portable_2020_09_06/VapourSynth64Portable/Scripts/TCPClip.py:513-568 | `to_stdout` on the fields is exactly `ToStdout` |

## Left out

- Sockets, threads and processes are not modelled. The accept loop is one `Accept` per
  connection, and a session is one call of `ServerLoop` on the queries it receives.
  Concurrent sessions cannot occur because of the gate.
- `pickle` is not modelled: requests are `Query` values and replies are `Reply`
  values. A payload the decoder rejects is `Undecodable`.
- LZO is not modelled: compressed data is the symbolic value `Lzo(planes, level)`, and
  decompressing reads `planes` back.
- VapourSynth is not modelled: a clip is its format, geometry, rate and the frames it
  would produce. Frame futures are handles that resolve to the frame of their index.
- The compression pool is not modelled as concurrent. Each task runs to completion
  when it is submitted, in submission order. That is one legal schedule; interleaving
  with later prefetches is not captured.
- `get_usable_cpus_count` (CPU affinity) is a parameter, `cpus`: `None` when the probe
  raises. It is taken as constant for a session.
- Logging output, `get_caller`, `get_proto_version`, socket creation, bind and listen,
  and the bind failure exit are not modelled. Neither are the timing and ETA of
  `to_stdout`, `as_source` and `version(minor=True)`.
- `sigint_handler` is not modelled: the Ctrl-C flag becomes the parameter `stopAt`,
  the first frame index at which the flag is seen.
- Server.Lower: lower-cases ASCII letters only. Python's Unicode case mapping is not
  modelled.
- `ConnectionResetError` caught inside `send` is not modelled. Such a send loses the
  reply, and the loop goes on.
- Client.MajorOf: a text answer is modelled by its first character, which can never
  equal 2. A frame or header answer to VERSION is modelled as raising.
- Client.FieldOrder: frame property values are modelled as ints or text only. A float
  `_FieldBased` of 2.0 or 1.0 would give `t` or `b` (the dictionary lookup compares
  numbers by value), and a list value would raise `TypeError`; neither is expressible.
- Server.Server.constructor: the log level is assumed to be a known name. An unknown
  name makes `as_enum` give `None` (lines 128-133), so the constructor's first log
  call (line 236) raises before the server listens; the model's server serves anyway.
- Client.ToStdout: the log level is assumed to be a known name. With an unknown name
  `to_stdout` raises at its first level comparison (line 515), before any query, so
  its contract (a closed socket ending with status 2 included) holds only for a known
  level.
- Client.ToStdout: the empty-header and missing `format`/`props` checks are not
  modelled. The server's header always carries those keys.
- Client.Frames: its own contract states only that the loop appends and keeps the
  socket and compression flags. What the loop writes is stated by `FramesWritten` and
  `StreamIsHeaderThenFrames`.
- Prefetch.PrefetchMark and Prefetch.CompressMark: their contracts state only bounds.
  The maximum property is stated by `PrefetchMarkIsMax` and `CompressMarkIsMax`.
- Server.Handle, Server.Session and Server.FrameRequest: their contracts state gate,
  well-formedness and task-map facts. The replies of VERSION, CLOSE, EXIT, HEADER,
  FRAME and unknown types are stated by `VersionReplies`, `CloseKeepsCompressionState`,
  `ExitEnds`, `HeaderReplies`, `FrameTurn` and `UnknownTypeCloses`; the served frame by
  `FrameRequestServes`, `CompressedRequestServes` and `DirectRequestIsFrameStep`.
- Prefetch.IncreasingRequestsNeverRedispatch: proved for the uncompressed path from a
  fresh server only. After a CLOSE the mark and tasks persist, and compression tasks
  that compute a frame synchronously are not counted as dispatches.
