/** The two parsers of process-connector messages: `parse_frames` (src/netlink.rs) and the loop
    inside the daemon's listener (src/daemon.rs).  Multi-byte fields are little-endian. */
module Netlink {
  import opened Prelude

  type Byte = b: int | 0 <= b < 256

  type Bytes = seq<Byte>

  datatype Frame =
    | Fork(parent: int, child: int)
    | Exec(pid: int)
    | Exit(pid: int, status: int, signal: int)
    | KernelError(code: int)

  const HEADER := 16

  const NLMSG_ERROR := 2

  const EPROTO := 71

  const PROC_EVENT_EXIT := 0x8000_0000

  /** The daemon's receive buffer. */
  const BUFFER := 8192

  function At(b: Bytes, i: nat): (r: nat)
    requires i < |b|
    ensures r < 256
  {
    b[i]
  }

  function U16(b: Bytes, i: nat): nat
    requires i + 2 <= |b|
  {
    At(b, i) + 256 * At(b, i + 1)
  }

  function U32(b: Bytes, i: nat): (r: nat)
    requires i + 4 <= |b|
    ensures r < 0x1_0000_0000
  {
    At(b, i) + 256 * (At(b, i + 1) + 256 * (At(b, i + 2) + 256 * At(b, i + 3)))
  }

  function I32(b: Bytes, i: nat): (r: int)
    requires i + 4 <= |b|
    ensures -0x8000_0000 <= r < 0x8000_0000
  {
    Signed(U32(b, i))
  }

  /** The same 32 bits as a signed number. */
  function Signed(n: nat): int {
    if n < 0x8000_0000 then n else n - 0x1_0000_0000
  }

  function Align(n: nat): (r: nat)
    ensures n <= r < n + 4 && r % 4 == 0
  {
    (n + 3) / 4 * 4
  }

  // ---- parse_frames -------------------------------------------------------------------------------------------

  /** The event in the connector part of a message. */
  function Connector(c: Bytes): seq<Frame> {
    if |c| < 24 || U32(c, 0) != 1 || U32(c, 4) != 1 then [] else
    var event := c[20..];
    var what := U32(event, 0);
    if what == 1 && |event| >= 32 then [Fork(I32(event, 16), I32(event, 24))]
    else if what == 2 && |event| >= 24 then [Exec(I32(event, 16))]
    else if what == PROC_EVENT_EXIT && |event| >= 32 then [Exit(I32(event, 16), I32(event, 24), I32(event, 28))]
    else []
  }

  /** What `parse_frames` takes from the message of `n` bytes at the front of `b`. */
  function ParseHead(b: Bytes, n: nat): seq<Frame>
    requires HEADER <= n <= |b|
  {
    if U16(b, 4) == NLMSG_ERROR then
      var code := if |b| >= 20 then I32(b, 16) else -EPROTO;
      if code != 0 then [KernelError(code)] else []
    else
      Connector(b[HEADER..n])
  }

  function Parse(b: Bytes): seq<Frame>
    decreases |b|
  {
    if |b| < HEADER then [] else
    var n := U32(b, 0);
    if n < HEADER || n > |b| then [] else
    ParseHead(b, n) + if Align(n) <= |b| then Parse(b[Align(n)..]) else []
  }

  method ParseFrames(bytes: Bytes) returns (frames: seq<Frame>)
    ensures frames == Parse(bytes)
  {
    hide ParseHead, Parse, ParseRest, U32, U16, I32, Connector, Align;
    frames := [];
    ParseStart(bytes);
    var offset := 0;
    while offset + HEADER <= |bytes|
      invariant Parse(bytes) == frames + ParseRest(bytes, offset)
      decreases |bytes| - offset
    {
      ParseStep(bytes, offset);
      var length := U32(bytes, offset);
      if length < HEADER || offset + length > |bytes| {
        break;
      }
      Assoc(frames, ParseHead(bytes[offset..], length), ParseRest(bytes, offset + Align(length)));
      if U16(bytes, offset + 4) == NLMSG_ERROR {
        var code := if offset + 20 <= |bytes| then I32(bytes, offset + 16) else -EPROTO;
        if code != 0 {
          frames := frames + [KernelError(code)];
        }
      } else {
        frames := frames + Connector(bytes[offset + HEADER..offset + length]);
      }
      offset := offset + Align(length);
    }
    ParseEnd(bytes, offset);
  }

  lemma Assoc(a: seq<Frame>, b: seq<Frame>, c: seq<Frame>)
    ensures a + (b + c) == (a + b) + c
    ensures a + [] == a
  {
  }

  function ParseRest(bytes: Bytes, offset: nat): seq<Frame> {
    if offset <= |bytes| then Parse(bytes[offset..]) else []
  }

  lemma ParseStart(bytes: Bytes)
    ensures ParseRest(bytes, 0) == Parse(bytes) == [] + ParseRest(bytes, 0)
  {
    assert bytes[0..] == bytes;
  }

  lemma ParseEnd(bytes: Bytes, offset: nat)
    ensures offset + HEADER > |bytes| ==> ParseRest(bytes, offset) == []
  {
  }

  lemma ReadAt(b: Bytes, offset: nat, i: nat)
    requires offset + i + 4 <= |b|
    ensures U32(b[offset..], i) == U32(b, offset + i) && U16(b[offset..], i) == U16(b, offset + i)
  {
  }

  lemma ParseStep(bytes: Bytes, offset: nat)
    requires offset + HEADER <= |bytes|
    ensures var n := U32(bytes, offset);
            if n < HEADER || offset + n > |bytes| then ParseRest(bytes, offset) == []
            else
              && ParseRest(bytes, offset) == ParseHead(bytes[offset..], n) + ParseRest(bytes, offset + Align(n))
              && (U16(bytes, offset + 4) == NLMSG_ERROR ==>
                    var code := if offset + 20 <= |bytes| then I32(bytes, offset + 16) else -EPROTO;
                    ParseHead(bytes[offset..], n) == if code != 0 then [KernelError(code)] else [])
              && (U16(bytes, offset + 4) != NLMSG_ERROR ==>
                    ParseHead(bytes[offset..], n) == Connector(bytes[offset + HEADER..offset + n]))
  {
    hide U32, U16, Connector, Align;
    var b := bytes[offset..];
    ReadAt(bytes, offset, 0);
    ReadAt(bytes, offset, 4);
    var n := U32(b, 0);
    if HEADER <= n <= |b| {
      assert b[HEADER..n] == bytes[offset + HEADER..offset + n];
      if |b| >= 20 {
        ReadAt(bytes, offset, 16);
      }
      if Align(n) <= |b| {
        assert b[Align(n)..] == bytes[offset + Align(n)..];
      }
    }
  }

  // ---- The daemon's loop --------------------------------------------------------------------------------------

  /** The event at the front of `b`, read up to the end of the buffer and not of the message. */
  function Event(b: Bytes): seq<Frame>
    requires |b| >= 36
  {
    if U32(b, 16) != 1 || U32(b, 20) != 1 || |b| < 40 then [] else
    var what := U32(b, 36);
    if what == 1 && |b| >= 68 then [Fork(I32(b, 52), I32(b, 60))]
    else if what == 2 && |b| >= 60 then [Exec(I32(b, 52))]
    else if what == PROC_EVENT_EXIT && |b| >= 68 then [Exit(I32(b, 52), I32(b, 60), I32(b, 64))]
    else []
  }

  /** The events taken from a buffer, and the error that ended the listener, if any. */
  function Listen(b: Bytes): (seq<Frame>, Option<int>)
    decreases |b|
  {
    if |b| < HEADER then ([], None) else
    var n := U32(b, 0);
    if n < HEADER || n > |b| then ([], None) else
    var next := if Align(n) <= |b| then Listen(b[Align(n)..]) else ([], None);
    if U16(b, 4) == NLMSG_ERROR then
      var code := if n >= 20 then I32(b, 16) else -EPROTO;
      if code != 0 then ([], Some(code)) else next
    else if |b| < 36 then ([], None)
    else (Event(b) + next.0, next.1)
  }

  datatype Node = Node(ppid: int, name: string)

  datatype Kind = FORK | EXEC | EXIT

  datatype ProcessEvent = ProcessEvent(kind: Kind, pid: int, ppid: int, name: string, exit: Option<(int, int)>)

  /** What /proc says about a process when it is looked up. */
  datatype Proc = Proc(comm: int -> string, parent: int -> int)

  function EventOf(tree: map<int, Node>, f: Frame, proc: Proc): ProcessEvent
    requires !f.KernelError?
  {
    match f
    case Fork(parent, child) => ProcessEvent(FORK, child, parent, proc.comm(child), None)
    case Exec(pid) => ProcessEvent(EXEC, pid, 0, proc.comm(pid), None)
    case Exit(pid, status, signal) =>
      ProcessEvent(EXIT, pid, 0, if pid in tree then tree[pid].name else "", Some((status, signal)))
  }

  function Track(tree: map<int, Node>, f: Frame, proc: Proc): map<int, Node>
    requires !f.KernelError?
  {
    match f
    case Fork(parent, child) => tree[child := Node(parent, proc.comm(child))]
    case Exec(pid) =>
      tree[pid := if pid in tree then tree[pid].(name := proc.comm(pid)) else Node(proc.parent(pid), proc.comm(pid))]
    case Exit(pid, _, _) => tree - {pid}
  }

  function TrackAll(tree: map<int, Node>, frames: seq<Frame>, proc: Proc): map<int, Node>
    requires forall f | f in frames :: !f.KernelError?
  {
    if frames == [] then tree
    else Track(TrackAll(tree, frames[..|frames| - 1], proc), frames[|frames| - 1], proc)
  }

  function EventsOf(tree: map<int, Node>, frames: seq<Frame>, proc: Proc): seq<ProcessEvent>
    requires forall f | f in frames :: !f.KernelError?
  {
    if frames == [] then [] else
    var n := |frames| - 1;
    EventsOf(tree, frames[..n], proc) + [EventOf(TrackAll(tree, frames[..n], proc), frames[n], proc)]
  }

  lemma {:induction false} ListenOnlyEvents(b: Bytes)
    ensures forall f | f in Listen(b).0 :: !f.KernelError?
    decreases |b|
  {
    hide U16, U32, I32, Align;
    if |b| >= HEADER && HEADER <= U32(b, 0) <= |b| && Align(U32(b, 0)) <= |b| {
      ListenOnlyEvents(b[Align(U32(b, 0))..]);
    }
  }

  /** The listener: the process tree it keeps and the events it has published. */
  class Listener {
    var tree: map<int, Node>
    var events: seq<ProcessEvent>

    constructor (scanned: map<int, Node>)
      ensures tree == scanned && events == []
    {
      tree, events := scanned, [];
    }

    method Publish(f: Frame, proc: Proc)
      requires !f.KernelError?
      modifies this
      ensures tree == Track(old(tree), f, proc)
      ensures events == old(events) + [EventOf(old(tree), f, proc)]
    {
      var event := EventOf(tree, f, proc);
      match f {
        case Fork(parent, child) =>
          tree := tree[child := Node(parent, proc.comm(child))];
        case Exec(pid) =>
          if pid in tree {
            tree := tree[pid := tree[pid].(name := proc.comm(pid))];
          } else {
            tree := tree[pid := Node(proc.parent(pid), proc.comm(pid))];
          }
        case Exit(pid, _, _) =>
          tree := tree - {pid};
      }
      events := events + [event];
    }

    /** One received buffer; the result is the error that ends the listener. */
    method Receive(buffer: Bytes, proc: Proc) returns (stopped: Option<int>)
      modifies this
      ensures stopped == Listen(buffer).1
      ensures forall f | f in Listen(buffer).0 :: !f.KernelError?
      ensures tree == TrackAll(old(tree), Listen(buffer).0, proc)
      ensures events == old(events) + EventsOf(old(tree), Listen(buffer).0, proc)
    {
      hide Listen, U32, U16, I32, Event, Align, Track, EventOf, TrackAll, EventsOf;
      NothingTracked(tree, proc);
      ListenOnlyEvents(buffer);
      ghost var seen: seq<Frame> := [];
      var offset := 0;
      assert buffer[0..] == buffer;
      while offset + HEADER <= |buffer|
        invariant Listen(buffer).0 == seen + ListenRest(buffer, offset).0
        invariant Listen(buffer).1 == ListenRest(buffer, offset).1
        invariant forall f | f in seen :: !f.KernelError?
        invariant tree == TrackAll(old(tree), seen, proc)
        invariant events == old(events) + EventsOf(old(tree), seen, proc)
        decreases |buffer| - offset
      {
        ListenStep(buffer, offset);
        var length := U32(buffer, offset);
        if length < HEADER || offset + length > |buffer| {
          break;
        }
        if U16(buffer, offset + 4) == NLMSG_ERROR {
          var code := if length >= 20 then I32(buffer, offset + 16) else -EPROTO;
          if code != 0 {
            assert seen + [] == seen;
            return Some(code);
          }
          offset := offset + Align(length);
          continue;
        }
        if offset + 36 > |buffer| {
          break;
        }
        var found := Event(buffer[offset..]);
        if found != [] {
          EventIsOne(buffer[offset..]);
          TrackOne(old(tree), seen, found[0], proc);
          Publish(found[0], proc);
          assert found == [found[0]];
          seen := seen + [found[0]];
        }
        offset := offset + Align(length);
      }
      ListenEnd(buffer, offset);
      assert seen + [] == seen;
      stopped := None;
    }
  }

  lemma NothingTracked(tree: map<int, Node>, proc: Proc)
    ensures TrackAll(tree, [], proc) == tree && EventsOf(tree, [], proc) == []
  {
  }

  lemma TrackOne(tree: map<int, Node>, seen: seq<Frame>, f: Frame, proc: Proc)
    requires !f.KernelError? && forall x | x in seen :: !x.KernelError?
    ensures TrackAll(tree, seen + [f], proc) == Track(TrackAll(tree, seen, proc), f, proc)
    ensures EventsOf(tree, seen + [f], proc) == EventsOf(tree, seen, proc) + [EventOf(TrackAll(tree, seen, proc), f, proc)]
  {
    hide Track, EventOf;
    assert (seen + [f])[..|seen|] == seen;
  }

  lemma EventIsOne(b: Bytes)
    requires |b| >= 36 && Event(b) != []
    ensures |Event(b)| == 1 && !Event(b)[0].KernelError?
  {
  }

  function ListenRest(b: Bytes, offset: nat): (seq<Frame>, Option<int>) {
    if offset <= |b| then Listen(b[offset..]) else ([], None)
  }

  lemma ListenEnd(b: Bytes, offset: nat)
    ensures offset + HEADER > |b| ==> ListenRest(b, offset) == ([], None)
  {
  }

  lemma ListenStep(b: Bytes, offset: nat)
    requires offset + HEADER <= |b|
    ensures var n := U32(b, offset);
            var here := ListenRest(b, offset);
            if n < HEADER || offset + n > |b| then here == ([], None)
            else
              var next := ListenRest(b, offset + Align(n));
              if U16(b, offset + 4) == NLMSG_ERROR then
                var code := if n >= 20 then I32(b, offset + 16) else -EPROTO;
                here == if code != 0 then ([], Some(code)) else next
              else if offset + 36 > |b| then here == ([], None)
              else here == (Event(b[offset..]) + next.0, next.1)
  {
    hide U32, U16, Event, Align;
    var rest := b[offset..];
    ReadAt(b, offset, 0);
    ReadAt(b, offset, 4);
    var n := U32(rest, 0);
    if HEADER <= n <= |rest| {
      if n >= 20 {
        ReadAt(b, offset, 16);
      }
      if Align(n) <= |rest| {
        assert rest[Align(n)..] == b[offset + Align(n)..];
      }
    }
  }

  // ---- Chains of messages -------------------------------------------------------------------------------------

  /** One aligned message that states its own length. */
  predicate Message(m: Bytes) {
    HEADER <= |m| && |m| % 4 == 0 && U32(m, 0) == |m|
  }

  predicate IsError(m: Bytes)
    requires Message(m)
  {
    U16(m, 4) == NLMSG_ERROR
  }

  /** An error message holds its code. */
  predicate Whole(m: Bytes)
    requires Message(m)
  {
    IsError(m) ==> |m| >= 20
  }

  /** The frames of one message, looking at nothing but the message. */
  function FrameOf(m: Bytes): seq<Frame>
    requires Message(m)
  {
    ParseHead(m, |m|)
  }

  /** The connector message of the process events. */
  predicate IsProc(m: Bytes) {
    |m| >= 24 && U32(m, 16) == 1 && U32(m, 20) == 1
  }

  /** An error message holds its code; a process-event message has its connector header, and is as
      long as the event it declares. */
  predicate Complete(m: Bytes)
    requires Message(m)
  {
    && Whole(m)
    && (!IsError(m) && IsProc(m) ==>
          && |m| >= 36
          && (|m| >= 40 ==>
                var what := U32(m, 36);
                && (what == 1 || what == PROC_EVENT_EXIT ==> |m| >= 68)
                && (what == 2 ==> |m| >= 60)))
  }

  predicate Chain(ms: seq<Bytes>) {
    forall m | m in ms :: Message(m)
  }

  predicate CompleteChain(ms: seq<Bytes>) {
    forall m | m in ms :: Message(m) && Complete(m)
  }

  function Concat(ms: seq<Bytes>): Bytes {
    if ms == [] then [] else ms[0] + Concat(ms[1..])
  }

  /** What `parse_frames` takes from the first message: its frame, except that an error message too
      short for its code takes the length of the message after it for the code. */
  function FirstFrame(ms: seq<Bytes>): seq<Frame>
    requires Chain(ms) && ms != []
  {
    if Whole(ms[0]) || |ms| == 1 then FrameOf(ms[0]) else [KernelError(Signed(|ms[1]|))]
  }

  function FramesOf(ms: seq<Bytes>): seq<Frame>
    requires Chain(ms)
  {
    if ms == [] then [] else FirstFrame(ms) + FramesOf(ms[1..])
  }

  /** The frames before the first kernel error, and that error. */
  function BeforeError(frames: seq<Frame>): (seq<Frame>, Option<int>) {
    if frames == [] then ([], None)
    else if frames[0].KernelError? then ([], Some(frames[0].code))
    else var (rest, code) := BeforeError(frames[1..]); ([frames[0]] + rest, code)
  }

  /** Reading within a message is reading the message. */
  lemma ReadFront(m: Bytes, r: Bytes, i: nat)
    requires i + 4 <= |m|
    ensures U32(m + r, i) == U32(m, i) && U16(m + r, i) == U16(m, i) && I32(m + r, i) == I32(m, i)
  {
  }

  lemma HeadOfMessage(m: Bytes, r: Bytes)
    requires Message(m) && (Whole(m) || r == [])
    ensures ParseHead(m + r, |m|) == FrameOf(m)
  {
    hide U32, U16, Connector, I32;
    if r == [] {
      assert m + r == m;
    } else {
      ReadFront(m, r, 4);
      if |m| >= 20 {
        ReadFront(m, r, 16);
      }
      assert (m + r)[HEADER..|m|] == m[HEADER..|m|];
    }
  }

  /** A short error message in front of another one. */
  lemma HeadOfShort(m: Bytes, next: Bytes, r: Bytes)
    requires Message(m) && !Whole(m) && Message(next)
    ensures ParseHead(m + (next + r), |m|) == [KernelError(Signed(|next|))]
  {
    hide U32, U16, Signed;
    var b := m + (next + r);
    ReadFront(m, next + r, 4);
    ReadFront(next, r, 0);
    assert b[16..] == next + r;
    ReadWithin(b, 16, next + r, 0);
    SignedNotZero(|next|);
  }

  lemma SignedNotZero(n: nat)
    requires 0 < n < 0x1_0000_0000
    ensures Signed(n) != 0
  {
  }

  lemma FirstOfChain(ms: seq<Bytes>)
    requires Chain(ms) && ms != []
    ensures ms[0] in ms && |ms[0]| <= |Concat(ms)| && ParseHead(Concat(ms), |ms[0]|) == FirstFrame(ms)
  {
    hide ParseHead, FrameOf, Message, Whole;
    var m, r := ms[0], Concat(ms[1..]);
    assert m in ms;
    if Whole(m) || |ms| == 1 {
      HeadOfMessage(m, r);
    } else {
      assert ms[1] in ms && ms[1..][0] == ms[1];
      HeadOfShort(m, ms[1], Concat(ms[1..][1..]));
    }
  }

  /** `parse_frames` yields the frames of the messages, one message after the other. */
  lemma {:induction false} ChainParses(ms: seq<Bytes>)
    requires Chain(ms)
    ensures Parse(Concat(ms)) == FramesOf(ms)
  {
    hide U32, U16, ParseHead, FirstFrame;
    if ms != [] {
      var m, r := ms[0], Concat(ms[1..]);
      assert m in ms;
      ReadFront(m, r, 0);
      FirstOfChain(ms);
      Aligned(|m|);
      assert (m + r)[|m|..] == r;
      ChainParses(ms[1..]);
    }
  }

  lemma Aligned(n: nat)
    requires n % 4 == 0
    ensures Align(n) == n
  {
  }

  /** A message holds at most one frame, and none below 36 bytes unless it is an error. */
  lemma FrameOfSize(m: Bytes)
    requires Message(m)
    ensures |FrameOf(m)| <= 1
    ensures U16(m, 4) != NLMSG_ERROR ==> forall f | f in FrameOf(m) :: !f.KernelError?
    ensures U16(m, 4) != NLMSG_ERROR && |m| < 36 ==> FrameOf(m) == []
    ensures |m| < 20 && Whole(m) ==> FrameOf(m) == []
  {
    hide U32, U16;
  }

  lemma {:induction false} ShortChain(ms: seq<Bytes>)
    requires CompleteChain(ms) && |Concat(ms)| < 20
    ensures Chain(ms) && FramesOf(ms) == []
  {
    hide U32, U16, FrameOf;
    if ms != [] {
      assert ms[0] in ms;
      FrameOfSize(ms[0]);
      ShortChain(ms[1..]);
    }
  }

  /** The daemon reads the same event as long as the message is complete. */
  lemma EventOfMessage(m: Bytes, ms: seq<Bytes>)
    requires Message(m) && Complete(m) && U16(m, 4) != NLMSG_ERROR && Chain(ms)
    requires 36 <= |m + Concat(ms)| <= BUFFER
    ensures Event(m + Concat(ms)) == FrameOf(m)
  {
    hide U32;
    var r := Concat(ms);
    var b := m + r;
    FrameOfProc(m);
    if !IsProc(m) {
      NotProc(m, ms);
    } else {
      ReadFront(m, r, 16);
      ReadFront(m, r, 20);
      if |m| == 36 {
        if |b| >= 40 {
          NextLength(m, ms, 36);
        }
      } else {
        ReadFront(m, r, 36);
        FrontFields(m, r);
      }
    }
  }

  lemma FrontFields(m: Bytes, r: Bytes)
    ensures |m| >= 56 ==> I32(m + r, 52) == I32(m, 52)
    ensures |m| >= 64 ==> I32(m + r, 60) == I32(m, 60)
    ensures |m| >= 68 ==> I32(m + r, 64) == I32(m, 64)
  {
    hide U32;
    if |m| >= 56 {
      ReadFront(m, r, 52);
    }
    if |m| >= 64 {
      ReadFront(m, r, 60);
    }
    if |m| >= 68 {
      ReadFront(m, r, 64);
    }
  }

  /** A message that is not an error, read at offsets from its own start. */
  lemma FrameOfProc(m: Bytes)
    requires Message(m) && U16(m, 4) != NLMSG_ERROR
    ensures FrameOf(m)
            == if !IsProc(m) || |m| < 40 then []
               else var what := U32(m, 36);
                    if what == 1 && |m| >= 68 then [Fork(I32(m, 52), I32(m, 60))]
                    else if what == 2 && |m| >= 60 then [Exec(I32(m, 52))]
                    else if what == PROC_EVENT_EXIT && |m| >= 68 then [Exit(I32(m, 52), I32(m, 60), I32(m, 64))]
                    else []
  {
    hide U32;
    var c := m[HEADER..|m|];
    if |m| >= 40 {
      ReadWithin(m, 16, c, 0);
      ReadWithin(m, 20, c, 4);
      var event := c[20..];
      ReadWithin(m, 36, event, 0);
      if |m| >= 56 {
        ReadWithin(m, 52, event, 16);
      }
      if |m| >= 64 {
        ReadWithin(m, 60, event, 24);
      }
      if |m| >= 68 {
        ReadWithin(m, 64, event, 28);
      }
    }
  }

  lemma ReadWithin(m: Bytes, i: nat, c: Bytes, j: nat)
    requires i + 4 <= |m| && j + 4 <= |c| && i >= j && c == m[i - j..]
    ensures U32(c, j) == U32(m, i)
  {
    assert c[j] == m[i] && c[j + 1] == m[i + 1] && c[j + 2] == m[i + 2] && c[j + 3] == m[i + 3];
  }

  /** Past the end of a message comes the length of the next one. */
  lemma NextLength(m: Bytes, ms: seq<Bytes>, i: nat)
    requires Chain(ms) && i == |m| && |m + Concat(ms)| >= i + 4
    ensures HEADER <= U32(m + Concat(ms), i) <= |Concat(ms)|
  {
    hide U16;
    var r := Concat(ms);
    assert ms != [] && ms[0] in ms;
    assert (m + r)[i..] == r;
    ReadWithin(m + r, i, r, 0);
    ReadFront(ms[0], Concat(ms[1..]), 0);
  }

  /** A message of another connector, or one too short to say, gives the daemon nothing. */
  lemma NotProc(m: Bytes, ms: seq<Bytes>)
    requires Message(m) && !IsProc(m) && Chain(ms)
    requires 36 <= |m + Concat(ms)|
    ensures Event(m + Concat(ms)) == []
  {
    hide U32;
    var r := Concat(ms);
    if |m| == 16 {
      NextLength(m, ms, 16);
    } else if |m| == 20 {
      NextLength(m, ms, 20);
    } else {
      ReadFront(m, r, 16);
      ReadFront(m, r, 20);
    }
  }

  /** The daemon's loop emits the same events as `parse_frames`, up to the first kernel error, at
      which it stops; it does so although it skips the end of a buffer too short for an event. */
  lemma {:induction false} ChainListens(ms: seq<Bytes>)
    requires CompleteChain(ms) && |Concat(ms)| <= BUFFER
    ensures Chain(ms) && Listen(Concat(ms)) == BeforeError(FramesOf(ms))
  {
    hide U32, U16, FrameOf, Event, Complete, I32, Listen, BeforeError;
    if ms == [] {
      ListenNothing();
    } else {
      var m, rest := ms[0], ms[1..];
      assert m in ms;
      ChainListens(rest);
      FrameOfSize(m);
      CompleteIsWhole(m);
      ListenFront(m, Concat(rest));
      BeforeErrorConcat(FrameOf(m), FramesOf(rest));
      if U16(m, 4) == NLMSG_ERROR {
        ErrorFrame(m);
      } else if |m + Concat(rest)| < 36 {
        ShortChain(rest);
        ListenNothing();
      } else {
        EventOfMessage(m, rest);
        assert [] + Listen(Concat(rest)).0 == Listen(Concat(rest)).0;
      }
    }
  }

  lemma CompleteIsWhole(m: Bytes)
    requires Message(m) && Complete(m)
    ensures Whole(m)
  {
    hide U32, U16;
  }

  lemma ListenNothing()
    ensures Listen([]) == ([], None) == BeforeError([])
  {
  }

  /** The loop's step on a buffer that starts with a message. */
  lemma ListenFront(m: Bytes, r: Bytes)
    requires Message(m) && Whole(m)
    ensures Listen(m + r)
            == if U16(m, 4) == NLMSG_ERROR then (if I32(m, 16) != 0 then ([], Some(I32(m, 16))) else Listen(r))
               else if |m + r| < 36 then ([], None)
               else (Event(m + r) + Listen(r).0, Listen(r).1)
  {
    hide U32, U16, Event, I32;
    ReadFront(m, r, 0);
    ReadFront(m, r, 4);
    Aligned(|m|);
    assert (m + r)[|m|..] == r;
    if |m| >= 20 {
      ReadFront(m, r, 16);
    }
  }

  lemma ErrorFrame(m: Bytes)
    requires Message(m) && Whole(m) && IsError(m)
    ensures FrameOf(m) == if I32(m, 16) != 0 then [KernelError(I32(m, 16))] else []
  {
    hide U32, U16, I32;
  }

  lemma BeforeErrorConcat(a: seq<Frame>, b: seq<Frame>)
    requires |a| <= 1
    ensures BeforeError(a + b)
            == if a == [] then BeforeError(b)
               else if a[0].KernelError? then ([], Some(a[0].code))
               else (a + BeforeError(b).0, BeforeError(b).1)
  {
    if a == [] {
      assert a + b == b;
    } else {
      assert (a + b)[1..] == b && a == [a[0]];
    }
  }

  /** A message of type NOOP with bytes that read as a fork to whoever looks at them too early. */
  const PADDING: Bytes := [64, 0, 0, 0, 1, 0, 0, 0, 1, 0, 0, 0, 1, 0, 0, 0] + seq(48, i => 0)

  lemma PaddingIsHarmless()
    ensures |PADDING| == 64 && Message(PADDING) && Complete(PADDING) && FrameOf(PADDING) == []
    ensures U32(PADDING, 4) == 1 && U32(PADDING, 8) == 1 && U32(PADDING, 12) == 1
  {
    hide Connector;
    assert !IsProc(PADDING);
    FrameOfProc(PADDING);
  }

  /** After an incomplete process-event message the daemon reads on into the next one and reports an
      event that no message holds, where `parse_frames` reports none. */
  lemma IncompleteIsMisread(m: Bytes)
    requires Message(m) && Whole(m) && !Complete(m)
    ensures |Listen(m + PADDING).0| == 1
    ensures Parse(m + PADDING) == []
  {
    hide U32, U16, I32, FrameOf;
    PaddingIsHarmless();
    var b := m + PADDING;
    ReadFront(m, PADDING, 0);
    ReadFront(m, PADDING, 4);
    ReadFront(m, PADDING, 16);
    ReadFront(m, PADDING, 20);
    Aligned(|m|);
    assert b[|m|..] == PADDING;
    FrameOfProc(m);
    SingleMessage(PADDING);
    PairConcat(m, PADDING);
    PairFrames(m, PADDING);
    ChainParses([m, PADDING]);
    ReadInPadding(m);
    assert |Event(b)| == 1;
  }

  /** On an error message too short for its code the two give different codes: the daemon a fixed one,
      `parse_frames` the length of the message that follows. */
  lemma ShortErrorIsMisread(m: Bytes, next: Bytes)
    requires Message(m) && !Whole(m) && Message(next)
    ensures Listen(m + next) == ([], Some(-EPROTO))
    ensures BeforeError(Parse(m + next)) == ([], Some(Signed(|next|)))
  {
    hide Message, Whole, Listen, Parse, Signed, FrameOf, BeforeError;
    ShortErrorListens(m, next);
    PairConcat(m, next);
    var ms := [m, next];
    assert ms[0] == m && ms[1] == next && Chain(ms);
    ChainParses(ms);
    assert FirstFrame(ms) == [KernelError(Signed(|next|))];
    assert FramesOf(ms) == FirstFrame(ms) + FramesOf(ms[1..]);
    BeforeErrorConcat(FirstFrame(ms), FramesOf(ms[1..]));
  }

  lemma ShortErrorListens(m: Bytes, next: Bytes)
    requires Message(m) && !Whole(m)
    ensures Listen(m + next) == ([], Some(-EPROTO))
  {
    hide U32, U16, I32;
    ShortError(m);
    ReadFront(m, next, 0);
    ReadFront(m, next, 4);
  }

  lemma ShortError(m: Bytes)
    requires Message(m) && !Whole(m)
    ensures |m| == 16
  {
    hide U32, U16;
    assert IsError(m) && HEADER <= |m| < 20;
  }

  lemma PairConcat(m: Bytes, n: Bytes)
    ensures Concat([m, n]) == m + n && Concat([n]) == n
  {
    assert [m, n][1..] == [n] && [n][1..] == [];
    assert Concat([n]) == n + Concat([]) == n;
  }

  lemma ReadInPadding(m: Bytes)
    requires 24 <= |m| && |m| % 4 == 0
    ensures |m| < 36 ==> U32(m + PADDING, 36) == 1
    ensures |m| >= 40 ==> U32(m + PADDING, 36) == U32(m, 36)
  {
    hide U32;
    PaddingIsHarmless();
    var b := m + PADDING;
    assert b[|m|..] == PADDING;
    if |m| >= 40 {
      ReadFront(m, PADDING, 36);
    } else if |m| == 24 {
      ReadWithin(b, 36, PADDING, 12);
    } else if |m| == 28 {
      ReadWithin(b, 36, PADDING, 8);
    } else if |m| == 32 {
      ReadWithin(b, 36, PADDING, 4);
    }
  }

  lemma PairFrames(m: Bytes, n: Bytes)
    requires Message(m) && Whole(m) && Message(n)
    ensures FramesOf([m, n]) == FrameOf(m) + FrameOf(n)
  {
    hide FrameOf, Message, Whole;
    assert [m, n][1..] == [n] && [n][1..] == [];
    assert FramesOf([n]) == FrameOf(n) + FramesOf([]);
  }

  lemma SingleMessage(m: Bytes)
    requires Message(m) && Complete(m) && |m| <= BUFFER
    ensures Concat([m]) == m && FramesOf([m]) == FrameOf(m) && Listen(m) == BeforeError(FrameOf(m))
  {
    hide U32, U16, I32, FrameOf, Event, Complete, Listen;
    assert [m][1..] == [];
    assert m + [] == m;
    ChainListens([m]);
  }

  /** The daemon agrees with `parse_frames` on a message in front of any complete chain, if and only
      if the message is complete. */
  lemma AgreementExactly(m: Bytes)
    requires Message(m) && |m| <= BUFFER
    ensures Complete(m) <==>
            forall ms | CompleteChain(ms) && |m + Concat(ms)| <= BUFFER ::
              Listen(m + Concat(ms)) == BeforeError(Parse(m + Concat(ms)))
  {
    hide Message, Complete, Whole, Listen, Parse, Concat, BeforeError;
    if Complete(m) {
      forall ms | CompleteChain(ms) && |m + Concat(ms)| <= BUFFER
        ensures Listen(m + Concat(ms)) == BeforeError(Parse(m + Concat(ms)))
      {
        ConcatFront(m, ms);
        ChainListens([m] + ms);
        ChainParses([m] + ms);
      }
    } else {
      PaddingIsHarmless();
      PairConcat(m, PADDING);
      ShortUnlessComplete(m);
      if Whole(m) {
        IncompleteIsMisread(m);
        NoFrames();
      } else {
        ShortErrorIsMisread(m, PADDING);
        assert Signed(64) == 64;
      }
      assert CompleteChain([PADDING]) && |m + Concat([PADDING])| <= BUFFER;
    }
  }

  lemma ShortUnlessComplete(m: Bytes)
    requires Message(m) && !Complete(m)
    ensures |m| < 68
  {
    hide U32, U16;
  }

  lemma ConcatFront(m: Bytes, ms: seq<Bytes>)
    ensures Concat([m] + ms) == m + Concat(ms)
  {
    assert ([m] + ms)[1..] == ms;
  }

  lemma NoFrames()
    ensures BeforeError([]) == ([], None)
  {
  }

  // ---- The process tree ---------------------------------------------------------------------------------------

  /** The process a frame is about. */
  function Subject(f: Frame): int
    requires !f.KernelError?
  {
    match f
    case Fork(_, child) => child
    case Exec(pid) => pid
    case Exit(pid, _, _) => pid
  }

  /** A process is in the tree if the last frame about it is not its exit, or if it was there at first
      and no frame is about it. */
  lemma {:induction false} TreeHoldsTheLiving(tree: map<int, Node>, frames: seq<Frame>, proc: Proc, pid: int)
    requires forall f | f in frames :: !f.KernelError?
    ensures pid in TrackAll(tree, frames, proc) <==>
            || (pid in tree && forall i :: 0 <= i < |frames| ==> Subject(frames[i]) != pid)
            || exists i :: 0 <= i < |frames| && Subject(frames[i]) == pid && !frames[i].Exit?
                           && forall j :: i < j < |frames| ==> Subject(frames[j]) != pid
  {
    if frames != [] {
      var n := |frames| - 1;
      TreeHoldsTheLiving(tree, frames[..n], proc, pid);
      assert pid in TrackAll(tree, frames, proc) <==>
        if Subject(frames[n]) == pid then !frames[n].Exit? else pid in TrackAll(tree, frames[..n], proc);
      if Subject(frames[n]) != pid {
        assert forall i :: 0 <= i < n ==> frames[..n][i] == frames[i];
      }
    }
  }

  // ---- What a message and its event mean ----------------------------------------------------------------------

  /** Four bytes, lowest first. */
  function Word(m: Bytes, i: nat): nat
    requires i + 4 <= |m|
  {
    m[i] as int + 0x100 * (m[i + 1] as int) + 0x1_0000 * (m[i + 2] as int) + 0x100_0000 * (m[i + 3] as int)
  }

  /** The same as a two's complement number. */
  function SignedWord(m: Bytes, i: nat): int
    requires i + 4 <= |m|
  {
    if m[i + 3] >= 0x80 then Word(m, i) - 0x1_0000_0000 else Word(m, i)
  }

  lemma WordsRead(m: Bytes, i: nat)
    requires i + 4 <= |m|
    ensures U32(m, i) == Word(m, i) && I32(m, i) == SignedWord(m, i)
  {
  }

  /** The frame of a message, by the positions of its fields: the type at 4, the connector's index and
      value at 16 and 20, the kind of event at 36, its process ids and codes from 52 on. */
  lemma FrameExactly(m: Bytes)
    requires Message(m)
    ensures var kind := m[4] as int + 0x100 * (m[5] as int);
            FrameOf(m)
            == if kind == 2 then
                 (if |m| < 20 then [KernelError(-71)]
                  else if SignedWord(m, 16) == 0 then [] else [KernelError(SignedWord(m, 16))])
               else if |m| < 40 || Word(m, 16) != 1 || Word(m, 20) != 1 then []
               else if Word(m, 36) == 1 && |m| >= 68 then [Fork(SignedWord(m, 52), SignedWord(m, 60))]
               else if Word(m, 36) == 2 && |m| >= 60 then [Exec(SignedWord(m, 52))]
               else if Word(m, 36) == 0x8000_0000 && |m| >= 68 then
                 [Exit(SignedWord(m, 52), SignedWord(m, 60), SignedWord(m, 64))]
               else []
  {
    hide U32, I32, Word, SignedWord;
    if m[4] as int + 0x100 * (m[5] as int) == 2 {
      if |m| >= 20 {
        WordsRead(m, 16);
      }
    } else {
      assert m[16..|m|] == m[16..];
      ConnectorAt(m);
    }
  }

  lemma ShiftedWord(m: Bytes, k: nat, i: nat)
    requires k + i + 4 <= |m|
    ensures U32(m[k..], i) == Word(m, k + i) && I32(m[k..], i) == SignedWord(m, k + i)
  {
    WordsRead(m[k..], i);
  }

  lemma ConnectorAt(m: Bytes)
    requires |m| >= 16
    ensures Connector(m[16..])
            == if |m| < 40 || Word(m, 16) != 1 || Word(m, 20) != 1 then []
               else if Word(m, 36) == 1 && |m| >= 68 then [Fork(SignedWord(m, 52), SignedWord(m, 60))]
               else if Word(m, 36) == 2 && |m| >= 60 then [Exec(SignedWord(m, 52))]
               else if Word(m, 36) == 0x8000_0000 && |m| >= 68 then
                 [Exit(SignedWord(m, 52), SignedWord(m, 60), SignedWord(m, 64))]
               else []
  {
    hide U32, I32, Word, SignedWord;
    var c := m[16..];
    if |c| >= 24 {
      ShiftedWord(m, 16, 0);
      ShiftedWord(m, 16, 4);
      assert c[20..] == m[36..];
      ShiftedWord(m, 36, 0);
      if |m| >= 60 {
        ShiftedWord(m, 36, 16);
      }
      if |m| >= 68 {
        ShiftedWord(m, 36, 24);
        ShiftedWord(m, 36, 28);
      }
    }
  }

  /** The name last announced for a process, or found by the first scan; none once it has exited. */
  function NameKnown(scanned: map<int, Node>, events: seq<ProcessEvent>, pid: int): string {
    if events == [] then (if pid in scanned then scanned[pid].name else "") else
    var last := events[|events| - 1];
    if last.pid != pid then NameKnown(scanned, events[..|events| - 1], pid)
    else if last.kind == EXIT then "" else last.name
  }

  /** The parent a process was forked from, or had when it was first seen; none once it has exited. */
  function ParentKnown(scanned: map<int, Node>, frames: seq<Frame>, proc: Proc, pid: int): Option<int> {
    if frames == [] then (if pid in scanned then Some(scanned[pid].ppid) else None) else
    var before := ParentKnown(scanned, frames[..|frames| - 1], proc, pid);
    match frames[|frames| - 1]
    case Fork(parent, child) => if child == pid then Some(parent) else before
    case Exec(p) => if p == pid && before.None? then Some(proc.parent(pid)) else before
    case Exit(p, _, _) => if p == pid then None else before
    case KernelError(_) => before
  }

  /** One frame changes the entry of the process it is about, as its event says. */
  lemma TrackMeans(tree: map<int, Node>, f: Frame, proc: Proc, pid: int)
    requires !f.KernelError?
    ensures var t, e := Track(tree, f, proc), EventOf(tree, f, proc);
            && (e.pid != pid ==> (pid in t <==> pid in tree) && (pid in t ==> t[pid] == tree[pid]))
            && (e.pid == pid ==> (pid in t <==> e.kind != EXIT) && (pid in t ==> t[pid].name == e.name))
            && match f
               case Fork(parent, child) => e.pid == child && e.kind == FORK && (child == pid ==> t[pid].ppid == parent)
               case Exec(p) =>
                 e.pid == p && e.kind == EXEC && (p == pid ==> t[pid].ppid == if pid in tree then tree[pid].ppid else proc.parent(pid))
               case Exit(p, _, _) => e.pid == p && e.kind == EXIT
               case KernelError(_) => true
  {
  }

  lemma {:induction false} TreeParents(scanned: map<int, Node>, frames: seq<Frame>, proc: Proc, pid: int)
    requires forall f | f in frames :: !f.KernelError?
    ensures var tree, parent := TrackAll(scanned, frames, proc), ParentKnown(scanned, frames, proc, pid);
            (pid in tree <==> parent.Some?) && (pid in tree ==> tree[pid].ppid == parent.value)
  {
    hide Track, EventOf;
    if frames != [] {
      var n := |frames| - 1;
      TreeParents(scanned, frames[..n], proc, pid);
      assert frames[n] in frames;
      TrackMeans(TrackAll(scanned, frames[..n], proc), frames[n], proc, pid);
    }
  }

  lemma {:induction false} TreeNames(scanned: map<int, Node>, frames: seq<Frame>, proc: Proc, pid: int)
    requires forall f | f in frames :: !f.KernelError?
    ensures var tree := TrackAll(scanned, frames, proc);
            (if pid in tree then tree[pid].name else "") == NameKnown(scanned, EventsOf(scanned, frames, proc), pid)
    ensures |EventsOf(scanned, frames, proc)| == |frames|
  {
    hide Track, EventOf;
    if frames != [] {
      var n := |frames| - 1;
      TreeNames(scanned, frames[..n], proc, pid);
      assert frames[n] in frames;
      assert EventsOf(scanned, frames, proc)[..n] == EventsOf(scanned, frames[..n], proc);
      TrackMeans(TrackAll(scanned, frames[..n], proc), frames[n], proc, pid);
    }
  }

  /** The tree holds for each process the name last announced and the parent it came from. */
  lemma TreeExactly(scanned: map<int, Node>, frames: seq<Frame>, proc: Proc, pid: int)
    requires forall f | f in frames :: !f.KernelError?
    ensures var tree, parent := TrackAll(scanned, frames, proc), ParentKnown(scanned, frames, proc, pid);
            && (pid in tree <==> parent.Some?) && (pid in tree ==> tree[pid].ppid == parent.value)
            && (if pid in tree then tree[pid].name else "") == NameKnown(scanned, EventsOf(scanned, frames, proc), pid)
    ensures |EventsOf(scanned, frames, proc)| == |frames|
  {
    hide TrackAll, ParentKnown, NameKnown, EventsOf;
    TreeParents(scanned, frames, proc, pid);
    TreeNames(scanned, frames, proc, pid);
  }

  /** One event is published for each frame, in order: a fork with its parent and the child's name, an exec
      with the name it has now, an exit with its codes and the name last announced. */
  lemma {:induction false} EventsExactly(scanned: map<int, Node>, frames: seq<Frame>, proc: Proc, i: nat)
    requires i < |frames| && forall f | f in frames :: !f.KernelError?
    ensures var events := EventsOf(scanned, frames, proc);
            && |events| == |frames|
            && events[i] == match frames[i]
                            case Fork(parent, child) => ProcessEvent(FORK, child, parent, proc.comm(child), None)
                            case Exec(pid) => ProcessEvent(EXEC, pid, 0, proc.comm(pid), None)
                            case Exit(pid, status, signal) =>
                              ProcessEvent(EXIT, pid, 0, NameKnown(scanned, events[..i], pid), Some((status, signal)))
                            case KernelError(_) => events[i]
    decreases |frames|
  {
    hide NameKnown, TrackAll;
    var n := |frames| - 1;
    var front := frames[..n];
    var events := EventsOf(scanned, frames, proc);
    assert frames[n] in frames;
    if i < n {
      EventsExactly(scanned, front, proc, i);
      assert events[..i] == EventsOf(scanned, front, proc)[..i];
    } else {
      if frames[n].Exit? {
        TreeExactly(scanned, front, proc, frames[n].pid);
      } else {
        TreeExactly(scanned, front, proc, 0);
      }
      assert events[..n] == EventsOf(scanned, front, proc);
    }
  }
}
