/**
 The camera packet reader (`read_exact_interruptible` and `camera_stream_worker` in
 bambu-farm-client/src/api.rs) under any schedule of short reads, timeouts, stop and failure.
 The bytes the printer sends are one finite stream; its end is a read of zero bytes.
 */
module CameraReader {
  import opened Wrappers
  import opened Arithmetic

  const MAGIC: seq<Byte> := [0, 0, 0, 0, 1, 0, 0, 0, 0, 0, 0, 0]

  /** What happens at one turn of the read loop: the stop flag is seen, or the read call answers with up to
   `1 + extra` bytes, or with none when the stream is at its end. */
  datatype Turn = Stop | Data(extra: nat) | Timeout | Broken

  /** How a read or the whole worker ends; `Waiting` when the schedule ends first. */
  datatype End = Filled | Ended | Failed | Waiting

  // ----- the packets of a stream -----

  datatype Packet = Packet(tag: seq<Byte>, payload: seq<Byte>)

  function Little(b: seq<Byte>): nat
    requires |b| == 4
  {
    b[0] as nat + 0x100 * (b[1] as nat) + 0x1_0000 * (b[2] as nat) + 0x100_0000 * (b[3] as nat)
  }

  /** The packets that are complete in the stream: 4 length bytes, 12 tag bytes, the payload. */
  function Packets(stream: seq<Byte>): seq<Packet> {
    if |stream| < 16 || |stream| < 16 + Little(stream[..4]) then []
    else
      var n := 16 + Little(stream[..4]);
      [Packet(stream[4..16], stream[16..n])] + Packets(stream[n..])
  }

  /** A packet with the camera's tag that starts and ends as a JPEG image does. */
  predicate IsFrame(p: Packet) {
    && p.tag == MAGIC
    && |p.payload| >= 4
    && p.payload[..2] == [0xFF, 0xD8]
    && p.payload[|p.payload| - 2..] == [0xFF, 0xD9]
  }

  function Images(packets: seq<Packet>): seq<seq<Byte>> {
    if packets == [] then []
    else (if IsFrame(packets[0]) then [packets[0].payload] else []) + Images(packets[1..])
  }

  /** The images of a stream: the payloads of its complete, well-formed packets. */
  function Frames(stream: seq<Byte>): seq<seq<Byte>> {
    Images(Packets(stream))
  }

  // ----- reading -----

  /** How many turns of a schedule offer data. */
  function Reads(turns: seq<Turn>): nat {
    if turns == [] then 0 else (if turns[0].Data? then 1 else 0) + Reads(turns[1..])
  }

  predicate Calm(turns: seq<Turn>) {
    Stop !in turns && Broken !in turns
  }

  /** `read_exact_interruptible`: fills a buffer of `want` bytes. */
  method ReadExact(stream: seq<Byte>, turns: seq<Turn>, want: nat)
    returns (end: End, buf: seq<Byte>, rest: seq<Byte>, left: seq<Turn>)
    ensures buf + rest == stream && |buf| <= want
    ensures |left| <= |turns| && left == turns[|turns| - |left|..]
    ensures end.Filled? <==> |buf| == want
    ensures end.Waiting? ==> left == []
    ensures end.Ended? && Calm(turns) ==> rest == []
    ensures Reads(left) + |buf| >= Reads(turns) - (if end.Ended? then 1 else 0)
    ensures end.Failed? ==> Broken in turns
  {
    buf, rest, left := [], stream, turns;
    while |buf| < want
      invariant buf + rest == stream && |buf| <= want
      invariant |left| <= |turns| && left == turns[|turns| - |left|..]
      invariant Reads(left) + |buf| >= Reads(turns)
      decreases |left|
    {
      if left == [] {
        return Waiting, buf, rest, left;
      }
      var turn := left[0];
      left := left[1..];
      match turn
      case Stop => return Ended, buf, rest, left;
      case Broken => return Failed, buf, rest, left;
      case Timeout =>
      case Data(extra) =>
        if rest == [] {
          return Ended, buf, rest, left;
        }
        var n := Least(1 + extra, Least(want - |buf|, |rest|));
        buf, rest := buf + rest[..n], rest[n..];
    }
    return Filled, buf, rest, left;
  }

  /** The two reads of one turn of the worker's loop. */
  method ReadPacket(stream: seq<Byte>, turns: seq<Turn>)
    returns (end: End, header: seq<Byte>, payload: seq<Byte>, rest: seq<Byte>, left: seq<Turn>)
    ensures end.Filled? ==> |header| == 16 && |payload| == Little(header[..4]) && stream == header + (payload + rest)
    ensures end.Filled? ==> |left| <= |turns| && left == turns[|turns| - |left|..]
    ensures end.Filled? ==> Reads(left) + (|stream| - |rest|) >= Reads(turns)
    ensures end.Ended? && Calm(turns) ==> Frames(stream) == []
    ensures end.Failed? ==> Broken in turns
    ensures end.Waiting? ==> Reads(turns) <= |stream|
  {
    hide Packets, Images, Frames, IsFrame, Little;
    payload := [];
    end, header, rest, left := ReadExact(stream, turns, 16);
    ShortPacket(stream);
    SuffixCalm(turns, left);
    if !end.Filled? {
      return;
    }
    assert stream[..4] == header[..4];
    ghost var between := left;
    var size := Little(header[..4]);
    end, payload, rest, left := ReadExact(rest, left, size);
    SuffixCalm(between, left);
  }

  /**
   `camera_stream_worker` after its connection is set up.  `hangup` is how many images the queue's
   reader side lets in before it is dropped.  For every schedule the images offered to the queue are
   the first images of the stream; all of them, when nothing stops or breaks the reading.
   */
  method CameraStreamWorker(stream: seq<Byte>, turns: seq<Turn>, hangup: Option<nat>)
    returns (end: End, offered: seq<seq<Byte>>)
    ensures offered <= Frames(stream)
    ensures end.Ended? && Calm(turns) ==> offered == Frames(stream) || hangup == Some(|offered|)
    ensures end.Ended? || end.Failed? || end.Waiting?
    ensures end.Failed? ==> Broken in turns
    ensures end.Waiting? ==> Reads(turns) <= |stream|
    ensures hangup.Some? ==> |offered| <= hangup.value
  {
    hide Packets, Images, Frames, IsFrame, Little, Reads;
    offered := [];
    var rest, left := stream, turns;
    while true
      invariant |rest| <= |stream|
      invariant Frames(stream) == offered + Frames(rest)
      invariant |left| <= |turns| && left == turns[|turns| - |left|..]
      invariant Reads(left) + (|stream| - |rest|) >= Reads(turns)
      invariant hangup.Some? ==> |offered| <= hangup.value
      decreases |rest|
    {
      SuffixCalm(turns, left);
      if left != [] && left[0] == Stop {
        return Ended, offered;
      }
      ghost var start := rest;
      var header, payload;
      end, header, payload, rest, left := ReadPacket(rest, left);
      if !end.Filled? {
        return end, offered;
      }
      NextPacket(start, header, payload, rest);
      if header[4..] != MAGIC {
        WrongTag(header, payload);
        continue;
      }
      if !IsFrame(Packet(MAGIC, payload)) {
        continue;
      }
      if hangup.Some? && |offered| == hangup.value {
        return Ended, offered;
      }
      offered := offered + [payload];
    }
  }

  lemma WrongTag(header: seq<Byte>, payload: seq<Byte>)
    requires |header| == 16 && header[4..] != MAGIC
    ensures !IsFrame(Packet(header[4..], payload))
  {
  }

  lemma NextParsed(stream: seq<Byte>, header: seq<Byte>, payload: seq<Byte>, rest: seq<Byte>)
    requires stream == header + (payload + rest) && |header| == 16 && |payload| == Little(header[..4])
    ensures Packets(stream) == [Packet(header[4..], payload)] + Packets(rest)
  {
    hide Little;
    var n := 16 + |payload|;
    assert stream[..4] == header[..4] && stream[4..16] == header[4..];
    assert stream[16..n] == payload && stream[n..] == rest;
  }

  /** A packet read off the stream is the parser's next one, kept or rejected. */
  lemma NextPacket(stream: seq<Byte>, header: seq<Byte>, payload: seq<Byte>, rest: seq<Byte>)
    requires stream == header + (payload + rest) && |header| == 16 && |payload| == Little(header[..4])
    ensures Frames(stream) == (if IsFrame(Packet(header[4..], payload)) then [payload] else []) + Frames(rest)
  {
    hide Little, IsFrame, Packets;
    NextParsed(stream, header, payload, rest);
    assert Packets(stream)[1..] == Packets(rest);
  }

  lemma SuffixCalm(turns: seq<Turn>, left: seq<Turn>)
    requires |left| <= |turns| && left == turns[|turns| - |left|..]
    ensures Calm(turns) ==> Calm(left)
    ensures Broken in left ==> Broken in turns
  {
    forall t | t in left ensures t in turns {
      var i :| 0 <= i < |left| && left[i] == t;
      assert turns[|turns| - |left| + i] == t;
    }
  }

  lemma ShortPacket(stream: seq<Byte>)
    ensures |stream| < 16 ==> Frames(stream) == []
    ensures |stream| >= 16 && |stream| < 16 + Little(stream[..4]) ==> Frames(stream) == []
  {
  }

  // ----- what the camera sends is what the parser finds -----

  function LittleBytes(n: nat): (b: seq<Byte>)
    requires n < 0x1_0000_0000
    ensures |b| == 4
  {
    [n % 0x100, n / 0x100 % 0x100, n / 0x1_0000 % 0x100, n / 0x100_0000]
  }

  lemma LittleBack(n: nat)
    requires n < 0x1_0000_0000
    ensures Little(LittleBytes(n)) == n
  {
    assert n / 0x1_0000 == n / 0x100 / 0x100 && n / 0x100_0000 == n / 0x1_0000 / 0x100;
  }

  /** Packets that a 32-bit length and a 12-byte tag can carry. */
  predicate Sendable(packets: seq<Packet>) {
    forall i | 0 <= i < |packets| :: |packets[i].tag| == 12 && |packets[i].payload| < 0x1_0000_0000
  }

  function Encode(packets: seq<Packet>): seq<Byte>
    requires Sendable(packets)
  {
    if packets == [] then []
    else LittleBytes(|packets[0].payload|) + packets[0].tag + packets[0].payload + Encode(packets[1..])
  }

  /** A stream that is cut off inside a packet. */
  predicate Partial(tail: seq<Byte>) {
    |tail| < 16 || |tail| < 16 + Little(tail[..4])
  }

  /** Whatever packets the camera sends, good or bad, and wherever the stream then breaks off, the parser finds exactly them. */
  lemma {:induction false} PacketsBack(packets: seq<Packet>, tail: seq<Byte>)
    requires Sendable(packets) && Partial(tail)
    ensures Packets(Encode(packets) + tail) == packets
  {
    if packets == [] {
      assert [] + tail == tail;
    } else {
      hide LittleBytes, Little, Packets;
      var p, next := packets[0], Encode(packets[1..]);
      var header := LittleBytes(|p.payload|) + p.tag;
      assert Encode(packets) == header + p.payload + next;
      hide Encode;
      PacketsBack(packets[1..], tail);
      LittleBack(|p.payload|);
      assert header[..4] == LittleBytes(|p.payload|) && header[4..] == p.tag;
      Joined(header, p.payload, next, tail);
      NextParsed(Encode(packets) + tail, header, p.payload, next + tail);
      assert packets == [p] + packets[1..];
    }
  }

  /**
   One packet in bytes: the length with its lowest byte first, the tag, the payload.  Its payload is an
   image exactly when the tag is the camera's and the payload starts and ends as a JPEG does.
   */
  lemma OnePacket(size: seq<Byte>, tag: seq<Byte>, payload: seq<Byte>, more: seq<Byte>)
    requires |size| == 4 && |tag| == 12
    requires |payload| == size[0] as int + 256 * size[1] as int + 65536 * size[2] as int + 16777216 * size[3] as int
    ensures Frames(size + tag + payload + more) ==
            (if tag == [0, 0, 0, 0, 1, 0, 0, 0, 0, 0, 0, 0] && |payload| >= 4 && payload[0] == 0xFF && payload[1] == 0xD8 &&
                payload[|payload| - 2] == 0xFF && payload[|payload| - 1] == 0xD9
             then [payload] else []) + Frames(more)
  {
    hide Packets, Images, Frames;
    var header := size + tag;
    assert header[..4] == size && header[4..] == tag;
    assert size + tag + payload + more == header + (payload + more);
    NextPacket(size + tag + payload + more, header, payload, more);
    ImageBytes(tag, payload);
  }

  lemma ImageBytes(tag: seq<Byte>, payload: seq<Byte>)
    ensures IsFrame(Packet(tag, payload)) <==>
            tag == [0, 0, 0, 0, 1, 0, 0, 0, 0, 0, 0, 0] && |payload| >= 4 && payload[0] == 0xFF && payload[1] == 0xD8 &&
            payload[|payload| - 2] == 0xFF && payload[|payload| - 1] == 0xD9
  {
    if |payload| >= 4 {
      assert payload[..2] == [payload[0], payload[1]];
      assert payload[|payload| - 2..] == [payload[|payload| - 2], payload[|payload| - 1]];
    }
  }

  lemma Joined(header: seq<Byte>, payload: seq<Byte>, next: seq<Byte>, tail: seq<Byte>)
    ensures header + payload + next + tail == header + (payload + (next + tail))
  {
  }

  // ----- the bounded queue between the worker and the reader of samples -----

  const QUEUE_DEPTH: nat := 8

  /** A turn of the queue: the worker offers an image, or the reader takes one. */
  datatype QueueTurn = Offer(image: seq<Byte>) | Take

  datatype Queue = Queue(waiting: seq<seq<Byte>>, taken: seq<seq<Byte>>)

  function AfterTurn(q: Queue, turn: QueueTurn): Queue {
    match turn
    case Offer(image) => if |q.waiting| < QUEUE_DEPTH then q.(waiting := q.waiting + [image]) else q
    case Take => if q.waiting == [] then q else Queue(q.waiting[1..], q.taken + [q.waiting[0]])
  }

  function AfterTurns(turns: seq<QueueTurn>): Queue {
    if turns == [] then Queue([], []) else AfterTurn(AfterTurns(turns[..|turns| - 1]), turns[|turns| - 1])
  }

  class CameraQueue {
    var waiting: seq<seq<Byte>>
    ghost var taken: seq<seq<Byte>>

    constructor ()
      ensures Queue(waiting, taken) == AfterTurns([])
    {
      waiting, taken := [], [];
    }

    /** `try_send`: a full queue drops the image. */
    method TrySend(image: seq<Byte>)
      modifies this
      ensures Queue(waiting, taken) == AfterTurn(old(Queue(waiting, taken)), Offer(image))
      ensures waiting == old(waiting) + if |old(waiting)| < 8 then [image] else []
    {
      if |waiting| < QUEUE_DEPTH {
        waiting := waiting + [image];
      }
    }

    /** `try_recv`: nothing waiting gives an empty frame. */
    method TryRecv() returns (image: seq<Byte>)
      modifies this
      ensures Queue(waiting, taken) == AfterTurn(old(Queue(waiting, taken)), Take)
      ensures image == if old(waiting) == [] then [] else old(waiting)[0]
      ensures waiting == if old(waiting) == [] then [] else old(waiting)[1..]
    {
      if waiting == [] {
        return [];
      }
      image := waiting[0];
      waiting, taken := waiting[1..], taken + [waiting[0]];
    }
  }

  function Offers(turns: seq<QueueTurn>): seq<seq<Byte>> {
    if turns == [] then []
    else
      var last := turns[|turns| - 1];
      Offers(turns[..|turns| - 1]) + if last.Offer? then [last.image] else []
  }

  /** `a` is `b` with some elements left out. */
  predicate Subsequence<T(==)>(a: seq<T>, b: seq<T>) {
    if a == [] then true
    else if b == [] then false
    else (a[|a| - 1] == b[|b| - 1] && Subsequence(a[..|a| - 1], b[..|b| - 1])) || Subsequence(a, b[..|b| - 1])
  }

  predicate HasRoom(turns: seq<QueueTurn>) {
    forall k | 0 <= k < |turns| && turns[k].Offer? :: |AfterTurns(turns[..k]).waiting| < QUEUE_DEPTH
  }

  lemma HasRoomSnoc(turns: seq<QueueTurn>)
    requires turns != []
    ensures var front := turns[..|turns| - 1];
            HasRoom(turns) <==> HasRoom(front) && (turns[|turns| - 1].Offer? ==> |AfterTurns(front).waiting| < QUEUE_DEPTH)
  {
    hide AfterTurns;
    var front := turns[..|turns| - 1];
    assert forall k | 0 <= k <= |front| :: turns[..k] == front[..k];
    if HasRoom(turns) {
      assert turns[..|front|] == front;
      forall k | 0 <= k < |front| && front[k].Offer? ensures |AfterTurns(front[..k]).waiting| < QUEUE_DEPTH {
        assert turns[k] == front[k] && turns[..k] == front[..k];
      }
    }
  }

  lemma SubsequenceSnoc<T>(a: seq<T>, b: seq<T>, x: T)
    requires Subsequence(a, b)
    ensures Subsequence(a, b + [x]) && Subsequence(a + [x], b + [x])
  {
    assert (b + [x])[..|b|] == b && (a + [x])[..|a|] == a;
  }

  /** The images that got into the queue, in order: those taken, then those waiting. */
  function Kept(q: Queue): seq<seq<Byte>> {
    q.taken + q.waiting
  }

  lemma TurnKeeps(q: Queue, turn: QueueTurn)
    ensures Kept(AfterTurn(q, turn)) == Kept(q) + (if turn.Offer? && |q.waiting| < QUEUE_DEPTH then [turn.image] else [])
    ensures |q.waiting| <= QUEUE_DEPTH ==> |AfterTurn(q, turn).waiting| <= QUEUE_DEPTH
  {
  }

  lemma AppendCancels<T>(a: seq<T>, b: seq<T>, x: T)
    ensures a + [x] == b + [x] <==> a == b
  {
    assert (a + [x])[..|a|] == a && (b + [x])[..|b|] == b;
  }

  /**
   However offers and takes interleave, the queue never holds more than 8 images, and what the
   reader took, followed by what waits, are the offered images in their order, some left out; none
   is left out exactly when every offer found room.
   */
  lemma {:induction false} QueueDelivers(turns: seq<QueueTurn>)
    ensures |AfterTurns(turns).waiting| <= 8
    ensures var kept := Kept(AfterTurns(turns));
            && Subsequence(kept, Offers(turns))
            && |kept| <= |Offers(turns)|
            && (kept == Offers(turns) <==> HasRoom(turns))
  {
    if turns != [] {
      hide HasRoom, Subsequence, Kept, AfterTurn;
      var front, last := turns[..|turns| - 1], turns[|turns| - 1];
      QueueDelivers(front);
      HasRoomSnoc(turns);
      TurnKeeps(AfterTurns(front), last);
      assert Kept(AfterTurns(front)) + [] == Kept(AfterTurns(front));
      assert Offers(front) + [] == Offers(front);
      if last.Offer? {
        SubsequenceSnoc(Kept(AfterTurns(front)), Offers(front), last.image);
        AppendCancels(Kept(AfterTurns(front)), Offers(front), last.image);
      }
    }
  }

  // ----- from the stream to the reader of samples -----

  lemma {:induction false} SubsequenceFront<T>(a: seq<T>, c: seq<T>, b: seq<T>)
    requires Subsequence(a + c, b)
    ensures Subsequence(a, b)
    decreases |b|
  {
    if a != [] {
      var front := b[..|b| - 1];
      if Subsequence(a + c, front) {
        SubsequenceFront(a, c, front);
      } else if c == [] {
        assert a + c == a;
      } else {
        assert (a + c)[..|a + c| - 1] == a + c[..|c| - 1];
        SubsequenceFront(a, c[..|c| - 1], front);
      }
    }
  }

  lemma {:induction false} SubsequenceLonger<T>(a: seq<T>, b: seq<T>, c: seq<T>)
    requires Subsequence(a, b)
    ensures Subsequence(a, b + c)
  {
    if c == [] {
      assert b + c == b;
    } else {
      var last := |c| - 1;
      assert b + c == b + c[..last] + [c[last]];
      hide Subsequence;
      SubsequenceLonger(a, b, c[..last]);
      SubsequenceSnoc(a, b + c[..last], c[last]);
    }
  }

  /**
   The worker offers the first images of the stream, the queue passes on some of what it is offered:
   what the reader takes are images that the stream holds, in order.  It misses none of them exactly
   when the worker offered them all and the queue had room each time.
   */
  lemma ImagesDelivered(stream: seq<Byte>, turns: seq<QueueTurn>)
    requires Offers(turns) <= Frames(stream)
    ensures Subsequence(AfterTurns(turns).taken, Frames(stream))
    ensures Kept(AfterTurns(turns)) == Frames(stream) <==> Offers(turns) == Frames(stream) && HasRoom(turns)
  {
    hide Frames, HasRoom, Subsequence, AfterTurns, Offers;
    var q, all := AfterTurns(turns), Frames(stream);
    QueueDelivers(turns);
    SubsequenceFront(q.taken, q.waiting, Offers(turns));
    assert all == Offers(turns) + all[|Offers(turns)|..];
    SubsequenceLonger(q.taken, Offers(turns), all[|Offers(turns)|..]);
  }
}
