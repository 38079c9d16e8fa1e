/**
 One tunnel object of bambu-farm-client/cpp/tunnel_bridge.cpp.  Every operation runs under the
 tunnel's mutex, so it is one step; what the network side answers is a parameter of the step.
 */
module TunnelBridge {
  import opened Wrappers
  import opened Text
  import opened Json
  import opened JsonSpot
  import opened JsonKeys
  import opened TunnelProtocol
  import opened TunnelFrames
  import opened TunnelReply

  const SUCCESS := 0
  const STREAM_END := 1
  const WOULD_BLOCK := 2
  const BUFFER_LIMIT := 3
  const FAILURE := -1
  const CONTROL := 0x3001

  const CAMERA_ACTIVE := 0
  const CAMERA_ENDED := 1

  datatype State = State(
    controlStarted: bool,
    videoStarted: bool,
    videoStreamId: nat,
    queued: seq<string>,
    active: string)
  {
    predicate VideoOn() {
      videoStarted && videoStreamId != 0
    }
  }

  /** A call and what its surroundings answer: the reply to a request, the camera's next frame and state. */
  datatype Call =
    | Send(ctrl: int, request: Option<string>, response: string)
    | ReadSample(frame: string, camera: int)
    | Recv(capacity: Option<int>)
    | StartVideo(freshId: nat, result: int)
    | StartControl
    | Close

  /** What a call returns: its status, and the bytes it handed over or the size it asked for. */
  datatype Answer = Answer(status: int, size: nat, bytes: string)

  function Refused(status: int): Answer {
    Answer(status, 0, "")
  }

  predicate IsDownload(request: string) {
    Contains(request, "\"cmdtype\":4")
  }

  /** The frames one response is queued as. */
  function Queued(request: string, response: string): seq<string> {
    if IsDownload(request) then SplitFrames(response) else [response]
  }

  function Answered(s: State, call: Call): (State, Answer) {
    match call
    case Send(ctrl, request, response) =>
      if request.None? || ctrl != CONTROL || response == "" then (s, Refused(FAILURE))
      else (s.(queued := s.queued + Queued(request.value, response)), Refused(SUCCESS))
    case ReadSample(frame, camera) =>
      if s.VideoOn() then
        if frame != "" then (s.(active := frame), Answer(SUCCESS, |frame|, frame))
        else (s, Refused(if camera == CAMERA_ACTIVE then WOULD_BLOCK else if camera == CAMERA_ENDED then STREAM_END else FAILURE))
      else if s.queued == [] then (s, Refused(WOULD_BLOCK))
      else (s.(active := s.queued[0], queued := s.queued[1..]), Answer(SUCCESS, |s.queued[0]|, s.queued[0]))
    case Recv(capacity) =>
      if s.queued == [] then (s, Refused(WOULD_BLOCK))
      else if capacity.None? || capacity.value < |s.queued[0]| then (s, Answer(BUFFER_LIMIT, |s.queued[0]|, ""))
      else (s.(queued := s.queued[1..]), Answer(SUCCESS, |s.queued[0]|, s.queued[0]))
    case StartVideo(freshId, result) =>
      if s.videoStarted then (s, Refused(SUCCESS))
      else if result == 0 then (s.(videoStarted := true, videoStreamId := freshId, active := ""), Refused(SUCCESS))
      else (s.(videoStarted := false, videoStreamId := 0, active := ""), Refused(FAILURE))
    case StartControl => (s.(controlStarted := true), Refused(SUCCESS))
    case Close => (State(false, false, 0, [], ""), Refused(SUCCESS))
  }

  class CompatTunnel {
    var controlStreamStarted: bool
    var videoStreamStarted: bool
    var videoStreamId: nat
    var queuedResponses: seq<string>
    var activeResponse: string

    ghost function Now(): State
      reads this
    {
      State(controlStreamStarted, videoStreamStarted, videoStreamId, queuedResponses, activeResponse)
    }

    constructor ()
      ensures Now() == State(false, false, 0, [], "")
    {
      controlStreamStarted, videoStreamStarted := false, false;
      videoStreamId, queuedResponses, activeResponse := 0, [], "";
    }

    method SendMessage(ctrl: int, data: Option<string>, response: string) returns (status: int)
      modifies this
      ensures (Now(), Refused(status)) == Answered(old(Now()), Send(ctrl, data, response))
    {
      if data.None? {
        return FAILURE;
      }
      if ctrl != CONTROL {
        return FAILURE;
      }
      var isFileDownload := Contains(data.value, "\"cmdtype\":4");
      if response == "" {
        return FAILURE;
      }
      if isFileDownload {
        var frames := SplitFileDownloadResponseFrames(response);
        queuedResponses := queuedResponses + frames;
      } else {
        queuedResponses := queuedResponses + [response];
      }
      return SUCCESS;
    }

    method Read(frame: string, camera: int) returns (answer: Answer)
      modifies this
      ensures (Now(), answer) == Answered(old(Now()), ReadSample(frame, camera))
      ensures answer.status == SUCCESS ==> answer.bytes == activeResponse
    {
      if videoStreamStarted && videoStreamId != 0 {
        if frame != "" {
          activeResponse := frame;
          return Answer(SUCCESS, |activeResponse|, activeResponse);
        }
        if camera == CAMERA_ACTIVE {
          return Refused(WOULD_BLOCK);
        }
        if camera == CAMERA_ENDED {
          return Refused(STREAM_END);
        }
        return Refused(FAILURE);
      }
      if queuedResponses == [] {
        return Refused(WOULD_BLOCK);
      }
      activeResponse := queuedResponses[0];
      queuedResponses := queuedResponses[1..];
      return Answer(SUCCESS, |activeResponse|, activeResponse);
    }

    method RecvMessage(capacity: Option<int>) returns (answer: Answer)
      modifies this
      ensures (Now(), answer) == Answered(old(Now()), Recv(capacity))
    {
      if queuedResponses == [] {
        return Refused(WOULD_BLOCK);
      }
      var response := queuedResponses[0];
      if capacity.None? || capacity.value < |response| {
        return Answer(BUFFER_LIMIT, |response|, "");
      }
      queuedResponses := queuedResponses[1..];
      return Answer(SUCCESS, |response|, response);
    }

    method StartStream(video: bool, freshId: nat, result: int) returns (status: int)
      modifies this
      ensures (Now(), Refused(status)) == Answered(old(Now()), if video then StartVideo(freshId, result) else StartControl)
    {
      if video {
        if videoStreamStarted {
          return SUCCESS;
        }
        videoStreamId := freshId;
        videoStreamStarted := true;
        activeResponse := "";
        if result != 0 {
          videoStreamStarted := false;
          videoStreamId := 0;
          return FAILURE;
        }
        return SUCCESS;
      }
      controlStreamStarted := true;
      return SUCCESS;
    }

    method CloseTunnel()
      modifies this
      ensures Now() == Answered(old(Now()), Close).0
    {
      controlStreamStarted := false;
      videoStreamStarted := false;
      videoStreamId := 0;
      queuedResponses := [];
      activeResponse := "";
    }
  }

  // ----- single calls -----

  lemma DownloadWord()
    ensures KeyPattern("cmdtype") + "4" == "\"cmdtype\":4" && PlainPair("cmdtype", "4")
  {
    LettersPlain("cmdtype");
  }

  /** A request in JSON asks for a download exactly when the value of some member `cmdtype` starts with a 4. */
  lemma DownloadIff(request: Json)
    requires QuoteSafe(request)
    ensures IsDownload(Print(request)) <==> HasPair(request, "cmdtype", "4")
  {
    hide Contains, QuoteSafe, Print, KeyPattern, HasPair, PlainPair;
    DownloadWord();
    PrintHasPair(request, "cmdtype", "4");
  }

  /** An accepted request queues the frames of its response when it asks for a download, and else the response. */
  lemma SendQueues(s: State, request: Json, response: string)
    requires QuoteSafe(request) && response != ""
    ensures Answered(s, Send(0x3001, Some(Print(request)), response)) ==
            (s.(queued := s.queued + if HasPair(request, "cmdtype", "4") then SplitFrames(response) else [response]), Answer(0, 0, ""))
  {
    hide IsDownload, QuoteSafe, Print, HasPair, SplitFrames;
    DownloadIff(request);
  }

  /** No other control type, request or answer changes the tunnel. */
  lemma SendRefused(s: State, ctrl: int, request: Option<string>, response: string)
    ensures Answered(s, Send(ctrl, request, response)).1.status == 0 <==> ctrl == 0x3001 && request.Some? && response != ""
    ensures ctrl != 0x3001 || request.None? || response == "" ==> Answered(s, Send(ctrl, request, response)) == (s, Answer(-1, 0, ""))
  {
  }

  /**
   Starting the camera on a tunnel without video.  If that works, samples are camera frames until the
   tunnel is closed; if it fails, samples come from the queue as before.
   */
  lemma VideoSwitches(s: State, freshId: nat, result: int, frame: string, camera: int)
    requires !s.videoStarted && freshId != 0
    ensures var (started, answer) := Answered(s, StartVideo(freshId, result));
            var (after, sample) := Answered(started, ReadSample(frame, camera));
            && started.queued == s.queued
            && answer.status == (if result == 0 then 0 else -1)
            && (result == 0 ==>
                  && after.queued == s.queued
                  && (frame != "" ==> sample == Answer(0, |frame|, frame) && after.active == frame)
                  && (frame == "" ==> after == started && sample == Answer(if camera == 0 then 2 else if camera == 1 then 1 else -1, 0, "")))
            && (result != 0 ==>
                  sample == if s.queued == [] then Answer(2, 0, "") else Answer(0, |s.queued[0]|, s.queued[0]))
            && (started.VideoOn() <==> result == 0)
  {
  }

  /** A closed tunnel has neither frames nor video: every reader is told to wait. */
  lemma ClosedWaits(s: State, call: Call)
    requires call.Recv? || call.ReadSample?
    ensures var closed := Answered(s, Close).0;
            Answered(closed, call) == (closed, Answer(2, 0, ""))
  {
  }

  // ----- runs -----

  function Run(s: State, calls: seq<Call>): State
    decreases |calls|
  {
    if calls == [] then s else Run(Answered(s, calls[0]).0, calls[1..])
  }

  /** What a call takes off the queue and hands over; camera frames never were in the queue. */
  function Taken(s: State, call: Call): seq<string> {
    var answer := Answered(s, call).1;
    if answer.status == SUCCESS && (call.Recv? || (call.ReadSample? && !s.VideoOn())) then [answer.bytes] else []
  }

  function Delivered(s: State, calls: seq<Call>): seq<string>
    decreases |calls|
  {
    if calls == [] then [] else Taken(s, calls[0]) + Delivered(Answered(s, calls[0]).0, calls[1..])
  }

  /** The frames of all the responses that the accepted sends of a run queued. */
  function Sent(calls: seq<Call>): seq<string> {
    if calls == [] then []
    else
      var c := calls[0];
      (if c.Send? && c.request.Some? && c.ctrl == CONTROL && c.response != "" then Queued(c.request.value, c.response) else [])
      + Sent(calls[1..])
  }

  predicate NoClose(calls: seq<Call>) {
    forall c | c in calls :: c != Close
  }

  /** One call hands over the head of the queue or nothing, and appends only what it sent. */
  lemma CallConserves(s: State, call: Call)
    requires call != Close
    ensures Taken(s, call) + Answered(s, call).0.queued == s.queued + Sent([call])
  {
    hide Queued;
    assert [call][1..] == [];
    if Taken(s, call) != [] {
      assert s.queued == [s.queued[0]] + s.queued[1..];
    }
  }

  /**
   Over any run of one tunnel between two closes, with both readers mixed in any way and video
   switched on and off, every queued frame is handed over once and in order or is still queued.
   */
  lemma {:induction false} QueueConserved(s: State, calls: seq<Call>)
    requires NoClose(calls)
    ensures Delivered(s, calls) + Run(s, calls).queued == s.queued + Sent(calls)
    decreases |calls|
  {
    if calls != [] {
      hide Answered, Taken, Queued;
      var next := Answered(s, calls[0]).0;
      SentFirst(calls);
      NoCloseRest(calls);
      assert Delivered(s, calls) == Taken(s, calls[0]) + Delivered(next, calls[1..]) && Run(s, calls) == Run(next, calls[1..]);
      hide Sent, Delivered, Run;
      CallConserves(s, calls[0]);
      QueueConserved(next, calls[1..]);
      Chained(Taken(s, calls[0]), next.queued, s.queued, Sent([calls[0]]), Sent(calls[1..]),
              Delivered(next, calls[1..]), Run(next, calls[1..]).queued);
    }
  }

  /** Conservation of a first step and of the rest gives conservation of both. */
  lemma NoCloseRest(calls: seq<Call>)
    requires NoClose(calls) && calls != []
    ensures calls[0] != Close && NoClose(calls[1..])
  {
    assert calls[0] in calls && forall c | c in calls[1..] :: c in calls;
  }

  lemma SentFirst(calls: seq<Call>)
    requires calls != []
    ensures Sent(calls) == Sent([calls[0]]) + Sent(calls[1..])
  {
    hide Queued;
    assert [calls[0]][1..] == [];
  }

  lemma Chained(taken: seq<string>, between: seq<string>, start: seq<string>, sent: seq<string>, later: seq<string>,
                delivered: seq<string>, end: seq<string>)
    requires taken + between == start + sent
    requires delivered + end == between + later
    ensures (taken + delivered) + end == start + (sent + later)
  {
    assert (taken + delivered) + end == taken + (delivered + end);
    assert taken + (between + later) == (taken + between) + later;
    assert (start + sent) + later == start + (sent + later);
  }

  /** A refused read loses nothing: asking again with the size it reported hands over the same frame. */
  lemma RetryDelivers(s: State, capacity: Option<int>)
    requires Answered(s, Recv(capacity)).1.status == BUFFER_LIMIT
    ensures var (after, answer) := Answered(s, Recv(capacity));
            && after == s && s.queued != []
            && Taken(after, Recv(Some(answer.size))) == [s.queued[0]]
            && (forall n | n < answer.size :: Answered(s, Recv(Some(n))).1.status == BUFFER_LIMIT)
  {
  }

  /** A reader is told to wait exactly when nothing is queued, or, for samples, when the camera has no frame yet. */
  lemma BlocksIff(s: State, call: Call)
    requires call.Recv? || call.ReadSample?
    ensures Answered(s, call).1.status == WOULD_BLOCK <==>
            if call.ReadSample? && s.VideoOn() then call.frame == "" && call.camera == CAMERA_ACTIVE else s.queued == []
    ensures Answered(s, call).1.status == WOULD_BLOCK ==> Answered(s, call).0 == s
  {
  }

  /** A reader that asks for each frame without a buffer, and again with the size it was told. */
  function Retries(queued: seq<string>): seq<Call> {
    if queued == [] then [] else [Recv(None), Recv(Some(|queued[0]|))] + Retries(queued[1..])
  }

  /** Such a reader is handed every frame once, in order, and is told to wait only then. */
  lemma {:induction false} RetriesDrain(s: State)
    ensures Delivered(s, Retries(s.queued)) == s.queued
    ensures s.queued != [] ==> Answered(s, Recv(None)) == (s, Answer(3, |s.queued[0]|, ""))
    ensures var end := Run(s, Retries(s.queued));
            end == s.(queued := []) && forall capacity :: Answered(end, Recv(capacity)).1.status == WOULD_BLOCK
    decreases |s.queued|
  {
    if s.queued != [] {
      var more := Retries(s.queued[1..]);
      var again := Recv(Some(|s.queued[0]|));
      RetryDelivers(s, None);
      RetriesDrain(Answered(s, again).0);
      assert Retries(s.queued)[1..] == [again] + more && ([again] + more)[1..] == more;
      assert s.queued == [s.queued[0]] + s.queued[1..];
    } else {
      forall capacity ensures Answered(s, Recv(capacity)).1.status == WOULD_BLOCK {
        BlocksIff(s, Recv(capacity));
      }
    }
  }

  /** Closing forgets the queue, so nothing of an earlier session is handed over after it. */
  lemma CloseForgets(s: State, before: seq<Call>, after: seq<Call>)
    requires NoClose(after)
    ensures var start := Run(s, before + [Close]);
            Delivered(start, after) + Run(start, after).queued == Sent(after)
  {
    RunSplit(s, before, [Close]);
    assert [Close][1..] == [];
    var start := Run(s, before + [Close]);
    QueueConserved(start, after);
    assert [] + Sent(after) == Sent(after);
  }

  lemma {:induction false} RunSplit(s: State, a: seq<Call>, b: seq<Call>)
    ensures Run(s, a + b) == Run(Run(s, a), b)
    decreases |a|
  {
    if a == [] {
      assert a + b == b;
    } else {
      assert (a + b)[1..] == a[1..] + b;
      RunSplit(Answered(s, a[0]).0, a[1..], b);
    }
  }

  predicate OnlyReads(calls: seq<Call>) {
    forall c | c in calls :: c.Recv? || c.ReadSample?
  }

  lemma {:induction false} ReadsSendNothing(calls: seq<Call>)
    requires OnlyReads(calls)
    ensures Sent(calls) == []
  {
    if calls != [] {
      assert calls[0] in calls;
      ReadsSendNothing(calls[1..]);
    }
  }

  /** A request with a member `cmdtype` of 4 anywhere in it asks for a download. */
  lemma DownloadAsked(spot: Spot)
    ensures IsDownload(Print(Plug(spot, Member("cmdtype", Atom("4")))))
  {
    hide Before, After, Print, Plug;
    var m := Member("cmdtype", Atom("4"));
    DownloadWord();
    PlugPrints(spot, m);
    PrintFour();
    var before, pat, after := Before(spot), KeyPattern("cmdtype") + "4", After(spot);
    hide KeyPattern;
    AtMiddle(before, pat, after);
    Found(before + pat + after, pat, |before|);
  }

  lemma PrintFour()
    ensures MemberText("cmdtype", Print(Atom("4"))) == KeyPattern("cmdtype") + "4"
  {
  }

  lemma AtMiddle(before: string, pat: string, after: string)
    ensures At(before + pat + after, pat, |before|)
  {
  }

  /**
   A file through the tunnel: a request with a member `cmdtype` of 4 on an idle tunnel, then any mix of
   reads until the queue is empty, hands over frames whose payloads, put together, are the file.
   */
  lemma FileArrives(s: State, spot: Spot, sequence: int, path: string, md5: string, blob: string, turns: seq<Call>)
    requires s.queued == [] && OnlyReads(turns)
    requires sequence <= U64_MAX && |blob| <= U64_MAX && HexText(md5)
    requires var send := Send(0x3001, Some(Print(Plug(spot, Member("cmdtype", Atom("4"))))), DownloadReply(sequence, path, md5, blob));
             Run(s, [send] + turns).queued == []
    ensures var send := Send(0x3001, Some(Print(Plug(spot, Member("cmdtype", Atom("4"))))), DownloadReply(sequence, path, md5, blob));
            var got := Delivered(s, [send] + turns);
            && got == SplitFrames(send.response)
            && (forall f | f in got :: Contains(f, Separator()))
            && Rejoined(got) == blob
  {
    var response := DownloadReply(sequence, path, md5, blob);
    var request := Print(Plug(spot, Member("cmdtype", Atom("4"))));
    DownloadAsked(spot);
    assert |response| >= 2;
    hide Print, Plug, SplitFrames, IsDownload, DownloadReply, Rejoined, Answered, HexText, Contains;
    var send := Send(CONTROL, Some(request), response);
    ReplySplits(sequence, path, md5, blob);
    PayloadsRejoin(response);
    QueueConserved(s, [send] + turns);
    ReadsSendNothing(turns);
    assert ([send] + turns)[1..] == turns;
    var got := Delivered(s, [send] + turns);
    assert got == got + [];
    assert SplitFrames(response) + [] == SplitFrames(response);
  }
}
