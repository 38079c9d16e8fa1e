/** What a reader of the frames gets back: the payload, in order, under headers that parse. */
module TunnelFrames {
  import opened Wrappers
  import opened Text
  import opened Json
  import opened JsonReader
  import opened JsonStrings
  import opened Decimal
  import opened Escape
  import opened TunnelProtocol

  // ----- headers hold no newline, so the separator is where it was put -----

  /** `c` stands in no string body and in no atom of the tree. */
  predicate Avoids(j: Json, c: char) {
    match j
    case Atom(tok) => c !in tok
    case Str(raw) => c !in raw
    case Arr(elems) => forall e | e in elems :: Avoids(e, c)
    case Obj(members) => forall m | m in members :: c !in m.key && Avoids(m.val, c)
  }

  lemma {:induction false} JoinAvoids(texts: seq<string>, c: char)
    requires c != ',' && forall t | t in texts :: c !in t
    ensures c !in Rest(texts) && c !in Join(texts)
  {
    if texts != [] {
      JoinAvoids(texts[1..], c);
    }
  }

  lemma {:induction false} PrintAvoids(j: Json, c: char)
    requires Avoids(j, c) && c !in "\",:{}[]"
    ensures c !in Print(j)
    decreases j, 1
  {
    match j
    case Atom(_) =>
    case Str(_) =>
    case Arr(elems) =>
      ElemsAvoid(elems, c);
      JoinAvoids(ElemTexts(elems), c);
    case Obj(members) =>
      MembersAvoid(members, c);
      JoinAvoids(MemberTexts(members), c);
  }

  lemma {:induction false} ElemsAvoid(elems: seq<Json>, c: char)
    requires (forall e | e in elems :: Avoids(e, c)) && c !in "\",:{}[]"
    ensures forall t | t in ElemTexts(elems) :: c !in t
    decreases elems, 0
  {
    if elems != [] {
      PrintAvoids(elems[0], c);
      ElemsAvoid(elems[1..], c);
    }
  }

  lemma {:induction false} MembersAvoid(members: seq<Member>, c: char)
    requires (forall m | m in members :: c !in m.key && Avoids(m.val, c)) && c !in "\",:{}[]"
    ensures forall t | t in MemberTexts(members) :: c !in t
    decreases members, 0
  {
    if members != [] {
      PrintAvoids(members[0].val, c);
      MembersAvoid(members[1..], c);
    }
  }

  lemma CutHere(header: string, payload: string)
    requires '\n' !in header
    ensures Find(header + Separator() + payload, Separator(), 0) == Some(|header|)
    ensures HeaderOf(header + Separator() + payload) == header
    ensures PayloadOf(header + Separator() + payload) == payload
  {
    var s := header + Separator() + payload;
    forall j | 0 <= j < |header| ensures !At(s, Separator(), j) {
      assert s[j] == header[j];
      assert j + 2 <= |s| ==> s[j..j + 2][0] == s[j];
    }
    assert s[|header|..|header| + 2] == Separator();
    FindIs(s, Separator(), 0, |header|);
  }

  lemma NumberOneLine(n: nat)
    ensures Avoids(Number(n), '\n')
  {
    hide ToDecimal;
    assert forall i | 0 <= i < |ToDecimal(n)| :: IsDigit(ToDecimal(n)[i]);
  }

  predicate PlainMember(m: Member) {
    '\n' !in m.key && Avoids(m.val, '\n')
  }

  lemma ReplyOneLine(meta: Meta, info: Info)
    ensures Avoids(Obj(ReplyMembers(meta, info)), '\n')
  {
    hide JsonEscape, ToDecimal, Number;
    EscapeQuotes(meta.fileMd5);
    EscapeQuotes(meta.ftpFileMd5);
    EscapeQuotes(meta.path);
    NumberOneLine(info.size);
    NumberOneLine(info.offset);
    NumberOneLine(meta.total);
    var ms := ReplyMembers(meta, info);
    assert PlainMember(ms[0]) && PlainMember(ms[1]) && PlainMember(ms[2]);
    assert PlainMember(ms[3]) && PlainMember(ms[4]) && PlainMember(ms[5]);
    assert forall m | m in ms :: PlainMember(m);
  }

  lemma HeaderOneLine(meta: Meta, info: Info)
    ensures '\n' !in Print(FrameTree(meta, info))
  {
    hide Print, Number, ReplyMembers;
    ReplyOneLine(meta, info);
    NumberOneLine(info.result);
    NumberOneLine(meta.sequence);
    var ms := FrameMembers(meta, info);
    assert PlainMember(ms[0]) && PlainMember(ms[1]) && PlainMember(ms[2]);
    assert forall m | m in ms :: PlainMember(m);
    PrintAvoids(FrameTree(meta, info), '\n');
  }

  /** Cutting a frame at its first blank line gives its header and its piece of the payload. */
  lemma FrameCuts(meta: Meta, payload: string, k: nat)
    requires k < FrameCount(|payload|)
    ensures Contains(Frame(meta, payload, k), Separator())
    ensures HeaderOf(Frame(meta, payload, k)) == Print(FrameTree(meta, InfoAt(|payload|, k)))
    ensures PayloadOf(Frame(meta, payload, k)) == Chunk(payload, k)
  {
    hide Print, FrameTree, Chunk, InfoAt, FrameCount;
    HeaderOneLine(meta, InfoAt(|payload|, k));
    CutHere(Print(FrameTree(meta, InfoAt(|payload|, k))), Chunk(payload, k));
  }

  // ----- the payload comes back -----

  /** The payloads of the frames, each frame cut at its first blank line, one after the other. */
  function Rejoined(frames: seq<string>): string
    requires forall f | f in frames :: Contains(f, Separator())
  {
    if frames == [] then ""
    else Rejoined(frames[..|frames| - 1]) + PayloadOf(frames[|frames| - 1])
  }

  lemma FramesCut(meta: Meta, payload: string)
    ensures forall f | f in Frames(meta, payload) :: Contains(f, Separator())
  {
    hide Contains, Frame, FrameCount;
    forall f | f in Frames(meta, payload) ensures Contains(f, Separator()) {
      var k :| 0 <= k < FrameCount(|payload|) && f == Frame(meta, payload, k);
      FrameCuts(meta, payload, k);
    }
  }

  function Reach(size: nat, k: nat): nat {
    if k * CHUNK <= size then k * CHUNK else size
  }

  lemma NextReach(payload: string, k: nat)
    requires k < FrameCount(|payload|)
    ensures payload[..Reach(|payload|, k)] + Chunk(payload, k) == payload[..Reach(|payload|, k + 1)]
    ensures Reach(|payload|, k) == InfoAt(|payload|, k).offset
    ensures |Chunk(payload, k)| == InfoAt(|payload|, k).size
    ensures 0 < |Chunk(payload, k)| <= CHUNK
  {
  }

  lemma {:induction false} FirstFrames(meta: Meta, payload: string, k: nat)
    requires k <= FrameCount(|payload|)
    requires forall f | f in Frames(meta, payload) :: Contains(f, Separator())
    ensures Rejoined(Frames(meta, payload)[..k]) == payload[..Reach(|payload|, k)]
  {
    hide Contains, Frame, Chunk, FrameCount, PayloadOf, HeaderOf, InfoAt;
    if k != 0 {
      FirstFrames(meta, payload, k - 1);
      FrameCuts(meta, payload, k - 1);
      var first := Frames(meta, payload)[..k];
      assert first[..k - 1] == Frames(meta, payload)[..k - 1];
      assert first[k - 1] == Frame(meta, payload, k - 1);
      NextReach(payload, k - 1);
    }
  }

  /**
   For every response with a blank line the frames carry its payload: nothing lost, nothing
   added, in order, whatever the payload itself contains.
   */
  lemma PayloadsRejoin(response: string)
    requires Contains(response, Separator())
    ensures forall f | f in SplitFrames(response) :: Contains(f, Separator())
    ensures Rejoined(SplitFrames(response)) == PayloadOf(response)
  {
    hide Contains, Frames, ExtractInteger, ExtractString, PayloadOf;
    if Splits(response) {
      var header, payload := HeaderOf(response), PayloadOf(response);
      var meta := MetaOf(header, ExtractInteger(header, "sequence").value, |payload|);
      FramesRejoin(meta, payload);
    } else {
      assert [response][..0] == [];
      assert Rejoined([response]) == PayloadOf(response);
    }
  }

  lemma FramesRejoin(meta: Meta, payload: string)
    ensures forall f | f in Frames(meta, payload) :: Contains(f, Separator())
    ensures Rejoined(Frames(meta, payload)) == payload
  {
    hide Contains, Frame;
    FramesCut(meta, payload);
    FirstFrames(meta, payload, FrameCount(|payload|));
    assert Frames(meta, payload)[..FrameCount(|payload|)] == Frames(meta, payload);
  }

  // ----- what each header says -----

  predicate TextPrintable(meta: Meta) {
    Printable(meta.fileMd5) && Printable(meta.ftpFileMd5) && Printable(meta.path)
  }

  predicate MemberWellFormed(m: Member) {
    ValidBody(m.key) && WellFormed(m.val)
  }

  lemma FrameKeysValid()
    ensures ValidBody("size") && ValidBody("offset") && ValidBody("total") && ValidBody("file_md5")
    ensures ValidBody("ftp_file_md5") && ValidBody("path") && ValidBody("result") && ValidBody("sequence") && ValidBody("reply")
  {
    hide ValidBody;
    KeyValid("size");
    KeyValid("offset");
    KeyValid("total");
    KeyValid("file_md5");
    KeyValid("ftp_file_md5");
    KeyValid("path");
    KeyValid("result");
    KeyValid("sequence");
    KeyValid("reply");
  }

  lemma ReplyWellFormed(meta: Meta, info: Info)
    ensures WellFormed(Obj(ReplyMembers(meta, info))) <==> TextPrintable(meta)
  {
    hide ValidBody, JsonEscape, ToDecimal, Number, Printable;
    FrameKeysValid();
    EscapedValid(meta.fileMd5);
    EscapedValid(meta.ftpFileMd5);
    EscapedValid(meta.path);
    NumbersWellFormed(info.size, info.offset, meta.total);
    var ms := ReplyMembers(meta, info);
    assert MemberWellFormed(ms[0]) && MemberWellFormed(ms[1]) && MemberWellFormed(ms[2]);
    assert (forall m | m in ms :: MemberWellFormed(m)) <==> MemberWellFormed(ms[3]) && MemberWellFormed(ms[4]) && MemberWellFormed(ms[5]);
  }

  lemma NumbersWellFormed(a: nat, b: nat, c: nat)
    ensures WellFormed(Number(a)) && WellFormed(Number(b)) && WellFormed(Number(c))
  {
    hide WellFormed;
    NumberWellFormed(a);
    NumberWellFormed(b);
    NumberWellFormed(c);
  }

  /** A header is legal JSON, read back member for member, exactly when its three strings are printable. */
  lemma TreeWellFormed(meta: Meta, info: Info)
    ensures WellFormed(FrameTree(meta, info)) <==> TextPrintable(meta)
  {
    hide ValidBody, Number, ReplyMembers, TextPrintable;
    FrameKeysValid();
    ReplyWellFormed(meta, info);
    NumbersWellFormed(info.result, meta.sequence, 0);
    var ms := FrameMembers(meta, info);
    assert MemberWellFormed(ms[0]) && MemberWellFormed(ms[1]);
    assert (forall m | m in ms :: MemberWellFormed(m)) <==> MemberWellFormed(ms[2]);
  }

  /** What the header of the `k`-th frame has to say, in terms of the frames alone. */
  function Announced(frames: seq<string>, k: nat): Info
    requires k < |frames| && forall f | f in frames :: Contains(f, Separator())
  {
    Info(if k == |frames| - 1 then 0 else 1, |PayloadOf(frames[k])|, |Rejoined(frames[..k])|)
  }

  /** Each frame's header tells its place: only the last has result 0, sizes and offsets add up. */
  lemma FramesAnnounce(meta: Meta, payload: string, k: nat)
    requires k < |Frames(meta, payload)|
    ensures |Frames(meta, payload)| == FrameCount(|payload|)
    ensures forall f | f in Frames(meta, payload) :: Contains(f, Separator())
    ensures 0 < |PayloadOf(Frames(meta, payload)[k])| <= CHUNK
    ensures HeaderOf(Frames(meta, payload)[k]) == Print(FrameTree(meta, Announced(Frames(meta, payload), k)))
  {
    hide Contains, Frame, Chunk, FrameCount, PayloadOf, HeaderOf, FrameTree, Print, Rejoined;
    FramesCut(meta, payload);
    FirstFrames(meta, payload, k);
    FrameCuts(meta, payload, k);
    NextReach(payload, k);
    assert Frames(meta, payload)[k] == Frame(meta, payload, k);
    assert |Frames(meta, payload)| == FrameCount(|payload|);
  }

  /**
   In the cut case the frames are as many as the payload needs, each piece holds 1 to 4 MiB, and
   every header announces its own place; it is legal JSON when the copied strings are printable.
   */
  lemma SplitAnnounces(response: string, k: nat)
    requires Splits(response) && k < |SplitFrames(response)|
    ensures forall f | f in SplitFrames(response) :: Contains(f, Separator())
    ensures (|SplitFrames(response)| - 1) * CHUNK < |PayloadOf(response)| <= |SplitFrames(response)| * CHUNK
    ensures 0 < |PayloadOf(SplitFrames(response)[k])| <= CHUNK
    ensures
      var header, frames := HeaderOf(response), SplitFrames(response);
      var meta := MetaOf(header, ExtractInteger(header, "sequence").value, |PayloadOf(response)|);
      && HeaderOf(frames[k]) == Print(FrameTree(meta, Announced(frames, k)))
      && (TextPrintable(meta) ==> ReadsAs(HeaderOf(frames[k]), FrameTree(meta, Announced(frames, k))))
  {
    hide Contains, ExtractInteger, MetaOf, PayloadOf, HeaderOf, Announced, FrameTree, ReadsAs, WellFormed, FrameCount,
      Print, TextPrintable, Frame, Frames;
    var header, payload := HeaderOf(response), PayloadOf(response);
    var meta := MetaOf(header, ExtractInteger(header, "sequence").value, |payload|);
    CountFits(|payload|);
    FramesAnnounce(meta, payload, k);
    var info := Announced(SplitFrames(response), k);
    TreeWellFormed(meta, info);
    if TextPrintable(meta) {
      ReadPrint(FrameTree(meta, info));
    }
  }
}
