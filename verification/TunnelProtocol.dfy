/** Cutting a file download reply into frames (bambu-farm-client/cpp/tunnel_protocol.cpp). */
module TunnelProtocol {
  import opened Wrappers
  import opened Text
  import opened Json
  import opened JsonKeys
  import opened Decimal
  import opened Escape

  const CHUNK: nat := 4 * 1024 * 1024
  const U64_MAX: nat := 0xFFFF_FFFF_FFFF_FFFF

  // ----- the header fields, as the two regular expressions find them -----

  function Saturated(n: nat): nat {
    if n <= U64_MAX then n else U64_MAX
  }

  /** The first `"key":` with a digit after it, read as an unsigned 64-bit number. */
  function IntegerFrom(json: string, key: string, from: nat): Option<nat>
    decreases |json| - from
  {
    match Find(json, KeyPattern(key), from)
    case None => None
    case Some(i) =>
      var rest := json[i + |KeyPattern(key)|..];
      if DigitRun(rest) == 0 then IntegerFrom(json, key, i + 1)
      else Some(Saturated(Value(rest[..DigitRun(rest)])))
  }

  function ExtractInteger(json: string, key: string): Option<nat> {
    IntegerFrom(json, key, 0)
  }

  /** What stands between `"key":"` and the next quote. */
  function ExtractString(json: string, key: string): string {
    match Find(json, KeyPattern(key) + "\"", 0)
    case None => ""
    case Some(i) => UpToQuote(json[i + |KeyPattern(key)| + 1..])
  }

  /** The text before its first quote; nothing when no quote closes it. */
  function UpToQuote(s: string): string {
    if Find(s, "\"", 0).None? then "" else s[..Find(s, "\"", 0).value]
  }

  /** The regular expression for a number matches here: the key, a colon and a digit. */
  predicate NumberMatch(json: string, key: string, i: nat) {
    At(json, KeyPattern(key), i) && i + |KeyPattern(key)| < |json| && IsDigit(json[i + |KeyPattern(key)|])
  }

  /** The run of digits after the key. */
  function NumberRead(json: string, key: string, i: nat): nat
    requires At(json, KeyPattern(key), i)
  {
    var rest := json[i + |KeyPattern(key)|..];
    Saturated(Value(rest[..DigitRun(rest)]))
  }

  lemma NumberHere(json: string, key: string, from: nat, i: nat)
    requires Find(json, KeyPattern(key), from) == Some(i)
    ensures IntegerFrom(json, key, from) ==
            if NumberMatch(json, key, i) then Some(NumberRead(json, key, i)) else IntegerFrom(json, key, i + 1)
  {
    hide Find, Value;
    var rest := json[i + |KeyPattern(key)|..];
    assert rest != "" ==> rest[0] == json[i + |KeyPattern(key)|];
  }

  lemma NoneBefore(json: string, key: string, from: nat)
    ensures match Find(json, KeyPattern(key), from)
            case Some(i) => forall j: nat | from <= j < i :: !NumberMatch(json, key, j)
            case None => forall j: nat | from <= j :: !NumberMatch(json, key, j)
  {
    FindLeast(json, KeyPattern(key), from);
  }

  lemma {:induction false} IntegerFromIs(json: string, key: string, from: nat) returns (i: nat)
    ensures IntegerFrom(json, key, from).None? <==> forall j: nat | from <= j :: !NumberMatch(json, key, j)
    ensures IntegerFrom(json, key, from).Some? ==>
              && from <= i && NumberMatch(json, key, i) && (forall j: nat | from <= j < i :: !NumberMatch(json, key, j))
              && IntegerFrom(json, key, from) == Some(NumberRead(json, key, i))
    decreases |json| - from
  {
    hide *;
    i := 0;
    NoneBefore(json, key, from);
    var found := Find(json, KeyPattern(key), from);
    if found.Some? {
      i := found.value;
      NumberHere(json, key, from, i);
      KeyInside(json, key, from);
      if !NumberMatch(json, key, i) {
        i := IntegerFromIs(json, key, found.value + 1);
      }
    } else {
      NoKey(json, key, from);
    }
  }

  lemma KeyInside(json: string, key: string, from: nat)
    ensures Find(json, KeyPattern(key), from).Some? ==> from <= Find(json, KeyPattern(key), from).value < |json|
  {
  }

  lemma NoKey(json: string, key: string, from: nat)
    requires Find(json, KeyPattern(key), from).None?
    ensures IntegerFrom(json, key, from) == None
  {
  }

  /**
   What is read as a number is the run of digits at the first place where the expression matches; there is
   none when it matches nowhere.
   */
  lemma ExtractIntegerIs(json: string, key: string) returns (i: nat)
    ensures ExtractInteger(json, key).None? <==> forall j: nat :: !NumberMatch(json, key, j)
    ensures ExtractInteger(json, key).Some? ==>
              && NumberMatch(json, key, i) && (forall j: nat | j < i :: !NumberMatch(json, key, j))
              && var rest := json[i + |KeyPattern(key)|..];
                 var value := Value(rest[..DigitRun(rest)]);
                 ExtractInteger(json, key) == Some(if value < 0x1_0000_0000_0000_0000 then value else 0xFFFF_FFFF_FFFF_FFFF)
  {
    hide IntegerFrom, Value, DigitRun;
    i := IntegerFromIs(json, key, 0);
  }

  /** The regular expression for a string matches here: the key, a colon, a quote and, somewhere after it, another. */
  predicate StringMatch(json: string, key: string, i: nat) {
    At(json, KeyPattern(key) + "\"", i) && '"' in json[i + |KeyPattern(key)| + 1..]
  }

  lemma UpToQuoteIs(s: string)
    ensures '"' !in s ==> UpToQuote(s) == ""
    ensures '"' in s ==> '"' !in UpToQuote(s) && UpToQuote(s) + "\"" <= s
  {
    hide Find;
    FindLeast(s, "\"", 0);
    if Find(s, "\"", 0).Some? {
      FindCharIs(s, '"', 0);
      forall i | 0 <= i < |UpToQuote(s)| ensures UpToQuote(s)[i] != '"' {
        CharAt(s, '"', i);
      }
    } else {
      forall i | 0 <= i < |s| ensures s[i] != '"' {
        CharAt(s, '"', i);
      }
    }
  }

  /**
   What is read as a string is the text up to the next quote at the first place where the expression
   matches; it is empty when it matches nowhere.
   */
  lemma ExtractStringIs(json: string, key: string) returns (i: nat)
    ensures (forall j: nat :: !StringMatch(json, key, j)) ==> ExtractString(json, key) == ""
    ensures (exists j: nat :: StringMatch(json, key, j)) ==>
              && StringMatch(json, key, i) && (forall j: nat | j < i :: !StringMatch(json, key, j))
              && '"' !in ExtractString(json, key) && ExtractString(json, key) + "\"" <= json[i + |KeyPattern(key)| + 1..]
  {
    var pat := KeyPattern(key) + "\"";
    i := 0;
    FindLeast(json, pat, 0);
    hide Find, KeyPattern, UpToQuote, At;
    forall j: nat | StringMatch(json, key, j) ensures Find(json, pat, 0).Some? && Find(json, pat, 0).value <= j {
    }
    if Find(json, pat, 0).Some? {
      i := Find(json, pat, 0).value;
      assert At(json, pat, i) && forall j: nat | j < i :: !StringMatch(json, key, j);
      FoundString(json, key, i);
    }
  }

  lemma FoundString(json: string, key: string, i: nat)
    requires Find(json, KeyPattern(key) + "\"", 0) == Some(i)
    ensures (exists j: nat :: i <= j && StringMatch(json, key, j)) ==> StringMatch(json, key, i)
    ensures if StringMatch(json, key, i)
            then '"' !in ExtractString(json, key) && ExtractString(json, key) + "\"" <= json[i + |KeyPattern(key)| + 1..]
            else ExtractString(json, key) == ""
  {
    hide Find, KeyPattern, UpToQuote;
    var n := |KeyPattern(key)| + 1;
    UpToQuoteIs(json[i + n..]);
    forall j: nat | i <= j && StringMatch(json, key, j) ensures StringMatch(json, key, i) {
      LaterQuote(json, i + n, j + n);
    }
  }

  lemma LaterQuote(json: string, a: nat, b: nat)
    requires a <= b <= |json| && '"' in json[b..]
    ensures '"' in json[a..]
  {
    assert json[a..] == json[a..b] + json[b..];
  }

  // ----- frames -----

  datatype Meta = Meta(sequence: nat, total: nat, fileMd5: string, ftpFileMd5: string, path: string)

  datatype Info = Info(result: nat, size: nat, offset: nat)

  function Number(n: nat): Json {
    Atom(ToDecimal(n))
  }

  function Escaped(value: string): Json {
    Str(JsonEscape(value))
  }

  function ReplyMembers(meta: Meta, info: Info): seq<Member> {
    [Member("size", Number(info.size)),
     Member("offset", Number(info.offset)),
     Member("total", Number(meta.total)),
     Member("file_md5", Escaped(meta.fileMd5)),
     Member("ftp_file_md5", Escaped(meta.ftpFileMd5)),
     Member("path", Escaped(meta.path))]
  }

  function FrameMembers(meta: Meta, info: Info): seq<Member> {
    [Member("result", Number(info.result)),
     Member("sequence", Number(meta.sequence)),
     Member("reply", Obj(ReplyMembers(meta, info)))]
  }

  /** The header that one frame announces itself with. */
  function FrameTree(meta: Meta, info: Info): Json {
    Obj(FrameMembers(meta, info))
  }

  function Separator(): string {
    "\n\n"
  }

  function FrameCount(size: nat): nat {
    (size + CHUNK - 1) / CHUNK
  }

  /** The `k`-th piece of the payload. */
  function Chunk(payload: string, k: nat): string
    requires k < FrameCount(|payload|)
  {
    payload[k * CHUNK..if (k + 1) * CHUNK <= |payload| then (k + 1) * CHUNK else |payload|]
  }

  function InfoAt(size: nat, k: nat): Info
    requires k < FrameCount(size)
  {
    if k + 1 < FrameCount(size) then Info(1, CHUNK, k * CHUNK) else Info(0, size - k * CHUNK, k * CHUNK)
  }

  function Frame(meta: Meta, payload: string, k: nat): string
    requires k < FrameCount(|payload|)
  {
    Print(FrameTree(meta, InfoAt(|payload|, k))) + Separator() + Chunk(payload, k)
  }

  function Frames(meta: Meta, payload: string): seq<string> {
    seq(FrameCount(|payload|), k requires 0 <= k < FrameCount(|payload|) => Frame(meta, payload, k))
  }

  function MetaOf(header: string, sequence: nat, size: nat): Meta {
    Meta(sequence,
         if ExtractInteger(header, "total").Some? then ExtractInteger(header, "total").value else size,
         ExtractString(header, "file_md5"), ExtractString(header, "ftp_file_md5"), ExtractString(header, "path"))
  }

  function HeaderOf(response: string): string
    requires Contains(response, Separator())
  {
    response[..Find(response, Separator(), 0).value]
  }

  function PayloadOf(response: string): string
    requires Contains(response, Separator())
  {
    response[Find(response, Separator(), 0).value + 2..]
  }

  predicate Splits(response: string) {
    && Contains(response, Separator())
    && |PayloadOf(response)| > CHUNK
    && ExtractInteger(HeaderOf(response), "sequence").Some?
  }

  /** The frames of a response: cut when its payload is long and its header numbered, else the response itself. */
  function SplitFrames(response: string): seq<string> {
    if !Splits(response) then [response]
    else
      var header, payload := HeaderOf(response), PayloadOf(response);
      Frames(MetaOf(header, ExtractInteger(header, "sequence").value, |payload|), payload)
  }

  lemma BodyOfSix(ms: seq<Member>)
    requires |ms| == 6
    ensures Join(MemberTexts(ms)) ==
            Join(MemberTexts(ms[..3])) + "," + MemberText(ms[3].key, Print(ms[3].val)) +
            "," + MemberText(ms[4].key, Print(ms[4].val)) + "," + MemberText(ms[5].key, Print(ms[5].val))
  {
    hide MemberText, Join, MemberTexts;
    BodySnoc(ms[..3], ms[3]);
    BodySnoc(ms[..4], ms[4]);
    BodySnoc(ms[..5], ms[5]);
    assert ms[..3] + [ms[3]] == ms[..4] && ms[..4] + [ms[4]] == ms[..5] && ms[..5] + [ms[5]] == ms;
  }

  method FrameHeader(meta: Meta, info: Info) returns (header: string)
    ensures header == Print(FrameTree(meta, info))
  {
    hide MemberText, Join, MemberTexts, ToDecimal, JsonEscape;
    var fileMd5 := EscapeText(meta.fileMd5);
    var ftpFileMd5 := EscapeText(meta.ftpFileMd5);
    var path := EscapeText(meta.path);
    var reply :=
      MemberText("size", ToDecimal(info.size)) +
      "," + MemberText("offset", ToDecimal(info.offset)) +
      "," + MemberText("total", ToDecimal(meta.total)) +
      "," + MemberText("file_md5", Quote(fileMd5)) +
      "," + MemberText("ftp_file_md5", Quote(ftpFileMd5)) +
      "," + MemberText("path", Quote(path));
    header :=
      "{" + (MemberText("result", ToDecimal(info.result)) +
      "," + MemberText("sequence", ToDecimal(meta.sequence)) +
      "," + MemberText("reply", "{" + reply + "}")) + "}";
    BodyOfThree(ReplyMembers(meta, info)[..3]);
    BodyOfSix(ReplyMembers(meta, info));
    BodyOfThree(FrameMembers(meta, info));
  }

  method SplitFileDownloadResponseFrames(response: string) returns (frames: seq<string>)
    ensures frames == SplitFrames(response)
  {
    hide Find, ExtractInteger, ExtractString, Frames;
    var separator := Find(response, "\n\n", 0);
    if separator.None? {
      return [response];
    }
    var header, payload := response[..separator.value], response[separator.value + 2..];
    if |payload| <= CHUNK {
      return [response];
    }
    var sequence := ExtractInteger(header, "sequence");
    if sequence.None? {
      return [response];
    }
    var total := |payload|;
    var found := ExtractInteger(header, "total");
    if found.Some? {
      total := found.value;
    }
    var meta := Meta(sequence.value, total, ExtractString(header, "file_md5"),
                     ExtractString(header, "ftp_file_md5"), ExtractString(header, "path"));
    frames := CutFrames(meta, payload);
  }

  /** The loop of `split_file_download_response_frames`. */
  method CutFrames(meta: Meta, payload: string) returns (frames: seq<string>)
    ensures frames == Frames(meta, payload)
  {
    hide Print, FrameTree, Frame, FrameCount, Chunk, InfoAt;
    frames := [];
    var offset := 0;
    while offset < |payload|
      invariant offset == |frames| * CHUNK
      invariant frames <= Frames(meta, payload)
      decreases |payload| - offset
    {
      ghost var k := |frames|;
      CutAt(meta, payload, k);
      var chunkSize := if CHUNK <= |payload| - offset then CHUNK else |payload| - offset;
      var result := if offset + chunkSize < |payload| then 1 else 0;
      var frameHeader := FrameHeader(meta, Info(result, chunkSize, offset));
      var frame := frameHeader + "\n\n" + payload[offset..offset + chunkSize];
      frames := frames + [frame];
      offset := offset + CHUNK;
    }
    CountFits(|payload|);
  }

  /** The `k`-th turn of the loop cuts the `k`-th piece and knows whether it is the last. */
  lemma CutAt(meta: Meta, payload: string, k: nat)
    requires k * CHUNK < |payload|
    ensures k < FrameCount(|payload|)
    ensures var size := if CHUNK <= |payload| - k * CHUNK then CHUNK else |payload| - k * CHUNK;
            var info := Info(if k * CHUNK + size < |payload| then 1 else 0, size, k * CHUNK);
            && Chunk(payload, k) == payload[k * CHUNK..k * CHUNK + size]
            && InfoAt(|payload|, k) == info
            && Frames(meta, payload)[k] == Print(FrameTree(meta, info)) + "\n\n" + payload[k * CHUNK..k * CHUNK + size]
  {
    hide Print, FrameTree;
  }

  /** The frames are as many as the payload needs; the last one is not empty. */
  lemma CountFits(size: nat)
    ensures size <= FrameCount(size) * CHUNK
    ensures size != 0 ==> (FrameCount(size) - 1) * CHUNK < size
    ensures size == 0 ==> FrameCount(size) == 0
  {
  }
}
