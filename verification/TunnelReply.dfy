/**
 The file download reply that `bambu_network_rs_tunnel_request` builds and the client then cuts:
 the key searches of the cutter find the true keys, whatever the path says.
 */
module TunnelReply {
  import opened Wrappers
  import opened Arithmetic
  import opened Text
  import opened Json
  import opened JsonSpot
  import opened JsonKeys
  import opened JsonReader
  import opened JsonStrings
  import opened Decimal
  import opened Escape
  import opened TunnelProtocol
  import opened TunnelFrames

  // ----- the reply, as serde_json prints it: members sorted by key -----

  function SerdeChar(c: char): string {
    if c == '"' then "\\\""
    else if c == '\\' then "\\\\"
    else if c == 8 as char then "\\b"
    else if c == 12 as char then "\\f"
    else if c == '\n' then "\\n"
    else if c == '\r' then "\\r"
    else if c == '\t' then "\\t"
    else if c < ' ' then "\\u00" + [HexDigit(c as nat / 16), HexDigit(c as nat % 16)]
    else [c]
  }

  function SerdeEscape(value: string): string {
    if value == "" then "" else SerdeChar(value[0]) + SerdeEscape(value[1..])
  }

  datatype Download = Download(path: string, md5: string, size: nat)

  function ReplyTree(d: Download): Json {
    Obj(Sorted(d))
  }

  function Sorted(d: Download): (ms: seq<Member>)
    ensures |ms| == 6
  {
    [Member("file_md5", Str(SerdeEscape(d.md5))),
     Member("ftp_file_md5", Str(SerdeEscape(d.md5))),
     Member("offset", Number(0)),
     Member("path", Str(SerdeEscape(d.path))),
     Member("size", Number(d.size)),
     Member("total", Number(d.size))]
  }

  /** `build_reply_frame`. */
  function BuildReplyFrame(sequence: int, result: nat, reply: Json, payload: string): string {
    Print(ReplyHeader(sequence, result, reply)) + "\n\n" + payload
  }

  function ReplyHeader(sequence: int, result: nat, reply: Json): Json {
    Obj([Member("reply", reply), Member("result", Number(result)), Member("sequence", Atom(SignedDecimal(sequence)))])
  }

  // ----- extraction from any printed tree -----

  lemma AfterStarts(spot: Spot)
    ensures After(spot) != "" && After(spot)[0] in ",}]"
  {
  }

  lemma LeafPrints(text: string)
    ensures Print(Atom(text)) == text && Print(Str(text)) == "\"" + text + "\""
  {
  }

  lemma IntegerAt(text: string, key: string, i: nat, n: nat, rest: string)
    requires Find(text, KeyPattern(key), 0) == Some(i)
    requires i + |KeyPattern(key)| <= |text| && text[i + |KeyPattern(key)|..] == ToDecimal(n) + rest
    requires rest == "" || !IsDigit(rest[0])
    ensures ExtractInteger(text, key) == Some(Saturated(n))
  {
    hide Find, KeyPattern, ToDecimal, Value, DigitRun;
    DigitRunOf(ToDecimal(n), rest);
    assert (ToDecimal(n) + rest)[..|ToDecimal(n)|] == ToDecimal(n);
    ValueToDecimal(n);
  }

  /** A true integer member that is the first with its key is read exactly, up to 64 bits. */
  lemma ExtractsInteger(spot: Spot, key: string, n: nat)
    requires SafeAround(spot) && PlainKey(key) && !KeyBefore(spot, key)
    ensures ExtractInteger(Print(Plug(spot, Member(key, Number(n)))), key) == Some(Saturated(n))
  {
    var m := Member(key, Number(n));
    LeafPrints(ToDecimal(n));
    hide Print, Before, After, KeyPattern, Find, PlainKey, SafeAround, KeyBefore, ToDecimal, ExtractInteger, Plug;
    FindFirstKey(spot, m);
    var before, pat, rest := Before(spot), KeyPattern(key), ToDecimal(n) + After(spot);
    assert (before + (pat + rest))[|before| + |pat|..] == rest;
    AfterStarts(spot);
    IntegerAt(Print(Plug(spot, m)), key, |before|, n, After(spot));
  }

  lemma UpToQuoteOf(raw: string, rest: string)
    ensures UpToQuote(raw + ("\"" + rest)) == Clipped(raw)
  {
    FindCharSplit(raw, "\"" + rest, '"', 0);
    assert ("\"" + rest)[0..1] == "\"";
    FindIs("\"" + rest, "\"", 0, 0);
    FindLeast(raw, "\"", 0);
  }

  /** A body up to its first quote, which an escaped body has when its string has one. */
  function Clipped(raw: string): string {
    if Find(raw, "\"", 0).Some? then raw[..Find(raw, "\"", 0).value] else raw
  }

  lemma StringAt(text: string, key: string, before: string, raw: string, rest: string)
    requires Find(text, KeyPattern(key), 0) == Some(|before|)
    requires text == before + ((KeyPattern(key) + "\"") + (raw + ("\"" + rest)))
    ensures ExtractString(text, key) == Clipped(raw)
  {
    hide Find, At, KeyPattern, UpToQuote, Clipped;
    var pat, tail := KeyPattern(key), raw + ("\"" + rest);
    AtPiece(before, pat + "\"", tail);
    LongerPattern(text, pat, "\"", |before|);
    assert text[|before| + |pat| + 1..] == tail;
    UpToQuoteOf(raw, rest);
  }

  /** A true string member that is the first with its key is read up to its first quote, escaped or not. */
  lemma ExtractsString(spot: Spot, key: string, raw: string)
    requires SafeAround(spot) && PlainKey(key) && !KeyBefore(spot, key)
    ensures ExtractString(Print(Plug(spot, Member(key, Str(raw)))), key) == Clipped(raw)
  {
    LeafPrints(raw);
    hide Print, Before, After, KeyPattern, Find, Plug, Clipped, ExtractString, PlainKey, SafeAround, KeyBefore;
    FindFirstKey(spot, Member(key, Str(raw)));
    var pat, quoted, rest := KeyPattern(key), raw + ("\"" + After(spot)), After(spot);
    Associates("\"" + raw, "\"", rest);
    Associates("\"", raw, "\"" + rest);
    Associates(pat, "\"", quoted);
    StringAt(Print(Plug(spot, Member(key, Str(raw)))), key, Before(spot), raw, After(spot));
  }

  lemma AtPiece(before: string, pat: string, rest: string)
    ensures At(before + (pat + rest), pat, |before|)
  {
  }

  /** When the first match of a pattern is followed by `x`, it is the first match of the longer pattern. */
  lemma LongerPattern(s: string, pat: string, x: string, i: nat)
    requires Find(s, pat, 0) == Some(i) && At(s, pat + x, i)
    ensures Find(s, pat + x, 0) == Some(i)
  {
    FindLeast(s, pat, 0);
    forall j | 0 <= j < i ensures !At(s, pat + x, j) {
      if At(s, pat + x, j) {
        AtPrefix(s, pat, x, j);
      }
    }
    FindIs(s, pat + x, 0, i);
  }

  // ----- serde's escapes -----

  predicate Plain(value: string) {
    forall i | 0 <= i < |value| :: value[i] !in "\"\\" && ' ' <= value[i]
  }

  lemma SerdeCharParts(c: char)
    ensures var e := SerdeChar(c);
            && e != "" && (e == [c] <==> Plain([c])) && (|e| == 1 ==> e == [c])
            && (forall i | 0 <= i < |e| :: ' ' <= e[i])
            && (forall i | 0 <= i < |e| && e[i] == '"' :: c == '"' && i == 1)
            && (c == '"' ==> e == "\\\"")
  {
    assert Plain([c]) <==> [c][0] !in "\"\\" && ' ' <= [c][0];
    assert SerdeChar(c) == [c] <==> c !in "\"\\" && ' ' <= c;
    if |SerdeChar(c)| == 6 {
      var a, b := HexDigit(c as nat / 16), HexDigit(c as nat % 16);
      assert SerdeChar(c) == ['\\', 'u', '0', '0', a, b];
    }
  }

  lemma {:induction false} SerdeQuotes(value: string)
    ensures QuotesEscaped(SerdeEscape(value))
    ensures forall i | 0 <= i < |SerdeEscape(value)| :: ' ' <= SerdeEscape(value)[i]
    ensures '"' in SerdeEscape(value) <==> '"' in value
  {
    if value != "" {
      hide SerdeChar;
      SerdeQuotes(value[1..]);
      SerdeCharParts(value[0]);
      var head, tail := SerdeChar(value[0]), SerdeEscape(value[1..]);
      SafeCons(head, tail);
      assert value == [value[0]] + value[1..];
      if value[0] == '"' {
        assert (head + tail)[1] == '"';
      }
    }
  }

  lemma SafeCons(head: string, tail: string)
    requires QuotesEscaped(tail)
    requires forall i | 0 <= i < |head| && head[i] == '"' :: i == 1 && head == "\\\""
    ensures QuotesEscaped(head + tail)
  {
    forall i | 0 <= i < |head + tail| && (head + tail)[i] == '"'
      ensures 0 < i && (head + tail)[i - 1] == '\\'
    {
      if |head| <= i {
        assert tail[i - |head|] == '"';
      }
    }
  }

  /** Escaping keeps the length exactly when it keeps the text, when there is nothing to escape. */
  lemma {:induction false} SerdeLength(value: string)
    ensures |value| <= |SerdeEscape(value)|
    ensures |SerdeEscape(value)| == |value| <==> Plain(value)
    ensures Plain(value) ==> SerdeEscape(value) == value
  {
    if value != "" {
      hide SerdeChar;
      SerdeLength(value[1..]);
      SerdeCharParts(value[0]);
      assert value == [value[0]] + value[1..];
      assert Plain(value) <==> Plain([value[0]]) && Plain(value[1..]);
    }
  }

  lemma ClippedParts(raw: string)
    ensures '"' !in Clipped(raw)
    ensures '"' !in raw ==> Clipped(raw) == raw
    ensures Clipped(raw) <= raw
  {
    FindLeast(raw, "\"", 0);
    forall i | 0 <= i < |Clipped(raw)| ensures Clipped(raw)[i] != '"' {
      assert raw[i..i + 1] == [raw[i]];
      assert !At(raw, "\"", i);
    }
    if Find(raw, "\"", 0).Some? {
      FindCharIs(raw, '"', 0);
    }
  }

  /** The path comes through the cutter exactly when it has no quote, backslash or control character. */
  lemma PathKeptIff(path: string)
    ensures Clipped(SerdeEscape(path)) == path <==> Plain(path)
  {
    assert '"' in path ==> !Plain(path);
    hide Plain, Clipped, SerdeEscape;
    SerdeQuotes(path);
    SerdeLength(path);
    ClippedParts(SerdeEscape(path));
  }

  // ----- the header of this reply -----

  function HeaderTree(d: Download, sequence: int): Json {
    ReplyHeader(sequence, 0, ReplyTree(d))
  }

  function TailMembers(sequence: int): seq<Member> {
    [Member("result", Number(0)), Member("sequence", Atom(SignedDecimal(sequence)))]
  }

  /** The place of the `i`-th member of the reply inside the header. */
  function ReplySpot(d: Download, sequence: int, i: nat): Spot
    requires i < 6
  {
    InMember([], "reply", Here(Sorted(d)[..i], Sorted(d)[i + 1..]), TailMembers(sequence))
  }

  function SequenceSpot(d: Download): Spot {
    Here([Member("reply", ReplyTree(d)), Member("result", Number(0))], [])
  }

  lemma SpotsPlug(d: Download, sequence: int, i: nat)
    requires i < 6
    ensures Plug(ReplySpot(d, sequence, i), Sorted(d)[i]) == HeaderTree(d, sequence)
    ensures Plug(SequenceSpot(d), Member("sequence", Atom(SignedDecimal(sequence)))) == HeaderTree(d, sequence)
  {
    hide Sorted, Number, SignedDecimal;
    var ms := Sorted(d);
    assert ms[..i] + [ms[i]] + ms[i + 1..] == ms;
    var reply := Member("reply", Obj(ms));
    assert [] + [reply] + TailMembers(sequence) == [reply] + TailMembers(sequence);
    var last := Member("sequence", Atom(SignedDecimal(sequence)));
    assert [reply, Member("result", Number(0))] + [last] + [] == [reply] + TailMembers(sequence);
    assert HeaderTree(d, sequence) == Obj([reply] + TailMembers(sequence));
  }

  lemma DigitsPlain(n: int)
    ensures '"' !in SignedDecimal(n) && '\n' !in SignedDecimal(n)
    ensures 0 <= n ==> QuoteSafe(Number(n))
  {
    hide ToDecimal;
    var s := ToDecimal(if n < 0 then -n else n);
    assert forall i | 0 <= i < |s| :: IsDigit(s[i]);
  }

  predicate SafeMember(m: Member) {
    QuotesEscaped(m.key) && QuoteSafe(m.val)
  }

  lemma SortedSafe(d: Download)
    ensures SafeMembers(Sorted(d))
  {
    hide SerdeEscape, Number, ToDecimal;
    SerdeQuotes(d.md5);
    SerdeQuotes(d.path);
    DigitsPlain(0);
    DigitsPlain(d.size);
    var ms := Sorted(d);
    assert SafeMember(ms[0]) && SafeMember(ms[1]) && SafeMember(ms[2]);
    assert SafeMember(ms[3]) && SafeMember(ms[4]) && SafeMember(ms[5]);
    assert forall m | m in ms :: SafeMember(m);
  }

  lemma HeaderSafe(d: Download, sequence: int, i: nat)
    requires i < 6
    ensures SafeAround(ReplySpot(d, sequence, i)) && SafeAround(SequenceSpot(d))
  {
    hide Sorted, SignedDecimal, QuotesEscaped, Number;
    OuterKeys();
    SortedSafe(d);
    DigitsPlain(sequence);
    DigitsPlain(0);
    var reply, result, last := Member("reply", ReplyTree(d)), Member("result", Number(0)), Member("sequence", Atom(SignedDecimal(sequence)));
    assert SafeMember(reply) && SafeMember(result) && SafeMember(last);
    assert forall m | m in Sorted(d)[..i] :: m in Sorted(d);
    assert forall m | m in Sorted(d)[i + 1..] :: m in Sorted(d);
    assert forall m | m in TailMembers(sequence) :: SafeMember(m);
    assert forall m | m in [reply, result] :: SafeMember(m);
  }

  lemma EndShowsQuote(key: string, k: string)
    requires EndsWith(key, "\"" + k)
    ensures '"' in key
  {
    assert key[|key| - |k| - 1..][0] == key[|key| - |k| - 1];
  }

  /** Members of plain, different keys and no inner members do not show the key. */
  lemma NoKeyIn(ms: seq<Member>, k: string)
    requires forall m | m in ms :: '"' !in m.key && m.key != k && (m.val.Str? || m.val.Atom?)
    ensures forall m | m in ms :: !MemberHasKey(m, k)
  {
    hide EndsWith;
    forall m | m in ms ensures !Names(m.key, k) {
      if EndsWith(m.key, "\"" + k) {
        EndShowsQuote(m.key, k);
      }
    }
  }

  function ReplyKeys(): (keys: seq<string>)
    ensures |keys| == 6
  {
    ["file_md5", "ftp_file_md5", "offset", "path", "size", "total"]
  }

  lemma PlainKeys(i: nat)
    requires i < 6
    ensures PlainKey(ReplyKeys()[i]) && '"' !in ReplyKeys()[i]
  {
    hide PlainKey;
    match i
    case 0 => LettersPlain("file_md5");
    case 1 => LettersPlain("ftp_file_md5");
    case 2 => LettersPlain("offset");
    case 3 => LettersPlain("path");
    case 4 => LettersPlain("size");
    case _ => LettersPlain("total");
  }

  lemma KeysDiffer(i: nat, j: nat)
    requires i < j < 6
    ensures ReplyKeys()[i] != ReplyKeys()[j]
  {
    assert "path"[0] != "size"[0];
    assert |ReplyKeys()[0]| == 8 && |ReplyKeys()[1]| == 12 && |ReplyKeys()[2]| == 6 && |ReplyKeys()[5]| == 5;
    assert ReplyKeys()[3] == "path" && ReplyKeys()[4] == "size";
  }

  lemma KeysOf(d: Download, i: nat)
    requires i < 6
    ensures Sorted(d)[i].key == ReplyKeys()[i]
    ensures i < 2 ==> Sorted(d)[i].val == Str(SerdeEscape(d.md5))
    ensures i == 3 ==> Sorted(d)[i].val == Str(SerdeEscape(d.path))
    ensures i == 5 ==> Sorted(d)[i].val == Number(d.size)
    ensures Sorted(d)[i].val.Str? || Sorted(d)[i].val.Atom?
  {
    hide SerdeEscape, ToDecimal;
  }

  lemma NoKeyBefore(d: Download, sequence: int, i: nat)
    requires i < 6
    ensures PlainKey(ReplyKeys()[i]) && !KeyBefore(ReplySpot(d, sequence, i), ReplyKeys()[i])
  {
    hide Sorted, PlainKey, ReplyKeys, MemberHasKey;
    PlainKeys(i);
    var ms := Sorted(d)[..i];
    forall m | m in ms ensures '"' !in m.key && m.key != ReplyKeys()[i] && (m.val.Str? || m.val.Atom?) {
      var j :| 0 <= j < i && ms[j] == m;
      KeysOf(d, j);
      PlainKeys(j);
      KeysDiffer(j, i);
    }
    NoKeyIn(ms, ReplyKeys()[i]);
    ReplyNotKey(i);
  }

  lemma ReplyNotKey(i: nat)
    requires i < 6
    ensures !Names("reply", ReplyKeys()[i])
  {
    hide EndsWith;
    if EndsWith("reply", "\"" + ReplyKeys()[i]) {
      EndShowsQuote("reply", ReplyKeys()[i]);
    }
    assert |"reply"| == 5 && "reply"[0] != "total"[0];
    assert |ReplyKeys()[i]| != 5 || ReplyKeys()[i] == "total";
  }

  // ----- the reply through the cutter -----

  predicate HexText(s: string) {
    forall i | 0 <= i < |s| :: IsHex(s[i])
  }

  lemma HexPlain(s: string)
    requires HexText(s)
    ensures Plain(s) && SerdeEscape(s) == s && Clipped(s) == s
  {
    assert Plain(s);
    SerdeLength(s);
    assert '"' !in s;
    ClippedParts(s);
  }

  /** The strings and numbers the cutter reads out of the reply's header. */
  lemma HeaderFields(d: Download, sequence: int)
    requires HexText(d.md5)
    ensures var header := Print(HeaderTree(d, sequence));
            && ExtractInteger(header, "total") == Some(Saturated(d.size))
            && ExtractString(header, "file_md5") == d.md5
            && ExtractString(header, "ftp_file_md5") == d.md5
            && ExtractString(header, "path") == Clipped(SerdeEscape(d.path))
  {
    hide Print, Sorted, ReplySpot, HeaderTree, PlainKey, KeyBefore, SafeAround, ExtractInteger, ExtractString, Plug,
      SerdeEscape, ToDecimal, Number, Clipped;
    HexPlain(d.md5);
    ReplyFieldReady(d, sequence, 0);
    ExtractsString(ReplySpot(d, sequence, 0), "file_md5", d.md5);
    ReplyFieldReady(d, sequence, 1);
    ExtractsString(ReplySpot(d, sequence, 1), "ftp_file_md5", d.md5);
    ReplyFieldReady(d, sequence, 3);
    ExtractsString(ReplySpot(d, sequence, 3), "path", SerdeEscape(d.path));
    ReplyFieldReady(d, sequence, 5);
    ExtractsInteger(ReplySpot(d, sequence, 5), "total", d.size);
  }

  lemma ReplyFieldReady(d: Download, sequence: int, i: nat)
    requires i < 6
    ensures var key := ReplyKeys()[i];
            PlainKey(key) && SafeAround(ReplySpot(d, sequence, i)) && !KeyBefore(ReplySpot(d, sequence, i), key)
    ensures Plug(ReplySpot(d, sequence, i), Member(ReplyKeys()[i], Sorted(d)[i].val)) == HeaderTree(d, sequence)
    ensures i < 2 ==> Sorted(d)[i].val == Str(SerdeEscape(d.md5))
    ensures i == 3 ==> Sorted(d)[i].val == Str(SerdeEscape(d.path))
    ensures i == 5 ==> Sorted(d)[i].val == Number(d.size)
  {
    hide *;
    NoKeyBefore(d, sequence, i);
    HeaderSafe(d, sequence, i);
    SpotsPlug(d, sequence, i);
    KeysOf(d, i);
  }

  lemma PatternEnds(s: string, k: string, j: nat)
    requires At(s, KeyPattern(k), j)
    ensures j + |k| + 1 < |s| && s[j] == s[j + |k| + 1] == '"'
  {
    var pat := KeyPattern(k);
    assert s[j..j + |pat|][0] == s[j] && s[j..j + |pat|][|k| + 1] == s[j + |k| + 1];
  }

  /** Text with a single quote holds no quoted key. */
  lemma OneQuote(front: string, back: string, k: string)
    requires '"' !in front && '"' !in back
    ensures Find(front + "\"" + back, KeyPattern(k), 0) == None
  {
    hide At, KeyPattern, Find;
    var s := front + "\"" + back;
    forall j: nat | j <= |s| ensures !At(s, KeyPattern(k), j) {
      if At(s, KeyPattern(k), j) {
        PatternEnds(s, k, j);
      }
    }
    FindNothing(s, KeyPattern(k), 0);
  }

  lemma NotSequence(i: nat)
    requires i < 6
    ensures '"' !in ReplyKeys()[i] && ReplyKeys()[i] != "sequence"
  {
    hide PlainKey;
    PlainKeys(i);
    assert |ReplyKeys()[i]| != 8 || ReplyKeys()[i] == "file_md5";
    assert "file_md5"[0] != "sequence"[0];
  }

  lemma ReplyNotSequence(d: Download)
    ensures forall m | m in Sorted(d) :: !MemberHasKey(m, "sequence")
  {
    hide Sorted, ReplyKeys, MemberHasKey;
    forall m | m in Sorted(d) ensures '"' !in m.key && m.key != "sequence" && (m.val.Str? || m.val.Atom?) {
      var j :| 0 <= j < 6 && Sorted(d)[j] == m;
      KeysOf(d, j);
      NotSequence(j);
    }
    NoKeyIn(Sorted(d), "sequence");
  }

  lemma OuterKeys()
    ensures QuotesEscaped("reply") && QuotesEscaped("result") && QuotesEscaped("sequence")
    ensures PlainKey("sequence") && !Names("reply", "sequence") && !Names("result", "sequence")
  {
    assert "reply"[0] != "sequence"[0] && "result"[0] != "sequence"[0];
  }

  lemma SequenceReady(d: Download, sequence: int)
    ensures PlainKey("sequence") && SafeAround(SequenceSpot(d)) && !KeyBefore(SequenceSpot(d), "sequence")
  {
    hide Sorted, SafeAround, PlainKey, Names, ToDecimal;
    HeaderSafe(d, sequence, 0);
    ReplyNotSequence(d);
    OuterKeys();
    var reply, result := Member("reply", ReplyTree(d)), Member("result", Number(0));
    assert !MemberHasKey(reply, "sequence") && !MemberHasKey(result, "sequence");
    assert forall m | m in [reply, result] :: !MemberHasKey(m, "sequence");
  }

  /** A negative sequence number is never read: no digit follows its key, and the key occurs once. */
  lemma NegativeUnread(front: string, digits: string)
    requires '"' !in digits
    requires Find(front + (KeyPattern("sequence") + ("-" + digits)), KeyPattern("sequence"), 0) == Some(|front|)
    ensures ExtractInteger(front + (KeyPattern("sequence") + ("-" + digits)), "sequence") == None
  {
    hide Find, ExtractInteger;
    NoSecondKey(front, digits);
    var pat := KeyPattern("sequence");
    assert (front + (pat + ("-" + digits)))[|front| + |pat|] == '-';
    OnlyKeyUnread(front + (pat + ("-" + digits)), "sequence", |front|);
  }

  lemma OnlyKeyUnread(text: string, key: string, i: nat)
    requires Find(text, KeyPattern(key), 0) == Some(i) && Find(text, KeyPattern(key), i + 1) == None
    requires i + |KeyPattern(key)| < |text| && !IsDigit(text[i + |KeyPattern(key)|])
    ensures ExtractInteger(text, key) == None
  {
    hide Find, KeyPattern, Value;
    var rest := text[i + |KeyPattern(key)|..];
    assert rest[0] == text[i + |KeyPattern(key)|];
    assert DigitRun(rest) == 0;
    assert IntegerFrom(text, key, i + 1) == None;
  }

  lemma NoSecondKey(front: string, digits: string)
    requires '"' !in digits
    ensures Find(front + (KeyPattern("sequence") + ("-" + digits)), KeyPattern("sequence"), |front| + 1) == None
  {
    hide Find, KeyPattern;
    SecondHalf(front, digits);
    var back := ":-" + digits;
    assert '"' !in "sequence" && '"' !in back;
    OneQuote("sequence", back, "sequence");
    FindShift(front + "\"", "sequence" + "\"" + back, KeyPattern("sequence"), |front| + 1);
  }

  lemma SecondHalf(front: string, digits: string)
    ensures front + (KeyPattern("sequence") + ("-" + digits)) == (front + "\"") + ("sequence" + "\"" + (":-" + digits))
  {
    assert KeyPattern("sequence") == "\"" + ("sequence" + "\"" + ":");
    assert ("sequence" + "\"" + ":") + ("-" + digits) == "sequence" + "\"" + (":-" + digits);
  }

  lemma SequenceRead(d: Download, sequence: int)
    requires sequence <= U64_MAX
    ensures ExtractInteger(Print(HeaderTree(d, sequence)), "sequence") == if sequence < 0 then None else Some(sequence)
  {
    hide Print, Find, Sorted, ReplyTree, HeaderTree, PlainKey, KeyBefore, SafeAround, ExtractInteger, ToDecimal,
      KeyPattern, Plug, Before;
    SequenceReady(d, sequence);
    SpotsPlug(d, sequence, 0);
    if 0 <= sequence {
      ExtractsInteger(SequenceSpot(d), "sequence", sequence);
    } else {
      var m := Member("sequence", Atom(SignedDecimal(sequence)));
      FindFirstKey(SequenceSpot(d), m);
      var digits := ToDecimal(-sequence) + "}";
      LeafPrints(SignedDecimal(sequence));
      assert After(SequenceSpot(d)) == "}";
      assert Print(m.val) + After(SequenceSpot(d)) == "-" + digits;
      DigitsPlain(-sequence);
      NegativeUnread(Before(SequenceSpot(d)), digits);
    }
  }

  lemma ReplyNoNewline(d: Download)
    ensures Avoids(ReplyTree(d), '\n')
  {
    hide SerdeEscape, Number;
    SerdeQuotes(d.md5);
    SerdeQuotes(d.path);
    NumberOneLine(0);
    NumberOneLine(d.size);
    var ms := Sorted(d);
    assert PlainMember(ms[0]) && PlainMember(ms[1]) && PlainMember(ms[2]);
    assert PlainMember(ms[3]) && PlainMember(ms[4]) && PlainMember(ms[5]);
    assert forall m | m in ms :: PlainMember(m);
  }

  lemma HeaderNoNewline(d: Download, sequence: int)
    ensures '\n' !in Print(HeaderTree(d, sequence))
  {
    DigitsPlain(sequence);
    hide Print, Number, SignedDecimal, ReplyTree;
    ReplyNoNewline(d);
    NumberOneLine(0);
    var reply := Member("reply", ReplyTree(d));
    var ms := [reply] + TailMembers(sequence);
    assert PlainMember(ms[0]) && PlainMember(ms[1]) && PlainMember(ms[2]);
    assert forall m | m in ms :: PlainMember(m);
    assert HeaderTree(d, sequence) == Obj(ms);
    PrintAvoids(HeaderTree(d, sequence), '\n');
  }

  /** The reply that answers a successful file download. */
  function DownloadReply(sequence: int, path: string, md5: string, blob: string): string {
    BuildReplyFrame(sequence, 0, ReplyTree(Download(path, md5, |blob|)), blob)
  }

  /** What the frames of that reply say about the file. */
  function DeliveredMeta(sequence: nat, path: string, md5: string, blob: string): Meta {
    Meta(sequence, |blob|, md5, md5, Clipped(SerdeEscape(path)))
  }

  /**
   For every file, every path and every 64-bit sequence number: the reply is cut exactly when the
   file is longer than 4 MiB and the number is not negative, and the cutter then works from the
   true number, the true total and the true digest.
   */
  lemma ReplySplits(sequence: int, path: string, md5: string, blob: string)
    requires sequence <= U64_MAX && |blob| <= U64_MAX && HexText(md5)
    ensures var response := DownloadReply(sequence, path, md5, blob);
            && Contains(response, Separator()) && PayloadOf(response) == blob
            && (Splits(response) <==> 0 <= sequence && |blob| > CHUNK)
            && SplitFrames(response) ==
               if 0 <= sequence && |blob| > CHUNK then Frames(DeliveredMeta(sequence, path, md5, blob), blob) else [response]
  {
    var d := Download(path, md5, |blob|);
    assert HeaderTree(d, sequence) == ReplyHeader(sequence, 0, ReplyTree(d));
    hide Print, HeaderTree, ExtractInteger, ExtractString, Frames, Clipped, SerdeEscape, HexText, ReplyTree;
    HeaderNoNewline(d, sequence);
    var header := Print(HeaderTree(d, sequence));
    CutHere(header, blob);
    SequenceRead(d, sequence);
    HeaderFields(d, sequence);
  }

  lemma DeliveredPrintable(sequence: nat, path: string, md5: string, blob: string)
    requires HexText(md5)
    ensures TextPrintable(DeliveredMeta(sequence, path, md5, blob))
  {
    hide SerdeEscape, Clipped;
    SerdeQuotes(path);
    ClippedParts(SerdeEscape(path));
    assert Printable(Clipped(SerdeEscape(path)));
  }

  /**
   From the file to the reader of the frames.  A file longer than 4 MiB arrives whole; the header
   of every frame is legal JSON with the true sequence number, total and digest and the frame's own
   place; and the path it names means the requested one exactly when that is free of quotes,
   backslashes and control characters.
   */
  lemma DownloadDelivered(sequence: nat, path: string, md5: string, blob: string, k: nat)
    requires sequence <= U64_MAX && CHUNK < |blob| <= U64_MAX && HexText(md5)
    requires k < |SplitFrames(DownloadReply(sequence, path, md5, blob))|
    ensures
      var frames, meta := SplitFrames(DownloadReply(sequence, path, md5, blob)), DeliveredMeta(sequence, path, md5, blob);
      && (forall f | f in frames :: Contains(f, Separator()))
      && Rejoined(frames) == blob
      && ReadsAs(HeaderOf(frames[k]), FrameTree(meta, Announced(frames, k)))
      && (Decode(JsonEscape(meta.path)) == Some(path) <==> Plain(path))
  {
    DeliveredPrintable(sequence, path, md5, blob);
    assert Printable(DeliveredMeta(sequence, path, md5, blob).path);
    hide Print, Contains, PayloadOf, HeaderOf, Rejoined, Splits, SplitFrames, Frames, FrameTree, ReadsAs, Announced,
      Clipped, SerdeEscape, DownloadReply, TextPrintable, Decode, JsonEscape, Plain, HexText;
    var response := DownloadReply(sequence, path, md5, blob);
    ReplySplits(sequence, path, md5, blob);
    PayloadsRejoin(response);
    var meta := DeliveredMeta(sequence, path, md5, blob);
    FramesRejoin(meta, blob);
    FramesAnnounce(meta, blob, k);
    TreeWellFormed(meta, Announced(Frames(meta, blob), k));
    ReadPrint(FrameTree(meta, Announced(Frames(meta, blob), k)));
    PathKeptIff(path);
    DecodeEscape(meta.path);
  }
}
