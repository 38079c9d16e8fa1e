/** What the reply to a file download and the frames cut from it say, member by member. */
module TunnelContents {
  import opened Wrappers
  import opened Arithmetic
  import opened Text
  import opened Decimal
  import opened Json
  import opened JsonReader
  import opened JsonStrings
  import opened Escape
  import opened TunnelProtocol
  import opened TunnelFrames
  import opened TunnelReply

  // ----- serde's escapes mean the text that went in -----

  /** One escaped character is one unit of a string body, and means the character. */
  lemma SerdeUnit(c: char, rest: string)
    ensures var e := SerdeChar(c);
            && e != "" && e[0] != '"' && UnitLength(e + rest) == |e|
            && Decode(e + rest) == match Decode(rest) case None => None case Some(text) => Some([c] + text)
  {
    var e := SerdeChar(c);
    if |e| == 6 {
      SerdeControl(c, rest);
    } else {
      assert (e + rest)[|e|..] == rest;
    }
  }

  lemma SerdeControl(c: char, rest: string)
    requires |SerdeChar(c)| == 6
    ensures var e := SerdeChar(c);
            && e[0] != '"' && UnitLength(e + rest) == 6
            && Decode(e + rest) == match Decode(rest) case None => None case Some(text) => Some([c] + text)
  {
    hide Decode;
    var n := c as nat;
    var s := SerdeChar(c) + rest;
    assert SerdeChar(c) == "\\u00" + [HexDigit(n / 16), HexDigit(n % 16)];
    assert s[2..][0] == '0' && s[2..][1] == '0' && s[2..][2] == HexDigit(n / 16) && s[2..][3] == HexDigit(n % 16);
    assert CodeUnit(s[2..]) == n;
    assert s[6..] == rest;
    DecodeWide(s, n as char);
  }

  lemma DecodeWide(s: string, c: char)
    requires UnitLength(s) == 6 && CodeUnit(s[2..]) == c as nat < 0xD800 && s[0] != '"'
    ensures Decode(s) == match Decode(s[6..]) case None => None case Some(text) => Some([c] + text)
  {
  }

  lemma {:induction false} SerdeDecode(value: string)
    ensures Decode(SerdeEscape(value)) == Some(value)
  {
    if value != "" {
      hide SerdeChar, Decode;
      SerdeDecode(value[1..]);
      SerdeUnit(value[0], SerdeEscape(value[1..]));
      assert value == [value[0]] + value[1..];
    }
  }

  lemma SerdeCons(value: string, x: string)
    requires value != ""
    ensures SerdeEscape(value) + x == SerdeChar(value[0]) + (SerdeEscape(value[1..]) + x)
    ensures |SerdeEscape(value)| == |SerdeChar(value[0])| + |SerdeEscape(value[1..])|
  {
    assert SerdeEscape(value) == SerdeChar(value[0]) + SerdeEscape(value[1..]);
    hide *;
    Associates(SerdeChar(value[0]), SerdeEscape(value[1..]), x);
  }

  lemma EmptyEscape(x: string)
    ensures BodyEnd(SerdeEscape("") + ("\"" + x)) == Some(|SerdeEscape("")|)
  {
    assert "" + ("\"" + x) == "\"" + x;
  }

  lemma {:induction false} SerdeEnd(value: string, rest: string)
    ensures BodyEnd(SerdeEscape(value) + ("\"" + rest)) == Some(|SerdeEscape(value)|)
  {
    hide *;
    if value == "" {
      EmptyEscape(rest);
    } else {
      var head, tail := SerdeChar(value[0]), SerdeEscape(value[1..]) + ("\"" + rest);
      SerdeEnd(value[1..], rest);
      SerdeUnit(value[0], tail);
      BodyEndUnit(head, tail);
      SerdeCons(value, "\"" + rest);
    }
  }

  lemma SerdeValid(value: string)
    ensures ValidBody(SerdeEscape(value))
  {
    SerdeEnd(value, "");
    assert "\"" + "" == "\"";
  }

  // ----- the reply -----

  lemma SignedWellFormed(n: int)
    ensures WellFormed(Atom(SignedDecimal(n)))
  {
    hide ToDecimal;
    if n < 0 {
      var s := ToDecimal(-n);
      DigitRunOf(s, "");
      assert s + "" == s && s[..|s|] == s && s[|s|..] == "" && IsDigit(s[0]);
      assert ("-" + s)[1..] == s;
      TokenAll("-" + s);
    } else {
      NumberWellFormed(n);
    }
  }

  lemma SortedHolds(d: Download)
    ensures ReplyTree(d) ==
            Obj([Member("file_md5", Str(SerdeEscape(d.md5))), Member("ftp_file_md5", Str(SerdeEscape(d.md5))),
                 Member("offset", Atom("0")), Member("path", Str(SerdeEscape(d.path))),
                 Member("size", Atom(ToDecimal(d.size))), Member("total", Atom(ToDecimal(d.size)))])
    ensures WellFormed(ReplyTree(d))
  {
    hide ValidBody, SerdeEscape, WellFormed;
    assert ToDecimal(0) == "0";
    hide ToDecimal;
    FrameKeysValid();
    SerdeValid(d.md5);
    SerdeValid(d.path);
    NumbersWellFormed(0, d.size, d.size);
    SixWellFormed(Sorted(d));
  }

  lemma SixWellFormed(ms: seq<Member>)
    requires |ms| == 6 && forall i | 0 <= i < 6 :: ValidBody(ms[i].key)
    requires forall i | 0 <= i < 6 :: if ms[i].val.Str? then ValidBody(ms[i].val.raw) else WellFormed(ms[i].val)
    ensures WellFormed(Obj(ms))
  {
    hide ValidBody;
  }

  /**
   The reply to a file download is a header, a blank line and the file.  The header is legal JSON for every
   path, digest and sequence number: a result of 0, the sequence number, and the reply with the offset 0,
   the size twice, the digest twice and the path, as strings that mean just these texts.
   */
  lemma ReplyHolds(sequence: int, path: string, md5: string, blob: string)
    ensures var response := DownloadReply(sequence, path, md5, blob);
            && Contains(response, "\n\n") && PayloadOf(response) == blob
            && ReadsAs(HeaderOf(response),
                       Obj([Member("reply", Obj([Member("file_md5", Str(SerdeEscape(md5))), Member("ftp_file_md5", Str(SerdeEscape(md5))),
                                                 Member("offset", Atom("0")), Member("path", Str(SerdeEscape(path))),
                                                 Member("size", Atom(ToDecimal(|blob|))), Member("total", Atom(ToDecimal(|blob|)))])),
                            Member("result", Atom("0")), Member("sequence", Atom(SignedDecimal(sequence)))]))
    ensures Decode(SerdeEscape(path)) == Some(path) && Decode(SerdeEscape(md5)) == Some(md5)
  {
    var d := Download(path, md5, |blob|);
    assert ToDecimal(0) == "0";
    hide Print, ReplyTree, SerdeEscape, Decode, WellFormed, ReadsAs, ToDecimal, Contains;
    SerdeDecode(path);
    SerdeDecode(md5);
    SortedHolds(d);
    HeaderNoNewline(d, sequence);
    CutHere(Print(HeaderTree(d, sequence)), blob);
    HeaderWellFormed(d, sequence);
    ReadPrint(HeaderTree(d, sequence));
  }

  lemma HeaderWellFormed(d: Download, sequence: int)
    ensures WellFormed(HeaderTree(d, sequence))
  {
    hide ValidBody, ReplyTree, SignedDecimal;
    FrameKeysValid();
    SortedHolds(d);
    NumbersWellFormed(0, 0, 0);
    SignedWellFormed(sequence);
  }

  // ----- the frames -----

  /**
   Each frame of a response that is cut, in terms of the response and the frames alone.  There are as many
   frames as pieces of up to 4194304 characters.  The header says whether more follow, the sequence number of
   the response, the size and place of the piece, and the response's total, digests and path.
   */
  lemma FrameHolds(response: string, k: nat)
    requires Contains(response, "\n\n") && |PayloadOf(response)| > 4194304
    requires ExtractInteger(HeaderOf(response), "sequence").Some? && k < |SplitFrames(response)|
    ensures
      var header, frames := HeaderOf(response), SplitFrames(response);
      var total := if ExtractInteger(header, "total").Some? then ExtractInteger(header, "total").value else |PayloadOf(response)|;
      && (|frames| - 1) * 4194304 < |PayloadOf(response)| <= |frames| * 4194304
      && (forall f | f in frames :: Contains(f, "\n\n")) && 0 < |PayloadOf(frames[k])| <= 4194304
      && HeaderOf(frames[k]) ==
         Print(Obj([Member("result", Atom(if k == |frames| - 1 then "0" else "1")),
                    Member("sequence", Atom(ToDecimal(ExtractInteger(header, "sequence").value))),
                    Member("reply", Obj([Member("size", Atom(ToDecimal(|PayloadOf(frames[k])|))),
                                         Member("offset", Atom(ToDecimal(|Rejoined(frames[..k])|))),
                                         Member("total", Atom(ToDecimal(total))),
                                         Member("file_md5", Str(JsonEscape(ExtractString(header, "file_md5")))),
                                         Member("ftp_file_md5", Str(JsonEscape(ExtractString(header, "ftp_file_md5")))),
                                         Member("path", Str(JsonEscape(ExtractString(header, "path"))))]))]))
  {
    assert ToDecimal(0) == "0" && ToDecimal(1) == "1";
    hide Print, Contains, ExtractInteger, ExtractString, PayloadOf, HeaderOf, Rejoined, SplitFrames, ToDecimal, JsonEscape;
    SplitAnnounces(response, k);
  }

  /** The response is not cut otherwise. */
  lemma UncutHolds(response: string)
    requires !Contains(response, "\n\n") || |PayloadOf(response)| <= 4194304 || ExtractInteger(HeaderOf(response), "sequence").None?
    ensures SplitFrames(response) == [response]
  {
  }
}
