/** Which string a JSON string body means (RFC 8259, section 7), and why escaping is its inverse. */
module JsonStrings {
  import opened Wrappers
  import opened Arithmetic
  import opened Text
  import opened Json
  import opened JsonReader
  import opened Escape

  function CodeUnit(s: string): (u: nat)
    requires IsHex4(s)
    ensures u < 0x1_0000
  {
    HexDigitValue(s[0]) * 4096 + HexDigitValue(s[1]) * 256 + HexDigitValue(s[2]) * 16 + HexDigitValue(s[3])
  }

  function ShortEscape(c: char): char {
    if c == 'b' then 8 as char
    else if c == 'f' then 12 as char
    else if c == 'n' then '\n'
    else if c == 'r' then '\r'
    else if c == 't' then '\t'
    else c
  }

  /** The string a body means; None when the body is illegal or names a lone surrogate. */
  function Decode(raw: string): Option<string>
    decreases |raw|
  {
    var n := UnitLength(raw);
    if raw == "" then Some("")
    else if n == 0 || raw[0] == '"' then None
    else if n < 6 then
      match Decode(raw[n..])
      case None => None
      case Some(rest) => Some([if n == 1 then raw[0] else ShortEscape(raw[1])] + rest)
    else
      var u := CodeUnit(raw[2..]);
      if u < 0xD800 || 0xE000 <= u then
        match Decode(raw[6..])
        case None => None
        case Some(rest) => Some([u as char] + rest)
      else if 0xDC00 <= u || UnitLength(raw[6..]) != 6 then None
      else
        var v := CodeUnit(raw[8..]);
        if v < 0xDC00 || 0xE000 <= v then None
        else
          match Decode(raw[12..])
          case None => None
          case Some(rest) => Some([(0x1_0000 + (u - 0xD800) * 0x400 + (v - 0xDC00)) as char] + rest)
  }

  /** No control character but newline, return and tab. */
  predicate Printable(value: string) {
    forall i | 0 <= i < |value| :: ' ' <= value[i] || value[i] in "\n\r\t"
  }

  /** An escaped character is one legal unit of a string body, unless it is a control character. */
  lemma EscapedUnit(c: char, t: string)
    ensures var e := EscapeChar(c);
            1 <= |e| <= 2 && e[0] != '"' && (|e| == 2 ==> e[0] == '\\' && ShortEscape(e[1]) == c) && (|e| == 1 ==> e[0] == c) &&
            UnitLength(e + t) == if ' ' <= c || c in "\n\r\t" then |e| else 0
  {
  }

  lemma PrintableCons(value: string)
    requires value != ""
    ensures Printable(value) <==> (' ' <= value[0] || value[0] in "\n\r\t") && Printable(value[1..])
  {
  }

  /** One unit of a body, as `BodyEnd` reads it. */
  lemma BodyEndUnit(head: string, tail: string)
    requires head != "" && head[0] != '"' && (UnitLength(head + tail) == 0 || UnitLength(head + tail) == |head|)
    ensures BodyEnd(head + tail) ==
            if UnitLength(head + tail) == 0 || BodyEnd(tail).None? then None else Some(|head| + BodyEnd(tail).value)
  {
    hide BodyEnd, UnitLength;
    var s := head + tail;
    BodyStep(s);
    assert s[0] == head[0] && s[|head|..] == tail;
  }

  lemma EmptyEnd(x: string)
    ensures BodyEnd(JsonEscape("") + ("\"" + x)) == Some(|JsonEscape("")|) && Printable("")
  {
    assert "" + ("\"" + x) == "\"" + x;
  }

  lemma EscapeCons(value: string, x: string)
    requires value != ""
    ensures JsonEscape(value) + x == EscapeChar(value[0]) + (JsonEscape(value[1..]) + x)
    ensures |JsonEscape(value)| == |EscapeChar(value[0])| + |JsonEscape(value[1..])|
  {
    assert JsonEscape(value) == EscapeChar(value[0]) + JsonEscape(value[1..]);
    hide *;
    Associates(EscapeChar(value[0]), JsonEscape(value[1..]), x);
  }

  /** Scanning escaped text stops at the quote after it, unless a control character stops it before. */
  lemma {:induction false} EscapedEnd(value: string, x: string)
    ensures BodyEnd(JsonEscape(value) + ("\"" + x)) == if Printable(value) then Some(|JsonEscape(value)|) else None
  {
    hide *;
    if value != "" {
      EscapedEnd(value[1..], x);
      var head, tail := EscapeChar(value[0]), JsonEscape(value[1..]) + ("\"" + x);
      EscapeCons(value, "\"" + x);
      EscapedUnit(value[0], tail);
      BodyEndUnit(head, tail);
      PrintableCons(value);
    } else {
      EmptyEnd(x);
    }
  }

  /** Escaped text is a legal string body exactly when the text is printable. */
  lemma EscapedValid(value: string)
    ensures ValidBody(JsonEscape(value)) <==> Printable(value)
  {
    EscapedEnd(value, "");
    assert "\"" + "" == "\"";
  }

  /** Reading an escaped text gives the text back. */
  lemma {:induction false} DecodeEscape(value: string)
    requires Printable(value)
    ensures Decode(JsonEscape(value)) == Some(value)
  {
    if value != "" {
      hide UnitLength, EscapeChar, ShortEscape;
      DecodeEscape(value[1..]);
      var head, tail := EscapeChar(value[0]), JsonEscape(value[1..]);
      assert JsonEscape(value)[|head|..] == tail;
      EscapedUnit(value[0], tail);
      assert value == [value[0]] + value[1..];
    }
  }

  // ----- text with a control character in it -----

  lemma BrokenString(value: string, x: string)
    requires !Printable(value)
    ensures ReadValue(Quote(JsonEscape(value)) + x) == None
  {
    hide JsonEscape, ReadItems, BodyEnd;
    var esc := JsonEscape(value);
    var rest := Quote(esc) + x;
    assert rest[1..] == esc + ("\"" + x);
    EscapedEnd(value, x);
    SkipNone(rest);
  }

  /** A member whose string holds a control character stops the reader. */
  lemma BrokenItem(key: string, value: string, x: string)
    requires ValidBody(key) && !Printable(value)
    ensures ReadItem(MemberText(key, Quote(JsonEscape(value))) + x, true) == None
  {
    hide JsonEscape, ReadValue, BodyEnd, ValidBody;
    var rest := Quote(JsonEscape(value)) + x;
    var text := MemberText(key, Quote(JsonEscape(value))) + x;
    assert text == Quote(key) + (":" + rest);
    ReadQuoted(key, ":" + rest);
    assert (":" + rest)[1..] == rest;
    SkipNone(text);
    SkipNone(":" + rest);
    BrokenString(value, x);
  }
}
