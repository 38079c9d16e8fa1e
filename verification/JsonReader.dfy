/**
 A reader for JSON text (RFC 8259, sections 2 to 7), independent of the printer in `Json`.
 It keeps string bodies raw and numbers as their text; `Decode` says which string a body means.
 */
module JsonReader {
  import opened Wrappers
  import opened Arithmetic
  import opened Text
  import opened Decimal
  import opened Json

  predicate IsBlank(c: char) {
    c in " \t\n\r"
  }

  function SkipBlanks(s: string): (r: string)
    ensures |r| <= |s|
  {
    if s != "" && IsBlank(s[0]) then SkipBlanks(s[1..]) else s
  }

  predicate IsHex4(s: string) {
    4 <= |s| && IsHex(s[0]) && IsHex(s[1]) && IsHex(s[2]) && IsHex(s[3])
  }

  /** How many characters the unit at the start of a string body takes; 0 when none is legal. */
  function UnitLength(s: string): (n: nat)
    ensures n <= |s|
  {
    if s == "" || s[0] < ' ' then 0
    else if s[0] != '\\' then 1
    else if 2 <= |s| && s[1] in "\"\\/bfnrt" then 2
    else if 2 <= |s| && s[1] == 'u' && IsHex4(s[2..]) then 6
    else 0
  }

  /** Where the quote that closes the string body at the start of `s` stands. */
  function BodyEnd(s: string): (r: Option<nat>)
    ensures r.Some? ==> r.value < |s| && s[r.value] == '"'
  {
    if s != "" && s[0] == '"' then Some(0)
    else if UnitLength(s) == 0 then None
    else
      match BodyEnd(s[UnitLength(s)..])
      case None => None
      case Some(n) => Some(UnitLength(s) + n)
  }

  predicate ValidBody(raw: string) {
    BodyEnd(raw + "\"") == Some(|raw|)
  }

  predicate IsTokenChar(c: char) {
    IsDigit(c) || 'a' <= c <= 'z' || 'A' <= c <= 'Z' || c in "+-."
  }

  function TokenLength(s: string): (n: nat)
    ensures n <= |s|
  {
    if s != "" && IsTokenChar(s[0]) then 1 + TokenLength(s[1..]) else 0
  }

  /** The exponent of a number (section 6), or nothing. */
  predicate IsExponent(s: string) {
    s == "" ||
    (s[0] in "eE" && 2 <= |s| &&
     var digits := if s[1] in "+-" then s[2..] else s[1..];
     digits != "" && Digits(digits))
  }

  /** The part of a number after its integer digits. */
  predicate IsFraction(s: string) {
    if s != "" && s[0] == '.' then 0 < DigitRun(s[1..]) && IsExponent(s[1..][DigitRun(s[1..])..])
    else IsExponent(s)
  }

  predicate IsNumber(s: string) {
    var u := if s != "" && s[0] == '-' then s[1..] else s;
    var n := DigitRun(u);
    0 < n && (u[0] == '0' ==> n == 1) && IsFraction(u[n..])
  }

  predicate ValidAtom(tok: string) {
    tok == "true" || tok == "false" || tok == "null" || IsNumber(tok)
  }

  // ----- reading -----

  function ReadValue(text: string): (r: Option<(Json, string)>)
    ensures r.Some? ==> |r.value.1| < |text|
    decreases |text|, 2
  {
    var s := SkipBlanks(text);
    if s == "" then None
    else if s[0] == '"' then
      match BodyEnd(s[1..])
      case None => None
      case Some(n) => Some((Str(s[1..][..n]), s[1..][n + 1..]))
    else if s[0] == '[' then
      match ReadItems(s[1..], false)
      case None => None
      case Some((items, rest)) => Some((Arr(Values(items)), rest))
    else if s[0] == '{' then
      match ReadItems(s[1..], true)
      case None => None
      case Some((items, rest)) => Some((Obj(items), rest))
    else
      var n := TokenLength(s);
      if 0 < n && ValidAtom(s[..n]) then Some((Atom(s[..n]), s[n..])) else None
  }

  function Values(items: seq<Member>): seq<Json> {
    if items == [] then [] else [items[0].val] + Values(items[1..])
  }

  function Closer(keyed: bool): char {
    if keyed then '}' else ']'
  }

  /** The items of an array or object, and its closing bracket or brace. */
  function ReadItems(text: string, keyed: bool): (r: Option<(seq<Member>, string)>)
    ensures r.Some? ==> |r.value.1| < |text|
    decreases |text|, 5
  {
    var first := SkipBlanks(text);
    if first != "" && first[0] == Closer(keyed) then Some(([], first[1..])) else ReadList(text, keyed)
  }

  /** One item of a list: a value, or a key, a colon and a value. */
  function ReadItem(text: string, keyed: bool): (r: Option<(Member, string)>)
    ensures r.Some? ==> |r.value.1| < |text|
    decreases |text|, 3
  {
    if !keyed then
      match ReadValue(text)
      case None => None
      case Some((j, rest)) => Some((Member("", j), rest))
    else
      var s := SkipBlanks(text);
      if s == "" || s[0] != '"' || BodyEnd(s[1..]).None? then None
      else
        var n := BodyEnd(s[1..]).value;
        var colon := SkipBlanks(s[1..][n + 1..]);
        if colon == "" || colon[0] != ':' then None
        else
          match ReadValue(colon[1..])
          case None => None
          case Some((j, rest)) => Some((Member(s[1..][..n], j), rest))
  }

  /** One or more items with commas between them, and the closing bracket or brace. */
  function ReadList(text: string, keyed: bool): (r: Option<(seq<Member>, string)>)
    ensures r.Some? ==> |r.value.1| < |text|
    decreases |text|, 4
  {
    match ReadItem(text, keyed)
    case None => None
    case Some((m, after)) =>
      var s := SkipBlanks(after);
      if s == "" then None
      else if s[0] == Closer(keyed) then Some(([m], s[1..]))
      else if s[0] == ',' then
        match ReadList(s[1..], keyed)
        case None => None
        case Some((ms, rest)) => Some(([m] + ms, rest))
      else None
  }

  /** The text is one JSON value and nothing else. */
  predicate ReadsAs(text: string, j: Json) {
    ReadValue(text) == Some((j, ""))
  }

  // ----- text after a value does not change how the value reads -----

  predicate Delimits(rest: string) {
    rest == "" || !IsTokenChar(rest[0])
  }

  lemma {:induction false} SkipBlanksExtend(s: string, x: string)
    requires SkipBlanks(s) != ""
    ensures SkipBlanks(s + x) == SkipBlanks(s) + x
  {
    if s != "" && IsBlank(s[0]) {
      assert (s + x)[1..] == s[1..] + x;
      SkipBlanksExtend(s[1..], x);
    }
  }

  lemma UnitLengthExtend(s: string, x: string)
    requires UnitLength(s) != 0
    ensures UnitLength(s + x) == UnitLength(s)
  {
    if 2 <= |s| {
      assert (s + x)[2..] == s[2..] + x;
    }
  }

  lemma {:induction false} BodyEndExtend(s: string, x: string)
    requires BodyEnd(s).Some?
    ensures BodyEnd(s + x) == BodyEnd(s)
    decreases |s|
  {
    if s[0] != '"' {
      var n := UnitLength(s);
      UnitLengthExtend(s, x);
      assert (s + x)[n..] == s[n..] + x;
      BodyEndExtend(s[n..], x);
    }
  }

  lemma {:induction false} TokenLengthExtend(s: string, x: string)
    requires TokenLength(s) < |s| || Delimits(x)
    ensures TokenLength(s + x) == TokenLength(s)
  {
    if s == "" {
      assert s + x == x;
    } else {
      assert (s + x)[1..] == s[1..] + x;
      if IsTokenChar(s[0]) {
        TokenLengthExtend(s[1..], x);
      }
    }
  }

  lemma {:induction false} ExtendValue(text: string, x: string)
    requires ReadValue(text).Some? && (ReadValue(text).value.1 != "" || Delimits(x))
    ensures ReadValue(text + x) == Some((ReadValue(text).value.0, ReadValue(text).value.1 + x))
    decreases |text|, 2
  {
    hide SkipBlanks, BodyEnd, ReadItems, ValidAtom;
    var s := SkipBlanks(text);
    SkipBlanksExtend(text, x);
    assert (s + x)[1..] == s[1..] + x;
    if s[0] == '"' {
      ExtendString(s, x);
    } else if s[0] == '[' {
      ExtendItems(s[1..], x, false);
    } else if s[0] == '{' {
      ExtendItems(s[1..], x, true);
    } else {
      var n := TokenLength(s);
      TokenLengthExtend(s, x);
      assert (s + x)[..n] == s[..n] && (s + x)[n..] == s[n..] + x;
    }
  }

  /** A string body and what follows its closing quote. */
  lemma ExtendString(s: string, x: string)
    requires s != "" && BodyEnd(s[1..]).Some?
    ensures var n := BodyEnd(s[1..]).value;
            BodyEnd((s + x)[1..]) == Some(n) && (s + x)[1..][..n] == s[1..][..n] &&
            (s + x)[1..][n + 1..] == s[1..][n + 1..] + x
  {
    var n := BodyEnd(s[1..]).value;
    assert (s + x)[1..] == s[1..] + x;
    BodyEndExtend(s[1..], x);
  }

  lemma {:induction false} ExtendItems(text: string, x: string, keyed: bool)
    requires ReadItems(text, keyed).Some?
    ensures ReadItems(text + x, keyed) == Some((ReadItems(text, keyed).value.0, ReadItems(text, keyed).value.1 + x))
    decreases |text|, 5
  {
    ReadListStarts(text, keyed);
    SkipBlanksExtend(text, x);
    var first := SkipBlanks(text);
    if first[0] == Closer(keyed) {
      assert (first + x)[1..] == first[1..] + x;
    } else {
      ExtendList(text, x, keyed);
    }
  }

  /** A list that reads at all has a first character that is not blank. */
  lemma ReadListStarts(text: string, keyed: bool)
    requires ReadItems(text, keyed).Some?
    ensures SkipBlanks(text) != ""
  {
    assert ReadList(text, keyed).Some? ==> ReadItem(text, keyed).Some?;
    assert ReadItem(text, false).Some? ==> ReadValue(text).Some?;
  }

  lemma {:induction false} ExtendItem(text: string, x: string, keyed: bool)
    requires ReadItem(text, keyed).Some? && ReadItem(text, keyed).value.1 != ""
    ensures ReadItem(text + x, keyed) == Some((ReadItem(text, keyed).value.0, ReadItem(text, keyed).value.1 + x))
    decreases |text|, 3
  {
    hide SkipBlanks, ReadValue, BodyEnd, ReadList, ReadItems;
    if !keyed {
      ExtendValue(text, x);
    } else {
      var s := SkipBlanks(text);
      SkipBlanksExtend(text, x);
      ExtendString(s, x);
      var after := s[1..][BodyEnd(s[1..]).value + 1..];
      SkipBlanksExtend(after, x);
      var colon := SkipBlanks(after);
      assert (colon + x)[1..] == colon[1..] + x;
      ExtendValue(colon[1..], x);
    }
  }

  lemma {:induction false} ExtendList(text: string, x: string, keyed: bool)
    requires ReadList(text, keyed).Some?
    ensures ReadList(text + x, keyed) == Some((ReadList(text, keyed).value.0, ReadList(text, keyed).value.1 + x))
    decreases |text|, 4
  {
    hide SkipBlanks, ReadItem, ReadItems, ReadValue;
    ExtendItem(text, x, keyed);
    var after := ReadItem(text, keyed).value.1;
    SkipBlanksExtend(after, x);
    var s := SkipBlanks(after);
    assert (s + x)[1..] == s[1..] + x;
    if s[0] == ',' {
      ExtendList(s[1..], x, keyed);
    }
  }

  // ----- assembling text from parts that read well -----

  /** A string body in quotes reads back, whatever follows. */
  lemma ReadQuoted(raw: string, x: string)
    requires ValidBody(raw)
    ensures BodyEnd((Quote(raw) + x)[1..]) == Some(|raw|)
    ensures (Quote(raw) + x)[1..][..|raw|] == raw && (Quote(raw) + x)[1..][|raw| + 1..] == x
  {
    assert (Quote(raw) + x)[1..] == raw + "\"" + x;
    BodyEndExtend(raw + "\"", x);
  }

  lemma StringReads(raw: string)
    requires ValidBody(raw)
    ensures ReadsAs(Quote(raw), Str(raw))
  {
    ReadQuoted(raw, "");
    assert Quote(raw) + "" == Quote(raw);
  }

  function ItemText(m: Member, text: string, keyed: bool): string {
    if keyed then MemberText(m.key, text) else text
  }

  /** The key suits the kind of list, and the text reads as the value. */
  predicate ItemReads(m: Member, text: string, keyed: bool) {
    ReadsAs(text, m.val) && (if keyed then ValidBody(m.key) else m.key == "")
  }

  lemma ReadItemText(m: Member, text: string, keyed: bool, x: string)
    requires ItemReads(m, text, keyed) && Delimits(x) && x != ""
    ensures ReadItem(ItemText(m, text, keyed) + x, keyed) == Some((m, x))
  {
    hide ValidAtom, ReadList, ReadItems, ReadValue, BodyEnd;
    ExtendValue(text, x);
    assert "" + x == x;
    if keyed {
      var all := ItemText(m, text, keyed) + x;
      assert all == Quote(m.key) + (":" + (text + x));
      ReadQuoted(m.key, ":" + (text + x));
      assert (":" + (text + x))[1..] == text + x;
    }
  }

  predicate ItemsRead(ms: seq<Member>, texts: seq<string>, keyed: bool)
    requires |ms| == |texts|
  {
    forall i | 0 <= i < |ms| :: ItemReads(ms[i], texts[i], keyed)
  }

  function ItemTexts(ms: seq<Member>, texts: seq<string>, keyed: bool): (r: seq<string>)
    requires |ms| == |texts|
    ensures |r| == |ms|
  {
    if ms == [] then [] else [ItemText(ms[0], texts[0], keyed)] + ItemTexts(ms[1..], texts[1..], keyed)
  }

  lemma SkipNone(s: string)
    requires s != "" && !IsBlank(s[0])
    ensures SkipBlanks(s) == s
  {
  }

  /** Items that each read well, joined by commas and closed, read as the list of them. */
  lemma {:induction false} ReadJoined(ms: seq<Member>, texts: seq<string>, keyed: bool, x: string)
    requires |ms| == |texts| && ms != [] && ItemsRead(ms, texts, keyed)
    ensures ReadList(Join(ItemTexts(ms, texts, keyed)) + [Closer(keyed)] + x, keyed) == Some((ms, x))
  {
    hide *;
    var first, items := ItemText(ms[0], texts[0], keyed), ItemTexts(ms, texts, keyed);
    ItemsSplit(ms, texts, keyed);
    JoinFirst(items);
    if |ms| == 1 {
      CloserDelimits(keyed, x);
      Associates(first, [Closer(keyed)], x);
      ReadItemText(ms[0], texts[0], keyed, [Closer(keyed)] + x);
      ListEnds(first + ([Closer(keyed)] + x), keyed, ms[0], x);
      assert ms == [ms[0]];
    } else {
      var body, more := Join(items[1..]), Join(items[1..]) + [Closer(keyed)] + x;
      CommaDelimits(more);
      CommaFirst(first, body, [Closer(keyed)], x);
      ReadItemText(ms[0], texts[0], keyed, "," + more);
      ReadJoined(ms[1..], texts[1..], keyed, x);
      ListGoesOn(first + ("," + more), keyed, ms[0], more);
      assert ms == [ms[0]] + ms[1..];
    }
  }

  lemma ItemsSplit(ms: seq<Member>, texts: seq<string>, keyed: bool)
    requires |ms| == |texts| && ms != [] && ItemsRead(ms, texts, keyed)
    ensures ItemReads(ms[0], texts[0], keyed) && ItemsRead(ms[1..], texts[1..], keyed)
    ensures var items := ItemTexts(ms, texts, keyed);
            items[0] == ItemText(ms[0], texts[0], keyed) && items[1..] == ItemTexts(ms[1..], texts[1..], keyed)
  {
    hide ItemText, ItemReads;
    assert forall i | 0 <= i < |ms| - 1 :: ms[1..][i] == ms[i + 1] && texts[1..][i] == texts[i + 1];
  }

  lemma CloserDelimits(keyed: bool, x: string)
    ensures Delimits([Closer(keyed)] + x)
  {
  }

  lemma CommaDelimits(x: string)
    ensures Delimits("," + x)
  {
  }

  lemma CommaFirst(first: string, body: string, close: string, x: string)
    ensures first + ("," + body) + close + x == first + ("," + (body + close + x))
  {
  }

  lemma JoinFirst(items: seq<string>)
    requires items != []
    ensures Join(items) == if |items| == 1 then items[0] else items[0] + ("," + Join(items[1..]))
  {
    if |items| == 1 {
      assert items[1..] == [];
    }
  }

  lemma ListEnds(text: string, keyed: bool, m: Member, x: string)
    requires ReadItem(text, keyed) == Some((m, [Closer(keyed)] + x))
    ensures ReadList(text, keyed) == Some(([m], x))
  {
    hide ReadItem;
    SkipNone([Closer(keyed)] + x);
    assert ([Closer(keyed)] + x)[1..] == x;
  }

  lemma ListGoesOn(text: string, keyed: bool, m: Member, more: string)
    requires ReadItem(text, keyed) == Some((m, "," + more)) && ReadList(more, keyed).Some?
    ensures ReadList(text, keyed) == Some(([m] + ReadList(more, keyed).value.0, ReadList(more, keyed).value.1))
  {
    hide ReadItem;
    SkipNone("," + more);
    assert ("," + more)[1..] == more;
  }

  lemma JoinedMembersStart(ms: seq<Member>, texts: seq<string>)
    requires |ms| == |texts| && ms != []
    ensures Join(ItemTexts(ms, texts, true)) != "" && Join(ItemTexts(ms, texts, true))[0] == '"'
  {
    assert ItemTexts(ms, texts, true)[0] == Quote(ms[0].key) + ":" + texts[0];
  }

  lemma MembersRead(ms: seq<Member>, texts: seq<string>)
    requires |ms| == |texts| && ItemsRead(ms, texts, true)
    ensures ReadItems(Join(ItemTexts(ms, texts, true)) + "}", true) == Some((ms, ""))
  {
    var body := Join(ItemTexts(ms, texts, true));
    if ms == [] {
      assert body + "}" == "}" && "}"[1..] == "";
    } else {
      hide ReadList, Join, ItemReads;
      ReadJoined(ms, texts, true, "");
      assert body + ['}'] + "" == body + "}";
      JoinedMembersStart(ms, texts);
      SkipNone(body + "}");
    }
  }

  lemma ObjectReads(ms: seq<Member>, texts: seq<string>)
    requires |ms| == |texts| && ItemsRead(ms, texts, true)
    ensures ReadsAs("{" + Join(ItemTexts(ms, texts, true)) + "}", Obj(ms))
  {
    hide ReadItems, Join, ItemReads;
    var body := Join(ItemTexts(ms, texts, true));
    MembersRead(ms, texts);
    var text := "{" + body + "}";
    assert text[1..] == body + "}";
    SkipNone(text);
  }

  lemma ArrayReads(ms: seq<Member>, texts: seq<string>)
    requires |ms| == |texts| && ItemsRead(ms, texts, false)
    ensures ReadsAs("[" + Join(ItemTexts(ms, texts, false)) + "]", Arr(Values(ms)))
  {
    hide ReadList, ReadValue, Join, ItemTexts, Rest;
    var body := Join(ItemTexts(ms, texts, false));
    ElemsRead(ms, texts);
    OpenArray(body + "]");
    assert "[" + body + "]" == "[" + (body + "]");
  }

  lemma OpenArray(rest: string)
    requires ReadItems(rest, false).Some?
    ensures ReadValue("[" + rest) == Some((Arr(Values(ReadItems(rest, false).value.0)), ReadItems(rest, false).value.1))
  {
    hide ReadItems;
    assert ("[" + rest)[1..] == rest;
    SkipNone("[" + rest);
  }

  lemma ElemsRead(ms: seq<Member>, texts: seq<string>)
    requires |ms| == |texts| && ItemsRead(ms, texts, false)
    ensures ReadItems(Join(ItemTexts(ms, texts, false)) + "]", false) == Some((ms, ""))
  {
    var body := Join(ItemTexts(ms, texts, false));
    if ms == [] {
      assert body + "]" == "]" && "]"[1..] == "";
    } else {
      assert ItemTexts(ms, texts, false)[0] == texts[0];
      var more := Rest(ItemTexts(ms, texts, false)[1..]) + "]";
      assert body + "]" == texts[0] + more;
      assert ItemReads(ms[0], texts[0], false);
      hide ReadList, ReadValue, Join, Rest, ItemTexts;
      ReadJoined(ms, texts, false, "");
      assert body + [']'] + "" == body + "]";
      NotClosed(texts[0], ms[0].val);
      SkipBlanksExtend(texts[0], more);
    }
  }

  lemma NotClosed(text: string, j: Json)
    requires ReadsAs(text, j)
    ensures SkipBlanks(text) != "" && SkipBlanks(text)[0] != ']'
  {
  }

  // ----- printing and reading -----

  /** The tree is one that JSON text can denote. */
  predicate WellFormed(j: Json) {
    match j
    case Atom(tok) => ValidAtom(tok) && TokenLength(tok) == |tok|
    case Str(raw) => ValidBody(raw)
    case Arr(elems) => forall e | e in elems :: WellFormed(e)
    case Obj(members) => forall m | m in members :: ValidBody(m.key) && WellFormed(m.val)
  }

  function Unkeyed(elems: seq<Json>): (ms: seq<Member>)
    ensures |ms| == |elems| && Values(ms) == elems
    ensures forall i | 0 <= i < |ms| :: ms[i] == Member("", elems[i])
  {
    if elems == [] then [] else [Member("", elems[0])] + Unkeyed(elems[1..])
  }

  function PrintAll(ms: seq<Member>): (texts: seq<string>)
    ensures |texts| == |ms|
    ensures forall i | 0 <= i < |ms| :: texts[i] == Print(ms[i].val)
  {
    if ms == [] then [] else [Print(ms[0].val)] + PrintAll(ms[1..])
  }

  lemma {:induction false} ItemTextsOfMembers(ms: seq<Member>)
    ensures ItemTexts(ms, PrintAll(ms), true) == MemberTexts(ms)
  {
    if ms != [] {
      ItemTextsOfMembers(ms[1..]);
      assert PrintAll(ms)[1..] == PrintAll(ms[1..]);
    }
  }

  lemma {:induction false} ItemTextsOfElems(elems: seq<Json>)
    ensures ItemTexts(Unkeyed(elems), PrintAll(Unkeyed(elems)), false) == ElemTexts(elems)
  {
    if elems != [] {
      ItemTextsOfElems(elems[1..]);
      var ms := Unkeyed(elems);
      assert ms[1..] == Unkeyed(elems[1..]);
      assert PrintAll(ms)[1..] == PrintAll(ms[1..]);
    }
  }

  /** Reading what was printed gives the tree back. */
  lemma {:induction false} ReadPrint(j: Json)
    requires WellFormed(j)
    ensures ReadsAs(Print(j), j)
    decreases j, 1
  {
    match j
    case Atom(tok) =>
      AtomReads(tok);
    case Str(raw) =>
      StringReads(raw);
    case Arr(elems) =>
      var ms := Unkeyed(elems);
      forall i | 0 <= i < |ms| ensures ItemReads(ms[i], PrintAll(ms)[i], false) {
        ReadPrint(elems[i]);
      }
      ItemTextsOfElems(elems);
      ArrayReads(ms, PrintAll(ms));
    case Obj(members) =>
      forall i | 0 <= i < |members| ensures ItemReads(members[i], PrintAll(members)[i], true) {
        ReadPrint(members[i].val);
      }
      ItemTextsOfMembers(members);
      ObjectReads(members, PrintAll(members));
  }

  lemma AtomReads(tok: string)
    requires ValidAtom(tok) && TokenLength(tok) == |tok|
    ensures ReadsAs(tok, Atom(tok))
  {
    hide ValidAtom;
    AtomStarts(tok);
    assert tok[..|tok|] == tok;
  }

  lemma AtomStarts(tok: string)
    requires ValidAtom(tok)
    ensures tok != "" && SkipBlanks(tok) == tok && tok[0] !in "\"[{"
  {
  }

  /** Keys of letters and underscores are legal as they are. */
  lemma {:induction false} KeyValid(key: string)
    requires forall i | 0 <= i < |key| :: key[i] !in "\"\\" && key[i] >= ' '
    ensures ValidBody(key)
  {
    if key == "" {
      assert "" + "\"" == "\"";
    } else {
      KeyValid(key[1..]);
      assert (key + "\"")[1..] == key[1..] + "\"";
    }
  }

  lemma {:induction false} TokenAll(tok: string)
    requires forall i | 0 <= i < |tok| :: IsTokenChar(tok[i])
    ensures TokenLength(tok) == |tok|
  {
    if tok != "" {
      TokenAll(tok[1..]);
    }
  }

  lemma NumberWellFormed(n: nat)
    ensures WellFormed(Atom(ToDecimal(n)))
  {
    hide ToDecimal;
    var s := ToDecimal(n);
    DigitRunOf(s, "");
    assert s + "" == s;
    assert s[..|s|] == s && s[|s|..] == "";
    assert IsDigit(s[0]);
    assert IsNumber(s);
    TokenAll(s);
  }

  lemma NumberReads(n: nat)
    ensures ReadsAs(ToDecimal(n), Atom(ToDecimal(n)))
  {
    NumberWellFormed(n);
    AtomReads(ToDecimal(n));
  }

  // ----- text that does not read -----

  lemma UnreadItems(rest: string)
    requires ReadList(rest, true) == None && rest != "" && rest[0] == '"'
    ensures ReadValue("{" + rest) == None
  {
    hide ReadList;
    assert ("{" + rest)[1..] == rest;
    SkipNone("{" + rest);
    SkipNone(rest);
  }

  lemma UnreadMember(key: string, rest: string)
    requires ReadValue(rest) == None && ValidBody(key)
    ensures ReadList(MemberText(key, rest), true) == None
  {
    hide ReadValue, BodyEnd, ValidBody;
    var text := MemberText(key, rest);
    assert text == Quote(key) + (":" + rest);
    ReadQuoted(key, ":" + rest);
    assert (":" + rest)[1..] == rest;
    SkipNone(text);
    SkipNone(":" + rest);
  }

  lemma PrintOpening(text: string)
    ensures "{\"print\":{" + text == "{" + MemberText("print", "{" + text)
  {
    assert Quote("print") == "\"print\"";
    assert MemberText("print", "{" + text) == "\"print\":{" + text;
  }

  lemma UnreadObject(rest: string)
    requires ReadList(rest, true) == None && rest != "" && rest[0] == '"'
    ensures ReadValue("{\"print\":{" + rest) == None
  {
    hide ReadValue, ReadList, ValidBody;
    UnreadItems(rest);
    KeyValid("print");
    UnreadMember("print", "{" + rest);
    var text := MemberText("print", "{" + rest);
    UnreadItems(text);
    PrintOpening(rest);
  }

  lemma LeadFirst(items: seq<string>)
    requires items != []
    ensures Lead(items) == items[0] + ("," + Lead(items[1..]))
  {
    if |items| > 1 {
      JoinFirst(items);
    } else {
      assert items[1..] == [];
    }
  }

  lemma ListStops(text: string, keyed: bool, m: Member, more: string)
    requires ReadItem(text, keyed) == Some((m, "," + more)) && ReadList(more, keyed) == None
    ensures ReadList(text, keyed) == None
  {
    hide ReadItem;
    SkipNone("," + more);
    assert ("," + more)[1..] == more;
  }

  /** Items that read well do not save a list whose remainder does not read. */
  lemma {:induction false} SkipItems(ms: seq<Member>, texts: seq<string>, keyed: bool, tail: string)
    requires |ms| == |texts| && ItemsRead(ms, texts, keyed) && ReadList(tail, keyed) == None
    ensures ReadList(Lead(ItemTexts(ms, texts, keyed)) + tail, keyed) == None
  {
    hide *;
    if ms == [] {
      NoItems(keyed, tail);
    } else {
      var items := ItemTexts(ms, texts, keyed);
      var more := Lead(items[1..]) + tail;
      ItemsSplit(ms, texts, keyed);
      LeadFirst(items);
      CommaDelimits(more);
      SkipItems(ms[1..], texts[1..], keyed, tail);
      ReadItemText(ms[0], texts[0], keyed, "," + more);
      ListStops(items[0] + ("," + more), keyed, ms[0], more);
      LeadMore(items[0], Lead(items[1..]), tail);
    }
  }

  lemma NoItems(keyed: bool, tail: string)
    ensures Lead(ItemTexts([], [], keyed)) + tail == tail
  {
  }

  lemma LeadMore(first: string, lead: string, tail: string)
    ensures first + ("," + lead) + tail == first + ("," + (lead + tail))
  {
  }

  // ----- what reading can return -----

  lemma {:induction false} SkipBlanksEnds(s: string)
    ensures EndsWith(s, SkipBlanks(s))
  {
    if s != "" && IsBlank(s[0]) {
      SkipBlanksEnds(s[1..]);
      EndsTwice(s, 1, SkipBlanks(s[1..]));
    }
  }

  lemma EndsTwice(s: string, n: nat, tail: string)
    requires n <= |s| && EndsWith(s[n..], tail)
    ensures EndsWith(s, tail)
  {
  }

  lemma EndsAt(s: string, n: nat)
    requires n <= |s|
    ensures EndsWith(s, s[n..])
  {
  }

  lemma EndsThrough(s: string, middle: string, tail: string)
    requires EndsWith(s, middle) && EndsWith(middle, tail)
    ensures EndsWith(s, tail)
  {
    EndsTwice(s, |s| - |middle|, tail);
  }

  lemma BodyStep(s: string)
    requires s != ""
    ensures var n := UnitLength(s);
            BodyEnd(s) == if s[0] == '"' then Some(0)
                          else if n == 0 || BodyEnd(s[n..]).None? then None
                          else Some(n + BodyEnd(s[n..]).value)
  {
  }

  lemma {:induction false} BodyEndCut(s: string)
    requires BodyEnd(s).Some?
    ensures ValidBody(s[..BodyEnd(s).value])
  {
    BodyEndsNonempty(s);
    hide BodyEnd, UnitLength;
    BodyStep(s);
    if s[0] == '"' {
      assert "" + "\"" == "\"";
      BodyStep("\"");
    } else {
      var n, end := UnitLength(s), BodyEnd(s).value;
      hide ValidBody;
      BodyEndCut(s[n..]);
      UnitLengthCut(s, end);
      assert s[..end] == s[..n] + s[n..][..end - n];
      ValidBodyUnit(s[..n], s[n..][..end - n]);
    }
  }

  lemma ValidBodyUnit(unit: string, raw: string)
    requires unit != "" && unit[0] != '"' && UnitLength(unit + raw + "\"") == |unit| && ValidBody(raw)
    ensures ValidBody(unit + raw)
  {
    hide BodyEnd, UnitLength;
    var s := unit + raw + "\"";
    BodyStep(s);
    assert s[|unit|..] == raw + "\"";
  }

  lemma BodyEndsNonempty(s: string)
    requires BodyEnd(s).Some?
    ensures s != ""
  {
  }

  lemma UnitLengthCut(s: string, end: nat)
    requires UnitLength(s) <= end < |s| && UnitLength(s) != 0
    ensures UnitLength(s[..end] + "\"") == UnitLength(s)
  {
  }

  lemma {:induction false} TokenLengthCut(s: string)
    ensures TokenLength(s[..TokenLength(s)]) == TokenLength(s)
  {
    if s != "" && IsTokenChar(s[0]) {
      TokenLengthCut(s[1..]);
      assert s[..TokenLength(s)][1..] == s[1..][..TokenLength(s[1..])];
    }
  }

  predicate ItemsWellFormed(ms: seq<Member>, keyed: bool) {
    forall m | m in ms :: WellFormed(m.val) && (keyed ==> ValidBody(m.key))
  }

  lemma {:induction false} ValuesWellFormed(ms: seq<Member>, keyed: bool)
    requires ItemsWellFormed(ms, keyed)
    ensures forall e | e in Values(ms) :: WellFormed(e)
  {
    hide WellFormed, ValidBody;
    if ms != [] {
      assert ms[0] in ms;
      ValuesWellFormed(ms[1..], keyed);
    }
  }

  /** Whatever the text, the tree read is a legal one and what is left is the end of the text. */
  lemma {:induction false} ReadSound(text: string)
    requires ReadValue(text).Some?
    ensures WellFormed(ReadValue(text).value.0) && EndsWith(text, ReadValue(text).value.1)
    decreases |text|, 2
  {
    hide SkipBlanks, BodyEnd, TokenLength, ReadItems, ValidBody, ValidAtom;
    var s, rest := SkipBlanks(text), ReadValue(text).value.1;
    SkipBlanksEnds(text);
    if s[0] == '"' {
      BodyEndCut(s[1..]);
      assert rest == s[1 + BodyEnd(s[1..]).value + 1..];
    } else if s[0] == '[' {
      ItemsSound(s[1..], false);
      ValuesWellFormed(ReadItems(s[1..], false).value.0, false);
      EndsTwice(s, 1, rest);
    } else if s[0] == '{' {
      ItemsSound(s[1..], true);
      EndsTwice(s, 1, rest);
    } else {
      TokenLengthCut(s);
    }
    EndsThrough(text, s, rest);
  }

  lemma {:induction false} ItemsSound(text: string, keyed: bool)
    requires ReadItems(text, keyed).Some?
    ensures ItemsWellFormed(ReadItems(text, keyed).value.0, keyed) && EndsWith(text, ReadItems(text, keyed).value.1)
    decreases |text|, 5
  {
    hide SkipBlanks, ReadList, WellFormed, ValidBody;
    var first, rest := SkipBlanks(text), ReadItems(text, keyed).value.1;
    if first != "" && first[0] == Closer(keyed) {
      SkipBlanksEnds(text);
      EndsThrough(text, first, rest);
    } else {
      ListSound(text, keyed);
    }
  }

  lemma {:induction false} ItemSound(text: string, keyed: bool)
    requires ReadItem(text, keyed).Some?
    ensures ItemsWellFormed([ReadItem(text, keyed).value.0], keyed) && EndsWith(text, ReadItem(text, keyed).value.1)
    decreases |text|, 3
  {
    hide SkipBlanks, ReadValue, BodyEnd, WellFormed, ValidBody, EndsWith;
    if !keyed {
      ReadSound(text);
    } else {
      var s, rest := SkipBlanks(text), ReadItem(text, keyed).value.1;
      var after := s[1..][BodyEnd(s[1..]).value + 1..];
      var colon := SkipBlanks(after);
      SkipBlanksEnds(text);
      BodyEndCut(s[1..]);
      EndsAt(s[1..], BodyEnd(s[1..]).value + 1);
      EndsTwice(s, 1, after);
      EndsThrough(text, s, after);
      SkipBlanksEnds(after);
      EndsThrough(text, after, colon);
      ReadSound(colon[1..]);
      EndsTwice(colon, 1, rest);
      EndsThrough(text, colon, rest);
    }
  }

  lemma {:induction false} ListSound(text: string, keyed: bool)
    requires ReadList(text, keyed).Some?
    ensures ItemsWellFormed(ReadList(text, keyed).value.0, keyed) && EndsWith(text, ReadList(text, keyed).value.1)
    decreases |text|, 4
  {
    hide SkipBlanks, ReadItem, WellFormed, ValidBody;
    var (m, after) := ReadItem(text, keyed).value;
    var s, rest := SkipBlanks(after), ReadList(text, keyed).value.1;
    ItemSound(text, keyed);
    assert m in [m];
    SkipBlanksEnds(after);
    EndsThrough(text, after, s);
    if s[0] != Closer(keyed) {
      ListSound(s[1..], keyed);
    }
    EndsTwice(s, 1, rest);
    EndsThrough(text, s, rest);
  }

  lemma {:induction false} LegalBodyEscapes(raw: string)
    requires ValidBody(raw)
    ensures QuotesEscaped(raw)
  {
    if raw != "" {
      var s := raw + "\"";
      var n := UnitLength(s);
      BodyStep(s);
      LegalUnit(s);
      assert s[0] == raw[0] && s[n..] == raw[n..] + "\"" && s[..n] == raw[..n];
      hide UnitLength;
      LegalBodyEscapes(raw[n..]);
      hide BodyEnd;
      EscapesJoin(raw, n);
    }
  }

  lemma EscapesJoin(raw: string, n: nat)
    requires n <= |raw| && QuotesEscaped(raw[..n]) && QuotesEscaped(raw[n..])
    ensures QuotesEscaped(raw)
  {
    forall i | 0 <= i < |raw| && raw[i] == '"' ensures 0 < i && raw[i - 1] == '\\' {
      if i < n {
        assert raw[..n][i] == raw[i];
      } else {
        assert raw[n..][i - n] == raw[i];
      }
    }
  }

  lemma LegalUnit(s: string)
    requires s != "" && s[0] != '"'
    ensures QuotesEscaped(s[..UnitLength(s)])
  {
  }

  lemma {:induction false} LegalAtomSafe(tok: string)
    requires TokenLength(tok) == |tok|
    ensures '"' !in tok
  {
    if tok != "" {
      LegalAtomSafe(tok[1..]);
    }
  }

  /** The strings of a legal tree keep their quotes escaped. */
  lemma {:induction false} LegalSafe(j: Json)
    requires WellFormed(j)
    ensures QuoteSafe(j)
  {
    hide ValidBody, ValidAtom, QuotesEscaped;
    match j
    case Atom(tok) => LegalAtomSafe(tok);
    case Str(raw) => LegalBodyEscapes(raw);
    case Arr(elems) =>
      forall e | e in elems ensures QuoteSafe(e) {
        LegalSafe(e);
      }
    case Obj(members) =>
      forall m | m in members ensures QuotesEscaped(m.key) && QuoteSafe(m.val) {
        LegalBodyEscapes(m.key);
        LegalSafe(m.val);
      }
  }
}
