/** Renaming printers: replacing one string value in the text that announces a printer. */
module PrinterMetadata {
  import opened Wrappers
  import opened Text
  import opened Json
  import opened Escape

  /** How the announcing side writes a string member: a space follows the colon. */
  function Needle(key: string): string {
    "\"" + key + "\": \""
  }

  /** The first unescaped quote from `at` on; `escaped` tells whether a backslash is pending. */
  function ScanEnd(s: string, at: nat, escaped: bool): (r: Option<nat>)
    ensures r.Some? ==> at <= r.value < |s| && s[r.value] == '"'
    decreases |s| - at
  {
    if at >= |s| then None
    else if !escaped && s[at] == '"' then Some(at)
    else ScanEnd(s, at + 1, !escaped && s[at] == '\\')
  }

  function ValueStart(json: string, key: string): (r: Option<nat>)
    ensures r.Some? ==> r.value <= |json|
  {
    match Find(json, Needle(key), 0)
    case None => None
    case Some(at) => Some(at + |Needle(key)|)
  }

  function ValueEnd(json: string, key: string): (r: Option<nat>)
    ensures r.Some? ==> ValueStart(json, key).Some? && ValueStart(json, key).value <= r.value < |json|
  {
    match ValueStart(json, key)
    case None => None
    case Some(start) => ScanEnd(json, start, false)
  }

  method FindJsonStringValueRange(json: string, key: string) returns (found: bool, start: nat, end: nat)
    ensures found == ValueEnd(json, key).Some?
    ensures found ==> Some(start) == ValueStart(json, key) && Some(end) == ValueEnd(json, key)
  {
    found, start, end := false, 0, 0;
    var needle := Needle(key);
    var keyPos := Find(json, needle, 0);
    if keyPos.None? {
      return;
    }
    start := keyPos.value + |needle|;
    end := start;
    var escaped := false;
    while end < |json|
      invariant start <= end <= |json|
      invariant ScanEnd(json, end, escaped) == ScanEnd(json, start, false)
    {
      var c := json[end];
      if !escaped && c == '"' {
        found := true;
        return;
      }
      escaped := !escaped && c == '\\';
      end := end + 1;
    }
  }

  function JsonStringField(json: string, key: string): string {
    if ValueEnd(json, key).None? then "" else json[ValueStart(json, key).value..ValueEnd(json, key).value]
  }

  function Replace(json: string, start: nat, end: nat, text: string): string
    requires start <= end <= |json|
  {
    json[..start] + text + json[end..]
  }

  /** The name stored for the device that `json` announces, if there is one. */
  function OverrideFor(overrides: map<string, string>, json: string): Option<string> {
    var devId := JsonStringField(json, "dev_id");
    if devId == "" || devId !in overrides || overrides[devId] == "" then None else Some(overrides[devId])
  }

  function ApplyOverride(overrides: map<string, string>, json: string): string {
    match OverrideFor(overrides, json)
    case None => json
    case Some(name) =>
      if ValueEnd(json, "dev_name").None? then json
      else Replace(json, ValueStart(json, "dev_name").value, ValueEnd(json, "dev_name").value, JsonEscape(name))
  }

  // ----- scanning -----

  lemma {:induction false} ScanShift(a: string, b: string, at: nat, escaped: bool)
    ensures ScanEnd(a + b, |a| + at, escaped) ==
            (if ScanEnd(b, at, escaped).Some? then Some(|a| + ScanEnd(b, at, escaped).value) else None)
    decreases |b| - at
  {
    if at < |b| && (escaped || b[at] != '"') {
      ScanShift(a, b, at + 1, !escaped && b[at] == '\\');
    }
  }

  /** A scan that stops in the front part does not see what follows. */
  lemma {:induction false} ScanPrefix(a: string, b: string, at: nat, escaped: bool)
    requires ScanEnd(a, at, escaped).Some?
    ensures ScanEnd(a + b, at, escaped) == ScanEnd(a, at, escaped)
    decreases |a| - at
  {
    if escaped || a[at] != '"' {
      ScanPrefix(a, b, at + 1, !escaped && a[at] == '\\');
    }
  }

  /** Between its start and the quote that ends it, a value keeps its quotes escaped. */
  lemma {:induction false} ScanEscapes(s: string, from: nat, at: nat, escaped: bool)
    requires from <= at && ScanEnd(s, at, escaped).Some? && (escaped ==> from < at && s[at - 1] == '\\')
    ensures forall i | at <= i < ScanEnd(s, at, escaped).value && s[i] == '"' :: from < i && s[i - 1] == '\\'
    decreases |s| - at
  {
    if escaped || s[at] != '"' {
      ScanEscapes(s, from, at + 1, !escaped && s[at] == '\\');
    }
  }

  /** A scan does not pass a quote that has no backslash in front of it. */
  lemma {:induction false} ScanStops(s: string, at: nat, escaped: bool, quote: nat)
    requires at <= quote < |s| && s[quote] == '"' && (at == quote ==> !escaped) && (at < quote ==> s[quote - 1] != '\\')
    ensures ScanEnd(s, at, escaped).Some? && ScanEnd(s, at, escaped).value <= quote
    decreases quote - at
  {
    if at < quote && (escaped || s[at] != '"') {
      ScanStops(s, at + 1, !escaped && s[at] == '\\', quote);
    }
  }

  /** Escaped text is scanned to its end, with nothing pending there. */
  lemma {:induction false} ScanEscaped(name: string, rest: string)
    ensures ScanEnd(JsonEscape(name) + rest, 0, false) ==
            (if ScanEnd(rest, 0, false).Some? then Some(|JsonEscape(name)| + ScanEnd(rest, 0, false).value) else None)
  {
    if name == "" {
      assert "" + rest == rest;
    } else {
      hide EscapeChar;
      var head, tail := EscapeChar(name[0]), JsonEscape(name[1..]) + rest;
      assert JsonEscape(name) + rest == head + tail;
      ScanEscaped(name[1..], rest);
      ScanUnit(name[0], tail);
    }
  }

  lemma ScanUnit(c: char, tail: string)
    ensures ScanEnd(EscapeChar(c) + tail, 0, false) ==
            (if ScanEnd(tail, 0, false).Some? then Some(|EscapeChar(c)| + ScanEnd(tail, 0, false).value) else None)
  {
    var e := EscapeChar(c);
    ScanShift(e, tail, 0, false);
    assert (e + tail)[0] == e[0];
    if |e| == 2 {
      assert (e + tail)[1] == e[1];
      assert ScanEnd(e + tail, 0, false) == ScanEnd(e + tail, 1, true) == ScanEnd(e + tail, 2, false);
    } else {
      assert ScanEnd(e + tail, 0, false) == ScanEnd(e + tail, 1, false);
    }
  }

  // ----- the text around the name -----

  /** `front` ends with the first needle of the name. */
  predicate Named(front: string) {
    |front| >= 13 && Find(front, Needle("dev_name"), 0) == Some(|front| - 13)
  }

  /** The text before the name, the name, and the text from its closing quote on. */
  lemma Parts(json: string)
    requires ValueEnd(json, "dev_name").Some?
    ensures var start, end := ValueStart(json, "dev_name").value, ValueEnd(json, "dev_name").value;
            Named(json[..start]) && QuotesEscaped(json[start..end]) && json[end..][0] == '"' &&
            ScanEnd(json[start..end] + json[end..], 0, false) == Some(end - start) &&
            json == json[..start] + (json[start..end] + json[end..])
  {
    hide Find;
    var start, end := ValueStart(json, "dev_name").value, ValueEnd(json, "dev_name").value;
    var front, name, back := json[..start], json[start..end], json[end..];
    assert json == front + (name + back);
    FindEndsAt(json, Needle("dev_name"));
    ScanShift(front, name + back, 0, false);
    ScanEscapes(json, start, start, false);
    assert forall i | 0 <= i < |name| :: name[i] == json[start + i];
  }

  /** A first match stays the first one when the text is cut right after it. */
  lemma FindEndsAt(s: string, pat: string)
    requires Find(s, pat, 0).Some?
    ensures var i := Find(s, pat, 0).value;
            Find(s[..i + |pat|], pat, 0) == Some(i)
  {
    hide Find;
    var i := Find(s, pat, 0).value;
    var front, back := s[..i + |pat|], s[i + |pat|..];
    assert s == front + back;
    FindLeast(s, pat, 0);
    forall j | 0 <= j < i ensures !At(front, pat, j) {
      AtLeft(front, back, pat, j);
    }
    AtLeft(front, back, pat, i);
    FindIs(front, pat, 0, i);
  }

  /** Whatever the name, reading it back from between the same texts gives it. */
  lemma NameReads(front: string, name: string, back: string)
    requires Named(front) && ScanEnd(name + back, 0, false) == Some(|name|)
    ensures ValueStart(front + (name + back), "dev_name") == Some(|front|)
    ensures ValueEnd(front + (name + back), "dev_name") == Some(|front| + |name|)
    ensures JsonStringField(front + (name + back), "dev_name") == name
  {
    hide Find, ScanEnd;
    FindPrefix(front, name + back, Needle("dev_name"), 0);
    ScanShift(front, name + back, 0, false);
    assert (front + (name + back))[|front|..|front| + |name|] == name;
  }

  lemma EscapedScans(name: string, back: string)
    requires back != "" && back[0] == '"'
    ensures ScanEnd(JsonEscape(name) + back, 0, false) == Some(|JsonEscape(name)|)
  {
    ScanEscaped(name, back);
  }

  // ----- the id is not disturbed -----

  /** Another value follows the name right away, as if the name were a key. */
  predicate ReadsOn(back: string) {
    StartsWith(back, "\": \"")
  }

  /** The name and what follows it do not read as a device id together. */
  predicate Apart(name: string, back: string) {
    ReadsOn(back) ==> !Names(name, "dev_id")
  }

  lemma FrontEnds(front: string)
    requires Named(front)
    ensures front[|front| - 13..] == "\"dev_name\": \""
  {
    assert front[|front| - 13..] == front[|front| - 13..|front| - 13 + 13];
  }

  /** The characters of the id's needle that the argument below looks at. */
  lemma IdAt(s: string, i: int)
    requires At(s, Needle("dev_id"), i)
    ensures 0 <= i && i + 11 <= |s| && s[i] == '"' && s[i + 6] == 'd' && s[i + 7] == '"' && s[i + 8] == ':' && s[i + 9] == ' ' && s[i + 10] == '"'
    ensures forall j | i < j < i + 7 :: s[j] != '"'
  {
    var w := s[i..i + 11];
    assert w == "\"dev_id\": \"";
    assert forall j | i <= j < i + 11 :: s[j] == w[j - i];
  }

  /** Near the end of the front part the only quote is the one that opens the name. */
  lemma FrontQuote(front: string, rest: string, q: nat)
    requires Named(front) && |front| - 3 <= q < |front| && (front + rest)[q] == '"'
    ensures (front + rest)[q - 1] == ' '
  {
    FrontEnds(front);
    var last := front[|front| - 13..];
    assert front[|front| - 3] == last[10] && front[|front| - 2] == last[11] && front[|front| - 1] == last[12];
  }

  /** A quote inside the name follows a backslash. */
  lemma NameQuote(front: string, name: string, back: string, q: nat)
    requires QuotesEscaped(name) && |front| <= q < |front| + |name| && (front + (name + back))[q] == '"'
    ensures |front| < q && (front + (name + back))[q - 1] == '\\'
  {
    assert name[q - |front|] == '"';
  }

  lemma ClosingText(s: string, back: string, m: nat)
    requires m + 4 <= |s| && s[m..] == back && s[m] == '"' && s[m + 1] == ':' && s[m + 2] == ' ' && s[m + 3] == '"'
    ensures ReadsOn(back)
  {
    assert back[0] == s[m] && back[1] == s[m + 1] && back[2] == s[m + 2] && back[3] == s[m + 3];
  }

  /** A needle whose key ends at the name's closing quote takes its key from the name. */
  lemma NameShowsId(front: string, name: string, back: string, i: nat)
    requires Named(front) && i + 7 == |front| + |name|
    requires At(front + (name + back), Needle("dev_id"), i)
    ensures Names(name, "dev_id")
  {
    hide Find;
    var s, n := front + (name + back), |front|;
    IdAt(s, i);
    FrontEnds(front);
    assert s[n - 1] == front[n - 1] == front[n - 13..][12] == '"';
    var w := s[i..i + 11];
    assert w == Needle("dev_id") && w[..7] == "\"dev_id";
    SliceSlice(s, i, i + 11, 0, 7);
    if n <= i {
      assert name[i - n..] == s[i..i + 7];
    } else {
      assert i == n - 1;
      SliceSlice(s, i, i + 11, 1, 7);
      assert name == s[i + 1..i + 7] == w[1..7] == "dev_id";
    }
  }

  /** The needle of the id cannot touch the name, unless name and closing text make one. */
  lemma IdAvoidsName(front: string, name: string, back: string, i: int)
    requires Named(front) && QuotesEscaped(name) && back != "" && back[0] == '"'
    requires At(front + (name + back), Needle("dev_id"), i)
    ensures i + 11 <= |front| || |front| + |name| <= i || (i + 7 == |front| + |name| && !Apart(name, back))
  {
    hide Names, Find;
    var s := front + (name + back);
    var n, m, q := |front|, |front| + |name|, i + 7;
    IdAt(s, i);
    assert s[m..] == back;
    assert s[m] == back[0];
    if n < i + 11 && q < n {
      FrontQuote(front, name + back, q);
    } else if n <= q < m {
      NameQuote(front, name, back, q);
    } else if q == m {
      ClosingText(s, back, m);
      NameShowsId(front, name, back, i);
    }
  }

  lemma IdSpots(front: string, name: string, back: string)
    requires Named(front) && QuotesEscaped(name) && back != "" && back[0] == '"' && Apart(name, back)
    ensures Find(front + (name + back), Needle("dev_id"), 0) ==
            (if Find(front, Needle("dev_id"), 0).Some? then Find(front, Needle("dev_id"), 0)
             else if Find(back, Needle("dev_id"), 0).Some? then Some(|front| + |name| + Find(back, Needle("dev_id"), 0).value)
             else None)
  {
    hide Named, Apart, QuotesEscaped, Find, At, Needle;
    var pat, s := Needle("dev_id"), front + (name + back);
    if Find(front, pat, 0).Some? {
      FindPrefix(front, name + back, pat, 0);
    } else {
      var k := Find(back, pat, 0);
      var end := if k.Some? then |front| + |name| + k.value else |s| + 1;
      FindLeast(back, pat, 0);
      forall j: nat | j < end ensures !At(s, pat, j) {
        if At(s, pat, j) {
          IdOnlyInBack(front, name, back, j);
        }
      }
      assert s == (front + name) + back;
      if k.Some? {
        AtRight(front + name, back, pat, end);
        FindIs(s, pat, 0, end);
      } else {
        FindNothing(s, pat, 0);
      }
    }
  }

  lemma IdOnlyInBack(front: string, name: string, back: string, j: nat)
    requires Named(front) && QuotesEscaped(name) && back != "" && back[0] == '"' && Apart(name, back)
    requires Find(front, Needle("dev_id"), 0).None? && At(front + (name + back), Needle("dev_id"), j)
    ensures |front| + |name| <= j && At(back, Needle("dev_id"), j - |front| - |name|)
  {
    hide Named, Apart, QuotesEscaped, Find;
    var pat := Needle("dev_id");
    assert |pat| == 11;
    FindLeast(front, pat, 0);
    IdAvoidsName(front, name, back, j);
    if j + 11 <= |front| {
      AtLeft(front, name + back, pat, j);
    } else {
      assert front + (name + back) == (front + name) + back;
      AtRight(front + name, back, pat, j);
    }
  }

  /** An id found in the front part ends before the name's own member does. */
  lemma IdInFront(front: string)
    requires Named(front) && Find(front, Needle("dev_id"), 0).Some?
    ensures var at := Find(front, Needle("dev_id"), 0).value + 11;
            at <= |front| - 4 && ScanEnd(front, at, false).Some?
  {
    hide Find, ScanEnd, Named, Needle;
    var k, n := Find(front, Needle("dev_id"), 0).value, |front|;
    IdAt(front, k);
    FrontTail(front);
    ScanStops(front, k + 11, false, n - 4);
  }

  /** The text that ends the front part, character by character where it matters. */
  lemma FrontTail(front: string)
    requires Named(front)
    ensures var n := |front|;
            n >= 13 && front[n - 5] == 'e' && front[n - 4] == '"' && front[n - 3] == ':' && front[n - 2] == ' ' && front[n - 1] == '"'
  {
    FrontEnds(front);
    var n, last := |front|, front[|front| - 13..];
    assert front[n - 5] == last[8] && front[n - 4] == last[9];
    assert front[n - 3] == last[10] && front[n - 2] == last[11] && front[n - 1] == last[12];
  }

  /** The id as the texts around the name alone determine it. */
  function IdAround(front: string, back: string): string
    requires Named(front)
  {
    if Find(front, Needle("dev_id"), 0).Some? then JsonStringField(front, "dev_id") else JsonStringField(back, "dev_id")
  }

  lemma FieldInFront(front: string, rest: string)
    requires Named(front) && Find(front, Needle("dev_id"), 0).Some?
    ensures JsonStringField(front + rest, "dev_id") == JsonStringField(front, "dev_id")
  {
    hide Find, ScanEnd;
    IdInFront(front);
    var at := Find(front, Needle("dev_id"), 0).value + 11;
    FindPrefix(front, rest, Needle("dev_id"), 0);
    ScanPrefix(front, rest, at, false);
    var end := ScanEnd(front, at, false).value;
    assert (front + rest)[at..end] == front[at..end];
  }

  /** The text from `at` up to the quote that ends it. */
  function Quoted(s: string, at: nat): string {
    if ScanEnd(s, at, false).Some? then s[at..ScanEnd(s, at, false).value] else ""
  }

  lemma QuotedShift(a: string, b: string, at: nat)
    ensures Quoted(a + b, |a| + at) == Quoted(b, at)
  {
    hide ScanEnd;
    ScanShift(a, b, at, false);
    if ScanEnd(b, at, false).Some? {
      var end := ScanEnd(b, at, false).value;
      assert (a + b)[|a| + at..|a| + end] == b[at..end];
    }
  }

  lemma FieldQuoted(json: string)
    ensures JsonStringField(json, "dev_id") ==
            match Find(json, Needle("dev_id"), 0)
            case None => ""
            case Some(at) => Quoted(json, at + 11)
  {
  }

  lemma FieldFound(before: string, back: string, k: nat)
    requires Find(back, Needle("dev_id"), 0) == Some(k) && Find(before + back, Needle("dev_id"), 0) == Some(|before| + k)
    ensures JsonStringField(before + back, "dev_id") == JsonStringField(back, "dev_id")
  {
    hide Find, Quoted, JsonStringField, Needle;
    var q := Quoted(back, k + 11);
    QuotedShift(before, back, k + 11);
    FieldQuoted(back);
    assert JsonStringField(back, "dev_id") == q;
    hide *;
    FieldQuoted(before + back);
  }

  lemma FieldInBack(before: string, back: string)
    requires Find(before + back, Needle("dev_id"), 0) ==
             (if Find(back, Needle("dev_id"), 0).Some? then Some(|before| + Find(back, Needle("dev_id"), 0).value) else None)
    ensures JsonStringField(before + back, "dev_id") == JsonStringField(back, "dev_id")
  {
    hide *;
    if Find(back, Needle("dev_id"), 0).Some? {
      FieldFound(before, back, Find(back, Needle("dev_id"), 0).value);
    } else {
      FieldQuoted(before + back);
      FieldQuoted(back);
    }
  }

  /** The device id is read from the texts around the name, whatever the name. */
  lemma IdReads(front: string, name: string, back: string)
    requires Named(front) && QuotesEscaped(name) && back != "" && back[0] == '"' && Apart(name, back)
    ensures JsonStringField(front + (name + back), "dev_id") == IdAround(front, back)
  {
    hide Find, ScanEnd, JsonStringField, Named, Apart;
    IdSpots(front, name, back);
    if Find(front, Needle("dev_id"), 0).Some? {
      FieldInFront(front, name + back);
    } else {
      assert front + (name + back) == (front + name) + back;
      FieldInBack(front + name, back);
    }
  }

  // ----- what applying an override does -----

  /** The override takes effect: the device has one, and the text has a name to replace. */
  predicate Overrides(overrides: map<string, string>, json: string) {
    OverrideFor(overrides, json).Some? && ValueEnd(json, "dev_name").Some?
  }

  /** Reading the name after the override gives exactly the escaped override, whatever it is. */
  lemma OverrideReadsBack(overrides: map<string, string>, json: string)
    requires Overrides(overrides, json)
    ensures JsonStringField(ApplyOverride(overrides, json), "dev_name") == JsonEscape(OverrideFor(overrides, json).value)
  {
    hide ValueStart, ValueEnd, OverrideFor, JsonStringField, ApplyOverride, Named, NameFront, NameBack, Renamed;
    var name := OverrideFor(overrides, json).value;
    ApplyRenames(overrides, json);
    RenamedParts(json, JsonEscape(name));
    EscapedScans(name, NameBack(json));
    NameReads(NameFront(json), JsonEscape(name), NameBack(json));
  }

  /** Name and closing text that do make a needle: the value that reads on becomes the id. */
  lemma IdCaptured(front: string, name: string, back: string)
    requires Named(front) && QuotesEscaped(name) && Find(front, Needle("dev_id"), 0).None?
    requires ReadsOn(back) && Names(name, "dev_id")
    ensures JsonStringField(front + (name + back), "dev_id") == Quoted(back, 4)
  {
    hide Find, JsonStringField, Quoted, Named, QuotesEscaped, Names;
    var pat, s, at := Needle("dev_id"), front + (name + back), |front| + |name| - 7;
    CapturedAt(front, name, back);
    FindLeast(front, pat, 0);
    forall j | 0 <= j < at ensures !At(s, pat, j) {
      if At(s, pat, j) {
        assert back[0] == '"';
        IdAvoidsName(front, name, back, j);
        AtLeft(front, name + back, pat, j);
      }
    }
    FindIs(s, pat, 0, at);
    FieldQuoted(s);
    assert s == (front + name) + back;
    QuotedShift(front + name, back, 4);
  }

  lemma CapturedAt(front: string, name: string, back: string)
    requires Named(front) && ReadsOn(back) && Names(name, "dev_id")
    ensures At(front + (name + back), Needle("dev_id"), |front| + |name| - 7)
  {
    hide Find;
    var s, i := front + (name + back), |front| + |name| - 7;
    FrontEnds(front);
    assert front[|front| - 1] == front[|front| - 13..][12] == '"';
    if name == "dev_id" {
      assert s[i..i + 7] == "\"" + name;
    } else {
      assert s[i..i + 7] == name[|name| - 7..] == "\"dev_id";
    }
    assert s[i + 7..i + 11] == back[..4];
    assert s[i..i + 11] == s[i..i + 7] + s[i + 7..i + 11];
  }

  /**
   Nothing that could be written as the name changes the id: an id stands before the name, or no
   value follows the name right away, or that value is the id anyway.
   */
  predicate IdSafe(json: string)
    requires ValueEnd(json, "dev_name").Some?
  {
    var front, back := NameFront(json), NameBack(json);
    Find(front, Needle("dev_id"), 0).Some? || !ReadsOn(back) || IdAround(front, back) == Quoted(back, 4)
  }

  /** The text up to the name's opening quote, and from its closing quote on. */
  function NameFront(json: string): (front: string)
    requires ValueEnd(json, "dev_name").Some?
    ensures Named(front)
  {
    Parts(json);
    json[..ValueStart(json, "dev_name").value]
  }

  function NameBack(json: string): (back: string)
    requires ValueEnd(json, "dev_name").Some?
  {
    json[ValueEnd(json, "dev_name").value..]
  }

  /** The text with another name body in place. */
  function Renamed(json: string, name: string): string
    requires ValueEnd(json, "dev_name").Some?
  {
    Replace(json, ValueStart(json, "dev_name").value, ValueEnd(json, "dev_name").value, name)
  }

  lemma RenamedParts(json: string, name: string)
    requires ValueEnd(json, "dev_name").Some?
    ensures Renamed(json, name) == NameFront(json) + (name + NameBack(json))
    ensures NameBack(json) != "" && NameBack(json)[0] == '"'
  {
    hide ValueStart, ValueEnd, Named, ScanEnd, Find;
    Parts(json);
  }

  /** The name as it stands. */
  lemma KeptName(json: string) returns (name: string)
    requires ValueEnd(json, "dev_name").Some?
    ensures QuotesEscaped(name) && Renamed(json, name) == json
  {
    hide ValueStart, ValueEnd, Named, ScanEnd, Find, QuotesEscaped;
    Parts(json);
    name := json[ValueStart(json, "dev_name").value..ValueEnd(json, "dev_name").value];
  }

  /** The id read with some name in place is one of two, and just one when the texts are safe. */
  lemma IdWithName(json: string, name: string)
    requires ValueEnd(json, "dev_name").Some? && QuotesEscaped(name)
    ensures JsonStringField(Renamed(json, name), "dev_id") ==
            if IdSafe(json) || !Names(name, "dev_id") then IdAround(NameFront(json), NameBack(json)) else Quoted(NameBack(json), 4)
  {
    hide ValueStart, ValueEnd, JsonStringField, Named, ScanEnd, Find, ReadsOn, Names, QuotesEscaped, NameFront,
      NameBack, Renamed;
    RenamedParts(json, name);
    var front, back := NameFront(json), NameBack(json);
    if Apart(name, back) {
      IdReads(front, name, back);
    } else if Find(front, Needle("dev_id"), 0).Some? {
      FieldInFront(front, name + back);
    } else {
      IdCaptured(front, name, back);
    }
  }

  lemma TwoNames()
    ensures JsonEscape("x") == "x" && JsonEscape("z") == "z" && JsonEscape("\"dev_id") != "z"
    ensures !Names("x", "dev_id") && !Names(JsonEscape(""), "dev_id") && Names(JsonEscape("\"dev_id"), "dev_id")
  {
    EscapePlain("x");
    EscapePlain("z");
    TrapName();
  }

  lemma IdKeyPlain()
    ensures JsonEscape("dev_id") == "dev_id"
  {
    EscapePlain("dev_id");
  }

  lemma TrapName()
    ensures Names(JsonEscape("\"dev_id"), "dev_id")
  {
    IdKeyPlain();
    TrapNameText();
    hide JsonEscape;
    EscapeConcat(['"'], "dev_id");
    EscapeOne('"');
    NamesAfter("\\", "dev_id");
  }

  lemma TrapNameText()
    ensures "\"dev_id" == ['"'] + "dev_id" && EscapeChar('"') + "dev_id" == "\\" + ("\"" + "dev_id")
  {
  }

  lemma NamesAfter(front: string, k: string)
    ensures Names(front + ("\"" + k), k)
  {
  }

  /** Overriding the name leaves the device id as it was, for every name there is, exactly when the texts are safe. */
  lemma IdKeptIff(json: string)
    requires ValueEnd(json, "dev_name").Some?
    ensures (forall name :: JsonStringField(Renamed(json, JsonEscape(name)), "dev_id") == JsonStringField(json, "dev_id"))
            <==> IdSafe(json)
  {
    hide ValueStart, ValueEnd, JsonStringField, Names, JsonEscape, QuotesEscaped, Renamed, NameFront, NameBack,
      IdAround, Quoted, Find, ReadsOn;
    var name := KeptName(json);
    IdWithName(json, name);
    forall name ensures QuotesEscaped(JsonEscape(name)) {
      EscapeQuotes(name);
    }
    if IdSafe(json) {
      forall name ensures JsonStringField(Renamed(json, JsonEscape(name)), "dev_id") == JsonStringField(json, "dev_id") {
        IdWithName(json, JsonEscape(name));
      }
    } else {
      TwoNames();
      IdWithName(json, JsonEscape(""));
      IdWithName(json, JsonEscape("\"dev_id"));
      assert JsonStringField(Renamed(json, JsonEscape("")), "dev_id") != JsonStringField(Renamed(json, JsonEscape("\"dev_id")), "dev_id");
    }
  }

  /** The text after an override: the id as `IdWithName` tells it, the name as written. */
  lemma AfterOverride(overrides: map<string, string>, json: string)
    requires Overrides(overrides, json)
    ensures var name := OverrideFor(overrides, json).value;
            var once := ApplyOverride(overrides, json);
            && once == Renamed(json, JsonEscape(name))
            && ValueEnd(once, "dev_name").Some?
            && (forall other :: Renamed(once, other) == Renamed(json, other))
  {
    hide ValueStart, ValueEnd, JsonStringField, Named, ScanEnd, Find, JsonEscape;
    var name := OverrideFor(overrides, json).value;
    var front, back := NameFront(json), NameBack(json);
    var once := ApplyOverride(overrides, json);
    assert once == Renamed(json, JsonEscape(name));
    RenamedParts(json, JsonEscape(name));
    EscapedScans(name, back);
    NameReads(front, JsonEscape(name), back);
    assert once[..|front|] == front && once[|front| + |JsonEscape(name)|..] == back;
    forall other ensures Renamed(once, other) == Renamed(json, other) {
      RenamedParts(json, other);
    }
  }

  /** With safe texts, or with one of the two ids empty, applying an override again changes nothing. */
  lemma OverrideSettles(overrides: map<string, string>, json: string)
    requires Overrides(overrides, json)
    requires IdSafe(json) || IdAround(NameFront(json), NameBack(json)) == "" || Quoted(NameBack(json), 4) == ""
    ensures ApplyOverride(overrides, ApplyOverride(overrides, json)) == ApplyOverride(overrides, json)
  {
    hide ValueStart, ValueEnd, JsonStringField, Named, ScanEnd, Find, IdSafe, IdAround, Quoted, JsonEscape, NameFront,
      NameBack, Renamed, QuotesEscaped, Names;
    var name := OverrideFor(overrides, json).value;
    var once := ApplyOverride(overrides, json);
    AfterOverride(overrides, json);
    EscapeQuotes(name);
    IdWithName(json, JsonEscape(name));
    var kept := KeptName(json);
    IdWithName(json, kept);
    if JsonStringField(once, "dev_id") == JsonStringField(json, "dev_id") {
      ApplyRenames(overrides, once);
    }
  }

  lemma ApplyRenames(overrides: map<string, string>, json: string)
    requires Overrides(overrides, json)
    ensures ApplyOverride(overrides, json) == Renamed(json, JsonEscape(OverrideFor(overrides, json).value))
  {
  }

  /** Otherwise some stored names make a second application change the name once more. */
  lemma OverrideUnsettled(json: string) returns (overrides: map<string, string>)
    requires ValueEnd(json, "dev_name").Some? && !IdSafe(json)
    requires IdAround(NameFront(json), NameBack(json)) != "" && Quoted(NameBack(json), 4) != ""
    ensures Overrides(overrides, json)
    ensures ApplyOverride(overrides, ApplyOverride(overrides, json)) != ApplyOverride(overrides, json)
  {
    hide ValueStart, ValueEnd, JsonStringField, Named, ScanEnd, Find, IdAround, Quoted, JsonEscape, NameFront,
      NameBack, Renamed, QuotesEscaped, Names, ReadsOn;
    var around, captured := IdAround(NameFront(json), NameBack(json)), Quoted(NameBack(json), 4);
    var kept := KeptName(json);
    IdWithName(json, kept);
    TwoNames();
    var trapped := Names(kept, "dev_id");
    var first := if trapped then "x" else "\"dev_id";
    overrides := if trapped then map[captured := "x", around := "z"] else map[around := "\"dev_id", captured := "z"];
    assert OverrideFor(overrides, json) == Some(first);
    AfterOverride(overrides, json);
    EscapeQuotes(first);
    IdWithName(json, JsonEscape(first));
    var once := ApplyOverride(overrides, json);
    assert OverrideFor(overrides, once) == Some("z");
    OverrideReadsBack(overrides, json);
    OverrideReadsBack(overrides, once);
  }

  /** Whatever names are stored, one application settles the text: this holds exactly under that condition. */
  lemma OverrideSettlesIff(json: string)
    requires ValueEnd(json, "dev_name").Some?
    ensures (forall overrides | Overrides(overrides, json) ::
               ApplyOverride(overrides, ApplyOverride(overrides, json)) == ApplyOverride(overrides, json))
       <==> IdSafe(json) || IdAround(NameFront(json), NameBack(json)) == "" || Quoted(NameBack(json), 4) == ""
  {
    hide *;
    if IdSafe(json) || IdAround(NameFront(json), NameBack(json)) == "" || Quoted(NameBack(json), 4) == "" {
      forall overrides | Overrides(overrides, json)
        ensures ApplyOverride(overrides, ApplyOverride(overrides, json)) == ApplyOverride(overrides, json)
      {
        OverrideSettles(overrides, json);
      }
    } else {
      var overrides := OverrideUnsettled(json);
    }
  }

  // ----- what is announced, and what becomes of it -----

  /** The announcement of a printer, with the text between its members and after its id. */
  function Announcement(blank: string, name: string, id: string, rest: string): string {
    "{" + blank + "\"dev_name\": \"" + name + "\"," + blank + "\"dev_id\": \"" + id + "\"" + rest
  }

  predicate NoEscapes(s: string) {
    '"' !in s && '\\' !in s
  }

  lemma {:induction false} PlainScans(s: string, rest: string)
    requires NoEscapes(s)
    ensures ScanEnd(s + ("\"" + rest), 0, false) == Some(|s|)
  {
    var t := s + ("\"" + rest);
    var k := |s|;
    while 0 < k
      invariant 0 <= k <= |s| && ScanEnd(t, k, false) == Some(|s|)
    {
      k := k - 1;
    }
  }

  lemma AnnouncementText(blank: string, name: string, id: string, rest: string)
    ensures Announcement(blank, name, id, rest) ==
            TrapFront(blank) + (name + ("\"," + (blank + (Needle("dev_id") + (id + ("\"" + rest))))))
  {
  }

  lemma PlainId(blank: string, id: string, rest: string)
    requires '"' !in blank && NoEscapes(id)
    ensures JsonStringField("\"," + (blank + (Needle("dev_id") + (id + ("\"" + rest)))), "dev_id") == id
  {
    var end := id + ("\"" + rest);
    var front := "\"," + blank + Needle("dev_id");
    var back := "\"," + (blank + (Needle("dev_id") + end));
    assert back == front + end && |front| == 2 + |blank| + 11;
    hide *;
    IdFoundAfter("\",", blank, end);
    FieldQuoted(back);
    QuotedShift(front, end, 0);
    PlainQuoted(id, rest);
  }

  lemma PlainQuoted(id: string, rest: string)
    requires NoEscapes(id)
    ensures Quoted(id + ("\"" + rest), 0) == id
  {
    hide ScanEnd;
    PlainScans(id, rest);
  }

  /** The scanner reads name and id of an announcement as they were put in. */
  lemma AnnouncementParts(blank: string, name: string, id: string, rest: string)
    requires '"' !in blank && NoEscapes(name) && NoEscapes(id)
    ensures var json := Announcement(blank, name, id, rest);
            && JsonStringField(json, "dev_id") == id && JsonStringField(json, "dev_name") == name
            && ValueStart(json, "dev_name") == Some(|TrapFront(blank)|)
            && ValueEnd(json, "dev_name") == Some(|TrapFront(blank)| + |name|)
  {
    hide *;
    AnnouncementText(blank, name, id, rest);
    TrapFrontNamed(blank);
    PlainId(blank, id, rest);
    PlainNameReads(TrapFront(blank), name, blank + (Needle("dev_id") + (id + ("\"" + rest))));
  }

  lemma PlainNameReads(front: string, name: string, more: string)
    requires Named(front) && Find(front, Needle("dev_id"), 0) == None && NoEscapes(name)
    ensures var back := "\"," + more;
            var json := front + (name + back);
            && JsonStringField(json, "dev_id") == JsonStringField(back, "dev_id") && JsonStringField(json, "dev_name") == name
            && ValueStart(json, "dev_name") == Some(|front|) && ValueEnd(json, "dev_name") == Some(|front| + |name|)
  {
    var back := "\"," + more;
    CommaAfter(more);
    assert QuotesEscaped(name) && Apart(name, back) && back[0] == '"' && back != "";
    hide *;
    PlainScans(name, "," + more);
    NameReads(front, name, back);
    IdReads(front, name, back);
    NoIdInFront(front, back);
  }

  lemma NoIdInFront(front: string, back: string)
    requires Named(front) && Find(front, Needle("dev_id"), 0) == None
    ensures IdAround(front, back) == JsonStringField(back, "dev_id")
  {
  }

  lemma CommaAfter(more: string)
    ensures var back := "\"," + more; !ReadsOn(back) && back == "\"" + ("," + more)
  {
    assert ("\"," + more)[1] == ',';
  }

  /**
   An announced printer for whose id a name is stored gets that name, escaped, and nothing else of the
   announcement changes; any other announcement stays as it is.
   */
  lemma AnnouncementRenamed(overrides: map<string, string>, blank: string, name: string, id: string, rest: string)
    requires '"' !in blank && NoEscapes(name) && NoEscapes(id)
    ensures ApplyOverride(overrides, Announcement(blank, name, id, rest)) ==
            Announcement(blank, if id != "" && id in overrides && overrides[id] != "" then JsonEscape(overrides[id]) else name, id, rest)
  {
    hide JsonStringField, ValueStart, ValueEnd, JsonEscape, Announcement, TrapFront, Needle;
    AnnouncementParts(blank, name, id, rest);
    var json, front := Announcement(blank, name, id, rest), TrapFront(blank);
    var back := "\"," + (blank + (Needle("dev_id") + (id + ("\"" + rest))));
    AnnouncementText(blank, name, id, rest);
    assert json[..|front|] == front && json[|front| + |name|..] == back;
    if id in overrides {
      AnnouncementText(blank, JsonEscape(overrides[id]), id, rest);
      assert front + JsonEscape(overrides[id]) + back == front + (JsonEscape(overrides[id]) + back);
    }
  }

  /**
   Any text keeps all but the name: it stays as it is when it shows no id, no name, or an id without a
   stored name, and otherwise the stored name, escaped, stands between the quotes of the old one.
   */
  lemma OverrideIs(overrides: map<string, string>, json: string)
    ensures var id := JsonStringField(json, "dev_id");
            ApplyOverride(overrides, json) ==
            if id == "" || id !in overrides || overrides[id] == "" || ValueEnd(json, "dev_name").None? then json
            else json[..ValueStart(json, "dev_name").value] + JsonEscape(overrides[id]) + json[ValueEnd(json, "dev_name").value..]
  {
  }

  // ----- such a text -----

  /**
   What the client announces for a printer named `x": "b` with the id `D`: names and ids are put in
   as they are.  `blank` is the space between members, `rest` what follows the id.
   */
  function TrapText(blank: string, rest: string): string {
    TrapFront(blank) + ("x" + TrapBack(blank, rest))
  }

  function TrapFront(blank: string): string {
    "{" + blank + Needle("dev_name")
  }

  function TrapBack(blank: string, rest: string): string {
    "\": \"b\"," + blank + Needle("dev_id") + ("D\"" + rest)
  }

  /** A pattern is first found where its first character is. */
  lemma FirstAfter(pre: string, pat: string, post: string)
    requires pat != "" && pat[0] !in pre
    ensures Find(pre + (pat + post), pat, 0) == Some(|pre|)
  {
    hide Find;
    var s := pre + (pat + post);
    forall j: nat | j < |pre| ensures !At(s, pat, j) {
      if At(s, pat, j) {
        AtChar(s, pat, j, 0);
      }
    }
    assert s[|pre|..|pre| + |pat|] == pat;
    FindIs(s, pat, 0, |pre|);
  }

  lemma NameNeedleHasNoId(j: int)
    ensures !At(Needle("dev_name"), Needle("dev_id"), j)
  {
    var s, pat := Needle("dev_name"), Needle("dev_id");
    assert pat[0] == '"' && pat[5] == 'i' && s[1] == 'd' && s[2] == 'e' && s[5] == 'n';
    if 0 <= j <= 2 {
      assert s[j..j + 11][0] == s[j] && s[j..j + 11][5] == s[j + 5];
    }
  }

  lemma TrapFrontNamed(blank: string)
    requires '"' !in blank
    ensures Named(TrapFront(blank)) && Find(TrapFront(blank), Needle("dev_id"), 0) == None
  {
    hide Find;
    var pre, name, id := "{" + blank, Needle("dev_name"), Needle("dev_id");
    assert TrapFront(blank) == pre + (name + "");
    FirstAfter(pre, name, "");
    assert id[0] == '"';
    hide Needle;
    forall j: nat | j <= |pre + name| ensures !At(pre + name, id, j) {
      if j < |pre| {
        if At(pre + name, id, j) {
          AtChar(pre + name, id, j, 0);
        }
      } else {
        AtRight(pre, name, id, j);
        NameNeedleHasNoId(j - |pre|);
      }
    }
    assert TrapFront(blank) == pre + name;
    FindNothing(pre + name, id, 0);
  }

  lemma QuotedToNext(back: string, from: nat, to: nat)
    requires from <= to < |back| && back[to] == '"' && forall k | from <= k < to :: back[k] != '"' && back[k] != '\\'
    ensures Quoted(back, from) == back[from..to]
  {
    var k := to;
    while from < k
      invariant from <= k <= to && ScanEnd(back, k, false) == Some(to)
    {
      k := k - 1;
    }
  }

  /** The id's needle is found right behind a short member and the space after its comma. */
  lemma IdFoundAfter(start: string, blank: string, end: string)
    requires 0 < |start| < 11 && start[|start| - 1] == ',' && '"' !in blank
    ensures Find(start + (blank + (Needle("dev_id") + end)), Needle("dev_id"), 0) == Some(|start| + |blank|)
  {
    hide *;
    var id := Needle("dev_id");
    IdNeedle(start, blank + (id + end));
    FirstAfter(blank, id, end);
    FindSplit(start, blank + (id + end), id, 0);
  }

  lemma IdNeedle(start: string, after: string)
    requires 0 < |start| < 11 && start[|start| - 1] == ','
    ensures var id := Needle("dev_id");
            id != "" && id[0] == '"' && Seamless(start, after, id) && Find(start, id, 0) == None
  {
    var id := Needle("dev_id");
    assert |id| == 11 && ',' !in id;
  }

  lemma TrapBackFind(blank: string, rest: string)
    requires '"' !in blank
    ensures Find(TrapBack(blank, rest), Needle("dev_id"), 0) == Some(7 + |blank|)
    ensures TrapBack(blank, rest)[7 + |blank| + 11..] == "D\"" + rest
  {
    hide Find;
    var start, id, end := "\": \"b\",", Needle("dev_id"), "D\"" + rest;
    assert TrapBack(blank, rest) == start + (blank + (id + end));
    assert |id| == 11;
    hide Needle, TrapBack;
    IdFoundAfter(start, blank, end);
  }

  lemma TrapBackChars(blank: string, rest: string)
    ensures var back := TrapBack(blank, rest);
            && |back| > 6 && back[0] == '"' && back[4] == 'b' && back[5] == '"' && back[4..5] == "b" && ReadsOn(back)
  {
    var back, start := TrapBack(blank, rest), "\": \"b\",";
    assert back[..7] == start;
    assert back[..4] == start[..4];
  }

  lemma TrapBackEnd(blank: string, rest: string)
    requires '"' !in blank
    ensures var back, p := TrapBack(blank, rest), 18 + |blank|;
            p + 1 < |back| && back[p] == 'D' && back[p + 1] == '"' && back[p..p + 1] == "D"
  {
    hide TrapBack;
    TrapBackFind(blank, rest);
    var back, p := TrapBack(blank, rest), 18 + |blank|;
    assert back[p..][0] == back[p] && back[p..][1] == back[p + 1];
  }

  lemma TrapBackId(blank: string, rest: string)
    requires '"' !in blank
    ensures JsonStringField(TrapBack(blank, rest), "dev_id") == "D" && Quoted(TrapBack(blank, rest), 4) == "b"
    ensures ReadsOn(TrapBack(blank, rest)) && TrapBack(blank, rest)[0] == '"'
  {
    hide *;
    var back, p := TrapBack(blank, rest), 18 + |blank|;
    TrapBackChars(blank, rest);
    TrapBackEnd(blank, rest);
    TrapBackFind(blank, rest);
    FieldQuoted(back);
    QuotedToNext(back, 4, 5);
    QuotedToNext(back, p, p + 1);
  }

  /** The text reads the id `D`, and with the right name in place it reads `b`. */
  lemma TrapUnsafe(blank: string, rest: string)
    requires '"' !in blank
    ensures TrapText(blank, rest) == Announcement(blank, "x\": \"b", "D", rest)
    ensures var json := TrapText(blank, rest);
            && ValueEnd(json, "dev_name").Some? && !IdSafe(json)
            && JsonStringField(json, "dev_id") == IdAround(NameFront(json), NameBack(json)) == "D"
            && Quoted(NameBack(json), 4) == "b"
  {
    var front, back := TrapFront(blank), TrapBack(blank, rest);
    TrapAnnounced(blank, rest);
    hide Announcement;
    TrapFrontNamed(blank);
    TrapBackId(blank, rest);
    hide Find, Named, Quoted, TrapFront, TrapBack, Needle, ReadsOn, JsonStringField;
    assert ("x" + back)[1] == '"';
    assert ScanEnd("x" + back, 0, false) == Some(1);
    hide ScanEnd;
    NameReads(front, "x", back);
    IdReads(front, "x", back);
    TrapSplits(front, back);
  }

  lemma TrapAnnounced(blank: string, rest: string)
    ensures TrapText(blank, rest) == Announcement(blank, "x\": \"b", "D", rest)
  {
    hide Needle, Announcement, TrapFront;
    AnnouncementText(blank, "x\": \"b", "D", rest);
    TrapRegroup(blank, Needle("dev_id"), rest);
  }

  lemma TrapRegroup(blank: string, needle: string, rest: string)
    ensures "x" + ("\": \"b\"," + blank + needle + ("D\"" + rest)) ==
            "x\": \"b" + ("\"," + (blank + (needle + ("D" + ("\"" + rest)))))
  {
    assert "x" + "\": \"b\"," == "x\": \"b" + "\",";
  }

  lemma TrapSplits(front: string, back: string)
    requires Named(front) && ValueEnd(front + ("x" + back), "dev_name") == Some(|front| + 1)
    requires ValueStart(front + ("x" + back), "dev_name") == Some(|front|)
    ensures NameFront(front + ("x" + back)) == front && NameBack(front + ("x" + back)) == back
  {
    hide ValueStart, ValueEnd, Named;
  }

  /** For this printer some stored names do change the id, and are applied a second time. */
  lemma TrapSprings(blank: string, rest: string) returns (overrides: map<string, string>)
    requires '"' !in blank
    ensures var json := TrapText(blank, rest);
            && Overrides(overrides, json)
            && ApplyOverride(overrides, ApplyOverride(overrides, json)) != ApplyOverride(overrides, json)
  {
    hide *;
    TrapUnsafe(blank, rest);
    overrides := OverrideUnsettled(TrapText(blank, rest));
  }
}
