/** The tab-separated files in which the client keeps its print jobs and printer names. */
module LocalState {
  import opened Wrappers
  import opened Text
  import opened Decimal

  datatype LocalPrintContext = LocalPrintContext(
    devId: string,
    projectId: string,
    profileId: string,
    subtaskId: string,
    taskId: string,
    remoteFilename: string,
    platePath: string,
    thumbnailUrl: string,
    plateIndex: int,
    active: bool)

  // ----- splitting text -----

  /** The lines `std::getline` yields: a final newline starts no line. */
  function Lines(text: string): seq<string>
    decreases |text|
  {
    if text == "" then []
    else
      match Find(text, "\n", 0)
      case None => [text]
      case Some(i) => [text[..i]] + Lines(text[i + 1..])
  }

  function Fields(line: string): (fields: seq<string>)
    ensures fields != []
    decreases |line|
  {
    match Find(line, "\t", 0)
    case None => [line]
    case Some(i) => [line[..i]] + Fields(line[i + 1..])
  }

  lemma AbsentFind(s: string, c: char)
    requires c !in s
    ensures Find(s, [c], 0) == None
  {
    if Find(s, [c], 0).Some? {
      FindCharIs(s, c, 0);
    }
  }

  lemma CutAt(front: string, c: char, back: string)
    requires c !in front
    ensures Find(front + [c] + back, [c], 0) == Some(|front|)
    ensures (front + [c] + back)[..|front|] == front && (front + [c] + back)[|front| + 1..] == back
  {
    AbsentFind(front, c);
    FindCharSplit(front, [c] + back, c, 0);
    assert ([c] + back)[0..1] == [c];
    assert front + [c] + back == front + ([c] + back);
  }

  lemma FirstFound(s: string, c: char)
    requires Find(s, [c], 0).Some?
    ensures c !in s[..Find(s, [c], 0).value]
  {
    var i := Find(s, [c], 0).value;
    FindLeast(s, [c], 0);
    forall j | 0 <= j < i ensures s[j] != c {
      assert !At(s, [c], j);
      assert s[j..j + 1] == [s[j]];
    }
  }

  // ----- numbers -----

  predicate Int32(n: int) {
    -0x8000_0000 <= n < 0x8000_0000
  }

  function SkipSpace(s: string): string {
    if s != "" && IsSpace(s[0]) then SkipSpace(s[1..]) else s
  }

  /** `std::stoi`: None stands for its exceptions, no digits and out of range. */
  function Stoi(s: string): (r: Option<int>)
    ensures r.Some? ==> Int32(r.value)
  {
    var t := SkipSpace(s);
    var signed := t != "" && t[0] in "+-";
    var digits := if signed then t[1..] else t;
    var n := DigitRun(digits);
    if n == 0 then None
    else
      var value: int := Value(digits[..n]);
      var number := if signed && t[0] == '-' then -value else value;
      if Int32(number) then Some(number) else None
  }

  function PlateIndex(field: string): int {
    match Stoi(field)
    case None => 0
    case Some(n) => n
  }

  lemma StoiDecimal(n: int)
    requires Int32(n)
    ensures Stoi(SignedDecimal(n)) == Some(n)
  {
    hide ToDecimal;
    var digits := ToDecimal(if n < 0 then -n else n);
    ValueToDecimal(if n < 0 then -n else n);
    DigitRunOf(digits, "");
    assert digits + "" == digits && digits[..|digits|] == digits;
    assert IsDigit(digits[0]);
    if n < 0 {
      assert ("-" + digits)[1..] == digits;
    }
  }

  /** What `stoi` reads: blanks, a sign and digits, and nothing of what follows them. */
  lemma StoiReads(blanks: string, sign: string, digits: string, rest: string)
    requires (forall c | c in blanks :: IsSpace(c)) && sign in ["", "+", "-"]
    requires digits != "" && Digits(digits) && (rest == "" || !IsDigit(rest[0]))
    ensures var value: int := Value(digits);
            var n := if sign == "-" then -value else value;
            Stoi(blanks + (sign + (digits + rest))) == if -0x8000_0000 <= n <= 0x7fff_ffff then Some(n) else None
  {
    var t := sign + (digits + rest);
    SignedText(sign, digits, rest);
    SkippedSpace(blanks, t);
    StoiOf(blanks + t, t, sign, digits, digits + rest);
  }

  lemma StoiOf(s: string, t: string, sign: string, digits: string, u: string)
    requires SkipSpace(s) == t && t != "" && sign in ["", "+", "-"] && t[|sign|..] == u
    requires (t[0] in "+-" <==> sign != "") && (t[0] == '-' <==> sign == "-")
    requires digits != "" && Digits(digits) && DigitRun(u) == |digits| && u[..|digits|] == digits
    ensures var value: int := Value(digits);
            var n := if sign == "-" then -value else value;
            Stoi(s) == if -0x8000_0000 <= n <= 0x7fff_ffff then Some(n) else None
  {
    hide SkipSpace, Value, DigitRun, IsDigit;
    assert t[0..] == t;
  }

  lemma SignedText(sign: string, digits: string, rest: string)
    requires sign in ["", "+", "-"] && digits != "" && Digits(digits) && (rest == "" || !IsDigit(rest[0]))
    ensures var t := sign + (digits + rest);
            && t != "" && !IsSpace(t[0]) && (t[0] in "+-" <==> sign != "") && (t[0] == '-' <==> sign == "-")
            && t[|sign|..] == digits + rest && DigitRun(digits + rest) == |digits| && (digits + rest)[..|digits|] == digits
  {
    hide Value;
    DigitRunOf(digits, rest);
    assert IsDigit(digits[0]);
  }

  lemma {:induction false} SkippedSpace(blanks: string, t: string)
    requires (forall c | c in blanks :: IsSpace(c)) && (t == "" || !IsSpace(t[0]))
    ensures SkipSpace(blanks + t) == t
  {
    if blanks == "" {
      assert blanks + t == t;
    } else {
      assert (blanks + t)[1..] == blanks[1..] + t;
      SkippedSpace(blanks[1..], t);
    }
  }

  /** Anything else is no number, and stands for the plate 0. */
  lemma StoiRefuses(blanks: string, sign: string, rest: string)
    requires (forall c | c in blanks :: IsSpace(c)) && sign in ["", "+", "-"] && (rest == "" || !IsDigit(rest[0]))
    requires sign == "" && rest != "" ==> !IsSpace(rest[0]) && rest[0] !in "+-"
    ensures Stoi(blanks + (sign + rest)) == None && PlateIndex(blanks + (sign + rest)) == 0
  {
    var t := sign + rest;
    assert t[|sign|..] == rest;
    SkippedSpace(blanks, t);
  }

  // ----- one print job -----

  function ContextFields(c: LocalPrintContext): seq<string> {
    [c.devId, c.projectId, c.profileId, c.subtaskId, c.taskId, c.remoteFilename, c.platePath, c.thumbnailUrl,
     SignedDecimal(c.plateIndex)]
  }

  function TabJoin(fields: seq<string>): string {
    if fields == [] then "" else if |fields| == 1 then fields[0] else fields[0] + "\t" + TabJoin(fields[1..])
  }

  function ContextLine(c: LocalPrintContext): string {
    TabJoin(ContextFields(c))
  }

  function ContextOf(fields: seq<string>): LocalPrintContext
    requires |fields| == 9
  {
    LocalPrintContext(fields[0], fields[1], fields[2], fields[3], fields[4], fields[5], fields[6], fields[7],
                      PlateIndex(fields[8]), true)
  }

  function ParseLine(line: string): Option<LocalPrintContext> {
    var fields := Fields(line);
    if |fields| != 9 || fields[0] == "" then None else Some(ContextOf(fields))
  }

  predicate Bare(s: string) {
    '\t' !in s && '\n' !in s
  }

  /** A job that a file can hold: active, named, no separators in its texts, a C++ int as plate. */
  predicate Storable(c: LocalPrintContext) {
    c.active && c.devId != "" && Int32(c.plateIndex) && forall i | 0 <= i < 8 :: Bare(ContextFields(c)[i])
  }

  lemma {:induction false} DecimalBare(n: nat)
    ensures Bare(ToDecimal(n))
  {
    hide ToDecimal;
    assert forall c | c in ToDecimal(n) :: IsDigit(c);
  }

  lemma {:induction false} FieldsTabJoin(fields: seq<string>)
    requires fields != [] && forall f | f in fields :: '\t' !in f
    ensures Fields(TabJoin(fields)) == fields
  {
    if |fields| == 1 {
      AbsentFind(fields[0], '\t');
    } else {
      FieldsTabJoin(fields[1..]);
      CutAt(fields[0], '\t', TabJoin(fields[1..]));
      assert fields == [fields[0]] + fields[1..];
    }
  }

  lemma {:induction false} TabJoinBare(fields: seq<string>)
    requires forall f | f in fields :: '\n' !in f
    ensures '\n' !in TabJoin(fields)
  {
    if |fields| > 1 {
      TabJoinBare(fields[1..]);
    }
  }

  lemma StorableFields(c: LocalPrintContext)
    requires Storable(c)
    ensures forall f | f in ContextFields(c) :: Bare(f)
  {
    hide ToDecimal;
    DecimalBare(if c.plateIndex < 0 then -c.plateIndex else c.plateIndex);
    forall f | f in ContextFields(c) ensures Bare(f) {
      var i :| 0 <= i < 9 && f == ContextFields(c)[i];
    }
  }

  /** Reading a job's line gives the job back. */
  lemma ParseContextLine(c: LocalPrintContext)
    requires Storable(c)
    ensures ParseLine(ContextLine(c)) == Some(c) && '\n' !in ContextLine(c)
  {
    hide TabJoin, Fields, SignedDecimal, Stoi, Int32;
    StorableFields(c);
    FieldsTabJoin(ContextFields(c));
    TabJoinBare(ContextFields(c));
    StoiDecimal(c.plateIndex);
  }

  lemma {:induction false} FieldsBare(line: string)
    requires '\n' !in line
    ensures forall f | f in Fields(line) :: Bare(f)
    decreases |line|
  {
    if Find(line, "\t", 0).Some? {
      FirstFound(line, '\t');
      FieldsBare(line[Find(line, "\t", 0).value + 1..]);
    } else {
      forall i | 0 <= i < |line| ensures line[i] != '\t' {
        FindLeast(line, "\t", 0);
        assert !At(line, "\t", i);
        assert line[i..i + 1] == [line[i]];
      }
    }
  }

  /** Whatever a line holds, the job read from it is one a file can hold. */
  lemma ParsedStorable(line: string)
    requires '\n' !in line && ParseLine(line).Some?
    ensures Storable(ParseLine(line).value)
  {
    hide Stoi, Fields, SignedDecimal;
    FieldsBare(line);
    var fields := Fields(line);
    var c := ParseLine(line).value;
    assert forall i | 0 <= i < 8 :: ContextFields(c)[i] == fields[i];
  }

  // ----- the file of print jobs -----

  type Contexts = map<string, LocalPrintContext>

  function LoadLine(line: string, loaded: Contexts): Contexts {
    match ParseLine(line)
    case None => loaded
    case Some(c) => loaded[c.devId := c]
  }

  function LoadLines(lines: seq<string>, loaded: Contexts): Contexts {
    if lines == [] then loaded else LoadLines(lines[1..], LoadLine(lines[0], loaded))
  }

  /** The jobs in a file's text; a later line for a device replaces an earlier one. */
  function LoadContexts(text: string): Contexts {
    LoadLines(Lines(text), map[])
  }

  predicate Kept(contexts: Contexts, key: string) {
    key in contexts && contexts[key].active && key != ""
  }

  /** The file's text when the map is walked in the order given; `unordered_map` promises none. */
  function PersistContexts(contexts: Contexts, order: seq<string>): string {
    if order == [] then ""
    else
      (if Kept(contexts, order[0]) then ContextLine(contexts[order[0]]) + "\n" else "") +
      PersistContexts(contexts, order[1..])
  }

  /** The entries that are written at all. */
  function KeptPart(contexts: Contexts): Contexts {
    map k | k in contexts && Kept(contexts, k) :: contexts[k]
  }

  /** Every entry stands under its own device id and can be held by a file. */
  predicate Normal(contexts: Contexts) {
    forall k | k in contexts :: contexts[k].devId == k && Storable(contexts[k])
  }

  /** `order` walks over the keys of the map. */
  predicate Walks(order: seq<string>, contexts: Contexts) {
    (set k | k in order) == contexts.Keys
  }

  lemma LinesCons(line: string, rest: string)
    requires '\n' !in line
    ensures Lines(line + "\n" + rest) == [line] + Lines(rest)
  {
    CutAt(line, '\n', rest);
  }

  /** The entries that a walk writes, of those that are written at all. */
  function Written<V>(part: map<string, V>, order: seq<string>): map<string, V> {
    map k | k in order && k in part :: part[k]
  }

  lemma WrittenNone<V>(part: map<string, V>, loaded: map<string, V>)
    ensures loaded + Written(part, []) == loaded
  {
  }

  lemma WrittenCons<V>(part: map<string, V>, order: seq<string>, loaded: map<string, V>)
    requires order != []
    ensures order[0] in part ==> loaded[order[0] := part[order[0]]] + Written(part, order[1..]) == loaded + Written(part, order)
    ensures order[0] !in part ==> Written(part, order[1..]) == Written(part, order)
  {
    assert order == [order[0]] + order[1..];
  }

  lemma KeptEntry(contexts: Contexts, k: string)
    requires Normal(KeptPart(contexts)) && Kept(contexts, k)
    ensures k in contexts && contexts[k].devId == k && Storable(contexts[k])
  {
    assert KeptPart(contexts)[k] == contexts[k];
  }

  lemma {:induction false} LoadPersisted(contexts: Contexts, order: seq<string>, loaded: Contexts)
    requires Normal(KeptPart(contexts))
    ensures LoadLines(Lines(PersistContexts(contexts, order)), loaded) ==
            loaded + Written(KeptPart(contexts), order)
  {
    hide Lines, ParseLine, ContextLine, Storable, Written;
    if order == [] {
      NoLines();
      WrittenNone(KeptPart(contexts), loaded);
    } else {
      var k, rest := order[0], PersistContexts(contexts, order[1..]);
      WrittenCons(KeptPart(contexts), order, loaded);
      if Kept(contexts, k) {
        KeptEntry(contexts, k);
        var c := contexts[k];
        ParseContextLine(c);
        LinesCons(ContextLine(c), rest);
        assert ([ContextLine(c)] + Lines(rest))[1..] == Lines(rest);
        LoadPersisted(contexts, order[1..], loaded[k := c]);
      } else {
        assert "" + rest == rest;
        LoadPersisted(contexts, order[1..], loaded);
      }
    }
  }

  lemma NoLines()
    ensures Lines("") == []
  {
  }

  lemma {:induction false} LinesBare(text: string)
    ensures forall line | line in Lines(text) :: '\n' !in line
    decreases |text|
  {
    if text != "" {
      if Find(text, "\n", 0).Some? {
        FirstFound(text, '\n');
        LinesBare(text[Find(text, "\n", 0).value + 1..]);
      } else {
        forall i | 0 <= i < |text| ensures text[i] != '\n' {
          FindLeast(text, "\n", 0);
          assert !At(text, "\n", i);
          assert text[i..i + 1] == [text[i]];
        }
      }
    }
  }

  lemma {:induction false} LoadLinesNormal(lines: seq<string>, loaded: Contexts)
    requires Normal(loaded) && forall line | line in lines :: '\n' !in line
    ensures Normal(LoadLines(lines, loaded))
  {
    hide ParseLine, Storable;
    if lines != [] {
      if ParseLine(lines[0]).Some? {
        ParsedStorable(lines[0]);
      }
      LoadLinesNormal(lines[1..], LoadLine(lines[0], loaded));
    }
  }

  /** Whatever the file holds, the loaded map is normal. */
  lemma LoadNormal(text: string)
    ensures Normal(LoadContexts(text))
  {
    LinesBare(text);
    LoadLinesNormal(Lines(text), map[]);
  }

  lemma NormalKept(contexts: Contexts)
    requires Normal(contexts)
    ensures KeptPart(contexts) == contexts
  {
  }

  /** Writing and loading keeps exactly the active entries, in any order, when and only when they are normal. */
  lemma PersistLoadIff(contexts: Contexts, order: seq<string>)
    requires Walks(order, contexts)
    ensures KeptPart(contexts) == map k | k in contexts && contexts[k].active && k != "" :: contexts[k]
    ensures LoadContexts(PersistContexts(contexts, order)) == KeptPart(contexts) <==> Normal(KeptPart(contexts))
  {
    hide Lines, PersistContexts, Normal;
    if Normal(KeptPart(contexts)) {
      LoadPersisted(contexts, order, map[]);
      assert forall k :: k in order <==> k in contexts;
    }
    LoadNormal(PersistContexts(contexts, order));
  }

  /** Loading normalises: writing what was loaded and loading it again changes nothing. */
  lemma LoadPersistLoad(text: string, order: seq<string>)
    requires Walks(order, LoadContexts(text))
    ensures LoadContexts(PersistContexts(LoadContexts(text), order)) == LoadContexts(text)
  {
    hide LoadContexts, PersistContexts, Normal, KeptPart;
    LoadNormal(text);
    NormalKept(LoadContexts(text));
    PersistLoadIff(LoadContexts(text), order);
  }

  // ----- the file, line by line -----

  /** The text is made of whole lines. */
  predicate WholeLines(text: string) {
    text == "" || text[|text| - 1] == '\n'
  }

  lemma {:induction false} LinesSnoc(text: string, line: string)
    requires WholeLines(text) && '\n' !in line
    ensures Lines(text + (line + "\n")) == Lines(text) + [line]
    decreases |text|
  {
    if text == "" {
      LinesCons(line, "");
      NoLines();
      assert line + "\n" + "" == text + (line + "\n");
    } else {
      var i := FirstLine(text);
      var first, rest := text[..i], text[i + 1..];
      hide Lines;
      LinesSnoc(rest, line);
      LinesCons(first, rest);
      LinesCons(first, rest + (line + "\n"));
      Associates(first + "\n", rest, line + "\n");
      assert [first] + (Lines(rest) + [line]) == [first] + Lines(rest) + [line];
    }
  }

  lemma FirstLine(text: string) returns (i: nat)
    requires WholeLines(text) && text != ""
    ensures i < |text| && '\n' !in text[..i] && text == text[..i] + "\n" + text[i + 1..] && WholeLines(text[i + 1..])
  {
    hide Find;
    LastBreak(text);
    i := Find(text, "\n", 0).value;
    FirstFound(text, '\n');
    FindCharIs(text, '\n', 0);
    assert text == text[..i] + [text[i]] + text[i + 1..];
  }

  lemma LastBreak(text: string)
    requires text != "" && text[|text| - 1] == '\n'
    ensures Find(text, "\n", 0).Some?
  {
    CharAt(text, '\n', |text| - 1);
    Found(text, "\n", |text| - 1);
  }

  lemma {:induction false} LoadLinesSnoc(lines: seq<string>, line: string, loaded: Contexts)
    ensures LoadLines(lines + [line], loaded) == LoadLine(line, LoadLines(lines, loaded))
  {
    hide ParseLine, LoadLine;
    if lines == [] {
      assert lines + [line] == [line] && [line][1..] == [];
    } else {
      assert (lines + [line])[1..] == lines[1..] + [line];
      LoadLinesSnoc(lines[1..], line, LoadLine(lines[0], loaded));
    }
  }

  /**
   A line of nine fields adds the job they hold, replacing one read before for the device; the field of the
   plate is read as a number.  A line without a device id adds nothing.
   */
  lemma JobLine(text: string, id: string, project: string, profile: string, subtask: string, task: string,
                file: string, plate: string, thumbnail: string, index: string)
    requires WholeLines(text)
    requires forall f | f in [id, project, profile, subtask, task, file, plate, thumbnail, index] :: '\t' !in f && '\n' !in f
    ensures LoadContexts(text + (id + "\t" + (project + "\t" + (profile + "\t" + (subtask + "\t" + (task + "\t" +
                           (file + "\t" + (plate + "\t" + (thumbnail + "\t" + index))))))) + "\n")) ==
            if id == "" then LoadContexts(text)
            else
              LoadContexts(text)[id := LocalPrintContext(id, project, profile, subtask, task, file, plate, thumbnail, PlateIndex(index), true)]
  {
    var fields := [id, project, profile, subtask, task, file, plate, thumbnail, index];
    NineFields(id, project, profile, subtask, task, file, plate, thumbnail, index);
    hide Lines, TabJoin, Fields, PlateIndex;
    TabJoinBare(fields);
    FieldsTabJoin(fields);
    LinesSnoc(text, TabJoin(fields));
    LoadLinesSnoc(Lines(text), TabJoin(fields), map[]);
  }

  lemma NineFields(a: string, b: string, c: string, d: string, e: string, f: string, g: string, h: string, i: string)
    ensures TabJoin([a, b, c, d, e, f, g, h, i]) ==
            a + "\t" + (b + "\t" + (c + "\t" + (d + "\t" + (e + "\t" + (f + "\t" + (g + "\t" + (h + "\t" + i)))))))
  {
    TabJoinMore(a, [b, c, d, e, f, g, h, i]);
    TabJoinMore(b, [c, d, e, f, g, h, i]);
    TabJoinMore(c, [d, e, f, g, h, i]);
    TabJoinMore(d, [e, f, g, h, i]);
    TabJoinMore(e, [f, g, h, i]);
    TabJoinMore(f, [g, h, i]);
    TabJoinMore(g, [h, i]);
    TabJoinMore(h, [i]);
  }

  lemma TabJoinMore(first: string, more: seq<string>)
    requires more != []
    ensures TabJoin([first] + more) == first + "\t" + TabJoin(more)
  {
    assert ([first] + more)[1..] == more;
  }

  lemma TabsSplit(front: string, back: string)
    requires '\t' !in front
    ensures multiset(front + ['\t'] + back)['\t'] == 1 + multiset(back)['\t']
  {
  }

  lemma {:induction false} FieldsCount(line: string)
    ensures |Fields(line)| == 1 + multiset(line)['\t']
    decreases |line|
  {
    var found := Find(line, "\t", 0);
    if found.Some? {
      FirstFound(line, '\t');
      FindCharIs(line, '\t', 0);
      var front, rest := line[..found.value], line[found.value + 1..];
      assert line == front + ['\t'] + rest;
      FieldsCount(rest);
      TabsSplit(front, rest);
    } else {
      NoTab(line);
    }
  }

  lemma NoTab(line: string)
    requires Find(line, "\t", 0).None?
    ensures '\t' !in line
  {
    FindLeast(line, "\t", 0);
    forall i | 0 <= i < |line| ensures line[i] != '\t' {
      CharAt(line, '\t', i);
    }
  }

  /** A line with more or fewer than eight tabs adds nothing. */
  lemma OtherLine(text: string, line: string)
    requires WholeLines(text) && '\n' !in line && multiset(line)['\t'] != 8
    ensures LoadContexts(text + (line + "\n")) == LoadContexts(text)
  {
    hide Lines, Fields;
    FieldsCount(line);
    LinesSnoc(text, line);
    LoadLinesSnoc(Lines(text), line, map[]);
  }

  /** An active, named job is written as one line of its nine texts, in this order; any other is not written. */
  lemma JobWritten(contexts: Contexts, order: seq<string>, k: string)
    requires k in contexts
    ensures var c := contexts[k];
            PersistContexts(contexts, order + [k]) == PersistContexts(contexts, order) +
            if c.active && k != "" then
              c.devId + "\t" + (c.projectId + "\t" + (c.profileId + "\t" + (c.subtaskId + "\t" + (c.taskId + "\t" +
                (c.remoteFilename + "\t" + (c.platePath + "\t" + (c.thumbnailUrl + "\t" + SignedDecimal(c.plateIndex)))))))) + "\n"
            else ""
  {
    hide PersistContexts, TabJoin, SignedDecimal;
    PersistSnoc(contexts, order, k);
    var c := contexts[k];
    NineFields(c.devId, c.projectId, c.profileId, c.subtaskId, c.taskId, c.remoteFilename, c.platePath, c.thumbnailUrl,
               SignedDecimal(c.plateIndex));
  }

  lemma {:induction false} PersistSnoc(contexts: Contexts, order: seq<string>, k: string)
    ensures PersistContexts(contexts, order + [k]) ==
            PersistContexts(contexts, order) + if Kept(contexts, k) then ContextLine(contexts[k]) + "\n" else ""
  {
    hide ContextLine;
    if order == [] {
      assert [k][1..] == [];
      assert [] + [k] == [k];
    } else {
      assert (order + [k])[1..] == order[1..] + [k];
      PersistSnoc(contexts, order[1..], k);
    }
  }

  /** Writing the file, entry by entry. */
  method PersistLocalPrintContexts(contexts: Contexts, order: seq<string>) returns (out: string)
    requires Walks(order, contexts)
    ensures out == PersistContexts(contexts, order)
  {
    out := "";
    for i := 0 to |order|
      invariant out == PersistContexts(contexts, order[..i])
    {
      assert order[..i + 1] == order[..i] + [order[i]];
      PersistSnoc(contexts, order[..i], order[i]);
      assert order[i] in (set k | k in order);
      var c := contexts[order[i]];
      if c.active && order[i] != "" {
        out := out + ContextLine(c) + "\n";
      }
    }
    assert order[..|order|] == order;
  }

  lemma FindFrom(line: string, start: nat)
    requires start <= |line|
    ensures Find(line[start..], "\t", 0) ==
            match Find(line, "\t", start)
            case None => None
            case Some(tab) => Some(tab - start)
  {
    hide Find;
    FindShift(line[..start], line[start..], "\t", start);
    assert line[..start] + line[start..] == line;
  }

  lemma FieldsCut(line: string, start: nat, tab: nat)
    requires start <= tab < |line| && Find(line[start..], "\t", 0) == Some(tab - start)
    ensures Fields(line[start..]) == [line[start..tab]] + Fields(line[tab + 1..])
  {
    hide Find;
    assert line[start..] == line[start..|line|] && line[tab + 1..] == line[tab + 1..|line|];
    SliceSlice(line, start, |line|, 0, tab - start);
    SliceSlice(line, start, |line|, tab - start + 1, |line| - start);
    assert line[start..][..tab - start] == line[start..tab];
    assert line[start..][tab - start + 1..] == line[tab + 1..];
  }

  lemma FieldsWhole(line: string)
    requires Find(line, "\t", 0).None?
    ensures Fields(line) == [line]
  {
    hide Find;
  }

  /** Cutting the fields of a rest of the line, in positions of the whole line. */
  lemma FieldsFrom(line: string, start: nat)
    requires start <= |line|
    ensures Find(line, "\t", start).None? ==> Fields(line[start..]) == [line[start..]]
    ensures Find(line, "\t", start).Some? ==>
              var tab := Find(line, "\t", start).value;
              Fields(line[start..]) == [line[start..tab]] + Fields(line[tab + 1..])
  {
    hide Find, Fields;
    FindFrom(line, start);
    if Find(line, "\t", start).Some? {
      FieldsCut(line, start, Find(line, "\t", start).value);
    } else {
      FieldsWhole(line[start..]);
    }
  }

  method SplitFields(line: string) returns (fields: seq<string>)
    ensures fields == Fields(line)
  {
    hide Find, Fields;
    fields := [];
    var start := 0;
    assert line[0..] == line;
    while true
      invariant start <= |line|
      invariant fields + Fields(line[start..]) == Fields(line)
      decreases |line| - start
    {
      FieldsFrom(line, start);
      var tab := Find(line, "\t", start);
      if tab.None? {
        fields := fields + [line[start..]];
        return;
      }
      fields := fields + [line[start..tab.value]];
      start := tab.value + 1;
    }
  }

  lemma NextLine(text: string)
    requires text != ""
    ensures var newline := Find(text, "\n", 0);
            var line := if newline.Some? then text[..newline.value] else text;
            var more := if newline.Some? then text[newline.value + 1..] else "";
            Lines(text) == [line] + Lines(more) && Lines(text)[0] == line && Lines(text)[1..] == Lines(more)
  {
    hide Find;
    NoLines();
  }

  /** Reading the file, line by line. */
  method LoadLocalPrintContexts(text: string) returns (loaded: Contexts)
    ensures loaded == LoadContexts(text)
  {
    hide Find, Lines, Fields, ContextOf;
    loaded := map[];
    var rest := text;
    while rest != ""
      invariant LoadLines(Lines(rest), loaded) == LoadContexts(text)
      decreases |rest|
    {
      NextLine(rest);
      var newline := Find(rest, "\n", 0);
      var line := if newline.Some? then rest[..newline.value] else rest;
      rest := if newline.Some? then rest[newline.value + 1..] else "";
      var fields := SplitFields(line);
      if |fields| == 9 && fields[0] != "" {
        var context := ContextOf(fields);
        loaded := loaded[context.devId := context];
      }
    }
    NoLines();
  }

  // ----- the file of printer names -----

  type Names = map<string, string>

  function LoadNameLine(line: string, loaded: Names): Names {
    match Find(line, "\t", 0)
    case None => loaded
    case Some(tab) =>
      if line[..tab] != "" && line[tab + 1..] != "" then loaded[line[..tab] := line[tab + 1..]] else loaded
  }

  function LoadNameLines(lines: seq<string>, loaded: Names): Names {
    if lines == [] then loaded else LoadNameLines(lines[1..], LoadNameLine(lines[0], loaded))
  }

  function LoadNames(text: string): Names {
    LoadNameLines(Lines(text), map[])
  }

  predicate NameKept(names: Names, key: string) {
    key in names && key != "" && names[key] != ""
  }

  function PersistNames(names: Names, order: seq<string>): string {
    if order == [] then ""
    else (if NameKept(names, order[0]) then order[0] + "\t" + names[order[0]] + "\n" else "") + PersistNames(names, order[1..])
  }

  function NamesKept(names: Names): Names {
    map k | k in names && NameKept(names, k) :: names[k]
  }

  /** No id holds a tab, and neither ids nor names hold a newline; a name may hold tabs. */
  predicate NormalNames(names: Names) {
    forall k | k in names :: k != "" && names[k] != "" && Bare(k) && '\n' !in names[k]
  }

  lemma NameEntry(names: Names, k: string)
    requires NormalNames(NamesKept(names)) && NameKept(names, k)
    ensures k in names && k != "" && names[k] != "" && Bare(k) && '\n' !in names[k]
  {
    assert NamesKept(names)[k] == names[k];
  }

  lemma NameLineLoads(k: string, name: string, loaded: Names)
    requires k != "" && name != "" && Bare(k)
    ensures LoadNameLine(k + "\t" + name, loaded) == loaded[k := name]
  {
    CutAt(k, '\t', name);
  }

  lemma {:induction false} LoadPersistedNames(names: Names, order: seq<string>, loaded: Names)
    requires NormalNames(NamesKept(names))
    ensures LoadNameLines(Lines(PersistNames(names, order)), loaded) == loaded + Written(NamesKept(names), order)
  {
    hide Lines, LoadNameLine, Written;
    if order == [] {
      NoLines();
      WrittenNone(NamesKept(names), loaded);
    } else {
      var k, rest := order[0], PersistNames(names, order[1..]);
      WrittenCons(NamesKept(names), order, loaded);
      if NameKept(names, k) {
        NameEntry(names, k);
        var line := k + "\t" + names[k];
        NameLineLoads(k, names[k], loaded);
        LinesCons(line, rest);
        assert ([line] + Lines(rest))[1..] == Lines(rest);
        LoadPersistedNames(names, order[1..], loaded[k := names[k]]);
      } else {
        assert "" + rest == rest;
        LoadPersistedNames(names, order[1..], loaded);
      }
    }
  }

  lemma NameLineNormal(line: string, loaded: Names)
    requires NormalNames(loaded) && '\n' !in line
    ensures NormalNames(LoadNameLine(line, loaded))
  {
    if Find(line, "\t", 0).Some? {
      FirstFound(line, '\t');
    }
  }

  lemma {:induction false} LoadNameLinesNormal(lines: seq<string>, loaded: Names)
    requires NormalNames(loaded) && forall line | line in lines :: '\n' !in line
    ensures NormalNames(LoadNameLines(lines, loaded))
  {
    hide LoadNameLine, NormalNames;
    if lines != [] {
      NameLineNormal(lines[0], loaded);
      LoadNameLinesNormal(lines[1..], LoadNameLine(lines[0], loaded));
    }
  }

  lemma LoadNamesNormal(text: string)
    ensures NormalNames(LoadNames(text))
  {
    LinesBare(text);
    LoadNameLinesNormal(Lines(text), map[]);
  }

  /** The same for printer names: what is kept comes back when and only when it is normal. */
  lemma PersistLoadNamesIff(names: Names, order: seq<string>)
    requires (set k | k in order) == names.Keys
    ensures NamesKept(names) == map k | k in names && k != "" && names[k] != "" :: names[k]
    ensures LoadNames(PersistNames(names, order)) == NamesKept(names) <==> NormalNames(NamesKept(names))
  {
    hide Lines, PersistNames, NormalNames;
    if NormalNames(NamesKept(names)) {
      LoadPersistedNames(names, order, map[]);
      assert forall k :: k in order <==> k in names;
    }
    LoadNamesNormal(PersistNames(names, order));
  }

  lemma LoadPersistLoadNames(text: string, order: seq<string>)
    requires (set k | k in order) == LoadNames(text).Keys
    ensures LoadNames(PersistNames(LoadNames(text), order)) == LoadNames(text)
  {
    hide LoadNames, PersistNames;
    LoadNamesNormal(text);
    assert NamesKept(LoadNames(text)) == LoadNames(text);
    PersistLoadNamesIff(LoadNames(text), order);
  }

  lemma {:induction false} LoadNameLinesSnoc(lines: seq<string>, line: string, loaded: Names)
    ensures LoadNameLines(lines + [line], loaded) == LoadNameLine(line, LoadNameLines(lines, loaded))
  {
    hide LoadNameLine;
    if lines == [] {
      assert lines + [line] == [line] && [line][1..] == [];
    } else {
      assert (lines + [line])[1..] == lines[1..] + [line];
      LoadNameLinesSnoc(lines[1..], line, LoadNameLine(lines[0], loaded));
    }
  }

  /** A line with an id, a tab and a name adds the name, replacing one read before; with either missing it adds nothing. */
  lemma NameLine(text: string, id: string, name: string)
    requires WholeLines(text) && Bare(id) && '\n' !in name
    ensures LoadNames(text + (id + "\t" + name + "\n")) ==
            if id != "" && name != "" then LoadNames(text)[id := name] else LoadNames(text)
    ensures LoadNames(text + (id + "\n")) == LoadNames(text)
  {
    hide Lines, Find;
    var line := id + "\t" + name;
    CutAt(id, '\t', name);
    AbsentFind(id, '\t');
    LinesSnoc(text, line);
    LinesSnoc(text, id);
    LoadNameLinesSnoc(Lines(text), line, map[]);
    LoadNameLinesSnoc(Lines(text), id, map[]);
  }

  /** What is written for one id. */
  lemma {:induction false} PersistNamesSnoc(names: Names, order: seq<string>, k: string)
    ensures PersistNames(names, order + [k]) ==
            PersistNames(names, order) + if k in names && k != "" && names[k] != "" then k + "\t" + names[k] + "\n" else ""
  {
    if order == [] {
      assert [k][1..] == [];
      assert [] + [k] == [k];
    } else {
      assert (order + [k])[1..] == order[1..] + [k];
      PersistNamesSnoc(names, order[1..], k);
    }
  }

  method PersistPrinterNameOverrides(names: Names, order: seq<string>) returns (out: string)
    requires (set k | k in order) == names.Keys
    ensures out == PersistNames(names, order)
  {
    out := "";
    for i := 0 to |order|
      invariant out == PersistNames(names, order[..i])
    {
      assert order[..i + 1] == order[..i] + [order[i]];
      PersistNamesSnoc(names, order[..i], order[i]);
      assert order[i] in (set k | k in order);
      if order[i] != "" && names[order[i]] != "" {
        out := out + order[i] + "\t" + names[order[i]] + "\n";
      }
    }
    assert order[..|order|] == order;
  }

  method LoadPrinterNameOverrides(text: string) returns (loaded: Names)
    ensures loaded == LoadNames(text)
  {
    hide Find, Lines;
    loaded := map[];
    var rest := text;
    while rest != ""
      invariant LoadNameLines(Lines(rest), loaded) == LoadNames(text)
      decreases |rest|
    {
      NextLine(rest);
      var newline := Find(rest, "\n", 0);
      var line := if newline.Some? then rest[..newline.value] else rest;
      rest := if newline.Some? then rest[newline.value + 1..] else "";
      var tab := Find(line, "\t", 0);
      if tab.Some? {
        var devId, name := line[..tab.value], line[tab.value + 1..];
        if devId != "" && name != "" {
          loaded := loaded[devId := name];
        }
      }
    }
    NoLines();
  }
}
