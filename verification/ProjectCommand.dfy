/** The command that starts a print, and what a JSON reader on the printer's side makes of it. */
module ProjectCommand {
  import opened Wrappers
  import opened Text
  import opened Decimal
  import opened Json
  import opened JsonReader
  import opened JsonStrings
  import opened JsonTokens
  import opened JsonCuts
  import opened Escape
  import opened RemoteNames

  datatype PrintParams = PrintParams(
    names: NameParams,
    plateIndex: int,
    timelapse: bool,
    bedLeveling: bool,
    flowCali: bool,
    vibrationCali: bool,
    layerInspect: bool,
    useAms: bool,
    amsMapping: string,
    amsMapping2: string,
    amsMappingInfo: string)

  function TrimFront(s: string): string {
    if s != "" && IsSpace(s[0]) then TrimFront(s[1..]) else s
  }

  function TrimBack(s: string): string {
    if s != "" && IsSpace(s[|s| - 1]) then TrimBack(s[..|s| - 1]) else s
  }

  function Trim(s: string): string {
    TrimBack(TrimFront(s))
  }

  method TrimAscii(value: string) returns (r: string)
    ensures r == Trim(value)
  {
    r := value;
    while r != "" && IsSpace(r[0])
      invariant TrimFront(r) == TrimFront(value)
      decreases |r|
    {
      r := r[1..];
    }
    while r != "" && IsSpace(r[|r| - 1])
      invariant TrimBack(r) == Trim(value)
      decreases |r|
    {
      r := r[..|r| - 1];
    }
  }

  predicate LooksLikeJsonValue(value: string) {
    var trimmed := Trim(value);
    trimmed != "" && (trimmed[0] in "[{\"-" || IsDigit(trimmed[0]) || trimmed in ["true", "false", "null"])
  }

  function StripPackageSuffixes(value: string): string {
    if EndsWithIgnoreCase(value, ".gcode.3mf") then value[..|value| - 10]
    else if EndsWithIgnoreCase(value, ".3mf") then value[..|value| - 4]
    else if EndsWithIgnoreCase(value, ".gcode") then value[..|value| - 6]
    else value
  }

  function DisplayName(names: NameParams, remoteFilename: string): string {
    if Trim(names.projectName) != "" then names.projectName
    else if Trim(names.taskName) != "" then names.taskName
    else if Trim(names.dstFile) != "" then StripPackageSuffixes(Basename(names.dstFile))
    else if Trim(names.ftpFile) != "" then StripPackageSuffixes(Basename(names.ftpFile))
    else if Trim(names.filename) != "" then StripPackageSuffixes(Basename(names.filename))
    else StripPackageSuffixes(remoteFilename)
  }

  function PlateNumber(params: PrintParams): nat {
    if params.plateIndex > 0 then params.plateIndex - 1 else 0
  }

  function Flag(b: bool): string {
    if b then "true" else "false"
  }

  // ----- the command as a list of fields -----

  /** One member of the command: its key, its text, and the value a reader should get. */
  datatype Field = Field(key: string, text: string, val: Json)

  function StringField(key: string, value: string): Field {
    Field(key, Quote(JsonEscape(value)), Str(JsonEscape(value)))
  }

  function AtomField(key: string, tok: string): Field {
    Field(key, tok, Atom(tok))
  }

  /** An AMS setting is left out, embedded as it is, or written as a string. */
  function AmsField(key: string, value: string): seq<Field> {
    var trimmed := Trim(value);
    if trimmed == "" then []
    else if LooksLikeJsonValue(value) then
      [Field(key, trimmed, if ReadValue(trimmed).Some? then ReadValue(trimmed).value.0 else Atom(""))]
    else [StringField(key, trimmed)]
  }

  function NameFields(params: PrintParams, remoteFilename: string, platePath: string): seq<Field> {
    [AtomField("sequence_id", "0"),
     StringField("command", "project_file"),
     StringField("param", platePath),
     StringField("subtask_name", DisplayName(params.names, remoteFilename)),
     StringField("url", "ftp://" + remoteFilename)]
  }

  function OptionFields(params: PrintParams): seq<Field> {
    [AtomField("plate_idx", ToDecimal(PlateNumber(params))),
     AtomField("timelapse", Flag(params.timelapse)),
     AtomField("bed_leveling", Flag(params.bedLeveling)),
     AtomField("flow_cali", Flag(params.flowCali)),
     AtomField("vibration_cali", Flag(params.vibrationCali)),
     AtomField("layer_inspect", Flag(params.layerInspect)),
     AtomField("use_ams", Flag(params.useAms))]
  }

  function AmsFields(params: PrintParams): seq<Field> {
    AmsField("ams_mapping", params.amsMapping) +
    AmsField("ams_mapping2", params.amsMapping2) +
    AmsField("ams_mapping_info", params.amsMappingInfo)
  }

  function CommandFields(params: PrintParams, remoteFilename: string, platePath: string): seq<Field> {
    NameFields(params, remoteFilename, platePath) + OptionFields(params) + AmsFields(params)
  }

  function Members(fields: seq<Field>): (ms: seq<Member>)
    ensures |ms| == |fields| && forall i | 0 <= i < |ms| :: ms[i] == Member(fields[i].key, fields[i].val)
  {
    seq(|fields|, i requires 0 <= i < |fields| => Member(fields[i].key, fields[i].val))
  }

  function Texts(fields: seq<Field>): (texts: seq<string>)
    ensures |texts| == |fields| && forall i | 0 <= i < |texts| :: texts[i] == fields[i].text
  {
    seq(|fields|, i requires 0 <= i < |fields| => fields[i].text)
  }

  function FieldTexts(fields: seq<Field>): (texts: seq<string>)
    ensures |texts| == |fields|
    ensures forall i | 0 <= i < |texts| :: texts[i] == MemberText(fields[i].key, fields[i].text)
  {
    seq(|fields|, i requires 0 <= i < |fields| => MemberText(fields[i].key, fields[i].text))
  }

  function CommandText(params: PrintParams, remoteFilename: string, platePath: string): string {
    "{\"print\":{" + Join(FieldTexts(CommandFields(params, remoteFilename, platePath))) + "}}"
  }

  /** The tree the command denotes. */
  function CommandTree(params: PrintParams, remoteFilename: string, platePath: string): Json {
    Obj([Member("print", Obj(Members(CommandFields(params, remoteFilename, platePath))))])
  }

  // ----- building the text -----

  /** Appending a member after a comma extends the joined list. */
  lemma JoinSnoc(texts: seq<string>, t: string)
    requires texts != []
    ensures Join(texts + [t]) == Join(texts) + "," + t
  {
    JoinAround(texts, t, []);
    assert texts + [t] + [] == texts + [t];
  }

  lemma FieldTextsSnoc(fields: seq<Field>, f: Field)
    requires fields != []
    ensures Join(FieldTexts(fields + [f])) == Join(FieldTexts(fields)) + "," + MemberText(f.key, f.text)
  {
    hide Join;
    JoinSnoc(FieldTexts(fields), MemberText(f.key, f.text));
    assert FieldTexts(fields + [f]) == FieldTexts(fields) + [MemberText(f.key, f.text)];
  }

  lemma AppendText(front: string, body: string, key: string, text: string)
    ensures front + body + (",\"" + key + "\":") + text == front + (body + "," + MemberText(key, text))
  {
  }

  method AppendJsonField(json: string, ghost fields: seq<Field>, key: string, value: string) returns (r: string)
    requires fields != [] && json == "{\"print\":{" + Join(FieldTexts(fields))
    ensures r == "{\"print\":{" + Join(FieldTexts(fields + AmsField(key, value)))
  {
    hide Join, FieldTexts, MemberText, LooksLikeJsonValue, Trim, JsonEscape;
    var trimmed := TrimAscii(value);
    if trimmed == "" {
      assert fields + [] == fields;
      return json;
    }
    var text := trimmed;
    if !LooksLikeJsonValue(value) {
      var escaped := EscapeText(trimmed);
      text := "\"" + escaped + "\"";
    }
    r := json + (",\"" + key + "\":") + text;
    ghost var f := AmsField(key, value)[0];
    FieldTextsSnoc(fields, f);
    assert AmsField(key, value) == [f] && f.key == key && f.text == text;
    AppendText("{\"print\":{", Join(FieldTexts(fields)), key, text);
  }

  /** `json += ...` for the member `fields[i]`. */
  method AppendMember(json: string, ghost fields: seq<Field>, ghost i: nat, key: string, text: string)
    returns (r: string)
    requires 0 < i < |fields| && json == "{\"print\":{" + Join(FieldTexts(fields[..i]))
    requires fields[i].key == key && fields[i].text == text
    ensures r == "{\"print\":{" + Join(FieldTexts(fields[..i + 1]))
  {
    hide Join, FieldTexts, MemberText;
    r := json + (",\"" + key + "\":") + text;
    FieldTextsSnoc(fields[..i], fields[i]);
    assert fields[..i] + [fields[i]] == fields[..i + 1];
    AppendText("{\"print\":{", Join(FieldTexts(fields[..i])), key, text);
  }

  lemma FirstField(fields: seq<Field>)
    requires fields != [] && fields[0] == AtomField("sequence_id", "0")
    ensures "{\"print\":{\"sequence_id\":0" == "{\"print\":{" + Join(FieldTexts(fields[..1]))
  {
    var t := MemberText("sequence_id", "0");
    assert FieldTexts(fields[..1]) == [t];
    assert [t][1..] == [];
    assert Join([t]) == t;
  }

  lemma PlainEscapes(remoteFilename: string)
    ensures JsonEscape("project_file") == "project_file"
    ensures JsonEscape("ftp://" + remoteFilename) == "ftp://" + JsonEscape(remoteFilename)
  {
    hide JsonEscape;
    EscapePlain("project_file");
    EscapePlain("ftp://");
    EscapeConcat("ftp://", remoteFilename);
  }

  method AppendNames(params: PrintParams, remoteFilename: string, platePath: string, ghost fields: seq<Field>)
    returns (json: string)
    requires fields == NameFields(params, remoteFilename, platePath) + OptionFields(params)
    ensures json == "{\"print\":{" + Join(FieldTexts(fields[..5]))
  {
    hide Join, FieldTexts, MemberText, DisplayName, JsonEscape, ToDecimal, Flag, OptionFields;
    var displayName := DisplayName(params.names, remoteFilename);
    var plate := EscapeText(platePath);
    var display := EscapeText(displayName);
    var remote := EscapeText(remoteFilename);
    PlainEscapes(remoteFilename);
    FirstField(fields);
    json := "{\"print\":{\"sequence_id\":0";
    json := AppendMember(json, fields, 1, "command", "\"project_file\"");
    json := AppendMember(json, fields, 2, "param", "\"" + plate + "\"");
    json := AppendMember(json, fields, 3, "subtask_name", "\"" + display + "\"");
    var url := "ftp://" + remote;
    json := AppendMember(json, fields, 4, "url", "\"" + url + "\"");
  }

  method AppendOptions(json: string, params: PrintParams, ghost names: seq<Field>) returns (r: string)
    requires |names| == 5 && json == "{\"print\":{" + Join(FieldTexts((names + OptionFields(params))[..5]))
    ensures r == "{\"print\":{" + Join(FieldTexts(names + OptionFields(params)))
  {
    hide Join, FieldTexts, MemberText, ToDecimal, Flag;
    ghost var fields := names + OptionFields(params);
    r := AppendMember(json, fields, 5, "plate_idx", ToDecimal(PlateNumber(params)));
    r := AppendMember(r, fields, 6, "timelapse", Flag(params.timelapse));
    r := AppendMember(r, fields, 7, "bed_leveling", Flag(params.bedLeveling));
    r := AppendMember(r, fields, 8, "flow_cali", Flag(params.flowCali));
    r := AppendMember(r, fields, 9, "vibration_cali", Flag(params.vibrationCali));
    r := AppendMember(r, fields, 10, "layer_inspect", Flag(params.layerInspect));
    r := AppendMember(r, fields, 11, "use_ams", Flag(params.useAms));
    assert fields[..12] == fields;
  }

  method BuildProjectFileCommand(params: PrintParams, remoteFilename: string, platePath: string)
    returns (json: string)
    ensures json == CommandText(params, remoteFilename, platePath)
  {
    hide Join, FieldTexts, AmsField, NameFields, OptionFields;
    NameCount(params, remoteFilename, platePath);
    ghost var names := NameFields(params, remoteFilename, platePath);
    ghost var fields := names + OptionFields(params);
    json := AppendNames(params, remoteFilename, platePath, fields);
    json := AppendOptions(json, params, names);
    ghost var a, b, c := AmsField("ams_mapping", params.amsMapping), AmsField("ams_mapping2", params.amsMapping2),
                         AmsField("ams_mapping_info", params.amsMappingInfo);
    json := AppendJsonField(json, fields, "ams_mapping", params.amsMapping);
    json := AppendJsonField(json, fields + a, "ams_mapping2", params.amsMapping2);
    json := AppendJsonField(json, fields + a + b, "ams_mapping_info", params.amsMappingInfo);
    assert fields + a + b + c == CommandFields(params, remoteFilename, platePath);
    json := json + "}}";
  }

  lemma NameCount(params: PrintParams, remoteFilename: string, platePath: string)
    ensures |NameFields(params, remoteFilename, platePath)| == 5
  {
  }

  // ----- reading the command back -----

  predicate FieldReads(f: Field) {
    ReadsAs(f.text, f.val) && ValidBody(f.key)
  }

  lemma {:induction false} FieldItemTexts(fields: seq<Field>)
    ensures ItemTexts(Members(fields), Texts(fields), true) == FieldTexts(fields)
  {
    if fields != [] {
      FieldItemTexts(fields[1..]);
      assert Members(fields)[1..] == Members(fields[1..]);
      assert Texts(fields)[1..] == Texts(fields[1..]);
      assert FieldTexts(fields)[1..] == FieldTexts(fields[1..]);
      assert FieldTexts(fields) == [FieldTexts(fields)[0]] + FieldTexts(fields)[1..];
    }
  }

  /** When every field reads well, the command reads as the tree of its fields. */
  lemma FieldsRead(fields: seq<Field>)
    requires forall f | f in fields :: FieldReads(f)
    ensures ReadsAs("{\"print\":{" + Join(FieldTexts(fields)) + "}}", Obj([Member("print", Obj(Members(fields)))]))
  {
    hide Join, FieldTexts, ReadsAs, ValidBody, ItemTexts;
    assert forall i | 0 <= i < |fields| :: FieldReads(fields[i]);
    FieldItemTexts(fields);
    var inner := "{" + Join(FieldTexts(fields)) + "}";
    ObjectReads(Members(fields), Texts(fields));
    KeyValid("print");
    assert ReadsAs(inner, Obj(Members(fields)));
    ObjectReads([Member("print", Obj(Members(fields)))], [inner]);
    OneItem("print", Obj(Members(fields)), inner);
    assert "{\"print\":{" + Join(FieldTexts(fields)) + "}}" == "{" + MemberText("print", inner) + "}";
  }

  lemma OneItem(key: string, val: Json, text: string)
    ensures Join(ItemTexts([Member(key, val)], [text], true)) == MemberText(key, text)
  {
    var m := Member(key, val);
    assert [m][1..] == [];
    assert ItemTexts([m], [text], true) == [MemberText(key, text)];
    assert [MemberText(key, text)][1..] == [];
  }

  lemma FlagReads(b: bool)
    ensures ReadsAs(Flag(b), Atom(Flag(b)))
  {
    TokenAll(Flag(b));
    AtomReads(Flag(b));
  }

  lemma StringFieldReads(key: string, value: string)
    requires ValidBody(key) && Printable(value)
    ensures FieldReads(StringField(key, value))
  {
    EscapedValid(value);
    StringReads(JsonEscape(value));
  }

  /** The AMS setting is blank, or JSON when it looks like JSON, or else a printable text. */
  predicate AmsReadable(value: string) {
    var trimmed := Trim(value);
    trimmed == "" ||
    (if LooksLikeJsonValue(value) then ReadValue(trimmed).Some? && ReadValue(trimmed).value.1 == "" else Printable(trimmed))
  }

  lemma AmsFieldReads(key: string, value: string)
    requires ValidBody(key) && AmsReadable(value)
    ensures forall f | f in AmsField(key, value) :: FieldReads(f)
  {
    hide ValidBody, ReadValue, LooksLikeJsonValue, Trim;
    var trimmed := Trim(value);
    if trimmed != "" && !LooksLikeJsonValue(value) {
      StringFieldReads(key, trimmed);
    }
  }

  lemma NameKeysValid()
    ensures ValidBody("sequence_id") && ValidBody("command") && ValidBody("param") && ValidBody("subtask_name") && ValidBody("url")
  {
    hide ValidBody;
    KeyValid("sequence_id");
    KeyValid("command");
    KeyValid("param");
    KeyValid("subtask_name");
    KeyValid("url");
  }

  lemma OptionKeysValid()
    ensures ValidBody("plate_idx") && ValidBody("timelapse") && ValidBody("bed_leveling") && ValidBody("flow_cali")
    ensures ValidBody("vibration_cali") && ValidBody("layer_inspect") && ValidBody("use_ams")
  {
    hide ValidBody;
    KeyValid("plate_idx");
    KeyValid("timelapse");
    KeyValid("bed_leveling");
    KeyValid("flow_cali");
    KeyValid("vibration_cali");
    KeyValid("layer_inspect");
    KeyValid("use_ams");
  }

  lemma AmsKeysValid()
    ensures ValidBody("ams_mapping") && ValidBody("ams_mapping2") && ValidBody("ams_mapping_info")
  {
    hide ValidBody;
    KeyValid("ams_mapping");
    KeyValid("ams_mapping2");
    KeyValid("ams_mapping_info");
  }

  lemma OptionsRead(params: PrintParams)
    ensures forall f | f in OptionFields(params) :: FieldReads(f)
  {
    hide ValidBody, ReadsAs, ToDecimal, Flag;
    OptionKeysValid();
    NumberReads(PlateNumber(params));
    FlagReads(params.timelapse);
    FlagReads(params.bedLeveling);
    FlagReads(params.flowCali);
    FlagReads(params.vibrationCali);
    FlagReads(params.layerInspect);
    FlagReads(params.useAms);
  }

  predicate NamesPrintable(params: PrintParams, remoteFilename: string, platePath: string) {
    Printable(platePath) && Printable(DisplayName(params.names, remoteFilename)) && Printable(remoteFilename)
  }

  predicate AmsAllReadable(params: PrintParams) {
    AmsReadable(params.amsMapping) && AmsReadable(params.amsMapping2) && AmsReadable(params.amsMappingInfo)
  }

  lemma ZeroReads()
    ensures ReadsAs("0", Atom("0"))
  {
    assert ToDecimal(0) == "0";
    NumberReads(0);
  }

  lemma NamesRead(params: PrintParams, remoteFilename: string, platePath: string)
    requires NamesPrintable(params, remoteFilename, platePath)
    ensures forall f | f in NameFields(params, remoteFilename, platePath) :: FieldReads(f)
  {
    hide ValidBody, ReadsAs, DisplayName, StringField;
    NameKeysValid();
    ZeroReads();
    assert Printable("project_file") && Printable("ftp://" + remoteFilename);
    StringFieldReads("command", "project_file");
    StringFieldReads("param", platePath);
    StringFieldReads("subtask_name", DisplayName(params.names, remoteFilename));
    StringFieldReads("url", "ftp://" + remoteFilename);
  }

  lemma AmsRead(params: PrintParams)
    requires AmsAllReadable(params)
    ensures forall f | f in AmsFields(params) :: FieldReads(f)
  {
    hide ValidBody, FieldReads, AmsField, AmsReadable;
    AmsKeysValid();
    AmsFieldReads("ams_mapping", params.amsMapping);
    AmsFieldReads("ams_mapping2", params.amsMapping2);
    AmsFieldReads("ams_mapping_info", params.amsMappingInfo);
  }

  lemma CommandReads(params: PrintParams, remoteFilename: string, platePath: string)
    requires NamesPrintable(params, remoteFilename, platePath) && AmsAllReadable(params)
    ensures ReadsAs(CommandText(params, remoteFilename, platePath), CommandTree(params, remoteFilename, platePath))
  {
    hide ReadsAs, FieldReads, AmsFields, OptionFields, NameFields, DisplayName, JsonEscape, AmsAllReadable;
    NamesRead(params, remoteFilename, platePath);
    OptionsRead(params);
    AmsRead(params);
    FieldsRead(CommandFields(params, remoteFilename, platePath));
  }

  // ----- when the command does not read -----

  /** The reader stops at the first such member, however good the ones before it are. */
  lemma BrokenList(before: seq<Field>, key: string, value: string, x: string)
    requires (forall f | f in before :: FieldReads(f)) && ValidBody(key) && !Printable(value)
    ensures ReadList(Lead(FieldTexts(before)) + MemberText(key, Quote(JsonEscape(value))) + x, true) == None
  {
    BrokenItem(key, value, x);
    assert ReadList(MemberText(key, Quote(JsonEscape(value))) + x, true) == None;
    hide ReadItem, ReadList, ValidBody, JsonEscape, MemberText, ReadsAs, FieldTexts, ItemTexts, Lead;
    assert forall i | 0 <= i < |before| :: FieldReads(before[i]);
    FieldItemTexts(before);
    var broken := MemberText(key, Quote(JsonEscape(value)));
    SkipItems(Members(before), Texts(before), true, broken + x);
    Associates(Lead(FieldTexts(before)), broken, x);
  }

  lemma ItemTextOf(f: Field)
    ensures FieldTexts([f]) == [MemberText(f.key, f.text)]
    ensures ItemText(Member(f.key, f.val), f.text, true) == MemberText(f.key, f.text)
  {
  }

  lemma FieldTextsConcat(a: seq<Field>, b: seq<Field>)
    ensures FieldTexts(a + b) == FieldTexts(a) + FieldTexts(b)
  {
    hide MemberText;
    var l, r := FieldTexts(a + b), FieldTexts(a) + FieldTexts(b);
    assert forall i | 0 <= i < |l| :: l[i] == r[i];
    assert l == r;
  }

  /** One bad string anywhere makes the whole command unreadable. */
  lemma BrokenCommand(before: seq<Field>, key: string, value: string, after: seq<Field>)
    requires (forall f | f in before :: FieldReads(f)) && ValidBody(key) && !Printable(value)
    ensures ReadValue("{\"print\":{" + Join(FieldTexts(before + [StringField(key, value)] + after)) + "}}") == None
  {
    hide Join, Lead, FieldTexts, ReadList, ReadValue, JsonEscape, MemberText, ValidBody, FieldReads;
    var f := StringField(key, value);
    FieldTextsConcat(before, [f]);
    FieldTextsConcat(before + [f], after);
    ItemTextOf(f);
    JoinAround(FieldTexts(before), MemberText(key, f.text), FieldTexts(after));
    var body := Join(FieldTexts(before + [f] + after));
    BrokenList(before, key, value, Rest(FieldTexts(after)) + "}}");
    assert body + "}}" == Lead(FieldTexts(before)) + MemberText(key, f.text) + (Rest(FieldTexts(after)) + "}}");
    JoinedMembersStart(Members(before + [f] + after), Texts(before + [f] + after));
    FieldItemTexts(before + [f] + after);
    UnreadObject(body + "}}");
    assert "{\"print\":{" + body + "}}" == "{\"print\":{" + (body + "}}");
  }

  /** Unprintable names make the whole command unreadable, whatever the AMS settings are. */
  lemma UnprintableUnread(params: PrintParams, remoteFilename: string, platePath: string)
    requires !NamesPrintable(params, remoteFilename, platePath)
    ensures ReadValue(CommandText(params, remoteFilename, platePath)) == None
  {
    hide ReadValue, FieldReads, OptionFields, AmsFields, DisplayName, Join, FieldTexts, Printable, ValidBody,
      JsonEscape;
    var display := DisplayName(params.names, remoteFilename);
    var names, tail := NameFields(params, remoteFilename, platePath), OptionFields(params) + AmsFields(params);
    var all := CommandFields(params, remoteFilename, platePath);
    assert all == names + tail;
    NameKeysValid();
    OpeningReads();
    if !Printable(platePath) {
      assert all == names[..2] + [StringField("param", platePath)] + (names[3..] + tail);
      BrokenCommand(names[..2], "param", platePath, names[3..] + tail);
    } else if !Printable(display) {
      StringFieldReads("param", platePath);
      assert all == names[..3] + [StringField("subtask_name", display)] + (names[4..] + tail);
      BrokenCommand(names[..3], "subtask_name", display, names[4..] + tail);
    } else {
      StringFieldReads("param", platePath);
      StringFieldReads("subtask_name", display);
      PrintableUrl(remoteFilename);
      assert all == names[..4] + [StringField("url", "ftp://" + remoteFilename)] + tail;
      BrokenCommand(names[..4], "url", "ftp://" + remoteFilename, tail);
    }
  }

  lemma OpeningReads()
    ensures FieldReads(AtomField("sequence_id", "0")) && FieldReads(StringField("command", "project_file"))
  {
    hide ReadsAs, StringField, ValidBody;
    NameKeysValid();
    ZeroReads();
    assert Printable("project_file");
    StringFieldReads("command", "project_file");
  }

  lemma PrintableUrl(remoteFilename: string)
    requires !Printable(remoteFilename)
    ensures !Printable("ftp://" + remoteFilename)
  {
    var i :| 0 <= i < |remoteFilename| && !(' ' <= remoteFilename[i] || remoteFilename[i] in "\n\r\t");
    assert ("ftp://" + remoteFilename)[6 + i] == remoteFilename[i];
  }

  // ----- AMS settings that are not the JSON they look like -----

  /** The key is legal and a letter starts it, and the text starts with the value. */
  predicate FieldStarts(f: Field) {
    && ValidBody(f.key) && f.key != "" && IsTokenChar(f.key[0])
    && ReadValue(f.text).Some? && ReadValue(f.text).value.0 == f.val
  }

  /** What the text of a field holds after the value. */
  function Left(f: Field): string
    requires FieldStarts(f)
  {
    ReadValue(f.text).value.1
  }

  function Following(fields: seq<Field>): string {
    Rest(FieldTexts(fields)) + "}}"
  }

  lemma FollowingCons(fields: seq<Field>)
    requires fields != []
    ensures Following(fields) == "," + MemberText(fields[0].key, fields[0].text + Following(fields[1..]))
  {
    var texts, rest := FieldTexts(fields), FieldTexts(fields[1..]);
    assert texts[0] == MemberText(fields[0].key, fields[0].text) && texts[1..] == rest;
    assert Rest(texts) == "," + (texts[0] + Rest(rest));
  }

  lemma FollowingSeparates(fields: seq<Field>)
    requires forall f | f in fields :: FieldStarts(f)
    ensures Separates(Following(fields))
  {
    hide ReadValue, ValidBody, FieldTexts;
    if fields == [] {
      assert FieldTexts(fields) == [];
      assert "" + "}}" == "}}";
    } else {
      FollowingCons(fields);
      hide Following;
      var key := fields[0].key;
      assert FieldStarts(fields[0]);
      assert Following(fields)[2] == key[0];
    }
  }

  /** A field's tokens are those of its value, those left over, and those of the text after it. */
  lemma ValueLexed(f: Field, x: string)
    requires FieldStarts(f) && Separates(x) && Lex(f.text + x).Some?
    ensures Lex(Left(f)).Some? && Lex(x).Some?
    ensures |Lex(f.text + x).value| == |TreeTokens(f.val)| + |Lex(Left(f)).value| + |Lex(x).value|
  {
    SeparatorDelimits(x);
    hide ReadValue, Lex, TreeTokens, Separates, ValidBody;
    ExtendValue(f.text, x);
    ReadTokens(f.text + x);
    LexCross(Left(f), x);
  }

  /** The fields need at least the tokens of their values; with just those, nothing is left over in any. */
  lemma {:induction false} FollowingLexed(fields: seq<Field>)
    requires (forall f | f in fields :: FieldStarts(f)) && Lex(Following(fields)).Some?
    ensures 1 + |RestTokens(Members(fields), true)| <= |Lex(Following(fields)).value|
    ensures |Lex(Following(fields)).value| == 1 + |RestTokens(Members(fields), true)| ==>
              forall f | f in fields :: Lex(Left(f)) == Some([])
  {
    hide Lex, FieldStarts, TreeTokens, Left, Following, MemberText;
    if fields == [] {
      NoFieldTokens();
    } else {
      var f, rest := fields[0], fields[1..];
      FollowingCons(fields);
      FollowingSeparates(rest);
      var text := MemberText(f.key, f.text + Following(rest));
      LexPunct("," + text);
      assert ("," + text)[1..] == text;
      StartsWithKey(f);
      MemberLexed(f.key, f.text + Following(rest));
      ValueLexed(f, Following(rest));
      FollowingLexed(rest);
      RestLength(fields);
    }
  }

  lemma RestLength(fields: seq<Field>)
    requires fields != []
    ensures |RestTokens(Members(fields), true)| == 3 + |TreeTokens(fields[0].val)| + |RestTokens(Members(fields[1..]), true)|
  {
    assert Members(fields)[1..] == Members(fields[1..]);
    assert Members(fields)[0] == Member(fields[0].key, fields[0].val);
  }

  lemma StartsWithKey(f: Field)
    requires FieldStarts(f)
    ensures ValidBody(f.key)
  {
  }

  lemma NoFieldTokens()
    ensures Lex(Following([])).Some? && |Lex(Following([])).value| == 2 && |RestTokens(Members([]), true)| == 1
  {
    assert FieldTexts([]) == [];
    assert Following([]) == "}}" && "}}"[1..] == "}" && "}"[1..] == "";
    LexPunct("}}");
    LexPunct("}");
  }

  lemma ObjectLexed(key: string, rest: string)
    requires ValidBody(key)
    ensures Lex("{" + MemberText(key, rest)) == Cat([Punct('{'), Quoted(key), Punct(':')], Lex(rest))
  {
    hide Lex, ValidBody;
    var text := MemberText(key, rest);
    LexPunct("{" + text);
    assert ("{" + text)[1..] == text;
    MemberLexed(key, rest);
    CatTwice([Punct('{')], [Quoted(key), Punct(':')], Lex(rest));
    assert [Punct('{')] + [Quoted(key), Punct(':')] == [Punct('{'), Quoted(key), Punct(':')];
  }

  lemma CommandShape(fields: seq<Field>)
    requires fields != []
    ensures "{\"print\":{" + Join(FieldTexts(fields)) + "}}" ==
            "{" + MemberText("print", "{" + MemberText(fields[0].key, fields[0].text + Following(fields[1..])))
  {
    var texts, rest := FieldTexts(fields), FieldTexts(fields[1..]);
    assert texts[0] == MemberText(fields[0].key, fields[0].text) && texts[1..] == rest;
    assert Join(texts) == texts[0] + Rest(rest);
    PrintOpening(MemberText(fields[0].key, fields[0].text + Following(fields[1..])));
    hide Rest, Join, FieldTexts;
    assert Join(texts) + "}}" == MemberText(fields[0].key, fields[0].text + Following(fields[1..]));
    assert "{\"print\":{" + Join(texts) + "}}" == "{\"print\":{" + (Join(texts) + "}}");
  }

  lemma TreeLength(fields: seq<Field>)
    requires fields != []
    ensures |TreeTokens(Obj([Member("print", Obj(Members(fields)))]))| ==
            7 + |TreeTokens(fields[0].val)| + |RestTokens(Members(fields[1..]), true)|
  {
    var ms := Members(fields);
    assert ms[1..] == Members(fields[1..]) && ms[0] == Member(fields[0].key, fields[0].val);
    assert TreeTokens(Obj(ms)) == [Punct('{')] + ItemsTokens(ms, true);
    hide ItemsTokens;
    OneLength(Member("print", Obj(ms)));
    ItemsLength(ms);
  }

  lemma ItemsLength(ms: seq<Member>)
    requires ms != []
    ensures |ItemsTokens(ms, true)| == 2 + |TreeTokens(ms[0].val)| + |RestTokens(ms[1..], true)|
  {
  }

  lemma OneLength(m: Member)
    ensures |TreeTokens(Obj([m]))| == 4 + |TreeTokens(m.val)|
  {
    assert [m][1..] == [];
    ItemsLength([m]);
    hide ItemsTokens;
  }

  /** A command that reads as its tree leaves nothing over in any field. */
  lemma NothingLeft(fields: seq<Field>)
    requires fields != [] && forall f | f in fields :: FieldStarts(f)
    requires ReadsAs("{\"print\":{" + Join(FieldTexts(fields)) + "}}", Obj([Member("print", Obj(Members(fields)))]))
    ensures forall f | f in fields :: Lex(Left(f)) == Some([])
  {
    hide ReadValue, Lex, FieldStarts, TreeTokens, Left, Following, MemberText, Join, FieldTexts, RestTokens, Separates,
      ValidBody;
    var f, rest := fields[0], fields[1..];
    var text := "{\"print\":{" + Join(FieldTexts(fields)) + "}}";
    ReadTokens(text);
    NoText();
    TreeLength(fields);
    CommandShape(fields);
    KeyValid("print");
    StartsWithKey(f);
    ObjectLexed("print", "{" + MemberText(f.key, f.text + Following(rest)));
    ObjectLexed(f.key, f.text + Following(rest));
    FollowingSeparates(rest);
    ValueLexed(f, Following(rest));
    FollowingLexed(rest);
    assert |Lex(text).value| == 6 + |Lex(f.text + Following(rest)).value|;
    assert |Lex(Left(f)).value| == 0;
  }

  lemma ReadsStarts(f: Field)
    requires FieldReads(f) && f.key != "" && IsTokenChar(f.key[0])
    ensures FieldStarts(f)
  {
  }

  /** Only a legal tree can be what a reader gets, so each AMS value is one. */
  lemma TreeLegal(text: string, fields: seq<Field>)
    requires ReadsAs(text, Obj([Member("print", Obj(Members(fields)))]))
    ensures forall f | f in fields :: WellFormed(f.val)
  {
    ReadSound(text);
    hide ReadsAs, ValidBody;
    var inner := Member("print", Obj(Members(fields)));
    assert inner in [inner];
    assert WellFormed(inner.val);
    forall f | f in fields ensures WellFormed(f.val) {
      var i :| 0 <= i < |fields| && fields[i] == f;
      assert Members(fields)[i] in Members(fields);
    }
  }

  lemma NoAtom()
    ensures !WellFormed(Atom(""))
  {
    assert DigitRun("") == 0;
  }

  /** An AMS field with a legal value starts with it. */
  lemma AmsStarts(key: string, value: string)
    requires ValidBody(key) && key != "" && IsTokenChar(key[0])
    requires forall f | f in AmsField(key, value) :: WellFormed(f.val)
    ensures forall f | f in AmsField(key, value) :: FieldStarts(f)
  {
    var trimmed := Trim(value);
    if trimmed != "" {
      assert AmsField(key, value)[0] in AmsField(key, value);
      if LooksLikeJsonValue(value) {
        NoAtom();
      } else {
        hide ValidBody, ReadValue, LooksLikeJsonValue, Trim, JsonEscape;
        assert ValidBody(JsonEscape(trimmed));
        StringReads(JsonEscape(trimmed));
      }
    }
  }

  lemma {:induction false} TrimBackEnds(s: string)
    ensures TrimBack(s) != "" ==> !IsSpace(TrimBack(s)[|TrimBack(s)| - 1])
  {
    if s != "" && IsSpace(s[|s| - 1]) {
      TrimBackEnds(s[..|s| - 1]);
    }
  }

  lemma SameLast(s: string, tail: string)
    requires EndsWith(s, tail) && tail != ""
    ensures tail[|tail| - 1] == s[|s| - 1]
  {
  }

  /** With no token left over, the whole setting was read, since it does not end in a blank. */
  lemma AmsWhole(key: string, value: string)
    requires forall f | f in AmsField(key, value) :: FieldStarts(f) && Lex(Left(f)) == Some([])
    requires !LooksLikeJsonValue(value) ==> Trim(value) == "" || Printable(Trim(value))
    ensures AmsReadable(value)
  {
    hide ReadValue, LooksLikeJsonValue, Lex, TrimBack, ValidBody;
    var trimmed := Trim(value);
    if trimmed != "" && LooksLikeJsonValue(value) {
      var f := AmsField(key, value)[0];
      assert f in AmsField(key, value);
      var left := Left(f);
      ReadSound(trimmed);
      OnlyBlanks(left);
      TrimBackEnds(TrimFront(value));
      if left != "" {
        SameLast(trimmed, left);
      }
    }
  }

  lemma AmsSettled(key: string, value: string)
    requires ValidBody(key) && key != "" && IsTokenChar(key[0])
    requires forall f | f in AmsField(key, value) :: WellFormed(f.val)
    requires forall f | f in AmsField(key, value) :: FieldStarts(f) ==> Lex(Left(f)) == Some([])
    ensures AmsReadable(value)
  {
    hide FieldStarts, Left, Lex, AmsReadable, LooksLikeJsonValue, Trim, ReadValue, WellFormed;
    AmsStarts(key, value);
    AmsPrintable(key, value);
    AmsWhole(key, value);
  }

  lemma AmsPrintable(key: string, value: string)
    requires forall f | f in AmsField(key, value) :: WellFormed(f.val)
    ensures !LooksLikeJsonValue(value) ==> Trim(value) == "" || Printable(Trim(value))
  {
    hide LooksLikeJsonValue, ValidBody, JsonEscape, Trim, ReadValue;
    if Trim(value) != "" && !LooksLikeJsonValue(value) {
      assert AmsField(key, value)[0] in AmsField(key, value);
      EscapedValid(Trim(value));
    }
  }

  lemma AmsKeys()
    ensures forall key | key in ["ams_mapping", "ams_mapping2", "ams_mapping_info"] ::
              ValidBody(key) && key != "" && IsTokenChar(key[0])
  {
    AmsKeysValid();
  }

  predicate LetterKey(key: string) {
    key != "" && IsTokenChar(key[0])
  }

  lemma FieldKeys(params: PrintParams, remoteFilename: string, platePath: string)
    ensures forall f | f in NameFields(params, remoteFilename, platePath) + OptionFields(params) :: LetterKey(f.key)
  {
    hide DisplayName, JsonEscape, ToDecimal, Flag;
  }

  lemma AmsAllRead(params: PrintParams, remoteFilename: string, platePath: string)
    requires NamesPrintable(params, remoteFilename, platePath)
    requires ReadsAs(CommandText(params, remoteFilename, platePath), CommandTree(params, remoteFilename, platePath))
    ensures AmsAllReadable(params)
  {
    hide ReadsAs, NameFields, OptionFields, AmsField, FieldStarts, FieldReads, WellFormed, DisplayName, ReadValue, Left, Lex,
      AmsReadable, ValidBody, Join, FieldTexts;
    var fields := CommandFields(params, remoteFilename, platePath);
    var a, b, c := AmsField("ams_mapping", params.amsMapping), AmsField("ams_mapping2", params.amsMapping2),
                   AmsField("ams_mapping_info", params.amsMappingInfo);
    TreeLegal(CommandText(params, remoteFilename, platePath), fields);
    AmsKeys();
    AmsStarts("ams_mapping", params.amsMapping);
    AmsStarts("ams_mapping2", params.amsMapping2);
    AmsStarts("ams_mapping_info", params.amsMappingInfo);
    NamesRead(params, remoteFilename, platePath);
    OptionsRead(params);
    FieldKeys(params, remoteFilename, platePath);
    NameCount(params, remoteFilename, platePath);
    forall f | f in fields ensures FieldStarts(f) {
      if f !in a + b + c {
        ReadsStarts(f);
      }
    }
    NothingLeft(fields);
    AmsSettled("ams_mapping", params.amsMapping);
    AmsSettled("ams_mapping2", params.amsMapping2);
    AmsSettled("ams_mapping_info", params.amsMappingInfo);
  }

  /**
   A JSON reader gets the command's tree exactly when the three names are printable and each AMS
   setting is blank, a printable text, or the JSON value it looks like.  Unprintable names leave
   nothing to read at all; of printable ones, decoding the strings read gives the text that went in.
   */
  lemma CommandReadsIff(params: PrintParams, remoteFilename: string, platePath: string)
    ensures ReadsAs(CommandText(params, remoteFilename, platePath), CommandTree(params, remoteFilename, platePath)) <==>
            NamesPrintable(params, remoteFilename, platePath) && AmsAllReadable(params)
    ensures !NamesPrintable(params, remoteFilename, platePath) ==> ReadValue(CommandText(params, remoteFilename, platePath)) == None
    ensures NamesPrintable(params, remoteFilename, platePath) ==>
              && Decode(JsonEscape(platePath)) == Some(platePath)
              && Decode(JsonEscape(DisplayName(params.names, remoteFilename))) == Some(DisplayName(params.names, remoteFilename))
              && Decode(JsonEscape("ftp://" + remoteFilename)) == Some("ftp://" + remoteFilename)
  {
    hide ReadValue, AmsAllReadable, CommandText, CommandTree, DisplayName, JsonEscape, Decode;
    if !NamesPrintable(params, remoteFilename, platePath) {
      UnprintableUnread(params, remoteFilename, platePath);
    } else {
      DecodeEscape(platePath);
      DecodeEscape(DisplayName(params.names, remoteFilename));
      DecodeEscape("ftp://" + remoteFilename);
      if AmsAllReadable(params) {
        CommandReads(params, remoteFilename, platePath);
      } else if ReadsAs(CommandText(params, remoteFilename, platePath), CommandTree(params, remoteFilename, platePath)) {
        AmsAllRead(params, remoteFilename, platePath);
      }
    }
  }
}
