/** What the print command says, member by member, and how its texts come from the print parameters. */
module CommandContents {
  import opened Wrappers
  import opened Text
  import opened Decimal
  import opened Json
  import opened JsonReader
  import opened JsonStrings
  import opened Escape
  import opened RemoteNames
  import opened ProjectCommand

  // ----- trimming -----

  /** The white space of the C locale. */
  predicate AllSpace(s: string) {
    forall i | 0 <= i < |s| :: s[i] in " \t\n\r\U{B}\U{C}"
  }

  lemma SpaceChars(c: char)
    ensures IsSpace(c) <==> c in " \t\n\r\U{B}\U{C}"
  {
  }

  lemma FrontTrimmed(s: string) returns (i: nat)
    ensures i <= |s| && TrimFront(s) == s[i..] && AllSpace(s[..i]) && (i < |s| ==> !IsSpace(s[i]))
  {
    i := 0;
    while i < |s| && IsSpace(s[i])
      invariant i <= |s| && TrimFront(s) == TrimFront(s[i..]) && AllSpace(s[..i])
    {
      assert s[i..][1..] == s[i + 1..];
      assert s[..i + 1] == s[..i] + [s[i]];
      SpaceChars(s[i]);
      i := i + 1;
    }
  }

  lemma BackTrimmed(s: string) returns (j: nat)
    ensures j <= |s| && TrimBack(s) == s[..j] && AllSpace(s[j..]) && (0 < j ==> !IsSpace(s[j - 1]))
  {
    j := |s|;
    assert s[..j] == s;
    while 0 < j && IsSpace(s[j - 1])
      invariant j <= |s| && TrimBack(s) == TrimBack(s[..j]) && AllSpace(s[j..])
    {
      assert s[..j][..j - 1] == s[..j - 1];
      assert s[j - 1..] == [s[j - 1]] + s[j..];
      SpaceChars(s[j - 1]);
      j := j - 1;
    }
  }

  /** Trimming takes away all white space at both ends and nothing else. */
  lemma TrimIs(value: string) returns (i: nat, j: nat)
    ensures i <= j <= |value| && Trim(value) == value[i..j] && AllSpace(value[..i]) && AllSpace(value[j..])
    ensures i < j ==> !AllSpace([value[i]]) && !AllSpace([value[j - 1]])
    ensures Trim(value) == "" <==> AllSpace(value)
  {
    hide TrimFront, TrimBack, IsSpace;
    i := FrontTrimmed(value);
    var n := BackTrimmed(value[i..]);
    j := i + n;
    assert value[i..][..n] == value[i..j] && value[i..][n..] == value[j..];
    if i < j {
      assert [value[i]][0] == value[i] && [value[j - 1]][0] == value[i..][n - 1];
      SpaceChars(value[i]);
      SpaceChars(value[j - 1]);
    } else {
      assert value == value[..i] + value[i..];
      assert n == 0 && value[i..][n..] == value[i..];
    }
  }

  /** What the code takes for JSON: a text that starts as an array, object, string or number does, or one of three words. */
  lemma LooksIff(value: string)
    ensures LooksLikeJsonValue(value) <==>
            Trim(value) != "" && (Trim(value)[0] in "[{\"-0123456789" || Trim(value) in ["true", "false", "null"])
  {
    assert forall c: char :: IsDigit(c) <==> c in "0123456789";
  }

  /** Every JSON text, with white space around it, is taken for JSON. */
  lemma JsonLooks(value: string, j: Json)
    requires ReadsAs(Trim(value), j)
    ensures LooksLikeJsonValue(value)
  {
    hide Trim, LooksLikeJsonValue;
    var text := Trim(value);
    var i, k := TrimIs(value);
    LooksIff(value);
    if text != "" {
      assert [value[i]][0] == text[0];
      TrimmedLooks(text, j);
    }
  }

  lemma TrimmedLooks(text: string, j: Json)
    requires ReadsAs(text, j) && text != "" && !AllSpace([text[0]])
    ensures text[0] in "[{\"-0123456789" || text in ["true", "false", "null"]
  {
    hide BodyEnd, ReadItems;
    assert !IsBlank(text[0]);
    assert SkipBlanks(text) == text;
    if text[0] !in "[{\"" {
      var n := TokenLength(text);
      assert text[n..] == "" && n == |text|;
      assert text[..n] == text;
      if IsNumber(text) {
        NumberStarts(text);
      }
    }
  }

  lemma NumberStarts(text: string)
    requires IsNumber(text)
    ensures text != "" && text[0] in "-0123456789"
  {
    hide IsFraction;
    var u := if text != "" && text[0] == '-' then text[1..] else text;
    assert IsDigit(u[..DigitRun(u)][0]);
  }

  // ----- the display name -----

  /** `stem` is the name without its package ending, whatever the case of the ending. */
  lemma StripIs(value: string)
    ensures var stem := StripPackageSuffixes(value);
            if EndsWithIgnoreCase(value, ".gcode.3mf") then stem == value[..|value| - 10]
            else if EndsWithIgnoreCase(value, ".3mf") then stem == value[..|value| - 4]
            else if EndsWithIgnoreCase(value, ".gcode") then stem == value[..|value| - 6]
            else stem == value
  {
    hide EndsWithIgnoreCase;
  }

  /** The first name given: project, task, or the stem of destination, FTP file, local file or remote name. */
  lemma DisplayIs(names: NameParams, remoteFilename: string)
    ensures var display := DisplayName(names, remoteFilename);
            if !AllSpace(names.projectName) then display == names.projectName
            else if !AllSpace(names.taskName) then display == names.taskName
            else if !AllSpace(names.dstFile) then display == StripPackageSuffixes(Basename(names.dstFile))
            else if !AllSpace(names.ftpFile) then display == StripPackageSuffixes(Basename(names.ftpFile))
            else if !AllSpace(names.filename) then display == StripPackageSuffixes(Basename(names.filename))
            else display == StripPackageSuffixes(remoteFilename)
  {
    hide Trim, AllSpace, StripPackageSuffixes, Basename;
    var i, j := TrimIs(names.projectName);
    i, j := TrimIs(names.taskName);
    i, j := TrimIs(names.dstFile);
    i, j := TrimIs(names.ftpFile);
    i, j := TrimIs(names.filename);
  }

  // ----- the members -----

  /** The value is a string for the text. */
  predicate Means(val: Json, text: string) {
    val.Str? && Decode(val.raw) == Some(text)
  }

  /** An AMS setting: no member when it is blank, the JSON it looks like, or else a string. */
  predicate Setting(ms: seq<Member>, key: string, value: string) {
    if AllSpace(value) then ms == []
    else
      && |ms| == 1 && ms[0].key == key
      && if LooksLikeJsonValue(value) then ReadsAs(Trim(value), ms[0].val) else Means(ms[0].val, Trim(value))
  }

  lemma SettingOf(key: string, value: string) returns (ms: seq<Member>)
    requires AmsReadable(value)
    ensures ms == Members(AmsField(key, value)) && Setting(ms, key, value)
  {
    hide Trim, LooksLikeJsonValue, ReadValue, JsonEscape, Decode;
    ms := Members(AmsField(key, value));
    var i, j := TrimIs(value);
    if Trim(value) != "" && !LooksLikeJsonValue(value) {
      DecodeEscape(Trim(value));
    }
  }

  lemma MembersConcat(a: seq<Field>, b: seq<Field>)
    ensures Members(a + b) == Members(a) + Members(b)
  {
  }

  lemma StringMeans(key: string, value: string)
    requires Printable(value)
    ensures StringField(key, value).key == key && Means(StringField(key, value).val, value)
  {
    DecodeEscape(value);
  }

  lemma UrlPrintable(remoteFilename: string)
    ensures Printable("project_file") && (Printable(remoteFilename) ==> Printable("ftp://" + remoteFilename))
  {
  }

  lemma NamesMean(params: PrintParams, remoteFilename: string, platePath: string) returns (ms: seq<Member>)
    requires NamesPrintable(params, remoteFilename, platePath)
    ensures ms == Members(NameFields(params, remoteFilename, platePath)) && |ms| == 5
    ensures ms[0] == Member("sequence_id", Atom("0")) && ms[1].key == "command" && Means(ms[1].val, "project_file")
    ensures ms[2].key == "param" && Means(ms[2].val, platePath)
    ensures ms[3].key == "subtask_name" && Means(ms[3].val, DisplayName(params.names, remoteFilename))
    ensures ms[4].key == "url" && Means(ms[4].val, "ftp://" + remoteFilename)
  {
    hide DisplayName, StringField, Means, Printable;
    UrlPrintable(remoteFilename);
    ms := Members(NameFields(params, remoteFilename, platePath));
    StringMeans("command", "project_file");
    StringMeans("param", platePath);
    StringMeans("subtask_name", DisplayName(params.names, remoteFilename));
    StringMeans("url", "ftp://" + remoteFilename);
  }

  lemma OptionsMean(params: PrintParams) returns (ms: seq<Member>)
    ensures ms == Members(OptionFields(params)) && |ms| == 7
    ensures ms[0].key == "plate_idx" && ms[0].val.Atom? && Digits(ms[0].val.tok)
    ensures Value(ms[0].val.tok) == if params.plateIndex > 0 then params.plateIndex - 1 else 0
    ensures ms[1] == Member("timelapse", Atom(if params.timelapse then "true" else "false"))
    ensures ms[2] == Member("bed_leveling", Atom(if params.bedLeveling then "true" else "false"))
    ensures ms[3] == Member("flow_cali", Atom(if params.flowCali then "true" else "false"))
    ensures ms[4] == Member("vibration_cali", Atom(if params.vibrationCali then "true" else "false"))
    ensures ms[5] == Member("layer_inspect", Atom(if params.layerInspect then "true" else "false"))
    ensures ms[6] == Member("use_ams", Atom(if params.useAms then "true" else "false"))
  {
    hide ToDecimal, Value;
    ms := Members(OptionFields(params));
    ValueToDecimal(PlateNumber(params));
  }

  /**
   A reader of the command finds one member `print`, and in it, in this order and once each: the sequence
   number 0, the command, the plate path, display name and address as strings, the plate counted from 0,
   the six flags each under its own name, and the AMS settings.
   */
  lemma CommandHolds(params: PrintParams, remoteFilename: string, platePath: string)
    returns (fixed: seq<Member>, ams: seq<Member>, ams2: seq<Member>, info: seq<Member>)
    requires NamesPrintable(params, remoteFilename, platePath) && AmsAllReadable(params)
    ensures ReadsAs(CommandText(params, remoteFilename, platePath), Obj([Member("print", Obj(fixed + ams + ams2 + info))]))
    ensures |fixed| == 12
    ensures fixed[0] == Member("sequence_id", Atom("0")) && fixed[1].key == "command" && Means(fixed[1].val, "project_file")
    ensures fixed[2].key == "param" && Means(fixed[2].val, platePath)
    ensures fixed[3].key == "subtask_name" && Means(fixed[3].val, DisplayName(params.names, remoteFilename))
    ensures fixed[4].key == "url" && Means(fixed[4].val, "ftp://" + remoteFilename)
    ensures fixed[5].key == "plate_idx" && fixed[5].val.Atom? && Digits(fixed[5].val.tok)
    ensures Value(fixed[5].val.tok) == if params.plateIndex > 0 then params.plateIndex - 1 else 0
    ensures fixed[6] == Member("timelapse", Atom(if params.timelapse then "true" else "false"))
    ensures fixed[7] == Member("bed_leveling", Atom(if params.bedLeveling then "true" else "false"))
    ensures fixed[8] == Member("flow_cali", Atom(if params.flowCali then "true" else "false"))
    ensures fixed[9] == Member("vibration_cali", Atom(if params.vibrationCali then "true" else "false"))
    ensures fixed[10] == Member("layer_inspect", Atom(if params.layerInspect then "true" else "false"))
    ensures fixed[11] == Member("use_ams", Atom(if params.useAms then "true" else "false"))
    ensures Setting(ams, "ams_mapping", params.amsMapping) && Setting(ams2, "ams_mapping2", params.amsMapping2)
    ensures Setting(info, "ams_mapping_info", params.amsMappingInfo)
  {
    hide ReadsAs, DisplayName, Setting, Means, AmsField, AmsReadable, NamesPrintable, NameFields, OptionFields, Decode, Value,
      CommandText;
    CommandReadsIff(params, remoteFilename, platePath);
    ams := SettingOf("ams_mapping", params.amsMapping);
    ams2 := SettingOf("ams_mapping2", params.amsMapping2);
    info := SettingOf("ams_mapping_info", params.amsMappingInfo);
    var names := NamesMean(params, remoteFilename, platePath);
    var options := OptionsMean(params);
    fixed := names + options;
    AllMembers(params, remoteFilename, platePath);
  }

  lemma AllMembers(params: PrintParams, remoteFilename: string, platePath: string)
    ensures Members(CommandFields(params, remoteFilename, platePath)) ==
            Members(NameFields(params, remoteFilename, platePath)) + Members(OptionFields(params)) +
            Members(AmsField("ams_mapping", params.amsMapping)) + Members(AmsField("ams_mapping2", params.amsMapping2)) +
            Members(AmsField("ams_mapping_info", params.amsMappingInfo))
  {
    hide NameFields, OptionFields, AmsField, Members;
    var names, options := NameFields(params, remoteFilename, platePath), OptionFields(params);
    var a, b, c := AmsField("ams_mapping", params.amsMapping), AmsField("ams_mapping2", params.amsMapping2),
                   AmsField("ams_mapping_info", params.amsMappingInfo);
    assert CommandFields(params, remoteFilename, platePath) == names + options + a + b + c;
    MembersConcat(names, options);
    MembersConcat(names + options, a);
    MembersConcat(names + options + a, b);
    MembersConcat(names + options + a + b, c);
  }
}
