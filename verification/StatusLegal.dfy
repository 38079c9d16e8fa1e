/** When the rewritten status message is JSON, whatever the message, and which tree it then denotes. */
module StatusLegal {
  import opened Wrappers
  import opened Text
  import opened Json
  import opened JsonReader
  import opened JsonStrings
  import opened JsonTokens
  import opened JsonCuts
  import opened JsonEdit
  import opened Escape
  import opened StatusRewrite
  import opened StatusTree

  // ----- what the rewriting inserts, and where -----

  /** The id's member, when its key is not mentioned from the word `print` on. */
  function IdIn(s: string, key: string, id: string): (ms: seq<Member>)
    requires PrintObject(s).Some?
    ensures |ms| <= 1
  {
    if Find(s, Quote(key), PrintKey(s)).Some? then [] else [Member(key, Str(JsonEscape(id)))]
  }

  function IdsIn(job: Option<JobIds>, s: string): seq<Member>
    requires PrintObject(s).Some?
  {
    match job
    case None => []
    case Some(ids) =>
      IdIn(s, "project_id", ids.projectId) +
      (IdIn(s, "profile_id", ids.profileId) + (IdIn(s, "subtask_id", ids.subtaskId) + IdIn(s, "task_id", ids.taskId)))
  }

  /** The capability member, when the word `ipcam` does not follow the brace. */
  function CapMembers(s: string): seq<Member>
    requires PrintObject(s).Some?
  {
    if Find(s, Quote("ipcam"), PrintObject(s).value).None? then [CapabilityMember()] else []
  }

  /** The members put right after the brace that the code takes for that of the print object. */
  function FrontMembers(job: Option<JobIds>, s: string): seq<Member>
    requires PrintObject(s).Some?
  {
    IdsIn(job, s) + CapMembers(s)
  }

  /** The brace after which the file member is put, if it is. */
  function FileBrace(s: string): (r: Option<nat>)
    requires PrintObject(s).Some?
    ensures r.Some? ==> PrintObject(s).value < r.value < |s| && s[r.value] == '{'
  {
    match Find(s, Quote("ipcam"), PrintObject(s).value)
    case None => None
    case Some(key) =>
      match FileSpot(s, key)
      case None => None
      case Some(at) =>
        SpotIsBrace(s, key);
        Some(at - 1)
  }

  lemma SpotIsBrace(s: string, key: nat)
    requires FileSpot(s, key).Some? && At(s, Quote("ipcam"), key)
    ensures key + 1 < FileSpot(s, key).value && s[FileSpot(s, key).value - 1] == '{'
  {
    hide Find;
    FindCharIs(s, '{', key);
    AtChar(s, Quote("ipcam"), key, 0);
  }

  /** The text after the print brace, with the file member put in. */
  function WithFileText(s: string): string
    requires PrintObject(s).Some?
  {
    var p := PrintObject(s).value;
    match FileBrace(s)
    case None => s[p + 1..]
    case Some(q) => s[p + 1..q + 1] + (RunText([FileField()]) + s[q + 1..])
  }

  lemma {:induction false} RunJoin(a: seq<Member>, b: seq<Member>)
    ensures RunText(a + b) == RunText(a) + RunText(b)
  {
    hide MemberText, Print;
    if a == [] {
      assert a + b == b;
    } else {
      assert (a + b)[1..] == a[1..] + b;
      RunJoin(a[1..], b);
    }
  }

  lemma RunOne(m: Member)
    ensures RunText([m]) == MemberText(m.key, Print(m.val)) + ","
  {
    assert [m][1..] == [];
  }

  /** The searches for an id do not see what the capability step inserts. */
  lemma CapKeepsIds(tail: string, k: string)
    requires k in ID_KEYS
    ensures Contains(CapTail(tail), Quote(k)) <==> Contains(tail, Quote(k))
  {
    hide Find, Contains, FileMember, IpcamMember, FileSpot, Quote;
    WordsPlain();
    MemberLengths();
    match Find(tail, Quote("ipcam"), 0)
    case None =>
      CapabilityLacks(k);
      ContainsKeySplit(IpcamMember(), tail, k);
    case Some(key) =>
      if FileSpot(tail, key).Some? {
        var at := FileSpot(tail, key).value;
        FileMemberLacks(k);
        SpotIsBrace(tail, key);
        var front, back := tail[..at], tail[at..];
        assert tail == front + back;
        ContainsKeySplit(front, back, k);
        ContainsKeySplit(front, FileMember() + back, k);
        ContainsKeySplit(FileMember(), back, k);
        Associates(front, FileMember(), back);
      }
  }

  lemma CapAdds(tail: string)
    ensures CapTail(tail) ==
            match Find(tail, Quote("ipcam"), 0)
            case None => RunText([CapabilityMember()]) + tail
            case Some(key) =>
              if FileSpot(tail, key).None? then tail
              else
                var at := FileSpot(tail, key).value;
                tail[..at] + (RunText([FileField()]) + tail[at..])
  {
    hide Find, FileMember, IpcamMember, CapabilityMember, FileField, MemberText, Print, RunText, Quote, FileSpot;
    CapabilityText();
    RunOne(CapabilityMember());
    FileFieldText();
    RunOne(FileField());
    var key := Find(tail, Quote("ipcam"), 0);
    if key.Some? && FileSpot(tail, key.value).Some? {
      var at := FileSpot(tail, key.value).value;
      Associates(tail[..at], FileMember(), tail[at..]);
    }
  }

  lemma TailSlices(head: string, tail: string, at: nat)
    requires at <= |tail|
    ensures (head + tail)[|head|..] == tail && (head + tail)[|head|..|head| + at] == tail[..at] && (head + tail)[|head| + at..] == tail[at..]
  {
  }

  lemma CapText(head: string, tail: string)
    requires Opens(head) && PrintObject(head + tail) == Some(|head| - 1)
    ensures CapTail(tail) == RunText(CapMembers(head + tail)) + WithFileText(head + tail)
  {
    hide Find, CapTail, CapabilityMember, FileField, RunText, PrintObject, Quote, FileSpot, Opens;
    CapAdds(tail);
    WordsPlain();
    KeyAfterBrace(head, tail, "ipcam");
    TailSlices(head, tail, 0);
    match Find(tail, Quote("ipcam"), 0)
    case None =>
    case Some(key) =>
      FileSpotShift(head, tail, key);
      RunNone();
      if FileSpot(tail, key).Some? {
        TailSlices(head, tail, FileSpot(tail, key).value);
      }
      NothingInFront(WithFileText(head + tail));
  }

  lemma NothingInFront(s: string)
    ensures "" + s == s
  {
  }

  lemma RunNone()
    ensures RunText([]) == ""
  {
  }

  lemma IdText(head: string, tail: string, key: string, id: string)
    requires Opens(head) && key in ID_KEYS && PrintObject(head + tail).Some? && PrintKey(head + tail) == PrintKey(head)
    ensures MissingMember(head + CapTail(tail), PrintKey(head), key, id) == RunText(IdIn(head + tail, key, id))
  {
    hide Find, CapTail, MemberText, Print, IdMember, Quote, PrintObject;
    WordsPlain();
    KeyHeld(head, tail, key);
    KeyHeld(head, CapTail(tail), key);
    CapKeepsIds(tail, key);
    IdMemberText(key, id);
    RunOne(Member(key, Str(JsonEscape(id))));
    RunNone();
  }

  lemma IdsText(head: string, tail: string, job: JobIds)
    requires Opens(head) && PrintObject(head + tail).Some? && PrintKey(head + tail) == PrintKey(head)
    ensures MissingMembers(head + CapTail(tail), PrintKey(head), job) == RunText(IdsIn(Some(job), head + tail))
  {
    hide CapTail, MissingMember, RunText, IdIn, PrintObject, PrintKey;
    var s := head + tail;
    IdText(head, tail, "project_id", job.projectId);
    IdText(head, tail, "profile_id", job.profileId);
    IdText(head, tail, "subtask_id", job.subtaskId);
    IdText(head, tail, "task_id", job.taskId);
    var a, b := IdIn(s, "project_id", job.projectId), IdIn(s, "profile_id", job.profileId);
    var c, d := IdIn(s, "subtask_id", job.subtaskId), IdIn(s, "task_id", job.taskId);
    RunJoin(c, d);
    RunJoin(b, c + d);
    RunJoin(a, b + (c + d));
    FourRuns(RunText(a), RunText(b), RunText(c), RunText(d));
  }

  lemma FourRuns(a: string, b: string, c: string, d: string)
    ensures a + (b + (c + d)) == a + b + c + d
  {
  }

  /** The print object's text after the rewriting, from its opening brace on. */
  function NewBody(job: Option<JobIds>, head: string, tail: string): string
    requires Opens(head)
  {
    match job
    case None => CapTail(tail)
    case Some(ids) => MissingMembers(head + CapTail(tail), PrintKey(head), ids) + CapTail(tail)
  }

  lemma RewriteBody(job: Option<JobIds>, head: string, tail: string)
    requires Opens(head)
    ensures RewriteStatus(job, head + tail) == head + NewBody(job, head, tail)
  {
    hide CapTail, MissingMembers, Opens, Find, PrintKey, WithCapability;
    InjectTail(head, tail);
    match job
    case None =>
    case Some(ids) => RewriteSplit(ids, head, tail);
  }

  /** The rewriting of any message as insertions: members after the print brace, the file member after another. */
  lemma RewriteShape(job: Option<JobIds>, s: string)
    requires PrintObject(s).Some?
    ensures RewriteStatus(job, s) == s[..PrintObject(s).value + 1] + (RunText(FrontMembers(job, s)) + WithFileText(s))
  {
    var p := PrintObject(s).value;
    var head, tail := s[..p + 1], s[p + 1..];
    assert s == head + tail;
    OpensPrefix(s);
    hide *;
    HeadFound(head, tail);
    CapText(head, tail);
    FrontRun(job, s);
    RewriteBody(job, head, tail);
    NewBodyText(job, head, tail);
    Associates(RunText(IdsIn(job, s)), RunText(CapMembers(s)), WithFileText(s));
  }

  lemma FrontRun(job: Option<JobIds>, s: string)
    requires PrintObject(s).Some?
    ensures RunText(FrontMembers(job, s)) == RunText(IdsIn(job, s)) + RunText(CapMembers(s))
  {
    hide RunText, IdsIn, CapMembers, PrintObject;
    RunJoin(IdsIn(job, s), CapMembers(s));
  }

  lemma NewBodyText(job: Option<JobIds>, head: string, tail: string)
    requires Opens(head) && PrintObject(head + tail).Some? && PrintKey(head + tail) == PrintKey(head)
    ensures NewBody(job, head, tail) == RunText(IdsIn(job, head + tail)) + CapTail(tail)
  {
    hide RunText, IdsIn, CapTail, MissingMembers, PrintObject, PrintKey;
    match job
    case None =>
      NoIds(head + tail);
      RunNone();
      NothingInFront(CapTail(tail));
    case Some(ids) =>
      IdsText(head, tail, ids);
  }

  lemma NoIds(s: string)
    requires PrintObject(s).Some?
    ensures IdsIn(None, s) == []
  {
  }

  lemma HeadFound(head: string, tail: string)
    requires Opens(head)
    ensures PrintObject(head).Some? && PrintObject(head + tail) == Some(|head| - 1) && PrintKey(head + tail) == PrintKey(head)
  {
    hide Find;
    OpensFind(head, tail);
  }

  // ----- ids that cannot be written -----

  lemma BrokenLexed(key: string, id: string, rest: string)
    requires ValidBody(key) && !Printable(id)
    ensures Lex(MemberText(key, Print(Str(JsonEscape(id)))) + rest).None?
  {
    hide JsonEscape, BodyEnd, ValidBody, Lex;
    var text := Quote(JsonEscape(id)) + rest;
    assert MemberText(key, Print(Str(JsonEscape(id)))) + rest == MemberText(key, text);
    MemberLexed(key, text);
    assert text[1..] == JsonEscape(id) + ("\"" + rest);
    EscapedEnd(id, rest);
    OpenQuote(text);
  }

  lemma OpenQuote(s: string)
    requires s != "" && s[0] == '"' && BodyEnd(s[1..]).None?
    ensures Lex(s).None?
  {
  }

  /** A member with a text in it that went through the escaping. */
  ghost predicate Escaped(m: Member) {
    ValidBody(m.key) && exists id :: m.val == Str(JsonEscape(id))
  }

  lemma {:induction false} RunUnlexed(ms: seq<Member>, z: string)
    requires (forall m | m in ms :: (ValidBody(m.key) && WellFormed(m.val)) || Escaped(m)) && !LegalMembers(ms)
    ensures Lex(RunText(ms) + z).None?
  {
    hide Lex, WellFormed, ValidBody, JsonEscape, MemberText, Print, Printable;
    var m := ms[0];
    var first, run := MemberText(m.key, Print(m.val)), RunText(ms[1..]);
    assert RunText(ms) + z == first + ("," + (run + z));
    assert m in ms;
    if ValidBody(m.key) && WellFormed(m.val) {
      RunUnlexed(ms[1..], z);
      LexMember(m, run + z);
    } else {
      var id :| m.val == Str(JsonEscape(id));
      EscapedLegal(id);
      BrokenLexed(m.key, id, "," + (run + z));
    }
  }

  lemma EscapedLegal(id: string)
    ensures WellFormed(Str(JsonEscape(id))) <==> Printable(id)
  {
    EscapedValid(id);
  }

  lemma IdKeysValid()
    ensures forall k | k in ID_KEYS :: ValidBody(k)
  {
    TrapKeysValid();
    assert forall k | k in ID_KEYS :: k in ["a", "ipcam", "file", "print"] + ID_KEYS;
  }

  /** Every id that the rewriting adds is printable. */
  predicate IdsPrint(job: Option<JobIds>, s: string)
    requires PrintObject(s).Some?
  {
    job.Some? ==>
      && (IdIn(s, "project_id", job.value.projectId) == [] || Printable(job.value.projectId))
      && (IdIn(s, "profile_id", job.value.profileId) == [] || Printable(job.value.profileId))
      && (IdIn(s, "subtask_id", job.value.subtaskId) == [] || Printable(job.value.subtaskId))
      && (IdIn(s, "task_id", job.value.taskId) == [] || Printable(job.value.taskId))
  }

  lemma FileFieldLegal()
    ensures ValidBody(FileField().key) && WellFormed(FileField().val)
    ensures ValidBody(CapabilityMember().key) && WellFormed(CapabilityMember().val)
  {
    hide ValidBody;
    KeyValid("ipcam");
    KeyValid("file");
    KeyValid("local");
    KeyValid("remote");
    KeyValid("none");
    KeyValid("model_download");
    KeyValid("disabled");
    ObjectWellFormed(FileMembers());
    ObjectWellFormed([FileField()]);
  }

  lemma LegalJoin(a: seq<Member>, b: seq<Member>)
    ensures LegalMembers(a + b) <==> LegalMembers(a) && LegalMembers(b)
  {
    hide WellFormed, ValidBody;
    assert forall m :: m in a + b <==> m in a || m in b;
  }

  lemma LegalOne(m: Member)
    ensures LegalMembers([m]) <==> ValidBody(m.key) && WellFormed(m.val)
  {
    hide WellFormed, ValidBody;
    assert m in [m];
  }

  /** What one id contributes to the members in front. */
  lemma IdFits(s: string, key: string, id: string)
    requires PrintObject(s).Some? && key in ID_KEYS
    ensures LegalMembers(IdIn(s, key, id)) <==> IdIn(s, key, id) == [] || Printable(id)
    ensures forall m | m in IdIn(s, key, id) :: Escaped(m) && m.key in ID_KEYS
  {
    hide WellFormed, ValidBody, Find, PrintObject;
    IdKeysValid();
    var m := Member(key, Str(JsonEscape(id)));
    EscapedLegal(id);
    LegalOne(m);
    assert Escaped(m);
  }

  lemma FrontFits(job: Option<JobIds>, s: string)
    requires PrintObject(s).Some?
    ensures LegalMembers(FrontMembers(job, s)) <==> IdsPrint(job, s)
    ensures forall m | m in FrontMembers(job, s) :: (ValidBody(m.key) && WellFormed(m.val)) || Escaped(m)
    ensures forall m | m in FrontMembers(job, s) :: m.key in ID_KEYS + ["ipcam"]
  {
    hide LegalMembers, WellFormed, ValidBody, Find, PrintObject, Escaped, IdIn, CapabilityMember, Printable;
    FileFieldLegal();
    LegalOne(CapabilityMember());
    CapKey();
    var caps := CapMembers(s);
    assert LegalMembers(caps) by {
      NoMembersLegal();
    }
    LegalJoin(IdsIn(job, s), caps);
    match job
    case None => NoMembersLegal();
    case Some(ids) =>
      IdFits(s, "project_id", ids.projectId);
      IdFits(s, "profile_id", ids.profileId);
      IdFits(s, "subtask_id", ids.subtaskId);
      IdFits(s, "task_id", ids.taskId);
      var a, b := IdIn(s, "project_id", ids.projectId), IdIn(s, "profile_id", ids.profileId);
      var c, d := IdIn(s, "subtask_id", ids.subtaskId), IdIn(s, "task_id", ids.taskId);
      LegalJoin(c, d);
      LegalJoin(b, c + d);
      LegalJoin(a, b + (c + d));
  }

  lemma NoMembersLegal()
    ensures LegalMembers([])
  {
  }

  lemma CapKey()
    ensures CapabilityMember().key == "ipcam"
  {
  }

  lemma FrontKey(key: string)
    requires key in ID_KEYS + ["ipcam"]
    ensures key != "" && IsTokenChar(key[0])
  {
  }

  // ----- when the rewritten message is JSON -----

  /** The code inserts only after braces that open objects with a member, and only legal members. */
  predicate EditsFit(job: Option<JobIds>, s: string)
    requires IsJson(s)
  {
    PrintObject(s).Some? ==>
      && (FrontMembers(job, s) != [] ==> OpensFull(s, PrintObject(s).value) && IdsPrint(job, s))
      && (FileBrace(s).Some? ==> OpensFull(s, FileBrace(s).value))
  }

  /** The tree with the file member in its object and then the other members in theirs. */
  function Edited(job: Option<JobIds>, s: string): Json
    requires IsJson(s) && EditsFit(job, s)
  {
    if PrintObject(s).None? then Tree(s)
    else
      var j := if FileBrace(s).None? then Tree(s) else AddAt(Tree(s), BraceToken(s, FileBrace(s).value), [FileField()]);
      if FrontMembers(job, s) == [] then j else AddAt(j, BraceToken(s, PrintObject(s).value), FrontMembers(job, s))
  }

  /** The message with the file member put in, if it is. */
  function Filed(s: string): string
    requires PrintObject(s).Some?
  {
    match FileBrace(s)
    case None => s
    case Some(q) => s[..q + 1] + (RunText([FileField()]) + s[q + 1..])
  }

  lemma FiledShape(s: string)
    requires PrintObject(s).Some?
    ensures var p := PrintObject(s).value;
            && Filed(s) == s[..p + 1] + WithFileText(s) && p < |Filed(s)| && Filed(s)[p] == s[p] == '{'
            && Filed(s)[..p + 1] == s[..p + 1] && Filed(s)[p + 1..] == WithFileText(s)
  {
    var p := PrintObject(s).value;
    PrintBrace(s);
    FiledGlued(s);
    hide *;
    GluedParts(s, WithFileText(s), p);
  }

  lemma FiledGlued(s: string)
    requires PrintObject(s).Some?
    ensures Filed(s) == s[..PrintObject(s).value + 1] + WithFileText(s)
  {
    hide RunText, PrintObject, FileBrace, FileField;
    var p := PrintObject(s).value;
    match FileBrace(s)
    case None =>
      assert s == s[..p + 1] + s[p + 1..];
    case Some(q) =>
      Threaded(s, p, q, RunText([FileField()]) + s[q + 1..]);
  }

  lemma Threaded(s: string, p: nat, q: nat, x: string)
    requires p <= q < |s|
    ensures s[..q + 1] + x == s[..p + 1] + (s[p + 1..q + 1] + x)
  {
    assert s[..q + 1] == s[..p + 1] + s[p + 1..q + 1];
  }

  lemma GluedParts(s: string, t: string, p: nat)
    requires p < |s|
    ensures var r := s[..p + 1] + t; p < |r| && r[p] == s[p] && r[..p + 1] == s[..p + 1] && r[p + 1..] == t
  {
  }

  lemma PrintBrace(s: string)
    requires PrintObject(s).Some?
    ensures s[PrintObject(s).value] == '{'
  {
    hide Find;
    FindCharIs(s, '{', Find(s, Quote("print"), 0).value);
  }

  /** The text after the print brace starts with the closing one before and after the file member is put in. */
  lemma FiledClosed(s: string)
    requires PrintObject(s).Some?
    ensures StartsClosed(WithFileText(s)) <==> StartsClosed(s[PrintObject(s).value + 1..])
  {
    hide Find, PrintObject, RunText, StartsClosed, FileField, FileSpot, Quote;
    var p := PrintObject(s).value;
    if FileBrace(s).Some? {
      var q := FileBrace(s).value;
      var u := s[p + 1..q + 1];
      assert u[|u| - 1] == s[q];
      assert s[p + 1..] == u + s[q + 1..];
      ClosedKept(u, s[q + 1..], RunText([FileField()]) + s[q + 1..]);
    }
  }

  lemma FiledLegalIff(s: string)
    requires IsJson(s) && PrintObject(s).Some?
    ensures IsJson(Filed(s)) <==> (FileBrace(s).Some? ==> OpensFull(s, FileBrace(s).value))
    ensures IsJson(Filed(s)) ==>
              Tree(Filed(s)) == if FileBrace(s).None? then Tree(s) else AddAt(Tree(s), BraceToken(s, FileBrace(s).value), [FileField()])
  {
    hide Find, PrintObject, RunText, Lex, ReadValue, ObjectAt, AddAt, FileField, Quote, WellFormed, ValidBody, Denotes;
    if FileBrace(s).Some? {
      var q := FileBrace(s).value;
      FileFieldLegal();
      FileKey();
      LegalOne(FileField());
      InsertLegalIff(s, q, [FileField()]);
      if OpensFull(s, q) {
        InsertDenotes(s, q, [FileField()]);
        DenotesTree(Filed(s), AddAt(Tree(s), BraceToken(s, q), [FileField()]));
      }
    }
  }

  lemma FileKey()
    ensures FileField().key == "file" && IsTokenChar("file"[0])
  {
  }

  /** The print brace is the same one in the text with the file member. */
  lemma FiledPrintBrace(s: string)
    requires IsJson(s) && PrintObject(s).Some? && IsJson(Filed(s))
    ensures var p := PrintObject(s).value;
            && (OpensFull(Filed(s), p) <==> OpensFull(s, p))
            && (OpensAt(s, p) ==> OpensAt(Filed(s), p) && BraceToken(Filed(s), p) == BraceToken(s, p))
  {
    hide Find, PrintObject, Lex, ReadValue, ObjectAt, Filed, WithFileText, StartsClosed;
    var p := PrintObject(s).value;
    FiledShape(s);
    FiledClosed(s);
    OpensFullIff(s, p);
    OpensFullIff(Filed(s), p);
  }

  lemma FrontText(job: Option<JobIds>, s: string)
    requires PrintObject(s).Some?
    ensures var p := PrintObject(s).value;
            RewriteStatus(job, s) == Filed(s)[..p + 1] + (RunText(FrontMembers(job, s)) + Filed(s)[p + 1..])
  {
    hide *;
    RewriteShape(job, s);
    FiledShape(s);
  }

  lemma FrontStarts(job: Option<JobIds>, s: string)
    requires PrintObject(s).Some? && FrontMembers(job, s) != []
    ensures var f := FrontMembers(job, s); f[0].key != "" && IsTokenChar(f[0].key[0])
  {
    hide *;
    FrontFits(job, s);
    assert FrontMembers(job, s)[0] in FrontMembers(job, s);
    FrontKey(FrontMembers(job, s)[0].key);
  }

  /** With the file member well placed, the rest is one insertion more. */
  lemma FrontLegalIff(job: Option<JobIds>, s: string)
    requires IsJson(s) && PrintObject(s).Some? && IsJson(Filed(s)) && IdsPrint(job, s) && FrontMembers(job, s) != []
    ensures IsJson(RewriteStatus(job, s)) <==> OpensFull(s, PrintObject(s).value)
    ensures OpensFull(s, PrintObject(s).value) ==>
              Denotes(RewriteStatus(job, s), AddAt(Tree(Filed(s)), BraceToken(s, PrintObject(s).value), FrontMembers(job, s)))
  {
    hide Find, PrintObject, Lex, ReadValue, ObjectAt, AddAt, Filed, FrontMembers, LegalMembers, IdsPrint, RewriteStatus, RunText,
      Denotes, IsTokenChar;
    var p, f := PrintObject(s).value, FrontMembers(job, s);
    FiledShape(s);
    FiledPrintBrace(s);
    FrontFits(job, s);
    FrontStarts(job, s);
    FrontText(job, s);
    InsertLegalIff(Filed(s), p, f);
    if OpensFull(s, p) {
      InsertDenotes(Filed(s), p, f);
    }
  }

  /** An id that cannot be written leaves no JSON. */
  lemma FrontUnprintable(job: Option<JobIds>, s: string)
    requires IsJson(s) && PrintObject(s).Some? && !IdsPrint(job, s)
    ensures !IsJson(RewriteStatus(job, s))
  {
    hide Find, PrintObject, Lex, ReadValue, FrontMembers, LegalMembers, IdsPrint, RewriteStatus, RunText, WithFileText, IsTokenChar,
      Escaped, WellFormed, ValidBody, TreeTokens;
    var p, f, z := PrintObject(s).value, FrontMembers(job, s), WithFileText(s);
    var a, b := s[..p + 1], s[p + 1..];
    assert s == a + b;
    FrontFits(job, s);
    NoMembersLegal();
    FrontStarts(job, s);
    RewriteShape(job, s);
    JsonTokensOf(s);
    PrintBrace(s);
    var x := RunText(f) + z;
    if Lex(a).None? {
      RunStarts(f, z);
      InsideString(a, b, x[1..]);
    } else {
      RunUnlexed(f, z);
      LexJoin(a, x);
    }
    UnlexedUnread(a + x);
  }

  /** A brace behind the inserted members is what it was. */
  lemma LaterBrace(s: string, p: nat, q: nat, f: seq<Member>)
    requires IsJson(s) && OpensFull(s, p) && LegalMembers(f) && p < q < |s| && s[q] == '{'
    requires IsJson(s[..p + 1] + (RunText(f) + s[p + 1..]))
    ensures var t, r := s[..p + 1] + (RunText(f) + s[p + 1..]), q + |RunText(f)|;
            r < |t| && t[r] == '{' && (OpensFull(t, r) <==> OpensFull(s, q))
  {
    hide Lex, ReadValue, ObjectAt, LegalMembers, RunText, StartsClosed, RunTokens;
    var a, mid, x := s[..p + 1], s[p + 1..q + 1], RunText(f);
    var t, r := a + (x + s[p + 1..]), q + |x|;
    assert s[p + 1..] == mid + s[q + 1..];
    assert t == (a + (x + mid)) + s[q + 1..];
    assert t[..r + 1] == a + (x + mid) && t[r + 1..] == s[q + 1..] && t[r] == s[q];
    assert s[..q + 1] == a + mid;
    LexRun(f, mid);
    LexJoin(a, x + mid);
    LexJoin(a, mid);
    OpensFullIff(s, q);
    OpensFullIff(t, r);
  }

  lemma FrontThenFile(job: Option<JobIds>, s: string, q: nat)
    requires PrintObject(s).Some? && FileBrace(s) == Some(q)
    ensures var p, f := PrintObject(s).value, FrontMembers(job, s);
            var t, r := s[..p + 1] + (RunText(f) + s[p + 1..]), q + |RunText(f)|;
            r < |t| && RewriteStatus(job, s) == t[..r + 1] + (RunText([FileField()]) + t[r + 1..])
  {
    hide *;
    RewriteShape(job, s);
    WithFileIs(s, q);
    var p := PrintObject(s).value;
    InsertTwice(s, p, q, RunText(FrontMembers(job, s)), RunText([FileField()]));
  }

  lemma WithFileIs(s: string, q: nat)
    requires PrintObject(s).Some? && FileBrace(s) == Some(q)
    ensures WithFileText(s) == s[PrintObject(s).value + 1..q + 1] + (RunText([FileField()]) + s[q + 1..])
    ensures PrintObject(s).value < q < |s|
  {
    hide Find, PrintObject, RunText, FileField;
  }

  lemma InsertTwice(s: string, p: nat, q: nat, x: string, y: string)
    requires p < q < |s|
    ensures var t, r := s[..p + 1] + (x + s[p + 1..]), q + |x|;
            r < |t| && s[..p + 1] + (x + (s[p + 1..q + 1] + (y + s[q + 1..]))) == t[..r + 1] + (y + t[r + 1..])
  {
    var a, mid, back := s[..p + 1], s[p + 1..q + 1], s[q + 1..];
    var t, r := a + (x + s[p + 1..]), q + |x|;
    assert s[p + 1..] == mid + back;
    Regrouped(a, x, mid, back);
    assert t == (a + (x + mid)) + back;
    assert |a + (x + mid)| == r + 1;
    assert t[..r + 1] == a + (x + mid) && t[r + 1..] == back;
    Regrouped(a, x, mid, y + back);
  }

  lemma Regrouped(a: string, x: string, mid: string, back: string)
    ensures a + (x + (mid + back)) == (a + (x + mid)) + back
  {
  }

  /** With the file member misplaced, members in front do not help. */
  lemma FileMisplaced(job: Option<JobIds>, s: string)
    requires IsJson(s) && PrintObject(s).Some? && !IsJson(Filed(s)) && IdsPrint(job, s) && FrontMembers(job, s) != []
    ensures !IsJson(RewriteStatus(job, s))
  {
    hide Find, PrintObject, Lex, ReadValue, ObjectAt, AddAt, Filed, FrontMembers, LegalMembers, IdsPrint, RewriteStatus, RunText,
      Denotes, IsTokenChar, FileBrace, WithFileText, StartsClosed, FileField, WellFormed, ValidBody;
    var p, f := PrintObject(s).value, FrontMembers(job, s);
    FiledLegalIff(s);
    var q := FileBrace(s).value;
    FrontFits(job, s);
    FrontStarts(job, s);
    PrintBrace(s);
    if OpensFull(s, p) {
      var t, r := s[..p + 1] + (RunText(f) + s[p + 1..]), q + |RunText(f)|;
      InsertLegalIff(s, p, f);
      LaterBrace(s, p, q, f);
      FileFieldLegal();
      FileKey();
      LegalOne(FileField());
      InsertLegalIff(t, r, [FileField()]);
      FrontThenFile(job, s, q);
    } else {
      FiledClosed(s);
      RewriteShape(job, s);
      InsertBroken(s, p, f, WithFileText(s));
    }
  }

  lemma NoPrint(job: Option<JobIds>, s: string)
    requires PrintObject(s).None?
    ensures RewriteStatus(job, s) == s
  {
    hide Find, PrintObject;
  }

  lemma NoFront(job: Option<JobIds>, s: string)
    requires PrintObject(s).Some? && FrontMembers(job, s) == []
    ensures RewriteStatus(job, s) == Filed(s)
  {
    hide Find, PrintObject, FrontMembers, RewriteStatus, Filed;
    FrontText(job, s);
    FiledShape(s);
    var p := PrintObject(s).value;
    assert Filed(s)[..p + 1] + ("" + Filed(s)[p + 1..]) == Filed(s);
  }

  /**
   Any JSON text, blanks and all, is rewritten to a JSON text exactly when each brace after which the
   code inserts opens an object with a member and the ids it adds are printable.  The new text then
   denotes the old tree with the new members at the front of those objects.
   */
  lemma RewriteLegalIff(job: Option<JobIds>, s: string)
    requires IsJson(s)
    ensures IsJson(RewriteStatus(job, s)) <==> EditsFit(job, s)
    ensures EditsFit(job, s) ==> Tree(RewriteStatus(job, s)) == Edited(job, s)
  {
    hide Find, PrintObject, ReadValue, AddAt, Filed, FrontMembers, IdsPrint, RewriteStatus, OpensFull, FileBrace,
      Denotes, IsJson, Tree;
    if PrintObject(s).None? {
      NoPrint(job, s);
    } else {
      FiledLegalIff(s);
      if FrontMembers(job, s) == [] {
        NoFront(job, s);
      } else if !IdsPrint(job, s) {
        FrontUnprintable(job, s);
      } else if !IsJson(Filed(s)) {
        FileMisplaced(job, s);
      } else {
        FrontLegalIff(job, s);
        if EditsFit(job, s) {
          DenotesTree(RewriteStatus(job, s), Edited(job, s));
        }
      }
    }
  }
}
