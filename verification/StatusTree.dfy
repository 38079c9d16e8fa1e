/**
 The text edit of `StatusRewrite`, seen as an edit of the JSON tree the message prints:
 the members it adds go to the front of the `print` object, wherever in the message that
 object sits, and nothing else changes.
 */
module StatusTree {
  import opened Wrappers
  import opened Text
  import opened Json
  import opened JsonSpot
  import opened Escape
  import opened StatusRewrite

  predicate SomeMention(members: seq<Member>, k: string) {
    exists m | m in members :: MemberMentions(m, k)
  }

  /** Some key or string printed before the spot shows the word `k` in quotes. */
  predicate MentionedBefore(spot: Spot, k: string) {
    match spot
    case Here(before, _) => SomeMention(before, k)
    case InMember(before, key, inner, _) => SomeMention(before, k) || Names(key, k) || MentionedBefore(inner, k)
    case InElem(left, inner, _) => (exists e | e in left :: Mentions(e, k)) || MentionedBefore(inner, k)
  }

  predicate MentionedAfter(spot: Spot, k: string) {
    match spot
    case Here(_, after) => SomeMention(after, k)
    case InMember(_, _, inner, after) => MentionedAfter(inner, k) || SomeMention(after, k)
    case InElem(_, inner, right) => MentionedAfter(inner, k) || exists e | e in right :: Mentions(e, k)
  }

  lemma LeadContains(open: string, texts: seq<string>, k: string)
    requires PlainKey(k) && open in ["{", "["]
    ensures Contains(open + Lead(texts), Quote(k)) <==> exists t | t in texts :: Contains(t, Quote(k))
    ensures (open + Lead(texts))[|open + Lead(texts)| - 1] in ",:{}[]"
  {
    PlainQuote(k, ',');
    JoinContains(texts, Quote(k));
    ContainsKeySplit(open, Lead(texts), k);
    NotFound(open, Quote(k));
    if texts != [] {
      ContainsSplit(Join(texts), ",", Quote(k));
      NotFound(",", Quote(k));
    }
  }

  lemma {:induction false} BeforeContains(spot: Spot, k: string)
    requires SafeAround(spot) && PlainKey(k)
    ensures Contains(Before(spot), Quote(k)) <==> MentionedBefore(spot, k)
    ensures Before(spot) != "" && Before(spot)[|Before(spot)| - 1] in ",:{}[]"
  {
    hide Contains, Quote, Names, QuotesEscaped, Lead, ElemTexts, MemberTexts, Mentions, MemberMentions, PlainKey,
      QuoteSafe;
    match spot
    case Here(before, _) =>
      MembersMention(before, k);
      LeadContains("{", MemberTexts(before), k);
    case InMember(before, key, inner, _) =>
      MembersMention(before, k);
      var lead := "{" + Lead(MemberTexts(before));
      LeadContains("{", MemberTexts(before), k);
      BeforeContains(inner, k);
      ContainsKeySplit(lead, MemberText(key, Before(inner)), k);
      MemberTextContains(key, Before(inner), k);
      assert Before(spot) == lead + MemberText(key, Before(inner));
    case InElem(left, inner, _) =>
      ElemsMention(left, k);
      var lead := "[" + Lead(ElemTexts(left));
      LeadContains("[", ElemTexts(left), k);
      BeforeContains(inner, k);
      ContainsKeySplit(lead, Before(inner), k);
  }

  lemma RestCloseContains(texts: seq<string>, close: string, k: string)
    requires PlainKey(k) && close in ["}", "]"]
    ensures Contains(Rest(texts) + close, Quote(k)) <==> exists t | t in texts :: Contains(t, Quote(k))
  {
    PlainQuote(k, ',');
    PlainQuote(k, close[0]);
    RestContains(texts, Quote(k));
    ContainsSplit(Rest(texts), close, Quote(k));
    NotFound(close, Quote(k));
  }

  lemma {:induction false} AfterContains(spot: Spot, k: string)
    requires SafeAround(spot) && PlainKey(k)
    ensures Contains(After(spot), Quote(k)) <==> MentionedAfter(spot, k)
    ensures After(spot) != "" && After(spot)[|After(spot)| - 1] in ",:{}[]"
  {
    hide Contains, Quote, Names, QuotesEscaped, Rest, ElemTexts, MemberTexts, Mentions, MemberMentions, PlainKey,
      QuoteSafe;
    match spot
    case Here(_, after) =>
      MembersMention(after, k);
      RestCloseContains(MemberTexts(after), "}", k);
    case InMember(_, _, inner, after) =>
      MembersMention(after, k);
      RestCloseContains(MemberTexts(after), "}", k);
      AfterContains(inner, k);
      ContainsKeySplit(After(inner), Rest(MemberTexts(after)) + "}", k);
      assert After(spot) == After(inner) + (Rest(MemberTexts(after)) + "}");
    case InElem(_, inner, right) =>
      ElemsMention(right, k);
      RestCloseContains(ElemTexts(right), "]", k);
      AfterContains(inner, k);
      ContainsKeySplit(After(inner), Rest(ElemTexts(right)) + "]", k);
      assert After(spot) == After(inner) + (Rest(ElemTexts(right)) + "]");
  }

  // ----- the edit on trees -----

  function FileMembers(): seq<Member> {
    [Member("local", Str("local")), Member("remote", Str("none")), Member("model_download", Str("disabled"))]
  }

  function CapabilityMember(): Member {
    Member("ipcam", Obj([Member("file", Obj(FileMembers()))]))
  }

  /** The word stands in the print object or after it. */
  predicate Present(spot: Spot, members: seq<Member>, k: string) {
    SomeMention(members, k) || MentionedAfter(spot, k)
  }

  /** The id's member, when the key is missing. */
  function MissingId(spot: Spot, members: seq<Member>, key: string, id: string): (ms: seq<Member>)
    ensures |ms| <= 1
  {
    if Present(spot, members, key) then [] else [Member(key, Str(JsonEscape(id)))]
  }

  /** `rest` with the missing ids of the job in front. */
  function WithIds(job: Option<JobIds>, spot: Spot, members: seq<Member>, rest: seq<Member>): seq<Member> {
    match job
    case None => rest
    case Some(ids) =>
      MissingId(spot, members, "project_id", ids.projectId) +
      (MissingId(spot, members, "profile_id", ids.profileId) +
       (MissingId(spot, members, "subtask_id", ids.subtaskId) +
        (MissingId(spot, members, "task_id", ids.taskId) + rest)))
  }

  function PrintMember(members: seq<Member>): Member {
    Member("print", Obj(members))
  }

  lemma FileObjectText()
    ensures Print(Obj(FileMembers())) == FileObject()
  {
    hide MemberText, MemberTexts, Join;
    BodyOfThree(FileMembers());
  }

  lemma CapabilityText()
    ensures MemberText(CapabilityMember().key, Print(CapabilityMember().val)) + "," == IpcamMember()
  {
    hide FileMembers, FileObject;
    FileObjectText();
    OneMemberText(Member("file", Obj(FileMembers())));
  }

  /** Putting a member in front of others puts its text and a comma in front of theirs. */
  lemma JoinCons(m: Member, members: seq<Member>)
    requires members != []
    ensures Join(MemberTexts([m] + members)) == MemberText(m.key, Print(m.val)) + "," + Join(MemberTexts(members))
  {
    hide MemberTexts, Print, MemberText;
    OneMemberText(m);
    MemberTextsConcat([m], members);
    var first, texts := MemberText(m.key, Print(m.val)), MemberTexts(members);
    assert ([first] + texts)[1..] == texts;
  }

  /** The text that a missing member puts in front. */
  function LeadText(ms: seq<Member>): string
    requires |ms| <= 1
  {
    if ms == [] then "" else MemberText(ms[0].key, Print(ms[0].val)) + ","
  }

  lemma JoinMaybe(ms: seq<Member>, rest: seq<Member>)
    requires |ms| <= 1 && rest != []
    ensures ms + rest != []
    ensures Join(MemberTexts(ms + rest)) == LeadText(ms) + Join(MemberTexts(rest))
  {
    hide MemberText, Join, MemberTexts;
    if ms == [] {
      assert ms + rest == rest;
    } else {
      assert ms == [ms[0]];
      JoinCons(ms[0], rest);
    }
  }

  lemma IdMemberText(key: string, id: string)
    ensures MemberText(key, Print(Str(JsonEscape(id)))) + "," == IdMember(key, id)
  {
  }

  /** The print object the text edit works on: not empty, and the first thing called `print`. */
  predicate Editable(spot: Spot, members: seq<Member>) {
    members != [] && SafeAround(spot) && SafeMembers(members) && !MentionedBefore(spot, "print")
  }

  function Head(spot: Spot): string {
    Before(spot) + "\"print\":{"
  }

  function Tail(spot: Spot, members: seq<Member>): string {
    Join(MemberTexts(members)) + "}" + After(spot)
  }

  lemma HeadTail(spot: Spot, members: seq<Member>)
    ensures Print(Plug(spot, PrintMember(members))) == Head(spot) + Tail(spot, members)
  {
    hide Before, After, MemberTexts, Join, MemberText, Plug;
    PlugPrints(spot, PrintMember(members));
    Regroup(Before(spot), Join(MemberTexts(members)), After(spot));
  }

  lemma Regroup(before: string, body: string, after: string)
    ensures before + MemberText("print", "{" + body + "}") + after == before + "\"print\":{" + (body + "}" + after)
  {
  }

  lemma HeadOpens(spot: Spot)
    requires SafeAround(spot) && !MentionedBefore(spot, "print")
    ensures Opens(Head(spot)) && PrintKey(Head(spot)) == |Before(spot)|
  {
    hide Find, Before, MentionedBefore, SafeAround;
    WordsPlain();
    BeforeContains(spot, "print");
    ContainsMeans(Before(spot), Quote("print"));
    var b, p := Before(spot), Quote("print") + ":{";
    assert Head(spot) == b + p;
    FindKeySplit(b, p, "print", 0);
    assert p[0..7] == Quote("print");
    FindIs(p, Quote("print"), 0, 0);
    FindShift(b, p, "{", |b|);
    BraceAt(Quote("print") + ":", '{', "");
    assert Quote("print") + ":" + (['{'] + "") == p;
  }

  /** Searching the tail for a word finds what the tree shows in or after the print object. */
  lemma TailShows(spot: Spot, members: seq<Member>, k: string)
    requires SafeAround(spot) && SafeMembers(members) && PlainKey(k)
    ensures Contains(Tail(spot, members), Quote(k)) <==> Present(spot, members, k)
  {
    hide Contains, Join, MemberTexts, After, MentionedAfter, SafeAround, Names, PlainKey;
    BodyMentions(members, k);
    AfterContains(spot, k);
    PlainQuote(k, '}');
    ContainsSplit(Join(MemberTexts(members)), "}", Quote(k));
    NotFound("}", Quote(k));
    ContainsKeySplit(Join(MemberTexts(members)) + "}", After(spot), k);
  }

  lemma CapabilityLacks(k: string)
    requires k in ID_KEYS
    ensures !Contains(IpcamMember(), Quote(k))
  {
    hide Contains, IpcamMember, Mentions, MemberMentions, QuoteSafe, MemberText, CapabilityMember, Join;
    WordsPlain();
    var m := CapabilityMember();
    CapabilityText();
    CapabilityNames(k);
    PrintMentions(Obj([m]), k);
    OneMemberText(m);
    var text := MemberText(m.key, Print(m.val));
    ListContains("{", MemberTexts([m]), "}", Quote(k));
    ContainsSplit(text, ",", Quote(k));
    NotFound(",", Quote(k));
  }

  lemma WordLacks(word: string, k: string)
    requires k in ID_KEYS
    requires word in ["ipcam", "file", "local", "remote", "none", "model_download", "disabled"]
    ensures !Names(word, k) && QuotesEscaped(word)
  {
    assert '"' !in word;
    if Names(word, k) && word != k {
      NamesQuote(word, k);
    }
  }

  lemma CapabilityNames(k: string)
    requires k in ID_KEYS
    ensures !Mentions(Obj([CapabilityMember()]), k) && QuoteSafe(Obj([CapabilityMember()]))
  {
    hide Names, QuotesEscaped;
    WordLacks("ipcam", k);
    WordLacks("file", k);
    WordLacks("local", k);
    WordLacks("remote", k);
    WordLacks("none", k);
    WordLacks("model_download", k);
    WordLacks("disabled", k);
    var inner := Obj(FileMembers());
    assert forall m | m in FileMembers() :: !MemberMentions(m, k) && QuotesEscaped(m.key) && QuoteSafe(m.val);
    assert !Mentions(inner, k) && QuoteSafe(inner);
    var file := Obj([Member("file", inner)]);
    assert forall m | m in [Member("file", inner)] :: !MemberMentions(m, k) && QuoteSafe(m.val);
    assert !Mentions(file, k) && QuoteSafe(file);
    assert !MemberMentions(CapabilityMember(), k);
  }

  lemma TrapHeadBareTail(k: string)
    requires k in ID_KEYS
    ensures Find("\"print\":{", Quote(k), 0) == None
  {
    hide Find, Contains;
    WordsPlain();
    TrapHeadBare(k);
    assert "{\"print\":{" == "{" + "\"print\":{";
    ContainsKeySplit("{", "\"print\":{", k);
    ContainsMeans("\"print\":{", Quote(k));
  }

  lemma TailCons(spot: Spot, longer: seq<Member>, members: seq<Member>, text: string)
    requires Join(MemberTexts(longer)) == text + Join(MemberTexts(members))
    ensures Tail(spot, longer) == text + Tail(spot, members)
  {
  }

  /** The id is missing from the text exactly when the tree does not show its key. */
  lemma MissingIs(spot: Spot, members: seq<Member>, tail: string, key: string, id: string)
    requires Editable(spot, members) && key in ID_KEYS
    requires Contains(tail, Quote(key)) <==> Present(spot, members, key)
    ensures MissingMember(Head(spot) + tail, |Before(spot)|, key, id) == LeadText(MissingId(spot, members, key, id))
  {
    hide Find, Contains, IdMember, Before, PrintKey, Present, MemberText, JsonEscape;
    WordsPlain();
    HeadOpens(spot);
    KeyHeld(Head(spot), tail, key);
    FindShift(Before(spot), "\"print\":{", Quote(key), |Before(spot)|);
    TrapHeadBareTail(key);
    IdMemberText(key, id);
  }

  /** The missing ids, as text in front of the tail and as members in front of `rest`. */
  lemma IdsAreMembers(job: JobIds, spot: Spot, members: seq<Member>, tail: string, rest: seq<Member>)
    requires Editable(spot, members) && rest != []
    requires forall k | k in ID_KEYS :: Contains(tail, Quote(k)) <==> Present(spot, members, k)
    ensures Join(MemberTexts(WithIds(Some(job), spot, members, rest))) ==
            MissingMembers(Head(spot) + tail, |Before(spot)|, job) + Join(MemberTexts(rest))
  {
    hide Contains, Present, Editable, Join, MemberTexts, LeadText, MissingId, MissingMember, Head, Before;
    MissingIs(spot, members, tail, "project_id", job.projectId);
    MissingIs(spot, members, tail, "profile_id", job.profileId);
    MissingIs(spot, members, tail, "subtask_id", job.subtaskId);
    MissingIs(spot, members, tail, "task_id", job.taskId);
    var m1, m2 := MissingId(spot, members, "project_id", job.projectId), MissingId(spot, members, "profile_id", job.profileId);
    var m3, m4 := MissingId(spot, members, "subtask_id", job.subtaskId), MissingId(spot, members, "task_id", job.taskId);
    JoinMaybe(m4, rest);
    JoinMaybe(m3, m4 + rest);
    JoinMaybe(m2, m3 + (m4 + rest));
    JoinMaybe(m1, m2 + (m3 + (m4 + rest)));
    FiveTexts(LeadText(m1), LeadText(m2), LeadText(m3), LeadText(m4), Join(MemberTexts(rest)));
  }

  lemma FiveTexts(a: string, b: string, c: string, d: string, e: string)
    ensures a + (b + (c + (d + e))) == a + b + c + d + e
  {
  }

  /**
   Once the capability step has turned the tail into that of `rest`, the whole rewriting puts the
   missing ids in front of `rest`.
   */
  lemma RewriteFromTail(job: Option<JobIds>, spot: Spot, members: seq<Member>, rest: seq<Member>)
    requires Editable(spot, members) && rest != []
    requires CapTail(Tail(spot, members)) == Tail(spot, rest)
    requires forall k | k in ID_KEYS :: Contains(Tail(spot, rest), Quote(k)) <==> Present(spot, members, k)
    ensures RewriteStatus(job, Print(Plug(spot, PrintMember(members)))) ==
            Print(Plug(spot, PrintMember(WithIds(job, spot, members, rest))))
  {
    hide Contains, Present, CapTail, Head, Tail, Before, Print, Plug, PrintMember, Opens, PrintKey, MissingMembers,
      Join, MemberTexts, WithCapability;
    var head, tail := Head(spot), Tail(spot, members);
    HeadTail(spot, members);
    HeadOpens(spot);
    match job
    case None =>
      InjectTail(head, tail);
      HeadTail(spot, rest);
    case Some(ids) =>
      hide RewriteStatus, WithIds;
      RewriteSplit(ids, head, tail);
      IdsAreMembers(ids, spot, members, Tail(spot, rest), rest);
      var longer := WithIds(job, spot, members, rest);
      TailCons(spot, longer, rest, MissingMembers(head + Tail(spot, rest), |Before(spot)|, ids));
      HeadTail(spot, longer);
  }

  /**
   Without a word about ipcam in or after the print object, the rewriting puts the missing ids of
   the job, if there is one, and then the capability member at the front of the object, and changes
   nothing else.
   */
  lemma RewriteIsTreeEdit(job: Option<JobIds>, spot: Spot, members: seq<Member>)
    requires Editable(spot, members) && !Present(spot, members, "ipcam")
    ensures RewriteStatus(job, Print(Plug(spot, PrintMember(members)))) ==
            Print(Plug(spot, PrintMember(WithIds(job, spot, members, [CapabilityMember()] + members))))
  {
    hide Find, Contains, Present, IpcamMember, Tail, CapabilityMember, Join, MemberTexts, Print, Plug, PrintMember,
      MemberText, RewriteStatus, Quote;
    var tail, rest := Tail(spot, members), [CapabilityMember()] + members;
    WordsPlain();
    TailShows(spot, members, "ipcam");
    ContainsMeans(tail, Quote("ipcam"));
    CapabilityText();
    JoinCons(CapabilityMember(), members);
    TailCons(spot, rest, members, IpcamMember());
    forall k | k in ID_KEYS ensures Contains(Tail(spot, rest), Quote(k)) <==> Present(spot, members, k) {
      TailShows(spot, members, k);
      CapabilityLacks(k);
      MemberLengths();
      ContainsKeySplit(IpcamMember(), tail, k);
    }
    RewriteFromTail(job, spot, members, rest);
  }

  /** With no active job that is the capability member alone, whichever ids the message carries. */
  lemma RewriteAddsCapability(spot: Spot, members: seq<Member>)
    requires Editable(spot, members) && !Present(spot, members, "ipcam")
    ensures RewriteStatus(None, Print(Plug(spot, PrintMember(members)))) ==
            Print(Plug(spot, PrintMember([CapabilityMember()] + members)))
  {
    hide RewriteStatus, Print, Plug, Editable, Present;
    RewriteIsTreeEdit(None, spot, members);
  }

  // ----- an ipcam object that is there already -----

  function FileField(): Member {
    Member("file", Obj(FileMembers()))
  }

  function IpcamOf(fields: seq<Member>): Member {
    Member("ipcam", Obj(fields))
  }

  /** The word `file` stands before the first closing brace of the ipcam object, where the code looks for it. */
  predicate EarlyFile(fields: seq<Member>) {
    var text := Print(Obj(fields));
    Find(text, "}", 0).Some? && Contains(text[..Find(text, "}", 0).value], Quote("file"))
  }

  function WithFile(fields: seq<Member>): seq<Member> {
    if EarlyFile(fields) then fields else [FileField()] + fields
  }

  /** The members of the print object with the ipcam object at the place `inner`. */
  function PrintMembers(inner: Spot, fields: seq<Member>): (members: seq<Member>)
    requires !inner.InElem?
    ensures members != [] && Obj(members) == Plug(inner, IpcamOf(fields))
  {
    Plug(inner, IpcamOf(fields)).members
  }

  /** The text before the ipcam object's first field, inside the print object. */
  function IpcamLead(inner: Spot): string
    requires !inner.InElem?
  {
    Before(inner)[1..] + "\"ipcam\":{"
  }

  function IpcamBack(spot: Spot, inner: Spot, fields: seq<Member>): string {
    Join(MemberTexts(fields)) + "}" + (After(inner) + After(spot))
  }

  lemma BeforeBrace(inner: Spot)
    requires !inner.InElem?
    ensures Before(inner) == "{" + Before(inner)[1..]
  {
  }

  lemma BracedText(ms: seq<Member>)
    ensures Print(Obj(ms)) == "{" + (Join(MemberTexts(ms)) + "}")
  {
  }

  lemma IpcamTail(spot: Spot, inner: Spot, fields: seq<Member>)
    requires !inner.InElem?
    ensures Tail(spot, PrintMembers(inner, fields)) == IpcamLead(inner) + IpcamBack(spot, inner, fields)
  {
    BeforeBrace(inner);
    hide Join, MemberTexts, Print, Before, After, Plug;
    var members, b := PrintMembers(inner, fields), Before(inner)[1..];
    PlugPrints(inner, IpcamOf(fields));
    BracedText(members);
    BracedText(fields);
    IpcamTexts();
    IpcamRegroup(b, Join(MemberTexts(members)), Join(MemberTexts(fields)), After(inner), After(spot));
  }

  lemma IpcamRegroup(b: string, body: string, fields: string, x: string, y: string)
    requires "{" + (body + "}") == ("{" + b) + MemberText("ipcam", "{" + (fields + "}")) + x
    ensures body + "}" + y == (b + "\"ipcam\":{") + (fields + "}" + (x + y))
  {
    var all := ("{" + b) + MemberText("ipcam", "{" + (fields + "}")) + x;
    assert all[1..] == body + "}";
    assert all[1..] == (b + "\"ipcam\":{") + (fields + "}" + x);
  }

  /** The first word `ipcam` of the tail is that object's key. */
  lemma IpcamKey(spot: Spot, inner: Spot, fields: seq<Member>)
    requires !inner.InElem? && SafeAround(inner) && !MentionedBefore(inner, "ipcam")
    ensures Find(IpcamLead(inner) + IpcamBack(spot, inner, fields), Quote("ipcam"), 0) == Some(|Before(inner)| - 1)
  {
    hide Find, Before, MentionedBefore, SafeAround, IpcamBack;
    WordsPlain();
    BeforeContains(inner, "ipcam");
    BeforeBrace(inner);
    var b, z := Before(inner)[1..], IpcamBack(spot, inner, fields);
    ContainsKeySplit("{", b, "ipcam");
    ContainsMeans(b, Quote("ipcam"));
    IpcamFront();
    FindPrefix("\"ipcam\":{", z, Quote("ipcam"), 0);
    FindKeySplit(b, "\"ipcam\":{" + z, "ipcam", 0);
    assert (b + "\"ipcam\":{") + z == b + ("\"ipcam\":{" + z);
  }

  lemma ClosingFound(fields: seq<Member>)
    ensures Find(Print(Obj(fields)), "}", 0).Some?
  {
    hide Find;
    var text := Print(Obj(fields));
    BracedText(fields);
    assert text[|text| - 1..] == "}";
    Found(text, "}", |text| - 1);
    ContainsMeans(text, "}");
  }

  /** The code finds the place for the file member just inside that object, unless it sees the word there. */
  lemma IpcamSpot(b: string, fields: seq<Member>, x: string)
    ensures var tail := (b + "\"ipcam\":{") + (Join(MemberTexts(fields)) + "}" + x);
            FileSpot(tail, |b|) == if EarlyFile(fields) then None else Some(|b| + 9)
  {
    hide Find, Join, MemberTexts, Print, Contains, Quote;
    var text, key := Print(Obj(fields)), "\"ipcam\":";
    var tail := (b + "\"ipcam\":{") + (Join(MemberTexts(fields)) + "}" + x);
    BracedText(fields);
    ClosingFound(fields);
    var p := Find(text, "}", 0).value;
    assert tail == (b + key) + (text + x);
    assert tail == b + (key + (text + x));
    FindPrefix(text, x, "}", 0);
    FindShift(b + key, text + x, "}", |b + key|);
    BraceAt(key, '{', (text + x)[1..]);
    assert text + x == "{" + (text + x)[1..];
    FindShift(b, key + (text + x), "{", |b|);
    assert tail[|b + key|..|b + key| + p] == text[..p];
  }

  lemma FileFieldText()
    ensures MemberText(FileField().key, Print(FileField().val)) + "," == FileMember()
  {
    hide FileMembers, FileObject;
    FileObjectText();
  }

  /** The capability step on a message with an ipcam object gives that object its file member. */
  lemma CapWithFile(spot: Spot, inner: Spot, fields: seq<Member>)
    requires !inner.InElem? && SafeAround(inner) && !MentionedBefore(inner, "ipcam") && fields != []
    ensures CapTail(Tail(spot, PrintMembers(inner, fields))) == Tail(spot, PrintMembers(inner, WithFile(fields)))
  {
    hide Find, Join, MemberTexts, Print, Before, After, Tail, MentionedBefore, SafeAround, FileSpot, EarlyFile,
      FileMember, FileField, IpcamMember, MemberText, Insert, Quote, PrintMembers;
    IpcamTail(spot, inner, fields);
    IpcamTail(spot, inner, WithFile(fields));
    IpcamKey(spot, inner, fields);
    BeforeBrace(inner);
    var b, x := Before(inner)[1..], After(inner) + After(spot);
    IpcamSpot(b, fields, x);
    var front, back := IpcamLead(inner), IpcamBack(spot, inner, fields);
    if !EarlyFile(fields) {
      FileFieldText();
      JoinCons(FileField(), fields);
      InsertRight(front, back, |front|, FileMember());
      InsertFront(back, FileMember());
      FourTexts(FileMember(), Join(MemberTexts(fields)), x);
    }
  }

  lemma FourTexts(a: string, b: string, c: string)
    ensures a + (b + "}" + c) == (a + b) + "}" + c
  {
  }

  lemma FileMemberLacks(k: string)
    requires k in ID_KEYS
    ensures !Contains(FileMember(), Quote(k)) && FileMember() != "" && FileMember()[|FileMember()| - 1] == ','
  {
    hide Contains, FileObject;
    CapabilityLacks(k);
    var text := "\"file\":" + FileObject();
    assert FileMember() == text + ",";
    assert IpcamMember() == "\"ipcam\":{" + text + "},";
    ContainsSplit(text, ",", Quote(k));
    NotFound(",", Quote(k));
    if Contains(text, Quote(k)) {
      ContainsMiddle("\"ipcam\":{", text, "},", Quote(k));
    }
  }

  /** Which ids the text shows does not depend on the file member. */
  lemma FileKeepsIds(spot: Spot, inner: Spot, fields: seq<Member>, k: string)
    requires !inner.InElem? && k in ID_KEYS && fields != []
    ensures Contains(Tail(spot, PrintMembers(inner, WithFile(fields))), Quote(k)) <==>
            Contains(Tail(spot, PrintMembers(inner, fields)), Quote(k))
  {
    hide Contains, Join, MemberTexts, Print, Before, After, Tail, EarlyFile, FileMember, FileField, MemberText, Quote,
      PrintMembers;
    IpcamTail(spot, inner, fields);
    IpcamTail(spot, inner, WithFile(fields));
    WordsPlain();
    if !EarlyFile(fields) {
      var front, back := IpcamLead(inner), IpcamBack(spot, inner, fields);
      FileFieldText();
      JoinCons(FileField(), fields);
      FourTexts(FileMember(), Join(MemberTexts(fields)), After(inner) + After(spot));
      FileMemberLacks(k);
      ContainsKeySplit(front, back, k);
      ContainsKeySplit(front, FileMember() + back, k);
      ContainsKeySplit(FileMember(), back, k);
    }
  }

  /**
   When the first word ipcam of the print object is the key of a non-empty object, the rewriting puts
   the missing ids at the front of the print object, and the file member at the front of the ipcam
   object unless the word `file` stands before that object's first closing brace; nothing else changes.
   */
  lemma RewriteExtendsIpcam(job: Option<JobIds>, spot: Spot, inner: Spot, fields: seq<Member>)
    requires !inner.InElem? && SafeAround(inner) && !MentionedBefore(inner, "ipcam") && fields != []
    requires Editable(spot, PrintMembers(inner, fields))
    ensures var members := PrintMembers(inner, fields);
            RewriteStatus(job, Print(Plug(spot, PrintMember(members)))) ==
            Print(Plug(spot, PrintMember(WithIds(job, spot, members, PrintMembers(inner, WithFile(fields))))))
  {
    hide Contains, Present, CapTail, Tail, Print, Plug, PrintMember, RewriteStatus, EarlyFile, WithFile, WithIds,
      PlainKey;
    var members, rest := PrintMembers(inner, fields), PrintMembers(inner, WithFile(fields));
    CapWithFile(spot, inner, fields);
    forall k | k in ID_KEYS ensures Contains(Tail(spot, rest), Quote(k)) <==> Present(spot, members, k) {
      WordsPlain();
      TailShows(spot, members, k);
      FileKeepsIds(spot, inner, fields, k);
    }
    RewriteFromTail(job, spot, members, rest);
  }

  /** In a flat ipcam object, one with no brace inside, the word stands there exactly when a field shows it. */
  lemma EarlyFileFlat(fields: seq<Member>)
    requires SafeMembers(fields) && '}' !in Join(MemberTexts(fields))
    ensures EarlyFile(fields) <==> SomeMention(fields, "file")
  {
    hide Find, Contains, Join, MemberTexts, Print, MemberMentions;
    var body := Join(MemberTexts(fields));
    WordsPlain();
    BracedText(fields);
    BraceAt("{" + body, '}', "");
    assert Print(Obj(fields)) == ("{" + body) + (['}'] + "");
    assert Print(Obj(fields))[..|body| + 1] == "{" + body;
    BodyMentions(fields, "file");
    ContainsKeySplit("{", body, "file");
    NotFound("{", Quote("file"));
  }
}
