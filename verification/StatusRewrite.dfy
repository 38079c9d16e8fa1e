/**
 The text surgery that `LocalPrintContextStore::rewrite_status_message` performs on every
 message a printer sends: it announces the file capability and adds the ids of the local job.
 */
module StatusRewrite {
  import opened Wrappers
  import opened Text
  import opened Decimal
  import opened Json
  import opened JsonReader
  import opened Escape

  /** The four ids of a local print job that a status message can carry. */
  datatype JobIds = JobIds(projectId: string, profileId: string, subtaskId: string, taskId: string)

  function FileObject(): string {
    "{" + (MemberText("local", Quote("local")) + "," + MemberText("remote", Quote("none")) + "," +
           MemberText("model_download", Quote("disabled"))) + "}"
  }

  function FileMember(): string {
    "\"file\":" + (FileObject() + ",")
  }

  function IpcamMember(): string {
    "\"ipcam\":{" + ("\"file\":" + (FileObject() + "},"))
  }

  function Insert(s: string, at: nat, x: string): string
    requires at <= |s|
  {
    s[..at] + x + s[at..]
  }

  /** Where the file member is missing from the ipcam object that follows `ipcamKey`. */
  function FileSpot(input: string, ipcamKey: nat): (r: Option<nat>)
    ensures r.Some? ==> ipcamKey < r.value <= |input|
  {
    match Find(input, "{", ipcamKey)
    case None => None
    case Some(ipcamObject) =>
      match Find(input, "}", ipcamObject)
      case None => None
      case Some(ipcamEnd) =>
        if Contains(input[ipcamObject..ipcamEnd], Quote("file")) then None else Some(ipcamObject + 1)
  }

  /** The first brace after the first `"print"`: where the code takes the print object to start. */
  function PrintObject(message: string): (r: Option<nat>)
    ensures r.Some? ==> r.value < |message|
  {
    match Find(message, Quote("print"), 0)
    case None => None
    case Some(printKey) => Find(message, "{", printKey)
  }

  function AddCapability(input: string, printObject: nat): string
    requires printObject < |input|
  {
    match Find(input, Quote("ipcam"), printObject)
    case None => Insert(input, printObject + 1, IpcamMember())
    case Some(ipcamKey) =>
      match FileSpot(input, ipcamKey)
      case None => input
      case Some(at) => Insert(input, at, FileMember())
  }

  function WithCapability(input: string): string {
    match PrintObject(input)
    case None => input
    case Some(printObject) => AddCapability(input, printObject)
  }

  lemma CapabilityWords()
    ensures Quote("print") == "\"print\"" && Quote("ipcam") == "\"ipcam\"" && Quote("file") == "\"file\""
  {
  }

  /** The first step of the rewriting, search by search. */
  method InjectFileCapability(input: string) returns (rewritten: string)
    ensures rewritten == WithCapability(input)
  {
    CapabilityWords();
    hide Find, FileMember, IpcamMember, Quote;
    rewritten := input;
    var printKey := Find(input, "\"print\"", 0);
    if printKey.None? {
      return;
    }
    var printObject := Find(input, "{", printKey.value);
    if printObject.None? {
      return;
    }
    var ipcamKey := Find(input, "\"ipcam\"", printObject.value);
    if ipcamKey.Some? {
      var ipcamObject := Find(input, "{", ipcamKey.value);
      if ipcamObject.Some? {
        var ipcamEnd := Find(input, "}", ipcamObject.value);
        if ipcamEnd.Some? {
          var ipcamBody := input[ipcamObject.value..ipcamEnd.value];
          if Find(ipcamBody, "\"file\"", 0).None? {
            var at := ipcamObject.value + 1;
            rewritten := input[..at] + FileMember() + input[at..];
          }
        }
      }
      return;
    }
    var at := printObject.value + 1;
    rewritten := input[..at] + IpcamMember() + input[at..];
  }

  function IdMember(key: string, id: string): string {
    "\"" + key + "\":\"" + JsonEscape(id) + "\","
  }

  function MissingMember(message: string, printKey: nat, key: string, id: string): string {
    if Find(message, Quote(key), printKey).Some? then "" else IdMember(key, id)
  }

  function MissingMembers(message: string, printKey: nat, ids: JobIds): string {
    MissingMember(message, printKey, "project_id", ids.projectId) +
    MissingMember(message, printKey, "profile_id", ids.profileId) +
    MissingMember(message, printKey, "subtask_id", ids.subtaskId) +
    MissingMember(message, printKey, "task_id", ids.taskId)
  }

  /** `ids` are those of the active local job on the message's device, if there is one. */
  function RewriteStatus(ids: Option<JobIds>, message: string): string {
    var capable := WithCapability(message);
    if ids.None? || PrintObject(capable).None? then capable
    else
      var printKey := Find(capable, Quote("print"), 0).value;
      Insert(capable, PrintObject(capable).value + 1, MissingMembers(capable, printKey, ids.value))
  }

  // ----- the message as a head, up to the brace of the print object, and a tail -----

  /** `head` ends with the first brace that follows its first `"print"`. */
  predicate Opens(head: string) {
    PrintObject(head) == Some(|head| - 1)
  }

  lemma WordsPlain()
    ensures PlainKey("print") && PlainKey("ipcam") && PlainKey("file")
    ensures PlainKey("project_id") && PlainKey("profile_id") && PlainKey("subtask_id") && PlainKey("task_id")
  {
    hide PlainKey;
    LettersPlain("print");
    LettersPlain("ipcam");
    LettersPlain("file");
    LettersPlain("project_id");
    LettersPlain("profile_id");
    LettersPlain("subtask_id");
    LettersPlain("task_id");
  }

  // The literal texts that the proofs below take apart.

  lemma PrintHeadText()
    ensures "{\"print\":{" == "{" + (Quote("print") + ":{") && Quote("print") + ":{" == Quote("print") + ":" + "{"
  {
  }

  lemma IpcamTexts()
    ensures "\"ipcam\"," == Quote("ipcam") + ","
    ensures "\"ipcam\":{" == Quote("ipcam") + ":" + "{"
  {
  }

  lemma FileKeyText()
    ensures "\"file\":" == Quote("file") + ":"
  {
  }

  lemma TrapFrontText()
    ensures "\"a\":{},\"ipcam\":{" == "\"a\":{}," + "\"ipcam\":{"
  {
  }

  lemma OpensFind(head: string, tail: string)
    requires Opens(head)
    ensures Find(head + tail, Quote("print"), 0) == Find(head, Quote("print"), 0)
    ensures PrintObject(head + tail) == Some(|head| - 1) && head[|head| - 1] == '{'
  {
    hide Find;
    var key := Find(head, Quote("print"), 0).value;
    WordsPlain();
    FindCharIs(head, '{', key);
    FindKeySplit(head, tail, "print", 0);
    FindCharSplit(head, tail, '{', key);
  }

  /** Every message with a print object splits into such a head and a tail. */
  lemma OpensPrefix(message: string)
    requires PrintObject(message).Some?
    ensures Opens(message[..PrintObject(message).value + 1])
  {
    hide Find;
    var key := Find(message, Quote("print"), 0).value;
    var at := PrintObject(message).value + 1;
    var head, tail := message[..at], message[at..];
    assert message == head + tail;
    FindCharIs(message, '{', key);
    WordsPlain();
    FindKeySplit(head, tail, "print", 0);
    FindCharSplit(head, tail, '{', key);
  }

  /** What the capability step does to the text after the brace of the print object. */
  function CapTail(tail: string): string {
    match Find(tail, Quote("ipcam"), 0)
    case None => IpcamMember() + tail
    case Some(key) =>
      match FileSpot(tail, key)
      case None => tail
      case Some(at) => Insert(tail, at, FileMember())
  }

  lemma InsertRight(a: string, b: string, at: nat, x: string)
    requires |a| <= at <= |a| + |b|
    ensures Insert(a + b, at, x) == a + Insert(b, at - |a|, x)
  {
    assert (a + b)[..at] == a + b[..at - |a|];
    assert (a + b)[at..] == b[at - |a|..];
  }

  lemma ShortFind(s: string, pat: string, from: nat)
    requires |s| < from + |pat|
    ensures Find(s, pat, from) == None
  {
  }

  lemma FileSpotShift(a: string, b: string, key: nat)
    ensures FileSpot(a + b, |a| + key) ==
            (if FileSpot(b, key).Some? then Some(|a| + FileSpot(b, key).value) else None)
  {
    hide Find;
    FindShift(a, b, "{", |a| + key);
    if Find(b, "{", key).Some? {
      var open := Find(b, "{", key).value;
      FindShift(a, b, "}", |a| + open);
      if Find(b, "}", open).Some? {
        var close := Find(b, "}", open).value;
        FindOrder(b, '{', '}', key);
        assert (a + b)[|a| + open..|a| + close] == b[open..close];
      }
    }
  }

  lemma FindOrder(s: string, x: char, y: char, from: nat)
    requires x != y && Find(s, [x], from).Some? && Find(s, [y], Find(s, [x], from).value).Some?
    ensures Find(s, [x], from).value < Find(s, [y], Find(s, [x], from).value).value
  {
    var i := Find(s, [x], from).value;
    assert s[i..i + 1] == [x];
    assert s[i] == x;
  }

  lemma KeyAfterBrace(head: string, tail: string, k: string)
    requires Opens(head) && PlainKey(k)
    ensures Find(head + tail, Quote(k), |head| - 1) ==
            (if Find(tail, Quote(k), 0).Some? then Some(|head| + Find(tail, Quote(k), 0).value) else None)
  {
    hide Find, PrintObject;
    OpensFind(head, tail);
    FindKeySplit(head, tail, k, |head| - 1);
    ShortFind(head, Quote(k), |head| - 1);
  }

  lemma InsertFront(tail: string, x: string)
    ensures Insert(tail, 0, x) == x + tail
  {
  }

  lemma AddTail(head: string, tail: string)
    requires Opens(head)
    ensures head != "" && AddCapability(head + tail, |head| - 1) == head + CapTail(tail)
  {
    hide Find, FileSpot, FileMember, IpcamMember, PrintObject, Quote, PlainKey, Insert;
    OpensFind(head, tail);
    WordsPlain();
    KeyAfterBrace(head, tail, "ipcam");
    match Find(tail, Quote("ipcam"), 0)
    case None =>
      InsertRight(head, tail, |head|, IpcamMember());
      InsertFront(tail, IpcamMember());
    case Some(k) =>
      FileSpotShift(head, tail, k);
      if FileSpot(tail, k).Some? {
        InsertRight(head, tail, |head| + FileSpot(tail, k).value, FileMember());
      }
  }

  lemma InjectTail(head: string, tail: string)
    requires Opens(head)
    ensures WithCapability(head + tail) == head + CapTail(tail)
  {
    OpensFind(head, tail);
    hide Find, FileSpot, PrintObject, AddCapability, CapTail, Opens;
    AddTail(head, tail);
  }

  lemma FindFromNext(s: string, pat: string, from: nat)
    requires !At(s, pat, from) && from < |s|
    ensures Find(s, pat, from) == Find(s, pat, from + 1)
  {
  }

  /** The brace that closes the file object comes after the file key. */
  lemma BraceAfterFile(back: string)
    requires Find("\"file\":" + back, "}", 0).Some?
    ensures var k := Find("\"file\":" + back, "}", 0).value;
            7 <= k && Contains("{" + ("\"file\":" + back)[..k], Quote("file"))
  {
    var file := "\"file\":";
    var k := Find(file + back, "}", 0).value;
    FileKeyText();
    assert |file| == 7 && '}' !in file;
    hide Find, Quote;
    FindCharSplit(file, back, '}', 0);
    NotFound(file, "}");
    var cut := (file + back)[..k];
    assert "{" + cut == "{" + Quote("file") + cut[6..];
    assert Contains(Quote("file"), Quote("file")) by {
      Found(Quote("file"), Quote("file"), 0);
    }
    ContainsMiddle("{", Quote("file"), cut[6..], Quote("file"));
  }

  /** An ipcam object that starts with the file member needs no other. */
  lemma FileSpotFixed(front: string, key: nat, back: string)
    requires Find(front, "{", key) == Some(|front| - 1)
    ensures FileSpot(front + ("\"file\":" + back), key) == None
  {
    hide Find;
    var z, open := "\"file\":" + back, |front| - 1;
    FindCharIs(front, '{', key);
    FindCharSplit(front, z, '{', key);
    FindFromNext(front + z, "}", open);
    FindShift(front, z, "}", |front|);
    if Find(z, "}", 0).Some? {
      var k := Find(z, "}", 0).value;
      BraceAfterFile(back);
      assert (front + z)[open..|front| + k] == "{" + z[..k];
    }
  }

  lemma CapFixed(front: string, back: string)
    requires Find(front, Quote("ipcam"), 0).Some?
    requires Find(front, "{", Find(front, Quote("ipcam"), 0).value) == Some(|front| - 1)
    ensures CapTail(front + ("\"file\":" + back)) == front + ("\"file\":" + back)
  {
    FindCharIs(front, '{', Find(front, Quote("ipcam"), 0).value);
    WordsPlain();
    FindKeySplit(front, "\"file\":" + back, "ipcam", 0);
    FileSpotFixed(front, Find(front, Quote("ipcam"), 0).value, back);
  }

  lemma IpcamFront()
    ensures Find("\"ipcam\":{", Quote("ipcam"), 0) == Some(0)
    ensures Find("\"ipcam\":{", "{", 0) == Some(8)
  {
    var front := Quote("ipcam") + ":" + "{";
    IpcamTexts();
    assert front[0..7] == Quote("ipcam");
    FindCharSplit(Quote("ipcam") + ":", "{", '{', 0);
    NotFound(Quote("ipcam") + ":", "{");
    assert "{"[0..1] == "{";
  }

  lemma CapTailIdempotent(tail: string)
    ensures CapTail(CapTail(tail)) == CapTail(tail)
  {
    hide Find, FileObject;
    match Find(tail, Quote("ipcam"), 0)
    case None =>
      IpcamFront();
      CapFixed("\"ipcam\":{", FileObject() + "}," + tail);
      assert IpcamMember() + tail == "\"ipcam\":{" + ("\"file\":" + (FileObject() + "}," + tail));
    case Some(key) =>
      if FileSpot(tail, key).Some? {
        var at := FileSpot(tail, key).value;
        var front, back := tail[..at], tail[at..];
        assert tail == front + back;
        FindCharIs(tail, '{', key);
        WordsPlain();
        FindKeySplit(front, back, "ipcam", 0);
        FindCharSplit(front, back, '{', key);
        CapFixed(front, FileObject() + "," + back);
        assert Insert(tail, at, FileMember()) == front + ("\"file\":" + (FileObject() + "," + back));
      }
  }

  /** The capability step never changes its own output, whatever the text. */
  lemma CapabilityIdempotent(message: string)
    ensures WithCapability(WithCapability(message)) == WithCapability(message)
  {
    hide Find, PrintObject, CapTail, AddCapability;
    if PrintObject(message).Some? {
      var at := PrintObject(message).value + 1;
      OpensPrefix(message);
      var head, tail := message[..at], message[at..];
      assert message == head + tail;
      InjectTail(head, tail);
      InjectTail(head, CapTail(tail));
      CapTailIdempotent(tail);
    }
  }

  // ----- adding the ids -----

  /** Where the code starts looking for the id keys. */
  function PrintKey(message: string): (r: nat)
    requires PrintObject(message).Some?
    ensures r < |message|
  {
    Find(message, Quote("print"), 0).value
  }

  lemma KeyHeld(head: string, tail: string, k: string)
    requires Opens(head) && PlainKey(k)
    ensures Find(head + tail, Quote(k), PrintKey(head)).Some? <==>
            Find(head, Quote(k), PrintKey(head)).Some? || Contains(tail, Quote(k))
  {
    hide Find, PrintObject;
    OpensFind(head, tail);
    FindKeySplit(head, tail, k, PrintKey(head));
  }

  lemma RewriteSplit(job: JobIds, head: string, tail: string)
    requires Opens(head)
    ensures RewriteStatus(Some(job), head + tail) ==
            head + (MissingMembers(head + CapTail(tail), PrintKey(head), job) + CapTail(tail))
  {
    hide Find, PrintObject, CapTail, MissingMembers, WithCapability;
    InjectTail(head, tail);
    var capable, extra := head + CapTail(tail), MissingMembers(head + CapTail(tail), PrintKey(head), job);
    OpensFind(head, CapTail(tail));
    assert capable[..|head|] == head && capable[|head|..] == CapTail(tail);
    assert Insert(capable, |head|, extra) == head + (extra + CapTail(tail));
  }

  /** A possibly empty run of members, each with its comma. */
  predicate Commas(x: string) {
    x == "" || x[|x| - 1] == ','
  }

  lemma IdMemberShows(key: string, id: string, k: string)
    requires PlainKey(key) && PlainKey(k) && !Names(key, k)
    ensures Contains(IdMember(key, id), Quote(k)) <==> Names(id, k)
  {
    hide Find, Contains, Names, JsonEscape, QuotesEscaped;
    PlainQuote(k, ',');
    EscapeQuotes(id);
    EscapeNames(id, k);
    var body := Quote(JsonEscape(id));
    QuotedIn(JsonEscape(id), k);
    MemberTextContains(key, body, k);
    ContainsSplit(MemberText(key, body), ",", Quote(k));
    NotFound(",", Quote(k));
    assert IdMember(key, id) == MemberText(key, body) + ",";
  }

  lemma NamesLast(raw: string, k: string)
    requires Names(raw, k) && k != ""
    ensures raw != "" && raw[|raw| - 1] == k[|k| - 1]
  {
    if raw != k {
      assert raw[|raw| - |k| - 1..][|k|] == raw[|raw| - 1];
    }
  }

  lemma MissingShows(message: string, printKey: nat, key: string, id: string)
    requires key in ["project_id", "profile_id", "subtask_id", "task_id"]
    ensures Commas(MissingMember(message, printKey, key, id))
    ensures Contains(MissingMember(message, printKey, key, id), Quote("ipcam")) ==> Names(id, "ipcam")
  {
    WordsPlain();
    assert key[|key| - 1] == 'd';
    if Names(key, "ipcam") {
      NamesLast(key, "ipcam");
    }
    IdMemberShows(key, id, "ipcam");
  }

  /** No id shows the word `ipcam` in quotes once it is written into the message. */
  predicate NoIpcamIds(job: JobIds) {
    !Names(job.projectId, "ipcam") && !Names(job.profileId, "ipcam") &&
    !Names(job.subtaskId, "ipcam") && !Names(job.taskId, "ipcam")
  }

  lemma AppendClean(a: string, b: string)
    requires Commas(a) && Commas(b)
    ensures Commas(a + b)
    ensures Contains(a + b, Quote("ipcam")) <==> Contains(a, Quote("ipcam")) || Contains(b, Quote("ipcam"))
  {
    WordsPlain();
    ContainsKeySplit(a, b, "ipcam");
  }

  lemma MissingCommas(message: string, printKey: nat, job: JobIds)
    ensures Commas(MissingMembers(message, printKey, job))
  {
    hide Find, MissingMember;
    MissingShows(message, printKey, "project_id", job.projectId);
    MissingShows(message, printKey, "profile_id", job.profileId);
    MissingShows(message, printKey, "subtask_id", job.subtaskId);
    MissingShows(message, printKey, "task_id", job.taskId);
  }

  lemma MissingClean(message: string, printKey: nat, job: JobIds)
    requires NoIpcamIds(job)
    ensures var x := MissingMembers(message, printKey, job);
            Commas(x) && !Contains(x, Quote("ipcam"))
  {
    hide Find, Contains, Commas, Quote, MissingMember, Names;
    var m1 := MissingMember(message, printKey, "project_id", job.projectId);
    var m2 := MissingMember(message, printKey, "profile_id", job.profileId);
    var m3 := MissingMember(message, printKey, "subtask_id", job.subtaskId);
    var m4 := MissingMember(message, printKey, "task_id", job.taskId);
    MissingShows(message, printKey, "project_id", job.projectId);
    MissingShows(message, printKey, "profile_id", job.profileId);
    MissingShows(message, printKey, "subtask_id", job.subtaskId);
    MissingShows(message, printKey, "task_id", job.taskId);
    AppendClean(m1, m2);
    AppendClean(m1 + m2, m3);
    AppendClean(m1 + m2 + m3, m4);
  }

  /** Members with no quoted `ipcam` in front of a settled tail leave it settled. */
  lemma CapShift(x: string, tail: string)
    requires Commas(x) && !Contains(x, Quote("ipcam")) && CapTail(tail) == tail
    ensures CapTail(x + tail) == x + tail
  {
    hide Find, FileMember, IpcamMember, Contains;
    WordsPlain();
    MemberLengths();
    FindKeySplit(x, tail, "ipcam", 0);
    assert Find(x, Quote("ipcam"), 0).None? by { ContainsMeans(x, Quote("ipcam")); }
    if Find(tail, Quote("ipcam"), 0).Some? {
      FileSpotShift(x, tail, Find(tail, Quote("ipcam"), 0).value);
      MemberLengths();
    }
  }

  lemma MemberLengths()
    ensures |FileMember()| > 0 && |IpcamMember()| > 0 && IpcamMember()[|IpcamMember()| - 1] == ','
  {
  }

  lemma ContainsMeans(s: string, pat: string)
    ensures Contains(s, pat) <==> Find(s, pat, 0).Some?
  {
  }

  lemma IdMemberHasKey(key: string, id: string)
    ensures Contains(IdMember(key, id), Quote(key))
  {
    var m := IdMember(key, id);
    assert m[0..|key| + 2] == Quote(key);
    Found(m, Quote(key), 0);
  }

  /** Once the run of members holding `key`'s member is in place, `key` is found. */
  lemma KeySettles(head: string, tail: string, a: string, b: string, key: string, id: string)
    requires Opens(head) && PlainKey(key)
    requires var m := MissingMember(head + tail, PrintKey(head), key, id);
             Commas(a + m + b)
    ensures var m := MissingMember(head + tail, PrintKey(head), key, id);
            MissingMember(head + (a + m + b + tail), PrintKey(head), key, id) == ""
  {
    hide Find, Contains, PrintObject, Quote, PlainKey, IdMember;
    var m := MissingMember(head + tail, PrintKey(head), key, id);
    var x := a + m + b;
    KeyHeld(head, tail, key);
    KeyHeld(head, x + tail, key);
    ContainsKeySplit(x, tail, key);
    if m == IdMember(key, id) {
      IdMemberHasKey(key, id);
      ContainsMiddle(a, m, b, Quote(key));
    }
  }

  /** After the missing members have been put in, none is missing. */
  lemma MissingSettles(head: string, tail: string, job: JobIds)
    requires Opens(head)
    ensures var x := MissingMembers(head + tail, PrintKey(head), job);
            Commas(x) && MissingMembers(head + (x + tail), PrintKey(head), job) == ""
  {
    hide Find, Contains, PrintObject, Quote, PlainKey, Commas, MissingMember;
    var message, pk := head + tail, PrintKey(head);
    var m1 := MissingMember(message, pk, "project_id", job.projectId);
    var m2 := MissingMember(message, pk, "profile_id", job.profileId);
    var m3 := MissingMember(message, pk, "subtask_id", job.subtaskId);
    var m4 := MissingMember(message, pk, "task_id", job.taskId);
    var x := MissingMembers(message, pk, job);
    WordsPlain();
    MissingCommas(message, pk, job);
    assert x == "" + m1 + (m2 + m3 + m4);
    KeySettles(head, tail, "", m2 + m3 + m4, "project_id", job.projectId);
    assert x == m1 + m2 + (m3 + m4);
    KeySettles(head, tail, m1, m3 + m4, "profile_id", job.profileId);
    assert x == (m1 + m2) + m3 + m4;
    KeySettles(head, tail, m1 + m2, m4, "subtask_id", job.subtaskId);
    assert x == (m1 + m2 + m3) + m4 + "";
    KeySettles(head, tail, m1 + m2 + m3, "", "task_id", job.taskId);
  }

  /** Rewriting a message twice is rewriting it once, unless an id reads as `ipcam`. */
  lemma RewriteIdempotent(job: JobIds, message: string)
    requires NoIpcamIds(job)
    ensures RewriteStatus(Some(job), RewriteStatus(Some(job), message)) == RewriteStatus(Some(job), message)
  {
    hide Find, PrintObject, CapTail, MissingMembers, AddCapability, Contains, NoIpcamIds;
    CapabilityIdempotent(message);
    if PrintObject(message).Some? {
      OpensPrefix(message);
      var at := PrintObject(message).value + 1;
      var head, tail := message[..at], message[at..];
      assert message == head + tail;
      var settled, pk := CapTail(tail), PrintKey(head);
      var x := MissingMembers(head + settled, pk, job);
      RewriteSplit(job, head, tail);
      CapTailIdempotent(tail);
      MissingClean(head + settled, pk, job);
      CapShift(x, settled);
      MissingSettles(head, settled, job);
      RewriteSplit(job, head, x + settled);
      assert "" + (x + settled) == x + settled;
    }
  }

  // ----- the condition is exact -----

  const ID_KEYS: seq<string> := ["project_id", "profile_id", "subtask_id", "task_id"]

  function IdOf(job: JobIds, key: string): string {
    if key == "project_id" then job.projectId
    else if key == "profile_id" then job.profileId
    else if key == "subtask_id" then job.subtaskId
    else job.taskId
  }

  function Marker(key: string, skip: string): seq<Member> {
    if key == skip then [] else [Member(key, Atom("0"))]
  }

  /** All id keys but one, each with a number. */
  function OtherIds(skip: string): seq<Member> {
    Marker("project_id", skip) + Marker("profile_id", skip) + Marker("subtask_id", skip) + Marker("task_id", skip)
  }

  function TrapMembers(skip: string): seq<Member> {
    [Member("a", Obj([])), Member("ipcam", Obj([Member("file", Atom("0"))]))] + OtherIds(skip)
  }

  /** A well-formed message that a second rewriting changes when `skip`'s id reads as `ipcam`. */
  function TrapMessage(skip: string): string {
    Print(Obj([Member("print", Obj(TrapMembers(skip)))]))
  }

  function TrapTail(skip: string): string {
    Join(MemberTexts(TrapMembers(skip))) + "}}"
  }

  lemma TrapHead(skip: string)
    ensures TrapMessage(skip) == "{\"print\":{" + TrapTail(skip)
  {
    hide TrapMembers;
    OneMemberText(Member("print", Obj(TrapMembers(skip))));
  }

  lemma TrapText(skip: string)
    ensures TrapTail(skip) ==
            MemberText("a", "{}") + ("," + MemberText("ipcam", "{\"file\":0}") + Rest(MemberTexts(OtherIds(skip)))) + "}}"
  {
    hide OtherIds, Marker;
    var others := MemberTexts(OtherIds(skip));
    var file := Member("file", Atom("0"));
    OneMemberText(file);
    var empty, inner := Member("a", Obj([])), Member("ipcam", Obj([file]));
    OneMemberText(empty);
    OneMemberText(inner);
    MemberTextsConcat([empty], [inner]);
    MemberTextsConcat([empty, inner], OtherIds(skip));
    assert [empty, inner] == [empty] + [inner];
    assert MemberTexts([]) == [] && Join([]) == "";
    assert Print(Obj([])) == "{" + "" + "}" == "{}";
    assert Print(inner.val) == "{\"file\":0}";
    var texts := [MemberText("a", "{}"), MemberText("ipcam", "{\"file\":0}")] + others;
    assert MemberTexts(TrapMembers(skip)) == texts;
    assert texts[1..] == [texts[1]] + others && texts[1..][1..] == others;
  }

  lemma TrapOpening(rest: string)
    ensures MemberText("a", "{}") + ("," + MemberText("ipcam", "{\"file\":0}") + rest) + "}}" ==
            "\"a\":{},\"ipcam\":{" + ("\"file\":" + ("0}" + (rest + "}}")))
  {
  }

  lemma NamesQuote(raw: string, k: string)
    requires Names(raw, k) && raw != k
    ensures '"' in raw
  {
    assert raw[|raw| - |k| - 1..][0] == '"';
  }

  lemma KeyNames(key: string, k: string)
    requires key in ID_KEYS + ["a", "ipcam", "file"]
    ensures Names(key, k) <==> key == k
  {
    assert '"' !in key;
    if Names(key, k) && key != k {
      NamesQuote(key, k);
    }
  }

  lemma MarkerMentions(key: string, skip: string, k: string)
    requires key in ID_KEYS
    ensures (exists m | m in Marker(key, skip) :: MemberMentions(m, k)) <==> key != skip && key == k
  {
    hide Names;
    KeyNames(key, k);
    assert MemberMentions(Member(key, Atom("0")), k) <==> key == k;
    if key != skip {
      assert Member(key, Atom("0")) in Marker(key, skip);
    }
  }

  lemma OtherMentions(skip: string, k: string)
    requires k in ID_KEYS
    ensures (exists m | m in OtherIds(skip) :: MemberMentions(m, k)) <==> k != skip
  {
    hide MemberMentions, Marker;
    MarkerMentions("project_id", skip, k);
    MarkerMentions("profile_id", skip, k);
    MarkerMentions("subtask_id", skip, k);
    MarkerMentions("task_id", skip, k);
  }

  lemma TrapMentions(skip: string, k: string)
    requires k in ID_KEYS
    ensures (exists m | m in TrapMembers(skip) :: MemberMentions(m, k)) <==> k != skip
  {
    hide Names, OtherIds;
    OtherMentions(skip, k);
    KeyNames("a", k);
    KeyNames("ipcam", k);
    KeyNames("file", k);
    var file, a := Member("file", Atom("0")), Member("a", Obj([]));
    assert !MemberMentions(file, k);
    assert forall m | m in [file] :: !MemberMentions(m, k);
    assert !MemberMentions(a, k) && !MemberMentions(Member("ipcam", Obj([file])), k);
  }

  lemma MarkerSafe(key: string, skip: string)
    requires '"' !in key
    ensures forall m | m in Marker(key, skip) :: QuotesEscaped(m.key) && QuoteSafe(m.val)
  {
  }

  lemma TrapOpeningSafe()
    ensures QuotesEscaped("a") && QuoteSafe(Obj([]))
    ensures QuotesEscaped("ipcam") && QuoteSafe(Obj([Member("file", Atom("0"))]))
  {
    assert QuoteSafe(Atom("0"));
    assert '"' !in "file";
  }

  lemma TrapSafe(skip: string)
    ensures forall m | m in TrapMembers(skip) :: QuotesEscaped(m.key) && QuoteSafe(m.val)
  {
    hide QuotesEscaped, QuoteSafe, Marker;
    MarkerSafe("project_id", skip);
    MarkerSafe("profile_id", skip);
    MarkerSafe("subtask_id", skip);
    MarkerSafe("task_id", skip);
    TrapOpeningSafe();
  }

  lemma TrapHolds(skip: string, k: string)
    requires skip in ID_KEYS && k in ID_KEYS
    ensures Contains(TrapTail(skip), Quote(k)) <==> k != skip
  {
    hide Find, Contains, MemberTexts, Join, TrapMembers, QuotesEscaped, QuoteSafe, MemberMentions, PlainKey;
    WordsPlain();
    var members := TrapMembers(skip);
    TrapSafe(skip);
    BodyMentions(members, k);
    ContainsSplit(Join(MemberTexts(members)), "}}", Quote(k));
    NotFound("}}", Quote(k));
    TrapMentions(skip, k);
  }

  lemma TrapHeadOpens()
    ensures Opens("{\"print\":{")
  {
    hide Find;
    var b := Quote("print") + ":{";
    PrintHeadText();
    TrapHeadPrint(b);
    FindShift("{", b, "{", 1);
    FindCharSplit(Quote("print") + ":", "{", '{', 0);
    NotFound(Quote("print") + ":", "{");
    FindIs("{", "{", 0, 0);
  }

  lemma TrapHeadPrint(b: string)
    requires b == Quote("print") + ":{"
    ensures Find("{" + b, Quote("print"), 0) == Some(1)
  {
    hide Find;
    WordsPlain();
    FindKeySplit("{", b, "print", 0);
    ShortFind("{", Quote("print"), 0);
    assert b[0..7] == Quote("print");
    FindIs(b, Quote("print"), 0, 0);
  }

  lemma TrapFront()
    ensures Find("\"a\":{},\"ipcam\":{", Quote("ipcam"), 0) == Some(7)
    ensures Find("\"a\":{},\"ipcam\":{", "{", 7) == Some(15)
  {
    WordsPlain();
    var a, b := "\"a\":{},", "\"ipcam\":{";
    TrapFrontText();
    IpcamFront();
    FindKeySplit(a, b, "ipcam", 0);
    FindShift(a, b, "{", 7);
    ShortKey();
  }

  lemma ShortKey()
    ensures Find("\"a\":{},", Quote("ipcam"), 0) == None
  {
    var a, pat := "\"a\":{},", Quote("ipcam");
    assert a[0..7][1] == 'a' && pat[1] == 'i';
    assert !At(a, pat, 0);
    ShortFind(a, pat, 1);
  }

  lemma TrapSettled(skip: string)
    ensures CapTail(TrapTail(skip)) == TrapTail(skip)
  {
    hide Find, CapTail, TrapTail;
    TrapText(skip);
    TrapOpening(Rest(MemberTexts(OtherIds(skip))));
    TrapFront();
    CapFixed("\"a\":{},\"ipcam\":{", "0}" + (Rest(MemberTexts(OtherIds(skip))) + "}}"));
  }

  lemma KeyBeforeId(key: string, k: string)
    requires PlainKey(key) && PlainKey(k) && !Names(key, k)
    ensures Find(Quote(key) + ":", Quote(k), 0) == None
  {
    hide Find, Names;
    ContainsSplit(Quote(key), ":", Quote(k));
    QuotedIn(key, k);
    NotFound(":", Quote(k));
  }

  lemma FindInBody(raw: string, k: string)
    requires QuotesEscaped(raw) && PlainKey(k) && Names(raw, k)
    ensures Find(Quote(raw) + ",", Quote(k), 0) == Some(|raw| - |k|)
    ensures Quote(raw) == Quote(raw)[..|raw| - |k|] + Quote(k)
  {
    hide Find, Names;
    QuotedIn(raw, k);
    ContainsMeans(Quote(raw), Quote(k));
    QuotedAt(raw, k, Find(Quote(raw), Quote(k), 0).value);
    PlainQuote(k, ',');
    FindSplit(Quote(raw), ",", Quote(k), 0);
    var i := |raw| - |k|;
    assert Quote(raw)[i..] == Quote(raw)[i..i + |Quote(k)|];
  }

  /** The member of a bad id ends with the quoted word. */
  lemma IdMemberSpot(key: string, id: string)
    requires PlainKey(key) && !Names(key, "ipcam") && Names(id, "ipcam")
    ensures var m := IdMember(key, id);
            8 <= |m| && Find(m, Quote("ipcam"), 0) == Some(|m| - 8)
  {
    hide Find, Names, JsonEscape, PlainKey;
    var esc, m := JsonEscape(id), IdMember(key, id);
    var a, b := Quote(key) + ":", Quote(esc) + ",";
    assert m == a + b;
    WordsPlain();
    EscapeQuotes(id);
    EscapeNames(id, "ipcam");
    KeyBeforeId(key, "ipcam");
    FindInBody(esc, "ipcam");
    FindKeySplit(a, b, "ipcam", 0);
  }

  lemma IdMemberTail(key: string, id: string)
    requires Names(id, "ipcam")
    ensures var m := IdMember(key, id);
            8 <= |m| && m == m[..|m| - 8] + "\"ipcam\","
  {
    hide Find, Names, JsonEscape, PlainKey;
    var esc := JsonEscape(id);
    WordsPlain();
    EscapeQuotes(id);
    EscapeNames(id, "ipcam");
    FindInBody(esc, "ipcam");
    var a, m := Quote(key) + ":", IdMember(key, id);
    EndsQuoted(a, Quote(esc), Quote("ipcam"));
    assert m == a + (Quote(esc) + ",");
    IpcamTexts();
  }

  lemma EndsQuoted(a: string, body: string, last: string)
    requires |last| <= |body| && body == body[..|body| - |last|] + last
    ensures var m := a + (body + ",");
            m == m[..|m| - |last| - 1] + (last + ",")
  {
    var m := a + (body + ",");
    var front := body[..|body| - |last|];
    assert m == a + front + (last + ",");
    assert m[..|m| - |last| - 1] == a + front;
  }

  lemma NoBraceAfterSpot(front: string)
    ensures Find(front + "\"ipcam\",", "{", |front|) == None
  {
    hide Find;
    FindShift(front, "\"ipcam\",", "{", |front|);
    NotFound("\"ipcam\",", "{");
  }

  lemma TrapHeadBare(k: string)
    requires k in ID_KEYS
    ensures !Contains("{\"print\":{", Quote(k))
  {
    hide Contains, Names;
    WordsPlain();
    var p := Quote("print");
    PrintHeadText();
    ContainsKeySplit("{", p + ":{", k);
    ContainsSplit(p, ":{", Quote(k));
    QuotedIn("print", k);
    if Names("print", k) {
      NamesLast("print", k);
    }
    NotFound("{", Quote(k));
    NotFound(":{", Quote(k));
  }

  lemma TrapMissingOne(skip: string, k: string, id: string)
    requires skip in ID_KEYS && k in ID_KEYS && Opens("{\"print\":{")
    ensures MissingMember("{\"print\":{" + TrapTail(skip), PrintKey("{\"print\":{"), k, id) ==
            if k == skip then IdMember(k, id) else ""
  {
    hide Find, TrapTail, PrintObject, PrintKey, IdMember, Contains;
    WordsPlain();
    var head := "{\"print\":{";
    KeyHeld(head, TrapTail(skip), k);
    TrapHolds(skip, k);
    TrapHeadBare(k);
    if Find(head, Quote(k), PrintKey(head)).Some? {
      Found(head, Quote(k), Find(head, Quote(k), PrintKey(head)).value);
    }
  }

  /** With a bad id under `skip`, rewriting the trap message twice is not rewriting it once. */
  lemma TrapSprings(job: JobIds, skip: string)
    requires skip in ID_KEYS && Names(IdOf(job, skip), "ipcam")
    ensures WellFormed(Obj([Member("print", Obj(TrapMembers(skip)))]))
    ensures RewriteStatus(Some(job), RewriteStatus(Some(job), TrapMessage(skip))) !=
            RewriteStatus(Some(job), TrapMessage(skip))
  {
    TrapWellFormed(skip);
    hide WellFormed, TrapMembers, Find, TrapTail, PrintObject, PrintKey, IdMember, CapTail, Names, MissingMember,
      Contains, RewriteStatus, TrapMessage;
    var head, c, x := "{\"print\":{", TrapTail(skip), IdMember(skip, IdOf(job, skip));
    TrapHeadOpens();
    TrapHead(skip);
    TrapSettled(skip);
    TrapMissingOne(skip, "project_id", job.projectId);
    TrapMissingOne(skip, "profile_id", job.profileId);
    TrapMissingOne(skip, "subtask_id", job.subtaskId);
    TrapMissingOne(skip, "task_id", job.taskId);
    assert MissingMembers(head + c, PrintKey(head), job) == x;
    RewriteSplit(job, head, c);
    RewriteSplit(job, head, x + c);
    TrapGrows(skip, IdOf(job, skip));
  }

  lemma ZeroWellFormed()
    ensures WellFormed(Atom("0"))
  {
    assert ToDecimal(0) == "0";
    NumberWellFormed(0);
  }

  lemma TrapKeysValid()
    ensures forall k | k in ["a", "ipcam", "file", "print"] + ID_KEYS :: ValidBody(k)
  {
    hide ValidBody;
    KeyValid("a");
    KeyValid("ipcam");
    KeyValid("file");
    KeyValid("print");
    KeyValid("project_id");
    KeyValid("profile_id");
    KeyValid("subtask_id");
    KeyValid("task_id");
  }

  lemma TrapWellFormed(skip: string)
    ensures WellFormed(Obj([Member("print", Obj(TrapMembers(skip)))]))
  {
    hide ValidBody, ValidAtom, TokenLength;
    TrapKeysValid();
    ZeroWellFormed();
    OtherIdsPlain(skip);
    hide OtherIds;
    var file := Member("file", Atom("0"));
    ObjectWellFormed([file]);
    ObjectWellFormed([]);
    ObjectWellFormed(TrapMembers(skip));
    ObjectWellFormed([Member("print", Obj(TrapMembers(skip)))]);
  }

  lemma ObjectWellFormed(members: seq<Member>)
    requires forall m | m in members :: ValidBody(m.key) && WellFormed(m.val)
    ensures WellFormed(Obj(members))
  {
  }

  lemma OtherIdsPlain(skip: string)
    ensures forall m | m in OtherIds(skip) :: m.key in ID_KEYS && m.val == Atom("0")
  {
  }

  lemma IdKeyNotIpcam(key: string)
    requires key in ID_KEYS
    ensures !Names(key, "ipcam")
  {
    assert key[|key| - 1] == 'd';
    if Names(key, "ipcam") {
      NamesLast(key, "ipcam");
    }
  }

  lemma IdMemberEnd(key: string, id: string)
    ensures IdMember(key, id) != "" && IdMember(key, id)[|IdMember(key, id)| - 1] == ','
  {
  }

  lemma TrapPieces(rest: string)
    ensures "\"a\":{},\"ipcam\":{" + rest == "\"a\":" + ("{" + ("}" + (",\"ipcam\":{" + rest)))
  {
  }

  /** The trap's first object is empty. */
  lemma TrapBraces(skip: string)
    ensures var c := TrapTail(skip);
            Find(c, "{", 0) == Some(4) && Find(c, "}", 4) == Some(5)
  {
    hide Find, TrapTail;
    var rest := Rest(MemberTexts(OtherIds(skip)));
    TrapText(skip);
    TrapOpening(rest);
    var back := "\"file\":" + ("0}" + (rest + "}}"));
    TrapPieces(back);
    var tail := ",\"ipcam\":{" + back;
    BraceAt("\"a\":", '{', "}" + tail);
    BraceNext("\"a\":", tail);
  }

  /** After the brace at the end of `front`, the next one closes it. */
  lemma BraceNext(front: string, tail: string)
    ensures Find(front + (['{'] + (['}'] + tail)), ['}'], |front|) == Some(|front| + 1)
  {
    hide Find;
    FindShift(front, ['{'] + (['}'] + tail), ['}'], |front|);
    BraceAt(['{'], '}', tail);
  }

  lemma TrapGrows(skip: string, id: string)
    requires skip in ID_KEYS && Names(id, "ipcam")
    ensures var x := IdMember(skip, id);
            |CapTail(x + TrapTail(skip))| > |x + TrapTail(skip)|
  {
    hide Find, TrapTail, IdMember, Names, FileMember, Contains;
    var x, c := IdMember(skip, id), TrapTail(skip);
    WordsPlain();
    IdKeyNotIpcam(skip);
    IdMemberSpot(skip, id);
    MemberLengths();
    IdMemberEnd(skip, id);
    IdMemberTail(skip, id);
    NoBraceAfterSpot(x[..|x| - 8]);
    FindKeySplit(x, c, "ipcam", 0);
    FindCharSplit(x, c, '{', |x| - 8);
    TrapBraces(skip);
    FindShift(x, c, "}", |x| + 4);
    FindCharIs(x + c, '{', |x| - 8);
    assert (x + c)[|x| + 4..|x| + 5] == "{";
    NotFound("{", Quote("file"));
  }

  /** Rewriting settles in one pass on every message exactly when no id reads as `ipcam`. */
  lemma RewriteIdempotentIff(job: JobIds)
    ensures (forall message :: RewriteStatus(Some(job), RewriteStatus(Some(job), message)) ==
                               RewriteStatus(Some(job), message))
       <==> NoIpcamIds(job)
  {
    hide RewriteStatus, Names, TrapMessage;
    if NoIpcamIds(job) {
      forall message
        ensures RewriteStatus(Some(job), RewriteStatus(Some(job), message)) == RewriteStatus(Some(job), message)
      {
        RewriteIdempotent(job, message);
      }
    } else {
      var bad := if Names(job.projectId, "ipcam") then "project_id"
                 else if Names(job.profileId, "ipcam") then "profile_id"
                 else if Names(job.subtaskId, "ipcam") then "subtask_id"
                 else "task_id";
      TrapSprings(job, bad);
    }
  }
}
