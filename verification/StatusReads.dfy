/** What the rewriting makes of a status message, blanks and all, in terms of its tree. */
module StatusReads {
  import opened Wrappers
  import opened Text
  import opened Decimal
  import opened Json
  import opened JsonSpot
  import opened JsonReader
  import opened JsonStrings
  import opened JsonTokens
  import opened JsonCuts
  import opened JsonEdit
  import opened JsonWords
  import opened StatusRewrite
  import opened StatusTree
  import opened SpotTokens
  import opened StatusLegal

  lemma {:induction false} PlugSafe(spot: Spot, m: Member)
    requires QuoteSafe(Plug(spot, m))
    ensures SafeAround(spot) && QuotesEscaped(m.key) && QuoteSafe(m.val)
  {
    hide QuotesEscaped;
    match spot
    case Here(before, after) =>
      var all := before + [m] + after;
      assert all[|before|] == m;
      assert (forall x | x in before :: x in all) && (forall x | x in after :: x in all) && m in all;
    case InMember(before, key, inner, after) =>
      var n := Member(key, Plug(inner, m));
      var all := before + [n] + after;
      assert all[|before|] == n;
      assert (forall x | x in before :: x in all) && (forall x | x in after :: x in all) && n in all;
      PlugSafe(inner, m);
    case InElem(left, inner, right) =>
      var all := left + [Plug(inner, m)] + right;
      assert all[|left|] == Plug(inner, m);
      assert (forall x | x in left :: x in all) && (forall x | x in right :: x in all) && Plug(inner, m) in all;
      PlugSafe(inner, m);
  }

  /** Every compact legal message whose first word print is the key of a non-empty object is one the tree edits are about. */
  lemma LegalEditable(spot: Spot, members: seq<Member>)
    requires WellFormed(Plug(spot, PrintMember(members))) && members != [] && !MentionedBefore(spot, "print")
    ensures Editable(spot, members)
  {
    LegalSafe(Plug(spot, PrintMember(members)));
    PlugSafe(spot, PrintMember(members));
  }

  lemma {:induction false} BeforeEnds(spot: Spot)
    ensures var toks := BeforeTokens(spot); toks != [] && toks[|toks| - 1].Punct?
  {
    hide TreeTokens;
    match spot
    case Here(before, _) =>
      if before != [] {
        RunEnds(before);
      }
    case InMember(_, _, inner, _) => BeforeEnds(inner);
    case InElem(_, inner, _) => BeforeEnds(inner);
  }

  /** The tokens around an object at a place in the tree. */
  lemma ObjectTokens(spot: Spot, key: string, fields: seq<Member>)
    ensures TreeTokens(Plug(spot, Member(key, Obj(fields)))) ==
            BeforeTokens(spot) + ([Quoted(key)] + ([Punct(':')] + ([Punct('{')] + (ItemsTokens(fields, true) + AfterTokens(spot)))))
  {
    hide TreeTokens, ItemsTokens, BeforeTokens, AfterTokens, Plug;
    var m := Member(key, Obj(fields));
    PlugTokens(spot, m);
    KeyedItem(m);
    OpenObject(fields);
    Associated([Quoted(key), Punct(':')], TreeTokens(m.val), AfterTokens(spot));
    Associated([Punct('{')], ItemsTokens(fields, true), AfterTokens(spot));
    var rest := [Punct('{')] + (ItemsTokens(fields, true) + AfterTokens(spot));
    assert [Quoted(key), Punct(':')] + rest == [Quoted(key)] + ([Punct(':')] + rest);
  }

  lemma OpenObject(fields: seq<Member>)
    ensures TreeTokens(Obj(fields)) == [Punct('{')] + ItemsTokens(fields, true)
  {
  }

  /** The message split behind the brace of the print object. */
  lemma PrintFound(s: string, spot: Spot, members: seq<Member>) returns (head: string, tail: string)
    requires IsJson(s) && Tree(s) == Plug(spot, PrintMember(members)) && !MentionedBefore(spot, "print")
    ensures s == head + tail && Opens(head) && PrintObject(s) == Some(|head| - 1) && PrintKey(s) == PrintKey(head)
    ensures head != "" && head[|head| - 1] == '{' && Lex(head).Some? && |Lex(head).value| == |BeforeTokens(spot)| + 3
    ensures Lex(tail) == Some(ItemsTokens(members, true) + AfterTokens(spot))
    ensures forall k | PlainKey(k) && !Names("print", k) :: Find(head, Quote(k), PrintKey(head)) == None
  {
    hide Lex, Find, SomeShows, Names, TreeTokens, ItemsTokens, BeforeTokens, AfterTokens, Quote, PlainKey, ReadValue,
      Plug;
    WordsPlain();
    JsonTokensOf(s);
    ObjectTokens(spot, "print", members);
    BeforeEnds(spot);
    BeforeShows(spot, "print");
    head, tail := KeyFound(s, BeforeTokens(spot), "print", ItemsTokens(members, true) + AfterTokens(spot));
  }

  /** A search behind the print brace finds what the tree shows in or after the print object. */
  lemma TailWord(tail: string, spot: Spot, members: seq<Member>, k: string)
    requires PlainKey(k) && Lex(tail) == Some(ItemsTokens(members, true) + AfterTokens(spot))
    ensures Contains(tail, Quote(k)) <==> Present(spot, members, k)
  {
    hide Lex, Find, SomeShows, Names, Mentions, ItemsTokens, AfterTokens, Contains, MentionedAfter;
    ContainsTokens(tail, k);
    ShowsJoin(ItemsTokens(members, true), AfterTokens(spot), k);
    ItemsShow(members, true, k);
    AfterShows(spot, k);
    assert (exists m | m in members :: Names(m.key, k) || Mentions(m.val, k)) <==> SomeMention(members, k) by {
      assert forall m :: MemberMentions(m, k) <==> Names(m.key, k) || Mentions(m.val, k);
    }
  }

  lemma IdSame(s: string, head: string, tail: string, spot: Spot, members: seq<Member>, key: string, id: string)
    requires s == head + tail && Opens(head) && PrintObject(s) == Some(|head| - 1) && PrintKey(s) == PrintKey(head)
    requires Lex(tail) == Some(ItemsTokens(members, true) + AfterTokens(spot)) && key in ID_KEYS
    requires Find(head, Quote(key), PrintKey(head)) == None
    ensures IdIn(s, key, id) == MissingId(spot, members, key, id)
  {
    hide Lex, Find, Present, ItemsTokens, AfterTokens, Contains, PrintObject, PrintKey;
    WordsPlain();
    TailWord(tail, spot, members, key);
    KeyHeld(head, tail, key);
  }

  lemma NotPrint(key: string)
    requires key in ID_KEYS
    ensures !Names("print", key) && PlainKey(key)
  {
    WordsPlain();
    hide PlainKey;
    if Names("print", key) {
      NamesLast("print", key);
    }
  }

  /** The members that the code puts in front are those that the tree lacks. */
  lemma FrontSame(job: Option<JobIds>, s: string, head: string, tail: string, spot: Spot, members: seq<Member>)
    requires s == head + tail && Opens(head) && PrintObject(s) == Some(|head| - 1) && PrintKey(s) == PrintKey(head)
    requires Lex(tail) == Some(ItemsTokens(members, true) + AfterTokens(spot))
    requires forall k | PlainKey(k) && !Names("print", k) :: Find(head, Quote(k), PrintKey(head)) == None
    ensures IdsIn(job, s) == WithIds(job, spot, members, [])
    ensures IdsPrint(job, s) <==> IdsPrintable(job, spot, members)
  {
    hide Lex, Find, ItemsTokens, AfterTokens, PrintObject, PrintKey, PlainKey, Names, IdIn, MissingId, Printable;
    match job
    case None =>
    case Some(ids) =>
      NotPrint("project_id");
      NotPrint("profile_id");
      NotPrint("subtask_id");
      NotPrint("task_id");
      IdSame(s, head, tail, spot, members, "project_id", ids.projectId);
      IdSame(s, head, tail, spot, members, "profile_id", ids.profileId);
      IdSame(s, head, tail, spot, members, "subtask_id", ids.subtaskId);
      IdSame(s, head, tail, spot, members, "task_id", ids.taskId);
      MissingPresent(spot, members, "project_id", ids.projectId);
      MissingPresent(spot, members, "profile_id", ids.profileId);
      MissingPresent(spot, members, "subtask_id", ids.subtaskId);
      MissingPresent(spot, members, "task_id", ids.taskId);
      var d := MissingId(spot, members, "task_id", ids.taskId);
      assert d + [] == d;
  }

  lemma MissingPresent(spot: Spot, members: seq<Member>, key: string, id: string)
    ensures MissingId(spot, members, key, id) == [] <==> Present(spot, members, key)
  {
  }

  /** Every id that the rewriting adds is printable. */
  predicate IdsPrintable(job: Option<JobIds>, spot: Spot, members: seq<Member>) {
    job.Some? ==>
      && (Present(spot, members, "project_id") || Printable(job.value.projectId))
      && (Present(spot, members, "profile_id") || Printable(job.value.profileId))
      && (Present(spot, members, "subtask_id") || Printable(job.value.subtaskId))
      && (Present(spot, members, "task_id") || Printable(job.value.taskId))
  }

  lemma WithIdsJoin(job: Option<JobIds>, spot: Spot, members: seq<Member>, a: seq<Member>, b: seq<Member>)
    ensures WithIds(job, spot, members, a + b) == WithIds(job, spot, members, a) + b
    ensures WithIds(job, spot, members, a) == WithIds(job, spot, members, []) + a
  {
    hide MissingId;
    if job.Some? {
      var ids := job.value;
      var p, q := MissingId(spot, members, "project_id", ids.projectId), MissingId(spot, members, "profile_id", ids.profileId);
      var r, t := MissingId(spot, members, "subtask_id", ids.subtaskId), MissingId(spot, members, "task_id", ids.taskId);
      assert p + (q + (r + (t + (a + b)))) == p + (q + (r + (t + a))) + b;
      assert p + (q + (r + (t + a))) == p + (q + (r + (t + []))) + a;
    } else {
      assert [] + a == a;
    }
  }

  /** More members at the front of an object, in tokens. */
  lemma SpliceObject(spot: Spot, key: string, fields: seq<Member>, extra: seq<Member>)
    requires fields != []
    ensures |BeforeTokens(spot)| + 3 <= |TreeTokens(Plug(spot, Member(key, Obj(fields))))|
    ensures TreeTokens(Plug(spot, Member(key, Obj(extra + fields)))) ==
            Splice(TreeTokens(Plug(spot, Member(key, Obj(fields)))), |BeforeTokens(spot)| + 3, RunTokens(extra))
  {
    hide TreeTokens, ItemsTokens, BeforeTokens, AfterTokens, RunTokens, Plug, Splice;
    ObjectTokens(spot, key, fields);
    ObjectTokens(spot, key, extra + fields);
    RunThenItems(extra, fields);
    var before, items, after, run := BeforeTokens(spot), ItemsTokens(fields, true), AfterTokens(spot), RunTokens(extra);
    ThreeTokens(before, Quoted(key), Punct(':'), Punct('{'), items + after);
    ThreeTokens(before, Quoted(key), Punct(':'), Punct('{'), run + items + after);
    Associated(run, items, after);
    RunFront(before + [Quoted(key), Punct(':'), Punct('{')], items + after, |before| + 3, run);
  }

  lemma ThreeTokens(before: seq<Token>, a: Token, b: Token, c: Token, rest: seq<Token>)
    ensures before + ([a] + ([b] + ([c] + rest))) == (before + [a, b, c]) + rest
  {
  }

  /** Whether the object behind a found brace is empty. */
  lemma FullIff(s: string, head: string, tail: string, fields: seq<Member>, after: seq<Token>)
    requires IsJson(s) && s == head + tail && head != "" && head[|head| - 1] == '{' && Lex(head).Some?
    requires Lex(tail) == Some(ItemsTokens(fields, true) + after)
    ensures OpensAt(s, |head| - 1) && (OpensFull(s, |head| - 1) <==> fields != [])
    ensures BraceToken(s, |head| - 1) == |Lex(head).value| - 1
  {
    hide Lex, ItemsTokens, StartsClosed, ObjectAt;
    assert s[..|head|] == head && s[|head|..] == tail;
    OpensFullIff(s, |head| - 1);
    ClosedTokens(tail);
    FirstOfItems(fields);
    assert (ItemsTokens(fields, true) + after)[0] == ItemsTokens(fields, true)[0];
  }

  lemma PrintName(members: seq<Member>)
    ensures PrintMember(members) == Member("print", Obj(members))
  {
  }

  /**
   A JSON text that denotes a tree whose first word `print` is the key of an object, with no word
   `ipcam` in or after it, is rewritten to a text that denotes the edited tree exactly when the object
   is not empty and the ids added are printable.
   */
  lemma RewriteReadsIff(job: Option<JobIds>, s: string, spot: Spot, members: seq<Member>)
    requires IsJson(s) && Tree(s) == Plug(spot, PrintMember(members))
    requires !MentionedBefore(spot, "print") && !Present(spot, members, "ipcam")
    ensures Denotes(RewriteStatus(job, s), Plug(spot, PrintMember(WithIds(job, spot, members, [CapabilityMember()] + members)))) <==>
            members != [] && IdsPrintable(job, spot, members)
  {
    hide Lex, Find, SomeShows, Names, TreeTokens, ItemsTokens, BeforeTokens, AfterTokens, Quote, PlainKey, ReadValue, Plug, Opens,
      PrintObject, PrintKey, Present, MentionedBefore, RewriteStatus, IdsIn, IdsPrint, IdsPrintable, WithIds, CapabilityMember,
      OpensFull, OpensAt, FileSpot, Contains, IsJson, Tree, BraceToken;
    var head, tail := PrintFound(s, spot, members);
    WordsPlain();
    TailWord(tail, spot, members, "ipcam");
    KeyAfterBrace(head, tail, "ipcam");
    ContainsMeans(tail, Quote("ipcam"));
    FrontSame(job, s, head, tail, spot, members);
    FullIff(s, head, tail, members, AfterTokens(spot));
    RewriteLegalIff(job, s);
    var caps := [CapabilityMember()];
    var front := WithIds(job, spot, members, caps);
    WithIdsJoin(job, spot, members, caps, members);
    assert FrontMembers(job, s) == front;
    assert front != [];
    if EditsFit(job, s) {
      FrontReads(job, s, spot, members, front);
    } else {
      NotDenoted(RewriteStatus(job, s), Plug(spot, PrintMember(front + members)));
    }
  }

  lemma NotDenoted(t: string, j: Json)
    requires !IsJson(t)
    ensures !Denotes(t, j)
  {
  }

  /** The edited tree is the one with the new members in the print object. */
  lemma FrontReads(job: Option<JobIds>, s: string, spot: Spot, members: seq<Member>, front: seq<Member>)
    requires IsJson(s) && Tree(s) == Plug(spot, PrintMember(members)) && members != []
    requires EditsFit(job, s) && PrintObject(s).Some? && FileBrace(s) == None && FrontMembers(job, s) == front && front != []
    requires OpensAt(s, PrintObject(s).value) && BraceToken(s, PrintObject(s).value) == |BeforeTokens(spot)| + 2
    ensures Denotes(RewriteStatus(job, s), Plug(spot, PrintMember(front + members)))
  {
    hide Lex, Find, TreeTokens, ItemsTokens, BeforeTokens, AfterTokens, ReadValue, Plug, PrintObject, RewriteStatus, IdsPrint,
      FrontMembers, FileBrace, Splice, RunTokens, ObjectAt, AddAt, WellFormed, LegalMembers, ValidBody, SpotLegal, BraceToken;
    var t, k := RewriteStatus(job, s), |BeforeTokens(spot)| + 2;
    RewriteLegalIff(job, s);
    JsonTokensOf(t);
    JsonTokensOf(s);
    FullObject(s, PrintObject(s).value);
    AroundBrace(s, PrintObject(s).value);
    AddAtTokens(Tree(s), k, front);
    SpliceObject(spot, "print", members, front);
    FrontFits(job, s);
    FrontLegal(spot, members, front);
    DenotesIff(t, Plug(spot, PrintMember(front + members)));
  }

  lemma FullObject(s: string, p: nat)
    requires IsJson(s) && OpensFull(s, p)
    ensures OpensAt(s, p) && ObjectAt(Tree(s), BraceToken(s, p)).Some? && ObjectAt(Tree(s), BraceToken(s, p)).value != []
  {
  }

  lemma FrontLegal(spot: Spot, members: seq<Member>, front: seq<Member>)
    requires WellFormed(Plug(spot, PrintMember(members))) && LegalMembers(front)
    ensures WellFormed(Plug(spot, PrintMember(front + members)))
  {
    hide WellFormed, ValidBody, SpotLegal, Plug, LegalMembers;
    PlugLegal(spot, PrintMember(members));
    PlugLegal(spot, PrintMember(front + members));
    ObjectLegal(members);
    ObjectLegal(front + members);
    LegalJoin(front, members);
  }

  lemma ObjectLegal(members: seq<Member>)
    ensures WellFormed(PrintMember(members).val) <==> LegalMembers(members)
    ensures PrintMember(members).key == "print"
  {
  }

  // ----- a message that has an ipcam object -----

  lemma LexPrint(j: Json)
    requires WellFormed(j)
    ensures Lex(Print(j)) == Some(TreeTokens(j)) && Denotes(Print(j), j)
  {
    hide ReadValue, Lex, WellFormed, TreeTokens;
    ReadPrint(j);
    NoBlanks();
    DenotesIff(Print(j), j);
  }

  lemma NoBlanks()
    ensures SkipBlanks("") == ""
  {
  }

  /** The text up to the first closing brace. */
  lemma CutBrace(z: string)
    requires Find(z, "}", 0).Some?
    ensures z[..Find(z, "}", 0).value] == UpTo(z, '}')
  {
    hide Find, UpTo;
    var e := Find(z, "}", 0).value;
    FindCharIs(z, '}', 0);
    FindLeast(z, "}", 0);
    forall j | 0 <= j < e ensures z[j] != '}' {
      if z[j] == '}' {
        CharAt(z, '}', j);
      }
    }
    UpToIs(z, '}', e);
  }

  /**
   The code sees the word `file` in an ipcam object exactly when a key or string shows it before the
   first closing brace in print order, braces in strings included.
   */
  lemma EarlyFileIff(fields: seq<Member>)
    requires WellFormed(Obj(fields))
    ensures EarlyFile(fields) <==> ShowsEarly(TreeTokens(Obj(fields)), "file")
  {
    hide Find, Lex, WellFormed, TreeTokens, ShowsEarly, UpTo, PlainKey, Contains, Denotes, Print;
    WordsPlain();
    LexPrint(Obj(fields));
    ClosingFound(fields);
    CutBrace(Print(Obj(fields)));
    EarlyTokens(Print(Obj(fields)), "file");
  }

  lemma {:induction false} TextCloses(s: string)
    requires Lex(s).Some? && exists t | t in Lex(s).value :: t == Punct('}')
    ensures '}' in s
    decreases |s|
  {
    hide Lex, First, IsBlank;
    NoText();
    if s != "" {
      if IsBlank(s[0]) {
        LexBlank(s);
        TextCloses(s[1..]);
      } else {
        LexFirst(s);
        var (tok, n) := First(s).value;
        if tok == Punct('}') {
          OnePunct(s);
          PunctIs(s);
        } else {
          TextCloses(s[n..]);
        }
      }
    }
  }

  lemma PunctIs(s: string)
    requires s != "" && !IsBlank(s[0]) && First(s).Some? && First(s).value.0.Punct?
    ensures First(s).value.0 == Punct(s[0])
  {
  }

  lemma FoundIn(s: string, c: char)
    requires c in s
    ensures Find(s, [c], 0).Some?
  {
    hide Find;
    var i :| 0 <= i < |s| && s[i] == c;
    CharAt(s, c, i);
    Found(s, [c], i);
    ContainsMeans(s, [c]);
  }

  /** Whether the code puts the file member in, for an object that starts at the brace of `z`. */
  lemma SpotFile(front: string, z: string, key: nat, fields: seq<Member>, more: seq<Token>)
    requires WellFormed(Obj(fields)) && Lex(z) == Some(TreeTokens(Obj(fields)) + more)
    requires key <= |front| && Find(front + z, "{", key) == Some(|front|)
    ensures FileSpot(front + z, key) == if EarlyFile(fields) then None else Some(|front| + 1)
  {
    hide Find, Lex, WellFormed, TreeTokens, ShowsEarly, UpTo, PlainKey, Contains, Quote, EarlyFile;
    var toks := TreeTokens(Obj(fields));
    LastClosing(fields);
    assert toks[|toks| - 1] in toks && toks[|toks| - 1] in toks + more;
    TextCloses(z);
    assert ['}'] == "}";
    FoundIn(z, '}');
    FindShift(front, z, "}", |front|);
    var e := Find(z, "}", 0).value;
    assert (front + z)[|front|..|front| + e] == z[..e];
    CutBrace(z);
    WordsPlain();
    EarlyTokens(z, "file");
    EarlyPrefix(toks, more, "file");
    EarlyFileIff(fields);
  }

  lemma LastClosing(fields: seq<Member>)
    ensures var toks := TreeTokens(Obj(fields)); toks[|toks| - 1] == Punct('}') && Closes(Punct('}'))
  {
    hide ItemsTokens;
    LastItem(fields, true);
  }

  /** What stands between the print brace and the word `ipcam`. */
  function InnerBefore(inner: Spot): seq<Token>
    requires !inner.InElem?
  {
    BeforeEnds(inner);
    BeforeTokens(inner)[1..]
  }

  lemma InnerTokens(inner: Spot, fields: seq<Member>)
    requires !inner.InElem?
    ensures ItemsTokens(PrintMembers(inner, fields), true) ==
            InnerBefore(inner) + ([Quoted("ipcam")] + ([Punct(':')] + ([Punct('{')] + (ItemsTokens(fields, true) + AfterTokens(inner)))))
    ensures InnerBefore(inner) == [] || InnerBefore(inner)[|InnerBefore(inner)| - 1].Punct?
    ensures BeforeTokens(inner) == [Punct('{')] + InnerBefore(inner)
  {
    hide TreeTokens, ItemsTokens, AfterTokens, PrintMembers, RunTokens;
    var members := PrintMembers(inner, fields);
    var rest := [Quoted("ipcam")] + ([Punct(':')] + ([Punct('{')] + (ItemsTokens(fields, true) + AfterTokens(inner))));
    ObjectTokens(inner, "ipcam", fields);
    BeforeEnds(inner);
    OpenObject(members);
    assert BeforeTokens(inner) == [Punct('{')] + BeforeTokens(inner)[1..];
    hide BeforeTokens;
    Associated([Punct('{')], InnerBefore(inner), rest);
    assert ([Punct('{')] + ItemsTokens(members, true))[1..] == ItemsTokens(members, true);
    assert ([Punct('{')] + (InnerBefore(inner) + rest))[1..] == InnerBefore(inner) + rest;
  }

  lemma InnerShows(inner: Spot, k: string)
    requires !inner.InElem?
    ensures SomeShows(InnerBefore(inner), k) <==> MentionedBefore(inner, k)
  {
    hide SomeShows, BeforeTokens, MentionedBefore;
    BeforeShows(inner, k);
    InnerTokens(inner, []);
    ShowsJoin([Punct('{')], InnerBefore(inner), k);
    ShowsOne(Punct('{'), k);
  }

  /** The tail of the message split behind the brace of the ipcam object. */
  lemma IpcamFound(tail: string, spot: Spot, inner: Spot, fields: seq<Member>) returns (front: string, back: string)
    requires !inner.InElem? && !MentionedBefore(inner, "ipcam") && WellFormed(Obj(fields))
    requires Lex(tail) == Some(ItemsTokens(PrintMembers(inner, fields), true) + AfterTokens(spot))
    ensures tail == front + back && front != "" && front[|front| - 1] == '{'
    ensures Lex(front).Some? && |Lex(front).value| == |BeforeTokens(inner)| + 2
    ensures Lex(back) == Some(ItemsTokens(fields, true) + (AfterTokens(inner) + AfterTokens(spot)))
    ensures Find(tail, Quote("ipcam"), 0).Some?
    ensures FileSpot(tail, Find(tail, Quote("ipcam"), 0).value) == if EarlyFile(fields) then None else Some(|front|)
  {
    hide Lex, Find, SomeShows, TreeTokens, ItemsTokens, BeforeTokens, AfterTokens, Quote, PlainKey, InnerBefore, FileSpot, EarlyFile,
      WellFormed, MentionedBefore, PrintMembers, Names;
    WordsPlain();
    InnerTokens(inner, fields);
    InnerShows(inner, "ipcam");
    var items, x, y := ItemsTokens(fields, true), AfterTokens(inner), AfterTokens(spot);
    RegroupIpcam(InnerBefore(inner), items, x, y);
    front, back := KeyFound(tail, InnerBefore(inner), "ipcam", items + (x + y));
    var before, z := front[..|front| - 1], "{" + back;
    assert tail == before + z;
    LexPunct(z);
    assert z[1..] == back;
    OpenObject(fields);
    Associated([Punct('{')], items, x + y);
    SpotFile(before, z, Find(tail, Quote("ipcam"), 0).value, fields, x + y);
  }

  lemma RegroupIpcam(before: seq<Token>, items: seq<Token>, x: seq<Token>, y: seq<Token>)
    ensures before + ([Quoted("ipcam")] + ([Punct(':')] + ([Punct('{')] + (items + x)))) + y ==
            before + ([Quoted("ipcam")] + ([Punct(':')] + ([Punct('{')] + (items + (x + y)))))
  {
    var q, c, b := [Quoted("ipcam")], [Punct(':')], [Punct('{')];
    Associated(items, x, y);
    Associated(b, items + x, y);
    Associated(c, b + (items + x), y);
    Associated(q, c + (b + (items + x)), y);
    Associated(before, q + (c + (b + (items + x))), y);
  }

  /** More fields in the ipcam object, in the tokens of the whole message. */
  lemma SpliceInner(spot: Spot, inner: Spot, fields: seq<Member>, extra: seq<Member>)
    requires !inner.InElem? && fields != []
    ensures var toks, k := TreeTokens(Plug(spot, PrintMember(PrintMembers(inner, fields)))), |BeforeTokens(spot)| + |BeforeTokens(inner)| + 5;
            k <= |toks| &&
            TreeTokens(Plug(spot, PrintMember(PrintMembers(inner, extra + fields)))) == Splice(toks, k, RunTokens(extra))
  {
    hide TreeTokens, BeforeTokens, AfterTokens, RunTokens, Splice;
    var m, n := PrintMember(PrintMembers(inner, fields)), PrintMember(PrintMembers(inner, extra + fields));
    SpliceObject(inner, "ipcam", fields, extra);
    PlugTokens(spot, m);
    PlugTokens(spot, n);
    KeyedItem(m);
    KeyedItem(n);
    var lead, after := BeforeTokens(spot) + [Quoted("print"), Punct(':')], AfterTokens(spot);
    KeyAround(BeforeTokens(spot), Quoted("print"), Punct(':'), TreeTokens(m.val), after);
    KeyAround(BeforeTokens(spot), Quoted("print"), Punct(':'), TreeTokens(n.val), after);
    SpliceBetween(lead, TreeTokens(m.val), after, |BeforeTokens(inner)| + 3, RunTokens(extra));
  }

  lemma KeyAround(before: seq<Token>, a: Token, b: Token, val: seq<Token>, after: seq<Token>)
    ensures before + ([a, b] + val + after) == (before + [a, b]) + (val + after)
  {
  }

  /** Where the code puts the file member in a message with an ipcam object. */
  lemma IpcamBrace(s: string, spot: Spot, inner: Spot, fields: seq<Member>)
    requires IsJson(s) && !inner.InElem? && Tree(s) == Plug(spot, PrintMember(PrintMembers(inner, fields)))
    requires !MentionedBefore(spot, "print") && !MentionedBefore(inner, "ipcam")
    ensures PrintObject(s).Some? && CapMembers(s) == []
    ensures OpensAt(s, PrintObject(s).value) && OpensFull(s, PrintObject(s).value)
    ensures BraceToken(s, PrintObject(s).value) == |BeforeTokens(spot)| + 2
    ensures forall job :: IdsIn(job, s) == WithIds(job, spot, PrintMembers(inner, fields), [])
    ensures forall job :: IdsPrint(job, s) <==> IdsPrintable(job, spot, PrintMembers(inner, fields))
    ensures FileBrace(s).Some? <==> !EarlyFile(fields)
    ensures FileBrace(s).Some? ==>
              var q := FileBrace(s).value;
              && (OpensFull(s, q) <==> fields != [])
              && OpensAt(s, q) && BraceToken(s, q) == |BeforeTokens(spot)| + |BeforeTokens(inner)| + 4
  {
    hide *;
    var members := PrintMembers(inner, fields);
    var head, tail := PrintFound(s, spot, members);
    FieldsLegal(s, spot, inner, fields);
    var front, back := IpcamFound(tail, spot, inner, fields);
    FileBraceAt(head, tail, |front|);
    NotEmpty(inner, fields);
    FullIff(s, head, tail, members, AfterTokens(spot));
    forall job ensures IdsIn(job, s) == WithIds(job, spot, members, []) && (IdsPrint(job, s) <==> IdsPrintable(job, spot, members)) {
      FrontSame(job, s, head, tail, spot, members);
    }
    HeadFront(head, front);
    Associates(head, front, back);
    FullIff(s, head + front, back, fields, AfterTokens(inner) + AfterTokens(spot));
  }

  lemma NotEmpty(inner: Spot, fields: seq<Member>)
    requires !inner.InElem?
    ensures PrintMembers(inner, fields) != []
  {
  }

  lemma HeadFront(head: string, front: string)
    requires head != "" && head[|head| - 1] == '{' && front != "" && front[|front| - 1] == '{'
    requires Lex(head).Some? && Lex(front).Some?
    ensures Lex(head + front).Some? && |Lex(head + front).value| == |Lex(head).value| + |Lex(front).value|
    ensures (head + front)[|head + front| - 1] == '{'
  {
    hide Lex;
    LexJoin(head, front);
  }

  /** The search behind the print brace, told in the tail. */
  lemma FileBraceAt(head: string, tail: string, at: nat)
    requires Opens(head) && PrintObject(head + tail) == Some(|head| - 1) && Find(tail, Quote("ipcam"), 0).Some?
    requires var spot := FileSpot(tail, Find(tail, Quote("ipcam"), 0).value); spot == None || spot == Some(at)
    ensures CapMembers(head + tail) == []
    ensures FileBrace(head + tail) ==
            if FileSpot(tail, Find(tail, Quote("ipcam"), 0).value).None? then None else Some(|head| + at - 1)
  {
    hide Find, Quote, FileSpot, PrintObject, Opens;
    WordsPlain();
    KeyAfterBrace(head, tail, "ipcam");
    FileSpotShift(head, tail, Find(tail, Quote("ipcam"), 0).value);
  }

  lemma FieldsLegal(s: string, spot: Spot, inner: Spot, fields: seq<Member>)
    requires IsJson(s) && !inner.InElem? && Tree(s) == Plug(spot, PrintMember(PrintMembers(inner, fields)))
    ensures WellFormed(Obj(fields)) && WellFormed(Tree(s))
    ensures SpotLegal(spot) && SpotLegal(inner) && LegalMembers(fields)
  {
    hide WellFormed, ValidBody, SpotLegal, Plug, LegalMembers, ReadValue, TreeTokens, Lex, PrintMembers;
    JsonTokensOf(s);
    PlugLegal(spot, PrintMember(PrintMembers(inner, fields)));
    PlugLegal(inner, IpcamOf(fields));
    ObjectLegal(fields);
  }

  /** The tree with the file member has the tokens that the first edit gives. */
  lemma FiledTokens(s: string, spot: Spot, inner: Spot, fields: seq<Member>)
    requires IsJson(s) && !inner.InElem? && Tree(s) == Plug(spot, PrintMember(PrintMembers(inner, fields)))
    requires !MentionedBefore(spot, "print") && !MentionedBefore(inner, "ipcam") && fields != []
    requires PrintObject(s).Some? && IsJson(Filed(s))
    ensures TreeTokens(Tree(Filed(s))) == TreeTokens(Plug(spot, PrintMember(PrintMembers(inner, WithFile(fields)))))
  {
    hide Lex, Find, TreeTokens, ItemsTokens, BeforeTokens, AfterTokens, EarlyFile, WellFormed, MentionedBefore, PrintMembers,
      PrintObject, OpensAt, OpensFull, IsJson, Tree, BraceToken, Plug, Filed, FileBrace, AddAt, ObjectAt, Splice, RunTokens, FileField;
    IpcamBrace(s, spot, inner, fields);
    FiledLegalIff(s);
    if FileBrace(s).Some? {
      var q, k := FileBrace(s).value, |BeforeTokens(spot)| + |BeforeTokens(inner)| + 4;
      FullObject(s, q);
      AroundBrace(s, q);
      AddAtTokens(Tree(s), k, [FileField()]);
      SpliceInner(spot, inner, fields, [FileField()]);
    }
  }

  lemma NoFieldsEarly()
    ensures !EarlyFile([])
  {
    EarlyFileIff([]);
    assert TreeTokens(Obj([])) == [Punct('{'), Punct('}')];
    assert [Punct('{'), Punct('}')][1..] == [Punct('}')];
  }

  /** The tree with the file member and the missing ids is legal when the ids are printable. */
  lemma ExtendedLegal(job: Option<JobIds>, s: string, spot: Spot, inner: Spot, fields: seq<Member>, front: seq<Member>)
    requires IsJson(s) && !inner.InElem? && Tree(s) == Plug(spot, PrintMember(PrintMembers(inner, fields)))
    requires LegalMembers(front)
    ensures WellFormed(Plug(spot, PrintMember(front + PrintMembers(inner, WithFile(fields)))))
  {
    hide WellFormed, ValidBody, SpotLegal, Plug, LegalMembers, EarlyFile, FileField, ReadValue, PrintMembers;
    FieldsLegal(s, spot, inner, fields);
    FileFieldLegal();
    LegalOne(FileField());
    LegalJoin([FileField()], fields);
    ObjectLegal(WithFile(fields));
    KeyValid("ipcam");
    PlugLegal(inner, IpcamOf(WithFile(fields)));
    KeyValid("print");
    PlugLegal(spot, PrintMember(PrintMembers(inner, WithFile(fields))));
    FrontLegal(spot, PrintMembers(inner, WithFile(fields)), front);
  }

  lemma IdsThenFile(job: Option<JobIds>, s: string, spot: Spot, inner: Spot, fields: seq<Member>, front: seq<Member>)
    requires IsJson(s) && !inner.InElem? && Tree(s) == Plug(spot, PrintMember(PrintMembers(inner, fields)))
    requires !MentionedBefore(spot, "print") && !MentionedBefore(inner, "ipcam") && fields != []
    requires PrintObject(s).Some? && EditsFit(job, s) && IdsPrint(job, s) && FrontMembers(job, s) == front
    ensures Denotes(RewriteStatus(job, s), Plug(spot, PrintMember(front + PrintMembers(inner, WithFile(fields)))))
  {
    hide Lex, Find, TreeTokens, ItemsTokens, BeforeTokens, AfterTokens, WithFile, WellFormed, MentionedBefore, PrintMembers,
      PrintObject, OpensAt, IsJson, Tree, BraceToken, Plug, Filed, FileBrace, AddAt, ObjectAt, Splice, RunTokens, IdsPrint,
      FrontMembers, LegalMembers, RewriteStatus, Denotes, Opens, ValidBody;
    var t, k, members := RewriteStatus(job, s), |BeforeTokens(spot)| + 2, PrintMembers(inner, WithFile(fields));
    IpcamBrace(s, spot, inner, fields);
    FiledLegalIff(s);
    FiledTokens(s, spot, inner, fields);
    FrontFits(job, s);
    ExtendedLegal(job, s, spot, inner, fields, front);
    if front == [] {
      NoFront(job, s);
      JsonTokensOf(t);
      assert [] + members == members;
    } else {
      var p := PrintObject(s).value;
      FiledPrintBrace(s);
      FrontLegalIff(job, s);
      FullObject(Filed(s), p);
      AroundBrace(Filed(s), p);
      AddAtTokens(Tree(Filed(s)), k, front);
      SpliceObject(spot, "print", members, front);
      PrintName(members);
      PrintName(front + members);
      DenotesIff(t, AddAt(Tree(Filed(s)), k, front));
    }
    DenotesIff(t, Plug(spot, PrintMember(front + members)));
  }

  /**
   With an ipcam object that is its first word `ipcam`, the text is rewritten to one that denotes the
   tree with the missing ids and the file member exactly when the ipcam object is not empty and the
   ids added are printable.
   */
  lemma ExtendReadsIff(job: Option<JobIds>, s: string, spot: Spot, inner: Spot, fields: seq<Member>)
    requires IsJson(s) && !inner.InElem? && Tree(s) == Plug(spot, PrintMember(PrintMembers(inner, fields)))
    requires !MentionedBefore(spot, "print") && !MentionedBefore(inner, "ipcam")
    ensures var members := PrintMembers(inner, fields);
            Denotes(RewriteStatus(job, s), Plug(spot, PrintMember(WithIds(job, spot, members, PrintMembers(inner, WithFile(fields)))))) <==>
            fields != [] && IdsPrintable(job, spot, members)
  {
    hide Lex, Find, TreeTokens, BeforeTokens, WithFile, EarlyFile, MentionedBefore, PrintMembers, PrintObject, OpensAt, OpensFull, IsJson,
      Tree, BraceToken, Plug, FileBrace, IdsPrint, IdsIn, WithIds, IdsPrintable, RewriteStatus, Denotes;
    var members, after := PrintMembers(inner, fields), PrintMembers(inner, WithFile(fields));
    IpcamBrace(s, spot, inner, fields);
    RewriteLegalIff(job, s);
    NoFieldsEarly();
    WithIdsJoin(job, spot, members, after, []);
    var front := WithIds(job, spot, members, []);
    assert FrontMembers(job, s) == front;
    NoIdsPrint(job, s);
    if EditsFit(job, s) {
      IdsThenFile(job, s, spot, inner, fields, front);
    } else {
      NotDenoted(RewriteStatus(job, s), Plug(spot, PrintMember(front + after)));
    }
  }

  lemma NoIdsPrint(job: Option<JobIds>, s: string)
    requires PrintObject(s).Some?
    ensures IdsIn(job, s) == [] ==> IdsPrint(job, s)
  {
  }

  // ----- a message that the rewriting spoils -----

  /** `{"print":{"ipcam":1,"b":{}}}`: legal, and its print object is not empty. */
  function SpoiltMembers(): seq<Member> {
    [Member("ipcam", Atom("1")), Member("b", Obj([]))]
  }

  function SpoiltMessage(): string {
    Print(Obj([PrintMember(SpoiltMembers())]))
  }

  lemma SpoiltText()
    ensures SpoiltMessage() == "{\"print\":{" + ("\"ipcam\":1,\"b\":" + (['{'] + (['}'] + "}}")))
  {
    var m, a, b := PrintMember(SpoiltMembers()), Member("ipcam", Atom("1")), Member("b", Obj([]));
    assert SpoiltMembers() == [a] + [b];
    SpoiltTexts();
    hide MemberText, MemberTexts, Print, Join;
    OneMemberText(b);
    JoinCons(a, [b]);
    PrintedAs(SpoiltMembers());
    assert "\"ipcam\":1" + "," + "\"b\":{}" + "}}" == "\"ipcam\":1,\"b\":" + (['{'] + (['}'] + "}}"));
    PrintOpens(Join(MemberTexts(SpoiltMembers())));
  }

  lemma SpoiltTexts()
    ensures MemberText("ipcam", Print(Atom("1"))) == "\"ipcam\":1" && MemberText("b", Print(Obj([]))) == "\"b\":{}"
  {
    assert Print(Obj([])) == "{}";
  }

  lemma PrintedAs(members: seq<Member>)
    ensures Print(Obj([PrintMember(members)])) == "{" + MemberText("print", "{" + Join(MemberTexts(members)) + "}") + "}"
  {
    hide MemberText;
    OneMemberText(PrintMember(members));
  }

  lemma PrintOpens(body: string)
    ensures "{" + MemberText("print", "{" + body + "}") + "}" == "{\"print\":{" + (body + "}}")
  {
    assert Quote("print") == "\"print\"";
  }

  lemma SpoiltLegal()
    ensures WellFormed(Obj([PrintMember(SpoiltMembers())]))
  {
    hide ValidBody, ValidAtom;
    assert ToDecimal(1) == "1";
    NumberWellFormed(1);
    KeyValid("ipcam");
    KeyValid("b");
    KeyValid("print");
    ObjectWellFormed([]);
    ObjectWellFormed(SpoiltMembers());
    ObjectWellFormed([PrintMember(SpoiltMembers())]);
  }

  lemma SpoiltFront()
    ensures var front := "\"ipcam\":1,\"b\":"; '{' !in front && StartsWith(front, Quote("ipcam"))
  {
  }

  /** The code takes an empty object for one that lacks the file member. */
  lemma EmptySpot(front: string, x: string)
    requires '{' !in front
    ensures FileSpot(front + (['{'] + (['}'] + x)), 0) == Some(|front| + 1)
  {
    hide Find, Contains, Quote;
    var s := front + (['{'] + (['}'] + x));
    BraceAt(front, '{', ['}'] + x);
    BraceNext(front, x);
    assert s[|front|..|front| + 1] == ['{'];
    FileNotInBrace();
  }

  lemma FileNotInBrace()
    ensures !Contains(['{'], Quote("file"))
  {
  }

  lemma EmptyTaken(head: string, front: string, x: string)
    requires Opens(head) && '{' !in front && StartsWith(front, Quote("ipcam"))
    ensures var s := head + (front + (['{'] + (['}'] + x)));
            && PrintObject(s).Some? && FileBrace(s) == Some(|head| + |front|)
            && s[|head| + |front| + 1..] == ['}'] + x
  {
    hide Find, Quote, FileSpot, PrintKey;
    var tail := front + (['{'] + (['}'] + x));
    OpensFind(head, tail);
    WordsPlain();
    KeyAfterBrace(head, tail, "ipcam");
    FoundFirst(front, ['{'] + (['}'] + x), Quote("ipcam"));
    EmptySpot(front, x);
    FileSpotShift(head, tail, 0);
  }

  lemma SpoiltBrace()
    ensures var s := SpoiltMessage();
            PrintObject(s).Some? && FileBrace(s).Some? && StartsClosed(s[FileBrace(s).value + 1..])
  {
    SpoiltText();
    SpoiltFront();
    TrapHeadOpens();
    hide SpoiltMessage, PrintObject, FileBrace, Opens, StartsWith, Quote;
    EmptyTaken("{\"print\":{", "\"ipcam\":1,\"b\":", "}}");
  }

  /** Its file member would go into the empty object, so the rewritten message is no JSON. */
  lemma RewriteSpoils()
    ensures IsJson(SpoiltMessage()) && SpoiltMembers() != [] && !IsJson(RewriteStatus(None, SpoiltMessage()))
  {
    hide Find, PrintObject, FileBrace, ReadValue, WellFormed, StartsClosed, OpensAt, ObjectAt, Lex, RewriteStatus,
      SpoiltMessage, Denotes;
    SpoiltLegal();
    SpoiltDenotes();
    SpoiltBrace();
    var s := SpoiltMessage();
    OpensFullIff(s, FileBrace(s).value);
    RewriteLegalIff(None, s);
  }

  lemma SpoiltDenotes()
    requires WellFormed(Obj([PrintMember(SpoiltMembers())]))
    ensures IsJson(SpoiltMessage())
  {
    hide Print, ReadValue, WellFormed;
    LexPrint(Obj([PrintMember(SpoiltMembers())]));
  }
}
