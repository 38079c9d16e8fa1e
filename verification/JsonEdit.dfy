/**
 Adding members to a JSON text by inserting text after a brace: when the result is JSON again, and
 which tree it then denotes.
 */
module JsonEdit {
  import opened Wrappers
  import opened Json
  import opened JsonReader
  import opened JsonTokens
  import opened JsonCuts

  predicate LegalMembers(members: seq<Member>) {
    forall m | m in members :: ValidBody(m.key) && WellFormed(m.val)
  }

  // ----- the object whose opening brace is token `k` of a tree -----

  lemma ElemsAreItems(elems: seq<Json>)
    ensures TreeTokens(Arr(elems)) == [Punct('[')] + ItemsTokens(Unkeyed(elems), false)
  {
    ArrayTokens(Unkeyed(elems));
  }

  function KeyTokens(keyed: bool): nat {
    if keyed then 2 else 0
  }

  function ObjectAt(j: Json, k: nat): Option<seq<Member>>
    decreases |TreeTokens(j)|, 0
  {
    match j
    case Atom(_) => None
    case Str(_) => None
    case Arr(elems) =>
      ElemsAreItems(elems);
      if k == 0 then None else ObjectIn(Unkeyed(elems), false, k - 1)
    case Obj(members) =>
      if k == 0 then Some(members) else ObjectIn(members, true, k - 1)
  }

  function ObjectIn(ms: seq<Member>, keyed: bool, k: nat): Option<seq<Member>>
    decreases |ItemsTokens(ms, keyed)|, 1
  {
    if ms == [] then None
    else
      ItemsFirst(ms, keyed);
      var n := |ItemTokens(ms[0], keyed)|;
      if k < KeyTokens(keyed) || k == n then None
      else if k < n then ObjectAt(ms[0].val, k - KeyTokens(keyed))
      else if |ms| == 1 then None
      else ObjectIn(ms[1..], keyed, k - n - 1)
  }

  /** The tree with `extra` at the front of that object. */
  function AddAt(j: Json, k: nat, extra: seq<Member>): Json
    decreases |TreeTokens(j)|, 0
  {
    match j
    case Atom(_) => j
    case Str(_) => j
    case Arr(elems) =>
      ElemsAreItems(elems);
      if k == 0 then j else Arr(Values(AddIn(Unkeyed(elems), false, k - 1, extra)))
    case Obj(members) =>
      if k == 0 then Obj(extra + members) else Obj(AddIn(members, true, k - 1, extra))
  }

  function AddIn(ms: seq<Member>, keyed: bool, k: nat, extra: seq<Member>): (r: seq<Member>)
    ensures |r| == |ms|
    decreases |ItemsTokens(ms, keyed)|, 1
  {
    if ms == [] then []
    else
      ItemsFirst(ms, keyed);
      var n := |ItemTokens(ms[0], keyed)|;
      if k < KeyTokens(keyed) || k == n then ms
      else if k < n then [Member(ms[0].key, AddAt(ms[0].val, k - KeyTokens(keyed), extra))] + ms[1..]
      else if |ms| == 1 then ms
      else [ms[0]] + AddIn(ms[1..], keyed, k - n - 1, extra)
  }

  /** Members with the comma after each. */
  function RunTokens(ms: seq<Member>): seq<Token> {
    if ms == [] then [] else ItemTokens(ms[0], true) + ([Punct(',')] + RunTokens(ms[1..]))
  }

  function Splice(toks: seq<Token>, i: nat, run: seq<Token>): seq<Token>
    requires i <= |toks|
  {
    toks[..i] + run + toks[i..]
  }

  lemma SpliceRight(a: seq<Token>, b: seq<Token>, i: nat, run: seq<Token>)
    requires |a| <= i <= |a| + |b|
    ensures Splice(a + b, i, run) == a + Splice(b, i - |a|, run)
  {
    assert (a + b)[..i] == a + b[..i - |a|] && (a + b)[i..] == b[i - |a|..];
  }

  lemma SpliceLeft(a: seq<Token>, b: seq<Token>, i: nat, run: seq<Token>)
    requires i <= |a|
    ensures Splice(a + b, i, run) == Splice(a, i, run) + b
  {
    assert (a + b)[..i] == a[..i] && (a + b)[i..] == a[i..] + b;
  }

  lemma {:induction false} RunThenItems(extra: seq<Member>, ms: seq<Member>)
    requires ms != []
    ensures ItemsTokens(extra + ms, true) == RunTokens(extra) + ItemsTokens(ms, true)
  {
    hide ItemTokens, ItemsTokens;
    if extra == [] {
      assert [] + ms == ms;
      assert [] + ItemsTokens(ms, true) == ItemsTokens(ms, true);
    } else {
      var all, items := extra + ms, ItemsTokens(ms, true);
      var first, run := ItemTokens(extra[0], true), RunTokens(extra[1..]);
      assert all[0] == extra[0] && all[1..] == extra[1..] + ms && |all| > 1;
      assert RunTokens(extra) == first + ([Punct(',')] + run);
      ItemsFirst(all, true);
      RunThenItems(extra[1..], ms);
      hide RunTokens;
      Associated(first, [Punct(',')] + run, items);
      Associated([Punct(',')], run, items);
    }
  }

  lemma RunFront(a: seq<Token>, b: seq<Token>, i: nat, run: seq<Token>)
    requires i == |a|
    ensures Splice(a + b, i, run) == a + (run + b)
  {
    assert (a + b)[..i] == a && (a + b)[i..] == b;
  }

  /** What is found for token `k`: an object exactly for an opening brace, empty when the closing one follows. */
  predicate Fits(found: Option<seq<Member>>, toks: seq<Token>, k: nat)
    requires k < |toks|
  {
    && (found.Some? <==> toks[k] == Punct('{'))
    && (found.Some? ==> k + 1 < |toks| && (found.value == [] <==> toks[k + 1] == Punct('}')))
  }

  lemma FitsBetween(found: Option<seq<Member>>, a: seq<Token>, b: seq<Token>, c: seq<Token>, k: nat)
    requires k < |b| && Fits(found, b, k)
    ensures Fits(found, a + (b + c), |a| + k)
  {
    assert (a + (b + c))[|a| + k] == b[k];
    if k + 1 < |b| {
      assert (a + (b + c))[|a| + k + 1] == b[k + 1];
    }
  }

  lemma SpliceBetween(a: seq<Token>, b: seq<Token>, c: seq<Token>, i: nat, run: seq<Token>)
    requires i <= |b|
    ensures Splice(a + (b + c), |a| + i, run) == a + (Splice(b, i, run) + c)
  {
    SpliceRight(a, b + c, |a| + i, run);
    SpliceLeft(b, c, i, run);
  }

  predicate Edits(toks: seq<Token>, edited: seq<Token>, found: Option<seq<Member>>, k: nat, extra: seq<Member>)
    requires k < |toks|
  {
    Fits(found, toks, k) && (found.Some? && found.value != [] ==> edited == Splice(toks, k + 1, RunTokens(extra)))
  }

  lemma EditsBetween(a: seq<Token>, b: seq<Token>, edited: seq<Token>, c: seq<Token>, found: Option<seq<Member>>,
                     k: nat, extra: seq<Member>)
    requires k < |b| && Edits(b, edited, found, k, extra)
    ensures Edits(a + (b + c), a + (edited + c), found, |a| + k, extra)
  {
    hide Splice, RunTokens;
    FitsBetween(found, a, b, c, k);
    if found.Some? {
      SpliceBetween(a, b, c, k + 1, RunTokens(extra));
    }
  }

  /** The brace at token `k`: whose object it opens, and the tokens of the tree with more members there. */
  lemma {:induction false} AddAtTokens(j: Json, k: nat, extra: seq<Member>)
    requires k < |TreeTokens(j)|
    ensures Edits(TreeTokens(j), TreeTokens(AddAt(j, k, extra)), ObjectAt(j, k), k, extra)
    decreases |TreeTokens(j)|, 0
  {
    hide ItemsTokens, RunTokens, Splice, ObjectIn, AddIn;
    match j
    case Atom(_) =>
    case Str(_) =>
    case Arr(elems) =>
      ElemsAreItems(elems);
      if k > 0 {
        var ms := Unkeyed(elems);
        AddInTokens(ms, false, k - 1, extra);
        ArrayTokens(AddIn(ms, false, k - 1, extra));
        EditsAfter([Punct('[')], ItemsTokens(ms, false), ItemsTokens(AddIn(ms, false, k - 1, extra), false), ObjectAt(j, k),
                   k - 1, extra);
      }
    case Obj(members) =>
      if k > 0 {
        AddInTokens(members, true, k - 1, extra);
        EditsAfter([Punct('{')], ItemsTokens(members, true), ItemsTokens(AddIn(members, true, k - 1, extra), true),
                   ObjectAt(j, k), k - 1, extra);
      } else {
        FirstOfItems(members);
        if members != [] {
          RunThenItems(extra, members);
          RunFront([Punct('{')], ItemsTokens(members, true), 1, RunTokens(extra));
        }
      }
  }

  lemma EditsAfter(a: seq<Token>, b: seq<Token>, edited: seq<Token>, found: Option<seq<Member>>, k: nat, extra: seq<Member>)
    requires k < |b| && Edits(b, edited, found, k, extra)
    ensures Edits(a + b, a + edited, found, |a| + k, extra)
  {
    EditsBetween(a, b, edited, [], found, k, extra);
    assert b + [] == b && edited + [] == edited;
  }

  lemma FirstOfItems(members: seq<Member>)
    ensures ItemsTokens(members, true) != [] && (ItemsTokens(members, true)[0] == Punct('}') <==> members == [])
  {
  }

  lemma {:induction false} AddInTokens(ms: seq<Member>, keyed: bool, k: nat, extra: seq<Member>)
    requires k < |ItemsTokens(ms, keyed)|
    ensures Edits(ItemsTokens(ms, keyed), ItemsTokens(AddIn(ms, keyed, k, extra), keyed), ObjectIn(ms, keyed, k), k, extra)
    decreases |ItemsTokens(ms, keyed)|, 1
  {
    if ms == [] {
    } else {
      ItemsFirst(ms, keyed);
      hide ItemsTokens, RunTokens, Splice, ObjectAt, AddAt, Edits;
      var n := |ItemTokens(ms[0], keyed)|;
      if KeyTokens(keyed) <= k < n {
        InFirst(ms, keyed, k, extra);
      } else if n < k && |ms| > 1 {
        InRest(ms, keyed, k, extra);
      } else {
        NotInside(ms, keyed, k, extra);
      }
    }
  }

  /** Keys, colons, commas and closing brackets open nothing. */
  lemma NotInside(ms: seq<Member>, keyed: bool, k: nat, extra: seq<Member>)
    requires ms != [] && k < |ItemsTokens(ms, keyed)|
    requires k < KeyTokens(keyed) || k == |ItemTokens(ms[0], keyed)| || (k > |ItemTokens(ms[0], keyed)| && |ms| == 1)
    ensures Edits(ItemsTokens(ms, keyed), ItemsTokens(AddIn(ms, keyed, k, extra), keyed), ObjectIn(ms, keyed, k), k, extra)
  {
    ItemsFirst(ms, keyed);
    hide ItemsTokens, RunTokens, Splice, TreeTokens;
  }

  lemma {:induction false} InFirst(ms: seq<Member>, keyed: bool, k: nat, extra: seq<Member>)
    requires ms != [] && KeyTokens(keyed) <= k < |ItemTokens(ms[0], keyed)| && k < |ItemsTokens(ms, keyed)|
    ensures Edits(ItemsTokens(ms, keyed), ItemsTokens(AddIn(ms, keyed, k, extra), keyed), ObjectIn(ms, keyed, k), k, extra)
    decreases |ItemsTokens(ms, keyed)|, 0
  {
    hide ItemsTokens, RunTokens, Splice, ObjectAt, AddAt, Edits;
    var lead := KeyTokens(keyed);
    var val, after := TreeTokens(ms[0].val), AddIn(ms, keyed, k, extra);
    var key := if keyed then [Quoted(ms[0].key), Punct(':')] else [];
    ItemsFirst(ms, keyed);
    ItemsFirst(after, keyed);
    assert ItemTokens(ms[0], keyed) == key + val && ItemTokens(after[0], keyed) == key + TreeTokens(after[0].val);
    assert after[1..] == ms[1..];
    var rest := [Punct(if |ms| == 1 then Closer(keyed) else ',')] + if |ms| == 1 then [] else ItemsTokens(ms[1..], keyed);
    AddAtTokens(ms[0].val, k - lead, extra);
    EditsBetween(key, val, TreeTokens(after[0].val), rest, ObjectIn(ms, keyed, k), k - lead, extra);
    Associated(key, val, rest);
    Associated(key, TreeTokens(after[0].val), rest);
  }

  lemma {:induction false} InRest(ms: seq<Member>, keyed: bool, k: nat, extra: seq<Member>)
    requires |ms| > 1 && |ItemTokens(ms[0], keyed)| < k < |ItemsTokens(ms, keyed)|
    ensures Edits(ItemsTokens(ms, keyed), ItemsTokens(AddIn(ms, keyed, k, extra), keyed), ObjectIn(ms, keyed, k), k, extra)
    decreases |ItemsTokens(ms, keyed)|, 0
  {
    hide ItemsTokens, RunTokens, Splice, ObjectAt, AddAt, Edits, ItemTokens;
    var first, after := ItemTokens(ms[0], keyed), AddIn(ms, keyed, k, extra);
    ItemsFirst(ms, keyed);
    ItemsFirst(after, keyed);
    var next, edited := ItemsTokens(ms[1..], keyed), ItemsTokens(after[1..], keyed);
    AddInTokens(ms[1..], keyed, k - |first| - 1, extra);
    assert after[1..] == AddIn(ms[1..], keyed, k - |first| - 1, extra);
    EditsAfter(first + [Punct(',')], next, edited, ObjectIn(ms, keyed, k), k - |first| - 1, extra);
    Associated(first, [Punct(',')], next);
    Associated(first, [Punct(',')], edited);
  }

  // ----- the edited tree stays legal -----

  lemma {:induction false} AddAtLegal(j: Json, k: nat, extra: seq<Member>)
    requires WellFormed(j) && LegalMembers(extra)
    ensures WellFormed(AddAt(j, k, extra))
    decreases |TreeTokens(j)|, 0
  {
    match j
    case Atom(_) =>
    case Str(_) =>
    case Arr(elems) =>
      ElemsAreItems(elems);
      if k > 0 {
        var ms := Unkeyed(elems);
        UnkeyedLegal(elems);
        hide ItemsTokens, ValidBody, AddIn;
        AddInLegal(ms, false, k - 1, extra);
        ValuesLegal(AddIn(ms, false, k - 1, extra));
      }
    case Obj(members) =>
      hide ItemsTokens, ValidBody, AddIn;
      if k > 0 {
        AddInLegal(members, true, k - 1, extra);
      }
  }

  lemma UnkeyedLegal(elems: seq<Json>)
    requires forall e | e in elems :: WellFormed(e)
    ensures Legal(Unkeyed(elems), false)
  {
    hide WellFormed;
  }

  lemma {:induction false} ValuesLegal(ms: seq<Member>)
    requires Legal(ms, false)
    ensures forall e | e in Values(ms) :: WellFormed(e)
  {
    hide WellFormed;
    if ms != [] {
      assert ms[0] in ms;
      ValuesLegal(ms[1..]);
    }
  }

  lemma {:induction false} AddInLegal(ms: seq<Member>, keyed: bool, k: nat, extra: seq<Member>)
    requires Legal(ms, keyed) && LegalMembers(extra)
    ensures Legal(AddIn(ms, keyed, k, extra), keyed)
    decreases |ItemsTokens(ms, keyed)|, 1
  {
    hide WellFormed, ValidBody, AddAt, LegalMembers, TreeTokens;
    if ms != [] {
      ItemsFirst(ms, keyed);
      hide ItemsTokens;
      var n := |ItemTokens(ms[0], keyed)|;
      LegalSplit(ms, keyed);
      assert ms[0] in [ms[0]];
      hide ItemTokens;
      if k < KeyTokens(keyed) || k == n {
      } else if k < n {
        AddAtLegal(ms[0].val, k - KeyTokens(keyed), extra);
        LegalCons(Member(ms[0].key, AddAt(ms[0].val, k - KeyTokens(keyed), extra)), ms[1..], keyed);
      } else if |ms| > 1 {
        AddInLegal(ms[1..], keyed, k - n - 1, extra);
        LegalCons(ms[0], AddIn(ms[1..], keyed, k - n - 1, extra), keyed);
      }
    }
  }

  lemma LegalCons(m: Member, ms: seq<Member>, keyed: bool)
    requires WellFormed(m.val) && (if keyed then ValidBody(m.key) else m.key == "") && Legal(ms, keyed)
    ensures Legal([m] + ms, keyed)
  {
  }

  // ----- inserting text after a brace -----

  /** The text is JSON (section 2 of RFC 8259). */
  predicate IsJson(text: string) {
    ReadValue(text).Some? && SkipBlanks(ReadValue(text).value.1) == ""
  }

  function Tree(text: string): Json
    requires IsJson(text)
  {
    ReadValue(text).value.0
  }

  /** The brace at `p` stands outside strings: the text up to it consists of whole tokens. */
  predicate OpensAt(s: string, p: nat) {
    p < |s| && s[p] == '{' && Lex(s[..p + 1]).Some?
  }

  lemma {:induction false} LastBrace(a: string)
    requires a != "" && a[|a| - 1] == '{' && Lex(a).Some?
    ensures var toks := Lex(a).value; toks != [] && toks[|toks| - 1] == Punct('{')
    decreases |a|
  {
    hide Lex, First, IsBlank;
    if IsBlank(a[0]) {
      BlankNoPunct(a[0]);
      LexBlank(a);
      LastBrace(a[1..]);
    } else {
      LexFirst(a);
      var n := First(a).value.1;
      if n == |a| {
        LastPunct(a);
        PunctFirst(a);
        NoText();
      } else {
        LastBrace(a[n..]);
      }
    }
  }

  /** That brace, counted in tokens. */
  function BraceToken(s: string, p: nat): nat
    requires OpensAt(s, p)
  {
    LastBrace(s[..p + 1]);
    |Lex(s[..p + 1]).value| - 1
  }

  /** The brace opens an object of the tree that has a member. */
  predicate OpensFull(s: string, p: nat)
    requires IsJson(s)
  {
    OpensAt(s, p) && var found := ObjectAt(Tree(s), BraceToken(s, p)); found.Some? && found.value != []
  }

  function RunText(ms: seq<Member>): string {
    if ms == [] then "" else MemberText(ms[0].key, Print(ms[0].val)) + "," + RunText(ms[1..])
  }

  lemma LexMember(m: Member, z: string)
    requires ValidBody(m.key) && WellFormed(m.val)
    ensures Lex(MemberText(m.key, Print(m.val)) + ("," + z)) == Cat(ItemTokens(m, true), Cat([Punct(',')], Lex(z)))
  {
    hide ReadItem, ItemTokens, Lex, WellFormed, ValidBody, ReadValue;
    ReadPrint(m.val);
    ReadItemText(m, Print(m.val), true, "," + z);
    ItemRead(MemberText(m.key, Print(m.val)) + ("," + z), true);
    LexPunct("," + z);
    assert ("," + z)[1..] == z;
  }

  lemma {:induction false} LexRun(ms: seq<Member>, z: string)
    requires LegalMembers(ms)
    ensures Lex(RunText(ms) + z) == Cat(RunTokens(ms), Lex(z))
  {
    hide Lex, ItemTokens, Print, MemberText, WellFormed, ValidBody;
    if ms == [] {
      assert "" + z == z;
      CatNone(Lex(z));
    } else {
      assert ms[0] in ms;
      var first, run := MemberText(ms[0].key, Print(ms[0].val)), RunText(ms[1..]);
      assert first + "," + run + z == first + ("," + (run + z));
      LexMember(ms[0], run + z);
      LexRun(ms[1..], z);
      CatTwice([Punct(',')], RunTokens(ms[1..]), Lex(z));
      CatTwice(ItemTokens(ms[0], true), [Punct(',')] + RunTokens(ms[1..]), Lex(z));
    }
  }

  lemma JsonTokensOf(s: string)
    requires IsJson(s)
    ensures WellFormed(Tree(s)) && Lex(s) == Some(TreeTokens(Tree(s)))
  {
    hide Lex, ReadValue, WellFormed, TreeTokens;
    DenotesIff(s, Tree(s));
  }

  lemma DenotesTree(s: string, j: Json)
    requires Denotes(s, j)
    ensures IsJson(s) && Tree(s) == j
  {
  }

  /** The tokens up to the brace, and those after it. */
  lemma AroundBrace(s: string, p: nat)
    requires IsJson(s) && OpensAt(s, p)
    ensures var toks, k := TreeTokens(Tree(s)), BraceToken(s, p);
            && k < |toks| && toks[k] == Punct('{')
            && Lex(s[..p + 1]) == Some(toks[..k + 1]) && Lex(s[p + 1..]) == Some(toks[k + 1..])
  {
    hide Lex, ReadValue, TreeTokens;
    var a, b := s[..p + 1], s[p + 1..];
    assert s == a + b;
    JsonTokensOf(s);
    LastBrace(a);
    LexJoin(a, b);
    var toks, front := TreeTokens(Tree(s)), Lex(a).value;
    assert toks[..|front|] == front && toks[|front|..] == Lex(b).value;
  }

  /** Members put after the brace of an object that is not empty are members of that object. */
  lemma InsertDenotes(s: string, p: nat, ms: seq<Member>)
    requires IsJson(s) && OpensFull(s, p) && LegalMembers(ms)
    ensures Denotes(s[..p + 1] + (RunText(ms) + s[p + 1..]), AddAt(Tree(s), BraceToken(s, p), ms))
  {
    hide Lex, ReadValue, WellFormed, TreeTokens, LegalMembers, ObjectAt, RunTokens, RunText, AddAt;
    var a, b, j, k := s[..p + 1], s[p + 1..], Tree(s), BraceToken(s, p);
    var toks, run := TreeTokens(j), RunTokens(ms);
    JsonTokensOf(s);
    AroundBrace(s, p);
    AddAtTokens(j, k, ms);
    AddAtLegal(j, k, ms);
    LexRun(ms, b);
    LexJoin(a, RunText(ms) + b);
    Associated(toks[..k + 1], run, toks[k + 1..]);
    DenotesIff(a + (RunText(ms) + b), AddAt(j, k, ms));
  }

  // ----- and what goes wrong elsewhere -----

  /** A string that is open in front of the quote ends there. */
  lemma {:induction false} BodyEndsEarly(u: string, w: string, z: string)
    requires u != "" && u[|u| - 1] == '{' && BodyEnd(u + w).Some? && |u| <= BodyEnd(u + w).value
    ensures BodyEnd(u + ("\"" + z)) == Some(|u|)
    decreases |u|
  {
    hide BodyEnd, UnitLength;
    var s, t := u + w, u + ("\"" + z);
    BodyStep(s);
    BodyStep(t);
    assert s[0] == u[0] && t[0] == u[0];
    BraceUnit(u, w);
    BraceUnit(u, "\"" + z);
    var n := UnitLength(s);
    assert s[n..] == u[n..] + w && t[n..] == u[n..] + ("\"" + z);
    if n == |u| {
      QuoteEnds(z);
      assert u[n..] + ("\"" + z) == "\"" + z;
    } else {
      BodyEndsEarly(u[n..], w, z);
    }
  }

  lemma QuoteEnds(z: string)
    ensures BodyEnd("\"" + z) == Some(0)
  {
  }

  /** A brace is no part of an escape, so the units of a body do not depend on what follows it. */
  lemma BraceUnit(u: string, w: string)
    requires u != "" && u[|u| - 1] == '{'
    ensures UnitLength(u + w) <= |u| && UnitLength(u + w) == UnitLength(u)
  {
    var s := u + w;
    assert s[0] == u[0] && s[|u| - 1] == '{' && (2 <= |u| ==> s[1] == u[1]);
    if 3 <= |u| < 6 {
      assert |s| < 6 || s[2..][|u| - 3] == '{';
    }
    UnitLengthOfPart(u, w);
  }

  lemma FirstInString(a: string, w: string, z: string)
    requires a != "" && !IsBlank(a[0]) && a[|a| - 1] == '{' && First(a + w).Some? && First(a + w).value.1 > |a|
    requires z != "" && IsTokenChar(z[0])
    ensures First(a + ("\"" + z)).None?
  {
    hide BodyEnd, TokenLength, IsBlank, IsPunct;
    var k := "\"" + z;
    assert (a + w)[0] == a[0] && (a + k)[0] == a[0];
    assert (a + w)[1..] == a[1..] + w && (a + k)[1..] == a[1..] + k;
    if a[0] == '"' {
      BodyEndsEarly(a[1..], w, z);
      assert (a[1..] + k)[|a| - 1 + 1..] == z;
    } else {
      BraceStopsWord(a, w);
    }
  }

  lemma BraceStopsWord(a: string, w: string)
    requires a != "" && a[|a| - 1] == '{'
    ensures TokenLength(a + w) < |a|
  {
    if TokenLength(a + w) >= |a| {
      TokenCharAt(a + w, |a| - 1);
    }
  }

  /** After a brace inside a string, a quote and a letter cannot be read. */
  lemma {:induction false} InsideString(a: string, w: string, z: string)
    requires a != "" && a[|a| - 1] == '{' && Lex(a).None? && Lex(a + w).Some? && z != "" && IsTokenChar(z[0])
    ensures Lex(a + ("\"" + z)).None?
    decreases |a|
  {
    assert IsPunct('{');
    hide Lex, First, IsBlank, IsPunct, IsTokenChar;
    var k := "\"" + z;
    if IsBlank(a[0]) {
      BlankNoPunct(a[0]);
      LexBlankJoin(a, "");
      LexBlankJoin(a, w);
      LexBlankJoin(a, k);
      assert a + "" == a && a[1..] + "" == a[1..];
      InsideString(a[1..], w, z);
    } else {
      HeadOf(a, w);
      HeadOf(a, k);
      LexFirst(a + w);
      LexFirst(a + k);
      var n := First(a + w).value.1;
      if n > |a| {
        FirstInString(a, w, z);
      } else {
        FirstCut(a, w);
        LexFirst(a);
        NotWhole(a, n);
        FirstExtend(a, k);
        DropJoin(a, w, n);
        DropJoin(a, k, n);
        InsideString(a[n..], w, z);
      }
    }
  }

  lemma LexBlankJoin(a: string, w: string)
    requires a != "" && IsBlank(a[0])
    ensures Lex(a + w) == Lex(a[1..] + w)
  {
    assert (a + w)[0] == a[0] && (a + w)[1..] == a[1..] + w;
  }

  lemma HeadOf(a: string, w: string)
    requires a != ""
    ensures a + w != "" && (a + w)[0] == a[0]
  {
  }

  lemma DropJoin(a: string, w: string, n: nat)
    requires n <= |a|
    ensures (a + w)[n..] == a[n..] + w
  {
  }

  lemma NotWhole(a: string, n: nat)
    requires n <= |a| && (n == |a| ==> Lex(a[n..]).None?)
    ensures n < |a|
  {
    NoText();
  }

  /** No comma stands before a closing bracket. */
  predicate NoGap(toks: seq<Token>) {
    forall i | 0 <= i < |toks| - 1 :: !(toks[i] == Punct(',') && toks[i + 1] in [Punct('}'), Punct(']')])
  }

  lemma NoGapJoin(a: seq<Token>, b: seq<Token>)
    requires NoGap(a) && NoGap(b)
    requires a == [] || b == [] || a[|a| - 1] != Punct(',') || b[0] !in [Punct('}'), Punct(']')]
    ensures NoGap(a + b)
  {
  }

  lemma LastToken(j: Json)
    ensures TreeTokens(j)[|TreeTokens(j)| - 1] != Punct(',') && TreeTokens(j)[0] !in [Punct('}'), Punct(']')]
  {
    hide ItemsTokens;
    match j
    case Arr(elems) =>
      ElemsAreItems(elems);
      LastItem(Unkeyed(elems), false);
    case Obj(members) =>
      LastItem(members, true);
    case _ =>
  }

  lemma {:induction false} LastItem(ms: seq<Member>, keyed: bool)
    ensures var toks := ItemsTokens(ms, keyed); toks != [] && toks[|toks| - 1] == Punct(Closer(keyed))
  {
    if ms != [] {
      ItemsFirst(ms, keyed);
      hide ItemsTokens, ItemTokens;
      if |ms| > 1 {
        LastItem(ms[1..], keyed);
      }
    }
  }

  lemma {:induction false} TreeNoGap(j: Json)
    ensures NoGap(TreeTokens(j))
    decreases |TreeTokens(j)|, 0
  {
    hide ItemsTokens, NoGap;
    match j
    case Arr(elems) =>
      ElemsAreItems(elems);
      ItemsNoGap(Unkeyed(elems), false);
      OneNoGap(Punct('['));
      NoGapJoin([Punct('[')], ItemsTokens(Unkeyed(elems), false));
    case Obj(members) =>
      ItemsNoGap(members, true);
      OneNoGap(Punct('{'));
      NoGapJoin([Punct('{')], ItemsTokens(members, true));
    case Atom(tok) => OneNoGap(Word(tok));
    case Str(raw) => OneNoGap(Quoted(raw));
  }

  lemma OneNoGap(tok: Token)
    ensures NoGap([tok])
  {
  }

  lemma {:induction false} ItemsNoGap(ms: seq<Member>, keyed: bool)
    ensures NoGap(ItemsTokens(ms, keyed))
    decreases |ItemsTokens(ms, keyed)|, 1
  {
    if ms == [] {
      OneNoGap(Punct(Closer(keyed)));
    } else {
      ItemsFirst(ms, keyed);
      hide ItemsTokens, NoGap, TreeTokens;
      var sep := Punct(if |ms| == 1 then Closer(keyed) else ',');
      ItemNoGap(ms, keyed);
      OneNoGap(sep);
      if |ms| == 1 {
        assert [sep] + [] == [sep];
      } else {
        ItemsNoGap(ms[1..], keyed);
        FirstItem(ms[1..], keyed);
        NoGapJoin([sep], ItemsTokens(ms[1..], keyed));
      }
      NoGapJoin(ItemTokens(ms[0], keyed), [sep] + if |ms| == 1 then [] else ItemsTokens(ms[1..], keyed));
    }
  }

  lemma {:induction false} ItemNoGap(ms: seq<Member>, keyed: bool)
    requires ms != []
    ensures NoGap(ItemTokens(ms[0], keyed)) && ItemTokens(ms[0], keyed)[|ItemTokens(ms[0], keyed)| - 1] != Punct(',')
    decreases |ItemsTokens(ms, keyed)|, 0
  {
    ItemsFirst(ms, keyed);
    hide ItemsTokens, NoGap;
    TreeNoGap(ms[0].val);
    LastToken(ms[0].val);
    if keyed {
      KeyNoGap(ms[0].key);
      NoGapJoin([Quoted(ms[0].key), Punct(':')], TreeTokens(ms[0].val));
    }
  }

  lemma KeyNoGap(key: string)
    ensures NoGap([Quoted(key), Punct(':')])
  {
  }

  lemma FirstItem(ms: seq<Member>, keyed: bool)
    requires ms != []
    ensures ItemsTokens(ms, keyed)[0] !in [Punct('}'), Punct(']')]
  {
    ItemsFirst(ms, keyed);
    hide ItemsTokens;
    ItemStarts(ms[0], keyed);
  }

  predicate StartsClosed(s: string) {
    SkipBlanks(s) != "" && SkipBlanks(s)[0] == '}'
  }

  lemma ClosedTokens(s: string)
    requires Lex(s).Some?
    ensures StartsClosed(s) <==> Lex(s).value != [] && Lex(s).value[0] == Punct('}')
  {
    LexSkip(s);
    SkipStops(s);
    hide SkipBlanks;
    var t := SkipBlanks(s);
    NoText();
    if t != "" {
      LexFirst(t);
      hide Lex;
      if t[0] == '}' {
        PunctFirst(t);
      }
    }
  }

  lemma {:induction false} RunEnds(ms: seq<Member>)
    requires ms != []
    ensures RunTokens(ms) != [] && RunTokens(ms)[|RunTokens(ms)| - 1] == Punct(',')
  {
    hide ItemTokens;
    if |ms| > 1 {
      RunEnds(ms[1..]);
    }
  }

  /** A comma with a closing brace after it is in no JSON text. */
  lemma GapUnread(t: string, a: seq<Token>, b: seq<Token>)
    requires Lex(t) == Some(a + b) && a != [] && a[|a| - 1] == Punct(',') && b != [] && b[0] == Punct('}')
    ensures !IsJson(t)
  {
    hide Lex, ReadValue, TreeTokens;
    var toks, i := a + b, |a| - 1;
    assert toks[i] == Punct(',') && toks[i + 1] == Punct('}');
    if IsJson(t) {
      JsonTokensOf(t);
      TreeNoGap(Tree(t));
    }
  }

  lemma UnlexedUnread(t: string)
    requires Lex(t).None?
    ensures !IsJson(t)
  {
    hide Lex, ReadValue, TreeTokens;
    if IsJson(t) {
      JsonTokensOf(t);
    }
  }

  lemma RunStarts(ms: seq<Member>, z: string)
    requires ms != [] && ms[0].key != "" && IsTokenChar(ms[0].key[0])
    ensures var t := RunText(ms) + z;
            |t| >= 2 && t[0] == '"' && IsTokenChar(t[1]) && t == "\"" + t[1..]
  {
    var m := ms[0];
    var first := MemberText(m.key, Print(m.val));
    assert first[0] == '"' && first[1] == m.key[0];
    hide MemberText, Print;
    assert (RunText(ms) + z)[0] == first[0] && (RunText(ms) + z)[1] == first[1];
  }

  lemma OpensFullIff(s: string, p: nat)
    requires IsJson(s) && p < |s| && s[p] == '{'
    ensures OpensFull(s, p) <==> OpensAt(s, p) && !StartsClosed(s[p + 1..])
  {
    hide Lex, ReadValue, TreeTokens, ObjectAt, Splice, RunTokens, StartsClosed;
    if OpensAt(s, p) {
      var toks, k := TreeTokens(Tree(s)), BraceToken(s, p);
      AroundBrace(s, p);
      AddAtTokens(Tree(s), k, []);
      assert toks[k + 1..][0] == toks[k + 1];
      ClosedTokens(s[p + 1..]);
    }
  }

  /** Members put anywhere else leave no JSON, whatever comes later. */
  lemma InsertBroken(s: string, p: nat, ms: seq<Member>, z: string)
    requires IsJson(s) && p < |s| && s[p] == '{' && !OpensFull(s, p)
    requires LegalMembers(ms) && ms != [] && ms[0].key != "" && IsTokenChar(ms[0].key[0])
    requires StartsClosed(s[p + 1..]) ==> StartsClosed(z)
    ensures !IsJson(s[..p + 1] + (RunText(ms) + z))
  {
    hide Lex, ReadValue, WellFormed, TreeTokens, LegalMembers, RunTokens, RunText, SkipBlanks, IsTokenChar, ObjectAt,
      MemberText;
    var a, b := s[..p + 1], s[p + 1..];
    var x := RunText(ms) + z;
    JsonTokensOf(s);
    if Lex(a).None? {
      assert s == a + b;
      RunStarts(ms, z);
      InsideString(a, b, x[1..]);
      UnlexedUnread(a + x);
    } else {
      OpensFullIff(s, p);
      LexRun(ms, z);
      LexJoin(a, x);
      if Lex(z).None? {
        UnlexedUnread(a + x);
      } else {
        ClosedTokens(z);
        RunEnds(ms);
        var front := Lex(a).value;
        Associated(front, RunTokens(ms), Lex(z).value);
        assert (front + RunTokens(ms))[|front + RunTokens(ms)| - 1] == Punct(',');
        GapUnread(a + x, front + RunTokens(ms), Lex(z).value);
      }
    }
  }

  /**
   Inserting members with their commas after a brace of a JSON text gives a JSON text exactly when the
   brace opens an object of the tree that is not empty.
   */
  lemma InsertLegalIff(s: string, p: nat, ms: seq<Member>)
    requires IsJson(s) && p < |s| && s[p] == '{'
    requires LegalMembers(ms) && ms != [] && ms[0].key != "" && IsTokenChar(ms[0].key[0])
    ensures IsJson(s[..p + 1] + (RunText(ms) + s[p + 1..])) <==> OpensFull(s, p)
  {
    hide IsJson, RunText, LegalMembers, StartsClosed, Denotes, ObjectAt, Lex, AddAt;
    if OpensFull(s, p) {
      InsertDenotes(s, p, ms);
      DenotesTree(s[..p + 1] + (RunText(ms) + s[p + 1..]), AddAt(Tree(s), BraceToken(s, p), ms));
    } else {
      InsertBroken(s, p, ms, s[p + 1..]);
    }
  }

  /** What follows a brace is the same whatever is put in behind a later one. */
  lemma ClosedKept(u: string, w: string, x: string)
    requires u != "" && u[|u| - 1] == '{'
    ensures StartsClosed(u + w) <==> StartsClosed(u + x)
  {
    NotAllBlank(u);
    SkipBlanksExtend(u, w);
    SkipBlanksExtend(u, x);
  }

  lemma {:induction false} NotAllBlank(u: string)
    requires u != "" && u[|u| - 1] == '{'
    ensures SkipBlanks(u) != ""
  {
    if IsBlank(u[0]) {
      NotAllBlank(u[1..]);
    }
  }
}
