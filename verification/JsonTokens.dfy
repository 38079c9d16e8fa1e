/**
 JSON text as a sequence of tokens.  A text reads as a tree exactly when the tree is legal and the
 text has the tree's tokens, so blanks between tokens do not matter and nothing stands beside them.
 */
module JsonTokens {
  import opened Wrappers
  import opened Json
  import opened JsonReader

  /** A bracket, brace, comma or colon; a number or word; a string with its raw body. */
  datatype Token = Punct(c: char) | Word(text: string) | Quoted(raw: string)

  predicate IsPunct(c: char) {
    c in ",:[]{}"
  }

  function Cat(front: seq<Token>, more: Option<seq<Token>>): Option<seq<Token>> {
    if more.None? then None else Some(front + more.value)
  }

  /** The token that `s` starts with and its length; None when there is none, or a word follows a string at once. */
  function First(s: string): (r: Option<(Token, nat)>)
    requires s != "" && !IsBlank(s[0])
    ensures r.Some? ==> 0 < r.value.1 <= |s|
  {
    if s[0] == '"' then
      match BodyEnd(s[1..])
      case None => None
      case Some(n) => if Delimits(s[1..][n + 1..]) then Some((Quoted(s[1..][..n]), n + 2)) else None
    else if IsTokenChar(s[0]) then Some((Word(s[..TokenLength(s)]), TokenLength(s)))
    else if IsPunct(s[0]) then Some((Punct(s[0]), 1))
    else None
  }

  function Lex(s: string): Option<seq<Token>>
    decreases |s|
  {
    if s == "" then Some([])
    else if IsBlank(s[0]) then Lex(s[1..])
    else
      match First(s)
      case None => None
      case Some((tok, n)) => Cat([tok], Lex(s[n..]))
  }

  // ----- the tokens of a tree -----

  function TreeTokens(j: Json): (toks: seq<Token>)
    ensures toks != []
    decreases j, 2
  {
    match j
    case Atom(tok) => [Word(tok)]
    case Str(raw) => [Quoted(raw)]
    case Arr(elems) =>
      [Punct('[')] + if elems == [] then [Punct(']')] else TreeTokens(elems[0]) + RestElems(elems[1..])
    case Obj(members) => [Punct('{')] + ItemsTokens(members, true)
  }

  function RestElems(elems: seq<Json>): seq<Token>
    decreases elems, 0
  {
    if elems == [] then [Punct(']')] else [Punct(',')] + (TreeTokens(elems[0]) + RestElems(elems[1..]))
  }

  function ItemTokens(m: Member, keyed: bool): (toks: seq<Token>)
    ensures toks != []
    decreases m, 3
  {
    if keyed then [Quoted(m.key), Punct(':')] + TreeTokens(m.val) else TreeTokens(m.val)
  }

  /** The items with their commas and the closing bracket. */
  function ItemsTokens(ms: seq<Member>, keyed: bool): (toks: seq<Token>)
    ensures toks != []
    decreases ms, 1
  {
    if ms == [] then [Punct(Closer(keyed))] else ItemTokens(ms[0], keyed) + RestTokens(ms[1..], keyed)
  }

  function RestTokens(ms: seq<Member>, keyed: bool): seq<Token>
    decreases ms, 0
  {
    if ms == [] then [Punct(Closer(keyed))]
    else [Punct(',')] + (ItemTokens(ms[0], keyed) + RestTokens(ms[1..], keyed))
  }

  lemma {:induction false} RestOfValues(ms: seq<Member>)
    ensures RestElems(Values(ms)) == RestTokens(ms, false)
  {
    if ms != [] {
      RestOfValues(ms[1..]);
    }
  }

  lemma ArrayTokens(ms: seq<Member>)
    ensures TreeTokens(Arr(Values(ms))) == [Punct('[')] + ItemsTokens(ms, false)
  {
    if ms != [] {
      RestOfValues(ms[1..]);
    }
  }

  // ----- lexing one token -----

  lemma {:induction false} LexSkip(s: string)
    ensures Lex(SkipBlanks(s)) == Lex(s)
  {
    if s != "" && IsBlank(s[0]) {
      LexSkip(s[1..]);
    }
  }

  lemma LexPunct(s: string)
    requires s != "" && IsPunct(s[0])
    ensures Lex(s) == Cat([Punct(s[0])], Lex(s[1..]))
  {
    assert !IsBlank(s[0]) && !IsTokenChar(s[0]) && s[0] != '"';
    hide BodyEnd, TokenLength, IsBlank, IsTokenChar;
  }

  lemma LexString(s: string)
    requires s != "" && s[0] == '"' && BodyEnd(s[1..]).Some?
    ensures var n := BodyEnd(s[1..]).value;
            Lex(s) == if Delimits(s[1..][n + 1..]) then Cat([Quoted(s[1..][..n])], Lex(s[1..][n + 1..])) else None
  {
    assert !IsBlank(s[0]);
    hide BodyEnd, TokenLength, IsBlank, IsTokenChar, Delimits;
    var n := BodyEnd(s[1..]).value;
    assert s[1..][n + 1..] == s[n + 2..];
  }

  lemma LexWord(s: string)
    requires TokenLength(s) > 0
    ensures Lex(s) == Cat([Word(s[..TokenLength(s)])], Lex(s[TokenLength(s)..]))
  {
    assert !IsBlank(s[0]) && s[0] != '"';
    hide BodyEnd, IsBlank;
  }

  lemma CatTwice(a: seq<Token>, b: seq<Token>, more: Option<seq<Token>>)
    ensures Cat(a, Cat(b, more)) == Cat(a + b, more)
  {
    if more.Some? {
      assert a + (b + more.value) == a + b + more.value;
    }
  }

  // ----- reading takes the tokens of what it returns -----

  /** What follows the blanks tells whether a word can go on. */
  lemma DelimitsSkip(s: string)
    requires SkipBlanks(s) != "" && SkipBlanks(s)[0] in ",:]}"
    ensures Delimits(s)
  {
  }

  lemma {:induction false} ReadTokens(text: string)
    requires ReadValue(text).Some?
    ensures var (j, rest) := ReadValue(text).value;
            Delimits(rest) || Lex(text).Some? ==> Lex(text) == Cat(TreeTokens(j), Lex(rest))
    decreases |text|, 2
  {
    hide Lex, SkipBlanks, BodyEnd, ReadItems, ItemsTokens, ValidAtom, Delimits;
    var s := SkipBlanks(text);
    LexSkip(text);
    if s[0] == '"' {
      LexString(s);
    } else if s[0] == '[' {
      var (ms, rest) := ReadItems(s[1..], false).value;
      LexPunct(s);
      ItemsRead(s[1..], false);
      ArrayTokens(ms);
      CatTwice([Punct('[')], ItemsTokens(ms, false), Lex(rest));
    } else if s[0] == '{' {
      var (ms, rest) := ReadItems(s[1..], true).value;
      LexPunct(s);
      ItemsRead(s[1..], true);
      CatTwice([Punct('{')], ItemsTokens(ms, true), Lex(rest));
    } else {
      LexWord(s);
    }
  }

  lemma {:induction false} ItemsRead(text: string, keyed: bool)
    requires ReadItems(text, keyed).Some?
    ensures var (ms, rest) := ReadItems(text, keyed).value;
            Lex(text) == Cat(ItemsTokens(ms, keyed), Lex(rest))
    decreases |text|, 5
  {
    hide Lex, SkipBlanks, ReadList;
    ReadListStarts(text, keyed);
    var first := SkipBlanks(text);
    LexSkip(text);
    if first[0] == Closer(keyed) {
      LexPunct(first);
    } else {
      ListRead(text, keyed);
    }
  }

  lemma {:induction false} ItemRead(text: string, keyed: bool)
    requires ReadItem(text, keyed).Some? && Delimits(ReadItem(text, keyed).value.1)
    ensures var (m, rest) := ReadItem(text, keyed).value;
            Lex(text) == Cat(ItemTokens(m, keyed), Lex(rest))
    decreases |text|, 3
  {
    hide Lex, SkipBlanks, ReadValue, BodyEnd, TreeTokens;
    if !keyed {
      ReadTokens(text);
    } else {
      var s := SkipBlanks(text);
      var (m, rest) := ReadItem(text, keyed).value;
      LexSkip(text);
      var after := s[1..][BodyEnd(s[1..]).value + 1..];
      var colon := SkipBlanks(after);
      DelimitsSkip(after);
      LexString(s);
      LexSkip(after);
      LexPunct(colon);
      ReadTokens(colon[1..]);
      CatTwice([Punct(':')], TreeTokens(m.val), Lex(rest));
      CatTwice([Quoted(m.key)], [Punct(':')] + TreeTokens(m.val), Lex(rest));
      assert [Quoted(m.key)] + ([Punct(':')] + TreeTokens(m.val)) == ItemTokens(m, true);
    }
  }

  lemma {:induction false} ListRead(text: string, keyed: bool)
    requires ReadList(text, keyed).Some?
    ensures var (ms, rest) := ReadList(text, keyed).value;
            ms != [] && Lex(text) == Cat(ItemsTokens(ms, keyed), Lex(rest))
    decreases |text|, 4
  {
    hide Lex, SkipBlanks, ReadItem, ItemTokens;
    var (m, after) := ReadItem(text, keyed).value;
    var s := SkipBlanks(after);
    DelimitsSkip(after);
    ItemRead(text, keyed);
    LexSkip(after);
    LexPunct(s);
    if s[0] == Closer(keyed) {
      CatTwice(ItemTokens(m, keyed), [Punct(Closer(keyed))], Lex(s[1..]));
      assert [m][1..] == [];
    } else {
      var (ms, rest) := ReadList(s[1..], keyed).value;
      ListRead(s[1..], keyed);
      CatTwice([Punct(',')], ItemsTokens(ms, keyed), Lex(rest));
      CatTwice(ItemTokens(m, keyed), [Punct(',')] + ItemsTokens(ms, keyed), Lex(rest));
      assert ([m] + ms)[1..] == ms;
    }
  }

  // ----- a text with the tokens of a legal tree reads as that tree -----

  lemma FirstLexed(s: string, tok: Token, more: seq<Token>)
    requires Lex(s) == Some([tok] + more)
    ensures var t := SkipBlanks(s);
            t != "" && !IsBlank(t[0]) && First(t).Some? && First(t).value.0 == tok && Lex(t[First(t).value.1..]) == Some(more)
  {
    LexSkip(s);
    SkipStops(s);
    hide SkipBlanks, First;
    var t := SkipBlanks(s);
    var (x, n) := First(t).value;
    assert Lex(t) == Cat([x], Lex(t[n..]));
    assert ([x] + Lex(t[n..]).value)[0] == x && ([x] + Lex(t[n..]).value)[1..] == Lex(t[n..]).value;
    assert ([tok] + more)[0] == tok && ([tok] + more)[1..] == more;
  }

  lemma {:induction false} SkipStops(s: string)
    ensures SkipBlanks(s) != "" ==> !IsBlank(SkipBlanks(s)[0])
  {
    if s != "" && IsBlank(s[0]) {
      SkipStops(s[1..]);
    }
  }

  lemma PunctLexed(s: string, c: char, more: seq<Token>)
    requires Lex(s) == Some([Punct(c)] + more)
    ensures SkipBlanks(s) != "" && SkipBlanks(s)[0] == c && Lex(SkipBlanks(s)[1..]) == Some(more)
  {
    hide Lex, SkipBlanks;
    FirstLexed(s, Punct(c), more);
  }

  lemma QuotedLexed(s: string, raw: string, more: seq<Token>)
    requires Lex(s) == Some([Quoted(raw)] + more)
    ensures var t := SkipBlanks(s);
            t != "" && t[0] == '"' && BodyEnd(t[1..]) == Some(|raw|) && t[1..][..|raw|] == raw && Lex(t[1..][|raw| + 1..]) == Some(more)
  {
    hide Lex, SkipBlanks;
    FirstLexed(s, Quoted(raw), more);
    var t := SkipBlanks(s);
    assert t[1..][|raw| + 1..] == t[|raw| + 2..];
  }

  lemma {:induction false} LexReads(text: string, j: Json, more: seq<Token>)
    requires WellFormed(j) && Lex(text) == Some(TreeTokens(j) + more)
    ensures ReadValue(text).Some? && ReadValue(text).value.0 == j && Lex(ReadValue(text).value.1) == Some(more)
    decreases |text|, 2
  {
    hide Lex, SkipBlanks, BodyEnd, ReadItems, ItemsTokens, RestElems, ValidAtom, Delimits;
    var s := SkipBlanks(text);
    match j
    case Atom(tok) =>
      FirstLexed(text, Word(tok), more);
    case Str(raw) =>
      QuotedLexed(text, raw, more);
    case Arr(elems) =>
      var ms := Unkeyed(elems);
      ArrayTokens(ms);
      assert TreeTokens(j) + more == [Punct('[')] + (ItemsTokens(ms, false) + more);
      PunctLexed(text, '[', ItemsTokens(ms, false) + more);
      LexItems(s[1..], ms, false, more);
    case Obj(members) =>
      assert TreeTokens(j) + more == [Punct('{')] + (ItemsTokens(members, true) + more);
      PunctLexed(text, '{', ItemsTokens(members, true) + more);
      LexItems(s[1..], members, true, more);
  }

  predicate Legal(ms: seq<Member>, keyed: bool) {
    forall m | m in ms :: WellFormed(m.val) && if keyed then ValidBody(m.key) else m.key == ""
  }

  lemma ItemStarts(m: Member, keyed: bool)
    ensures ItemTokens(m, keyed) != [] && ItemTokens(m, keyed)[0] !in [Punct(']'), Punct('}'), Punct(',')]
  {
  }

  lemma {:induction false} LexItems(text: string, ms: seq<Member>, keyed: bool, more: seq<Token>)
    requires Legal(ms, keyed) && Lex(text) == Some(ItemsTokens(ms, keyed) + more)
    ensures ReadItems(text, keyed).Some? && ReadItems(text, keyed).value.0 == ms && Lex(ReadItems(text, keyed).value.1) == Some(more)
    decreases |text|, 5
  {
    hide Lex, SkipBlanks, ReadList, RestTokens, ItemTokens, Legal;
    if ms == [] {
      PunctLexed(text, Closer(keyed), more);
    } else {
      var toks := ItemsTokens(ms, keyed) + more;
      ItemStarts(ms[0], keyed);
      assert toks == [toks[0]] + toks[1..];
      NotClosing(text, toks[0], toks[1..], keyed);
      LexList(text, ms, keyed, more);
    }
  }

  lemma NotClosing(text: string, tok: Token, more: seq<Token>, keyed: bool)
    requires Lex(text) == Some([tok] + more) && tok != Punct(Closer(keyed))
    ensures SkipBlanks(text) != "" && SkipBlanks(text)[0] != Closer(keyed)
  {
    hide Lex, SkipBlanks;
    FirstLexed(text, tok, more);
  }

  lemma {:induction false} LexItem(text: string, m: Member, keyed: bool, more: seq<Token>)
    requires Legal([m], keyed) && Lex(text) == Some(ItemTokens(m, keyed) + more)
    ensures ReadItem(text, keyed).Some? && ReadItem(text, keyed).value.0 == m && Lex(ReadItem(text, keyed).value.1) == Some(more)
    decreases |text|, 3
  {
    hide Lex, SkipBlanks, ReadValue, BodyEnd, TreeTokens, WellFormed, ValidBody;
    assert m in [m];
    if !keyed {
      LexReads(text, m.val, more);
    } else {
      var s := SkipBlanks(text);
      var value := TreeTokens(m.val) + more;
      assert ItemTokens(m, keyed) + more == [Quoted(m.key)] + ([Punct(':')] + value);
      QuotedLexed(text, m.key, [Punct(':')] + value);
      var after := s[1..][|m.key| + 1..];
      PunctLexed(after, ':', value);
      LexReads(SkipBlanks(after)[1..], m.val, more);
    }
  }

  lemma {:induction false} LexList(text: string, ms: seq<Member>, keyed: bool, more: seq<Token>)
    requires ms != [] && Legal(ms, keyed) && Lex(text) == Some(ItemsTokens(ms, keyed) + more)
    ensures ReadList(text, keyed).Some? && ReadList(text, keyed).value.0 == ms && Lex(ReadList(text, keyed).value.1) == Some(more)
    decreases |text|, 4
  {
    hide Lex, SkipBlanks, ReadItem, ItemTokens, ItemsTokens, Legal;
    LegalSplit(ms, keyed);
    ListSplits(ms, keyed, more);
    if |ms| == 1 {
      LexItem(text, ms[0], keyed, [Punct(Closer(keyed))] + more);
      PunctLexed(ReadItem(text, keyed).value.1, Closer(keyed), more);
      assert ms == [ms[0]];
    } else {
      var next := ItemsTokens(ms[1..], keyed) + more;
      LexItem(text, ms[0], keyed, [Punct(',')] + next);
      var after := ReadItem(text, keyed).value.1;
      PunctLexed(after, ',', next);
      LexList(SkipBlanks(after)[1..], ms[1..], keyed, more);
      assert ms == [ms[0]] + ms[1..];
    }
  }

  lemma ItemsFirst(ms: seq<Member>, keyed: bool)
    requires ms != []
    ensures ItemsTokens(ms, keyed) ==
            ItemTokens(ms[0], keyed) + ([Punct(if |ms| == 1 then Closer(keyed) else ',')] +
                                        if |ms| == 1 then [] else ItemsTokens(ms[1..], keyed))
  {
    hide ItemTokens;
    if |ms| == 1 {
      assert ms[1..] == [];
    }
  }

  lemma ListSplits(ms: seq<Member>, keyed: bool, more: seq<Token>)
    requires ms != []
    ensures |ms| == 1 ==> ItemsTokens(ms, keyed) + more == ItemTokens(ms[0], keyed) + ([Punct(Closer(keyed))] + more)
    ensures |ms| > 1 ==>
              ItemsTokens(ms, keyed) + more == ItemTokens(ms[0], keyed) + ([Punct(',')] + (ItemsTokens(ms[1..], keyed) + more))
  {
    hide ItemTokens, ItemsTokens, Closer;
    ItemsFirst(ms, keyed);
    var first := ItemTokens(ms[0], keyed);
    if |ms| == 1 {
      assert [Punct(Closer(keyed))] + [] == [Punct(Closer(keyed))];
      Associated(first, [Punct(Closer(keyed))], more);
    } else {
      Associated(first, [Punct(',')] + ItemsTokens(ms[1..], keyed), more);
      Associated([Punct(',')], ItemsTokens(ms[1..], keyed), more);
    }
  }

  lemma Associated(a: seq<Token>, b: seq<Token>, c: seq<Token>)
    ensures a + b + c == a + (b + c)
  {
  }

  lemma LegalSplit(ms: seq<Member>, keyed: bool)
    requires ms != [] && Legal(ms, keyed)
    ensures Legal([ms[0]], keyed) && Legal(ms[1..], keyed)
  {
    hide WellFormed, ValidBody;
    assert ms[0] in ms;
  }

  /** The text is a JSON text for the tree (section 2 of RFC 8259): one value, with blanks around it. */
  predicate Denotes(text: string, j: Json) {
    ReadValue(text).Some? && ReadValue(text).value.0 == j && SkipBlanks(ReadValue(text).value.1) == ""
  }

  lemma LexNothing(s: string)
    ensures Lex(s) == Some([]) <==> SkipBlanks(s) == ""
  {
    LexSkip(s);
    SkipStops(s);
    hide SkipBlanks;
    var t := SkipBlanks(s);
    if t != "" && Lex(t).Some? {
      assert Lex(t).value != [];
    }
  }

  lemma {:induction false} OnlyBlanks(s: string)
    requires Lex(s) == Some([])
    ensures forall i | 0 <= i < |s| :: IsBlank(s[i])
  {
    if s != "" {
      if !IsBlank(s[0]) {
        LexNothing(s);
      } else {
        hide IsBlank;
        OnlyBlanks(s[1..]);
      }
    }
  }

  /** A text denotes a tree exactly when the tree is legal and the text has its tokens. */
  lemma DenotesIff(text: string, j: Json)
    ensures Denotes(text, j) <==> WellFormed(j) && Lex(text) == Some(TreeTokens(j))
  {
    hide ReadValue, Lex, WellFormed, TreeTokens, SkipBlanks, Delimits;
    assert TreeTokens(j) + [] == TreeTokens(j);
    if Denotes(text, j) {
      var rest := ReadValue(text).value.1;
      LexNothing(rest);
      BlanksDelimit(rest);
      ReadSound(text);
      ReadTokens(text);
    }
    if WellFormed(j) && Lex(text) == Some(TreeTokens(j)) {
      LexReads(text, j, []);
      LexNothing(ReadValue(text).value.1);
    }
  }

  lemma BlanksDelimit(s: string)
    requires SkipBlanks(s) == ""
    ensures Delimits(s)
  {
  }
}
