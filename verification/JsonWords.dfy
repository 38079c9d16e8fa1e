/** Searching JSON text for a quoted word, in terms of its tokens and of the tree it denotes. */
module JsonWords {
  import opened Wrappers
  import opened Text
  import opened Json
  import opened JsonReader
  import opened JsonTokens
  import opened JsonCuts

  predicate Shows(tok: Token, k: string) {
    tok.Quoted? && Names(tok.raw, k)
  }

  predicate SomeShows(toks: seq<Token>, k: string) {
    exists t | t in toks :: Shows(t, k)
  }

  lemma ShowsJoin(a: seq<Token>, b: seq<Token>, k: string)
    ensures SomeShows(a + b, k) <==> SomeShows(a, k) || SomeShows(b, k)
  {
    hide Shows;
    assert forall t :: t in a + b <==> t in a || t in b;
  }

  lemma ShowsOne(tok: Token, k: string)
    ensures SomeShows([tok], k) <==> Shows(tok, k)
  {
    hide Shows;
    assert tok in [tok];
  }

  // ----- in the text -----

  /** What holds no quote shows nothing, and nothing starts in it. */
  lemma ContainsAfter(w: string, rest: string, k: string)
    requires '"' !in w
    ensures Contains(w + rest, Quote(k)) <==> Contains(rest, Quote(k))
  {
    hide Find;
    if Contains(w + rest, Quote(k)) {
      var i := Find(w + rest, Quote(k), 0).value;
      AtChar(w + rest, Quote(k), i, 0);
      AtRight(w, rest, Quote(k), i);
      Found(rest, Quote(k), i - |w|);
    }
    if Contains(rest, Quote(k)) {
      var i := Find(rest, Quote(k), 0).value;
      AtRight(w, rest, Quote(k), |w| + i);
      Found(w + rest, Quote(k), |w| + i);
    }
  }

  /** A word that starts at the closing quote of a string would have to go on with what follows. */
  lemma CrossesClose(raw: string, rest: string, k: string, i: int)
    requires PlainKey(k) && At(Quote(raw) + rest, Quote(k), i) && i < |Quote(raw)| < i + |Quote(k)|
    ensures rest != "" && rest[0] in k
  {
    var s, w := Quote(raw) + rest, |Quote(raw)|;
    var m := w - 1 - i;
    InnerQuote(k, m);
    AtChar(s, Quote(k), i, m);
    AtChar(s, Quote(k), i, m + 1);
    assert s[w - 1] == '"' && s[w] == rest[0];
  }

  lemma InnerQuote(k: string, m: nat)
    requires PlainKey(k) && m <= |k|
    ensures Quote(k)[1] == k[0] && (Quote(k)[m] == '"' <==> m == 0)
  {
    if m > 0 {
      assert Quote(k)[m] == k[m - 1];
    }
  }

  lemma ContainsString(raw: string, rest: string, k: string)
    requires QuotesEscaped(raw) && PlainKey(k) && (rest == "" || rest[0] !in k)
    ensures Contains(Quote(raw) + rest, Quote(k)) <==> Names(raw, k) || Contains(rest, Quote(k))
  {
    hide Find, Names, QuotesEscaped;
    var w, pat := Quote(raw), Quote(k);
    QuotedIn(raw, k);
    if Contains(w + rest, pat) {
      var i := Find(w + rest, pat, 0).value;
      if i + |pat| <= |w| {
        AtLeft(w, rest, pat, i);
        Found(w, pat, i);
      } else if |w| <= i {
        AtRight(w, rest, pat, i);
        Found(rest, pat, i - |w|);
      } else {
        CrossesClose(raw, rest, k, i);
      }
    }
    if Contains(w, pat) {
      FindPrefix(w, rest, pat, 0);
    }
    if Contains(rest, pat) {
      var i := Find(rest, pat, 0).value;
      AtRight(w, rest, pat, |w| + i);
      Found(w + rest, pat, |w| + i);
    }
  }

  /** What follows a string in a text that has tokens is none of the characters of a plain word. */
  lemma AfterString(rest: string, k: string)
    requires PlainKey(k) && Delimits(rest) && Lex(rest).Some?
    ensures rest == "" || rest[0] !in k
  {
    if rest != "" && !IsBlank(rest[0]) {
      LexFirst(rest);
    }
  }

  lemma NoQuoteInWord(s: string)
    requires s != "" && !IsBlank(s[0]) && s[0] != '"' && First(s).Some?
    ensures '"' !in s[..First(s).value.1]
  {
    hide BodyEnd;
    var n := First(s).value.1;
    if IsTokenChar(s[0]) {
      forall i | 0 <= i < n ensures s[i] != '"' {
        TokenCharAt(s, i);
      }
    }
  }

  /** The text of the first token when it is a string. */
  lemma StringFirst(s: string)
    requires s != "" && s[0] == '"' && First(s).Some?
    ensures var (tok, n) := First(s).value;
            tok.Quoted? && QuotesEscaped(tok.raw) && n == |tok.raw| + 2 && s[..n] == Quote(tok.raw) &&
            s == Quote(tok.raw) + s[n..] && Delimits(s[n..])
  {
    hide BodyEnd, IsBlank, IsTokenChar, QuotesEscaped, ValidBody, Delimits;
    var m := BodyEnd(s[1..]).value;
    BodyEndCut(s[1..]);
    LegalBodyEscapes(s[1..][..m]);
    assert s[1..][m] == '"' && s[1..][m + 1..] == s[m + 2..];
  }

  /** A quoted plain word is found in a text exactly when one of its strings shows it. */
  lemma {:induction false} ContainsTokens(s: string, k: string)
    requires PlainKey(k) && Lex(s).Some?
    ensures Contains(s, Quote(k)) <==> SomeShows(Lex(s).value, k)
    decreases |s|
  {
    hide Find, Contains, Lex, First, IsBlank, PlainKey, SomeShows, Shows, Names, QuotesEscaped, Quote, Delimits;
    NoText();
    if s == "" {
      NothingShown(k);
    } else if IsBlank(s[0]) {
      LexBlank(s);
      BlankNoQuote(s[0]);
      ContainsAfter([s[0]], s[1..], k);
      assert s == [s[0]] + s[1..];
      ContainsTokens(s[1..], k);
    } else {
      LexFirst(s);
      var (tok, n) := First(s).value;
      ShowsJoin([tok], Lex(s[n..]).value, k);
      ShowsOne(tok, k);
      ContainsTokens(s[n..], k);
      if s[0] == '"' {
        StringFirst(s);
        AfterString(s[n..], k);
        ContainsString(tok.raw, s[n..], k);
        StringShows(tok, k);
      } else {
        NoQuoteInWord(s);
        ContainsAfter(s[..n], s[n..], k);
        assert s == s[..n] + s[n..];
        WordShowsNothing(s, k);
      }
    }
  }

  lemma NothingShown(k: string)
    ensures !Contains("", Quote(k)) && !SomeShows([], k)
  {
  }

  lemma BlankNoQuote(c: char)
    requires IsBlank(c)
    ensures '"' !in [c]
  {
  }

  lemma StringShows(tok: Token, k: string)
    requires tok.Quoted?
    ensures Shows(tok, k) <==> Names(tok.raw, k)
  {
  }

  lemma WordShowsNothing(s: string, k: string)
    requires s != "" && !IsBlank(s[0]) && s[0] != '"' && First(s).Some?
    ensures !Shows(First(s).value.0, k)
  {
  }

  // ----- in the tree -----

  lemma {:induction false} TreeShows(j: Json, k: string)
    ensures SomeShows(TreeTokens(j), k) <==> Mentions(j, k)
    decreases |TreeTokens(j)|, 0
  {
    hide ItemsTokens, SomeShows, Names;
    match j
    case Atom(tok) => ShowsOne(Word(tok), k);
    case Str(raw) => ShowsOne(Quoted(raw), k);
    case Arr(elems) =>
      ArrayTokens(Unkeyed(elems));
      ShowsJoin([Punct('[')], ItemsTokens(Unkeyed(elems), false), k);
      ShowsOne(Punct('['), k);
      ItemsShow(Unkeyed(elems), false, k);
      assert forall i | 0 <= i < |elems| :: Unkeyed(elems)[i] in Unkeyed(elems);
    case Obj(members) =>
      ShowsJoin([Punct('{')], ItemsTokens(members, true), k);
      ShowsOne(Punct('{'), k);
      ItemsShow(members, true, k);
  }

  lemma {:induction false} ItemsShow(ms: seq<Member>, keyed: bool, k: string)
    ensures SomeShows(ItemsTokens(ms, keyed), k) <==> exists m | m in ms :: (keyed && Names(m.key, k)) || Mentions(m.val, k)
    decreases |ItemsTokens(ms, keyed)|, 1
  {
    if ms == [] {
      ShowsOne(Punct(Closer(keyed)), k);
    } else {
      ItemsFirst(ms, keyed);
      hide ItemsTokens, SomeShows, Names, Mentions;
      var sep := Punct(if |ms| == 1 then Closer(keyed) else ',');
      var next := if |ms| == 1 then [] else ItemsTokens(ms[1..], keyed);
      ItemShows(ms, keyed, k);
      ShowsJoin(ItemTokens(ms[0], keyed), [sep] + next, k);
      ShowsJoin([sep], next, k);
      ShowsOne(sep, k);
      NothingShown(k);
      if |ms| > 1 {
        ItemsShow(ms[1..], keyed, k);
      }
      assert forall m :: m in ms <==> m == ms[0] || m in ms[1..];
    }
  }

  lemma {:induction false} ItemShows(ms: seq<Member>, keyed: bool, k: string)
    requires ms != []
    ensures SomeShows(ItemTokens(ms[0], keyed), k) <==> (keyed && Names(ms[0].key, k)) || Mentions(ms[0].val, k)
    decreases |ItemsTokens(ms, keyed)|, 0
  {
    ItemsFirst(ms, keyed);
    hide ItemsTokens, SomeShows, Names, Mentions;
    var m := ms[0];
    TreeShows(m.val, k);
    if keyed {
      ShowsJoin([Quoted(m.key), Punct(':')], TreeTokens(m.val), k);
      ShowsJoin([Quoted(m.key)], [Punct(':')], k);
      assert [Quoted(m.key), Punct(':')] == [Quoted(m.key)] + [Punct(':')];
      ShowsOne(Quoted(m.key), k);
      ShowsOne(Punct(':'), k);
    }
  }

  // ----- finding a key -----

  predicate AllBlank(w: string) {
    forall i | 0 <= i < |w| :: IsBlank(w[i])
  }

  lemma {:induction false} BlankPart(s: string)
    ensures var n := |s| - |SkipBlanks(s)|;
            n >= 0 && AllBlank(s[..n]) && s[n..] == SkipBlanks(s)
  {
    hide IsBlank;
    if s != "" && IsBlank(s[0]) {
      BlankPart(s[1..]);
      var n := |s| - |SkipBlanks(s)|;
      assert s[..n] == [s[0]] + s[1..][..n - 1];
    }
  }

  lemma {:induction false} LexBlanks(w: string, s: string)
    requires AllBlank(w)
    ensures Lex(w + s) == Lex(s)
  {
    hide Lex, IsBlank;
    if w == "" {
      assert "" + s == s;
    } else {
      LexBlank(w + s);
      assert (w + s)[1..] == w[1..] + s;
      LexBlanks(w[1..], s);
    }
  }

  lemma BlanksPlain(w: string)
    requires AllBlank(w)
    ensures '{' !in w && '"' !in w && Delimits(w)
  {
  }

  /** A text that starts with a key, a colon and a brace, split behind the brace. */
  lemma KeyedBrace(b: string, key: string, more: seq<Token>) returns (x: string, tail: string)
    requires b != "" && !IsBlank(b[0]) && PlainKey(key)
    requires Lex(b) == Some([Quoted(key)] + ([Punct(':')] + ([Punct('{')] + more)))
    ensures b == x + ("{" + tail) && '{' !in x && StartsWith(x, Quote(key))
    ensures Lex(tail) == Some(more) && Lex(x + "{") == Some([Quoted(key), Punct(':'), Punct('{')])
  {
    hide Lex, BodyEnd, IsBlank, ValidBody, SkipBlanks, Quote, AllBlank, PlainKey;
    SkipNone(b);
    QuotedLexed(b, key, [Punct(':')] + ([Punct('{')] + more));
    var after := b[1..][|key| + 1..];
    QuotePart(b, key);
    BodyEndCut(b[1..]);
    PunctLexed(after, ':', [Punct('{')] + more);
    var w1, colon := BlanksBefore(after, ':');
    PunctLexed(colon, '{', more);
    var w2;
    w2, tail := BlanksBefore(colon, '{');
    x := Quote(key) + (w1 + (":" + w2));
    KeyLexed(key, w1, w2);
    KeyPieces(Quote(key), w1, w2, tail);
    NoBrace(key, w1, w2);
    StartsHere(Quote(key), w1 + (":" + w2));
  }

  lemma StartsHere(pat: string, rest: string)
    ensures StartsWith(pat + rest, pat)
  {
  }

  lemma KeyPieces(key: string, w1: string, w2: string, tail: string)
    ensures key + (w1 + (":" + (w2 + ("{" + tail)))) == (key + (w1 + (":" + w2))) + ("{" + tail)
    ensures (key + (w1 + (":" + w2))) + "{" == key + (w1 + (":" + (w2 + "{")))
  {
  }

  lemma NoBrace(key: string, w1: string, w2: string)
    requires PlainKey(key) && AllBlank(w1) && AllBlank(w2)
    ensures '{' !in Quote(key) + (w1 + (":" + w2))
  {
    BlanksPlain(w1);
    BlanksPlain(w2);
    KeyPlain(key);
  }

  lemma BlanksBefore(s: string, c: char) returns (w: string, rest: string)
    requires SkipBlanks(s) != "" && SkipBlanks(s)[0] == c
    ensures AllBlank(w) && s == w + ([c] + rest) && rest == SkipBlanks(s)[1..]
  {
    hide IsBlank;
    BlankPart(s);
    var n := |s| - |SkipBlanks(s)|;
    w, rest := s[..n], SkipBlanks(s)[1..];
    assert s == s[..n] + s[n..];
    assert SkipBlanks(s) == [c] + rest;
  }

  lemma KeyLexed(key: string, w1: string, w2: string)
    requires ValidBody(key) && AllBlank(w1) && AllBlank(w2)
    ensures Lex(Quote(key) + (w1 + (":" + (w2 + "{")))) == Some([Quoted(key), Punct(':'), Punct('{')])
  {
    hide Lex, BodyEnd, IsBlank, ValidBody;
    var inner := w2 + "{";
    var colon := ":" + inner;
    NoText();
    ReadQuoted(key, w1 + colon);
    BlanksPlain(w1);
    StillDelimits(w1, colon);
    LexString(Quote(key) + (w1 + colon));
    LexBlanks(w1, colon);
    LexPunct(colon);
    assert colon[1..] == inner;
    LexBlanks(w2, "{");
    LexPunct("{");
    assert "{"[1..] == "";
    assert [Quoted(key)] + ([Punct(':')] + ([Punct('{')] + [])) == [Quoted(key), Punct(':'), Punct('{')];
  }

  lemma StillDelimits(w: string, x: string)
    requires Delimits(w) && Delimits(x)
    ensures Delimits(w + x)
  {
  }

  lemma KeyPlain(key: string)
    requires PlainKey(key)
    ensures '{' !in Quote(key)
  {
  }

  lemma QuotePart(b: string, key: string)
    requires b != "" && b[0] == '"' && BodyEnd(b[1..]) == Some(|key|) && b[1..][..|key|] == key
    ensures b == Quote(key) + b[1..][|key| + 1..]
  {
    hide BodyEnd;
    assert b[1..][|key|] == '"';
    assert b[1..] == key + "\"" + b[1..][|key| + 1..];
  }

  /** Where tokens end in a bracket, comma or colon, so does the text, but for blanks. */
  lemma {:induction false} LastChar(a: string)
    requires Lex(a).Some? && (Lex(a).value == [] || Lex(a).value[|Lex(a).value| - 1].Punct?)
    ensures a == "" || a[|a| - 1] in ",:{}[] \n\r\t"
    decreases |a|
  {
    hide Lex, First;
    NoText();
    if a != "" {
      if IsBlank(a[0]) {
        LexBlank(a);
        if |a| > 1 {
          LastChar(a[1..]);
        }
      } else {
        LexFirst(a);
        var (tok, n) := First(a).value;
        var rest := Lex(a[n..]).value;
        assert ([tok] + rest)[|rest|] == if rest == [] then tok else rest[|rest| - 1];
        if a[n..] == "" {
          OnePunct(a);
        } else {
          LastChar(a[n..]);
        }
      }
    }
  }

  lemma OnePunct(a: string)
    requires a != "" && !IsBlank(a[0]) && First(a).Some? && First(a).value.0.Punct?
    ensures First(a).value.1 == 1 && a[0] in ",:{}[]"
  {
  }

  /** The text before a key, the key with its colon, and the text behind the brace of its object. */
  lemma KeyParts(s: string, before: seq<Token>, key: string, more: seq<Token>) returns (a: string, x: string, tail: string)
    requires Lex(s) == Some(before + ([Quoted(key)] + ([Punct(':')] + ([Punct('{')] + more)))) && PlainKey(key)
    ensures s == a + (x + ("{" + tail)) && '{' !in x && StartsWith(x, Quote(key))
    ensures Lex(a) == Some(before) && Lex(tail) == Some(more) && Lex(x + "{") == Some([Quoted(key), Punct(':'), Punct('{')])
  {
    hide Lex, Quote, PlainKey, TokenAt, StartsWith, IsBlank;
    var rest := [Quoted(key)] + ([Punct(':')] + ([Punct('{')] + more));
    var i := TokenAt(s, |before|);
    LexCut(s, |before|);
    assert (before + rest)[..|before|] == before && (before + rest)[|before|..] == rest;
    NoText();
    a := s[..i];
    x, tail := KeyedBrace(s[i..], key, more);
    assert s == a + s[i..];
  }

  /** The first place that shows the key as its tokens tell it, and the brace of its object. */
  lemma KeyFound(s: string, before: seq<Token>, key: string, more: seq<Token>) returns (head: string, tail: string)
    requires Lex(s) == Some(before + ([Quoted(key)] + ([Punct(':')] + ([Punct('{')] + more)))) && PlainKey(key)
    requires !SomeShows(before, key) && (before == [] || before[|before| - 1].Punct?)
    ensures s == head + tail && head != "" && head[|head| - 1] == '{' && Lex(tail) == Some(more)
    ensures Find(s, Quote(key), 0).Some? && Find(s, "{", Find(s, Quote(key), 0).value) == Some(|head| - 1)
    ensures Find(s, Quote(key), 0).value < |head|
    ensures Find(head, Quote(key), 0) == Find(s, Quote(key), 0) && Find(head, "{", Find(s, Quote(key), 0).value) == Some(|head| - 1)
    ensures forall k | PlainKey(k) && !Names(key, k) :: Find(head, Quote(k), Find(s, Quote(key), 0).value) == None
    ensures Lex(head) == Some(before + [Quoted(key), Punct(':'), Punct('{')])
  {
    hide Lex, Find, SomeShows, Names, Quote, PlainKey, StartsWith;
    var a, x;
    a, x, tail := KeyParts(s, before, key, more);
    head := a + (x + "{");
    HeadPieces(a, x, tail);
    QuoteDelimits(x, key);
    LexJoin(a, x + "{");
    hide Lex;
    KeySearched(a, x, tail, key);
    forall k | PlainKey(k) && !Names(key, k) ensures Find(head, Quote(k), |a|) == None {
      OnlyKey(a, x, key, k);
    }
  }

  lemma KeySearched(a: string, x: string, tail: string, key: string)
    requires PlainKey(key) && '{' !in x && StartsWith(x, Quote(key)) && Lex(a).Some? && !SomeShows(Lex(a).value, key)
    requires Lex(a).value == [] || Lex(a).value[|Lex(a).value| - 1].Punct?
    ensures var s, head, p := a + (x + ("{" + tail)), a + (x + "{"), |a| + |x|;
            && Find(s, Quote(key), 0) == Some(|a|) && Find(s, "{", |a|) == Some(p)
            && Find(head, Quote(key), 0) == Some(|a|) && Find(head, "{", |a|) == Some(p)
  {
    hide Lex, Find, SomeShows, Quote, PlainKey, StartsWith;
    LastChar(a);
    ContainsTokens(a, key);
    FoundKey(a, x, "{" + tail, key);
    FoundKey(a, x, "{", key);
    BraceBehind(a, x, '{', tail);
    BraceBehind(a, x, '{', "");
    assert ['{'] + "" == "{" && ['{'] == "{";
  }

  lemma HeadPieces(a: string, x: string, tail: string)
    ensures a + (x + ("{" + tail)) == (a + (x + "{")) + tail && (a + (x + "{"))[|a + (x + "{")| - 1] == '{'
  {
  }

  lemma QuoteDelimits(x: string, key: string)
    requires StartsWith(x, Quote(key))
    ensures Delimits(x + "{")
  {
    assert x[0] == Quote(key)[0];
  }

  lemma FoundKey(a: string, x: string, rest: string, key: string)
    requires PlainKey(key) && (a == "" || a[|a| - 1] in ",:{}[] \n\r\t") && !Contains(a, Quote(key)) && StartsWith(x, Quote(key))
    ensures Find(a + (x + rest), Quote(key), 0) == Some(|a|)
  {
    hide Find, Quote, StartsWith, PlainKey;
    FindKeySplit(a, x + rest, key, 0);
    FoundFirst(x, rest, Quote(key));
    NoneInside(a, Quote(key));
  }

  lemma FoundFirst(x: string, rest: string, pat: string)
    requires StartsWith(x, pat)
    ensures Find(x + rest, pat, 0) == Some(0)
  {
    hide Find;
    assert (x + rest)[0..|pat|] == x[..|pat|];
    FindIs(x + rest, pat, 0, 0);
  }

  lemma NoneInside(s: string, pat: string)
    requires !Contains(s, pat)
    ensures Find(s, pat, 0) == None
  {
  }

  /** Between the key and the brace no other word is shown. */
  lemma OnlyKey(a: string, x: string, key: string, k: string)
    requires PlainKey(k) && !Names(key, k) && Lex(x + "{") == Some([Quoted(key), Punct(':'), Punct('{')])
    ensures Find(a + (x + "{"), Quote(k), |a|) == None
  {
    hide Find, Lex, Names, SomeShows, Quote;
    ContainsTokens(x + "{", k);
    KeyTokensShow(key, k);
    FindShift(a, x + "{", Quote(k), |a|);
    NoneInside(x + "{", Quote(k));
  }

  lemma KeyTokensShow(key: string, k: string)
    ensures SomeShows([Quoted(key), Punct(':'), Punct('{')], k) <==> Names(key, k)
  {
    hide Names;
    assert Quoted(key) in [Quoted(key), Punct(':'), Punct('{')];
  }

  // ----- before the first closing brace -----

  /** The text in front of the first `c`; all of it when there is none. */
  function UpTo(s: string, c: char): string {
    if s == "" || s[0] == c then "" else [s[0]] + UpTo(s[1..], c)
  }

  lemma {:induction false} UpToIs(s: string, c: char, e: nat)
    requires e < |s| && s[e] == c && forall j | 0 <= j < e :: s[j] != c
    ensures UpTo(s, c) == s[..e]
  {
    if e > 0 {
      UpToIs(s[1..], c, e - 1);
      assert s[..e] == [s[0]] + s[1..][..e - 1];
    }
  }

  lemma {:induction false} UpToThrough(w: string, rest: string, c: char)
    requires c !in w
    ensures UpTo(w + rest, c) == w + UpTo(rest, c)
  {
    if w == "" {
      assert "" + rest == rest;
    } else {
      assert (w + rest)[1..] == w[1..] + rest;
      UpToThrough(w[1..], rest, c);
      assert w == [w[0]] + w[1..];
    }
  }

  /** With `c` in the front part the rest does not matter. */
  lemma {:induction false} UpToWithin(w: string, rest: string, c: char)
    requires c in w
    ensures UpTo(w + rest, c) == UpTo(w, c) && |UpTo(w, c)| < |w| && UpTo(w, c) == w[..|UpTo(w, c)|]
  {
    assert (w + rest)[0] == w[0];
    if w[0] != c {
      assert (w + rest)[1..] == w[1..] + rest;
      UpToWithin(w[1..], rest, c);
    }
  }

  predicate Closes(tok: Token) {
    match tok
    case Punct(c) => c == '}'
    case Word(text) => '}' in text
    case Quoted(raw) => '}' in raw
  }

  /** A string shows the word before any closing brace, those inside strings included. */
  predicate ShowsEarly(toks: seq<Token>, k: string) {
    toks != [] && !Closes(toks[0]) && (Shows(toks[0], k) || ShowsEarly(toks[1..], k))
  }

  lemma {:induction false} EarlyPrefix(a: seq<Token>, b: seq<Token>, k: string)
    requires exists t | t in a :: Closes(t)
    ensures ShowsEarly(a + b, k) <==> ShowsEarly(a, k)
  {
    hide Closes, Shows;
    assert (a + b)[0] == a[0];
    if !Closes(a[0]) {
      assert (a + b)[1..] == a[1..] + b;
      var t :| t in a && Closes(t);
      assert t in a[1..];
      EarlyPrefix(a[1..], b, k);
    }
  }

  /** Cut inside a string, a word has no closing quote left. */
  lemma CutString(raw: string, n: nat, k: string)
    requires QuotesEscaped(raw) && PlainKey(k) && n < |Quote(raw)|
    ensures !Contains(Quote(raw)[..n], Quote(k))
  {
    hide Find, QuotesEscaped, PlainKey;
    var w := Quote(raw);
    assert w == w[..n] + w[n..];
    if Contains(w[..n], Quote(k)) {
      var i := Find(w[..n], Quote(k), 0).value;
      AtLeft(w[..n], w[n..], Quote(k), i);
      QuotedLast(raw, k, i);
    }
  }

  lemma UpToStarts(rest: string, c: char, k: string)
    requires rest == "" || rest[0] !in k
    ensures UpTo(rest, c) == "" || UpTo(rest, c)[0] !in k
  {
  }

  /** Cutting a text before its first closing brace, in tokens. */
  lemma {:induction false} EarlyTokens(s: string, k: string)
    requires PlainKey(k) && Lex(s).Some?
    ensures Contains(UpTo(s, '}'), Quote(k)) <==> ShowsEarly(Lex(s).value, k)
    decreases |s|
  {
    hide Contains, Lex, First, IsBlank, PlainKey, Shows, Closes, UpTo, ShowsEarly, QuotesEscaped, Quote;
    NoText();
    if s == "" {
      NothingEarly(k);
    } else if IsBlank(s[0]) {
      LexBlank(s);
      BlankNoQuote(s[0]);
      BlankNoPunct(s[0]);
      EarlyTokens(s[1..], k);
      UpToThrough([s[0]], s[1..], '}');
      ContainsAfter([s[0]], UpTo(s[1..], '}'), k);
      assert s == [s[0]] + s[1..];
    } else {
      LexFirst(s);
      var (tok, n) := First(s).value;
      assert s == s[..n] + s[n..];
      EarlyTokens(s[n..], k);
      EarlyCons(tok, Lex(s[n..]).value, k);
      if s[0] == '"' {
        EarlyString(s, k);
      } else {
        EarlyWord(s, k);
      }
    }
  }

  lemma NothingEarly(k: string)
    ensures !Contains(UpTo("", '}'), Quote(k)) && !ShowsEarly([], k)
  {
  }

  lemma EarlyCons(tok: Token, more: seq<Token>, k: string)
    ensures ShowsEarly([tok] + more, k) <==> !Closes(tok) && (Shows(tok, k) || ShowsEarly(more, k))
  {
    assert ([tok] + more)[1..] == more;
  }

  lemma EarlyString(s: string, k: string)
    requires PlainKey(k) && Lex(s).Some? && s != "" && s[0] == '"' && !IsBlank(s[0]) && First(s).Some?
    ensures var (tok, n) := First(s).value;
            Contains(UpTo(s, '}'), Quote(k)) <==> !Closes(tok) && (Shows(tok, k) || Contains(UpTo(s[n..], '}'), Quote(k)))
  {
    StringFirst(s);
    LexFirst(s);
    hide Contains, Lex, First, IsBlank, PlainKey, UpTo, QuotesEscaped, Names;
    var (tok, n) := First(s).value;
    var w := Quote(tok.raw);
    assert '}' in w <==> '}' in tok.raw;
    if '}' in w {
      UpToWithin(w, s[n..], '}');
      CutString(tok.raw, |UpTo(w, '}')|, k);
    } else {
      UpToThrough(w, s[n..], '}');
      AfterString(s[n..], k);
      UpToStarts(s[n..], '}', k);
      ContainsString(tok.raw, UpTo(s[n..], '}'), k);
    }
  }

  lemma EarlyWord(s: string, k: string)
    requires s != "" && s[0] != '"' && !IsBlank(s[0]) && First(s).Some?
    ensures var (tok, n) := First(s).value;
            Contains(UpTo(s, '}'), Quote(k)) <==> !Closes(tok) && (Shows(tok, k) || Contains(UpTo(s[n..], '}'), Quote(k)))
  {
    NoQuoteInWord(s);
    hide Contains, IsBlank, BodyEnd;
    var (tok, n) := First(s).value;
    var w, rest := s[..n], s[n..];
    assert s == w + rest;
    if IsTokenChar(s[0]) {
      WordOpen(s);
      UpToThrough(w, rest, '}');
      ContainsAfter(w, UpTo(rest, '}'), k);
    } else if s[0] == '}' {
      NothingEarly(k);
    } else {
      UpToThrough(w, rest, '}');
      ContainsAfter(w, UpTo(rest, '}'), k);
    }
  }

  lemma WordOpen(s: string)
    ensures '}' !in s[..TokenLength(s)]
  {
    forall i | 0 <= i < TokenLength(s) ensures s[i] != '}' {
      TokenCharAt(s, i);
    }
  }
}
