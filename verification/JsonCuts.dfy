/** Cutting and joining JSON text between its tokens. */
module JsonCuts {
  import opened Wrappers
  import opened Json
  import opened JsonReader
  import opened JsonTokens

  // ----- joining -----

  /** The first token stays the first one when text follows that does not run on with it. */
  lemma FirstExtend(s: string, x: string)
    requires s != "" && !IsBlank(s[0]) && First(s).Some? && (First(s).value.1 < |s| || Delimits(x))
    ensures First(s + x) == First(s)
  {
    hide BodyEnd, TokenLength, IsBlank, IsTokenChar;
    assert (s + x)[0] == s[0];
    if s[0] == '"' {
      ExtendString(s, x);
    } else if IsTokenChar(s[0]) {
      TokenLengthExtend(s, x);
      assert (s + x)[..TokenLength(s)] == s[..TokenLength(s)];
    }
  }

  lemma PunctFirst(s: string)
    requires s != "" && IsPunct(s[0])
    ensures !IsBlank(s[0]) && First(s) == Some((Punct(s[0]), 1))
  {
  }

  /** A token that ends with a bracket, brace, comma or colon is that character. */
  lemma LastPunct(s: string)
    requires s != "" && !IsBlank(s[0]) && First(s).Some? && First(s).value.1 == |s| && IsPunct(s[|s| - 1])
    ensures |s| == 1
  {
    hide BodyEnd;
    if s[0] != '"' && IsTokenChar(s[0]) {
      TokenCharAt(s, |s| - 1);
    }
  }

  lemma {:induction false} TokenCharAt(s: string, i: nat)
    requires i < TokenLength(s)
    ensures IsTokenChar(s[i])
  {
    if i > 0 {
      TokenCharAt(s[1..], i - 1);
    }
  }

  /** Nothing that starts `b` can run on with what ends `a`. */
  predicate Joins(a: string, b: string) {
    Delimits(b) || (a != "" && IsPunct(a[|a| - 1]))
  }

  lemma LexBlank(s: string)
    requires s != "" && IsBlank(s[0])
    ensures Lex(s) == Lex(s[1..])
  {
  }

  lemma LexFirst(s: string)
    requires s != "" && !IsBlank(s[0])
    ensures Lex(s) == if First(s).None? then None else Cat([First(s).value.0], Lex(s[First(s).value.1..]))
  {
    hide First;
  }

  lemma {:induction false} LexJoin(a: string, b: string)
    requires Lex(a).Some? && Joins(a, b)
    ensures Lex(a + b) == Cat(Lex(a).value, Lex(b))
    decreases |a|
  {
    hide Lex, First, IsBlank, IsPunct, Delimits;
    NoText();
    if a == "" {
      assert "" + b == b;
      CatNone(Lex(b));
    } else {
      assert (a + b)[0] == a[0];
      if IsBlank(a[0]) {
        BlankNoPunct(a[0]);
        LexBlank(a);
        LexBlank(a + b);
        assert (a + b)[1..] == a[1..] + b;
        LexJoin(a[1..], b);
      } else {
        LexFirst(a);
        LexFirst(a + b);
        var (tok, n) := First(a).value;
        FirstJoined(a, b);
        assert (a + b)[n..] == a[n..] + b;
        if a[n..] == "" {
          assert "" + b == b && [tok] + [] == [tok];
        } else {
          LexJoin(a[n..], b);
          CatTwice([tok], Lex(a[n..]).value, Lex(b));
        }
      }
    }
  }

  lemma NoText()
    ensures Lex("") == Some([]) && Delimits("")
  {
  }

  lemma CatNone(more: Option<seq<Token>>)
    ensures Cat([], more) == more
  {
    if more.Some? {
      assert [] + more.value == more.value;
    }
  }

  lemma BlankNoPunct(c: char)
    requires IsBlank(c)
    ensures !IsPunct(c)
  {
  }

  lemma FirstJoined(a: string, b: string)
    requires a != "" && !IsBlank(a[0]) && First(a).Some? && Joins(a, b)
    ensures First(a + b) == First(a)
    ensures Joins(a[First(a).value.1..], b) || a[First(a).value.1..] == ""
    ensures a[First(a).value.1..] == "" && !Delimits(b) ==> |a| == 1 && IsPunct(a[0])
  {
    hide IsBlank, IsPunct, Delimits;
    if First(a).value.1 < |a| || Delimits(b) {
      hide First;
      FirstExtend(a, b);
    } else {
      LastPunct(a);
      PunctFirst(a);
      PunctFirst(a + b);
    }
  }

  lemma MemberLexed(key: string, rest: string)
    requires ValidBody(key)
    ensures Lex(MemberText(key, rest)) == Cat([Quoted(key), Punct(':')], Lex(rest))
  {
    hide BodyEnd, ValidBody, Lex;
    var text := MemberText(key, rest);
    assert text == Quote(key) + (":" + rest);
    ReadQuoted(key, ":" + rest);
    LexString(text);
    LexPunct(":" + rest);
    assert (":" + rest)[1..] == rest;
    CatTwice([Quoted(key)], [Punct(':')], Lex(rest));
    assert [Quoted(key)] + [Punct(':')] == [Quoted(key), Punct(':')];
  }

  // ----- cutting -----

  /** The first token of a text is that of any part of it that holds it. */
  lemma FirstCut(s: string, x: string)
    requires s != "" && !IsBlank(s[0]) && First(s + x).Some? && First(s + x).value.1 <= |s|
    ensures First(s) == First(s + x)
  {
    hide BodyEnd, TokenLength, IsBlank, IsTokenChar;
    assert (s + x)[0] == s[0] && (s + x)[1..] == s[1..] + x;
    var n := First(s + x).value.1;
    if s[0] == '"' {
      BodyEndOfPart(s[1..], x);
      assert (s[1..] + x)[n - 1..] == s[1..][n - 1..] + x && (s[1..] + x)[..n - 2] == s[1..][..n - 2];
      DelimitsOfPart(s[1..][n - 1..], x);
    } else if IsTokenChar(s[0]) {
      TokenLengthOfPart(s, x);
      assert (s + x)[..n] == s[..n];
    }
  }

  lemma DelimitsOfPart(s: string, x: string)
    requires Delimits(s + x)
    ensures Delimits(s)
  {
  }

  lemma {:induction false} BodyEndOfPart(s: string, x: string)
    requires BodyEnd(s + x).Some? && BodyEnd(s + x).value < |s|
    ensures BodyEnd(s) == BodyEnd(s + x)
    decreases |s|
  {
    hide BodyEnd, UnitLength;
    BodyStep(s + x);
    BodyStep(s);
    assert (s + x)[0] == s[0];
    if s[0] != '"' {
      var n := UnitLength(s + x);
      UnitLengthOfPart(s, x);
      assert (s + x)[n..] == s[n..] + x;
      BodyEndOfPart(s[n..], x);
    }
  }

  lemma UnitLengthOfPart(s: string, x: string)
    requires UnitLength(s + x) <= |s|
    ensures UnitLength(s) == UnitLength(s + x)
  {
    if 2 <= |s| {
      assert (s + x)[2..] == s[2..] + x;
    }
  }

  lemma {:induction false} TokenLengthOfPart(s: string, x: string)
    requires TokenLength(s + x) <= |s|
    ensures TokenLength(s) == TokenLength(s + x)
  {
    if s != "" && IsTokenChar(s[0]) {
      assert (s + x)[1..] == s[1..] + x;
      TokenLengthOfPart(s[1..], x);
    }
  }

  /** Where token `n` of the text starts; the length of the text when there is none. */
  function TokenAt(s: string, n: nat): (i: nat)
    ensures i <= |s|
    decreases |s|
  {
    if s == "" then 0
    else if IsBlank(s[0]) then 1 + TokenAt(s[1..], n)
    else if n == 0 || First(s).None? then 0
    else First(s).value.1 + TokenAt(s[First(s).value.1..], n - 1)
  }

  /** The text up to a token has the tokens before it, the text from there on the others. */
  lemma {:induction false} LexCut(s: string, n: nat)
    requires Lex(s).Some? && n <= |Lex(s).value|
    ensures var i := TokenAt(s, n);
            && Lex(s[..i]) == Some(Lex(s).value[..n]) && Lex(s[i..]) == Some(Lex(s).value[n..])
            && (i < |s| ==> !IsBlank(s[i]))
    decreases |s|
  {
    hide Lex, First, IsBlank;
    NoText();
    var i := TokenAt(s, n);
    if s == "" {
      assert s[..i] == "" && s[i..] == "";
    } else if IsBlank(s[0]) {
      LexBlank(s);
      LexCut(s[1..], n);
      assert s[..i][0] == s[0] && s[..i][1..] == s[1..][..i - 1] && s[i..] == s[1..][i - 1..];
      LexBlank(s[..i]);
    } else {
      LexFirst(s);
      var (tok, m) := First(s).value;
      if n == 0 {
        assert s[..i] == "" && s[i..] == s && Lex(s).value[..0] == [];
      } else {
        LexCut(s[m..], n - 1);
        assert s == s[..i] + s[i..] && s[..i][0] == s[0];
        FirstCut(s[..i], s[i..]);
        LexFirst(s[..i]);
        assert s[..i][m..] == s[m..][..i - m] && s[i..] == s[m..][i - m..];
        var more := Lex(s[m..]).value;
        assert ([tok] + more)[..n] == [tok] + more[..n - 1] && ([tok] + more)[n..] == more[n - 1..];
      }
    }
  }

  // ----- a text is taken apart where a separator stands -----

  /** The texts that follow a value in the commands: the next member, or the two closing braces. */
  predicate Separates(x: string) {
    x == "}}" || (3 <= |x| && x[0] == ',' && x[1] == '"' && IsTokenChar(x[2]))
  }

  lemma UnitCrosses(r: string, x: string)
    requires r != "" && Separates(x) && UnitLength(r + x) != 0
    ensures UnitLength(r) == UnitLength(r + x)
  {
    var s := r + x;
    assert x[0] == ',' || x[0] == '}';
    if s[0] == '\\' {
      assert s[|r|] == x[0];
    }
  }

  lemma BracesEndNothing()
    ensures BodyEnd("}}") == None
  {
    assert "}}"[1..] == "}" && "}"[1..] == "";
    assert BodyEnd("") == None;
    assert BodyEnd("}") == None;
  }

  lemma BodyInSeparator(x: string)
    requires Separates(x) && BodyEnd(x).Some?
    ensures x[0] == ',' && BodyEnd(x) == Some(1)
  {
    BracesEndNothing();
  }

  /** A string that is open at the end of `r` can only end at the quote in the separator. */
  lemma {:induction false} BodyCrosses(r: string, x: string)
    requires Separates(x) && BodyEnd(r) == None && BodyEnd(r + x).Some?
    ensures x[0] == ',' && BodyEnd(r + x) == Some(|r| + 1)
    decreases |r|
  {
    hide BodyEnd, UnitLength, Separates;
    if r == "" {
      assert r + x == x;
      BodyInSeparator(x);
    } else {
      BodyStep(r);
      BodyStep(r + x);
      assert (r + x)[0] == r[0];
      UnitCrosses(r, x);
      var n := UnitLength(r);
      assert (r + x)[n..] == r[n..] + x;
      BodyCrosses(r[n..], x);
    }
  }

  /** The key after that quote follows it at once. */
  lemma OpenStringStuck(body: string, x: string)
    requires Separates(x) && BodyEnd(body) == None && BodyEnd(body + x).Some?
    ensures !Delimits((body + x)[BodyEnd(body + x).value + 1..])
  {
    hide BodyEnd;
    BodyCrosses(body, x);
    BodyInSeparatorRest(body, x);
  }

  lemma BodyInSeparatorRest(body: string, x: string)
    requires Separates(x) && x[0] == ','
    ensures !Delimits((body + x)[|body| + 2..])
  {
    assert (body + x)[|body| + 2..] == x[2..];
  }

  /** What stands in front of a separator has its own tokens. */
  lemma {:induction false} LexPart(r: string, x: string)
    requires Separates(x) && Lex(r + x).Some?
    ensures Lex(r).Some?
    decreases |r|
  {
    hide Lex, First, IsBlank, Separates;
    NoText();
    if r != "" {
      assert (r + x)[0] == r[0];
      if IsBlank(r[0]) {
        LexBlank(r);
        LexBlank(r + x);
        assert (r + x)[1..] == r[1..] + x;
        LexPart(r[1..], x);
      } else {
        LexFirst(r + x);
        FirstInPart(r, x);
        FirstCut(r, x);
        LexFirst(r);
        var n := First(r).value.1;
        assert (r + x)[n..] == r[n..] + x;
        LexPart(r[n..], x);
      }
    }
  }

  lemma FirstInPart(r: string, x: string)
    requires r != "" && !IsBlank(r[0]) && Separates(x) && First(r + x).Some?
    ensures First(r + x).value.1 <= |r|
  {
    hide BodyEnd;
    assert (r + x)[0] == r[0] && (r + x)[1..] == r[1..] + x;
    if r[0] == '"' {
      if BodyEnd(r[1..]).None? {
        OpenStringStuck(r[1..], x);
      } else {
        BodyEndExtend(r[1..], x);
      }
    } else {
      SeparatorDelimits(x);
      TokenLengthExtend(r, x);
    }
  }

  lemma SeparatorDelimits(x: string)
    requires Separates(x)
    ensures Delimits(x)
  {
  }

  lemma LexCross(r: string, x: string)
    requires Separates(x) && Lex(r + x).Some?
    ensures Lex(r).Some? && Lex(r + x) == Cat(Lex(r).value, Lex(x))
  {
    LexPart(r, x);
    SeparatorDelimits(x);
    LexJoin(r, x);
  }
}
