/**
 JSON values (RFC 8259), their compact text, and what a plain text search finds in that text.

 A string is kept as its `raw` body: the text between the quotes, escapes and all.  So every
 compact JSON text is the print of exactly one tree, whichever escapes its author chose.
 */
module Json {
  import opened Wrappers
  import opened Text

  datatype Json = Atom(tok: string) | Str(raw: string) | Arr(elems: seq<Json>) | Obj(members: seq<Member>)

  datatype Member = Member(key: string, val: Json)

  function Quote(raw: string): string {
    "\"" + raw + "\""
  }

  // ----- printing -----

  function Rest(texts: seq<string>): string {
    if texts == [] then "" else "," + texts[0] + Rest(texts[1..])
  }

  /** The texts with a comma between neighbours. */
  function Join(texts: seq<string>): string {
    if texts == [] then "" else texts[0] + Rest(texts[1..])
  }

  /** What `Join` puts in front of the item that follows `texts`. */
  function Lead(texts: seq<string>): string {
    if texts == [] then "" else Join(texts) + ","
  }

  function Print(j: Json): string
    decreases j, 1
  {
    match j
    case Atom(tok) => tok
    case Str(raw) => Quote(raw)
    case Arr(elems) => "[" + Join(ElemTexts(elems)) + "]"
    case Obj(members) => "{" + Join(MemberTexts(members)) + "}"
  }

  function ElemTexts(elems: seq<Json>): (texts: seq<string>)
    ensures |texts| == |elems|
    decreases elems, 0
  {
    if elems == [] then [] else [Print(elems[0])] + ElemTexts(elems[1..])
  }

  function MemberTexts(members: seq<Member>): (texts: seq<string>)
    ensures |texts| == |members|
    decreases members, 0
  {
    if members == [] then []
    else [MemberText(members[0].key, Print(members[0].val))] + MemberTexts(members[1..])
  }

  function MemberText(key: string, val: string): string {
    Quote(key) + ":" + val
  }

  lemma MemberTextsConcat(a: seq<Member>, b: seq<Member>)
    ensures MemberTexts(a + b) == MemberTexts(a) + MemberTexts(b)
  {
    if a == [] {
      assert a + b == b;
    } else {
      assert (a + b)[1..] == a[1..] + b;
      MemberTextsConcat(a[1..], b);
    }
  }

  lemma OneMemberText(m: Member)
    ensures MemberTexts([m]) == [MemberText(m.key, Print(m.val))]
    ensures Join(MemberTexts([m])) == MemberText(m.key, Print(m.val))
  {
    assert [m][1..] == [];
    assert MemberTexts([m])[1..] == [];
  }

  lemma ElemTextsConcat(a: seq<Json>, b: seq<Json>)
    ensures ElemTexts(a + b) == ElemTexts(a) + ElemTexts(b)
  {
    if a == [] {
      assert a + b == b;
    } else {
      assert (a + b)[1..] == a[1..] + b;
      ElemTextsConcat(a[1..], b);
    }
  }

  lemma {:induction false} RestConcat(a: seq<string>, b: seq<string>)
    ensures Rest(a + b) == Rest(a) + Rest(b)
  {
    if a == [] {
      assert a + b == b;
    } else {
      assert (a + b)[1..] == a[1..] + b;
      RestConcat(a[1..], b);
    }
  }

  lemma RestCons(item: string, after: seq<string>)
    ensures Rest([item] + after) == "," + item + Rest(after)
    ensures Join([item] + after) == item + Rest(after)
  {
    assert ([item] + after)[1..] == after;
  }

  lemma JoinMore(before: seq<string>, after: seq<string>)
    requires before != []
    ensures Join(before + after) == Join(before) + Rest(after)
  {
    assert (before + after)[1..] == before[1..] + after;
    RestConcat(before[1..], after);
  }

  lemma JoinAround(before: seq<string>, item: string, after: seq<string>)
    ensures Join(before + [item] + after) == Lead(before) + item + Rest(after)
  {
    hide Rest, Join;
    RestCons(item, after);
    if before == [] {
      assert before + [item] + after == [item] + after;
    } else {
      assert before + [item] + after == before + ([item] + after);
      JoinMore(before, [item] + after);
    }
  }

  /** The members' texts grow from the right as an object is written. */
  lemma BodySnoc(ms: seq<Member>, m: Member)
    requires ms != []
    ensures Join(MemberTexts(ms + [m])) == Join(MemberTexts(ms)) + "," + MemberText(m.key, Print(m.val))
  {
    hide MemberText;
    MemberTextsConcat(ms, [m]);
    OneMemberText(m);
    var texts, t := MemberTexts(ms), MemberText(m.key, Print(m.val));
    assert texts + [t] == texts + [t] + [];
    JoinAround(texts, t, []);
  }

  lemma BodyOfThree(ms: seq<Member>)
    requires |ms| == 3
    ensures Join(MemberTexts(ms)) ==
            MemberText(ms[0].key, Print(ms[0].val)) + "," + MemberText(ms[1].key, Print(ms[1].val)) +
            "," + MemberText(ms[2].key, Print(ms[2].val))
  {
    hide MemberText, Join, MemberTexts;
    OneMemberText(ms[0]);
    BodySnoc(ms[..1], ms[1]);
    BodySnoc(ms[..2], ms[2]);
    assert ms[..1] == [ms[0]] && ms[..1] + [ms[1]] == ms[..2] && ms[..2] + [ms[2]] == ms;
  }

  // ----- searching printed JSON -----

  /** A key as this program writes them: it holds no quote, escape, blank or punctuation of JSON. */
  predicate PlainKey(k: string) {
    k != "" && forall i | 0 <= i < |k| :: k[i] !in "\"\\,:{}[] \n\r\t"
  }

  lemma LettersPlain(k: string)
    requires k != "" && forall i | 0 <= i < |k| :: 'a' <= k[i] <= 'z' || '0' <= k[i] <= '9' || k[i] == '_'
    ensures PlainKey(k) && '"' !in k
  {
  }

  lemma PlainQuote(k: string, c: char)
    requires PlainKey(k) && c in "\\,:{}[] \n\r\t"
    ensures c !in Quote(k)
  {
  }

  /** A quoted plain word never crosses punctuation. */
  lemma FindKeySplit(a: string, b: string, k: string, from: nat)
    requires PlainKey(k) && from <= |a| && (a == "" || a[|a| - 1] in ",:{}[] \n\r\t")
    ensures Find(a + b, Quote(k), from) ==
            (if Find(a, Quote(k), from).Some? then Find(a, Quote(k), from)
             else if Find(b, Quote(k), 0).Some? then Some(|a| + Find(b, Quote(k), 0).value)
             else None)
  {
    hide Find, PlainKey;
    if a != "" {
      PlainQuote(k, a[|a| - 1]);
    }
    assert Seamless(a, b, Quote(k));
    hide Quote;
    FindSplit(a, b, Quote(k), from);
  }

  lemma ContainsKeySplit(a: string, b: string, k: string)
    requires PlainKey(k) && (a == "" || a[|a| - 1] in ",:{}[] \n\r\t")
    ensures Contains(a + b, Quote(k)) <==> Contains(a, Quote(k)) || Contains(b, Quote(k))
  {
    FindKeySplit(a, b, k, 0);
  }

  /** Every quote inside the string body follows a backslash. */
  predicate QuotesEscaped(raw: string) {
    forall i | 0 <= i < |raw| && raw[i] == '"' :: 0 < i && raw[i - 1] == '\\'
  }

  /** The string body `raw`, read as text between its quotes, shows the quoted word `k`. */
  predicate Names(raw: string, k: string) {
    raw == k || EndsWith(raw, "\"" + k)
  }

  /** All string bodies keep their quotes escaped and no atom holds a quote. */
  predicate QuoteSafe(j: Json) {
    match j
    case Atom(tok) => '"' !in tok
    case Str(raw) => QuotesEscaped(raw)
    case Arr(elems) => forall e | e in elems :: QuoteSafe(e)
    case Obj(members) => forall m | m in members :: QuotesEscaped(m.key) && QuoteSafe(m.val)
  }

  /** Some key or string value of the tree shows the word `k` in quotes. */
  predicate Mentions(j: Json, k: string) {
    match j
    case Atom(_) => false
    case Str(raw) => Names(raw, k)
    case Arr(elems) => exists e | e in elems :: Mentions(e, k)
    case Obj(members) => exists m | m in members :: MemberMentions(m, k)
  }

  predicate MemberMentions(m: Member, k: string) {
    Names(m.key, k) || Mentions(m.val, k)
  }

  /** Past the opening quote, a quote is the closing one or follows a backslash. */
  lemma QuoteOrEnd(raw: string, n: nat)
    requires QuotesEscaped(raw) && 0 < n < |raw| + 2 && Quote(raw)[n] == '"'
    ensures n == |raw| + 1 || Quote(raw)[n - 1] == '\\'
  {
    if n <= |raw| {
      assert raw[n - 1] == Quote(raw)[n];
      assert raw[n - 2] == Quote(raw)[n - 1];
    }
  }

  /** The word is shown only right before the closing quote. */
  lemma QuotedLast(raw: string, k: string, i: nat)
    requires QuotesEscaped(raw) && PlainKey(k) && At(Quote(raw), Quote(k), i)
    ensures i + |k| == |raw|
  {
    var text := Quote(raw);
    AtChar(text, Quote(k), i, |k| + 1);
    AtChar(text, Quote(k), i, |k|);
    assert Quote(k)[|k|] == k[|k| - 1];
    QuoteOrEnd(raw, i + |k| + 1);
  }

  lemma QuotedAt(raw: string, k: string, i: int)
    requires QuotesEscaped(raw) && PlainKey(k) && At(Quote(raw), Quote(k), i)
    ensures Names(raw, k) && i == |raw| - |k|
  {
    QuotedLast(raw, k, i);
    hide QuotesEscaped, PlainKey;
    var text, pat := Quote(raw), Quote(k);
    SliceSlice(text, i, i + |pat|, 1, 1 + |k|);
    assert raw[i..] == text[i + 1..i + 1 + |k|];
    assert pat[1..1 + |k|] == k;
    if 0 < i {
      AtChar(text, pat, i, 0);
      assert raw[i - 1] == text[i] && raw[i - 1..] == [raw[i - 1]] + raw[i..];
    }
  }

  lemma NamesAt(raw: string, k: string)
    requires Names(raw, k)
    ensures At(Quote(raw), Quote(k), |raw| - |k|)
  {
    var text, pat := Quote(raw), Quote(k);
    var i := |raw| - |k|;
    if raw == k {
      assert text[0..|pat|] == pat;
    } else {
      assert raw[i - 1..] == "\"" + k;
      assert text == "\"" + raw[..i - 1] + raw[i - 1..] + "\"";
      assert text[i..i + |pat|] == raw[i - 1..] + "\"";
    }
  }

  lemma QuotedIn(raw: string, k: string)
    requires QuotesEscaped(raw) && PlainKey(k)
    ensures Contains(Quote(raw), Quote(k)) <==> Names(raw, k)
  {
    if Contains(Quote(raw), Quote(k)) {
      QuotedAt(raw, k, Find(Quote(raw), Quote(k), 0).value);
    }
    if Names(raw, k) {
      NamesAt(raw, k);
      Found(Quote(raw), Quote(k), |raw| - |k|);
    }
  }

  lemma {:induction false} RestContains(texts: seq<string>, pat: string)
    requires |pat| >= 2 && ',' !in pat
    ensures Contains(Rest(texts), pat) <==> exists t | t in texts :: Contains(t, pat)
  {
    if texts != [] {
      var tail := Rest(texts[1..]);
      RestContains(texts[1..], pat);
      ContainsSplit(",", texts[0] + tail, pat);
      assert "," + (texts[0] + tail) == Rest(texts);
      assert tail == "" || tail[0] == ',';
      ContainsSplit(texts[0], tail, pat);
      assert texts == [texts[0]] + texts[1..];
    }
  }

  lemma JoinContains(texts: seq<string>, pat: string)
    requires |pat| >= 2 && ',' !in pat
    ensures Contains(Join(texts), pat) <==> exists t | t in texts :: Contains(t, pat)
  {
    if texts != [] {
      var tail := Rest(texts[1..]);
      RestContains(texts[1..], pat);
      assert tail == "" || tail[0] == ',';
      ContainsSplit(texts[0], tail, pat);
      assert texts == [texts[0]] + texts[1..];
    }
  }

  /** `pat` inside brackets or braces is `pat` in the text they enclose. */
  lemma WrapContains(open: string, body: string, close: string, pat: string)
    requires |open| == |close| == 1 && |pat| >= 2 && open[0] !in pat && close[0] !in pat
    ensures Contains(open + body + close, pat) <==> Contains(body, pat)
  {
    ContainsSplit(open + body, close, pat);
    ContainsSplit(open, body, pat);
  }

  lemma ListContains(open: string, texts: seq<string>, close: string, pat: string)
    requires |open| == |close| == 1 && |pat| >= 2 && open[0] !in pat && close[0] !in pat && ',' !in pat
    ensures Contains(open + Join(texts) + close, pat) <==> exists t | t in texts :: Contains(t, pat)
  {
    JoinContains(texts, pat);
    WrapContains(open, Join(texts), close, pat);
  }

  lemma MemberTextContains(key: string, val: string, k: string)
    requires QuotesEscaped(key) && PlainKey(k)
    ensures Contains(MemberText(key, val), Quote(k)) <==> Names(key, k) || Contains(val, Quote(k))
  {
    ContainsSplit(Quote(key) + ":", val, Quote(k));
    ContainsSplit(Quote(key), ":", Quote(k));
    QuotedIn(key, k);
  }

  /** In printed JSON the quoted word `k` is found exactly when the tree mentions it. */
  lemma {:induction false} PrintMentions(j: Json, k: string)
    requires QuoteSafe(j) && PlainKey(k)
    ensures Contains(Print(j), Quote(k)) <==> Mentions(j, k)
    decreases j, 1
  {
    hide Contains, Names, QuotesEscaped, Join, MemberTexts, ElemTexts;
    var pat := Quote(k);
    PlainQuote(k, ',');
    match j
    case Atom(tok) =>
      NotFound(tok, pat);
    case Str(raw) =>
      QuotedIn(raw, k);
    case Arr(elems) =>
      ElemsMention(elems, k);
      ListContains("[", ElemTexts(elems), "]", pat);
    case Obj(members) =>
      MembersMention(members, k);
      ListContains("{", MemberTexts(members), "}", pat);
  }

  lemma {:induction false} ElemsMention(elems: seq<Json>, k: string)
    requires (forall e | e in elems :: QuoteSafe(e)) && PlainKey(k)
    ensures (exists t | t in ElemTexts(elems) :: Contains(t, Quote(k))) <==> exists e | e in elems :: Mentions(e, k)
    decreases elems, 0
  {
    hide Contains, Quote, PlainKey, Print;
    if elems != [] {
      PrintMentions(elems[0], k);
      ElemsMention(elems[1..], k);
      assert elems == [elems[0]] + elems[1..];
    }
  }

  lemma {:induction false} MembersMention(members: seq<Member>, k: string)
    requires (forall m | m in members :: QuotesEscaped(m.key) && QuoteSafe(m.val)) && PlainKey(k)
    ensures (exists t | t in MemberTexts(members) :: Contains(t, Quote(k)))
       <==> exists m | m in members :: MemberMentions(m, k)
    decreases members, 0
  {
    hide Contains, Quote, PlainKey, Print, MemberText, Names, QuotesEscaped;
    if members != [] {
      var m := members[0];
      PrintMentions(m.val, k);
      MemberTextContains(m.key, Print(m.val), k);
      MembersMention(members[1..], k);
      assert members == [m] + members[1..];
    }
  }

  lemma BodyMentions(members: seq<Member>, k: string)
    requires (forall m | m in members :: QuotesEscaped(m.key) && QuoteSafe(m.val)) && PlainKey(k)
    ensures Contains(Join(MemberTexts(members)), Quote(k)) <==> exists m | m in members :: MemberMentions(m, k)
  {
    MembersMention(members, k);
    PlainQuote(k, ',');
    JoinContains(MemberTexts(members), Quote(k));
  }
}
