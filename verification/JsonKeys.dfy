/**
 Searching printed JSON for a key, the way the client does it without a parser: as the text
 `"key":`.  An escaped string can never hold that text, so only true keys are found.
 */
module JsonKeys {
  import opened Wrappers
  import opened Text
  import opened Json
  import opened JsonSpot

  function KeyPattern(key: string): string {
    "\"" + key + "\":"
  }

  /** Some member of the tree has a key that shows the word `k` in quotes. */
  predicate HasKey(j: Json, k: string) {
    match j
    case Atom(_) => false
    case Str(_) => false
    case Arr(elems) => exists e | e in elems :: HasKey(e, k)
    case Obj(members) => exists m | m in members :: MemberHasKey(m, k)
  }

  predicate MemberHasKey(m: Member, k: string) {
    Names(m.key, k) || HasKey(m.val, k)
  }

  lemma KeySeamless(a: string, b: string, k: string)
    requires PlainKey(k) && (a == "" || a[|a| - 1] in ",:{}[]")
    ensures Seamless(a, b, KeyPattern(k))
  {
    var front := KeyPattern(k)[..|k| + 2];
    assert front == Quote(k);
    if a != "" {
      PlainQuote(k, a[|a| - 1]);
    }
  }

  lemma ContainsPatternSplit(a: string, b: string, k: string)
    requires PlainKey(k) && (a == "" || a[|a| - 1] in ",:{}[]")
    ensures Contains(a + b, KeyPattern(k)) <==> Contains(a, KeyPattern(k)) || Contains(b, KeyPattern(k))
  {
    KeySeamless(a, b, k);
    ContainsSplit(a, b, KeyPattern(k));
  }

  /** An escaped string never holds `"key":`. */
  lemma StringHasNoKey(raw: string, k: string)
    requires QuotesEscaped(raw) && PlainKey(k)
    ensures !Contains(Quote(raw), KeyPattern(k))
  {
    if Contains(Quote(raw), KeyPattern(k)) {
      var i := Find(Quote(raw), KeyPattern(k), 0).value;
      AtPrefix(Quote(raw), Quote(k), ":", i);
      QuotedAt(raw, k, i);
    }
  }

  lemma KeyTextShows(key: string, k: string, i: int)
    requires QuotesEscaped(key) && PlainKey(k) && At(Quote(key) + ":", KeyPattern(k), i)
    ensures Names(key, k)
  {
    assert |Quote(k)| == |k| + 2 && |KeyPattern(k)| == |k| + 3;
    hide Quote, Names, QuotesEscaped;
    var text := Quote(key) + ":";
    AtPrefix(text, Quote(k), ":", i);
    AtLeft(Quote(key), ":", Quote(k), i);
    QuotedAt(key, k, i);
  }

  /** A member's own key is found exactly when it shows the word. */
  lemma KeyTextContains(key: string, k: string)
    requires QuotesEscaped(key) && PlainKey(k)
    ensures Contains(Quote(key) + ":", KeyPattern(k)) <==> Names(key, k)
  {
    hide Quote, Names, QuotesEscaped, KeyPattern, PlainKey, At;
    var text := Quote(key) + ":";
    if Contains(text, KeyPattern(k)) {
      KeyTextShows(key, k, Find(text, KeyPattern(k), 0).value);
    }
    if Names(key, k) {
      KeyTextFinds(key, k);
    }
  }

  lemma KeyTextFinds(key: string, k: string)
    requires Names(key, k)
    ensures Contains(Quote(key) + ":", KeyPattern(k))
  {
    hide Find;
    NamesAt(key, k);
    var text, i := Quote(key) + ":", |key| - |k|;
    AtLeft(Quote(key), ":", Quote(k), i);
    assert i + |k| + 2 == |key| + 2 == |Quote(key)|;
    assert text[i..i + |k| + 3] == text[i..i + |k| + 2] + ":";
    Found(text, KeyPattern(k), i);
  }

  lemma MemberTextHasKey(key: string, val: string, k: string)
    requires QuotesEscaped(key) && PlainKey(k)
    ensures Contains(MemberText(key, val), KeyPattern(k)) <==> Names(key, k) || Contains(val, KeyPattern(k))
  {
    KeyTextContains(key, k);
    ContainsPatternSplit(Quote(key) + ":", val, k);
  }

  lemma ListHasKey(open: string, texts: seq<string>, close: string, k: string)
    requires PlainKey(k) && open in ["{", "["] && close in ["}", "]"]
    ensures Contains(open + Join(texts) + close, KeyPattern(k)) <==> exists t | t in texts :: Contains(t, KeyPattern(k))
  {
    PatternPlain(k);
    ListContains(open, texts, close, KeyPattern(k));
  }

  lemma PatternPlain(k: string)
    requires PlainKey(k)
    ensures forall c | c in ",{}[]" :: c !in KeyPattern(k)
  {
    forall c | c in ",{}[]" ensures c !in KeyPattern(k) {
      PlainQuote(k, c);
      assert KeyPattern(k) == Quote(k) + ":";
    }
  }

  /** In printed JSON the text `"k":` is found exactly when some member has the key. */
  lemma {:induction false} PrintHasKey(j: Json, k: string)
    requires QuoteSafe(j) && PlainKey(k)
    ensures Contains(Print(j), KeyPattern(k)) <==> HasKey(j, k)
    decreases j, 1
  {
    assert KeyPattern(k) != "" && KeyPattern(k)[0] == '"';
    hide Contains, Names, QuotesEscaped, KeyPattern, Join, MemberTexts, ElemTexts, PlainKey;
    match j
    case Atom(tok) =>
      NotFound(tok, KeyPattern(k));
    case Str(raw) =>
      StringHasNoKey(raw, k);
    case Arr(elems) =>
      ElemsHaveKey(elems, k);
      ListHasKey("[", ElemTexts(elems), "]", k);
    case Obj(members) =>
      MembersHaveKey(members, k);
      ListHasKey("{", MemberTexts(members), "}", k);
  }

  lemma {:induction false} ElemsHaveKey(elems: seq<Json>, k: string)
    requires (forall e | e in elems :: QuoteSafe(e)) && PlainKey(k)
    ensures (exists t | t in ElemTexts(elems) :: Contains(t, KeyPattern(k))) <==> exists e | e in elems :: HasKey(e, k)
    decreases elems, 0
  {
    hide Contains, KeyPattern, PlainKey, Print;
    if elems != [] {
      PrintHasKey(elems[0], k);
      ElemsHaveKey(elems[1..], k);
      assert elems == [elems[0]] + elems[1..];
    }
  }

  lemma {:induction false} MembersHaveKey(members: seq<Member>, k: string)
    requires SafeMembers(members) && PlainKey(k)
    ensures (exists t | t in MemberTexts(members) :: Contains(t, KeyPattern(k)))
       <==> exists m | m in members :: MemberHasKey(m, k)
    decreases members, 0
  {
    hide Contains, KeyPattern, PlainKey, Print, MemberText, Names, QuotesEscaped;
    if members != [] {
      var m := members[0];
      PrintHasKey(m.val, k);
      MemberTextHasKey(m.key, Print(m.val), k);
      MembersHaveKey(members[1..], k);
      assert members == [m] + members[1..];
    }
  }

  /** Some key printed before the spot shows the word. */
  predicate KeyBefore(spot: Spot, k: string) {
    match spot
    case Here(before, _) => exists m | m in before :: MemberHasKey(m, k)
    case InMember(before, key, inner, _) => (exists m | m in before :: MemberHasKey(m, k)) || Names(key, k) || KeyBefore(inner, k)
    case InElem(left, inner, _) => (exists e | e in left :: HasKey(e, k)) || KeyBefore(inner, k)
  }

  lemma LeadHasKey(open: string, texts: seq<string>, k: string)
    requires PlainKey(k) && open in ["{", "["]
    ensures Contains(open + Lead(texts), KeyPattern(k)) <==> exists t | t in texts :: Contains(t, KeyPattern(k))
    ensures (open + Lead(texts))[|open + Lead(texts)| - 1] in ",:{}[]"
  {
    PatternPlain(k);
    JoinContains(texts, KeyPattern(k));
    ContainsPatternSplit(open, Lead(texts), k);
    NotFound(open, KeyPattern(k));
    if texts != [] {
      ContainsSplit(Join(texts), ",", KeyPattern(k));
      NotFound(",", KeyPattern(k));
    }
  }

  lemma {:induction false} BeforeHasKey(spot: Spot, k: string)
    requires SafeAround(spot) && PlainKey(k)
    ensures Contains(Before(spot), KeyPattern(k)) <==> KeyBefore(spot, k)
    ensures Before(spot) != "" && Before(spot)[|Before(spot)| - 1] in ",:{}[]"
  {
    hide Contains, KeyPattern, Names, QuotesEscaped, Lead, ElemTexts, MemberTexts, HasKey, MemberHasKey, PlainKey,
      QuoteSafe, Quote;
    match spot
    case Here(before, _) =>
      MembersHaveKey(before, k);
      LeadHasKey("{", MemberTexts(before), k);
    case InMember(before, key, inner, _) =>
      MembersHaveKey(before, k);
      var lead := "{" + Lead(MemberTexts(before));
      LeadHasKey("{", MemberTexts(before), k);
      BeforeHasKey(inner, k);
      ContainsPatternSplit(lead, MemberText(key, Before(inner)), k);
      MemberTextHasKey(key, Before(inner), k);
      assert Before(spot) == lead + MemberText(key, Before(inner));
    case InElem(left, inner, _) =>
      ElemsHaveKey(left, k);
      var lead := "[" + Lead(ElemTexts(left));
      LeadHasKey("[", ElemTexts(left), k);
      BeforeHasKey(inner, k);
      ContainsPatternSplit(lead, Before(inner), k);
  }

  /** The first `"key":` in the text is the first member with that key. */
  lemma FindFirstKey(spot: Spot, m: Member)
    requires SafeAround(spot) && PlainKey(m.key) && !KeyBefore(spot, m.key)
    ensures Find(Print(Plug(spot, m)), KeyPattern(m.key), 0) == Some(|Before(spot)|)
    ensures Print(Plug(spot, m)) == Before(spot) + (KeyPattern(m.key) + (Print(m.val) + After(spot)))
  {
    hide Find, Before, Print, After;
    PlugPrints(spot, m);
    BeforeHasKey(spot, m.key);
    var front, pat, rest := Before(spot), KeyPattern(m.key), Print(m.val) + After(spot);
    assert Before(spot) + MemberText(m.key, Print(m.val)) + After(spot) == front + (pat + rest);
    KeySeamless(front, pat + rest, m.key);
    FindSplit(front, pat + rest, pat, 0);
    assert Find(front, pat, 0).None?;
    assert (pat + rest)[0..|pat|] == pat;
    FindIs(pat + rest, pat, 0, 0);
  }

  // ----- a key together with the start of its value -----

  /** Some member has a key that shows the word and a value whose text starts with `x`. */
  predicate HasPair(j: Json, k: string, x: string) {
    match j
    case Atom(_) => false
    case Str(_) => false
    case Arr(elems) => exists e | e in elems :: HasPair(e, k, x)
    case Obj(members) => exists m | m in members :: MemberHasPair(m, k, x)
  }

  predicate MemberHasPair(m: Member, k: string, x: string) {
    (Names(m.key, k) && StartsWith(Print(m.val), x)) || HasPair(m.val, k, x)
  }

  predicate PlainPair(k: string, x: string) {
    PlainKey(k) && x != "" && forall c | c in "\",:{}[]" :: c !in x
  }

  lemma PairShape(k: string, x: string)
    requires PlainPair(k, x)
    ensures var pat := KeyPattern(k) + x;
            && |pat| >= 4 && pat[0] == '"' && (forall c | c in ",{}[]" :: c !in pat)
            && (forall i | 0 <= i < |pat| && pat[i] == ':' :: i == |k| + 2)
  {
    PatternPlain(k);
    PlainQuote(k, ':');
    var pat := KeyPattern(k) + x;
    assert KeyPattern(k) == Quote(k) + ":";
    assert ':' in "\",:{}[]" && forall c | c in ",{}[]" :: c in "\",:{}[]";
    assert forall i | 0 <= i < |k| + 2 :: pat[i] == Quote(k)[i] && pat[i] in Quote(k);
    assert forall i | |k| + 3 <= i < |pat| :: pat[i] == x[i - |k| - 3] && pat[i] in x;
  }

  /** A pair that starts in the key's text starts right at the key. */
  lemma PairCrosses(key: string, val: string, k: string, x: string, i: nat)
    requires QuotesEscaped(key) && PlainPair(k, x) && At(MemberText(key, val), KeyPattern(k) + x, i)
    requires i < |key| + 3
    ensures Names(key, k) && StartsWith(val, x)
  {
    PairShape(k, x);
    hide Names, QuotesEscaped, PlainKey, Find;
    var front, pat := Quote(key) + ":", KeyPattern(k) + x;
    var text, n := front + val, |k| + 3;
    AtPrefix(text, KeyPattern(k), x, i);
    if i + |pat| < |front| {
      assert text == Quote(key) + (":" + val);
      AtLeft(Quote(key), ":" + val, KeyPattern(k), i);
      StringHasNoKey(key, k);
      Found(Quote(key), KeyPattern(k), i);
    } else {
      AtChar(text, pat, i, |front| - 1 - i);
      AtLeft(front, val, KeyPattern(k), i);
      KeyTextShows(key, k, i);
      assert text[i..i + |pat|][n..] == val[..|x|];
    }
  }

  lemma MemberTextHasPair(key: string, val: string, k: string, x: string)
    requires QuotesEscaped(key) && PlainPair(k, x)
    ensures Contains(MemberText(key, val), KeyPattern(k) + x) <==>
            (Names(key, k) && StartsWith(val, x)) || Contains(val, KeyPattern(k) + x)
  {
    hide Names, QuotesEscaped, PlainPair, Find, At, StartsWith;
    var front, pat := Quote(key) + ":", KeyPattern(k) + x;
    var text := front + val;
    if Contains(text, pat) {
      var i := Find(text, pat, 0).value;
      if |front| <= i {
        AtRight(front, val, pat, i);
        Found(val, pat, i - |front|);
      } else {
        PairCrosses(key, val, k, x, i);
      }
    }
    if Contains(val, pat) {
      var i := Find(val, pat, 0).value;
      AtRight(front, val, pat, |front| + i);
      Found(text, pat, |front| + i);
    }
    if Names(key, k) && StartsWith(val, x) {
      PairFound(key, val, k, x);
    }
  }

  lemma PairFound(key: string, val: string, k: string, x: string)
    requires Names(key, k) && StartsWith(val, x)
    ensures Contains(MemberText(key, val), KeyPattern(k) + x)
  {
    hide Find;
    NamesAt(key, k);
    var text, i, n := MemberText(key, val), |key| - |k|, |k| + 3;
    assert text == Quote(key) + (":" + val);
    AtLeft(Quote(key), ":" + val, Quote(k), i);
    assert text[i + n..i + n + |x|] == val[..|x|];
    assert text[i..i + n + |x|] == text[i..i + |k| + 2] + ":" + text[i + n..i + n + |x|];
    Found(text, KeyPattern(k) + x, i);
  }

  /** In printed JSON the text `"k":x` is found exactly when some member has the key and such a value. */
  lemma {:induction false} PrintHasPair(j: Json, k: string, x: string)
    requires QuoteSafe(j) && PlainPair(k, x)
    ensures Contains(Print(j), KeyPattern(k) + x) <==> HasPair(j, k, x)
    decreases j, 1
  {
    PairShape(k, x);
    hide Contains, Names, QuotesEscaped, KeyPattern, Join, MemberTexts, ElemTexts, PlainPair, StartsWith;
    var pat := KeyPattern(k) + x;
    match j
    case Atom(tok) =>
      NotFound(tok, pat);
    case Str(raw) =>
      StringHasNoPair(raw, k, x);
    case Arr(elems) =>
      ElemsHavePair(elems, k, x);
      ListContains("[", ElemTexts(elems), "]", pat);
    case Obj(members) =>
      MembersHavePair(members, k, x);
      ListContains("{", MemberTexts(members), "}", pat);
  }

  lemma StringHasNoPair(raw: string, k: string, x: string)
    requires QuotesEscaped(raw) && PlainPair(k, x)
    ensures !Contains(Quote(raw), KeyPattern(k) + x)
  {
    hide Quote, KeyPattern, QuotesEscaped, Find;
    StringHasNoKey(raw, k);
    if Contains(Quote(raw), KeyPattern(k) + x) {
      var i := Find(Quote(raw), KeyPattern(k) + x, 0).value;
      AtPrefix(Quote(raw), KeyPattern(k), x, i);
      Found(Quote(raw), KeyPattern(k), i);
    }
  }

  lemma {:induction false} ElemsHavePair(elems: seq<Json>, k: string, x: string)
    requires (forall e | e in elems :: QuoteSafe(e)) && PlainPair(k, x)
    ensures (exists t | t in ElemTexts(elems) :: Contains(t, KeyPattern(k) + x)) <==> exists e | e in elems :: HasPair(e, k, x)
    decreases elems, 0
  {
    hide Contains, KeyPattern, PlainPair, Print;
    if elems != [] {
      PrintHasPair(elems[0], k, x);
      ElemsHavePair(elems[1..], k, x);
      assert elems == [elems[0]] + elems[1..];
    }
  }

  lemma {:induction false} MembersHavePair(members: seq<Member>, k: string, x: string)
    requires SafeMembers(members) && PlainPair(k, x)
    ensures (exists t | t in MemberTexts(members) :: Contains(t, KeyPattern(k) + x))
       <==> exists m | m in members :: MemberHasPair(m, k, x)
    decreases members, 0
  {
    hide Contains, KeyPattern, PlainPair, Print, MemberText, Names, QuotesEscaped, StartsWith;
    if members != [] {
      var m := members[0];
      PrintHasPair(m.val, k, x);
      MemberTextHasPair(m.key, Print(m.val), k, x);
      MembersHavePair(members[1..], k, x);
      assert members == [m] + members[1..];
    }
  }
}
