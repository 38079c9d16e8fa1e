/** The tokens in front of and behind a place in a tree, and the text that has them. */
module SpotTokens {
  import opened Json
  import opened JsonSpot
  import opened JsonReader
  import opened JsonTokens
  import opened JsonEdit
  import opened JsonWords
  import opened StatusTree

  /** Elements with the comma after each. */
  function RunElems(elems: seq<Json>): seq<Token> {
    if elems == [] then [] else TreeTokens(elems[0]) + ([Punct(',')] + RunElems(elems[1..]))
  }

  function BeforeTokens(spot: Spot): seq<Token> {
    match spot
    case Here(before, _) => [Punct('{')] + RunTokens(before)
    case InMember(before, key, inner, _) =>
      [Punct('{')] + (RunTokens(before) + ([Quoted(key), Punct(':')] + BeforeTokens(inner)))
    case InElem(left, inner, _) => [Punct('[')] + (RunElems(left) + BeforeTokens(inner))
  }

  function AfterTokens(spot: Spot): seq<Token> {
    match spot
    case Here(_, after) => RestTokens(after, true)
    case InMember(_, _, inner, after) => AfterTokens(inner) + RestTokens(after, true)
    case InElem(_, inner, right) => AfterTokens(inner) + RestElems(right)
  }

  lemma MembersAround(before: seq<Member>, m: Member, after: seq<Member>)
    ensures TreeTokens(Obj(before + [m] + after)) ==
            [Punct('{')] + (RunTokens(before) + (ItemTokens(m, true) + RestTokens(after, true)))
  {
    hide ItemTokens, RunTokens;
    assert before + [m] + after == before + ([m] + after);
    RunThenItems(before, [m] + after);
    assert ([m] + after)[1..] == after;
  }

  function ElemsTokens(elems: seq<Json>): seq<Token> {
    if elems == [] then [Punct(']')] else TreeTokens(elems[0]) + RestElems(elems[1..])
  }

  lemma {:induction false} RunThenElems(left: seq<Json>, right: seq<Json>)
    requires right != []
    ensures ElemsTokens(left + right) == RunElems(left) + ElemsTokens(right)
  {
    hide TreeTokens;
    if left == [] {
      assert [] + right == right;
      assert [] + ElemsTokens(right) == ElemsTokens(right);
    } else {
      var all := left + right;
      assert all[0] == left[0] && all[1..] == left[1..] + right && all[1..] != [];
      RunThenElems(left[1..], right);
      var first, run := TreeTokens(left[0]), RunElems(left[1..]);
      assert RestElems(all[1..]) == [Punct(',')] + ElemsTokens(all[1..]);
      hide ElemsTokens, RestElems;
      Associated(first, [Punct(',')] + run, ElemsTokens(right));
      Associated([Punct(',')], run, ElemsTokens(right));
    }
  }

  lemma ElemsAround(left: seq<Json>, e: Json, right: seq<Json>)
    ensures TreeTokens(Arr(left + [e] + right)) == [Punct('[')] + (RunElems(left) + (TreeTokens(e) + RestElems(right)))
  {
    var all := left + [e] + right;
    assert all == left + ([e] + right);
    RunThenElems(left, [e] + right);
    assert ([e] + right)[1..] == right;
    assert TreeTokens(Arr(all)) == [Punct('[')] + ElemsTokens(all);
  }

  /** The tokens of the whole tree are those before the place, those of the member, and those after. */
  lemma {:induction false} PlugTokens(spot: Spot, m: Member)
    ensures TreeTokens(Plug(spot, m)) == BeforeTokens(spot) + (ItemTokens(m, true) + AfterTokens(spot))
  {
    hide TreeTokens, RunTokens, RunElems, RestTokens, RestElems, ItemTokens;
    var item := ItemTokens(m, true);
    match spot
    case Here(before, after) =>
      MembersAround(before, m, after);
      Associated([Punct('{')], RunTokens(before), item + RestTokens(after, true));
    case InMember(before, key, inner, after) =>
      var n := Member(key, Plug(inner, m));
      PlugTokens(inner, m);
      MembersAround(before, n, after);
      KeyedItem(n);
      FiveParts([Punct('{')], RunTokens(before), [Quoted(key), Punct(':')], BeforeTokens(inner), item + AfterTokens(inner),
                RestTokens(after, true));
      Associated(item, AfterTokens(inner), RestTokens(after, true));
    case InElem(left, inner, right) =>
      PlugTokens(inner, m);
      ElemsAround(left, Plug(inner, m), right);
      FiveParts([Punct('[')], RunElems(left), [], BeforeTokens(inner), item + AfterTokens(inner), RestElems(right));
      Associated(item, AfterTokens(inner), RestElems(right));
      NothingBefore(BeforeTokens(inner), item + AfterTokens(inner));
  }

  lemma KeyedItem(m: Member)
    ensures ItemTokens(m, true) == [Quoted(m.key), Punct(':')] + TreeTokens(m.val)
  {
  }

  lemma NothingBefore(a: seq<Token>, b: seq<Token>)
    ensures [] + a == a && [] + (a + b) == a + b
  {
  }

  lemma FiveParts(a: seq<Token>, b: seq<Token>, c: seq<Token>, d: seq<Token>, e: seq<Token>, f: seq<Token>)
    ensures a + (b + ((c + (d + e)) + f)) == (a + (b + (c + d))) + (e + f)
  {
  }

  // ----- which words they show -----

  lemma {:induction false} RunShows(ms: seq<Member>, k: string)
    ensures SomeShows(RunTokens(ms), k) <==> SomeMention(ms, k)
  {
    if ms == [] {
      NothingShown(k);
    } else {
      hide ItemTokens, SomeShows, MemberMentions;
      ShowsJoin(ItemTokens(ms[0], true), [Punct(',')] + RunTokens(ms[1..]), k);
      ShowsJoin([Punct(',')], RunTokens(ms[1..]), k);
      ShowsOne(Punct(','), k);
      MemberShows(ms[0], k);
      RunShows(ms[1..], k);
      assert forall m :: m in ms <==> m == ms[0] || m in ms[1..];
    }
  }

  lemma MemberShows(m: Member, k: string)
    ensures SomeShows(ItemTokens(m, true), k) <==> MemberMentions(m, k)
  {
    hide SomeShows, Names, Mentions, ItemTokens;
    ItemShows([m], true, k);
  }

  lemma {:induction false} RestShows(ms: seq<Member>, k: string)
    ensures SomeShows(RestTokens(ms, true), k) <==> SomeMention(ms, k)
  {
    if ms == [] {
      ShowsOne(Punct(Closer(true)), k);
    } else {
      hide ItemTokens, SomeShows, MemberMentions;
      ShowsJoin([Punct(',')], ItemTokens(ms[0], true) + RestTokens(ms[1..], true), k);
      ShowsJoin(ItemTokens(ms[0], true), RestTokens(ms[1..], true), k);
      ShowsOne(Punct(','), k);
      MemberShows(ms[0], k);
      RestShows(ms[1..], k);
      assert forall m :: m in ms <==> m == ms[0] || m in ms[1..];
    }
  }

  lemma {:induction false} RunElemsShow(elems: seq<Json>, k: string)
    ensures SomeShows(RunElems(elems), k) <==> exists e | e in elems :: Mentions(e, k)
  {
    if elems == [] {
      NothingShown(k);
    } else {
      hide TreeTokens, SomeShows, Mentions;
      ShowsJoin(TreeTokens(elems[0]), [Punct(',')] + RunElems(elems[1..]), k);
      ShowsJoin([Punct(',')], RunElems(elems[1..]), k);
      ShowsOne(Punct(','), k);
      TreeShows(elems[0], k);
      RunElemsShow(elems[1..], k);
      assert forall e :: e in elems <==> e == elems[0] || e in elems[1..];
    }
  }

  lemma {:induction false} RestElemsShow(elems: seq<Json>, k: string)
    ensures SomeShows(RestElems(elems), k) <==> exists e | e in elems :: Mentions(e, k)
  {
    if elems == [] {
      ShowsOne(Punct(']'), k);
    } else {
      hide TreeTokens, SomeShows, Mentions;
      ShowsJoin([Punct(',')], TreeTokens(elems[0]) + RestElems(elems[1..]), k);
      ShowsJoin(TreeTokens(elems[0]), RestElems(elems[1..]), k);
      ShowsOne(Punct(','), k);
      TreeShows(elems[0], k);
      RestElemsShow(elems[1..], k);
      assert forall e :: e in elems <==> e == elems[0] || e in elems[1..];
    }
  }

  lemma {:induction false} BeforeShows(spot: Spot, k: string)
    ensures SomeShows(BeforeTokens(spot), k) <==> MentionedBefore(spot, k)
  {
    hide SomeShows, SomeMention, RunTokens, RunElems, Names, Mentions;
    match spot
    case Here(before, _) =>
      ShowsJoin([Punct('{')], RunTokens(before), k);
      ShowsOne(Punct('{'), k);
      RunShows(before, k);
    case InMember(before, key, inner, _) =>
      var tail := [Quoted(key), Punct(':')] + BeforeTokens(inner);
      ShowsJoin([Punct('{')], RunTokens(before) + tail, k);
      ShowsJoin(RunTokens(before), tail, k);
      ShowsJoin([Quoted(key), Punct(':')], BeforeTokens(inner), k);
      ShowsOne(Punct('{'), k);
      RunShows(before, k);
      KeyShows(key, k);
      BeforeShows(inner, k);
    case InElem(left, inner, _) =>
      ShowsJoin([Punct('[')], RunElems(left) + BeforeTokens(inner), k);
      ShowsJoin(RunElems(left), BeforeTokens(inner), k);
      ShowsOne(Punct('['), k);
      RunElemsShow(left, k);
      BeforeShows(inner, k);
  }

  lemma KeyShows(key: string, k: string)
    ensures SomeShows([Quoted(key), Punct(':')], k) <==> Names(key, k)
  {
    hide SomeShows;
    ShowsJoin([Quoted(key)], [Punct(':')], k);
    assert [Quoted(key), Punct(':')] == [Quoted(key)] + [Punct(':')];
    ShowsOne(Quoted(key), k);
    ShowsOne(Punct(':'), k);
  }

  lemma {:induction false} AfterShows(spot: Spot, k: string)
    ensures SomeShows(AfterTokens(spot), k) <==> MentionedAfter(spot, k)
  {
    hide SomeShows, SomeMention, RestTokens, RestElems, Mentions;
    match spot
    case Here(_, after) =>
      RestShows(after, k);
    case InMember(_, _, inner, after) =>
      ShowsJoin(AfterTokens(inner), RestTokens(after, true), k);
      AfterShows(inner, k);
      RestShows(after, k);
    case InElem(_, inner, right) =>
      ShowsJoin(AfterTokens(inner), RestElems(right), k);
      AfterShows(inner, k);
      RestElemsShow(right, k);
  }

  // ----- a legal value around the spot -----

  predicate SpotLegal(spot: Spot) {
    match spot
    case Here(before, after) => LegalMembers(before) && LegalMembers(after)
    case InMember(before, key, inner, after) => LegalMembers(before) && ValidBody(key) && SpotLegal(inner) && LegalMembers(after)
    case InElem(left, inner, right) => (forall e | e in left + right :: WellFormed(e)) && SpotLegal(inner)
  }

  lemma LegalAround(before: seq<Member>, m: Member, after: seq<Member>)
    ensures WellFormed(Obj(before + [m] + after)) <==>
            LegalMembers(before) && ValidBody(m.key) && WellFormed(m.val) && LegalMembers(after)
  {
    hide ValidBody;
    var all := before + [m] + after;
    assert all[|before|] == m;
    assert (forall x | x in before :: x in all) && (forall x | x in after :: x in all);
  }

  lemma LegalElems(left: seq<Json>, e: Json, right: seq<Json>)
    ensures WellFormed(Arr(left + [e] + right)) <==> (forall x | x in left + right :: WellFormed(x)) && WellFormed(e)
  {
    var all := left + [e] + right;
    assert all[|left|] == e;
    assert forall x :: x in all <==> x in left + right || x == e;
    assert WellFormed(Arr(all)) <==> forall x | x in all :: WellFormed(x);
    hide WellFormed;
  }

  /** The whole value is legal exactly when what is around the spot and what is put there are. */
  lemma {:induction false} PlugLegal(spot: Spot, m: Member)
    ensures WellFormed(Plug(spot, m)) <==> SpotLegal(spot) && ValidBody(m.key) && WellFormed(m.val)
  {
    hide WellFormed, ValidBody, LegalMembers;
    match spot
    case Here(before, after) =>
      LegalAround(before, m, after);
    case InMember(before, key, inner, after) =>
      PlugLegal(inner, m);
      LegalAround(before, Member(key, Plug(inner, m)), after);
    case InElem(left, inner, right) =>
      PlugLegal(inner, m);
      LegalElems(left, Plug(inner, m), right);
  }
}
