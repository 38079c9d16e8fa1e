/** Places inside a JSON value: the text in front of one member, the member, the text after it. */
module JsonSpot {
  import opened Json

  /** A path through a JSON value to one member of an object inside it. */
  datatype Spot =
    | Here(before: seq<Member>, after: seq<Member>)
    | InMember(before: seq<Member>, key: string, spot: Spot, after: seq<Member>)
    | InElem(left: seq<Json>, spot: Spot, right: seq<Json>)

  /** The whole value with `m` at the spot. */
  function Plug(spot: Spot, m: Member): Json {
    match spot
    case Here(before, after) => Obj(before + [m] + after)
    case InMember(before, key, inner, after) => Obj(before + [Member(key, Plug(inner, m))] + after)
    case InElem(left, inner, right) => Arr(left + [Plug(inner, m)] + right)
  }

  function Before(spot: Spot): string {
    match spot
    case Here(before, _) => "{" + Lead(MemberTexts(before))
    case InMember(before, key, inner, _) => "{" + Lead(MemberTexts(before)) + Quote(key) + ":" + Before(inner)
    case InElem(left, inner, _) => "[" + Lead(ElemTexts(left)) + Before(inner)
  }

  function After(spot: Spot): string {
    match spot
    case Here(_, after) => Rest(MemberTexts(after)) + "}"
    case InMember(_, _, inner, after) => After(inner) + Rest(MemberTexts(after)) + "}"
    case InElem(_, inner, right) => After(inner) + Rest(ElemTexts(right)) + "]"
  }

  /** The value's text is the text before the spot, the member, and the text after it. */
  lemma {:induction false} PlugPrints(spot: Spot, m: Member)
    ensures Print(Plug(spot, m)) == Before(spot) + MemberText(m.key, Print(m.val)) + After(spot)
  {
    hide Lead, Rest, Join, ElemTexts, MemberTexts, Print, MemberText;
    var text := MemberText(m.key, Print(m.val));
    match spot
    case Here(before, after) =>
      MembersAround(before, m, after);
      HereShape(Lead(MemberTexts(before)), text, Rest(MemberTexts(after)));
    case InMember(before, key, inner, after) =>
      MembersAround(before, Member(key, Plug(inner, m)), after);
      PlugPrints(inner, m);
      MemberShape(Lead(MemberTexts(before)), key, Before(inner), text, After(inner), Rest(MemberTexts(after)));
    case InElem(left, inner, right) =>
      ElemsAround(left, Plug(inner, m), right);
      PlugPrints(inner, m);
      ElemShape(Lead(ElemTexts(left)), Before(inner), text, After(inner), Rest(ElemTexts(right)));
  }

  lemma HereShape(lead: string, text: string, rest: string)
    ensures "{" + (lead + text + rest) + "}" == ("{" + lead) + text + (rest + "}")
  {
  }

  lemma MemberShape(lead: string, key: string, before: string, text: string, after: string, rest: string)
    ensures "{" + (lead + MemberText(key, before + text + after) + rest) + "}" ==
            ("{" + lead + Quote(key) + ":" + before) + text + (after + rest + "}")
  {
  }

  lemma ElemShape(lead: string, before: string, text: string, after: string, rest: string)
    ensures "[" + (lead + (before + text + after) + rest) + "]" == ("[" + lead + before) + text + (after + rest + "]")
  {
  }

  lemma ElemsAround(left: seq<Json>, e: Json, right: seq<Json>)
    ensures Print(Arr(left + [e] + right)) == "[" + (Lead(ElemTexts(left)) + Print(e) + Rest(ElemTexts(right))) + "]"
  {
    ElemTextsConcat(left, [e]);
    ElemTextsConcat(left + [e], right);
    assert [e][1..] == [];
    assert ElemTexts([e]) == [Print(e)];
    JoinAround(ElemTexts(left), Print(e), ElemTexts(right));
  }

  lemma MembersAround(before: seq<Member>, m: Member, after: seq<Member>)
    ensures Print(Obj(before + [m] + after)) ==
            "{" + (Lead(MemberTexts(before)) + MemberText(m.key, Print(m.val)) + Rest(MemberTexts(after))) + "}"
  {
    OneMemberText(m);
    MemberTextsConcat(before, [m]);
    MemberTextsConcat(before + [m], after);
    JoinAround(MemberTexts(before), MemberText(m.key, Print(m.val)), MemberTexts(after));
  }

  predicate SafeMembers(members: seq<Member>) {
    forall m | m in members :: QuotesEscaped(m.key) && QuoteSafe(m.val)
  }

  /** Everything around the spot keeps its quotes escaped, as JSON does. */
  predicate SafeAround(spot: Spot) {
    match spot
    case Here(before, after) => SafeMembers(before) && SafeMembers(after)
    case InMember(before, key, inner, after) =>
      SafeMembers(before) && QuotesEscaped(key) && SafeAround(inner) && SafeMembers(after)
    case InElem(left, inner, right) =>
      (forall e | e in left + right :: QuoteSafe(e)) && SafeAround(inner)
  }
}
