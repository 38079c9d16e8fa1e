/**
 Merging configured with persisted printers (`merge_printers` in bambu-farm-server/src/main.rs).
 Strings are Unicode here; `String` order is that of the code points.
 */
module PrinterMerge {
  datatype Printer = Printer(name: string, id: string, ip: string, model: string, password: string)

  /** The fields that a merge fills in. */
  datatype Field = Name | Ip | Model | Password

  function Get(p: Printer, f: Field): string {
    match f
    case Name => p.name
    case Ip => p.ip
    case Model => p.model
    case Password => p.password
  }

  /** Unicode's white space, which `trim` removes. */
  predicate IsSpace(c: char) {
    '\t' <= c <= '\r' || c == ' ' || c == '\U{85}' || c == '\U{A0}' || c == '\U{1680}' ||
    '\U{2000}' <= c <= '\U{200A}' || c == '\U{2028}' || c == '\U{2029}' || c == '\U{202F}' ||
    c == '\U{205F}' || c == '\U{3000}'
  }

  predicate Blank(s: string) {
    forall i | 0 <= i < |s| :: IsSpace(s[i])
  }

  /** `str::trim`. */
  function Trimmed(s: string): string {
    if s == "" then ""
    else if IsSpace(s[0]) then Trimmed(s[1..])
    else if IsSpace(s[|s| - 1]) then Trimmed(s[..|s| - 1])
    else s
  }

  lemma {:induction false} BlankTrims(s: string)
    ensures Blank(s) <==> Trimmed(s) == ""
  {
    hide IsSpace;
    if s != "" && IsSpace(s[0]) {
      BlankTrims(s[1..]);
      assert s == [s[0]] + s[1..];
    } else if s != "" && IsSpace(s[|s| - 1]) {
      BlankTrims(s[..|s| - 1]);
      assert s[..|s| - 1][0] == s[0];
    }
  }

  /** The 25 characters with the property White_Space. */
  lemma WhiteSpace(c: char)
    ensures IsSpace(c) <==>
            c in "\t\n\U{B}\U{C}\r \U{85}\U{A0}\U{1680}\U{2000}\U{2001}\U{2002}\U{2003}\U{2004}\U{2005}\U{2006}\U{2007}" ||
            c in "\U{2008}\U{2009}\U{200A}\U{2028}\U{2029}\U{202F}\U{205F}\U{3000}"
  {
  }

  function Better(existing: string, offered: string): string {
    if Blank(existing) && !Blank(offered) then offered else existing
  }

  /** `and_modify`: blank fields are filled from a later entry. */
  function Fill(existing: Printer, p: Printer): Printer {
    Printer(Better(existing.name, p.name), existing.id, Better(existing.ip, p.ip),
            Better(existing.model, p.model), Better(existing.password, p.password))
  }

  /** A later persisted entry replaces an earlier one. */
  function Inserted(persisted: seq<Printer>): map<string, Printer> {
    if persisted == [] then map[]
    else
      var p := persisted[|persisted| - 1];
      Inserted(persisted[..|persisted| - 1])[p.id := p]
  }

  function Overlay(m: map<string, Printer>, configured: seq<Printer>): map<string, Printer> {
    if configured == [] then m
    else
      var p := configured[|configured| - 1];
      var before := Overlay(m, configured[..|configured| - 1]);
      before[p.id := if p.id in before then Fill(before[p.id], p) else p]
  }

  // ----- the order of the result -----

  predicate Less(a: string, b: string) {
    if a == "" then b != ""
    else if b == "" then false
    else a[0] < b[0] || (a[0] == b[0] && Less(a[1..], b[1..]))
  }

  lemma {:induction false} LessTotal(a: string, b: string)
    ensures !(Less(a, b) && Less(b, a))
    ensures a != b ==> Less(a, b) || Less(b, a)
    ensures !Less(a, a)
  {
    if a != "" {
      LessTotal(a[1..], if b == "" then "" else b[1..]);
      if b != "" && a[0] == b[0] && a[1..] == b[1..] {
        assert a == [a[0]] + a[1..] && b == [b[0]] + b[1..];
      }
    }
  }

  /** Two ids are ordered by the first code points that differ, or by length when one starts with the other. */
  lemma {:induction false} LessAt(a: string, b: string, k: nat)
    requires k <= |a| && k <= |b| && a[..k] == b[..k]
    requires k == |a| || k == |b| || a[k] != b[k]
    ensures Less(a, b) <==> k < |b| && (k == |a| || a[k] < b[k])
  {
    if k > 0 {
      assert a[0] == a[..k][0] && b[0] == b[..k][0];
      assert a[1..][..k - 1] == a[..k][1..] && b[1..][..k - 1] == b[..k][1..];
      LessAt(a[1..], b[1..], k - 1);
    }
  }

  lemma {:induction false} LessChain(a: string, b: string, c: string)
    requires Less(a, b) && Less(b, c)
    ensures Less(a, c)
  {
    if a != "" && a[0] == b[0] == c[0] {
      LessChain(a[1..], b[1..], c[1..]);
    }
  }

  predicate Sorted(l: seq<Printer>) {
    forall i, j | 0 <= i < j < |l| :: Less(l[i].id, l[j].id)
  }

  /** `l` holds exactly the entries of `m`, strictly ordered by id. */
  predicate Lists(m: map<string, Printer>, l: seq<Printer>) {
    && Sorted(l)
    && (forall i | 0 <= i < |l| :: l[i].id in m && m[l[i].id] == l[i])
    && (forall id | id in m :: exists i | 0 <= i < |l| :: l[i].id == id)
  }

  predicate IsMerge(configured: seq<Printer>, persisted: seq<Printer>, l: seq<Printer>) {
    Lists(Overlay(Inserted(persisted), configured), l)
  }

  predicate KeyedById(m: map<string, Printer>) {
    forall id | id in m :: m[id].id == id
  }

  method MergePrinters(configured: seq<Printer>, persisted: seq<Printer>) returns (printers: seq<Printer>)
    ensures IsMerge(configured, persisted, printers)
  {
    var merged: map<string, Printer> := map[];
    for n := 0 to |persisted|
      invariant merged == Inserted(persisted[..n])
      invariant KeyedById(merged)
    {
      assert persisted[..n + 1][..n] == persisted[..n];
      merged := merged[persisted[n].id := persisted[n]];
    }
    assert persisted[..|persisted|] == persisted;
    for n := 0 to |configured|
      invariant merged == Overlay(Inserted(persisted), configured[..n])
      invariant KeyedById(merged)
    {
      assert configured[..n + 1][..n] == configured[..n];
      var printer := configured[n];
      if printer.id in merged {
        var existing := merged[printer.id];
        if Blank(existing.name) && !Blank(printer.name) {
          existing := existing.(name := printer.name);
        }
        if Blank(existing.ip) && !Blank(printer.ip) {
          existing := existing.(ip := printer.ip);
        }
        if Blank(existing.model) && !Blank(printer.model) {
          existing := existing.(model := printer.model);
        }
        if Blank(existing.password) && !Blank(printer.password) {
          existing := existing.(password := printer.password);
        }
        merged := merged[printer.id := existing];
      } else {
        merged := merged[printer.id := printer];
      }
    }
    assert configured[..|configured|] == configured;
    printers := SortedValues(merged);
  }

  /** `into_values`, in any order, then `sort_by` on the ids. */
  method SortedValues(merged: map<string, Printer>) returns (printers: seq<Printer>)
    requires KeyedById(merged)
    ensures Lists(merged, printers)
  {
    printers := [];
    var left := merged.Keys;
    while left != {}
      invariant left <= merged.Keys
      invariant Lists(merged - left, printers)
      decreases |left|
    {
      var id :| id in left;
      ghost var before := merged - left;
      left := left - {id};
      printers := InsertById(before, printers, merged[id]);
      assert before[id := merged[id]] == merged - left;
    }
    assert merged - {} == merged;
  }

  method InsertById(ghost m: map<string, Printer>, l: seq<Printer>, p: Printer) returns (r: seq<Printer>)
    requires Lists(m, l) && p.id !in m
    ensures Lists(m[p.id := p], r)
  {
    var k := 0;
    while k < |l| && Less(l[k].id, p.id)
      invariant 0 <= k <= |l|
      invariant forall j | 0 <= j < k :: Less(l[j].id, p.id)
    {
      k := k + 1;
    }
    if k < |l| {
      LessTotal(l[k].id, p.id);
      assert l[k].id in m;
    }
    PlaceSorts(l, p, k);
    PlaceLists(m, l, p, k);
    r := Place(l, p, k);
  }

  function Place(l: seq<Printer>, p: Printer, k: nat): (r: seq<Printer>)
    requires k <= |l|
  {
    l[..k] + [p] + l[k..]
  }

  lemma PlacedAt(l: seq<Printer>, p: Printer, k: nat, i: nat)
    requires k <= |l| && i <= |l|
    ensures |Place(l, p, k)| == |l| + 1
    ensures Place(l, p, k)[i] == if i < k then l[i] else if i == k then p else l[i - 1]
  {
  }

  lemma PlaceSorts(l: seq<Printer>, p: Printer, k: nat)
    requires Sorted(l) && k <= |l|
    requires forall j | 0 <= j < k :: Less(l[j].id, p.id)
    requires k < |l| ==> Less(p.id, l[k].id)
    ensures Sorted(Place(l, p, k))
  {
    hide Less;
    forall j | k <= j < |l| ensures Less(p.id, l[j].id) {
      if k < j {
        LessChain(p.id, l[k].id, l[j].id);
      }
    }
    var r := Place(l, p, k);
    PlacedAt(l, p, k, 0);
    hide Place;
    forall i, j | 0 <= i < j < |r| ensures Less(r[i].id, r[j].id) {
      PlacedAt(l, p, k, i);
      PlacedAt(l, p, k, j);
    }
  }

  lemma PlaceLists(m: map<string, Printer>, l: seq<Printer>, p: Printer, k: nat)
    requires Lists(m, l) && k <= |l| && p.id !in m && Sorted(Place(l, p, k))
    ensures Lists(m[p.id := p], Place(l, p, k))
  {
    var r, more := Place(l, p, k), m[p.id := p];
    PlacedAt(l, p, k, k);
    hide Place, Less, Sorted;
    forall i | 0 <= i < |r| ensures r[i].id in more && more[r[i].id] == r[i] {
      PlacedAt(l, p, k, i);
    }
    forall id | id in more ensures exists i | 0 <= i < |r| :: r[i].id == id {
      if id != p.id {
        var i :| 0 <= i < |l| && l[i].id == id;
        PlacedAt(l, p, k, if i < k then i else i + 1);
        assert r[if i < k then i else i + 1] == l[i];
      } else {
        assert r[k].id == id;
      }
    }
  }

  // ----- what a merge is, without looking at how it is made -----

  /** The entries of one id, in order. */
  function EntriesOf(printers: seq<Printer>, id: string): seq<Printer> {
    if printers == [] then []
    else
      var p := printers[|printers| - 1];
      EntriesOf(printers[..|printers| - 1], id) + if p.id == id then [p] else []
  }

  /** The entries that can supply fields: the last persisted one, then the configured ones. */
  function Sources(configured: seq<Printer>, persisted: seq<Printer>, id: string): seq<Printer> {
    var known := EntriesOf(persisted, id);
    (if known == [] then [] else [known[|known| - 1]]) + EntriesOf(configured, id)
  }

  /** The first entry's value of a field, or the first that is not blank. */
  function FirstFilled(entries: seq<Printer>, f: Field): string
    requires entries != []
  {
    if |entries| == 1 then Get(entries[0], f)
    else Better(FirstFilled(entries[..|entries| - 1], f), Get(entries[|entries| - 1], f))
  }

  /** `FirstFilled` really is the first non-blank value, or the first when all are blank. */
  lemma {:induction false} FirstFilledIs(entries: seq<Printer>, f: Field)
    requires entries != []
    ensures var v := FirstFilled(entries, f);
            if forall i | 0 <= i < |entries| :: Blank(Get(entries[i], f)) then v == Get(entries[0], f)
            else exists k | 0 <= k < |entries| ::
              v == Get(entries[k], f) && !Blank(v) && forall i | 0 <= i < k :: Blank(Get(entries[i], f))
  {
    hide Blank, Get;
    if |entries| > 1 {
      var front := entries[..|entries| - 1];
      FirstFilledIs(front, f);
      assert forall i | 0 <= i < |front| :: entries[i] == front[i];
      if forall i | 0 <= i < |front| :: Blank(Get(front[i], f)) {
        assert entries[|entries| - 1] == entries[|front|];
      } else {
        var k :| 0 <= k < |front| && FirstFilled(front, f) == Get(front[k], f) && !Blank(FirstFilled(front, f))
                 && forall i | 0 <= i < k :: Blank(Get(front[i], f));
        assert FirstFilled(entries, f) == Get(entries[k], f);
      }
    }
  }

  lemma {:induction false} InsertedKeeps(persisted: seq<Printer>, id: string)
    ensures var known := EntriesOf(persisted, id);
            (id in Inserted(persisted) <==> known != []) &&
            (known != [] ==> Inserted(persisted)[id] == known[|known| - 1] && known[|known| - 1].id == id)
  {
    if persisted != [] {
      InsertedKeeps(persisted[..|persisted| - 1], id);
    }
  }

  lemma FillGets(existing: Printer, p: Printer, f: Field)
    ensures Get(Fill(existing, p), f) == Better(Get(existing, f), Get(p, f))
    ensures Fill(existing, p).id == existing.id
  {
  }

  /** What one configured entry does to the entry of an id. */
  lemma OverlayStep(m: map<string, Printer>, configured: seq<Printer>, id: string)
    requires configured != []
    ensures var p := configured[|configured| - 1];
            var before, after := Overlay(m, configured[..|configured| - 1]), Overlay(m, configured);
            && (id in after <==> id in before || p.id == id)
            && (id in before && p.id == id ==> after[id] == Fill(before[id], p))
            && (id !in before && p.id == id ==> after[id] == p)
            && (id in before && p.id != id ==> after[id] == before[id])
  {
  }

  lemma SourcesStep(configured: seq<Printer>, persisted: seq<Printer>, id: string)
    requires configured != []
    ensures var p := configured[|configured| - 1];
            Sources(configured, persisted, id) ==
            Sources(configured[..|configured| - 1], persisted, id) + if p.id == id then [p] else []
  {
  }

  lemma FilledStep(entries: seq<Printer>, p: Printer, f: Field)
    ensures FirstFilled(entries + [p], f) == if entries == [] then Get(p, f) else Better(FirstFilled(entries, f), Get(p, f))
  {
    assert (entries + [p])[..|entries|] == entries;
  }

  lemma {:induction false} OverlayKeeps(configured: seq<Printer>, persisted: seq<Printer>, id: string, f: Field)
    ensures var m := Overlay(Inserted(persisted), configured);
            var sources := Sources(configured, persisted, id);
            && (id in m <==> sources != [])
            && (id in m ==> m[id].id == id && Get(m[id], f) == FirstFilled(sources, f))
  {
    if configured == [] {
      InsertedKeeps(persisted, id);
    } else {
      hide Overlay, Fill, Get, Better, Inserted, Sources, FirstFilled;
      var front, p := configured[..|configured| - 1], configured[|configured| - 1];
      OverlayKeeps(front, persisted, id, f);
      OverlayStep(Inserted(persisted), configured, id);
      SourcesStep(configured, persisted, id);
      var sources, before := Sources(front, persisted, id), Overlay(Inserted(persisted), front);
      assert sources + [] == sources;
      FilledStep(sources, p, f);
      if id in before {
        FillGets(before[id], p, f);
      }
    }
  }

  /**
   The ids of a merge are those of both inputs, and each field is the first non-blank one among the
   last persisted entry and then the configured ones in order.
   */
  lemma MergeFields(configured: seq<Printer>, persisted: seq<Printer>, l: seq<Printer>, id: string, f: Field)
    requires IsMerge(configured, persisted, l)
    ensures (exists i | 0 <= i < |l| :: l[i].id == id) <==> EntriesOf(persisted, id) + EntriesOf(configured, id) != []
    ensures forall i | 0 <= i < |l| && l[i].id == id ::
              var sources := Sources(configured, persisted, id);
              sources != [] && Get(l[i], f) == FirstFilled(sources, f)
  {
    hide Overlay, Inserted, Get, Less, FirstFilled;
    OverlayKeeps(configured, persisted, id, f);
  }

  // ----- merging in two steps -----

  lemma {:induction false} OverlayJoined(m: map<string, Printer>, a: seq<Printer>, b: seq<Printer>)
    ensures Overlay(m, a + b) == Overlay(Overlay(m, a), b)
  {
    if b == [] {
      assert a + b == a;
    } else {
      assert (a + b)[..|a + b| - 1] == a + b[..|b| - 1];
      OverlayJoined(m, a, b[..|b| - 1]);
    }
  }

  lemma SortedIds(l: seq<Printer>, i: nat, j: nat)
    requires Sorted(l) && i < |l| && j < |l|
    ensures Less(l[i].id, l[j].id) <==> i < j
    ensures l[i].id == l[j].id ==> i == j
  {
    hide Less;
    LessTotal(l[i].id, l[j].id);
  }

  /** The entry that comes next in one list is not further on in the other. */
  lemma NotLater(m: map<string, Printer>, a: seq<Printer>, b: seq<Printer>, n: nat, i: nat)
    requires Lists(m, a) && Lists(m, b) && n < |a| && n <= i < |b| && a[n] == b[i] && a[..n] == b[..n]
    ensures i == n
  {
    hide Sorted, Less;
    assert b[n].id in m;
    var j :| 0 <= j < |a| && a[j].id == b[n].id;
    SortedIds(b, n, i);
    SortedIds(a, j, n);
    if j < n {
      assert b[j] == b[..n][j] == a[..n][j] == a[j];
      SortedIds(b, j, n);
    }
  }

  /** A sorted list is determined by the map it lists. */
  lemma {:induction false} ListsOnce(m: map<string, Printer>, a: seq<Printer>, b: seq<Printer>, n: nat)
    requires Lists(m, a) && Lists(m, b) && n <= |a|
    ensures n <= |b| && a[..n] == b[..n]
  {
    hide Less, Sorted;
    if n > 0 {
      ListsOnce(m, a, b, n - 1);
      assert a[n - 1].id in m;
      var i :| 0 <= i < |b| && b[i].id == a[n - 1].id;
      if i < n - 1 {
        assert a[i] == a[..n - 1][i] == b[..n - 1][i] == b[i];
        SortedIds(a, i, n - 1);
      } else {
        NotLater(m, a, b, n - 1, i);
        assert a[..n] == a[..n - 1] + [a[n - 1]];
        assert b[..n] == b[..n - 1] + [b[n - 1]];
      }
    }
  }

  lemma {:induction false} InsertedList(m: map<string, Printer>, l: seq<Printer>, n: nat)
    requires Lists(m, l) && n <= |l|
    ensures forall id :: id in Inserted(l[..n]) <==> exists i | 0 <= i < n :: l[i].id == id
    ensures forall id | id in Inserted(l[..n]) :: id in m && Inserted(l[..n])[id] == m[id]
  {
    hide Sorted;
    if n > 0 {
      assert l[..n][..n - 1] == l[..n - 1] && l[..n][n - 1] == l[n - 1];
      assert Inserted(l[..n]) == Inserted(l[..n - 1])[l[n - 1].id := l[n - 1]];
      hide Inserted;
      InsertedList(m, l, n - 1);
    }
  }

  /** Merging onto the result of an earlier merge is merging both configurations at once. */
  lemma MergeInSteps(c1: seq<Printer>, c2: seq<Printer>, persisted: seq<Printer>,
                     first: seq<Printer>, second: seq<Printer>, once: seq<Printer>)
    requires IsMerge(c1, persisted, first) && IsMerge(c2, first, second) && IsMerge(c1 + c2, persisted, once)
    ensures second == once
  {
    hide Less, Overlay, Inserted, Sorted;
    var m := Overlay(Inserted(persisted), c1);
    InsertedList(m, first, |first|);
    assert first[..|first|] == first;
    assert Inserted(first) == m;
    OverlayJoined(Inserted(persisted), c1, c2);
    ListsOnce(Overlay(m, c2), second, once, |second|);
    ListsOnce(Overlay(m, c2), once, second, |once|);
    assert second[..|second|] == second && once[..|once|] == once;
  }
}
