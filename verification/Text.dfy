/**
 The string operations that the text edits are built from.  A C++ `std::string` is a
 `string` here, one `char` per byte; `std::string::find` is `Find`, with `None` for `npos`.
 */
module Text {
  import opened Wrappers

  /** `isspace` in the C locale. */
  predicate IsSpace(c: char) {
    c == ' ' || 9 <= c as int <= 13
  }

  /** `pat` stands in `s` at index `i`. */
  predicate At(s: string, pat: string, i: int) {
    0 <= i <= |s| - |pat| && s[i..i + |pat|] == pat
  }

  function Find(s: string, pat: string, from: nat): (r: Option<nat>)
    ensures r.Some? ==> from <= r.value && At(s, pat, r.value)
    decreases |s| - from
  {
    if from + |pat| > |s| then None
    else if s[from..from + |pat|] == pat then Some(from)
    else if from < |s| then Find(s, pat, from + 1)
    else None
  }

  predicate Contains(s: string, pat: string) {
    Find(s, pat, 0).Some?
  }

  predicate StartsWith(s: string, pat: string) {
    |pat| <= |s| && s[..|pat|] == pat
  }

  predicate EndsWith(s: string, pat: string) {
    |pat| <= |s| && s[|s| - |pat|..] == pat
  }

  /** No occurrence of `pat` can cross from `a` into `b`. */
  predicate Seamless(a: string, b: string, pat: string)
    requires pat != ""
  {
    a == "" || b == "" || a[|a| - 1] !in pat[..|pat| - 1] || b[0] !in pat[1..]
  }

  lemma AtChar(s: string, pat: string, i: nat, j: nat)
    requires At(s, pat, i) && j < |pat|
    ensures s[i + j] == pat[j]
  {
    assert s[i..i + |pat|][j] == s[i + j];
  }

  /** Where the longer pattern stands, its beginning stands. */
  lemma AtPrefix(s: string, pat: string, x: string, i: int)
    requires At(s, pat + x, i)
    ensures At(s, pat, i)
  {
    assert s[i..i + |pat|] == s[i..i + |pat + x|][..|pat|];
  }

  lemma Associates(a: string, b: string, c: string)
    ensures (a + b) + c == a + (b + c)
  {
  }

  lemma AtLeft(a: string, b: string, pat: string, i: int)
    requires i + |pat| <= |a|
    ensures At(a + b, pat, i) <==> At(a, pat, i)
  {
    if 0 <= i {
      assert (a + b)[i..i + |pat|] == a[i..i + |pat|];
    }
  }

  lemma AtRight(a: string, b: string, pat: string, i: int)
    requires |a| <= i
    ensures At(a + b, pat, i) <==> At(b, pat, i - |a|)
  {
    if i + |pat| <= |a + b| {
      assert (a + b)[i..i + |pat|] == b[i - |a|..i - |a| + |pat|];
    }
  }

  /** An occurrence that crosses the seam uses the last character of `a` and the first of `b`. */
  lemma AtSeam(a: string, b: string, pat: string, i: int)
    requires At(a + b, pat, i) && i < |a| < i + |pat|
    ensures b != "" && a[|a| - 1] in pat[..|pat| - 1] && b[0] in pat[1..]
  {
    var k := |a| - i;
    assert (a + b)[i..i + |pat|][k - 1] == a[|a| - 1];
    assert (a + b)[i..i + |pat|][k] == b[0];
    assert pat[..|pat| - 1][k - 1] == a[|a| - 1];
    assert pat[1..][k - 1] == b[0];
  }

  lemma AtSplit(a: string, b: string, pat: string, i: int)
    requires pat != "" && Seamless(a, b, pat)
    ensures At(a + b, pat, i) <==> At(a, pat, i) || (|a| <= i && At(b, pat, i - |a|))
  {
    if i + |pat| <= |a| {
      AtLeft(a, b, pat, i);
    } else if |a| <= i {
      AtRight(a, b, pat, i);
    } else if At(a + b, pat, i) {
      AtSeam(a, b, pat, i);
    }
  }

  /** The search result is the least position from `from` on that matches. */
  lemma {:induction false} FindLeast(s: string, pat: string, from: nat)
    ensures match Find(s, pat, from)
            case Some(i) => forall j | from <= j < i :: !At(s, pat, j)
            case None => forall j | from <= j :: !At(s, pat, j)
    decreases |s| - from
  {
    if from < |s| && !At(s, pat, from) {
      FindLeast(s, pat, from + 1);
    }
  }

  lemma FindIs(s: string, pat: string, from: nat, i: nat)
    requires from <= i && At(s, pat, i)
    requires forall j | from <= j < i :: !At(s, pat, j)
    ensures Find(s, pat, from) == Some(i)
  {
    FindLeast(s, pat, from);
  }

  lemma FindNothing(s: string, pat: string, from: nat)
    requires forall j | from <= j <= |s| :: !At(s, pat, j)
    ensures Find(s, pat, from) == None
  {
  }

  lemma Found(s: string, pat: string, i: int)
    requires At(s, pat, i)
    ensures Contains(s, pat)
  {
    FindLeast(s, pat, 0);
  }

  /** What starts with a character that the text lacks is not found. */
  lemma NotFound(text: string, pat: string)
    requires pat != "" && pat[0] !in text
    ensures !Contains(text, pat) && Find(text, pat, 0) == None
  {
    if Find(text, pat, 0).Some? {
      AtChar(text, pat, Find(text, pat, 0).value, 0);
    }
  }

  /** Searching a seamless concatenation searches the left part, then the right. */
  lemma FindSplit(a: string, b: string, pat: string, from: nat)
    requires pat != "" && Seamless(a, b, pat) && from <= |a|
    ensures Find(a + b, pat, from) ==
            (if Find(a, pat, from).Some? then Find(a, pat, from)
             else if Find(b, pat, 0).Some? then Some(|a| + Find(b, pat, 0).value)
             else None)
  {
    hide Find, Seamless;
    var x, y := Find(a, pat, from), Find(b, pat, 0);
    var end := if x.Some? then x.value else if y.Some? then |a| + y.value else |a| + |b| + 1;
    FindLeast(a, pat, from);
    FindLeast(b, pat, 0);
    forall j | from <= j < end ensures !At(a + b, pat, j) {
      AtSplit(a, b, pat, j);
    }
    if x.Some? || y.Some? {
      AtSplit(a, b, pat, end);
      FindIs(a + b, pat, from, end);
    } else {
      FindNothing(a + b, pat, from);
    }
  }

  /** A search that starts inside the right part never sees the left part. */
  lemma FindShift(a: string, b: string, pat: string, from: nat)
    requires |a| <= from
    ensures Find(a + b, pat, from) ==
            (if Find(b, pat, from - |a|).Some? then Some(|a| + Find(b, pat, from - |a|).value) else None)
  {
    hide Find;
    var y := Find(b, pat, from - |a|);
    var end := if y.Some? then |a| + y.value else from + |b| + 1;
    FindLeast(b, pat, from - |a|);
    forall j | from <= j < end ensures !At(a + b, pat, j) {
      AtRight(a, b, pat, j);
    }
    if y.Some? {
      AtRight(a, b, pat, end);
      FindIs(a + b, pat, from, end);
    } else {
      FindNothing(a + b, pat, from);
    }
  }

  /** One character never crosses a seam. */
  lemma FindCharSplit(a: string, b: string, c: char, from: nat)
    requires from <= |a|
    ensures Find(a + b, [c], from) ==
            (if Find(a, [c], from).Some? then Find(a, [c], from)
             else if Find(b, [c], 0).Some? then Some(|a| + Find(b, [c], 0).value)
             else None)
  {
    FindSplit(a, b, [c], from);
  }

  lemma FindCharIs(s: string, c: char, from: nat)
    requires Find(s, [c], from).Some?
    ensures s[Find(s, [c], from).value] == c
  {
    var i := Find(s, [c], from).value;
    assert s[i..i + 1][0] == c;
  }

  lemma ContainsSplit(a: string, b: string, pat: string)
    requires pat != "" && Seamless(a, b, pat)
    ensures Contains(a + b, pat) <==> Contains(a, pat) || Contains(b, pat)
  {
    FindSplit(a, b, pat, 0);
  }

  lemma ContainsMiddle(a: string, m: string, b: string, pat: string)
    requires Contains(m, pat)
    ensures Contains(a + m + b, pat)
  {
    var i := Find(m, pat, 0).value;
    AtRight(a, m, pat, |a| + i);
    AtLeft(a + m, b, pat, |a| + i);
    Found(a + m + b, pat, |a| + i);
  }

  lemma SliceSlice(s: string, a: nat, b: nat, c: nat, d: nat)
    requires c <= d <= b - a && b <= |s|
    ensures s[a..b][c..d] == s[a + c..a + d]
  {
    assert forall i | 0 <= i < d - c :: s[a..b][c..d][i] == s[a + c..a + d][i];
  }

  /** A match found in the front part stays the first one. */
  lemma FindPrefix(a: string, z: string, pat: string, from: nat)
    requires Find(a, pat, from).Some?
    ensures Find(a + z, pat, from) == Find(a, pat, from)
  {
    var i := Find(a, pat, from).value;
    FindLeast(a, pat, from);
    forall j | from <= j < i ensures !At(a + z, pat, j) {
      AtLeft(a, z, pat, j);
    }
    AtLeft(a, z, pat, i);
    FindIs(a + z, pat, from, i);
  }

  lemma BraceAt(front: string, c: char, back: string)
    requires c !in front
    ensures Find(front + ([c] + back), [c], 0) == Some(|front|)
  {
    hide Find;
    FindCharSplit(front, [c] + back, c, 0);
    NotFound(front, [c]);
    assert ([c] + back)[0..1] == [c];
    FindIs([c] + back, [c], 0, 0);
  }

  lemma FirstChar(s: string, c: char, from: nat, i: nat)
    requires from <= i < |s| && s[i] == c && forall j | from <= j < i :: s[j] != c
    ensures Find(s, [c], from) == Some(i)
  {
    hide Find, At;
    CharAt(s, c, i);
    forall j: nat | from <= j < i ensures !At(s, [c], j) {
      CharAt(s, c, j);
    }
    FindIs(s, [c], from, i);
  }

  lemma CharAt(s: string, c: char, i: nat)
    requires i < |s|
    ensures At(s, [c], i) <==> s[i] == c
  {
    assert s[i..i + 1] == [s[i]];
  }

  /** The same, searched for from the end of a text in front. */
  lemma BraceBehind(a: string, front: string, c: char, back: string)
    requires c !in front
    ensures Find(a + (front + ([c] + back)), [c], |a|) == Some(|a| + |front|)
  {
    hide *;
    Behind(a, front, c, back);
    FirstChar(a + (front + ([c] + back)), c, |a|, |a| + |front|);
  }

  lemma Behind(a: string, front: string, c: char, back: string)
    requires c !in front
    ensures var s, i := a + (front + ([c] + back)), |a| + |front|;
            i < |s| && s[i] == c && forall j | |a| <= j < i :: s[j] != c
  {
    var s, i := a + (front + ([c] + back)), |a| + |front|;
    forall j | |a| <= j < i ensures s[j] != c {
      assert s[j] == front[j - |a|];
    }
  }
}
