/** The escaping that every text this client writes into JSON goes through. */
module Escape {
  import opened Text
  import opened Json

  function EscapeChar(c: char): string {
    if c == '\\' then "\\\\"
    else if c == '"' then "\\\""
    else if c == '\n' then "\\n"
    else if c == '\r' then "\\r"
    else if c == '\t' then "\\t"
    else [c]
  }

  function JsonEscape(value: string): string {
    if value == "" then "" else EscapeChar(value[0]) + JsonEscape(value[1..])
  }

  lemma {:induction false} EscapeConcat(a: string, b: string)
    ensures JsonEscape(a + b) == JsonEscape(a) + JsonEscape(b)
  {
    if a == "" {
      assert a + b == b;
    } else {
      assert (a + b)[1..] == a[1..] + b;
      EscapeConcat(a[1..], b);
    }
  }

  lemma {:induction false} EscapePlain(value: string)
    requires forall i | 0 <= i < |value| :: value[i] !in "\\\"\n\r\t"
    ensures JsonEscape(value) == value
  {
    if value != "" {
      EscapePlain(value[1..]);
      assert value == [value[0]] + value[1..];
    }
  }

  lemma EscapeOne(c: char)
    ensures JsonEscape([c]) == EscapeChar(c)
  {
    assert [c][1..] == "";
  }

  method EscapeText(value: string) returns (out: string)
    ensures out == JsonEscape(value)
  {
    out := "";
    for i := 0 to |value|
      invariant out == JsonEscape(value[..i])
    {
      EscapeConcat(value[..i], [value[i]]);
      EscapeOne(value[i]);
      assert value[..i + 1] == value[..i] + [value[i]];
      match value[i]
      case '\\' => out := out + "\\\\";
      case '"' => out := out + "\\\"";
      case '\n' => out := out + "\\n";
      case '\r' => out := out + "\\r";
      case '\t' => out := out + "\\t";
      case c => out := out + [c];
    }
    assert value[..|value|] == value;
  }

  lemma {:induction false} EscapeQuotes(value: string)
    ensures QuotesEscaped(JsonEscape(value))
    ensures '\n' !in JsonEscape(value)
  {
    if value != "" {
      EscapeQuotes(value[1..]);
      var head, tail := EscapeChar(value[0]), JsonEscape(value[1..]);
      forall i | 0 <= i < |head + tail| && (head + tail)[i] == '"'
        ensures 0 < i && (head + tail)[i - 1] == '\\'
      {
        if |head| <= i {
          assert tail[i - |head|] == '"';
        }
      }
    }
  }

  /** Text with nothing to escape is copied. */
  lemma {:induction false} EscapeFixed(value: string)
    ensures '\\' !in JsonEscape(value) <==> JsonEscape(value) == value && '\\' !in value
    ensures (forall c | c in value :: EscapeChar(c) == [c]) ==> JsonEscape(value) == value
  {
    if value != "" {
      EscapeCharParts(value[0]);
      hide EscapeChar;
      EscapeFixed(value[1..]);
      assert value == [value[0]] + value[1..];
      assert JsonEscape(value) == EscapeChar(value[0]) + JsonEscape(value[1..]);
      if '\\' !in JsonEscape(value) {
        assert EscapeChar(value[0])[0] in JsonEscape(value);
      }
    }
  }

  lemma EndsAfterPair(x: string, d: char, word: string, last: char)
    requires word != "" && word[|word| - 1] != '\\'
    ensures !EndsWith(x + "\\" + [d], word + [last])
  {
    var stub := x + "\\";
    EndsInLast(stub + [d], word, last);
    assert (stub + [d])[..|stub|] == stub;
    assert word == word[..|word| - 1] + [word[|word| - 1]];
    EndsInLast(stub, word[..|word| - 1], word[|word| - 1]);
  }

  lemma EndsInPlain(x: string, c: char, word: string, last: char)
    ensures EndsWith(x + [c], word + [last]) <==> c == last && EndsWith(x, word)
  {
    hide EndsWith;
    EndsInLast(x + [c], word, last);
    assert (x + [c])[..|x|] == x;
  }

  lemma EscapeCharParts(c: char)
    ensures EscapeChar(c) == if c in "\"\\\n\r\t" then "\\" + [EscapeChar(c)[1]] else [c]
  {
  }

  /** One step of `EscapeEnds`: an unescaped last character can be taken off both texts. */
  lemma EscapeEndsStep(front: string, c: char, word: string, last: char)
    requires word != "" && word[|word| - 1] != '\\' && last !in "\"\\\n\r\t"
    ensures EndsWith(JsonEscape(front + [c]), word + [last]) <==> c == last && EndsWith(JsonEscape(front), word)
  {
    EscapeCharParts(c);
    hide *;
    EscapeConcat(front, [c]);
    EscapeOne(c);
    var x := JsonEscape(front);
    if c in "\"\\\n\r\t" {
      var d := EscapeChar(c)[1];
      EndsAfterPair(x, d, word, last);
      assert x + EscapeChar(c) == x + "\\" + [d];
    } else {
      EndsInPlain(x, c, word, last);
    }
  }

  lemma EscapeEndsQuote(front: string, c: char)
    ensures EndsWith(JsonEscape(front + [c]), "\"") <==> EndsWith(front + [c], "\"")
  {
    EscapeConcat(front, [c]);
    EscapeOne(c);
    EscapeCharParts(c);
    hide JsonEscape;
    assert EscapeChar('"')[1] == '"';
    assert EscapeChar(c)[|EscapeChar(c)| - 1] == '"' <==> c == '"';
  }

  /** Escaped text ends in a quote and then `k` exactly when the text itself does. */
  lemma {:induction false} EscapeEnds(value: string, k: string)
    requires forall i | 0 <= i < |k| :: k[i] !in "\"\\\n\r\t"
    ensures EndsWith(JsonEscape(value), "\"" + k) <==> EndsWith(value, "\"" + k)
    decreases |k|
  {
    if value == "" {
      hide EndsWith;
      assert JsonEscape("") == "";
    } else {
      hide *;
      var front, c := value[..|value| - 1], value[|value| - 1];
      assert value == front + [c];
      if k == "" {
        EscapeEndsQuote(front, c);
        assert "\"" + k == "\"";
      } else {
        var k', last := k[..|k| - 1], k[|k| - 1];
        assert "\"" + k == ("\"" + k') + [last];
        EscapeEnds(front, k');
        EscapeEndsStep(front, c, "\"" + k', last);
        EndsInPlain(front, c, "\"" + k', last);
      }
    }
  }

  lemma EndsInLast(s: string, front: string, c: char)
    ensures EndsWith(s, front + [c]) <==> s != "" && s[|s| - 1] == c && EndsWith(s[..|s| - 1], front)
  {
    if s != "" && |front| < |s| {
      assert s[|s| - |front| - 1..] == s[..|s| - 1][|s| - 1 - |front|..] + [s[|s| - 1]];
    }
  }

  /** Escaping neither hides nor invents a quoted plain word. */
  lemma EscapeNames(value: string, k: string)
    requires PlainKey(k)
    ensures Names(JsonEscape(value), k) <==> Names(value, k)
  {
    EscapeEnds(value, k);
    EscapeFixed(value);
    if value == k {
      assert forall c | c in value :: EscapeChar(c) == [c];
    }
  }
}
