/**
 * Quoted strings of the functional syntax: a literal's text is written
 * between double quotes with each `\` doubled and each `"` preceded by `\`
 * (section 2.3 of the OWL 2 Functional-Style Syntax), and the converter
 * undoes the two escapes with two successive replacements.
 */
module Quoting {
  import opened Wrappers
  import opened Text

  predicate IsSpecial(c: char)
  {
    c == '\\' || c == '"'
  }

  /** The escaped form of one character. */
  function EscapeChar(c: char): string
  {
    if c == '\\' then "\\\\" else if c == '"' then "\\\"" else [c]
  }

  /** Every character escaped in place, in order. */
  function Escape(s: string): string
  {
    if |s| == 0 then "" else EscapeChar(s[0]) + Escape(s[1..])
  }

  /** The quoted-string form of `s`, the reference for the writer below. */
  function Quoted(s: string): string
  {
    "\"" + Escape(s) + "\""
  }

  lemma {:induction false} EscapeAppend(a: string, b: string)
    ensures Escape(a + b) == Escape(a) + Escape(b)
    decreases |a|
  {
    if |a| == 0 {
      assert a + b == b;
    } else {
      assert (a + b)[1..] == a[1..] + b;
      EscapeAppend(a[1..], b);
    }
  }

  lemma {:induction false} EscapePlain(s: string)
    requires forall k :: 0 <= k < |s| ==> !IsSpecial(s[k])
    ensures Escape(s) == s
    decreases |s|
  {
    if |s| > 0 {
      EscapePlain(s[1..]);
      assert [s[0]] + s[1..] == s;
    }
  }

  /** The index of the first `\` or `"` in `s`, if there is one. */
  function FindSpecial(s: string): (r: Option<nat>)
    ensures r.Some? ==> r.value < |s| && IsSpecial(s[r.value])
    ensures r.Some? ==> forall k :: 0 <= k < r.value ==> !IsSpecial(s[k])
    ensures r.None? ==> forall k :: 0 <= k < |s| ==> !IsSpecial(s[k])
  {
    if |s| == 0 then None
    else if IsSpecial(s[0]) then Some(0)
    else match FindSpecial(s[1..])
      case None => None
      case Some(i) => Some(i + 1)
  }

  /**
   * One step of the writer: when the first special character of `rest` is
   * at `i`, escaping `rest` gives the plain text before it, its escape, and
   * the escaped remainder.
   */
  lemma EscapeAtSpecial(rest: string, i: nat)
    requires FindSpecial(rest) == Some(i)
    ensures Escape(rest) == rest[..i] + EscapeChar(rest[i]) + Escape(rest[i + 1..])
  {
    assert rest == rest[..i] + [rest[i]] + rest[i + 1..];
    EscapeAppend(rest[..i] + [rest[i]], rest[i + 1..]);
    EscapeAppend(rest[..i], [rest[i]]);
    EscapePlain(rest[..i]);
    assert Escape([rest[i]]) == EscapeChar(rest[i]) by {
      assert [rest[i]][1..] == [];
    }
  }

  /** Writing the text before the first special character and its escape keeps the writer's invariant. */
  lemma WriteStep(out: string, rest: string, i: nat, escaped: string)
    requires FindSpecial(rest) == Some(i)
    requires escaped == if rest[i] == '\\' then "\\\\" else "\\\""
    ensures (out + rest[..i] + escaped) + Escape(rest[i + 1..]) == out + Escape(rest)
  {
    EscapeAtSpecial(rest, i);
    var tail := Escape(rest[i + 1..]);
    assert out + Escape(rest) == out + (rest[..i] + escaped + tail);
  }

  /**
   * The quoting writer: it repeatedly finds the first special character,
   * writes the text before it and its escape, and continues after it; the
   * remaining text and the closing quote are written last.
   */
  method Quote(s: string) returns (out: string)
    ensures out == Quoted(s)
  {
    out := "\"";
    var rest := s;
    var found := FindSpecial(rest);
    while found.Some?
      invariant found == FindSpecial(rest)
      invariant out + Escape(rest) + "\"" == Quoted(s)
      decreases |rest|
    {
      var i := found.value;
      var escaped := if rest[i] == '\\' then "\\\\" else "\\\"";
      WriteStep(out, rest, i, escaped);
      out := out + rest[..i] + escaped;
      rest := rest[i + 1..];
      found := FindSpecial(rest);
    }
    EscapePlain(rest);
    out := out + rest + "\"";
  }

  /**
   * The converter's reading of a quoted string: the delimiting characters are
   * dropped, then every `\\` becomes `\`, then every `\"` becomes `"`.
   */
  function Unescape(text: string): string
    requires |text| >= 2
  {
    var inner := text[1..|text| - 1];
    ReplacePair(ReplacePair(inner, '\\', '\\', '\\'), '\\', '"', '"')
  }

  /** `s` with only its double quotes escaped. */
  function EscapeQuotes(s: string): string
  {
    if |s| == 0 then ""
    else (if s[0] == '"' then "\\\"" else [s[0]]) + EscapeQuotes(s[1..])
  }

  /** The first replacement undoes exactly the backslash escapes. */
  lemma {:induction false} FirstPass(s: string)
    ensures ReplacePair(Escape(s), '\\', '\\', '\\') == EscapeQuotes(s)
    decreases |s|
  {
    if |s| > 0 {
      var c, t := s[0], s[1..];
      FirstPass(t);
      if c == '\\' {
        assert Escape(s) == ['\\', '\\'] + Escape(t);
        assert (['\\', '\\'] + Escape(t))[2..] == Escape(t);
      } else if c == '"' {
        assert Escape(s) == ['\\'] + (['"'] + Escape(t));
        ReplacePairCons('"', Escape(t), '\\', '\\', '\\');
        if |Escape(t)| == 0 {
          assert ReplacePair(Escape(s), '\\', '\\', '\\') == Escape(s);
        } else {
          assert (['\\'] + (['"'] + Escape(t)))[1..] == ['"'] + Escape(t);
        }
      } else {
        assert Escape(s) == [c] + Escape(t);
        ReplacePairCons(c, Escape(t), '\\', '\\', '\\');
      }
    }
  }

  /** After the first pass no double quote directly follows the start. */
  lemma EscapeQuotesHead(s: string)
    requires |EscapeQuotes(s)| > 0
    ensures EscapeQuotes(s)[0] != '"'
  {
  }

  /** The second replacement undoes exactly the quote escapes. */
  lemma {:induction false} SecondPass(s: string)
    ensures ReplacePair(EscapeQuotes(s), '\\', '"', '"') == s
    decreases |s|
  {
    if |s| > 0 {
      var c, t := s[0], s[1..];
      SecondPass(t);
      if c == '"' {
        assert EscapeQuotes(s) == ['\\', '"'] + EscapeQuotes(t);
        assert (['\\', '"'] + EscapeQuotes(t))[2..] == EscapeQuotes(t);
      } else if c == '\\' {
        assert EscapeQuotes(s) == ['\\'] + EscapeQuotes(t);
        if |EscapeQuotes(t)| > 0 {
          EscapeQuotesHead(t);
          assert (['\\'] + EscapeQuotes(t))[1..] == EscapeQuotes(t);
        }
      } else {
        assert EscapeQuotes(s) == [c] + EscapeQuotes(t);
        ReplacePairCons(c, EscapeQuotes(t), '\\', '"', '"');
      }
      assert [c] + t == s;
    }
  }

  /** Reading back a quoted string gives exactly the original text. */
  lemma UnescapeQuoted(s: string)
    ensures Unescape(Quoted(s)) == s
  {
    var q := Quoted(s);
    assert q[1..|q| - 1] == Escape(s);
    FirstPass(s);
    SecondPass(s);
  }
}
