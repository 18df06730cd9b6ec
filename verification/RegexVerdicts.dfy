/** What the textual search for backreferences finds, and what it makes of escapes. */
module RegexVerdicts {
  import opened RegexGuard

  /** Main result. The search answers yes exactly if the text holds a backslash before a digit other than
    * zero, or the opening of a named reference. */
  lemma BackreferenceExactly(s: string)
    ensures HasBackreference(s)
            <==> || (exists before: string, d, after: string :: d in "123456789" && s == before + ['\\', d] + after)
                 || (exists before: string, after: string :: s == before + "(?P=" + after)
  {
    forall i | 0 <= i < |s| && BackreferenceAt(s, i)
      ensures || (exists before: string, d, after: string :: d in "123456789" && s == before + ['\\', d] + after)
              || (exists before: string, after: string :: s == before + "(?P=" + after)
    {
      if i + 4 <= |s| && s[i..i + 4] == "(?P=" {
        assert s == s[..i] + "(?P=" + s[i + 4..];
      } else {
        Digits(s[i + 1]);
        assert s == s[..i] + ['\\', s[i + 1]] + s[i + 2..];
      }
    }
    forall before: string, d, after: string | d in "123456789" && s == before + ['\\', d] + after
      ensures BackreferenceAt(s, |before|)
    {
      Digits(d);
      assert s[|before|] == '\\' && s[|before| + 1] == d;
    }
    forall before: string, after: string | s == before + "(?P=" + after ensures BackreferenceAt(s, |before|) {
      assert s[|before|..|before| + 4] == "(?P=";
    }
  }

  lemma Digits(d: char)
    ensures d in "123456789" <==> '1' <= d <= '9'
  {
    if '1' <= d <= '9' {
      assert "123456789"[d as int - 49] == d;
    }
  }

  /** An escaped digit other than zero, outside every class. */
  predicate Numbered(f: Forest) {
    match f
    case End => false
    case Plain(_, rest) => Numbered(rest)
    case Escaped(c, rest) => '1' <= c <= '9' || Numbered(rest)
    case Class(_, rest) => Numbered(rest)
    case Group(inner, rest) => Numbered(inner) || Numbered(rest)
  }

  lemma FoundInside(before: string, s: string, after: string)
    requires HasBackreference(s)
    ensures HasBackreference(before + s + after)
  {
    var i :| 0 <= i < |s| && BackreferenceAt(s, i);
    var t := before + s + after;
    assert forall k :: 0 <= k < |s| ==> t[|before| + k] == s[k];
    assert i + 4 <= |s| ==> t[|before| + i..|before| + i + 4] == s[i..i + 4];
    assert BackreferenceAt(t, |before| + i);
  }

  /** Main result. No numbered backreference gets past the search, wherever it stands in the bracket
    * structure. */
  lemma {:induction false} NumberedAreCaught(f: Forest)
    requires Numbered(f)
    ensures HasBackreference(Show(f))
  {
    hide HasBackreference;
    match f
    case Plain(c, rest) =>
      NumberedAreCaught(rest);
      FoundInside([c], Show(rest), "");
      assert [c] + Show(rest) + "" == Show(f);
    case Escaped(c, rest) =>
      if '1' <= c <= '9' {
        BackreferenceExactly(Show(f));
        Digits(c);
        assert Show(f) == [] + ['\\', c] + Show(rest);
      } else {
        NumberedAreCaught(rest);
        FoundInside(['\\', c], Show(rest), "");
        assert ['\\', c] + Show(rest) + "" == Show(f);
      }
    case Class(body, rest) =>
      NumberedAreCaught(rest);
      FoundInside("[" + ShowBody(body), Show(rest), "");
      assert "[" + ShowBody(body) + Show(rest) + "" == Show(f);
    case Group(inner, rest) =>
      if Numbered(inner) {
        NumberedAreCaught(inner);
        FoundInside("(", Show(inner), ")" + Show(rest));
        assert "(" + Show(inner) + (")" + Show(rest)) == Show(f);
      } else {
        NumberedAreCaught(rest);
        FoundInside("(" + Show(inner) + ")", Show(rest), "");
        assert "(" + Show(inner) + ")" + Show(rest) + "" == Show(f);
      }
  }

  /** The converse fails: a literal backslash before a digit is refused, with no reference in the pattern. */
  lemma LiteralBackslashIsRefused()
    ensures var f := Escaped('\\', Plain('1', End)); ForestOk(f) && !Numbered(f) && HasBackreference(Show(f))
  {
    assert BackreferenceAt(Show(Escaped('\\', Plain('1', End))), 1);
  }
}
