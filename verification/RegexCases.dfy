/** The forms a clean pattern excludes, each with a pattern in which the scan and Python part. */
module RegexCases {
  import opened Options
  import opened RegexGuard
  import opened PythonRegex

  /** The scan passes a pattern in which Python repeats a repetition. */
  predicate SlipsThrough(s: string) {
    Readable(s) && NestsInPython(s) && !Scan(s, [], false, false)
  }

  /** The scan refuses a pattern in which Python repeats no repetition. */
  predicate RefusedWrongly(s: string) {
    Readable(s) && !NestsInPython(s) && Scan(s, [], false, false)
  }

  // ── One step of Python's reading, by its text and what follows ──

  lemma PyEnd(s: string, v: bool)
    requires s == "" || s[0] == ')'
    ensures PyRead(s, v) == (Stop, s)
  {}

  lemma PyChar(t: string, s: string, v: bool)
    requires t != "" && t[1..] == s && t[0] != '\\' && t[0] != '[' && t[0] != '(' && t[0] != ')' && QuantLen(t) == 0
    requires v ==> !IsBlank(t[0]) && t[0] != '#'
    ensures PyRead(t, v) == (Item(PyRead(s, v).0), PyRead(s, v).1)
  {
    hide AfterComment, AfterClass, PrefixLen, VerboseInside, EscapeLen, CountLen;
    StartsAt(t, "(?#");
  }

  lemma PyBlank(t: string, s: string)
    requires t != "" && t[1..] == s && t[0] == ' '
    ensures PyRead(t, true) == (Skip(PyRead(s, true).0), PyRead(s, true).1)
  {
    assert IsBlank(' ');
  }

  lemma PyRepeat(t: string, s: string, v: bool)
    requires t != "" && t[1..] == s && (t[0] == '+' || t[0] == '*') && (s == "" || (s[0] != '?' && s[0] != '+'))
    ensures PyRead(t, v) == (Quant(true, PyRead(s, v).0), PyRead(s, v).1)
  {
    hide AfterComment, AfterClass, PrefixLen, VerboseInside, EscapeLen, CountLen;
    assert !IsBlank(t[0]);
    StartsAt(t, "(?#");
    assert SuffixLen(s) == 0 && s[0..] == s;
  }

  lemma PyPossessive(t: string, s: string, v: bool)
    requires |t| >= 2 && t[0] == '?' && t[1] == '+' && t[2..] == s
    ensures PyRead(t, v) == (Quant(false, PyRead(s, v).0), PyRead(s, v).1)
  {
    hide AfterComment, AfterClass, PrefixLen, VerboseInside, EscapeLen, CountLen;
    assert !IsBlank(t[0]);
    StartsAt(t, "(?#");
    assert SuffixLen(t[1..]) == 1 && t[1..][1..] == s;
  }

  lemma PyClass(t: string, s: string, v: bool)
    requires t != "" && t[0] == '[' && AfterClass(t[1..]) == Some(s)
    ensures PyRead(t, v) == (Item(PyRead(s, v).0), PyRead(s, v).1)
  {
    assert !IsBlank(t[0]);
  }

  lemma PyNamed(t: string, s: string, v: bool)
    requires t != "" && t[0] == '\\' && EscapeLen(t) > 0 && t[EscapeLen(t)..] == s
    ensures PyRead(t, v) == (Item(PyRead(s, v).0), PyRead(s, v).1)
  {
    assert !IsBlank(t[0]);
  }

  lemma PyComment(t: string, s: string, v: bool)
    requires Starts(t, "(?#") && AfterComment(t[3..]) == Some(s)
    ensures PyRead(t, v) == (Skip(PyRead(s, v).0), PyRead(s, v).1)
  {
    StartsAt(t, "(?#");
    assert !IsBlank(t[0]);
  }

  lemma PyGroup(t: string, s: string, after: string, v: bool)
    requires t != "" && t[0] == '(' && t[1..] == s && (s == "" || s[0] != '?')
    requires PyRead(s, v).1 == [')'] + after
    ensures PyRead(t, v) == (Grp(PyRead(s, v).0, PyRead(after, v).0), PyRead(after, v).1)
  {
    assert !IsBlank(t[0]);
    StartsAt(t, "(?#");
    StartsAt(s, "?");
    StartsAt([')'] + after, ")");
    assert s[0..] == s;
    assert ([')'] + after)[1..] == after;
  }

  lemma NoGlobals(s: string)
    requires |s| >= 2 && s[0] == '(' && s[1] != '?'
    ensures forall v :: PyPattern(s, v) == PyRead(s, v)
  {
    StartsAt(s, "(?");
    StartsAt(s, "(?#");
    assert !IsBlank('(');
  }

  lemma ScansBalanced(f: Forest, t: string)
    requires ForestOk(f) && Show(f) == t
    ensures Scan(t, [], false, false) == Nests(f)
  {
    PiecesAreShown(f, "");
    assert Show(f) + "" == t;
    ScanForest(f, "", []);
  }

  lemma ScansAs(f: Forest, tail: string)
    requires ForestOk(f) && !Nests(f) && !Repeats(tail)
    ensures Scan(Pieces(f, tail), [], false, false) == Scan(tail, [], false, false)
  {
    ScanForest(f, tail, []);
  }

  // ── `a+` inside a group ──

  /** The text after `(a+` is read on its own. */
  lemma PyAPlus(s: string, v: bool)
    requires s == "" || (s[0] != '?' && s[0] != '+')
    ensures PyRead("a+" + s, v) == (Item(Quant(true, PyRead(s, v).0)), PyRead(s, v).1)
  {
    assert ("a+" + s)[1..] == "+" + s && ("+" + s)[1..] == s;
    PyRepeat("+" + s, s, v);
    PyChar("a+" + s, "+" + s, v);
  }

  lemma PyTrailingPlus(v: bool)
    ensures PyRead("+", v) == (Quant(true, Stop), "")
    ensures PyRead(")+", v) == (Stop, ")+")
  {
    PyEnd("", v);
    PyEnd(")+", v);
    PyRepeat("+", "", v);
  }

  /** A repeated group that holds `a+` and an item. */
  lemma PyRepeatedGroup(t: string, s: string, item: string)
    requires t == "(a+" + item + ")+" && s == item + ")+" && item != "" && item[0] != '?' && item[0] != '+'
    requires PyRead(s, false).1 == ")+"
    ensures PyPattern(t, false).1 == "" && PyNests(PyPattern(t, false).0)
  {
    hide PyRead, PyPattern;
    PyAPlus(s, false);
    assert t[1..] == "a+" + s;
    PyTrailingPlus(false);
    assert [')'] + "+" == ")+";
    PyGroup(t, "a+" + s, "+", false);
    NoGlobals(t);
    RepeatedRepeats(PyRead("a+" + s, false).0);
  }

  lemma RepeatedRepeats(inner: PyTree)
    requires inner.Item? && inner.rest.Quant? && inner.rest.repeats
    ensures PyNests(Grp(inner, Quant(true, Stop)))
  {
    assert PyRepetitive(inner.rest);
  }

  lemma ClassIsRead(body: ClassBody, text: string, after: string)
    requires BodyOk(body) && text == ShowBody(body) + after
    ensures ReadClass(text) == (body, after, true)
  {
    ReadClassInverts(body, after);
  }

  /** `(a+[])])+` and `(a+[^])])+`, as the scan reads them: up to the last two characters. */
  function Misread(body: ClassBody): Forest {
    Group(Plain('a', Plain('+', Class(body, End))), Plain(']', End))
  }

  lemma MisreadPasses(body: ClassBody, t: string)
    requires BodyOk(body) && t == "(a+[" + ShowBody(body) + ")])+"
    ensures !Scan(t, [], false, false)
  {
    hide Scan, Pieces, Show;
    var f := Misread(body);
    MisreadText(body, t);
    MisreadIsFlat(body);
    PiecesAreShown(f, ")+");
    ScansAs(f, ")+");
    CloseAlone();
  }

  lemma MisreadText(body: ClassBody, t: string)
    requires t == "(a+[" + ShowBody(body) + ")])+"
    ensures Show(Misread(body)) + ")+" == t
  {
    var c := Class(body, End);
    assert Show(c) == ['['] + ShowBody(body);
    assert Show(Plain('a', Plain('+', c))) == "a+[" + ShowBody(body);
    assert Show(Plain(']', End)) == "]";
  }

  lemma MisreadIsFlat(body: ClassBody)
    requires BodyOk(body)
    ensures ForestOk(Misread(body)) && !Nests(Misread(body))
  {
    var c := Class(body, End);
    assert ForestOk(c) && !Nests(c);
    assert ForestOk(Plain('+', c)) && !Nests(Plain('+', c));
    assert ForestOk(Plain(']', End)) && !Nests(Plain(']', End));
  }

  lemma CloseAlone()
    ensures !Scan(")+", [], false, false)
  {
    assert (")+")[1..] == "+" && "+"[1..] == "";
  }

  /** A `]` that opens a class is a member of it for Python, and ends it for the scan. */
  lemma BracketFirst()
    ensures SlipsThrough("(a+[])])+")
  {
    var t := "(a+[])])+";
    assert "(a+[" + ShowBody(Close) + ")])+" == t;
    MisreadPasses(Close, t);
    var c := "[])])+";
    assert ShowBody(Member(')', Close)) == ")]";
    ClassIsRead(Member(')', Close), ")])+", ")+");
    StartsAt("])])+", "^");
    StartsAt("])])+", "]");
    assert c[1..] == "])])+" && "])])+"[1..] == ")])+";
    PyEnd(")+", false);
    PyClass(c, ")+", false);
    PyRepeatedGroup(t, c, "[])]");
  }

  /** So is one right after the `^` of a negated class. */
  lemma BracketAfterCaret()
    ensures SlipsThrough("(a+[^])])+")
  {
    var t := "(a+[^])])+";
    assert ShowBody(Member('^', Close)) == "^]";
    assert "(a+[" + ShowBody(Member('^', Close)) + ")])+" == t;
    MisreadPasses(Member('^', Close), t);
    var c := "[^])])+";
    assert ShowBody(Member(')', Close)) == ")]";
    ClassIsRead(Member(')', Close), ")])+", ")+");
    StartsAt("^])])+", "^");
    StartsAt("])])+", "]");
    assert c[1..] == "^])])+" && "^])])+"[1..] == "])])+" && "])])+"[1..] == ")])+";
    PyEnd(")+", false);
    PyClass(c, ")+", false);
    PyRepeatedGroup(t, c, "[^])]");
  }

  lemma CommentEnds(s: string)
    ensures AfterComment([')'] + s) == Some(s)
    ensures AfterComment(['['] + ([')'] + s)) == Some(s)
  {
    assert ([')'] + s)[1..] == s && (['['] + ([')'] + s))[1..] == [')'] + s;
  }

  /** A comment adds nothing: the quantifier after it repeats the group before it. */
  lemma CommentBetween()
    ensures SlipsThrough("(a+)(?#)+")
  {
    hide PyRead, PyPattern, Scan, Read;
    var t := "(a+)(?#)+";
    var f := Group(Plain('a', Plain('+', End)), Group(Plain('?', Plain('#', End)), Plain('+', End)));
    ScansBalanced(f, t);
    var c := "(?#)+";
    assert c[3..] == [')'] + "+";
    CommentEnds("+");
    StartsAt(c, "(?#");
    PyTrailingPlus(false);
    PyComment(c, "+", false);
    assert ")(?#)+" == [')'] + c;
    PyEnd(")(?#)+", false);
    PyAPlus(")(?#)+", false);
    assert t[1..] == "a+" + ")(?#)+";
    PyGroup(t, "a+" + ")(?#)+", c, false);
    NoGlobals(t);
  }

  /** A `[` in a comment opens a class for the scan alone, and the rest of the pattern is in it. */
  lemma BracketInComment()
    ensures SlipsThrough("(a+(?#[))+")
  {
    hide PyRead, PyPattern, Scan, Read;
    var t := "(a+(?#[))+";
    var c := "(?#[))+";
    assert c[3..] == ['['] + ([')'] + ")+");
    CommentEnds(")+");
    StartsAt(c, "(?#");
    PyEnd(")+", false);
    PyComment(c, ")+", false);
    PyRepeatedGroup(t, c, "(?#[)");
    CommentScans(t);
  }

  lemma PlainStep(c: char, t: string, s: string, stack: seq<bool>, now: seq<bool>)
    requires t == [c] + s && IsPlain(c) && now == Mark(stack, StartsRepetition(c))
    ensures Scan(t, stack, false, false) == Scan(s, now, false, false)
  {
    ScanPlain(c, s, stack);
  }

  lemma CommentScans(t: string)
    requires t == "(a+(?#[))+"
    ensures !Scan(t, [], false, false)
  {
    hide Scan;
    var c := "?#[))+";
    CommentIsEntered(c);
    ScanOpen(c, [true]);
    assert [true] + [false] == [true, false];
    PlainStep('+', "+(" + c, ['('] + c, [false], [true]);
    PlainStep('a', "a+(" + c, "+(" + c, [false], [false]);
    ScanOpen("a+(" + c, []);
    assert ['('] + ("a+(" + c) == t && [] + [false] == [false];
  }

  lemma CommentIsEntered(c: string)
    requires c == "?#[))+"
    ensures !Scan(c, [true, false], false, false)
  {
    hide Scan;
    ClassSwallows("))+", [true, false]);
    ScanOpen("))+", [true, false]);
    PlainStep('#', "#[))+", ['['] + "))+", [true, false], [true, false]);
    PlainStep('?', c, "#[))+", [true, false], [true, false]);
  }

  lemma {:induction false} ClassSwallows(s: string, stack: seq<bool>)
    requires ']' !in s && '\\' !in s
    ensures !Scan(s, stack, false, true)
  {
    if s != "" {
      ClassSwallows(s[1..], stack);
    }
  }

  /** In verbose mode a blank adds nothing: the quantifier after it repeats the group before it. */
  lemma BlankBetween()
    ensures SlipsThrough("(?x)(a+) +")
  {
    hide PyRead, PyPattern, Scan, Read;
    var t := "(?x)(a+) +";
    var f := Group(Plain('?', Plain('x', End)), Group(Plain('a', Plain('+', End)), Plain(' ', Plain('+', End))));
    ScansBalanced(f, t);
    var g := "(a+) +";
    PyTrailingPlus(true);
    PyBlank(" +", "+");
    assert ") +" == [')'] + " +";
    PyEnd(") +", true);
    PyAPlus(") +", true);
    assert g[1..] == "a+" + ") +";
    PyGroup(g, "a+" + ") +", " +", true);
    NoGlobals(g);
    VerboseGlobals(t, g);
  }

  lemma VerboseGlobals(t: string, g: string)
    requires t == "(?x)" + g
    ensures PyPattern(t, false) == PyPattern(g, true)
  {
    StartsAt(t, "(?");
    assert t[2..] == "x)" + g && ("x)" + g)[1..] == ")" + g;
    assert Leading(")" + g, IsFlag) == 0;
    assert Leading("x)" + g, IsFlag) == 1;
    assert t[2..3] == "x";
    assert GlobalsLen(t) == 4 && t[..4] == "(?x)" && t[4..] == g;
  }

  /** The scan takes every brace for a quantifier; without a count Python takes it for a letter. */
  lemma LiteralBrace()
    ensures RefusedWrongly("(a{)+")
  {
    hide PyRead, PyPattern, Scan, Read;
    var t := "(a{)+";
    var f := Group(Plain('a', Plain('{', End)), Plain('+', End));
    ScansBalanced(f, t);
    PyTrailingPlus(false);
    PyChar("{)+", ")+", false);
    PyChar("a{)+", "{)+", false);
    assert ")+" == [')'] + "+" && t[1..] == "a{)+";
    PyGroup(t, "a{)+", "+", false);
    NoGlobals(t);
  }

  /** And so does it take the braces of a named character. */
  lemma NamedCharacter()
    ensures RefusedWrongly("(\\N{OX})+")
  {
    hide PyRead, PyPattern, Scan, Read;
    var t := "(\\N{OX})+";
    NamedScans(t);
    NamedReads(t, "\\N{OX})+");
  }

  lemma NamedScans(t: string)
    requires t == "(\\N{OX})+"
    ensures Scan(t, [], false, false)
  {
    hide Scan;
    var braces := Plain('{', Plain('O', Plain('X', Plain('}', End))));
    assert Show(braces) == "{OX}" && Repetitive(braces) && ForestOk(braces);
    var f := Group(Escaped('N', braces), Plain('+', End));
    assert Show(f.inner) == "\\N{OX}";
    assert Show(f) == t;
    ScansBalanced(f, t);
  }

  lemma NamedReads(t: string, c: string)
    requires t == "(\\N{OX})+" && c == "\\N{OX})+"
    ensures Readable(t) && !NestsInPython(t)
  {
    hide PyRead, PyPattern, EscapeLen;
    PyTrailingPlus(false);
    NamedLength(c);
    PyNamed(c, ")+", false);
    assert ")+" == [')'] + "+" && t[1..] == c;
    PyGroup(t, c, "+", false);
    NoGlobals(t);
  }

  lemma NamedLength(c: string)
    requires c == "\\N{OX})+"
    ensures EscapeLen(c) == 6 && c[6..] == ")+"
  {
    StartsAt(c, "\\N{");
    assert c[3..][2] == '}';
    assert c[3..] == "OX})+";
  }

  /** The possessive mark of an optional item is no repetition, but the scan notes a `+`. */
  lemma PossessiveMark()
    ensures RefusedWrongly("((a)?+)*")
  {
    hide PyRead, PyPattern, Scan, Read;
    var t := "((a)?+)*";
    var f := Group(Group(Plain('a', End), Plain('?', Plain('+', End))), Plain('*', End));
    ScansBalanced(f, t);
    PyEnd("", false);
    PyRepeat("*", "", false);
    PyEnd(")*", false);
    PyPossessive("?+)*", ")*", false);
    PyEnd(")?+)*", false);
    PyChar("a)?+)*", ")?+)*", false);
    assert ")?+)*" == [')'] + "?+)*" && "(a)?+)*"[1..] == "a)?+)*";
    PyGroup("(a)?+)*", "a)?+)*", "?+)*", false);
    assert ")*" == [')'] + "*" && t[1..] == "(a)?+)*";
    PyGroup(t, "(a)?+)*", "*", false);
    NoGlobals(t);
  }
}
