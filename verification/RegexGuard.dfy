/** The authored-regex guard (`backend/app/ambient/regex_guard.py`): a one-pass stack scan against a
  * definition of nested repetition on the pattern's bracket structure and on regex syntax trees.
  */
module RegexGuard {
  const MAX_PATTERN_LEN: nat := 200

  datatype Verdict = Admissible | TooLong | DoesNotCompile | Backreference | NestedRepetition

  predicate StartsRepetition(c: char) {
    c == '*' || c == '+' || c == '{'
  }

  /** Neither escapes nor opens nor closes anything. */
  predicate IsPlain(c: char) {
    c != '\\' && c != '[' && c != '(' && c != ')'
  }

  predicate Repeats(s: string) {
    s != "" && StartsRepetition(s[0])
  }

  /** A textual search: an escaped backslash before a digit is caught as well. */
  predicate HasBackreference(s: string) {
    exists i :: 0 <= i < |s| && BackreferenceAt(s, i)
  }

  predicate BackreferenceAt(s: string, i: nat) {
    (i + 1 < |s| && s[i] == '\\' && '1' <= s[i + 1] <= '9') || (i + 4 <= |s| && s[i..i + 4] == "(?P=")
  }

  /** Note a quantifier in the innermost open group, if any group is open. */
  function Mark(stack: seq<bool>, quantified: bool): seq<bool> {
    if quantified && stack != [] then stack[|stack| - 1 := true] else stack
  }

  /** What the scan answers from a suffix of the pattern on: is there a nested repetition? */
  predicate Scan(s: string, stack: seq<bool>, escaped: bool, inClass: bool) {
    if s == "" then false
    else if escaped then Scan(s[1..], stack, false, inClass)
    else if s[0] == '\\' then Scan(s[1..], stack, true, inClass)
    else if inClass then Scan(s[1..], stack, false, s[0] != ']')
    else if s[0] == '[' then Scan(s[1..], stack, false, true)
    else if s[0] == '(' then Scan(s[1..], stack + [false], false, false)
    else if s[0] == ')' then
      var had := stack != [] && stack[|stack| - 1];
      var rest := if stack != [] then stack[..|stack| - 1] else stack;
      (had && Repeats(s[1..])) || Scan(s[1..], Mark(rest, had), false, false)
    else Scan(s[1..], Mark(stack, StartsRepetition(s[0])), false, false)
  }

  method CheckPattern(pattern: string, compiles: bool) returns (r: Verdict)
    ensures r == if |pattern| > 200 then TooLong
                 else if !compiles then DoesNotCompile
                 else if HasBackreference(pattern) then Backreference
                 else if Scan(pattern, [], false, false) then NestedRepetition
                 else Admissible
  {
    if |pattern| > MAX_PATTERN_LEN {
      return TooLong;
    }
    if !compiles {
      return DoesNotCompile;
    }
    if HasBackreference(pattern) {
      return Backreference;
    }
    var stack: seq<bool> := [];
    var i, escaped, inClass := 0, false, false;
    assert pattern[0..] == pattern;
    while i < |pattern|
      invariant 0 <= i <= |pattern|
      invariant Scan(pattern[i..], stack, escaped, inClass) == Scan(pattern, [], false, false)
    {
      var ch := pattern[i];
      assert pattern[i..][1..] == pattern[i + 1..];
      if escaped {
        escaped := false;
      } else if ch == '\\' {
        escaped := true;
      } else if inClass {
        if ch == ']' {
          inClass := false;
        }
      } else if ch == '[' {
        inClass := true;
      } else if ch == '(' {
        stack := stack + [false];
      } else if ch == ')' {
        var had := false;
        if stack != [] {
          had, stack := stack[|stack| - 1], stack[..|stack| - 1];
        }
        if had && i + 1 < |pattern| && StartsRepetition(pattern[i + 1]) {
          return NestedRepetition;
        }
        if had && stack != [] {
          stack := stack[|stack| - 1 := true];
        }
      } else if StartsRepetition(ch) && stack != [] {
        stack := stack[|stack| - 1 := true];
      }
      i := i + 1;
    }
    return Admissible;
  }

  // ── Bracket structure ──

  datatype ClassBody = Close | Member(c: char, more: ClassBody) | EscapedMember(c: char, more: ClassBody)

  /** A pattern read as plain characters, escapes, classes and groups. */
  datatype Forest =
    | End
    | Plain(c: char, rest: Forest)
    | Escaped(c: char, rest: Forest)
    | Class(body: ClassBody, rest: Forest)
    | Group(inner: Forest, rest: Forest)

  predicate BodyOk(b: ClassBody) {
    match b
    case Close => true
    case Member(c, more) => c != ']' && c != '\\' && BodyOk(more)
    case EscapedMember(_, more) => BodyOk(more)
  }

  predicate ForestOk(f: Forest) {
    match f
    case End => true
    case Plain(c, rest) => IsPlain(c) && ForestOk(rest)
    case Escaped(_, rest) => ForestOk(rest)
    case Class(body, rest) => BodyOk(body) && ForestOk(rest)
    case Group(inner, rest) => ForestOk(inner) && ForestOk(rest)
  }

  function ShowBody(b: ClassBody): string {
    match b
    case Close => "]"
    case Member(c, more) => [c] + ShowBody(more)
    case EscapedMember(c, more) => ['\\', c] + ShowBody(more)
  }

  function Show(f: Forest): string {
    match f
    case End => ""
    case Plain(c, rest) => [c] + Show(rest)
    case Escaped(c, rest) => ['\\', c] + Show(rest)
    case Class(body, rest) => ['['] + ShowBody(body) + Show(rest)
    case Group(inner, rest) => ['('] + Show(inner) + [')'] + Show(rest)
  }

  /** An active `*`, `+` or `{` at any depth. */
  predicate Repetitive(f: Forest) {
    match f
    case End => false
    case Plain(c, rest) => StartsRepetition(c) || Repetitive(rest)
    case Escaped(_, rest) => Repetitive(rest)
    case Class(_, rest) => Repetitive(rest)
    case Group(inner, rest) => Repetitive(inner) || Repetitive(rest)
  }

  /** Some group, at any depth, holds a repetition and is itself directly followed by one. */
  predicate Nests(f: Forest) {
    match f
    case End => false
    case Plain(_, rest) => Nests(rest)
    case Escaped(_, rest) => Nests(rest)
    case Class(_, rest) => Nests(rest)
    case Group(inner, rest) => Nests(inner) || (Repetitive(inner) && FirstRepeats(rest)) || Nests(rest)
  }

  predicate FirstRepeats(f: Forest) {
    f.Plain? && StartsRepetition(f.c)
  }

  lemma {:induction false} ScanClass(b: ClassBody, tail: string, stack: seq<bool>)
    requires BodyOk(b)
    ensures Scan(ShowBody(b) + tail, stack, false, true) == Scan(tail, stack, false, false)
  {
    match b
    case Close =>
      assert ("]" + tail)[1..] == tail;
    case Member(c, more) =>
      ScanClass(more, tail, stack);
      assert (ShowBody(b) + tail)[1..] == ShowBody(more) + tail;
    case EscapedMember(c, more) =>
      ScanClass(more, tail, stack);
      var s := ShowBody(b) + tail;
      assert s[1..][0] == c && s[1..][1..] == ShowBody(more) + tail;
  }

  lemma Assoc(a: string, b: string, c: string)
    ensures (a + b) + c == a + (b + c)
  {}

  /** A forest written in front of `tail`, taken apart one piece at a time. */
  function Pieces(f: Forest, tail: string): string {
    match f
    case End => tail
    case Plain(c, rest) => [c] + Pieces(rest, tail)
    case Escaped(c, rest) => ['\\', c] + Pieces(rest, tail)
    case Class(body, rest) => ['['] + (ShowBody(body) + Pieces(rest, tail))
    case Group(inner, rest) => ['('] + Pieces(inner, [')'] + Pieces(rest, tail))
  }

  lemma {:induction false} PiecesAreShown(f: Forest, tail: string)
    ensures Show(f) + tail == Pieces(f, tail)
  {
    match f
    case End =>
      assert "" + tail == tail;
    case Plain(c, rest) =>
      PiecesAreShown(rest, tail);
      Assoc([c], Show(rest), tail);
    case Escaped(c, rest) =>
      PiecesAreShown(rest, tail);
      Assoc(['\\', c], Show(rest), tail);
    case Class(body, rest) =>
      PiecesAreShown(rest, tail);
      Assoc(['['] + ShowBody(body), Show(rest), tail);
      Assoc(['['], ShowBody(body), Pieces(rest, tail));
    case Group(inner, rest) =>
      var after := Pieces(rest, tail);
      PiecesAreShown(rest, tail);
      PiecesAreShown(inner, [')'] + after);
      Assoc(['('] + Show(inner) + [')'], Show(rest), tail);
      Assoc(['('] + Show(inner), [')'], after);
      Assoc(['('], Show(inner), [')'] + after);
  }

  lemma ScanPlain(c: char, s: string, stack: seq<bool>)
    requires IsPlain(c)
    ensures Scan([c] + s, stack, false, false) == Scan(s, Mark(stack, StartsRepetition(c)), false, false)
  {
    assert ([c] + s)[1..] == s;
  }

  lemma ScanEscaped(c: char, s: string, stack: seq<bool>)
    ensures Scan(['\\', c] + s, stack, false, false) == Scan(s, stack, false, false)
  {
    var t := ['\\', c] + s;
    assert t[1..][0] == c && t[1..][1..] == s;
  }

  lemma ScanOpen(s: string, stack: seq<bool>)
    ensures Scan(['('] + s, stack, false, false) == Scan(s, stack + [false], false, false)
    ensures Scan(['['] + s, stack, false, false) == Scan(s, stack, false, true)
  {
    assert (['('] + s)[1..] == s && (['['] + s)[1..] == s;
  }

  /** The scan over a whole forest, whatever is open around it and follows it. */
  lemma {:induction false} ScanForest(f: Forest, tail: string, stack: seq<bool>)
    requires ForestOk(f) && !Repeats(tail)
    ensures Scan(Pieces(f, tail), stack, false, false)
            == (Nests(f) || Scan(tail, Mark(stack, Repetitive(f)), false, false))
  {
    hide Scan, Mark;
    match f
    case End =>
      MarkNothing(stack);
    case Plain(c, rest) =>
      ScanPlain(c, Pieces(rest, tail), stack);
      ScanForest(rest, tail, Mark(stack, StartsRepetition(c)));
      MarkTwice(stack, StartsRepetition(c), Repetitive(rest));
    case Escaped(c, rest) =>
      ScanEscaped(c, Pieces(rest, tail), stack);
      ScanForest(rest, tail, stack);
    case Class(body, rest) =>
      ScanOpen(ShowBody(body) + Pieces(rest, tail), stack);
      ScanClass(body, Pieces(rest, tail), stack);
      ScanForest(rest, tail, stack);
    case Group(inner, rest) =>
      var after := Pieces(rest, tail);
      ScanOpen(Pieces(inner, [')'] + after), stack);
      ScanForest(inner, [')'] + after, stack + [false]);
      ScanClose(after, stack, Repetitive(inner));
      FirstIsShown(rest, tail);
      ScanForest(rest, tail, Mark(stack, Repetitive(inner)));
      MarkTwice(stack, Repetitive(inner), Repetitive(rest));
  }

  lemma MarkNothing(stack: seq<bool>)
    ensures Mark(stack, false) == stack
  {}

  lemma MarkTwice(stack: seq<bool>, a: bool, b: bool)
    ensures Mark(Mark(stack, a), b) == Mark(stack, a || b)
  {}

  lemma ScanClose(after: string, stack: seq<bool>, had: bool)
    ensures Scan([')'] + after, Mark(stack + [false], had), false, false)
            == ((had && Repeats(after)) || Scan(after, Mark(stack, had), false, false))
  {
    var open := Mark(stack + [false], had);
    assert open == stack + [had];
    assert open[..|open| - 1] == stack;
    assert ([')'] + after)[1..] == after;
  }

  lemma FirstIsShown(f: Forest, tail: string)
    requires ForestOk(f) && !Repeats(tail)
    ensures Repeats(Pieces(f, tail)) == FirstRepeats(f)
  {}

  // ── Every balanced pattern has exactly one bracket structure ──

  /** The body of a class up to its first unescaped `]`, and what follows. */
  function ReadClass(s: string): (r: (ClassBody, string, bool))
    ensures |r.1| <= |s|
  {
    if s == "" then (Close, s, false)
    else if s[0] == ']' then (Close, s[1..], true)
    else if s[0] == '\\' then
      if |s| == 1 then (Close, s, false)
      else var (more, rest, ok) := ReadClass(s[2..]); (EscapedMember(s[1], more), rest, ok)
    else var (more, rest, ok) := ReadClass(s[1..]); (Member(s[0], more), rest, ok)
  }

  /** The longest forest at the front of `s`, and what is left: nothing, a `)` or an unclosed piece. */
  function Read(s: string): (r: (Forest, string))
    ensures |r.1| <= |s|
    decreases |s|
  {
    if s == "" || s[0] == ')' then (End, s)
    else if s[0] == '\\' then
      if |s| == 1 then (End, s) else var (rest, left) := Read(s[2..]); (Escaped(s[1], rest), left)
    else if s[0] == '[' then
      var (body, after, ok) := ReadClass(s[1..]);
      if !ok then (End, s) else var (rest, left) := Read(after); (Class(body, rest), left)
    else if s[0] == '(' then
      var (inner, after) := Read(s[1..]);
      if after == "" || after[0] != ')' then (End, s)
      else var (rest, left) := Read(after[1..]); (Group(inner, rest), left)
    else var (rest, left) := Read(s[1..]); (Plain(s[0], rest), left)
  }

  predicate Balanced(s: string) {
    Read(s).1 == ""
  }

  lemma {:induction false} ReadClassInverts(b: ClassBody, tail: string)
    requires BodyOk(b)
    ensures ReadClass(ShowBody(b) + tail) == (b, tail, true)
  {
    var s := ShowBody(b) + tail;
    match b
    case Close =>
      assert s[1..] == tail;
    case Member(c, more) =>
      ReadClassInverts(more, tail);
      assert s[1..] == ShowBody(more) + tail;
    case EscapedMember(c, more) =>
      ReadClassInverts(more, tail);
      assert s[2..] == ShowBody(more) + tail;
  }

  lemma ReadPlain(c: char, s: string)
    requires IsPlain(c)
    ensures Read([c] + s) == (Plain(c, Read(s).0), Read(s).1)
  {
    assert ([c] + s)[1..] == s;
  }

  lemma ReadEscaped(c: char, s: string)
    ensures Read(['\\', c] + s) == (Escaped(c, Read(s).0), Read(s).1)
  {
    assert (['\\', c] + s)[2..] == s;
  }

  lemma ReadBracketed(body: ClassBody, s: string)
    requires BodyOk(body)
    ensures Read(['['] + (ShowBody(body) + s)) == (Class(body, Read(s).0), Read(s).1)
  {
    ReadClassInverts(body, s);
    assert (['['] + (ShowBody(body) + s))[1..] == ShowBody(body) + s;
  }

  lemma ReadGroup(inside: string, inner: Forest, s: string)
    requires Read(inside) == (inner, [')'] + s)
    ensures Read(['('] + inside) == (Group(inner, Read(s).0), Read(s).1)
  {
    assert (['('] + inside)[1..] == inside;
    assert ([')'] + s)[1..] == s;
  }

  /** Reading undoes showing. */
  lemma {:induction false} ReadInverts(f: Forest, tail: string)
    requires ForestOk(f) && (tail == "" || tail[0] == ')')
    ensures Read(Pieces(f, tail)) == (f, tail)
    decreases f, 1
  {
    if f == End {
    } else {
      ReadPieceInverts(f, tail);
    }
  }

  lemma {:induction false} ReadPieceInverts(f: Forest, tail: string)
    requires ForestOk(f) && (tail == "" || tail[0] == ')') && f != End
    ensures Read(Pieces(f, tail)) == (f, tail)
    decreases f, 0
  {
    hide Read, ShowBody, BodyOk;
    ReadInverts(f.rest, tail);
    var after := Pieces(f.rest, tail);
    match f
    case Plain(c, _) =>
      ReadPlain(c, after);
    case Escaped(c, _) =>
      ReadEscaped(c, after);
    case Class(body, _) =>
      ReadBracketed(body, after);
    case Group(inner, _) =>
      ReadInverts(inner, [')'] + after);
      ReadGroup(Pieces(inner, [')'] + after), inner, after);
  }

  lemma {:induction false} ShowClassInverts(s: string)
    requires ReadClass(s).2
    ensures BodyOk(ReadClass(s).0) && ShowBody(ReadClass(s).0) + ReadClass(s).1 == s
  {
    if s[0] == ']' {
    } else if s[0] == '\\' {
      ShowClassInverts(s[2..]);
    } else {
      ShowClassInverts(s[1..]);
    }
  }

  /** Showing undoes reading. */
  lemma {:induction false} ShowInverts(s: string)
    ensures ForestOk(Read(s).0) && Show(Read(s).0) + Read(s).1 == s
    decreases |s|, 1
  {
    if s == "" || s[0] == ')' {
      assert Show(End) + s == s;
    } else if s[0] == '\\' {
      ShowEscapeInverts(s);
    } else if s[0] == '[' {
      ShowBracketInverts(s);
    } else if s[0] == '(' {
      ShowGroupInverts(s);
    } else {
      var (rest, left) := Read(s[1..]);
      ShowInverts(s[1..]);
      ShowStep(s, [s[0]], rest, left);
    }
  }

  lemma {:induction false} ShowEscapeInverts(s: string)
    requires s != "" && s[0] == '\\'
    ensures ForestOk(Read(s).0) && Show(Read(s).0) + Read(s).1 == s
    decreases |s|, 0
  {
    if |s| > 1 {
      var (rest, left) := Read(s[2..]);
      ShowInverts(s[2..]);
      ShowStep(s, ['\\', s[1]], rest, left);
    } else {
      assert Show(End) + s == s;
    }
  }

  lemma {:induction false} ShowBracketInverts(s: string)
    requires s != "" && s[0] == '['
    ensures ForestOk(Read(s).0) && Show(Read(s).0) + Read(s).1 == s
    decreases |s|, 0
  {
    var (body, after, ok) := ReadClass(s[1..]);
    if ok {
      var (rest, left) := Read(after);
      ShowClassInverts(s[1..]);
      ShowInverts(after);
      assert s == ['['] + s[1..];
      Assoc(['['], ShowBody(body), after);
      ShowStep(s, ['['] + ShowBody(body), rest, left);
    } else {
      assert Show(End) + s == s;
    }
  }

  lemma {:induction false} ShowGroupInverts(s: string)
    requires s != "" && s[0] == '('
    ensures ForestOk(Read(s).0) && Show(Read(s).0) + Read(s).1 == s
    decreases |s|, 0
  {
    var (inner, after) := Read(s[1..]);
    ShowInverts(s[1..]);
    if after != "" && after[0] == ')' {
      var (rest, left) := Read(after[1..]);
      ShowInverts(after[1..]);
      JoinGroup(s, Show(inner), after);
      ShowStep(s, ['('] + Show(inner) + [')'], rest, left);
    } else {
      assert Show(End) + s == s;
    }
  }

  lemma JoinGroup(s: string, inside: string, after: string)
    requires s != "" && s[0] == '(' && after != "" && after[0] == ')' && s[1..] == inside + after
    ensures s == (['('] + inside + [')']) + after[1..]
  {
    assert s == ['('] + s[1..] && after == [')'] + after[1..];
    Assoc(inside, [')'], after[1..]);
    Assoc(['('], inside + [')'], after[1..]);
    Assoc(['('], inside, [')']);
  }

  lemma ShowStep(s: string, head: string, rest: Forest, left: string)
    requires s == head + (Show(rest) + left)
    ensures (head + Show(rest)) + left == s
  {}

  /** A pattern is balanced exactly when it is some bracket structure written out, and then the
    * structure is the one that is read. */
  lemma BalancedIsShown(s: string, f: Forest)
    ensures Balanced(s) ==> ForestOk(Read(s).0) && Show(Read(s).0) == s
    ensures ForestOk(f) && Show(f) == s ==> Balanced(s) && Read(s).0 == f
  {
    ShowInverts(s);
    if ForestOk(f) && Show(f) == s {
      PiecesAreShown(f, "");
      ReadInverts(f, "");
      assert Show(f) + "" == s;
    }
  }

  /** Main result. The scan refuses a balanced pattern exactly when some group, at any depth, holds
    * an active repetition and is directly followed by one. */
  lemma ScanIsExact(s: string)
    requires Balanced(s)
    ensures Scan(s, [], false, false) <==> Nests(Read(s).0)
  {
    ShowInverts(s);
    PiecesAreShown(Read(s).0, "");
    ScanForest(Read(s).0, "", []);
  }

  // ── Regex syntax trees ──

  datatype Atom = Letter(c: char) | Quoted(c: char) | OneOf(body: ClassBody) | Sub(capturing: bool, of: Regex)
  datatype Repeat = Star | Plus | Optional | Times(lo: string)
  datatype Regex =
    | Nothing
    | Once(a: Atom)
    | Repeated(a: Atom, how: Repeat, lazy: bool)
    | Then(first: Regex, second: Regex)
    | Either(left: Regex, right: Regex)

  predicate AtomOk(a: Atom) {
    match a
    case Letter(c) => IsPlain(c) && !StartsRepetition(c) && c != '?' && c != '|'
    case Quoted(_) => true
    case OneOf(body) => BodyOk(body)
    case Sub(_, of) => RegexOk(of)
  }

  predicate RegexOk(r: Regex) {
    match r
    case Nothing => true
    case Once(a) => AtomOk(a)
    case Repeated(a, how, _) => AtomOk(a) && (how.Times? ==> forall c :: c in how.lo ==> '0' <= c <= '9' || c == ',')
    case Then(first, second) => RegexOk(first) && RegexOk(second)
    case Either(left, right) => RegexOk(left) && RegexOk(right)
  }

  function PrintAtom(a: Atom): string {
    match a
    case Letter(c) => [c]
    case Quoted(c) => ['\\', c]
    case OneOf(body) => ['['] + ShowBody(body)
    case Sub(capturing, of) => ['('] + (if capturing then "" else "?:") + Print(of) + [')']
  }

  function PrintRepeat(how: Repeat, lazy: bool): string {
    (match how case Star => "*" case Plus => "+" case Optional => "?" case Times(lo) => "{" + lo + "}")
    + (if lazy then "?" else "")
  }

  function Print(r: Regex): string {
    match r
    case Nothing => ""
    case Once(a) => PrintAtom(a)
    case Repeated(a, how, lazy) => PrintAtom(a) + PrintRepeat(how, lazy)
    case Then(first, second) => Print(first) + Print(second)
    case Either(left, right) => Print(left) + "|" + Print(right)
  }

  /** Does the tree hold a repetition at any depth? `?` matches at most once and does not count. */
  predicate HasRepetition(r: Regex) {
    match r
    case Nothing => false
    case Once(a) => AtomRepetitive(a)
    case Repeated(a, how, _) => !how.Optional? || AtomRepetitive(a)
    case Then(first, second) => HasRepetition(first) || HasRepetition(second)
    case Either(left, right) => HasRepetition(left) || HasRepetition(right)
  }

  predicate AtomRepetitive(a: Atom) {
    a.Sub? && HasRepetition(a.of)
  }

  /** Some repeated group contains a repetition. */
  predicate RepeatsARepetition(r: Regex) {
    match r
    case Nothing => false
    case Once(a) => a.Sub? && RepeatsARepetition(a.of)
    case Repeated(a, how, _) => a.Sub? && (RepeatsARepetition(a.of) || (!how.Optional? && HasRepetition(a.of)))
    case Then(first, second) => RepeatsARepetition(first) || RepeatsARepetition(second)
    case Either(left, right) => RepeatsARepetition(left) || RepeatsARepetition(right)
  }

  /** Plain characters in front of a forest. */
  function Chars(s: string, rest: Forest): Forest {
    if s == "" then rest else Plain(s[0], Chars(s[1..], rest))
  }

  function AtomForest(a: Atom, rest: Forest): Forest {
    match a
    case Letter(c) => Plain(c, rest)
    case Quoted(c) => Escaped(c, rest)
    case OneOf(body) => Class(body, rest)
    case Sub(capturing, of) => Group(Chars(if capturing then "" else "?:", RegexForest(of, End)), rest)
  }

  function RegexForest(r: Regex, rest: Forest): Forest {
    match r
    case Nothing => rest
    case Once(a) => AtomForest(a, rest)
    case Repeated(a, how, lazy) => AtomForest(a, Chars(PrintRepeat(how, lazy), rest))
    case Then(first, second) => RegexForest(first, RegexForest(second, rest))
    case Either(left, right) => RegexForest(left, Plain('|', RegexForest(right, rest)))
  }

  predicate RepeatsAnywhere(s: string) {
    s != "" && (StartsRepetition(s[0]) || RepeatsAnywhere(s[1..]))
  }

  predicate PlainText(s: string) {
    forall i :: 0 <= i < |s| ==> IsPlain(s[i])
  }

  lemma {:induction false} CharsMeaning(s: string, rest: Forest)
    requires PlainText(s)
    ensures var f := Chars(s, rest);
            && ForestOk(f) == ForestOk(rest) && Show(f) == s + Show(rest) && Nests(f) == Nests(rest)
            && Repetitive(f) == (Repetitive(rest) || RepeatsAnywhere(s))
            && (FirstRepeats(f) <==> if s == "" then FirstRepeats(rest) else StartsRepetition(s[0]))
  {
    if s != "" {
      CharsMeaning(s[1..], rest);
      Assoc([s[0]], s[1..], Show(rest));
      assert [s[0]] + s[1..] == s;
    }
  }

  lemma RepeatText(how: Repeat, lazy: bool)
    requires how.Times? ==> forall c :: c in how.lo ==> '0' <= c <= '9' || c == ','
    ensures var s := PrintRepeat(how, lazy);
            && PlainText(s) && s != "" && StartsRepetition(s[0]) == !how.Optional?
            && RepeatsAnywhere(s) == !how.Optional?
  {
    assert "?"[1..] == "" && "??"[1..] == "?";
    assert !RepeatsAnywhere("?") && !RepeatsAnywhere("??");
    if how.Times? {
      assert forall i :: 0 <= i < |how.lo| ==> how.lo[i] in how.lo;
    }
  }

  lemma {:induction false} AtomMeaning(a: Atom, rest: Forest)
    requires AtomOk(a) && ForestOk(rest)
    ensures var f := AtomForest(a, rest);
            && ForestOk(f) && Show(f) == PrintAtom(a) + Show(rest) && !FirstRepeats(f)
            && Repetitive(f) == (AtomRepetitive(a) || Repetitive(rest))
            && Nests(f) == ((a.Sub? && (RepeatsARepetition(a.of) || (HasRepetition(a.of) && FirstRepeats(rest))))
                            || Nests(rest))
    decreases a, 1
  {
    if a.Sub? {
      SubMeaning(a, rest);
    }
  }

  lemma {:induction false} SubMeaning(a: Atom, rest: Forest)
    requires AtomOk(a) && ForestOk(rest) && a.Sub?
    ensures var f := AtomForest(a, rest);
            && ForestOk(f) && Show(f) == PrintAtom(a) + Show(rest)
            && Repetitive(f) == (HasRepetition(a.of) || Repetitive(rest))
            && Nests(f) == (RepeatsARepetition(a.of) || (HasRepetition(a.of) && FirstRepeats(rest)) || Nests(rest))
    decreases a, 0
  {
    hide RegexForest, Print, HasRepetition, RepeatsARepetition;
    var mark := if a.capturing then "" else "?:";
    assert "?:"[1..] == ":" && !RepeatsAnywhere(":") && !RepeatsAnywhere(mark);
    var inner := RegexForest(a.of, End);
    RegexMeaning(a.of, End);
    CharsMeaning(mark, inner);
    assert Print(a.of) + Show(End) == Print(a.of);
    var f := AtomForest(a, rest);
    assert f == Group(Chars(mark, inner), rest);
    Assoc(['('], mark, Print(a.of));
  }

  lemma {:induction false} RegexMeaning(r: Regex, rest: Forest)
    requires RegexOk(r) && ForestOk(rest) && !FirstRepeats(rest)
    ensures var f := RegexForest(r, rest);
            && ForestOk(f) && Show(f) == Print(r) + Show(rest) && !FirstRepeats(f)
            && Repetitive(f) == (HasRepetition(r) || Repetitive(rest))
            && Nests(f) == (RepeatsARepetition(r) || Nests(rest))
    decreases r, 1
  {
    hide AtomForest, PrintAtom, AtomOk, PrintRepeat, Show, Nests, Repetitive, ForestOk;
    match r
    case Nothing =>
      assert "" + Show(rest) == Show(rest);
    case Once(a) =>
      AtomMeaning(a, rest);
    case Repeated(a, how, lazy) =>
      RepeatText(how, lazy);
      CharsMeaning(PrintRepeat(how, lazy), rest);
      AtomMeaning(a, Chars(PrintRepeat(how, lazy), rest));
      Assoc(PrintAtom(a), PrintRepeat(how, lazy), Show(rest));
    case Then(first, second) =>
      RegexMeaning(second, rest);
      RegexMeaning(first, RegexForest(second, rest));
      Assoc(Print(first), Print(second), Show(rest));
    case Either(left, right) =>
      var after := RegexForest(right, rest);
      RegexMeaning(right, rest);
      BarMeaning(after);
      RegexMeaning(left, Plain('|', after));
      Assoc(Print(left), "|", Print(right));
      Assoc("|", Print(right), Show(rest));
      Assoc(Print(left), "|" + Print(right), Show(rest));
  }

  lemma BarMeaning(rest: Forest)
    requires ForestOk(rest)
    ensures var f := Plain('|', rest);
            && ForestOk(f) && Show(f) == "|" + Show(rest) && !FirstRepeats(f)
            && Repetitive(f) == Repetitive(rest) && Nests(f) == Nests(rest)
  {}

  /** Main result. A regex syntax tree, printed, passes the scan exactly when none of its repeated
    * groups contains a repetition. */
  lemma PrintedTreesAreJudgedRight(r: Regex)
    requires RegexOk(r)
    ensures Balanced(Print(r)) && (Scan(Print(r), [], false, false) <==> RepeatsARepetition(r))
  {
    RegexMeaning(r, End);
    assert Print(r) + "" == Print(r);
    BalancedIsShown(Print(r), RegexForest(r, End));
    ScanIsExact(Print(r));
  }
}
