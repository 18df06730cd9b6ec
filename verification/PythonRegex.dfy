/** Python's own reading of a pattern, against the guard's scan (`backend/app/ambient/regex_guard.py`):
  * where the two agree, and the forms in which they part. */
module PythonRegex {
  import opened Options
  import opened RegexGuard

  // ── What Python reads ──

  /** A pattern as a run of items, quantifiers and groups; `Skip` is text that adds no item. */
  datatype PyTree =
    | Stop
    | Item(rest: PyTree)
    | Quant(repeats: bool, rest: PyTree)
    | Skip(rest: PyTree)
    | Grp(inner: PyTree, rest: PyTree)

  predicate Starts(s: string, p: string) {
    |p| <= |s| && s[..|p|] == p
  }

  lemma StartsAt(s: string, p: string)
    ensures Starts(s, p) <==> |p| <= |s| && forall i :: 0 <= i < |p| ==> s[i] == p[i]
  {
    assert |p| <= |s| ==> forall i :: 0 <= i < |p| ==> s[..|p|][i] == s[i];
  }

  predicate IsDigit(c: char) {
    '0' <= c <= '9'
  }

  predicate IsNameChar(c: char) {
    IsDigit(c) || 'a' <= c <= 'z' || 'A' <= c <= 'Z' || c == '_' || c as int >= 128
  }

  predicate IsFlag(c: char) {
    c in "aiLmsux-"
  }

  predicate IsBlank(c: char) {
    c in " \t\n\r" || c as int == 11 || c as int == 12
  }

  function Leading(s: string, p: char -> bool): (n: nat)
    ensures n <= |s| && (forall i :: 0 <= i < n ==> p(s[i])) && (n < |s| ==> !p(s[n]))
  {
    if s == "" || !p(s[0]) then 0 else 1 + Leading(s[1..], p)
  }

  /** The length of `{n}`, `{n,}`, `{,m}`, `{n,m}` or `{,}` at the front; 0 where the brace is a literal. */
  function CountLen(s: string): (n: nat)
    requires s != ""
    ensures n <= |s| && (n > 0 ==> n >= 3)
  {
    var lo := Leading(s[1..], IsDigit);
    var at := 1 + lo;
    if at == |s| then 0
    else if s[at] == ',' then
      var hi := Leading(s[at + 1..], IsDigit);
      if at + 1 + hi < |s| && s[at + 1 + hi] == '}' then at + hi + 2 else 0
    else if s[at] == '}' && lo > 0 then at + 1
    else 0
  }

  /** The length of the quantifier at the front without its suffix; 0 where there is none. */
  function QuantLen(s: string): (n: nat)
    requires s != ""
    ensures n <= |s|
  {
    if s[0] in "*+?" then 1 else if s[0] == '{' then CountLen(s) else 0
  }

  /** A lazy or possessive mark. */
  function SuffixLen(s: string): (n: nat)
    ensures n <= |s|
  {
    if s != "" && s[0] in "?+" then 1 else 0
  }

  /** An escape: two characters, or a named character in braces; 0 where it is cut short. */
  function EscapeLen(s: string): (n: nat)
    requires s != "" && s[0] == '\\'
    ensures n <= |s|
  {
    if |s| == 1 then 0
    else if Starts(s, "\\N{") then
      var name := Leading(s[3..], (c: char) => c != '}');
      if 3 + name < |s| then 4 + name else 0
    else 2
  }

  /** What follows the class whose inside `s` starts with: a `]` in the first place is a member. */
  function AfterClass(s: string): (r: Option<string>)
    ensures r.Some? ==> |r.value| <= |s|
  {
    var inside := if Starts(s, "^") then s[1..] else s;
    var body := if Starts(inside, "]") then inside[1..] else inside;
    var (_, after, closed) := ReadClass(body);
    if closed then Some(after) else None
  }

  /** What follows the comment whose inside `s` starts with. */
  function AfterComment(s: string): (r: Option<string>)
    ensures r.Some? ==> |r.value| <= |s|
  {
    if s == "" then None
    else if s[0] == ')' then Some(s[1..])
    else if s[0] == '\\' && |s| > 1 then AfterComment(s[2..])
    else AfterComment(s[1..])
  }

  /** What follows the verbose comment whose text `s` starts with: an escaped line break does not end it. */
  function AfterLine(s: string): (r: string)
    ensures |r| <= |s|
  {
    if s == "" then s
    else if s[0] == '\n' then s[1..]
    else if s[0] == '\\' && |s| > 1 then AfterLine(s[2..])
    else AfterLine(s[1..])
  }

  /** The length of what stands between a group's parenthesis and its contents; `None` is an error. */
  function PrefixLen(s: string): (n: Option<nat>)
    ensures n.Some? ==> n.value <= |s|
  {
    if !Starts(s, "?") then Some(0)
    else if Starts(s, "?:") || Starts(s, "?=") || Starts(s, "?!") || Starts(s, "?>") then Some(2)
    else if Starts(s, "?<=") || Starts(s, "?<!") then Some(3)
    else if Starts(s, "?P<") then
      var name := Leading(s[3..], IsNameChar);
      if 3 + name < |s| && s[3 + name] == '>' then Some(4 + name) else None
    else if Starts(s, "?(") then
      var name := Leading(s[2..], IsNameChar);
      if 2 + name < |s| && s[2 + name] == ')' then Some(3 + name) else None
    else
      var flags := Leading(s[1..], IsFlag);
      if flags > 0 && 1 + flags < |s| && s[1 + flags] == ':' then Some(2 + flags) else None
  }

  /** Is verbose mode on inside a group with these flags, given the mode around it? */
  function VerboseInside(s: string, verbose: bool): bool {
    if !Starts(s, "?") then verbose
    else
      var flags := s[1..1 + Leading(s[1..], IsFlag)];
      var on := flags[..Leading(flags, (c: char) => c != '-')];
      'x' in on || (verbose && 'x' !in flags[|on|..])
  }

  /** As much of `s` as belongs to one group, and what is left: nothing, its `)`, or an error. */
  function PyRead(s: string, verbose: bool): (r: (PyTree, string))
    ensures |r.1| <= |s|
    decreases |s|
  {
    if s == "" || s[0] == ')' then (Stop, s)
    else if verbose && IsBlank(s[0]) then
      var (rest, left) := PyRead(s[1..], verbose); (Skip(rest), left)
    else if verbose && s[0] == '#' then
      var (rest, left) := PyRead(AfterLine(s[1..]), verbose); (Skip(rest), left)
    else if s[0] == '\\' then
      if EscapeLen(s) == 0 then (Stop, s)
      else var (rest, left) := PyRead(s[EscapeLen(s)..], verbose); (Item(rest), left)
    else if s[0] == '[' then
      var after := AfterClass(s[1..]);
      if after.None? then (Stop, s) else var (rest, left) := PyRead(after.value, verbose); (Item(rest), left)
    else if Starts(s, "(?#") then
      var after := AfterComment(s[3..]);
      if after.None? then (Stop, s) else var (rest, left) := PyRead(after.value, verbose); (Skip(rest), left)
    else if s[0] == '(' then
      var prefix := PrefixLen(s[1..]);
      if prefix.None? then (Stop, s)
      else
        var (inner, after) := PyRead(s[1..][prefix.value..], VerboseInside(s[1..], verbose));
        if !Starts(after, ")") then (Stop, s)
        else var (rest, left) := PyRead(after[1..], verbose); (Grp(inner, rest), left)
    else if QuantLen(s) > 0 then
      var after := s[QuantLen(s)..];
      var (rest, left) := PyRead(after[SuffixLen(after)..], verbose); (Quant(s[0] != '?', rest), left)
    else var (rest, left) := PyRead(s[1..], verbose); (Item(rest), left)
  }

  /** The length of a group of global flags at the front of the pattern; 0 where there is none. */
  function GlobalsLen(s: string): (n: nat)
    ensures n <= |s|
  {
    if !Starts(s, "(?") then 0
    else
      var flags := Leading(s[2..], IsFlag);
      if flags > 0 && '-' !in s[2..2 + flags] && 2 + flags < |s| && s[2 + flags] == ')' then 3 + flags else 0
  }

  /** What follows the blank or comment at the front of a pattern, if there is one. */
  function AfterSkip(s: string, verbose: bool): (r: Option<string>)
    ensures r.Some? ==> |r.value| < |s|
  {
    if s == "" then None
    else if verbose && IsBlank(s[0]) then Some(s[1..])
    else if verbose && s[0] == '#' then Some(AfterLine(s[1..]))
    else if Starts(s, "(?#") then AfterComment(s[3..])
    else None
  }

  /** A whole pattern: global flags come first, with nothing but blanks and comments before them, and a
    * verbose flag among them holds everywhere. */
  function PyPattern(s: string, verbose: bool): (PyTree, string)
    decreases |s|
  {
    var n, skipped := GlobalsLen(s), AfterSkip(s, verbose);
    if n > 0 then PyPattern(s[n..], verbose || 'x' in s[..n])
    else if skipped.Some? then PyPattern(skipped.value, verbose)
    else PyRead(s, verbose)
  }

  /** The pattern is read to its end. */
  predicate Readable(s: string) {
    PyPattern(s, false).1 == ""
  }

  predicate PyRepetitive(t: PyTree) {
    match t
    case Stop => false
    case Item(rest) => PyRepetitive(rest)
    case Skip(rest) => PyRepetitive(rest)
    case Quant(repeats, rest) => repeats || PyRepetitive(rest)
    case Grp(inner, rest) => PyRepetitive(inner) || PyRepetitive(rest)
  }

  /** Is the item before this text repeated? What adds no item does not come between. */
  predicate Repeated(t: PyTree) {
    match t
    case Quant(repeats, _) => repeats
    case Skip(rest) => Repeated(rest)
    case _ => false
  }

  /** Some repeated group contains a repetition, as Python reads the pattern. */
  predicate PyNests(t: PyTree) {
    match t
    case Stop => false
    case Item(rest) => PyNests(rest)
    case Skip(rest) => PyNests(rest)
    case Quant(_, rest) => PyNests(rest)
    case Grp(inner, rest) => PyNests(inner) || (PyRepetitive(inner) && Repeated(rest)) || PyNests(rest)
  }

  predicate NestsInPython(s: string) {
    PyNests(PyPattern(s, false).0)
  }

  // ── Where the scan reads the same ──

  /** Flags with an `x` among them. */
  predicate SetsVerbose(s: string) {
    Starts(s, "?") && 'x' in s[1..1 + Leading(s[1..], IsFlag)]
  }

  /** Outside escapes and classes, the text has no named character, no class that opens with `]` or `^]`,
    * no comment, no verbose flag, no brace that opens no count, and no possessive `?+`. */
  predicate Clean(s: string, inClass: bool)
    decreases |s|
  {
    if s == "" then true
    else if s[0] == '\\' then |s| == 1 || ((inClass || s[1] != 'N') && Clean(s[2..], inClass))
    else if inClass then Clean(s[1..], s[0] != ']')
    else if s[0] == '[' then !Starts(s, "[]") && !Starts(s, "[^]") && Clean(s[1..], true)
    else
      && (s[0] == '(' ==> !Starts(s, "(?#") && !SetsVerbose(s[1..]))
      && (s[0] == '{' ==> CountLen(s) > 0)
      && !Starts(s, "?+")
      && Clean(s[1..], false)
  }

  /** Characters neither the scan nor the condition takes note of. */
  predicate Inert(c: char) {
    IsPlain(c) && !StartsRepetition(c)
  }

  lemma {:induction false} OverInert(s: string, n: nat, stack: seq<bool>)
    requires n <= |s| && forall i :: 0 <= i < n ==> Inert(s[i])
    ensures Scan(s, stack, false, false) == Scan(s[n..], stack, false, false)
    ensures Clean(s, false) ==> Clean(s[n..], false)
  {
    if n > 0 {
      OverInert(s[1..], n - 1, stack);
      assert s[1..][n - 1..] == s[n..];
    } else {
      assert s[n..] == s;
    }
  }

  lemma {:induction false} OverClass(s: string, stack: seq<bool>)
    requires ReadClass(s).2
    ensures Scan(s, stack, false, true) == Scan(ReadClass(s).1, stack, false, false)
    ensures Clean(s, true) ==> Clean(ReadClass(s).1, false)
  {
    if s[0] == '\\' {
      OverClass(s[2..], stack);
      assert s[1..][1..] == s[2..];
    } else if s[0] != ']' {
      OverClass(s[1..], stack);
    }
  }

  /** The rest of a quantifier, mark and all, adds nothing to its first character. */
  lemma OverQuantifier(s: string, stack: seq<bool>)
    requires s != "" && QuantLen(s) > 0 && Clean(s, false)
    ensures var after := s[QuantLen(s)..];
            var rest := after[SuffixLen(after)..];
            && Scan(s, stack, false, false) == Scan(rest, Mark(stack, s[0] != '?'), false, false)
            && Clean(rest, false)
  {
    hide Scan, Clean;
    var after, marked := s[QuantLen(s)..], Mark(stack, s[0] != '?');
    FirstQuantifier(s, stack);
    if s[0] == '{' {
      CountIsInert(s);
      OverInert(s[1..], QuantLen(s) - 1, marked);
      assert s[1..][QuantLen(s) - 1..] == after;
    } else {
      assert s[1..] == after;
    }
    Suffix(s, after, marked);
  }

  lemma FirstQuantifier(s: string, stack: seq<bool>)
    requires s != "" && QuantLen(s) > 0 && Clean(s, false)
    ensures Scan(s, stack, false, false) == Scan(s[1..], Mark(stack, s[0] != '?'), false, false) && Clean(s[1..], false)
    ensures s[0] == '?' ==> s[1..] == "" || s[1] != '+'
  {
    StartsAt(s, "?+");
  }

  lemma Suffix(s: string, after: string, marked: seq<bool>)
    requires s != "" && Clean(after, false)
    requires s[0] == '?' ==> after == "" || after[0] != '+'
    requires marked == [] || s[0] == '?' || marked[|marked| - 1]
    ensures Scan(after, marked, false, false) == Scan(after[SuffixLen(after)..], marked, false, false)
    ensures Clean(after[SuffixLen(after)..], false)
  {
    if SuffixLen(after) > 0 {
      assert Mark(marked, StartsRepetition(after[0])) == marked;
    } else {
      assert after[0..] == after;
    }
  }

  lemma CountIsInert(s: string)
    requires s != "" && CountLen(s) > 0
    ensures forall i :: 0 <= i < CountLen(s) - 1 ==> Inert(s[1..][i])
  {
    var lo := Leading(s[1..], IsDigit);
    forall i | 0 <= i < CountLen(s) - 1 ensures Inert(s[1..][i]) {
      assert i < lo ==> IsDigit(s[1..][i]);
      if i > lo && s[1 + lo] == ',' {
        var hi := Leading(s[2 + lo..], IsDigit);
        assert i - lo - 1 < hi ==> IsDigit(s[2 + lo..][i - lo - 1]);
      }
    }
  }

  lemma OverPrefix(s: string, stack: seq<bool>)
    requires Clean(s, false) && PrefixLen(s).Some?
    ensures Scan(s, stack, false, false) == Scan(s[PrefixLen(s).value..], stack, false, false)
    ensures Clean(s[PrefixLen(s).value..], false)
  {
    hide Scan, Clean;
    var n := PrefixLen(s).value;
    if Starts(s, "?(") {
      OverCondition(s, stack);
    } else {
      PrefixIsInert(s);
      OverInert(s, n, stack);
    }
  }

  lemma PrefixIsInert(s: string)
    requires PrefixLen(s).Some? && !Starts(s, "?(")
    ensures forall i :: 0 <= i < PrefixLen(s).value ==> Inert(s[i])
  {
    var n := PrefixLen(s).value;
    if Starts(s, "?P<") {
      assert s[..3] == "?P<" && s[0] == '?' && s[1] == 'P' && s[2] == '<';
      forall i | 3 <= i < n - 1 ensures Inert(s[i]) {
        assert IsNameChar(s[3..][i - 3]);
      }
    } else if n > 3 || (n > 0 && IsFlag(s[1])) {
      forall i | 1 <= i < n - 1 ensures Inert(s[i]) {
        assert IsFlag(s[1..][i - 1]);
      }
    }
  }

  /** The test of a conditional group is a group of its own to the scan, without a repetition. */
  lemma OverCondition(s: string, stack: seq<bool>)
    requires Clean(s, false) && PrefixLen(s).Some? && Starts(s, "?(")
    ensures Scan(s, stack, false, false) == Scan(s[PrefixLen(s).value..], stack, false, false)
    ensures Clean(s[PrefixLen(s).value..], false)
  {
    hide Scan, Clean;
    var n := PrefixLen(s).value;
    ConditionIs(s);
    OverInert(s, 1, stack);
    OpenGroup(s[1..], stack);
    assert s[1..][1..] == s[2..];
    OverInert(s[2..], n - 3, stack + [false]);
    assert s[2..][n - 3..] == s[n - 1..];
    CloseEmpty(s[n - 1..], stack);
    assert s[n - 1..][1..] == s[n..];
  }

  lemma ConditionIs(s: string)
    requires PrefixLen(s).Some? && Starts(s, "?(")
    ensures var n := PrefixLen(s).value;
            && n >= 3 && s[0] == '?' && s[1] == '(' && s[n - 1] == ')'
            && forall i :: 0 <= i < n - 3 ==> Inert(s[2..][i])
  {
    StartsAt(s, "?(");
    assert s[..2][1] == '(';
    forall i | 0 <= i < PrefixLen(s).value - 3 ensures Inert(s[2..][i]) {
      assert IsNameChar(s[2..][i]);
    }
  }

  lemma CloseEmpty(s: string, stack: seq<bool>)
    requires s != "" && s[0] == ')'
    ensures Scan(s, stack + [false], false, false) == Scan(s[1..], stack, false, false)
    ensures Clean(s, false) ==> Clean(s[1..], false)
  {
    var open := stack + [false];
    assert open[..|open| - 1] == stack && open[|open| - 1] == false;
  }

  lemma OpenGroup(s: string, stack: seq<bool>)
    requires s != "" && s[0] == '(' && Clean(s, false)
    ensures Scan(s, stack, false, false) == Scan(s[1..], stack + [false], false, false)
    ensures Clean(s[1..], false) && !Starts(s, "(?#") && !VerboseInside(s[1..], false)
  {
    if Starts(s[1..], "?") {
      var flags := s[1..][1..1 + Leading(s[1..][1..], IsFlag)];
      assert 'x' !in flags;
    }
  }

  lemma CloseGroup(s: string, stack: seq<bool>, had: bool)
    requires Starts(s, ")") && Clean(s, false)
    ensures Scan(s, Mark(stack + [false], had), false, false)
            == ((had && Repeats(s[1..])) || Scan(s[1..], Mark(stack, had), false, false))
    ensures Clean(s[1..], false)
  {
    ScanClose(s[1..], stack, had);
    assert [')'] + s[1..] == s;
  }

  /** In clean text a quantifier shows in its first character. */
  lemma RepeatedIsShown(s: string)
    requires Clean(s, false)
    ensures Repeated(PyRead(s, false).0) == Repeats(s)
  {
    hide AfterComment, AfterClass, PrefixLen, VerboseInside, EscapeLen;
    StartsAt(s, "(?#");
  }

  /** Escapes, classes and single characters. */
  function ItemEnd(s: string): (rest: Option<string>)
    requires s != ""
    ensures rest.Some? ==> |rest.value| < |s|
  {
    if s[0] == '\\' then (if EscapeLen(s) == 0 then None else Some(s[EscapeLen(s)..]))
    else if s[0] == '[' then AfterClass(s[1..])
    else Some(s[1..])
  }

  lemma OverItem(s: string, stack: seq<bool>)
    requires s != "" && Clean(s, false) && s[0] != ')' && s[0] != '(' && ItemEnd(s).Some?
    requires s[0] != '\\' && s[0] != '[' ==> QuantLen(s) == 0
    ensures Scan(s, stack, false, false) == Scan(ItemEnd(s).value, stack, false, false) && Clean(ItemEnd(s).value, false)
  {
    if s[0] == '\\' {
      StartsAt(s, "\\N{");
      assert s[1..][1..] == s[2..];
    } else if s[0] == '[' {
      var inside := if Starts(s[1..], "^") then s[1..][1..] else s[1..];
      ClassOpens(s);
      OverClass(inside, stack);
    }
  }

  lemma ClassOpens(s: string)
    requires s != "" && s[0] == '[' && !Starts(s, "[]") && !Starts(s, "[^]")
    ensures Starts(s[1..], "^") <==> |s| > 1 && s[1] == '^'
    ensures !Starts(if Starts(s[1..], "^") then s[1..][1..] else s[1..], "]")
  {
    StartsAt(s, "[]");
    StartsAt(s, "[^]");
    StartsAt(s[1..], "^");
    StartsAt(s[1..], "]");
    StartsAt(if Starts(s[1..], "^") then s[1..][1..] else s[1..], "]");
  }

  lemma ReadsQuantifier(s: string)
    requires s != "" && QuantLen(s) > 0
    ensures var after := s[QuantLen(s)..];
            var (rest, left) := PyRead(after[SuffixLen(after)..], false);
            PyRead(s, false) == (Quant(s[0] != '?', rest), left)
  {
    hide AfterComment, AfterLine, AfterClass, PrefixLen, VerboseInside, EscapeLen, CountLen, QuantLen, SuffixLen;
    QuantifierStarts(s);
    StartsAt(s, "(?#");
  }

  lemma QuantifierStarts(s: string)
    requires s != "" && QuantLen(s) > 0
    ensures s[0] == '*' || s[0] == '+' || s[0] == '?' || s[0] == '{'
  {}

  lemma ReadsItem(s: string)
    requires s != "" && s[0] != ')' && s[0] != '(' && (s[0] != '\\' && s[0] != '[' ==> QuantLen(s) == 0)
    ensures if ItemEnd(s).None? then PyRead(s, false) == (Stop, s)
            else PyRead(s, false) == (Item(PyRead(ItemEnd(s).value, false).0), PyRead(ItemEnd(s).value, false).1)
  {}

  /** One step of the reading, at the parenthesis of a group. */
  lemma GroupStep(s: string)
    requires s != "" && s[0] == '(' && !Starts(s, "(?#") && !VerboseInside(s[1..], false)
    ensures PyRead(s, false) == if PrefixLen(s[1..]).None? then (Stop, s)
                                else
                                  var (inner, after) := PyRead(s[1..][PrefixLen(s[1..]).value..], false);
                                  if !Starts(after, ")") then (Stop, s)
                                  else (Grp(inner, PyRead(after[1..], false).0), PyRead(after[1..], false).1)
  {
    hide AfterComment, AfterLine, AfterClass, PrefixLen, VerboseInside, EscapeLen, QuantLen, SuffixLen, Starts, IsBlank;
  }

  lemma ReadsGroup(s: string)
    requires s != "" && s[0] == '(' && !Starts(s, "(?#") && !VerboseInside(s[1..], false)
    requires var left := PyRead(s, false).1; left == "" || left[0] == ')'
    ensures PrefixLen(s[1..]).Some?
    ensures var (inner, after) := PyRead(s[1..][PrefixLen(s[1..]).value..], false);
            && Starts(after, ")") && |after| < |s|
            && PyRead(s, false) == (Grp(inner, PyRead(after[1..], false).0), PyRead(after[1..], false).1)
  {
    hide PyRead, PrefixLen, VerboseInside;
    GroupStep(s);
  }

  /** The scan over as much as Python reads at once, whatever is open around it. */
  ghost predicate Agrees(s: string, stack: seq<bool>) {
    var (t, left) := PyRead(s, false);
    && Scan(s, stack, false, false) == (PyNests(t) || Scan(left, Mark(stack, PyRepetitive(t)), false, false))
    && Clean(left, false)
  }

  lemma {:induction false} ScanReads(s: string, stack: seq<bool>)
    requires Clean(s, false)
    requires var left := PyRead(s, false).1; left == "" || left[0] == ')'
    ensures Agrees(s, stack)
    decreases |s|, 1
  {
    hide PyRead, Scan, Clean, Mark, AfterClass, EscapeLen, SuffixLen, PrefixLen, VerboseInside, ItemEnd, QuantLen;
    if s == "" || s[0] == ')' {
      ReadsNothing(s);
      MarkNothing(stack);
    } else if s[0] == '(' {
      GroupReads(s, stack);
    } else if s[0] != '\\' && s[0] != '[' && QuantLen(s) > 0 {
      QuantifierReads(s, stack);
    } else {
      ReadsItem(s);
      OverItem(s, stack);
      ScanReads(ItemEnd(s).value, stack);
    }
  }

  lemma ReadsNothing(s: string)
    requires s == "" || s[0] == ')'
    ensures PyRead(s, false) == (Stop, s)
  {}

  lemma {:induction false} QuantifierReads(s: string, stack: seq<bool>)
    requires Clean(s, false) && s != "" && QuantLen(s) > 0
    requires var left := PyRead(s, false).1; left == "" || left[0] == ')'
    ensures Agrees(s, stack)
    decreases |s|, 0
  {
    hide PyRead, Scan, Clean, Mark;
    OverQuantifier(s, stack);
    ReadsQuantifier(s);
    var after := s[QuantLen(s)..];
    var rest := after[SuffixLen(after)..];
    ScanReads(rest, Mark(stack, s[0] != '?'));
    MarkTwice(stack, s[0] != '?', PyRepetitive(PyRead(rest, false).0));
  }

  lemma {:induction false} GroupReads(s: string, stack: seq<bool>)
    requires Clean(s, false) && s != "" && s[0] == '('
    requires var left := PyRead(s, false).1; left == "" || left[0] == ')'
    ensures Agrees(s, stack)
    decreases |s|, 0
  {
    hide PyRead, Scan, Clean, Mark, PrefixLen, VerboseInside;
    OpenGroup(s, stack);
    ReadsGroup(s);
    var body := s[1..][PrefixLen(s[1..]).value..];
    OverPrefix(s[1..], stack + [false]);
    var (inner, after) := PyRead(body, false);
    ScanReads(body, stack + [false]);
    CloseGroup(after, stack, PyRepetitive(inner));
    RepeatedIsShown(after[1..]);
    ScanReads(after[1..], Mark(stack, PyRepetitive(inner)));
    MarkTwice(stack, PyRepetitive(inner), PyRepetitive(PyRead(after[1..], false).0));
  }

  /** What stands between the parentheses of global flags: nothing the scan notes, and no verbose flag. */
  lemma GlobalsAreInert(s: string)
    requires Clean(s, false) && GlobalsLen(s) > 0
    ensures var n := GlobalsLen(s);
            n >= 3 && s[0] == '(' && s[1] == '?' && s[n - 1] == ')' && forall i :: 1 <= i < n - 1 ==> Inert(s[i]) && s[i] != 'x'
  {
    hide Clean, IsFlag, Inert, Leading;
    assert s[0] == '(' && s[1] == '?' && s[1..][1..] == s[2..];
    NoVerboseFlag(s);
    var n := GlobalsLen(s);
    forall i | 1 <= i < n - 1 ensures Inert(s[i]) && s[i] != 'x' {
      FlagIsInert(s[i]);
      assert i > 1 ==> IsFlag(s[2..][i - 2]) && s[2..][..n - 3][i - 2] == s[i];
    }
  }

  lemma NoVerboseFlag(s: string)
    requires Clean(s, false) && |s| >= 2 && s[0] == '(' && s[1] == '?'
    ensures 'x' !in s[2..][..Leading(s[2..], IsFlag)]
  {
    hide Leading, IsFlag, CountLen;
    assert s[1..][1..] == s[2..];
    assert Starts(s[1..], "?");
    assert s[1..][1..1 + Leading(s[1..][1..], IsFlag)] == s[2..][..Leading(s[2..], IsFlag)];
  }

  lemma FlagIsInert(c: char)
    ensures IsFlag(c) || c == '?' ==> Inert(c)
  {}

  lemma OverGlobals(s: string)
    requires Clean(s, false) && GlobalsLen(s) > 0
    ensures var n := GlobalsLen(s);
            && Scan(s, [], false, false) == Scan(s[n..], [], false, false) && Clean(s[n..], false) && 'x' !in s[..n]
  {
    hide GlobalsLen, Clean, Scan, Inert;
    var n := GlobalsLen(s);
    GlobalsAreInert(s);
    OpenGroup(s, []);
    OverInert(s[1..], n - 2, [false]);
    assert s[1..][n - 2..] == s[n - 1..] && [] + [false] == [false];
    CloseEmpty(s[n - 1..], []);
    assert s[n - 1..][1..] == s[n..];
  }

  /** Main result. On every clean pattern that Python reads to its end, the scan refuses exactly those in
    * which some repeated group, as Python reads it, contains a repetition. */
  lemma {:induction false} CleanPatternsAreJudgedRight(s: string)
    requires Clean(s, false) && Readable(s)
    ensures Scan(s, [], false, false) <==> NestsInPython(s)
    decreases |s|
  {
    hide Scan, Clean, PyRead, GlobalsLen;
    NothingSkipped(s);
    if GlobalsLen(s) == 0 {
      ScanReads(s, []);
      ScanOfNothing(Mark([], PyRepetitive(PyRead(s, false).0)));
    } else {
      OverGlobals(s);
      CleanPatternsAreJudgedRight(s[GlobalsLen(s)..]);
    }
  }

  lemma NothingSkipped(s: string)
    requires Clean(s, false)
    ensures AfterSkip(s, false).None?
  {
    StartsAt(s, "(?#");
  }

  lemma ScanOfNothing(stack: seq<bool>)
    ensures !Scan("", stack, false, false)
  {}
}
