/** Which files the INI reader reads to their end, which make it undefined, and which it never finishes. */
module IniOutcomes {
  import opened CStrings
  import opened Prefixes
  import opened EnvExpansion
  import opened IniFile
  import opened Wrappers

  /** The lines of a file, separated by line feeds. */
  function Lines(text: string): (ls: seq<string>)
    ensures ls != []
    decreases |text|
  {
    var k := Find(text, LF);
    if k == |text| then [text] else [text[..k]] + Lines(text[k + 1..])
  }

  predicate TooLong(line: string) { |line| >= BUFFER_SIZE }

  /** What the reader sees of a line: no more than the buffer takes, and nothing behind a NUL. */
  function Seen(line: string): string {
    UpTo(if TooLong(line) then line[..BUFFER_SIZE - 1] else line, NUL)
  }

  /** A header with nothing but white space behind its bracket. */
  predicate BareHeader(line: string) {
    IsHeader(line) && forall i :: 1 <= i < |line| ==> IsSpace(line[i])
  }

  predicate IsEntry(line: string) { '=' in line && !IsHeader(line) && !IsComment(line) }

  /** Line i is a bare header, or an entry without a header before it; inside says that reading starts inside a
      section. */
  predicate Faulty(ls: seq<string>, inside: bool, i: nat)
    requires i < |ls|
  {
    || BareHeader(Seen(ls[i]))
    || (IsEntry(Seen(ls[i])) && !inside && forall j :: 0 <= j < i ==> !IsHeader(Seen(ls[j])))
  }

  /** Every line fits the buffer and none is faulty. */
  predicate Readable(ls: seq<string>, inside: bool) {
    forall i :: 0 <= i < |ls| ==> !TooLong(ls[i]) && !Faulty(ls, inside, i)
  }

  /** Line i does not fit, and no line up to it is faulty. */
  predicate SticksAt(ls: seq<string>, inside: bool, i: nat) {
    i < |ls| && TooLong(ls[i]) && forall j :: 0 <= j <= i ==> !Faulty(ls, inside, j)
  }

  /** Line i is faulty, and every line before it fits. */
  predicate BreaksAt(ls: seq<string>, inside: bool, i: nat) {
    i < |ls| && Faulty(ls, inside, i) && forall j :: 0 <= j < i ==> !TooLong(ls[j])
  }

  lemma LinesUnfold(text: string)
    ensures var k := Find(text, LF);
            Lines(text) == if k == |text| then [text] else [text[..k]] + Lines(text[k + 1..])
  {
    hide Find;
  }

  lemma FirstSeen(text: string)
    ensures var k := Find(text, LF);
            && Seen(Lines(text)[0]) == UpTo(if k < BUFFER_SIZE then text[..k] else text[..BUFFER_SIZE - 1], NUL)
            && (TooLong(Lines(text)[0]) <==> k >= BUFFER_SIZE)
  {
    LinesUnfold(text);
    hide Find, UpTo, Lines;
    var k := Find(text, LF);
    assert Lines(text)[0] == text[..k];
    if k >= BUFFER_SIZE {
      assert text[..k][..BUFFER_SIZE - 1] == text[..BUFFER_SIZE - 1];
    }
  }

  /** When a line is undefined, and whether it leaves the reader inside a section. */
  lemma StepDefined(env: Env, st: Store, line: string)
    ensures Step(env, st, line).None? <==> BareHeader(line) || (IsEntry(line) && st.current.None?)
    ensures Step(env, st, line).Some? ==>
              (Step(env, st, line).value.current.Some? <==> st.current.Some? || IsHeader(line))
  {
    var k := Find(line, '=');
    assert '=' in line <==> k < |line| by {
      if k == |line| { assert line[..k] == line; }
    }
    hide Find, Expand, FirstWord;
    if IsHeader(line) {
      var n := LastVisible(line);
      assert n == 0 <==> BareHeader(line);
    }
  }

  /** Behind a first line that is not faulty the same lines are faulty. */
  lemma FaultyShift(first: string, ls: seq<string>, inside: bool, i: nat)
    requires i < |ls| && !Faulty([first] + ls, inside, 0)
    ensures Faulty([first] + ls, inside, i + 1) <==> Faulty(ls, inside || IsHeader(Seen(first)), i)
  {
    hide Seen, BareHeader, IsEntry, IsHeader;
    var all := [first] + ls;
    assert all[0] == first && forall j :: 0 <= j < |ls| ==> all[j + 1] == ls[j];
  }

  /** The lines are as an outcome says. */
  ghost predicate Shows(outcome: Outcome, ls: seq<string>, inside: bool) {
    match outcome
    case Loaded(_) => Readable(ls, inside)
    case Stuck => exists i: nat :: SticksAt(ls, inside, i)
    case Undefined => exists i: nat :: BreaksAt(ls, inside, i)
  }

  /** What the reader does says what the lines are. */
  lemma {:induction false} OutcomeShows(env: Env, st: Store, text: string)
    ensures Shows(ParseText(env, st, text), Lines(text), st.current.Some?)
    decreases |text|
  {
    LinesUnfold(text);
    FirstSeen(text);
    hide *;
    var k, ls := Find(text, LF), Lines(text);
    var next := Step(env, st, Seen(ls[0]));
    ParseUnfold(env, st, text);
    FirstFaulty(env, st, ls);
    if next.None? || k >= BUFFER_SIZE || k == |text| {
      ShowsFirst(ParseText(env, st, text), ls, st.current.Some?);
    } else {
      OutcomeShows(env, next.value, text[k + 1..]);
      ShowsMore(ParseText(env, st, text), ls[0], Lines(text[k + 1..]), st.current.Some?);
    }
  }

  lemma FirstFaulty(env: Env, st: Store, ls: seq<string>)
    requires ls != []
    ensures var next := Step(env, st, Seen(ls[0]));
            && (next.None? <==> Faulty(ls, st.current.Some?, 0))
            && (next.Some? ==> (next.value.current.Some? <==> st.current.Some? || IsHeader(Seen(ls[0]))))
  {
    StepDefined(env, st, Seen(ls[0]));
    hide Step, Seen, BareHeader, IsEntry, IsHeader;
  }

  /** The first line decides. */
  lemma ShowsFirst(outcome: Outcome, ls: seq<string>, inside: bool)
    requires ls != []
    requires match outcome
             case Loaded(_) => |ls| == 1 && !TooLong(ls[0]) && !Faulty(ls, inside, 0)
             case Stuck => TooLong(ls[0]) && !Faulty(ls, inside, 0)
             case Undefined => Faulty(ls, inside, 0)
    ensures Shows(outcome, ls, inside)
  {
    hide Faulty, TooLong;
    assert outcome.Stuck? ==> SticksAt(ls, inside, 0);
    assert outcome.Undefined? ==> BreaksAt(ls, inside, 0);
  }

  /** The first line decides nothing. */
  lemma ShowsMore(outcome: Outcome, first: string, rest: seq<string>, inside: bool)
    requires !TooLong(first) && !Faulty([first] + rest, inside, 0)
    requires Shows(outcome, rest, inside || IsHeader(Seen(first)))
    ensures Shows(outcome, [first] + rest, inside)
  {
    MoreLines(first, rest, inside);
    hide Readable, SticksAt, BreaksAt, Faulty, TooLong, IsHeader, Seen;
    var all, inside' := [first] + rest, inside || IsHeader(Seen(first));
    if i: nat :| outcome.Stuck? && SticksAt(rest, inside', i) { assert SticksAt(all, inside, i + 1); }
    if i: nat :| outcome.Undefined? && BreaksAt(rest, inside', i) { assert BreaksAt(all, inside, i + 1); }
  }

  /** The three cases for the remaining lines carry over to all lines. */
  lemma MoreLines(first: string, rest: seq<string>, inside: bool)
    requires !TooLong(first) && !Faulty([first] + rest, inside, 0)
    ensures var all, inside' := [first] + rest, inside || IsHeader(Seen(first));
            && (Readable(rest, inside') ==> Readable(all, inside))
            && (forall i: nat :: SticksAt(rest, inside', i) ==> SticksAt(all, inside, i + 1))
            && (forall i: nat :: BreaksAt(rest, inside', i) ==> BreaksAt(all, inside, i + 1))
  {
    var all, inside' := [first] + rest, inside || IsHeader(Seen(first));
    forall i | 0 <= i < |rest| ensures Faulty(all, inside, i + 1) <==> Faulty(rest, inside', i) {
      FaultyShift(first, rest, inside, i);
    }
    hide Faulty, TooLong, IsHeader, Seen;
    assert all[0] == first;
    assert forall j :: 0 < j < |all| ==>
      all[j] == rest[j - 1] && Faulty(all, inside, j) == Faulty(rest, inside', j - 1);
  }

  /** Exactly which files are read to their end, which are never finished, and which run into undefined behaviour.
      In a file that is both, what comes first decides, and a line that is both too long and faulty is undefined. */
  lemma OutcomeIff(env: Env, st: Store, text: string)
    ensures var ls, inside := Lines(text), st.current.Some?;
            && (ParseText(env, st, text).Loaded? <==> Readable(ls, inside))
            && (ParseText(env, st, text).Stuck? <==> exists i: nat :: SticksAt(ls, inside, i))
            && (ParseText(env, st, text).Undefined? <==> exists i: nat :: BreaksAt(ls, inside, i))
  {
    OutcomeShows(env, st, text);
    hide ParseText, Lines, Faulty, TooLong;
    var ls, inside := Lines(text), st.current.Some?;
    forall i: nat, j: nat | SticksAt(ls, inside, i) ensures !BreaksAt(ls, inside, j) {
    }
  }

  // ----- Single lines -----

  lemma OneLineOnly(text: string)
    requires LF !in text
    ensures Lines(text) == [text]
  {
    assert text[..|text|] == text;
    FindIs(text, LF, |text|);
  }

  /** A single line without NUL sticks exactly if it has 512 characters or more and is not undefined. */
  lemma OneLineOutcome(env: Env, st: Store, line: string)
    requires LF !in line && !IsHeader(line) && '=' !in line
    ensures ParseText(env, st, line).Stuck? <==> |line| >= BUFFER_SIZE
    ensures ParseText(env, st, line).Loaded? <==> |line| < BUFFER_SIZE
  {
    var ls, inside := [line], st.current.Some?;
    OneLineOnly(line);
    OutcomeIff(env, st, line);
    assert Seen(line) <= line;
    assert !Faulty(ls, inside, 0);
    if TooLong(line) { assert SticksAt(ls, inside, 0); }
  }

  function Row(n: nat): (s: string)
    ensures |s| == n && forall c :: c in s ==> c == 'x'
  {
    seq(n, i => 'x')
  }

  /** For one: 512 times the letter x is never finished, 511 times is read. */
  lemma LongLineSticks(env: Env, st: Store)
    ensures ParseText(env, st, Row(512)) == Stuck && ParseText(env, st, Row(511)).Loaded?
  {
    OneLineOutcome(env, st, Row(512));
    OneLineOutcome(env, st, Row(511));
  }

  /** A single line that is a bare header, or an entry outside every section, is undefined. */
  lemma OneLineUndefined(env: Env, sections: Sections, line: string)
    requires LF !in line && NUL !in line && !TooLong(line) && (BareHeader(line) || IsEntry(line))
    ensures ParseText(env, Store(sections, None), line) == Undefined
  {
    OneLineOnly(line);
    OutcomeIff(env, Store(sections, None), line);
    UpToWhole(line, NUL);
    assert Seen(line) == line;
    hide ParseText, Lines, Seen, BareHeader, IsEntry;
    assert BreaksAt([line], false, 0);
  }

  /** A lone bracket, and an entry before the first header, are undefined. */
  lemma UndefinedLines(env: Env, sections: Sections)
    ensures ParseText(env, Store(sections, None), "[") == Undefined
    ensures ParseText(env, Store(sections, None), "a=b") == Undefined
  {
    hide ParseText;
    var entry := "a=b";
    assert entry[1] == '=';
    OneLineUndefined(env, sections, "[");
    OneLineUndefined(env, sections, entry);
  }

  lemma ParseUnfold(env: Env, st: Store, text: string)
    ensures var k := Find(text, LF);
            var next := Step(env, st, Seen(Lines(text)[0]));
            ParseText(env, st, text) ==
            if next.None? then Undefined
            else if k >= BUFFER_SIZE then Stuck
            else if k == |text| then Loaded(next.value)
            else ParseText(env, next.value, text[k + 1..])
  {
    FirstSeen(text);
    hide Step, Find, UpTo, Seen, Lines;
  }
}
