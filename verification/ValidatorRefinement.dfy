/** The line comparison refines the normalising one on files whose only white space is spaces and line feeds. */
module ValidatorRefinement {
  import opened CFile
  import opened Prefixes
  import opened Texts
  import opened LineVerdicts
  import opened CenaNormalForm
  import LineValidator
  import CenaValidator

  /** White space is only spaces and line feeds, and neither NUL nor 0xFF occurs. */
  ghost predicate Plain(d: Text) {
    NUL !in d && CenaValidator.END !in d && forall b :: b in d && IsSpace(b) ==> b == SPACE || b == LF
  }

  lemma CutPlain(d: Text)
    requires CenaValidator.END !in d
    ensures CenaValidator.Cut(d) == d
  {
    UpToWhole(d, CenaValidator.END);
  }

  /** Without CR the two splittings into lines agree. */
  lemma {:induction false} RawLinesAreLines(d: Text)
    requires CR !in d
    ensures RawLines(d) == Lines(d)
  {
    if d == [] {
      assert FirstNewline(d) == 0;
    } else {
      var front, b := d[..|d| - 1], d[|d| - 1];
      RawLinesAreLines(front);
      assert d == front + [b];
      LinesAppend(front, b);
      RawLinesAppend(front, b);
      hide Lines, RawLines, FirstNewline;
    }
  }

  lemma {:induction false} LinesArePlain(d: Text)
    requires Plain(d)
    ensures forall l :: l in Lines(d) ==> Plain(l) && LF !in l
  {
    var k := FirstNewline(d);
    if k == |d| {
      assert d[..k] == d;
    } else {
      LinesArePlain(d[k + 1..]);
    }
  }

  /** Trailing spaces do not count towards the words. */
  lemma {:induction false} WordsOfTrimmed(l: Text)
    requires Plain(l) && LF !in l
    ensures Words(RTrim(l)) == Words(l)
  {
    if l != [] && IsSpace(l[|l| - 1]) {
      var front, b := l[..|l| - 1], l[|l| - 1];
      assert b in l && b == SPACE;
      WordsOfTrimmed(front);
    }
  }

  /** Empty lines at the end leave no trace. */
  lemma {:induction false} EmptyLinesDropped(ls: seq<Text>, n: nat)
    requires n <= |ls| && forall i :: n <= i < |ls| ==> ls[i] == []
    ensures DropTrailingEmpty(AllWords(ls)) == DropTrailingEmpty(AllWords(ls[..n]))
  {
    if n == |ls| {
      assert ls[..n] == ls;
    } else {
      var front := ls[..|ls| - 1];
      assert front[..n] == ls[..n] && ls == front + [[]];
      AllWordsAppend(front, []);
      EmptyLinesDropped(front, n);
      hide AllWords;
    }
  }

  lemma {:induction false} SameWords(a: seq<Text>, b: seq<Text>, n: nat)
    requires n <= |a| && n <= |b| && forall x :: 0 <= x < n ==> Words(a[x]) == Words(b[x])
    ensures AllWords(a[..n]) == AllWords(b[..n])
  {
    hide *;
    if n == 0 {
      assert a[..n] == b[..n];
    } else {
      SameWords(a, b, n - 1);
      assert a[..n] == a[..n - 1] + [a[n - 1]];
      assert b[..n] == b[..n - 1] + [b[n - 1]];
      AllWordsAppend(a[..n - 1], a[n - 1]);
      AllWordsAppend(b[..n - 1], b[n - 1]);
    }
  }

  /** The normal form needs only the counted lines. */
  lemma NormalFormOfLines(d: Text)
    requires Plain(d)
    ensures NormalForm(CenaValidator.Cut(d)) ==
            DropTrailingEmpty(AllWords(Lines(d)[..LineValidator.LineCount(d)]))
  {
    CutPlain(d);
    assert CR !in d by {
      assert IsSpace(CR);
    }
    RawLinesAreLines(d);
    CountWithoutNul(d);
    EmptyLinesDropped(Lines(d), LineValidator.LineCount(d));
  }

  /** Where trailing space is all that distinguishes two files, the normalising comparison finds no difference. */
  lemma IntendedRefines(std: Text, user: Text)
    requires Plain(std) && Plain(user) && Intended(std, user) == IDENTICAL
    ensures CenaValidator.Judgement(std, user) == IDENTICAL
  {
    hide LineValidator.LineCount, Lines, RTrim, Words, AllWords, Plain, NormalForm, DropTrailingEmpty,
      CenaValidator.Judgement, CenaValidator.Cut;
    var n := LineValidator.LineCount(std);
    LinesArePlain(std);
    LinesArePlain(user);
    NormalFormOfLines(std);
    NormalFormOfLines(user);
    CenaNormalForm.IdenticalIff(std, user);
    var a, b := Lines(std), Lines(user);
    forall x | 0 <= x < n ensures Words(a[x]) == Words(b[x]) {
      assert a[x] in a && b[x] in b;
      WordsOfTrimmed(a[x]);
      WordsOfTrimmed(b[x]);
    }
    SameWords(a, b, n);
  }

  /** The line comparison refines the normalising one. */
  lemma LineComparisonRefines(std: Text, user: Text)
    requires Plain(std) && Plain(user) && !HasPair(std) && !HasPair(user)
    requires LineValidator.Judgement(std, user) == IDENTICAL
    ensures CenaValidator.Judgement(std, user) == IDENTICAL
  {
    IntendedWithoutPairs(std, user);
    IntendedRefines(std, user);
  }

  lemma OneWord(w: Text)
    requires w != [] && LF !in w && CR !in w && SPACE !in w
    ensures RawLines(w) == [w] && Words(w) == [w]
  {
    var front, b := w[..|w| - 1], w[|w| - 1];
    assert b in w && w == front + [b];
    if front != [] {
      OneWord(front);
      assert front[|front| - 1] in w;
    } else {
      assert [] + [b] == [b];
    }
  }

  lemma NormalFormOfWord(w: Text)
    requires w != [] && LF !in w && CR !in w && SPACE !in w && CenaValidator.END !in w
    ensures NormalForm(CenaValidator.Cut(w)) == [[w]]
  {
    CutPlain(w);
    OneWord(w);
    AllWordsAppend([], w);
    assert [] + [w] == [w] && [] + [[w]] == [[w]];
  }

  lemma FormsDiffer(v: Text, w: Text)
    requires v != w
    ensures var f, g: seq<Line> := [[v]], [[w]]; f != g
  {
    var f, g: seq<Line> := [[v]], [[w]];
    assert f[0][0] != g[0][0];
  }

  /** A line of two bytes can break the refinement: 42 and 43 pass the line comparison only. */
  lemma PairsBreakIt()
    ensures Plain([52, 50]) && Plain([52, 51])
    ensures LineValidator.Judgement([52, 50], [52, 51]) == IDENTICAL
    ensures CenaValidator.Judgement([52, 50], [52, 51]) != IDENTICAL
  {
    hide NormalForm, CenaValidator.Judgement, LineValidator.Judgement, Intended;
    var x, y: Text := [52, 50], [52, 51];
    FortyTwoIsFortyThree();
    NormalFormOfWord(x);
    NormalFormOfWord(y);
    CenaNormalForm.IdenticalIff(x, y);
    assert x[1] != y[1];
    FormsDiffer(x, y);
  }

  // ----- Exactly when the refinement holds -----

  lemma WordsOfShort(a: Byte, b: Byte)
    requires b != SPACE
    ensures Words([b]) == [[b]] && Words([a, b]) == if a == SPACE then [[b]] else [[a, b]]
  {
    assert [a, b][..1] == [a] && [a][..0] == [] && [b][..0] == [];
    assert Words([]) == [] && [] + [a] == [a] && [] + [b] == [b];
    WordsAppend([], a);
    WordsAppend([], b);
    WordsAppend([a], b);
    assert [a] + [b] == [a, b];
    hide Words;
  }

  lemma OtherWord(v: Word, w: Word)
    requires v != w
    ensures var a, b: Line := [v], [w]; a != b
  {
    var a, b: Line := [v], [w];
    assert a[0] != b[0];
  }

  /** The trimmed text of a plain line is empty or ends in a visible byte; and so for its confusable line. */
  lemma ConfusableIs(line: Text)
    requires Plain(line) && |RTrim(line)| <= 2
    ensures var t, u := RTrim(line), Confusable(line);
            && |u| == 2 && u[1] != SPACE
            && (t == [] ==> u == [SPACE, u[1]])
            && (|t| == 1 ==> t[0] != SPACE && u == [t[0], u[1]] && t == [t[0]])
            && (|t| == 2 ==> t[1] != SPACE && u == [t[0], u[1]] && u[1] != t[1] && t == [t[0], t[1]])
  {
    var t := RTrim(line);
    assert t != [] ==> !IsSpace(t[|t| - 1]);
    hide RTrim;
  }

  /** The line that is wrongly taken for a short one has words, and other words. */
  lemma ConfusableWords(line: Text)
    requires Plain(line) && LF !in line && |RTrim(line)| <= 2
    ensures Words(Confusable(line)) != [] && Words(Confusable(line)) != Words(line)
  {
    var t, u := RTrim(line), Confusable(line);
    WordsOfTrimmed(line);
    ConfusableIs(line);
    assert Words([]) == [];
    hide Words, RTrim, Confusable;
    WordsOfShort(u[0], u[1]);
    if |t| == 1 {
      WordsOfShort(u[0], t[0]);
      OtherWord(u, t);
    } else if |t| == 2 {
      WordsOfShort(t[0], t[1]);
      OtherWord([u[1]], [t[1]]);
      OtherWord(u, t);
    }
  }

  lemma {:induction false} AllWordsAt(ls: seq<Text>, i: nat)
    requires i < |ls|
    ensures AllWords(ls)[i] == Words(ls[i])
  {
    if i < |ls| - 1 { AllWordsAt(ls[..|ls| - 1], i); }
  }

  /** Only lines without words are dropped. */
  lemma {:induction false} DropKeeps(ls: seq<Line>, i: nat)
    requires i < |ls| && ls[i] != []
    ensures DropTrailingEmpty(ls) <= ls && i < |DropTrailingEmpty(ls)|
  {
    if ls[|ls| - 1] == [] { DropKeeps(ls[..|ls| - 1], i); }
  }

  lemma {:induction false} DropIsPrefix(ls: seq<Line>)
    ensures DropTrailingEmpty(ls) <= ls
  {
    if ls != [] && ls[|ls| - 1] == [] { DropIsPrefix(ls[..|ls| - 1]); }
  }

  lemma DroppedDiffer(a: seq<Line>, b: seq<Line>, i: nat)
    requires i < |a| && i < |b| && a[i] != b[i] && b[i] != []
    ensures DropTrailingEmpty(a) != DropTrailingEmpty(b)
  {
    DropKeeps(b, i);
    DropIsPrefix(a);
    hide DropTrailingEmpty;
    var d, e := DropTrailingEmpty(a), DropTrailingEmpty(b);
    assert e[i] == b[i];
    assert i < |d| ==> d[i] == a[i];
  }

  lemma {:induction false} JoinPlain(ls: seq<Text>)
    requires ls != [] && forall l :: l in ls ==> Plain(l)
    ensures Plain(Join(ls))
  {
    if |ls| == 1 {
      assert ls[0] in ls;
    } else {
      assert ls[0] in ls;
      JoinPlain(ls[1..]);
      hide Join;
      assert Join(ls) == ls[0] + [LF] + Join(ls[1..]) by { JoinUnfold(ls); }
    }
  }

  lemma JoinUnfold(ls: seq<Text>)
    requires |ls| > 1
    ensures Join(ls) == ls[0] + [LF] + Join(ls[1..])
  {
  }

  lemma FoolingPlain(std: Text, x: nat)
    requires Plain(std) && x < LineValidator.LineCount(std)
    ensures Plain(Fooling(std, x))
  {
    LinesArePlain(std);
    var ls := Lines(std);
    var u := Confusable(ls[x]);
    assert ls[x] in ls;
    assert Plain(u) by {
      assert RTrim(ls[x]) != [] ==> RTrim(ls[x])[0] in ls[x];
    }
    hide Lines, Join, Plain, Confusable, LineValidator.LineCount;
    forall l | l in ls[x := u] ensures Plain(l) {
      assert l == u || l in ls;
    }
    JoinPlain(ls[x := u]);
  }

  /** A plain output that the line comparison accepts wrongly, the normalising one refuses. */
  lemma FoolingIsSeen(std: Text, x: nat)
    requires Plain(std) && x < LineValidator.LineCount(std) && |RTrim(Lines(std)[x])| <= 2
    ensures CenaValidator.Judgement(std, Fooling(std, x)) != IDENTICAL
  {
    var user := Fooling(std, x);
    FoolingPlain(std, x);
    FoolingLines(std, x);
    NormalFormOfLines(std);
    NormalFormOfLines(user);
    CenaNormalForm.IdenticalIff(std, user);
    LinesArePlain(std);
    hide Lines, AllWords, NormalForm, DropTrailingEmpty, Fooling, Confusable, Words, RTrim, Plain,
      LineValidator.LineCount, CenaValidator.Judgement;
    var n := LineValidator.LineCount(std);
    var a, b := Lines(std)[..n], Lines(user)[..n];
    assert Lines(std)[x] in Lines(std);
    ConfusableWords(Lines(std)[x]);
    AllWordsAt(a, x);
    AllWordsAt(b, x);
    DroppedDiffer(AllWords(a), AllWords(b), x);
  }

  /** Against a plain answer file the line comparison refines the normalising one on all plain outputs exactly if
      each of the compared lines trims to at least three bytes. */
  lemma RefinementIff(std: Text)
    requires Plain(std)
    ensures (forall user | Plain(user) && LineValidator.Judgement(std, user) == IDENTICAL ::
               CenaValidator.Judgement(std, user) == IDENTICAL) <==>
            (forall x | 0 <= x < LineValidator.LineCount(std) :: |RTrim(Lines(std)[x])| >= 3)
  {
    AnswerFileSafeIff(std);
    assert NUL !in std;
    hide Lines, RTrim, Plain, Fooling, Intended, LineValidator.LineCount, LineValidator.Judgement,
      CenaValidator.Judgement;
    if forall x | 0 <= x < LineValidator.LineCount(std) :: |RTrim(Lines(std)[x])| >= 3 {
      forall user | Plain(user) && LineValidator.Judgement(std, user) == IDENTICAL
        ensures CenaValidator.Judgement(std, user) == IDENTICAL
      {
        IntendedRefines(std, user);
      }
    } else {
      var x :| 0 <= x < LineValidator.LineCount(std) && |RTrim(Lines(std)[x])| < 3;
      FoolingPlain(std, x);
      FoolingIsAccepted(std, x);
      FoolingIsSeen(std, x);
    }
  }
}
