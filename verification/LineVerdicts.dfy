/** What the line validator's verdicts mean, and exactly when they are the intended ones. */
module LineVerdicts {
  import opened CFile
  import opened Prefixes
  import opened Texts
  import opened LineValidator

  /** The first n lines agree up to trailing white space. */
  predicate SameTrimmed(a: seq<Text>, b: seq<Text>, n: nat) {
    n <= |a| && n <= |b| && forall x :: 0 <= x < n ==> RTrim(a[x]) == RTrim(b[x])
  }

  /** The verdict the comparison is for: trailing space at line ends is ignored and nothing else. */
  function Intended(std: Text, user: Text): Verdict {
    if LineCount(user) < LineCount(std) then SHORTER
    else if LineCount(user) > LineCount(std) then LONGER
    else if SameTrimmed(Lines(std), Lines(user), LineCount(std)) then IDENTICAL
    else MISMATCH
  }

  lemma IdenticalIsEquivalence(a: Text, b: Text, c: Text)
    ensures Judgement(a, a) == IDENTICAL
    ensures Judgement(a, b) == IDENTICAL <==> Judgement(b, a) == IDENTICAL
    ensures Judgement(a, b) == IDENTICAL && Judgement(b, c) == IDENTICAL ==> Judgement(a, c) == IDENTICAL
    ensures Judgement(a, b) == SHORTER <==> Judgement(b, a) == LONGER
  {
    hide LineCount, Lines, Effective;
  }

  // ----- Files without NUL bytes -----

  lemma CountWithoutNul(d: Text)
    requires NUL !in d
    ensures LineCount(d) == Counted(Lines(d))
  {
    UpToIs(d, NUL, |d|);
    assert d[..|d|] == d;
  }

  /** Lines are counted up to the first byte 0. */
  lemma CountStopsAtNul(a: Text, b: Text)
    requires 0 !in a
    ensures LineCount(a + [0] + b) == Counted(Lines(a))
  {
    var d := a + [0] + b;
    assert d[..|a|] == a;
    UpToIs(d, 0, |a|);
  }

  /** On files without NUL bytes IDENTICAL means: equally many lines up to the last one that holds a byte, and
      each pair of these lines agrees in its effective text. */
  lemma IdenticalIff(std: Text, user: Text)
    requires NUL !in std && NUL !in user
    ensures Judgement(std, user) == IDENTICAL <==>
              (Counted(Lines(std)) == Counted(Lines(user)) &&
               forall x | 0 <= x < Counted(Lines(std)) :: Effective(Lines(std)[x]) == Effective(Lines(user)[x]))
    ensures Judgement(std, user) == SHORTER <==> Counted(Lines(user)) < Counted(Lines(std))
    ensures Judgement(std, user) == LONGER <==> Counted(Lines(user)) > Counted(Lines(std))
  {
    CountWithoutNul(std);
    CountWithoutNul(user);
    hide Lines, Effective, LineCount;
  }

  // ----- When the verdict is the intended one -----

  /** A compared line that trims to exactly two bytes. */
  predicate HasPair(d: Text) {
    exists x :: 0 <= x < LineCount(d) && x < |Lines(d)| && |RTrim(Lines(d)[x])| == 2
  }

  lemma IntendedWithoutPairs(std: Text, user: Text)
    requires !HasPair(std) && !HasPair(user)
    ensures Judgement(std, user) == Intended(std, user)
  {
    hide LineCount, Lines, RTrim;
    if LineCount(std) == LineCount(user) {
      forall x | 0 <= x < LineCount(std)
        ensures Effective(Lines(std)[x]) == RTrim(Lines(std)[x]) && Effective(Lines(user)[x]) == RTrim(Lines(user)[x])
      {
      }
    }
  }

  lemma EffectiveOfTrimmed(a: Text, b: Text)
    ensures RTrim(a) == RTrim(b) ==> Effective(a) == Effective(b)
    ensures |RTrim(a)| >= 3 && Effective(a) == Effective(b) ==> RTrim(a) == RTrim(b)
  {
  }

  /** A line that differs from the given one yet has the same effective text, if it trims to two bytes or less. */
  function Confusable(line: Text): Text {
    var t := RTrim(line);
    [if t == [] then SPACE else t[0], if |t| == 2 && t[1] == 122 then 121 else 122]
  }

  lemma ConfusableIsConfused(line: Text)
    requires |RTrim(line)| <= 2 && LF !in line && NUL !in line
    ensures var u := Confusable(line);
            RTrim(u) != RTrim(line) && Effective(u) == Effective(line) && LF !in u && NUL !in u
  {
    var t, u := RTrim(line), Confusable(line);
    RTrimIs(u, 2);
    assert u[..2] == u && u[..1] == [u[0]];
    if |t| >= 1 {
      assert t[0] == line[0] && t[..1] == [t[0]];
      if |t| == 1 {
        RTrimIs(t, 1);
      }
    } else {
      RTrimIs([SPACE], 0);
    }
  }

  lemma {:induction false} JoinWithoutNul(ls: seq<Text>)
    requires ls != [] && forall l :: l in ls ==> NUL !in l
    ensures NUL !in Join(ls)
  {
    if |ls| > 1 { JoinWithoutNul(ls[1..]); }
  }

  lemma {:induction false} LinesWithoutNul(d: Text)
    requires NUL !in d
    ensures forall l :: l in Lines(d) ==> NUL !in l
  {
    var k := FirstNewline(d);
    if k < |d| { LinesWithoutNul(d[k + 1..]); }
  }

  lemma CountedReplaced(ls: seq<Text>, x: nat, u: Text)
    requires x < Counted(ls) && u != []
    ensures Counted(ls[x := u]) == Counted(ls)
  {
    var n, ls' := Counted(ls), ls[x := u];
    assert ls'[n - 1] != [];
    assert forall i :: n <= i < |ls| ==> ls'[i] == [];
  }

  /** The output that is wrongly taken for std: line x replaced by a confusable one. */
  function Fooling(std: Text, x: nat): Text
    requires x < LineCount(std)
  {
    Join(Lines(std)[x := Confusable(Lines(std)[x])])
  }

  /** The fooling output is a text with those lines, equally many of which count. */
  lemma FoolingLines(std: Text, x: nat)
    requires NUL !in std && x < LineCount(std) && |RTrim(Lines(std)[x])| <= 2
    ensures Lines(Fooling(std, x)) == Lines(std)[x := Confusable(Lines(std)[x])]
    ensures LineCount(Fooling(std, x)) == LineCount(std)
  {
    var ls := Lines(std);
    var u := Confusable(ls[x]);
    var ls' := ls[x := u];
    LinesWithoutNul(std);
    LinesHaveNoNewline(std);
    assert ls[x] in ls;
    ConfusableIsConfused(ls[x]);
    forall l | l in ls' ensures LF !in l && NUL !in l {
      assert l == u || l in ls;
    }
    LinesJoin(ls');
    JoinWithoutNul(ls');
    CountWithoutNul(std);
    CountWithoutNul(Fooling(std, x));
    CountedReplaced(ls, x, u);
  }

  lemma FoolingIsAccepted(std: Text, x: nat)
    requires NUL !in std && x < LineCount(std) && |RTrim(Lines(std)[x])| <= 2
    ensures Judgement(std, Fooling(std, x)) == IDENTICAL && Intended(std, Fooling(std, x)) == MISMATCH
  {
    hide Lines, LineCount, Effective, Confusable, RTrim, Fooling;
    var ls := Lines(std);
    LinesWithoutNul(std);
    LinesHaveNoNewline(std);
    assert ls[x] in ls;
    ConfusableIsConfused(ls[x]);
    FoolingLines(std, x);
  }

  /** An answer file is judged as intended against every possible output exactly if each of its compared lines
      trims to at least three bytes. */
  lemma AnswerFileSafeIff(std: Text)
    requires NUL !in std
    ensures (forall user :: Judgement(std, user) == Intended(std, user)) <==>
            (forall x | 0 <= x < LineCount(std) :: |RTrim(Lines(std)[x])| >= 3)
  {
    hide LineCount, Lines, RTrim, Effective;
    if forall x | 0 <= x < LineCount(std) :: |RTrim(Lines(std)[x])| >= 3 {
      forall user ensures Judgement(std, user) == Intended(std, user) {
        if LineCount(std) == LineCount(user) {
          forall x | 0 <= x < LineCount(std)
            ensures Effective(Lines(std)[x]) == Effective(Lines(user)[x]) <==>
                    RTrim(Lines(std)[x]) == RTrim(Lines(user)[x])
          {
            EffectiveOfTrimmed(Lines(std)[x], Lines(user)[x]);
          }
        }
      }
    } else {
      var x :| 0 <= x < LineCount(std) && |RTrim(Lines(std)[x])| < 3;
      FoolingIsAccepted(std, x);
      assert Judgement(std, Fooling(std, x)) != Intended(std, Fooling(std, x));
    }
  }

  lemma PairIs(b: Byte)
    requires b == 50 || b == 51
    ensures Lines([52, b]) == [[52, b]] && RTrim([52, b]) == [52, b] && LineCount([52, b]) == 1
    ensures Effective([52, b]) == RTrim([52])
  {
    FirstNewlineIs([52, b], 2);
    assert [52, b][..2] == [52, b] && [52, b][..1] == [52];
    CountWithoutNul([52, b]);
  }

  /** For one: 42 and 43 are taken for the same output. */
  lemma FortyTwoIsFortyThree()
    ensures Judgement([52, 50], [52, 51]) == IDENTICAL && Intended([52, 50], [52, 51]) == MISMATCH
  {
    hide LineCount, Lines, RTrim, Effective;
    PairIs(50);
    PairIs(51);
    assert RTrim(Lines([52, 50])[0]) != RTrim(Lines([52, 51])[0]);
  }
}
