/** What the token comparison decides: equality of normalised texts. */
module CenaNormalForm {
  import opened CFile
  import opened Texts
  import opened CenaValidator
  import Prefixes

  type Word = seq<Byte>
  type Line = seq<Word>

  // ----- The normal form -----

  /** Lines split at LF, CR or CRLF. */
  function RawLines(d: Text): (ls: seq<Text>)
    ensures ls != []
  {
    if d == [] then [[]]
    else
      var front, b := d[..|d| - 1], d[|d| - 1];
      var ls := RawLines(front);
      if b == LF then (if EndsWithCr(front) then ls else ls + [[]])
      else if b == CR then ls + [[]]
      else ls[..|ls| - 1] + [ls[|ls| - 1] + [b]]
  }

  predicate EndsWithCr(d: Text) { d != [] && d[|d| - 1] == CR }

  predicate EndsWithSpace(d: Text) { d != [] && d[|d| - 1] == SPACE }

  /** A byte joins a line's words, opening a new word if there is none to extend or a gap before it. */
  function GrowLine(ws: Line, gap: bool, b: Byte): (r: Line)
    ensures r != []
  {
    if ws == [] || gap then ws + [[b]] else ws[..|ws| - 1] + [ws[|ws| - 1] + [b]]
  }

  /** The words of a line: its maximal runs of bytes other than spaces. */
  function Words(line: Text): Line {
    if line == [] then []
    else
      var front, b := line[..|line| - 1], line[|line| - 1];
      if b == SPACE then Words(front) else GrowLine(Words(front), EndsWithSpace(front), b)
  }

  function AllWords(ls: seq<Text>): (r: seq<Line>)
    ensures |r| == |ls|
  {
    if ls == [] then [] else AllWords(ls[..|ls| - 1]) + [Words(ls[|ls| - 1])]
  }

  function DropTrailingEmpty(ls: seq<Line>): seq<Line> {
    if ls != [] && ls[|ls| - 1] == [] then DropTrailingEmpty(ls[..|ls| - 1]) else ls
  }

  /** The words of each line, up to the last line that has any. */
  function NormalForm(d: Text): seq<Line> {
    DropTrailingEmpty(AllWords(RawLines(d)))
  }

  // ----- Tokens spell the normal form -----

  function Empties(n: nat): seq<Line> { if n == 0 then [] else Empties(n - 1) + [[]] }

  /** What a token adds to the lines spelt before it. */
  function Extend(r: seq<Line>, t: Token): seq<Line> {
    if t.breaks > 0 then r + Empties(t.breaks - 1) + [[[t.c]]]
    else if r == [] || r[|r| - 1] == [] then r
    else r[..|r| - 1] + [GrowLine(r[|r| - 1], t.gap, t.c)]
  }

  /** The lines a token stream spells. */
  function Spell(ts: seq<Token>): seq<Line> {
    if ts == [] then [] else Extend(Spell(ts[..|ts| - 1]), ts[|ts| - 1])
  }

  /** Streams as the scanner makes them. */
  predicate WellFormed(ts: seq<Token>) {
    && (ts != [] ==> ts[0].breaks > 0)
    && (forall i :: 0 <= i < |ts| && ts[i].gap ==> ts[i].breaks == 0)
  }

  /** The last word of the last line is there. */
  predicate EndsInWord(r: seq<Line>) {
    r != [] && r[|r| - 1] != [] && (var l := r[|r| - 1]; l[|l| - 1] != [])
  }

  lemma {:induction false} SpellEndsInWord(ts: seq<Token>)
    requires WellFormed(ts) && ts != []
    ensures EndsInWord(Spell(ts))
  {
    var front := ts[..|ts| - 1];
    if front != [] {
      SpellEndsInWord(front);
    }
  }

  /** The line being scanned. */
  function Current(d: Text): Text { var ls := RawLines(d); ls[|ls| - 1] }

  /** What the scanner's registers say about the text read so far. */
  ghost predicate Tracks(d: Text, s: Scan) {
    && WellFormed(s.tokens)
    && (s.tokens == [] ==> s.breaks > 0)
    && (s.gap ==> s.breaks == 0)
    && s.afterCr == EndsWithCr(d) && (s.afterCr ==> s.breaks > 0)
    && AllWords(RawLines(d)) == Spell(s.tokens) + Empties(s.breaks)
    && (s.breaks > 0 ==> Words(Current(d)) == [])
    && (s.breaks == 0 ==> Words(Current(d)) != [] && s.gap == EndsWithSpace(Current(d)))
  }

  lemma AllWordsAppend(ls: seq<Text>, l: Text)
    ensures AllWords(ls + [l]) == AllWords(ls) + [Words(l)]
  {
    assert (ls + [l])[..|ls|] == ls;
  }

  lemma WordsAppend(l: Text, b: Byte)
    ensures Words(l + [b]) == if b == SPACE then Words(l) else GrowLine(Words(l), EndsWithSpace(l), b)
  {
    assert (l + [b])[..|l|] == l;
  }

  lemma RawLinesAppend(d: Text, b: Byte)
    ensures RawLines(d + [b]) ==
            if b == LF && EndsWithCr(d) then RawLines(d)
            else if b == LF || b == CR then RawLines(d) + [[]]
            else var ls := RawLines(d); ls[..|ls| - 1] + [ls[|ls| - 1] + [b]]
    ensures EndsWithCr(d + [b]) <==> b == CR
  {
    assert (d + [b])[..|d|] == d;
  }

  /** The words of all lines when the last one grows. */
  lemma AllWordsReplaceLast(ls: seq<Text>, l: Text)
    requires ls != []
    ensures AllWords(ls[..|ls| - 1] + [l]) == AllWords(ls)[..|ls| - 1] + [Words(l)]
  {
    AllWordsAppend(ls[..|ls| - 1], l);
  }

  /** The LF of a CRLF changes nothing. */
  lemma FeedLfAfterCr(d: Text, s: Scan)
    requires Tracks(d, s) && EndsWithCr(d)
    ensures Tracks(d + [LF], Feed(s, LF))
  {
    RawLinesAppend(d, LF);
    hide RawLines, AllWords, Words, Spell, Empties, WellFormed, EndsWithCr;
  }

  lemma FeedBreak(d: Text, s: Scan, b: Byte)
    requires Tracks(d, s) && ((b == LF && !EndsWithCr(d)) || b == CR)
    ensures Tracks(d + [b], Feed(s, b))
  {
    NewLine(d, b, s.tokens, s.breaks);
    hide RawLines, AllWords, Words, Spell, Empties, WellFormed, EndsWithCr, EndsWithSpace, Current;
  }

  lemma NewLine(d: Text, b: Byte, ts: seq<Token>, n: nat)
    requires (b == LF && !EndsWithCr(d)) || b == CR
    requires AllWords(RawLines(d)) == Spell(ts) + Empties(n)
    ensures AllWords(RawLines(d + [b])) == Spell(ts) + Empties(n + 1)
    ensures Words(Current(d + [b])) == [] && EndsWithCr(d + [b]) == (b == CR)
  {
    RawLinesAppend(d, b);
    AllWordsAppend(RawLines(d), []);
    hide RawLines, AllWords, Spell;
    assert Words([]) == [];
    assert Empties(n + 1) == Empties(n) + [[]];
  }

  lemma FeedSpace(d: Text, s: Scan)
    requires Tracks(d, s)
    ensures Tracks(d + [SPACE], Feed(s, SPACE))
  {
    RawLinesAppend(d, SPACE);
    AllWordsReplaceLast(RawLines(d), Current(d) + [SPACE]);
    WordsAppend(Current(d), SPACE);
    hide RawLines, Words, Spell;
    var r := AllWords(RawLines(d));
    assert r == r[..|r| - 1] + [Words(Current(d))];
  }

  lemma FeedVisible(d: Text, s: Scan, b: Byte)
    requires Tracks(d, s) && b != LF && b != CR && b != SPACE
    ensures Tracks(d + [b], Feed(s, b))
  {
    RawLinesAppend(d, b);
    VisibleSpelt(d, s, b);
    CurrentGrows(d, b);
    WordsAppend(Current(d), b);
    hide RawLines, AllWords, Words, Spell, Current, EndsWithCr, GrowLine;
    assert !EndsWithSpace(Current(d + [b]));
    assert Empties(0) == [];
  }

  lemma CurrentGrows(d: Text, b: Byte)
    requires b != LF && b != CR
    ensures Current(d + [b]) == Current(d) + [b]
  {
    RawLinesAppend(d, b);
    hide RawLines;
  }

  lemma VisibleSpelt(d: Text, s: Scan, b: Byte)
    requires Tracks(d, s) && b != LF && b != CR && b != SPACE
    ensures AllWords(RawLines(d + [b])) == Spell(s.tokens + [Token(s.breaks, s.gap, b)])
  {
    LastWords(d);
    GrownWords(d, b);
    SpellAppend(s.tokens, Token(s.breaks, s.gap, b));
    hide RawLines, AllWords, Words, Spell, Current, GrowLine, Extend, WellFormed, EndsWithCr, EndsWithSpace, Empties;
    var ws := Words(Current(d));
    SpeltBy(AllWords(RawLines(d)), Spell(s.tokens), Token(s.breaks, s.gap, b), ws, EndsWithSpace(Current(d)));
  }

  lemma LastWords(d: Text)
    ensures var r := AllWords(RawLines(d)); r != [] && r[|r| - 1] == Words(Current(d))
  {
  }

  lemma GrownWords(d: Text, b: Byte)
    requires b != LF && b != CR && b != SPACE
    ensures var r := AllWords(RawLines(d));
            && r != []
            && AllWords(RawLines(d + [b])) ==
               r[..|r| - 1] + [GrowLine(Words(Current(d)), EndsWithSpace(Current(d)), b)]
  {
    RawLinesAppend(d, b);
    AllWordsReplaceLast(RawLines(d), Current(d) + [b]);
    WordsAppend(Current(d), b);
    hide RawLines, AllWords, Words, GrowLine, EndsWithSpace;
  }

  /** The new token continues the spelling as the new byte continues the words of the last line. */
  lemma SpeltBy(r: seq<Line>, spelt: seq<Line>, t: Token, ws: Line, spaced: bool)
    requires r != [] && r == spelt + Empties(t.breaks) && r[|r| - 1] == ws
    requires t.breaks > 0 ==> ws == []
    requires t.breaks == 0 ==> ws != [] && t.gap == spaced
    ensures r[..|r| - 1] + [GrowLine(ws, spaced, t.c)] == Extend(spelt, t)
  {
    if t.breaks > 0 {
      assert Empties(t.breaks) == Empties(t.breaks - 1) + [[]];
      assert r[..|r| - 1] == spelt + Empties(t.breaks - 1);
      assert [] + [[t.c]] == [[t.c]];
    } else {
      assert r == spelt;
    }
  }

  lemma SpellAppend(ts: seq<Token>, t: Token)
    ensures Spell(ts + [t]) == Extend(Spell(ts), t)
  {
    assert (ts + [t])[..|ts|] == ts;
  }

  lemma {:induction false} ScanTracks(d: Text)
    ensures Tracks(d, ScanText(d))
  {
    if d == [] {
      assert Empties(1) == [[]];
      assert AllWords([[]]) == [Words([])] by { AllWordsAppend([], []); }
    } else {
      var front, b := d[..|d| - 1], d[|d| - 1];
      assert d == front + [b];
      hide Tracks, Feed;
      ScanTracks(front);
      if b == LF && EndsWithCr(front) { FeedLfAfterCr(front, ScanText(front)); }
      else if b == LF || b == CR { FeedBreak(front, ScanText(front), b); }
      else if b == SPACE { FeedSpace(front, ScanText(front)); }
      else { FeedVisible(front, ScanText(front), b); }
    }
  }

  lemma {:induction false} DropEmpties(r: seq<Line>, n: nat)
    requires r == [] || r[|r| - 1] != []
    ensures DropTrailingEmpty(r + Empties(n)) == r
  {
    if n == 0 {
      assert r + Empties(0) == r;
    } else {
      var ls := r + Empties(n);
      assert ls[..|ls| - 1] == r + Empties(n - 1);
      DropEmpties(r, n - 1);
    }
  }

  /** The normal form is what the token stream spells. */
  lemma SpellIsNormalForm(d: Text)
    ensures Spell(ScanText(d).tokens) == NormalForm(d) && WellFormed(ScanText(d).tokens)
  {
    var s := ScanText(d);
    ScanTracks(d);
    if s.tokens != [] { SpellEndsInWord(s.tokens); }
    DropEmpties(Spell(s.tokens), s.breaks);
  }

  // ----- The spelling determines the stream -----

  predicate OneByte(l: Line) { |l| == 1 && |l[0]| == 1 }

  /** What the spelling f of the earlier tokens and the last token make of the last line. */
  ghost predicate Added(f: seq<Line>, t: Token, r: seq<Line>) {
    && EndsInWord(r)
    && (var l := r[|r| - 1];
        var w := l[|l| - 1];
        && w[|w| - 1] == t.c
        && (t.breaks > 0 <==> OneByte(l))
        && (t.breaks > 0 ==> !t.gap && r[..|r| - 1] == f + Empties(t.breaks - 1) && (f == [] || EndsInWord(f)))
        && (t.breaks == 0 ==>
              && f != [] && r[..|r| - 1] == f[..|f| - 1]
              && f[|f| - 1] == (if t.gap then l[..|l| - 1] else l[..|l| - 1] + [w[..|w| - 1]])
              && (t.gap <==> |w| == 1)))
  }

  /** What can come before a token. */
  ghost predicate Continues(f: seq<Line>, t: Token) {
    if t.breaks > 0 then !t.gap && (f == [] || EndsInWord(f)) else EndsInWord(f)
  }

  lemma AddedInLine(f: seq<Line>, t: Token)
    requires t.breaks == 0 && EndsInWord(f)
    ensures Added(f, t, Extend(f, t))
  {
    var r := Extend(f, t);
    var lf := f[|f| - 1];
    assert lf[..|lf| - 1] + [lf[|lf| - 1]] == lf;
    var l := r[|r| - 1];
    assert r[..|r| - 1] == f[..|f| - 1];
    if t.gap {
      assert l[..|l| - 1] == lf;
    } else {
      assert l[..|l| - 1] == lf[..|lf| - 1];
      assert l[|l| - 1][..|lf[|lf| - 1]|] == lf[|lf| - 1];
    }
  }

  lemma AddedOnNewLine(f: seq<Line>, t: Token)
    requires t.breaks > 0 && !t.gap && (f == [] || EndsInWord(f))
    ensures Added(f, t, Extend(f, t))
  {
    var r := Extend(f, t);
    assert r[..|r| - 1] == f + Empties(t.breaks - 1);
  }

  lemma AddedByToken(f: seq<Line>, t: Token)
    requires Continues(f, t)
    ensures Added(f, t, Extend(f, t))
  {
    hide Added, Extend, EndsInWord;
    if t.breaks > 0 { AddedOnNewLine(f, t); } else { AddedInLine(f, t); }
  }

  /** How the last line shows what the last token was. */
  lemma LastToken(ts: seq<Token>)
    requires WellFormed(ts) && ts != []
    ensures Added(Spell(ts[..|ts| - 1]), ts[|ts| - 1], Spell(ts)) && WellFormed(ts[..|ts| - 1])
  {
    var front, t := ts[..|ts| - 1], ts[|ts| - 1];
    FrontFacts(ts);
    assert ts == front + [t];
    SpellAppend(front, t);
    hide *;
    AddedByToken(Spell(front), t);
  }

  lemma FrontFacts(ts: seq<Token>)
    requires WellFormed(ts) && ts != []
    ensures WellFormed(ts[..|ts| - 1]) && Continues(Spell(ts[..|ts| - 1]), ts[|ts| - 1])
  {
    var front := ts[..|ts| - 1];
    if front == [] {
      assert Spell(front) == [];
    } else {
      SpellEndsInWord(front);
      hide Spell, EndsInWord;
    }
  }

  lemma {:induction false} SpellInjective(a: seq<Token>, b: seq<Token>)
    requires WellFormed(a) && WellFormed(b) && Spell(a) == Spell(b)
    ensures a == b
  {
    if a == [] || b == [] {
      if a != [] { SpellEndsInWord(a); }
      if b != [] { SpellEndsInWord(b); }
    } else {
      var fa, fb, x, y := a[..|a| - 1], b[..|b| - 1], a[|a| - 1], b[|b| - 1];
      LastToken(a);
      LastToken(b);
      SameLastToken(a, b);
      SpellInjective(fa, fb);
      assert a == fa + [x] && b == fb + [y];
    }
  }

  lemma SameLastToken(a: seq<Token>, b: seq<Token>)
    requires WellFormed(a) && WellFormed(b) && Spell(a) == Spell(b) && a != [] && b != []
    ensures a[|a| - 1] == b[|b| - 1] && Spell(a[..|a| - 1]) == Spell(b[..|b| - 1])
  {
    LastToken(a);
    LastToken(b);
    AddedOnce(Spell(a[..|a| - 1]), a[|a| - 1], Spell(b[..|b| - 1]), b[|b| - 1], Spell(a));
  }

  lemma AddedOnce(f: seq<Line>, x: Token, g: seq<Line>, y: Token, r: seq<Line>)
    requires Added(f, x, r) && Added(g, y, r)
    ensures x == y && f == g
  {
    if x.breaks > 0 {
      DropEmpties(f, x.breaks - 1);
      DropEmpties(g, y.breaks - 1);
      EmptiesLength(x.breaks - 1);
      EmptiesLength(y.breaks - 1);
    } else {
      assert f == f[..|f| - 1] + [f[|f| - 1]];
      assert g == g[..|g| - 1] + [g[|g| - 1]];
    }
  }

  lemma {:induction false} EmptiesLength(n: nat)
    ensures |Empties(n)| == n
  {
    if n > 0 { EmptiesLength(n - 1); }
  }

  // ----- The verdict -----

  /** The comparison calls two files identical exactly if their normal forms, up to a first byte 0xFF, agree. */
  lemma IdenticalIff(std: Text, user: Text)
    ensures Judgement(std, user) == IDENTICAL <==> NormalForm(Cut(std)) == NormalForm(Cut(user))
  {
    SpellIsNormalForm(Cut(std));
    SpellIsNormalForm(Cut(user));
    hide NormalForm, Spell, ScanText, WellFormed;
    if Spell(Tokens(std)) == Spell(Tokens(user)) {
      SpellInjective(Tokens(std), Tokens(user));
    }
  }

  /** LONGER and SHORTER say that one token stream goes on where the other ends; every other difference is a
      mismatch. */
  lemma OtherVerdicts(std: Text, user: Text)
    ensures Judgement(std, user) == LONGER <==> Tokens(std) < Tokens(user)
    ensures Judgement(std, user) == SHORTER <==> Tokens(user) < Tokens(std)
    ensures Judgement(std, user) == MISMATCH <==> !(Tokens(std) <= Tokens(user)) && !(Tokens(user) <= Tokens(std))
  {
    hide Tokens;
    var s, u := Tokens(std), Tokens(user);
    assert s <= u && u <= s ==> s == u;
  }

  // ----- Which bytes count for what -----

  /** 10, 13 and 13 10 end a line, and no other byte does. */
  lemma LineEnds(d: Text, b: Byte)
    ensures RawLines(d + [13]) == RawLines(d) + [[]] && RawLines(d + [13] + [10]) == RawLines(d) + [[]]
    ensures d == [] || d[|d| - 1] != 13 ==> RawLines(d + [10]) == RawLines(d) + [[]]
    ensures b != 10 && b != 13 ==>
              var ls := RawLines(d); RawLines(d + [b]) == ls[..|ls| - 1] + [ls[|ls| - 1] + [b]]
  {
    assert (d + [13])[..|d|] == d && (d + [10])[..|d|] == d && (d + [b])[..|d|] == d;
    assert (d + [13] + [10])[..|d| + 1] == d + [13];
  }

  /** 32 separates words, and no other byte does: behind it a byte opens a word, behind another it extends one. */
  lemma WordBytes(line: Text, b: Byte, c: Byte)
    ensures Words(line + [32]) == Words(line) && Words([]) == []
    ensures b != 32 ==> Words([b]) == [[b]] && Words(line + [32] + [b]) == Words(line) + [[b]]
    ensures b != 32 && c != 32 ==>
              var ws := Words(line + [c]); ws != [] && Words(line + [c] + [b]) == ws[..|ws| - 1] + [ws[|ws| - 1] + [b]]
  {
    assert (line + [32])[..|line|] == line && (line + [c])[..|line|] == line;
    assert (line + [32] + [b])[..|line| + 1] == line + [32] && (line + [c] + [b])[..|line| + 1] == line + [c];
    assert [b][..0] == [];
    hide RawLines;
  }

  /** Nothing counts from the first byte 255 on. */
  lemma EndsAtFF(a: Text, b: Text, c: Text)
    requires 255 !in a
    ensures Cut(a) == a && Cut(a + [255] + b) == a
    ensures Judgement(a + [255] + b, a + [255] + c) == IDENTICAL
    ensures forall d :: Judgement(a + [255] + b, d) == Judgement(a, d) && Judgement(d, a + [255] + b) == Judgement(d, a)
  {
    CutIs(a, b);
    CutIs(a, c);
    hide ScanText;
  }

  lemma CutIs(a: Text, b: Text)
    requires 255 !in a
    ensures Cut(a) == a && Cut(a + [255] + b) == a
  {
    var d := a + [255] + b;
    assert d[..|a|] == a && a[..|a|] == a && d[|a|] == 255;
    Prefixes.UpToIs(d, 255, |a|);
    Prefixes.UpToIs(a, 255, |a|);
  }
}
