/** Texts as lines separated by line feeds. */
module Texts {
  import opened CFile

  type Text = seq<Byte>

  /** The results a validator may return. */
  datatype Verdict = FUCKED | IDENTICAL | MISMATCH | LONGER | SHORTER

  function FirstNewline(d: Text): (k: nat)
    ensures k <= |d| && LF !in d[..k] && (k < |d| ==> d[k] == LF)
  {
    if d == [] || d[0] == LF then 0
    else
      var k := FirstNewline(d[1..]);
      assert d[..k + 1] == [d[0]] + d[1..][..k];
      1 + k
  }

  function Lines(d: Text): (ls: seq<Text>)
    ensures ls != []
  {
    var k := FirstNewline(d);
    if k == |d| then [d] else [d[..k]] + Lines(d[k + 1..])
  }

  /** The inverse of Lines: lines put together with a line feed between each two. */
  function Join(ls: seq<Text>): Text
    requires ls != []
  {
    if |ls| == 1 then ls[0] else ls[0] + [LF] + Join(ls[1..])
  }

  lemma {:induction false} JoinLines(d: Text)
    ensures Join(Lines(d)) == d
  {
    LinesUnfold(d);
    hide Lines, FirstNewline;
    var k := FirstNewline(d);
    if k < |d| {
      JoinLines(d[k + 1..]);
      JoinOneMore(d[..k], Lines(d[k + 1..]));
      assert d == d[..k] + [LF] + d[k + 1..];
    }
  }

  lemma JoinOneMore(head: Text, tail: seq<Text>)
    requires tail != []
    ensures Join([head] + tail) == head + [LF] + Join(tail)
  {
    assert ([head] + tail)[1..] == tail;
  }

  /** The byte 10 separates lines, and nothing else does. */
  lemma LinesAtTen(line: Text, rest: Text)
    requires 10 !in line
    ensures Lines(line) == [line] && Lines(line + [10] + rest) == [line] + Lines(rest)
  {
    var d := line + [10] + rest;
    assert d[..|line|] == line && d[|line| + 1..] == rest && line[..|line|] == line;
    FirstNewlineIs(d, |line|);
    FirstNewlineIs(line, |line|);
    hide FirstNewline;
  }

  lemma FirstNewlineIs(d: Text, k: nat)
    requires k <= |d| && LF !in d[..k] && (k < |d| ==> d[k] == LF)
    ensures FirstNewline(d) == k
  {
    var n := FirstNewline(d);
    assert forall i :: 0 <= i < k ==> d[..k][i] == d[i];
    assert forall i :: 0 <= i < n ==> d[..n][i] == d[i];
  }

  lemma {:induction false} LinesJoin(ls: seq<Text>)
    requires ls != [] && forall l :: l in ls ==> LF !in l
    ensures Lines(Join(ls)) == ls
  {
    var d := Join(ls);
    if |ls| == 1 {
      assert d[..|d|] == d;
      FirstNewlineIs(d, |d|);
    } else {
      LinesJoin(ls[1..]);
      assert d[..|ls[0]|] == ls[0] && d[|ls[0]| + 1..] == Join(ls[1..]);
      FirstNewlineIs(d, |ls[0]|);
    }
  }

  lemma {:induction false} LinesHaveNoNewline(d: Text)
    ensures forall l :: l in Lines(d) ==> LF !in l
  {
    var k := FirstNewline(d);
    if k == |d| {
      assert d[..k] == d;
    } else {
      LinesHaveNoNewline(d[k + 1..]);
    }
  }

  /** Appending a byte opens a new line or extends the last one. */
  function Extended(ls: seq<Text>, c: Byte): seq<Text>
    requires ls != []
  {
    if c == LF then ls + [[]] else ls[..|ls| - 1] + [ls[|ls| - 1] + [c]]
  }

  lemma LinesUnfold(d: Text)
    ensures var k := FirstNewline(d); Lines(d) == if k == |d| then [d] else [d[..k]] + Lines(d[k + 1..])
  {
    hide FirstNewline;
  }

  lemma {:induction false} LinesAppend(d: Text, c: Byte)
    ensures Lines(d + [c]) == Extended(Lines(d), c)
    decreases |d|
  {
    hide Lines;
    var k := FirstNewline(d);
    var e := d + [c];
    LinesUnfold(d);
    LinesUnfold(e);
    if k < |d| {
      AppendBehind(d, c);
      LinesAppend(d[k + 1..], c);
      ExtendedTail(d[..k], Lines(d[k + 1..]), c);
    } else {
      AppendToOne(d, c);
      if c == LF { LinesUnfold([]); }
    }
  }

  lemma AppendBehind(d: Text, c: Byte)
    requires FirstNewline(d) < |d|
    ensures var k := FirstNewline(d);
            FirstNewline(d + [c]) == k && (d + [c])[..k] == d[..k] && (d + [c])[k + 1..] == d[k + 1..] + [c]
  {
    hide *;
    var k, e := FirstNewline(d), d + [c];
    assert e[..k] == d[..k] && e[k] == d[k];
    assert e[k + 1..] == d[k + 1..] + [c];
    FirstNewlineIs(e, k);
  }

  lemma AppendToOne(d: Text, c: Byte)
    requires FirstNewline(d) == |d|
    ensures FirstNewline(d + [c]) == (if c == LF then |d| else |d| + 1)
    ensures (d + [c])[..|d|] == d && (d + [c])[|d| + 1..] == []
  {
    hide *;
    var e := d + [c];
    assert d[..|d|] == d == e[..|d|] && e[..|e|] == e;
    FirstNewlineIs(e, if c == LF then |d| else |d| + 1);
  }

  lemma ExtendedTail(head: Text, tail: seq<Text>, c: Byte)
    requires tail != []
    ensures [head] + Extended(tail, c) == Extended([head] + tail, c)
  {
    var ls := [head] + tail;
    assert ls[..|ls| - 1] == [head] + tail[..|tail| - 1];
  }

  /** The number of lines up to the last one that is not empty. */
  function Counted(ls: seq<Text>): (n: nat)
    ensures n <= |ls|
    ensures n > 0 ==> ls[n - 1] != []
    ensures forall i :: n <= i < |ls| ==> ls[i] == []
  {
    if ls == [] then 0
    else if ls[|ls| - 1] != [] then |ls|
    else Counted(ls[..|ls| - 1])
  }

  lemma CountedExtended(ls: seq<Text>, c: Byte)
    requires ls != []
    ensures Counted(Extended(ls, c)) == if c == LF then Counted(ls) else |ls|
  {
    if c == LF { assert (ls + [[]])[..|ls|] == ls; }
  }

  lemma {:induction false} CountedPrefix(d: Text, n: nat)
    requires n <= |d|
    ensures Counted(Lines(d[..n])) <= Counted(Lines(d)) && |Lines(d[..n])| <= |Lines(d)|
    decreases |d| - n
  {
    if n == |d| {
      assert d[..n] == d;
    } else {
      CountedPrefix(d, n + 1);
      assert d[..n + 1] == d[..n] + [d[n]];
      LinesAppend(d[..n], d[n]);
      CountedExtended(Lines(d[..n]), d[n]);
    }
  }

  /** A line without its trailing white space. */
  function RTrim(line: Text): (t: Text)
    ensures t <= line
    ensures t != [] ==> !IsSpace(t[|t| - 1])
    ensures forall i :: |t| <= i < |line| ==> IsSpace(line[i])
  {
    if line != [] && IsSpace(line[|line| - 1]) then RTrim(line[..|line| - 1]) else line
  }

  lemma RTrimIs(line: Text, k: nat)
    requires k <= |line| && (k > 0 ==> !IsSpace(line[k - 1]))
    requires forall i :: k <= i < |line| ==> IsSpace(line[i])
    ensures RTrim(line) == line[..k]
  {
    var n := |RTrim(line)|;
    assert forall i :: 0 <= i < n ==> RTrim(line)[i] == line[i];
    assert RTrim(line) == line[..n];
  }
}
