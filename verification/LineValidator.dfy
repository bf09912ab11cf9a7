/** validator.cpp: comparing two outputs line by line, ignoring trailing white space. */
module LineValidator {
  import opened CFile
  import opened Prefixes
  import opened Texts

  // ----- What is compared -----

  /** What `trip` leaves of a line: the trimmed line, except that of a trimmed line of exactly two bytes only
      the first byte is looked at. */
  function Effective(line: Text): Text {
    var t := RTrim(line);
    if |t| == 2 then RTrim(t[..1]) else t
  }

  function LineCount(d: Text): (n: nat)
    ensures n <= |Lines(d)|
  {
    CountedPrefix(d, |UpTo(d, NUL)|);
    assert d[..|UpTo(d, NUL)|] == UpTo(d, NUL);
    Counted(Lines(UpTo(d, NUL)))
  }

  function Judgement(std: Text, user: Text): Verdict {
    if LineCount(user) < LineCount(std) then SHORTER
    else if LineCount(user) > LineCount(std) then LONGER
    else if SameEffective(Lines(std), Lines(user), LineCount(std)) then IDENTICAL
    else MISMATCH
  }

  /** The first n lines agree in what is compared. */
  predicate SameEffective(a: seq<Text>, b: seq<Text>, n: nat) {
    n <= |a| && n <= |b| && forall x :: 0 <= x < n ==> Effective(a[x]) == Effective(b[x])
  }

  // ----- The loops -----

  method FileLines(f: File) returns (lines: nat)
    modifies f`pos
    ensures lines == LineCount(f.data)
  {
    hide Lines, Counted, LineCount;
    f.SeekSet(0);
    var tmp, sum, nonEmpty := 0, 0, 0;
    var seen: nat := 0;
    NothingCounted();
    assert f.data[..0] == [];
    while true
      invariant seen == f.pos <= |f.data| && tmp >= 0 && sum >= 0 && nonEmpty >= 0
      invariant NUL !in f.data[..seen]
      invariant |Lines(f.data[..seen])| == 1 + sum + tmp
      invariant Counted(Lines(f.data[..seen])) == sum + nonEmpty
      invariant nonEmpty == 0 ==> sum == 0
      invariant nonEmpty <= 1
      decreases |f.data| - seen
    {
      var c := f.Getc();
      if c == NUL {
        CountEnds(f.data, seen);
        break;
      }
      if c == EOF {
        CountEnds(f.data, seen);
        break;
      }
      assert f.data[..seen + 1] == f.data[..seen] + [f.data[seen]];
      CountOneMore(f.data[..seen], f.data[seen]);
      if c == LF {
        tmp := tmp + 1;
      } else {
        sum := sum + tmp;
        tmp := 0;
        nonEmpty := 1;
      }
      seen := seen + 1;
    }
    lines := sum + nonEmpty;
  }

  lemma NothingCounted()
    ensures |Lines([])| == 1 && Counted(Lines([])) == 0
  {
  }

  /** A line feed opens a line; any other byte makes the last line count. */
  lemma CountOneMore(d: Text, c: Byte)
    ensures |Lines(d + [c])| == |Lines(d)| + (if c == LF then 1 else 0)
    ensures Counted(Lines(d + [c])) == if c == LF then Counted(Lines(d)) else |Lines(d)|
  {
    LinesAppend(d, c);
    CountedExtended(Lines(d), c);
    hide Lines, Counted;
  }

  lemma CountEnds(d: Text, k: nat)
    requires k <= |d| && NUL !in d[..k] && (k < |d| ==> d[k] == NUL)
    ensures LineCount(d) == Counted(Lines(d[..k]))
  {
    UpToIs(d, NUL, k);
    hide UpTo, Lines, Counted;
  }

  /** The line that starts at st: where it ends, and whether a line feed ends it. */
  ghost predicate LineAt(d: Text, st: nat, line: Text) {
    && st + |line| <= |d| && d[st..st + |line|] == line && LF !in line
    && (st + |line| < |d| ==> d[st + |line|] == LF)
  }

  /** Where the field of a line ends. */
  ghost predicate FieldEnd(d: Text, st: nat, line: Text, ed: int) {
    LineAt(d, st, line) && ed == st + |line| - if st + |line| < |d| then 0 else 1
  }

  /** The end of the field that starts at st. */
  ghost predicate FieldAt(d: Text, st: nat, ed: int) {
    st <= |d| && FieldEnd(d, st, d[st..][..FirstNewline(d[st..])], ed)
  }

  /** The field's end: the line feed, or the last byte of the file. */
  method FindEnd(f: File, st: nat) returns (ed: int)
    requires st <= |f.data|
    modifies f`pos
    ensures FieldAt(f.data, st, ed)
  {
    f.SeekSet(st);
    var c := f.Getc();
    while c != EOF && c != LF
      invariant st <= f.pos <= |f.data|
      invariant c == EOF ==> f.pos == |f.data| && LF !in f.data[st..f.pos]
      invariant c != EOF ==> f.pos > st && c == f.data[f.pos - 1] && LF !in f.data[st..f.pos - 1]
      decreases |f.data| - f.pos, if c == EOF then 0 else 1
    {
      assert f.data[st..f.pos] == f.data[st..f.pos - 1] + [f.data[f.pos - 1]];
      c := f.Getc();
    }
    ed := f.pos - 1;
    ghost var k := if c == EOF then f.pos - st else f.pos - 1 - st;
    assert f.data[st..][..k] == f.data[st..st + k];
    FirstNewlineIs(f.data[st..], k);
  }

  /** getc backwards: reads the byte at the position and moves one before it, if there is room. */
  method Rahcteg(f: File) returns (c: int)
    modifies f`pos
    ensures c == if old(f.pos) < |f.data| then f.data[old(f.pos)] else EOF
    ensures var after := if old(f.pos) < |f.data| then old(f.pos) + 1 else old(f.pos);
            f.pos == if after >= 2 then after - 2 else after
  {
    c := f.Getc();
    f.SeekCur(-2);
  }

  /** The last byte of the field that will be compared. */
  method Trip(f: File, st: nat, ed: int, ghost line: Text) returns (end: int)
    requires st < |f.data| && FieldEnd(f.data, st, line, ed)
    modifies f`pos
    ensures end == st + |Effective(line)| - 1
  {
    f.SeekSet(ed);
    var more := true;
    while more
      invariant st <= f.pos <= ed
      invariant forall i :: f.pos + (if more then 1 else 2) <= i <= ed ==> IsSpace(f.data[i])
      invariant !more && f.pos < ed ==> !IsSpace(f.data[f.pos + 1]) || f.pos == st
      invariant !more && f.pos == ed ==> f.pos == st
      invariant !more && f.pos > st ==> !IsSpace(f.data[f.pos + 1])
      decreases f.pos, more
    {
      if f.pos > st {
        var c := Rahcteg(f);
        more := IsSpace(c);
      } else {
        more := false;
      }
    }
    ghost var stop := f.pos;
    if f.pos == st {
      var c := f.Getc();
      end := if IsSpace(c) then st - 1 else st;
      NearStart(f.data, st, ed, line);
    } else {
      var c := f.Getc();
      end := f.pos;
      assert forall i :: 0 <= i < |line| ==> line[i] == f.data[st + i];
      RTrimIs(line, stop + 2 - st);
    }
  }

  /** Trimming stopped at the line's start: at most two bytes are left, and only the first is looked at. */
  lemma NearStart(d: Text, st: nat, ed: int, line: Text)
    requires st < |d| && FieldEnd(d, st, line, ed) && st <= ed < |d|
    requires forall i :: st + 2 <= i <= ed ==> IsSpace(d[i])
    ensures |Effective(line)| == if IsSpace(d[st]) then 0 else 1
  {
    assert forall i :: 0 <= i < |line| ==> line[i] == d[st + i];
    if |line| >= 2 && !IsSpace(line[1]) {
      RTrimIs(line, 2);
    } else if |line| >= 1 && !IsSpace(line[0]) {
      RTrimIs(line, 1);
    } else {
      RTrimIs(line, 0);
    }
  }

  /** The compared bytes are the first ones of the line. */
  lemma EffectiveBytes(d: Text, st: nat, line: Text)
    requires LineAt(d, st, line)
    ensures var e := Effective(line);
            st + |e| <= |d| && e == d[st..st + |e|]
  {
    assert Effective(line) <= line;
    assert d[st..st + |line|][..|Effective(line)|] == d[st..st + |Effective(line)|];
  }

  /** 0 if the two fields agree, 1 if not. */
  method Compare(fa: File, fb: File, sta: nat, eda: int, stb: nat, edb: int, ghost la: Text, ghost lb: Text)
    returns (differs: int)
    requires fa != fb
    requires sta < |fa.data| && FieldEnd(fa.data, sta, la, eda)
    requires stb < |fb.data| && FieldEnd(fb.data, stb, lb, edb)
    modifies fa`pos, fb`pos
    ensures differs == if Effective(la) == Effective(lb) then 0 else 1
  {
    var endA := Trip(fa, sta, eda, la);
    var endB := Trip(fb, stb, edb, lb);
    hide Effective, LineAt;
    EffectiveBytes(fa.data, sta, la);
    EffectiveBytes(fb.data, stb, lb);
    if endA - sta != endB - stb {
      return 1;
    }
    differs := CompareBytes(fa, fb, sta, stb, endA - sta + 1, Effective(la), Effective(lb));
  }

  method CompareBytes(fa: File, fb: File, sta: nat, stb: nat, n: nat, ghost ea: Text, ghost eb: Text)
    returns (differs: int)
    requires fa != fb && |ea| == |eb| == n
    requires sta + n <= |fa.data| && stb + n <= |fb.data|
    requires ea == fa.data[sta..sta + n] && eb == fb.data[stb..stb + n]
    modifies fa`pos, fb`pos
    ensures differs == if ea == eb then 0 else 1
  {
    fa.SeekSet(sta);
    fb.SeekSet(stb);
    var c := n;
    while c != 0
      invariant 0 <= c <= n
      invariant fa.pos == sta + n - c && fb.pos == stb + n - c
      invariant ea[..n - c] == eb[..n - c]
      decreases c
    {
      c := c - 1;
      ghost var i := n - c - 1;
      var x := fa.Getc();
      var y := fb.Getc();
      assert x == ea[i] && y == eb[i];
      if x != y {
        return 1;
      }
      assert ea[..i + 1] == ea[..i] + [ea[i]] && eb[..i + 1] == eb[..i] + [eb[i]];
    }
    assert ea[..n] == ea && eb[..n] == eb;
    return 0;
  }

  /** The lines from the one at st on. */
  ghost predicate LinesFrom(d: Text, x: nat, st: nat) {
    st <= |d| && x < |Lines(d)| && Lines(d)[x..] == Lines(d[st..])
  }

  /** The validator stands at line x with its field found. */
  ghost predicate AtLine(d: Text, x: nat, st: nat, ed: int) {
    FieldAt(d, st, ed) && (x < |Lines(d)| ==> LinesFrom(d, x, st))
  }

  /** The first of the remaining lines, and what remains after it. */
  lemma FirstOfRest(d: Text, x: nat, st: nat)
    requires LinesFrom(d, x, st)
    ensures var k := FirstNewline(d[st..]);
            && Lines(d)[x] == d[st..][..k]
            && (st + k == |d| ==> |Lines(d)| == x + 1)
            && (st + k < |d| ==> LinesFrom(d, x + 1, st + k + 1))
  {
    hide Lines, FirstNewline;
    var rest := d[st..];
    var k := FirstNewline(rest);
    LinesUnfold(rest);
    if k == |rest| {
      assert rest[..k] == rest;
      assert Lines(d)[x..] == [rest] && Lines(d)[x..][0] == Lines(d)[x];
    } else {
      assert rest[k + 1..] == d[st + k + 1..];
      SkipOne(Lines(d), x, rest[..k], Lines(rest[k + 1..]));
    }
  }

  lemma SkipOne(ls: seq<Text>, x: nat, head: Text, tail: seq<Text>)
    requires x < |ls| && ls[x..] == [head] + tail && tail != []
    ensures x + 1 < |ls| && ls[x + 1..] == tail && ls[x] == head
  {
    assert ls[x] == ls[x..][0];
    assert |ls[x..]| == 1 + |tail|;
    assert ls[x + 1..] == ls[x..][1..];
  }

  /** A counted line is there to be read, and the next one starts behind its field. */
  lemma LineReady(d: Text, x: nat, st: nat, ed: int)
    requires AtLine(d, x, st, ed) && x < Counted(Lines(d))
    ensures st < |d| && FieldEnd(d, st, Lines(d)[x], ed)
    ensures 0 <= ed + 1 <= |d| && (x + 1 < |Lines(d)| ==> LinesFrom(d, x + 1, ed + 1))
  {
    hide Lines, LinesFrom;
    FirstOfRest(d, x, st);
  }

  lemma CountedLines(d: Text)
    ensures LineCount(d) <= Counted(Lines(d))
  {
    CountedPrefix(d, |UpTo(d, NUL)|);
    assert d[..|UpTo(d, NUL)|] == UpTo(d, NUL);
  }

  method Validator(fstd: File?, fuser: File?) returns (result: Verdict)
    requires fstd == null || fstd != fuser
    modifies if fstd != null then {fstd} else {}, if fuser != null then {fuser} else {}
    ensures fstd == null || fuser == null ==> result == FUCKED
    ensures fstd != null && fuser != null ==> result == Judgement(fstd.data, fuser.data)
  {
    if fstd == null || fuser == null {
      return FUCKED;
    }
    result := IDENTICAL;
    var lineU := FileLines(fuser);
    var lineS := FileLines(fstd);
    if lineU < lineS {
      result := SHORTER;
    } else if lineU > lineS {
      result := LONGER;
    }
    if lineU != lineS {
      return;
    }
    CountedLines(fstd.data);
    CountedLines(fuser.data);
    var same := CompareLines(fstd, fuser, lineU);
    if !same {
      return MISMATCH;
    }
    result := IDENTICAL;
  }

  /** The comparison of as many lines as both files were found to have. */
  method CompareLines(fstd: File, fuser: File, lineU: nat) returns (same: bool)
    requires fstd != fuser && lineU <= Counted(Lines(fstd.data)) && lineU <= Counted(Lines(fuser.data))
    modifies fstd, fuser
    ensures same <==> SameEffective(Lines(fstd.data), Lines(fuser.data), lineU)
  {
    hide *;
    var stS: nat, stU: nat := 0, 0;
    var edS := FindEnd(fstd, stS);
    var edU := FindEnd(fuser, stU);
    AtFirstLine(fstd.data, edS);
    AtFirstLine(fuser.data, edU);
    NothingCompared(Lines(fstd.data), Lines(fuser.data));
    var x: nat := 0;
    while x < lineU
      invariant x <= lineU
      invariant AtLine(fstd.data, x, stS, edS)
      invariant AtLine(fuser.data, x, stU, edU)
      invariant SameEffective(Lines(fstd.data), Lines(fuser.data), x)
    {
      LineReady(fstd.data, x, stS, edS);
      LineReady(fuser.data, x, stU, edU);
      var differs := Compare(fstd, fuser, stS, edS, stU, edU, Lines(fstd.data)[x], Lines(fuser.data)[x]);
      SameEffectiveStep(Lines(fstd.data), Lines(fuser.data), x, lineU);
      if differs != 0 {
        return false;
      }
      stS, edS := Advance(fstd, x, edS);
      stU, edU := Advance(fuser, x, edU);
      x := x + 1;
    }
    return true;
  }

  /** On to the next line. */
  method Advance(f: File, ghost x: nat, ed: int) returns (st': nat, ed': int)
    requires 0 <= ed + 1 <= |f.data|
    requires x + 1 < |Lines(f.data)| ==> LinesFrom(f.data, x + 1, ed + 1)
    modifies f
    ensures AtLine(f.data, x + 1, st', ed')
  {
    hide Lines, LinesFrom, FieldAt;
    st' := ed + 1;
    ed' := FindEnd(f, st');
    AtNextLine(f.data, x, ed, ed');
  }

  lemma AtNextLine(d: Text, x: nat, last: int, ed: int)
    requires 0 <= last + 1 && FieldAt(d, last + 1, ed)
    requires x + 1 < |Lines(d)| ==> LinesFrom(d, x + 1, last + 1)
    ensures AtLine(d, x + 1, last + 1, ed)
  {
  }

  lemma AtFirstLine(d: Text, ed: int)
    requires FieldAt(d, 0, ed)
    ensures AtLine(d, 0, 0, ed)
  {
    assert d[0..] == d;
  }

  lemma NothingCompared(a: seq<Text>, b: seq<Text>)
    ensures SameEffective(a, b, 0)
  {
  }

  lemma SameEffectiveStep(a: seq<Text>, b: seq<Text>, x: nat, n: nat)
    requires x < n <= |a| && n <= |b| && SameEffective(a, b, x)
    ensures SameEffective(a, b, x + 1) <==> Effective(a[x]) == Effective(b[x])
    ensures SameEffective(a, b, n) ==> Effective(a[x]) == Effective(b[x])
  {
  }
}
