/** cena_validator.cpp: comparing two outputs token by token, where line ends may be LF, CR or CRLF and runs of
    spaces count as one. */
module CenaValidator {
  import opened CFile
  import opened Prefixes
  import opened Texts

  // ----- The token stream of a text -----

  /** One visible byte with what precedes it: how many line breaks, or whether spaces on the same line. */
  datatype Token = Token(breaks: nat, gap: bool, c: Byte)

  datatype Scan = Scan(tokens: seq<Token>, breaks: nat, gap: bool, afterCr: bool)

  function Feed(s: Scan, b: Byte): Scan {
    if b == LF then Scan(s.tokens, if s.afterCr then s.breaks else s.breaks + 1, false, false)
    else if b == CR then Scan(s.tokens, s.breaks + 1, false, true)
    else if b == SPACE then Scan(s.tokens, s.breaks, s.gap || s.breaks == 0, false)
    else Scan(s.tokens + [Token(s.breaks, s.gap, b)], 0, false, false)
  }

  /** Scanning starts as if behind one line break. */
  function ScanText(d: Text): Scan {
    if d == [] then Scan([], 1, false, false) else Feed(ScanText(d[..|d| - 1]), d[|d| - 1])
  }

  const END: Byte := 255

  /** The byte 0xFF is taken for the end of the file. */
  function Cut(d: Text): Text { UpTo(d, END) }

  function Tokens(d: Text): seq<Token> { ScanText(Cut(d)).tokens }

  function Judgement(std: Text, user: Text): Verdict {
    var s, u := Tokens(std), Tokens(user);
    if u == s then IDENTICAL
    else if s <= u then LONGER
    else if u <= s then SHORTER
    else MISMATCH
  }

  // ----- The loops -----

  datatype Tchar = Tchar(have: bool, he: bool, eml: nat, c: Byte)

  const BLANK := Tchar(false, false, 0, NUL)

  lemma ScanStep(d: Text, i: nat)
    requires i < |d|
    ensures ScanText(d[..i + 1]) == Feed(ScanText(d[..i]), d[i])
  {
    assert d[..i + 1][..i] == d[..i];
  }

  lemma {:induction false} ScanGrows(d: Text, i: nat)
    requires i <= |d|
    ensures ScanText(d[..i]).tokens <= ScanText(d).tokens
    decreases |d| - i
  {
    if i == |d| {
      assert d[..i] == d;
    } else {
      ScanStep(d, i);
      ScanGrows(d, i + 1);
    }
  }

  lemma TokensEnd(d: Text, p: nat)
    requires p <= |d| && END !in d[..p] && (p < |d| ==> d[p] == END)
    ensures Tokens(d) == ScanText(d[..p]).tokens
  {
    UpToIs(d, END, p);
    hide UpTo, ScanText;
  }

  class Checker {
    const f: seq<File>
    var chars: seq<Tchar>

    ghost predicate Valid()
      reads this
    {
      |f| == 2 && f[0] != f[1] && |chars| == 2
    }

    constructor (user: File, std: File)
      requires user != std
      ensures Valid() && f == [user, std]
    {
      f := [user, std];
      chars := [BLANK, BLANK];
    }

    /** What has been read of file fi scans to the given state, and none of it was 0xFF. */
    ghost predicate Scanned(fi: nat, s: Scan)
      requires fi < |f|
      reads f[fi]
    {
      f[fi].pos <= |f[fi].data| && END !in f[fi].data[..f[fi].pos] && ScanText(f[fi].data[..f[fi].pos]) == s
    }

    method GetChar(fi: nat, ghost seen: seq<Token>)
      requires Valid() && fi < 2
      requires !chars[fi].have && Scanned(fi, Scan(seen, chars[fi].eml, chars[fi].he, false))
      modifies this, f[fi]
      ensures Valid() && chars[1 - fi] == old(chars[1 - fi])
      ensures chars[fi].have ==>
                Scanned(fi, Scan(seen + [Token(chars[fi].eml, chars[fi].he, chars[fi].c)], 0, false, false))
      ensures !chars[fi].have ==> seen == Tokens(f[fi].data)
    {
      hide ScanText, Tokens;
      var last := 0;
      while true
        invariant Valid() && chars[1 - fi] == old(chars[1 - fi]) && !chars[fi].have
        invariant Scanned(fi, Scan(seen, chars[fi].eml, chars[fi].he, last == CR))
        decreases |f[fi].data| - f[fi].pos
      {
        ghost var p, d := f[fi].pos, f[fi].data;
        var ch := f[fi].Getc();
        if ch == EOF || ch == END {
          TokensEnd(d, p);
          return;
        }
        ScanStep(d, p);
        assert d[..p + 1] == d[..p] + [d[p]];
        var t := chars[fi];
        if ch == LF {
          if last != CR {
            t := t.(eml := t.eml + 1);
          }
          chars := chars[fi := t.(he := false)];
        } else if ch == CR {
          chars := chars[fi := t.(eml := t.eml + 1, he := false)];
        } else if ch == SPACE {
          if t.eml == 0 {
            chars := chars[fi := t.(he := true)];
          }
        } else {
          chars := chars[fi := t.(c := ch, have := true)];
          break;
        }
        last := ch;
      }
    }

    method CheckNow() returns (result: Verdict)
      requires Valid() && f[0].pos == f[1].pos == 0
      modifies this, f[0], f[1]
      ensures result == Judgement(f[1].data, f[0].data)
    {
      hide Feed, ScanText, Tokens, Scanned, Judgement;
      chars := [BLANK.(eml := 1), BLANK.(eml := 1)];
      ghost var seen: seq<Token> := [];
      ghost var u := Tokens(f[0].data);
      ScanStarts(0);
      ScanStarts(1);
      while true
        invariant Valid()
        invariant !chars[0].have && !chars[1].have
        invariant Scanned(0, Scan(seen, chars[0].eml, chars[0].he, false))
        invariant Scanned(1, Scan(seen, chars[1].eml, chars[1].he, false))
        decreases |u| - |seen|
      {
        GetChar(0, seen);
        GetChar(1, seen);
        ghost var tu := Token(chars[0].eml, chars[0].he, chars[0].c);
        ghost var ts := Token(chars[1].eml, chars[1].he, chars[1].c);
        if chars[0].have { SeenIsPrefix(0, seen + [tu], 0, false); }
        if chars[1].have { SeenIsPrefix(1, seen + [ts], 0, false); }
        Ended(f[1].data, f[0].data, seen, tu, ts);
        if !chars[0].have && !chars[1].have {
          return IDENTICAL;
        }
        if chars[0].have && !chars[1].have {
          return LONGER;
        }
        if !chars[0].have && chars[1].have {
          return SHORTER;
        }
        Diverge(f[1].data, f[0].data, seen, tu, ts);
        if chars[0].eml > chars[1].eml {
          return MISMATCH;
        }
        if chars[1].eml > chars[0].eml {
          return MISMATCH;
        }
        if chars[0].he != chars[1].he || chars[0].c != chars[1].c {
          return MISMATCH;
        }
        seen := seen + [tu];
        chars := [BLANK, BLANK];
      }
      assert false;
    }

    lemma ScanStarts(fi: nat)
      requires Valid() && fi < 2 && f[fi].pos == 0
      ensures Scanned(fi, Scan([], 1, false, false))
    {
    }

    lemma SeenIsPrefix(fi: nat, seen: seq<Token>, breaks: nat, gap: bool)
      requires Valid() && fi < 2 && Scanned(fi, Scan(seen, breaks, gap, false))
      ensures seen <= Tokens(f[fi].data)
    {
      var d, p := f[fi].data, f[fi].pos;
      assert forall i :: 0 <= i < p ==> d[..p][i] == d[i];
      assert p <= |Cut(d)|;
      assert Cut(d)[..p] == d[..p];
      ScanGrows(Cut(d), p);
    }
  }

  /** One stream, or both, end here. */
  lemma Ended(std: Text, user: Text, seen: seq<Token>, tu: Token, ts: Token)
    ensures Tokens(std) == seen == Tokens(user) ==> Judgement(std, user) == IDENTICAL
    ensures Tokens(std) == seen && seen + [tu] <= Tokens(user) ==> Judgement(std, user) == LONGER
    ensures Tokens(user) == seen && seen + [ts] <= Tokens(std) ==> Judgement(std, user) == SHORTER
  {
    hide Tokens;
    var t := Tokens(user);
    assert seen + [tu] <= t ==> t[..|seen|] == (seen + [tu])[..|seen|] == seen;
    var t' := Tokens(std);
    assert seen + [ts] <= t' ==> t'[..|seen|] == (seen + [ts])[..|seen|] == seen;
  }

  lemma Diverge(std: Text, user: Text, seen: seq<Token>, tu: Token, ts: Token)
    requires seen + [tu] <= Tokens(user) && seen + [ts] <= Tokens(std)
    ensures tu != ts ==> Judgement(std, user) == MISMATCH
  {
    hide Tokens;
    assert Tokens(user)[|seen|] == tu && Tokens(std)[|seen|] == ts;
  }
}
