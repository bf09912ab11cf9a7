/** The encoding of a report: escaping neither breaks nor repairs UTF-8. Here a char is a byte. */
module JsonUtf8 {
  import opened CStrings
  import opened JsonBuilder

  predicate Within(s: string, i: nat, low: int, high: int) { i < |s| && low <= s[i] as int <= high }

  predicate Tail(s: string, i: nat) { Within(s, i, 0x80, 0xBF) }

  /** The length of the sequence a text starts with, by section 4 of RFC 3629; zero if it starts with none. */
  function First(s: string): (n: nat)
    ensures n <= |s| && n <= 4
    ensures n >= 2 ==> forall i :: 0 <= i < n ==> s[i] as int >= 0x80
    ensures n == 1 ==> s[0] as int < 0x80
  {
    if Within(s, 0, 0x00, 0x7F) then 1
    else if Within(s, 0, 0xC2, 0xDF) && Tail(s, 1) then 2
    else if Within(s, 0, 0xE0, 0xE0) && Within(s, 1, 0xA0, 0xBF) && Tail(s, 2) then 3
    else if Within(s, 0, 0xE1, 0xEC) && Tail(s, 1) && Tail(s, 2) then 3
    else if Within(s, 0, 0xED, 0xED) && Within(s, 1, 0x80, 0x9F) && Tail(s, 2) then 3
    else if Within(s, 0, 0xEE, 0xEF) && Tail(s, 1) && Tail(s, 2) then 3
    else if Within(s, 0, 0xF0, 0xF0) && Within(s, 1, 0x90, 0xBF) && Tail(s, 2) && Tail(s, 3) then 4
    else if Within(s, 0, 0xF1, 0xF3) && Tail(s, 1) && Tail(s, 2) && Tail(s, 3) then 4
    else if Within(s, 0, 0xF4, 0xF4) && Within(s, 1, 0x80, 0x8F) && Tail(s, 2) && Tail(s, 3) then 4
    else 0
  }

  predicate WellFormed(s: string) {
    s == [] || (First(s) > 0 && WellFormed(s[First(s)..]))
  }

  /** A sequence is recognised by its own bytes. */
  lemma FirstOfPrefix(s: string, t: string)
    requires First(s) > 0 && First(s) <= |t| && t[..First(s)] == s[..First(s)]
    ensures First(t) == First(s)
  {
    var n := First(s);
    assert forall i :: 0 <= i < n ==> t[i] == t[..n][i] == s[i];
  }

  predicate AllHigh(s: string) { forall i :: 0 <= i < |s| ==> s[i] as int >= 0x80 }

  /** Bytes of 0x80 and above pass through. */
  lemma {:induction false} HighPasses(s: string, n: nat)
    requires n <= |s| && AllHigh(s[..n])
    ensures EscapeAll(s) == s[..n] + EscapeAll(s[n..])
  {
    if n == 0 {
      assert s[0..] == s;
    } else {
      assert s == [s[0]] + s[1..];
      EscapeOne(s[0], s[1..]);
      EscapeIs(s[0]);
      assert s[..n][0] == s[0];
      assert s[1..][..n - 1] == s[..n][1..] && s[1..][n - 1..] == s[n..];
      HighPasses(s[1..], n - 1);
      hide EscapeAll, Escape;
      assert s[..n] == [s[0]] + s[1..][..n - 1];
      Associative([s[0]], s[1..][..n - 1], EscapeAll(s[n..]));
    }
  }

  /** And none of them comes from anything else. */
  lemma {:induction false} HighStays(s: string, n: nat)
    requires n <= |EscapeAll(s)| && AllHigh(EscapeAll(s)[..n])
    ensures n <= |s| && s[..n] == EscapeAll(s)[..n]
  {
    hide *;
    EscapeNone();
    if n > 0 {
      var tail := s[1..];
      assert s == [s[0]] + tail;
      EscapeOne(s[0], tail);
      HighFirst(s[0], EscapeAll(tail), n);
      HighStays(tail, n - 1);
      assert s[..n] == [s[0]] + tail[..n - 1];
    }
  }

  lemma HighFirst(c: char, rest: string, n: nat)
    requires 1 <= n <= |Escape(c) + rest| && AllHigh((Escape(c) + rest)[..n])
    ensures n - 1 <= |rest| && AllHigh(rest[..n - 1]) && (Escape(c) + rest)[..n] == [c] + rest[..n - 1]
  {
    EscapeIs(c);
    hide Escape;
    var e := Escape(c) + rest;
    assert e[..n][0] == e[0] == Escape(c)[0];
    assert e == [c] + rest;
    assert e[..n] == [c] + rest[..n - 1];
    var front := rest[..n - 1];
    assert forall i :: 0 <= i < |front| ==> front[i] == e[..n][i + 1];
  }

  lemma WellFormedUnfold(s: string)
    requires s != []
    ensures WellFormed(s) <==> First(s) > 0 && WellFormed(s[First(s)..])
  {
  }

  lemma AsciiFirst(c: char, s: string)
    requires c as int < 0x80
    ensures WellFormed([c] + s) <==> WellFormed(s)
  {
    assert First([c] + s) == 1;
    assert ([c] + s)[1..] == s;
    WellFormedUnfold([c] + s);
  }

  lemma EscapedFirst(c: char, s: string)
    requires c as int < 0x80
    ensures WellFormed(Escape(c) + s) <==> WellFormed(s)
  {
    EscapeIs(c);
    if Escaped(c) {
      var d := Escape(c)[1];
      assert Escape(c) + s == ['\\'] + ([d] + s);
      AsciiFirst('\\', [d] + s);
      AsciiFirst(d, s);
    } else {
      AsciiFirst(c, s);
    }
  }

  lemma FirstIsHigh(s: string)
    requires s != [] && s[0] as int >= 0x80
    ensures AllHigh(s[..First(s)])
  {
  }

  lemma StartsHigh(s: string)
    requires s != [] && s[0] as int >= 0x80
    ensures EscapeAll(s) != [] && EscapeAll(s)[0] == s[0]
  {
    HighPasses(s, 1);
    hide EscapeAll;
  }

  /** Escaping a text with a multibyte sequence in front, or with a broken one. */
  lemma FirstEscaped(s: string)
    requires s != [] && s[0] as int >= 0x80
    ensures First(EscapeAll(s)) == First(s)
    ensures First(s) > 0 ==> EscapeAll(s)[First(s)..] == EscapeAll(s[First(s)..])
  {
    hide First, EscapeAll, WellFormed;
    var e, n := EscapeAll(s), First(s);
    StartsHigh(s);
    FirstIsHigh(s);
    FirstIsHigh(e);
    hide *;
    if n > 0 {
      HighPasses(s, n);
      assert e[..n] == s[..n];
      FirstOfPrefix(s, e);
    } else if First(e) > 0 {
      HighStays(s, First(e));
      FirstOfPrefix(e, s);
    }
  }

  lemma {:induction false} EscapeKeepsEncoding(s: string)
    ensures WellFormed(EscapeAll(s)) <==> WellFormed(s)
    decreases |s|
  {
    if s == [] {
      EscapeNone();
    } else {
      var n, e := First(s), EscapeAll(s);
      WellFormedUnfold(s);
      if s[0] as int < 0x80 {
        assert s == [s[0]] + s[1..];
        EscapeOne(s[0], s[1..]);
        EscapedFirst(s[0], EscapeAll(s[1..]));
        AsciiFirst(s[0], s[1..]);
        EscapeKeepsEncoding(s[1..]);
      } else {
        FirstEscaped(s);
        HighPasses(s, 1);
        if n > 0 {
          EscapeKeepsEncoding(s[n..]);
        }
        hide EscapeAll, WellFormed, First;
        WellFormedUnfold(e);
      }
    }
  }

  lemma {:induction false} QuoteAtEnd(s: string)
    ensures WellFormed(s + ['"']) <==> WellFormed(s)
    decreases |s|
  {
    var t := s + ['"'];
    if s == [] {
      assert First(t) == 1 && t[1..] == [];
    } else {
      var n := First(s);
      if n > 0 {
        assert t[..n] == s[..n];
        FirstOfPrefix(s, t);
        assert t[n..] == s[n..] + ['"'];
        QuoteAtEnd(s[n..]);
      } else if First(t) > 0 {
        var m := First(t);
        assert m <= |s|;
        assert s[..m] == t[..m];
        FirstOfPrefix(t, s);
      }
    }
  }

  lemma QuotedKeepsEncoding(s: string)
    ensures WellFormed(Quoted(s)) <==> WellFormed(s)
  {
    EscapeKeepsEncoding(s);
    QuoteAtEnd(EscapeAll(s));
    AsciiFirst('"', EscapeAll(s) + ['"']);
    hide EscapeAll, WellFormed;
    assert Quoted(s) == ['"'] + (EscapeAll(s) + ['"']);
  }

  /** What is printed for a text is a string of section 7 of RFC 8259 in UTF-8 exactly if the text is UTF-8 without
      control characters other than LF and CR. */
  lemma LegalEncodedIff(s: string)
    ensures LegalLiteral(Literal(s)) && WellFormed(Literal(s)) <==>
            WellFormed(s) && forall c :: c in s ==> Printable(c)
  {
    LegalIff(s);
    hide LegalLiteral, WellFormed, Literal;
    if forall c :: c in s ==> Printable(c) {
      assert !Printable(NUL);
      LiteralOfText(s);
      QuotedKeepsEncoding(s);
    }
  }
}
