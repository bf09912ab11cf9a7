/** The lines of a configuration file, character by character. */
module IniLines {
  import opened CStrings
  import opened EnvExpansion
  import opened IniFile
  import opened Wrappers
  import Prefixes

  /** Blank, tab, line feed, vertical tab, form feed and carriage return. */
  predicate White(s: string) { forall i :: 0 <= i < |s| ==> s[i] as int in {9, 10, 11, 12, 13, 32} }

  predicate Visible(s: string) { forall i :: 0 <= i < |s| ==> s[i] as int !in {9, 10, 11, 12, 13, 32} }

  lemma WhiteIsSpace(c: char)
    ensures IsSpace(c) <==> c as int in {9, 10, 11, 12, 13, 32}
  {
  }

  lemma {:induction false} SkipWhite(w: string, s: string)
    requires White(w) && (s == [] || Visible(s[..1]))
    ensures SkipSpace(w + s) == s
  {
    if w == [] {
      assert w + s == s;
      if s != [] { WhiteIsSpace(s[0]); }
    } else {
      WhiteIsSpace(w[0]);
      assert (w + s)[1..] == w[1..] + s;
      SkipWhite(w[1..], s);
    }
  }

  lemma {:induction false} WordEnds(name: string, rest: string)
    requires Visible(name) && (rest == [] || White(rest[..1]))
    ensures UpToSpace(name + rest) == name
  {
    if name == [] {
      assert name + rest == rest;
      if rest != [] { WhiteIsSpace(rest[0]); }
    } else {
      WhiteIsSpace(name[0]);
      assert (name + rest)[1..] == name[1..] + rest;
      WordEnds(name[1..], rest);
    }
  }

  /** The first word is what stands between leading white space and the next. */
  lemma FirstWordIs(w: string, name: string, rest: string)
    requires White(w) && name != [] && Visible(name) && (rest == [] || White(rest[..1]))
    ensures FirstWord(w + (name + rest)) == name
  {
    assert (name + rest)[..1] == name[..1];
    SkipWhite(w, name + rest);
    WordEnds(name, rest);
    hide SkipSpace, UpToSpace;
  }

  lemma LastVisibleIs(line: string, k: nat)
    requires line != [] && !IsSpace(line[0]) && k < |line| && !IsSpace(line[k])
    requires forall i :: k < i < |line| ==> IsSpace(line[i])
    ensures LastVisible(line) == k
  {
    hide LastVisible, IsSpace;
    assert !IsSpace(line[LastVisible(line)]);
  }

  /** A header opens an empty section under the first word between its brackets, whatever white space and words are
      around it; the closing one may be any visible character. */
  lemma HeaderOpens(env: Env, st: Store, w: string, name: string, rest: string, close: char, tail: string)
    requires White(w) && name != [] && Visible(name) && (rest == [] || White(rest[..1]))
    requires Visible([close]) && White(tail)
    ensures Step(env, st, "[" + (w + (name + rest)) + [close] + tail) ==
            Some(Store(st.sections[name := map[]], Some(name)))
  {
    var inside := w + (name + rest);
    var line := "[" + inside + [close] + tail;
    var k := |inside| + 1;
    WhiteIsSpace('[');
    WhiteIsSpace(close);
    assert [close][0] == close;
    assert line[k] == close && line[0] == '[';
    forall i | k < i < |line| ensures IsSpace(line[i]) {
      assert line[i] == tail[i - k - 1];
      WhiteIsSpace(line[i]);
    }
    LastVisibleIs(line, k);
    assert line[1..k] == inside;
    FirstWordIs(w, name, rest);
    hide LastVisible, FirstWord, White, Visible, IsSpace;
  }

  /** Empty lines, comments, and lines with neither a bracket in front nor an equals sign do nothing. */
  lemma IdleLines(env: Env, st: Store, line: string)
    requires line == "" || "//" <= line || ('=' !in line && line[0] != '[')
    ensures Step(env, st, line) == Some(st)
  {
    if "//" <= line { assert line[0] == '/' && line[1] == '/'; }
    hide LastVisible, FirstWord, Expand;
  }

  /** An entry goes to the open section: the key up to the first equals sign, the value expanded behind it. */
  lemma EntrySets(env: Env, st: Store, key: string, value: string)
    requires '=' !in key && (key == "" || key[0] != '[') && !("//" <= key)
    requires st.current.Some? && st.current.value in st.sections
    ensures var name := st.current.value;
            Step(env, st, key + "=" + value) ==
            Some(st.(sections := st.sections[name := st.sections[name][key := Expand(env, value)]]))
  {
    var line := key + "=" + value;
    assert |key| >= 1 ==> line[0] == key[0];
    assert |key| >= 2 ==> line[1] == key[1];
    assert |key| >= 2 && line[0] == '/' && line[1] == '/' ==> "//" <= key;
    assert line[..|key|] == key && line[|key| + 1..] == value && line[|key|] == '=';
    FindIs(line, '=', |key|);
    hide Find, LastVisible, FirstWord, Expand;
  }

  /** The text of a small file. */
  lemma FileTextExample()
    ensures FileText([("a", [("k", "v")])]) == "[a]\nk=v\n"
  {
    var es := [("k", "v")];
    assert es[1..] == [] && [("a", es)][1..] == [];
    Prefixes.UpToWhole("k=v\n", NUL);
    Prefixes.UpToWhole("[a]\n", NUL);
    assert EntryLine("k", "v") + [LF] == "k=v\n" && SectionLine("a") + [LF] == "[a]\n";
    assert EntriesText(es) == "k=v\n" + EntriesText([]);
    assert FileText([]) == "";
    assert SectionText("a", es) == "[a]\n" + EntriesText(es);
    hide Prefixes.UpTo;
  }

  /** A reference stands for the variable's value, for nothing if it is not set, wherever it is in the text. */
  lemma ReferenceIs(env: Env, before: string, name: string, rest: string)
    requires '$' !in before && name != "" && ')' !in name
    ensures Expand(env, before + ("$(" + (name + (")" + rest)))) ==
            before + ((if name in env then env[name] else "") + Expand(env, rest))
  {
    assert forall i :: 0 <= i < |before| ==> before[i] in before;
    ExpandPiece(env, Piece(before, name), rest);
    hide Expand;
  }
}
