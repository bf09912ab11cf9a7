/** INI1.26.h: reading and writing configuration files. */
module IniFile {
  import opened CStrings
  import opened Prefixes
  import opened EnvExpansion
  import opened Wrappers

  type Entries = map<string, string>
  type Sections = map<string, Entries>

  /** The sections and the name of the one that takes the next keys. */
  datatype Store = Store(sections: Sections, current: Option<string>)

  // ----- One line -----

  /** The first word, as >> reads it. */
  function SkipSpace(s: string): (r: string)
    ensures |r| <= |s| && (r != [] ==> !IsSpace(r[0]))
  {
    if s != [] && IsSpace(s[0]) then SkipSpace(s[1..]) else s
  }

  function UpToSpace(s: string): string {
    if s == [] || IsSpace(s[0]) then [] else [s[0]] + UpToSpace(s[1..])
  }

  function FirstWord(s: string): string { UpToSpace(SkipSpace(s)) }

  /** The last character of a header line that is not white space; the opening bracket at the least. */
  function LastVisible(line: string): (k: nat)
    requires line != [] && !IsSpace(line[0])
    ensures k < |line| && !IsSpace(line[k]) && forall i :: k < i < |line| ==> IsSpace(line[i])
  {
    if IsSpace(line[|line| - 1]) then LastVisible(line[..|line| - 1]) else |line| - 1
  }

  predicate IsHeader(line: string) { line != [] && line[0] == '[' }

  predicate IsComment(line: string) { |line| >= 2 && line[0] == '/' && line[1] == '/' }

  /** What one line does; None stands for undefined behaviour: a header without anything behind its bracket
      copies a string of negative length, and a key before the first header goes through a null pointer. */
  function Step(env: Env, st: Store, line: string): Option<Store> {
    if line == [] || IsComment(line) then Some(st)
    else if IsHeader(line) then
      var k := LastVisible(line);
      if k == 0 then None
      else
        var name := FirstWord(line[1..k]);
        Some(Store(st.sections[name := map[]], Some(name)))
    else
      var k := Find(line, '=');
      if k == |line| then Some(st)
      else if st.current.None? then None
      else
        var name := st.current.value;
        var entries := if name in st.sections then st.sections[name] else map[];
        Some(st.(sections := st.sections[name := entries[line[..k] := Expand(env, line[k + 1..])]]))
  }

  // ----- A file -----

  const BUFFER_SIZE := 512

  /** Stuck: a line that does not fit the buffer puts the stream into a failed state that is not its end, so the
      loop goes on for ever. */
  datatype Outcome = Loaded(store: Store) | Undefined | Stuck

  function ParseText(env: Env, st: Store, text: string): Outcome
    decreases |text|
  {
    var k := Find(text, LF);
    var line := UpTo(if k < BUFFER_SIZE then text[..k] else text[..BUFFER_SIZE - 1], NUL);
    var next := Step(env, st, line);
    if next.None? then Undefined
    else if k >= BUFFER_SIZE then Stuck
    else if k == |text| then Loaded(next.value)
    else ParseText(env, next.value, text[k + 1..])
  }

  // ----- Writing -----

  type EntryList = seq<(string, string)>
  type SectionList = seq<(string, EntryList)>

  /** The entries in the order in which the map is walked. */
  function Fill(base: Entries, es: EntryList): Entries
    decreases |es|
  {
    if es == [] then base else Fill(base[es[0].0 := es[0].1], es[1..])
  }

  function FillSections(base: Sections, l: SectionList): Sections
    decreases |l|
  {
    if l == [] then base else FillSections(base[l[0].0 := Fill(map[], l[0].1)], l[1..])
  }

  predicate DistinctKeys(es: EntryList) {
    forall i, j :: 0 <= i < j < |es| ==> es[i].0 != es[j].0
  }

  predicate Distinct(l: SectionList) {
    && (forall i, j :: 0 <= i < j < |l| ==> l[i].0 != l[j].0)
    && (forall i :: 0 <= i < |l| ==> DistinctKeys(l[i].1))
  }

  /** A walk through all sections and their entries. */
  predicate Walk(l: SectionList, m: Sections) { Distinct(l) && FillSections(map[], l) == m }

  function SectionLine(name: string): string { "[" + name + "]" }

  function EntryLine(key: string, value: string): string { key + "=" + value }

  /** Lines are written up to their first NUL. */
  function Written(line: string): string { UpTo(line + [LF], NUL) }

  function EntriesText(es: EntryList): string {
    if es == [] then [] else Written(EntryLine(es[0].0, es[0].1)) + EntriesText(es[1..])
  }

  function SectionText(name: string, es: EntryList): string {
    if es == [] then [] else Written(SectionLine(name)) + EntriesText(es)
  }

  function FileText(l: SectionList): string {
    if l == [] then [] else SectionText(l[0].0, l[0].1) + FileText(l[1..])
  }

  // ----- Reading what was written -----

  predicate OneLine(s: string) { LF !in s && NUL !in s }

  predicate WritableName(name: string) {
    OneLine(name) && |name| + 2 < BUFFER_SIZE && forall c :: c in name ==> !IsSpace(c)
  }

  predicate WritableEntry(key: string, value: string) {
    && OneLine(key) && OneLine(value) && |key| + 1 + |value| < BUFFER_SIZE
    && '=' !in key && !IsHeader(key) && !IsComment(key)
  }

  predicate Writable(m: Sections) {
    forall name :: name in m ==> WritableName(name) && WritableEntries(m[name])
  }

  predicate WritableEntries(es: Entries) {
    forall key :: key in es ==> WritableEntry(key, es[key])
  }

  function ExpandAll(env: Env, es: Entries): Entries { map key | key in es :: Expand(env, es[key]) }

  /** What comes back: no empty sections, and values expanded. */
  function Reread(env: Env, m: Sections): Sections {
    map name | name in m && m[name] != map[] :: ExpandAll(env, m[name])
  }

  lemma ParseLine(env: Env, st: Store, line: string, rest: string)
    requires OneLine(line) && |line| < BUFFER_SIZE && Step(env, st, line).Some?
    ensures ParseText(env, st, Written(line) + rest) == ParseText(env, Step(env, st, line).value, rest)
  {
    var text := Written(line) + rest;
    UpToWhole(line + [LF], NUL);
    assert text[..|line|] == line && text[|line| + 1..] == rest;
    FindIs(text, LF, |line|);
    UpToWhole(line, NUL);
    hide Step, Find, UpTo;
  }

  lemma {:induction false} UpToSpaceWhole(s: string)
    requires forall c :: c in s ==> !IsSpace(c)
    ensures UpToSpace(s) == s && FirstWord(s) == s
  {
    if s != [] {
      assert s[0] in s;
      UpToSpaceWhole(s[1..]);
    }
  }

  lemma StepHeader(env: Env, st: Store, name: string)
    requires WritableName(name)
    ensures Step(env, st, SectionLine(name)) == Some(Store(st.sections[name := map[]], Some(name)))
  {
    var line := SectionLine(name);
    assert line[|line| - 1] == ']';
    assert LastVisible(line) == |line| - 1;
    assert line[1..|line| - 1] == name;
    UpToSpaceWhole(name);
    hide LastVisible, FirstWord;
  }

  lemma StepEntry(env: Env, st: Store, key: string, value: string)
    requires WritableEntry(key, value) && st.current.Some? && st.current.value in st.sections
    ensures var name := st.current.value;
            Step(env, st, EntryLine(key, value)) ==
            Some(st.(sections := st.sections[name := st.sections[name][key := Expand(env, value)]]))
  {
    var line := EntryLine(key, value);
    assert line[..|key|] == key && line[|key| + 1..] == value;
    assert line[|key|] == '=';
    FindIs(line, '=', |key|);
    hide Find, Expand;
    assert forall i :: 0 <= i < |key| ==> line[i] == key[i];
  }

  predicate ListWritable(es: EntryList) {
    forall i :: 0 <= i < |es| ==> WritableEntry(es[i].0, es[i].1)
  }

  function WithEntries(st: Store, es: Entries): Store
    requires st.current.Some?
  {
    st.(sections := st.sections[st.current.value := es])
  }

  ghost predicate Holds(st: Store, es: Entries) {
    st.current.Some? && st.current.value in st.sections && st.sections[st.current.value] == es
  }

  /** The entries as they come back. */
  function FillExpanded(env: Env, base: Entries, es: EntryList): Entries
    decreases |es|
  {
    if es == [] then base else FillExpanded(env, base[es[0].0 := Expand(env, es[0].1)], es[1..])
  }

  lemma EntryLineIs(key: string, value: string)
    requires WritableEntry(key, value)
    ensures OneLine(EntryLine(key, value)) && |EntryLine(key, value)| < BUFFER_SIZE
  {
  }

  lemma ParseEntry(env: Env, st: Store, base: Entries, key: string, value: string, rest: string)
    requires WritableEntry(key, value) && Holds(st, base)
    ensures ParseText(env, st, Written(EntryLine(key, value)) + rest) ==
            ParseText(env, WithEntries(st, base[key := Expand(env, value)]), rest)
  {
    EntryLineIs(key, value);
    StepEntry(env, st, key, value);
    hide WritableEntry, OneLine, Written, EntryLine, Step, ParseText, Expand;
    ParseLine(env, st, EntryLine(key, value), rest);
  }

  lemma {:induction false} ParseEntries(env: Env, st: Store, base: Entries, es: EntryList, rest: string)
    requires ListWritable(es) && Holds(st, base)
    ensures ParseText(env, st, EntriesText(es) + rest) ==
            ParseText(env, WithEntries(st, FillExpanded(env, base, es)), rest)
    decreases |es|
  {
    hide ParseText, Expand, Written, EntryLine, WritableEntry;
    if es == [] {
      assert EntriesText(es) + rest == rest;
      assert st.sections[st.current.value := base] == st.sections;
    } else {
      var key, value, tail := es[0].0, es[0].1, es[1..];
      var base' := base[key := Expand(env, value)];
      var st' := WithEntries(st, base');
      ParseEntry(env, st, base, key, value, EntriesText(tail) + rest);
      assert Written(EntryLine(key, value)) + (EntriesText(tail) + rest) == EntriesText(es) + rest;
      ParseEntries(env, st', base', tail, rest);
      assert WithEntries(st', FillExpanded(env, base', tail)) == WithEntries(st, FillExpanded(env, base, es));
    }
  }

  lemma ParseSection(env: Env, st: Store, name: string, es: EntryList, rest: string)
    requires es != [] && WritableName(name) && ListWritable(es)
    ensures ParseText(env, st, SectionText(name, es) + rest) ==
            ParseText(env, Store(st.sections[name := FillExpanded(env, map[], es)], Some(name)), rest)
  {
    hide *;
    var st' := Store(st.sections[name := map[]], Some(name));
    SectionTextIs(name, es, rest);
    ParseHeader(env, st, name, EntriesText(es) + rest);
    NewSection(st.sections, name, FillExpanded(env, map[], es));
    ParseEntries(env, st', map[], es, rest);
  }

  lemma NewSection(sections: Sections, name: string, es: Entries)
    ensures var st := Store(sections[name := map[]], Some(name));
            Holds(st, map[]) && WithEntries(st, es) == Store(sections[name := es], Some(name))
  {
  }

  lemma ParseHeader(env: Env, st: Store, name: string, rest: string)
    requires WritableName(name)
    ensures ParseText(env, st, Written(SectionLine(name)) + rest) ==
            ParseText(env, Store(st.sections[name := map[]], Some(name)), rest)
  {
    StepHeader(env, st, name);
    assert OneLine(SectionLine(name));
    hide ParseText, Step, Written;
    ParseLine(env, st, SectionLine(name), rest);
  }

  lemma SectionTextIs(name: string, es: EntryList, rest: string)
    requires es != []
    ensures SectionText(name, es) + rest == Written(SectionLine(name)) + (EntriesText(es) + rest)
  {
    hide Written, EntriesText;
  }

  predicate SectionsWritable(l: SectionList) {
    forall i :: 0 <= i < |l| ==> WritableName(l[i].0) && ListWritable(l[i].1)
  }

  /** The sections as they come back; those without entries are not written. */
  function FillRead(env: Env, base: Sections, l: SectionList): Sections
    decreases |l|
  {
    if l == [] then base
    else FillRead(env, if l[0].1 == [] then base else base[l[0].0 := FillExpanded(env, map[], l[0].1)], l[1..])
  }

  lemma {:induction false} ParseSections(env: Env, st: Store, l: SectionList)
    requires SectionsWritable(l)
    ensures ParseText(env, st, FileText(l)).Loaded?
    ensures ParseText(env, st, FileText(l)).store.sections == FillRead(env, st.sections, l)
    decreases |l|
  {
    if l == [] {
      assert Find("", LF) == 0;
    } else {
      hide ParseText, Expand, FillExpanded, SectionText, WritableName, ListWritable;
      var name, es, tail := l[0].0, l[0].1, l[1..];
      if es == [] {
        assert SectionText(name, es) == [] by { NoEntriesNoText(name); }
        assert FileText(l) == FileText(tail);
        ParseSections(env, st, tail);
      } else {
        ParseSection(env, st, name, es, FileText(tail));
        ParseSections(env, Store(st.sections[name := FillExpanded(env, map[], es)], Some(name)), tail);
      }
    }
  }

  lemma NoEntriesNoText(name: string)
    ensures SectionText(name, []) == []
  {
  }

  // ----- In terms of the maps -----

  lemma {:induction false} FillExpandedIs(env: Env, base: Entries, es: EntryList)
    ensures FillExpanded(env, ExpandAll(env, base), es) == ExpandAll(env, Fill(base, es))
    decreases |es|
  {
    hide Expand;
    if es != [] {
      var key, value := es[0].0, es[0].1;
      FillExpandedIs(env, base[key := value], es[1..]);
      assert ExpandAll(env, base[key := value]) == ExpandAll(env, base)[key := Expand(env, value)];
    }
  }

  lemma {:induction false} FillKeeps(base: Entries, es: EntryList)
    ensures base.Keys <= Fill(base, es).Keys
    ensures es != [] ==> Fill(base, es) != map[]
    decreases |es|
  {
    if es != [] {
      FillKeeps(base[es[0].0 := es[0].1], es[1..]);
      assert es[0].0 in Fill(base, es).Keys;
    }
  }

  lemma RereadOneMore(env: Env, base: Sections, name: string, es: EntryList)
    requires name !in base
    ensures Reread(env, base[name := Fill(map[], es)]) ==
            if es == [] then Reread(env, base) else Reread(env, base)[name := FillExpanded(env, map[], es)]
  {
    FillKeeps(map[], es);
    FillExpandedIs(env, map[], es);
    assert ExpandAll(env, map[]) == map[];
    hide ExpandAll, FillExpanded;
    assert es == [] ==> Fill(map[], es) == map[];
    hide Fill;
  }

  lemma {:induction false} FillReadIs(env: Env, base: Sections, l: SectionList)
    requires Distinct(l) && forall i :: 0 <= i < |l| ==> l[i].0 !in base
    ensures FillRead(env, Reread(env, base), l) == Reread(env, FillSections(base, l))
    decreases |l|
  {
    hide Reread, Fill, FillExpanded;
    if l != [] {
      var name, es := l[0].0, l[0].1;
      RereadOneMore(env, base, name, es);
      FillReadIs(env, base[name := Fill(map[], es)], l[1..]);
    }
  }

  lemma {:induction false} FillAt(base: Entries, es: EntryList, i: nat)
    requires DistinctKeys(es) && i < |es|
    ensures es[i].0 in Fill(base, es) && Fill(base, es)[es[i].0] == es[i].1
    decreases |es|
  {
    if i == 0 {
      FillElsewhere(base[es[0].0 := es[0].1], es[1..], es[0].0);
    } else {
      FillAt(base[es[0].0 := es[0].1], es[1..], i - 1);
    }
  }

  lemma {:induction false} FillElsewhere(base: Entries, es: EntryList, key: string)
    requires key in base && forall i :: 0 <= i < |es| ==> es[i].0 != key
    ensures key in Fill(base, es) && Fill(base, es)[key] == base[key]
    decreases |es|
  {
    if es != [] {
      FillElsewhere(base[es[0].0 := es[0].1], es[1..], key);
    }
  }

  lemma {:induction false} FillSectionsAt(base: Sections, l: SectionList, i: nat)
    requires Distinct(l) && i < |l|
    ensures l[i].0 in FillSections(base, l) && FillSections(base, l)[l[i].0] == Fill(map[], l[i].1)
    decreases |l|
  {
    if i == 0 {
      FillSectionsElsewhere(base[l[0].0 := Fill(map[], l[0].1)], l[1..], l[0].0);
    } else {
      FillSectionsAt(base[l[0].0 := Fill(map[], l[0].1)], l[1..], i - 1);
    }
  }

  lemma {:induction false} FillSectionsElsewhere(base: Sections, l: SectionList, name: string)
    requires name in base && forall i :: 0 <= i < |l| ==> l[i].0 != name
    ensures name in FillSections(base, l) && FillSections(base, l)[name] == base[name]
    decreases |l|
  {
    hide Fill;
    if l != [] {
      FillSectionsElsewhere(base[l[0].0 := Fill(map[], l[0].1)], l[1..], name);
    }
  }

  /** Everything that is walked through is writable. */
  lemma WalkWritable(l: SectionList)
    requires Distinct(l) && Writable(FillSections(map[], l))
    ensures SectionsWritable(l)
  {
    hide FillSections, Fill, WritableName, WritableEntry;
    forall i | 0 <= i < |l| ensures WritableName(l[i].0) && ListWritable(l[i].1) {
      FillSectionsAt(map[], l, i);
      var es := l[i].1;
      assert WritableEntries(Fill(map[], es));
      forall j | 0 <= j < |es| ensures WritableEntry(es[j].0, es[j].1) {
        FillAt(map[], es, j);
      }
    }
  }

  /** Whatever way the map is walked, reading the written file gives the sections that have entries, with the
      values expanded. */
  lemma ReadBack(env: Env, m: Sections, l: SectionList)
    requires Walk(l, m) && Writable(m)
    ensures var outcome := ParseText(env, Store(map[], None), FileText(l));
            outcome.Loaded? && outcome.store.sections == Reread(env, m)
  {
    WalkWritable(l);
    ParseSections(env, Store(map[], None), l);
    FillReadIs(env, map[], l);
    hide FillRead, ParseText, FileText, FillSections, Writable, SectionsWritable;
    assert Reread(env, map[]) == map[];
  }

  /** No value is changed by expansion. */
  predicate Unexpanded(env: Env, m: Sections) {
    forall name :: name in m ==> forall key :: key in m[name] ==> Expand(env, m[name][key]) == m[name][key]
  }

  /** Writing and reading gives the same map exactly if no section is empty and no value is changed by
      expansion. */
  lemma RoundTripIff(env: Env, m: Sections, l: SectionList)
    requires Walk(l, m) && Writable(m)
    ensures var outcome := ParseText(env, Store(map[], None), FileText(l));
            (outcome.Loaded? && outcome.store.sections == m) <==>
            ((forall name :: name in m ==> m[name] != map[]) && Unexpanded(env, m))
  {
    ReadBack(env, m, l);
    RereadSame(env, m);
    hide *;
  }

  lemma RereadSame(env: Env, m: Sections)
    ensures Reread(env, m) == m <==> (forall name :: name in m ==> m[name] != map[]) && Unexpanded(env, m)
  {
    hide Expand;
    var r := Reread(env, m);
    if r == m {
      forall name | name in m ensures m[name] != map[] && ExpandAll(env, m[name]) == m[name] {
        assert name in r;
      }
    }
    if (forall name :: name in m ==> m[name] != map[]) && Unexpanded(env, m) {
      forall name | name in m ensures ExpandAll(env, m[name]) == m[name] {
      }
    }
  }

  /** In particular if no value holds a reference. */
  lemma PlainValuesSurvive(env: Env, m: Sections)
    requires forall name, key :: name in m && key in m[name] ==> NoReference(m[name][key])
    ensures Unexpanded(env, m)
  {
    hide Expand, NoReference;
    forall name, key | name in m && key in m[name] ensures Expand(env, m[name][key]) == m[name][key] {
      ExpandKeepsPlain(env, m[name][key]);
    }
  }
}
