/** The class INI of INI1.26.h, with its section objects. */
module IniParser {
  import opened CStrings
  import opened Prefixes
  import opened EnvExpansion
  import opened IniFile
  import opened IniOutcomes
  import opened Wrappers

  /** A text stream opened for reading. */
  class InputStream {
    const text: string
    var pos: nat
    var eof: bool
    var failed: bool

    constructor (text: string)
      ensures this.text == text && pos == 0 && !eof && !failed
    {
      this.text, pos, eof, failed := text, 0, false, false;
    }

    /** Reads up to a line feed, the end, or one character less than size; the last of these is a failure. A stream
        that has failed or ended reads nothing and stays where it is. */
    method GetLine(size: nat) returns (line: string)
      requires size >= 1 && pos <= |text|
      modifies this
      ensures pos <= |text|
      ensures old(eof || failed) ==> line == [] && pos == old(pos) && eof == old(eof) && failed
      ensures var rest, k := text[old(pos)..], Find(text[old(pos)..], LF);
              old(!eof && !failed) ==>
              && (k >= size ==> line == rest[..size - 1] && pos == old(pos) + size - 1 && !eof && failed)
              && (k < size && k == |rest| ==> line == rest && pos == |text| && eof && failed == (k == 0))
              && (k < size && k < |rest| ==> line == rest[..k] && pos == old(pos) + k + 1 && !eof && !failed)
    {
      if eof || failed {
        failed := true;
        return [];
      }
      var rest := text[pos..];
      var k := Find(rest, LF);
      if k >= size {
        line := rest[..size - 1];
        pos := pos + size - 1;
        failed := true;
      } else if k == |rest| {
        line := rest;
        pos := |text|;
        eof, failed := true, k == 0;
      } else {
        line := rest[..k];
        pos := pos + k + 1;
      }
    }
  }

  /** The entries of one section. */
  class Keys {
    var entries: Entries

    constructor ()
      ensures entries == map[]
    {
      entries := map[];
    }
  }

  /** How a number of turns of the read loop ends. */
  datatype Result = NotOpen | Done | Crashed | Running

  class Ini {
    const env: Env
    var current: Keys?
    var sections: map<string, Keys>
    ghost var selected: string

    ghost predicate Valid()
      reads this
    {
      && (forall a, b | a in sections && b in sections && a != b :: sections[a] != sections[b])
      && (current != null ==> selected in sections && sections[selected] == current)
    }

    ghost function Contents(): Sections
      reads this`sections, sections.Values
    {
      map name | name in sections :: sections[name].entries
    }

    ghost function State(): Store
      reads this, sections.Values
    {
      Store(Contents(), if current == null then None else Some(selected))
    }

    constructor (env: Env)
      ensures Valid() && this.env == env && State() == Store(map[], None)
    {
      this.env, current, sections := env, null, map[];
    }

    /** A header opens a new section object, also under a name that was there before. */
    method OpenSection(line: string) returns (ok: bool)
      requires Valid() && IsHeader(line)
      modifies this
      ensures Valid() && (current != null && current != old(current) ==> fresh(current))
      ensures ok <==> Step(env, old(State()), line).Some?
      ensures ok ==> State() == Step(env, old(State()), line).value && fresh(current)
      ensures !ok ==> State() == old(State()) && current == old(current)
    {
      var length := |line| - 2;
      while IsSpace(line[length + 1])
        invariant -1 <= length <= |line| - 2
        invariant forall i :: length + 1 < i < |line| ==> IsSpace(line[i])
        decreases length + 1
      {
        length := length - 1;
      }
      HeaderStep(env, State(), line, length + 1);
      hide Step;
      if length < 0 {
        return false;
      }
      var name := FirstWord(line[1..1 + length]);
      current := new Keys();
      selected := name;
      sections := sections[name := current];
      assert Contents() == old(Contents())[name := map[]];
      ok := true;
    }

    method SetEntry(key: string, value: string)
      requires Valid() && current != null
      modifies current
      ensures Valid()
      ensures State() == old(State()).(sections :=
                old(Contents())[selected := old(Contents())[selected][key := value]])
    {
      current.entries := current.entries[key := value];
    }

    /** What is done with one line; false stands for undefined behaviour. */
    method Interpret(line: string) returns (ok: bool)
      requires Valid()
      modifies this, current
      ensures Valid() && (current != null && current != old(current) ==> fresh(current))
      ensures ok <==> Step(env, old(State()), line).Some?
      ensures ok ==> State() == Step(env, old(State()), line).value
    {
      ok := true;
      if line != [] {
        if !(|line| >= 2 && line[0] == '/' && line[1] == '/') {
          if line[0] == '[' {
            ok := OpenSection(line);
          } else {
            var p := Find(line, '=');
            if p < |line| {
              var value := ExpandEnv(env, line[p + 1..]);
              var key := line[..p];
              if current == null {
                return false;
              }
              SetEntry(key, value);
            }
          }
        }
      }
    }

    /** Reads a file, if it could be opened, on top of what is there. The loop is watched for a number of turns: as
        many as there are lines are enough for a file that can be read and for one that crashes, and no number is
        enough for one that sticks. */
    method Parse(file: InputStream?, turns: nat) returns (result: Result)
      requires Valid() && (file != null ==> file.pos == 0 && !file.eof && !file.failed)
      modifies this, file
      ensures Valid()
      ensures file == null ==> result == NotOpen && State() == Store(old(Contents()), None)
      ensures file != null ==>
                match ParseText(env, Store(old(Contents()), None), file.text)
                case Loaded(st) =>
                  if turns >= |Lines(file.text)| then result == Done && State() == st else result == Running
                case Undefined =>
                  result == Crashed || (result == Running && turns < |Lines(file.text)|)
                case Stuck => result == Running
    {
      hide Step, ParseText, UpTo, Find, Contents, Lines;
      current := null;
      if file == null {
        return NotOpen;
      }
      ghost var outcome := ParseText(env, State(), file.text);
      assert file.text[0..] == file.text;
      var left: nat := turns;
      while !file.eof
        invariant Valid() && file.pos <= |file.text| && left <= turns
        invariant current != null ==> fresh(current)
        invariant file.eof ==> outcome == Loaded(State()) && turns - left == |Lines(file.text)|
        invariant !file.eof && !file.failed ==>
                    && outcome == ParseText(env, State(), file.text[file.pos..])
                    && turns - left + |Lines(file.text[file.pos..])| == |Lines(file.text)|
        invariant !file.eof && file.failed ==> outcome == Stuck
        decreases left
      {
        if left == 0 {
          return Running;
        }
        left := left - 1;
        Turn(env, State(), file.text, file.pos);
        var line := file.GetLine(BUFFER_SIZE);
        var ok := Interpret(UpTo(line, NUL));
        if !ok {
          return Crashed;
        }
      }
      result := Done;
    }

    /** Writes all sections that have entries, in the order in which the map is walked. */
    method Save() returns (file: string)
      requires Valid()
      ensures exists l :: Walk(l, Contents()) && file == FileText(l)
    {
      ghost var m := Contents();
      var rest := sections.Keys;
      assert m.Keys == rest && forall name :: name in m ==> m[name] == sections[name].entries;
      hide *;
      file := "";
      ghost var l: SectionList := [];
      NothingWalked(m);
      while rest != {}
        invariant rest <= m.Keys && Walked(l, m, rest)
        invariant file == FileText(l)
        decreases |rest|
      {
        var name :| name in rest;
        var text;
        ghost var es;
        text, es := WriteSection(name, sections[name].entries);
        file := file + text;
        WalkOneMore(l, m, rest, name, es);
        l := l + [(name, es)];
        rest := rest - {name};
      }
      AllWalked(l, m);
    }
  }

  function MakeSection(name: string): string { "[" + name + "]" + [LF] }

  function MakeKeyValue(key: string, value: string): string { key + "=" + value + [LF] }

  /** The body of the loop over the sections: one without entries is skipped. */
  method WriteSection(name: string, entries: Entries) returns (text: string, ghost es: EntryList)
    ensures DistinctKeys(es) && Fill(map[], es) == entries && text == SectionText(name, es)
  {
    NoEntries();
    hide *;
    text, es := "", [];
    if entries != map[] {
      text := UpTo(MakeSection(name), NUL);
      var lines;
      lines, es := WriteEntries(entries);
      text := text + lines;
    }
    SectionLines(name, es);
  }

  /** The entries written so far are those no longer in rest. */
  ghost predicate WrittenSoFar(es: EntryList, entries: Entries, rest: set<string>) {
    && (forall i :: 0 <= i < |es| ==> es[i].0 in entries && es[i].0 !in rest)
    && DistinctKeys(es)
    && Fill(map[], es) == map key | key in entries && key !in rest :: entries[key]
  }

  lemma NothingWritten(entries: Entries)
    ensures WrittenSoFar([], entries, entries.Keys) && EntriesText([]) == []
  {
  }

  lemma WriteOneMore(es: EntryList, entries: Entries, rest: set<string>, key: string)
    requires WrittenSoFar(es, entries, rest) && key in rest && key in entries
    ensures WrittenSoFar(es + [(key, entries[key])], entries, rest - {key})
    ensures EntriesText(es + [(key, entries[key])]) == EntriesText(es) + UpTo(MakeKeyValue(key, entries[key]), NUL)
  {
    FillAppend(map[], es, key, entries[key]);
    EntriesTextAppend(es, key, entries[key]);
    hide Fill, EntriesText, UpTo;
  }

  lemma AllWritten(es: EntryList, entries: Entries)
    requires WrittenSoFar(es, entries, {})
    ensures DistinctKeys(es) && Fill(map[], es) == entries
  {
    hide Fill;
    assert entries == map key | key in entries && key !in {} :: entries[key];
  }

  /** The lines of one section. */
  method WriteEntries(entries: Entries) returns (text: string, ghost es: EntryList)
    ensures DistinctKeys(es) && Fill(map[], es) == entries && text == EntriesText(es)
  {
    hide *;
    text, es := "", [];
    var rest := entries.Keys;
    NothingWritten(entries);
    while rest != {}
      invariant rest <= entries.Keys && WrittenSoFar(es, entries, rest)
      invariant text == EntriesText(es)
      decreases |rest|
    {
      var key :| key in rest;
      text := text + UpTo(MakeKeyValue(key, entries[key]), NUL);
      WriteOneMore(es, entries, rest, key);
      es := es + [(key, entries[key])];
      rest := rest - {key};
    }
    AllWritten(es, entries);
  }

  /** The sections walked through so far are those no longer in rest. */
  ghost predicate Walked(l: SectionList, m: Sections, rest: set<string>) {
    && Distinct(l)
    && (forall i :: 0 <= i < |l| ==> l[i].0 in m && l[i].0 !in rest)
    && FillSections(map[], l) == map name | name in m && name !in rest :: m[name]
  }

  lemma NothingWalked(m: Sections)
    ensures Walked([], m, m.Keys) && FileText([]) == []
  {
  }

  lemma NoEntries()
    ensures DistinctKeys([]) && Fill(map[], []) == map[]
  {
  }

  lemma WalkOneMore(l: SectionList, m: Sections, rest: set<string>, name: string, es: EntryList)
    requires Walked(l, m, rest) && name in rest && name in m && DistinctKeys(es) && Fill(map[], es) == m[name]
    ensures Walked(l + [(name, es)], m, rest - {name})
    ensures FileText(l + [(name, es)]) == FileText(l) + SectionText(name, es)
  {
    FillSectionsAppend(map[], l, name, es);
    FileTextAppend(l, name, es);
    hide Fill, FillSections, FileText, SectionText, DistinctKeys;
  }

  lemma AllWalked(l: SectionList, m: Sections)
    requires Walked(l, m, {})
    ensures Walk(l, m)
  {
    assert m == map name | name in m && name !in {} :: m[name];
  }

  lemma {:induction false} FillAppend(base: Entries, es: EntryList, key: string, value: string)
    ensures Fill(base, es + [(key, value)]) == Fill(base, es)[key := value]
    decreases |es|
  {
    if es != [] {
      assert (es + [(key, value)])[1..] == es[1..] + [(key, value)];
      FillAppend(base[es[0].0 := es[0].1], es[1..], key, value);
    }
  }

  lemma {:induction false} FillSectionsAppend(base: Sections, l: SectionList, name: string, es: EntryList)
    ensures FillSections(base, l + [(name, es)]) == FillSections(base, l)[name := Fill(map[], es)]
    decreases |l|
  {
    hide Fill;
    if l != [] {
      assert (l + [(name, es)])[1..] == l[1..] + [(name, es)];
      FillSectionsAppend(base[l[0].0 := Fill(map[], l[0].1)], l[1..], name, es);
    }
  }

  lemma {:induction false} EntriesTextAppend(es: EntryList, key: string, value: string)
    ensures EntriesText(es + [(key, value)]) == EntriesText(es) + UpTo(MakeKeyValue(key, value), NUL)
    decreases |es|
  {
    hide UpTo;
    if es != [] {
      assert (es + [(key, value)])[1..] == es[1..] + [(key, value)];
      EntriesTextAppend(es[1..], key, value);
    }
  }

  lemma {:induction false} FileTextAppend(l: SectionList, name: string, es: EntryList)
    ensures FileText(l + [(name, es)]) == FileText(l) + SectionText(name, es)
    decreases |l|
  {
    hide SectionText;
    if l != [] {
      assert (l + [(name, es)])[1..] == l[1..] + [(name, es)];
      FileTextAppend(l[1..], name, es);
    }
  }

  lemma SectionLines(name: string, es: EntryList)
    ensures SectionText(name, es) == if es == [] then [] else UpTo(MakeSection(name), NUL) + EntriesText(es)
  {
    hide UpTo, EntriesText;
  }

  lemma HeaderStep(env: Env, st: Store, line: string, k: nat)
    requires k < |line| && IsHeader(line) && !IsSpace(line[k]) && forall i :: k < i < |line| ==> IsSpace(line[i])
    ensures Step(env, st, line) ==
            if k == 0 then None
            else var name := FirstWord(line[1..k]); Some(Store(st.sections[name := map[]], Some(name)))
  {
    LastVisibleIs(line, k);
    hide LastVisible, FirstWord;
  }

  lemma LastVisibleIs(line: string, k: nat)
    requires k < |line| && IsHeader(line) && !IsSpace(line[k]) && forall i :: k < i < |line| ==> IsSpace(line[i])
    ensures LastVisible(line) == k
  {
    var n := LastVisible(line);
    hide LastVisible;
    assert n == k;
  }

  /** What one turn of the read loop sees and leaves. */
  lemma Turn(env: Env, st: Store, text: string, pos: nat)
    requires pos <= |text|
    ensures Step(env, st, UpTo([], NUL)) == Some(st)
    ensures var rest, k := text[pos..], Find(text[pos..], LF);
            var next := Step(env, st, UpTo(if k < BUFFER_SIZE then rest[..k] else rest[..BUFFER_SIZE - 1], NUL));
            && rest[..|rest|] == rest
            && ParseText(env, st, rest) ==
               (if next.None? then Undefined
                else if k >= BUFFER_SIZE then Stuck
                else if k == |rest| then Loaded(next.value)
                else ParseText(env, next.value, text[pos + k + 1..]))
            && |Lines(rest)| == 1 + if k == |rest| then 0 else |Lines(text[pos + k + 1..])|
  {
    hide *;
    var rest, k := text[pos..], Find(text[pos..], LF);
    EmptyLine(env, st);
    ParseUnfold(env, st, rest);
    FirstSeen(rest);
    LinesUnfold(rest);
    if k < |rest| {
      assert rest[k + 1..] == text[pos + k + 1..];
    }
  }

  lemma EmptyLine(env: Env, st: Store)
    ensures Step(env, st, UpTo([], NUL)) == Some(st)
  {
    assert UpTo<char>([], NUL) == [];
  }
}
