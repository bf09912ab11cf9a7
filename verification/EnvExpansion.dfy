/** expandEnv of INI1.26.h: $(NAME) stands for the value of an environment variable. */
module EnvExpansion {
  import opened CStrings
  import opened Wrappers

  type Env = map<string, string>

  function Getenv(env: Env, name: string): Option<string> { if name in env then Some(env[name]) else None }

  /** A variable that is not set counts as empty. */
  function Lookup(env: Env, name: string): string {
    match Getenv(env, name)
    case Some(value) => value
    case None => ""
  }

  predicate ReferenceAt(s: string, i: int) { 0 <= i < |s| - 1 && s[i] == '$' && s[i + 1] == '(' }

  /** The end of a name: the first closing parenthesis that leaves it at least one character. */
  function NameEnd(t: string): (k: nat)
    ensures k <= |t|
    ensures k < |t| ==> k >= 1 && t[k] == ')'
    ensures forall i :: 1 <= i < k ==> t[i] != ')'
  {
    if t == [] then 0 else 1 + Find(t[1..], ')')
  }

  function Expand(env: Env, s: string): string {
    if s == [] then []
    else if ReferenceAt(s, 0) then
      var t := s[2..];
      var k := NameEnd(t);
      if k == |t| then [] else Lookup(env, t[..k]) + Expand(env, t[k + 1..])
    else [s[0]] + Expand(env, s[1..])
  }

  /** A name runs to its first closing parenthesis, but has at least one character. */
  predicate Name(name: string) { name != [] && forall i :: 1 <= i < |name| ==> name[i] != ')' }

  function Reference(name: string, rest: string): string { "$(" + (name + (")" + rest)) }

  lemma NameEndIs(name: string, rest: string)
    requires Name(name)
    ensures NameEnd(name + (")" + rest)) == |name|
  {
    var t := name + (")" + rest);
    var n := NameEnd(t);
    hide NameEnd;
    assert t[|name|] == ')';
    assert forall i :: 0 <= i < |name| ==> t[i] == name[i];
  }

  lemma ExpandReference(env: Env, name: string, rest: string)
    requires Name(name)
    ensures Expand(env, Reference(name, rest)) == Lookup(env, name) + Expand(env, rest)
  {
    var t := name + (")" + rest);
    assert Reference(name, rest)[2..] == t;
    NameEndIs(name, rest);
    assert t[..|name|] == name && t[|name| + 1..] == rest;
    hide NameEnd, Lookup;
  }

  lemma ExpandUnclosed(env: Env, lost: string)
    requires lost == [] || Name(lost)
    ensures Expand(env, "$(" + lost) == []
  {
    var s := "$(" + lost;
    assert s[2..] == lost;
    assert NameEnd(lost) == |lost|;
    hide NameEnd, Lookup;
  }

  lemma ExpandPlain(env: Env, s: string)
    requires s != [] && !ReferenceAt(s, 0)
    ensures Expand(env, s) == [s[0]] + Expand(env, s[1..])
  {
    hide NameEnd, Lookup;
  }

  // ----- The scanner -----

  /** What the scanner knows at p: outside a reference, or inside the one whose parenthesis is at start. */
  ghost predicate Scanned(env: Env, s: string, p: nat, start: int, result: string) {
    && -1 <= start <= p <= |s|
    && (start == -1 ==> result + Expand(env, s[p..]) == Expand(env, s))
    && (start >= 0 ==>
          && 1 <= start < |s| && s[start - 1] == '$' && s[start] == '('
          && (forall i :: start + 2 <= i < p ==> s[i] != ')')
          && result + Expand(env, s[start - 1..]) == Expand(env, s))
  }

  method ExpandEnv(env: Env, s: string) returns (result: string)
    ensures result == Expand(env, s)
  {
    hide *;
    result := "";
    var start := -1;
    ScanStarts(env, s);
    for p := 0 to |s|
      invariant Scanned(env, s, p, start, result)
      invariant -1 <= start <= p
    {
      if start >= 0 {
        if s[p] == ')' {
          var length := p - 1 - start;
          if length > 0 {
            var name := s[start + 1..start + 1 + length];
            ScanClosed(env, s, p, start, result);
            NotSet(env, name, result);
            var value := Getenv(env, name);
            if value.Some? {
              result := result + value.value;
            }
            start := -1;
          } else {
            ScanInside(env, s, p, start, result);
          }
        } else {
          ScanInside(env, s, p, start, result);
        }
      } else if s[p] == '$' && p + 1 < |s| && s[p + 1] == '(' {
        ScanOpened(env, s, p, result);
        start := p + 1;
      } else {
        ScanPlain(env, s, p, result);
        result := result + [s[p]];
      }
    }
    ScanEnds(env, s, start, result);
  }

  lemma ScanStarts(env: Env, s: string)
    ensures Scanned(env, s, 0, -1, "")
  {
    assert s[0..] == s;
  }

  lemma ScanPlain(env: Env, s: string, p: nat, result: string)
    requires p < |s| && Scanned(env, s, p, -1, result)
    requires !(s[p] == '$' && p + 1 < |s| && s[p + 1] == '(')
    ensures Scanned(env, s, p + 1, -1, result + [s[p]])
  {
    ExpandPlain(env, s[p..]);
    assert s[p..][1..] == s[p + 1..];
    hide Expand;
  }

  lemma ScanOpened(env: Env, s: string, p: nat, result: string)
    requires p + 1 < |s| && Scanned(env, s, p, -1, result) && s[p] == '$' && s[p + 1] == '('
    ensures Scanned(env, s, p + 1, p + 1, result)
  {
    hide Expand;
  }

  lemma ScanInside(env: Env, s: string, p: nat, start: nat, result: string)
    requires p < |s| && Scanned(env, s, p, start, result) && (s[p] != ')' || p - 1 - start <= 0)
    ensures Scanned(env, s, p + 1, start, result)
  {
    hide Expand;
  }

  lemma SplitReference(s: string, start: nat, p: nat)
    requires 1 <= start && start + 1 < p < |s| && s[start - 1] == '$' && s[start] == '(' && s[p] == ')'
    ensures s[start - 1..] == Reference(s[start + 1..p], s[p + 1..])
  {
    var name, rest := s[start + 1..p], s[p + 1..];
    assert s[p..] == ")" + rest;
    assert s[start + 1..] == name + s[p..];
    assert s[start - 1..] == "$(" + s[start + 1..];
  }

  lemma ClosedValue(env: Env, s: string, p: nat, start: nat)
    requires 1 <= start && start + 1 < p < |s| && s[start - 1] == '$' && s[start] == '(' && s[p] == ')'
    requires forall i :: start + 2 <= i < p ==> s[i] != ')'
    ensures Expand(env, s[start - 1..]) == Lookup(env, s[start + 1..p]) + Expand(env, s[p + 1..])
  {
    SplitReference(s, start, p);
    assert Name(s[start + 1..p]);
    hide *;
    ExpandReference(env, s[start + 1..p], s[p + 1..]);
  }

  lemma ScanClosed(env: Env, s: string, p: nat, start: nat, result: string)
    requires p < |s| && Scanned(env, s, p, start, result) && s[p] == ')' && p - 1 - start > 0
    ensures Scanned(env, s, p + 1, -1, result + Lookup(env, s[start + 1..p]))
  {
    ClosedValue(env, s, p, start);
    Associative(result, Lookup(env, s[start + 1..p]), Expand(env, s[p + 1..]));
    hide Expand, Lookup;
  }

  /** Adding the value, if there is one. */
  lemma NotSet(env: Env, name: string, result: string)
    ensures Getenv(env, name).None? ==> result == result + Lookup(env, name)
    ensures Getenv(env, name).Some? ==> Getenv(env, name).value == Lookup(env, name)
  {
  }

  lemma ScanEnds(env: Env, s: string, start: int, result: string)
    requires Scanned(env, s, |s|, start, result)
    ensures result == Expand(env, s)
  {
    if start == -1 {
      assert s[|s|..] == [] && Expand(env, []) == [];
    } else {
      var lost := s[start + 1..];
      assert s[start - 1..] == "$(" + lost;
      ExpandUnclosed(env, lost);
    }
    hide Expand;
  }

  // ----- What is expanded -----

  /** Literal text followed by a reference. */
  datatype Piece = Piece(literal: string, name: string)

  predicate NoReference(literal: string) { forall i :: 0 <= i < |literal| ==> !ReferenceAt(literal, i) }

  predicate WellFormed(p: Piece) { NoReference(p.literal) && Name(p.name) }

  function Template(ps: seq<Piece>, end: string): string {
    if ps == [] then end else ps[0].literal + Reference(ps[0].name, Template(ps[1..], end))
  }

  function Values(env: Env, ps: seq<Piece>, end: string): string {
    if ps == [] then end else ps[0].literal + (Lookup(env, ps[0].name) + Values(env, ps[1..], end))
  }

  lemma {:induction false} ExpandLiteral(env: Env, literal: string, rest: string)
    requires NoReference(literal) && (rest == [] || rest[0] != '(')
    ensures Expand(env, literal + rest) == literal + Expand(env, rest)
  {
    if literal == [] {
      assert literal + rest == rest;
    } else {
      var s := literal + rest;
      assert s[1..] == literal[1..] + rest;
      NoReferenceTail(literal);
      NoReferenceAtStart(literal, rest);
      hide *;
      ExpandLiteral(env, literal[1..], rest);
      ExpandPlain(env, s);
    }
  }

  lemma NoReferenceAtStart(literal: string, rest: string)
    requires literal != [] && NoReference(literal) && (rest == [] || rest[0] != '(')
    ensures !ReferenceAt(literal + rest, 0)
  {
    assert !ReferenceAt(literal, 0);
  }

  lemma NoReferenceTail(literal: string)
    requires literal != [] && NoReference(literal)
    ensures NoReference(literal[1..])
  {
    assert forall i :: ReferenceAt(literal[1..], i) ==> ReferenceAt(literal, i + 1);
  }

  /** Literals stay and references are looked up. */
  lemma {:induction false} ExpandTemplate(env: Env, ps: seq<Piece>, end: string)
    requires forall p :: p in ps ==> WellFormed(p)
    ensures Expand(env, Template(ps, end)) == Values(env, ps, Expand(env, end))
  {
    if ps != [] {
      assert ps[0] in ps;
      ExpandTemplate(env, ps[1..], end);
      ExpandPiece(env, ps[0], Template(ps[1..], end));
      hide Expand, Lookup, Reference;
    }
  }

  lemma ExpandPiece(env: Env, p: Piece, rest: string)
    requires WellFormed(p)
    ensures Expand(env, p.literal + Reference(p.name, rest)) == p.literal + (Lookup(env, p.name) + Expand(env, rest))
  {
    assert Reference(p.name, rest)[0] == '$';
    hide Expand, Lookup, Reference;
    ExpandLiteral(env, p.literal, Reference(p.name, rest));
    ExpandReference(env, p.name, rest);
  }

  /** How a text can end: in a literal, or in one followed by a reference that is never closed. */
  predicate EndsIn(end: string, tail: string) {
    && NoReference(tail)
    && (end == tail || (tail + "$(" <= end && var lost := end[|tail| + 2..]; lost == [] || Name(lost)))
  }

  /** What is behind an unclosed reference is lost. */
  lemma ExpandEnd(env: Env, end: string, tail: string)
    requires EndsIn(end, tail)
    ensures Expand(env, end) == tail
  {
    if end == tail {
      ExpandLiteral(env, tail, []);
      assert tail + [] == tail && Expand(env, []) == [];
    } else {
      var open := "$(" + end[|tail| + 2..];
      ExpandUnclosed(env, end[|tail| + 2..]);
      hide Expand;
      assert end == tail + open;
      ExpandLiteral(env, tail, open);
      assert tail + [] == tail;
    }
  }

  /** Where the first reference opens, or the length. */
  function FirstReference(s: string): (k: nat)
    ensures k <= |s| && (k < |s| ==> ReferenceAt(s, k)) && forall i :: 0 <= i < k ==> !ReferenceAt(s, i)
  {
    if s == [] || ReferenceAt(s, 0) then 0
    else
      var k := FirstReference(s[1..]);
      assert forall i :: 1 <= i ==> ReferenceAt(s, i) == ReferenceAt(s[1..], i - 1);
      1 + k
  }

  /** A text that starts with a literal and a closed reference. */
  predicate StartsClosed(s: string) {
    var k := FirstReference(s);
    k < |s| && NameEnd(s[k + 2..]) < |s[k + 2..]|
  }

  function FirstPieceOf(s: string): Piece
    requires StartsClosed(s)
  {
    var k := FirstReference(s);
    Piece(s[..k], s[k + 2..][..NameEnd(s[k + 2..])])
  }

  function Rest(s: string): (r: string)
    requires StartsClosed(s)
    ensures |r| < |s|
  {
    var k := FirstReference(s);
    s[k + 2..][NameEnd(s[k + 2..]) + 1..]
  }

  function Pieces(s: string): seq<Piece>
    decreases |s|
  {
    if StartsClosed(s) then [FirstPieceOf(s)] + Pieces(Rest(s)) else []
  }

  function End(s: string): string
    decreases |s|
  {
    if StartsClosed(s) then End(Rest(s)) else s
  }

  function Tail(s: string): string { End(s)[..FirstReference(End(s))] }

  lemma {:induction false} EveryTextIsATemplate(s: string)
    ensures Template(Pieces(s), End(s)) == s && EndsIn(End(s), Tail(s))
    ensures forall p :: p in Pieces(s) ==> WellFormed(p)
    decreases |s|
  {
    if Pieces(s) == [] {
      LastPiece(s);
    } else {
      var p, rest := PieceAndRest(s);
      hide *;
      EveryTextIsATemplate(rest);
      TemplateOfOneMore(p, Pieces(rest), End(rest));
    }
  }

  lemma PiecesUnfold(s: string)
    requires Pieces(s) != []
    ensures StartsClosed(s) && Pieces(s) == [FirstPieceOf(s)] + Pieces(Rest(s)) && End(s) == End(Rest(s))
  {
    hide StartsClosed, FirstPieceOf, Rest;
  }

  lemma PieceAndRest(s: string) returns (p: Piece, rest: string)
    requires Pieces(s) != []
    ensures |rest| < |s| && Pieces(s) == [p] + Pieces(rest) && End(s) == End(rest) && Tail(s) == Tail(rest)
    ensures s == p.literal + Reference(p.name, rest) && WellFormed(p)
  {
    hide Pieces, End, FirstReference, NameEnd, Reference, NoReference;
    PiecesUnfold(s);
    PrefixWithoutReference(s);
    p, rest := FirstPieceOf(s), Rest(s);
    var k := FirstReference(s);
    FirstPiece(s, k, NameEnd(s[k + 2..]));
  }

  lemma TemplateOfOneMore(p: Piece, ps: seq<Piece>, end: string)
    ensures Template([p] + ps, end) == p.literal + Reference(p.name, Template(ps, end))
  {
    assert ([p] + ps)[1..] == ps;
    hide Reference;
  }

  lemma FirstPiece(s: string, k: nat, e: nat)
    requires k + 2 + e < |s| && ReferenceAt(s, k) && 1 <= e && s[k + 2..][e] == ')'
    requires var t := s[k + 2..]; forall i :: 1 <= i < e ==> t[i] != ')'
    ensures var t := s[k + 2..]; s == s[..k] + Reference(t[..e], t[e + 1..]) && Name(t[..e])
  {
    var t := s[k + 2..];
    assert t == t[..e] + (")" + t[e + 1..]);
    assert s[k..] == "$(" + t;
  }

  lemma LastPiece(s: string)
    requires Pieces(s) == []
    ensures End(s) == s && EndsIn(s, Tail(s)) && Template([], s) == s
  {
    var k := FirstReference(s);
    PrefixWithoutReference(s);
    if k < |s| {
      var t := s[k + 2..];
      var e := NameEnd(t);
      assert e == |t|;
      hide NameEnd, FirstReference, Pieces, NoReference;
      assert s == s[..k] + "$(" + t;
      assert forall i :: 1 <= i < |t| ==> t[i] != ')';
    } else {
      assert s[..k] == s;
    }
  }

  lemma PrefixWithoutReference(s: string)
    ensures NoReference(s[..FirstReference(s)])
  {
    var k := FirstReference(s);
    assert forall i :: ReferenceAt(s[..k], i) ==> ReferenceAt(s, i);
  }

  /** What expansion makes of any text. */
  lemma ExpandIs(env: Env, s: string)
    ensures Expand(env, s) == Values(env, Pieces(s), Tail(s))
  {
    EveryTextIsATemplate(s);
    ExpandTemplate(env, Pieces(s), End(s));
    ExpandEnd(env, End(s), Tail(s));
    hide *;
  }

  lemma ExpandKeepsPlain(env: Env, s: string)
    requires NoReference(s)
    ensures Expand(env, s) == s
  {
    ExpandLiteral(env, s, []);
    assert s + [] == s && Expand(env, []) == [];
  }
}
