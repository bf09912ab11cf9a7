/** json_builder.cpp: the report of a judging as a JSON text, and a reader that gets it back. */
module JsonBuilder {
  import opened CStrings
  import opened Prefixes
  import opened Wrappers
  import Jobs

  type Report = Jobs.Report

  // ----- String literals -----

  function Escape(c: char): string {
    match c
    case '"' => "\\\""
    case '\\' => "\\\\"
    case '\n' => "\\n"
    case '\r' => "\\r"
    case _ => [c]
  }

  function EscapeAll(s: string): string {
    if s == [] then [] else EscapeAll(s[..|s| - 1]) + Escape(s[|s| - 1])
  }

  /** The literal without its closing quote. */
  function Opened(s: string): string { "\"" + EscapeAll(s) }

  function Quoted(s: string): string { Opened(s) + "\"" }

  predicate Escaped(c: char) { c == '"' || c == '\\' || c == LF || c == CR }

  /** The literal and its NUL fit the buffer, and fill it exactly if every character is escaped. */
  lemma {:induction false} LiteralFits(s: string)
    ensures |Quoted(s)| + 1 <= 2 * |s| + 3
    ensures |Quoted(s)| + 1 == 2 * |s| + 3 <==> forall c :: c in s ==> Escaped(c)
  {
    if s != [] {
      var front, c := s[..|s| - 1], s[|s| - 1];
      LiteralFits(front);
      assert s == front + [c];
      EscapeAppend(front, c);
      EscapeIs(c);
      hide EscapeAll, Escape, Escaped;
    }
  }

  lemma OpenedGrows(s: string, i: nat)
    requires i < |s|
    ensures Opened(s[..i + 1]) == Opened(s[..i]) + Escape(s[i])
    ensures |Opened(s[..i])| <= 2 * i + 1
  {
    assert s[..i + 1][..i] == s[..i];
    LiteralFits(s[..i]);
  }

  lemma OpenedAtEnds(s: string)
    ensures Opened([]) == "\"" && Quoted(s) == Opened(s) + "\"" && |Opened(s)| <= 2 * |s| + 1
  {
    LiteralFits(s);
  }

  lemma EscapeIs(c: char)
    ensures Escaped(c) ==> Escape(c) == ['\\'] + [if c == LF then 'n' else if c == CR then 'r' else c]
    ensures !Escaped(c) ==> Escape(c) == [c]
  {
  }

  lemma EscapeCases(t: string, c: char)
    ensures t + Escape(c) ==
            match c
            case '"' => t + ['\\'] + ['"']
            case '\\' => t + ['\\'] + ['\\']
            case '\n' => t + ['\\'] + ['n']
            case '\r' => t + ['\\'] + ['r']
            case _ => t + [c]
  {
    EscapeIs(c);
    hide Escape;
  }

  class Stream {
    var text: string

    constructor ()
      ensures text == ""
    {
      text := "";
    }

    method Put(s: string)
      modifies this
      ensures text == old(text) + s
    {
      text := text + s;
    }
  }

  /** The escaped literal of one string in an allocated buffer. */
  class Encoder {
    const buf: array<char>

    constructor (s: string)
      ensures fresh(buf) && buf.Length == 2 * |s| + 3
      ensures |Quoted(s)| < buf.Length && buf[..|Quoted(s)|] == Quoted(s) && buf[|Quoted(s)|] == NUL
    {
      buf := new char[2 * |s| + 3];
      new;
      hide *;
      var p := Put(0, '"');
      OpenedAtEnds(s);
      assert s[..0] == [];
      for i := 0 to |s|
        invariant p == |Opened(s[..i])| <= 2 * i + 1
        invariant buf[..p] == Opened(s[..i])
      {
        OpenedGrows(s, i);
        p := PutEscaped(p, s[i]);
      }
      assert s[..|s|] == s;
      p := Put(p, '"');
      buf[p] := NUL;
    }

    /** One turn of the loop. */
    method PutEscaped(p: nat, c: char) returns (q: nat)
      requires p + 1 < buf.Length
      modifies buf
      ensures p <= q <= p + 2 && q <= buf.Length && buf[..q] == old(buf[..p]) + Escape(c)
    {
      hide *;
      EscapeCases(buf[..p], c);
      match c
      case '"' =>
        q := Put(p, '\\');
        q := Put(q, '"');
      case '\\' =>
        q := Put(p, '\\');
        q := Put(q, '\\');
      case '\n' =>
        q := Put(p, '\\');
        q := Put(q, 'n');
      case '\r' =>
        q := Put(p, '\\');
        q := Put(q, 'r');
      case c =>
        q := Put(p, c);
    }

    /** Writing one character through the moving pointer. */
    method Put(p: nat, c: char) returns (q: nat)
      requires p < buf.Length
      modifies buf
      ensures q == p + 1 && buf[..q] == old(buf[..p]) + [c]
    {
      buf[p] := c;
      q := p + 1;
    }

    method Print(os: Stream)
      requires exists n :: 0 <= n < buf.Length && buf[n] == NUL
      modifies os
      ensures os.text == old(os.text) + UpTo(buf[..], NUL)
    {
      os.Put(UpTo(buf[..], NUL));
    }
  }

  function Literal(s: string): string { UpTo(Quoted(s), NUL) }

  lemma PrintedIsLiteral(buf: string, s: string)
    requires |Quoted(s)| < |buf| && buf[..|Quoted(s)|] == Quoted(s) && buf[|Quoted(s)|] == NUL
    ensures UpTo(buf, NUL) == Literal(s)
  {
    var q, n := Quoted(s), |Literal(s)|;
    assert forall i :: 0 <= i < |q| ==> buf[i] == buf[..|q|][i];
    assert buf[..n] == Literal(s);
    UpToIs(buf, NUL, n);
  }

  // ----- The text -----

  predicate IsDigit(c: char) { '0' <= c <= '9' }

  function DigitValue(c: char): (v: nat)
    requires IsDigit(c)
    ensures v < 10
  {
    c as int - '0' as int
  }

  function Digit(v: nat): (c: char)
    requires v < 10
    ensures IsDigit(c) && DigitValue(c) == v
  {
    (v + '0' as int) as char
  }

  function Digits(n: nat): (s: string)
    ensures s != [] && forall i :: 0 <= i < |s| ==> IsDigit(s[i])
  {
    if n < 10 then [Digit(n)] else Digits(n / 10) + [Digit(n % 10)]
  }

  function Decimal(n: int): string { if n < 0 then "-" + Digits(-n) else Digits(n) }

  function Field(n: int): string { Decimal(n) + "," }

  function ReportText(r: Report): string {
    "[" + Field(r.errorCode) + Field(r.time) + Field(r.memory) + Literal(r.info) + "," + Decimal(r.score) + "],"
  }

  function ReportTexts(rs: seq<Report>): string {
    if rs == [] then [] else ReportTexts(rs[..|rs| - 1]) + ReportText(rs[|rs| - 1])
  }

  function Header(finished: bool): string {
    if finished then "{\"state\":\"finish\",\"detail\":[" else "{\"state\":\"wait\",\"detail\":["
  }

  function Ending(): string { "[]]}" }

  function Json(timeStamp: int, detail: seq<Report>): string {
    Header(timeStamp != 0) + ReportTexts(detail) + Ending()
  }

  lemma ReportTextsGrow(rs: seq<Report>, i: nat)
    requires i < |rs|
    ensures ReportTexts(rs[..i + 1]) == ReportTexts(rs[..i]) + ReportText(rs[i])
  {
    assert rs[..i + 1][..i] == rs[..i];
  }

  method Build(json: Stream, timeStamp: int, detail: seq<Report>)
    modifies json
    ensures json.text == old(json.text) + Json(timeStamp, detail)
  {
    hide Header, Ending, ReportTexts, ReportText;
    if timeStamp != 0 {
      json.Put(Header(true));
    } else {
      json.Put(Header(false));
    }
    ghost var start := json.text;
    NoReports(detail);
    for i := 0 to |detail|
      invariant json.text == start + ReportTexts(detail[..i])
    {
      ReportTextsGrow(detail, i);
      PutReport(json, detail[i]);
    }
    assert detail[..|detail|] == detail;
    json.Put(Ending());
    JsonIs(timeStamp, detail);
  }

  lemma NoReports(rs: seq<Report>)
    ensures ReportTexts(rs[..0]) == []
  {
  }

  lemma JsonIs(timeStamp: int, rs: seq<Report>)
    ensures Json(timeStamp, rs) == Header(timeStamp != 0) + (ReportTexts(rs) + Ending())
  {
    hide Header, Ending, ReportTexts;
  }

  method PutField(json: Stream, n: int)
    modifies json
    ensures json.text == old(json.text) + Field(n)
  {
    hide Decimal;
    json.Put(Decimal(n));
    json.Put(",");
  }

  /** The numbers at the head of a report. */
  method PutHead(json: Stream, c: Report)
    modifies json
    ensures json.text == old(json.text) + ("[" + Field(c.errorCode) + Field(c.time) + Field(c.memory))
  {
    hide Field;
    json.Put("[");
    PutField(json, c.errorCode);
    PutField(json, c.time);
    PutField(json, c.memory);
  }

  /** The body of the loop: one chain of output operators. */
  method PutReport(json: Stream, c: Report)
    modifies json
    ensures json.text == old(json.text) + ReportText(c)
  {
    ReportTextIs(c);
    hide *;
    PutHead(json, c);
    var e := new Encoder(c.info);
    PrintedIsLiteral(e.buf[..], c.info);
    e.Print(json);
    json.Put(",");
    json.Put(Decimal(c.score));
    json.Put("],");
  }

  // ----- Reading it back -----

  datatype Parse<T> = Failure | Success(value: T, rest: string)

  /** The number of leading digits. */
  function DigitRun(s: string): (k: nat)
    ensures k <= |s| && forall i :: 0 <= i < k ==> IsDigit(s[i])
  {
    if s == [] || !IsDigit(s[0]) then 0 else 1 + DigitRun(s[1..])
  }

  function Value(ds: string): nat
    requires forall i :: 0 <= i < |ds| ==> IsDigit(ds[i])
  {
    if ds == [] then 0 else Value(ds[..|ds| - 1]) * 10 + DigitValue(ds[|ds| - 1])
  }

  function ReadNat(s: string): (r: Parse<int>)
    ensures r.Success? ==> |r.rest| < |s|
  {
    var k := DigitRun(s);
    if k == 0 then Failure else Success(Value(s[..k]), s[k..])
  }

  function ReadInt(s: string): (r: Parse<int>)
    ensures r.Success? ==> |r.rest| < |s|
  {
    if s != [] && s[0] == '-' then
      match ReadNat(s[1..])
      case Failure => Failure
      case Success(n, rest) => Success(-n, rest)
    else ReadNat(s)
  }

  /** An integer and the comma behind it. */
  function ReadField(s: string): (r: Parse<int>)
    ensures r.Success? ==> |r.rest| < |s|
  {
    match ReadInt(s)
    case Failure => Failure
    case Success(n, rest) => if "," <= rest then Success(n, rest[1..]) else Failure
  }

  function Unescape(c: char): Option<char> {
    match c
    case '"' => Some('"')
    case '\\' => Some('\\')
    case '/' => Some('/')
    case 'n' => Some(LF)
    case 'r' => Some(CR)
    case 't' => Some('\t')
    case _ => None
  }

  /** The characters of a literal up to its closing quote. */
  function ReadChars(s: string): (r: Parse<string>)
    ensures r.Success? ==> |r.rest| < |s|
  {
    if s == [] then Failure
    else if s[0] == '"' then Success("", s[1..])
    else if s[0] == '\\' then
      if |s| < 2 || Unescape(s[1]).None? then Failure
      else
        match ReadChars(s[2..])
        case Failure => Failure
        case Success(t, rest) => Success([Unescape(s[1]).value] + t, rest)
    else
      match ReadChars(s[1..])
      case Failure => Failure
      case Success(t, rest) => Success([s[0]] + t, rest)
  }

  function ReadString(s: string): (r: Parse<string>)
    ensures r.Success? ==> |r.rest| < |s|
  {
    if "\"" <= s then ReadChars(s[1..]) else Failure
  }

  /** The report that follows an opening bracket. */
  function ReadReport(s: string): (r: Parse<Report>)
    ensures r.Success? ==> |r.rest| < |s|
  {
    var e := ReadField(s);
    if e.Failure? then Failure
    else
      var t := ReadField(e.rest);
      if t.Failure? then Failure
      else
        var m := ReadField(t.rest);
        if m.Failure? then Failure
        else
          var i := ReadString(m.rest);
          if i.Failure? || !("," <= i.rest) then Failure
          else
            var c := ReadInt(i.rest[1..]);
            if c.Failure? || !("]," <= c.rest) then Failure
            else Success(Jobs.Report(e.value, t.value, m.value, i.value, c.value), c.rest[2..])
  }

  /** Reports up to the empty list that marks the end. */
  function ReadDetail(s: string): Option<seq<Report>>
    decreases |s|
  {
    if s == "[]]}" then Some([])
    else if !("[" <= s) then None
    else
      match ReadReport(s[1..])
      case Failure => None
      case Success(r, rest) =>
        match ReadDetail(rest)
        case None => None
        case Some(rs) => Some([r] + rs)
  }

  datatype Progress = Progress(finished: bool, detail: seq<Report>)

  function Decode(s: string): Option<Progress> {
    if "{\"state\":\"finish\",\"detail\":[" <= s then
      match ReadDetail(s[28..])
      case None => None
      case Some(rs) => Some(Progress(true, rs))
    else if "{\"state\":\"wait\",\"detail\":[" <= s then
      match ReadDetail(s[26..])
      case None => None
      case Some(rs) => Some(Progress(false, rs))
    else None
  }

  // ----- The round trip -----

  lemma {:induction false} ValueOfDigits(n: nat)
    ensures Value(Digits(n)) == n
  {
    if n >= 10 {
      ValueOfDigits(n / 10);
      assert Digits(n)[..|Digits(n)| - 1] == Digits(n / 10);
    } else {
      assert Value([]) == 0;
      assert Digits(n)[..0] == [];
    }
  }

  lemma {:induction false} DigitRunIs(ds: string, rest: string)
    requires forall i :: 0 <= i < |ds| ==> IsDigit(ds[i])
    requires rest == [] || !IsDigit(rest[0])
    ensures DigitRun(ds + rest) == |ds|
  {
    if ds == [] {
      assert ds + rest == rest;
    } else {
      assert (ds + rest)[1..] == ds[1..] + rest;
      DigitRunIs(ds[1..], rest);
    }
  }

  lemma ReadNatIs(n: nat, rest: string)
    requires rest == [] || !IsDigit(rest[0])
    ensures ReadNat(Digits(n) + rest) == Success(n, rest)
  {
    var ds := Digits(n);
    DigitRunIs(ds, rest);
    ValueOfDigits(n);
    assert (ds + rest)[..|ds|] == ds && (ds + rest)[|ds|..] == rest;
    hide Digits, Value, DigitRun;
  }

  lemma ReadIntIs(n: int, rest: string)
    requires rest == [] || !IsDigit(rest[0])
    ensures ReadInt(Decimal(n) + rest) == Success(n, rest)
  {
    hide ReadNat, Digits;
    if n < 0 {
      ReadNatIs(-n, rest);
      assert (Decimal(n) + rest)[1..] == Digits(-n) + rest;
    } else {
      ReadNatIs(n, rest);
    }
  }

  lemma ReadFieldIs(n: int, rest: string)
    ensures ReadField(Field(n) + rest) == Success(n, rest)
  {
    ReadIntIs(n, "," + rest);
    Associative(Decimal(n), ",", rest);
    hide ReadInt, Decimal;
    assert ("," + rest)[1..] == rest;
  }

  lemma EscapeAppend(s: string, c: char)
    ensures EscapeAll(s + [c]) == EscapeAll(s) + Escape(c)
  {
    assert (s + [c])[..|s|] == s;
  }

  lemma {:induction false} EscapeSplit(s: string, t: string)
    ensures EscapeAll(s + t) == EscapeAll(s) + EscapeAll(t)
  {
    if t == [] {
      assert s + t == s;
    } else {
      hide *;
      var front, c := t[..|t| - 1], t[|t| - 1];
      assert t == front + [c];
      assert s + t == (s + front) + [c];
      EscapeSplit(s, front);
      EscapeAppend(s + front, c);
      EscapeAppend(front, c);
      Associative(EscapeAll(s), EscapeAll(front), Escape(c));
    }
  }

  lemma EscapeOne(c: char, s: string)
    ensures EscapeAll([c] + s) == Escape(c) + EscapeAll(s)
  {
    EscapeSplit([c], s);
    EscapeNone();
    EscapeAppend([], c);
    hide *;
    assert [] + [c] == [c];
  }

  lemma EscapeNone()
    ensures EscapeAll([]) == []
  {
  }

  lemma {:induction false} ReadCharsIs(s: string, rest: string)
    ensures ReadChars(EscapeAll(s) + ("\"" + rest)) == Success(s, rest)
  {
    hide *;
    EscapeNone();
    ReadQuote(rest);
    if s == [] {
      assert [] + ("\"" + rest) == "\"" + rest;
    } else {
      var c, tail := s[0], s[1..];
      assert s == [c] + tail;
      EscapeOne(c, tail);
      ReadCharsIs(tail, rest);
      ReadOneChar(c, tail, EscapeAll(tail) + ("\"" + rest), rest);
      Associative(Escape(c), EscapeAll(tail), "\"" + rest);
    }
  }

  lemma ReadQuote(rest: string)
    ensures ReadChars("\"" + rest) == Success([], rest)
  {
    assert ("\"" + rest)[1..] == rest;
  }

  lemma ReadOneChar(c: char, s: string, text: string, rest: string)
    requires ReadChars(text) == Success(s, rest)
    ensures ReadChars(Escape(c) + text) == Success([c] + s, rest)
  {
    EscapeIs(c);
    hide Escape;
    if Escaped(c) {
      ReadEscaped(c, text);
    } else {
      assert (Escape(c) + text)[1..] == text;
    }
  }

  lemma ReadEscaped(c: char, text: string)
    requires Escaped(c)
    ensures var e := Escape(c);
            && |e| == 2 && e[0] == '\\' && Unescape(e[1]) == Some(c)
            && (e + text)[2..] == text
  {
  }

  lemma ReadStringIs(s: string, rest: string)
    requires NUL !in s
    ensures ReadString(Literal(s) + rest) == Success(s, rest)
  {
    hide *;
    LiteralOfText(s);
    QuotedParts(s);
    var text := EscapeAll(s) + ("\"" + rest);
    Associative("\"", EscapeAll(s) + "\"", rest);
    Associative(EscapeAll(s), "\"", rest);
    ReadOpened(text);
    ReadCharsIs(s, rest);
  }

  lemma QuotedParts(s: string)
    ensures Quoted(s) == "\"" + (EscapeAll(s) + "\"")
  {
    hide EscapeAll;
  }

  lemma ReadOpened(text: string)
    ensures ReadString("\"" + text) == ReadChars(text)
  {
    hide ReadChars;
    assert ("\"" + text)[1..] == text;
  }

  lemma {:induction false} EscapeAddsNoNul(s: string)
    ensures NUL in EscapeAll(s) <==> NUL in s
  {
    if s != [] {
      var front, c := s[..|s| - 1], s[|s| - 1];
      EscapeAddsNoNul(front);
      assert s == front + [c];
      assert NUL in EscapeAll(s) <==> NUL in EscapeAll(front) || NUL in Escape(c);
    }
  }

  lemma LiteralOfText(s: string)
    requires NUL !in s
    ensures Literal(s) == Quoted(s)
  {
    EscapeAddsNoNul(s);
    hide EscapeAll;
    var q := Quoted(s);
    assert NUL !in q;
    assert q[..|q|] == q;
    UpToIs(q, NUL, |q|);
  }

  lemma ReportTextIs(r: Report)
    ensures ReportText(r) == "[" + (Field(r.errorCode) + (Field(r.time) + (Field(r.memory) + (Literal(r.info) +
                             ("," + (Decimal(r.score) + "],"))))))
    ensures ReportText(r) == "[" + Field(r.errorCode) + Field(r.time) + Field(r.memory) + Literal(r.info) + "," +
                             Decimal(r.score) + "],"
  {
    hide Decimal, Literal;
  }

  /** The text of a report behind its opening bracket, with what follows, part by part. */
  ghost predicate Parts(r: Report, afterCode: string, afterTime: string, afterMemory: string,
                        afterInfo: string, afterScore: string, rest: string)
  {
    && afterCode == Field(r.time) + afterTime
    && afterTime == Field(r.memory) + afterMemory
    && afterMemory == Literal(r.info) + afterInfo
    && afterInfo == "," + (Decimal(r.score) + afterScore)
    && afterScore == "]," + rest
  }

  lemma PartsOfText(r: Report, rest: string)
    returns (afterCode: string, afterTime: string, afterMemory: string, afterInfo: string, afterScore: string)
    ensures Parts(r, afterCode, afterTime, afterMemory, afterInfo, afterScore, rest)
    ensures "[" <= ReportText(r) && ReportText(r)[1..] + rest == Field(r.errorCode) + afterCode
  {
    ReportTextIs(r);
    hide ReportText, Field, Decimal, Literal;
    afterScore := "]," + rest;
    afterInfo := "," + (Decimal(r.score) + afterScore);
    afterMemory := Literal(r.info) + afterInfo;
    afterTime := Field(r.memory) + afterMemory;
    afterCode := Field(r.time) + afterTime;
    var t := Field(r.errorCode) + (Field(r.time) + (Field(r.memory) + (Literal(r.info) +
             ("," + (Decimal(r.score) + "],")))));
    assert ReportText(r)[1..] == t;
  }

  lemma ReadReportIs(r: Report, rest: string)
    requires NUL !in r.info
    ensures "[" <= ReportText(r) && ReadReport(ReportText(r)[1..] + rest) == Success(r, rest)
  {
    var afterCode, afterTime, afterMemory, afterInfo, afterScore := PartsOfText(r, rest);
    hide Field, Decimal, Literal, ReportText, ReadReport, ReadField, ReadInt, ReadString;
    ReadFieldIs(r.errorCode, afterCode);
    ReadFieldIs(r.time, afterTime);
    ReadFieldIs(r.memory, afterMemory);
    ReadStringIs(r.info, afterInfo);
    assert afterScore[0] == ']';
    ReadIntIs(r.score, afterScore);
    assert afterInfo[1..] == Decimal(r.score) + afterScore;
    assert afterScore[2..] == rest;
    ReadReportSteps(r, ReportText(r)[1..] + rest, afterCode, afterTime, afterMemory, afterInfo, afterScore);
  }

  /** If each part of a report reads as it should, so does the report. */
  lemma ReadReportSteps(r: Report, s: string, afterCode: string, afterTime: string, afterMemory: string,
                        afterInfo: string, afterScore: string)
    requires ReadField(s) == Success(r.errorCode, afterCode)
    requires ReadField(afterCode) == Success(r.time, afterTime)
    requires ReadField(afterTime) == Success(r.memory, afterMemory)
    requires ReadString(afterMemory) == Success(r.info, afterInfo) && "," <= afterInfo
    requires ReadInt(afterInfo[1..]) == Success(r.score, afterScore) && "]," <= afterScore
    ensures ReadReport(s) == Success(r, afterScore[2..])
  {
    hide ReadField, ReadString, ReadInt;
  }

  lemma {:induction false} ReportTextsOne(r: Report, rs: seq<Report>)
    ensures ReportTexts([r] + rs) == ReportText(r) + ReportTexts(rs)
  {
    hide ReportText;
    if rs == [] {
      assert ([r] + rs)[..0] == [] && ReportTexts([]) == [];
    } else {
      var front := rs[..|rs| - 1];
      assert ([r] + rs)[..|rs|] == [r] + front;
      ReportTextsOne(r, front);
    }
  }

  /** The trailing empty list stops the reader. */
  lemma {:induction false} ReadDetailIs(rs: seq<Report>)
    requires forall r :: r in rs ==> NUL !in r.info
    ensures ReadDetail(ReportTexts(rs) + Ending()) == Some(rs)
  {
    hide *;
    if rs == [] {
      ReadNoReports();
    } else {
      assert rs == [rs[0]] + rs[1..] && rs[0] in rs;
      ReadDetailIs(rs[1..]);
      ReadOneMore(rs[0], rs[1..]);
    }
  }

  lemma ReadNoReports()
    ensures ReadDetail(ReportTexts([]) + Ending()) == Some([])
  {
    assert ReportTexts([]) + Ending() == Ending();
  }

  lemma ReadOneMore(r: Report, tail: seq<Report>)
    requires NUL !in r.info && ReadDetail(ReportTexts(tail) + Ending()) == Some(tail)
    ensures ReadDetail(ReportTexts([r] + tail) + Ending()) == Some([r] + tail)
  {
    hide *;
    var rest := ReportTexts(tail) + Ending();
    ReportTextsOne(r, tail);
    ReadReportIs(r, rest);
    var s := ReportTexts([r] + tail) + Ending();
    assert s == ReportText(r) + rest;
    assert s[1..] == ReportText(r)[1..] + rest;
    ReadDetailStep(s, r, rest, tail);
  }

  lemma ReadDetailStep(s: string, r: Report, rest: string, tail: seq<Report>)
    requires "[" <= s && ReadReport(s[1..]) == Success(r, rest) && ReadDetail(rest) == Some(tail)
    ensures ReadDetail(s) == Some([r] + tail)
  {
    hide ReadReport;
  }

  lemma HeaderUnambiguous(rest: string)
    ensures !("{\"state\":\"finish\",\"detail\":[" <= "{\"state\":\"wait\",\"detail\":[" + rest)
  {
    var w, f := "{\"state\":\"wait\",\"detail\":[", "{\"state\":\"finish\",\"detail\":[";
    assert (w + rest)[10] == 'w' && f[10] == 'f';
  }

  lemma HeaderRead(finished: bool, rest: string)
    ensures var n := if finished then 28 else 26;
            |Header(finished)| == n && (Header(finished) + rest)[n..] == rest
  {
    assert (Header(finished) + rest)[|Header(finished)|..] == rest;
  }

  lemma DecodeIs(finished: bool, rest: string)
    ensures Decode(Header(finished) + rest) ==
            if ReadDetail(rest).None? then None else Some(Progress(finished, ReadDetail(rest).value))
  {
    HeaderUnambiguous(rest);
    HeaderRead(finished, rest);
    hide ReadDetail;
  }

  // ----- The text itself -----

  /** What a client looks for in the text: a finished report and an unfinished one start differently, and both end with
      the empty list that closes the details. */
  lemma TextStartsAndEnds(timeStamp: int, detail: seq<Report>)
    ensures var s := Json(timeStamp, detail);
            && ("{\"state\":\"finish\",\"detail\":[" <= s <==> timeStamp != 0)
            && ("{\"state\":\"wait\",\"detail\":[" <= s <==> timeStamp == 0)
            && |s| >= 4 && s[|s| - 4..] == "[]]}"
  {
    var rest := ReportTexts(detail) + Ending();
    JsonIs(timeStamp, detail);
    hide ReportTexts;
    HeaderUnambiguous(rest);
    var s := Header(timeStamp != 0) + rest;
    assert s[|s| - 4..] == "[]]}";
    assert timeStamp != 0 ==> s[10] == 'f';
  }

  /** Without reports these are the whole text. */
  lemma TextWithoutReports(timeStamp: int)
    ensures Json(timeStamp, []) == if timeStamp == 0 then "{\"state\":\"wait\",\"detail\":[[]]}"
                                   else "{\"state\":\"finish\",\"detail\":[[]]}"
  {
    hide Json, Header;
    JsonIs(timeStamp, []);
    assert ReportTexts([]) + Ending() == "[]]}";
    BareText(timeStamp != 0);
  }

  lemma BareText(finished: bool)
    ensures Header(finished) + "[]]}" == if finished then "{\"state\":\"finish\",\"detail\":[[]]}"
                                         else "{\"state\":\"wait\",\"detail\":[[]]}"
  {
  }

  /** The reports stand between the two in their order. */
  lemma {:induction false} TextsInOrder(a: seq<Report>, b: seq<Report>)
    ensures ReportTexts(a + b) == ReportTexts(a) + ReportTexts(b)
  {
    hide ReportText;
    if b == [] {
      assert a + b == a;
    } else {
      var n := |b| - 1;
      TextsInOrder(a, b[..n]);
      assert (a + b)[..|a + b| - 1] == a + b[..n] && (a + b)[|a + b| - 1] == b[n];
      assert ReportTexts(a) + ReportTexts(b[..n]) + ReportText(b[n]) ==
             ReportTexts(a) + (ReportTexts(b[..n]) + ReportText(b[n]));
    }
  }

  /** Each as five values in brackets, with a comma behind. */
  lemma OneText(r: Report)
    ensures ReportTexts([r]) == "[" + Decimal(r.errorCode) + "," + Decimal(r.time) + "," + Decimal(r.memory) + "," +
                                Literal(r.info) + "," + Decimal(r.score) + "],"
  {
    hide ReportText;
    assert [r][..0] == [] && [] + ReportText(r) == ReportText(r);
    FiveValues(r);
  }

  lemma FiveValues(r: Report)
    ensures ReportText(r) == "[" + Decimal(r.errorCode) + "," + Decimal(r.time) + "," + Decimal(r.memory) + "," +
                             Literal(r.info) + "," + Decimal(r.score) + "],"
  {
    hide Decimal, Literal;
    var e, t, m := Decimal(r.errorCode), Decimal(r.time), Decimal(r.memory);
    assert "[" + (e + ",") + (t + ",") + (m + ",") == "[" + e + "," + t + "," + m + ",";
  }

  /** Numbers are written in base ten. */
  lemma DecimalExamples()
    ensures Decimal(0) == "0" && Decimal(7) == "7" && Decimal(100) == "100" && Decimal(-25) == "-25"
  {
    assert Digits(10) == Digits(1) + "0";
  }

  // ----- What the reader returns holds no NUL -----

  lemma {:induction false} ReadCharsWithoutNul(s: string)
    requires NUL !in s && ReadChars(s).Success?
    ensures NUL !in ReadChars(s).value && NUL !in ReadChars(s).rest
  {
    if s[0] == '"' {
    } else if s[0] == '\\' {
      ReadCharsWithoutNul(s[2..]);
    } else {
      ReadCharsWithoutNul(s[1..]);
    }
  }

  lemma ReadIntRest(s: string)
    requires ReadInt(s).Success? && NUL !in s
    ensures NUL !in ReadInt(s).rest
  {
    hide Value, DigitRun;
  }

  lemma ReadFieldRest(s: string)
    requires ReadField(s).Success? && NUL !in s
    ensures NUL !in ReadField(s).rest
  {
    ReadIntRest(s);
    hide ReadInt;
  }

  lemma ReadReportWithoutNul(s: string)
    requires NUL !in s && ReadReport(s).Success?
    ensures NUL !in ReadReport(s).value.info && NUL !in ReadReport(s).rest
  {
    hide ReadField, ReadInt, ReadChars;
    var e := ReadField(s);
    ReadFieldRest(s);
    var t := ReadField(e.rest);
    ReadFieldRest(e.rest);
    var m := ReadField(t.rest);
    ReadFieldRest(t.rest);
    ReadCharsWithoutNul(m.rest[1..]);
    var i := ReadString(m.rest);
    ReadIntRest(i.rest[1..]);
  }

  lemma {:induction false} ReadDetailWithoutNul(s: string)
    requires NUL !in s && ReadDetail(s).Some?
    ensures forall r :: r in ReadDetail(s).value ==> NUL !in r.info
    decreases |s|
  {
    hide ReadReport;
    if s != Ending() {
      ReadReportWithoutNul(s[1..]);
      ReadDetailWithoutNul(ReadReport(s[1..]).rest);
    }
  }

  lemma DecimalWithoutNul(n: int)
    ensures NUL !in Decimal(n)
  {
    hide Digits;
  }

  lemma ReportWithoutNul(r: Report)
    ensures NUL !in ReportText(r)
  {
    DecimalWithoutNul(r.errorCode);
    DecimalWithoutNul(r.time);
    DecimalWithoutNul(r.memory);
    DecimalWithoutNul(r.score);
    hide Decimal, Quoted;
  }

  lemma {:induction false} ReportTextsWithoutNul(rs: seq<Report>)
    ensures NUL !in ReportTexts(rs)
  {
    if rs != [] {
      ReportTextsWithoutNul(rs[..|rs| - 1]);
      ReportWithoutNul(rs[|rs| - 1]);
      hide ReportText;
    }
  }

  /** The reader recovers state and details exactly if no information text holds a NUL. */
  lemma RoundTripIff(timeStamp: int, detail: seq<Report>)
    ensures Decode(Json(timeStamp, detail)) == Some(Progress(timeStamp != 0, detail)) <==>
            forall r :: r in detail ==> NUL !in r.info
  {
    var rest := ReportTexts(detail) + Ending();
    JsonIs(timeStamp, detail);
    DecodeIs(timeStamp != 0, rest);
    ReportTextsWithoutNul(detail);
    assert NUL !in rest;
    hide *;
    if forall r :: r in detail ==> NUL !in r.info {
      ReadDetailIs(detail);
    } else if ReadDetail(rest).Some? {
      ReadDetailWithoutNul(rest);
    }
  }

  // ----- Section 7 of RFC 8259 -----

  predicate IsHex(c: char) { IsDigit(c) || 'a' <= c <= 'f' || 'A' <= c <= 'F' }

  /** *char quotation-mark: what may follow the opening quote. */
  predicate LegalRest(t: string) {
    if t == [] then false
    else if t[0] == '"' then |t| == 1
    else if t[0] == '\\' then
      && |t| >= 2
      && (if t[1] == 'u' then |t| >= 6 && (forall i :: 2 <= i < 6 ==> IsHex(t[i])) && LegalRest(t[6..])
          else t[1] in "\"\\/bfnrt" && LegalRest(t[2..]))
    else t[0] >= ' ' && LegalRest(t[1..])
  }

  predicate LegalLiteral(t: string) { t != [] && t[0] == '"' && LegalRest(t[1..]) }

  predicate Printable(c: char) { c >= ' ' || c == LF || c == CR }

  lemma {:induction false} LegalEscapes(s: string)
    ensures LegalRest(EscapeAll(s) + "\"") <==> forall c :: c in s ==> Printable(c)
  {
    var t := EscapeAll(s) + "\"";
    if s == [] {
      assert t == "\"";
    } else {
      var c, tail := s[0], s[1..];
      assert s == [c] + tail;
      EscapeOne(c, tail);
      LegalEscapes(tail);
      var rest := EscapeAll(tail) + "\"";
      assert t == Escape(c) + rest;
      LegalOneChar(c, rest);
      assert forall d :: d in s <==> d == c || d in tail;
    }
  }

  lemma LegalOneChar(c: char, rest: string)
    ensures LegalRest(Escape(c) + rest) <==> Printable(c) && LegalRest(rest)
  {
    var e := Escape(c);
    assert (e + rest)[|e|..] == rest;
  }

  lemma {:induction false} NeverClosed(s: string)
    ensures !LegalRest(EscapeAll(s))
  {
    if s != [] {
      assert s == [s[0]] + s[1..];
      EscapeOne(s[0], s[1..]);
      NeverClosed(s[1..]);
      LegalOneChar(s[0], EscapeAll(s[1..]));
    }
  }

  lemma SplitAtNul(s: string)
    requires NUL in s
    ensures var n := |UpTo(s, NUL)|; n < |s| && s == UpTo(s, NUL) + ([NUL] + s[n + 1..])
  {
    var p := UpTo(s, NUL);
    hide UpTo;
    assert |p| == |s| ==> p == s;
  }

  lemma EscapeUpToNul(s: string)
    requires NUL in s
    ensures var n := |UpTo(s, NUL)|;
            n < |s| && EscapeAll(s) == EscapeAll(UpTo(s, NUL)) + (Escape(NUL) + EscapeAll(s[n + 1..]))
  {
    hide *;
    var n := |UpTo(s, NUL)|;
    SplitAtNul(s);
    EscapeSplit(UpTo(s, NUL), [NUL] + s[n + 1..]);
    EscapeOne(NUL, s[n + 1..]);
  }

  lemma QuotedAtNul(s: string, p: string, tail: string)
    requires EscapeAll(s) == EscapeAll(p) + (Escape(NUL) + tail)
    ensures Quoted(s) == Opened(p) + ([NUL] + (tail + "\""))
    ensures Opened(p) == "\"" + EscapeAll(p)
  {
    EscapeIs(NUL);
    hide EscapeAll, Escape;
  }

  /** Printing stops at a NUL, so the literal lacks its closing quote. */
  lemma NulCutsTheLiteral(s: string)
    requires NUL in s
    ensures Literal(s) == Opened(UpTo(s, NUL)) && !LegalLiteral(Literal(s))
  {
    var p := UpTo(s, NUL);
    EscapeUpToNul(s);
    var tail := EscapeAll(s[|p| + 1..]);
    QuotedAtNul(s, p, tail);
    EscapeAddsNoNul(p);
    NeverClosed(p);
    hide EscapeAll, LegalRest, UpTo, Quoted, Opened, Escape;
    var q := Opened(p);
    assert Quoted(s)[..|q|] == q && Quoted(s)[|q|] == NUL;
    UpToIs(Quoted(s), NUL, |q|);
    assert q[1..] == EscapeAll(p);
  }

  /** What is printed for a text is a legal string literal exactly if the text holds no control character but LF
      and CR. */
  lemma LegalIff(s: string)
    ensures LegalLiteral(Literal(s)) <==> forall c :: c in s ==> Printable(c)
  {
    if NUL in s {
      NulCutsTheLiteral(s);
    } else {
      LegalEscapes(s);
      LiteralOfText(s);
      assert Quoted(s)[1..] == EscapeAll(s) + "\"";
    }
  }
}
