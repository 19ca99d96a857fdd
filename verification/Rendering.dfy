/** Well-formed requests as clients write them, and what the parser makes of them. */
module Rendering {
  import opened Types
  import opened Http
  import opened Json

  /** A header field, with blanks around its value. */
  datatype Field = Field(name: string, lead: string, value: string, trail: string)
  {
    predicate Valid() {
      && name != "" && IsToken(name) && Blanks(lead) && Blanks(trail) && Plain(value)
      && (value != "" ==> !IsBlank(value[0]) && !IsBlank(value[|value| - 1]))
    }

    function Line(): string {
      name + ([':'] + (lead + (value + trail)))
    }
  }

  predicate Blanks(s: string) {
    forall i :: 0 <= i < |s| ==> IsBlank(s[i])
  }

  predicate Plain(s: string) {
    forall i :: 0 <= i < |s| ==> s[i] != '\r' && s[i] != '\n' && s[i] != '\0'
  }

  datatype Message = Message(verb: string, path: string, version: string, fields: seq<Field>, body: string)
  {
    function Start(): string {
      verb + ([' '] + (path + ([' '] + version)))
    }
  }

  function Lined(s: string, rest: string): string {
    s + (CRLF + rest)
  }

  /** The header lines, then `rest`. */
  function RenderFields(fs: seq<Field>, rest: string): string {
    if fs == [] then rest else Lined(fs[0].Line(), RenderFields(fs[1..], rest))
  }

  function Render(m: Message): string {
    Lined(m.Start(), RenderFields(m.fields, CRLF + m.body))
  }

  function LinesOf(fs: seq<Field>): Lines {
    if fs == [] then End else Line(fs[0].name, fs[0].value, LinesOf(fs[1..]))
  }

  predicate AllValid(fs: seq<Field>) {
    fs == [] || (fs[0].Valid() && AllValid(fs[1..]))
  }

  // ---------------------------------------------------------------- finding things in concatenations

  lemma {:induction false} FindSkips(data: string, pattern: string, from: nat, k: nat)
    requires from <= k && forall j :: from <= j < k ==> !At(data, pattern, j)
    ensures Find(data, pattern, from) == Find(data, pattern, k)
    decreases k - from
  {
    if from < k {
      FindSkips(data, pattern, from + 1, k);
    }
  }

  function Shift(n: nat, r: int): int {
    if r == -1 then -1 else n + r
  }

  lemma AtShifted(pre: string, x: string, pattern: string, k: nat)
    ensures At(pre + x, pattern, |pre| + k) <==> At(x, pattern, k)
  {
    if k + |pattern| <= |x| {
      assert (pre + x)[|pre| + k..|pre| + k + |pattern|] == x[k..k + |pattern|];
    }
  }

  lemma {:induction false} FindShifted(pre: string, x: string, pattern: string, k: nat)
    ensures Find(pre + x, pattern, |pre| + k) == Shift(|pre|, Find(x, pattern, k))
    decreases |x| - k
  {
    AtShifted(pre, x, pattern, k);
    if k + |pattern| <= |x| && !At(x, pattern, k) {
      FindShifted(pre, x, pattern, k + 1);
    }
  }

  lemma AtHas(data: string, pattern: string, k: nat, i: nat)
    requires i < |pattern|
    ensures At(data, pattern, k) ==> data[k + i] == pattern[i]
  {
    if At(data, pattern, k) {
      assert data[k..k + |pattern|][i] == data[k + i];
    }
  }

  /** A line ends where it was ended. */
  lemma FindLineEnd(s: string, rest: string)
    requires Plain(s)
    ensures Find(Lined(s, rest), CRLF, 0) == |s|
  {
    var data := Lined(s, rest);
    forall j | 0 <= j < |s| ensures !At(data, CRLF, j) {
      AtHas(data, CRLF, j, 0);
    }
    FindSkips(data, CRLF, 0, |s|);
    assert data[|s|..|s| + 2] == CRLF;
  }

  lemma FindChar(s: string, c: char, rest: string)
    requires c !in s
    ensures Find(s + ([c] + rest), [c], 0) == |s|
  {
    var data := s + ([c] + rest);
    forall j | 0 <= j < |s| ensures !At(data, [c], j) {
      assert data[j..j + 1] == [s[j]];
    }
    FindSkips(data, [c], 0, |s|);
    assert data[|s|..|s| + 1] == [c];
  }

  // ---------------------------------------------------------------- one header line

  lemma {:induction false} TrimsLeft(lead: string, s: string)
    requires Blanks(lead)
    ensures TrimLeft(lead + s) == TrimLeft(s)
  {
    if lead == "" {
      assert lead + s == s;
    } else {
      assert (lead + s)[1..] == lead[1..] + s;
      TrimsLeft(lead[1..], s);
    }
  }

  lemma {:induction false} TrimsRight(s: string, trail: string)
    requires Blanks(trail)
    ensures TrimRight(s + trail) == TrimRight(s)
  {
    if trail == "" {
      assert s + trail == s;
    } else {
      var t := s + trail;
      assert t[..|t| - 1] == s + trail[..|trail| - 1];
      TrimsRight(s, trail[..|trail| - 1]);
    }
  }

  lemma TrimsBoth(f: Field)
    requires f.Valid()
    ensures Trim(f.lead + (f.value + f.trail)) == f.value
  {
    TrimsLeft(f.lead, f.value + f.trail);
    if f.value == "" {
      assert f.value + f.trail == f.trail && f.trail + "" == f.trail && "" + f.trail == f.trail;
      TrimsLeft(f.trail, "");
    } else {
      assert (f.value + f.trail)[0] == f.value[0];
      TrimsRight(f.value, f.trail);
    }
  }

  lemma LineIsPlain(f: Field)
    requires f.Valid()
    ensures Plain(f.Line()) && f.Line() != "" && f.Line()[0] != '\r'
  {
  }

  lemma CutsField(f: Field, rest: string, more: Lines)
    requires f.Valid()
    ensures CutHeader(Lined(f.Line(), rest), 0, |f.Line()|, more) == Line(f.name, f.value, more)
  {
    var line := f.Line();
    var data := Lined(line, rest);
    var after := f.lead + (f.value + f.trail);
    assert data == f.name + ([':'] + (after + (CRLF + rest)));
    FindChar(f.name, ':', after + (CRLF + rest));
    assert data[0..|f.name|] == f.name;
    assert data[|f.name| + 1..|line|] == after;
    TrimsBoth(f);
  }

  // ---------------------------------------------------------------- the header block

  /** Where the last header line ends. */
  function LastEnd(fs: seq<Field>): nat
    requires fs != []
  {
    |fs[0].Line()| + if |fs| == 1 then 0 else 2 + LastEnd(fs[1..])
  }

  lemma BlankLineSkipsLine(f: Field, rest: string)
    requires f.Valid() && rest != "" && rest[0] != '\r'
    ensures Find(Lined(f.Line(), rest), BLANK_LINE, 0) == Shift(|f.Line()| + 2, Find(rest, BLANK_LINE, 0))
  {
    hide Find;
    var line := f.Line();
    var data := Lined(line, rest);
    LineIsPlain(f);
    forall j | 0 <= j < |line| + 2 ensures !At(data, BLANK_LINE, j) {
      AtHas(data, BLANK_LINE, j, 0);
      AtHas(data, BLANK_LINE, j, 2);
    }
    FindSkips(data, BLANK_LINE, 0, |line| + 2);
    assert data == (line + CRLF) + rest;
    FindShifted(line + CRLF, rest, BLANK_LINE, 0);
  }

  lemma BlankLineEndsLine(f: Field, rest: string)
    requires f.Valid()
    ensures Find(Lined(f.Line(), CRLF + rest), BLANK_LINE, 0) == |f.Line()|
  {
    var line := f.Line();
    var data := Lined(line, CRLF + rest);
    LineIsPlain(f);
    forall j | 0 <= j < |line| ensures !At(data, BLANK_LINE, j) {
      AtHas(data, BLANK_LINE, j, 0);
    }
    FindSkips(data, BLANK_LINE, 0, |line|);
    assert data[|line|..|line| + 4] == BLANK_LINE;
  }

  /** The first blank line is the one after the last header. */
  lemma {:induction false} BlankLineIsLast(fs: seq<Field>, rest: string)
    requires fs != [] && AllValid(fs)
    ensures Find(RenderFields(fs, CRLF + rest), BLANK_LINE, 0) == LastEnd(fs)
  {
    if |fs| == 1 {
      assert fs[1..] == [];
      BlankLineEndsLine(fs[0], rest);
    } else {
      var more := RenderFields(fs[1..], CRLF + rest);
      LineIsPlain(fs[1]);
      assert more == Lined(fs[1].Line(), RenderFields(fs[1..][1..], CRLF + rest));
      BlankLineSkipsLine(fs[0], more);
      BlankLineIsLast(fs[1..], rest);
    }
  }

  lemma ColonShifted(pre: string, x: string, at: nat, end: nat)
    requires end <= |x|
    ensures Colon(pre + x, |pre| + at, |pre| + end) == Shift(|pre|, Colon(x, at, end))
  {
    FindShifted(pre, x, ":", at);
    var colon := Find(x, ":", at);
    if colon != -1 && colon < end {
      assert (pre + x)[|pre| + at..|pre| + colon] == x[at..colon];
    }
  }

  lemma CutShifted(pre: string, x: string, at: nat, end: nat, more: Lines)
    requires end <= |x|
    ensures CutHeader(pre + x, |pre| + at, |pre| + end, more) == CutHeader(x, at, end, more)
  {
    ColonShifted(pre, x, at, end);
    hide Colon;
    var colon := Colon(x, at, end);
    if colon != -1 {
      assert (pre + x)[|pre| + at..|pre| + colon] == x[at..colon];
      assert (pre + x)[|pre| + colon + 1..|pre| + end] == x[colon + 1..end];
    }
  }

  lemma {:induction false} HeadersShifted(pre: string, x: string, at: nat, headerEnd: nat)
    requires headerEnd <= |x|
    ensures CutHeaders(pre + x, |pre| + at, |pre| + headerEnd) == CutHeaders(x, at, headerEnd)
    decreases headerEnd - at
  {
    hide Find, CutHeader;
    if at < headerEnd {
      FindShifted(pre, x, CRLF, at);
      var end := Find(x, CRLF, at);
      if 0 <= end <= headerEnd {
        HeadersShifted(pre, x, end + 2, headerEnd);
        CutShifted(pre, x, at, end, CutHeaders(x, end + 2, headerEnd));
      }
    }
  }

  lemma {:induction false} LastEndFits(fs: seq<Field>, rest: string)
    requires fs != []
    ensures LastEnd(fs) <= |RenderFields(fs, rest)|
  {
    if |fs| != 1 {
      LastEndFits(fs[1..], rest);
    }
  }

  /** The header lines are cut where they were put together. */
  lemma {:induction false} HeadersComeBack(fs: seq<Field>, rest: string)
    requires fs != [] && AllValid(fs) && LastEnd(fs) <= |RenderFields(fs, rest)|
    ensures CutHeaders(RenderFields(fs, rest), 0, LastEnd(fs)) == LinesOf(fs)
  {
    hide Find, CutHeaders, CutHeader, Lined, Field.Line, Field.Valid, Plain;
    var f, more := fs[0], RenderFields(fs[1..], rest);
    LineIsPlain(f);
    CutsField(f, more, LinesOf(fs[1..]));
    if |fs| == 1 {
      OneHeader(f.Line(), more);
    } else {
      LastEndFits(fs[1..], rest);
      HeadersComeBack(fs[1..], rest);
      FirstHeader(f.Line(), more, LastEnd(fs[1..]));
    }
  }

  lemma OneHeader(line: string, rest: string)
    requires line != "" && Plain(line)
    ensures CutHeaders(Lined(line, rest), 0, |line|) == CutHeader(Lined(line, rest), 0, |line|, End)
  {
    FindLineEnd(line, rest);
  }

  lemma FirstHeader(line: string, more: string, headerEnd: nat)
    requires line != "" && Plain(line) && headerEnd <= |more|
    ensures CutHeaders(Lined(line, more), 0, |line| + 2 + headerEnd) ==
            CutHeader(Lined(line, more), 0, |line|, CutHeaders(more, 0, headerEnd))
  {
    FindLineEnd(line, more);
    assert Lined(line, more) == (line + CRLF) + more;
    HeadersShifted(line + CRLF, more, 0, headerEnd);
  }

  // ---------------------------------------------------------------- the request line

  /** A word without spaces, on one line. */
  predicate Word(s: string) {
    Plain(s) && ' ' !in s
  }

  lemma MarksComeBack(m: Message, rest: string)
    requires Word(m.verb) && Word(m.path) && Word(m.version)
    ensures MarkLine(Lined(m.Start(), rest)) == Marks(|m.Start()|, |m.verb|, |m.verb| + 1 + |m.path|)
  {
    hide Find;
    var data := Lined(m.Start(), rest);
    FindLineEnd(m.Start(), rest);
    var afterPath := m.version + (CRLF + rest);
    var afterVerb := m.path + ([' '] + afterPath);
    FindChar(m.verb, ' ', afterVerb);
    FindChar(m.path, ' ', afterPath);
    FindShifted(m.verb + [' '], afterVerb, " ", 0);
    assert data == m.verb + ([' '] + afterVerb);
    assert data == (m.verb + [' ']) + afterVerb;
  }

  lemma StartSlices(m: Message, rest: string)
    ensures var data := Lined(m.Start(), rest);
            && data[..|m.verb|] == m.verb
            && data[|m.verb| + 1..|m.verb| + 1 + |m.path|] == m.path
            && data[|m.verb| + 1 + |m.path| + 1..|m.Start()|] == m.version
  {
    var data, first, second := Lined(m.Start(), rest), |m.verb|, |m.verb| + 1 + |m.path|;
    var afterPath := m.version + (CRLF + rest);
    assert data == m.verb + ([' '] + (m.path + ([' '] + afterPath)));
    assert data == (m.verb + [' ']) + (m.path + ([' '] + afterPath));
    assert data == (m.verb + [' '] + m.path + [' ']) + afterPath;
    assert data[second + 1..] == afterPath;
  }

  lemma StartComesBack(m: Message, rest: string)
    requires Word(m.verb) && Word(m.path) && Word(m.version)
    ensures CutLine(Lined(m.Start(), rest)) == Words(m.verb, m.path, m.version, |m.Start()|)
  {
    MarksComeBack(m, rest);
    StartSlices(m, rest);
    hide MarkLine, Lined;
  }

  // ---------------------------------------------------------------- the round trip

  predicate NulFree(s: string) {
    '\0' !in s
  }

  /** A request line within its limit. */
  predicate GoodStart(cfg: Config, m: Message) {
    && (m.verb == "GET" || m.verb == "POST") && ValidPath(m.path) && ' ' !in m.path
    && (m.version == "HTTP/1.0" || m.version == "HTTP/1.1")
    && |m.Start()| <= cfg.maxRequestLine
  }

  /** The value of the last field called `name`. */
  function LastField(fs: seq<Field>, name: string): Option<string> {
    if fs == [] then None
    else if LastField(fs[1..], name).Some? then LastField(fs[1..], name)
    else if Lower(fs[0].name) == name then Some(fs[0].value) else None
  }

  function ValueOr(value: Option<string>, default_: string): string {
    if value.Some? then value.value else default_
  }

  function PinOf(m: Message): string {
    ValueOr(LastField(m.fields, "x-legacyalpha-pin"), "")
  }

  function TypeOf(m: Message): string {
    Lower(ValueOr(LastField(m.fields, "content-type"), ""))
  }

  /** The fields say the length of the body in decimal, ask for no other coding, and agree on the PIN. */
  predicate Agreed(fs: seq<Field>, length: nat, pin: string) {
    fs == [] ||
    (&& (Lower(fs[0].name) == "content-length" ==> fs[0].value == Digits(length))
     && (Lower(fs[0].name) == "transfer-encoding" ==> fs[0].value == "" || Lower(fs[0].value) == "identity")
     && (Lower(fs[0].name) == "x-legacyalpha-pin" ==> fs[0].value == pin)
     && Agreed(fs[1..], length, pin))
  }

  /** A request within the limits: its body has the length its fields say, and only a GET without a body
      may leave the length out. */
  predicate WellFormed(cfg: Config, m: Message) {
    && GoodStart(cfg, m)
    && m.fields != [] && AllValid(m.fields) && Agreed(m.fields, |m.body|, PinOf(m))
    && |m.Start()| + 2 + LastEnd(m.fields) + 4 <= cfg.maxHeaders
    && NulFree(m.body) && |m.body| <= cfg.maxBody && |m.body| <= ULONG_MAX
    && ((m.verb == "GET" && m.body == "") || LastField(m.fields, "content-length").Some?)
  }

  /** strtoul reads back what a client writes. */
  lemma DecimalLength(n: nat)
    requires n <= ULONG_MAX
    ensures StrToUl(Digits(n)) == Some(n) && Digits(n)[0] != '-'
  {
    DigitsHaveValue(n);
    hide Digits, Value;
    assert IsDigit(Digits(n)[0]);
  }

  /** What the headers read so far have settled is what the message says. */
  predicate Fitting(h: Head, length: nat, pin: string) {
    (h.length.Some? ==> h.length.value == length) && (h.pin != "" ==> h.pin == pin)
  }

  lemma HeaderFits(cfg: Config, h: Head, f: Field, length: nat, pin: string)
    requires Agreed([f], length, pin) && Fitting(h, length, pin) && length <= cfg.maxBody && length <= ULONG_MAX
    ensures Header(cfg, h, f.name, f.value).Good? && Fitting(Header(cfg, h, f.name, f.value).head, length, pin)
    ensures Lower(f.name) == "content-length" || h.length.Some? <==> Header(cfg, h, f.name, f.value).head.length.Some?
  {
    DecimalLength(length);
    hide StrToUl, Digits, Lower;
  }

  /** Fields that agree are accepted, and together give the length if one of them does. */
  lemma {:induction false} FieldsFit(cfg: Config, h: Head, fs: seq<Field>, length: nat, pin: string)
    requires Agreed(fs, length, pin) && Fitting(h, length, pin) && length <= cfg.maxBody && length <= ULONG_MAX
    ensures ApplyAll(cfg, h, LinesOf(fs)).Good?
    ensures var g := ApplyAll(cfg, h, LinesOf(fs)).head;
            && Fitting(g, length, pin)
            && (g.length.Some? <==> h.length.Some? || LastField(fs, "content-length").Some?)
    decreases |fs|
  {
    if fs != [] {
      HeaderFits(cfg, h, fs[0], length, pin);
      FieldsFit(cfg, Header(cfg, h, fs[0].name, fs[0].value).head, fs[1..], length, pin);
      hide Header, Fitting, Lower;
    }
  }

  lemma {:induction false} LastFieldIsLastValue(fs: seq<Field>, name: string)
    ensures LastValue(LinesOf(fs), name) == LastField(fs, name)
  {
    if fs != [] {
      LastFieldIsLastValue(fs[1..], name);
    }
  }

  /** What the parser gathers from the header lines of a well-formed request. */
  function HeadOf(m: Message): Head {
    Head(PinOf(m), TypeOf(m), if LastField(m.fields, "content-length").Some? then Some(|m.body|) else None)
  }

  lemma HeadersSay(cfg: Config, m: Message)
    requires WellFormed(cfg, m)
    ensures ApplyAll(cfg, Head("", "", None), LinesOf(m.fields)) == Good(HeadOf(m))
  {
    FieldsFit(cfg, Head("", "", None), m.fields, |m.body|, PinOf(m));
    LastFieldIsLastValue(m.fields, "x-legacyalpha-pin");
    LastFieldIsLastValue(m.fields, "content-type");
    hide Lower, LastField, LinesOf, ApplyAll, Agreed, AllValid, LastEnd, GoodStart;
    var g := ApplyAll(cfg, Head("", "", None), LinesOf(m.fields)).head;
    LastValuesCount(cfg, Head("", "", None), LinesOf(m.fields), g);
    LowerOfNothing();
  }

  lemma LowerOfNothing()
    ensures Lower("") == ""
  {
  }

  /** Appending to the rendering appends to its body. */
  lemma {:induction false} FieldsExtend(fs: seq<Field>, rest: string, tail: string)
    ensures RenderFields(fs, rest) + tail == RenderFields(fs, rest + tail)
  {
    if fs != [] {
      FieldsExtend(fs[1..], rest, tail);
      var line, more := fs[0].Line(), RenderFields(fs[1..], rest);
      assert (line + (CRLF + more)) + tail == line + (CRLF + (more + tail));
    }
  }

  /** The rest starts two bytes after the last header's end. */
  lemma {:induction false} RestFollows(fs: seq<Field>, rest: string)
    requires fs != []
    ensures |RenderFields(fs, rest)| == LastEnd(fs) + 2 + |rest|
    ensures RenderFields(fs, rest)[LastEnd(fs) + 2..] == rest
  {
    var line, more := fs[0].Line(), RenderFields(fs[1..], rest);
    if |fs| == 1 {
      assert fs[1..] == [];
      assert Lined(line, rest)[|line| + 2..] == rest;
    } else {
      RestFollows(fs[1..], rest);
      DropLine(line, more, LastEnd(fs[1..]) + 2);
    }
  }

  lemma DropLine(line: string, more: string, k: nat)
    requires k <= |more|
    ensures Lined(line, more)[|line| + 2 + k..] == more[k..]
  {
  }

  lemma {:induction false} FieldsAreNulFree(fs: seq<Field>, rest: string)
    requires AllValid(fs) && NulFree(rest)
    ensures NulFree(RenderFields(fs, rest))
  {
    if fs != [] {
      FieldsAreNulFree(fs[1..], rest);
      LineIsPlain(fs[0]);
    }
  }

  /** The rendered request followed by anything. */
  function Buffer(m: Message, tail: string): string {
    Lined(m.Start(), RenderFields(m.fields, CRLF + (m.body + tail)))
  }

  lemma BufferIsRendering(m: Message, tail: string)
    ensures Render(m) + tail == Buffer(m, tail)
  {
    FieldsExtend(m.fields, CRLF + m.body, tail);
    assert CRLF + m.body + tail == CRLF + (m.body + tail);
    hide RenderFields;
  }

  lemma StartIsPlain(cfg: Config, m: Message)
    requires GoodStart(cfg, m)
    ensures Word(m.verb) && Word(m.path) && Word(m.version) && Plain(m.Start())
  {
    assert Plain(m.verb) && Plain(m.path) && Plain(m.version);
  }

  lemma HeadOfBuffer(m: Message, tail: string, line: Cut)
    requires m.fields != [] && AllValid(m.fields) && line.Words? && line.end == |m.Start()|
    ensures HeadEnd(Buffer(m, tail), line) == |m.Start()| + 2 + LastEnd(m.fields)
    ensures CutHeaders(Buffer(m, tail), line.end + 2, |m.Start()| + 2 + LastEnd(m.fields)) == LinesOf(m.fields)
  {
    hide Find, CutHeaders, RenderFields, LastEnd, AllValid, LinesOf, Message.Start;
    var pre := m.Start() + CRLF;
    var x := RenderFields(m.fields, CRLF + (m.body + tail));
    assert Buffer(m, tail) == pre + x;
    BlankLineIsLast(m.fields, m.body + tail);
    FindShifted(pre, x, BLANK_LINE, 0);
    LastEndFits(m.fields, CRLF + (m.body + tail));
    HeadersComeBack(m.fields, CRLF + (m.body + tail));
    HeadersShifted(pre, x, 0, LastEnd(m.fields));
  }

  lemma BodyOfBuffer(m: Message, tail: string)
    requires m.fields != []
    ensures var from := |m.Start()| + 2 + LastEnd(m.fields) + 4;
            && |Buffer(m, tail)| == from + |m.body| + |tail|
            && Buffer(m, tail)[from..from + |m.body|] == m.body
  {
    var rest := CRLF + (m.body + tail);
    var x := RenderFields(m.fields, rest);
    RestFollows(m.fields, rest);
    hide RenderFields, LastEnd, Message.Start;
    var from := |m.Start()| + 2 + LastEnd(m.fields) + 2;
    DropLine(m.Start(), x, LastEnd(m.fields) + 2);
    hide Lined;
    assert Buffer(m, tail)[from..] == rest;
    SliceBehind(Buffer(m, tail), from, 2, 2 + |m.body|);
    BehindCrlf(m.body, tail);
  }

  lemma SliceBehind(s: string, from: nat, a: nat, b: nat)
    requires from <= |s| && a <= b <= |s| - from
    ensures s[from..][a..b] == s[from + a..from + b]
  {
  }

  lemma BehindCrlf(body: string, tail: string)
    ensures (CRLF + (body + tail))[2..2 + |body|] == body
  {
  }

  /** Whatever follows it, a well-formed request of at least one header is parsed to what was written:
      verb, path, the PIN all its PIN fields agree on, the lower-cased last content type, body, and its own
      length. */
  lemma RequestsComeBack(cfg: Config, m: Message, tail: string)
    requires WellFormed(cfg, m) && NulFree(tail)
    ensures Parse(cfg, Render(m) + tail) ==
            Parsed(HttpRequest(m.verb, m.path, PinOf(m), TypeOf(m), m.body), |Render(m)|)
  {
    assert m.fields != [];
    hide *;
    RenderedLength(m);
    BufferIsRendering(m, tail);
    ParsesStart(cfg, m, tail);
    ParsesHead(cfg, m, tail);
    ParsesBody(cfg, m, tail);
  }

  lemma RenderedLength(m: Message)
    requires m.fields != []
    ensures |Render(m)| == |m.Start()| + 2 + LastEnd(m.fields) + 4 + |m.body|
  {
    BufferIsRendering(m, "");
    BodyOfBuffer(m, "");
    hide *;
  }

  function LineOf(m: Message): (line: Cut)
    ensures line.Words?
  {
    Words(m.verb, m.path, m.version, |m.Start()|)
  }

  /** A good request line leaves the outcome to what comes after it. */
  lemma StartLeavesRest(cfg: Config, m: Message, rest: string)
    requires GoodStart(cfg, m) && NulFree(rest)
    ensures Parse(cfg, Lined(m.Start(), rest)) == Rest(cfg, Lined(m.Start(), rest), LineOf(m))
  {
    StartIsPlain(cfg, m);
    StartComesBack(m, rest);
    assert NulFree(Lined(m.Start(), rest));
    hide CutLine, Rest, Message.Start, ValidPath;
    ParseIsRest(cfg, Lined(m.Start(), rest));
  }

  lemma ParsesStart(cfg: Config, m: Message, tail: string)
    requires WellFormed(cfg, m) && NulFree(tail)
    ensures Parse(cfg, Buffer(m, tail)) == Rest(cfg, Buffer(m, tail), LineOf(m))
  {
    assert NulFree(CRLF + (m.body + tail));
    FieldsAreNulFree(m.fields, CRLF + (m.body + tail));
    hide RenderFields, Rest, Parse, GoodStart, LastEnd, Agreed, AllValid;
    StartLeavesRest(cfg, m, RenderFields(m.fields, CRLF + (m.body + tail)));
  }

  lemma ParsesHead(cfg: Config, m: Message, tail: string)
    requires WellFormed(cfg, m)
    ensures |m.Start()| + 2 + LastEnd(m.fields) + 4 <= |Buffer(m, tail)|
    ensures Rest(cfg, Buffer(m, tail), LineOf(m)) ==
            Finish(Buffer(m, tail), LineOf(m), HeadOf(m), |m.Start()| + 2 + LastEnd(m.fields) + 4)
  {
    hide Buffer, ApplyAll, CutHeaders, LinesOf, Rest, HeadEnd, Finish, ValidPath, AllValid, Message.Start, LastEnd,
         HeadOf, Agreed, GoodStart, LastField, PinOf;
    BodyOfBuffer(m, tail);
    HeadOfBuffer(m, tail, LineOf(m));
    HeadersSay(cfg, m);
    RestIsFinish(cfg, Buffer(m, tail), LineOf(m), HeadOf(m));
  }

  lemma ParsesBody(cfg: Config, m: Message, tail: string)
    requires WellFormed(cfg, m)
    requires |m.Start()| + 2 + LastEnd(m.fields) + 4 <= |Buffer(m, tail)|
    ensures Finish(Buffer(m, tail), LineOf(m), HeadOf(m), |m.Start()| + 2 + LastEnd(m.fields) + 4) ==
            Parsed(HttpRequest(m.verb, m.path, PinOf(m), TypeOf(m), m.body),
                   |m.Start()| + 2 + LastEnd(m.fields) + 4 + |m.body|)
  {
    hide Buffer, ValidPath, AllValid, Message.Start, LastEnd, Agreed, LastField, PinOf, TypeOf;
    BodyOfBuffer(m, tail);
  }

  // ---------------------------------------------------------------- requests without headers

  /** What a good request line directly followed by a blank line and `rest` is parsed to: that blank line is
      only found when another one begins in its second half. */
  function HeaderlessOutcome(cfg: Config, m: Message, rest: string): Outcome {
    var size, blank := |m.Start()| + 4 + |rest|, Find(CRLF + rest, BLANK_LINE, 0);
    if blank == -1 then if cfg.maxHeaders < size then Failed(TooLarge) else Incomplete
    else if cfg.maxHeaders < |m.Start()| + 2 + blank + 4 then Failed(TooLarge)
    else if blank != 0 || m.verb == "POST" then Failed(BadRequest)
    else Parsed(HttpRequest(m.verb, m.path, "", "", ""), |m.Start()| + 6)
  }

  lemma HeaderlessHead(cfg: Config, m: Message, rest: string)
    ensures HeadEnd(Lined(m.Start(), CRLF + rest), LineOf(m)) ==
            Shift(|m.Start()| + 2, Find(CRLF + rest, BLANK_LINE, 0))
  {
    hide Find, Message.Start;
    assert Lined(m.Start(), CRLF + rest) == (m.Start() + CRLF) + (CRLF + rest);
    FindShifted(m.Start() + CRLF, CRLF + rest, BLANK_LINE, 0);
  }

  /** An empty line is no header. */
  lemma EmptyLine(rest: string, headerEnd: nat)
    requires headerEnd <= |CRLF + rest|
    ensures CutHeaders(CRLF + rest, 0, headerEnd) == if headerEnd == 0 then End else Malformed
  {
    assert At(CRLF + rest, CRLF, 0);
  }

  lemma HeaderlessLines(cfg: Config, m: Message, rest: string, headerEnd: nat)
    requires headerEnd <= |CRLF + rest|
    ensures |m.Start()| + 2 + headerEnd <= |Lined(m.Start(), CRLF + rest)|
    ensures CutHeaders(Lined(m.Start(), CRLF + rest), |m.Start()| + 2, |m.Start()| + 2 + headerEnd) ==
            if headerEnd == 0 then End else Malformed
  {
    hide CutHeaders, Message.Start;
    assert Lined(m.Start(), CRLF + rest) == (m.Start() + CRLF) + (CRLF + rest);
    HeadersShifted(m.Start() + CRLF, CRLF + rest, 0, headerEnd);
    EmptyLine(rest, headerEnd);
  }

  lemma BlankIsNext(rest: string)
    ensures Find(CRLF + rest, BLANK_LINE, 0) == 0 <==> CRLF <= rest
  {
    var data := CRLF + rest;
    if 2 <= |rest| {
      assert data[0..4] == CRLF + rest[..2];
      assert CRLF <= rest <==> rest[..2] == CRLF;
      assert rest[..2] == CRLF ==> data[0..4] == BLANK_LINE;
      assert data[0..4] == BLANK_LINE ==> rest[0] == data[0..4][2] && rest[1] == data[0..4][3];
    }
  }

  lemma HeaderlessParse(cfg: Config, m: Message, rest: string)
    requires GoodStart(cfg, m) && NulFree(rest)
    ensures Parse(cfg, Lined(m.Start(), CRLF + rest)) == HeaderlessOutcome(cfg, m, rest)
  {
    var data, blank := Lined(m.Start(), CRLF + rest), Find(CRLF + rest, BLANK_LINE, 0);
    assert NulFree(CRLF + rest);
    hide Parse, Rest, Find, ValidPath, CutHeaders, HeadEnd, Message.Start, HeaderlessOutcome;
    StartLeavesRest(cfg, m, CRLF + rest);
    HeaderlessHead(cfg, m, rest);
    if blank != -1 {
      HeaderlessLines(cfg, m, rest, blank);
    }
    HeaderlessRest(cfg, m, rest, data, blank);
  }

  /** Without a header line a request is only accepted when its blank line is followed by one more, and it
      stays incomplete as long as no blank line is found behind the request line's own end. */
  lemma HeaderlessRequests(cfg: Config, m: Message, rest: string)
    requires GoodStart(cfg, m) && NulFree(rest)
    ensures Parse(cfg, Lined(m.Start(), CRLF + rest)) == HeaderlessOutcome(cfg, m, rest)
    ensures Parse(cfg, Lined(m.Start(), CRLF + rest)).Parsed? <==>
            m.verb == "GET" && CRLF <= rest && |m.Start()| + 6 <= cfg.maxHeaders
    ensures Parse(cfg, Lined(m.Start(), CRLF + rest)).Incomplete? <==>
            Find(CRLF + rest, BLANK_LINE, 0) == -1 && |m.Start()| + 4 + |rest| <= cfg.maxHeaders
  {
    assert m.verb == "GET" || m.verb == "POST";
    HeaderlessParse(cfg, m, rest);
    HeaderlessCases(cfg, m, rest);
    hide *;
  }

  lemma HeaderlessCases(cfg: Config, m: Message, rest: string)
    requires m.verb == "GET" || m.verb == "POST"
    ensures HeaderlessOutcome(cfg, m, rest).Parsed? <==>
            m.verb == "GET" && CRLF <= rest && |m.Start()| + 6 <= cfg.maxHeaders
    ensures HeaderlessOutcome(cfg, m, rest).Incomplete? <==>
            Find(CRLF + rest, BLANK_LINE, 0) == -1 && |m.Start()| + 4 + |rest| <= cfg.maxHeaders
  {
    BlankIsNext(rest);
    hide Find, Message.Start;
  }

  lemma HeaderlessRest(cfg: Config, m: Message, rest: string, data: string, blank: int)
    requires m.verb == "GET" || m.verb == "POST"
    requires blank == Find(CRLF + rest, BLANK_LINE, 0) && |data| == |m.Start()| + 4 + |rest|
    requires HeadEnd(data, LineOf(m)) == Shift(|m.Start()| + 2, blank)
    requires blank != -1 ==> CutHeaders(data, |m.Start()| + 2, |m.Start()| + 2 + blank) ==
                             if blank == 0 then End else Malformed
    ensures Rest(cfg, data, LineOf(m)) == HeaderlessOutcome(cfg, m, rest)
  {
    hide Find, CutHeaders, Message.Start;
  }

  /** A request that RFC 7230 section 3 allows stays incomplete, and one more CRLF completes it. */
  lemma HeaderlessExample()
    ensures Parse(NATIVE_CONFIG, Lined("GET / HTTP/1.0", CRLF)) == Incomplete
    ensures Parse(NATIVE_CONFIG, Lined("GET / HTTP/1.0", CRLF + CRLF)) ==
            Parsed(HttpRequest("GET", "/", "", "", ""), 20)
  {
    var m := Message("GET", "/", "HTTP/1.0", [], "");
    assert m.Start() == "GET / HTTP/1.0";
    assert GoodStart(NATIVE_CONFIG, m);
    HeaderlessRequests(NATIVE_CONFIG, m, "");
    HeaderlessRequests(NATIVE_CONFIG, m, CRLF);
    BlankIsNext(CRLF);
    assert CRLF + "" == CRLF;
    assert Find(CRLF, BLANK_LINE, 0) == -1;
    hide Parse;
  }

  // ---------------------------------------------------------------- a request line at its limit

  lemma DotFreeIsValid(path: string)
    requires path != "" && path[0] == '/' && forall i :: 0 <= i < |path| ==> path[i] == '/' || 'a' <= path[i] <= 'z'
    ensures ValidPath(path)
  {
    FindIsFirst(path, "..", 0);
    if Find(path, "..", 0) != -1 {
      AtHas(path, "..", Find(path, "..", 0), 0);
    }
  }

  /** A path that makes the request line as long as it may be. */
  function LongPath(): (path: string)
    ensures |path| == 2035 && path[0] == '/' && forall i :: 1 <= i < |path| ==> path[i] == 'a'
  {
    ['/'] + seq(2034, i => 'a')
  }

  const ACCEPT := Field("accept", "", "", "")

  const LONG_REQUEST := Message("GET", LongPath(), "HTTP/1.0", [ACCEPT], "")

  lemma AcceptIsToken()
    ensures IsToken("accept")
  {
    forall c: char | 'a' <= c <= 'z' ensures IsTokenChar(c) {
    }
  }

  lemma AcceptIsValid()
    ensures AllValid([ACCEPT]) && LastEnd([ACCEPT]) == 7
  {
    hide IsToken;
    AcceptIsToken();
    assert ACCEPT.Valid();
    assert [ACCEPT][1..] == [];
    hide Field.Valid;
  }

  /** One field that says nothing about length, coding, PIN or type. */
  lemma AcceptIsSilent(name: string)
    ensures Agreed([ACCEPT], 0, "")
    ensures name != "accept" ==> LastField([ACCEPT], name) == None
  {
    LowerIs();
    hide Lower, Digits;
    assert [ACCEPT][1..] == [];
  }

  lemma LongStart()
    ensures GoodStart(NATIVE_CONFIG, LONG_REQUEST) && |LONG_REQUEST.Start()| == 2048
  {
    DotFreeIsValid(LongPath());
    hide ValidPath, LongPath;
  }

  lemma NoPin()
    ensures PinOf(LONG_REQUEST) == ""
  {
    AcceptIsSilent("x-legacyalpha-pin");
    hide LastField, LongPath;
  }

  lemma LongRequestIsWellFormed()
    ensures WellFormed(NATIVE_CONFIG, LONG_REQUEST) && |LONG_REQUEST.Start()| == 2048
  {
    hide GoodStart, Agreed, AllValid, LastEnd, PinOf, LongPath, LastField, Message.Start, Field.Valid;
    AcceptIsValid();
    AcceptIsSilent("content-length");
    LongStart();
    NoPin();
  }

  lemma LowerIs()
    ensures Lower("accept") == "accept"
  {
    var s := "accept";
    assert s[1..] == "ccept" && "ccept"[1..] == "cept" && "cept"[1..] == "ept";
    assert "ept"[1..] == "pt" && "pt"[1..] == "t";
    assert Lower("t") == "t" && Lower("pt") == "pt" && Lower("ept") == "ept";
  }

  /** A whole request that is accepted, although its first 2049 bytes alone are refused. */
  lemma LongLineExample()
    ensures Parse(NATIVE_CONFIG, Render(LONG_REQUEST)).Parsed?
    ensures 2049 <= |Render(LONG_REQUEST)|
    ensures Parse(NATIVE_CONFIG, Render(LONG_REQUEST)[..2049]) == Failed(TooLarge)
  {
    var m, data := LONG_REQUEST, Render(LONG_REQUEST);
    LongRequestIsWellFormed();
    assert m.fields != [] && data + "" == data && GoodStart(NATIVE_CONFIG, m);
    hide *;
    RequestsComeBack(NATIVE_CONFIG, m, "");
    RenderedLength(m);
    LineOfRendering(NATIVE_CONFIG, m);
    ProperPrefix(NATIVE_CONFIG, data, 2049);
    LimitIsReached(2048, 2049);
  }

  lemma LineOfRendering(cfg: Config, m: Message)
    requires GoodStart(cfg, m)
    ensures CutLine(Render(m)).Words? && CutLine(Render(m)).end == |m.Start()|
  {
    StartIsPlain(cfg, m);
    StartComesBack(m, RenderFields(m.fields, CRLF + m.body));
    hide CutLine, Message.Start;
  }

  lemma LimitIsReached(end: int, m: nat)
    requires end == NATIVE_CONFIG.maxRequestLine && m == end + 1
    ensures PrefixOutcome(NATIVE_CONFIG, end, m) == Failed(TooLarge)
  {
  }
}
