/** What a request parses to, byte by byte: the specification of the HTTP parser, and why it can be run
    again and again on a growing buffer. A byte is a character. */
module Http {
  import opened Types

  datatype HttpRequest = HttpRequest(verb: string, path: string, pin: string, contentType: string, body: string)

  datatype Fault = BadRequest | TooLarge | Unsupported

  datatype Outcome = Incomplete | Parsed(request: HttpRequest, consumed: nat) | Failed(fault: Fault)

  const CRLF := "\r\n"
  const BLANK_LINE := "\r\n\r\n"

  // ---------------------------------------------------------------- searching

  predicate At(data: string, pattern: string, k: int) {
    0 <= k && k + |pattern| <= |data| && data[k..k + |pattern|] == pattern
  }

  /** The first occurrence of `pattern` at or after `from`, -1 if there is none. */
  function Find(data: string, pattern: string, from: nat): (r: int)
    ensures r == -1 || from <= r <= |data| - |pattern|
    decreases |data| - from
  {
    if |data| < from + |pattern| then -1
    else if At(data, pattern, from) then from
    else Find(data, pattern, from + 1)
  }

  lemma {:induction false} FindIsFirst(data: string, pattern: string, from: nat)
    ensures var r := Find(data, pattern, from);
            && (r != -1 ==> At(data, pattern, r))
            && (forall k :: from <= k && (r == -1 || k < r) ==> !At(data, pattern, k))
    decreases |data| - from
  {
    if from + |pattern| <= |data| && !At(data, pattern, from) {
      FindIsFirst(data, pattern, from + 1);
    }
  }

  /** `x` and `y` begin with the same `p` bytes. */
  predicate Agree(x: string, y: string, p: nat) {
    p <= |x| && p <= |y| && x[..p] == y[..p]
  }

  lemma AtAgree(x: string, y: string, pattern: string, k: nat, p: nat)
    requires Agree(x, y, p) && k + |pattern| <= p
    ensures At(x, pattern, k) <==> At(y, pattern, k)
  {
    assert x[k..k + |pattern|] == x[..p][k..k + |pattern|];
    assert y[k..k + |pattern|] == y[..p][k..k + |pattern|];
  }

  /** What is found within the common bytes of one buffer is found at the same place in the other. */
  lemma FindAgree(x: string, y: string, pattern: string, from: nat, p: nat)
    requires Agree(x, y, p)
    ensures var r := Find(x, pattern, from);
            if r != -1 && r + |pattern| <= p then Find(y, pattern, from) == r
            else Find(y, pattern, from) == -1 || p < Find(y, pattern, from) + |pattern|
  {
    var r, s := Find(x, pattern, from), Find(y, pattern, from);
    FindIsFirst(x, pattern, from);
    FindIsFirst(y, pattern, from);
    if r != -1 && r + |pattern| <= p {
      AtAgree(x, y, pattern, r, p);
      if s != r && s != -1 {
        AtAgree(x, y, pattern, s, p);
      }
    } else if s != -1 && s + |pattern| <= p {
      AtAgree(x, y, pattern, s, p);
    }
  }

  // ---------------------------------------------------------------- characters and words

  predicate IsTokenChar(c: char) {
    '\U{20}' < c < '\U{7f}' && c !in "()<>@,;:\\\"/[]?={}"
  }

  predicate IsBlank(c: char) {
    c == ' ' || c == '\t'
  }

  /** The "C" locale's isspace. */
  predicate IsSpace(c: char) {
    c == ' ' || '\t' <= c <= '\r'
  }

  predicate IsDigit(c: char) {
    '0' <= c <= '9'
  }

  function TrimLeft(s: string): string {
    if s != "" && IsBlank(s[0]) then TrimLeft(s[1..]) else s
  }

  function TrimRight(s: string): string {
    if s != "" && IsBlank(s[|s| - 1]) then TrimRight(s[..|s| - 1]) else s
  }

  function Trim(s: string): string {
    TrimRight(TrimLeft(s))
  }

  function LowerChar(c: char): char {
    if 'A' <= c <= 'Z' then c - 'A' + 'a' else c
  }

  function Lower(s: string): string {
    if s == "" then "" else [LowerChar(s[0])] + Lower(s[1..])
  }

  predicate IsToken(s: string) {
    forall i :: 0 <= i < |s| ==> IsTokenChar(s[i])
  }

  /** No endpoint needs dots, back-slashes, escapes, queries or control bytes in its path. */
  predicate ValidPath(path: string) {
    && path != "" && path[0] == '/'
    && Find(path, "..", 0) == -1
    && forall i :: 0 <= i < |path| ==>
         '\U{20}' <= path[i] && path[i] != '\U{7f}' && path[i] !in "\\%?"
  }

  function SkipSpaces(s: string): string {
    if s != "" && IsSpace(s[0]) then SkipSpaces(s[1..]) else s
  }

  predicate AllDigits(s: string) {
    forall i :: 0 <= i < |s| ==> IsDigit(s[i])
  }

  function Value(s: string): nat
    requires AllDigits(s)
  {
    if s == "" then 0 else 10 * Value(s[..|s| - 1]) + (s[|s| - 1] - '0') as nat
  }

  /** `unsigned long` has 32 bits on the camera. */
  const ULONG_MAX: nat := 0xffff_ffff

  /** strtoul over the whole of `s`: spaces, a sign, digits; saturating, and wrapping a negative value. */
  function StrToUl(s: string): Option<nat> {
    var t := SkipSpaces(s);
    var signed := t != "" && (t[0] == '-' || t[0] == '+');
    var digits := if signed then t[1..] else t;
    if digits == "" || !AllDigits(digits) then None
    else
      var v := Value(digits);
      Some(if ULONG_MAX < v then ULONG_MAX
           else if signed && t[0] == '-' && 0 < v then ULONG_MAX + 1 - v
           else v)
  }

  // ---------------------------------------------------------------- headers

  /** What the header lines read so far have said. */
  datatype Head = Head(pin: string, contentType: string, length: Option<nat>)

  datatype HeadResult = Good(head: Head) | Bad(fault: Fault)

  function Header(cfg: Config, h: Head, name: string, value: string): HeadResult {
    var lname := Lower(name);
    if lname == "content-length" then
      if value == "" || value[0] == '-' then Bad(BadRequest)
      else
        match StrToUl(value)
        case None => Bad(BadRequest)
        case Some(n) =>
          if h.length.Some? && h.length.value != n then Bad(BadRequest)
          else if cfg.maxBody < n then Bad(TooLarge)
          else Good(h.(length := Some(n)))
    else if lname == "transfer-encoding" then
      if value != "" && Lower(value) != "identity" then Bad(Unsupported) else Good(h)
    else if lname == "x-legacyalpha-pin" then
      if h.pin != "" && h.pin != value then Bad(BadRequest) else Good(h.(pin := value))
    else if lname == "content-type" then Good(h.(contentType := Lower(value)))
    else Good(h)
  }

  /** The header lines cut into names and values, up to the first one that is not a header. */
  datatype Lines = End | Malformed | Line(name: string, value: string, rest: Lines)

  function ApplyAll(cfg: Config, h: Head, lines: Lines): HeadResult
    decreases lines
  {
    match lines
    case End => Good(h)
    case Malformed => Bad(BadRequest)
    case Line(name, value, rest) =>
      match Header(cfg, h, name, value)
      case Bad(fault) => Bad(fault)
      case Good(g) => ApplyAll(cfg, g, rest)
  }

  /** Where the name ends in the header line `data[at..end]`, -1 if it is no header. */
  function Colon(data: string, at: nat, end: nat): (r: int)
    requires end <= |data|
    ensures r == -1 || at < r < end
  {
    var colon := Find(data, ":", at);
    if colon == -1 || end <= colon || colon == at || !IsToken(data[at..colon]) then -1 else colon
  }

  /** The header line `data[at..end]`, before the lines `rest`. */
  function CutHeader(data: string, at: nat, end: nat, rest: Lines): Lines
    requires end <= |data|
  {
    var colon := Colon(data, at, end);
    if colon == -1 then Malformed
    else Line(data[at..colon], Trim(data[colon + 1..end]), rest)
  }

  function CutHeaders(data: string, at: nat, headerEnd: nat): Lines
    requires headerEnd <= |data|
    decreases headerEnd - at
  {
    if headerEnd <= at then End
    else
      var end := Find(data, CRLF, at);
      if end == -1 || headerEnd < end then Malformed
      else CutHeader(data, at, end, CutHeaders(data, end + 2, headerEnd))
  }

  // ---------------------------------------------------------------- the whole request

  /** The request line, cut at its first two spaces. */
  datatype Cut = NoLine | NoWords(end: nat) | Words(verb: string, path: string, version: string, end: nat)

  /** The end of the request line and its first two spaces, -1 where there is none. */
  datatype Marks = Marks(end: int, first: int, second: int)

  function MarkLine(data: string): (m: Marks)
    ensures m.end == -1 || (0 <= m.end && m.end + 2 <= |data|)
    ensures m.first != -1 && m.second != -1 ==> 0 <= m.first < m.second < |data|
  {
    var end := Find(data, CRLF, 0);
    var first := Find(data, " ", 0);
    var second := if first == -1 then -1 else Find(data, " ", first + 1);
    Marks(end, first, second)
  }

  /** Are there two words and a rest before the end of the line? */
  predicate Wordy(m: Marks) {
    m.end != -1 && m.first != -1 && m.second != -1 && m.second < m.end
  }

  function CutLine(data: string): Cut {
    var m := MarkLine(data);
    if m.end == -1 then NoLine
    else if !Wordy(m) then NoWords(m.end)
    else Words(data[..m.first], data[m.first + 1..m.second], data[m.second + 1..m.end], m.end)
  }

  function WordsFault(verb: string, path: string, version: string): Option<Fault> {
    if (verb != "GET" && verb != "POST") || !ValidPath(path) then Some(BadRequest)
    else if version != "HTTP/1.0" && version != "HTTP/1.1" then Some(Unsupported)
    else None
  }

  /** What is wrong with a cut request line, if anything. */
  function Refusal(cfg: Config, size: nat, c: Cut): Option<Outcome> {
    if c.NoLine? then Some(if cfg.maxRequestLine < size then Failed(TooLarge) else Incomplete)
    else if cfg.maxRequestLine < c.end then Some(Failed(TooLarge))
    else if c.NoWords? then Some(Failed(BadRequest))
    else
      match WordsFault(c.verb, c.path, c.version)
      case None => None
      case Some(fault) => Some(Failed(fault))
  }

  /** Where the blank line after the request line and the headers starts, -1 where it is missing. */
  function HeadEnd(data: string, line: Cut): (r: int)
    requires line.Words?
    ensures r == -1 || 0 <= r <= |data| - 4
  {
    Find(data, BLANK_LINE, line.end + 2)
  }

  function Rest(cfg: Config, data: string, line: Cut): (o: Outcome)
    requires line.Words?
    ensures o.Parsed? ==> o.consumed <= |data|
  {
    var headerEnd := HeadEnd(data, line);
    if headerEnd == -1 then if cfg.maxHeaders < |data| then Failed(TooLarge) else Incomplete
    else if cfg.maxHeaders < headerEnd + 4 then Failed(TooLarge)
    else
      match ApplyAll(cfg, Head("", "", None), CutHeaders(data, line.end + 2, headerEnd))
      case Bad(fault) => Failed(fault)
      case Good(h) => Finish(data, line, h, headerEnd + 4)
  }

  /** The head is complete; `from` is where the body starts. */
  function Finish(data: string, line: Cut, h: Head, from: nat): (o: Outcome)
    requires line.Words? && from <= |data|
    ensures o.Parsed? ==> from <= o.consumed <= |data|
  {
    if line.verb == "POST" && h.length.None? then Failed(BadRequest)
    else
      var total := from + if h.length.Some? then h.length.value else 0;
      if |data| < total then Incomplete
      else Parsed(HttpRequest(line.verb, line.path, h.pin, h.contentType, data[from..total]), total)
  }

  function Parse(cfg: Config, data: string): (o: Outcome)
    ensures o.Parsed? ==> o.consumed <= |data|
  {
    if '\0' in data then Failed(BadRequest)
    else
      var line := CutLine(data);
      match Refusal(cfg, |data|, line)
      case Some(o) => o
      case None => Rest(cfg, data, line)
  }

  // ---------------------------------------------------------------- running it on a growing buffer

  lemma SliceAgree(x: string, y: string, i: nat, j: nat, p: nat)
    requires Agree(x, y, p) && i <= j <= p
    ensures x[i..j] == y[i..j]
  {
    assert x[i..j] == x[..p][i..j];
    assert y[i..j] == y[..p][i..j];
  }

  lemma ColonAgree(x: string, y: string, at: nat, end: nat, p: nat)
    requires Agree(x, y, p) && end <= p
    ensures Colon(x, at, end) == Colon(y, at, end)
  {
    var c, d := Find(x, ":", at), Find(y, ":", at);
    FindAgree(x, y, ":", at, p);
    FindAgree(y, x, ":", at, p);
    if c != -1 && c < end {
      SliceAgree(x, y, at, c, p);
    }
  }

  lemma LineAgree(x: string, y: string, at: nat, end: nat, p: nat, rest: Lines)
    requires Agree(x, y, p) && end <= p
    ensures CutHeader(x, at, end, rest) == CutHeader(y, at, end, rest)
  {
    ColonAgree(x, y, at, end, p);
    var colon := Colon(x, at, end);
    if colon != -1 {
      SliceAgree(x, y, at, colon, p);
      SliceAgree(x, y, colon + 1, end, p);
    }
  }

  lemma LineEndAgree(x: string, y: string, at: nat, headerEnd: nat, p: nat)
    requires Agree(x, y, p) && headerEnd + 2 <= p
    ensures var e, f := Find(x, CRLF, at), Find(y, CRLF, at);
            e == f || ((e == -1 || headerEnd < e) && (f == -1 || headerEnd < f))
  {
    FindAgree(x, y, CRLF, at, p);
    FindAgree(y, x, CRLF, at, p);
  }

  lemma HeadersStep(x: string, y: string, at: nat, headerEnd: nat, p: nat)
    requires Agree(x, y, p) && headerEnd + 2 <= p && p <= |x| && p <= |y|
    requires var end := Find(x, CRLF, at);
             at < headerEnd && 0 <= end <= headerEnd ==>
               CutHeaders(x, end + 2, headerEnd) == CutHeaders(y, end + 2, headerEnd)
    ensures CutHeaders(x, at, headerEnd) == CutHeaders(y, at, headerEnd)
  {
    hide Find, CutHeader, Agree;
    LineEndAgree(x, y, at, headerEnd, p);
    var end := Find(x, CRLF, at);
    if at < headerEnd && 0 <= end <= headerEnd {
      var rest := CutHeaders(x, end + 2, headerEnd);
      LineAgree(x, y, at, end, p, rest);
      assert CutHeaders(x, at, headerEnd) == CutHeader(x, at, end, rest);
      assert CutHeaders(y, at, headerEnd) == CutHeader(y, at, end, rest);
    }
  }

  lemma {:induction false} HeadersAgree(x: string, y: string, at: nat, headerEnd: nat, p: nat)
    requires Agree(x, y, p) && headerEnd + 2 <= p && p <= |x| && p <= |y|
    ensures CutHeaders(x, at, headerEnd) == CutHeaders(y, at, headerEnd)
    decreases headerEnd - at
  {
    hide *;
    var end := Find(x, CRLF, at);
    if at < headerEnd && 0 <= end <= headerEnd {
      HeadersAgree(x, y, end + 2, headerEnd, p);
    }
    HeadersStep(x, y, at, headerEnd, p);
  }

  lemma MarksAgree(x: string, y: string, p: nat)
    requires Agree(x, y, p) && MarkLine(x).end != -1 && MarkLine(x).end + 2 <= p
    ensures MarkLine(y).end == MarkLine(x).end
    ensures Wordy(MarkLine(x)) <==> Wordy(MarkLine(y))
    ensures Wordy(MarkLine(x)) ==> MarkLine(x) == MarkLine(y)
  {
    FindAgree(x, y, CRLF, 0, p);
    FindAgree(x, y, " ", 0, p);
    var first := Find(x, " ", 0);
    if first != -1 && first < p {
      FindAgree(x, y, " ", first + 1, p);
    }
  }

  lemma CutAgree(x: string, y: string, p: nat)
    requires Agree(x, y, p) && MarkLine(x).end != -1 && MarkLine(x).end + 2 <= p
    ensures CutLine(x) == CutLine(y)
  {
    var m := MarkLine(x);
    MarksAgree(x, y, p);
    if Wordy(m) {
      SliceAgree(x, y, 0, m.first, p);
      SliceAgree(x, y, m.first + 1, m.second, p);
      SliceAgree(x, y, m.second + 1, m.end, p);
    }
  }

  lemma HeadEndAgree(x: string, y: string, line: Cut, p: nat)
    requires line.Words? && Agree(x, y, p) && HeadEnd(x, line) != -1
    ensures HeadEnd(x, line) + 4 <= p ==> HeadEnd(y, line) == HeadEnd(x, line)
    ensures p < HeadEnd(x, line) + 4 && |y| == p ==> HeadEnd(y, line) == -1
  {
    FindAgree(x, y, BLANK_LINE, line.end + 2, p);
  }

  /** What a complete request has, apart from its body. */
  predicate Complete(cfg: Config, data: string, line: Cut) {
    && line.Words? && CutLine(data) == line && Refusal(cfg, |data|, line).None?
    && HeadEnd(data, line) != -1 && HeadEnd(data, line) + 4 <= cfg.maxHeaders
    && Rest(cfg, data, line).Parsed?
  }

  lemma ParsedIsComplete(cfg: Config, data: string)
    requires Parse(cfg, data).Parsed?
    ensures '\0' !in data && Complete(cfg, data, CutLine(data))
  {
    var line := CutLine(data);
    assert Refusal(cfg, |data|, line).None?;
    assert line.Words?;
    assert Rest(cfg, data, line).Parsed?;
  }

  lemma ParseIsRest(cfg: Config, data: string)
    requires '\0' !in data && CutLine(data).Words? && Refusal(cfg, |data|, CutLine(data)).None?
    ensures Parse(cfg, data) == Rest(cfg, data, CutLine(data))
  {
  }

  lemma RefusalIgnoresSize(cfg: Config, n: nat, m: nat, line: Cut)
    requires line.Words?
    ensures Refusal(cfg, n, line) == Refusal(cfg, m, line)
    ensures Refusal(cfg, n, line).None? ==> line.end <= cfg.maxRequestLine
  {
  }

  lemma RestIsFinish(cfg: Config, data: string, line: Cut, h: Head)
    requires line.Words? && HeadEnd(data, line) != -1 && HeadEnd(data, line) + 4 <= cfg.maxHeaders
    requires ApplyAll(cfg, Head("", "", None), CutHeaders(data, line.end + 2, HeadEnd(data, line))) == Good(h)
    ensures Rest(cfg, data, line) == Finish(data, line, h, HeadEnd(data, line) + 4)
  {
  }

  lemma RestHasHead(cfg: Config, data: string, line: Cut) returns (h: Head)
    requires Complete(cfg, data, line)
    ensures ApplyAll(cfg, Head("", "", None), CutHeaders(data, line.end + 2, HeadEnd(data, line))) == Good(h)
    ensures Rest(cfg, data, line) == Finish(data, line, h, HeadEnd(data, line) + 4)
  {
    h := ApplyAll(cfg, Head("", "", None), CutHeaders(data, line.end + 2, HeadEnd(data, line))).head;
  }

  lemma FinishAgree(x: string, y: string, line: Cut, h: Head, from: nat, p: nat)
    requires line.Words? && Agree(x, y, p) && from <= p && Finish(x, line, h, from).Parsed?
    ensures |y| < Finish(x, line, h, from).consumed ==> Finish(y, line, h, from) == Incomplete
    ensures Finish(x, line, h, from).consumed <= p ==> Finish(y, line, h, from) == Finish(x, line, h, from)
  {
    if Finish(x, line, h, from).consumed <= p {
      SliceAgree(x, y, from, Finish(x, line, h, from).consumed, p);
    }
  }

  lemma HeadAgrees(cfg: Config, x: string, y: string, line: Cut, p: nat, h: Head)
    requires line.Words? && HeadEnd(x, line) != -1 && HeadEnd(x, line) + 4 <= cfg.maxHeaders
    requires Agree(x, y, p) && HeadEnd(x, line) + 4 <= p && p <= |x| && p <= |y|
    requires ApplyAll(cfg, Head("", "", None), CutHeaders(x, line.end + 2, HeadEnd(x, line))) == Good(h)
    ensures Rest(cfg, y, line) == Finish(y, line, h, HeadEnd(x, line) + 4)
  {
    hide Find, Agree, CutHeaders, ApplyAll, Rest, Finish;
    HeadEndAgree(x, y, line, p);
    HeadersAgree(x, y, line.end + 2, HeadEnd(x, line), p);
    RestIsFinish(cfg, y, line, h);
  }

  /** Once the blank line is in, the rest of the buffer only decides whether the body is complete. */
  lemma RestAgree(cfg: Config, x: string, y: string, line: Cut, p: nat)
    requires Complete(cfg, x, line) && Agree(x, y, p) && HeadEnd(x, line) + 4 <= p && p <= |x| && p <= |y|
    ensures |y| < Rest(cfg, x, line).consumed ==> Rest(cfg, y, line) == Incomplete
    ensures Rest(cfg, x, line).consumed <= p ==> Rest(cfg, y, line) == Rest(cfg, x, line)
  {
    hide Find, Agree, CutHeaders, ApplyAll;
    var h := RestHasHead(cfg, x, line);
    HeadAgrees(cfg, x, y, line, p, h);
    FinishAgree(x, y, line, h, HeadEnd(x, line) + 4, p);
  }

  /** Extension: bytes after a complete request do not change it. */
  lemma LaterBytesAreInert(cfg: Config, data: string, longer: string)
    requires Parse(cfg, data).Parsed? && '\0' !in longer
    requires Agree(data, longer, Parse(cfg, data).consumed)
    ensures Parse(cfg, longer) == Parse(cfg, data)
  {
    var p, line := Parse(cfg, data).consumed, CutLine(data);
    ParsedIsComplete(cfg, data);
    ParseIsRest(cfg, data);
    RestKeepsHead(cfg, data, line);
    CutAgree(data, longer, p);
    RefusalIgnoresSize(cfg, |data|, |longer|, line);
    RestAgree(cfg, data, longer, line, p);
    ParseIsRest(cfg, longer);
  }

  lemma RestKeepsHead(cfg: Config, data: string, line: Cut)
    requires Complete(cfg, data, line)
    ensures line.end + 2 <= HeadEnd(data, line)
    ensures HeadEnd(data, line) + 4 <= Rest(cfg, data, line).consumed
  {
  }

  /** What the parser says to the first `m` bytes of a complete request. */
  function PrefixOutcome(cfg: Config, end: int, m: nat): Outcome {
    if end == cfg.maxRequestLine && m == cfg.maxRequestLine + 1 then Failed(TooLarge) else Incomplete
  }

  lemma PrefixOfLine(cfg: Config, data: string, m: nat)
    requires '\0' !in data && CutLine(data).Words? && Refusal(cfg, |data|, CutLine(data)).None?
    requires m < CutLine(data).end + 2 && m <= |data|
    ensures Parse(cfg, data[..m]) == PrefixOutcome(cfg, CutLine(data).end, m)
  {
    assert Agree(data, data[..m], m);
    FindAgree(data, data[..m], CRLF, 0, m);
    RefusalIgnoresSize(cfg, |data|, m, CutLine(data));
    assert CutLine(data[..m]).NoLine?;
  }

  lemma PrefixOfRest(cfg: Config, data: string, m: nat)
    requires '\0' !in data && Complete(cfg, data, CutLine(data))
    requires CutLine(data).end + 2 <= m < Rest(cfg, data, CutLine(data)).consumed
    ensures Parse(cfg, data[..m]) == Incomplete
  {
    var line, y := CutLine(data), data[..m];
    assert Agree(data, y, m);
    CutAgree(data, y, m);
    RefusalIgnoresSize(cfg, |data|, m, line);
    ParseIsRest(cfg, y);
    HeadEndAgree(data, y, line, m);
    if HeadEnd(data, line) + 4 <= m {
      RestAgree(cfg, data, y, line, m);
    }
  }

  /** Every proper prefix of a complete request is incomplete; the one exception is a request line of
      exactly `maxRequestLine` bytes cut between its CR and its LF. */
  lemma ProperPrefix(cfg: Config, data: string, m: nat)
    requires Parse(cfg, data).Parsed? && m < Parse(cfg, data).consumed
    ensures Parse(cfg, data[..m]) == PrefixOutcome(cfg, CutLine(data).end, m)
  {
    ParsedIsComplete(cfg, data);
    ParseIsRest(cfg, data);
    if m < CutLine(data).end + 2 {
      PrefixOfLine(cfg, data, m);
    } else {
      PrefixOfRest(cfg, data, m);
    }
  }

  /** So a parser run on every prefix waits for the whole request exactly when the request line is
      shorter than its limit. */
  lemma WaitsForTheWholeRequest(cfg: Config, data: string)
    requires Parse(cfg, data).Parsed?
    ensures (forall m: nat :: m < Parse(cfg, data).consumed ==> Parse(cfg, data[..m]) == Incomplete)
            <==> CutLine(data).end < cfg.maxRequestLine
  {
    var n, end := Parse(cfg, data).consumed, CutLine(data).end;
    ParsedIsComplete(cfg, data);
    ParseIsRest(cfg, data);
    RestKeepsHead(cfg, data, CutLine(data));
    RefusalIgnoresSize(cfg, |data|, |data|, CutLine(data));
    if end == cfg.maxRequestLine {
      ProperPrefix(cfg, data, end + 1);
    } else {
      forall m: nat | m < n ensures Parse(cfg, data[..m]) == Incomplete {
        ProperPrefix(cfg, data, m);
      }
    }
  }

  // ---------------------------------------------------------------- what an accepted request is

  /** The value of the last header called `name`. */
  function LastValue(lines: Lines, name: string): Option<string>
    decreases lines
  {
    match lines
    case Line(n, value, rest) =>
      if LastValue(rest, name).Some? then LastValue(rest, name)
      else if Lower(n) == name then Some(value) else None
    case _ => None
  }

  /** Every header line is one, and none contradicts `h`. */
  predicate Unanimous(lines: Lines, h: Head)
    decreases lines
  {
    match lines
    case End => true
    case Malformed => false
    case Line(name, value, rest) =>
      && (Lower(name) == "content-length" ==> h.length.Some? && StrToUl(value) == h.length)
      && (Lower(name) == "transfer-encoding" ==> value == "" || Lower(value) == "identity")
      && (Lower(name) == "x-legacyalpha-pin" ==> value == "" || value == h.pin)
      && Unanimous(rest, h)
  }

  /** What headers settle, later ones cannot change. */
  predicate Settles(cfg: Config, h: Head, g: Head) {
    && (h.length.Some? ==> g.length == h.length)
    && (h.pin != "" ==> g.pin == h.pin)
    && (h.length.None? && g.length.Some? ==> g.length.value <= cfg.maxBody)
  }

  lemma {:induction false} AcceptedHeaders(cfg: Config, h: Head, lines: Lines, g: Head)
    requires ApplyAll(cfg, h, lines) == Good(g)
    ensures Settles(cfg, h, g) && Unanimous(lines, g)
    decreases lines
  {
    match lines
    case Line(name, value, rest) =>
      AcceptedHeaders(cfg, Header(cfg, h, name, value).head, rest, g);
      assert Settles(cfg, h, Header(cfg, h, name, value).head);
      hide ApplyAll, StrToUl, Lower;
    case _ =>
  }

  lemma {:induction false} LastValuesCount(cfg: Config, h: Head, lines: Lines, g: Head)
    requires ApplyAll(cfg, h, lines) == Good(g)
    ensures g.pin == (match LastValue(lines, "x-legacyalpha-pin") case None => h.pin case Some(v) => v)
    ensures g.contentType == (match LastValue(lines, "content-type")
                              case None => h.contentType case Some(v) => Lower(v))
    decreases lines
  {
    match lines
    case Line(name, value, rest) =>
      LastValuesCount(cfg, Header(cfg, h, name, value).head, rest, g);
      hide ApplyAll, StrToUl, Lower;
    case _ =>
  }

  /** The header lines of a buffer whose request line is `line`. */
  function HeaderLines(data: string, line: Cut): Lines
    requires line.Words? && HeadEnd(data, line) != -1
  {
    CutHeaders(data, line.end + 2, HeadEnd(data, line))
  }

  /** The body of a request is the end of what it takes up, and as long as its headers say. */
  ghost predicate Fits(cfg: Config, data: string, h: Head, o: Outcome) {
    && o.Parsed? && o.consumed <= |data| && o.consumed <= cfg.maxHeaders + cfg.maxBody
    && |o.request.body| == (if h.length.Some? then h.length.value else 0)
    && |o.request.body| <= o.consumed && o.request.body == data[o.consumed - |o.request.body|..o.consumed]
    && (o.request.verb == "POST" ==> h.length.Some?)
    && o.request.pin == h.pin && o.request.contentType == h.contentType
  }

  lemma FinishFits(cfg: Config, data: string, line: Cut, h: Head, from: nat)
    requires line.Words? && from <= |data| && from <= cfg.maxHeaders && Finish(data, line, h, from).Parsed?
    requires Settles(cfg, Head("", "", None), h)
    ensures Fits(cfg, data, h, Finish(data, line, h, from))
  {
  }

  /** An accepted request fits its limits and ends with its body; every Content-Length it has gives the
      length of that body, no header asks for another transfer coding, and PIN and content type are what
      the last such header says. */
  lemma AcceptedRequest(cfg: Config, data: string) returns (h: Head)
    requires Parse(cfg, data).Parsed?
    ensures Complete(cfg, data, CutLine(data))
    ensures Fits(cfg, data, h, Parse(cfg, data))
    ensures Unanimous(HeaderLines(data, CutLine(data)), h)
    ensures h.pin == (match LastValue(HeaderLines(data, CutLine(data)), "x-legacyalpha-pin")
                      case None => "" case Some(v) => v)
    ensures h.contentType == (match LastValue(HeaderLines(data, CutLine(data)), "content-type")
                              case None => "" case Some(v) => Lower(v))
  {
    var line := CutLine(data);
    hide ApplyAll, CutHeaders, Unanimous, LastValue, Find, Finish, Fits;
    ParsedIsComplete(cfg, data);
    ParseIsRest(cfg, data);
    h := RestHasHead(cfg, data, line);
    AcceptedHeaders(cfg, Head("", "", None), HeaderLines(data, line), h);
    LastValuesCount(cfg, Head("", "", None), HeaderLines(data, line), h);
    FinishFits(cfg, data, line, h, HeadEnd(data, line) + 4);
    hide *;
  }
}
