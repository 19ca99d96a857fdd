/** The bodies of POST requests: what they say, and the one-pass cursor that reads them. */
module Bodies {
  import opened Types
  import opened Json
  import Cursor
  import Http

  datatype CaptureRequest = CaptureRequest(requestId: string, delayMs: int, autofocus: bool)

  // ---------------------------------------------------------------- what a body says

  datatype Member = Id(text: string) | Delay(ms: int) | Autofocus(on: bool)

  function Key(m: Member): string {
    match m
    case Id(_) => "request_id"
    case Delay(_) => "delay_ms"
    case Autofocus(_) => "autofocus"
  }

  /** The value of the member called `key`. */
  function ReadMember(key: string, s: string): Read<Member> {
    if key == "request_id" then
      match ReadString(s)
      case Fail => Fail
      case Got(text, rest) => Got(Id(text), rest)
    else if key == "delay_ms" then
      match ReadInteger(s)
      case Fail => Fail
      case Got(ms, rest) => Got(Delay(ms), rest)
    else if key == "autofocus" then
      match ReadBool(s)
      case Fail => Fail
      case Got(on, rest) => Got(Autofocus(on), rest)
    else Fail
  }

  /** A key and the colon after it. */
  function ReadKey(s: string): Read<string> {
    match ReadString(s)
    case Fail => Fail
    case Got(key, rest) =>
      match Take(rest, ':')
      case None => Fail
      case Some(value) => Got(key, value)
  }

  function ReadField(s: string): Read<Member> {
    match ReadKey(s)
    case Fail => Fail
    case Got(key, rest) => ReadMember(key, rest)
  }

  /** The members up to the closing brace, whatever they repeat. */
  function ReadFields(s: string): Read<seq<Member>>
    decreases |s|
  {
    match ReadField(s)
    case Fail => Fail
    case Got(m, rest) =>
      if Take(rest, '}').Some? then Got([m], Take(rest, '}').value)
      else
        match Take(rest, ',')
        case None => Fail
        case Some(more) =>
          Shorter(s);
          match ReadFields(more)
          case Fail => Fail
          case Got(ms, end) => Got([m] + ms, end)
  }

  lemma Skips(s: string)
    ensures |Http.SkipSpaces(s)| <= |s|
  {
  }

  lemma Takes(s: string, c: char)
    ensures Take(s, c).Some? ==> |Take(s, c).value| < |s|
  {
    Skips(s);
  }

  lemma ReadsShorten(s: string)
    ensures ReadString(s).Got? ==> |ReadString(s).rest| < |s|
    ensures ReadInteger(s).Got? ==> |ReadInteger(s).rest| <= |s|
    ensures ReadBool(s).Got? ==> |ReadBool(s).rest| <= |s|
  {
    Skips(s);
  }

  lemma KeyShortens(s: string)
    ensures ReadKey(s).Got? ==> |ReadKey(s).rest| < |s|
  {
    ReadsShorten(s);
    if ReadString(s).Got? {
      Takes(ReadString(s).rest, ':');
    }
  }

  lemma MemberShortens(key: string, s: string)
    ensures ReadMember(key, s).Got? ==> |ReadMember(key, s).rest| <= |s|
  {
    ReadsShorten(s);
  }

  lemma Shorter(s: string)
    ensures ReadField(s).Got? ==> |ReadField(s).rest| < |s|
    ensures ReadField(s).Got? && Take(ReadField(s).rest, ',').Some? ==> |Take(ReadField(s).rest, ',').value| < |s|
  {
    KeyShortens(s);
    if ReadKey(s).Got? {
      MemberShortens(ReadKey(s).value, ReadKey(s).rest);
    }
    if ReadField(s).Got? {
      Takes(ReadField(s).rest, ',');
    }
  }

  /** What has been said so far: each thing at most once. */
  datatype Said = Said(id: Option<string>, delay: Option<int>, autofocus: Option<bool>)

  const NOTHING := Said(None, None, None)

  function Add(f: Said, m: Member): Option<Said> {
    match m
    case Id(text) => if f.id.Some? then None else Some(f.(id := Some(text)))
    case Delay(ms) => if f.delay.Some? then None else Some(f.(delay := Some(ms)))
    case Autofocus(on) => if f.autofocus.Some? then None else Some(f.(autofocus := Some(on)))
  }

  function AddAll(f: Said, ms: seq<Member>): Option<Said>
    decreases |ms|
  {
    if ms == [] then Some(f)
    else
      match Add(f, ms[0])
      case None => None
      case Some(g) => AddAll(g, ms[1..])
  }

  predicate IdChar(c: char) {
    'a' <= c <= 'z' || 'A' <= c <= 'Z' || Http.IsDigit(c) || c in "-_.:"
  }

  predicate ValidRequestId(id: string) {
    0 < |id| <= 64 && forall i :: 0 <= i < |id| ==> IdChar(id[i])
  }

  /** All three said, the id a valid one. */
  function Conclude(f: Said): Option<CaptureRequest> {
    match f
    case Said(Some(id), Some(delay), Some(on)) =>
      if ValidRequestId(id) then Some(CaptureRequest(id, delay, on)) else None
    case _ => None
  }

  /** The request made by `f` and the members still to come. */
  function Outcome(f: Said, fields: Read<seq<Member>>): Option<CaptureRequest> {
    match fields
    case Fail => None
    case Got(ms, rest) =>
      if Http.SkipSpaces(rest) != "" then None
      else
        match AddAll(f, ms)
        case None => None
        case Some(g) => Conclude(g)
  }

  function ParseCapture(body: string): Option<CaptureRequest> {
    match Take(body, '{')
    case None => None
    case Some(inside) =>
      if Take(inside, '}').Some? then None else Outcome(NOTHING, ReadFields(inside))
  }

  /** After the key and the colon of a focus body. */
  function FocusValue(s: string): Option<bool> {
    match ReadBool(s)
    case Fail => None
    case Got(pressed, after) =>
      match Take(after, '}')
      case None => None
      case Some(end) => if Http.SkipSpaces(end) == "" then Some(pressed) else None
  }

  function FocusMember(s: string): Option<bool> {
    match ReadKey(s)
    case Fail => None
    case Got(key, rest) => if key == "pressed" then FocusValue(rest) else None
  }

  function ParseFocus(body: string): Option<bool> {
    match Take(body, '{')
    case None => None
    case Some(inside) => FocusMember(inside)
  }


  // ---------------------------------------------------------------- the one-pass reader

  lemma {:induction false} SkipTwice(s: string)
    ensures Http.SkipSpaces(Http.SkipSpaces(s)) == Http.SkipSpaces(s)
  {
    if s != "" && Http.IsSpace(s[0]) {
      SkipTwice(s[1..]);
    }
  }

  /** Spaces before the first member do not matter. */
  lemma FieldsAfterSpaces(s: string)
    ensures ReadFields(Http.SkipSpaces(s)) == ReadFields(s)
  {
    SkipTwice(s);
    assert ReadKey(Http.SkipSpaces(s)) == ReadKey(s);
  }

  /** One member more. */
  lemma FieldStep(f: Said, s: string, m: Member, rest: string)
    requires ReadField(s) == Got(m, rest)
    ensures Outcome(f, ReadFields(s)) ==
            if Add(f, m).None? then None
            else if Take(rest, '}').Some? then Outcome(Add(f, m).value, Got([], Take(rest, '}').value))
            else if Take(rest, ',').None? then None
            else Outcome(Add(f, m).value, ReadFields(Take(rest, ',').value))
  {
    if Take(rest, '}').Some? {
      assert [m][1..] == [];
      assert ReadFields(s) == Got([m], Take(rest, '}').value);
    } else if Take(rest, ',').Some? {
      var more := ReadFields(Take(rest, ',').value);
      if more.Got? {
        assert ([m] + more.value)[1..] == more.value;
        assert ReadFields(s) == Got([m] + more.value, more.rest);
      }
    }
  }

  method ValidId(requestId: string) returns (ok: bool)
    ensures ok <==> ValidRequestId(requestId)
  {
    if requestId == "" || |requestId| > 64 {
      return false;
    }
    for i := 0 to |requestId|
      invariant forall k :: 0 <= k < i ==> IdChar(requestId[k])
    {
      if !IdChar(requestId[i]) {
        return false;
      }
    }
    return true;
  }

  method KeyAndColon(c: Cursor.JsonCursor) returns (ok: bool, key: string)
    requires c.Valid()
    modifies c
    ensures c.Valid() && ok == ReadKey(old(c.Rest())).Got?
    ensures ok ==> ReadKey(old(c.Rest())) == Got(key, c.Rest())
  {
    ok, key := c.StringValue();
    if ok {
      ok := c.Take(':');
    }
  }

  /** Reads the value of `key` and adds it to what was said. */
  method AddMember(c: Cursor.JsonCursor, key: string, said: Said) returns (ok: bool, more: Said)
    requires c.Valid()
    modifies c
    ensures c.Valid()
    ensures match ReadMember(key, old(c.Rest()))
            case Fail => !ok
            case Got(m, rest) => ok == Add(said, m).Some? && (ok ==> rest == c.Rest() && Some(more) == Add(said, m))
  {
    more := said;
    if key == "request_id" {
      if said.id.Some? {
        return false, said;
      }
      var text;
      ok, text := c.StringValue();
      more := said.(id := Some(text));
    } else if key == "delay_ms" {
      if said.delay.Some? {
        return false, said;
      }
      var ms;
      ok, ms := c.IntegerValue();
      more := said.(delay := Some(ms));
    } else if key == "autofocus" {
      if said.autofocus.Some? {
        return false, said;
      }
      var on;
      ok, on := c.BoolValue();
      more := said.(autofocus := Some(on));
    } else {
      ok := false;
    }
  }

  method ParseCaptureJson(body: string) returns (r: Option<CaptureRequest>)
    ensures r == ParseCapture(body)
  {
    hide Cursor.JsonCursor.Rest, Cursor.JsonCursor.Valid;
    var c := new Cursor.JsonCursor(body);
    var said := NOTHING;
    var ok := c.Take('{');
    if !ok {
      return None;
    }
    FieldsAfterSpaces(c.Rest());
    var closed := c.Take('}');
    if closed {
      return None;
    }
    while true
      invariant c.Valid() && fresh(c)
      invariant ParseCapture(body) == Outcome(said, ReadFields(c.Rest()))
      decreases |c.Rest()|
    {
      ghost var s, before := c.Rest(), said;
      var key;
      ok, key := KeyAndColon(c);
      if !ok {
        return None;
      }
      ok, said := AddMember(c, key, said);
      if ReadField(s).Got? {
        FieldStep(before, s, ReadField(s).value, ReadField(s).rest);
      }
      if !ok {
        return None;
      }
      Shorter(s);
      SkipTwice(c.Rest());
      closed := c.Take('}');
      if closed {
        break;
      }
      ok := c.Take(',');
      if !ok {
        return None;
      }
    }
    var done := c.Done();
    if !done || said.id.None? || said.delay.None? || said.autofocus.None? {
      return None;
    }
    var valid := ValidId(said.id.value);
    return if valid then Some(CaptureRequest(said.id.value, said.delay.value, said.autofocus.value)) else None;
  }

  method ParseFocusJson(body: string) returns (r: Option<bool>)
    ensures r == ParseFocus(body)
  {
    hide Cursor.JsonCursor.Rest, Cursor.JsonCursor.Valid;
    var c := new Cursor.JsonCursor(body);
    var ok := c.Take('{');
    if !ok {
      return None;
    }
    var key;
    ok, key := KeyAndColon(c);
    if !ok || key != "pressed" {
      return None;
    }
    var pressed;
    ok, pressed := c.BoolValue();
    if !ok {
      return None;
    }
    ok := c.Take('}');
    if !ok {
      return None;
    }
    ok := c.Done();
    return if ok then Some(pressed) else None;
  }

  // ---------------------------------------------------------------- exactly one of each

  /** What was said, as members. */
  function Contents(f: Said): multiset<Member> {
    IdPart(f) + DelayPart(f) + FlagPart(f)
  }

  function IdPart(f: Said): multiset<Member> {
    if f.id.Some? then multiset{Id(f.id.value)} else multiset{}
  }

  function DelayPart(f: Said): multiset<Member> {
    if f.delay.Some? then multiset{Delay(f.delay.value)} else multiset{}
  }

  function FlagPart(f: Said): multiset<Member> {
    if f.autofocus.Some? then multiset{Autofocus(f.autofocus.value)} else multiset{}
  }

  lemma ContentsIsInjective(f: Said, g: Said)
    requires Contents(f) == Contents(g)
    ensures f == g
  {
    forall m: Member ensures Times(f, m) == Times(g, m) {
      ContentsAre(f, m);
      ContentsAre(g, m);
    }
    assert f.id.Some? ==> Times(f, Id(f.id.value)) == 1;
    assert g.id.Some? ==> Times(g, Id(g.id.value)) == 1;
    assert f.delay.Some? ==> Times(f, Delay(f.delay.value)) == 1;
    assert g.delay.Some? ==> Times(g, Delay(g.delay.value)) == 1;
    assert f.autofocus.Some? ==> Times(f, Autofocus(f.autofocus.value)) == 1;
    assert g.autofocus.Some? ==> Times(g, Autofocus(g.autofocus.value)) == 1;
  }

  /** A part that was empty may be filled in its place. */
  lemma Together(a: multiset<Member>, b: multiset<Member>, c: multiset<Member>, m: Member)
    ensures a == multiset{} ==> multiset{m} + b + c == a + b + c + multiset{m}
    ensures b == multiset{} ==> a + multiset{m} + c == a + b + c + multiset{m}
    ensures c == multiset{} ==> a + b + multiset{m} == a + b + c + multiset{m}
  {
  }

  lemma AddCounts(f: Said, m: Member)
    ensures Add(f, m).Some? ==> Contents(Add(f, m).value) == Contents(f) + multiset{m}
  {
    Together(IdPart(f), DelayPart(f), FlagPart(f), m);
    if Add(f, m).Some? {
      var g := Add(f, m).value;
      assert m.Id? ==> IdPart(g) == multiset{m} && IdPart(f) == multiset{};
      assert m.Delay? ==> DelayPart(g) == multiset{m} && DelayPart(f) == multiset{};
      assert m.Autofocus? ==> FlagPart(g) == multiset{m} && FlagPart(f) == multiset{};
      assert !m.Id? ==> IdPart(g) == IdPart(f);
      assert !m.Delay? ==> DelayPart(g) == DelayPart(f);
      assert !m.Autofocus? ==> FlagPart(g) == FlagPart(f);
      hide IdPart, DelayPart, FlagPart, Add;
    }
  }

  /** How often `m` was said. */
  function Times(f: Said, m: Member): nat {
    var said := match m
      case Id(text) => f.id == Some(text)
      case Delay(ms) => f.delay == Some(ms)
      case Autofocus(on) => f.autofocus == Some(on);
    if said then 1 else 0
  }

  lemma ContentsAre(f: Said, m: Member)
    ensures Contents(f)[m] == Times(f, m)
  {
  }

  /** What was said of the same kind as `m`, if anything. */
  function Rival(f: Said, m: Member): Member {
    match m
    case Id(_) => if f.id.Some? then Id(f.id.value) else m
    case Delay(_) => if f.delay.Some? then Delay(f.delay.value) else m
    case Autofocus(_) => if f.autofocus.Some? then Autofocus(f.autofocus.value) else m
  }

  /** A member too many cannot be part of anything said. */
  lemma AddFits(f: Said, m: Member, g: Said, more: multiset<Member>)
    requires Contents(f) + multiset{m} + more == Contents(g)
    ensures Add(f, m).Some?
  {
    hide Contents;
    var rival := Rival(f, m);
    assert Contents(f)[rival] <= Contents(g)[rival] && Contents(f)[m] + 1 <= Contents(g)[m];
    ContentsAre(f, rival);
    ContentsAre(g, rival);
    ContentsAre(f, m);
    ContentsAre(g, m);
  }

  /** Adding up members succeeds exactly when together they say each thing once. */
  lemma {:induction false} AddAllCounts(f: Said, ms: seq<Member>, g: Said)
    ensures AddAll(f, ms) == Some(g) <==> Contents(f) + multiset(ms) == Contents(g)
    decreases |ms|
  {
    if ms == [] {
      if Contents(f) == Contents(g) {
        ContentsIsInjective(f, g);
      }
    } else {
      var m, more := ms[0], ms[1..];
      assert ms == [m] + more;
      AddCounts(f, m);
      if Contents(f) + multiset(ms) == Contents(g) {
        AddFits(f, m, g, multiset(more));
      }
      if Add(f, m).Some? {
        AddAllCounts(Add(f, m).value, more, g);
      }
    }
  }

  /** The members that make the request `r`. */
  function MembersOf(r: CaptureRequest): multiset<Member> {
    multiset{Id(r.requestId), Delay(r.delayMs), Autofocus(r.autofocus)}
  }

  function FullySaid(r: CaptureRequest): Said {
    Said(Some(r.requestId), Some(r.delayMs), Some(r.autofocus))
  }

  lemma FullContents(r: CaptureRequest)
    ensures Contents(FullySaid(r)) == MembersOf(r) && Contents(NOTHING) == multiset{}
  {
  }

  lemma OutcomeCounts(fields: Read<seq<Member>>, r: CaptureRequest)
    ensures Outcome(NOTHING, fields) == Some(r) <==>
            && fields.Got? && Http.SkipSpaces(fields.rest) == ""
            && multiset(fields.value) == MembersOf(r) && ValidRequestId(r.requestId)
  {
    if fields.Got? {
      hide Http.SkipSpaces, AddAll, Contents, MembersOf, ValidRequestId;
      AddAllCounts(NOTHING, fields.value, FullySaid(r));
      FullContents(r);
      assert Contents(NOTHING) + multiset(fields.value) == multiset(fields.value);
    }
  }

  /** The members between the braces of a body, each read whether or not it is a repetition. */
  function Fields(body: string): Read<seq<Member>> {
    match Take(body, '{')
    case None => Fail
    case Some(inside) => if Take(inside, '}').Some? then Fail else ReadFields(inside)
  }

  /** The one-pass reader accepts a body exactly when its members, read without looking at repetitions,
      are one id, one delay and one autofocus flag in some order, nothing follows, and the id is valid. */
  lemma AcceptedBodies(body: string, r: CaptureRequest)
    ensures ParseCapture(body) == Some(r) <==>
            && Fields(body).Got? && Http.SkipSpaces(Fields(body).rest) == ""
            && multiset(Fields(body).value) == MembersOf(r) && ValidRequestId(r.requestId)
  {
    OutcomeCounts(Fields(body), r);
  }

  // ---------------------------------------------------------------- renderings

  predicate Spaces(s: string) {
    s == "" || (Http.IsSpace(s[0]) && Spaces(s[1..]))
  }

  /** A member as a client may write it, with spaces in four places. */
  datatype Written = Written(m: Member, before: string, afterKey: string, beforeValue: string, after: string)
  {
    predicate Valid() {
      && Spaces(before) && Spaces(afterKey) && Spaces(beforeValue) && Spaces(after)
      && match m
         case Id(text) => Readable(text) && |text| <= MAX_STRING
         case Delay(ms) => -1_000_000_000 < ms <= LONG_MAX
         case Autofocus(_) => true
    }
  }

  function RenderValue(m: Member): string {
    match m
    case Id(text) => Quote(text)
    case Delay(ms) => Decimal(ms)
    case Autofocus(on) => if on then "true" else "false"
  }

  function RenderMember(w: Written): string {
    w.before + (Quote(Key(w.m)) + (w.afterKey + ([':'] + (w.beforeValue + (RenderValue(w.m) + w.after)))))
  }

  function RenderMembers(ws: seq<Written>): string {
    if ws == [] then "}"
    else RenderMember(ws[0]) + if |ws| == 1 then "}" else [','] + RenderMembers(ws[1..])
  }

  function RenderBody(lead: string, ws: seq<Written>, trail: string): string {
    lead + (['{'] + (RenderMembers(ws) + trail))
  }

  function Members(ws: seq<Written>): seq<Member> {
    if ws == [] then [] else [ws[0].m] + Members(ws[1..])
  }

  lemma {:induction false} SkipsSpaces(g: string, s: string)
    requires Spaces(g)
    ensures Http.SkipSpaces(g + s) == Http.SkipSpaces(s)
  {
    if g == "" {
      assert g + s == s;
    } else {
      assert (g + s)[1..] == g[1..] + s;
      SkipsSpaces(g[1..], s);
    }
  }

  lemma TakesAfter(g: string, c: char, s: string, d: char)
    requires Spaces(g) && !Http.IsSpace(c)
    ensures Take(g + ([c] + s), d) == if c == d then Some(s) else None
  {
    SkipsSpaces(g, [c] + s);
    assert ([c] + s)[1..] == s;
  }

  lemma StringsAfter(g: string, text: string, s: string)
    requires Spaces(g) && Readable(text) && |text| <= MAX_STRING
    ensures ReadString(g + (Quote(text) + s)) == Got(text, s)
  {
    var q := Quote(text) + s;
    SkipsSpaces(g, q);
    SkipTwice(q);
    QuotedStringsComeBack(text, s);
    assert ReadString(g + q) == ReadString(q);
  }

  lemma {:induction false} PrintableIsReadable(s: string)
    requires forall i :: 0 <= i < |s| ==> !IsControl(s[i])
    ensures Readable(s)
  {
    if s != "" {
      PrintableIsReadable(s[1..]);
    }
  }

  lemma KeyAfter(before: string, key: string, afterKey: string, s: string)
    requires Spaces(before) && Spaces(afterKey) && Readable(key) && |key| <= MAX_STRING
    ensures ReadKey(before + (Quote(key) + (afterKey + ([':'] + s)))) == Got(key, s)
  {
    hide Quote, Take, ReadString, Spaces;
    StringsAfter(before, key, afterKey + ([':'] + s));
    TakesAfter(afterKey, ':', s, ':');
  }

  lemma KeysComeBack(w: Written, s: string)
    requires w.Valid()
    ensures ReadKey(w.before + (Quote(Key(w.m)) + (w.afterKey + ([':'] + s)))) == Got(Key(w.m), s)
  {
    PrintableIsReadable(Key(w.m));
    KeyAfter(w.before, Key(w.m), w.afterKey, s);
    hide Quote, ReadKey;
  }

  lemma ValuesComeBack(w: Written, s: string)
    requires w.Valid() && (s != "" ==> !Http.IsDigit(s[0]))
    ensures ReadMember(Key(w.m), w.beforeValue + (RenderValue(w.m) + s)) == Got(w.m, s)
  {
    var t := w.beforeValue + (RenderValue(w.m) + s);
    SkipsSpaces(w.beforeValue, RenderValue(w.m) + s);
    SkipTwice(RenderValue(w.m) + s);
    match w.m
    case Id(text) => StringsAfter(w.beforeValue, text, s);
    case Delay(ms) =>
      DecimalsComeBack(ms, s);
      assert ReadInteger(t) == ReadInteger(RenderValue(w.m) + s);
    case Autofocus(on) =>
      BoolsComeBack(on, s);
      assert ReadBool(t) == ReadBool(RenderValue(w.m) + s);
  }

  lemma BoolsComeBack(on: bool, s: string)
    ensures ReadBool((if on then "true" else "false") + s) == Got(on, s)
  {
    var t := (if on then "true" else "false") + s;
    assert t[0] == if on then 't' else 'f';
    assert t[if on then 4 else 5..] == s;
  }

  lemma MembersComeBack(w: Written, s: string)
    requires w.Valid() && s != "" && !Http.IsDigit(s[0])
    ensures ReadField(RenderMember(w) + s) == Got(w.m, w.after + s)
  {
    var value := w.beforeValue + (RenderValue(w.m) + (w.after + s));
    assert RenderMember(w) + s == w.before + (Quote(Key(w.m)) + (w.afterKey + ([':'] + value)));
    assert (w.after + s)[0] == if w.after == "" then s[0] else w.after[0];
    KeysComeBack(w, value);
    ValuesComeBack(w, w.after + s);
  }

  predicate AllValid(ws: seq<Written>) {
    ws == [] || (ws[0].Valid() && AllValid(ws[1..]))
  }

  lemma {:induction false} ListsComeBack(ws: seq<Written>, trail: string)
    requires ws != [] && AllValid(ws)
    ensures ReadFields(RenderMembers(ws) + trail) == Got(Members(ws), trail)
  {
    hide ReadFields, RenderMember, Written.Valid;
    FirstRendered(ws, trail);
    if |ws| == 1 {
      assert Members(ws) == [ws[0].m];
      LastMember(ws[0], trail);
    } else {
      ListsComeBack(ws[1..], trail);
      MemberBefore(ws[0], RenderMembers(ws[1..]) + trail);
    }
  }

  /** What comes after the first member. */
  function Remainder(ws: seq<Written>, trail: string): string
    requires ws != []
  {
    if |ws| == 1 then ['}'] + trail else [','] + (RenderMembers(ws[1..]) + trail)
  }

  lemma FirstRendered(ws: seq<Written>, trail: string)
    requires ws != []
    ensures RenderMembers(ws) + trail == RenderMember(ws[0]) + Remainder(ws, trail)
  {
    hide RenderMember;
    var first := RenderMember(ws[0]);
    if |ws| == 1 {
      assert first + "}" + trail == first + (['}'] + trail);
    } else {
      var more := RenderMembers(ws[1..]);
      assert first + ([','] + more) + trail == first + ([','] + (more + trail));
    }
  }

  lemma LastMember(w: Written, trail: string)
    requires w.Valid()
    ensures ReadFields(RenderMember(w) + (['}'] + trail)) == Got([w.m], trail)
  {
    MembersComeBack(w, ['}'] + trail);
    TakesAfter(w.after, '}', trail, '}');
    hide RenderMember, ReadField, Take, Written.Valid;
  }

  lemma MemberBefore(w: Written, more: string)
    requires w.Valid() && ReadFields(more).Got?
    ensures ReadFields(RenderMember(w) + ([','] + more)) == Got([w.m] + ReadFields(more).value, ReadFields(more).rest)
  {
    MembersComeBack(w, [','] + more);
    TakesAfter(w.after, ',', more, '}');
    TakesAfter(w.after, ',', more, ',');
    hide RenderMember, ReadField, Take, Written.Valid;
  }

  /** Any members, in any order, with spaces anywhere between them, come back; so a rendered body is
      accepted exactly when it says each of the three things once and its id is valid. */
  lemma CaptureBodiesComeBack(lead: string, ws: seq<Written>, trail: string, r: CaptureRequest)
    requires Spaces(lead) && Spaces(trail) && ws != [] && AllValid(ws)
    ensures ParseCapture(RenderBody(lead, ws, trail)) == Some(r) <==>
            multiset(Members(ws)) == MembersOf(r) && ValidRequestId(r.requestId)
  {
    hide ReadFields, RenderMembers, Members, AllValid, Outcome, MembersOf, ValidRequestId;
    var body := RenderBody(lead, ws, trail);
    TakesAfter(lead, '{', RenderMembers(ws) + trail, '{');
    ListsComeBack(ws, trail);
    NoClosingBrace(ws, trail);
    SkipsSpaces(trail, "");
    assert trail + "" == trail;
    AcceptedBodies(body, r);
  }

  lemma NoClosingBrace(ws: seq<Written>, trail: string)
    requires ws != [] && AllValid(ws)
    ensures Take(RenderMembers(ws) + trail, '}') == None
  {
    var w, s := ws[0], Remainder(ws, trail);
    FirstRendered(ws, trail);
    NoBraceBeforeKey(w, s);
  }

  lemma NoBraceBeforeKey(w: Written, s: string)
    requires w.Valid()
    ensures Take(RenderMember(w) + s, '}') == None
  {
    hide RenderValue, Key, Take, Escape, ReadString, ReadChars;
    var u := w.afterKey + ([':'] + (w.beforeValue + (RenderValue(w.m) + (w.after + s))));
    assert RenderMember(w) + s == w.before + (Quote(Key(w.m)) + u);
    QuoteOpens(Key(w.m), u);
    assert Quote(Key(w.m)) + u == ['\"'] + (Escape(Key(w.m)) + "\"" + u);
    TakesAfter(w.before, '\"', Escape(Key(w.m)) + "\"" + u, '}');
  }

  // ---------------------------------------------------------------- focus bodies

  /** A body with one flag, with spaces in six places. */
  datatype Flag = Flag(key: string, on: bool, lead: string, before: string, afterKey: string,
                       beforeValue: string, after: string, trail: string)
  {
    predicate Valid() {
      && Spaces(lead) && Spaces(before) && Spaces(afterKey) && Spaces(beforeValue) && Spaces(after) && Spaces(trail)
      && Readable(key) && |key| <= MAX_STRING
    }

    function Value(): string {
      beforeValue + ((if on then "true" else "false") + (after + (['}'] + trail)))
    }

    function Render(): string {
      lead + (['{'] + (before + (Quote(key) + (afterKey + ([':'] + Value())))))
    }
  }

  lemma FlagValueComesBack(f: Flag)
    requires f.Valid()
    ensures FocusValue(f.Value()) == Some(f.on)
  {
    var text, end := if f.on then "true" else "false", f.after + (['}'] + f.trail);
    SkipsSpaces(f.beforeValue, text + end);
    SkipTwice(text + end);
    BoolsComeBack(f.on, end);
    assert ReadBool(f.Value()) == ReadBool(text + end);
    TakesAfter(f.after, '}', f.trail, '}');
    SkipsSpaces(f.trail, "");
    assert f.trail + "" == f.trail;
  }

  /** A rendered flag is accepted, with its value, exactly when its key is "pressed". */
  lemma FocusBodiesComeBack(f: Flag)
    requires f.Valid()
    ensures ParseFocus(f.Render()) == if f.key == "pressed" then Some(f.on) else None
  {
    var inside := f.before + (Quote(f.key) + (f.afterKey + ([':'] + f.Value())));
    TakesAfter(f.lead, '{', inside, '{');
    KeyAfter(f.before, f.key, f.afterKey, f.Value());
    FlagValueComesBack(f);
    hide Quote, Take, ReadKey, FocusValue, Flag.Value;
  }
}
