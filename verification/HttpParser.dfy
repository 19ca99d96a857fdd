/** The HTTP parser as it runs: loops over one buffer, proved to compute `Http.Parse`. */
module HttpParser {
  import opened Types
  import opened Http

  method Trimmed(value: string) returns (r: string)
    ensures r == Trim(value)
  {
    var first, last := 0, |value|;
    while first < last && IsBlank(value[first])
      invariant first <= last == |value|
      invariant TrimLeft(value[first..]) == TrimLeft(value)
    {
      assert value[first..][1..] == value[first + 1..];
      first := first + 1;
    }
    assert value[first..last] == value[first..];
    while last > first && IsBlank(value[last - 1])
      invariant first <= last <= |value|
      invariant TrimRight(value[first..last]) == TrimRight(value[first..])
    {
      assert value[first..last][..last - first - 1] == value[first..last - 1];
      last := last - 1;
    }
    r := value[first..last];
  }

  lemma {:induction false} LowerAt(s: string, k: nat)
    requires k < |s|
    ensures |Lower(s)| == |s| && Lower(s)[k] == LowerChar(s[k])
  {
    if 0 < k {
      LowerAt(s[1..], k - 1);
    } else if 1 < |s| {
      LowerAt(s[1..], 0);
    }
  }

  method Lowered(value: string) returns (r: string)
    ensures r == Lower(value)
  {
    r := value;
    for i := 0 to |value|
      invariant |r| == |value|
      invariant forall k :: 0 <= k < |r| ==> r[k] == if k < i then LowerChar(value[k]) else value[k]
    {
      r := r[i := LowerChar(value[i])];
    }
    forall k | 0 <= k < |value| ensures |Lower(value)| == |value| && Lower(value)[k] == r[k] {
      LowerAt(value, k);
    }
    assert r == Lower(value);
  }

  method IsValidPath(path: string) returns (ok: bool)
    ensures ok <==> ValidPath(path)
  {
    if path == "" || path[0] != '/' || '\0' in path {
      return false;
    }
    if Find(path, "..", 0) != -1 || '\\' in path {
      return false;
    }
    for i := 0 to |path|
      invariant forall k :: 0 <= k < i ==> '\U{20}' <= path[k] && path[k] != '\U{7f}' && path[k] != '%'
    {
      var c := path[i];
      if c < '\U{20}' || c == '\U{7f}' {
        return false;
      }
      if c == '%' {
        return false;
      }
    }
    return '?' !in path;
  }

  method TokenChars(name: string) returns (ok: bool)
    ensures ok <==> IsToken(name)
  {
    for i := 0 to |name|
      invariant IsToken(name[..i])
    {
      if !IsTokenChar(name[i]) {
        return false;
      }
      assert name[..i + 1] == name[..i] + [name[i]];
    }
    assert name[..|name|] == name;
    return true;
  }

  /** What one header line says. */
  method TakeHeader(cfg: Config, h: Head, name: string, value: string) returns (r: HeadResult)
    ensures r == Header(cfg, h, name, value)
  {
    var lname := Lowered(name);
    if lname == "content-length" {
      if value == "" || value[0] == '-' {
        return Bad(BadRequest);
      }
      var parsed := StrToUl(value);
      if parsed.None? {
        return Bad(BadRequest);
      }
      if h.length.Some? && parsed != h.length {
        return Bad(BadRequest);
      }
      if parsed.value > cfg.maxBody {
        return Bad(TooLarge);
      }
      return Good(h.(length := parsed));
    } else if lname == "transfer-encoding" {
      var coding := Lowered(value);
      if value != "" && coding != "identity" {
        return Bad(Unsupported);
      }
    } else if lname == "x-legacyalpha-pin" {
      if h.pin != "" && h.pin != value {
        return Bad(BadRequest);
      }
      return Good(h.(pin := value));
    } else if lname == "content-type" {
      var kind := Lowered(value);
      return Good(h.(contentType := kind));
    }
    return Good(h);
  }

  /** The header lines from `from` to the blank line. */
  method ReadHeaders(cfg: Config, data: string, from: nat, headerEnd: nat) returns (r: HeadResult)
    requires headerEnd <= |data|
    ensures r == ApplyAll(cfg, Head("", "", None), CutHeaders(data, from, headerEnd))
  {
    hide Find, Header;
    var at, h := from, Head("", "", None);
    while at < headerEnd
      invariant ApplyAll(cfg, Head("", "", None), CutHeaders(data, from, headerEnd)) ==
                ApplyAll(cfg, h, CutHeaders(data, at, headerEnd))
    {
      var end := Find(data, CRLF, at);
      if end == -1 || end > headerEnd {
        return Bad(BadRequest);
      }
      var colon := Find(data, ":", at);
      if colon == -1 || colon >= end || colon == at {
        return Bad(BadRequest);
      }
      var name := data[at..colon];
      var ok := TokenChars(name);
      if !ok {
        return Bad(BadRequest);
      }
      var value := Trimmed(data[colon + 1..end]);
      var said := TakeHeader(cfg, h, name, value);
      if said.Bad? {
        return said;
      }
      h := said.head;
      at := end + 2;
    }
    return Good(h);
  }

  method ParseHttpRequest(cfg: Config, data: string) returns (o: Outcome)
    ensures o == Parse(cfg, data)
  {
    hide Find, WordsFault, Rest;
    if '\0' in data {
      return Failed(BadRequest);
    }
    var lineEnd := Find(data, CRLF, 0);
    if lineEnd == -1 {
      return if |data| > cfg.maxRequestLine then Failed(TooLarge) else Incomplete;
    }
    if lineEnd > cfg.maxRequestLine {
      return Failed(TooLarge);
    }
    var firstSpace := Find(data, " ", 0);
    var secondSpace := if firstSpace == -1 then -1 else Find(data, " ", firstSpace + 1);
    if firstSpace == -1 || secondSpace == -1 || secondSpace >= lineEnd {
      return Failed(BadRequest);
    }
    var line := Words(data[..firstSpace], data[firstSpace + 1..secondSpace], data[secondSpace + 1..lineEnd], lineEnd);
    var refused := CheckWords(line.verb, line.path, line.version);
    if refused.Some? {
      return Failed(refused.value);
    }
    o := ParseRest(cfg, data, line);
  }

  method CheckWords(verb: string, path: string, version: string) returns (r: Option<Fault>)
    ensures r == WordsFault(verb, path, version)
  {
    var goodPath := IsValidPath(path);
    if (verb != "GET" && verb != "POST") || !goodPath {
      return Some(BadRequest);
    }
    if version != "HTTP/1.0" && version != "HTTP/1.1" {
      return Some(Unsupported);
    }
    var token := TokenChars(verb);
    if !token {
      return Some(BadRequest);
    }
    return None;
  }

  method ParseRest(cfg: Config, data: string, line: Cut) returns (o: Outcome)
    requires line.Words?
    ensures o == Rest(cfg, data, line)
  {
    hide Find, ApplyAll, CutHeaders;
    var headerEnd := Find(data, BLANK_LINE, line.end + 2);
    if headerEnd == -1 {
      return if |data| > cfg.maxHeaders then Failed(TooLarge) else Incomplete;
    }
    if headerEnd + 4 > cfg.maxHeaders {
      return Failed(TooLarge);
    }
    var head := ReadHeaders(cfg, data, line.end + 2, headerEnd);
    if head.Bad? {
      return Failed(head.fault);
    }
    var h := head.head;
    if line.verb == "POST" && h.length.None? {
      return Failed(BadRequest);
    }
    var total := headerEnd + 4 + if h.length.Some? then h.length.value else 0;
    if |data| < total {
      return Incomplete;
    }
    return Parsed(HttpRequest(line.verb, line.path, h.pin, h.contentType, data[headerEnd + 4..total]), total);
  }
}
