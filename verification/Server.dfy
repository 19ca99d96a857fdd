/** The connections of the HTTP server, over whatever poll, accept, recv, send and the handler answer. */
module Server {
  import opened Types
  import opened Http
  import HttpParser

  // ---------------------------------------------------------------- the outside world

  datatype Received = Bytes(data: string) | HungUp | ReadFailed(again: bool)

  datatype Sent = Wrote(count: nat) | WriteFailed(again: bool)

  /** What poll reports for one descriptor, and what happens to its client if it is touched. */
  datatype Io = Io(broken: bool, readable: bool, writable: bool,
                   received: Received, sent: Sent, reply: string, now: int)

  datatype Arrival = Nobody | Refused | Arrived(fd: int, peer: string, now: int)

  /** The error pages; like every reply of the handler they are not empty. */
  datatype Pages = Pages(tooLarge: string, unsupported: string, badRequest: string)
  {
    predicate Valid() {
      tooLarge != "" && unsupported != "" && badRequest != ""
    }

    function Of(fault: Fault): string {
      match fault
      case TooLarge => tooLarge
      case Unsupported => unsupported
      case BadRequest => badRequest
    }
  }

  const CHUNK := 2048

  // ---------------------------------------------------------------- one connection

  datatype Client = Client(fd: int, input: string, output: string, written: nat, lastActivityMs: int, peer: string)

  /** A connection and its past: the requests handed to the handler and the bytes sent. */
  datatype Life = Life(client: Client, calls: seq<HttpRequest>, sent: string)

  datatype Fate = Open(life: Life) | Closed(life: Life)

  function Born(a: Arrival): Life
    requires a.Arrived?
  {
    Life(Client(a.fd, "", "", 0, a.now, a.peer), [], "")
  }

  /** One entry of the vector given to poll: watch for input, or else for room to write. */
  datatype Descriptor = Descriptor(fd: int, forInput: bool)

  /** A client is watched for input until it has output, and for room to write from then on. */
  function Watch(c: Client): Descriptor {
    Descriptor(c.fd, c.output == "")
  }

  /** Poll reports nothing but what it was asked for, and trouble. */
  predicate Answers(d: Descriptor, io: Io) {
    (io.readable ==> d.forInput) && (io.writable ==> !d.forInput)
  }

  /** Replies are not empty, recv gives at least one byte, and send takes no more than it is given. */
  predicate Sane(c: Client, io: Io) {
    && io.reply != ""
    && (io.received.Bytes? ==> 0 < |io.received.data| <= CHUNK)
    && (io.sent.Wrote? && c.written <= |c.output| ==> io.sent.count <= |c.output| - c.written)
  }

  predicate Honest(c: Client, io: Io) {
    Answers(Watch(c), io) && Sane(c, io)
  }

  /** What the bytes received so far lead to: nothing yet, a call of the handler, or an error page. */
  datatype Verdict = Wait | Hand(request: HttpRequest) | Page(text: string)

  function Judge(cfg: Config, pages: Pages, input: string): Verdict {
    if cfg.maxHeaders + cfg.maxBody < |input| then Page(pages.tooLarge)
    else
      match Parse(cfg, input)
      case Incomplete => Wait
      case Failed(fault) => Page(pages.Of(fault))
      case Parsed(request, _) => Hand(request)
  }

  function Read(cfg: Config, pages: Pages, l: Life, io: Io): Fate {
    match io.received
    case HungUp => Closed(l)
    case ReadFailed(again) => if again then Open(l) else Closed(l)
    case Bytes(data) =>
      var c := l.client.(lastActivityMs := io.now, input := l.client.input + data);
      match Judge(cfg, pages, c.input)
      case Wait => Open(l.(client := c))
      case Page(text) => Open(l.(client := c.(output := text)))
      case Hand(request) => Open(l.(client := c.(output := io.reply), calls := l.calls + [request]))
  }

  function Write(l: Life, io: Io): Fate
    requires l.client.written <= |l.client.output|
    requires io.sent.Wrote? ==> io.sent.count <= |l.client.output| - l.client.written
  {
    var c := l.client;
    match io.sent
    case WriteFailed(again) => if again then Open(l) else Closed(l)
    case Wrote(count) =>
      var more := l.(client := if count == 0 then c else c.(written := c.written + count, lastActivityMs := io.now),
                     sent := l.sent + c.output[c.written..c.written + count]);
      if c.written + count == |c.output| then Closed(more) else Open(more)
  }

  /** One connection in one round. */
  function Touch(cfg: Config, pages: Pages, l: Life, io: Io): Fate
    requires Honest(l.client, io) && l.client.written <= |l.client.output|
  {
    if io.broken then Closed(l)
    else if io.readable then Read(cfg, pages, l, io)
    else if io.writable then Write(l, io)
    else Open(l)
  }

  /** The promises about a connection. */
  predicate Sound(l: Life) {
    && l.client.written <= |l.client.output|
    && l.sent == l.client.output[..l.client.written]
    && |l.calls| <= 1 && (l.client.output == "" ==> l.calls == [])
  }

  /** Its handler is called at most once, what is sent is the beginning of its output, and an open one is
      never done sending. */
  lemma TouchIsSound(cfg: Config, pages: Pages, l: Life, io: Io)
    requires pages.Valid() && Sound(l) && Honest(l.client, io)
    requires l.client.output != "" ==> l.client.written < |l.client.output|
    ensures var fate := Touch(cfg, pages, l, io);
            && Sound(fate.life) && l.calls <= fate.life.calls && l.sent <= fate.life.sent
            && (fate.Open? && fate.life.client.output != "" ==> fate.life.client.written < |fate.life.client.output|)
  {
    hide Parse;
    var c, d := l.client, Touch(cfg, pages, l, io).life.client;
    if !io.broken && !io.readable && io.writable && io.sent.Wrote? {
      assert c.output[..c.written] + c.output[c.written..d.written] == c.output[..d.written];
    }
  }

  /** A writer that closes without an error has sent everything. */
  lemma ClosedWritersAreDone(cfg: Config, pages: Pages, l: Life, io: Io)
    requires Sound(l) && Honest(l.client, io) && !io.broken && !io.readable && io.sent.Wrote?
    requires l.client.output != "" ==> l.client.written < |l.client.output|
    requires Touch(cfg, pages, l, io).Closed?
    ensures Touch(cfg, pages, l, io).life.sent == l.client.output != ""
  {
    var c := l.client;
    assert c.output[..c.written] + c.output[c.written..] == c.output;
  }

  // ---------------------------------------------------------------- requests in pieces

  predicate AllBytes(ios: seq<Io>) {
    forall i :: 0 <= i < |ios| ==> ios[i].received.Bytes?
  }

  /** Everything received. */
  function Joined(ios: seq<Io>): string
    requires AllBytes(ios)
  {
    if ios == [] then "" else Joined(ios[..|ios| - 1]) + ios[|ios| - 1].received.data
  }

  /** Reading as often as bytes arrive. */
  function Receive(cfg: Config, pages: Pages, l: Life, ios: seq<Io>): Life
    requires AllBytes(ios)
  {
    if ios == [] then l
    else Read(cfg, pages, Receive(cfg, pages, l, ios[..|ios| - 1]), ios[|ios| - 1]).life
  }

  /** A complete request whose request line is below its limit, of which every proper prefix must wait. */
  ghost predicate Whole(cfg: Config, data: string, n: nat, request: HttpRequest) {
    && Parse(cfg, data) == Parsed(request, n) && CutLine(data).end < cfg.maxRequestLine
  }

  lemma PrefixesWait(cfg: Config, pages: Pages, data: string, n: nat, request: HttpRequest, m: nat)
    requires Whole(cfg, data, n, request) && m < n
    ensures n <= |data| && Judge(cfg, pages, data[..m]) == Wait
  {
    WaitsForTheWholeRequest(cfg, data);
    var h := AcceptedRequest(cfg, data);
    hide Parse, CutLine, HeaderLines, Unanimous, LastValue, Complete;
  }

  /** Until the last byte of the request is in, nothing happens. */
  lemma {:induction false} PiecesWait(cfg: Config, pages: Pages, l: Life, ios: seq<Io>,
                                      data: string, n: nat, request: HttpRequest)
    requires Whole(cfg, data, n, request) && AllBytes(ios) && l.client.input == ""
    requires |Joined(ios)| < n <= |data| && Joined(ios) == data[..|Joined(ios)|]
    ensures var t := Receive(cfg, pages, l, ios);
            && t.calls == l.calls && t.sent == l.sent
            && t.client.output == l.client.output && t.client.input == Joined(ios)
  {
    hide Judge, Parse, Whole;
    if ios != [] {
      var before := ios[..|ios| - 1];
      assert Joined(before) == data[..|Joined(before)|];
      PiecesWait(cfg, pages, l, before, data, n, request);
      PrefixesWait(cfg, pages, data, n, request, |Joined(ios)|);
    }
  }

  /** However a request is cut into pieces, and whatever follows it in the last one, the handler is called
      exactly once, with the same request, when its last byte arrives. */
  lemma PiecesAreHandledOnce(cfg: Config, pages: Pages, l: Life, ios: seq<Io>,
                             data: string, n: nat, request: HttpRequest)
    requires Whole(cfg, data, n, request) && AllBytes(ios) && l.client.input == "" && ios != []
    requires Agree(data, Joined(ios), n) && |Joined(ios[..|ios| - 1])| < n
    requires '\0' !in Joined(ios) && |Joined(ios)| <= cfg.maxHeaders + cfg.maxBody
    ensures forall k :: 0 <= k < |ios| ==> Receive(cfg, pages, l, ios[..k]).calls == l.calls
    ensures Receive(cfg, pages, l, ios).calls == l.calls + [request]
    ensures Receive(cfg, pages, l, ios).client.output == ios[|ios| - 1].reply
  {
    forall k | 0 <= k < |ios| ensures Receive(cfg, pages, l, ios[..k]).calls == l.calls {
      PiecesShort(cfg, ios, k);
      PieceAgrees(data, ios, n, k);
      PiecesWait(cfg, pages, l, ios[..k], data, n, request);
    }
    var before := ios[..|ios| - 1];
    PieceAgrees(data, ios, n, |ios| - 1);
    PiecesWait(cfg, pages, l, before, data, n, request);
    LaterBytesAreInert(cfg, data, Joined(ios));
    hide Parse, CutLine;
  }

  /** The first pieces are shorter than the request. */
  lemma {:induction false} PiecesShort(cfg: Config, ios: seq<Io>, k: nat)
    requires AllBytes(ios) && k < |ios|
    ensures |Joined(ios[..k])| <= |Joined(ios[..|ios| - 1])|
    decreases |ios| - k
  {
    if k + 1 < |ios| {
      assert ios[..k + 1][..k] == ios[..k];
      PiecesShort(cfg, ios, k + 1);
    }
  }

  lemma {:induction false} PiecesAreBeginnings(ios: seq<Io>, k: nat)
    requires AllBytes(ios) && k <= |ios|
    ensures Joined(ios[..k]) <= Joined(ios)
    decreases |ios| - k
  {
    if k == |ios| {
      assert ios[..k] == ios;
    } else {
      assert ios[..k + 1][..k] == ios[..k];
      PiecesAreBeginnings(ios, k + 1);
    }
  }

  lemma PieceAgrees(data: string, ios: seq<Io>, n: nat, k: nat)
    requires AllBytes(ios) && k < |ios| && Agree(data, Joined(ios), n) && |Joined(ios[..k])| <= n
    ensures n <= |data| && Joined(ios[..k]) == data[..|Joined(ios[..k])|]
  {
    PiecesAreBeginnings(ios, k);
    var m := |Joined(ios[..k])|;
    SliceAgree(data, Joined(ios), 0, m, n);
    hide Agree;
  }

  // ---------------------------------------------------------------- the table of connections

  /** A connection of the table: sound, and not done sending. */
  predicate Live(l: Life) {
    Sound(l) && (l.client.output != "" ==> l.client.written < |l.client.output|)
  }

  predicate AllLive(ls: seq<Life>) {
    forall i :: 0 <= i < |ls| ==> Live(ls[i])
  }

  /** What poll reports about the clients it was given. */
  predicate Polled(ls: seq<Life>, ios: seq<Io>) {
    |ios| == |ls| && forall i :: 0 <= i < |ls| ==> Honest(ls[i].client, ios[i])
  }

  function Watches(ls: seq<Life>): (ds: seq<Descriptor>)
    ensures |ds| == |ls| && forall i :: 0 <= i < |ls| ==> ds[i] == Watch(ls[i].client)
  {
    if ls == [] then [] else [Watch(ls[0].client)] + Watches(ls[1..])
  }

  /** The slots before the clients: the wake pipe, and the listener if there is one. */
  function Leading(wake: int, listener: Option<int>): seq<Descriptor> {
    [Descriptor(wake, true)] + if listener.Some? then [Descriptor(listener.value, true)] else []
  }

  function Descriptors(wake: int, listener: Option<int>, ls: seq<Life>): seq<Descriptor> {
    Leading(wake, listener) + Watches(ls)
  }

  /** One report for each descriptor, in the order of the vector. */
  predicate Answered(ds: seq<Descriptor>, reports: seq<Io>) {
    |reports| == |ds| && forall i :: 0 <= i < |ds| ==> Answers(ds[i], reports[i])
  }

  predicate AllSane(ls: seq<Life>, ios: seq<Io>) {
    |ios| == |ls| && forall i :: 0 <= i < |ls| ==> Sane(ls[i].client, ios[i])
  }

  /** The reports behind the leading slots are those of the clients, in order. */
  lemma ClientSlots(wake: int, listener: Option<int>, ls: seq<Life>, reports: seq<Io>)
    requires Answered(Descriptors(wake, listener, ls), reports)
    requires AllSane(ls, reports[|Leading(wake, listener)|..])
    ensures Polled(ls, reports[|Leading(wake, listener)|..])
  {
    var n, ds := |Leading(wake, listener)|, Descriptors(wake, listener, ls);
    hide Sane, Leading;
    forall i | 0 <= i < |ls| ensures Honest(ls[i].client, reports[n..][i]) {
      assert ds[n + i] == Watch(ls[i].client) && reports[n..][i] == reports[n + i];
    }
  }

  function Kept(fate: Fate): seq<Life> {
    if fate.Open? then [fate.life] else []
  }

  /** Every client goes through its own report, in its own place. */
  function TouchAll(cfg: Config, pages: Pages, ls: seq<Life>, ios: seq<Io>): seq<Life>
    requires AllLive(ls) && Polled(ls, ios)
  {
    if ls == [] then []
    else Kept(Touch(cfg, pages, ls[0], ios[0])) + TouchAll(cfg, pages, ls[1..], ios[1..])
  }

  function Accepted(cfg: Config, size: nat, a: Arrival): seq<Life> {
    if a.Arrived? && size < cfg.maxClients then [Born(a)] else []
  }

  function Busy(cfg: Config, ls: seq<Life>, after: int): seq<Life> {
    if ls == [] then []
    else (if after - ls[0].client.lastActivityMs > cfg.idleTimeoutMs then [] else [ls[0]]) + Busy(cfg, ls[1..], after)
  }

  /** One round of the server loop: the reports, then the newcomer, then the idle ones. */
  function Round(cfg: Config, pages: Pages, ls: seq<Life>, a: Arrival, ios: seq<Io>, after: int): seq<Life>
    requires AllLive(ls) && Polled(ls, ios)
  {
    Busy(cfg, TouchAll(cfg, pages, ls, ios) + Accepted(cfg, |ls|, a), after)
  }

  lemma {:induction false} TouchAllIsLive(cfg: Config, pages: Pages, ls: seq<Life>, ios: seq<Io>)
    requires pages.Valid() && AllLive(ls) && Polled(ls, ios)
    ensures AllLive(TouchAll(cfg, pages, ls, ios)) && |TouchAll(cfg, pages, ls, ios)| <= |ls|
  {
    hide Touch, Sound;
    if ls != [] {
      TouchIsSound(cfg, pages, ls[0], ios[0]);
      TouchAllIsLive(cfg, pages, ls[1..], ios[1..]);
    }
  }

  lemma {:induction false} BusyIsLive(cfg: Config, ls: seq<Life>, after: int)
    requires AllLive(ls)
    ensures AllLive(Busy(cfg, ls, after)) && |Busy(cfg, ls, after)| <= |ls|
  {
    hide Sound;
    if ls != [] {
      BusyIsLive(cfg, ls[1..], after);
    }
  }

  /** Rounds keep every promise about every connection, and the table within its limit. */
  lemma RoundIsLive(cfg: Config, pages: Pages, ls: seq<Life>, a: Arrival, ios: seq<Io>, after: int)
    requires pages.Valid() && AllLive(ls) && Polled(ls, ios) && |ls| <= cfg.maxClients
    ensures AllLive(Round(cfg, pages, ls, a, ios, after))
    ensures |Round(cfg, pages, ls, a, ios, after)| <= cfg.maxClients
  {
    TouchAllIsLive(cfg, pages, ls, ios);
    BusyIsLive(cfg, TouchAll(cfg, pages, ls, ios) + Accepted(cfg, |ls|, a), after);
    hide TouchAll, Busy;
  }

  /** `ls` with what became of the client at `index`. */
  function Settled(ls: seq<Life>, index: nat, fate: Fate): seq<Life>
    requires index < |ls|
  {
    ls[..index] + Kept(fate) + ls[index + 1..]
  }

  class HttpServer {
    const cfg: Config
    const pages: Pages
    var clients: seq<Client>
    ghost var lives: seq<Life>

    ghost predicate Valid()
      reads this
    {
      && pages.Valid() && AllLive(lives) && |clients| <= cfg.maxClients
      && |clients| == |lives| && forall i :: 0 <= i < |lives| ==> clients[i] == lives[i].client
    }

    constructor (cfg: Config, pages: Pages)
      requires pages.Valid()
      ensures Valid() && lives == [] && this.cfg == cfg && this.pages == pages
    {
      this.cfg, this.pages := cfg, pages;
      clients, lives := [], [];
    }

    method CloseClient(index: nat)
      requires Valid() && index < |clients|
      modifies this
      ensures Valid() && lives == old(lives)[..index] + old(lives)[index + 1..]
    {
      clients := clients[..index] + clients[index + 1..];
      lives := lives[..index] + lives[index + 1..];
    }

    method AcceptClient(a: Arrival)
      requires Valid()
      modifies this
      ensures Valid() && lives == old(lives) + Accepted(cfg, |old(lives)|, a)
    {
      if !a.Arrived? || |clients| >= cfg.maxClients {
        return;
      }
      clients := clients + [Client(a.fd, "", "", 0, a.now, a.peer)];
      lives := lives + [Born(a)];
    }

    /** The size check, and the parser on all that was received. */
    method JudgeInput(input: string) returns (verdict: Verdict)
      ensures verdict == Judge(cfg, pages, input)
    {
      if |input| > cfg.maxHeaders + cfg.maxBody {
        return Page(pages.tooLarge);
      }
      var parsed := HttpParser.ParseHttpRequest(cfg, input);
      match parsed
      case Incomplete => return Wait;
      case Failed(fault) => return Page(pages.Of(fault));
      case Parsed(request, _) => return Hand(request);
    }

    method ReadClient(index: nat, io: Io)
      requires Valid() && index < |clients| && Honest(clients[index], io) && clients[index].output == ""
      modifies this
      ensures Valid() && lives == Settled(old(lives), index, Read(cfg, pages, old(lives)[index], io))
    {
      ghost var l := lives[index];
      TouchIsSound(cfg, pages, l, io.(broken := false, readable := true));
      hide Parse, Sound, Judge;
      if io.received.HungUp? || (io.received.ReadFailed? && !io.received.again) {
        CloseClient(index);
        return;
      }
      if io.received.ReadFailed? {
        assert lives == Settled(lives, index, Open(l));
        return;
      }
      var c := clients[index];
      c := c.(lastActivityMs := io.now, input := c.input + io.received.data);
      var verdict := JudgeInput(c.input);
      if verdict.Page? {
        c := c.(output := verdict.text);
      } else if verdict.Hand? {
        c := c.(output := io.reply);
        l := l.(calls := l.calls + [verdict.request]);
      }
      clients := clients[index := c];
      lives := lives[index := l.(client := c)];
      assert lives == Settled(old(lives), index, Open(l.(client := c)));
    }

    /** An open client with output is not done sending, so there is always something left to send. */
    method WriteClient(index: nat, io: Io)
      requires Valid() && index < |clients| && Honest(clients[index], io) && clients[index].output != ""
      modifies this
      ensures Valid() && lives == Settled(old(lives), index, Write(old(lives)[index], io))
    {
      ghost var l := lives[index];
      TouchIsSound(cfg, pages, l, io.(broken := false, readable := false, writable := true));
      var c := clients[index];
      if io.sent.Wrote? {
        l := l.(sent := l.sent + c.output[c.written..c.written + io.sent.count]);
        if io.sent.count > 0 {
          c := c.(written := c.written + io.sent.count, lastActivityMs := io.now);
        }
        l := l.(client := c);
        if c.written == |c.output| {
          CloseClient(index);
          return;
        }
      } else if !io.sent.again {
        CloseClient(index);
        return;
      }
      clients := clients[index := c];
      lives := lives[index := l];
      assert lives == Settled(old(lives), index, Open(l));
    }

    /** One client of the loop over the reports. */
    method TouchClient(index: nat, io: Io)
      requires Valid() && index < |clients| && Honest(clients[index], io)
      modifies this
      ensures Valid() && lives == Settled(old(lives), index, Touch(cfg, pages, old(lives)[index], io))
    {
      if io.broken {
        CloseClient(index);
      } else if io.readable {
        ReadClient(index, io);
      } else if io.writable {
        WriteClient(index, io);
      } else {
        assert lives == Settled(lives, index, Open(lives[index]));
      }
    }

    /** The vector given to poll. */
    method AskPoll(wake: int, listener: Option<int>) returns (ds: seq<Descriptor>)
      requires Valid()
      ensures ds == Descriptors(wake, listener, lives)
    {
      assert |clients| == |lives| && forall i :: 0 <= i < |lives| ==> clients[i] == lives[i].client;
      hide HttpServer.Valid;
      ds := [Descriptor(wake, true)];
      if listener.Some? {
        ds := ds + [Descriptor(listener.value, true)];
      }
      ghost var slots: seq<Descriptor> := [];
      for i := 0 to |clients|
        invariant ds == Leading(wake, listener) + slots
        invariant |slots| == i && forall k :: 0 <= k < i ==> slots[k] == Watch(clients[k])
      {
        var c := clients[i];
        ds := ds + [Descriptor(c.fd, c.output == "")];
        slots := slots + [Watch(c)];
      }
      assert slots == Watches(lives);
    }

    /** The loop over the reports goes from the last client to the first and erases on its way; a client
        accepted after the poll has no slot in the vector. */
    method TouchClients(reports: seq<Io>, offset: nat)
      requires Valid() && offset <= |reports| <= offset + |clients|
      requires Polled(lives[..|reports| - offset], reports[offset..])
      modifies this
      ensures Valid()
      ensures lives == TouchAll(cfg, pages, old(lives)[..|reports| - offset], reports[offset..])
                       + old(lives)[|reports| - offset..]
    {
      ghost var was, ios := lives, reports[offset..];
      var remaining: nat := |clients|;
      BehindNobody(cfg, pages, was, ios);
      while remaining > 0
        invariant Valid() && remaining <= |was| && remaining <= |lives|
        invariant lives == if |ios| <= remaining then was else Behind(cfg, pages, was, ios, remaining)
      {
        var i := remaining - 1;
        if offset + i < |reports| {
          assert lives[i] == was[i] && reports[offset + i] == ios[i];
          TouchClient(i, reports[offset + i]);
          BehindGrows(cfg, pages, was, ios, i);
        }
        remaining := i;
      }
      BehindAll(cfg, pages, was, ios);
    }

    method DropIdle(after: int)
      requires Valid()
      modifies this
      ensures Valid() && lives == Busy(cfg, old(lives), after)
    {
      ghost var todo := lives;
      var i := 0;
      while i < |clients|
        invariant Valid() && i <= |lives| && lives[i..] == todo
        invariant lives[..i] + Busy(cfg, todo, after) == Busy(cfg, old(lives), after)
        decreases |clients| - i
      {
        if after - clients[i].lastActivityMs > cfg.idleTimeoutMs {
          CloseClient(i);
        } else {
          assert lives[..i + 1] == lives[..i] + [todo[0]];
          i := i + 1;
        }
        todo := todo[1..];
      }
    }

    /** One round, given what poll reports about the vector it was given, and who waits at the listener. */
    method PollRound(wake: int, listener: Option<int>, a: Arrival, reports: seq<Io>, after: int)
      requires Valid() && Answered(Descriptors(wake, listener, lives), reports)
      requires AllSane(lives, reports[|Leading(wake, listener)|..])
      modifies this
      ensures Valid()
      ensures lives == Round(cfg, pages, old(lives), Newcomer(listener, a, reports),
                             reports[|Leading(wake, listener)|..], after)
    {
      ClientSlots(wake, listener, lives, reports);
      ghost var polled := lives;
      var offset := 1;
      if listener.Some? && offset < |reports| {
        if reports[offset].readable {
          AcceptClient(a);
        }
        offset := offset + 1;
      }
      assert offset == |Leading(wake, listener)|;
      assert lives[..|polled|] == polled;
      assert lives[|polled|..] == Accepted(cfg, |polled|, Newcomer(listener, a, reports));
      TouchClients(reports, offset);
      DropIdle(after);
    }
  }

  /** Who waits is accepted only when the listener's own slot reports input. */
  function Newcomer(listener: Option<int>, a: Arrival, reports: seq<Io>): Arrival {
    if listener.Some? && 1 < |reports| && reports[1].readable then a else Arrival.Nobody
  }

  /** The table when the reports from the `k`-th on have been dealt with. */
  ghost function Behind(cfg: Config, pages: Pages, was: seq<Life>, ios: seq<Io>, k: nat): (now: seq<Life>)
    requires AllLive(was) && |ios| <= |was| && Polled(was[..|ios|], ios) && k <= |ios|
    ensures k <= |now| && now[..k] == was[..k]
  {
    was[..k] + (TouchAll(cfg, pages, was[k..|ios|], ios[k..]) + was[|ios|..])
  }

  lemma BehindNobody(cfg: Config, pages: Pages, was: seq<Life>, ios: seq<Io>)
    requires AllLive(was) && |ios| <= |was| && Polled(was[..|ios|], ios)
    ensures Behind(cfg, pages, was, ios, |ios|) == was
  {
    hide Touch, Sound, Honest;
    assert was[|ios|..|ios|] == [] && ios[|ios|..] == [];
  }

  lemma BehindAll(cfg: Config, pages: Pages, was: seq<Life>, ios: seq<Io>)
    requires AllLive(was) && |ios| <= |was| && Polled(was[..|ios|], ios)
    ensures Behind(cfg, pages, was, ios, 0) == TouchAll(cfg, pages, was[..|ios|], ios) + was[|ios|..]
  {
    hide Touch, Sound, Honest, TouchAll;
    assert was[0..|ios|] == was[..|ios|] && ios[0..] == ios;
  }

  lemma FirstTouched(cfg: Config, pages: Pages, l: Life, ls: seq<Life>, io: Io, ios: seq<Io>)
    requires AllLive(ls) && Live(l) && Polled(ls, ios) && Honest(l.client, io)
    ensures AllLive([l] + ls) && Polled([l] + ls, [io] + ios)
    ensures TouchAll(cfg, pages, [l] + ls, [io] + ios) ==
            Kept(Touch(cfg, pages, l, io)) + TouchAll(cfg, pages, ls, ios)
  {
    hide Touch, Sound, Honest;
    assert ([l] + ls)[1..] == ls && ([io] + ios)[1..] == ios;
  }

  lemma SettlesInPlace(before: seq<Life>, l: Life, after: seq<Life>, fate: Fate)
    ensures Settled(before + ([l] + after), |before|, fate) == before + (Kept(fate) + after)
  {
  }

  /** Settling a client leaves those before it in their places. */
  lemma BehindGrows(cfg: Config, pages: Pages, was: seq<Life>, ios: seq<Io>, k: nat)
    requires AllLive(was) && |ios| <= |was| && Polled(was[..|ios|], ios) && k < |ios|
    ensures k < |Behind(cfg, pages, was, ios, k + 1)| && was[..|ios|][k] == was[k]
    ensures Settled(Behind(cfg, pages, was, ios, k + 1), k, Touch(cfg, pages, was[k], ios[k])) ==
            Behind(cfg, pages, was, ios, k)
  {
    hide Touch, Honest, TouchAll, Kept, Settled;
    var ls, more := was[k + 1..|ios|], ios[k + 1..];
    assert was[..|ios|][k] == was[k];
    assert was[k..|ios|] == [was[k]] + ls && ios[k..] == [ios[k]] + more;
    var fate := Touch(cfg, pages, was[k], ios[k]);
    var rest := TouchAll(cfg, pages, ls, more) + was[|ios|..];
    FirstTouched(cfg, pages, was[k], ls, ios[k], more);
    SettlesInPlace(was[..k], was[k], rest, fate);
    assert Behind(cfg, pages, was, ios, k + 1) == was[..k] + ([was[k]] + rest);
    assert Kept(fate) + rest == (Kept(fate) + TouchAll(cfg, pages, ls, more)) + was[|ios|..];
  }

  // ---------------------------------------------------------------- whole runs of the loop

  datatype Turn = Turn(arrival: Arrival, ios: seq<Io>, after: int)

  /** The rounds whose poll reports fit the table they were made for. */
  predicate Fair(cfg: Config, pages: Pages, turns: seq<Turn>)
    requires pages.Valid()
    decreases |turns|, 0
  {
    turns == [] ||
    (var before, turn := turns[..|turns| - 1], turns[|turns| - 1];
     && Fair(cfg, pages, before)
     && Polled(Table(cfg, pages, before), turn.ios))
  }

  function Table(cfg: Config, pages: Pages, turns: seq<Turn>): (ls: seq<Life>)
    requires pages.Valid() && Fair(cfg, pages, turns)
    ensures AllLive(ls) && |ls| <= cfg.maxClients
    decreases |turns|, 1
  {
    if turns == [] then []
    else
      var before, turn := turns[..|turns| - 1], turns[|turns| - 1];
      RoundIsLive(cfg, pages, Table(cfg, pages, before), turn.arrival, turn.ios, turn.after);
      Round(cfg, pages, Table(cfg, pages, before), turn.arrival, turn.ios, turn.after)
  }
}
