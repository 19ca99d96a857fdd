/** The request deduplicator: the answers to recent capture requests, found again by request id. */
module Deduplication {
  import opened Types

  /** The JSON bodies of capture answers. */
  datatype Body =
    | BadDelay
    | NotAccepted(requestId: string, error: Notice)
    | Taken(requestId: string, state: RemoteState)

  datatype Entry = Entry(requestId: string, status: int, body: Body, expiresMs: int)

  datatype Memory = Memory(maximum: nat, retentionMs: int)
  {
    predicate Valid() {
      1 <= maximum && 0 < retentionMs
    }
  }

  // ---------------------------------------------------------------- steps on the list

  function Prune(es: seq<Entry>, now: int): seq<Entry> {
    if es == [] then []
    else (if es[0].expiresMs <= now then [] else [es[0]]) + Prune(es[1..], now)
  }

  function Lookup(es: seq<Entry>, id: string): Option<Entry> {
    if es == [] then None
    else if es[0].requestId == id then Some(es[0])
    else Lookup(es[1..], id)
  }

  /** A full list drops its oldest entry. */
  function Push(d: Memory, es: seq<Entry>, e: Entry): seq<Entry> {
    (if d.maximum <= |es| && es != [] then es[1..] else es) + [e]
  }

  function RememberStep(d: Memory, es: seq<Entry>, id: string, status: int, body: Body, now: int): seq<Entry> {
    Push(d, Prune(es, now), Entry(id, status, body, now + d.retentionMs))
  }

  class RequestDeduplicator {
    const memory: Memory
    var entries: seq<Entry>

    constructor (memory: Memory)
      ensures this.memory == memory && entries == []
    {
      this.memory := memory;
      entries := [];
    }

    method PruneEntries(nowMs: int)
      modifies this
      ensures entries == Prune(old(entries), nowMs)
    {
      var i := 0;
      ghost var todo := entries;
      while i < |entries|
        invariant 0 <= i <= |entries|
        invariant entries[i..] == todo
        invariant entries[..i] + Prune(todo, nowMs) == Prune(old(entries), nowMs)
        decreases |entries| - i
      {
        if entries[i].expiresMs <= nowMs {
          entries := entries[..i] + entries[i + 1..];
        } else {
          assert entries[..i + 1] == entries[..i] + [todo[0]];
          i := i + 1;
        }
        todo := todo[1..];
      }
    }

    method Find(requestId: string, nowMs: int) returns (found: Option<Entry>)
      modifies this
      ensures entries == Prune(old(entries), nowMs)
      ensures found == Lookup(entries, requestId)
    {
      PruneEntries(nowMs);
      var i := 0;
      while i < |entries|
        invariant 0 <= i <= |entries|
        invariant Lookup(entries, requestId) == Lookup(entries[i..], requestId)
      {
        if entries[i].requestId == requestId {
          return Some(entries[i]);
        }
        i := i + 1;
      }
      return None;
    }

    method Remember(requestId: string, status: int, body: Body, nowMs: int)
      requires memory.Valid()
      modifies this
      ensures entries == RememberStep(memory, old(entries), requestId, status, body, nowMs)
    {
      PruneEntries(nowMs);
      if |entries| >= memory.maximum {
        entries := entries[1..];
      }
      entries := entries + [Entry(requestId, status, body, nowMs + memory.retentionMs)];
    }

    method Clear()
      modifies this
      ensures entries == []
    {
      entries := [];
    }
  }

  // ---------------------------------------------------------------- the list as a window on its history

  /** Two consecutive operations of the program: look the id up, and remember an answer if it is new. */
  function Once(d: Memory, es: seq<Entry>, id: string, status: int, body: Body, now: int): seq<Entry> {
    if Lookup(Prune(es, now), id).Some? then Prune(es, now)
    else RememberStep(d, Prune(es, now), id, status, body, now)
  }

  predicate Ordered(es: seq<Entry>) {
    |es| < 2 || (es[0].expiresMs <= es[1].expiresMs && Ordered(es[1..]))
  }

  predicate DistinctIds(es: seq<Entry>) {
    es == [] || (Lookup(es[1..], es[0].requestId).None? && DistinctIds(es[1..]))
  }

  /** `es` is the longest suffix of `history` with at most `maximum` entries, all unexpired at `last`. */
  predicate Window(d: Memory, es: seq<Entry>, history: seq<Entry>, last: int) {
    && |es| <= |history| && |es| <= d.maximum
    && es == history[|history| - |es|..]
    && (forall i :: 0 <= i < |es| ==> last < es[i].expiresMs <= last + d.retentionMs)
    && (|es| == |history| || |es| == d.maximum || history[|history| - |es| - 1].expiresMs <= last)
  }

  lemma {:induction false} PruneNone(es: seq<Entry>, now: int)
    requires Ordered(es) && (es != [] ==> now < es[0].expiresMs)
    ensures Prune(es, now) == es
  {
    if es != [] {
      PruneNone(es[1..], now);
    }
  }

  /** Expiry eats an ordered list from the front. */
  lemma {:induction false} PruneIsSuffix(es: seq<Entry>, now: int) returns (n: nat)
    requires Ordered(es)
    ensures n <= |es| && Prune(es, now) == es[n..]
    ensures forall i :: 0 <= i < |Prune(es, now)| ==> now < Prune(es, now)[i].expiresMs
    ensures 0 < n ==> es[n - 1].expiresMs <= now
  {
    PruneUnexpired(es, now);
    if es == [] {
      n := 0;
    } else if now < es[0].expiresMs {
      n := 0;
      PruneNone(es, now);
    } else {
      var k := PruneIsSuffix(es[1..], now);
      n := k + 1;
      assert es[1..][k..] == es[n..];
    }
  }

  lemma {:induction false} PruneUnexpired(es: seq<Entry>, now: int)
    ensures forall i :: 0 <= i < |Prune(es, now)| ==> now < Prune(es, now)[i].expiresMs
  {
    if es != [] {
      PruneUnexpired(es[1..], now);
    }
  }

  lemma {:induction false} SuffixInOrder(es: seq<Entry>, n: nat)
    requires n <= |es|
    ensures Ordered(es) ==> Ordered(es[n..])
    ensures DistinctIds(es) ==> DistinctIds(es[n..])
  {
    if 0 < n {
      SuffixInOrder(es[1..], n - 1);
      assert es[1..][n - 1..] == es[n..];
    } else {
      assert es[0..] == es;
    }
  }

  lemma {:induction false} LookupAppend(a: seq<Entry>, b: seq<Entry>, id: string)
    ensures Lookup(a + b, id) == if Lookup(a, id).Some? then Lookup(a, id) else Lookup(b, id)
  {
    if a == [] {
      assert a + b == b;
    } else {
      assert (a + b)[1..] == a[1..] + b;
      LookupAppend(a[1..], b, id);
    }
  }

  lemma {:induction false} LookupId(es: seq<Entry>, id: string)
    ensures Lookup(es, id).Some? ==> Lookup(es, id).value.requestId == id
  {
    if es != [] {
      LookupId(es[1..], id);
    }
  }

  lemma {:induction false} AppendInOrder(es: seq<Entry>, e: Entry)
    requires Ordered(es) && DistinctIds(es)
    requires Lookup(es, e.requestId).None?
    requires es != [] ==> es[|es| - 1].expiresMs <= e.expiresMs
    ensures Ordered(es + [e]) && DistinctIds(es + [e])
  {
    if es != [] {
      assert (es + [e])[1..] == es[1..] + [e];
      AppendInOrder(es[1..], e);
      LookupAppend(es[1..], [e], es[0].requestId);
    }
  }

  lemma {:induction false} LookupPresent(es: seq<Entry>, i: nat)
    requires DistinctIds(es) && i < |es|
    ensures Lookup(es, es[i].requestId) == Some(es[i])
  {
    if 0 < i {
      LookupPresent(es[1..], i - 1);
      LookupId(es[1..], es[0].requestId);
    }
  }

  lemma PruneKeepsWindow(d: Memory, es: seq<Entry>, history: seq<Entry>, last: int, now: int)
    requires Window(d, es, history, last) && last <= now && Ordered(es) && DistinctIds(es)
    ensures Window(d, Prune(es, now), history, now)
    ensures Ordered(Prune(es, now)) && DistinctIds(Prune(es, now))
  {
    hide Prune, Ordered, DistinctIds, Lookup;
    var n := PruneIsSuffix(es, now);
    SuffixInOrder(es, n);
    DropKeepsWindow(d, es, history, last, now, n);
  }

  lemma DropKeepsWindow(d: Memory, es: seq<Entry>, history: seq<Entry>, last: int, now: int, n: nat)
    requires Window(d, es, history, last) && last <= now && n <= |es|
    requires forall i :: 0 <= i < |es| - n ==> now < es[n..][i].expiresMs
    requires 0 < n ==> es[n - 1].expiresMs <= now
    ensures Window(d, es[n..], history, now)
  {
    var t := es[n..];
    assert t == history[|history| - |t|..];
    if 0 < n {
      assert history[|history| - |t| - 1] == es[n - 1];
    }
  }

  lemma AppendKeepsWindow(d: Memory, es: seq<Entry>, history: seq<Entry>, now: int, e: Entry)
    requires d.Valid() && Window(d, es, history, now) && e.expiresMs == now + d.retentionMs
    requires Ordered(es) && DistinctIds(es) && Lookup(es, e.requestId).None?
    ensures Window(d, Push(d, es, e), history + [e], now)
    ensures Ordered(Push(d, es, e)) && DistinctIds(Push(d, es, e))
  {
    PushKeepsWindow(d, es, history, now, e);
    PushInOrder(d, es, e);
  }

  lemma PushKeepsWindow(d: Memory, es: seq<Entry>, history: seq<Entry>, now: int, e: Entry)
    requires d.Valid() && Window(d, es, history, now) && e.expiresMs == now + d.retentionMs
    ensures Window(d, Push(d, es, e), history + [e], now)
  {
    var kept := if d.maximum <= |es| && es != [] then es[1..] else es;
    assert kept == history[|history| - |kept|..];
    assert Push(d, es, e) == (history + [e])[|history| - |kept|..];
  }

  lemma PushInOrder(d: Memory, es: seq<Entry>, e: Entry)
    requires Ordered(es) && DistinctIds(es) && Lookup(es, e.requestId).None?
    requires es != [] ==> es[|es| - 1].expiresMs <= e.expiresMs
    ensures Ordered(Push(d, es, e)) && DistinctIds(Push(d, es, e))
  {
    if d.maximum <= |es| && es != [] {
      AppendInOrder(es[1..], e);
    } else {
      AppendInOrder(es, e);
    }
  }

  /** An answer that is not expired and has fewer than `maximum` answers after it is still found. */
  lemma StillFound(d: Memory, es: seq<Entry>, history: seq<Entry>, last: int, now: int, i: nat)
    requires Window(d, es, history, last) && Ordered(es) && DistinctIds(es) && last <= now
    requires i < |history| && |history| <= i + d.maximum
    requires forall k :: i <= k < |history| ==> now < history[k].expiresMs
    ensures Lookup(Prune(es, now), history[i].requestId) == Some(history[i])
  {
    PruneKeepsWindow(d, es, history, last, now);
    var kept := Prune(es, now);
    var j := i - (|history| - |kept|);
    assert 0 <= j && kept[j] == history[i];
    LookupPresent(kept, j);
  }

  // ---------------------------------------------------------------- runs

  datatype Question = Question(id: string, status: int, body: Body, at: int)

  predicate InOrder(qs: seq<Question>) {
    forall i, j :: 0 <= i < j < |qs| ==> qs[i].at <= qs[j].at
  }

  /** The list after looking up, and if need be remembering, each question in turn. */
  function EntriesAfter(d: Memory, qs: seq<Question>): seq<Entry> {
    if qs == [] then []
    else
      var q := qs[|qs| - 1];
      Once(d, EntriesAfter(d, qs[..|qs| - 1]), q.id, q.status, q.body, q.at)
  }

  /** The history after one more question: a found answer is not recorded again. */
  function Recorded(d: Memory, history: seq<Entry>, es: seq<Entry>, q: Question): seq<Entry> {
    if Lookup(Prune(es, q.at), q.id).Some? then history
    else history + [Entry(q.id, q.status, q.body, q.at + d.retentionMs)]
  }

  function History(d: Memory, qs: seq<Question>): seq<Entry> {
    if qs == [] then []
    else
      var before, q := qs[..|qs| - 1], qs[|qs| - 1];
      Recorded(d, History(d, before), EntriesAfter(d, before), q)
  }

  /** One question keeps the list the window on its history, in order and with distinct ids. */
  lemma OnceKeepsWindow(d: Memory, es: seq<Entry>, history: seq<Entry>, last: int, q: Question, t: seq<Entry>)
    requires d.Valid() && Window(d, es, history, last) && Ordered(es) && DistinctIds(es) && last <= q.at
    requires t == Once(d, es, q.id, q.status, q.body, q.at)
    ensures Ordered(t) && DistinctIds(t)
    ensures Window(d, t, Recorded(d, history, es, q), q.at)
  {
    var kept := Prune(es, q.at);
    PruneKeepsWindow(d, es, history, last, q.at);
    if Lookup(kept, q.id).Some? {
      assert t == kept && Recorded(d, history, es, q) == history;
    } else {
      var e := Entry(q.id, q.status, q.body, q.at + d.retentionMs);
      PruneNone(kept, q.at);
      assert t == Push(d, kept, e) && Recorded(d, history, es, q) == history + [e];
      AppendKeepsWindow(d, kept, history, q.at, e);
    }
  }

  /** After any questions in order of time, the list is the window on its history, with distinct ids. */
  lemma {:induction false} EntriesAreWindow(d: Memory, qs: seq<Question>, last: int)
    requires d.Valid() && InOrder(qs) && (qs != [] ==> last == qs[|qs| - 1].at)
    ensures Window(d, EntriesAfter(d, qs), History(d, qs), last)
    ensures Ordered(EntriesAfter(d, qs)) && DistinctIds(EntriesAfter(d, qs))
  {
    if qs != [] {
      var before, q := qs[..|qs| - 1], qs[|qs| - 1];
      var earlier := if before == [] then q.at else before[|before| - 1].at;
      EntriesAreWindow(d, before, earlier);
      OnceKeepsWindow(d, EntriesAfter(d, before), History(d, before), earlier, q, EntriesAfter(d, qs));
    }
  }
}
