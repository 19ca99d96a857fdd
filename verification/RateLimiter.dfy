/** The token-bucket rate limiter. The answers of the program are proved to be those of an exact rule about
    the whole list of visits of each resident key. */
module RateLimiting {
  import opened Types

  datatype Limits = Limits(capacity: real, refillPerMs: real, maximumKeys: nat)
  {
    predicate Valid() {
      0.0 <= refillPerMs && 1 <= maximumKeys
    }
  }

  datatype Bucket = Bucket(key: string, tokens: real, lastMs: int)

  /** The tokens `ms` milliseconds bring; see `EarnedIsProduct`. */
  function Earned(l: Limits, ms: nat): real {
    if ms == 0 then 0.0 else Earned(l, ms - 1) + l.refillPerMs
  }

  lemma {:induction false} EarnedIsProduct(l: Limits, ms: nat)
    ensures Earned(l, ms) == ms as real * l.refillPerMs
  {
    if 0 < ms {
      EarnedIsProduct(l, ms - 1);
      var a := (ms - 1) as real;
      assert ms as real == a + 1.0;
      assert (a + 1.0) * l.refillPerMs == a * l.refillPerMs + l.refillPerMs;
    }
  }

  lemma {:induction false} EarnedAdds(l: Limits, a: nat, b: nat)
    ensures Earned(l, a + b) == Earned(l, a) + Earned(l, b)
  {
    if 0 < b {
      EarnedAdds(l, a, b - 1);
      assert a + b - 1 == a + (b - 1);
    }
  }

  lemma {:induction false} EarnedIsPositive(l: Limits, a: nat)
    requires l.Valid()
    ensures 0.0 <= Earned(l, a)
  {
    if 0 < a {
      EarnedIsPositive(l, a - 1);
    }
  }

  // ---------------------------------------------------------------- the program's step on its buckets

  function Find(bs: seq<Bucket>, key: string): (i: nat)
    ensures i <= |bs|
    ensures forall k :: 0 <= k < i ==> bs[k].key != key
    ensures i < |bs| ==> bs[i].key == key
  {
    if bs == [] || bs[0].key == key then 0 else 1 + Find(bs[1..], key)
  }

  /** The list after the key has its bucket: the oldest one goes when a fresh one finds the list full. */
  function Admit(l: Limits, bs: seq<Bucket>, key: string, now: int): seq<Bucket>
    requires l.Valid()
  {
    if Find(bs, key) < |bs| then bs
    else (if l.maximumKeys <= |bs| && bs != [] then bs[1..] else bs) + [Bucket(key, l.capacity, now)]
  }

  function Place(l: Limits, bs: seq<Bucket>, key: string): nat
    requires l.Valid()
  {
    if Find(bs, key) < |bs| then Find(bs, key) else |Admit(l, bs, key, 0)| - 1
  }

  function Fill(l: Limits, b: Bucket, now: int): Bucket {
    if now <= b.lastMs then b
    else
      var t := b.tokens + Earned(l, now - b.lastMs);
      b.(tokens := if l.capacity < t then l.capacity else t, lastMs := now)
  }

  function Spend(b: Bucket): (Bucket, bool) {
    if b.tokens < 1.0 then (b, false) else (b.(tokens := b.tokens - 1.0), true)
  }

  function AllowStep(l: Limits, bs: seq<Bucket>, key: string, now: int): (r: (seq<Bucket>, bool))
    requires l.Valid()
  {
    var admitted := Admit(l, bs, key, now);
    var i := Place(l, bs, key);
    var (b, ok) := Spend(Fill(l, admitted[i], now));
    (admitted[i := b], ok)
  }

  class RateLimiter {
    const limits: Limits
    var buckets: seq<Bucket>

    constructor (limits: Limits)
      requires limits.Valid()
      ensures this.limits == limits && buckets == []
    {
      this.limits := limits;
      buckets := [];
    }

    method Clear()
      modifies this
      ensures buckets == []
    {
      buckets := [];
    }

    method Allow(key: string, nowMs: int) returns (ok: bool)
      requires limits.Valid()
      modifies this
      ensures (buckets, ok) == AllowStep(limits, old(buckets), key, nowMs)
    {
      var at := 0;
      while at < |buckets| && buckets[at].key != key
        invariant 0 <= at <= |buckets|
        invariant forall k :: 0 <= k < at ==> buckets[k].key != key
      {
        at := at + 1;
      }
      assert at == Find(buckets, key);
      if at == |buckets| {
        if |buckets| >= limits.maximumKeys {
          buckets := buckets[1..];
        }
        buckets := buckets + [Bucket(key, limits.capacity, nowMs)];
        at := |buckets| - 1;
      }
      var bucket := buckets[at];
      if nowMs > bucket.lastMs {
        EarnedIsProduct(limits, nowMs - bucket.lastMs);
        bucket := bucket.(tokens := bucket.tokens + (nowMs - bucket.lastMs) as real * limits.refillPerMs);
        if bucket.tokens > limits.capacity {
          bucket := bucket.(tokens := limits.capacity);
        }
        bucket := bucket.(lastMs := nowMs);
      }
      if bucket.tokens < 1.0 {
        buckets := buckets[at := bucket];
        return false;
      }
      bucket := bucket.(tokens := bucket.tokens - 1.0);
      buckets := buckets[at := bucket];
      return true;
    }
  }

  // ---------------------------------------------------------------- the exact rule

  /** A call of a key, at the time its bucket took it to be, and the program's answer. */
  datatype Visit = Visit(at: int, allowed: bool)

  function AllowedSince(visits: seq<Visit>, k: nat): nat {
    if |visits| <= k then 0
    else AllowedSince(visits[..|visits| - 1], k) + if visits[|visits| - 1].allowed then 1 else 0
  }

  /** What a visit at `now` leaves room for, seen from visit `k`. */
  function Room(l: Limits, visits: seq<Visit>, k: nat, now: int): real
    requires k < |visits|
  {
    l.capacity + Earned(l, Elapsed(visits[k].at, now)) - AllowedSince(visits, k) as real
  }

  function Elapsed(from: int, to: int): nat {
    if from <= to then to - from else 0
  }

  predicate Ordered(visits: seq<Visit>, now: int) {
    && (forall i, j :: 0 <= i < j < |visits| ==> visits[i].at <= visits[j].at)
    && (forall i :: 0 <= i < |visits| ==> visits[i].at <= now)
  }

  /** A bucket's time does not run back: a call that reads an earlier time counts as one at the last visit. */
  function Later(visits: seq<Visit>, now: int): int {
    if visits != [] && now < visits[|visits| - 1].at then visits[|visits| - 1].at else now
  }

  /** The exact rule: from every earlier visit up to and including this one, no more than the capacity
      plus what was earned in between. */
  predicate Permitted(l: Limits, visits: seq<Visit>, now: int) {
    1.0 <= l.capacity && forall k :: 0 <= k < |visits| ==> 1.0 <= Room(l, visits, k, now)
  }

  /** The tokens of a bucket are the least room its visits leave. */
  ghost predicate Balanced(l: Limits, b: Bucket, visits: seq<Visit>) {
    && visits != []
    && Ordered(visits, b.lastMs) && visits[|visits| - 1].at == b.lastMs
    && (forall k :: 0 <= k < |visits| ==> b.tokens <= Room(l, visits, k, b.lastMs))
    && (exists k :: 0 <= k < |visits| && b.tokens == Room(l, visits, k, b.lastMs))
  }

  lemma AllowedSinceGrows(visits: seq<Visit>, v: Visit, k: nat)
    requires k <= |visits|
    ensures AllowedSince(visits + [v], k) == AllowedSince(visits, k) + if v.allowed then 1 else 0
  {
    assert (visits + [v])[..|visits|] == visits;
  }

  /** Room only depends on the clock through what is earned. */
  lemma RoomLater(l: Limits, visits: seq<Visit>, k: nat, then_: int, now: int)
    requires k < |visits| && visits[k].at <= then_ <= now
    ensures Room(l, visits, k, now) == Room(l, visits, k, then_) + Earned(l, now - then_)
  {
    EarnedAdds(l, then_ - visits[k].at, now - then_);
  }

  /** Refilling keeps the tokens the least of the rooms and the capacity. */
  predicate Least(l: Limits, tokens: real, visits: seq<Visit>, now: int) {
    && tokens <= l.capacity
    && (forall k :: 0 <= k < |visits| ==> tokens <= Room(l, visits, k, now))
    && (tokens == l.capacity || exists k :: 0 <= k < |visits| && tokens == Room(l, visits, k, now))
  }

  lemma FillIsLeast(l: Limits, b: Bucket, visits: seq<Visit>, now: int)
    requires l.Valid() && Balanced(l, b, visits) && b.lastMs <= now
    ensures Ordered(visits, now) && Least(l, Fill(l, b, now).tokens, visits, now)
  {
    var n := |visits|;
    forall k | 0 <= k < n
      ensures Room(l, visits, k, now) == Room(l, visits, k, b.lastMs) + Earned(l, now - b.lastMs)
    {
      RoomLater(l, visits, k, b.lastMs, now);
    }
    var w :| 0 <= w < n && b.tokens == Room(l, visits, w, b.lastMs);
    assert b.tokens <= Room(l, visits, n - 1, b.lastMs);
    EarnedIsPositive(l, now - b.lastMs);
  }

  lemma SpendBalanced(l: Limits, f: Bucket, visits: seq<Visit>)
    requires Ordered(visits, f.lastMs) && Least(l, f.tokens, visits, f.lastMs)
    ensures var (c, ok) := Spend(f);
            && (ok <==> Permitted(l, visits, f.lastMs))
            && Balanced(l, c, visits + [Visit(f.lastMs, ok)])
  {
    var (c, ok) := Spend(f);
    var v, n := Visit(f.lastMs, ok), |visits|;
    var more := visits + [v];
    forall k | 0 <= k <= n
      ensures Room(l, more, k, f.lastMs) ==
              (if k == n then l.capacity else Room(l, visits, k, f.lastMs)) - if ok then 1.0 else 0.0
    {
      AllowedSinceGrows(visits, v, k);
    }
    if f.tokens == l.capacity {
      assert c.tokens == Room(l, more, n, f.lastMs);
    } else {
      var k :| 0 <= k < n && f.tokens == Room(l, visits, k, f.lastMs);
      assert c.tokens == Room(l, more, k, f.lastMs);
    }
  }

  /** A visit to a bucket that is already there is answered by the exact rule, whatever the clock reads. */
  lemma VisitBalanced(l: Limits, b: Bucket, visits: seq<Visit>, now: int)
    requires l.Valid() && Balanced(l, b, visits)
    ensures var (t, (c, ok)) := (Later(visits, now), Spend(Fill(l, b, now)));
            && (ok <==> Permitted(l, visits, t))
            && Balanced(l, c, visits + [Visit(t, ok)])
  {
    var t := Later(visits, now);
    FillIsLeast(l, b, visits, t);
    assert Fill(l, b, now).tokens == Fill(l, b, t).tokens && Fill(l, b, now).lastMs == t;
    hide Balanced, Fill, Spend, Least, Ordered, Permitted;
    SpendBalanced(l, Fill(l, b, now), visits);
  }

  lemma FirstVisitBalanced(l: Limits, key: string, now: int)
    ensures var (c, ok) := Spend(Fill(l, Bucket(key, l.capacity, now), now));
            && (ok <==> Permitted(l, [], now))
            && Balanced(l, c, [Visit(now, ok)])
  {
    var f := Bucket(key, l.capacity, now);
    SpendBalanced(l, f, []);
    assert [] + [Visit(now, Spend(f).1)] == [Visit(now, Spend(f).1)];
  }

  // ---------------------------------------------------------------- whole lists and whole runs

  predicate Resident(bs: seq<Bucket>, key: string) {
    Find(bs, key) < |bs|
  }

  /** For each bucket the visits since it was made, after one more call. */
  function Record(l: Limits, bs: seq<Bucket>, records: seq<seq<Visit>>, key: string, now: int)
    : (more: seq<seq<Visit>>)
    requires l.Valid() && |records| == |bs|
    ensures |more| == |AllowStep(l, bs, key, now).0|
  {
    var i, ok := Find(bs, key), AllowStep(l, bs, key, now).1;
    if Resident(bs, key) then records[i := records[i] + [Visit(Later(records[i], now), ok)]]
    else (if l.maximumKeys <= |bs| && bs != [] then records[1..] else records) + [[Visit(now, ok)]]
  }

  ghost predicate Backed(l: Limits, bs: seq<Bucket>, records: seq<seq<Visit>>) {
    |bs| == |records| && forall i :: 0 <= i < |bs| ==> Balanced(l, bs[i], records[i])
  }

  function VisitsOf(bs: seq<Bucket>, records: seq<seq<Visit>>, key: string): seq<Visit>
    requires |bs| == |records|
  {
    if Resident(bs, key) then records[Find(bs, key)] else []
  }

  /** The program answers by the exact rule, and stays in step with the record. */
  lemma AllowServes(l: Limits, bs: seq<Bucket>, records: seq<seq<Visit>>, key: string, now: int)
    requires l.Valid() && Backed(l, bs, records)
    ensures var visits := VisitsOf(bs, records, key);
            AllowStep(l, bs, key, now).1 <==> Permitted(l, visits, Later(visits, now))
    ensures Backed(l, AllowStep(l, bs, key, now).0, Record(l, bs, records, key, now))
  {
    hide Balanced, Spend, Fill, Permitted;
    if Resident(bs, key) {
      VisitBalanced(l, bs[Find(bs, key)], records[Find(bs, key)], now);
    } else {
      FirstVisitBalanced(l, key, now);
    }
  }

  datatype Call = Call(key: string, at: int)

  function BucketsAfter(l: Limits, calls: seq<Call>): seq<Bucket>
    requires l.Valid()
  {
    if calls == [] then []
    else
      var c := calls[|calls| - 1];
      AllowStep(l, BucketsAfter(l, calls[..|calls| - 1]), c.key, c.at).0
  }

  /** The program's answer to the next call. */
  function Answer(l: Limits, calls: seq<Call>, c: Call): bool
    requires l.Valid()
  {
    AllowStep(l, BucketsAfter(l, calls), c.key, c.at).1
  }

  /** For each bucket, the visits since it was made and the program's answers to them. */
  function RecordsAfter(l: Limits, calls: seq<Call>): (records: seq<seq<Visit>>)
    requires l.Valid()
    ensures |records| == |BucketsAfter(l, calls)|
  {
    if calls == [] then []
    else
      var before, c := calls[..|calls| - 1], calls[|calls| - 1];
      Record(l, BucketsAfter(l, before), RecordsAfter(l, before), c.key, c.at)
  }

  /** The visits of a key since its bucket was made. */
  function History(l: Limits, calls: seq<Call>, key: string): seq<Visit>
    requires l.Valid()
  {
    VisitsOf(BucketsAfter(l, calls), RecordsAfter(l, calls), key)
  }

  lemma {:induction false} RunBacked(l: Limits, calls: seq<Call>)
    requires l.Valid()
    ensures Backed(l, BucketsAfter(l, calls), RecordsAfter(l, calls))
  {
    hide AllowStep, Record, Balanced;
    if calls != [] {
      var before, c := calls[..|calls| - 1], calls[|calls| - 1];
      RunBacked(l, before);
      AllowServes(l, BucketsAfter(l, before), RecordsAfter(l, before), c.key, c.at);
    }
  }

  /** No bucket owes tokens or holds more than the capacity. */
  predicate InRange(l: Limits, bs: seq<Bucket>) {
    forall i :: 0 <= i < |bs| ==> 0.0 <= bs[i].tokens <= l.capacity
  }

  lemma AllowInRange(l: Limits, bs: seq<Bucket>, key: string, now: int)
    requires l.Valid() && 0.0 <= l.capacity && InRange(l, bs)
    ensures InRange(l, AllowStep(l, bs, key, now).0)
  {
    var b := Admit(l, bs, key, now)[Place(l, bs, key)];
    if b.lastMs < now {
      EarnedIsPositive(l, now - b.lastMs);
    }
    hide Earned;
  }

  lemma {:induction false} TokensInRange(l: Limits, calls: seq<Call>)
    requires l.Valid() && 0.0 <= l.capacity
    ensures InRange(l, BucketsAfter(l, calls))
  {
    if calls != [] {
      var before, c := calls[..|calls| - 1], calls[|calls| - 1];
      TokensInRange(l, before);
      AllowInRange(l, BucketsAfter(l, before), c.key, c.at);
    }
  }

  predicate InOrder(calls: seq<Call>) {
    forall i, j :: 0 <= i < j < |calls| ==> calls[i].at <= calls[j].at
  }

  /** No bucket was visited after `now`. */
  predicate Visited(bs: seq<Bucket>, now: int) {
    forall k :: 0 <= k < |bs| ==> bs[k].lastMs <= now
  }

  lemma AllowVisited(l: Limits, bs: seq<Bucket>, key: string, at: int, now: int)
    requires l.Valid() && Visited(bs, now) && at <= now
    ensures Visited(AllowStep(l, bs, key, at).0, now)
  {
    hide Earned;
  }

  lemma {:induction false} VisitedBefore(l: Limits, calls: seq<Call>, now: int)
    requires l.Valid() && forall c :: c in calls ==> c.at <= now
    ensures Visited(BucketsAfter(l, calls), now)
  {
    hide AllowStep;
    if calls != [] {
      var before, c := calls[..|calls| - 1], calls[|calls| - 1];
      VisitedBefore(l, before, now);
      AllowVisited(l, BucketsAfter(l, before), c.key, c.at, now);
    }
  }

  /** A call that is not earlier than any other is at the time that was read. */
  lemma OnTime(l: Limits, calls: seq<Call>, key: string, now: int)
    requires l.Valid() && forall c :: c in calls ==> c.at <= now
    ensures Later(History(l, calls, key), now) == now
  {
    var bs, records := BucketsAfter(l, calls), RecordsAfter(l, calls);
    RunBacked(l, calls);
    VisitedBefore(l, calls, now);
    hide BucketsAfter, RecordsAfter, Find;
    var i := Find(bs, key);
    assert i < |bs| ==> Balanced(l, bs[i], records[i]);
  }

  /** Exactness, for any clock: the program allows a call exactly when, counted from every earlier visit of
      the key since its bucket was made, there is room for it. Only a clock that runs back makes the time
      of a visit differ from the time that was read. */
  lemma AllowIsExact(l: Limits, calls: seq<Call>, key: string, now: int)
    requires l.Valid()
    ensures var visits := History(l, calls, key);
            Answer(l, calls, Call(key, now)) <==> Permitted(l, visits, Later(visits, now))
    ensures (forall c :: c in calls ==> c.at <= now) ==> Later(History(l, calls, key), now) == now
  {
    RunBacked(l, calls);
    AllowServes(l, BucketsAfter(l, calls), RecordsAfter(l, calls), key, now);
    if forall c :: c in calls ==> c.at <= now {
      OnTime(l, calls, key, now);
    }
    hide BucketsAfter, RecordsAfter, AllowStep, Permitted, Backed, VisitsOf;
  }

  /** Every answer on record was given by the exact rule. */
  predicate Honest(l: Limits, visits: seq<Visit>) {
    forall j :: 0 <= j < |visits| ==> (visits[j].allowed <==> Permitted(l, visits[..j], visits[j].at))
  }

  predicate AllHonest(l: Limits, records: seq<seq<Visit>>) {
    forall i :: 0 <= i < |records| ==> Honest(l, records[i])
  }

  lemma VisitHonest(l: Limits, visits: seq<Visit>, v: Visit)
    requires Honest(l, visits) && (v.allowed <==> Permitted(l, visits, v.at))
    ensures Honest(l, visits + [v])
  {
    var longer := visits + [v];
    forall j | 0 <= j < |longer| ensures longer[..j] == visits[..j] {
    }
    assert visits[..|visits|] == visits;
  }

  lemma RecordHonest(l: Limits, bs: seq<Bucket>, records: seq<seq<Visit>>, key: string, now: int)
    requires l.Valid() && |records| == |bs| && AllHonest(l, records)
    requires var visits := VisitsOf(bs, records, key);
             AllowStep(l, bs, key, now).1 <==> Permitted(l, visits, Later(visits, now))
    ensures AllHonest(l, Record(l, bs, records, key, now))
  {
    assert Honest(l, []);
    hide Honest, Permitted, AllowStep;
    var visits := VisitsOf(bs, records, key);
    var v := Visit(Later(visits, now), AllowStep(l, bs, key, now).1);
    VisitHonest(l, visits, v);
    assert [] + [v] == [v];
  }

  /** Over whole runs: all that the program ever answered a key while it was resident fits the exact rule. */
  lemma {:induction false} RecordsAreHonest(l: Limits, calls: seq<Call>)
    requires l.Valid()
    ensures AllHonest(l, RecordsAfter(l, calls))
  {
    if calls != [] {
      var before, c := calls[..|calls| - 1], calls[|calls| - 1];
      RecordsAreHonest(l, before);
      RunBacked(l, before);
      hide AllHonest, AllowStep, Record, Permitted, Backed;
      AllowServes(l, BucketsAfter(l, before), RecordsAfter(l, before), c.key, c.at);
      RecordHonest(l, BucketsAfter(l, before), RecordsAfter(l, before), c.key, c.at);
    }
  }

  // ---------------------------------------------------------------- what is resident

  function Keys(bs: seq<Bucket>): (keys: seq<string>)
    ensures |keys| == |bs| && forall i :: 0 <= i < |keys| ==> keys[i] == bs[i].key
  {
    if bs == [] then [] else [bs[0].key] + Keys(bs[1..])
  }

  /** The keys that got a fresh bucket, in order. */
  function Inserted(l: Limits, calls: seq<Call>): seq<string>
    requires l.Valid()
  {
    if calls == [] then []
    else
      var before, key := calls[..|calls| - 1], calls[|calls| - 1].key;
      Inserted(l, before) + if Resident(BucketsAfter(l, before), key) then [] else [key]
  }

  predicate Distinct(keys: seq<string>) {
    forall i, j :: 0 <= i < j < |keys| ==> keys[i] != keys[j]
  }

  /** `keys` are the last of the inserted ones, as many as fit, each once. */
  predicate Window(l: Limits, keys: seq<string>, inserted: seq<string>) {
    && |keys| <= |inserted| && |keys| == (if |inserted| < l.maximumKeys then |inserted| else l.maximumKeys)
    && keys == inserted[|inserted| - |keys|..]
    && Distinct(keys)
  }

  function Slide(l: Limits, keys: seq<string>, key: string): seq<string> {
    (if l.maximumKeys <= |keys| && keys != [] then keys[1..] else keys) + [key]
  }

  lemma AllowKeys(l: Limits, bs: seq<Bucket>, key: string, now: int)
    requires l.Valid()
    ensures Keys(AllowStep(l, bs, key, now).0) == if Resident(bs, key) then Keys(bs) else Slide(l, Keys(bs), key)
    ensures Resident(bs, key) <==> key in Keys(bs)
  {
    assert Resident(bs, key) ==> Keys(bs)[Find(bs, key)] == key;
    hide Spend, Fill;
  }

  lemma SlideWindow(l: Limits, keys: seq<string>, inserted: seq<string>, key: string)
    requires l.Valid() && Window(l, keys, inserted) && key !in keys
    ensures Window(l, Slide(l, keys, key), inserted + [key])
  {
  }

  /** The keys of the program's buckets are the last `maximumKeys` insertions, each once. */
  lemma {:induction false} ResidentIsWindow(l: Limits, calls: seq<Call>)
    requires l.Valid()
    ensures Window(l, Keys(BucketsAfter(l, calls)), Inserted(l, calls))
  {
    if calls != [] {
      var before, c := calls[..|calls| - 1], calls[|calls| - 1];
      var bs := BucketsAfter(l, before);
      ResidentIsWindow(l, before);
      AllowKeys(l, bs, c.key, c.at);
      SlidesOrStays(l, bs, Inserted(l, before), c.key);
      hide *;
    }
  }

  lemma SlidesOrStays(l: Limits, bs: seq<Bucket>, inserted: seq<string>, key: string)
    requires l.Valid() && Window(l, Keys(bs), inserted) && (Resident(bs, key) <==> key in Keys(bs))
    ensures Window(l, if Resident(bs, key) then Keys(bs) else Slide(l, Keys(bs), key),
                   inserted + if Resident(bs, key) then [] else [key])
  {
    if Resident(bs, key) {
      assert inserted + [] == inserted;
    } else {
      SlideWindow(l, Keys(bs), inserted, key);
    }
    hide Window, Slide, Resident, Keys;
  }

  // ---------------------------------------------------------------- no bursts

  /** How many calls of `key` the program allowed, from the `i`-th call on. */
  function AllowedFrom(l: Limits, calls: seq<Call>, key: string, i: nat): nat
    requires l.Valid()
  {
    if |calls| <= i then 0
    else
      var before, c := calls[..|calls| - 1], calls[|calls| - 1];
      AllowedFrom(l, before, key, i) + if c.key == key && Answer(l, before, c) then 1 else 0
  }

  /** The bucket of `key` is not evicted after the `i`-th call. */
  predicate StaysResident(l: Limits, calls: seq<Call>, key: string, i: nat)
    requires l.Valid()
  {
    |calls| <= i ||
    (Resident(BucketsAfter(l, calls), key) && StaysResident(l, calls[..|calls| - 1], key, i))
  }

  function BucketOf(bs: seq<Bucket>, key: string): Bucket
    requires Resident(bs, key)
  {
    bs[Find(bs, key)]
  }

  lemma OnlyPlace(bs: seq<Bucket>, key: string, i: nat)
    requires Distinct(Keys(bs)) && i < |bs| && bs[i].key == key
    ensures Find(bs, key) == i
  {
    assert Keys(bs)[i] == key;
    assert Find(bs, key) < |bs| && Keys(bs)[Find(bs, key)] == key;
  }

  /** A call leaves the buckets of other keys as they are, unless it evicts them. */
  lemma OthersKept(l: Limits, bs: seq<Bucket>, other: string, now: int, key: string)
    requires l.Valid() && Distinct(Keys(bs)) && key != other
    requires Resident(bs, key) && Resident(AllowStep(l, bs, other, now).0, key)
    ensures BucketOf(AllowStep(l, bs, other, now).0, key) == BucketOf(bs, key)
  {
    hide AllowStep, Distinct, Keys;
    var after := AllowStep(l, bs, other, now).0;
    var k := OldPlace(l, bs, other, now, Find(after, key));
    OnlyPlace(bs, key, k);
  }

  /** Where a bucket that is not the called one was before the call. */
  lemma OldPlace(l: Limits, bs: seq<Bucket>, other: string, now: int, j: nat) returns (k: nat)
    requires l.Valid() && j < |AllowStep(l, bs, other, now).0| && AllowStep(l, bs, other, now).0[j].key != other
    ensures k < |bs| && bs[k] == AllowStep(l, bs, other, now).0[j]
  {
    hide Earned;
    k := if !Resident(bs, other) && l.maximumKeys <= |bs| then j + 1 else j;
  }

  lemma OwnBucket(l: Limits, bs: seq<Bucket>, key: string, now: int)
    requires l.Valid() && Resident(AllowStep(l, bs, key, now).0, key)
    ensures var was := if Resident(bs, key) then BucketOf(bs, key) else Bucket(key, l.capacity, now);
            BucketOf(AllowStep(l, bs, key, now).0, key) == Spend(Fill(l, was, now)).0
            && AllowStep(l, bs, key, now).1 == Spend(Fill(l, was, now)).1
  {
    var after := AllowStep(l, bs, key, now).0;
    assert after[Place(l, bs, key)].key == key;
    assert forall k :: 0 <= k < Place(l, bs, key) ==> after[k].key != key;
  }

  /** What is left and what was allowed never exceed the capacity and what was earned. */
  predicate Covered(l: Limits, b: Bucket, allowed: nat, since: int) {
    since <= b.lastMs && b.tokens + allowed as real <= l.capacity + Earned(l, b.lastMs - since)
  }

  lemma VisitCovered(l: Limits, b: Bucket, allowed: nat, since: int, now: int)
    requires l.Valid() && Covered(l, b, allowed, since) && b.lastMs <= now
    ensures var (c, ok) := Spend(Fill(l, b, now));
            Covered(l, c, allowed + if ok then 1 else 0, since) && c.lastMs == now
  {
    EarnedAdds(l, b.lastMs - since, now - b.lastMs);
    hide Earned;
  }

  lemma FirstCovered(l: Limits, b: Bucket, now: int)
    requires l.Valid() && b.tokens <= l.capacity && b.lastMs <= now
    ensures var (c, ok) := Spend(Fill(l, b, now));
            Covered(l, c, if ok then 1 else 0, now) && c.lastMs == now
  {
  }

  /** The bucket of a resident key, if its last visit is not later than `last`, covers what was allowed. */
  predicate Covers(l: Limits, bs: seq<Bucket>, key: string, allowed: nat, since: int, last: int) {
    Resident(bs, key) && BucketOf(bs, key).lastMs <= last && Covered(l, BucketOf(bs, key), allowed, since)
  }

  lemma FirstCovers(l: Limits, bs: seq<Bucket>, c: Call)
    requires l.Valid() && InRange(l, bs) && Visited(bs, c.at)
    requires Resident(AllowStep(l, bs, c.key, c.at).0, c.key)
    ensures var (after, ok) := AllowStep(l, bs, c.key, c.at);
            Covers(l, after, c.key, if ok then 1 else 0, c.at, c.at)
  {
    hide AllowStep, Covered, Spend, Fill;
    OwnBucket(l, bs, c.key, c.at);
    FirstCovered(l, if Resident(bs, c.key) then BucketOf(bs, c.key) else Bucket(c.key, l.capacity, c.at), c.at);
  }

  lemma NextCovers(l: Limits, bs: seq<Bucket>, c: Call, key: string, allowed: nat, since: int, last: int)
    requires l.Valid() && Distinct(Keys(bs)) && Covers(l, bs, key, allowed, since, last) && last <= c.at
    requires Resident(AllowStep(l, bs, c.key, c.at).0, key)
    ensures var (after, ok) := AllowStep(l, bs, c.key, c.at);
            Covers(l, after, key, allowed + if c.key == key && ok then 1 else 0, since, c.at)
  {
    hide AllowStep, Covered, Spend, Fill, Resident, BucketOf, Distinct;
    if c.key == key {
      OwnBucket(l, bs, key, c.at);
      VisitCovered(l, BucketOf(bs, key), allowed, since, c.at);
    } else {
      OthersKept(l, bs, c.key, c.at, key);
    }
  }

  /** From one call of a key on, while its bucket stays, the program allows no more calls of that key than
      the capacity and what was earned since. */
  lemma {:induction false} TokensCover(l: Limits, calls: seq<Call>, i: nat)
    requires l.Valid() && 0.0 <= l.capacity && InOrder(calls) && i < |calls|
    requires StaysResident(l, calls, calls[i].key, i)
    ensures Covers(l, BucketsAfter(l, calls), calls[i].key, AllowedFrom(l, calls, calls[i].key, i),
                   calls[i].at, calls[|calls| - 1].at)
    decreases |calls|
  {
    var before, c, key := calls[..|calls| - 1], calls[|calls| - 1], calls[i].key;
    InOrderBefore(calls);
    LastCall(l, calls, key, i);
    assert i < |calls| - 1 ==> before[i] == calls[i] && before[|before| - 1].at <= c.at;
    hide *;
    if i == |calls| - 1 {
      VisitedBefore(l, before, c.at);
      TokensInRange(l, before);
      FirstCovers(l, BucketsAfter(l, before), c);
    } else {
      TokensCover(l, before, i);
      DistinctKeys(l, before);
      NextCovers(l, BucketsAfter(l, before), c, key, AllowedFrom(l, before, key, i),
                 calls[i].at, before[|before| - 1].at);
    }
  }

  lemma InOrderBefore(calls: seq<Call>)
    requires calls != [] && InOrder(calls)
    ensures InOrder(calls[..|calls| - 1])
    ensures forall c :: c in calls[..|calls| - 1] ==> c.at <= calls[|calls| - 1].at
  {
  }

  /** What the last call adds. */
  lemma LastCall(l: Limits, calls: seq<Call>, key: string, i: nat)
    requires l.Valid() && i < |calls|
    ensures var before, c := calls[..|calls| - 1], calls[|calls| - 1];
            && AllowStep(l, BucketsAfter(l, before), c.key, c.at) == (BucketsAfter(l, calls), Answer(l, before, c))
            && AllowedFrom(l, calls, key, i) ==
               AllowedFrom(l, before, key, i) + (if c.key == key && Answer(l, before, c) then 1 else 0)
            && (i == |before| ==> AllowedFrom(l, before, key, i) == 0)
            && (StaysResident(l, calls, key, i) ==>
                  Resident(BucketsAfter(l, calls), key) && StaysResident(l, before, key, i))
  {
    hide AllowStep, Resident;
  }

  lemma DistinctKeys(l: Limits, calls: seq<Call>)
    requires l.Valid()
    ensures Distinct(Keys(BucketsAfter(l, calls)))
  {
    ResidentIsWindow(l, calls);
  }

  lemma BurstBound(l: Limits, calls: seq<Call>, i: nat)
    requires l.Valid() && 0.0 <= l.capacity && InOrder(calls) && i < |calls|
    requires StaysResident(l, calls, calls[i].key, i)
    ensures AllowedFrom(l, calls, calls[i].key, i) as real
            <= l.capacity + Earned(l, Elapsed(calls[i].at, calls[|calls| - 1].at))
  {
    var b := calls[i].at;
    TokensCover(l, calls, i);
    TokensInRange(l, calls);
    hide AllowStep;
    var bucket := BucketOf(BucketsAfter(l, calls), calls[i].key);
    EarnedAdds(l, bucket.lastMs - b, calls[|calls| - 1].at - bucket.lastMs);
    EarnedIsPositive(l, calls[|calls| - 1].at - bucket.lastMs);
    hide Earned, AllowedFrom, BucketsAfter, StaysResident;
  }

  /** With a clock that runs back the bound fails: with a capacity of two, one key may call three times
      although no time has passed between its first and its last call. */
  lemma ClockBackExample()
    ensures var l, calls := Limits(2.0, 1.0, 1), [Call("a", 0), Call("a", 1), Call("a", 0)];
            && StaysResident(l, calls, "a", 0) && AllowedFrom(l, calls, "a", 0) == 3
            && l.capacity + Earned(l, Elapsed(calls[0].at, calls[2].at)) == 2.0
  {
    var l, a, b := Limits(2.0, 1.0, 1), Call("a", 0), Call("a", 1);
    assert Earned(l, 1) == 1.0;
    Grows(l, [], a);
    Grows(l, [a], b);
    Grows(l, [a, b], a);
    assert [] + [a] == [a] && [a] + [b] == [a, b] && [a, b] + [a] == [a, b, a];
    hide BucketsAfter, AllowedFrom, StaysResident;
    assert BucketsAfter(l, [a]) == [Bucket("a", 1.0, 0)];
    assert BucketsAfter(l, [a, b]) == [Bucket("a", 1.0, 1)];
    assert BucketsAfter(l, [a, b, a]) == [Bucket("a", 0.0, 1)];
  }

  /** One call more, for each of the functions on calls. */
  lemma Grows(l: Limits, calls: seq<Call>, c: Call)
    requires l.Valid()
    ensures var more := calls + [c];
            && BucketsAfter(l, more) == AllowStep(l, BucketsAfter(l, calls), c.key, c.at).0
            && AllowedFrom(l, more, c.key, 0) ==
               AllowedFrom(l, calls, c.key, 0) + (if Answer(l, calls, c) then 1 else 0)
            && (StaysResident(l, more, c.key, 0) <==>
                Resident(BucketsAfter(l, more), c.key) && StaysResident(l, calls, c.key, 0))
            && BucketsAfter(l, []) == [] && AllowedFrom(l, [], c.key, 0) == 0 && StaysResident(l, [], c.key, 0)
  {
    assert (calls + [c])[..|calls|] == calls;
    hide AllowStep, Resident;
  }
}
