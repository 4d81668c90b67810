/**
 RegisteredHitCounters of external/easylogging++/easylogging++.cc: one counter per source location,
 asked "every N", "after N" or "N times". Counters are `size_t`, so they wrap at 2^64, and the
 every-N counter is folded back each time it reaches kMaxLogPerCounter.
 */
module HitCounters {

  import opened Arithmetic

  const MAX_LOG_PER_COUNTER := 100000
  const TWO_TO_THE_64 := 0x1_0000_0000_0000_0000

  type size_t = x: int | 0 <= x < TWO_TO_THE_64

  datatype Location = Location(filename: string, line: nat)

  datatype HitCounter = HitCounter(location: Location, hits: size_t)

  datatype Kind = EveryN | AfterN | NTimes

  /** One call of validateEveryN, validateAfterN or validateNTimes. */
  datatype Call = Call(location: Location, kind: Kind, n: size_t)

  // ---------- One counter ----------

  /** HitCounter::increment */
  function Increment(hits: size_t): size_t {
    if hits + 1 == TWO_TO_THE_64 then 0 else hits + 1
  }

  /** HitCounter::validateHitCounts */
  function ValidateHitCounts(hits: size_t, n: size_t): size_t {
    Increment(if hits >= MAX_LOG_PER_COUNTER then (if n >= 1 then MAX_LOG_PER_COUNTER % n else 0) else hits)
  }

  function HitsAfterCall(kind: Kind, n: size_t, hits: size_t): size_t {
    match kind
    case EveryN => ValidateHitCounts(hits, n)
    case AfterN => if hits >= n then hits else Increment(hits)
    case NTimes => Increment(hits)
  }

  /** The answer of a call that finds the counter at `hits`. */
  predicate Answer(kind: Kind, n: size_t, hits: size_t) {
    var after := HitsAfterCall(kind, n, hits);
    match kind
    case EveryN => n >= 1 && after != 0 && after % n == 0
    case AfterN => hits >= n
    case NTimes => after <= n
  }

  /** The counter after `k` calls of one kind. */
  function HitsAfterCalls(kind: Kind, n: size_t, k: nat): size_t {
    if k == 0 then 0 else HitsAfterCall(kind, n, HitsAfterCalls(kind, n, k - 1))
  }

  /** The answer of the k-th call at a location that makes calls of one kind only. */
  predicate KthAnswer(kind: Kind, n: size_t, k: nat)
    requires k >= 1
  {
    Answer(kind, n, HitsAfterCalls(kind, n, k - 1))
  }

  // ---------- The registry ----------

  /** The counter of a location as a run of calls leaves it. */
  function HitsAfterRun(calls: seq<Call>, location: Location): size_t {
    if calls == [] then 0
    else
      var hits, last := HitsAfterRun(calls[..|calls| - 1], location), calls[|calls| - 1];
      if last.location == location then HitsAfterCall(last.kind, last.n, hits) else hits
  }

  ghost predicate Registered(list: seq<HitCounter>, location: Location) {
    exists i :: 0 <= i < |list| && list[i].location == location
  }

  ghost predicate Distinct(list: seq<HitCounter>) {
    forall i, j :: 0 <= i < j < |list| ==> list[i].location != list[j].location
  }

  class RegisteredHitCounters {
    var list: seq<HitCounter>
    ghost var history: seq<Call>

    /** Every registered counter shows what the calls made of it, and only registered locations were
        called. */
    ghost predicate Valid()
      reads this
    {
      && Distinct(list)
      && (forall i :: 0 <= i < |list| ==> list[i].hits == HitsAfterRun(history, list[i].location))
      && (forall location :: !Registered(list, location) ==> HitsAfterRun(history, location) == 0)
    }

    constructor ()
      ensures Valid() && history == []
    {
      list, history := [], [];
    }

    /** RegistryWithPred::get, registering a fresh counter where it finds none. */
    method Find(location: Location) returns (i: nat)
      requires Valid()
      modifies this`list
      ensures Valid() && i < |list| && list[i].location == location
    {
      i := 0;
      while i < |list|
        invariant 0 <= i <= |list|
        invariant forall j :: 0 <= j < i ==> list[j].location != location
      {
        if list[i].location == location { return; }
        i := i + 1;
      }
      ghost var before := list;
      list := list + [HitCounter(location, 0)];
      forall other | Registered(before, other) ensures Registered(list, other) {
        var j :| 0 <= j < |before| && before[j].location == other;
        assert list[j].location == other;
      }
    }

    /** Stores the new hit count of counter `i` and enters the call in the history. */
    method Store(i: nat, hits: size_t, ghost call: Call)
      requires Valid() && i < |list| && list[i].location == call.location
      requires hits == HitsAfterCall(call.kind, call.n, list[i].hits)
      modifies this
      ensures Valid() && history == old(history) + [call]
    {
      ghost var before := list;
      list := list[i := list[i].(hits := hits)];
      assert (history + [call])[..|history|] == history;
      history := history + [call];
      forall other | Registered(before, other) ensures Registered(list, other) {
        var j :| 0 <= j < |before| && before[j].location == other;
        assert list[j].location == other;
      }
      assert Registered(list, call.location) by { assert list[i].location == call.location; }
    }

    method ValidateEveryN(location: Location, n: size_t) returns (result: bool)
      requires Valid()
      modifies this
      ensures Valid() && history == old(history) + [Call(location, EveryN, n)]
      ensures result == Answer(EveryN, n, HitsAfterRun(old(history), location))
    {
      var i := Find(location);
      var hits := ValidateHitCounts(list[i].hits, n);
      Store(i, hits, Call(location, EveryN, n));
      result := n >= 1 && hits != 0 && hits % n == 0;
    }

    method ValidateAfterN(location: Location, n: size_t) returns (result: bool)
      requires Valid()
      modifies this
      ensures Valid() && history == old(history) + [Call(location, AfterN, n)]
      ensures result == Answer(AfterN, n, HitsAfterRun(old(history), location))
    {
      var i := Find(location);
      result := list[i].hits >= n;
      Store(i, if result then list[i].hits else Increment(list[i].hits), Call(location, AfterN, n));
    }

    method ValidateNTimes(location: Location, n: size_t) returns (result: bool)
      requires Valid()
      modifies this
      ensures Valid() && history == old(history) + [Call(location, NTimes, n)]
      ensures result == Answer(NTimes, n, HitsAfterRun(old(history), location))
    {
      var i := Find(location);
      var hits := Increment(list[i].hits);
      Store(i, hits, Call(location, NTimes, n));
      result := hits <= n;
    }
  }

  // ---------- What the k-th call answers ----------

  function CallsAt(calls: seq<Call>, location: Location): nat {
    if calls == [] then 0
    else CallsAt(calls[..|calls| - 1], location) + if calls[|calls| - 1].location == location then 1 else 0
  }

  /** Every call at the location of `call` is that same call: one kind, one n. */
  predicate Uniform(calls: seq<Call>, call: Call) {
    forall i :: 0 <= i < |calls| && calls[i].location == call.location ==> calls[i] == call
  }

  lemma {:induction false} HitsDependOnOwnCallsOnly(calls: seq<Call>, call: Call)
    requires Uniform(calls, call)
    ensures HitsAfterRun(calls, call.location) ==
            HitsAfterCalls(call.kind, call.n, CallsAt(calls, call.location))
  {
    if calls != [] {
      HitsDependOnOwnCallsOnly(calls[..|calls| - 1], call);
    }
  }

  /** However calls at many locations interleave, the answer depends on the number of the call at its
      own location alone. */
  lemma InterleavedAnswer(calls: seq<Call>, call: Call)
    requires Uniform(calls, call)
    ensures Answer(call.kind, call.n, HitsAfterRun(calls, call.location)) ==
            KthAnswer(call.kind, call.n, CallsAt(calls, call.location) + 1)
  {
    HitsDependOnOwnCallsOnly(calls, call);
  }

  /** Folding the counter back at its maximum keeps its phase, as long as n is not above that maximum. */
  lemma {:induction false} EveryNKeepsPhase(n: size_t, k: nat)
    requires 1 <= n <= MAX_LOG_PER_COUNTER && k >= 1
    ensures 1 <= HitsAfterCalls(EveryN, n, k) <= MAX_LOG_PER_COUNTER
    ensures HitsAfterCalls(EveryN, n, k) % n == k % n
    decreases k
  {
    if k > 1 {
      EveryNKeepsPhase(n, k - 1);
      PhaseKept(n, HitsAfterCalls(EveryN, n, k - 1), k - 1);
    }
  }

  lemma PhaseKept(n: size_t, hits: size_t, k: nat)
    requires 1 <= n <= MAX_LOG_PER_COUNTER && hits <= MAX_LOG_PER_COUNTER && hits % n == k % n
    ensures 1 <= ValidateHitCounts(hits, n) <= MAX_LOG_PER_COUNTER
    ensures ValidateHitCounts(hits, n) % n == (k + 1) % n
  {
    var from := if hits == MAX_LOG_PER_COUNTER then hits % n else hits;
    assert from % n == k % n by { QuotientUnique(hits % n, n, 0, hits % n); }
    ModSuccessor(from, k, n);
  }

  /** Above the maximum the counter sticks just past it. */
  lemma {:induction false} EveryNSticks(n: size_t, k: nat)
    requires n > MAX_LOG_PER_COUNTER
    ensures HitsAfterCalls(EveryN, n, k) == if k <= MAX_LOG_PER_COUNTER then k else MAX_LOG_PER_COUNTER + 1
  {
    if k > 0 {
      EveryNSticks(n, k - 1);
      QuotientUnique(MAX_LOG_PER_COUNTER, n, 0, MAX_LOG_PER_COUNTER);
    }
  }

  /** When the k-th every-N call fires, for every n and k. */
  lemma EveryNAnswer(n: size_t, k: nat)
    requires k >= 1
    ensures KthAnswer(EveryN, n, k) <==>
            (1 <= n <= 100000 && k % n == 0) || (n == 100001 && k >= n)
  {
    var hits := HitsAfterCalls(EveryN, n, k);
    assert HitsAfterCall(EveryN, n, HitsAfterCalls(EveryN, n, k - 1)) == hits;
    if 1 <= n <= MAX_LOG_PER_COUNTER {
      EveryNKeepsPhase(n, k);
    } else if n > MAX_LOG_PER_COUNTER {
      EveryNSticks(n, k);
      if hits == n {
        QuotientUnique(hits, n, 1, 0);
      } else {
        QuotientUnique(hits, n, 0, hits);
      }
    }
  }

  /** "Every N" means every N-th call, for ever, exactly for n from 1 to 100000. */
  lemma EveryNIsPeriodic(n: size_t)
    requires n >= 1
    ensures n <= 100000 <==> forall k :: k >= 1 ==> (KthAnswer(EveryN, n, k) <==> k % n == 0)
  {
    forall k | k >= 1
      ensures KthAnswer(EveryN, n, k) <==>
              (n <= 100000 && k % n == 0) || (n == 100001 && k >= n)
    {
      EveryNAnswer(n, k);
    }
    if n > MAX_LOG_PER_COUNTER {
      QuotientUnique(n + 1, n, 1, 1);
      var k := if n == MAX_LOG_PER_COUNTER + 1 then n + 1 else n;
      assert !(KthAnswer(EveryN, n, k) <==> k % n == 0);
    }
  }

  /** "After N" is silent for the first n calls and answers every later one. */
  lemma {:induction false} AfterNAnswer(n: size_t, k: nat)
    requires k >= 1
    ensures HitsAfterCalls(AfterN, n, k - 1) == if k - 1 <= n then k - 1 else n
    ensures KthAnswer(AfterN, n, k) <==> k > n
    decreases k
  {
    if k > 1 {
      AfterNAnswer(n, k - 1);
    }
  }

  /** "N times" answers the first n calls, until the 64-bit counter wraps round. */
  lemma {:induction false} NTimesAnswer(n: size_t, k: nat)
    requires k >= 1
    ensures HitsAfterCalls(NTimes, n, k) == k % 0x1_0000_0000_0000_0000
    ensures KthAnswer(NTimes, n, k) <==> k % 0x1_0000_0000_0000_0000 <= n
    ensures k < 0x1_0000_0000_0000_0000 ==> (KthAnswer(NTimes, n, k) <==> k <= n)
    decreases k
  {
    if k > 1 {
      NTimesAnswer(n, k - 1);
    }
  }
}
