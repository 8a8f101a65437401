/**
 * The TSC rate gate shared by `producer` and `consumer`: a loop iteration
 * does its work only when more than `interval_tsc` cycles have passed,
 * in 64-bit unsigned arithmetic, since the last time it did; and the
 * producer loop built on it.
 */
module RateGate {
  import opened Width
  import opened Sizing

  const US_PER_S: nat := 1000000

  /**
   * `interval_tsc = (hz + US_PER_S - 1) / US_PER_S * (1000000 / tx_pps)`:
   * cycles per microsecond rounded up, times the whole microseconds between
   * two packets; the division by `tx_pps` is on 32-bit unsigned values.
   */
  function IntervalTsc(hz: nat, txPps: nat): (r: nat)
    requires hz < U64_MOD && 0 < txPps < U32_MOD
    ensures r < U64_MOD
    ensures txPps > 1000000 ==> r == 0
  {
    var period := 1000000 / txPps;  // whole microseconds between two packets
    assert txPps > 1000000 ==> period == 0;
    Wrap64(Wrap64(hz + US_PER_S - 1) / US_PER_S * period)
  }

  /** `display_tsc = (hz + US_PER_S - 1) / US_PER_S * 1000000 * display_pps`, in `uint64_t`. */
  function DisplayTsc(hz: nat, displayPps: nat): (r: nat)
    requires hz < U64_MOD
    ensures r < U64_MOD
    ensures displayPps == 0 ==> r == 0
  {
    Wrap64(Wrap64(Wrap64(hz + US_PER_S - 1) / US_PER_S * 1000000) * displayPps)
  }

  /**
   * Below `HZ_LIMIT` the interval is the rounded-up cycles of a microsecond
   * times `1000000 / tx_pps`, so it lasts at least that many microseconds;
   * above one million packets per second it is 0.
   */
  lemma IntervalCoversPeriod(hz: nat, txPps: nat)
    requires hz < HZ_LIMIT && 0 < txPps < U32_MOD
    ensures IntervalTsc(hz, txPps) == CeilDiv(hz, US_PER_S) * (1000000 / txPps)
    ensures IntervalTsc(hz, txPps) * US_PER_S >= hz * (1000000 / txPps)
    ensures txPps > 1000000 ==> IntervalTsc(hz, txPps) == 0
  {
    var q := CeilDiv(hz, US_PER_S);
    var p := 1000000 / txPps;
    assert p <= 1000000 && (txPps > 1000000 ==> p == 0);
    assert Wrap64(hz + US_PER_S - 1) == hz + US_PER_S - 1;
    assert Wrap64(hz + US_PER_S - 1) / US_PER_S == q;
    assert q <= HZ_LIMIT;
    ProductBelow(q, HZ_LIMIT, p, 1000000);
    assert IntervalTsc(hz, txPps) == q * p;
    MulAssoc(q, p, US_PER_S);
    MulLe(hz, q * US_PER_S, p);
  }

  /**
   * Despite its name, `display_pps` counts seconds: below `HZ_LIMIT` and for
   * up to a million of them, `display_tsc` is the rounded-up cycles of a
   * microsecond times a million times `display_pps`, so at least
   * `display_pps` seconds of cycles.
   */
  lemma DisplayCoversSeconds(hz: nat, displayPps: nat)
    requires hz < HZ_LIMIT && displayPps <= 1000000
    ensures DisplayTsc(hz, displayPps) == CeilDiv(hz, US_PER_S) * 1000000 * displayPps
    ensures DisplayTsc(hz, displayPps) >= hz * displayPps
  {
    var q := CeilDiv(hz, US_PER_S);
    assert Wrap64(hz + US_PER_S - 1) == hz + US_PER_S - 1;
    assert Wrap64(hz + US_PER_S - 1) / US_PER_S == q;
    assert q <= 1100000;
    ProductBelow(q, 1100000, 1000000, 1000000);
    ProductBelow(q * 1000000, 1100000 * 1000000, displayPps, 1000000);
    MulLe(hz, q * 1000000, displayPps);
  }

  lemma ProductBelow(a: nat, amax: nat, b: nat, bmax: nat)
    requires a <= amax && b <= bmax && amax * bmax < U64_MOD
    ensures a * b < U64_MOD && Wrap64(a * b) == a * b
  {
    MulLe(a, amax, b);
    MulLe(b, bmax, amax);
  }

  /** The outcome of one look at the clock: did the gate open, and the new `prev`. */
  datatype Gate = Gate(open: bool, prev: nat)

  /**
   * `diff_tsc = cur_tsc - prev_tsc; if (diff_tsc > interval_tsc) prev_tsc = cur_tsc;`
   */
  function Tick(prev: nat, cur: nat, interval: nat): (g: Gate)
    requires prev < U64_MOD && cur < U64_MOD
    ensures g.prev == if g.open then cur else prev
    ensures prev <= cur ==> (g.open <==> cur - prev > interval)
    ensures cur < prev ==> (g.open <==> cur + U64_MOD - prev > interval)
  {
    if Wrap64(cur - prev) > interval then Gate(true, cur) else Gate(false, prev)
  }

  predicate Below64(ts: seq<nat>) {
    forall i :: 0 <= i < |ts| ==> ts[i] < U64_MOD
  }

  /** Readings of a clock that never goes back, none before `from`. */
  predicate Monotonic(from: nat, ts: seq<nat>) {
    && (forall i :: 0 <= i < |ts| ==> from <= ts[i])
    && (forall i, j :: 0 <= i < j < |ts| ==> ts[i] <= ts[j])
  }

  lemma MonotonicTail(from: nat, ts: seq<nat>, next: nat)
    requires Monotonic(from, ts) && |ts| > 0
    requires next == from || next == ts[0]
    ensures Monotonic(next, ts[1..])
  {
  }

  /** The readings at which the gate opens, starting from `prev`. */
  function Openings(prev: nat, ts: seq<nat>, interval: nat): seq<nat>
    requires prev < U64_MOD && Below64(ts)
    decreases |ts|
  {
    if ts == [] then []
    else
      var g := Tick(prev, ts[0], interval);
      (if g.open then [ts[0]] else []) + Openings(g.prev, ts[1..], interval)
  }

  /** The gate opens only at readings of the clock. */
  lemma {:induction false} OpeningsAreReadings(prev: nat, ts: seq<nat>, interval: nat)
    requires prev < U64_MOD && Below64(ts)
    ensures forall k :: 0 <= k < |Openings(prev, ts, interval)| ==> Openings(prev, ts, interval)[k] in ts
    decreases |ts|
  {
    if ts != [] {
      var g := Tick(prev, ts[0], interval);
      OpeningsAreReadings(g.prev, ts[1..], interval);
      var rest := Openings(g.prev, ts[1..], interval);
      forall k | 0 <= k < |rest| ensures rest[k] in ts {
        assert rest[k] in ts[1..];
      }
    }
  }

  /**
   * With a monotonic clock the gate is a rate limit: the first opening is
   * more than `interval` cycles after `prev`, and any two consecutive
   * openings are more than `interval` cycles apart.
   */
  lemma {:induction false} OpeningsSpaced(prev: nat, ts: seq<nat>, interval: nat)
    requires prev < U64_MOD && Below64(ts) && Monotonic(prev, ts)
    ensures var o := Openings(prev, ts, interval);
      && (|o| > 0 ==> o[0] > prev + interval)
      && (forall k :: 0 < k < |o| ==> o[k] > o[k - 1] + interval)
    decreases |ts|
  {
    if ts != [] {
      var g := Tick(prev, ts[0], interval);
      MonotonicTail(prev, ts, g.prev);
      OpeningsSpaced(g.prev, ts[1..], interval);
      var o := Openings(prev, ts, interval);
      var rest := Openings(g.prev, ts[1..], interval);
      if g.open {
        assert o == [ts[0]] + rest;
        forall k | 0 < k < |o| ensures o[k] > o[k - 1] + interval {
          if k == 1 {
            assert o[1] == rest[0] && o[0] == ts[0] == g.prev;
          } else {
            assert o[k] == rest[k - 1] && o[k - 1] == rest[k - 2];
          }
        }
      } else {
        assert o == rest && g.prev == prev;
      }
    }
  }

  /**
   * Hence, between `prev` and the last reading, the gate opens at most once
   * per `interval + 1` cycles.
   */
  lemma {:induction false} OpeningsBounded(prev: nat, ts: seq<nat>, interval: nat)
    requires prev < U64_MOD && Below64(ts) && Monotonic(prev, ts) && |ts| > 0
    ensures |Openings(prev, ts, interval)| * (interval + 1) <= ts[|ts| - 1] - prev
    decreases |ts|
  {
    var g := Tick(prev, ts[0], interval);
    var last := ts[|ts| - 1];
    assert prev <= ts[0] <= last;
    var n := |Openings(g.prev, ts[1..], interval)|;
    assert |Openings(prev, ts, interval)| == (if g.open then 1 else 0) + n;
    if |ts| == 1 {
      assert n == 0;
    } else {
      MonotonicTail(prev, ts, g.prev);
      OpeningsBounded(g.prev, ts[1..], interval);
      assert ts[1..][|ts[1..]| - 1] == last;
      if g.open {
        CountStep(n, interval, g.prev - prev, last - g.prev);
      }
    }
  }

  lemma CountStep(n: nat, interval: nat, gap: nat, remaining: nat)
    requires gap >= interval + 1 && n * (interval + 1) <= remaining
    ensures (n + 1) * (interval + 1) <= gap + remaining
  {
  }

  /** A reading of the clock together with what the library calls of that iteration return. */
  datatype Timed<T> = Timed(cur: nat, event: T)

  predicate TimedBelow64<T>(ts: seq<Timed<T>>) {
    forall i :: 0 <= i < |ts| ==> ts[i].cur < U64_MOD
  }

  /** The clock readings alone. */
  function Clock<T>(ts: seq<Timed<T>>): (cs: seq<nat>)
    ensures |cs| == |ts| && forall i :: 0 <= i < |ts| ==> cs[i] == ts[i].cur
  {
    if ts == [] then [] else [ts[0].cur] + Clock(ts[1..])
  }

  /** `prev_tsc` after the gate has seen the readings `cs`. */
  function GateAfter(prev: nat, cs: seq<nat>, interval: nat): (q: nat)
    requires prev < U64_MOD && Below64(cs)
    ensures q < U64_MOD
    ensures q == prev || q in cs
    decreases |cs|
  {
    if cs == [] then prev else GateAfter(Tick(prev, cs[0], interval).prev, cs[1..], interval)
  }

  /** What became of the packet built when the producer's gate opened. */
  datatype Build = NoMbuf | Enqueued | RingFull

  /** One iteration of the producer loop: a clock reading and the fate of the packet it may build. */
  type ProducerTick = Timed<Build>

  /** `prev_tsc` and `app_config.enq_fail`. */
  datatype Producer = Producer(prev: nat, enqFail: nat)

  /**
   * One iteration: `prev_tsc` follows the gate, and a packet built at an
   * opening whose enqueue failed adds one to `enq_fail` (in `uint64_t`).
   */
  function ProducerStep(p: Producer, t: ProducerTick, interval: nat): (q: Producer)
    requires p.prev < U64_MOD && p.enqFail < U64_MOD && t.cur < U64_MOD
    ensures q.prev < U64_MOD && q.enqFail < U64_MOD
    ensures q.prev == Tick(p.prev, t.cur, interval).prev
    ensures q.enqFail == p.enqFail || q.enqFail == Wrap64(p.enqFail + 1)
    ensures q.enqFail != p.enqFail <==> Tick(p.prev, t.cur, interval).open && t.event == RingFull
  {
    var g := Tick(p.prev, t.cur, interval);
    if g.open && t.event == RingFull then Producer(g.prev, Wrap64(p.enqFail + 1))
    else Producer(g.prev, p.enqFail)
  }

  function ProducerRun(p: Producer, ts: seq<ProducerTick>, interval: nat): Producer
    requires p.prev < U64_MOD && p.enqFail < U64_MOD && TimedBelow64(ts)
    decreases |ts|
  {
    if ts == [] then p else ProducerRun(ProducerStep(p, ts[0], interval), ts[1..], interval)
  }

  /**
   * The first `|ts|` iterations of `producer`'s endless loop, from
   * `prev_tsc = 0`: a packet is built each time the gate opens, and a
   * failed enqueue adds one to `enq_fail`.
   */
  method Produce(enqFail: nat, ts: seq<ProducerTick>, interval: nat) returns (p: Producer)
    requires enqFail < U64_MOD && TimedBelow64(ts)
    ensures p == ProducerRun(Producer(0, enqFail), ts, interval)
  {
    p := Producer(0, enqFail);
    var i := 0;
    while i < |ts|
      invariant 0 <= i <= |ts|
      invariant p.prev < U64_MOD && p.enqFail < U64_MOD
      invariant ProducerRun(p, ts[i..], interval) == ProducerRun(Producer(0, enqFail), ts, interval)
    {
      assert ts[i..][1..] == ts[i + 1..];
      var g := Tick(p.prev, ts[i].cur, interval);
      if g.open && ts[i].event == RingFull {
        p := Producer(g.prev, Wrap64(p.enqFail + 1));
      } else {
        p := Producer(g.prev, p.enqFail);
      }
      i := i + 1;
    }
  }

  /** The gate openings, among the readings `ts`, at which the ring was full. */
  function RingFullOpenings(prev: nat, ts: seq<ProducerTick>, interval: nat): (n: nat)
    requires prev < U64_MOD && TimedBelow64(ts)
    ensures n <= |Openings(prev, Clock(ts), interval)|
    decreases |ts|
  {
    if ts == [] then 0
    else
      var g := Tick(prev, ts[0].cur, interval);
      assert Clock(ts)[1..] == Clock(ts[1..]);
      (if g.open && ts[0].event == RingFull then 1 else 0) + RingFullOpenings(g.prev, ts[1..], interval)
  }

  /**
   * The fate of the built packets never changes the timing: `prev_tsc`
   * depends on the clock readings alone. While it does not wrap, `enq_fail`
   * grows by exactly the number of openings whose enqueue failed, so by at
   * most one per opening.
   */
  lemma {:induction false} ProducerFollowsGate(p: Producer, ts: seq<ProducerTick>, interval: nat)
    requires p.prev < U64_MOD && p.enqFail < U64_MOD && TimedBelow64(ts)
    requires p.enqFail + |ts| < U64_MOD
    ensures Below64(Clock(ts))
    ensures var q := ProducerRun(p, ts, interval);
      && q.prev == GateAfter(p.prev, Clock(ts), interval)
      && q.enqFail == p.enqFail + RingFullOpenings(p.prev, ts, interval)
      && q.enqFail <= p.enqFail + |Openings(p.prev, Clock(ts), interval)|
    decreases |ts|
  {
    if ts != [] {
      var q := ProducerStep(p, ts[0], interval);
      assert Clock(ts)[1..] == Clock(ts[1..]);
      ProducerFollowsGate(q, ts[1..], interval);
    }
  }
}
