/**
 * The `consumer` loop: on each opening of its rate gate it builds one
 * datagram, fragments it, offers the fragments to reassembly and counts
 * the outcome; a second gate snapshots the counters for the statistics
 * line. The DPDK calls (`build_pkt`, `rte_ipv4_fragment_packet`, the
 * reassembly of each fragment, the LRU sweep and the death-row drain) are
 * not reconstructed: their results arrive as inputs, one `Reading` per
 * iteration, and the two table-maintenance calls are only counted.
 */
module Consumer {
  import opened Width
  import opened Options
  import opened RateGate

  /**
   * What fragmenting one datagram gave back: an error, or `ret` fragments
   * together with, for each `m_table[i]`, whether `reassemble` on it
   * returns a reassembled buffer (non-NULL).
   */
  datatype FragOutcome = FragFailed | Fragmented(completes: seq<bool>)

  /** What became of one datagram. */
  datatype Fate =
    | Skipped                     // fragmentation failed: `continue`
    | Panicked                    // `rte_panic("Error in reassembly")`
    | Counted(reassembled: bool)  // `count++`, and `reasm_count++` when `m != NULL`

  /** The indices of `m_table` handed to `reassemble`, in call order, and the fate. */
  datatype Datagram = Datagram(offered: seq<nat>, fate: Fate)

  /** `[0, 1, ..., n - 1]`, empty when `n <= 0`. */
  function Upto(n: int): (s: seq<nat>)
    ensures |s| == (if n <= 0 then 0 else n)
    ensures forall i :: 0 <= i < |s| ==> s[i] == i
    decreases n
  {
    if n <= 0 then [] else Upto(n - 1) + [n - 1]
  }

  /**
   * One datagram once it is built: fragments `0 .. ret-2` go to reassembly
   * and `m` keeps only the last result; `m` starts as the datagram's own
   * (already freed, never NULL) buffer, so fewer than two fragments leave it
   * non-NULL. A non-NULL `m` panics. Otherwise the last fragment is freed
   * unseen in error mode, or offered, and its result decides whether a
   * reassembled buffer is counted.
   */
  function HandleDatagram(f: FragOutcome, errorMode: bool): (d: Datagram)
    ensures d.fate == Skipped <==> f.FragFailed?
    ensures f.FragFailed? ==> d.offered == []
    ensures f.Fragmented? && |f.completes| < 2 ==> d.fate == Panicked
    ensures f.Fragmented? && |f.completes| >= 2 ==>
      (d.fate == Panicked <==> f.completes[|f.completes| - 2])
    ensures f.Fragmented? && !(d.fate.Counted? && !errorMode) ==> d.offered == Upto(|f.completes| - 1)
    ensures f.Fragmented? && d.fate.Counted? && !errorMode ==> d.offered == Upto(|f.completes|)
    ensures errorMode ==> d.fate != Counted(true)
    ensures errorMode && f.Fragmented? ==> |f.completes| - 1 !in d.offered
    ensures d.fate == Counted(true) ==> f.completes[|f.completes| - 1]
    ensures f.Fragmented? && d.fate.Counted? && !errorMode ==>
      d.fate.reassembled == f.completes[|f.completes| - 1]
  {
    match f
    case FragFailed => Datagram([], Skipped)
    case Fragmented(cs) =>
      var n := |cs|;
      var m := if n >= 2 then cs[n - 2] else true;
      if m then Datagram(Upto(n - 1), Panicked)
      else if errorMode then Datagram(Upto(n - 1), Counted(false))
      else Datagram(Upto(n), Counted(cs[n - 1]))
  }

  /**
   * `for (i = 0; i < ret-1; i++) m = reassemble(m_table[i], ...);` with `m`
   * still holding the freed datagram buffer on entry.
   */
  method OfferLeading(cs: seq<bool>) returns (m: bool, offered: seq<nat>)
    ensures offered == Upto(|cs| - 1)
    ensures m == if |cs| >= 2 then cs[|cs| - 2] else true
  {
    m := true;
    offered := [];
    var i := 0;
    while i < |cs| - 1
      invariant 0 <= i <= (if |cs| > 0 then |cs| - 1 else 0)
      invariant offered == Upto(i)
      invariant m == if i == 0 then true else cs[i - 1]
    {
      offered := offered + [i];
      m := cs[i];
      i := i + 1;
    }
  }

  /** main.c's handling of one fragmented datagram, after `rte_ipv4_fragment_packet`. */
  method ProcessDatagram(cs: seq<bool>, errorMode: bool) returns (d: Datagram)
    ensures d == HandleDatagram(Fragmented(cs), errorMode)
  {
    var m, offered := OfferLeading(cs);
    if m {
      return Datagram(offered, Panicked);
    }
    if errorMode {
      // the last fragment is freed without being offered
    } else {
      offered := offered + [|cs| - 1];
      m := cs[|cs| - 1];
    }
    d := Datagram(offered, Counted(m));
  }

  /** What `build_pkt` and the fragmentation calls of one iteration return. */
  datatype Arrival = Arrival(built: bool, frag: FragOutcome)

  /** One look at the clock, with what the library calls of that iteration return. */
  type Reading = Timed<Arrival>

  /**
   * What the loop reads from `app_config` and the clock rate: the two gate
   * intervals, `app_config.count`, `app_config.error == 1` and `app_config.gc`.
   */
  datatype Params = Params(interval: nat, display: nat, target: nat, errorMode: bool, gc: bool)

  function ParamsOf(cfg: Config, hz: nat): (p: Params)
    requires Valid(cfg) && hz < U64_MOD
    ensures p.target == cfg.count && p.target < U64_MOD
    ensures p.interval == IntervalTsc(hz, cfg.txPps) && p.display == DisplayTsc(hz, cfg.displayPps)
    ensures p.errorMode <==> cfg.error == 1
    ensures p.gc == cfg.gc
  {
    Params(IntervalTsc(hz, cfg.txPps), DisplayTsc(hz, cfg.displayPps), cfg.count, cfg.error == 1, cfg.gc)
  }

  /**
   * The loop's locals, plus how many times it called `rte_ip_frag_check_lru`
   * (`sweeps`) and `rte_ip_frag_free_death_row` (`drains`), and whether it
   * panicked.
   */
  datatype State = State(
    prevTsc: nat,
    prevPrintTsc: nat,
    count: nat,
    reasmCount: nat,
    lastCount: nat,
    lastReasm: nat,
    sweeps: nat,
    drains: nat,
    panicked: bool)

  const INITIAL: State := State(0, 0, 0, 0, 0, 0, 0, 0, false)

  /**
   * What stays true between iterations: the timestamps are 64-bit values,
   * every reassembly is counted with its datagram, `count` never passes
   * `app_config.count` (so no counter wraps), and the statistics snapshot
   * lags the counters.
   */
  predicate Inv(p: Params, s: State) {
    && p.target < U64_MOD
    && s.prevTsc < U64_MOD && s.prevPrintTsc < U64_MOD
    && s.reasmCount <= s.count <= p.target
    && s.lastCount <= s.count && s.lastReasm <= s.reasmCount && s.lastReasm <= s.lastCount
  }

  /** The tail of an iteration that did not `continue`: the statistics gate, the LRU sweep, the drain. */
  function Housekeeping(p: Params, s: State, cur: nat): (t: State)
    requires Inv(p, s) && cur < U64_MOD
    ensures Inv(p, t)
    ensures t.count == s.count && t.reasmCount == s.reasmCount && t.prevTsc == s.prevTsc && t.panicked == s.panicked
    ensures t.drains == s.drains + 1 && t.sweeps == s.sweeps + (if p.gc then 1 else 0)
    ensures t.prevPrintTsc == Tick(s.prevPrintTsc, cur, p.display).prev
    ensures (t.lastCount, t.lastReasm) ==
      if Tick(s.prevPrintTsc, cur, p.display).open then (s.count, s.reasmCount) else (s.lastCount, s.lastReasm)
  {
    var g := Tick(s.prevPrintTsc, cur, p.display);
    var s := if g.open then s.(prevPrintTsc := cur, lastCount := s.count, lastReasm := s.reasmCount) else s;
    s.(sweeps := s.sweeps + (if p.gc then 1 else 0), drains := s.drains + 1)
  }

  /** One iteration of the `while (count < app_config.count)` loop. */
  function Step(p: Params, s: State, r: Reading): (t: State)
    requires Inv(p, s) && !s.panicked && s.count < p.target && r.cur < U64_MOD
    ensures Inv(p, t)
    ensures t.prevTsc == Tick(s.prevTsc, r.cur, p.interval).prev
    ensures t.count == s.count || t.count == s.count + 1
    ensures s.reasmCount <= t.reasmCount && t.reasmCount - s.reasmCount <= t.count - s.count
    ensures p.errorMode ==> t.reasmCount == s.reasmCount
    ensures !Tick(s.prevTsc, r.cur, p.interval).open ==> t.count == s.count && !t.panicked
    ensures Tick(s.prevTsc, r.cur, p.interval).open && !r.event.built ==> t.panicked
    ensures Tick(s.prevTsc, r.cur, p.interval).open && r.event.built && r.event.frag.FragFailed? ==>
      t == s.(prevTsc := r.cur)
    ensures t.count == s.count + 1 <==>
      Tick(s.prevTsc, r.cur, p.interval).open && r.event.built && HandleDatagram(r.event.frag, p.errorMode).fate.Counted?
    ensures t.reasmCount == s.reasmCount +
      if Tick(s.prevTsc, r.cur, p.interval).open && r.event.built
         && HandleDatagram(r.event.frag, p.errorMode).fate == Counted(true) then 1 else 0
    ensures t.panicked <==>
      Tick(s.prevTsc, r.cur, p.interval).open && (!r.event.built || HandleDatagram(r.event.frag, p.errorMode).fate == Panicked)
    ensures t.panicked ==> t == s.(prevTsc := r.cur, panicked := true)
    ensures !t.panicked && !(Tick(s.prevTsc, r.cur, p.interval).open && r.event.built && r.event.frag.FragFailed?) ==>
      && t.prevPrintTsc == Tick(s.prevPrintTsc, r.cur, p.display).prev
      && (t.lastCount, t.lastReasm) ==
         (if Tick(s.prevPrintTsc, r.cur, p.display).open then (t.count, t.reasmCount) else (s.lastCount, s.lastReasm))
      && t.drains == s.drains + 1
      && t.sweeps == s.sweeps + (if p.gc then 1 else 0)
  {
    var g := Tick(s.prevTsc, r.cur, p.interval);
    if !g.open then Housekeeping(p, s, r.cur)
    else
      var s := s.(prevTsc := r.cur);
      if !r.event.built then s.(panicked := true)
      else
        match HandleDatagram(r.event.frag, p.errorMode).fate
        case Skipped => s
        case Panicked => s.(panicked := true)
        case Counted(re) =>
          var s := s.(count := s.count + 1, reasmCount := s.reasmCount + (if re then 1 else 0));
          Housekeeping(p, s, r.cur)
  }

  /** Where the loop ended, and how many readings it left unused. */
  datatype Finish = Finish(state: State, left: nat)

  /**
   * The loop over a finite run of readings: it stops once `count` reaches
   * `app_config.count`, at a panic, or when the readings run out.
   */
  function Run(p: Params, s: State, rs: seq<Reading>): (f: Finish)
    requires Inv(p, s) && TimedBelow64(rs)
    ensures f.left <= |rs|
    decreases |rs|
  {
    if s.panicked || s.count >= p.target || rs == [] then Finish(s, |rs|)
    else Run(p, Step(p, s, rs[0]), rs[1..])
  }

  /** `consumer` up to its drain loop, over the readings `rs`. */
  method Consume(cfg: Config, hz: nat, rs: seq<Reading>) returns (f: Finish)
    requires Valid(cfg) && hz < U64_MOD && TimedBelow64(rs)
    ensures f == Run(ParamsOf(cfg, hz), INITIAL, rs)
  {
    var p := ParamsOf(cfg, hz);
    var prevTsc, prevPrintTsc := 0, 0;
    var count, reasmCount, lastCount, lastReasm := 0, 0, 0, 0;
    var sweeps, drains := 0, 0;
    var panicked := false;
    var i := 0;
    while i < |rs| && count < p.target
      invariant 0 <= i <= |rs|
      invariant !panicked
      invariant var s := State(prevTsc, prevPrintTsc, count, reasmCount, lastCount, lastReasm, sweeps, drains, false);
        Inv(p, s) && Run(p, s, rs[i..]) == Run(p, INITIAL, rs)
    {
      ghost var s := State(prevTsc, prevPrintTsc, count, reasmCount, lastCount, lastReasm, sweeps, drains, false);
      assert rs[i..][1..] == rs[i + 1..];
      var r := rs[i];
      i := i + 1;
      var g := Tick(prevTsc, r.cur, p.interval);
      if g.open {
        prevTsc := r.cur;
        if !r.event.built {
          panicked := true;  // rte_panic("mbuf alloc fail")
          break;
        }
        if r.event.frag.FragFailed? {
          continue;
        }
        var d := ProcessDatagram(r.event.frag.completes, p.errorMode);
        if d.fate == Panicked {
          panicked := true;
          break;
        }
        count := count + 1;
        if d.fate.reassembled {
          reasmCount := reasmCount + 1;
        }
      }
      if Tick(prevPrintTsc, r.cur, p.display).open {
        prevPrintTsc := r.cur;
        lastCount := count;
        lastReasm := reasmCount;
      }
      if p.gc {
        sweeps := sweeps + 1;
      }
      drains := drains + 1;
      assert State(prevTsc, prevPrintTsc, count, reasmCount, lastCount, lastReasm, sweeps, drains, false)
        == Step(p, s, r);
    }
    var t := State(prevTsc, prevPrintTsc, count, reasmCount, lastCount, lastReasm, sweeps, drains, panicked);
    f := Finish(t, |rs| - i);
  }

  /**
   * The loop keeps its invariant, consumes at most one reading per
   * iteration, and ends short of the readings only by panicking or with
   * `count` equal to `app_config.count`; a panic ends it on the spot.
   */
  lemma {:induction false} RunStops(p: Params, s: State, rs: seq<Reading>)
    requires Inv(p, s) && TimedBelow64(rs)
    ensures var f := Run(p, s, rs);
      && Inv(p, f.state)
      && f.left <= |rs|
      && (f.left > 0 ==> f.state.panicked || f.state.count == p.target)
      && (s.panicked ==> f == Finish(s, |rs|))
    decreases |rs|
  {
    if !(s.panicked || s.count >= p.target || rs == []) {
      assert TimedBelow64(rs[1..]);
      RunStops(p, Step(p, s, rs[0]), rs[1..]);
    }
  }

  /**
   * Over any run, `count` grows by at most one per reading used,
   * `reasm_count` by no more than `count`, and not at all in error mode.
   */
  lemma {:induction false} RunCounts(p: Params, s: State, rs: seq<Reading>)
    requires Inv(p, s) && TimedBelow64(rs)
    ensures var f := Run(p, s, rs);
      && f.left <= |rs|
      && s.count <= f.state.count <= s.count + (|rs| - f.left)
      && s.reasmCount <= f.state.reasmCount
      && f.state.reasmCount - s.reasmCount <= f.state.count - s.count
      && (p.errorMode ==> f.state.reasmCount == s.reasmCount)
    decreases |rs|
  {
    if !(s.panicked || s.count >= p.target || rs == []) {
      assert TimedBelow64(rs[1..]);
      RunCounts(p, Step(p, s, rs[0]), rs[1..]);
    }
  }

  /**
   * Datagrams are counted only when the consumer's rate gate opens, so
   * `count` grows by at most the number of openings over the readings.
   */
  lemma {:induction false} RunFollowsGate(p: Params, s: State, rs: seq<Reading>)
    requires Inv(p, s) && TimedBelow64(rs)
    ensures Below64(Clock(rs))
    ensures Run(p, s, rs).state.count - s.count <= |Openings(s.prevTsc, Clock(rs), p.interval)|
    decreases |rs|
  {
    if rs != [] {
      assert Clock(rs)[1..] == Clock(rs[1..]);
      assert TimedBelow64(rs[1..]);
      if !(s.panicked || s.count >= p.target) {
        var t := Step(p, s, rs[0]);
        RunFollowsGate(p, t, rs[1..]);
      }
    }
  }

  /**
   * Only the last of the fragments `0 .. ret-2` is checked: a reassembly
   * completed by an earlier one slips past the panic, and the datagram is
   * counted as usual.
   */
  lemma EarlyCompletionUnchecked()
    ensures HandleDatagram(Fragmented([true, false, true]), false).fate == Counted(true)
    ensures HandleDatagram(Fragmented([true, false, true]), true).fate == Counted(false)
  {
  }
}
