/**
 * The resource-sizing arithmetic of `setup_queue_tbl`: the reassembly
 * table's TTL in TSC cycles (`frag_cycles`) and the size of the packet
 * buffer pool (`nb_mbuf`), each with the C integer widths written out.
 */
module Sizing {
  import opened Width
  import opened FlowParse

  const MAX_PKT_BURST: nat := 32
  const NB_MBUF: nat := 40100
  /** `RTE_LIBRTE_IP_FRAG_MAX_FRAG`, 4 in DPDK's default build configuration. */
  const MAX_FRAG_NUM: nat := 4
  /** `BUF_SIZE`, i.e. `RTE_MBUF_DEFAULT_DATAROOM`. */
  const BUF_SIZE: nat := 2048
  /** `port_conf.rxmode.max_rx_pkt_len`, `JUMBO_FRAME_MAX_SIZE`. */
  const MAX_RX_PKT_LEN: nat := 0x2600

  /** A bound on the TSC rate (about 1.1 THz) under which none of the formulas wraps. */
  const HZ_LIMIT: nat := 0x100_0000_0000

  function Max(a: nat, b: nat): (m: nat)
    ensures m >= a && m >= b && (m == a || m == b)
  {
    if a >= b then a else b
  }

  /** `(a + b - 1) / b`: the least multiple count of `b` that covers `a`. */
  function CeilDiv(a: nat, b: nat): (q: nat)
    requires b > 0
    ensures q * b >= a
    ensures q > 0 ==> (q - 1) * b < a
  {
    var q := (a + b - 1) / b;
    assert q * b + (a + b - 1) % b == a + b - 1;
    q
  }

  /** `frag_cycles = (hz + MS_PER_S - 1) / MS_PER_S * max_flow_ttl` in `uint64_t`. */
  function FragCycles(hz: nat, ttl: nat): (r: nat)
    requires hz < U64_MOD
    ensures r < U64_MOD
    ensures ttl == 0 ==> r == 0
  {
    Wrap64(Wrap64(hz + MS_PER_S - 1) / MS_PER_S * ttl)
  }

  lemma MulLe(a: nat, b: nat, c: nat)
    requires a <= b
    ensures a * c <= b * c
  {
  }

  lemma MulLt(a: nat, b: nat, c: nat)
    requires a < b && c > 0
    ensures a * c < b * c
  {
  }

  lemma MulAssoc(a: nat, b: nat, c: nat)
    ensures a * b * c == a * c * b
  {
  }

  /**
   * Below `HZ_LIMIT`, `frag_cycles` is the cycles of one millisecond,
   * rounded up, times the TTL: never shorter than the TTL and less than
   * one cycle per millisecond longer.
   */
  lemma FragCyclesCoversTtl(hz: nat, ttl: nat)
    requires hz < HZ_LIMIT && ttl <= MAX_FLOW_TTL
    ensures FragCycles(hz, ttl) == CeilDiv(hz, MS_PER_S) * ttl
    ensures FragCycles(hz, ttl) * MS_PER_S >= hz * ttl
    ensures FragCycles(hz, ttl) * MS_PER_S < (hz + MS_PER_S) * ttl || ttl == 0
  {
    var q := CeilDiv(hz, MS_PER_S);
    assert Wrap64(hz + MS_PER_S - 1) == hz + MS_PER_S - 1;
    assert Wrap64(hz + MS_PER_S - 1) / MS_PER_S == q;
    assert q <= HZ_LIMIT;
    MulLe(q, HZ_LIMIT, ttl);
    MulLe(ttl, MAX_FLOW_TTL, HZ_LIMIT);
    assert q * ttl < U64_MOD;
    assert FragCycles(hz, ttl) == q * ttl;
    MulAssoc(q, ttl, MS_PER_S);
    MulLe(hz, q * MS_PER_S, ttl);
    if ttl > 0 {
      MulLt(q * MS_PER_S, hz + MS_PER_S, ttl);
    }
  }

  /**
   * `nb_mbuf` in `uint32_t`: up to `MAX_FRAG_NUM` buffers of
   * `ceil(max_rx_pkt_len / BUF_SIZE)` segments for each of at least
   * `2 * MAX_PKT_BURST` flows, doubled for IPv4 and IPv6, plus 1024
   * descriptors, and never below `NB_MBUF`.
   */
  function NbMbuf(maxFlowNum: nat): (n: nat)
    ensures n >= NB_MBUF
  {
    var perFlows := Wrap32(Max(maxFlowNum, 2 * MAX_PKT_BURST) * MAX_FRAG_NUM);
    var segments := Wrap32(perFlows * ((MAX_RX_PKT_LEN + BUF_SIZE - 1) / BUF_SIZE));
    var bothVersions := Wrap32(segments * 2);
    var withDescriptors := Wrap32(bothVersions + 1024);
    Max(withDescriptors, NB_MBUF)
  }

  /**
   * For every flow count the parser admits, no step of `nb_mbuf` wraps: the
   * pool holds two full tables of maximal fragments (one per IP version)
   * plus 1024, and so every buffer a full reassembly table can keep.
   */
  lemma NbMbufCoversTable(maxFlowNum: nat)
    requires maxFlowNum <= MAX_FLOW_NUM
    ensures NbMbuf(maxFlowNum) ==
      Max(Max(maxFlowNum, 2 * MAX_PKT_BURST) * MAX_FRAG_NUM * CeilDiv(MAX_RX_PKT_LEN, BUF_SIZE) * 2 + 1024, NB_MBUF)
    ensures NbMbuf(maxFlowNum) >= maxFlowNum * MAX_FRAG_NUM * CeilDiv(MAX_RX_PKT_LEN, BUF_SIZE)
  {
    assert (MAX_RX_PKT_LEN + BUF_SIZE - 1) / BUF_SIZE == 5 == CeilDiv(MAX_RX_PKT_LEN, BUF_SIZE);
    var f := Max(maxFlowNum, 2 * MAX_PKT_BURST);
    assert f <= MAX_FLOW_NUM;
    assert Wrap32(f * MAX_FRAG_NUM) == f * MAX_FRAG_NUM;
    assert Wrap32(f * MAX_FRAG_NUM * 5) == f * MAX_FRAG_NUM * 5;
    assert Wrap32(f * MAX_FRAG_NUM * 5 * 2) == f * MAX_FRAG_NUM * 5 * 2;
    assert Wrap32(f * MAX_FRAG_NUM * 5 * 2 + 1024) == f * MAX_FRAG_NUM * 5 * 2 + 1024;
  }

  /** With the default 4096 flows the pool has 164864 buffers; with one flow, the floor of 40100. */
  lemma NbMbufExamples()
    ensures NbMbuf(DEF_FLOW_NUM) == 164864
    ensures NbMbuf(1) == NB_MBUF
  {
    NbMbufCoversTable(DEF_FLOW_NUM);
    NbMbufCoversTable(1);
  }
}
