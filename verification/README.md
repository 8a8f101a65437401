# IP reassembly test harness — Dafny model

This project models the core of `main.c`. That program is a DPDK
test harness: a producer lcore builds packets at a fixed rate, and a
consumer lcore fragments each datagram, feeds the fragments to
`librte_ip_frag`'s reassembly table and counts what comes back. The
model covers the following parts.

- **CStrings** (`cstrings.dfy`): `strtoul(str, &end, 10)` in the "C"
  locale. It skips white space, takes an optional sign and the longest
  run of digits, and reports `ERANGE` above `ULONG_MAX`. A minus sign
  negates the value modulo 2^64. A C string is the sequence of its
  characters before the NUL.
- **FlowParse** (`flowparse.dfy`): `parse_flow_num` and `parse_flow_ttl`.
  Both return a status and the out-parameter afterwards (`Parsed`).
- **Options** (`options.dfy`): `app_config` as a record, and one pass of
  the `switch` in `parse_args` per getopt result. The option loop is a
  `while` method proved against a recursive specification.
- **Sizing** (`sizing.dfy`): `frag_cycles` and `nb_mbuf` of
  `setup_queue_tbl`. Every 32- and 64-bit store is written out modulo
  2^32 or 2^64.
- **RateGate** (`rategate.dfy`): the TSC gate
  `if (cur - prev > interval) prev = cur`, and the interval and display
  formulas. It also holds the producer loop over a finite run of clock
  readings.
- **Consumer** (`consumer.dfy`): the consumer loop. The results of
  `build_pkt`, `rte_ipv4_fragment_packet` and each `reassemble` call are
  inputs, one `Reading` per iteration.

The per-datagram bookkeeping follows the code rather than its comments.

- Only the last of fragments `0 .. ret-2` is checked for an early
  completion.
- With fewer than two fragments, the freed datagram pointer is still in
  `m`, so the harness panics.
- In error mode (`error == 1`), `m` is NULL after the check, so nothing
  is ever counted as reassembled.

## Model

| member | source | states |
|---|---|---|
| CStrings.Strtoul | main.c:611 | The value never exceeds `ULONG_MAX`. `end` points into the string. `ERANGE` comes with `ULONG_MAX`. |
| CStrings.StrtoulDigitsThen | main.c:633 | A digit string followed by a non-digit tail converts to the number it spells, with `end` at the tail. `ERANGE` is set exactly when that number exceeds `ULONG_MAX`. |
| FlowParse.ParseFlowNum | main.c:603-620 | The status is 0 or `-EINVAL` as a `uint32_t`. On failure `*val` is unchanged. On success the whole string was converted, and the value `strtoul` returned is stored. It lies in `[min, max]`. |
| FlowParse.FlowNumDigits | main.c:610-619 | A digit string is accepted exactly when its number lies in `[min, max]`, and that number is stored. |
| FlowParse.FlowNumTrailing | main.c:612-613 | Any character after the digits gives `-EINVAL` and leaves `*val` unchanged. |
| FlowParse.FlowNumRoundTrip | main.c:610-618 | Parsing the decimal spelling of an in-range count stores that count. |
| FlowParse.ParseFlowTtl | main.c:622-649 | The status is 0 or `-EINVAL`. On failure `*val` is unchanged. On success the text after the number was empty, `s` or `ms`. The stored value is the number in milliseconds (`Millis`) and lies in `[min, max]`. |
| FlowParse.Millis | main.c:637-642 | The TTL in milliseconds is the converted number itself, unless the suffix is exactly `s`. With `s` it is the number times 1000, computed in `uint64_t` (exact while it fits). |
| FlowParse.TtlMilliseconds | main.c:637-647 | Digits alone, or followed by exactly `ms`, are milliseconds. They are accepted exactly when in range, and stored unchanged. |
| FlowParse.TtlSeconds | main.c:638-647 | Digits followed by exactly `s` are multiplied by 1000. While that product fits in 64 bits, they are accepted exactly when it is in range, and the product is stored. |
| FlowParse.TtlOtherSuffix | main.c:637-641 | Any other text after the digits (`sec`, `m`, `s `) is refused with `*val` unchanged. |
| FlowParse.TtlRoundTrip | main.c:640-648 | Parsing `<n>ms` for an in-range `n` stores `n`. |
| FlowParse.TtlLimits | main.c:644-645 | With the bounds `[1, 3600 * 1000]`, `3600s` stores 3600000. `3601s` and `0ms` are refused. |
| FlowParse.TtlSecondsWrap | main.c:639 | `v *= MS_PER_S` wraps before the range check: `18446744073709552s` is accepted as 384 ms. |
| Options.StoreNumber | main.c:711-765 | `tx_pps`, `display_pps`, `count`, `error`, `mtu` and `log` each write the 32-bit truncation of their argument into their own field, and change nothing else, whether or not the value is then accepted. The option succeeds exactly when its rule holds and fails with -1 otherwise. Success keeps the record valid. |
| Options.SetMaxFlows | main.c:684-696 | `maxflows` succeeds exactly when `parse_flow_num` does. It then stores the converted number, which lies in `[1, 65535]`, into `max_flow_num` and changes nothing else. On failure it returns `-EINVAL` as an `int` and leaves the record unchanged. |
| Options.SetFlowTtl | main.c:698-709 | `flowttl` succeeds exactly when `parse_flow_ttl` does. It then stores the TTL in milliseconds, which lies in `[1, 3600000]`, into `max_flow_ttl` and changes nothing else. On failure it returns `-EINVAL` and leaves the record unchanged. |
| Options.ApplyArg | main.c:680-784 | One option returns 0 exactly when its rule holds, and otherwise -1 or `-EINVAL`. Every numeric field afterwards holds the value the option writes into it (`Given`), or its old value. `dump`, `stat` and `gc` become set exactly when named. `enq_fail` is untouched. Success keeps a valid record valid. |
| Options.ParseArgs | main.c:677-793 | The option loop computes the specification: options are applied in order, stopping at the first refused one. |
| Options.ParseArgsRejects | main.c:677-785 | `parse_args` fails exactly when some option breaks its rule, and then returns -1 or `-EINVAL`. |
| Options.ParseArgsKeepsValid | main.c:683-779 | A successful parse of a valid configuration yields a valid configuration. |
| Options.AcceptedArgsValid | main.c:129-142 | The static defaults are valid, so every accepted command line yields a configuration within every bound. |
| Options.ParseArgsFlags | main.c:767-777 | After success, each flag is set exactly when it was already set or its option appears. |
| Options.ParseArgsFields | main.c:677-785 | After a successful parse, every numeric field holds the value its last option wrote, or its initial value. |
| Options.LastGivenIsLast | main.c:683-779 | A later option overrides an earlier one for the same field. A field that no option writes keeps its initial value. |
| Options.RefusedTxPpsIsStored | main.c:711-719 | A refused `tx_pps` of 0, or an `mtu` of 1501, is still written into `app_config`. |
| Sizing.CeilDiv | main.c:831 | `(a + b - 1) / b` is the least multiple count of `b` covering `a`. |
| Sizing.FragCycles | main.c:812-813 | `frag_cycles` is computed with each `uint64_t` store wrapped, so it is a 64-bit value, and 0 for a zero TTL. Its closed form is in `FragCyclesCoversTtl`. |
| Sizing.FragCyclesCoversTtl | main.c:812-813 | Below about 1.1 THz, `frag_cycles` equals ⌈hz/1000⌉ × ttl. It is never shorter than the TTL in cycles, and less than ttl cycles longer. |
| Sizing.NbMbuf | main.c:830-835 | `nb_mbuf` is never below `NB_MBUF` (40100). |
| Sizing.NbMbufCoversTable | main.c:824-835 | For every admitted flow count, no step wraps. `nb_mbuf = max(max(flows, 64) × 4 × 5 × 2 + 1024, 40100)`, which covers every buffer a full table holds. |
| Sizing.NbMbufExamples | main.c:830-835 | 4096 flows give 164864 buffers. One flow gives the floor, 40100. |
| RateGate.IntervalTsc | main.c:307 | `interval_tsc` is computed with each `uint64_t` store wrapped. It is 0 above a million packets per second, because `1000000 / tx_pps` is. Its closed form is in `IntervalCoversPeriod`. |
| RateGate.DisplayTsc | main.c:405-406 | `display_tsc` is computed with each `uint64_t` store wrapped, and is 0 when `display_pps` is 0. Its closed form is in `DisplayCoversSeconds`. |
| RateGate.IntervalCoversPeriod | main.c:307 | `interval_tsc` is ⌈hz/10⁶⌉ × (1000000 / tx_pps), at least that many microseconds. It is 0 above a million packets per second. |
| RateGate.DisplayCoversSeconds | main.c:405-406 | `display_tsc` is ⌈hz/10⁶⌉ × 10⁶ × display_pps cycles, i.e. at least `display_pps` seconds. |
| RateGate.Tick | main.c:313-319 | The gate opens exactly when the unsigned difference `cur - prev` exceeds the interval, in the monotone case and across a wrap. `prev` becomes `cur` only when it opens. |
| RateGate.OpeningsAreReadings | main.c:313-319 | The gate opens only at clock readings. |
| RateGate.OpeningsSpaced | main.c:313-319 | With a monotonic clock, the first opening is more than `interval` after `prev`. Consecutive openings are more than `interval` apart. |
| RateGate.OpeningsBounded | main.c:313-319 | With a monotonic clock, openings × (interval + 1) ≤ the time elapsed. |
| RateGate.ProducerStep | main.c:313-326 | `prev_tsc` follows the gate. `enq_fail` goes up by one, in `uint64_t`, exactly when the gate opens and the enqueue fails. |
| RateGate.RingFullOpenings | main.c:316-326 | The number of gate openings whose enqueue failed is at most the number of openings. |
| RateGate.Produce | main.c:298-332 | The producer loop over the readings computes the specification run. |
| RateGate.ProducerFollowsGate | main.c:316-326 | `prev_tsc` depends on the clock readings alone (`GateAfter`), not on the fate of the packets. While it does not wrap, `enq_fail` grows by exactly the number of openings whose enqueue failed, so by at most one per opening. |
| Consumer.HandleDatagram | main.c:460-506 | A fragmentation error skips the datagram. Fragments `0 .. ret-2` are offered in order. Fewer than two fragments, or a completion by fragment `ret-2`, panics. In error mode the last fragment is never offered and nothing is reassembled. Otherwise it is offered, and the datagram counts as reassembled exactly when that last call returns a buffer. |
| Consumer.OfferLeading | main.c:472-477 | The loop offers `m_table[0 .. ret-2]` in order, and `m` ends as the last result, or as the stale datagram buffer. |
| Consumer.ProcessDatagram | main.c:472-492 | The per-datagram code computes `HandleDatagram`. |
| Consumer.Housekeeping | main.c:512-541 | `prev_print_tsc` follows the statistics gate on `display_tsc`. When the gate opens, `last_count` and `last_reasm` take `count` and `reasm_count`, and otherwise they keep their values. It drains the death row once, sweeps the LRU once exactly when `gc` is set, and leaves the counters untouched. |
| Consumer.ParamsOf | main.c:403-423 | The loop's parameters are `interval_tsc` and `display_tsc` as the consumer computes them from `app_config` and the clock rate, the target `app_config.count`, error mode exactly when `app_config.error == 1` (main.c:483), and `app_config.gc` (main.c:538). |
| Consumer.Step | main.c:423-541 | One iteration keeps the invariant `reasm_count ≤ count ≤ app_config.count`. `count` grows by one exactly when the gate opens and the datagram is counted. A closed gate leaves `count` unchanged and cannot panic. `reasm_count` never decreases. A failed `build_pkt` panics. A fragmentation error changes only `prev_tsc`, skipping the statistics, the sweep and the drain. `reasm_count` goes up by one exactly when the gate opens, the packet is built and the datagram is counted as reassembled. Error mode never reassembles. The iteration panics exactly when the gate opens and either `build_pkt` fails or the datagram's reassembly panics, and a panic changes only `prev_tsc` and the panic flag. Every iteration that neither panics nor skips a datagram runs the statistics gate on `display_tsc` (snapshotting the new counters when it opens), drains the death row once and sweeps the LRU once exactly when `gc` is set. |
| Consumer.Run | main.c:423-542 | The loop over finite readings stops once `count` reaches `app_config.count`, at a panic, or when the readings run out. It never uses more readings than it has. Its properties are `RunStops`, `RunCounts` and `RunFollowsGate`. |
| Consumer.Consume | main.c:423-542 | The consumer loop over the readings computes the specification run. |
| Consumer.RunStops | main.c:423 | The loop keeps the invariant. It stops early only at a panic or with `count == app_config.count`. A panic ends it at once. |
| Consumer.RunCounts | main.c:492-506 | `count` grows by at most one per reading used. `reasm_count` grows by no more than `count`, and not at all in error mode. |
| Consumer.RunFollowsGate | main.c:437-440 | `count` grows by at most the number of gate openings over the readings. |
| Consumer.EarlyCompletionUnchecked | main.c:472-482 | A completion by fragment 0 of three escapes the panic check, and the datagram is still counted. |

## Left out

- The DPDK library is not modelled: fragmentation, reassembly, the
  reassembly table with its buckets, LRU and TTL, and the death row. Its
  code is not part of this model. Each of those calls appears only as an
  input (`FragOutcome`, the `completes` flags) or as a call count
  (`sweeps`, `drains`).
- EAL initialisation, lcore launch, signal handlers, and mempool and ring
  creation are runtime set-up, not logic.
- The producer's ring enqueue runs across two lcores. Its outcome is an
  input (`Build`), and concurrency is not modelled.
- `build_pkt` depends on the allocator and `rte_rand`. Its outcome is the
  input `built`.
- Logging and printing are not modelled: `rte_print_lru`,
  `print_mempool_status`, `print_usage` and the statistics line. The
  statistics gate is kept only for its `last_count` / `last_reasm`
  snapshot.
- `getopt_long` itself is not modelled. The option loop receives the
  options it returns. `strtol(optarg, NULL, 0)` for the numeric options
  is taken as already converted: the model takes its `long` result as an
  integer. The `optind` bookkeeping is not modelled either.
- ParseArgs: the success value `optind - 1` is represented as 0. Only
  its sign matters to the caller.
- Produce: models the first `|ts|` iterations of the producer's endless
  `while (1)` loop, from `prev_tsc = 0`.
- Consume: the loop runs over a finite sequence of readings. The
  garbage-collection drain loop after it (main.c:545-557) only calls the
  library and prints.
- The `reassemble` path for a non-fragmented packet, which falls off the
  end without returning a value, is not modelled. Every fragment handed to
  it comes from `rte_ipv4_fragment_packet` and is fragmented.
- The `frags` field of `app_config` is not modelled, because nothing
  reads it. `max-pkt-len` is accepted but changes nothing (no branch
  matches it), and the model keeps that.
- Strtoul: locales other than "C" are not modelled, and bases other than
  10 are not needed.
- FragCyclesCoversTtl, IntervalCoversPeriod, DisplayCoversSeconds: the
  closed forms are stated below a TSC rate of 2^40 Hz (and `display_pps`
  ≤ 10⁶). Above that the definitions still wrap as the C code does.
- ProducerFollowsGate: the bound is stated while `enq_fail` plus the
  number of iterations stays below 2^64.
