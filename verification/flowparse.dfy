/**
 * The two configuration-value parsers of the reassembly test harness:
 * `parse_flow_num` (a decimal flow count) and `parse_flow_ttl` (a decimal
 * time-to-live with an optional `s` or `ms` unit). Each reads a C string,
 * checks it against `[min, max]` and writes its out-parameter only when
 * every check has passed; `Parsed.val` is the out-parameter afterwards.
 */
module FlowParse {
  import opened Width
  import opened CStrings

  const EINVAL: nat := 22
  const MS_PER_S: nat := 1000

  const MAX_FLOW_NUM: nat := 0xFFFF   // UINT16_MAX
  const MIN_FLOW_NUM: nat := 1
  const DEF_FLOW_NUM: nat := 0x1000

  /** TTL bounds are in milliseconds. */
  const MAX_FLOW_TTL: nat := 3600 * MS_PER_S
  const MIN_FLOW_TTL: nat := 1
  const DEF_FLOW_TTL: nat := MS_PER_S

  /** `parse_flow_num` returns `-EINVAL` through a `uint32_t`. */
  const FLOW_NUM_EINVAL: nat := U32_MOD - EINVAL

  /** A parser's return code and the value of its out-parameter afterwards. */
  datatype Parsed = Parsed(ret: int, val: nat)

  /**
   * `parse_flow_num`: the whole string must convert (no `ERANGE`, nothing
   * after the number) to a value in `[min, max]`; only then is `*val`
   * written.
   */
  function ParseFlowNum(str: seq<char>, min: nat, max: nat, val: nat): (r: Parsed)
    requires max < U32_MOD
    ensures r.ret == 0 || r.ret == FLOW_NUM_EINVAL
    ensures r.ret != 0 ==> r.val == val
    ensures r.ret == 0 ==> min <= r.val <= max && Strtoul(str).rest == [] && r.val == Strtoul(str).value
  {
    var c := Strtoul(str);
    if c.erange || c.rest != [] then Parsed(FLOW_NUM_EINVAL, val)
    else if c.value < min || c.value > max then Parsed(FLOW_NUM_EINVAL, val)
    else Parsed(0, Wrap32(c.value))
  }

  /**
   * The TTL a conversion stands for, in milliseconds: the value itself, or
   * for an exact `s` suffix the value times 1000 in `uint64_t` arithmetic.
   */
  function Millis(c: Conversion): (v: nat)
    ensures c.rest != "s" ==> v == c.value
    ensures c.rest == "s" && c.value * MS_PER_S < U64_MOD ==> v == c.value * MS_PER_S
  {
    if c.rest == "s" then Wrap64(c.value * MS_PER_S) else c.value
  }

  /**
   * `parse_flow_ttl`: a bare number is milliseconds; the exact suffix `ms`
   * keeps it, the exact suffix `s` multiplies it by 1000 in 64-bit unsigned
   * arithmetic, and any other text after the number is refused. The range
   * check applies to the converted value.
   */
  function ParseFlowTtl(str: seq<char>, min: nat, max: nat, val: nat): (r: Parsed)
    requires max < U32_MOD
    ensures r.ret == 0 || r.ret == -(EINVAL as int)
    ensures r.ret != 0 ==> r.val == val
    ensures r.ret == 0 ==> min <= r.val <= max && Strtoul(str).rest in {"", "s", "ms"}
    ensures r.ret == 0 ==> r.val == Millis(Strtoul(str))
  {
    var c := Strtoul(str);
    if c.erange then Parsed(-(EINVAL as int), val)
    else
      var v :=
        if c.rest == [] || c.rest == "ms" then c.value
        else if c.rest == "s" then Wrap64(c.value * MS_PER_S)
        else U64_MOD;  // marks a refused suffix
      if v == U64_MOD then Parsed(-(EINVAL as int), val)
      else if v < min || v > max then Parsed(-(EINVAL as int), val)
      else Parsed(0, Wrap32(v))
  }

  /**
   * A string of digits is accepted as a flow count exactly when the number
   * it spells lies in `[min, max]`, and that number is stored.
   */
  lemma FlowNumDigits(d: seq<char>, min: nat, max: nat, val: nat)
    requires AllDigits(d) && |d| > 0 && max < U32_MOD
    ensures ParseFlowNum(d, min, max, val).ret == 0 <==> min <= DecimalValue(d) <= max
    ensures ParseFlowNum(d, min, max, val).ret == 0 ==> ParseFlowNum(d, min, max, val).val == DecimalValue(d)
  {
    assert d + [] == d;
    StrtoulDigitsThen(d, []);
  }

  /** Any character after the digits makes the flow count invalid. */
  lemma FlowNumTrailing(d: seq<char>, tail: seq<char>, min: nat, max: nat, val: nat)
    requires AllDigits(d) && |d| > 0 && max < U32_MOD
    requires |tail| > 0 && !IsDigit(tail[0])
    ensures ParseFlowNum(d + tail, min, max, val) == Parsed(FLOW_NUM_EINVAL, val)
  {
    StrtoulDigitsThen(d, tail);
  }

  /** Printing a count in range and parsing it back gives the count. */
  lemma FlowNumRoundTrip(n: nat, min: nat, max: nat, val: nat)
    requires min <= n <= max < U32_MOD
    ensures ParseFlowNum(DecimalString(n), min, max, val) == Parsed(0, n)
  {
    DecimalRoundTrip(n);
    FlowNumDigits(DecimalString(n), min, max, val);
  }

  /**
   * Digits alone or followed by exactly `ms` are milliseconds: accepted
   * exactly when the number lies in `[min, max]`, and then stored as is.
   */
  lemma TtlMilliseconds(d: seq<char>, unit: seq<char>, min: nat, max: nat, val: nat)
    requires AllDigits(d) && |d| > 0 && max < U32_MOD
    requires unit == "" || unit == "ms"
    ensures ParseFlowTtl(d + unit, min, max, val) ==
      if min <= DecimalValue(d) <= max then Parsed(0, DecimalValue(d)) else Parsed(-(EINVAL as int), val)
  {
    StrtoulDigitsThen(d, unit);
    var c := Strtoul(d + unit);
    if DecimalValue(d) > ULONG_MAX {
      assert c.erange;
    } else {
      assert c == Conversion(DecimalValue(d), unit, false);
      assert c.rest == [] || c.rest == "ms";
    }
  }

  /**
   * Digits followed by exactly `s` are seconds: while the number of
   * milliseconds fits in 64 bits, accepted exactly when it lies in
   * `[min, max]`, and then stored.
   */
  lemma TtlSeconds(d: seq<char>, min: nat, max: nat, val: nat)
    requires AllDigits(d) && |d| > 0 && max < U32_MOD
    requires DecimalValue(d) * MS_PER_S < U64_MOD
    ensures ParseFlowTtl(d + "s", min, max, val) ==
      var ms := DecimalValue(d) * MS_PER_S;
      if min <= ms <= max then Parsed(0, ms) else Parsed(-(EINVAL as int), val)
  {
    StrtoulDigitsThen(d, "s");
    var c := Strtoul(d + "s");
    assert c == Conversion(DecimalValue(d), "s", false);
    assert Wrap64(c.value * MS_PER_S) == DecimalValue(d) * MS_PER_S;
  }

  /**
   * Digits followed by any text other than exactly `s` or `ms` (`sec`,
   * `m`, `s `, ...) are refused.
   */
  lemma TtlOtherSuffix(d: seq<char>, tail: seq<char>, min: nat, max: nat, val: nat)
    requires AllDigits(d) && |d| > 0 && max < U32_MOD
    requires |tail| > 0 && !IsDigit(tail[0])
    requires tail !in {"s", "ms"}
    ensures ParseFlowTtl(d + tail, min, max, val) == Parsed(-(EINVAL as int), val)
  {
    StrtoulDigitsThen(d, tail);
  }

  /** Printing a TTL in milliseconds and parsing it back gives the TTL. */
  lemma TtlRoundTrip(ms: nat, min: nat, max: nat, val: nat)
    requires min <= ms <= max < U32_MOD
    ensures ParseFlowTtl(DecimalString(ms) + "ms", min, max, val) == Parsed(0, ms)
  {
    DecimalRoundTrip(ms);
    TtlMilliseconds(DecimalString(ms), "ms", min, max, val);
  }

  /**
   * With the harness's bounds `[1 ms, 3600 s]`: `3600s` is the largest
   * TTL in seconds accepted, `3601s` and `0ms` are refused.
   */
  lemma TtlLimits(val: nat)
    ensures ParseFlowTtl(DecimalString(3600) + "s", MIN_FLOW_TTL, MAX_FLOW_TTL, val) == Parsed(0, 3600000)
    ensures ParseFlowTtl(DecimalString(3601) + "s", MIN_FLOW_TTL, MAX_FLOW_TTL, val).ret != 0
    ensures ParseFlowTtl(DecimalString(0) + "ms", MIN_FLOW_TTL, MAX_FLOW_TTL, val).ret != 0
  {
    DecimalRoundTrip(3600);
    TtlSeconds(DecimalString(3600), MIN_FLOW_TTL, MAX_FLOW_TTL, val);
    DecimalRoundTrip(3601);
    TtlSeconds(DecimalString(3601), MIN_FLOW_TTL, MAX_FLOW_TTL, val);
    DecimalRoundTrip(0);
    TtlMilliseconds(DecimalString(0), "ms", MIN_FLOW_TTL, MAX_FLOW_TTL, val);
  }

  /**
   * The multiplication by 1000 wraps modulo 2^64 before the range check:
   * a count of seconds just above 2^64 / 1000 comes out as 384 ms and is
   * accepted.
   */
  lemma TtlSecondsWrap(val: nat)
    ensures ParseFlowTtl(DecimalString(18446744073709552) + "s", MIN_FLOW_TTL, MAX_FLOW_TTL, val) == Parsed(0, 384)
  {
    var d := DecimalString(18446744073709552);
    DecimalRoundTrip(18446744073709552);
    StrtoulDigitsThen(d, "s");
    assert Wrap64(18446744073709552 * MS_PER_S) == 384;
  }
}
