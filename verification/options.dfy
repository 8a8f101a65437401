/**
 * The application configuration `app_config` and the option loop of
 * `parse_args`. The getopt machinery itself is not modelled: the loop sees
 * the options getopt_long hands back, one `Arg` each, with the numeric
 * arguments already converted by `strtol(optarg, NULL, 0)`.
 */
module Options {
  import opened Width
  import opened CStrings
  import opened FlowParse

  /** `IPV4_MTU_DEFAULT`, i.e. `ETHER_MTU`. */
  const ETHER_MTU: nat := 1500

  /** DPDK log levels: `RTE_LOG_EMERG` is 1, `RTE_LOG_INFO` 7, `RTE_LOG_DEBUG` 8. */
  const RTE_LOG_EMERG: nat := 1
  const RTE_LOG_INFO: nat := 7
  const RTE_LOG_DEBUG: nat := 8

  /** `app_config`; every field is an unsigned C integer, the flags are 1-bit fields. */
  datatype Config = Config(
    maxFlowNum: nat,
    maxFlowTtl: nat,   // milliseconds
    txPps: nat,
    displayPps: nat,
    dump: bool,
    stat: bool,
    gc: bool,
    error: nat,        // 1: drop the last fragment of every datagram
    mtu: nat,
    logLevel: nat,
    count: nat,
    enqFail: nat)

  /** The static initialiser of `app_config`. */
  const DEFAULT: Config := Config(
    maxFlowNum := DEF_FLOW_NUM, maxFlowTtl := DEF_FLOW_TTL, txPps := 1, displayPps := 1,
    dump := false, stat := false, gc := false, error := 0, mtu := ETHER_MTU,
    logLevel := RTE_LOG_INFO, count := 1, enqFail := 0)

  /** The range every option rule enforces, over the whole record. */
  predicate Valid(c: Config) {
    && MIN_FLOW_NUM <= c.maxFlowNum <= MAX_FLOW_NUM
    && MIN_FLOW_TTL <= c.maxFlowTtl <= MAX_FLOW_TTL
    && 0 < c.txPps < U32_MOD
    && 0 < c.displayPps < U32_MOD
    && 0 < c.count < U32_MOD
    && 0 < c.mtu <= ETHER_MTU
    && RTE_LOG_EMERG <= c.logLevel <= RTE_LOG_DEBUG
    && c.error < U32_MOD
  }

  /** The long options of `lgopts`; numeric ones carry `strtol(optarg, NULL, 0)`. */
  datatype LongOption =
    | MaxPktLen(text: seq<char>)
    | MaxFlows(text: seq<char>)
    | FlowTtl(text: seq<char>)
    | TxPps(number: int)
    | Count(number: int)
    | DisplayPps(number: int)
    | Mtu(number: int)
    | Log(number: int)
    | Error(number: int)
    | Dump
    | Stat
    | Gc

  /** What one call of getopt_long returns: a long option, or a short option character (`q`, `?`, ...). */
  datatype Arg = Long(option: LongOption) | Short(letter: char)

  /** The configuration after one option and the status: 0 to go on, negative to stop. */
  datatype Outcome = Outcome(cfg: Config, ret: int)

  /**
   * The rule each option's argument must satisfy, stated on the value as
   * it is stored (numbers truncated to 32 bits). Short options all fail.
   */
  predicate ArgValid(a: Arg) {
    match a
    case Short(_) => false
    case Long(o) =>
      match o
      case MaxFlows(t) => ParseFlowNum(t, MIN_FLOW_NUM, MAX_FLOW_NUM, 0).ret == 0
      case FlowTtl(t) => ParseFlowTtl(t, MIN_FLOW_TTL, MAX_FLOW_TTL, 0).ret == 0
      case TxPps(n) => Wrap32(n) != 0
      case DisplayPps(n) => Wrap32(n) != 0
      case Count(n) => Wrap32(n) != 0
      case Mtu(n) => 0 < Wrap32(n) <= ETHER_MTU
      case Log(n) => RTE_LOG_EMERG <= Wrap32(n) <= RTE_LOG_DEBUG
      case _ => true
  }

  /** The `maxflows` branch: `parse_flow_num` into `max_flow_num`, its status read back as an `int`. */
  function SetMaxFlows(c: Config, t: seq<char>): (r: Outcome)
    ensures r.ret == 0 <==> ParseFlowNum(t, MIN_FLOW_NUM, MAX_FLOW_NUM, 0).ret == 0
    ensures r.ret != 0 ==> r.ret == -(EINVAL as int) && r.cfg == c
    ensures r.ret == 0 ==> r.cfg == c.(maxFlowNum := Strtoul(t).value)
    ensures r.ret == 0 ==> MIN_FLOW_NUM <= r.cfg.maxFlowNum <= MAX_FLOW_NUM
    ensures forall f :: Get(r.cfg, f) == Override(Get(c, f), Given(Long(MaxFlows(t)), f))
  {
    var p := ParseFlowNum(t, MIN_FLOW_NUM, MAX_FLOW_NUM, c.maxFlowNum);
    assert p.ret == ParseFlowNum(t, MIN_FLOW_NUM, MAX_FLOW_NUM, 0).ret;
    Outcome(c.(maxFlowNum := p.val), AsInt32(p.ret))
  }

  /** The `flowttl` branch: `parse_flow_ttl` into `max_flow_ttl`. */
  function SetFlowTtl(c: Config, t: seq<char>): (r: Outcome)
    ensures r.ret == 0 <==> ParseFlowTtl(t, MIN_FLOW_TTL, MAX_FLOW_TTL, 0).ret == 0
    ensures r.ret != 0 ==> r.ret == -(EINVAL as int) && r.cfg == c
    ensures r.ret == 0 ==> r.cfg == c.(maxFlowTtl := Millis(Strtoul(t)))
    ensures r.ret == 0 ==> MIN_FLOW_TTL <= r.cfg.maxFlowTtl <= MAX_FLOW_TTL
    ensures forall f :: Get(r.cfg, f) == Override(Get(c, f), Given(Long(FlowTtl(t)), f))
  {
    var p := ParseFlowTtl(t, MIN_FLOW_TTL, MAX_FLOW_TTL, c.maxFlowTtl);
    assert p.ret == ParseFlowTtl(t, MIN_FLOW_TTL, MAX_FLOW_TTL, 0).ret;
    Outcome(c.(maxFlowTtl := p.val), p.ret)
  }

  /**
   * The numeric branches: the value, truncated to the 32-bit field, is
   * stored first and checked afterwards (`error` is not checked at all).
   */
  function StoreNumber(c: Config, o: LongOption): (r: Outcome)
    requires o.TxPps? || o.DisplayPps? || o.Count? || o.Error? || o.Mtu? || o.Log?
    ensures r.ret == 0 <==> ArgValid(Long(o))
    ensures r.ret == 0 || r.ret == -1
    ensures r.ret == 0 && Valid(c) ==> Valid(r.cfg)
    ensures o.TxPps? ==> r.cfg == c.(txPps := Wrap32(o.number))
    ensures o.DisplayPps? ==> r.cfg == c.(displayPps := Wrap32(o.number))
    ensures o.Count? ==> r.cfg == c.(count := Wrap32(o.number))
    ensures o.Error? ==> r.cfg == c.(error := Wrap32(o.number))
    ensures o.Mtu? ==> r.cfg == c.(mtu := Wrap32(o.number))
    ensures o.Log? ==> r.cfg == c.(logLevel := Wrap32(o.number))
    ensures forall f :: Get(r.cfg, f) == Override(Get(c, f), Given(Long(o), f))
  {
    var v := Wrap32(o.number);
    match o
    case TxPps(_) => Outcome(c.(txPps := v), if v == 0 then -1 else 0)
    case DisplayPps(_) => Outcome(c.(displayPps := v), if v == 0 then -1 else 0)
    case Count(_) => Outcome(c.(count := v), if v == 0 then -1 else 0)
    case Error(_) => Outcome(c.(error := v), 0)
    case Mtu(_) => Outcome(c.(mtu := v), if v == 0 || v > ETHER_MTU then -1 else 0)
    case Log(_) => Outcome(c.(logLevel := v), if v < RTE_LOG_EMERG || v > RTE_LOG_DEBUG then -1 else 0)
  }

  /** The numeric fields of `app_config` that options write. */
  datatype Field = FlowNumField | FlowTtlField | TxPpsField | DisplayPpsField | CountField | ErrorField | MtuField | LogField

  function Get(c: Config, f: Field): nat {
    match f
    case FlowNumField => c.maxFlowNum
    case FlowTtlField => c.maxFlowTtl
    case TxPpsField => c.txPps
    case DisplayPpsField => c.displayPps
    case CountField => c.count
    case ErrorField => c.error
    case MtuField => c.mtu
    case LogField => c.logLevel
  }

  datatype Option<T> = None | Some(value: T)

  /**
   * The value option `a` writes into field `f`, if any: the parsed number
   * for `maxflows` and `flowttl` (written only when the parser accepts it),
   * the 32-bit truncation of the argument for the numeric options (written
   * whether or not it is then accepted).
   */
  function Given(a: Arg, f: Field): Option<nat> {
    match a
    case Short(_) => None
    case Long(o) =>
      match o
      case MaxFlows(t) =>
        if f == FlowNumField && ParseFlowNum(t, MIN_FLOW_NUM, MAX_FLOW_NUM, 0).ret == 0
        then Some(Strtoul(t).value) else None
      case FlowTtl(t) =>
        if f == FlowTtlField && ParseFlowTtl(t, MIN_FLOW_TTL, MAX_FLOW_TTL, 0).ret == 0
        then Some(Millis(Strtoul(t))) else None
      case TxPps(n) => if f == TxPpsField then Some(Wrap32(n)) else None
      case DisplayPps(n) => if f == DisplayPpsField then Some(Wrap32(n)) else None
      case Count(n) => if f == CountField then Some(Wrap32(n)) else None
      case Error(n) => if f == ErrorField then Some(Wrap32(n)) else None
      case Mtu(n) => if f == MtuField then Some(Wrap32(n)) else None
      case Log(n) => if f == LogField then Some(Wrap32(n)) else None
      case _ => None
  }

  function Override(old_: nat, given: Option<nat>): nat {
    if given.Some? then given.value else old_
  }

  /**
   * One pass of the `switch` in `parse_args`. The numeric options store
   * their value before checking it, so a refused value is still in the
   * returned configuration; the two parsers store only on success.
   * `max-pkt-len` matches none of the name comparisons and changes nothing.
   */
  function ApplyArg(c: Config, a: Arg): (r: Outcome)
    ensures r.ret == 0 <==> ArgValid(a)
    ensures r.ret != 0 ==> r.ret == -1 || r.ret == -(EINVAL as int)
    ensures r.ret == 0 && Valid(c) ==> Valid(r.cfg)
    ensures forall f :: Get(r.cfg, f) == Override(Get(c, f), Given(a, f))
    ensures r.cfg.dump == (c.dump || a == Long(Dump))
    ensures r.cfg.stat == (c.stat || a == Long(Stat))
    ensures r.cfg.gc == (c.gc || a == Long(Gc))
    ensures r.cfg.enqFail == c.enqFail
  {
    match a
    case Short(_) => Outcome(c, -1)
    case Long(o) =>
      match o
      case MaxPktLen(_) => Outcome(c, 0)
      case MaxFlows(t) => SetMaxFlows(c, t)
      case FlowTtl(t) => SetFlowTtl(c, t)
      case TxPps(_) => StoreNumber(c, o)
      case DisplayPps(_) => StoreNumber(c, o)
      case Count(_) => StoreNumber(c, o)
      case Error(_) => StoreNumber(c, o)
      case Mtu(_) => StoreNumber(c, o)
      case Log(_) => StoreNumber(c, o)
      case Dump => Outcome(c.(dump := true), 0)
      case Stat => Outcome(c.(stat := true), 0)
      case Gc => Outcome(c.(gc := true), 0)
  }

  /** The option loop: options in order, stopping at the first refused one. */
  function ParseArgsSpec(c: Config, args: seq<Arg>): Outcome
    decreases |args|
  {
    if args == [] then Outcome(c, 0)
    else
      var s := ApplyArg(c, args[0]);
      if s.ret != 0 then s else ParseArgsSpec(s.cfg, args[1..])
  }

  /**
   * `parse_args`' loop over getopt_long. It returns a negative status as soon
   * as one option is refused and 0 (standing for the non-negative `optind - 1`)
   * when every option was accepted.
   */
  method ParseArgs(c0: Config, args: seq<Arg>) returns (c: Config, ret: int)
    ensures Outcome(c, ret) == ParseArgsSpec(c0, args)
  {
    c := c0;
    var i := 0;
    while i < |args|
      invariant 0 <= i <= |args|
      invariant ParseArgsSpec(c, args[i..]) == ParseArgsSpec(c0, args)
    {
      assert args[i..][1..] == args[i + 1..];
      var s := ApplyArg(c, args[i]);
      if s.ret != 0 {
        return s.cfg, s.ret;
      }
      c := s.cfg;
      i := i + 1;
    }
    ret := 0;
  }

  /**
   * `parse_args` fails, with -1 or -EINVAL, exactly when some option breaks
   * its rule.
   */
  lemma {:induction false} ParseArgsRejects(c: Config, args: seq<Arg>)
    ensures ParseArgsSpec(c, args).ret != 0 <==> exists i :: 0 <= i < |args| && !ArgValid(args[i])
    ensures ParseArgsSpec(c, args).ret != 0 ==>
              ParseArgsSpec(c, args).ret == -1 || ParseArgsSpec(c, args).ret == -(EINVAL as int)
    decreases |args|
  {
    if args != [] {
      var s := ApplyArg(c, args[0]);
      if s.ret == 0 {
        ParseArgsRejects(s.cfg, args[1..]);
        if exists i :: 0 <= i < |args| && !ArgValid(args[i]) {
          var i :| 0 <= i < |args| && !ArgValid(args[i]);
          assert i > 0 && !ArgValid(args[1..][i - 1]);
        }
        if exists j :: 0 <= j < |args[1..]| && !ArgValid(args[1..][j]) {
          var j :| 0 <= j < |args[1..]| && !ArgValid(args[1..][j]);
          assert !ArgValid(args[j + 1]);
        }
      }
    }
  }

  /** A configuration that met every rule still does after a successful parse. */
  lemma {:induction false} ParseArgsKeepsValid(c: Config, args: seq<Arg>)
    requires Valid(c)
    ensures ParseArgsSpec(c, args).ret == 0 ==> Valid(ParseArgsSpec(c, args).cfg)
    decreases |args|
  {
    if args != [] {
      var s := ApplyArg(c, args[0]);
      if s.ret == 0 {
        ParseArgsKeepsValid(s.cfg, args[1..]);
      }
    }
  }

  /** The defaults meet every rule, so any accepted command line yields a valid configuration. */
  lemma AcceptedArgsValid(args: seq<Arg>)
    ensures ParseArgsSpec(DEFAULT, args).ret == 0 ==> Valid(ParseArgsSpec(DEFAULT, args).cfg)
  {
    ParseArgsKeepsValid(DEFAULT, args);
  }

  /** After a successful parse, `dump`, `stat` and `gc` are set exactly when given (or set before). */
  lemma {:induction false} ParseArgsFlags(c: Config, args: seq<Arg>)
    ensures var r := ParseArgsSpec(c, args);
      r.ret == 0 ==>
        && (r.cfg.dump <==> c.dump || Long(Dump) in args)
        && (r.cfg.stat <==> c.stat || Long(Stat) in args)
        && (r.cfg.gc <==> c.gc || Long(Gc) in args)
    decreases |args|
  {
    if args != [] {
      var s := ApplyArg(c, args[0]);
      if s.ret == 0 {
        ParseArgsFlags(s.cfg, args[1..]);
        assert args == [args[0]] + args[1..];
        assert Long(Dump) in args <==> args[0] == Long(Dump) || Long(Dump) in args[1..];
        assert Long(Stat) in args <==> args[0] == Long(Stat) || Long(Stat) in args[1..];
        assert Long(Gc) in args <==> args[0] == Long(Gc) || Long(Gc) in args[1..];
      }
    }
  }

  /**
   * The value field `f` holds after the options `args`, starting from
   * `init`: each option that writes `f` replaces what was there.
   */
  function LastGiven(init: nat, args: seq<Arg>, f: Field): nat
    decreases |args|
  {
    if args == [] then init else LastGiven(Override(init, Given(args[0], f)), args[1..], f)
  }

  /** `LastGiven` is the last value given: a later option overrides, and a field nobody sets keeps `init`. */
  lemma {:induction false} LastGivenIsLast(init: nat, args: seq<Arg>, a: Arg, f: Field)
    ensures LastGiven(init, args + [a], f) == Override(LastGiven(init, args, f), Given(a, f))
    ensures (forall i :: 0 <= i < |args| ==> Given(args[i], f) == None) ==> LastGiven(init, args, f) == init
    decreases |args|
  {
    if args == [] {
      assert LastGiven(Override(init, Given(a, f)), [], f) == Override(init, Given(a, f));
    } else {
      assert (args + [a])[1..] == args[1..] + [a];
      LastGivenIsLast(Override(init, Given(args[0], f)), args[1..], a, f);
    }
  }

  /**
   * After a successful parse every numeric field holds the last value an
   * option wrote into it, or its initial value when no option names it.
   */
  lemma {:induction false} ParseArgsFields(c: Config, args: seq<Arg>)
    ensures var r := ParseArgsSpec(c, args);
      r.ret == 0 ==> forall f :: Get(r.cfg, f) == LastGiven(Get(c, f), args, f)
    decreases |args|
  {
    if args != [] {
      var s := ApplyArg(c, args[0]);
      if s.ret == 0 {
        ParseArgsFields(s.cfg, args[1..]);
      }
    }
  }

  /** Numeric options are written before they are checked: a refused `tx_pps` of 0 is left in the record. */
  lemma RefusedTxPpsIsStored(c: Config)
    ensures ApplyArg(c, Long(TxPps(0))) == Outcome(c.(txPps := 0), -1)
    ensures ApplyArg(c, Long(Mtu(1501))) == Outcome(c.(mtu := 1501), -1)
  {
  }
}
