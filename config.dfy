/**
 * Validation of the command-line flags into a run configuration (config.go).
 *
 * `time.ParseDuration` and `net.ResolveTCPAddr`/`net.ResolveUDPAddr` are
 * library calls whose results the model does not compute: their results come
 * in as the values of an `Env`, and each may be a failure with a message.
 */
module Config {
  import opened Wrappers
  import Strings

  type Byte = Strings.Byte

  /** The parsed flag values (`cliFlags`). */
  datatype Flags = Flags(
    protocol: string, remotePort: int, localHost: string, localPort: int,
    serverMode: bool, count: int, pattern: string, timeout: string,
    deadline: string, echoPeriod: string, debug: bool, version: bool)

  /**
   * What the library calls return during one `parse`: `time.ParseDuration`
   * on the timeout, echo period and deadline flags (nanoseconds, or Go's
   * error text), and the resolution of the local "host:port" for the protocol.
   */
  datatype Env = Env(
    timeout: Result<int, string>,
    echoPeriod: Result<int, string>,
    deadline: Result<int, string>,
    localAddress: Result<string, string>)

  /** One error per failed check, in the order the checks run. */
  datatype ConfigError =
    | MissingProtocol
    | InvalidProtocol(given: string)
    | InvalidLocalPort(port: int)
    | BadTimeout(cause: string)
    | EmptyTimeout
    | BadLocalAddress(cause: string)
    | MissingRemoteHost
    | MissingRemotePort
    | InvalidRemotePort(port: int)
    | NegativeCount
    | BadEchoPeriod(cause: string)
    | EmptyEchoPeriod
    | BadDeadline(cause: string)
    | EmptyDeadline
    | EmptyPattern

  /** The text `parse` returns for each error. */
  function ErrorText(e: ConfigError): string {
    match e
    case MissingProtocol => "missing protocol"
    case InvalidProtocol(p) => "invalid protocol: " + p
    case InvalidLocalPort(port) => "invalid local port number: " + Strings.Decimal(port)
    case BadTimeout(cause) => "connection timeout: " + cause
    case EmptyTimeout => "connection timeout cannot be empty"
    case BadLocalAddress(cause) => "local address: " + cause
    case MissingRemoteHost => "missing remote host from arguments"
    case MissingRemotePort => "missing remote port number"
    case InvalidRemotePort(port) => "invalid remote port number: " + Strings.Decimal(port)
    case NegativeCount => "number of echo requests" + " cannot be smaller than 0"
    case BadEchoPeriod(cause) => "echo period: " + cause
    case EmptyEchoPeriod => "echo period cannot be empty"
    case BadDeadline(cause) => "read/write deadline: " + cause
    case EmptyDeadline => "read/write deadline cannot be empty"
    case EmptyPattern => "pattern cannot be empty"
  }

  /**
   * The check an error text comes from, read off three of its characters
   * (0 when no check returns such a text).
   */
  function StageOfText(t: string): nat {
    if |t| < 9 then 0
    else match t[0]
      case 'm' => if t[8] == 'p' then 1 else if |t| > 15 && t[15] == 'h' then 5 else 6
      case 'i' => if t[8] == 'p' then 1 else if t[8] == 'l' then 2 else 6
      case 'c' => 3
      case 'l' => 4
      case 'n' => 7
      case 'e' => 8
      case 'r' => 9
      case 'p' => 10
      case _ => 0
  }

  /** The position of the check that reports an error: 1 protocol, 2 local port, ..., 10 pattern. */
  function Stage(e: ConfigError): (k: nat)
    ensures 1 <= k <= 10
  {
    match e
    case MissingProtocol => 1
    case InvalidProtocol(_) => 1
    case InvalidLocalPort(_) => 2
    case BadTimeout(_) => 3
    case EmptyTimeout => 3
    case BadLocalAddress(_) => 4
    case MissingRemoteHost => 5
    case MissingRemotePort => 6
    case InvalidRemotePort(_) => 6
    case NegativeCount => 7
    case BadEchoPeriod(_) => 8
    case EmptyEchoPeriod => 8
    case BadDeadline(_) => 9
    case EmptyDeadline => 9
    case EmptyPattern => 10
  }

  /**
   * `net.JoinHostPort`: a host holding a colon is put in brackets. The
   * ensures clauses only unfold the body for callers; the property of the
   * joined address is `JoinHostPortSplits`.
   */
  function JoinHostPort(host: string, port: string): (r: string)
    ensures ':' in host ==> r == "[" + host + "]:" + port
    ensures ':' !in host ==> r == host + ":" + port
  {
    if ':' in host then "[" + host + "]:" + port else host + ":" + port
  }

  /** The fields of a `config` value; durations are in nanoseconds; a failed resolution leaves no address. */
  datatype Fields = Fields(
    localHost: string, remoteHost: string, localPort: string, remotePort: string,
    protocol: string, serverMode: bool, count: int, infinite: bool,
    timeout: int, deadline: int, echoPeriod: int, pattern: seq<Byte>, debug: bool,
    localAddr: Option<string>, remoteAddr: string)

  /** The zero value `config{}` that `parse` starts from. */
  const ZeroFields := Fields("", "", "", "", "", false, 0, false, 0, 0, 0, [], false, None, "")

  datatype Parsed = Parsed(fields: Fields, err: Option<ConfigError>)

  /** The result of one check: the fields it set, and whether it failed. */
  datatype Step = Pass(fields: Fields) | Fail(fields: Fields, error: ConfigError)

  /** A check's result, read off the fields it left and the error it returned. */
  function Outcome(c: Fields, err: Option<ConfigError>): Step {
    if err.None? then Pass(c) else Fail(c, err.value)
  }

  /** Check 1: the protocol, lower-cased, must be "tcp" or "udp". */
  function CheckProtocol(c: Fields, f: Flags): (r: Step)
    ensures r.Pass? <==> Strings.Lower(f.protocol) in {"tcp", "udp"}
    ensures r.Pass? ==> r.fields == c.(protocol := Strings.Lower(f.protocol))
    ensures r.Fail? ==> r.fields == c && r.error == (if f.protocol == [] then MissingProtocol else InvalidProtocol(f.protocol))
  {
    var p := Strings.Lower(f.protocol);
    if p == "tcp" || p == "udp" then Pass(c.(protocol := p))
    else if |p| == 0 then Fail(c, MissingProtocol)
    else Fail(c, InvalidProtocol(f.protocol))
  }

  /** Check 2: the local port must lie in [0, 65535]; it is kept as its decimal text. */
  function CheckLocalPort(c: Fields, f: Flags): (r: Step)
    ensures r.Pass? <==> 0 <= f.localPort <= 65535
    ensures r.Pass? ==> r.fields == c.(localPort := Strings.Decimal(f.localPort))
  {
    if f.localPort < 0 || f.localPort > 65535 then Fail(c, InvalidLocalPort(f.localPort))
    else Pass(c.(localPort := Strings.Decimal(f.localPort)))
  }

  /** Checks 3, 8 and 9 share a shape: a duration flag must be given and must parse. */
  function ParseDurationFlag(text: string, parsed: Result<int, string>): Result<int, Option<string>> {
    if |text| == 0 then Err(None)
    else match parsed
      case Err(e) => Err(Some(e))
      case Ok(d) => Ok(d)
  }

  /** Check 3: the connection timeout. A failed parse still stores Go's zero duration. */
  function CheckTimeout(c: Fields, f: Flags, env: Env): (r: Step)
    ensures r.Pass? <==> f.timeout != [] && env.timeout.Ok?
  {
    match ParseDurationFlag(f.timeout, env.timeout)
    case Err(None) => Fail(c, EmptyTimeout)
    case Err(Some(e)) => Fail(c.(timeout := 0), BadTimeout(e))
    case Ok(d) => Pass(c.(timeout := d))
  }

  /** Check 4: the local host and port must resolve for the protocol. */
  function CheckLocalAddress(c: Fields, env: Env): (r: Step)
    ensures r.Pass? <==> env.localAddress.Ok?
  {
    match env.localAddress
    case Err(e) => Fail(c.(localAddr := None), BadLocalAddress(e))
    case Ok(a) => Pass(c.(localAddr := Some(a)))
  }

  /** Check 5 (client): the first argument names the remote host. */
  function CheckRemoteHost(c: Fields, args: seq<string>): (r: Step)
    ensures r.Pass? <==> |args| > 0 && args[0] != []
  {
    if |args| > 0 && |args[0]| > 0 then Pass(c.(remoteHost := args[0]))
    else Fail(c, MissingRemoteHost)
  }

  /** Check 6 (client): the remote port must lie in [1, 65535]; the remote address is then joined. */
  function CheckRemotePort(c: Fields, f: Flags): (r: Step)
    ensures r.Pass? <==> 1 <= f.remotePort <= 65535
  {
    if f.remotePort < 1 || f.remotePort > 65535 then
      Fail(c, if f.remotePort == -1 then MissingRemotePort else InvalidRemotePort(f.remotePort))
    else
      var port := Strings.Decimal(f.remotePort);
      Pass(c.(remotePort := port, remoteAddr := JoinHostPort(c.remoteHost, port)))
  }

  /** Check 7 (client): the count must not be negative; zero switches infinite mode on. */
  function CheckCount(c: Fields, f: Flags): (r: Step)
    ensures r.Pass? <==> f.count >= 0
  {
    if f.count >= 0 then Pass(c.(count := f.count, infinite := if f.count == 0 then true else c.infinite))
    else Fail(c, NegativeCount)
  }

  /** Check 8 (client): the echo period. */
  function CheckEchoPeriod(c: Fields, f: Flags, env: Env): (r: Step)
    ensures r.Pass? <==> f.echoPeriod != [] && env.echoPeriod.Ok?
  {
    match ParseDurationFlag(f.echoPeriod, env.echoPeriod)
    case Err(None) => Fail(c, EmptyEchoPeriod)
    case Err(Some(e)) => Fail(c.(echoPeriod := 0), BadEchoPeriod(e))
    case Ok(d) => Pass(c.(echoPeriod := d))
  }

  /** Check 9 (client): the read/write deadline. */
  function CheckDeadline(c: Fields, f: Flags, env: Env): (r: Step)
    ensures r.Pass? <==> f.deadline != [] && env.deadline.Ok?
  {
    match ParseDurationFlag(f.deadline, env.deadline)
    case Err(None) => Fail(c, EmptyDeadline)
    case Err(Some(e)) => Fail(c.(deadline := 0), BadDeadline(e))
    case Ok(d) => Pass(c.(deadline := d))
  }

  /** Check 10 (client): the pattern must not be empty; its bytes are kept. */
  function CheckPattern(c: Fields, f: Flags): (r: Step)
    ensures r.Pass? <==> f.pattern != []
  {
    if |f.pattern| > 0 then Pass(c.(pattern := Strings.Bytes(f.pattern)))
    else Fail(c, EmptyPattern)
  }

  /** Check number `k`: a failure reports an error of its own stage, and the check changes only its own fields. */
  function CheckAt(k: nat, c: Fields, f: Flags, args: seq<string>, env: Env): (r: Step)
    requires 1 <= k <= 10
    ensures r.Fail? ==> Stage(r.error) == k
    ensures EarlierUnchanged(c, r.fields, k) && LaterUnchanged(c, r.fields, k)
  {
    match k
    case 1 => CheckProtocol(c, f)
    case 2 => CheckLocalPort(c, f)
    case 3 => CheckTimeout(c, f, env)
    case 4 => CheckLocalAddress(c, env)
    case 5 => CheckRemoteHost(c, args)
    case 6 => CheckRemotePort(c, f)
    case 7 => CheckCount(c, f)
    case 8 => CheckEchoPeriod(c, f, env)
    case 9 => CheckDeadline(c, f, env)
    case 10 => CheckPattern(c, f)
  }

  /** The checks from number `k` on, stopping at the first failure; server mode stops after check 4. */
  function ChecksFrom(k: nat, c: Fields, f: Flags, args: seq<string>, env: Env): (r: Parsed)
    requires 1 <= k <= 11
    ensures r.err.Some? ==> k <= Stage(r.err.value)
    ensures EarlierUnchanged(c, r.fields, k)
    decreases 11 - k
  {
    if k == 11 then Parsed(c, None)
    else match CheckAt(k, c, f, args, env)
      case Fail(c', e) => Parsed(c', Some(e))
      case Pass(c') =>
        if k == 4 && c'.serverMode then Parsed(c', None)
        else ChecksFrom(k + 1, c', f, args, env)
  }

  /**
   * `parse`: copy the unchecked flags, then run the checks in order from the
   * receiver's fields `c`. The copied flags survive whatever the checks report.
   */
  function ParseSpec(c: Fields, f: Flags, args: seq<string>, env: Env): (r: Parsed)
    ensures r.fields.debug == f.debug && r.fields.serverMode == f.serverMode && r.fields.localHost == f.localHost
  {
    ChecksFrom(1, c.(debug := f.debug, serverMode := f.serverMode, localHost := f.localHost), f, args, env)
  }

  /** The fields set by checks after check `k` still hold their values from `c0`. */
  predicate LaterUnchanged(c0: Fields, c: Fields, k: nat) {
    && (k < 1 ==> c.protocol == c0.protocol)
    && (k < 2 ==> c.localPort == c0.localPort)
    && (k < 3 ==> c.timeout == c0.timeout)
    && (k < 4 ==> c.localAddr == c0.localAddr)
    && (k < 5 ==> c.remoteHost == c0.remoteHost)
    && (k < 6 ==> c.remotePort == c0.remotePort && c.remoteAddr == c0.remoteAddr)
    && (k < 7 ==> c.count == c0.count && c.infinite == c0.infinite)
    && (k < 8 ==> c.echoPeriod == c0.echoPeriod)
    && (k < 9 ==> c.deadline == c0.deadline)
    && (k < 10 ==> c.pattern == c0.pattern)
  }

  /** The fields set by checks before check `k`, and the unchecked ones, still hold their values from `c0`. */
  predicate EarlierUnchanged(c0: Fields, c: Fields, k: nat) {
    && c.debug == c0.debug && c.serverMode == c0.serverMode && c.localHost == c0.localHost
    && (k > 1 ==> c.protocol == c0.protocol)
    && (k > 2 ==> c.localPort == c0.localPort)
    && (k > 3 ==> c.timeout == c0.timeout)
    && (k > 4 ==> c.localAddr == c0.localAddr)
    && (k > 5 ==> c.remoteHost == c0.remoteHost)
    && (k > 6 ==> c.remotePort == c0.remotePort && c.remoteAddr == c0.remoteAddr)
    && (k > 7 ==> c.count == c0.count && c.infinite == c0.infinite)
    && (k > 8 ==> c.echoPeriod == c0.echoPeriod)
    && (k > 9 ==> c.deadline == c0.deadline)
  }

  /** The receiver of `parse`. */
  class Config {
    var localHost: string
    var remoteHost: string
    var localPort: string
    var remotePort: string
    var protocol: string
    var serverMode: bool
    var count: int
    var infinite: bool
    var timeout: int
    var deadline: int
    var echoPeriod: int
    var pattern: seq<Byte>
    var debug: bool
    var localAddr: Option<string>
    var remoteAddr: string

    function Snapshot(): Fields
      reads this
    {
      Fields(localHost, remoteHost, localPort, remotePort, protocol, serverMode, count, infinite,
             timeout, deadline, echoPeriod, pattern, debug, localAddr, remoteAddr)
    }

    /** `config{}`. */
    constructor ()
      ensures Snapshot() == ZeroFields
    {
      localHost, remoteHost, localPort, remotePort, protocol := "", "", "", "", "";
      serverMode, count, infinite := false, 0, false;
      timeout, deadline, echoPeriod := 0, 0, 0;
      pattern, debug, localAddr, remoteAddr := [], false, None, "";
    }

    /** `parse`: copy the unchecked flags, then run the checks in order and stop at the first failure. */
    method Parse(f: Flags, args: seq<string>, env: Env) returns (err: Option<ConfigError>)
      modifies this
      ensures Parsed(Snapshot(), err) == ParseSpec(old(Snapshot()), f, args, env)
    {
      debug := f.debug;
      serverMode := f.serverMode;
      localHost := f.localHost;
      assert ParseSpec(old(Snapshot()), f, args, env) == ChecksFrom(1, Snapshot(), f, args, env);

      err := ParseProtocol(f, args, env);
      if err.Some? {
        return;
      }
      err := ParseLocalPort(f, args, env);
      if err.Some? {
        return;
      }
      err := ParseTimeout(f, args, env);
      if err.Some? {
        return;
      }
      err := ResolveLocalAddress(f, args, env);
      if err.Some? || serverMode {
        return;
      }
      err := ParseClient(f, args, env);
    }

    /** The client-only checks of `parse`, 5 to 10, in order, returning at the first failure. */
    method ParseClient(f: Flags, args: seq<string>, env: Env) returns (err: Option<ConfigError>)
      modifies this
      ensures ChecksFrom(5, old(Snapshot()), f, args, env) == Parsed(Snapshot(), err)
    {
      err := ParseRemoteHost(f, args, env);
      if err.Some? {
        return;
      }
      err := ParseRemotePort(f, args, env);
      if err.Some? {
        return;
      }
      err := ParseCount(f, args, env);
      if err.Some? {
        return;
      }
      err := ParseEchoPeriod(f, args, env);
      if err.Some? {
        return;
      }
      err := ParseDeadline(f, args, env);
      if err.Some? {
        return;
      }
      err := ParsePattern(f, args, env);
    }

    /** The protocol check of `parse`. */
    method ParseProtocol(f: Flags, args: seq<string>, env: Env) returns (err: Option<ConfigError>)
      modifies this
      ensures Outcome(Snapshot(), err) == CheckProtocol(old(Snapshot()), f)
      ensures ChecksFrom(1, old(Snapshot()), f, args, env) == if err.Some? then Parsed(Snapshot(), err) else ChecksFrom(2, Snapshot(), f, args, env)
    {
      var p := Strings.Lower(f.protocol);
      if p == "tcp" || p == "udp" {
        protocol := p;
      } else {
        if |p| == 0 {
          return Some(MissingProtocol);
        } else {
          return Some(InvalidProtocol(f.protocol));
        }
      }
      return None;
    }

    /** The local port check of `parse`. */
    method ParseLocalPort(f: Flags, args: seq<string>, env: Env) returns (err: Option<ConfigError>)
      modifies this
      ensures Outcome(Snapshot(), err) == CheckLocalPort(old(Snapshot()), f)
      ensures ChecksFrom(2, old(Snapshot()), f, args, env) == if err.Some? then Parsed(Snapshot(), err) else ChecksFrom(3, Snapshot(), f, args, env)
    {
      if f.localPort < 0 || f.localPort > 65535 {
        return Some(InvalidLocalPort(f.localPort));
      } else {
        localPort := Strings.Decimal(f.localPort);
      }
      return None;
    }

    /** The connection timeout check of `parse`. */
    method ParseTimeout(f: Flags, args: seq<string>, env: Env) returns (err: Option<ConfigError>)
      modifies this
      ensures Outcome(Snapshot(), err) == CheckTimeout(old(Snapshot()), f, env)
      ensures ChecksFrom(3, old(Snapshot()), f, args, env) == if err.Some? then Parsed(Snapshot(), err) else ChecksFrom(4, Snapshot(), f, args, env)
    {
      if |f.timeout| > 0 {
        var d := env.timeout;
        timeout := if d.Ok? then d.value else 0;
        if d.Err? {
          return Some(BadTimeout(d.error));
        }
      } else {
        return Some(EmptyTimeout);
      }
      return None;
    }

    /** The local address resolution of `parse`. */
    method ResolveLocalAddress(f: Flags, args: seq<string>, env: Env) returns (err: Option<ConfigError>)
      modifies this
      ensures Outcome(Snapshot(), err) == CheckLocalAddress(old(Snapshot()), env)
      ensures ChecksFrom(4, old(Snapshot()), f, args, env) == if err.Some? || serverMode then Parsed(Snapshot(), err) else ChecksFrom(5, Snapshot(), f, args, env)
    {
      var a := env.localAddress;
      localAddr := if a.Ok? then Some(a.value) else None;
      if a.Err? {
        return Some(BadLocalAddress(a.error));
      }
      return None;
    }

    /** The remote host check of `parse` (client mode). */
    method ParseRemoteHost(f: Flags, args: seq<string>, env: Env) returns (err: Option<ConfigError>)
      modifies this
      ensures Outcome(Snapshot(), err) == CheckRemoteHost(old(Snapshot()), args)
      ensures ChecksFrom(5, old(Snapshot()), f, args, env) == if err.Some? then Parsed(Snapshot(), err) else ChecksFrom(6, Snapshot(), f, args, env)
    {
      if |args| > 0 && |args[0]| > 0 {
        remoteHost := args[0];
      } else {
        return Some(MissingRemoteHost);
      }
      return None;
    }

    /** The remote port check of `parse`, and the joined remote address (client mode). */
    method ParseRemotePort(f: Flags, args: seq<string>, env: Env) returns (err: Option<ConfigError>)
      modifies this
      ensures Outcome(Snapshot(), err) == CheckRemotePort(old(Snapshot()), f)
      ensures ChecksFrom(6, old(Snapshot()), f, args, env) == if err.Some? then Parsed(Snapshot(), err) else ChecksFrom(7, Snapshot(), f, args, env)
    {
      if f.remotePort < 1 || f.remotePort > 65535 {
        if f.remotePort == -1 {
          return Some(MissingRemotePort);
        } else {
          return Some(InvalidRemotePort(f.remotePort));
        }
      } else {
        remotePort := Strings.Decimal(f.remotePort);
      }
      remoteAddr := JoinHostPort(remoteHost, remotePort);
      return None;
    }

    /** The count check of `parse` (client mode). */
    method ParseCount(f: Flags, args: seq<string>, env: Env) returns (err: Option<ConfigError>)
      modifies this
      ensures Outcome(Snapshot(), err) == CheckCount(old(Snapshot()), f)
      ensures ChecksFrom(7, old(Snapshot()), f, args, env) == if err.Some? then Parsed(Snapshot(), err) else ChecksFrom(8, Snapshot(), f, args, env)
    {
      if f.count >= 0 {
        count := f.count;
        if count == 0 {
          infinite := true;
        }
      } else {
        return Some(NegativeCount);
      }
      return None;
    }

    /** The echo period check of `parse` (client mode). */
    method ParseEchoPeriod(f: Flags, args: seq<string>, env: Env) returns (err: Option<ConfigError>)
      modifies this
      ensures Outcome(Snapshot(), err) == CheckEchoPeriod(old(Snapshot()), f, env)
      ensures ChecksFrom(8, old(Snapshot()), f, args, env) == if err.Some? then Parsed(Snapshot(), err) else ChecksFrom(9, Snapshot(), f, args, env)
    {
      if |f.echoPeriod| > 0 {
        var d := env.echoPeriod;
        echoPeriod := if d.Ok? then d.value else 0;
        if d.Err? {
          return Some(BadEchoPeriod(d.error));
        }
      } else {
        return Some(EmptyEchoPeriod);
      }
      return None;
    }

    /** The read/write deadline check of `parse` (client mode). */
    method ParseDeadline(f: Flags, args: seq<string>, env: Env) returns (err: Option<ConfigError>)
      modifies this
      ensures Outcome(Snapshot(), err) == CheckDeadline(old(Snapshot()), f, env)
      ensures ChecksFrom(9, old(Snapshot()), f, args, env) == if err.Some? then Parsed(Snapshot(), err) else ChecksFrom(10, Snapshot(), f, args, env)
    {
      if |f.deadline| > 0 {
        var d := env.deadline;
        deadline := if d.Ok? then d.value else 0;
        if d.Err? {
          return Some(BadDeadline(d.error));
        }
      } else {
        return Some(EmptyDeadline);
      }
      return None;
    }

    /** The pattern check of `parse` (client mode). */
    method ParsePattern(f: Flags, args: seq<string>, env: Env) returns (err: Option<ConfigError>)
      modifies this
      ensures Outcome(Snapshot(), err) == CheckPattern(old(Snapshot()), f)
      ensures ChecksFrom(10, old(Snapshot()), f, args, env) == Parsed(Snapshot(), err)
    {
      if |f.pattern| > 0 {
        pattern := Strings.Bytes(f.pattern);
      } else {
        return Some(EmptyPattern);
      }
      return None;
    }
  }

  // ---------------------------------------------------------------------------
  // Properties

  /**
   * The checks from number `k` on report an error of a check at or after `k`
   * and leave the fields of every later check as they were: a failure returns
   * at once. In server mode no check after the fourth runs.
   */
  lemma {:induction false} ChecksStopAtFirstFailure(k: nat, c: Fields, f: Flags, args: seq<string>, env: Env)
    requires 1 <= k <= 11
    ensures var r := ChecksFrom(k, c, f, args, env);
      && (r.err.Some? ==> k <= Stage(r.err.value) && LaterUnchanged(c, r.fields, Stage(r.err.value)))
      && (c.serverMode && k <= 4 ==> (r.err.None? || Stage(r.err.value) <= 4) && LaterUnchanged(c, r.fields, 4))
    decreases 11 - k
  {
    if k < 11 {
      var step := CheckAt(k, c, f, args, env);
      if step.Pass? && !(k == 4 && step.fields.serverMode) {
        ChecksStopAtFirstFailure(k + 1, step.fields, f, args, env);
      }
    }
  }

  /** `parse` returns the first failing check's error and sets no field of a later check; server mode skips the client checks. */
  lemma FailureStopsAtFirstCheck(c: Fields, f: Flags, args: seq<string>, env: Env)
    ensures var r := ParseSpec(c, f, args, env);
      && (r.err.Some? ==> LaterUnchanged(c, r.fields, Stage(r.err.value)))
      && (f.serverMode ==> (r.err.None? || Stage(r.err.value) <= 4) && LaterUnchanged(c, r.fields, 4))
  {
    ChecksStopAtFirstFailure(1, c.(debug := f.debug, serverMode := f.serverMode, localHost := f.localHost), f, args, env);
  }

  /** Only "tcp" or "udp", in any letter case, gets past the protocol check; the lower-case form is kept. */
  lemma ProtocolCheck(c: Fields, f: Flags, args: seq<string>, env: Env)
    ensures var r := ParseSpec(c, f, args, env);
      && (r.err == Some(MissingProtocol) <==> f.protocol == [])
      && (r.err == Some(InvalidProtocol(f.protocol)) <==>
            f.protocol != [] && Strings.Lower(f.protocol) !in {"tcp", "udp"})
      && ((r.err.None? || Stage(r.err.value) > 1) <==> Strings.Lower(f.protocol) in {"tcp", "udp"})
      && ((r.err.None? || Stage(r.err.value) > 1) ==> r.fields.protocol == Strings.Lower(f.protocol))
  {
    var c1 := c.(debug := f.debug, serverMode := f.serverMode, localHost := f.localHost);
    var step := CheckAt(1, c1, f, args, env);
    if step.Pass? {
      ChecksStopAtFirstFailure(2, step.fields, f, args, env);
    }
  }

  /** Past the protocol check, the local port gets through exactly when it lies in [0, 65535]. */
  lemma LocalPortCheck(c: Fields, f: Flags, args: seq<string>, env: Env)
    requires Strings.Lower(f.protocol) in {"tcp", "udp"}
    ensures var r := ParseSpec(c, f, args, env);
      && (r.err == Some(InvalidLocalPort(f.localPort)) <==> !(0 <= f.localPort <= 65535))
      && ((r.err.None? || Stage(r.err.value) > 2) ==> r.fields.localPort == Strings.Decimal(f.localPort))
  {
    var c1 := c.(debug := f.debug, serverMode := f.serverMode, localHost := f.localHost);
    var c2 := CheckAt(1, c1, f, args, env).fields;
    var step := CheckAt(2, c2, f, args, env);
    if step.Pass? {
      ChecksStopAtFirstFailure(3, step.fields, f, args, env);
    }
  }

  /**
   * In client mode, once the remote host is known, the remote port gets
   * through exactly when it lies in [1, 65535]; -1, the flag's default, is
   * reported as missing and any other bad value as invalid.
   */
  lemma RemotePortCheck(c: Fields, f: Flags, args: seq<string>, env: Env)
    requires |args| > 0 && args[0] != []
    ensures var r := ChecksFrom(5, c, f, args, env);
      && (r.err == Some(MissingRemotePort) <==> f.remotePort == -1)
      && (r.err == Some(InvalidRemotePort(f.remotePort)) <==> f.remotePort != -1 && !(1 <= f.remotePort <= 65535))
      && ((r.err.None? || Stage(r.err.value) > 6) <==> 1 <= f.remotePort <= 65535)
      && r.fields.remoteHost == args[0]
  {
    var c6 := CheckAt(5, c, f, args, env).fields;
    var step := CheckAt(6, c6, f, args, env);
    if step.Pass? {
      ChecksStopAtFirstFailure(7, step.fields, f, args, env);
    }
  }

  /**
   * A client configuration that passes every check, starting from `config{}`,
   * has a remote host, a remote port in range, a count of at least zero that
   * is infinite exactly when zero, and the non-empty bytes of the pattern flag.
   */
  lemma ClientSuccess(f: Flags, args: seq<string>, env: Env)
    requires !f.serverMode
    requires ParseSpec(ZeroFields, f, args, env).err.None?
    ensures var c := ParseSpec(ZeroFields, f, args, env).fields;
      && c.protocol in {"tcp", "udp"}
      && |args| > 0 && c.remoteHost == args[0] != []
      && 1 <= f.remotePort <= 65535 && c.remotePort == Strings.Decimal(f.remotePort)
      && c.remoteAddr == JoinHostPort(args[0], Strings.Decimal(f.remotePort))
      && c.count == f.count >= 0 && (c.infinite <==> c.count == 0)
      && c.pattern == Strings.Bytes(f.pattern) && |c.pattern| > 0
  {
  }

  /** In server mode a successful parse leaves the client fields of `config{}` untouched, so the run is never infinite. */
  lemma ServerSuccess(f: Flags, args: seq<string>, env: Env)
    requires f.serverMode
    requires ParseSpec(ZeroFields, f, args, env).err.None?
    ensures var c := ParseSpec(ZeroFields, f, args, env).fields;
      && !c.infinite && c.count == 0 && c.pattern == [] && c.remoteHost == ""
      && c.localAddr.Some? && c.serverMode
  {
  }

  /** Every error text names its check: the check can be read back from the text. */
  lemma StageOfErrorText(e: ConfigError)
    ensures StageOfText(ErrorText(e)) == Stage(e)
  {
    match e
    case InvalidProtocol(p) => LeadOf("invalid protocol: ", p);
    case InvalidLocalPort(port) => LeadOf("invalid local port number: ", Strings.Decimal(port));
    case BadTimeout(cause) => LeadOf("connection timeout: ", cause);
    case BadLocalAddress(cause) => LeadOf("local address: ", cause);
    case InvalidRemotePort(port) => LeadOf("invalid remote port number: ", Strings.Decimal(port));
    case BadEchoPeriod(cause) => LeadOf("echo period: ", cause);
    case BadDeadline(cause) => LeadOf("read/write deadline: ", cause);
    case _ => StageOfFixedText(e);
  }

  /** The error texts without a parameter name their check. */
  lemma StageOfFixedText(e: ConfigError)
    requires e.MissingProtocol? || e.EmptyTimeout? || e.MissingRemoteHost? || e.MissingRemotePort?
          || e.NegativeCount? || e.EmptyEchoPeriod? || e.EmptyDeadline? || e.EmptyPattern?
    ensures StageOfText(ErrorText(e)) == Stage(e)
  {
    var t := ErrorText(e);
    match e
    case MissingProtocol => assert t[0] == 'm' && t[8] == 'p';
    case EmptyTimeout => assert t[0] == 'c';
    case MissingRemoteHost => assert t[0] == 'm' && t[8] == 'r' && t[15] == 'h';
    case MissingRemotePort => assert t[0] == 'm' && t[8] == 'r' && t[15] == 'p';
    case NegativeCount =>
      LeadOf("number of echo requests", " cannot be smaller than 0");
    case EmptyEchoPeriod => assert t[0] == 'e';
    case EmptyDeadline => assert t[0] == 'r';
    case EmptyPattern => assert t[0] == 'p';
  }

  lemma LeadOf(lead: string, rest: string)
    requires |lead| >= 9
    ensures var t := lead + rest;
      |t| >= |lead| && t[0] == lead[0] && t[8] == lead[8] && (|lead| > 15 ==> t[15] == lead[15])
  {
  }

  /** Errors of different checks never share a text, so the printed error tells which check failed. */
  lemma ErrorTextsDistinct(e1: ConfigError, e2: ConfigError)
    requires Stage(e1) != Stage(e2)
    ensures ErrorText(e1) != ErrorText(e2)
  {
    StageOfErrorText(e1);
    StageOfErrorText(e2);
  }

  /**
   * The joined remote address splits back at its last colon: the port comes
   * after it, and the host, bracketed when it holds a colon, comes before it.
   */
  lemma JoinHostPortSplits(host: string, port: string)
    requires ':' !in port
    ensures var r := JoinHostPort(host, port);
      var i := Strings.LastIndexOf(r, ':');
      && 0 <= i && r[i + 1..] == port
      && r[..i] == (if ':' in host then "[" + host + "]" else host)
  {
    var r := JoinHostPort(host, port);
    var pre := if ':' in host then "[" + host + "]" else host;
    assert r == pre + [':'] + port;
    Strings.LastIndexOfAfter(pre, ':', port);
    assert r[..|pre|] == pre;
    assert r[|pre| + 1..] == port;
  }
}
