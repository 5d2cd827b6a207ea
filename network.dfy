/**
 * Classification of socket errors (network.go).
 *
 * Go's error values are replaced by a datatype: a wrapper that unwraps to an
 * inner error, a DNS error, a raw `syscall.Errno`, any other `net.Error`, or
 * an error of no kind the classifier knows. Every value carries the text its
 * `Error()` method returns.
 */
module Network {
  import opened Wrappers

  datatype Error =
    | Wrapped(text: string, inner: Error)
      /** A `*net.DNSError`: the looked-up name, `IsNotFound`, `IsTimeout`. */
    | DnsError(text: string, name: string, notFound: bool, timeout: bool)
      /** A `syscall.Errno`. */
    | Errno(text: string, code: nat)
      /** Any other `net.Error`; `closed` means it is `net.ErrClosed`. */
    | NetError(text: string, timeout: bool, closed: bool)
    | Other(text: string)

  /** `net.ErrClosed`, which the client also reports for a read that hit end of stream. */
  const ErrClosed: Error := NetError("use of closed network connection", false, true)

  /** One row of the errno table: the POSIX code, the Windows code, the shared message. */
  datatype Row = Row(errno: nat, errnoWin: nat, message: string)

  const ECONNRESET: nat := 104
  const WSAECONNRESET: nat := 10054

  /** The table, with the Linux values of the POSIX constants, in source order. */
  const NetworkErrors: seq<Row> := [
    Row(13, 10013, "Permission denied"),
    Row(11, 10035, "Resource temporarily unavailable"),
    Row(90, 10040, "Message too long"),
    Row(98, 10048, "Address already in use"),
    Row(100, 10050, "Network is down"),
    Row(101, 10051, "Network is unreachable"),
    Row(102, 10052, "Network dropped connection on reset"),
    Row(103, 10053, "Software caused connection abort"),
    Row(ECONNRESET, WSAECONNRESET, "Connection reset by peer"),
    Row(110, 10060, "Connection timed out"),
    Row(111, 10061, "Connection refused"),
    Row(112, 10064, "Host is down"),
    Row(113, 10065, "No route to host")
  ]

  const UnknownPrefix := "Unknown network error: "

  // ---------------------------------------------------------------------------
  // Specification

  /** The innermost cause: what `errors.Unwrap` reaches when it is applied until it yields nil. */
  function Cause(e: Error): (c: Error)
    ensures !c.Wrapped?
  {
    if e.Wrapped? then Cause(e.inner) else e
  }

  predicate Matches(row: Row, code: nat) {
    row.errnoWin == code || row.errno == code
  }

  /**
   * The message of the first row whose POSIX or Windows code is `code`: a
   * message found is always that of a row carrying the code.
   */
  function Lookup(rows: seq<Row>, code: nat): (r: Option<string>)
    ensures r.Some? ==> exists i :: 0 <= i < |rows| && Matches(rows[i], code) && rows[i].message == r.value
  {
    if rows == [] then None
    else if Matches(rows[0], code) then Some(rows[0].message)
    else
      var r := Lookup(rows[1..], code);
      if r.Some? then
        var i :| 0 <= i < |rows[1..]| && Matches(rows[1..][i], code) && rows[1..][i].message == r.value;
        assert rows[i + 1] == rows[1..][i];
        r
      else r
  }

  /**
   * The message chosen for an innermost cause, branch by branch in source
   * order. It is never empty, so a message is always printed.
   */
  function Classify(cause: Error): (r: string)
    ensures |r| > 0
  {
    match cause
    case DnsError(_, name, true, _) => "Host not found: " + name
    case Errno(text, code) =>
      (match Lookup(NetworkErrors, code)
       case Some(m) =>
         assert forall i :: 0 <= i < |NetworkErrors| ==> |NetworkErrors[i].message| > 0;
         m
       case None => UnknownPrefix + text)
    case DnsError(text, _, false, timeout) =>
      if timeout then "Connection timed out" else UnknownPrefix + text
    case NetError(text, timeout, closed) =>
      if timeout then "Connection timed out"
      else if closed then "Connection closed"
      else UnknownPrefix + text
    case _ => UnknownPrefix + cause.text
  }

  /**
   * `errors.Is(e, net.ErrClosed)`: some link of the chain is the closed
   * error, which is decided by the innermost cause alone.
   */
  predicate IsClosed(e: Error): (r: bool)
    ensures r <==> Cause(e).NetError? && Cause(e).closed
  {
    match e
    case Wrapped(_, inner) => IsClosed(inner)
    case NetError(_, _, closed) => closed
    case _ => false
  }

  /** A cause that is connection-reset on either platform. */
  predicate IsResetCause(cause: Error) {
    cause.Errno? && (cause.code == WSAECONNRESET || cause.code == ECONNRESET)
  }

  // ---------------------------------------------------------------------------
  // Operations

  /** The unwrap loop shared by both functions of network.go. */
  method Unwrap(err: Error) returns (cause: Error)
    ensures cause == Cause(err)
    ensures !cause.Wrapped?
  {
    cause := err;
    while cause.Wrapped?
      invariant Cause(cause) == Cause(err)
      decreases cause
    {
      cause := cause.inner;
    }
  }

  /**
   * The lines `printNetworkError` writes: none for a nil error, the message
   * for the innermost cause, and in debug mode the original error's text.
   */
  method PrintNetworkError(err: Option<Error>, debug: bool) returns (lines: seq<string>)
    ensures err.None? ==> lines == []
    ensures err.Some? ==> |lines| == (if debug then 2 else 1)
    ensures err.Some? ==> lines[0] == Classify(Cause(err.value))
    ensures err.Some? && debug ==> lines[1] == "Error: " + err.value.text
  {
    if err.None? {
      return [];
    }
    var cause := Unwrap(err.value);
    var msg := "";
    match cause {
      case DnsError(_, name, true, _) =>
        msg := "Host not found: " + name;
      case Errno(_, code) =>
        var i := 0;
        while i < |NetworkErrors|
          invariant 0 <= i <= |NetworkErrors|
          invariant Lookup(NetworkErrors, code) == Lookup(NetworkErrors[i..], code)
          invariant msg == ""
        {
          var row := NetworkErrors[i];
          if row.errnoWin == code || row.errno == code {
            msg := row.message;
            break;
          }
          i := i + 1;
        }
      case DnsError(_, _, false, timeout) =>
        if timeout {
          msg := "Connection timed out";
        }
      case NetError(_, timeout, closed) =>
        if timeout {
          msg := "Connection timed out";
        } else if closed {
          msg := "Connection closed";
        }
      case _ =>
    }
    if |msg| == 0 {
      msg := UnknownPrefix + cause.text;
    }
    lines := [msg];
    if debug {
      lines := lines + ["Error: " + err.value.text];
    }
  }

  /** `isConnectionReset`: the innermost cause is errno 10054 or ECONNRESET. */
  method IsConnectionReset(err: Error) returns (reset: bool)
    ensures reset <==> Cause(err).Errno? && Cause(err).code in {WSAECONNRESET, ECONNRESET}
  {
    var cause := Unwrap(err);
    reset := false;
    if cause.Errno? {
      if cause.code == WSAECONNRESET || cause.code == ECONNRESET {
        reset := true;
      }
    }
  }

  // ---------------------------------------------------------------------------
  // Properties

  /** Unwrapping twice changes nothing: the innermost cause is its own cause. */
  lemma {:induction false} CauseIdempotent(e: Error)
    ensures Cause(Cause(e)) == Cause(e)
    ensures Classify(Cause(Wrapped("", e))) == Classify(Cause(e))
  {
    if e.Wrapped? {
      CauseIdempotent(e.inner);
    }
  }

  /** The first row in table order that carries the code gives the message. */
  lemma {:induction false} FirstMatchWins(rows: seq<Row>, code: nat, i: nat)
    requires i < |rows| && Matches(rows[i], code)
    requires forall j :: 0 <= j < i ==> !Matches(rows[j], code)
    ensures Lookup(rows, code) == Some(rows[i].message)
  {
    if i > 0 {
      FirstMatchWins(rows[1..], code, i - 1);
    }
  }

  /** The lookup fails exactly when no row carries the code on either platform. */
  lemma {:induction false} LookupFailsIffAbsent(rows: seq<Row>, code: nat)
    ensures Lookup(rows, code).None? <==> forall i :: 0 <= i < |rows| ==> !Matches(rows[i], code)
  {
    if rows != [] {
      LookupFailsIffAbsent(rows[1..], code);
      if !Matches(rows[0], code) {
        forall i | 0 < i < |rows| ensures Matches(rows[i], code) <==> Matches(rows[1..][i - 1], code) {}
      }
    }
  }

  /** An errno found in no row is reported as unknown; it never reaches the timeout or closed branch. */
  lemma UnknownErrno(text: string, code: nat)
    requires forall i :: 0 <= i < |NetworkErrors| ==> !Matches(NetworkErrors[i], code)
    ensures Classify(Errno(text, code)) == UnknownPrefix + text
  {
    LookupFailsIffAbsent(NetworkErrors, code);
  }

  /** A net error that both timed out and is the closed error is reported as a timeout. */
  lemma TimeoutBeforeClosed(e: Error)
    requires Cause(e).NetError? && Cause(e).timeout
    ensures Classify(Cause(e)) == "Connection timed out"
  {
  }

  /** A reset cause is reported as "Connection reset by peer" on either platform. */
  lemma ResetMessage(e: Error)
    requires IsResetCause(Cause(e))
    ensures Classify(Cause(e)) == "Connection reset by peer"
  {
    var code := Cause(e).code;
    assert forall j :: 0 <= j < 8 ==> !Matches(NetworkErrors[j], code);
    FirstMatchWins(NetworkErrors, code, 8);
  }

  /** Only the reset row carries the reset message, and no row says "Connection closed". */
  lemma TableMessages(i: nat)
    requires i < |NetworkErrors|
    ensures NetworkErrors[i].message == "Connection reset by peer" ==> i == 8
    ensures NetworkErrors[i].message != "Connection closed"
  {
  }

  /**
   * The condition on which the client stops probing (closed or reset) holds
   * exactly when the message is "Connection closed" or "Connection reset by
   * peer", for every cause that is not both a timeout and the closed error.
   */
  lemma StopIffClosedOrResetMessage(e: Error)
    requires !(Cause(e).NetError? && Cause(e).timeout && Cause(e).closed)
    ensures IsClosed(e) || IsResetCause(Cause(e))
        <==> Classify(Cause(e)) in {"Connection closed", "Connection reset by peer"}
  {
    var c := Cause(e);
    if IsResetCause(c) {
      ResetMessage(e);
    } else if !IsClosed(e) {
      var m := Classify(c);
      match c
      case DnsError(_, name, true, _) =>
        assert m[0] == 'H';
      case Errno(text, code) =>
        if Lookup(NetworkErrors, code).Some? {
          var i :| 0 <= i < |NetworkErrors| && Matches(NetworkErrors[i], code) && NetworkErrors[i].message == m;
          TableMessages(i);
        } else {
          assert m[0] == 'U';
        }
      case DnsError(_, _, false, _) =>
        assert m == "Connection timed out" || m[0] == 'U';
      case NetError(_, _, _) =>
        assert m == "Connection timed out" || m[0] == 'U';
      case Other(_) =>
        assert m[0] == 'U';
      case Wrapped(_, _) =>
    }
  }
}
