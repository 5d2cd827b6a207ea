/**
 * The echo client's probe bookkeeping (client.go).
 *
 * The socket is not modelled: each probe's write and read come in as an
 * `Exchange`, the abstract outcome of one network round trip, with the
 * clock readings taken around the read. The ticker and the cancellation
 * channel become a sequence of `Event`s that the probe loop consumes.
 * Floating-point results are kept as exact integer hundredths.
 */
module Client {
  import opened Wrappers
  import Network
  import Strings

  type Byte = Strings.Byte

  /** Size of the read buffer: a reply is never longer than this. */
  const BufferSize: nat := 4096

  /** The outcome of one write-then-read round trip. */
  datatype Exchange =
    | WriteFailed(err: Network.Error)
    | ReadEof
    | ReadFailed(err: Network.Error)
      /**
       * `start` and `end` are the millisecond clock readings before and after
       * the read; `data` is the reply the peer sent, of which one read keeps
       * at most `BufferSize` bytes.
       */
    | Replied(start: int, end: int, data: seq<Byte>)

  /** Go's `reply`: either an error, or the clock readings and the bytes read. */
  datatype Reply =
    | ErrorReply(err: Network.Error)
    | DataReply(start: int, end: int, data: seq<Byte>)

  /** The client's `stat` record, without the address string. */
  datatype Stat = Stat(times: seq<int>, sent: int, received: int, corrupted: int)

  /** The bookkeeping invariant of a run. */
  predicate Consistent(s: Stat) {
    0 <= s.corrupted <= s.received <= s.sent && |s.times| == s.received
  }

  /** An error on which `sendEcho` asks the loop to stop: the closed error anywhere in the chain, or a reset cause. */
  predicate StopsOn(err: Network.Error) {
    Network.IsClosed(err) || Network.IsResetCause(Network.Cause(err))
  }

  /** What one read into the `BufferSize`-byte buffer takes of a reply: its first bytes, at most `BufferSize` of them. */
  function Received(data: seq<Byte>): (got: seq<Byte>)
    ensures |got| <= BufferSize && |got| <= |data| && got == data[..|got|]
    ensures |data| <= BufferSize ==> got == data
  {
    if |data| <= BufferSize then data else data[..BufferSize]
  }

  /** What one `sendEcho` does to the statistics, what it reports and whether probing stops. */
  datatype Probe = Probe(stat: Stat, reply: Reply, stop: bool)

  /**
   * One probe: it is always counted as sent, it keeps the bookkeeping
   * invariant, and it never stops probing on a reply.
   */
  function ProbeStep(s: Stat, pattern: seq<Byte>, ex: Exchange): (p: Probe)
    ensures p.stat.sent == s.sent + 1
    ensures Consistent(s) ==> Consistent(p.stat)
    ensures p.stop ==> !ex.Replied?
  {
    var counted := s.(sent := s.sent + 1);
    match ex
    case WriteFailed(err) => Probe(counted, ErrorReply(err), StopsOn(err))
    case ReadEof => Probe(counted, ErrorReply(Network.ErrClosed), true)
    case ReadFailed(err) => Probe(counted, ErrorReply(err), StopsOn(err))
    case Replied(start, end, data) =>
      var got := Received(data);
      var stat := Stat(s.times + [end - start], s.sent + 1, s.received + 1,
                       if pattern != got then s.corrupted + 1 else s.corrupted);
      Probe(stat, DataReply(start, end, got), false)
  }

  /** The lines `printReply` writes for a reply: one non-empty line, and for an error in debug mode a second one. */
  function ReplyLines(addr: string, debug: bool, pattern: seq<Byte>, r: Reply): (lines: seq<string>)
    ensures |lines| == (if r.ErrorReply? && debug then 2 else 1)
    ensures |lines[0]| > 0
  {
    match r
    case ErrorReply(err) =>
      [Network.Classify(Network.Cause(err))] + (if debug then ["Error: " + err.text] else [])
    case DataReply(start, end, data) =>
      ["Reply from " + addr + ", time " + Strings.Decimal(end - start) + " ms, "
       + (if pattern == data then "OK" else "CORRUPT")]
  }

  /** What the probe loop observes: the cancellation signal, or a tick followed by one exchange. */
  datatype Event = Done | Tick(exchange: Exchange)

  /** Why the probe loop returned; `NoMoreEvents` only marks the end of a finite observation. */
  datatype Ending = Cancelled | CountReached | PeerClosed | NoMoreEvents

  datatype Outcome = Outcome(stat: Stat, ending: Ending)

  /**
   * The probe loop of `startEcho`, one event at a time, with the
   * remaining-probe counter. Each tick sends at most one probe, only a finite
   * run ends on the counter, and a closed peer ends the run after a probe.
   */
  function Run(s: Stat, pattern: seq<Byte>, infinite: bool, counter: int, events: seq<Event>): (o: Outcome)
    ensures s.sent <= o.stat.sent <= s.sent + |events|
    ensures o.ending == CountReached ==> !infinite
    ensures o.ending == PeerClosed ==> o.stat.sent > s.sent
    decreases |events|
  {
    if events == [] then Outcome(s, NoMoreEvents)
    else match events[0]
      case Done => Outcome(s, Cancelled)
      case Tick(ex) =>
        if !infinite && counter == 0 then Outcome(s, CountReached)
        else
          var p := ProbeStep(s, pattern, ex);
          if p.stop then Outcome(p.stat, PeerClosed)
          else Run(p.stat, pattern, infinite, if infinite then counter else counter - 1, events[1..])
  }

  function Sum(t: seq<int>): int {
    if t == [] then 0 else Sum(t[..|t| - 1]) + t[|t| - 1]
  }

  /**
   * What `getTimeStat` promises of `times`: zeros for no sample, the sample
   * itself for one, and otherwise the least and greatest sample and the mean
   * floored to hundredths (`avg` is in hundredths of a millisecond).
   */
  ghost predicate IsTimeStat(t: seq<int>, min: int, max: int, avg: int): (r: bool)
    ensures r && |t| > 0 ==> min <= max
  {
    && (|t| == 0 ==> min == 0 && max == 0 && avg == 0)
    && (|t| == 1 ==> min == t[0] && max == t[0] && avg == 100 * t[0])
    && (|t| >= 2 ==>
          && min in t && max in t
          && (forall i :: 0 <= i < |t| ==> min <= t[i] <= max)
          && avg == (100 * Sum(t)) / |t|)
  }

  /** `loss` of `printStat` in hundredths of a percent: floor(10000 * lost / sent). */
  function LossHundredths(sent: int, received: int): (loss: int)
    requires 0 <= received <= sent && sent > 0
    ensures 0 <= loss <= 10000
    ensures received == sent ==> loss == 0
    ensures loss == 10000 <==> received == 0
  {
    var lost := sent - received;
    assert 10000 * lost <= 10000 * sent;
    LossBounds(lost, sent);
    (10000 * lost) / sent
  }

  lemma LossBounds(lost: int, sent: int)
    requires 0 <= lost <= sent && sent > 0
    ensures 0 <= (10000 * lost) / sent <= 10000
    ensures lost == 0 ==> (10000 * lost) / sent == 0
    ensures (10000 * lost) / sent == 10000 <==> lost == sent
  {
    FloorDivBetween(10000 * lost, sent, 0, 10000);
    if lost < sent {
      FloorDivBelow(10000 * lost, sent, 10000);
    } else {
      FloorDivBetween(10000 * lost, sent, 10000, 10000);
    }
  }

  /** Floor division by a positive divisor keeps a strict upper bound. */
  lemma FloorDivBelow(x: int, n: int, b: int)
    requires n > 0 && x < n * b
    ensures x / n < b
  {
    var q := x / n;
    assert q * n <= x;
    assert n * (b - q) > 0;
    MulSign(n, b - q);
  }

  lemma MulSign(n: int, k: int)
    requires n > 0
    ensures k <= 0 ==> n * k <= 0
  {
  }

  /** Floor division by a positive divisor keeps bounds that hold of the dividend. */
  lemma FloorDivBetween(x: int, n: int, lo: int, hi: int)
    requires n > 0 && n * lo <= x <= n * hi
    ensures lo <= x / n <= hi
  {
    var q := x / n;
    assert q * n <= x < q * n + n;
    assert n * lo < n * (q + 1);
    assert n * q <= n * hi;
  }

  /** The closing summary of `printStat`; `loss` and `avg` are in hundredths. */
  datatype Summary = Summary(sent: int, received: int, lost: int, loss: int, corrupted: int,
                             min: int, avg: int, max: int)

  class Client {
    const pattern: seq<Byte>
    const count: int
    const infinite: bool
    const debug: bool
    var addr: string
    var times: seq<int>
    var sent: int
    var received: int
    var corrupted: int

    function Stats(): Stat
      reads this
    {
      Stat(times, sent, received, corrupted)
    }

    predicate Valid()
      reads this
    {
      Consistent(Stats())
    }

    constructor (pattern: seq<Byte>, count: int, infinite: bool, debug: bool, addr: string)
      ensures Valid() && Stats() == Stat([], 0, 0, 0)
      ensures this.pattern == pattern && this.count == count && this.infinite == infinite
      ensures this.debug == debug && this.addr == addr
    {
      this.pattern := pattern;
      this.count := count;
      this.infinite := infinite;
      this.debug := debug;
      this.addr := addr;
      times, sent, received, corrupted := [], 0, 0, 0;
    }

    /** `startEcho`: the ticker loop, counting probes down unless the run is infinite. */
    method StartEcho(events: seq<Event>) returns (ending: Ending)
      requires Valid()
      modifies this
      ensures Valid() && addr == old(addr)
      ensures Outcome(Stats(), ending) == Run(old(Stats()), pattern, infinite, count, events)
    {
      var counter := count;
      var i := 0;
      while i < |events|
        invariant 0 <= i <= |events| && Valid() && addr == old(addr)
        invariant Run(old(Stats()), pattern, infinite, count, events)
               == Run(Stats(), pattern, infinite, counter, events[i..])
      {
        assert events[i..][1..] == events[i + 1..];
        match events[i] {
          case Done =>
            return Cancelled;
          case Tick(ex) =>
            if !infinite {
              if counter == 0 {
                return CountReached;
              } else {
                counter := counter - 1;
              }
            }
            var stop, _ := SendEcho(ex);
            if stop {
              return PeerClosed;
            }
        }
        i := i + 1;
      }
      return NoMoreEvents;
    }

    /** `sendEcho`: count the probe, then fold the exchange into the statistics and report it. */
    method SendEcho(ex: Exchange) returns (stop: bool, lines: seq<string>)
      requires Valid()
      modifies this
      ensures Valid() && addr == old(addr)
      ensures Stats() == ProbeStep(old(Stats()), pattern, ex).stat
      ensures stop == ProbeStep(old(Stats()), pattern, ex).stop
      ensures lines == ReplyLines(addr, debug, pattern, ProbeStep(old(Stats()), pattern, ex).reply)
    {
      sent := sent + 1;
      match ex {
        case WriteFailed(err) =>
          lines := PrintReply(ErrorReply(err));
          var reset := Network.IsConnectionReset(err);
          stop := Network.IsClosed(err) || reset;
        case ReadEof =>
          lines := PrintReply(ErrorReply(Network.ErrClosed));
          stop := true;
        case ReadFailed(err) =>
          lines := PrintReply(ErrorReply(err));
          var reset := Network.IsConnectionReset(err);
          stop := Network.IsClosed(err) || reset;
        case Replied(start, end, data) =>
          received := received + 1;
          lines := PrintReply(DataReply(start, end, Received(data)));
          stop := false;
      }
    }

    /** `printReply`: an error is classified; a reply adds its round-trip time and is checked against the pattern. */
    method PrintReply(r: Reply) returns (lines: seq<string>)
      modifies this
      ensures sent == old(sent) && received == old(received) && addr == old(addr)
      ensures r.ErrorReply? ==> times == old(times) && corrupted == old(corrupted)
      ensures r.DataReply? ==> times == old(times) + [r.end - r.start]
      ensures r.DataReply? ==> corrupted == old(corrupted) + (if pattern != r.data then 1 else 0)
      ensures lines == ReplyLines(addr, debug, pattern, r)
    {
      if r.ErrorReply? {
        lines := Network.PrintNetworkError(Some(r.err), debug);
      } else {
        var echoTime := r.end - r.start;
        times := times + [echoTime];
        var status := "OK";
        if pattern != r.data {
          corrupted := corrupted + 1;
          status := "CORRUPT";
        }
        lines := ["Reply from " + addr + ", time " + Strings.Decimal(echoTime) + " ms, " + status];
      }
    }

    /** `getTimeStat`: min, max and the mean in hundredths, in one pass over `times`. */
    method GetTimeStat() returns (min: int, max: int, avg: int)
      ensures IsTimeStat(times, min, max, avg)
      ensures |times| > 0 ==> 100 * min <= avg <= 100 * max
    {
      var t := times;
      if |t| == 0 {
        return 0, 0, 0;
      }
      if |t| == 1 {
        return t[0], t[0], 100 * t[0];
      }
      min, max := t[0], t[0];
      var total := 0;
      var i := 0;
      while i < |t|
        invariant 0 <= i <= |t|
        invariant total == Sum(t[..i])
        invariant min in t && max in t
        invariant forall k :: 0 <= k < i ==> min <= t[k] <= max
      {
        assert t[..i + 1][..i] == t[..i];
        var v := t[i];
        total := total + v;
        if min > v {
          min := v;
        }
        if max < v {
          max := v;
        }
        i := i + 1;
      }
      assert t[..i] == t;
      avg := (100 * total) / |t|;
      AverageBetween(t, min, max);
    }

    /** `printStat`: nothing before the first probe, otherwise the counts, the loss and the round-trip figures. */
    method PrintStat() returns (summary: Option<Summary>)
      requires Valid()
      ensures sent == 0 <==> summary.None?
      ensures summary.Some? ==>
        && summary.value.sent == sent && summary.value.received == received
        && summary.value.corrupted == corrupted
        && summary.value.lost == sent - received
        && summary.value.loss == LossHundredths(sent, received)
        && IsTimeStat(times, summary.value.min, summary.value.max, summary.value.avg)
    {
      if sent == 0 {
        return None;
      }
      var min, max, avg := GetTimeStat();
      var lost := sent - received;
      var loss := (10000 * lost) / sent;
      summary := Some(Summary(sent, received, lost, loss, corrupted, min, avg, max));
    }
  }

  // ---------------------------------------------------------------------------
  // Properties

  /** The sum of samples that lie between `lo` and `hi` lies between `n * lo` and `n * hi`. */
  lemma {:induction false} SumBetween(t: seq<int>, lo: int, hi: int)
    requires forall i :: 0 <= i < |t| ==> lo <= t[i] <= hi
    ensures |t| * lo <= Sum(t) <= |t| * hi
  {
    if t != [] {
      SumBetween(t[..|t| - 1], lo, hi);
    }
  }

  /** The floored mean of samples lies between their least and greatest. */
  lemma AverageBetween(t: seq<int>, lo: int, hi: int)
    requires |t| > 0
    requires forall i :: 0 <= i < |t| ==> lo <= t[i] <= hi
    ensures 100 * lo <= (100 * Sum(t)) / |t| <= 100 * hi
  {
    var n := |t|;
    SumBetween(t, lo, hi);
    assert n * (100 * lo) <= 100 * Sum(t) <= n * (100 * hi);
    FloorDivBetween(100 * Sum(t), n, 100 * lo, 100 * hi);
  }

  /** Statistics in the form `getTimeStat` promises satisfy min <= avg <= max. */
  lemma TimeStatOrdered(t: seq<int>, min: int, max: int, avg: int)
    requires IsTimeStat(t, min, max, avg)
    ensures 100 * min <= avg <= 100 * max
  {
    if |t| >= 2 {
      AverageBetween(t, min, max);
    }
  }

  /**
   * One probe counts exactly one send whatever happens, counts a receive and
   * one round-trip time exactly on a reply, counts a corruption exactly when
   * the reply differs from the pattern, and keeps the invariant.
   */
  lemma ProbeAccounting(s: Stat, pattern: seq<Byte>, ex: Exchange)
    requires Consistent(s)
    ensures var r := ProbeStep(s, pattern, ex).stat;
      && r.sent == s.sent + 1
      && r.received == s.received + (if ex.Replied? then 1 else 0)
      && r.times == (if ex.Replied? then s.times + [ex.end - ex.start] else s.times)
      && r.corrupted == s.corrupted + (if ex.Replied? && Received(ex.data) != pattern then 1 else 0)
      && Consistent(r)
  {
  }

  /**
   * A probe stops the loop exactly on end of stream, on the closed error and
   * on a reset; any other failure, a timeout among them, lets probing go on.
   */
  lemma ProbeStopsOnlyWhenGone(s: Stat, pattern: seq<Byte>, ex: Exchange)
    ensures ProbeStep(s, pattern, ex).stop <==>
      || ex.ReadEof?
      || ((ex.WriteFailed? || ex.ReadFailed?) && (Network.IsClosed(ex.err) || Network.IsResetCause(Network.Cause(ex.err))))
    ensures ex.ReadEof? ==> ReplyLines("", false, pattern, ProbeStep(s, pattern, ex).reply) == ["Connection closed"]
  {
  }

  /** A read that failed on a timeout, not being the closed error, never ends probing. */
  lemma TimeoutContinues(s: Stat, pattern: seq<Byte>, err: Network.Error)
    requires Network.Cause(err).NetError? && Network.Cause(err).timeout && !Network.Cause(err).closed
    ensures !ProbeStep(s, pattern, ReadFailed(err)).stop
    ensures ProbeStep(s, pattern, ReadFailed(err)).stat.received == s.received
    ensures Network.Classify(Network.Cause(err)) == "Connection timed out"
  {
  }

  /** A pattern longer than the read buffer can never come back intact. */
  lemma LongPatternAlwaysCorrupt(s: Stat, pattern: seq<Byte>, start: int, end: int, data: seq<Byte>)
    requires |pattern| > BufferSize
    ensures ProbeStep(s, pattern, Replied(start, end, data)).stat.corrupted == s.corrupted + 1
  {
  }

  /** The probe loop keeps the bookkeeping invariant. */
  lemma {:induction false} RunKeepsConsistent(s: Stat, pattern: seq<Byte>, infinite: bool, counter: int, events: seq<Event>)
    requires Consistent(s)
    ensures Consistent(Run(s, pattern, infinite, counter, events).stat)
    decreases |events|
  {
    if events != [] && events[0].Tick? && (infinite || counter != 0) {
      var p := ProbeStep(s, pattern, events[0].exchange);
      ProbeAccounting(s, pattern, events[0].exchange);
      if !p.stop {
        RunKeepsConsistent(p.stat, pattern, infinite, if infinite then counter else counter - 1, events[1..]);
      }
    }
  }

  /**
   * In finite mode the loop sends at most `counter` probes, and it returns
   * for the counter only after sending exactly that many.
   */
  lemma {:induction false} RunProbeBound(s: Stat, pattern: seq<Byte>, counter: nat, events: seq<Event>)
    ensures var o := Run(s, pattern, false, counter, events);
      && s.sent <= o.stat.sent <= s.sent + counter
      && (o.ending == CountReached ==> o.stat.sent == s.sent + counter)
    decreases |events|
  {
    if events != [] && events[0].Tick? && counter != 0 {
      var p := ProbeStep(s, pattern, events[0].exchange);
      if !p.stop {
        RunProbeBound(p.stat, pattern, counter - 1, events[1..]);
      }
    }
  }

  /** In infinite mode the counter is never consulted. */
  lemma {:induction false} RunInfiniteIgnoresCounter(s: Stat, pattern: seq<Byte>, c1: int, c2: int, events: seq<Event>)
    ensures Run(s, pattern, true, c1, events) == Run(s, pattern, true, c2, events)
    ensures Run(s, pattern, true, c1, events).ending != CountReached
    decreases |events|
  {
    if events != [] && events[0].Tick? {
      var p := ProbeStep(s, pattern, events[0].exchange);
      if !p.stop {
        RunInfiniteIgnoresCounter(p.stat, pattern, c1, c2, events[1..]);
      }
    }
  }

  /**
   * A finite run whose first `counter` ticks do not end probing performs
   * exactly `counter` probes and returns on the next tick.
   */
  lemma {:induction false} RunExactCount(s: Stat, pattern: seq<Byte>, counter: nat, events: seq<Event>)
    requires |events| > counter
    requires forall i :: 0 <= i <= counter ==> events[i].Tick?
    requires forall i :: 0 <= i < counter ==> !ProbeStep(s, pattern, events[i].exchange).stop
    ensures Run(s, pattern, false, counter, events).ending == CountReached
    ensures Run(s, pattern, false, counter, events).stat.sent == s.sent + counter
    decreases counter
  {
    if counter > 0 {
      var p := ProbeStep(s, pattern, events[0].exchange);
      forall i | 0 <= i < counter - 1
        ensures !ProbeStep(p.stat, pattern, events[1..][i].exchange).stop
      {
        assert !ProbeStep(s, pattern, events[i + 1].exchange).stop;
      }
      RunExactCount(p.stat, pattern, counter - 1, events[1..]);
    }
  }
}
