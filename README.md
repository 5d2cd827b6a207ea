# echotool: a Dafny model of the probe client's bookkeeping

echotool is a TCP/UDP echo client and server. This project models the
sequential logic that surrounds its socket calls and proves properties of it.
There are four parts, one Dafny module each:

- **Client** (`client.dfy`, models `client.go`). Each probe is one
  `sendEcho`. It updates the counters `sent`, `received` and `corrupted` and
  the list of round-trip times. It also decides whether probing stops (end of
  stream, the closed error, a connection reset) or goes on (any other error, a
  timeout among them). `startEcho` counts the probes down in finite mode.
  `getTimeStat` and `printStat` derive min/avg/max and the loss percentage.
  - The class `Client` keeps the Go fields and updates them in place. Its
    methods are proved against the functions `ProbeStep` (one probe) and
    `Run` (the probe loop over a sequence of observed events).
  - Each network exchange is an abstract outcome: a write error, end of
    stream, a read error, or a reply with its bytes and its start and end
    clock readings.
- **Network** (`network.dfy`, models `network.go`). An error chain is unwrapped
  to its innermost cause. The cause is then classified, in this order:
  1. a DNS not-found error;
  2. the errno table, where the first row whose POSIX or Windows code matches wins;
  3. a timeout or the closed error;
  4. otherwise the fallback message.

  `isConnectionReset` is also modelled. Both Go unwrap loops are modelled by
  one method, `Unwrap`, proved against the functional `Cause`; the
  classification is proved in `PrintNetworkError` against `Classify`.
- **Config** (`config.go`). `config.parse` is a method on the class `Config`.
  It runs ten checks in a fixed order and returns the first failing check's
  error. The method is proved against the functional `ParseSpec`, which runs
  `CheckAt(1)` … `CheckAt(10)`. The results of `time.ParseDuration` and of
  address resolution come in as the values of an `Env`, because they are
  library calls that can fail.
- **Cli** (`cli.go`). The help text:
  - `getTypeAndUsage` pulls the type word out of a usage string;
  - `getDefaultValue` builds the default suffix;
  - `getOptions` collects the rows and computes the two column widths;
  - `formatOptions` pads and joins the lines.

  Flags are explicit records, given in the order the help lists them.

`Strings` (`strings.dfy`) holds the ASCII versions of the Go library string
functions the core uses. `Wrappers` (`wrappers.dfy`) holds `Option` and
`Result`.

Three consequences of the code, which the model keeps as written:
- A closed error that also reports a timeout stops probing, because
  `sendEcho` tests `errors.Is(err, net.ErrClosed)`. Its message is
  nevertheless "Connection timed out", because the classifier tests for a
  timeout first (`TimeoutBeforeClosed`).
- A probe whose pattern is longer than the 4096-byte read buffer is always
  counted as corrupted, because one read keeps at most 4096 bytes of the
  reply (`Received`, `LongPatternAlwaysCorrupt`).
- With more than 10000 probes sent, one lost probe floors to a loss of
  0.00 %. So `LossHundredths` is 0 whenever nothing was lost, but the
  converse does not hold.

## Model

| member | source | states |
|---|---|---|
| Network.Cause | network.go:40-42 | the unwrapping reaches an error that is not a wrapper |
| Network.Lookup | network.go:46-52 | the table scan with early `break`: a message it finds is that of a row whose POSIX or Windows code is the code |
| Network.Classify | network.go:44-63 | the message chosen for an innermost cause, branch by branch in source order, is never empty, so the fallback of lines 61-63 always leaves something to print |
| Network.IsClosed | client.go:119-133 | `errors.Is(err, net.ErrClosed)` over the chain holds exactly when the innermost cause is the closed error |
| Network.Unwrap | network.go:40-42 | the unwrap loop ends at exactly the innermost cause `Cause(err)` |
| Network.PrintNetworkError | network.go:32-69 | a nil error prints nothing. Otherwise it prints one line, the classification of the innermost cause, and in debug mode a second line "Error: " + the text of the original, not the unwrapped, error |
| Network.IsConnectionReset | network.go:71-83 | true exactly when the innermost cause is errno 10054 or ECONNRESET |
| Network.CauseIdempotent | network.go:40-42 | unwrapping a cause again changes nothing, and wrapping an error does not change its classification |
| Network.FirstMatchWins | network.go:46-51 | the first table row matching the POSIX or the Windows code gives the message, whatever later rows say |
| Network.LookupFailsIffAbsent | network.go:46-52 | the table search finds nothing exactly when no row matches the code |
| Network.UnknownErrno | network.go:46-63 | an errno absent from the table gives "Unknown network error: <cause>" and never reaches the timeout/closed branch |
| Network.TimeoutBeforeClosed | network.go:53-58 | a net error that reports a timeout gives "Connection timed out", even if it is also the closed error |
| Network.ResetMessage | network.go:71-83 | a cause that `isConnectionReset` accepts is reported as "Connection reset by peer" |
| Network.TableMessages | network.go:16-30 | only row 8 of the table (ECONNRESET) says "Connection reset by peer", and no row says "Connection closed" |
| Network.StopIffClosedOrResetMessage | network.go:53-83 | for any cause that is not both a timeout and the closed error, the client's stop condition (closed or reset) holds exactly when the message is "Connection closed" or "Connection reset by peer" |
| Client.LossHundredths | client.go:173-174 | loss in hundredths of a percent lies in [0, 10000]. It is 0 when nothing was lost, and 10000 exactly when nothing was received |
| Client.LossBounds | client.go:173-174 | floor(10000·lost/sent) lies between 0 and 10000 and reaches 10000 exactly when every probe was lost |
| Client.Received | client.go:113-125 | one read into the 4096-byte buffer keeps a prefix of the reply of at most 4096 bytes, and the whole reply when it fits |
| Client.ProbeStep | client.go:111-147 | one probe always counts as sent, keeps corrupted ≤ received ≤ sent with \|times\| = received, and never stops probing on a reply |
| Client.ReplyLines | client.go:149-164 | `printReply` prints one non-empty line, and a second one for an error in debug mode |
| Client.Run | client.go:88-109 | the ticker loop sends at most one probe per tick, ends on the counter only in finite mode, and ends on a closed peer only after a probe |
| Client.IsTimeStat | client.go:181-214 | the statistics `getTimeStat` promises; whenever there is a sample, min ≤ max |
| Client.Client.constructor | client.go:24-30 | a fresh client has no times and zero counters, and keeps its configuration |
| Client.Client.StartEcho | client.go:88-109 | the loop changes the statistics as `Run` over the observed events does, and returns for the same reason |
| Client.Client.SendEcho | client.go:111-147 | `sent` grows by one whatever happens. The new statistics, the stop decision and the printed lines are those of `ProbeStep` |
| Client.Client.PrintReply | client.go:149-164 | an error reply changes no counter and prints the classified message. A data reply appends `end − start` to `times`, adds one to `corrupted` exactly when the bytes differ from the pattern, and prints OK or CORRUPT |
| Client.Client.GetTimeStat | client.go:181-214 | (0,0,0) for no samples and (t0,t0,t0) for one. Otherwise min and max are samples bounding every sample, avg is the mean floored to hundredths, and min ≤ avg ≤ max |
| Client.Client.PrintStat | client.go:166-179 | nothing for `sent == 0`. Otherwise the counters, lost = sent − received, the floored loss and the time statistics |
| Client.SumBetween | client.go:198-201 | a sum of n samples in [lo, hi] lies in [n·lo, n·hi] |
| Client.AverageBetween | client.go:211 | the floored mean in hundredths lies between 100·lo and 100·hi |
| Client.TimeStatOrdered | client.go:181-214 | every result of `getTimeStat` satisfies min ≤ avg ≤ max |
| Client.ProbeAccounting | client.go:111-160 | one probe adds one to `sent`. Only a reply adds one to `received` and one time to `times`, and it adds one to `corrupted` exactly when the data differ from the pattern. The invariant corrupted ≤ received ≤ sent with \|times\| = received is kept |
| Client.ProbeStopsOnlyWhenGone | client.go:117-146 | a probe stops exactly on end of stream or on a write/read error that is closed or a reset. End of stream is reported as "Connection closed" |
| Client.TimeoutContinues | client.go:132-146 | a read timeout that is not the closed error does not stop probing and counts nothing as received |
| Client.LongPatternAlwaysCorrupt | client.go:113-160 | a pattern longer than the read buffer makes every reply corrupt, whatever the peer sends back |
| Client.RunKeepsConsistent | client.go:88-147 | the bookkeeping invariant holds after any sequence of probes |
| Client.RunProbeBound | client.go:96-102 | in finite mode at most `count` probes are sent, and exactly `count` when the loop ends on the counter |
| Client.RunInfiniteIgnoresCounter | client.go:96 | in infinite mode the counter has no effect and never ends the loop |
| Client.RunExactCount | client.go:96-106 | `count` ticks whose probes do not stop, followed by one more tick, end the loop on the counter with exactly `count` probes sent |
| Config.Stage | config.go:43-130 | each configuration error belongs to one of the ten checks |
| Config.StageOfErrorText | config.go:43-130 | the check that failed can be read back from the error text: each text names its check |
| Config.ErrorTextsDistinct | config.go:43-130 | errors of different checks never share a text |
| Config.JoinHostPortSplits | config.go:96 | the remote address splits back at its last colon into the port after it and the host, bracketed when it holds a colon, before it |
| Config.CheckProtocol | config.go:43-51 | passes exactly for "tcp" or "udp" in any letter case and stores the lower-case form. Otherwise "missing protocol" for an empty value and "invalid protocol" for any other |
| Config.CheckLocalPort | config.go:53-57 | passes exactly for 0 ≤ port ≤ 65535 and stores its decimal text |
| Config.CheckTimeout | config.go:59-66 | passes exactly when the timeout is non-empty and parses as a duration |
| Config.CheckLocalAddress | config.go:68-77 | passes exactly when the local address resolves |
| Config.CheckRemoteHost | config.go:80-84 | passes exactly when there is a non-empty first argument |
| Config.CheckRemotePort | config.go:86-94 | passes exactly for 1 ≤ port ≤ 65535 |
| Config.CheckCount | config.go:98-106 | passes exactly for count ≥ 0 |
| Config.CheckEchoPeriod | config.go:108-115 | passes exactly when the period is non-empty and parses |
| Config.CheckDeadline | config.go:117-124 | passes exactly when the deadline is non-empty and parses |
| Config.CheckPattern | config.go:126-130 | passes exactly when the pattern is non-empty |
| Config.CheckAt | config.go:43-130 | check k reports only errors of stage k and changes only its own fields; the unchecked flags stay as copied |
| Config.ChecksFrom | config.go:43-133 | the checks from k on report only errors of checks at or after k and never touch the fields of earlier checks |
| Config.ParseSpec | config.go:36-134 | `parse` copies the debug, server-mode and local-host flags, and they survive whatever the checks report |
| Config.Config.constructor | config.go:11-34 | a fresh configuration is the zero `config{}` |
| Config.Config.Parse | config.go:36-134 | the fields and the returned error are those of `ParseSpec`, the ten checks in order |
| Config.Config.ParseClient | config.go:79-131 | the client-only checks 5 to 10 run in order and return at the first failure, as `ChecksFrom(5)` does |
| Config.Config.ParseProtocol | config.go:43-51 | performs the protocol check on the fields |
| Config.Config.ParseLocalPort | config.go:53-57 | performs the local-port check on the fields |
| Config.Config.ParseTimeout | config.go:59-66 | performs the timeout check on the fields |
| Config.Config.ResolveLocalAddress | config.go:68-79 | performs the local-address check; server mode stops there |
| Config.Config.ParseRemoteHost | config.go:80-84 | performs the remote-host check |
| Config.Config.ParseRemotePort | config.go:86-96 | performs the remote-port check and sets the remote address |
| Config.Config.ParseCount | config.go:98-106 | performs the count check, with `infinite` set exactly when count is 0 |
| Config.Config.ParseEchoPeriod | config.go:108-115 | performs the echo-period check |
| Config.Config.ParseDeadline | config.go:117-124 | performs the deadline check |
| Config.Config.ParsePattern | config.go:126-130 | performs the pattern check, the last one |
| Config.ChecksStopAtFirstFailure | config.go:36-134 | the error returned comes from a check at or after the first one run, and no later check's fields are set. In server mode nothing after the fourth check runs |
| Config.FailureStopsAtFirstCheck | config.go:36-134 | `parse` returns the first failing check's error and leaves later fields unset. In server mode only the first four checks run |
| Config.ProtocolCheck | config.go:43-51 | "missing protocol" exactly for an empty flag, and "invalid protocol" exactly for a non-empty one other than tcp/udp. Past the check, the lower-case protocol is stored |
| Config.LocalPortCheck | config.go:53-57 | past the protocol check, "invalid local port" is returned exactly when the port is outside [0, 65535] |
| Config.RemotePortCheck | config.go:80-94 | with a remote host, −1 is "missing", any other port outside [1, 65535] is "invalid", and the host is args[0] |
| Config.ClientSuccess | config.go:79-133 | a successful client parse has tcp/udp, host args[0], a port in range, the joined remote address, count ≥ 0 with infinite ⇔ count = 0, and the non-empty bytes of the pattern |
| Config.ServerSuccess | config.go:79-133 | a successful server parse leaves count 0, `infinite` false, no pattern and no remote host |
| Cli.GetTypeAndUsage | cli.go:146-170 | the usage only shrinks. A type is returned only when the usage can hold it between two delimiters |
| Cli.Hidden | cli.go:177-181 | the early-return search finds exactly the names in `hideDefValue` |
| Cli.GetDefaultValue | cli.go:172-184 | "" exactly for an empty default or a hidden flag, and " (default: <val>)" otherwise |
| Cli.CollectOptions | cli.go:115-141 | the rows of the flags in order with the -h row last. nPad and tPad are the greatest flag-name and type lengths |
| Cli.MaxLen | cli.go:129-135 | the running maximum of the loop is at least every length it ran over |
| Cli.Line | cli.go:189-198 | every line has the same width, nPad + tPad + 8, before its usage and default |
| Cli.FormatOptions | cli.go:186-203 | the padded lines, in order, joined by newlines, with no trailing newline |
| Cli.GetOptions | cli.go:114-144 | the widths it computes fit every row, and the text is the joined padded lines of the rows |
| Cli.MaxLenIsMax | cli.go:129-135 | the running maximum bounds every length and is 0 or one of them |
| Cli.CollectedOptionsFit | cli.go:123-190 | with those widths no Repeat count is negative. Flag rows get at least one space after the name and three after the type |
| Cli.TerminatedIsJoined | cli.go:192-202 | lines each followed by "\n", minus the final "\n", are the lines joined by "\n" |
| Cli.JoinCountsNewlines | cli.go:186-203 | the text has one newline fewer than it has lines |
| Cli.LineColumns | cli.go:189-198 | the name starts at column 3, the type at nPad+5 and the usage at nPad+tPad+8 |
| Cli.BacktickMarked | cli.go:147-169 | backtick case: the type is the lower-cased word between the first two backticks, and the usage has every backtick removed and is trimmed |
| Cli.QuoteMarked | cli.go:147-169 | single-quote case: the type is the lower-cased quoted word, and the usage has the quoted word removed and is trimmed |
| Cli.NoTypeWithoutPair | cli.go:152-161 | with fewer than two delimiters the result is ("", usage) unchanged |
| Strings.IndexOfFirst | cli.go:152-158 | `strings.Index` gives −1 exactly when the character is absent, and otherwise its first position |
| Strings.IndexOf | cli.go:152-158 | `strings.Index` of one character gives −1 or a position in the text |
| Strings.RemoveAll | cli.go:163-167 | `strings.ReplaceAll(s, p, "")` never lengthens the text |
| Strings.Lower | cli.go:169 | `strings.ToLower` keeps the length and lower-cases each ASCII letter in place |
| Strings.TrimSpace | cli.go:169 | `strings.TrimSpace` never lengthens the text |
| Strings.TrimSpaceEnds | cli.go:169 | the trimmed text is the slice left after cutting white space from both ends, and it neither starts nor ends with white space |
| Strings.Repeat | cli.go:194-196 | `strings.Repeat` of a space gives exactly n spaces |
| Strings.Bytes | config.go:127 | `[]byte(s)` has between one and four bytes per character |
| Strings.RemoveCharFilters | cli.go:166 | removing a character drops every copy of it and keeps all other characters, in order and with their counts |
| Strings.TrimSpaceStrips | cli.go:169 | trimming removes exactly the leading and trailing white space |
| Strings.LowerIdempotent | cli.go:169 | the lower-cased text has no upper-case letter, and lower-casing twice is lower-casing once |
| Strings.NatDecimalRoundTrip | config.go:56 | the decimal text `strconv.Itoa` gives reads back as the number |
| Strings.BytesOfAscii | config.go:127 | the bytes of an ASCII pattern are its characters, one byte each |

## Left out

- server.go is not part of this model. Its substance is concurrency: a goroutine per connection, a channel to a printer goroutine, and blocking socket calls.
- main.go is not part of this model. It does signal registration and forwards SIGINT.
- The socket plumbing of client.go (`run`, `init`, `close`): the dialer, context, ticker and shutdown goroutine. The write/read calls, their deadlines and `time.Now()` become the `Exchange` outcome of each probe. The ticker and cancellation become the `Event` sequence that `StartEcho` observes.
- Client.Received: one read takes the first bytes of the reply, at most 4096. A read that returns fewer bytes than the peer sent is modelled by a shorter reply. Bytes a read leaves in the socket, which the next probe's read would see, are not modelled.
- Client.Client.StartEcho: a real run ends only on cancellation, the counter or a closed peer. The extra ending `NoMoreEvents` only marks the end of a finite observed event sequence. The lines printed during the loop are not collected.
- Client.Client.PrintStat: returns the numbers of the summary rather than formatting the three printed lines, the upper-cased protocol among them.
- Floating point: `math.Floor` over `float64` for avg and loss is modelled as exact integer hundredths. IEEE rounding is not modelled.
- The int64 times and their int64 total: integers are unbounded, so overflow of the sum is not modelled.
- Network: the errno constants take their Linux values (ECONNRESET = 104 and so on). Windows codes are the table's numbers. Other platforms' values are not modelled.
- Network: Go's error interfaces and type switches are replaced by the `Error` datatype. Only the error kinds it lists are distinguished; a `*net.DNSError` that is not a not-found error goes to the `net.Error` branch, as in Go.
- Config: `time.ParseDuration`, `net.ResolveTCPAddr`/`ResolveUDPAddr` and their error texts are inputs (`Env`). The duration values are carried as integers.
- Config: the separate `addr.localUDP` field is merged into the local address, and so is the typed nil pointer that a failed TCP or UDP resolve leaves behind.
- Cli: the `flag` package (`setFlags`, `Lookup`, defaults), the `text/template` rendering of the help page, `getDefaultPattern` with `os.Hostname`, and `version` are not part of this model.
- Strings: `strings.ToLower` and `strings.TrimSpace` are modelled for ASCII only. Lengths count characters rather than UTF-8 bytes, so the column widths agree with Go only for ASCII flag names and type words.
- Cli.QuoteMarked: covers a usage whose only single quotes are the two enclosing the type word. With more quotes, `GetTypeAndUsage` still models the code, but no lemma characterises the result.
