# A verified model of the port_scanner TCP scanner

This project models the core of a small Python 2 TCP port scanner in Dafny.

**Ports and chunks.** The command line gives a port list such as `22,80,1000-1010`. The scanner turns it into a set of ports (`port_list_from_string`). A chunker hands those ports out in chunks: the first-class ports 80 and 443 go first, on their own. Next come the eighteen second-class ports, each chunk topped up from the main pool. Last come chunks of 10 to 20 ports from the main pool. Every drawn port leaves its pool for good.

**Probes.** For each chunk the scanner opens one non-blocking socket (a probe) per port that has no result yet or was Filtered. It uses `select` to reap the probes whose sockets become writable while the time budget lasts. Every probe still pending after that is recorded as Filtered. Each chunk is polled twice, forward and then reversed.

**The prototype.** An earlier single-file version (`test_select.py`) follows the same design, with these differences:
- it does not validate ports;
- its mixed chunk asks for only `lower_bound / 2` second-class ports;
- its chunker lets bad bounds reach `random.sample`/`random.randint`, which raise;
- its probe treats EINVAL from `getpeername` as unknown rather than open.

**Layout.**
- `values.dfy`: results, errno codes, `os.name`, and which rule set applies (package or prototype).
- `wrappers.dfy`: Option, Result, Outcome.
- `sampling.dfy`: `random.sample`, `random.shuffle`, `random.randint` and set iteration, each as a nondeterministic choice pinned down by its contract.
- `chunker.dfy` and `prototype_chunker.dfy`: the two chunkers. Each is a class whose pools are fields, with the pool operations as methods on set values.
- `probe.dfy` and `prototype_probe.dfy`: the connect and classification rules as functions, and the probe as a class.
- `scanner.dfy`: the scanner as a class with `resultsMap`. Polling is a loop over `select` and a loop over the leftover descriptors.
- `port_list.dfy`: the command-line port-list parser.

The network is a fixed oracle, `Scanner.Network`. For each port it gives:
- the code `connect_ex` returns;
- the socket's SO_ERROR once it is writable;
- the outcome of `getpeername`.

`select` returns an arbitrary subset of the pending descriptors. The poll's time budget is a natural number that every `select` strictly lowers.

Points worth knowing when reading the model:
- **HighestPortNumber is 65335, not 65535.** `HIGHEST_PORT_NUMBER` is 65335 in both `port_scanner/chunker.py:10` and `test_select.py:29`. The model keeps that value, `Chunker.HighestPortNumber`. Validation therefore silently drops ports 65336 to 65535, including part of the command line's default range `1-65535`.
- **Unknown can be recorded.** `analyze` can return RESULT_UNKNOWN (getpeername gives ENOTCONN, or SO_ERROR is some other code). `poll` stores that value like any other, so a scan can record Unknown. `Scanner.Recorded` allows it.
- **The "at most half" comment does not hold.** The package's comment says second-class ports make up at most half of a mixed chunk. It asks for `lower_bound / 2 + 1` of them, so whenever the second-class pool can supply that many, they make up more than half of the chunk (`Chunker.SecondClassPortsExceedHalf`).
- **Out-of-range ports raise in the prototype.** The prototype never validates ports, and `connect_ex` raises OverflowError for a port outside 0..65535 before anything reaches the network. A prototype scan of such a port therefore always raises (`Scanner.PortScanner.ScanPrototypeChunks`). The package's validation keeps every scanned port within 1..65335, so its scans never meet this error (`Chunker.PortIsValid`).
- **A minus sign is always the range hyphen.** A section containing `-` is always treated as a range, so `int()` never sees a minus sign and no parsed port is negative (`PortList.ParsedPortsNonNegative`).

## Model

| member | source | states |
|---|---|---|
| Chunker.BoundsAreValid | port_scanner/chunker.py:30-34 | the bounds are valid exactly when some size lies between them and the lower one is not negative |
| Chunker.PortSetIntersection | port_scanner/chunker.py:37-40 | a port is in the result exactly when it is in both pools, so the result lies within each |
| Chunker.PortIsValid | port_scanner/chunker.py:55-56 | a valid port is a TCP port other than 0, so connect never overflows on it; the TCP ports 65336 to 65535 are refused |
| Chunker.PortPoolIsEmpty | port_scanner/chunker.py:108-111 | a pool is empty exactly when it holds no port |
| Chunker.SecondClassPortsExceedHalf | port_scanner/chunker.py:166-176 | whenever the second-class pool can meet the draw size `lower // 2 + 1`, second-class ports make up more than half of the mixed chunk, contrary to the comment at line 168 |
| Chunker.MixedChunkTakesSecondClassPort | port_scanner/chunker.py:166-176 | while the second-class pool is non-empty, a mixed chunk holds at least one second-class port |
| Chunker.RandomChunkSize | port_scanner/chunker.py:43-52 | raises ChunkBoundsError carrying both bounds exactly when the bounds are invalid (negative lower, or lower > upper); otherwise the size lies between the bounds |
| Chunker.ValidatePortList | port_scanner/chunker.py:59-67 | the pool is exactly the listed ports within 1..HighestPortNumber, duplicates collapsed |
| Chunker.RemovePortsFromPool | port_scanner/chunker.py:70-84 | succeeds iff the ports are distinct and all in the pool, and then removes exactly them; otherwise it reports the first port no longer present, with the removals before it applied |
| Chunker.DrawFromPool | port_scanner/chunker.py:87-105 | draws min(size, pool size) distinct pool ports (a negative size counts as 0) and the new pool is the old one minus the drawing |
| Chunker.FullDrawingDrainsPool | port_scanner/chunker.py:94 | a drawing as large as the pool is the whole pool and leaves it empty |
| Chunker.DrawKeepsPartition | port_scanner/chunker.py:132-182 | taking a chunk out of the pools and recording it as drawn keeps the three pools and the drawn ports a partition of the validated ports |
| Chunker.PortChunker.constructor | port_scanner/chunker.py:132-141 | the pools split the validated ports into first-class, second-class (not first-class) and the rest |
| Chunker.PortChunker.GetChunk | port_scanner/chunker.py:143-182 | fails with ChunkBoundsError iff the bounds are invalid; None iff every pool is empty; otherwise a distinct chunk taken from the pools in strict tier order (first-class alone, sized min(lower, first-class pool size); then a mixed chunk; then a random size between the bounds from the main pool), never repeating a port drawn before; empty only when lower is 0 |
| Chunker.DrawChunk | port_scanner/chunker.py:159-182 | the tiered drawing on the three pools as values, with each tier's size and source pool, and None exactly when all pools are empty |
| Chunker.DrawMixedChunk | port_scanner/chunker.py:166-176 | min(lower // 2 + 1, second-class pool size) second-class ports plus, while that leaves room below lower, as many main-pool ports as fit, distinct and shuffled, removed from their pools |
| PrototypeChunker.RandomChunkSize | test_select.py:35-36 | random.randint raises iff lower > upper, otherwise returns a size between the bounds |
| PrototypeChunker.DrawFromPool | test_select.py:59-64 | raises iff the size is negative (pool unchanged); otherwise draws min(size, pool size) distinct ports and removes them |
| PrototypeChunker.DrawMixedChunk | test_select.py:77-84 | raises iff lower < 0; otherwise min(lower // 2, second-class pool size) second-class ports topped up from the main pool |
| PrototypeChunker.DrawChunk | test_select.py:69-89 | the prototype's tiers on pool values: a raise leaves every pool unchanged; None iff all pools are empty; per tier, when it raises and what it draws |
| PrototypeChunker.EmptyMixedChunkBound | test_select.py:77-84 | an empty mixed chunk from a non-empty second-class pool means lower is 0 or 1 |
| PrototypeChunker.MixedChunkMayBeEmpty | test_select.py:77-84 | with lower 1 and an empty main pool, the mixed chunk is empty however many second-class ports remain |
| PrototypeChunker.PortChunker.constructor | test_select.py:44-53 | the pools split the unvalidated input into first-class, second-class and the rest |
| PrototypeChunker.PortChunker.GetChunk | test_select.py:69-89 | None iff every pool was empty; a raise draws nothing; a chunk is distinct, new and removed from its pools; with valid bounds and ports left it never raises; a negative lower with first- or second-class ports left always raises |
| Probe.Connect | port_scanner/probe.py:16-33 | connect returns iff connect_ex reports a connection made (0, EISCONN) or under way (EINPROGRESS, EALREADY, EWOULDBLOCK, or EINVAL on nt/ce); otherwise it raises socket.error with that code |
| Probe.Classify | port_scanner/probe.py:79-103 | Open iff SO_ERROR is 0 and getpeername succeeds or fails with EINVAL; Closed iff ECONNREFUSED; Filtered iff ETIMEDOUT; Unknown for ENOTCONN or any other SO_ERROR; raises the getpeername error otherwise |
| PrototypeProbe.Connect | test_select.py:106-115 | the prototype's connect: the same codes return, every other code raises socket.error |
| PrototypeProbe.Classify | test_select.py:120-141 | the prototype's analyze: like the package's except that getpeername EINVAL leaves the port Unknown |
| Probe.ConnectRulesAgree | test_select.py:106-115 | the package's connect accepts and raises exactly as the prototype's does |
| Probe.ClassifyRulesDiffer | port_scanner/probe.py:84-95 | the two classifications differ on exactly one report, SO_ERROR 0 with getpeername EINVAL: Open in the package, Unknown in the prototype |
| Probe.ClassifySettlesRefusalAndTimeout | port_scanner/probe.py:79-103 | under either rule set a probe can raise only when SO_ERROR is 0, and ETIMEDOUT and ECONNREFUSED always settle the port |
| Probe.PortProbe.constructor | port_scanner/probe.py:67-74 | a new probe holds its port and descriptor, result Unknown, socket open |
| Probe.PortProbe.Analyze | port_scanner/probe.py:79-103 | a known result is returned without touching the socket; on a closed socket the query raises EBADF; otherwise the classification is returned and kept unless it raised |
| Probe.PortProbe.Close | port_scanner/probe.py:76-77 | the socket is closed and the result is kept |
| Probe.Launch | port_scanner/probe.py:67-74 | a probe exists iff connect does not raise, and then it is fresh, Unknown and open; a port outside 0..65535 always raises OverflowError, whatever the network answers; otherwise connect's socket.error is raised |
| Probe.ConnectTo | test_select.py:106-115 | `connect_ex` raises OverflowError exactly for ports outside 0..65535; on the other ports the rule set's connect decides |
| Scanner.ReversePortChunk | port_scanner/scanner.py:21-24 | position i of the result holds position n-1-i of the chunk |
| Scanner.ReverseTwice | port_scanner/scanner.py:21-24 | reversing twice gives back the chunk |
| Scanner.ReverseSameMultiset | port_scanner/scanner.py:21-24 | reversal keeps every port with its number of occurrences |
| Scanner.ReverseSamePorts | port_scanner/scanner.py:128-130 | the reversed chunk covers the same ports, and repeats none if the chunk repeats none |
| Scanner.UnusedDescriptorExists | port_scanner/scanner.py:71-72 | some non-negative descriptor is always free, so keys of `fd_map` never collide |
| Scanner.PortScanner.constructor | port_scanner/scanner.py:44-51 | a scanner keeps address and port list and starts with empty results |
| Scanner.PortScanner.Clear | port_scanner/scanner.py:136-139 | the results are empty afterwards |
| Scanner.PortScanner.LaunchProbes | port_scanner/scanner.py:53-74 | a probe is opened for exactly the chunk's ports with no result or a Filtered one, each under its own descriptor; it raises iff such a port's connect raises, and then with the error of the first one in chunk order |
| Scanner.PortScanner.Reap | port_scanner/scanner.py:98-103 | records the probe's verdict and closes it; when analyze raises, results and probe are unchanged |
| Scanner.PortScanner.Poll | port_scanner/scanner.py:76-112 | the chunk is appended to the log of polled chunks; every probed port ends up with a result that is its verdict (reaped) or Filtered (timed out), and its probe was created without a raise; other entries are unchanged, nothing is reaped with no time budget, and it raises only with a probed port's own error; on success the whole chunk has results |
| Scanner.PortScanner.PollProbes | port_scanner/scanner.py:90-109 | after the select loop and the sweep, every launched probe is reaped or timed out, and closed, unless one raises |
| Scanner.PortScanner.AwaitProbes | port_scanner/scanner.py:93-103 | the select loop: with no budget nothing is reaped; otherwise the reaped probes are closed and recorded with their verdicts, and the rest are still pending |
| Scanner.PortScanner.ReapReady | port_scanner/scanner.py:98-103 | reaping the descriptors select returned keeps the bookkeeping of reaped and pending probes, or raises with one of their verdict errors |
| Scanner.PortScanner.Sweep | port_scanner/scanner.py:105-109 | every descriptor still pending is recorded Filtered and closed, and nothing else changes |
| Scanner.PortScanner.TimeOutAll | port_scanner/scanner.py:105-109 | the sweep loop over the pending descriptors in set order records each Filtered and closes it |
| Scanner.PortScanner.TimeOut | port_scanner/scanner.py:106-109 | one pending probe is recorded Filtered and closed |
| Scanner.PortScanner.Run | port_scanner/scanner.py:114-134 | results cover only the scanned ports (validated by the package, as given by the prototype) and each is Filtered or the port's verdict; on success every scanned port has a result; a raise carries the error of some scanned port; if no scanned port can raise, the run succeeds, and if some scanned port's connect raises (an out-of-range port in particular), the run raises; the poll log is each drawn chunk followed by its reversal, the chunks being non-empty, disjoint and, on success, covering the scanned ports; a raise comes after the last chunk's first or second poll |
| Scanner.PortScanner.PollTwice | port_scanner/scanner.py:128-130 | the chunk is polled forward and then reversed (the log grows by exactly those two, or by the first alone when it raised); the polls add exactly its ports on success and keep every result a verdict or Filtered |
| Scanner.PortScanner.ScanChunks | port_scanner/scanner.py:125-134 | the package's loop over chunks ends with every validated port recorded, or raises with a scanned port's error; the log holds each drawn chunk then its reversal |
| Scanner.PortScanner.ScanPrototypeChunks | test_select.py:192-203 | the prototype's loop over chunks ends with every listed port recorded, or raises with a listed port's error; a listed port outside 0..65535 makes it raise; the log holds each drawn chunk then its reversal |
| Scanner.PortScanner.ScanFrom | port_scanner/scanner.py:127-132 | from the chunk in hand, the loop ends with every validated port recorded and the log extended by each chunk and its reversal, or raises with a validated port's error |
| Scanner.PortScanner.ScanPrototypeFrom | test_select.py:196-202 | the same loop over the prototype's chunker |
| Scanner.NextChunk | port_scanner/scanner.py:126 | `get_chunk()` with bounds 10 and 20 never raises; a chunk is new ports and shrinks what remains, and None means every validated port was drawn |
| Scanner.NextPrototypeChunk | test_select.py:196 | the same for the prototype's chunker |
| Scanner.SweepAfterReaping | port_scanner/scanner.py:98-109 | a reaping step followed by a sweep gives poll's account of the results |
| Scanner.ChunkLoopAdvances | port_scanner/scanner.py:127-132 | after a chunk has been polled, drawing the next keeps the loop invariant that results cover exactly the ports drawn before the current chunk |
| Sampling.ListOfSet | port_scanner/scanner.py:105 | iterating a set yields each member once |
| Sampling.Sample | port_scanner/chunker.py:103 | random.sample raises for a negative size or one above the population size, and otherwise returns that many distinct members of the population |
| Sampling.Shuffle | port_scanner/chunker.py:176 | random.shuffle only reorders |
| Sampling.RandInt | port_scanner/chunker.py:52 | random.randint raises iff the range is empty, otherwise returns a value in it |
| PortList.Split | portscanner.py:25 | `str.split`: at least one piece, none holding the separator, one piece exactly when the separator is absent |
| PortList.JoinSplit | portscanner.py:25 | joining the pieces with the separator gives back the string |
| PortList.SplitJoin | portscanner.py:25 | splitting undoes joining separator-free pieces |
| PortList.ParseIntIff | portscanner.py:29 | `int(s)` reads v exactly when s is whitespace, an optional `+` or `-`, digits worth v with that sign, and whitespace; every other string is rejected |
| PortList.ParseNatToString | portscanner.py:29 | `int(str(n)) == n`, also with any whitespace before and after the digits |
| PortList.PortListFromString | portscanner.py:20-46 | fails iff some section fails, with the error of the first failing section; otherwise returns distinct ports that are exactly the union of the sections' ports |
| PortList.ParsedPortsFailureSticks | portscanner.py:26-32 | once a section fails, the sections after it change nothing |
| PortList.ParsedPortsExtend | portscanner.py:26-44 | one more section either fails the whole list with its own error or adds its ports |
| PortList.SinglePortSection | portscanner.py:27-32 | a section that is a plain number is that one port |
| PortList.RangeSection | portscanner.py:33-44 | "a-b" with a and b runs of digits is every port from a to b, and an invalid range exactly when a > b |
| PortList.ExtraHyphenIgnored | portscanner.py:34-37 | "x-y-rest" gives the same ports as "x-y", or fails the same way |
| PortList.MissingNumberIsSyntaxError | portscanner.py:33-39 | an empty section, "-n" and "n-" are syntax errors |
| PortList.EmptyPortStringFails | portscanner.py:25-32 | an empty port string is one empty section, hence a syntax error |
| PortList.ParsedPortsNonNegative | portscanner.py:26-44 | no parsed port is negative |

## Left out

- Sockets, `select`, the clock and `time.sleep` are not modelled. The network is an oracle fixed for the whole run. `select` returns any subset of the pending descriptors, and the time budget is a natural number that each `select` lowers, with no real time attached.
- Name resolution (`gethostbyname`) and InvalidHostError (port_scanner/scanner.py:45-48) are left out: the constructor takes a resolved address.
- Output is left out: `print_results`, `handle_args`, the `main` of portscanner.py, and the helpers in probe.py that only configure a socket (`create_tcp_socket`, `setup_tcp_socket`). The error messages written to stderr are left out too. `exit_failure` is modelled as a Failure result that carries the offending section.
- The pools that the source mutates in place inside `draw_from_pool` and `remove_ports_from_pool` are passed and returned as set values. The chunker's fields are then reassigned.
- PrototypeChunker.PortChunker.GetChunk: the prototype's `remove_ports_from_pool` raises KeyError for a missing port, but its callers only remove ports they just sampled, so that path cannot be reached and is not modelled.
- Set iteration order is arbitrary: `Sampling.ListOfSet` gives some order of the set, and `port_list_from_string`'s `list(set(...))` is modelled the same way.
- PortList.ParseInt, PortList.ParseIntIff: models `int()` on strings of ASCII digits with an optional sign and surrounding ASCII whitespace. Other forms Python 2 accepts are not modelled: Unicode digits, and whitespace between the sign and the digits.
- Scanner.PortScanner.Run: a raise ends the run and the probes still open are not closed. The model does not say which probes that leaves open.
- Scanner.PortScanner.Run: the prototype's `run` returns None and the package's returns the results map. The model leaves the results in `resultsMap` for both.
- Probe.Connect, PrototypeProbe.Connect: the message of the raised socket.error comes from `errno.errorcode[err]`. For a number that table lacks, the lookup raises KeyError instead. The model raises `SocketError(err)` for every failing code and does not model the KeyError or the message text. Every code the source does not name is `OtherErrno`.
