/**
 * Shared vocabulary: the four scan results of port_scanner/values.py, the
 * socket error codes that the probe distinguishes, the operating-system name
 * that `connect` consults, and which of the two rule sets (the package, or the
 * earlier single-file prototype) a probe or scanner follows.
 */
module Values {

  /** RESULT_UNKNOWN, RESULT_OPEN, RESULT_CLOSED, RESULT_FILTERED. */
  datatype ScanResult = Unknown | Open | Closed | Filtered

  /**
   * An errno value as returned by `connect_ex`, read from SO_ERROR or carried
   * by a `socket.error`. `NoError` is 0; every code the source does not name
   * is an `OtherErrno`, whose number (see `Number`) is never one of the
   * named codes.
   */
  datatype Errno =
    | NoError
    | EIsConn
    | EInProgress
    | EAlready
    | EWouldBlock
    | EInval
    | ENotConn
    | EBadF
    | ETimedOut
    | EConnRefused
    | OtherErrno(code: OtherCode)

  /** The numbers of the named codes (and of no error) on Linux. */
  const NamedCodes: set<int> := {0, 9, 11, 22, 106, 107, 110, 111, 114, 115}

  /** An errno number that none of the named constructors stands for. */
  type OtherCode = c: int | c !in NamedCodes witness 1

  /** The Linux errno number of a code; EWOULDBLOCK shares EAGAIN's 11. */
  function Number(e: Errno): (n: int)
    ensures n in NamedCodes <==> !e.OtherErrno?
  {
    match e
    case NoError => 0
    case EIsConn => 106
    case EInProgress => 115
    case EAlready => 114
    case EWouldBlock => 11
    case EInval => 22
    case ENotConn => 107
    case EBadF => 9
    case ETimedOut => 110
    case EConnRefused => 111
    case OtherErrno(c) => c
  }

  /** Distinct codes have distinct numbers, so a number names one code. */
  lemma NumberIsInjective(a: Errno, b: Errno)
    ensures Number(a) == Number(b) ==> a == b
  {
  }

  /**
   * What a probe or a scan raises: `socket.error(errno, message)` (the
   * message text is not modelled), or the OverflowError that `connect_ex`
   * raises for a port outside 0..65535 before any network traffic.
   */
  datatype ProbeError = SocketError(errno: Errno) | OverflowError(port: int)

  /** The ports a socket address may carry. */
  predicate IsTcpPort(port: int) {
    0 <= port <= 65535
  }

  /** Outcome of `getpeername()`: a peer address, or a `socket.error`. */
  datatype PeerName = Peer | PeerError(errno: Errno)

  /** The values of Python's `os.name`. */
  datatype OsName = Posix | Nt | Ce | Java | Os2 | RiscOs

  /** `os.name in ('nt', 'ce')`: the systems whose connect may report EINVAL. */
  predicate IsWindowsFamily(os: OsName) {
    os == Nt || os == Ce
  }

  /** The package (port_scanner/) or the prototype (test_select.py). */
  datatype Rules = Package | Prototype
}
