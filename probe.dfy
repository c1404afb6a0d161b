/**
 * A single non-blocking TCP probe (port_scanner/probe.py): `connect` decides
 * which codes of `connect_ex` mean the connection is under way, and a
 * PortProbe turns what its socket reports into a scan result, which it
 * keeps once known. The socket's answers (the connect_ex code, SO_ERROR and
 * the outcome of getpeername) are inputs; a probe follows either the
 * package's rules or those of the prototype test_select.py.
 */
module Probe {
  import opened Wrappers
  import opened Values
  import PrototypeProbe

  /** connect_ex reported a connection already made. */
  predicate Connected(err: Errno) {
    err == NoError || err == EIsConn
  }

  /** connect_ex reported a non-blocking connection still under way. */
  predicate Pending(err: Errno, os: OsName) {
    || err == EInProgress || err == EAlready || err == EWouldBlock
    || (err == EInval && IsWindowsFamily(os))
  }

  /**
   * The package's `connect`: returns for a connection made or under way and
   * raises `socket.error` with the code for anything else.
   */
  function Connect(err: Errno, os: OsName): (r: Outcome<ProbeError>)
    ensures r.Pass? <==> Connected(err) || Pending(err, os)
    ensures r.Fail? ==> r.error == SocketError(err)
  {
    match err
    case NoError | EIsConn | EInProgress | EAlready | EWouldBlock => Pass
    case EInval => if IsWindowsFamily(os) then Pass else Fail(SocketError(err))
    case _ => Fail(SocketError(err))
  }

  /**
   * The package's `analyze` on a probe whose result is still unknown:
   * SO_ERROR 0 means open unless getpeername says ENOTCONN (still unknown)
   * or fails with a code other than EINVAL (raised); ETIMEDOUT means
   * filtered, ECONNREFUSED closed, and any other code leaves it unknown.
   */
  function Classify(soError: Errno, peer: PeerName): (r: Result<ScanResult, ProbeError>)
    ensures r == Success(Open) <==> soError == NoError && (peer.Peer? || peer == PeerError(EInval))
    ensures r == Success(Closed) <==> soError == EConnRefused
    ensures r == Success(Filtered) <==> soError == ETimedOut
    ensures r == Success(Unknown) <==>
      (soError == NoError && peer == PeerError(ENotConn))
      || (soError != NoError && soError != ETimedOut && soError != EConnRefused)
    ensures r.Failure? <==>
      soError == NoError && peer.PeerError? && peer.errno != ENotConn && peer.errno != EInval
    ensures r.Failure? ==> r.error == SocketError(peer.errno)
  {
    match soError
    case NoError =>
      (match peer
       case Peer => Success(Open)
       case PeerError(ENotConn) => Success(Unknown)
       case PeerError(EInval) => Success(Open)
       case PeerError(e) => Failure(SocketError(e)))
    case ETimedOut => Success(Filtered)
    case EConnRefused => Success(Closed)
    case _ => Success(Unknown)
  }

  function ConnectFor(rules: Rules, err: Errno, os: OsName): Outcome<ProbeError> {
    match rules
    case Package => Connect(err, os)
    case Prototype => PrototypeProbe.Connect(err, os)
  }

  function ClassifyFor(rules: Rules, soError: Errno, peer: PeerName): Result<ScanResult, ProbeError> {
    match rules
    case Package => Classify(soError, peer)
    case Prototype => PrototypeProbe.Classify(soError, peer)
  }

  /** The package kept the prototype's connect rule, only reordering its tests. */
  lemma ConnectRulesAgree(err: Errno, os: OsName)
    ensures Connect(err, os) == PrototypeProbe.Connect(err, os)
  {
  }

  /**
   * The two classifications differ on exactly one report: SO_ERROR 0 with
   * getpeername failing with EINVAL, which the package counts as open and
   * the prototype as unknown.
   */
  lemma ClassifyRulesDiffer(soError: Errno, peer: PeerName)
    ensures Classify(soError, peer) != PrototypeProbe.Classify(soError, peer)
            <==> soError == NoError && peer == PeerError(EInval)
    ensures soError == NoError && peer == PeerError(EInval) ==>
              Classify(soError, peer) == Success(Open)
              && PrototypeProbe.Classify(soError, peer) == Success(Unknown)
  {
  }

  /**
   * Under either rule set a probe can fail only when SO_ERROR is 0, and a
   * report of ETIMEDOUT or ECONNREFUSED always settles the port.
   */
  lemma ClassifySettlesRefusalAndTimeout(rules: Rules, soError: Errno, peer: PeerName)
    ensures ClassifyFor(rules, soError, peer).Failure? ==> soError == NoError
    ensures soError == ETimedOut ==> ClassifyFor(rules, soError, peer) == Success(Filtered)
    ensures soError == EConnRefused ==> ClassifyFor(rules, soError, peer) == Success(Closed)
  {
  }

  /**
   * A probe: a non-blocking socket connected (or connecting) to one port,
   * and the result it has settled on so far.
   */
  class PortProbe {
    const rules: Rules
    /** The remote port. */
    const port: int
    /** The descriptor of the probe's socket. */
    const fileNo: int
    var result: ScanResult
    /** The socket has been closed. */
    var closed: bool
    /** How many times the socket was asked for SO_ERROR. */
    ghost var socketQueries: nat
    /** How many times `close` was called. */
    ghost var closeCalls: nat

    constructor (rules: Rules, port: int, fileNo: int)
      ensures this.rules == rules && this.port == port && this.fileNo == fileNo
      ensures result == Unknown && !closed && socketQueries == 0 && closeCalls == 0
    {
      this.rules := rules;
      this.port := port;
      this.fileNo := fileNo;
      result := Unknown;
      closed := false;
      socketQueries := 0;
      closeCalls := 0;
    }

    /**
     * Reports the port's result. A result already known is returned without
     * touching the socket. Otherwise the socket's report is classified and a
     * result other than a raised error is kept. A closed socket answers
     * every query with EBADF.
     */
    method Analyze(soError: Errno, peer: PeerName) returns (r: Result<ScanResult, ProbeError>)
      modifies this
      ensures closed == old(closed) && closeCalls == old(closeCalls)
      ensures old(result) != Unknown ==>
        r == Success(old(result)) && result == old(result) && socketQueries == old(socketQueries)
      ensures old(result) == Unknown && old(closed) ==>
        r == Failure(SocketError(EBadF)) && result == Unknown && socketQueries == old(socketQueries) + 1
      ensures old(result) == Unknown && !old(closed) ==>
        && r == ClassifyFor(rules, soError, peer)
        && result == (if r.Success? then r.value else Unknown)
        && socketQueries == old(socketQueries) + 1
    {
      if result != Unknown {
        return Success(result);
      }
      socketQueries := socketQueries + 1;
      if closed {
        return Failure(SocketError(EBadF));
      }
      r := ClassifyFor(rules, soError, peer);
      if r.Success? {
        result := r.value;
      }
    }

    method Close()
      modifies this
      ensures closed && closeCalls == old(closeCalls) + 1
      ensures result == old(result) && socketQueries == old(socketQueries)
    {
      closed := true;
      closeCalls := closeCalls + 1;
    }
  }

  /**
   * `connect_ex` on a port: a port outside 0..65535 raises OverflowError
   * before anything reaches the network, whatever the network would answer;
   * otherwise the rules' connect decides.
   */
  function ConnectTo(rules: Rules, port: int, err: Errno, os: OsName): (r: Outcome<ProbeError>)
    ensures (r.Fail? && r.error.OverflowError?) <==> !IsTcpPort(port)
    ensures r.Fail? && r.error.OverflowError? ==> r.error.port == port
    ensures IsTcpPort(port) ==> r == ConnectFor(rules, err, os)
  {
    if !IsTcpPort(port) then Fail(OverflowError(port)) else ConnectFor(rules, err, os)
  }

  /**
   * Creating a probe: a socket with descriptor fileNo connects to the port
   * and the probe exists only if `connect` does not raise.
   */
  method Launch(rules: Rules, port: int, fileNo: int, connectCode: Errno, os: OsName)
    returns (r: Result<PortProbe, ProbeError>)
    ensures r.Failure? <==> ConnectTo(rules, port, connectCode, os).Fail?
    ensures r.Failure? ==> r.error == ConnectTo(rules, port, connectCode, os).error
    ensures !IsTcpPort(port) ==> r == Failure(OverflowError(port))
    ensures r.Success? ==>
      && fresh(r.value)
      && r.value.rules == rules && r.value.port == port && r.value.fileNo == fileNo
      && r.value.result == Unknown && !r.value.closed
      && r.value.socketQueries == 0 && r.value.closeCalls == 0
  {
    var connected := ConnectTo(rules, port, connectCode, os);
    if connected.Fail? {
      return Failure(connected.error);
    }
    var probe := new PortProbe(rules, port, fileNo);
    r := Success(probe);
  }
}
