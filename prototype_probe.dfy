/**
 * The connection and classification rules of the PortProbe class in the
 * prototype test_select.py, as functions of what the socket reports.
 */
module PrototypeProbe {
  import opened Wrappers
  import opened Values

  /**
   * The prototype's `connect`: a connection under way returns at once, one
   * that is made (0 or EISCONN) falls through, and any other code of
   * `connect_ex` is raised as `socket.error`.
   */
  function Connect(err: Errno, os: OsName): (r: Outcome<ProbeError>)
    ensures r.Pass? <==> err in {NoError, EIsConn, EInProgress, EAlready, EWouldBlock}
                         || (err == EInval && IsWindowsFamily(os))
    ensures r.Fail? ==> r.error == SocketError(err)
  {
    if err in {EInProgress, EAlready, EWouldBlock} || (err == EInval && IsWindowsFamily(os)) then
      Pass
    else if err in {NoError, EIsConn} then
      Pass
    else
      Fail(SocketError(err))
  }

  /**
   * The prototype's `analyze` on a probe whose result is still unknown, given
   * the socket's SO_ERROR and the outcome of `getpeername`. ENOTCONN and
   * EINVAL from `getpeername` both leave the port unknown.
   */
  function Classify(soError: Errno, peer: PeerName): (r: Result<ScanResult, ProbeError>)
    ensures r == Success(Open) <==> soError == NoError && peer.Peer?
    ensures r == Success(Closed) <==> soError == EConnRefused
    ensures r == Success(Filtered) <==> soError == ETimedOut
    ensures r == Success(Unknown) <==>
      (soError == NoError && peer.PeerError? && peer.errno in {ENotConn, EInval})
      || soError !in {NoError, ETimedOut, EConnRefused}
    ensures r.Failure? <==> soError == NoError && peer.PeerError? && peer.errno !in {ENotConn, EInval}
    ensures r.Failure? ==> r.error == SocketError(peer.errno)
  {
    if soError == NoError then
      match peer
      case Peer => Success(Open)
      case PeerError(e) =>
        if e in [ENotConn, EInval] then Success(Unknown) else Failure(SocketError(e))
    else if soError == ETimedOut then
      Success(Filtered)
    else if soError == EConnRefused then
      Success(Closed)
    else
      Success(Unknown)
  }
}
