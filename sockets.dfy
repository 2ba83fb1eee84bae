/**
 * A scripted TCP socket, standing in for Python's `socket.socket`.
 *
 * Nothing is sent over a network: the peer's behaviour is a script (how it
 * answers the connection attempt, how many `sendall` calls it accepts, and
 * what each successive `recv` observes), and the socket records what was
 * sent and received. `Wire` is the socket's whole state as a value, and the
 * functions `SetTimeoutW` ... `CloseW` say what each socket call does to it.
 * The class `Socket` is the mutable handle the device code works with; each
 * of its methods is proved to act exactly as the matching step function.
 */
module Sockets {
  import opened Wrappers
  import opened Encoding

  datatype Endpoint = Endpoint(host: string, port: int)

  /** How the peer answers a connection attempt. */
  datatype ConnectOutcome = Accepts | Refuses | TimesOut | Unreachable

  /** What one `recv` call observes: bytes (empty at end of stream), nothing before the timeout, or a reset. */
  datatype Reply = Data(bytes: seq<byte>) | Silence | Reset

  /**
   * The scripted peer: `sendsAccepted` is how many `sendall` calls succeed
   * before one fails, `replies` what successive `recv` calls observe (once it
   * runs out the peer stays silent).
   */
  datatype Peer = Peer(connect: ConnectOutcome, sendsAccepted: nat, replies: seq<Reply>)

  /** The exceptions a socket call raises: socket.timeout, ConnectionRefusedError, BlockingIOError, another OSError, ValueError or OverflowError. */
  datatype SockError = TimedOut | ConnectionRefused | WouldBlock | OsError | InvalidArgument

  datatype Phase = Unconnected | Open | ShutDown | Closed

  datatype Wire = Wire(
    phase: Phase,
    timeout: Option<real>,          // None: blocking; Some(0.0): non-blocking
    noDelay: bool,                  // TCP_NODELAY
    remote: Option<Endpoint>,       // the endpoint of the last connect call
    sent: seq<seq<byte>>,           // the buffers of the successful sendall calls, in order
    received: seq<Result<seq<byte>, SockError>>,  // the outcome of every recv call, in order
    pending: seq<Reply>,            // what the next recv calls will observe
    peer: Peer)

  /** A socket call's result together with the socket's state after it; `:-` threads the state along. */
  datatype Io<+T, +E> = Io(result: Result<T, E>, wire: Wire) {
    predicate IsFailure() { result.Failure? }

    function PropagateFailure<U>(): Io<U, E>
      requires IsFailure()
    {
      Io(Failure(result.error), wire)
    }

    function Extract(): Io<T, E>
      requires !IsFailure()
    {
      this
    }
  }

  function FreshWire(p: Peer): Wire
  {
    Wire(Unconnected, None, false, None, [], [], p.replies, p)
  }

  /** `settimeout(t)`: a negative value raises ValueError. */
  function SetTimeoutW(w: Wire, t: Option<real>): Io<(), SockError>
  {
    if t.Some? && t.value < 0.0 then Io(Failure(InvalidArgument), w)
    else Io(Success(()), w.(timeout := t))
  }

  /** `setsockopt(IPPROTO_TCP, TCP_NODELAY, 1)`. */
  function SetNoDelayW(w: Wire): Io<(), SockError>
  {
    if w.phase == Closed then Io(Failure(OsError), w) else Io(Success(()), w.(noDelay := true))
  }

  /**
   * `connect((host, port))`: only an unconnected socket may connect; a port
   * outside 0..65535 raises OverflowError; on a non-blocking socket the TCP
   * handshake cannot finish within the call, so it raises BlockingIOError.
   */
  function ConnectW(w: Wire, ep: Endpoint): Io<(), SockError>
  {
    if ep.port < 0 || ep.port > 65535 then Io(Failure(InvalidArgument), w)
    else if w.phase != Unconnected then Io(Failure(OsError), w)
    else
      var w' := w.(remote := Some(ep));
      if w.timeout == Some(0.0) then Io(Failure(WouldBlock), w')
      else match w.peer.connect
      case Accepts => Io(Success(()), w'.(phase := Open))
      case Refuses => Io(Failure(ConnectionRefused), w')
      case TimesOut => Io(Failure(TimedOut), w')
      case Unreachable => Io(Failure(OsError), w')
  }

  /** `sendall(data)`: all of `data` is sent, or the call raises and the model records nothing. */
  function SendAllW(w: Wire, data: seq<byte>): Io<(), SockError>
  {
    if w.phase != Open || |w.sent| >= w.peer.sendsAccepted then Io(Failure(OsError), w)
    else Io(Success(()), w.(sent := w.sent + [data]))
  }

  /** What a `recv(n)` on a connected socket returns when the peer does what `reply` says. */
  function Observe(reply: Reply, n: nat, timeout: Option<real>): Result<seq<byte>, SockError>
  {
    match reply
    case Data(d) => Success(Take(d, n))
    case Silence => if timeout == Some(0.0) then Failure(WouldBlock) else Failure(TimedOut)
    case Reset => Failure(OsError)
  }

  /** `recv(n)`: at most `n` bytes of the next script entry, which it consumes whole (a longer entry's tail is not kept for the next call); a negative `n` raises ValueError. */
  function RecvW(w: Wire, n: int): Io<seq<byte>, SockError>
  {
    var r: Result<seq<byte>, SockError> :=
      if n < 0 then Failure(InvalidArgument)
      else if w.phase != Open then Failure(OsError)
      else if w.pending == [] then Observe(Silence, n, w.timeout)
      else Observe(w.pending[0], n, w.timeout);
    var rest := if n >= 0 && w.phase == Open && w.pending != [] then w.pending[1..] else w.pending;
    Io(r, w.(received := w.received + [r], pending := rest))
  }

  /** `shutdown(SHUT_RDWR)`: raises unless the socket is connected. */
  function ShutdownW(w: Wire): Io<(), SockError>
  {
    if w.phase != Open then Io(Failure(OsError), w) else Io(Success(()), w.(phase := ShutDown))
  }

  /** `close()` never raises, even on a closed socket. */
  function CloseW(w: Wire): Wire
  {
    w.(phase := Closed)
  }

  class Socket {
    var phase: Phase
    var timeout: Option<real>
    var noDelay: bool
    var remote: Option<Endpoint>
    var sent: seq<seq<byte>>
    var received: seq<Result<seq<byte>, SockError>>
    var pending: seq<Reply>
    const peer: Peer

    function Value(): Wire
      reads this
    {
      Wire(phase, timeout, noDelay, remote, sent, received, pending, peer)
    }

    /** `socket.socket(AF_INET, SOCK_STREAM)`, talking to `peer` once connected. */
    constructor (peer: Peer)
      ensures Value() == FreshWire(peer)
    {
      this.peer := peer;
      phase, timeout, noDelay, remote := Unconnected, None, false, None;
      sent, received, pending := [], [], peer.replies;
    }

    method Load(w: Wire)
      requires w.peer == peer
      modifies this
      ensures Value() == w
    {
      phase, timeout, noDelay, remote := w.phase, w.timeout, w.noDelay, w.remote;
      sent, received, pending := w.sent, w.received, w.pending;
    }

    method SetTimeout(t: Option<real>) returns (r: Result<(), SockError>)
      modifies this
      ensures Io(r, Value()) == SetTimeoutW(old(Value()), t)
    {
      var io := SetTimeoutW(Value(), t);
      Load(io.wire);
      r := io.result;
    }

    method SetNoDelay() returns (r: Result<(), SockError>)
      modifies this
      ensures Io(r, Value()) == SetNoDelayW(old(Value()))
    {
      var io := SetNoDelayW(Value());
      Load(io.wire);
      r := io.result;
    }

    method Connect(ep: Endpoint) returns (r: Result<(), SockError>)
      modifies this
      ensures Io(r, Value()) == ConnectW(old(Value()), ep)
    {
      var io := ConnectW(Value(), ep);
      Load(io.wire);
      r := io.result;
    }

    method SendAll(data: seq<byte>) returns (r: Result<(), SockError>)
      modifies this
      ensures Io(r, Value()) == SendAllW(old(Value()), data)
    {
      var io := SendAllW(Value(), data);
      Load(io.wire);
      r := io.result;
    }

    method Recv(n: int) returns (r: Result<seq<byte>, SockError>)
      modifies this
      ensures Io(r, Value()) == RecvW(old(Value()), n)
    {
      var io := RecvW(Value(), n);
      Load(io.wire);
      r := io.result;
    }

    method Shutdown() returns (r: Result<(), SockError>)
      modifies this
      ensures Io(r, Value()) == ShutdownW(old(Value()))
    {
      var io := ShutdownW(Value());
      Load(io.wire);
      r := io.result;
    }

    method Close()
      modifies this
      ensures Value() == CloseW(old(Value()))
    {
      Load(CloseW(Value()));
    }
  }
}
