/**
 * The network backend of the Brother QL printer driver
 * (brother_ql/backends/network.py): a `tcp://host[:port]` specifier, one
 * persistent socket, a write that raises the socket timeout for the duration
 * of a bulk send, three read strategies, and a one-shot `send_over_network`.
 */
module NetworkBackend {
  import opened Wrappers
  import opened Encoding
  import opened Sockets

  const DefaultPort: int := 9100
  const Scheme: string := "tcp://"
  const ReadTimeout: real := 0.01
  const WriteTimeout: real := 10.0
  const DefaultStrategy: string := "socket_timeout"
  const DefaultReadLength: int := 32

  /** What the constructor may be given: a string, an `os.open()` handle, or any other object. */
  datatype Specifier = Text(text: string) | Handle(fd: int) | OtherObject

  datatype BackendError =
    | InvalidPort          // int() of the port text raised ValueError
    | Unsupported          // NotImplementedError: neither a string nor an int
    | UnknownStrategy      // NotImplementedError('Unknown strategy')
    | NoSocket             // AttributeError: a handle-based backend has no socket
    | SocketFailed(error: SockError)

  // ---------------------------------------------------------------------------
  // The specifier
  // ---------------------------------------------------------------------------

  function StripScheme(s: string): string
  {
    if |s| >= |Scheme| && s[..|Scheme|] == Scheme then s[|Scheme|..] else s
  }

  /** The host and port named by a string specifier (brother_ql/backends/network.py:43-49). */
  function ParseSpecifier(spec: string): Result<Endpoint, BackendError>
  {
    var (host, _, port) := Partition(StripScheme(spec), ':');
    if port == [] then Success(Endpoint(host, DefaultPort))
    else match ParseInt(port)
      case Some(p) => Success(Endpoint(host, p))
      case None => Failure(InvalidPort)
  }

  /**
   * The host is everything before the first `:` (after an optional `tcp://`);
   * the port is the integer after it, 9100 when the colon is missing or
   * nothing follows it, and ValueError when the text is not an integer.
   */
  lemma ParseSpecifierShape(spec: string, host: string, port: string)
    requires ':' !in host
    ensures StripScheme(spec) == host ==> ParseSpecifier(spec) == Success(Endpoint(host, DefaultPort))
    ensures StripScheme(spec) == host + ":" + port ==>
      && (port == [] ==> ParseSpecifier(spec) == Success(Endpoint(host, DefaultPort)))
      && (port != [] ==> (ParseSpecifier(spec).Success? <==> ParseInt(port).Some?))
      && (port != [] && ParseInt(port).Some? ==> ParseSpecifier(spec) == Success(Endpoint(host, ParseInt(port).value)))
      && (ParseSpecifier(spec).Failure? ==> ParseSpecifier(spec) == Failure(InvalidPort))
  {
    if StripScheme(spec) == host {
      PartitionNone(host, ':');
    }
    if StripScheme(spec) == host + ":" + port {
      PartitionAt(host, ':', port);
    }
  }

  /** Rendering an endpoint as `tcp://host:port` and parsing it back gives the endpoint. */
  lemma ParseSpecifierRoundTrip(host: string, port: nat)
    requires ':' !in host
    ensures ParseSpecifier(Scheme + host + ":" + Decimal(port)) == Success(Endpoint(host, port))
    ensures ParseSpecifier(Scheme + host) == Success(Endpoint(host, DefaultPort))
    ensures ParseSpecifier(host) == Success(Endpoint(host, DefaultPort))
  {
    StripSchemeOf(host + ":" + Decimal(port));
    StripSchemeOf(host);
    NoSchemeIn(host);
    DecimalNonEmpty(port);
    ParseIntDecimal(port);
    ParseSpecifierShape(Scheme + host + ":" + Decimal(port), host, Decimal(port));
    ParseSpecifierShape(Scheme + host, host, []);
    ParseSpecifierShape(host, host, []);
  }

  lemma StripSchemeOf(x: string)
    ensures StripScheme(Scheme + x) == x
  {
    assert (Scheme + x)[..|Scheme|] == Scheme;
    assert (Scheme + x)[|Scheme|..] == x;
  }

  lemma NoSchemeIn(x: string)
    requires ':' !in x
    ensures StripScheme(x) == x
  {
    if |x| >= |Scheme| {
      assert x[..|Scheme|][3] == x[3] != Scheme[3];
    }
  }

  lemma DecimalNonEmpty(n: nat)
    ensures Decimal(n) != []
  {
    ParseIntDecimal(n);
  }

  /** The socket timeout a strategy runs with: `read_timeout` for the two blocking strategies, 0 otherwise. */
  function StrategyTimeout(strategy: string, readTimeout: real): real
  {
    if strategy == "socket_timeout" then readTimeout
    else if strategy == "try_twice" then readTimeout
    else 0.0
  }

  /** The two timed strategies read with `read_timeout`; every other strategy name makes the socket non-blocking. */
  lemma StrategyTimeoutCases(strategy: string, readTimeout: real)
    ensures strategy in {"socket_timeout", "try_twice"} ==> StrategyTimeout(strategy, readTimeout) == readTimeout
    ensures strategy !in {"socket_timeout", "try_twice"} ==> StrategyTimeout(strategy, readTimeout) == 0.0
  {
  }

  // ---------------------------------------------------------------------------
  // Socket exchanges as functions of the socket's state
  // ---------------------------------------------------------------------------

  /** Opening the backend's socket: TCP_NODELAY, connect, then the strategy's timeout. */
  function OpenW(w: Wire, ep: Endpoint, strategy: string, readTimeout: real): Io<(), SockError>
  {
    var a :- SetNoDelayW(w);
    var b :- ConnectW(a.wire, ep);
    SetTimeoutW(b.wire, Some(StrategyTimeout(strategy, readTimeout)))
  }

  /** `_write`: a 10 s timeout for the send, then back to `read_timeout` (not reached when the send raises). */
  function WriteW(w: Wire, data: seq<byte>, readTimeout: real): Io<(), SockError>
  {
    var a :- SetTimeoutW(w, Some(WriteTimeout));
    var b :- SendAllW(a.wire, data);
    SetTimeoutW(b.wire, Some(readTimeout))
  }

  /** The `socket_timeout` / `try_twice` loop: up to `tries` receives, skipping only timeouts. */
  function TimedReadW(w: Wire, length: int, tries: nat): Io<seq<byte>, SockError>
    decreases tries
  {
    if tries == 0 then Io(Success([]), w)
    else
      var io := RecvW(w, length);
      if io.result == Failure(TimedOut) then TimedReadW(io.wire, length, tries - 1) else io
  }

  /** One turn of the `select` loop: the clock reading `time.time() - start` and whether `select` reported the socket readable. */
  datatype Poll = Poll(elapsed: real, readable: bool)

  /**
   * The `select` loop: poll until the deadline, receiving when readable, and
   * stop at the first non-empty receive. When the polls run out the deadline
   * counts as passed.
   */
  function SelectReadW(w: Wire, length: int, polls: seq<Poll>, readTimeout: real): Io<seq<byte>, SockError>
    decreases |polls|
  {
    if polls == [] || polls[0].elapsed >= readTimeout then Io(Success([]), w)
    else if polls[0].readable then
      var io :- RecvW(w, length);
      if io.result.value != [] then io else SelectReadW(io.wire, length, polls[1..], readTimeout)
    else SelectReadW(w, length, polls[1..], readTimeout)
  }

  function DisposeW(w: Wire): Io<(), SockError>
  {
    var a :- ShutdownW(w);
    Io(Success(()), CloseW(a.wire))
  }

  function Lift<T>(r: Result<T, SockError>): Result<T, BackendError>
  {
    match r
    case Success(v) => Success(v)
    case Failure(e) => Failure(SocketFailed(e))
  }

  function Tries(strategy: string): nat
  {
    if strategy == "socket_timeout" then 1 else 2
  }

  // ---------------------------------------------------------------------------
  // What the exchanges guarantee
  // ---------------------------------------------------------------------------

  /**
   * Opening succeeds exactly when the port is valid, the socket is not
   * already non-blocking and the printer accepts (the constructor's fresh
   * socket is blocking); it leaves the socket connected to the endpoint
   * with TCP_NODELAY set and the strategy's timeout.
   */
  lemma OpenShape(w: Wire, ep: Endpoint, strategy: string, readTimeout: real)
    requires w.phase == Unconnected
    requires readTimeout >= 0.0
    ensures var io := OpenW(w, ep, strategy, readTimeout);
      io.result.Success? <==> 0 <= ep.port <= 65535 && w.timeout != Some(0.0) && w.peer.connect == Accepts
    ensures var io := OpenW(w, ep, strategy, readTimeout);
      io.result.Success? ==>
        && io.wire.phase == Open && io.wire.noDelay && io.wire.remote == Some(ep)
        && io.wire.timeout == Some(StrategyTimeout(strategy, readTimeout))
        && io.wire.sent == w.sent
  {
  }

  /**
   * `_write` sends the whole buffer once under a 10 s timeout. When the send
   * succeeds the timeout is `read_timeout` again; when it raises, the 10 s
   * timeout is left in place.
   */
  lemma WriteShape(w: Wire, data: seq<byte>, readTimeout: real)
    requires readTimeout >= 0.0
    ensures var io := WriteW(w, data, readTimeout);
      && (io.result.Success? <==> w.phase == Open && |w.sent| < w.peer.sendsAccepted)
      && (io.result.Success? ==> io.wire.sent == w.sent + [data] && io.wire.timeout == Some(readTimeout))
      && (io.result.Failure? ==> io.wire.sent == w.sent && io.wire.timeout == Some(WriteTimeout))
      && io.wire.received == w.received && io.wire.phase == w.phase
  {
  }

  /**
   * What the receives of a timed read look like: one to `tries` calls, all
   * but the last timed out, and the result is the last call's bytes or error,
   * or empty bytes when all `tries` calls timed out.
   */
  ghost predicate TimedCalls(calls: seq<Result<seq<byte>, SockError>>, result: Result<seq<byte>, SockError>, tries: nat)
  {
    && 1 <= |calls| <= tries
    && (forall i :: 0 <= i < |calls| - 1 ==> calls[i] == Failure(TimedOut))
    && (if calls[|calls| - 1] == Failure(TimedOut)
        then |calls| == tries && result == Success([])
        else result == calls[|calls| - 1])
  }

  /** A timed-out call in front of a timed read of `tries - 1` is a timed read of `tries`. */
  lemma TimedCallsCons(rest: seq<Result<seq<byte>, SockError>>, result: Result<seq<byte>, SockError>, tries: nat)
    requires tries >= 2 && TimedCalls(rest, result, tries - 1)
    ensures TimedCalls([Failure(TimedOut)] + rest, result, tries)
  {
    var calls := [Failure(TimedOut)] + rest;
    assert calls[|calls| - 1] == rest[|rest| - 1];
    forall i | 0 <= i < |calls| - 1
      ensures calls[i] == Failure(TimedOut)
    {
      if i > 0 { assert calls[i] == rest[i - 1]; }
    }
  }

  /**
   * The timed strategies call `recv` at least once and at most `tries` times;
   * every call but the last timed out, and the result is the last call's
   * bytes or error, or empty bytes when all `tries` calls timed out.
   */
  lemma {:induction false} TimedReadShape(w: Wire, length: int, tries: nat)
    requires tries >= 1
    ensures var io := TimedReadW(w, length, tries);
      && |w.received| < |io.wire.received|
      && io.wire.received[..|w.received|] == w.received
      && TimedCalls(io.wire.received[|w.received|..], io.result, tries)
      && io.wire.sent == w.sent && io.wire.phase == w.phase
    decreases tries
  {
    var io1 := RecvW(w, length);
    var io := TimedReadW(w, length, tries);
    var n := |w.received|;
    assert io1.wire.received == w.received + [io1.result];
    if io1.result == Failure(TimedOut) && tries > 1 {
      TimedReadShape(io1.wire, length, tries - 1);
      assert io == TimedReadW(io1.wire, length, tries - 1);
      var rest := io.wire.received[n + 1..];
      assert io.wire.received[..n + 1] == io1.wire.received;
      assert io.wire.received[n..] == [Failure(TimedOut)] + rest;
      TimedCallsCons(rest, io.result, tries);
    } else if io1.result == Failure(TimedOut) {
      assert io == Io(Success([]), io1.wire);
      assert io.wire.received[n..] == [io1.result];
    } else {
      assert io == io1;
      assert io.wire.received[n..] == [io1.result];
    }
  }

  /**
   * The `select` strategy returns either empty bytes or the bytes of exactly
   * one `recv`: every receive before the last one got nothing, a non-empty
   * result is what the last receive got, and there is at most one receive
   * per poll.
   */
  lemma {:induction false} SelectReadShape(w: Wire, length: int, polls: seq<Poll>, readTimeout: real)
    ensures var io := SelectReadW(w, length, polls, readTimeout);
      && |w.received| <= |io.wire.received| <= |w.received| + |polls|
      && io.wire.received[..|w.received|] == w.received
    ensures var io := SelectReadW(w, length, polls, readTimeout);
      var calls := io.wire.received[|w.received|..];
      && (forall i :: 0 <= i < |calls| - 1 ==> calls[i] == Success([]))
      && (io.result.Failure? ==> calls != [] && calls[|calls| - 1] == io.result)
      && (io.result.Success? && io.result.value != [] ==> calls != [] && calls[|calls| - 1] == io.result)
      && (io.result == Success([]) ==> forall i :: 0 <= i < |calls| ==> calls[i] == Success([]))
      && io.wire.sent == w.sent
    decreases |polls|
  {
    if polls == [] || polls[0].elapsed >= readTimeout {
    } else if polls[0].readable {
      var io1 := RecvW(w, length);
      if io1.result.Success? && io1.result.value == [] {
        SelectReadShape(io1.wire, length, polls[1..], readTimeout);
        var io := SelectReadW(w, length, polls, readTimeout);
        assert io == SelectReadW(io1.wire, length, polls[1..], readTimeout);
        var calls := io.wire.received[|w.received|..];
        assert calls == [io1.result] + io.wire.received[|io1.wire.received|..];
      }
    } else {
      SelectReadShape(w, length, polls[1..], readTimeout);
    }
  }

  /** How many polls come before the first one at or past the deadline. */
  function Before(polls: seq<Poll>, readTimeout: real): (k: nat)
    ensures k <= |polls|
    ensures forall i :: 0 <= i < k ==> polls[i].elapsed < readTimeout
    ensures k < |polls| ==> polls[k].elapsed >= readTimeout
    decreases |polls|
  {
    if polls == [] || polls[0].elapsed >= readTimeout then 0 else 1 + Before(polls[1..], readTimeout)
  }

  /**
   * The `select` strategy stops at the deadline: it receives at most once
   * per poll made before the first poll at or past the deadline, and a
   * first poll already past the deadline returns empty bytes with the
   * socket untouched.
   */
  lemma {:induction false} SelectReadDeadline(w: Wire, length: int, polls: seq<Poll>, readTimeout: real)
    ensures var io := SelectReadW(w, length, polls, readTimeout);
      |io.wire.received| <= |w.received| + Before(polls, readTimeout)
    ensures Before(polls, readTimeout) == 0 ==> SelectReadW(w, length, polls, readTimeout) == Io(Success([]), w)
    decreases |polls|
  {
    if polls != [] && polls[0].elapsed < readTimeout {
      if polls[0].readable {
        var io1 := RecvW(w, length);
        if io1.result.Success? && io1.result.value == [] {
          SelectReadDeadline(io1.wire, length, polls[1..], readTimeout);
        }
      } else {
        SelectReadDeadline(w, length, polls[1..], readTimeout);
      }
    }
  }

  /** How many of the polls before the deadline report the socket readable. */
  function ReadableBefore(polls: seq<Poll>, readTimeout: real): (k: nat)
    ensures k <= Before(polls, readTimeout)
    decreases |polls|
  {
    if polls == [] || polls[0].elapsed >= readTimeout then 0
    else (if polls[0].readable then 1 else 0) + ReadableBefore(polls[1..], readTimeout)
  }

  /**
   * Every readable poll before the deadline leads to a `recv` until one
   * returns data or raises: there are at most as many receives as such
   * polls, and exactly as many when the result is empty bytes. So data the
   * peer has ready at a readable poll before the deadline is returned.
   */
  lemma {:induction false} SelectReadReceives(w: Wire, length: int, polls: seq<Poll>, readTimeout: real)
    ensures var io := SelectReadW(w, length, polls, readTimeout);
      && |w.received| <= |io.wire.received| <= |w.received| + ReadableBefore(polls, readTimeout)
      && (io.result == Success([]) ==> |io.wire.received| == |w.received| + ReadableBefore(polls, readTimeout))
    decreases |polls|
  {
    if polls != [] && polls[0].elapsed < readTimeout {
      if polls[0].readable {
        var io1 := RecvW(w, length);
        if io1.result.Success? && io1.result.value == [] {
          SelectReadReceives(io1.wire, length, polls[1..], readTimeout);
        }
      } else {
        SelectReadReceives(w, length, polls[1..], readTimeout);
      }
    }
  }

  /**
   * Disposing twice raises the second time: shutdown needs a connected socket,
   * so `_dispose` is not idempotent.
   */
  lemma DisposeTwiceRaises(w: Wire)
    ensures DisposeW(DisposeW(w).wire).result == Failure(OsError)
    ensures DisposeW(w).result.Success? <==> w.phase == Open
    ensures DisposeW(w).result.Success? ==> DisposeW(w).wire.phase == Closed
  {
  }

  /** `send_over_network`: connect, send everything once, and close whatever happened. */
  function SendOverNetworkW(w: Wire, data: seq<byte>, ep: Endpoint): Wire
  {
    var io: Io<(), SockError> := (var a :- ConnectW(w, ep); SendAllW(a.wire, data));
    CloseW(io.wire)
  }

  /**
   * The socket used by `send_over_network` is always closed; it carries the
   * data exactly when the connection and the send both succeeded.
   */
  lemma SendOverNetworkShape(peer: Peer, data: seq<byte>, ep: Endpoint)
    ensures var w := SendOverNetworkW(FreshWire(peer), data, ep);
      && w.phase == Closed
      && w.sent == (if 0 <= ep.port <= 65535 && peer.connect == Accepts && peer.sendsAccepted > 0 then [data] else [])
      && w.received == []
  {
  }

  // ---------------------------------------------------------------------------
  // The backend object
  // ---------------------------------------------------------------------------

  class BrotherQLBackendNetwork {
    var readTimeout: real
    var strategy: string
    var s: Socket?
    var dev: Option<int>

    constructor OverSocket(s: Socket)
      ensures this.s == s && dev == None
      ensures readTimeout == ReadTimeout && strategy == DefaultStrategy
    {
      readTimeout, strategy := ReadTimeout, DefaultStrategy;
      this.s, dev := s, None;
    }

    constructor OverHandle(fd: int)
      ensures s == null && dev == Some(fd)
      ensures readTimeout == ReadTimeout && strategy == DefaultStrategy
    {
      readTimeout, strategy := ReadTimeout, DefaultStrategy;
      s, dev := null, Some(fd);
    }

    /**
     * `BrotherQLBackendNetwork(device_specifier)`: parse a string specifier
     * and open its socket, keep an integer handle as `dev`, refuse anything else.
     */
    static method Create(spec: Specifier, peer: Peer) returns (r: Result<BrotherQLBackendNetwork, BackendError>)
      ensures spec.OtherObject? ==> r == Failure(Unsupported)
      ensures spec.Handle? ==> r.Success? && fresh(r.value) && r.value.s == null && r.value.dev == Some(spec.fd)
      ensures spec.Text? && ParseSpecifier(spec.text).Failure? ==> r == Failure(ParseSpecifier(spec.text).error)
      ensures spec.Text? && ParseSpecifier(spec.text).Success? ==>
        var io := OpenW(FreshWire(peer), ParseSpecifier(spec.text).value, DefaultStrategy, ReadTimeout);
        && r.Success? == io.result.Success?
        && (r.Failure? ==> r == Lift(io.result.PropagateFailure()))
        && (r.Success? ==> fresh(r.value) && fresh(r.value.s) && r.value.s != null && r.value.s.Value() == io.wire && r.value.dev == None)
      ensures r.Success? ==> r.value.readTimeout == ReadTimeout && r.value.strategy == DefaultStrategy
    {
      if spec.OtherObject? {
        return Failure(Unsupported);
      }
      if spec.Handle? {
        var b := new BrotherQLBackendNetwork.OverHandle(spec.fd);
        return Success(b);
      }
      var ep :- ParseSpecifier(spec.text);
      var sock := new Socket(peer);
      var _ := sock.SetNoDelay();
      var c := sock.Connect(ep);
      if c.Failure? { return Failure(SocketFailed(c.error)); }
      var _ := sock.SetTimeout(Some(StrategyTimeout(DefaultStrategy, ReadTimeout)));
      var b := new BrotherQLBackendNetwork.OverSocket(sock);
      return Success(b);
    }

    /** `_write(data)`. */
    method Write(data: seq<byte>) returns (r: Result<(), BackendError>)
      modifies s
      ensures s == null ==> r == Failure(NoSocket)
      ensures s != null ==>
        var io := WriteW(old(s.Value()), data, readTimeout);
        s.Value() == io.wire && r == Lift(io.result)
    {
      if s == null { return Failure(NoSocket); }
      var _ := s.SetTimeout(Some(WriteTimeout));
      var b := s.SendAll(data);
      if b.Failure? { return Failure(SocketFailed(b.error)); }
      var c := s.SetTimeout(Some(readTimeout));
      r := Lift(c);
    }

    /** `_read(length)` under the current strategy; `polls` scripts the clock and `select` for the polling strategy. */
    method Read(length: int := DefaultReadLength, polls: seq<Poll>) returns (r: Result<seq<byte>, BackendError>)
      modifies s
      ensures strategy !in {"socket_timeout", "try_twice", "select"} ==>
        r == Failure(UnknownStrategy) && (s != null ==> s.Value() == old(s.Value()))
      ensures strategy in {"socket_timeout", "try_twice"} && s == null ==> r == Failure(NoSocket)
      ensures strategy in {"socket_timeout", "try_twice"} && s != null ==>
        var io := TimedReadW(old(s.Value()), length, Tries(strategy));
        s.Value() == io.wire && r == Lift(io.result)
      ensures strategy == "select" && s == null ==>
        r == if polls == [] || polls[0].elapsed >= readTimeout then Success([]) else Failure(NoSocket)
      ensures strategy == "select" && s != null ==>
        var io := SelectReadW(old(s.Value()), length, polls, readTimeout);
        s.Value() == io.wire && r == Lift(io.result)
    {
      if strategy == "socket_timeout" || strategy == "try_twice" {
        if s == null { return Failure(NoSocket); }
        var tries := if strategy == "socket_timeout" then 1 else 2;
        var i := 0;
        while i < tries
          invariant 0 <= i <= tries
          invariant TimedReadW(old(s.Value()), length, tries) == TimedReadW(s.Value(), length, tries - i)
        {
          var d := s.Recv(length);
          if d != Failure(TimedOut) {
            return Lift(d);
          }
          i := i + 1;
        }
        return Success([]);
      } else if strategy == "select" {
        var i := 0;
        while i < |polls| && polls[i].elapsed < readTimeout
          invariant 0 <= i <= |polls|
          invariant s != null ==> SelectReadW(old(s.Value()), length, polls, readTimeout) == SelectReadW(s.Value(), length, polls[i..], readTimeout)
          invariant s == null ==> i == 0
        {
          if s == null { return Failure(NoSocket); }
          if polls[i].readable {
            var d := s.Recv(length);
            if d.Failure? { return Failure(SocketFailed(d.error)); }
            if d.value != [] { return Success(d.value); }
          }
          assert polls[i..][1..] == polls[i + 1..];
          i := i + 1;
        }
        return Success([]);
      } else {
        return Failure(UnknownStrategy);
      }
    }

    /** `_dispose()`: shut down both directions, then close; a shutdown failure raises before the close. */
    method Dispose() returns (r: Result<(), BackendError>)
      modifies s
      ensures s == null ==> r == Failure(NoSocket)
      ensures s != null ==>
        var io := DisposeW(old(s.Value()));
        s.Value() == io.wire && r == Lift(io.result)
    {
      if s == null { return Failure(NoSocket); }
      var a := s.Shutdown();
      if a.Failure? { return Failure(SocketFailed(a.error)); }
      s.Close();
      return Success(());
    }
  }

  /** `send_over_network(qlr, host, port)`: returns nothing and lets no exception out. */
  method SendOverNetwork(data: seq<byte>, host: string, peer: Peer, port: int := DefaultPort) returns (sock: Socket)
    ensures fresh(sock)
    ensures sock.Value() == SendOverNetworkW(FreshWire(peer), data, Endpoint(host, port))
  {
    sock := new Socket(peer);
    var c := sock.Connect(Endpoint(host, port));
    if c.Success? {
      var _ := sock.SendAll(data);
    }
    sock.Close();
  }
}
