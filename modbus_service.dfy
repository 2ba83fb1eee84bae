/**
 * The Modbus service of `cor_pass/services/modbus_service.py`.
 *
 * Two ways of reading holding registers sit behind one switch: the custom
 * protocol opens a raw TCP socket of its own and sends a 16-byte frame (a
 * vendor prefix followed by the tail of a Read Holding Registers request,
 * function code 0x03, section 6.3 of the Modbus Application Protocol
 * Specification V1.1b3); the standard protocol goes through a pymodbus
 * client held in the service, reconnecting lazily.
 *
 * The reachability probe (`check_connection`) and the pymodbus calls are
 * outside the model: the probe's answer and what each pymodbus call returns
 * (or that it raised) are parameters. `ServiceState` is the service's whole
 * state as a value, `ConnectS` ... `CloseS` say what each operation does to
 * it, and the class `ModbusService` is proved to act exactly as they say.
 */
module ModbusService {
  import opened Wrappers
  import opened Encoding
  import opened Sockets

  const DefaultHost: string := "192.168.154.111"
  const DefaultPort: int := 502
  const ClientTimeout: int := 10       // ModbusTcpClient(timeout=10)
  const ClientRetries: int := 1        // ModbusTcpClient(retries=1)
  const SocketTimeout: real := 10.0    // sock.settimeout(10) on the custom path
  const ResponseLimit: nat := 1024     // sock.recv(1024)
  const ReadHoldingRegistersCode: byte := 0x03

  /** The vendor prefix `AA FE 55 00 00 01` and the length field `00 00 00 06`. */
  const Prefix: seq<byte> := [0xAA, 0xFE, 0x55, 0x00, 0x00, 0x01, 0x00, 0x00, 0x00, 0x06]

  /** A holding register as pymodbus reports it: an unsigned 16-bit value. */
  type Register = x: int | 0 <= x < 0x1_0000

  // ---------------------------------------------------------------------------
  // The custom request frame
  // ---------------------------------------------------------------------------

  /**
   * `(v >> 8) & 0xFF` on a Python integer. Python's `>>` floors and `& 0xFF`
   * keeps the low eight bits of the two's-complement value, so for negative
   * `v` too this is Dafny's (Euclidean) `/ 256` followed by `% 256`.
   */
  function HighByte(v: int): byte
  {
    ((v / 256) % 256) as byte
  }

  /** `v & 0xFF` on a Python integer. */
  function LowByte(v: int): byte
  {
    (v % 256) as byte
  }

  /** A big-endian 16-bit field. */
  function Word(hi: byte, lo: byte): int
  {
    hi as int * 256 + lo as int
  }

  /**
   * `bytes([...])` of the frame: `bytes` raises ValueError for an element
   * outside 0..255, and of the elements only `slave_id` can be one (the
   * others are masked with `& 0xFF`), so the frame exists exactly when the
   * slave id is a byte.
   */
  function CustomRequest(slave: int, address: int, count: int): Option<seq<byte>>
  {
    if 0 <= slave < 256 then
      Some(Prefix + [slave as byte, ReadHoldingRegistersCode,
                     HighByte(address), LowByte(address), HighByte(count), LowByte(count)])
    else None
  }

  /** Reads a frame back: the slave id, then the start address and quantity as big-endian words. */
  function DecodeRequest(frame: seq<byte>): Option<(int, int, int)>
  {
    if |frame| == 16 && frame[..10] == Prefix && frame[11] == ReadHoldingRegistersCode then
      Some((frame[10] as int, Word(frame[12], frame[13]), Word(frame[14], frame[15])))
    else None
  }

  lemma ByteSplitUnique(a: int, k: int, x: int)
    requires 0 <= x < 256 && a == 256 * k + x
    ensures a / 256 == k && a % 256 == x
  {
  }

  lemma WordSplitUnique(a: int, k: int, x: int)
    requires 0 <= x < 0x1_0000 && a == 0x1_0000 * k + x
    ensures a % 0x1_0000 == x
  {
  }

  /** The two masked bytes of `v` are the low 16 bits of `v`, high byte first. */
  lemma WordOfBytes(v: int)
    ensures Word(HighByte(v), LowByte(v)) == v % 0x1_0000
  {
    var q, r := v / 256, v % 256;
    var qh, ql := q / 256, q % 256;
    assert v == 256 * q + r;
    assert q == 256 * qh + ql;
    assert v == 0x1_0000 * qh + (256 * ql + r);
    WordSplitUnique(v, qh, 256 * ql + r);
  }

  /** Splitting a 16-bit word into its bytes gives back the bytes it was made of. */
  lemma BytesOfWord(hi: byte, lo: byte)
    ensures HighByte(Word(hi, lo)) == hi && LowByte(Word(hi, lo)) == lo
  {
    var v := Word(hi, lo);
    ByteSplitUnique(v, hi as int, lo as int);
    ByteSplitUnique(hi as int, 0, hi as int);
  }

  /**
   * The frame is 16 bytes: the fixed prefix, the slave id, function code
   * 0x03, then the start address and the quantity as big-endian words holding
   * their low 16 bits; a slave id outside 0..255 gives no frame.
   */
  lemma CustomRequestLayout(slave: int, address: int, count: int)
    ensures CustomRequest(slave, address, count).Some? <==> 0 <= slave < 256
    ensures CustomRequest(slave, address, count).Some? ==>
      var f := CustomRequest(slave, address, count).value;
      && |f| == 16
      && f[..10] == Prefix
      && f[10] as int == slave
      && f[11] == 0x03
      && Word(f[12], f[13]) == address % 0x1_0000
      && Word(f[14], f[15]) == count % 0x1_0000
  {
    WordOfBytes(address);
    WordOfBytes(count);
  }

  /** Decoding a frame gives the slave id, and the address and quantity reduced modulo 65536. */
  lemma CustomRequestRoundTrip(slave: int, address: int, count: int)
    requires 0 <= slave < 256
    ensures DecodeRequest(CustomRequest(slave, address, count).value) == Some((slave, address % 0x1_0000, count % 0x1_0000))
  {
    CustomRequestLayout(slave, address, count);
  }

  /** Every well-formed frame is the one built from the fields it decodes to. */
  lemma DecodeRequestRoundTrip(frame: seq<byte>)
    ensures DecodeRequest(frame).Some? ==>
      var (slave, address, count) := DecodeRequest(frame).value;
      CustomRequest(slave, address, count) == Some(frame)
  {
    if DecodeRequest(frame).Some? {
      BytesOfWord(frame[12], frame[13]);
      BytesOfWord(frame[14], frame[15]);
      var (slave, address, count) := DecodeRequest(frame).value;
      assert frame == frame[..10] + frame[10..];
      assert frame[10..] == [frame[10], frame[11], frame[12], frame[13], frame[14], frame[15]];
    }
  }

  /** The request the `/registers` route makes: slave 8, address 0, ten registers. */
  lemma DefaultCustomRequest()
    ensures CustomRequest(8, 0, 10) == Some([0xAA, 0xFE, 0x55, 0x00, 0x00, 0x01, 0x00, 0x00, 0x00, 0x06,
                                            0x08, 0x03, 0x00, 0x00, 0x00, 0x0A])
  {
    ByteSplitUnique(0, 0, 0);
    ByteSplitUnique(10, 0, 10);
    ByteSplitUnique(0, 0, 0);
    assert HighByte(0) == 0 && LowByte(0) == 0 && HighByte(10) == 0 && LowByte(10) == 10;
    var tail: seq<byte> := [0x08, 0x03, 0x00, 0x00, 0x00, 0x0A];
    assert CustomRequest(8, 0, 10) == Some(Prefix + tail);
    var expected: seq<byte> := [0xAA, 0xFE, 0x55, 0x00, 0x00, 0x01, 0x00, 0x00, 0x00, 0x06,
                                0x08, 0x03, 0x00, 0x00, 0x00, 0x0A];
    assert Prefix + tail == expected;
  }

  // ---------------------------------------------------------------------------
  // Read results
  // ---------------------------------------------------------------------------

  /**
   * What `read_holding_registers` hands back when it does not return None:
   * the custom path's dictionary `{"raw_response": ..., "protocol": ...}`,
   * or the standard path's list of registers.
   */
  datatype ReadResult = CustomPayload(rawResponse: string, protocol: string) | Registers(values: seq<Register>)

  /** The custom path's result: None for an empty response, else its upper-case hex text. */
  function ShapeResponse(response: seq<byte>): Option<ReadResult>
  {
    if response == [] then None else Some(CustomPayload(HexUpper(response), "custom"))
  }

  /**
   * An empty response gives None; any other gives a custom payload whose
   * text has two upper-case hexadecimal digits per byte and decodes back to
   * the response.
   */
  lemma ShapeResponseFacts(response: seq<byte>)
    ensures ShapeResponse(response).None? <==> response == []
    ensures ShapeResponse(response).Some? ==>
      var p := ShapeResponse(response).value;
      && p.CustomPayload?
      && p.protocol == "custom"
      && |p.rawResponse| == 2 * |response|
      && (forall i :: 0 <= i < |p.rawResponse| ==> IsUpperHexDigit(p.rawResponse[i]))
      && UnhexUpper(p.rawResponse) == Some(response)
  {
    HexUpperShape(response);
    HexUpperRoundTrip(response);
  }

  // ---------------------------------------------------------------------------
  // The custom exchange
  // ---------------------------------------------------------------------------

  /**
   * `_send_custom_request` on a fresh socket: settimeout(10), connect, build
   * the frame, send it, recv(1024), close, shape the response. Any exception
   * gives None and leaves the socket as it is (it is closed only after a
   * successful recv). The connection is made before the frame is built, so an
   * invalid slave id fails on a connected socket. The single `send` is taken
   * to send the whole frame.
   */
  function CustomExchangeW(w: Wire, host: string, port: int, slave: int, address: int, count: int): (Option<ReadResult>, Wire)
  {
    var t := SetTimeoutW(w, Some(SocketTimeout));
    var c := ConnectW(t.wire, Endpoint(host, port));
    if c.result.Failure? then (None, c.wire)
    else if CustomRequest(slave, address, count).None? then (None, c.wire)
    else
      var s := SendAllW(c.wire, CustomRequest(slave, address, count).value);
      if s.result.Failure? then (None, s.wire)
      else
        var r := RecvW(s.wire, ResponseLimit);
        if r.result.Failure? then (None, r.wire)
        else (ShapeResponse(r.result.value), CloseW(r.wire))
  }

  /** The peer lets the frame through and answers the first recv with bytes. */
  predicate Delivered(peer: Peer, port: int, slave: int)
  {
    && 0 <= port <= 65535
    && peer.connect == Accepts
    && 0 <= slave < 256
    && peer.sendsAccepted >= 1
    && |peer.replies| >= 1
    && peer.replies[0].Data?
  }

  /**
   * On a fresh socket the exchange sends at most the one frame, connects to
   * the service's endpoint, closes the socket exactly when the peer answered
   * with bytes, and yields a payload exactly when those bytes are not empty:
   * the shaped first reply, cut to 1024 bytes.
   */
  lemma CustomExchangeShape(peer: Peer, host: string, port: int, slave: int, address: int, count: int)
    ensures var (r, w) := CustomExchangeW(FreshWire(peer), host, port, slave, address, count);
      && w.timeout == Some(SocketTimeout)
      && (0 <= port <= 65535 ==> w.remote == Some(Endpoint(host, port)))
      && (w.sent == [] || (CustomRequest(slave, address, count).Some? && w.sent == [CustomRequest(slave, address, count).value]))
      && (w.phase == Closed <==> Delivered(peer, port, slave))
      && (r.Some? <==> Delivered(peer, port, slave) && peer.replies[0].bytes != [])
      && (Delivered(peer, port, slave) ==>
            && w.sent == [CustomRequest(slave, address, count).value]
            && r == ShapeResponse(Take(peer.replies[0].bytes, ResponseLimit)))
  {
    CustomRequestLayout(slave, address, count);
  }

  // ---------------------------------------------------------------------------
  // The service state
  // ---------------------------------------------------------------------------

  /**
   * The pymodbus client as far as the service sees it: the settings it was
   * made with, its `connected` flag, and the read requests issued on it
   * (slave, address, count), in order.
   */
  datatype ModbusClient = ModbusClient(host: string, port: int, timeout: int, retries: int,
                                       connected: bool, requests: seq<(int, int, int)>)

  /** What pymodbus's `read_holding_registers` returns: an error response or the registers. */
  datatype RegisterReply = ErrorReply | RegisterValues(registers: seq<Register>)

  datatype ServiceState = ServiceState(host: string, port: int, useCustomProtocol: bool,
                                       client: Option<ModbusClient>, isConnected: bool)

  function InitialState(host: string, port: int, useCustomProtocol: bool): ServiceState
  {
    ServiceState(host, port, useCustomProtocol, None, false)
  }

  /** The module-level instance: the default endpoint with the custom protocol on. */
  const GlobalInstance: ServiceState := InitialState(DefaultHost, DefaultPort, true)

  /**
   * `connect()`: a failed probe returns False and changes nothing; otherwise a
   * new client replaces the old one, and only a client connect returning True
   * sets `is_connected` (nothing here clears it). A raising client connect is
   * caught and returns False.
   */
  function ConnectS(st: ServiceState, probe: bool, clientConnect: Call<bool>): (bool, ServiceState)
  {
    if !probe then (false, st)
    else
      var created := ModbusClient(st.host, st.port, ClientTimeout, ClientRetries, false, []);
      if clientConnect == Returns(true) then
        (true, st.(client := Some(created.(connected := true)), isConnected := true))
      else (false, st.(client := Some(created)))
  }

  /** The guard of `_send_standard_request` under which it connects first. */
  predicate NeedsConnect(st: ServiceState)
  {
    !st.isConnected || st.client.None? || !st.client.value.connected
  }

  /**
   * `_send_standard_request`: connect first when NeedsConnect, giving None if
   * that fails; then issue the read on the client, giving None when it raises
   * or returns an error response.
   */
  function StandardS(st: ServiceState, slave: int, address: int, count: int,
                     probe: bool, clientConnect: Call<bool>, reply: Call<RegisterReply>): (Option<ReadResult>, ServiceState)
  {
    var (ok, s1) := if NeedsConnect(st) then ConnectS(st, probe, clientConnect) else (true, st);
    if !ok || s1.client.None? then (None, s1)
    else
      var s2 := s1.(client := Some(s1.client.value.(requests := s1.client.value.requests + [(slave, address, count)])));
      if reply.Returns? && reply.value.RegisterValues? then (Some(Registers(reply.value.registers)), s2)
      else (None, s2)
  }

  /** `read_holding_registers`: the custom path, which leaves the service as it is, or the standard one. */
  function ReadS(st: ServiceState, slave: int, address: int, count: int,
                 probe: bool, clientConnect: Call<bool>, reply: Call<RegisterReply>, peer: Peer): (Option<ReadResult>, ServiceState)
  {
    if st.useCustomProtocol then (CustomExchangeW(FreshWire(peer), st.host, st.port, slave, address, count).0, st)
    else StandardS(st, slave, address, count, probe, clientConnect, reply)
  }

  /** `close()`: with a client, close it and clear `is_connected`; without one, nothing. */
  function CloseS(st: ServiceState): ServiceState
  {
    if st.client.None? then st
    else st.(client := Some(st.client.value.(connected := false)), isConnected := false)
  }

  /**
   * connect returns True exactly when the probe succeeds and the client
   * connect returns True; a failed probe changes nothing; `is_connected` ends
   * true exactly when it was true before or this connect succeeded; a probe
   * that succeeds always installs a new client for the service's endpoint.
   */
  lemma ConnectFacts(st: ServiceState, probe: bool, clientConnect: Call<bool>)
    ensures var (ok, st') := ConnectS(st, probe, clientConnect);
      && (ok <==> probe && clientConnect == Returns(true))
      && (!probe ==> st' == st)
      && (st'.isConnected <==> st.isConnected || ok)
      && (probe ==> st'.client == Some(ModbusClient(st.host, st.port, ClientTimeout, ClientRetries, ok, [])))
      && st'.host == st.host && st'.port == st.port && st'.useCustomProtocol == st.useCustomProtocol
  {
  }

  /**
   * A connect that fails after an earlier success leaves `is_connected` true
   * while the new client is not connected, so the next standard read
   * reconnects.
   */
  lemma ConnectLeavesStaleFlag(st: ServiceState, clientConnect: Call<bool>)
    requires st.isConnected && clientConnect != Returns(true)
    ensures var (ok, st') := ConnectS(st, true, clientConnect);
      !ok && st'.isConnected && !st'.client.value.connected && NeedsConnect(st')
  {
  }

  /**
   * The standard path connects only when NeedsConnect holds: otherwise the
   * probe and client connect play no part and the read goes to the existing
   * client. When a needed connect fails, no read is issued and the result is
   * None. It yields registers exactly when the connection is there and the
   * read returns registers, and then those registers, recorded as one read
   * request of (slave, address, count) on a connected client.
   */
  lemma StandardFacts(st: ServiceState, slave: int, address: int, count: int,
                      probe: bool, clientConnect: Call<bool>, reply: Call<RegisterReply>)
    ensures var (r, st') := StandardS(st, slave, address, count, probe, clientConnect, reply);
      var connected := !NeedsConnect(st) || (probe && clientConnect == Returns(true));
      && (!NeedsConnect(st) ==>
            st' == st.(client := Some(st.client.value.(requests := st.client.value.requests + [(slave, address, count)]))))
      && (!connected ==> (r, st') == (None, ConnectS(st, probe, clientConnect).1))
      && (r.Some? <==> connected && reply.Returns? && reply.value.RegisterValues?)
      && (r.Some? ==> r.value == Registers(reply.value.registers))
      && (connected ==> st'.isConnected && !NeedsConnect(st') && st'.client.value.requests[|st'.client.value.requests| - 1] == (slave, address, count))
      && st'.useCustomProtocol == st.useCustomProtocol
  {
  }

  /**
   * read_holding_registers takes the custom path exactly when the service is
   * configured for it: that path leaves the service unchanged and yields only
   * custom payloads; the standard path yields only register lists.
   */
  lemma ReadDispatch(st: ServiceState, slave: int, address: int, count: int,
                     probe: bool, clientConnect: Call<bool>, reply: Call<RegisterReply>, peer: Peer)
    ensures var (r, st') := ReadS(st, slave, address, count, probe, clientConnect, reply, peer);
      && (st.useCustomProtocol ==>
            && st' == st
            && r == CustomExchangeW(FreshWire(peer), st.host, st.port, slave, address, count).0
            && (r.Some? ==> r.value.CustomPayload?))
      && (!st.useCustomProtocol ==>
            && (r, st') == StandardS(st, slave, address, count, probe, clientConnect, reply)
            && (r.Some? ==> r.value.Registers?))
  {
    if st.useCustomProtocol {
      CustomExchangeShape(peer, st.host, st.port, slave, address, count);
      var raw := CustomExchangeW(FreshWire(peer), st.host, st.port, slave, address, count);
      if raw.0.Some? {
        ShapeResponseFacts(Take(peer.replies[0].bytes, ResponseLimit));
      }
    }
  }

  /** close clears `is_connected` exactly when there is a client, and a closed service reconnects before a standard read. */
  lemma CloseFacts(st: ServiceState)
    ensures st.client.None? ==> CloseS(st) == st
    ensures st.client.Some? ==>
      && !CloseS(st).isConnected
      && CloseS(st).client == Some(st.client.value.(connected := false))
      && NeedsConnect(CloseS(st))
  {
  }

  // ---------------------------------------------------------------------------
  // The service object
  // ---------------------------------------------------------------------------

  class ModbusService {
    const host: string
    const port: int
    const useCustomProtocol: bool
    var client: Option<ModbusClient>
    var isConnected: bool

    function Value(): ServiceState
      reads this
    {
      ServiceState(host, port, useCustomProtocol, client, isConnected)
    }

    constructor (host: string := DefaultHost, port: int := DefaultPort, useCustomProtocol: bool := true)
      ensures Value() == InitialState(host, port, useCustomProtocol)
    {
      this.host, this.port, this.useCustomProtocol := host, port, useCustomProtocol;
      client, isConnected := None, false;
    }

    /** `connect()`, given the probe's answer and the outcome of the client's connect call. */
    method Connect(probe: bool, clientConnect: Call<bool>) returns (ok: bool)
      modifies this
      ensures (ok, Value()) == ConnectS(old(Value()), probe, clientConnect)
    {
      if !probe {
        return false;
      }
      client := Some(ModbusClient(host, port, ClientTimeout, ClientRetries, false, []));
      if clientConnect == Returns(true) {
        client := Some(client.value.(connected := true));
        isConnected := true;
        return true;
      }
      return false;
    }

    /** `_send_custom_request` on a socket of its own, talking to `peer`; the service is left as it is. */
    method SendCustomRequest(slave: int := 8, address: int := 0, count: int := 10, peer: Peer) returns (r: Option<ReadResult>, sock: Socket)
      ensures (r, sock.Value()) == CustomExchangeW(FreshWire(peer), host, port, slave, address, count)
    {
      sock := new Socket(peer);
      var _ := sock.SetTimeout(Some(SocketTimeout));
      var connected := sock.Connect(Endpoint(host, port));
      if connected.Failure? {
        return None, sock;
      }
      var frame := CustomRequest(slave, address, count);
      if frame.None? {
        return None, sock;
      }
      var sent := sock.SendAll(frame.value);
      if sent.Failure? {
        return None, sock;
      }
      var response := sock.Recv(ResponseLimit);
      if response.Failure? {
        return None, sock;
      }
      sock.Close();
      r := ShapeResponse(response.value);
    }

    /** `_send_standard_request`, given the probe, the client connect and the read call's outcomes. */
    method SendStandardRequest(slave: int := 8, address: int := 0, count: int := 10,
                               probe: bool, clientConnect: Call<bool>, reply: Call<RegisterReply>) returns (r: Option<ReadResult>)
      modifies this
      ensures (r, Value()) == StandardS(old(Value()), slave, address, count, probe, clientConnect, reply)
    {
      if !isConnected || client.None? || !client.value.connected {
        var ok := Connect(probe, clientConnect);
        if !ok {
          return None;
        }
      }
      if client.None? {
        return None;
      }
      client := Some(client.value.(requests := client.value.requests + [(slave, address, count)]));
      if reply.Returns? && reply.value.RegisterValues? {
        return Some(Registers(reply.value.registers));
      }
      return None;
    }

    /** `read_holding_registers`: dispatch on the configured protocol. */
    method ReadHoldingRegisters(slave: int := 8, address: int := 0, count: int := 10,
                                probe: bool, clientConnect: Call<bool>, reply: Call<RegisterReply>, peer: Peer)
      returns (r: Option<ReadResult>)
      modifies this
      ensures (r, Value()) == ReadS(old(Value()), slave, address, count, probe, clientConnect, reply, peer)
    {
      if useCustomProtocol {
        var sock;
        r, sock := SendCustomRequest(slave, address, count, peer);
      } else {
        r := SendStandardRequest(slave, address, count, probe, clientConnect, reply);
      }
    }

    /** `close()`. */
    method Close()
      modifies this
      ensures Value() == CloseS(old(Value()))
    {
      if client.Some? {
        client := Some(client.value.(connected := false));
        isConnected := false;
      }
    }
  }
}
