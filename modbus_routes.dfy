/**
 * The register and status routes of `cor_pass/routes/modbus_routes.py`, as
 * decisions over what the service reports.
 *
 * Each route is a function of the answers it would get from the service (the
 * reachability probe, the read result, `is_connected`), returning the HTTP
 * outcome together with the service calls it makes, in order, so that "no
 * read is attempted" can be stated. Iterating a register list with `hex` and
 * `bin` only succeeds on a list of integers: on the custom path's dictionary
 * it iterates over the string keys and raises TypeError, which the generic
 * handler turns into a 500.
 */
module ModbusRoutes {
  import opened Wrappers
  import opened Encoding
  import opened Sockets
  import opened ModbusService

  const SlaveId: int := 8
  const MaxRegisters: int := 100
  const DefaultAddress: int := 0
  const DefaultCount: int := 10

  /** The service calls a route makes: `check_connection()` or `read_holding_registers(slave, address, count)`. */
  datatype ServiceCall = Probe | Read(slave: int, address: int, count: int)

  /** Why a route answers with an HTTPException. */
  datatype RouteFailure =
    | TooManyRegisters           // 400, more than 100 registers asked for
    | CountNotPositive           // 400
    | HostUnavailable(host: string, port: int)  // 503
    | NoRegisters                // 500, the read returned None
    | NotIntegers                // 500, hex()/bin() over the dictionary's string keys raised TypeError

  datatype HttpError = HttpError(status: int, failure: RouteFailure)

  /** The success body: `start_address` is present only on the ranged route. */
  datatype RegistersBody = RegistersBody(
    slaveId: int,
    startAddress: Option<int>,
    registersCount: int,
    registers: seq<Register>,
    registersHex: seq<string>,
    registersBinary: seq<string>)

  datatype Handled = Handled(response: Result<RegistersBody, HttpError>, calls: seq<ServiceCall>)

  /** The success body for a read result, or the TypeError of iterating a dictionary with hex(). */
  function RegistersResponse(startAddress: Option<int>, result: ReadResult): Result<RegistersBody, HttpError>
  {
    match result
    case CustomPayload(_, _) => Failure(HttpError(500, NotIntegers))
    case Registers(rs) =>
      Success(RegistersBody(SlaveId, startAddress, |rs|, rs,
                            seq(|rs|, i requires 0 <= i < |rs| => PyHex(rs[i])),
                            seq(|rs|, i requires 0 <= i < |rs| => PyBin(rs[i]))))
  }

  /** What follows a successful probe: the read, then None gives a 500 and a result is shaped. */
  function AfterRead(startAddress: Option<int>, read: Option<ReadResult>): Result<RegistersBody, HttpError>
  {
    if read.None? then Failure(HttpError(500, NoRegisters)) else RegistersResponse(startAddress, read.value)
  }

  /** `GET /registers/{start_address}/{count}`. */
  function ReadCustomRegisters(host: string, port: int, startAddress: int, count: int,
                               probe: bool, read: Option<ReadResult>): Handled
  {
    if count > MaxRegisters then Handled(Failure(HttpError(400, TooManyRegisters)), [])
    else if count <= 0 then Handled(Failure(HttpError(400, CountNotPositive)), [])
    else if !probe then Handled(Failure(HttpError(503, HostUnavailable(host, port))), [Probe])
    else Handled(AfterRead(Some(startAddress), read), [Probe, Read(SlaveId, startAddress, count)])
  }

  /** `GET /registers`: slave 8, address 0, ten registers. */
  function ReadModbusRegisters(host: string, port: int, probe: bool, read: Option<ReadResult>): Handled
  {
    if !probe then Handled(Failure(HttpError(503, HostUnavailable(host, port))), [Probe])
    else Handled(AfterRead(None, read), [Probe, Read(SlaveId, DefaultAddress, DefaultCount)])
  }

  datatype StatusBody = StatusBody(status: string, hostAvailable: bool, host: string, port: int)

  /** `GET /status`. */
  function Status(isConnected: bool, probe: bool, host: string, port: int): StatusBody
  {
    StatusBody(if isConnected then "connected" else "disconnected", probe, host, port)
  }

  /**
   * The shaped success body: the count is the number of registers, the hex
   * and binary lists have one entry per register, each of which reads back
   * as that register, and slave 8 and the start address are echoed; a custom
   * payload gives the TypeError's 500 instead.
   */
  lemma {:induction false} RegistersResponseFacts(startAddress: Option<int>, result: ReadResult)
    ensures RegistersResponse(startAddress, result).Success? <==> result.Registers?
    ensures result.CustomPayload? ==> RegistersResponse(startAddress, result) == Failure(HttpError(500, NotIntegers))
    ensures RegistersResponse(startAddress, result).Success? ==>
      var b := RegistersResponse(startAddress, result).value;
      && b.slaveId == 8
      && b.startAddress == startAddress
      && b.registers == result.values
      && b.registersCount == |b.registers| == |b.registersHex| == |b.registersBinary|
      && (forall i :: 0 <= i < |b.registersHex| ==> ParsePrefixed(b.registersHex[i], "0x", 16, LowerHexAlphabet) == Some(b.registers[i] as int))
      && (forall i :: 0 <= i < |b.registersBinary| ==> ParsePrefixed(b.registersBinary[i], "0b", 2, BinaryAlphabet) == Some(b.registers[i] as int))
  {
    if result.Registers? {
      var b := RegistersResponse(startAddress, result).value;
      forall i | 0 <= i < |b.registersHex|
        ensures ParsePrefixed(b.registersHex[i], "0x", 16, LowerHexAlphabet) == Some(b.registers[i] as int)
      {
        PyHexRoundTrip(b.registers[i]);
      }
      forall i | 0 <= i < |b.registersBinary|
        ensures ParsePrefixed(b.registersBinary[i], "0b", 2, BinaryAlphabet) == Some(b.registers[i] as int)
      {
        PyBinRoundTrip(b.registers[i]);
      }
    }
  }

  /**
   * The ranged route checks the count before anything else: above 100 or not
   * positive gives a 400 with no service call; a failed probe gives a 503
   * and no read; only a valid count and a successful probe read slave 8 from
   * the given address, and then None gives a 500. It succeeds exactly when
   * the read gives registers.
   */
  lemma ReadCustomRegistersFacts(host: string, port: int, startAddress: int, count: int,
                                 probe: bool, read: Option<ReadResult>)
    ensures var h := ReadCustomRegisters(host, port, startAddress, count, probe, read);
      && (count > 100 ==> h == Handled(Failure(HttpError(400, TooManyRegisters)), []))
      && (count <= 0 ==> h == Handled(Failure(HttpError(400, CountNotPositive)), []))
      && (0 < count <= 100 && !probe ==> h == Handled(Failure(HttpError(503, HostUnavailable(host, port))), [Probe]))
      && (Read(8, startAddress, count) in h.calls <==> 0 < count <= 100 && probe)
      && (0 < count <= 100 && probe && read.None? ==> h.response == Failure(HttpError(500, NoRegisters)))
      && (h.response.Success? <==> 0 < count <= 100 && probe && read.Some? && read.value.Registers?)
      && (h.response.Success? ==> h.response.value == RegistersResponse(Some(startAddress), read.value).value)
      && (h.response.Failure? ==> h.response.error.status in {400, 500, 503})
  {
  }

  /** `/registers` probes, then reads exactly slave 8, address 0, count 10; it succeeds exactly when the read gives registers. */
  lemma ReadModbusRegistersFacts(host: string, port: int, probe: bool, read: Option<ReadResult>)
    ensures var h := ReadModbusRegisters(host, port, probe, read);
      && (!probe ==> h == Handled(Failure(HttpError(503, HostUnavailable(host, port))), [Probe]))
      && (probe ==> h.calls == [Probe, Read(8, 0, 10)])
      && (probe && read.None? ==> h.response == Failure(HttpError(500, NoRegisters)))
      && (h.response.Success? <==> probe && read.Some? && read.value.Registers?)
      && (h.response.Success? ==> h.response.value.startAddress.None? && h.response.value.registersCount == |read.value.values|)
  {
  }

  /** `/status` reports "connected" exactly when the service's flag is set, and the probe's answer as `host_available`. */
  lemma StatusFacts(isConnected: bool, probe: bool, host: string, port: int)
    ensures Status(isConnected, probe, host, port).status == "connected" <==> isConnected
    ensures Status(isConnected, probe, host, port).status == "disconnected" <==> !isConnected
    ensures Status(isConnected, probe, host, port).hostAvailable == probe
  {
    assert "connected" != "disconnected" by { assert "connected"[0] != "disconnected"[0]; }
  }

  /**
   * With the module-level service (custom protocol on), the register routes
   * never succeed: whatever the peer does, the read yields None or a custom
   * payload, and both end in a 500 once the probe succeeds.
   */
  lemma GlobalInstanceNeverServesRegisters(startAddress: int, count: int, probe: bool, readProbe: bool,
                                           clientConnect: Call<bool>, reply: Call<RegisterReply>, peer: Peer)
    ensures var (r, st) := ReadS(GlobalInstance, SlaveId, startAddress, count, readProbe, clientConnect, reply, peer);
      && st == GlobalInstance
      && ReadCustomRegisters(GlobalInstance.host, GlobalInstance.port, startAddress, count, probe, r).response.Failure?
      && (0 < count <= 100 && probe ==>
            ReadCustomRegisters(GlobalInstance.host, GlobalInstance.port, startAddress, count, probe, r).response.error.status == 500)
    ensures var (r, st) := ReadS(GlobalInstance, SlaveId, DefaultAddress, DefaultCount, readProbe, clientConnect, reply, peer);
      && ReadModbusRegisters(GlobalInstance.host, GlobalInstance.port, probe, r).response.Failure?
      && (probe ==> ReadModbusRegisters(GlobalInstance.host, GlobalInstance.port, probe, r).response.error.status == 500)
  {
    ReadDispatch(GlobalInstance, SlaveId, startAddress, count, readProbe, clientConnect, reply, peer);
    ReadDispatch(GlobalInstance, SlaveId, DefaultAddress, DefaultCount, readProbe, clientConnect, reply, peer);
  }
}
