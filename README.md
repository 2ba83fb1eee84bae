# Device communication layer: a Dafny model

This project models the part of the repository that talks to hardware over
raw TCP sockets, and proves properties of that model:

- **The Brother QL network backend** (`brother_ql/backends/network.py`): the
  `tcp://host[:port]` device specifier, the one persistent socket with
  TCP_NODELAY, `_write` (a 10 s timeout around `sendall`), the three `_read`
  strategies (`socket_timeout`, `try_twice`, `select`), `_dispose`, and the
  one-shot `send_over_network`.
- **Label printing over LPR** (`cor_pass/routes/label_printer.py`), the
  line-printer-daemon protocol of RFC 1179: the label layout of
  `create_label_image`; `try_lpr_print`, which makes one attempt per queue
  (`raw`, `lp`, `LPT1`, `PRINTER`, `Brother`, `label`) until one prints;
  `send_lpr_job`, which checks acknowledgements, sends the control file, and
  sends the data in 4096-byte chunks; and the fallback cascade of the
  `/print_code_label` route.
- **The Modbus register reader** (`cor_pass/services/modbus_service.py`):
  - the 16-byte custom frame: the vendor prefix `AA FE 55 00 00 01 00 00 00 06`,
    then the tail of a Read Holding Registers request (function code 0x03, as
    in section 6.3 of the Modbus Application Protocol Specification V1.1b3);
  - the shaping of the raw response as upper-case hex;
  - the `ModbusService` object with its `client` and `is_connected` state:
    connect gated on the reachability probe, lazy reconnection on the
    standard path, dispatch on `use_custom_protocol`, and close.
- **The register routes** (`cor_pass/routes/modbus_routes.py`):
  - count validation comes before any service call;
  - a failed probe gives 503, a missing read result gives 500;
  - a successful read is shaped into the `hex`/`bin` lists;
  - `/status`.

## How it is organised

| file | module | contents |
|---|---|---|
| `wrappers.dfy` | `Wrappers` | `Option`, `Result`, `Call` (a foreign call that returned a value or raised) |
| `encoding.dfy` | `Encoding` | the Python idioms the code uses, each with its inverse: `bytes`, `str.encode()` (UTF-8) and `encode('ascii')`, `str(n)`/`int(s)`, `hex`/`bin`, `bytes.hex().upper()`, `str.partition`, `s[:n]`, fixed-size slicing |
| `sockets.dfy` | `Sockets` | a scripted TCP socket: the whole socket state as a value `Wire`, one step function per socket call, and a `Socket` class whose methods are proved to act exactly as those functions |
| `network_backend.dfy` | `NetworkBackend` | the backend class and its exchanges |
| `label_printer.dfy` | `LabelPrinter` | layout, `try_lpr_print`, `send_lpr_job`, `print_label` |
| `modbus_service.dfy` | `ModbusService` | the frame, the response shaping, the service state and its class |
| `modbus_routes.dfy` | `ModbusRoutes` | the route decisions |

Nothing is sent over a network. How the other end behaves is a parameter:
`Peer(connect, sendsAccepted, replies)` scripts the answer to `connect`,
the number of `sendall` calls that succeed, and one entry per `recv` call
(bytes, silence until the timeout, or a reset). A `recv(n)` returns at most
the first `n` bytes of its entry and consumes the whole entry. Each exchange is a pure
function of the socket state, and characterisation lemmas are proved about
it. The methods that drive a `Socket` object step by step are proved equal
to those functions.

Parameters stand in for calls into code outside the model:
- `check_connection()`: the probe's answer;
- pymodbus `connect`/`read_holding_registers`: a `Call<...>`;
- the `BrotherQLRaster`/`convert` rendering: a `Call<seq<byte>>`;
- `try_system_lpr`: a boolean;
- `socket.gethostname()` and `uuid.uuid4().hex`: strings;
- the clock and `select` of the polling strategy: a list of `Poll(elapsed, readable)`.

Behaviour of the code worth knowing:
- `_dispose` is not idempotent. A second call raises, because `shutdown` needs
  a connected socket (`NetworkBackend.DisposeTwiceRaises`).
- `_write` restores the read timeout only when `sendall` succeeds
  (`NetworkBackend.WriteShape`).
- An unknown read strategy is refused when reading. The constructor never
  sees one, because `__init__` always sets `socket_timeout`.
- A read that returns `None` gives HTTP 500. Only a failed probe gives 503.
- Not every socket is closed on every path. The custom Modbus request closes
  its socket only after a successful `recv`
  (`ModbusService.CustomExchangeShape`).
- `try_lpr_print` never checks the acknowledgements of its intermediate
  steps. Only the reply to the data decides, and it must begin with a NUL
  byte.
- `send_lpr_job` treats its acknowledgements unevenly. A reply other than a
  lone NUL to either size line, or to the data, raises. The replies to the
  job line and to the control file are only logged
  (`LabelPrinter.SendLprJobSucceedsIff`, `LabelPrinter.SendLprJobNacks`).
- As written, `try_system_lpr` always returns False: `tempfile` and
  `subprocess` are not imported, so it raises NameError, which its own
  handler catches. The route's second stage is therefore a parameter, not a
  model of the subprocess.
- With the module-level service (`use_custom_protocol=True`), a successful
  read returns the dictionary `{"raw_response", "protocol"}`. The route then
  iterates over it with `hex()`, which raises TypeError on the string keys,
  and answers 500. So under the shipped configuration the register routes
  never succeed (`ModbusRoutes.GlobalInstanceNeverServesRegisters`). The
  model reproduces this behaviour as written.

## Model

| member | source | states |
|---|---|---|
| NetworkBackend.ParseSpecifierShape | brother_ql/backends/network.py:42-49 | after an optional `tcp://`, the host is the text before the first `:`; the port is 9100 when the colon is missing or nothing follows it; otherwise the specifier parses exactly when the text after the colon is an integer, and a non-integer is InvalidPort (the ValueError of `int`) |
| NetworkBackend.ParseSpecifierRoundTrip | brother_ql/backends/network.py:43-49 | `tcp://host:port`, `tcp://host` and `host` parse back to the endpoint, with 9100 when no port is given |
| NetworkBackend.StrategyTimeoutCases | brother_ql/backends/network.py:56-61 | `socket_timeout` and `try_twice` run with `read_timeout`; every other strategy runs non-blocking (timeout 0) |
| NetworkBackend.OpenShape | brother_ql/backends/network.py:51-61 | opening succeeds exactly when the port is valid, the socket is not already non-blocking (the fresh socket the constructor opens never is) and the host accepts; the socket is then connected to the endpoint with TCP_NODELAY and the strategy's timeout, and nothing has been sent |
| NetworkBackend.WriteShape | brother_ql/backends/network.py:68-71 | the write succeeds exactly when the socket is open and the peer takes the send; the buffer is then sent once and the timeout is back at `read_timeout`; a failed send sends nothing and leaves the 10 s timeout |
| NetworkBackend.TimedReadShape | brother_ql/backends/network.py:74-85 | between 1 and `tries` receives; all but the last timed out; the result is the last receive's outcome, or empty bytes when all `tries` timed out |
| NetworkBackend.SelectReadShape | brother_ql/backends/network.py:86-95 | at most one receive per poll, each before the last got nothing; a non-empty result or an error is the last receive's; an empty result means every receive got nothing (that readable polls do lead to receives is `SelectReadReceives`) |
| NetworkBackend.SelectReadDeadline | brother_ql/backends/network.py:86-95 | the loop stops at the deadline: at most one receive per poll made before the first poll at or past `read_timeout`, and when the first poll is already past it the result is empty bytes with the socket untouched |
| NetworkBackend.SelectReadReceives | brother_ql/backends/network.py:86-95 | every readable poll before the deadline leads to a `recv` until one returns data or raises: at most as many receives as such polls, and exactly as many when the result is empty bytes |
| NetworkBackend.DisposeTwiceRaises | brother_ql/backends/network.py:99-101 | dispose succeeds exactly on a connected socket and leaves it closed; a second dispose raises |
| NetworkBackend.SendOverNetworkShape | brother_ql/backends/network.py:104-117 | the socket always ends closed, nothing is received, and the data is sent exactly when the connect and the send succeed |
| NetworkBackend.BrotherQLBackendNetwork.Create | brother_ql/backends/network.py:33-66 | any other object is refused; an integer handle is kept as `dev`; a bad port raises InvalidPort; otherwise the backend owns a new socket in exactly the state the open exchange leaves, with timeout 0.01 and strategy `socket_timeout` |
| NetworkBackend.BrotherQLBackendNetwork.Write | brother_ql/backends/network.py:68-71 | the socket ends in the state the write exchange gives, and the exchange's error is raised; with no socket, AttributeError |
| NetworkBackend.BrotherQLBackendNetwork.Read | brother_ql/backends/network.py:73-97 | an unknown strategy raises and touches nothing; the timed strategies make 1 or 2 tries and `select` follows the polls, each exactly as its exchange function says |
| NetworkBackend.BrotherQLBackendNetwork.Dispose | brother_ql/backends/network.py:99-101 | shutdown then close, exactly as the dispose exchange; a failing shutdown raises before the close |
| NetworkBackend.SendOverNetwork | brother_ql/backends/network.py:104-117 | returns a new socket in the state `SendOverNetworkW` gives: connect, send if connected, always close |
| LabelPrinter.LabelLinesShape | cor_pass/routes/label_printer.py:25 | the lines concatenate to the text; every line has 1 to 40 characters and all but the last exactly 40; there are ceil(len/40) lines; line k is `text[40k:40k+40]` |
| LabelPrinter.CreateLabelImage | cor_pass/routes/label_printer.py:18-36 | the image is `max_width` wide and `min(max_height, line_height*lines+20)` high; line k is drawn at (10, 10 + k*line_height), in order |
| LabelPrinter.SplitControlFile | cor_pass/routes/label_printer.py:137-143 | a control file built from newline-free lines splits back into exactly those lines |
| LabelPrinter.ControlFileLines | cor_pass/routes/label_printer.py:137-143 | `send_lpr_job`'s control file is the lines H (at most 31 characters of the host), Ppython_script, Jlabel_print, ldfA<queue>, Nprintjob_ (at most 8 characters of the job id); `try_lpr_print`'s is H, Ppython, Jlabel, ldfA<queue> |
| LabelPrinter.ControlFileAscii | cor_pass/routes/label_printer.py:151 | a control file is ASCII (so `encode('ascii')` succeeds) exactly when all its lines are |
| LabelPrinter.ControlFileCount | cor_pass/routes/label_printer.py:57-60 | the announced `len(cf)` counts characters; it equals the number of bytes sent exactly when the truncated host name is ASCII |
| LabelPrinter.ExchangeShape | cor_pass/routes/label_printer.py:52-67 | the sendall/recv sequence gets a prefix of its messages through; it succeeds exactly when the peer takes each send and answers each recv with bytes, and then returns the last answer cut to `n` bytes |
| LabelPrinter.AttemptPrintsIff | cor_pass/routes/label_printer.py:47-71 | an attempt prints exactly when the printer accepts the connection and all five sends, answers each with bytes, and its answer to the data begins with a NUL byte |
| LabelPrinter.AttemptSends | cor_pass/routes/label_printer.py:47-67 | what an attempt sends is a prefix of its five messages, and all of them when it prints; the socket ends closed with the 10 s timeout |
| LabelPrinter.AttemptOn | cor_pass/routes/label_printer.py:48-71 | the straight-line exchange on the socket leaves the socket, and gives the result, exactly as the attempt function says |
| LabelPrinter.LprAttempt | cor_pass/routes/label_printer.py:44-75 | one queue's attempt in its `with` block, on a fresh socket, equals the attempt function |
| LabelPrinter.FirstSuccessShape | cor_pass/routes/label_printer.py:43-77 | attempts go in order until one succeeds: all earlier ones failed, the last decides, all are made when none succeeds, and the result is true exactly when some attempt succeeds |
| LabelPrinter.TryLprPrintOrder | cor_pass/routes/label_printer.py:39-77 | between one and six queues are tried, in the order raw, lp, LPT1, PRINTER, Brother, label; every queue before the last one tried failed; all six are tried when none prints; the result is true exactly when some queue's attempt prints |
| LabelPrinter.TryLprPrint | cor_pass/routes/label_printer.py:39-77 | the loop with its early return gives the first-success result over the queue attempts, together with the sockets it used |
| LabelPrinter.SendAndCheckFacts | cor_pass/routes/label_printer.py:122-127 | on success the command was ASCII, it was sent with a newline, and exactly one reply was received; a failure is never an acknowledgement error |
| LabelPrinter.SendAndCheck | cor_pass/routes/label_printer.py:122-127 | the socket steps equal the `send_and_check` exchange |
| LabelPrinter.ControlStageFacts | cor_pass/routes/label_printer.py:129-153 | when steps 1 and 2 go through: three receives, the second a lone NUL, and the job line, the size line and the control file with a NUL sent in order; a control-file NACK carries the second reply, which is not a lone NUL (the converse is `ControlStageIff`) |
| LabelPrinter.ControlStageIff | cor_pass/routes/label_printer.py:129-153 | steps 1 and 2 go through exactly when the job line, the size line and the control file are ASCII, the peer takes three sends and answers each, and its answer to the size line is a lone NUL; the answers to the job line and to the control file may be any data |
| LabelPrinter.ControlStageNack | cor_pass/routes/label_printer.py:146-148 | when the size line gets an answer other than a lone NUL, steps 1 and 2 raise ControlFileNotAcked with that answer |
| LabelPrinter.DataStageFacts | cor_pass/routes/label_printer.py:155-176 | when step 3 goes through: two receives, both a lone NUL, and the size line, the chunks and a NUL sent; a data-file NACK and a missing confirmation each carry the reply at fault (the converse is `DataStageIff`) |
| LabelPrinter.DataStageIff | cor_pass/routes/label_printer.py:155-176 | step 3 goes through exactly when the size line is ASCII, the peer takes the line, every chunk and the NUL, and answers the line and the NUL each with a lone NUL |
| LabelPrinter.DataStageNack | cor_pass/routes/label_printer.py:157-159 | when the data-file size line gets an answer other than a lone NUL, step 3 raises DataFileNotAcked with that answer |
| LabelPrinter.DataStageUnconfirmed | cor_pass/routes/label_printer.py:169-176 | when everything was sent and the final answer is data other than a lone NUL, step 3 raises PrintNotConfirmed with that answer |
| LabelPrinter.SendChunksShape | cor_pass/routes/label_printer.py:163-167 | the chunk loop sends every chunk in order exactly when the socket is open and the peer takes that many sends, and otherwise a prefix of them |
| LabelPrinter.DataChunks | cor_pass/routes/label_printer.py:164-165 | the chunks are `data[i:i+4096]` in order: each has 1 to 4096 bytes, and together they are the data |
| LabelPrinter.SendChunks | cor_pass/routes/label_printer.py:163-167 | the `for` loop over offsets sends exactly what the chunk exchange sends |
| LabelPrinter.JobOn | cor_pass/routes/label_printer.py:116-176 | the statement-by-statement job over a socket equals the job exchange |
| LabelPrinter.JobFacts | cor_pass/routes/label_printer.py:112-176 | success needs five receives, the second, fourth and fifth each a lone NUL, and all messages sent; each NACK error carries the reply at its position (when success happens is `SendLprJobSucceedsIff`) |
| LabelPrinter.SendLprJobShape | cor_pass/routes/label_printer.py:110-190 | the socket is always closed; the call returns only True, and then the three checked replies were lone NUL bytes and the printer got the job's messages in order (when it returns True is `SendLprJobSucceedsIff`) |
| LabelPrinter.SendLprJobAcks | cor_pass/routes/label_printer.py:146-176 | a control-file or data-file error, or a missing confirmation, carries the reply (second, fourth or fifth) that was not a lone NUL (which reply causes which error is `SendLprJobNacks`) |
| LabelPrinter.SendLprJobSucceedsIff | cor_pass/routes/label_printer.py:110-176 | `send_lpr_job` returns True exactly when the timeout is positive (zero makes the socket non-blocking, so `connect` raises BlockingIOError; a negative one raises ValueError), the printer accepts the connection, the queue name and the kept parts of the host name and job id are ASCII, the printer takes the five messages and every chunk, and answers with five data replies of which the second, fourth and fifth are lone NULs (the first and third may be anything: they are only logged); it never returns False |
| LabelPrinter.SendLprJobNacks | cor_pass/routes/label_printer.py:146-176 | when the printer accepts everything and answers all five messages with data, the first checked answer that is not a lone NUL decides the error: the control-file size line's gives ControlFileNotAcked, the data-file size line's DataFileNotAcked, the data's PrintNotConfirmed, each carrying that answer |
| LabelPrinter.JobTextAscii | cor_pass/routes/label_printer.py:122-151 | the job line, both size lines and the control file can be encoded as ASCII exactly when the queue name, the first 31 characters of the host name and the first 8 of the job id are ASCII |
| LabelPrinter.SendLprJob | cor_pass/routes/label_printer.py:110-190 | `send_lpr_job` on a fresh socket equals the job exchange followed by the close in `finally` |
| LabelPrinter.Cascade | cor_pass/routes/label_printer.py:213-221 | the answer is `lpr` exactly when LPR printed, `system_lpr` exactly when only the system command did, and an error exactly when neither did |
| LabelPrinter.PrintLabel | cor_pass/routes/label_printer.py:193-225 | a rendering exception gives an error; otherwise the answer is `lpr` exactly when `try_lpr_print` on the raster data prints, and otherwise the cascade's |
| Encoding.Partition | brother_ql/backends/network.py:45 | `str.partition`: the head has no separator, the parts concatenate to the input, and the separator part is empty exactly when the separator is absent |
| Encoding.ParseIntDecimal | brother_ql/backends/network.py:47 | `int(str(n)) == n` |
| Encoding.Utf8Length | cor_pass/routes/label_printer.py:58-60 | the UTF-8 length equals the character count exactly when the text is ASCII |
| Encoding.HexUpperRoundTrip | cor_pass/services/modbus_service.py:97 | `bytes.hex().upper()` decodes back to the bytes |
| Encoding.PyHexRoundTrip | cor_pass/routes/modbus_routes.py:128 | `int(hex(n), 16) == n` for every integer |
| Encoding.PyBinRoundTrip | cor_pass/routes/modbus_routes.py:129 | `int(bin(n), 2) == n` for every integer |
| ModbusService.CustomRequestLayout | cor_pass/services/modbus_service.py:78-85 | a frame exists exactly when the slave id is in 0..255; it is 16 bytes: the 10-byte prefix, the slave id, 0x03, then the address and the count as big-endian words equal to their values mod 65536 |
| ModbusService.WordOfBytes | cor_pass/services/modbus_service.py:83-84 | `((v >> 8) & 0xFF, v & 0xFF)` read as a big-endian word is `v mod 65536`, for negative `v` too |
| ModbusService.CustomRequestRoundTrip | cor_pass/services/modbus_service.py:78-85 | decoding a frame gives (slave, address mod 65536, count mod 65536) |
| ModbusService.DecodeRequestRoundTrip | cor_pass/services/modbus_service.py:78-85 | every well-formed frame is the frame built from the fields it decodes to |
| ModbusService.DefaultCustomRequest | cor_pass/services/modbus_service.py:78-85 | slave 8, address 0, count 10 give `AA FE 55 00 00 01 00 00 00 06 08 03 00 00 00 0A` |
| ModbusService.ShapeResponseFacts | cor_pass/services/modbus_service.py:93-99 | an empty response gives None; any other gives protocol `custom` and a raw text of two upper-case hex digits per byte that decodes back to the response |
| ModbusService.CustomExchangeShape | cor_pass/services/modbus_service.py:67-103 | on a fresh socket with a 10 s timeout, at most the one frame is sent; the socket is closed exactly when the peer took the frame and answered with bytes; the result is a payload exactly when that answer is non-empty, and then it is the shaped answer cut to 1024 bytes |
| ModbusService.ConnectFacts | cor_pass/services/modbus_service.py:35-65 | connect returns True exactly when the probe and the client connect both succeed; a failed probe changes nothing; `is_connected` is only ever set, and only by a successful connect; a passed probe installs a new client (timeout 10, retries 1) |
| ModbusService.ConnectLeavesStaleFlag | cor_pass/services/modbus_service.py:53-61 | a failed connect after an earlier success leaves `is_connected` true while the new client is not connected |
| ModbusService.StandardFacts | cor_pass/services/modbus_service.py:105-134 | connects only when not connected; without a connection no read is issued and the result is None; registers are returned exactly when connected and the read returns registers, and then the read (slave, address, count) was issued on the client |
| ModbusService.ReadDispatch | cor_pass/services/modbus_service.py:136-141 | the custom path is taken exactly when `use_custom_protocol` is set: it leaves the service unchanged and yields only custom payloads; the standard path yields only register lists |
| ModbusService.CloseFacts | cor_pass/services/modbus_service.py:143-148 | with no client, nothing changes; with a client, `is_connected` becomes false and the next standard read reconnects |
| ModbusService.ModbusService.constructor | cor_pass/services/modbus_service.py:12-17 | the service starts with no client and `is_connected` false |
| ModbusService.ModbusService.Connect | cor_pass/services/modbus_service.py:35-65 | the fields change exactly as the connect function says |
| ModbusService.ModbusService.SendCustomRequest | cor_pass/services/modbus_service.py:67-103 | the socket steps and the result equal the custom exchange on a fresh socket |
| ModbusService.ModbusService.SendStandardRequest | cor_pass/services/modbus_service.py:105-134 | the fields and the result change exactly as the standard-read function says |
| ModbusService.ModbusService.ReadHoldingRegisters | cor_pass/services/modbus_service.py:136-141 | the fields and the result change exactly as the dispatch function says |
| ModbusService.ModbusService.Close | cor_pass/services/modbus_service.py:143-148 | the fields change exactly as the close function says |
| ModbusRoutes.RegistersResponseFacts | cor_pass/routes/modbus_routes.py:123-130 | the body has slave 8, the given start address, the count of registers, and hex and binary lists with one entry per register, each reading back as its register; a custom payload is a 500 |
| ModbusRoutes.ReadCustomRegistersFacts | cor_pass/routes/modbus_routes.py:88-136 | a count above 100 or not positive gives 400 with no service call; a failed probe gives 503 and no read; the read (8, start, count) is made exactly when the count is valid and the probe passes; None gives 500; success exactly when the read gives registers |
| ModbusRoutes.ReadModbusRegistersFacts | cor_pass/routes/modbus_routes.py:49-85 | a failed probe gives 503; otherwise the read is always (8, 0, 10), None gives 500, and it succeeds exactly when the read gives registers |
| ModbusRoutes.StatusFacts | cor_pass/routes/modbus_routes.py:11-22 | the status is `connected` exactly when `is_connected`, and `host_available` is the probe's answer |
| ModbusRoutes.GlobalInstanceNeverServesRegisters | cor_pass/routes/modbus_routes.py:111-130 | with the module-level custom-protocol service, the register routes never succeed, and a passed probe ends in 500 |

## Left out

- Real sockets, asyncio and `run_in_executor`, and wall-clock timeouts. Each socket call is a step on a scripted peer, and a timeout is a scripted `Silence` reply.
- A `sendall` that fails part-way: the model records nothing as sent for it.
- Stream reassembly across `recv` calls. Each script entry is what one `recv` observes. When an entry is longer than the requested size, its tail is dropped; a real stream socket would hand those bytes to the next `recv`.
- LabelPrinter.AttemptPrintsIff: "its answer to the data" is what the fifth `recv(1)` observes. On a real stream, a multi-byte answer to an earlier message would shift every later one-byte read, and the model does not capture that shift.
- The custom Modbus request's single `send`, which is taken to send the whole frame, since a partial `send` is not modelled.
- `SO_RCVBUF` in `send_lpr_job`, and all logging and `print` output.
- `check_connection`: it performs I/O, so its answer is a parameter. Every route's probe and the probe inside `connect` are separate parameters.
- The pymodbus `ModbusTcpClient` internals: its `connect` and `read_holding_registers` outcomes are parameters, and its `connected` flag is tracked only through this service's own calls.
- Parsing of the custom-protocol response: upstream keeps it as raw bytes.
- PIL drawing, fonts, `BrotherQLRaster` and `convert`. The font's line height and the rendering outcome are parameters; only the line split and the height are modelled.
- `resize_image`: its scaling is floating-point.
- `try_system_lpr`: it runs a subprocess and writes a temporary file, so its outcome is a boolean.
- `socket.gethostname()` and `uuid.uuid4()`, which are parameters.
- `list_available_devices`: it only raises NotImplementedError.
- The `/test-connection` route: it only reports `connect`'s result (`ModbusService.ModbusService.Connect`), and its exception branch cannot be reached because `connect` catches everything.
- The exception branch of `/status`: it cannot be reached, because `check_connection` catches everything.
- The Russian detail texts of the HTTP errors. They are represented by the `RouteFailure` kinds.
- FastAPI's parsing of the path parameters.
- `int()` beyond optional surrounding white space (the characters `str.isspace` accepts), an optional sign and ASCII decimal digits. Underscores and non-ASCII digits are not parsed.
- NetworkBackend.WriteShape: restores the read timeout only after a successful send, because `_write` has no `try`/`finally` (brother_ql/backends/network.py:68-71).
- NetworkBackend.BrotherQLBackendNetwork.Read: the `select` strategy's clock is a list of scripted polls, and running out of polls counts as the deadline having passed. The `time.sleep(0.001)` between polls is not modelled.
