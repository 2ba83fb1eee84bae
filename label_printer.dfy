/**
 * Printing a code label on the network label printer
 * (cor_pass/routes/label_printer.py): the label layout, the RFC 1179
 * line-printer-daemon exchanges of `try_lpr_print` and `send_lpr_job`, and
 * the fallback cascade of the `/print_code_label` route.
 */
module LabelPrinter {
  import opened Wrappers
  import opened Encoding
  import opened Sockets

  const PrinterIp: string := "192.168.154.154"
  const LprPort: int := 515
  const AttemptTimeout: real := 10.0
  const Queues: seq<string> := ["raw", "lp", "LPT1", "PRINTER", "Brother", "label"]
  const ChunkSize: nat := 4096
  const LineWidth: nat := 40
  const HostnameLimit: nat := 31
  const JobIdLength: nat := 8
  const Margin: int := 10
  const DefaultMaxWidth: int := 696
  const DefaultMaxHeight: int := 300

  // ---------------------------------------------------------------------------
  // Label layout (create_label_image)
  // ---------------------------------------------------------------------------

  /** The label's text lines: consecutive 40-character slices of the content. */
  function LabelLines(text: string): seq<string>
  {
    Chunks(text, LineWidth)
  }

  /** The label image's height: the lines plus a 20-pixel margin, clamped to `maxHeight`. */
  function LabelHeight(lineHeight: int, lineCount: nat, maxHeight: int): int
  {
    Min(maxHeight, lineHeight * lineCount + 20)
  }

  /**
   * The lines are 40-character slices in order: they concatenate to the
   * text, every line but the last holds exactly 40 characters, none is empty,
   * there are ceil(len/40) of them, and line k starts at character 40k.
   */
  lemma LabelLinesShape(text: string)
    ensures Flatten(LabelLines(text)) == text
    ensures text == [] <==> LabelLines(text) == []
    ensures text != [] ==> (|LabelLines(text)| - 1) * 40 < |text| <= |LabelLines(text)| * 40
    ensures forall k :: 0 <= k < |LabelLines(text)| ==> 0 < |LabelLines(text)[k]| <= 40
    ensures forall k :: 0 <= k < |LabelLines(text)| - 1 ==> |LabelLines(text)[k]| == 40
    ensures forall k :: 0 <= k < |LabelLines(text)| ==>
      LabelLines(text)[k] == text[40 * k .. Min(40 * k + 40, |text|)]
  {
    ChunksFlatten(text, LineWidth);
    ChunksSizes(text, LineWidth);
    forall k | 0 <= k < |LabelLines(text)|
      ensures LabelLines(text)[k] == text[40 * k .. Min(40 * k + 40, |text|)]
    {
      ChunkAt(text, LineWidth, k);
    }
  }

  /** Where one line of text is drawn. */
  datatype Placement = Placement(x: int, y: int, line: string)

  /** The image `create_label_image` draws: its size and the text placements. */
  datatype Label = Label(width: int, height: int, placements: seq<Placement>)

  /**
   * `create_label_image(text, max_width, max_height)`, with the default font's
   * line height as a parameter: one line per 40 characters, drawn at x = 10
   * from y = 10 down, one line height apart.
   */
  method CreateLabelImage(text: string, lineHeight: int, maxWidth: int := DefaultMaxWidth, maxHeight: int := DefaultMaxHeight)
    returns (image: Label)
    ensures image.width == maxWidth
    ensures image.height == LabelHeight(lineHeight, |LabelLines(text)|, maxHeight)
    ensures image.height <= maxHeight
    ensures |image.placements| == |LabelLines(text)|
    ensures forall k :: 0 <= k < |image.placements| ==>
      image.placements[k] == Placement(Margin, Margin + k * lineHeight, LabelLines(text)[k])
  {
    var lines := LabelLines(text);
    var height := LabelHeight(lineHeight, |lines|, maxHeight);
    var placements: seq<Placement> := [];
    var y := Margin;
    var i := 0;
    while i < |lines|
      invariant 0 <= i <= |lines|
      invariant |placements| == i
      invariant y == Margin + i * lineHeight
      invariant forall k :: 0 <= k < i ==> placements[k] == Placement(Margin, Margin + k * lineHeight, lines[k])
    {
      placements := placements + [Placement(Margin, y, lines[i])];
      y := y + lineHeight;
      assert (i + 1) * lineHeight == i * lineHeight + lineHeight;
      i := i + 1;
    }
    image := Label(maxWidth, height, placements);
  }

  // ---------------------------------------------------------------------------
  // RFC 1179 messages
  // ---------------------------------------------------------------------------

  /** The lines of a control file, each followed by a newline (section 7 of RFC 1179). */
  function ControlFile(lines: seq<string>): string
  {
    if lines == [] then [] else lines[0] + "\n" + ControlFile(lines[1..])
  }

  /** Splitting text at newlines; a trailing newline ends the last line. */
  function SplitLines(s: string): seq<string>
    decreases |s|
  {
    if s == [] then []
    else
      var (line, sep, rest) := Partition(s, '\n');
      if sep == [] then [line] else [line] + SplitLines(rest)
  }

  predicate NoNewlines(lines: seq<string>)
  {
    forall i :: 0 <= i < |lines| ==> '\n' !in lines[i]
  }

  /** A control file built from lines without newlines splits back into exactly those lines. */
  lemma {:induction false} SplitControlFile(lines: seq<string>)
    requires NoNewlines(lines)
    ensures SplitLines(ControlFile(lines)) == lines
    decreases |lines|
  {
    if lines != [] {
      assert NoNewlines(lines[1..]) by {
        forall i | 0 <= i < |lines[1..]| ensures '\n' !in lines[1..][i] {
          assert lines[1..][i] == lines[i + 1];
        }
      }
      SplitControlFile(lines[1..]);
      PartitionAt(lines[0], '\n', ControlFile(lines[1..]));
      assert lines == [lines[0]] + lines[1..];
    }
  }

  /** The lines of the control file `try_lpr_print` sends for queue `queue`. */
  function AttemptControlLines(hostname: string, queue: string): seq<string>
  {
    ["H" + Take(hostname, HostnameLimit), "Ppython", "Jlabel", "ldfA" + queue]
  }

  /** The lines of the control file `send_lpr_job` sends for queue `queue` and job id `jobId`. */
  function JobControlLines(hostname: string, queue: string, jobId: string): seq<string>
  {
    ["H" + Take(hostname, HostnameLimit), "Ppython_script", "Jlabel_print", "ldfA" + queue, "Nprintjob_" + Take(jobId, JobIdLength)]
  }

  /**
   * Both control files split back into their lines: an `H` line naming at
   * most 31 characters of the host, the P and J lines, and `ldfA<queue>`;
   * `send_lpr_job`'s adds an N line with at most 8 characters of the job id.
   */
  lemma ControlFileLines(hostname: string, queue: string, jobId: string)
    requires '\n' !in hostname && '\n' !in queue && '\n' !in jobId
    ensures SplitLines(ControlFile(AttemptControlLines(hostname, queue)))
      == ["H" + hostname[..Min(31, |hostname|)], "Ppython", "Jlabel", "ldfA" + queue]
    ensures SplitLines(ControlFile(JobControlLines(hostname, queue, jobId)))
      == ["H" + hostname[..Min(31, |hostname|)], "Ppython_script", "Jlabel_print", "ldfA" + queue,
          "Nprintjob_" + jobId[..Min(8, |jobId|)]]
    ensures |Take(hostname, HostnameLimit)| <= 31 && |Take(jobId, JobIdLength)| <= 8
  {
    TakeHasNoNewline(hostname, HostnameLimit);
    TakeHasNoNewline(jobId, JobIdLength);
    SplitControlFile(AttemptControlLines(hostname, queue));
    SplitControlFile(JobControlLines(hostname, queue, jobId));
  }

  lemma TakeHasNoNewline(s: string, n: nat)
    requires '\n' !in s
    ensures '\n' !in Take(s, n)
  {
  }

  /** A control file is ASCII exactly when all its lines are. */
  lemma {:induction false} ControlFileAscii(lines: seq<string>)
    ensures IsAscii(ControlFile(lines)) <==> forall i :: 0 <= i < |lines| ==> IsAscii(lines[i])
    decreases |lines|
  {
    if lines != [] {
      ControlFileAscii(lines[1..]);
      AsciiConcat(lines[0], "\n");
      AsciiConcat(lines[0] + "\n", ControlFile(lines[1..]));
      assert (forall i :: 0 <= i < |lines| ==> IsAscii(lines[i])) <==>
        IsAscii(lines[0]) && (forall i :: 0 <= i < |lines[1..]| ==> IsAscii(lines[1..][i])) by {
        if IsAscii(lines[0]) && (forall i :: 0 <= i < |lines[1..]| ==> IsAscii(lines[1..][i])) {
          forall i | 0 <= i < |lines| ensures IsAscii(lines[i]) {
            if i > 0 { assert lines[i] == lines[1..][i - 1]; }
          }
        }
      }
    }
  }

  /** `\x02<queue>`: receive a printer job (section 5.2 of RFC 1179). */
  function ReceiveJob(queue: string): string
  {
    "\U{2}" + queue
  }

  /** `<code><count> <name>`: the receive-control-file (code 2) and receive-data-file (code 3) subcommands of section 6 of RFC 1179. */
  function Subcommand(code: char, count: nat, name: string): string
  {
    [code] + Decimal(count) + " " + name
  }

  function Line(command: string): string
  {
    command + "\n"
  }

  // ---------------------------------------------------------------------------
  // try_lpr_print: one attempt per queue
  // ---------------------------------------------------------------------------

  /** The five messages one `try_lpr_print` attempt sends for queue `queue`, in order. */
  function AttemptMessages(data: seq<byte>, hostname: string, queue: string): seq<seq<byte>>
  {
    var cf := ControlFile(AttemptControlLines(hostname, queue));
    [ Utf8(Line(ReceiveJob(queue))),
      Utf8(Line(Subcommand('\U{2}', |cf|, "cfA" + queue))),
      Utf8(cf) + [0],
      Utf8(Line(Subcommand('\U{3}', |data|, "dfA" + queue))),
      data + [0] ]
  }

  /** `sendall(message)` then `recv(n)`. */
  function SendRecvW(w: Wire, message: seq<byte>, n: int): Io<seq<byte>, SockError>
  {
    var a :- SendAllW(w, message);
    RecvW(a.wire, n)
  }

  /** Each message in turn, each answered by `recv(n)`; the result is the last answer (`reply` when there are no messages). */
  function ExchangeW(w: Wire, messages: seq<seq<byte>>, n: int, reply: seq<byte>): Io<seq<byte>, SockError>
    decreases |messages|
  {
    if messages == [] then Io(Success(reply), w)
    else
      var c :- SendRecvW(w, messages[0], n);
      ExchangeW(c.wire, messages[1..], n, c.result.value)
  }

  /** The peer takes `k` more sends and has data ready for the next `k` receives. */
  predicate Answers(w: Wire, k: nat)
  {
    && w.phase == Open
    && |w.sent| + k <= w.peer.sendsAccepted
    && k <= |w.pending|
    && forall i :: 0 <= i < k ==> w.pending[i].Data?
  }

  /** An exchange sends a prefix of its messages and leaves the rest of the socket as it was. */
  lemma {:induction false} ExchangeFrame(w: Wire, messages: seq<seq<byte>>, n: int, reply: seq<byte>)
    requires n >= 0
    ensures var io := ExchangeW(w, messages, n, reply);
      && w.sent <= io.wire.sent <= w.sent + messages
      && io.wire.phase == w.phase && io.wire.timeout == w.timeout && io.wire.peer == w.peer
    decreases |messages|
  {
    if messages != [] {
      var c := SendRecvW(w, messages[0], n);
      if c.result.Success? {
        ExchangeFrame(c.wire, messages[1..], n, c.result.value);
        assert c.wire.sent == w.sent + [messages[0]];
        assert w.sent + [messages[0]] + messages[1..] == w.sent + messages;
      }
    }
  }

  /** One `sendall`/`recv` pair goes through exactly when the peer takes the send and has data ready. */
  lemma SendRecvShape(w: Wire, message: seq<byte>, n: int)
    requires n >= 0
    ensures var c := SendRecvW(w, message, n);
      && (c.result.Success? <==> Answers(w, 1))
      && (c.result.Success? ==>
            && c.result.value == Take(w.pending[0].bytes, n)
            && c.wire.sent == w.sent + [message] && c.wire.pending == w.pending[1..]
            && c.wire.phase == w.phase && c.wire.peer == w.peer)
  {
  }

  /** The peer answers `k + 1` messages exactly when it answers the first and, after it, `k` more. */
  lemma AnswersStep(w: Wire, message: seq<byte>, n: int, k: nat)
    requires n >= 0 && Answers(w, 1)
    ensures Answers(w, k + 1) <==> Answers(SendRecvW(w, message, n).wire, k)
  {
    var c := SendRecvW(w, message, n);
    SendRecvShape(w, message, n);
    if Answers(c.wire, k) {
      forall i | 0 <= i < k + 1 ensures w.pending[i].Data? {
        if i > 0 { assert w.pending[i] == c.wire.pending[i - 1]; }
      }
    }
    if Answers(w, k + 1) {
      forall i | 0 <= i < k ensures c.wire.pending[i].Data? {
        assert c.wire.pending[i] == w.pending[i + 1];
      }
    }
  }

  /** An exchange succeeds exactly when the peer answers every message. */
  lemma {:induction false} ExchangeSucceedsIff(w: Wire, messages: seq<seq<byte>>, n: int, reply: seq<byte>)
    requires n >= 0
    ensures ExchangeW(w, messages, n, reply).result.Success? <==> messages == [] || Answers(w, |messages|)
    decreases |messages|
  {
    if messages != [] {
      var c := SendRecvW(w, messages[0], n);
      SendRecvShape(w, messages[0], n);
      if c.result.Success? {
        ExchangeSucceedsIff(c.wire, messages[1..], n, c.result.value);
        AnswersStep(w, messages[0], n, |messages| - 1);
      }
    }
  }

  /** A successful exchange sent all its messages and returns the last answer. */
  lemma {:induction false} ExchangeResult(w: Wire, messages: seq<seq<byte>>, n: int, reply: seq<byte>)
    requires n >= 0
    ensures var io := ExchangeW(w, messages, n, reply);
      && (io.result.Success? ==> io.wire.sent == w.sent + messages)
      && (io.result.Success? && messages != [] ==>
            Answers(w, |messages|) && io.result.value == Take(w.pending[|messages| - 1].bytes, n))
    decreases |messages|
  {
    ExchangeSucceedsIff(w, messages, n, reply);
    if messages != [] {
      var c := SendRecvW(w, messages[0], n);
      SendRecvShape(w, messages[0], n);
      if c.result.Success? {
        ExchangeResult(c.wire, messages[1..], n, c.result.value);
        assert w.sent + [messages[0]] + messages[1..] == w.sent + messages;
        var io := ExchangeW(c.wire, messages[1..], n, c.result.value);
        if |messages| > 1 && io.result.Success? {
          assert c.wire.pending[|messages[1..]| - 1] == w.pending[|messages| - 1];
        }
      }
    }
  }

  /**
   * An exchange gets through a prefix of its messages; it succeeds exactly
   * when the peer answers every one, and then returns the last answer cut to
   * `n` bytes.
   */
  lemma ExchangeShape(w: Wire, messages: seq<seq<byte>>, n: int, reply: seq<byte>)
    requires n >= 0
    ensures var io := ExchangeW(w, messages, n, reply);
      && w.sent <= io.wire.sent <= w.sent + messages
      && io.wire.phase == w.phase && io.wire.timeout == w.timeout && io.wire.peer == w.peer
      && (io.result.Success? <==> messages == [] || Answers(w, |messages|))
      && (io.result.Success? ==> io.wire.sent == w.sent + messages)
      && (io.result.Success? && messages != [] ==> io.result.value == Take(w.pending[|messages| - 1].bytes, n))
  {
    ExchangeFrame(w, messages, n, reply);
    ExchangeSucceedsIff(w, messages, n, reply);
    ExchangeResult(w, messages, n, reply);
  }

  /** One attempt inside the `with` block: a 10 s timeout, connect to port 515, then the messages each answered by `recv(1)`. */
  function AttemptW(w: Wire, messages: seq<seq<byte>>): Io<bool, SockError>
  {
    var a :- SetTimeoutW(w, Some(AttemptTimeout));
    var b :- ConnectW(a.wire, Endpoint(PrinterIp, LprPort));
    var g :- ExchangeW(b.wire, messages, 1, []);
    Io(Success(g.result.value == [0]), g.wire)
  }

  /** One attempt on a fresh socket to a printer behaving as `peer`: whether the final reply was `b'\x00'`, and the socket, closed on leaving the `with` block. */
  function Attempt(peer: Peer, data: seq<byte>, hostname: string, queue: string): (bool, Wire)
  {
    var io := AttemptW(FreshWire(peer), AttemptMessages(data, hostname, queue));
    (io.result == Success(true), CloseW(io.wire))
  }

  predicate AttemptPrints(peer: Peer, data: seq<byte>, hostname: string, queue: string)
  {
    Attempt(peer, data, hostname, queue).0
  }

  function AttemptSocket(peer: Peer, data: seq<byte>, hostname: string, queue: string): Wire
  {
    Attempt(peer, data, hostname, queue).1
  }

  /**
   * An attempt prints exactly when the printer accepts the connection and
   * all five messages, answers every message with some bytes, and its answer
   * to the data file starts with a NUL byte.
   */
  lemma AttemptPrintsIff(peer: Peer, data: seq<byte>, hostname: string, queue: string)
    ensures AttemptPrints(peer, data, hostname, queue) <==>
      && peer.connect == Accepts
      && peer.sendsAccepted >= 5
      && |peer.replies| >= 5
      && (forall i :: 0 <= i < 5 ==> peer.replies[i].Data?)
      && peer.replies[4].bytes != [] && peer.replies[4].bytes[0] == 0
  {
    var m := AttemptMessages(data, hostname, queue);
    var w := FreshWire(peer);
    var b := ConnectW(SetTimeoutW(w, Some(AttemptTimeout)).wire, Endpoint(PrinterIp, LprPort));
    if b.result.Success? {
      ExchangeShape(b.wire, m, 1, []);
      assert b.wire.pending == peer.replies && b.wire.sent == [];
      if |peer.replies| >= 5 {
        var d := peer.replies[4];
        if d.Data? && d.bytes != [] { assert Take(d.bytes, 1) == [d.bytes[0]]; }
      }
    }
  }

  /**
   * The messages an attempt gets through are a prefix of the five
   * `AttemptMessages`, all of them when it prints; the socket ends closed
   * with the 10 s timeout.
   */
  lemma AttemptSends(peer: Peer, data: seq<byte>, hostname: string, queue: string)
    ensures var w := AttemptSocket(peer, data, hostname, queue);
      && w.sent <= AttemptMessages(data, hostname, queue)
      && w.phase == Closed
      && w.timeout == Some(AttemptTimeout)
    ensures AttemptPrints(peer, data, hostname, queue) ==>
      AttemptSocket(peer, data, hostname, queue).sent == AttemptMessages(data, hostname, queue)
  {
    var m := AttemptMessages(data, hostname, queue);
    var b := ConnectW(SetTimeoutW(FreshWire(peer), Some(AttemptTimeout)).wire, Endpoint(PrinterIp, LprPort));
    if b.result.Success? {
      ExchangeShape(b.wire, m, 1, []);
    }
  }

  /**
   * The control-file size line announces `len(cf)` characters; that is the
   * number of bytes sent exactly when the truncated host name is ASCII.
   */
  lemma ControlFileCount(hostname: string, queue: string)
    requires IsAscii(queue)
    ensures var cf := ControlFile(AttemptControlLines(hostname, queue));
      |Utf8(cf)| == |cf| <==> IsAscii(Take(hostname, HostnameLimit))
  {
    var lines := AttemptControlLines(hostname, queue);
    var cf := ControlFile(lines);
    Utf8Length(cf);
    ControlFileAscii(lines);
    AsciiConcat("H", Take(hostname, HostnameLimit));
    AsciiConcat("ldfA", queue);
    assert IsAscii("Ppython") && IsAscii("Jlabel");
    assert (forall i :: 0 <= i < |lines| ==> IsAscii(lines[i])) <==> IsAscii(lines[0]);
  }

  /** One attempt on a fresh socket talking to `peer`: the `with socket.socket(...) as s:` block. */
  method LprAttempt(data: seq<byte>, hostname: string, queue: string, peer: Peer) returns (printed: bool, socket: Wire)
    ensures (printed, socket) == Attempt(peer, data, hostname, queue)
  {
    var s := new Socket(peer);
    var r := AttemptOn(s, AttemptMessages(data, hostname, queue));
    s.Close();
    printed := r == Success(true);
    socket := s.Value();
  }

  method SendRecv(s: Socket, message: seq<byte>, n: int) returns (r: Result<seq<byte>, SockError>)
    modifies s
    ensures Io(r, s.Value()) == SendRecvW(old(s.Value()), message, n)
  {
    var a := s.SendAll(message);
    if a.Failure? { return Failure(a.error); }
    r := s.Recv(n);
  }

  method AttemptOn(s: Socket, m: seq<seq<byte>>) returns (r: Result<bool, SockError>)
    requires |m| == 5
    modifies s
    ensures Io(r, s.Value()) == AttemptW(old(s.Value()), m)
  {
    var _ := s.SetTimeout(Some(AttemptTimeout));
    var b := s.Connect(Endpoint(PrinterIp, LprPort));
    if b.Failure? { return Failure(b.error); }
    ghost var spec := ExchangeW(s.Value(), m, 1, []);
    var c := SendRecv(s, m[0], 1);
    if c.Failure? { return Failure(c.error); }
    assert spec == ExchangeW(s.Value(), m[1..], 1, c.value);
    var d := SendRecv(s, m[1], 1);
    if d.Failure? { return Failure(d.error); }
    assert m[1..][1..] == m[2..];
    assert spec == ExchangeW(s.Value(), m[2..], 1, d.value);
    var e := SendRecv(s, m[2], 1);
    if e.Failure? { return Failure(e.error); }
    assert m[2..][1..] == m[3..];
    assert spec == ExchangeW(s.Value(), m[3..], 1, e.value);
    var f := SendRecv(s, m[3], 1);
    if f.Failure? { return Failure(f.error); }
    assert m[3..][1..] == m[4..];
    assert spec == ExchangeW(s.Value(), m[4..], 1, f.value);
    var g := SendRecv(s, m[4], 1);
    if g.Failure? { return Failure(g.error); }
    assert m[4..][0] == m[4] && m[4..][1..] == [];
    assert ExchangeW(s.Value(), [], 1, g.value) == Io(Success(g.value), s.Value());
    return Success(g.value == [0]);
  }

  /** The outcomes of an attempt on each queue in turn, `peers[i]` being how the printer behaves on the i-th (unreachable when absent). */
  function Outcomes(data: seq<byte>, hostname: string, peers: seq<Peer>): seq<(bool, Wire)>
  {
    seq(|Queues|, i requires 0 <= i < |Queues| => Attempt(PeerAt(peers, i), data, hostname, Queues[i]))
  }

  /** Going through outcomes until the first success: whether there was one, and the sockets of the attempts made. */
  function FirstSuccess<W>(outcomes: seq<(bool, W)>): (bool, seq<W>)
    decreases |outcomes|
  {
    if outcomes == [] then (false, [])
    else if outcomes[0].0 then (true, [outcomes[0].1])
    else
      var r := FirstSuccess(outcomes[1..]);
      (r.0, [outcomes[0].1] + r.1)
  }

  /**
   * Attempts are made in order until one succeeds: every attempt before the
   * last failed, the result is the last attempt's, all were made when none
   * succeeded, and the result is true exactly when some attempt would succeed.
   */
  lemma {:induction false} FirstSuccessShape<W>(outcomes: seq<(bool, W)>)
    ensures var (ok, ws) := FirstSuccess(outcomes);
      && |ws| <= |outcomes| && (outcomes != [] ==> 1 <= |ws|)
      && (forall i :: 0 <= i < |ws| ==> ws[i] == outcomes[i].1)
      && (forall i :: 0 <= i < |ws| - 1 ==> !outcomes[i].0)
      && (ws != [] ==> (ok <==> outcomes[|ws| - 1].0))
      && (!ok ==> |ws| == |outcomes|)
      && (ok <==> exists i :: 0 <= i < |outcomes| && outcomes[i].0)
    decreases |outcomes|
  {
    if outcomes != [] && !outcomes[0].0 {
      var rest := outcomes[1..];
      FirstSuccessShape(rest);
      var (ok, ws) := FirstSuccess(rest);
      forall i | 1 <= i < |ws| + 1 ensures ([outcomes[0].1] + ws)[i] == outcomes[i].1 {
        assert rest[i - 1] == outcomes[i];
      }
      if ok {
        var j :| 0 <= j < |rest| && rest[j].0;
        assert outcomes[j + 1].0;
      }
      if exists i :: 0 <= i < |outcomes| && outcomes[i].0 {
        var j :| 0 <= j < |outcomes| && outcomes[j].0;
        assert rest[j - 1].0;
      }
    }
  }

  /**
   * `try_lpr_print` tries the queues in the order raw, lp, LPT1, PRINTER,
   * Brother, label: every queue before the last one tried failed, the result
   * is the last attempt's, all six are tried when none prints, and the result
   * is true exactly when the attempt on some queue would print.
   */
  lemma TryLprPrintOrder(data: seq<byte>, hostname: string, peers: seq<Peer>)
    ensures var (ok, ws) := FirstSuccess(Outcomes(data, hostname, peers));
      && 1 <= |ws| <= |Queues|
      && (forall i :: 0 <= i < |ws| ==> ws[i] == AttemptSocket(PeerAt(peers, i), data, hostname, Queues[i]))
      && (forall i :: 0 <= i < |ws| - 1 ==> !AttemptPrints(PeerAt(peers, i), data, hostname, Queues[i]))
      && (ok <==> AttemptPrints(PeerAt(peers, |ws| - 1), data, hostname, Queues[|ws| - 1]))
      && (!ok ==> |ws| == |Queues|)
      && (ok <==> exists i :: 0 <= i < |Queues| && AttemptPrints(PeerAt(peers, i), data, hostname, Queues[i]))
  {
    FirstSuccessShape(Outcomes(data, hostname, peers));
  }

  /**
   * `try_lpr_print(data)`: one attempt per queue, in the order raw, lp, LPT1,
   * PRINTER, Brother, label, stopping at the first that prints; `sockets`
   * are the final states of the sockets of the attempts made.
   */
  method TryLprPrint(data: seq<byte>, hostname: string, peers: seq<Peer>) returns (printed: bool, sockets: seq<Wire>)
    ensures (printed, sockets) == FirstSuccess(Outcomes(data, hostname, peers))
  {
    ghost var outcomes := Outcomes(data, hostname, peers);
    sockets := [];
    var i := 0;
    assert outcomes[0..] == outcomes && sockets + FirstSuccess(outcomes).1 == FirstSuccess(outcomes).1;
    while i < |Queues|
      invariant 0 <= i <= |Queues|
      invariant FirstSuccess(outcomes) == (FirstSuccess(outcomes[i..]).0, sockets + FirstSuccess(outcomes[i..]).1)
    {
      var ok, w := LprAttempt(data, hostname, Queues[i], PeerAt(peers, i));
      assert outcomes[i..][0] == (ok, w) && outcomes[i..][1..] == outcomes[i + 1..];
      if ok {
        assert FirstSuccess(outcomes[i..]) == (true, [w]);
        return true, sockets + [w];
      }
      ghost var rest := FirstSuccess(outcomes[i + 1..]);
      assert FirstSuccess(outcomes[i..]) == (rest.0, [w] + rest.1);
      assert sockets + [w] + rest.1 == sockets + ([w] + rest.1);
      sockets := sockets + [w];
      i := i + 1;
    }
    assert outcomes[i..] == [] && sockets + [] == sockets;
    return false, sockets;
  }

  function PeerAt(peers: seq<Peer>, i: nat): Peer
  {
    if i < |peers| then peers[i] else Peer(Unreachable, 0, [])
  }

  // ---------------------------------------------------------------------------
  // send_lpr_job
  // ---------------------------------------------------------------------------

  /** What `send_lpr_job` raises. */
  datatype LprError =
    | Timeout                          // any socket timeout, re-raised as a timeout Exception
    | Refused                          // ConnectionRefusedError, re-raised as a refusal Exception
    | ControlFileNotAcked(reply: seq<byte>)
    | DataFileNotAcked(reply: seq<byte>)
    | PrintNotConfirmed(reply: seq<byte>)
    | NotAscii                         // UnicodeEncodeError from encode('ascii')
    | SocketFailed(error: SockError)   // any other socket error, re-raised unchanged

  predicate IsAckError(e: LprError)
  {
    e.ControlFileNotAcked? || e.DataFileNotAcked? || e.PrintNotConfirmed?
  }

  function Classify(e: SockError): LprError
  {
    match e
    case TimedOut => Timeout
    case ConnectionRefused => Refused
    case _ => SocketFailed(e)
  }

  /** A socket call's outcome, with its error classified as `send_lpr_job` re-raises it. */
  function Classified<T>(io: Io<T, SockError>): Io<T, LprError>
  {
    match io.result
    case Success(v) => Io(Success(v), io.wire)
    case Failure(e) => Io(Failure(Classify(e)), io.wire)
  }

  /** `send_and_check(cmd)`: the command in ASCII plus a newline, then `recv(1024)`. */
  function SendAndCheckW(w: Wire, command: string): Io<seq<byte>, LprError>
  {
    match AsciiEncode(command)
    case None => Io(Failure(NotAscii), w)
    case Some(bytes) => Classified(SendRecvW(w, bytes + [10], 1024))
  }

  /** The chunk loop: `sendall` of each chunk in turn. */
  function SendChunksW(w: Wire, chunks: seq<seq<byte>>): Io<(), SockError>
    decreases |chunks|
  {
    if chunks == [] then Io(Success(()), w)
    else
      var a :- SendAllW(w, chunks[0]);
      SendChunksW(a.wire, chunks[1..])
  }

  /** Creating the connection: the caller's timeout, then connect to port 515. */
  function OpenJobW(w: Wire, printerIp: string, timeout: real): Io<(), LprError>
  {
    var a :- Classified(SetTimeoutW(w, Some(timeout)));
    Classified(ConnectW(a.wire, Endpoint(printerIp, LprPort)))
  }

  /** Steps 1 and 2: the job line (its reply only logged), the control-file size line (its reply must be a NUL), the control file. */
  function ControlStageW(w: Wire, jobLine: string, sizeLine: string, cf: string): Io<(), LprError>
  {
    var c :- SendAndCheckW(w, jobLine);
    ControlFinish(SendAndCheckW(c.wire, sizeLine), cf)
  }

  /** The reply to the control-file size line must be a NUL; then the control file and a NUL go out. */
  function ControlFinish(d: Io<seq<byte>, LprError>, cf: string): Io<(), LprError>
  {
    if d.result.Failure? then Io(Failure(d.result.error), d.wire)
    else if d.result.value != [0] then Io(Failure(ControlFileNotAcked(d.result.value)), d.wire)
    else if AsciiEncode(cf).None? then Io(Failure(NotAscii), d.wire)
    else
      var e :- Classified(SendRecvW(d.wire, AsciiEncode(cf).value + [0], 1024));
      Io(Success(()), e.wire)
  }

  /** Step 3: the data-file size line (its reply must be a NUL), the data in chunks, a NUL, and the final reply. */
  function DataStageW(w: Wire, sizeLine: string, data: seq<byte>): Io<bool, LprError>
  {
    DataAfterAck(SendAndCheckW(w, sizeLine), data)
  }

  /** The reply to the data-file size line must be a NUL; then the chunks, a NUL and the final reply. */
  function DataAfterAck(f: Io<seq<byte>, LprError>, data: seq<byte>): Io<bool, LprError>
  {
    if f.result.Failure? then Io(Failure(f.result.error), f.wire)
    else if f.result.value != [0] then Io(Failure(DataFileNotAcked(f.result.value)), f.wire)
    else
      var g :- Classified(SendChunksW(f.wire, Chunks(data, ChunkSize)));
      DataFinish(SendRecvW(g.wire, [0], 1024))
  }

  /** The reply to the final NUL: a lone NUL confirms the print. */
  function DataFinish(h: Io<seq<byte>, SockError>): Io<bool, LprError>
  {
    if h.result.Failure? then Io(Failure(Classify(h.result.error)), h.wire)
    else if h.result.value == [0] then Io(Success(true), h.wire)
    else Io(Failure(PrintNotConfirmed(h.result.value)), h.wire)
  }

  /** The exchange of `send_lpr_job` inside its `try`, on the socket it created. */
  function JobW(w: Wire, printerIp: string, queue: string, data: seq<byte>, timeout: real, cf: string): Io<bool, LprError>
  {
    JobLinesW(w, printerIp, timeout, ReceiveJob(queue), Subcommand('\U{2}', |cf|, "cfA" + queue), Subcommand('\U{3}', |data|, "dfA" + queue), cf, data)
  }

  /** Opening the connection, then steps 1 to 3, given the three command lines. */
  function JobLinesW(w: Wire, printerIp: string, timeout: real, jobLine: string, cfLine: string, dfLine: string, cf: string, data: seq<byte>): Io<bool, LprError>
  {
    var b :- OpenJobW(w, printerIp, timeout);
    StagesW(b.wire, jobLine, cfLine, dfLine, cf, data)
  }

  /** Steps 1 to 3 on the open connection, given the three command lines. */
  function StagesW(w: Wire, jobLine: string, cfLine: string, dfLine: string, cf: string, data: seq<byte>): Io<bool, LprError>
  {
    var e :- ControlStageW(w, jobLine, cfLine, cf);
    DataStageW(e.wire, dfLine, data)
  }

  /** The whole `send_lpr_job` call: the exchange, then `s.close()` in `finally`. */
  function SendLprJobW(peer: Peer, printerIp: string, queue: string, data: seq<byte>, timeout: real, hostname: string, jobId: string): (Result<bool, LprError>, Wire)
  {
    var io := JobW(FreshWire(peer), printerIp, queue, data, timeout, ControlFile(JobControlLines(hostname, queue, jobId)));
    (io.result, CloseW(io.wire))
  }

  /** What steps 1 and 2 send, given the two command lines: each line, then the control file and a NUL. */
  function ControlMessagesOf(jobLine: string, sizeLine: string, cf: string): seq<seq<byte>>
  {
    [Utf8(Line(jobLine)), Utf8(Line(sizeLine)), Utf8(cf) + [0]]
  }

  /** What step 3 sends, given its command line: the line, the data in 4096-byte chunks, and a NUL. */
  function DataMessagesOf(sizeLine: string, data: seq<byte>): seq<seq<byte>>
  {
    [Utf8(Line(sizeLine))] + Chunks(data, ChunkSize) + [[0]]
  }

  /** What steps 1 and 2 send: the job line, the control-file size line, the control file and a NUL. */
  function ControlMessages(queue: string, cf: string): seq<seq<byte>>
  {
    ControlMessagesOf(ReceiveJob(queue), Subcommand('\U{2}', |cf|, "cfA" + queue), cf)
  }

  /** What step 3 sends: the data-file size line, the data in 4096-byte chunks, and a NUL. */
  function DataMessages(queue: string, data: seq<byte>): seq<seq<byte>>
  {
    DataMessagesOf(Subcommand('\U{3}', |data|, "dfA" + queue), data)
  }

  /** The buffers `send_lpr_job` sends when the job goes through. */
  function JobMessages(queue: string, data: seq<byte>, hostname: string, jobId: string): seq<seq<byte>>
  {
    ControlMessages(queue, ControlFile(JobControlLines(hostname, queue, jobId))) + DataMessages(queue, data)
  }

  /**
   * The chunk loop sends every chunk in order when the socket is open and
   * takes that many more sends, and otherwise gets through a prefix of them.
   */
  lemma {:induction false} SendChunksShape(w: Wire, chunks: seq<seq<byte>>)
    ensures var io := SendChunksW(w, chunks);
      && (io.result.Success? <==> chunks == [] || (w.phase == Open && |w.sent| + |chunks| <= w.peer.sendsAccepted))
      && (io.result.Success? ==> io.wire.sent == w.sent + chunks)
      && w.sent <= io.wire.sent <= w.sent + chunks
      && io.wire.received == w.received && io.wire.phase == w.phase && io.wire.pending == w.pending
      && io.wire.timeout == w.timeout && io.wire.peer == w.peer
    decreases |chunks|
  {
    if chunks != [] {
      var a := SendAllW(w, chunks[0]);
      if a.result.Success? {
        SendChunksShape(a.wire, chunks[1..]);
        assert w.sent + [chunks[0]] + chunks[1..] == w.sent + chunks;
        var io := SendChunksW(a.wire, chunks[1..]);
        assert io.wire.sent <= w.sent + chunks by {
          assert io.wire.sent <= a.wire.sent + chunks[1..];
        }
      }
    }
  }

  /** The chunks are the slices `data[i:i+4096]`: at most 4096 bytes each, none empty, and together the data. */
  lemma DataChunks(data: seq<byte>)
    ensures Flatten(Chunks(data, ChunkSize)) == data
    ensures data != [] ==> (|Chunks(data, ChunkSize)| - 1) * 4096 < |data| <= |Chunks(data, ChunkSize)| * 4096
    ensures forall k :: 0 <= k < |Chunks(data, ChunkSize)| ==> 0 < |Chunks(data, ChunkSize)[k]| <= 4096
    ensures forall k :: 0 <= k < |Chunks(data, ChunkSize)| ==>
      Chunks(data, ChunkSize)[k] == data[Min(4096 * k, |data|) .. Min(4096 * k + 4096, |data|)]
  {
    ChunksFlatten(data, ChunkSize);
    ChunksSizes(data, ChunkSize);
    forall k | 0 <= k < |Chunks(data, ChunkSize)|
      ensures Chunks(data, ChunkSize)[k] == data[Min(4096 * k, |data|) .. Min(4096 * k + 4096, |data|)]
    {
      ChunkAt(data, ChunkSize, k);
    }
  }

  lemma {:induction false} SendAndCheckFacts(w: Wire, command: string)
    ensures var io := SendAndCheckW(w, command);
      && w.received <= io.wire.received && |io.wire.received| <= |w.received| + 1
      && w.sent <= io.wire.sent && io.wire.peer == w.peer
      && (io.result.Success? ==>
            && IsAscii(command)
            && io.wire.received == w.received + [Success(io.result.value)]
            && io.wire.sent == w.sent + [Utf8(Line(command))])
      && (io.result.Failure? ==> !IsAckError(io.result.error))
  {
    if IsAscii(command) {
      AsciiIsUtf8(command);
      Utf8Concat(command, "\n");
      assert Utf8("\n") == [10];
    }
  }

  /** After the size line's reply: one more receive when the control file goes out, none when the reply is refused. */
  lemma ControlFinishFacts(d: Io<seq<byte>, LprError>, cf: string)
    ensures var io := ControlFinish(d, cf);
      && d.wire.received <= io.wire.received && |io.wire.received| <= |d.wire.received| + 1
      && d.wire.sent <= io.wire.sent && io.wire.peer == d.wire.peer
      && (io.result.Success? ==>
            && d.result == Success([0]) && |io.wire.received| == |d.wire.received| + 1
            && io.wire.sent == d.wire.sent + [Utf8(cf) + [0]])
      && (d.result.Success? && io.result.Failure? && io.result.error.ControlFileNotAcked? ==>
            && io.wire == d.wire && d.result == Success(io.result.error.reply) && io.result.error.reply != [0])
      && (d.result.Failure? ==> io == Io(Failure(d.result.error), d.wire))
      && (io.result.Failure? && d.result.Success? ==> !io.result.error.DataFileNotAcked? && !io.result.error.PrintNotConfirmed?)
  {
    if d.result.Success? && d.result.value == [0] && IsAscii(cf) {
      AsciiIsUtf8(cf);
      var e := SendRecvW(d.wire, Utf8(cf) + [0], 1024);
      assert ControlFinish(d, cf) == (if e.result.Success? then Io(Success(()), e.wire) else Io(Failure(Classify(e.result.error)), e.wire));
    }
  }

  /** Steps 1 and 2: three receives when they go through, the second of them a lone NUL. */
  lemma ControlStageFacts(w: Wire, jobLine: string, sizeLine: string, cf: string)
    ensures var io := ControlStageW(w, jobLine, sizeLine, cf); var n := |w.received|;
      && w.received <= io.wire.received && |io.wire.received| <= n + 3
      && w.sent <= io.wire.sent && io.wire.peer == w.peer
      && (io.result.Success? ==>
            && |io.wire.received| == n + 3 && io.wire.received[n + 1] == Success([0])
            && io.wire.sent == w.sent + ControlMessagesOf(jobLine, sizeLine, cf))
      && (io.result.Failure? && io.result.error.ControlFileNotAcked? ==>
            && |io.wire.received| == n + 2 && io.wire.received[n + 1] == Success(io.result.error.reply)
            && io.result.error.reply != [0])
      && (io.result.Failure? ==> !io.result.error.DataFileNotAcked? && !io.result.error.PrintNotConfirmed?)
  {
    var io := ControlStageW(w, jobLine, sizeLine, cf);
    var c := SendAndCheckW(w, jobLine);
    SendAndCheckFacts(w, jobLine);
    if c.result.Success? {
      var d := SendAndCheckW(c.wire, sizeLine);
      SendAndCheckFacts(c.wire, sizeLine);
      ControlFinishFacts(d, cf);
      assert io == ControlFinish(d, cf);
      if io.result.Success? {
        assert io.wire.received[|w.received| + 1] == d.wire.received[|w.received| + 1] by {
          assert d.wire.received <= io.wire.received;
        }
      }
    } else {
      assert io == Io(Failure(c.result.error), c.wire);
    }
  }

  /** After the size line's reply: the chunks, a NUL and one more receive, or nothing further when the reply is refused. */
  lemma DataAfterAckFacts(f: Io<seq<byte>, LprError>, data: seq<byte>)
    ensures var io := DataAfterAck(f, data);
      && f.wire.received <= io.wire.received && |io.wire.received| <= |f.wire.received| + 1
      && (io.result.Success? ==>
            && io.result.value && f.result == Success([0])
            && io.wire.received == f.wire.received + [Success([0])]
            && io.wire.sent == f.wire.sent + Chunks(data, ChunkSize) + [[0]])
      && (f.result.Success? && io.result.Failure? && io.result.error.DataFileNotAcked? ==>
            && io.wire == f.wire && f.result == Success(io.result.error.reply) && io.result.error.reply != [0])
      && (f.result.Success? && io.result.Failure? && io.result.error.PrintNotConfirmed? ==>
            && f.result == Success([0])
            && io.wire.received == f.wire.received + [Success(io.result.error.reply)] && io.result.error.reply != [0])
      && (f.result.Failure? ==> io == Io(Failure(f.result.error), f.wire))
      && (io.result.Failure? && f.result.Success? ==> !io.result.error.ControlFileNotAcked?)
  {
    var io := DataAfterAck(f, data);
    if f.result.Success? && f.result.value == [0] {
      var g := SendChunksW(f.wire, Chunks(data, ChunkSize));
      SendChunksShape(f.wire, Chunks(data, ChunkSize));
      if g.result.Failure? {
        assert io == Io(Failure(Classify(g.result.error)), g.wire);
      } else {
        var h := SendRecvW(g.wire, [0], 1024);
        assert io == DataFinish(h);
        if h.result.Success? {
          assert h.wire.received == g.wire.received + [h.result];
          assert h.wire.sent == g.wire.sent + [[0]];
        }
      }
    }
  }

  /** Step 3: two receives when it goes through, both a lone NUL. */
  lemma DataStageFacts(w: Wire, sizeLine: string, data: seq<byte>)
    ensures var io := DataStageW(w, sizeLine, data); var n := |w.received|;
      && w.received <= io.wire.received && |io.wire.received| <= n + 2
      && (io.result.Success? ==>
            && io.result.value
            && |io.wire.received| == n + 2
            && io.wire.received[n] == Success([0]) && io.wire.received[n + 1] == Success([0])
            && io.wire.sent == w.sent + DataMessagesOf(sizeLine, data))
      && (io.result.Failure? && io.result.error.DataFileNotAcked? ==>
            && |io.wire.received| == n + 1 && io.wire.received[n] == Success(io.result.error.reply)
            && io.result.error.reply != [0])
      && (io.result.Failure? && io.result.error.PrintNotConfirmed? ==>
            && |io.wire.received| == n + 2 && io.wire.received[n + 1] == Success(io.result.error.reply)
            && io.result.error.reply != [0])
      && (io.result.Failure? ==> !io.result.error.ControlFileNotAcked?)
  {
    var f := SendAndCheckW(w, sizeLine);
    SendAndCheckFacts(w, sizeLine);
    DataAfterAckFacts(f, data);
  }

  /**
   * Whatever happens, `send_lpr_job` closes its socket. It returns only True,
   * and then the three checked replies (to the two size lines and to the
   * data) were each exactly a NUL byte, and the printer got the job's
   * messages in order; the replies to the job line and to the control file
   * are not checked.
   */
  lemma SendLprJobShape(peer: Peer, printerIp: string, queue: string, data: seq<byte>, timeout: real, hostname: string, jobId: string)
    ensures SendLprJobW(peer, printerIp, queue, data, timeout, hostname, jobId).1.phase == Closed
    ensures var (r, w) := SendLprJobW(peer, printerIp, queue, data, timeout, hostname, jobId);
      r.Success? ==>
        && r.value
        && |w.received| == 5
        && w.received[1] == Success([0]) && w.received[3] == Success([0]) && w.received[4] == Success([0])
        && w.sent == JobMessages(queue, data, hostname, jobId)
  {
    var w := FreshWire(peer);
    var cf := ControlFile(JobControlLines(hostname, queue, jobId));
    JobFacts(w, printerIp, queue, data, timeout, cf);
    var io := JobW(w, printerIp, queue, data, timeout, cf);
    FreshReceipts(io.result, io.wire.received);
  }

  /**
   * The size lines' acks are fatal: a control-file or data-file error
   * carries the reply that was not a lone NUL byte, as the second or fourth
   * `recv` saw it, and a missing final confirmation carries the fifth.
   */
  lemma SendLprJobAcks(peer: Peer, printerIp: string, queue: string, data: seq<byte>, timeout: real, hostname: string, jobId: string)
    ensures var (r, w) := SendLprJobW(peer, printerIp, queue, data, timeout, hostname, jobId);
      r.Failure? && r.error.ControlFileNotAcked? ==>
        |w.received| == 2 && w.received[1] == Success(r.error.reply) && r.error.reply != [0]
    ensures var (r, w) := SendLprJobW(peer, printerIp, queue, data, timeout, hostname, jobId);
      r.Failure? && r.error.DataFileNotAcked? ==>
        |w.received| == 4 && w.received[1] == Success([0]) && w.received[3] == Success(r.error.reply) && r.error.reply != [0]
    ensures var (r, w) := SendLprJobW(peer, printerIp, queue, data, timeout, hostname, jobId);
      r.Failure? && r.error.PrintNotConfirmed? ==>
        |w.received| == 5 && w.received[1] == Success([0]) && w.received[4] == Success(r.error.reply) && r.error.reply != [0]
  {
    var w := FreshWire(peer);
    var cf := ControlFile(JobControlLines(hostname, queue, jobId));
    JobFacts(w, printerIp, queue, data, timeout, cf);
    var io := JobW(w, printerIp, queue, data, timeout, cf);
    FreshReceipts(io.result, io.wire.received);
  }

  /**
   * What the job's outcome says about the replies it received after the `n`
   * earlier ones: success takes five, the second, fourth and fifth a lone
   * NUL; each refused acknowledgement carries its reply, found at its place.
   */
  predicate JobReceipts(r: Result<bool, LprError>, received: seq<Result<seq<byte>, SockError>>, n: nat)
  {
    && (r.Success? ==>
          && r.value && |received| == n + 5
          && received[n + 1] == Success([0]) && received[n + 3] == Success([0]) && received[n + 4] == Success([0]))
    && (r.Failure? && r.error.ControlFileNotAcked? ==>
          |received| == n + 2 && received[n + 1] == Success(r.error.reply) && r.error.reply != [0])
    && (r.Failure? && r.error.DataFileNotAcked? ==>
          && |received| == n + 4 && received[n + 1] == Success([0])
          && received[n + 3] == Success(r.error.reply) && r.error.reply != [0])
    && (r.Failure? && r.error.PrintNotConfirmed? ==>
          && |received| == n + 5 && received[n + 1] == Success([0])
          && received[n + 4] == Success(r.error.reply) && r.error.reply != [0])
  }

  lemma JobFacts(w: Wire, printerIp: string, queue: string, data: seq<byte>, timeout: real, cf: string)
    ensures var io := JobW(w, printerIp, queue, data, timeout, cf);
      && JobReceipts(io.result, io.wire.received, |w.received|)
      && (io.result.Success? ==> io.wire.sent == w.sent + ControlMessages(queue, cf) + DataMessages(queue, data))
  {
    var jobLine := ReceiveJob(queue);
    var cfLine := Subcommand('\U{2}', |cf|, "cfA" + queue);
    var dfLine := Subcommand('\U{3}', |data|, "dfA" + queue);
    JobLinesFacts(w, printerIp, timeout, jobLine, cfLine, dfLine, cf, data);
    assert JobW(w, printerIp, queue, data, timeout, cf) == JobLinesW(w, printerIp, timeout, jobLine, cfLine, dfLine, cf, data);
  }

  /** The job's receipts counted from a socket that had received nothing. */
  lemma FreshReceipts(r: Result<bool, LprError>, received: seq<Result<seq<byte>, SockError>>)
    requires JobReceipts(r, received, 0)
    ensures r.Success? ==>
      r.value && |received| == 5 && received[1] == Success([0]) && received[3] == Success([0]) && received[4] == Success([0])
    ensures r.Failure? && r.error.ControlFileNotAcked? ==>
      |received| == 2 && received[1] == Success(r.error.reply) && r.error.reply != [0]
    ensures r.Failure? && r.error.DataFileNotAcked? ==>
      |received| == 4 && received[1] == Success([0]) && received[3] == Success(r.error.reply) && r.error.reply != [0]
    ensures r.Failure? && r.error.PrintNotConfirmed? ==>
      |received| == 5 && received[1] == Success([0]) && received[4] == Success(r.error.reply) && r.error.reply != [0]
  {
  }

  /** Opening the connection, then steps 1 to 3: the receipts, and the messages sent when the job goes through. */
  lemma JobLinesFacts(w: Wire, printerIp: string, timeout: real, jobLine: string, cfLine: string, dfLine: string, cf: string, data: seq<byte>)
    ensures var io := JobLinesW(w, printerIp, timeout, jobLine, cfLine, dfLine, cf, data);
      && JobReceipts(io.result, io.wire.received, |w.received|)
      && (io.result.Success? ==>
            io.wire.sent == w.sent + ControlMessagesOf(jobLine, cfLine, cf) + DataMessagesOf(dfLine, data))
  {
    var io := JobLinesW(w, printerIp, timeout, jobLine, cfLine, dfLine, cf, data);
    var b := OpenJobW(w, printerIp, timeout);
    OpenJobFacts(w, printerIp, timeout);
    if b.result.Success? {
      StagesFacts(b.wire, jobLine, cfLine, dfLine, cf, data);
      assert io == StagesW(b.wire, jobLine, cfLine, dfLine, cf, data);
    } else {
      assert io == Io(Failure(b.result.error), b.wire);
    }
  }

  /** Opening the connection receives and sends nothing, and its failures are socket errors. */
  lemma OpenJobFacts(w: Wire, printerIp: string, timeout: real)
    ensures var b := OpenJobW(w, printerIp, timeout);
      && b.wire.received == w.received && b.wire.sent == w.sent
      && (b.result.Failure? ==> !IsAckError(b.result.error))
  {
    var t := SetTimeoutW(w, Some(timeout));
    if t.result.Success? {
      assert OpenJobW(w, printerIp, timeout) == Classified(ConnectW(t.wire, Endpoint(printerIp, LprPort)));
    }
  }

  /** Steps 1 to 3: five receives when they go through, the second, fourth and fifth a lone NUL. */
  lemma StagesFacts(w: Wire, jobLine: string, cfLine: string, dfLine: string, cf: string, data: seq<byte>)
    ensures var io := StagesW(w, jobLine, cfLine, dfLine, cf, data); var n := |w.received|;
      && (io.result.Success? ==>
            && io.result.value && |io.wire.received| == n + 5
            && io.wire.received[n + 1] == Success([0]) && io.wire.received[n + 3] == Success([0])
            && io.wire.received[n + 4] == Success([0])
            && io.wire.sent == w.sent + ControlMessagesOf(jobLine, cfLine, cf) + DataMessagesOf(dfLine, data))
      && (io.result.Failure? && io.result.error.ControlFileNotAcked? ==>
            |io.wire.received| == n + 2 && io.wire.received[n + 1] == Success(io.result.error.reply) && io.result.error.reply != [0])
      && (io.result.Failure? && io.result.error.DataFileNotAcked? ==>
            && |io.wire.received| == n + 4 && io.wire.received[n + 1] == Success([0])
            && io.wire.received[n + 3] == Success(io.result.error.reply) && io.result.error.reply != [0])
      && (io.result.Failure? && io.result.error.PrintNotConfirmed? ==>
            && |io.wire.received| == n + 5 && io.wire.received[n + 1] == Success([0])
            && io.wire.received[n + 4] == Success(io.result.error.reply) && io.result.error.reply != [0])
  {
    var io := StagesW(w, jobLine, cfLine, dfLine, cf, data);
    var n := |w.received|;
    var e := ControlStageW(w, jobLine, cfLine, cf);
    ControlStageFacts(w, jobLine, cfLine, cf);
    if e.result.Success? {
      DataStageFacts(e.wire, dfLine, data);
      assert io == DataStageW(e.wire, dfLine, data);
      assert io.wire.received[..n + 3] == e.wire.received;
      assert io.wire.received[n + 1] == e.wire.received[n + 1];
    } else {
      assert io == Io(Failure(e.result.error), e.wire);
    }
  }

  // ---------------------------------------------------------------------------
  // When send_lpr_job goes through
  // ---------------------------------------------------------------------------

  /** `recv(1024)` of a data reply gives `b'\x00'` exactly when the peer sent a lone NUL. */
  lemma TakeIsNul(d: seq<byte>)
    ensures Take(d, 1024) == [0] <==> d == [0]
  {
    if Take(d, 1024) == [0] {
      assert |d| == 1;
    }
  }

  /** `send_and_check` goes through exactly when the command is ASCII and the peer takes it and answers. */
  lemma SendAndCheckIff(w: Wire, command: string)
    ensures var c := SendAndCheckW(w, command);
      && (c.result.Success? <==> IsAscii(command) && Answers(w, 1))
      && (c.result.Success? ==>
            && c.result.value == Take(w.pending[0].bytes, 1024)
            && c.wire.sent == w.sent + [Utf8(Line(command))] && c.wire.pending == w.pending[1..]
            && c.wire.phase == w.phase && c.wire.peer == w.peer)
  {
    if IsAscii(command) {
      AsciiIsUtf8(command);
      Utf8Concat(command, "\n");
      assert Utf8("\n") == [10];
      SendRecvShape(w, Utf8(command) + [10], 1024);
    }
  }

  /** After the size line's reply, the control file goes out exactly when that reply is a lone NUL, the file is ASCII and the peer takes it and answers. */
  lemma ControlFinishIff(d: Io<seq<byte>, LprError>, cf: string)
    ensures var io := ControlFinish(d, cf);
      && (io.result.Success? <==> d.result == Success([0]) && IsAscii(cf) && Answers(d.wire, 1))
      && (io.result.Success? ==>
            && io.wire.sent == d.wire.sent + [Utf8(cf) + [0]] && io.wire.pending == d.wire.pending[1..]
            && io.wire.phase == d.wire.phase && io.wire.peer == d.wire.peer)
  {
    if d.result == Success([0]) && IsAscii(cf) {
      AsciiIsUtf8(cf);
      SendRecvShape(d.wire, Utf8(cf) + [0], 1024);
    }
  }

  /**
   * Steps 1 and 2 go through exactly when the three texts are ASCII, the
   * peer takes three sends and answers each, and its answer to the size
   * line is a lone NUL; its answers to the job line and to the control file
   * may be anything.
   */
  lemma ControlStageIff(w: Wire, jobLine: string, sizeLine: string, cf: string)
    ensures var io := ControlStageW(w, jobLine, sizeLine, cf);
      && (io.result.Success? <==>
            IsAscii(jobLine) && IsAscii(sizeLine) && IsAscii(cf) && Answers(w, 3) && w.pending[1] == Data([0]))
      && (io.result.Success? ==>
            && io.wire.sent == w.sent + ControlMessagesOf(jobLine, sizeLine, cf) && io.wire.pending == w.pending[3..]
            && io.wire.phase == w.phase && io.wire.peer == w.peer)
  {
    var io := ControlStageW(w, jobLine, sizeLine, cf);
    var c := SendAndCheckW(w, jobLine);
    SendAndCheckIff(w, jobLine);
    if c.result.Success? {
      assert io == ControlFinish(SendAndCheckW(c.wire, sizeLine), cf);
      var d := SendAndCheckW(c.wire, sizeLine);
      SendAndCheckIff(c.wire, sizeLine);
      ControlFinishIff(d, cf);
      AnswersStep(w, Utf8(Line(jobLine)), 1024, 2);
      if d.result.Success? {
        AnswersStep(c.wire, Utf8(Line(sizeLine)), 1024, 1);
        TakeIsNul(c.wire.pending[0].bytes);
        assert c.wire.pending[0] == w.pending[1];
        if Answers(d.wire, 1) {
          assert d.wire.pending[1..] == w.pending[3..];
        }
      } else if Answers(c.wire, 1) {
        assert !IsAscii(sizeLine);
      }
    } else {
      assert io == Io(Failure(c.result.error), c.wire);
      assert !(IsAscii(jobLine) && Answers(w, 3)) by {
        assert Answers(w, 3) ==> Answers(w, 1);
      }
    }
  }

  /** After the size line's reply, the data is confirmed exactly when that reply is a lone NUL and the peer takes every chunk and the NUL and answers with a lone NUL. */
  lemma DataAfterAckIff(f: Io<seq<byte>, LprError>, data: seq<byte>)
    ensures var io := DataAfterAck(f, data);
      io.result.Success? <==>
        && f.result == Success([0]) && f.wire.phase == Open
        && |f.wire.sent| + |Chunks(data, ChunkSize)| + 1 <= f.wire.peer.sendsAccepted
        && 1 <= |f.wire.pending| && f.wire.pending[0] == Data([0])
  {
    if f.result == Success([0]) {
      var io := DataAfterAck(f, data);
      var g := SendChunksW(f.wire, Chunks(data, ChunkSize));
      SendChunksShape(f.wire, Chunks(data, ChunkSize));
      if g.result.Success? {
        assert io == DataFinish(SendRecvW(g.wire, [0], 1024));
        SendRecvShape(g.wire, [0], 1024);
        if Answers(g.wire, 1) {
          TakeIsNul(g.wire.pending[0].bytes);
        }
      } else {
        assert io == Io(Failure(Classify(g.result.error)), g.wire);
      }
    }
  }

  /**
   * Step 3 goes through exactly when the size line is ASCII, the peer takes
   * the line, every chunk and the NUL, and answers the line and the NUL each
   * with a lone NUL.
   */
  lemma DataStageIff(w: Wire, sizeLine: string, data: seq<byte>)
    ensures var io := DataStageW(w, sizeLine, data);
      io.result.Success? <==>
        && IsAscii(sizeLine) && w.phase == Open
        && |w.sent| + |Chunks(data, ChunkSize)| + 2 <= w.peer.sendsAccepted
        && 2 <= |w.pending| && w.pending[0] == Data([0]) && w.pending[1] == Data([0])
  {
    var f := SendAndCheckW(w, sizeLine);
    SendAndCheckIff(w, sizeLine);
    DataAfterAckIff(f, data);
    if f.result.Success? {
      TakeIsNul(w.pending[0].bytes);
    }
  }

  /**
   * The replies that let a job through: five data replies, of which the
   * second (to the control-file size line), the fourth (to the data-file
   * size line) and the fifth (to the data) are each a lone NUL. The first
   * (to the job line) and the third (to the control file) are only logged.
   */
  predicate JobReplies(replies: seq<Reply>)
  {
    && 5 <= |replies|
    && replies[0].Data? && replies[1] == Data([0]) && replies[2].Data?
    && replies[3] == Data([0]) && replies[4] == Data([0])
  }

  /** Steps 1 to 3 go through exactly when the four texts are ASCII, the peer takes every send and gives the job's replies. */
  lemma StagesIff(w: Wire, jobLine: string, cfLine: string, dfLine: string, cf: string, data: seq<byte>)
    ensures StagesW(w, jobLine, cfLine, dfLine, cf, data).result.Success? <==>
      && IsAscii(jobLine) && IsAscii(cfLine) && IsAscii(cf) && IsAscii(dfLine)
      && w.phase == Open && |w.sent| + 5 + |Chunks(data, ChunkSize)| <= w.peer.sendsAccepted
      && JobReplies(w.pending)
  {
    var e := ControlStageW(w, jobLine, cfLine, cf);
    ControlStageIff(w, jobLine, cfLine, cf);
    if e.result.Success? {
      assert StagesW(w, jobLine, cfLine, dfLine, cf, data) == DataStageW(e.wire, dfLine, data);
      DataStageIff(e.wire, dfLine, data);
      assert |e.wire.sent| == |w.sent| + 3;
      if 2 <= |e.wire.pending| {
        assert e.wire.pending[0] == w.pending[3] && e.wire.pending[1] == w.pending[4];
      }
    } else {
      assert StagesW(w, jobLine, cfLine, dfLine, cf, data).result.Failure?;
      if JobReplies(w.pending) && w.phase == Open && |w.sent| + 5 + |Chunks(data, ChunkSize)| <= w.peer.sendsAccepted {
        assert Answers(w, 3);
      }
    }
  }

  /** Opening the connection succeeds exactly when the timeout is positive (a negative one raises ValueError, and zero makes the socket non-blocking so `connect` raises BlockingIOError) and the printer accepts; it then leaves the socket open and the script untouched. */
  lemma OpenJobIff(w: Wire, printerIp: string, timeout: real)
    ensures var b := OpenJobW(w, printerIp, timeout);
      && (b.result.Success? <==> timeout > 0.0 && w.phase == Unconnected && w.peer.connect == Accepts)
      && (b.result.Success? ==>
            b.wire.phase == Open && b.wire.sent == w.sent && b.wire.pending == w.pending && b.wire.peer == w.peer)
  {
    var t := SetTimeoutW(w, Some(timeout));
    if t.result.Success? {
      assert OpenJobW(w, printerIp, timeout) == Classified(ConnectW(t.wire, Endpoint(printerIp, LprPort)));
    }
  }

  /** A size line is ASCII exactly when the file name it announces is. */
  lemma SubcommandAscii(code: char, count: nat, name: string)
    requires code as int < 128
    ensures IsAscii(Subcommand(code, count, name)) <==> IsAscii(name)
  {
    DecimalAscii(count);
    AsciiConcat([code], Decimal(count));
    AsciiConcat([code] + Decimal(count), " ");
    AsciiConcat([code] + Decimal(count) + " ", name);
  }

  /** `send_lpr_job`'s control file is ASCII exactly when the kept part of the host name, the queue name and the kept part of the job id are. */
  lemma JobControlFileAscii(hostname: string, queue: string, jobId: string)
    ensures IsAscii(ControlFile(JobControlLines(hostname, queue, jobId))) <==>
      IsAscii(queue) && IsAscii(Take(hostname, HostnameLimit)) && IsAscii(Take(jobId, JobIdLength))
  {
    var lines := JobControlLines(hostname, queue, jobId);
    ControlFileAscii(lines);
    AsciiConcat("H", Take(hostname, HostnameLimit));
    AsciiConcat("ldfA", queue);
    AsciiConcat("Nprintjob_", Take(jobId, JobIdLength));
    assert IsAscii("Ppython_script") && IsAscii("Jlabel_print");
    assert (forall i :: 0 <= i < |lines| ==> IsAscii(lines[i])) <==>
      IsAscii(lines[0]) && IsAscii(lines[3]) && IsAscii(lines[4]);
  }

  /** The four texts of a job are ASCII exactly when the queue name, the kept part of the host name and the kept part of the job id are. */
  lemma JobTextAscii(queue: string, hostname: string, jobId: string, dataLength: nat)
    ensures var cf := ControlFile(JobControlLines(hostname, queue, jobId));
      IsAscii(ReceiveJob(queue)) && IsAscii(Subcommand('\U{2}', |cf|, "cfA" + queue)) && IsAscii(cf)
        && IsAscii(Subcommand('\U{3}', dataLength, "dfA" + queue))
      <==> IsAscii(queue) && IsAscii(Take(hostname, HostnameLimit)) && IsAscii(Take(jobId, JobIdLength))
  {
    var cf := ControlFile(JobControlLines(hostname, queue, jobId));
    AsciiConcat("\U{2}", queue);
    AsciiConcat("cfA", queue);
    AsciiConcat("dfA", queue);
    SubcommandAscii('\U{2}', |cf|, "cfA" + queue);
    SubcommandAscii('\U{3}', dataLength, "dfA" + queue);
    JobControlFileAscii(hostname, queue, jobId);
  }

  /**
   * `send_lpr_job` returns True exactly when the timeout is positive, the
   * printer accepts the connection, the queue name and the kept parts of the
   * host name and job id are ASCII, the printer takes all five sends plus
   * one per chunk, and its replies are the job's replies: the answers to
   * the two size lines and to the data are lone NULs, and the answers to the
   * job line and to the control file may be any data. Otherwise it raises.
   */
  lemma SendLprJobSucceedsIff(peer: Peer, printerIp: string, queue: string, data: seq<byte>, timeout: real, hostname: string, jobId: string)
    ensures SendLprJobW(peer, printerIp, queue, data, timeout, hostname, jobId).0 == Success(true) <==>
      && timeout > 0.0 && peer.connect == Accepts
      && IsAscii(queue) && IsAscii(Take(hostname, HostnameLimit)) && IsAscii(Take(jobId, JobIdLength))
      && 5 + |Chunks(data, ChunkSize)| <= peer.sendsAccepted
      && JobReplies(peer.replies)
    ensures SendLprJobW(peer, printerIp, queue, data, timeout, hostname, jobId).0 != Success(false)
  {
    var w := FreshWire(peer);
    var cf := ControlFile(JobControlLines(hostname, queue, jobId));
    var jobLine := ReceiveJob(queue);
    var cfLine := Subcommand('\U{2}', |cf|, "cfA" + queue);
    var dfLine := Subcommand('\U{3}', |data|, "dfA" + queue);
    var io := JobW(w, printerIp, queue, data, timeout, cf);
    assert io == JobLinesW(w, printerIp, timeout, jobLine, cfLine, dfLine, cf, data);
    JobFacts(w, printerIp, queue, data, timeout, cf);
    JobTextAscii(queue, hostname, jobId, |data|);
    var b := OpenJobW(w, printerIp, timeout);
    OpenJobIff(w, printerIp, timeout);
    if b.result.Success? {
      assert io == StagesW(b.wire, jobLine, cfLine, dfLine, cf, data);
      StagesIff(b.wire, jobLine, cfLine, dfLine, cf, data);
    } else {
      assert io == Io(Failure(b.result.error), b.wire);
    }
  }

  /** A size line answered by anything but a lone NUL stops steps 1 and 2 with that answer. */
  lemma ControlStageNack(w: Wire, jobLine: string, sizeLine: string, cf: string)
    requires IsAscii(jobLine) && IsAscii(sizeLine) && Answers(w, 2) && w.pending[1] != Data([0])
    ensures ControlStageW(w, jobLine, sizeLine, cf).result == Failure(ControlFileNotAcked(Take(w.pending[1].bytes, 1024)))
  {
    var c := SendAndCheckW(w, jobLine);
    SendAndCheckIff(w, jobLine);
    AnswersStep(w, Utf8(Line(jobLine)), 1024, 1);
    assert ControlStageW(w, jobLine, sizeLine, cf) == ControlFinish(SendAndCheckW(c.wire, sizeLine), cf);
    SendAndCheckIff(c.wire, sizeLine);
    assert c.wire.pending[0] == w.pending[1];
    TakeIsNul(w.pending[1].bytes);
  }

  /** A data-file size line answered by anything but a lone NUL stops step 3 with that answer. */
  lemma DataStageNack(w: Wire, sizeLine: string, data: seq<byte>)
    requires IsAscii(sizeLine) && Answers(w, 1) && w.pending[0] != Data([0])
    ensures DataStageW(w, sizeLine, data).result == Failure(DataFileNotAcked(Take(w.pending[0].bytes, 1024)))
  {
    SendAndCheckIff(w, sizeLine);
    TakeIsNul(w.pending[0].bytes);
  }

  /** Data answered by anything but a lone NUL, once everything was sent, is not confirmed. */
  lemma DataStageUnconfirmed(w: Wire, sizeLine: string, data: seq<byte>)
    requires IsAscii(sizeLine) && w.phase == Open
    requires |w.sent| + |Chunks(data, ChunkSize)| + 2 <= w.peer.sendsAccepted
    requires 2 <= |w.pending| && w.pending[0] == Data([0]) && w.pending[1].Data? && w.pending[1] != Data([0])
    ensures DataStageW(w, sizeLine, data).result == Failure(PrintNotConfirmed(Take(w.pending[1].bytes, 1024)))
  {
    var f := SendAndCheckW(w, sizeLine);
    SendAndCheckIff(w, sizeLine);
    TakeIsNul(w.pending[0].bytes);
    assert f.result == Success([0]);
    var g := SendChunksW(f.wire, Chunks(data, ChunkSize));
    SendChunksShape(f.wire, Chunks(data, ChunkSize));
    assert DataStageW(w, sizeLine, data) == DataFinish(SendRecvW(g.wire, [0], 1024));
    SendRecvShape(g.wire, [0], 1024);
    assert g.wire.pending[0] == w.pending[1];
    TakeIsNul(w.pending[1].bytes);
  }

  /**
   * When the printer accepts the connection and every send, and answers
   * each of the five messages with data, the first checked answer that is
   * not a lone NUL decides the error: the control-file size line's gives
   * ControlFileNotAcked, the data-file size line's DataFileNotAcked, and
   * the data's PrintNotConfirmed, each carrying that answer as `recv(1024)`
   * returned it.
   */
  lemma SendLprJobNacks(peer: Peer, printerIp: string, queue: string, data: seq<byte>, timeout: real, hostname: string, jobId: string)
    requires timeout > 0.0 && peer.connect == Accepts
    requires IsAscii(queue) && IsAscii(Take(hostname, HostnameLimit)) && IsAscii(Take(jobId, JobIdLength))
    requires 5 + |Chunks(data, ChunkSize)| <= peer.sendsAccepted
    requires 5 <= |peer.replies| && forall i :: 0 <= i < 5 ==> peer.replies[i].Data?
    ensures var r := SendLprJobW(peer, printerIp, queue, data, timeout, hostname, jobId).0;
      && (peer.replies[1] != Data([0]) ==> r == Failure(ControlFileNotAcked(Take(peer.replies[1].bytes, 1024))))
      && (peer.replies[1] == Data([0]) && peer.replies[3] != Data([0]) ==>
            r == Failure(DataFileNotAcked(Take(peer.replies[3].bytes, 1024))))
      && (peer.replies[1] == Data([0]) && peer.replies[3] == Data([0]) && peer.replies[4] != Data([0]) ==>
            r == Failure(PrintNotConfirmed(Take(peer.replies[4].bytes, 1024))))
  {
    var w := FreshWire(peer);
    var cf := ControlFile(JobControlLines(hostname, queue, jobId));
    var jobLine := ReceiveJob(queue);
    var cfLine := Subcommand('\U{2}', |cf|, "cfA" + queue);
    var dfLine := Subcommand('\U{3}', |data|, "dfA" + queue);
    JobTextAscii(queue, hostname, jobId, |data|);
    var b := OpenJobW(w, printerIp, timeout);
    OpenJobIff(w, printerIp, timeout);
    assert JobW(w, printerIp, queue, data, timeout, cf) == StagesW(b.wire, jobLine, cfLine, dfLine, cf, data);
    var v := b.wire;
    assert Answers(v, 3);
    if peer.replies[1] != Data([0]) {
      ControlStageNack(v, jobLine, cfLine, cf);
    } else {
      var e := ControlStageW(v, jobLine, cfLine, cf);
      ControlStageIff(v, jobLine, cfLine, cf);
      assert StagesW(v, jobLine, cfLine, dfLine, cf, data) == DataStageW(e.wire, dfLine, data);
      assert e.wire.pending[0] == peer.replies[3] && e.wire.pending[1] == peer.replies[4];
      if peer.replies[3] != Data([0]) {
        DataStageNack(e.wire, dfLine, data);
      } else if peer.replies[4] != Data([0]) {
        DataStageUnconfirmed(e.wire, dfLine, data);
      }
    }
  }

  /** `send_lpr_job(printer_ip, queue_name, data, timeout)` on a fresh socket to `peer`, with the host name and a uuid's hex text as parameters. */
  method SendLprJob(printerIp: string, queue: string, data: seq<byte>, hostname: string, jobId: string, peer: Peer, timeout: real := 10.0)
    returns (r: Result<bool, LprError>, socket: Wire)
    ensures (r, socket) == SendLprJobW(peer, printerIp, queue, data, timeout, hostname, jobId)
  {
    var s := new Socket(peer);
    r := JobOn(s, printerIp, queue, data, timeout, ControlFile(JobControlLines(hostname, queue, jobId)));
    s.Close();
    socket := s.Value();
  }

  method SendAndCheck(s: Socket, command: string) returns (r: Result<seq<byte>, LprError>)
    modifies s
    ensures Io(r, s.Value()) == SendAndCheckW(old(s.Value()), command)
  {
    var bytes := AsciiEncode(command);
    if bytes.None? { return Failure(NotAscii); }
    var c := SendRecv(s, bytes.value + [10], 1024);
    if c.Failure? { return Failure(Classify(c.error)); }
    return Success(c.value);
  }

  /** The chunk loop `for i in range(0, len(data), 4096): s.sendall(data[i:i+4096])`. */
  method SendChunks(s: Socket, data: seq<byte>) returns (r: Result<(), SockError>)
    modifies s
    ensures Io(r, s.Value()) == SendChunksW(old(s.Value()), Chunks(data, ChunkSize))
  {
    var i := 0;
    while i < |data|
      invariant 0 <= i
      invariant SendChunksW(old(s.Value()), Chunks(data, ChunkSize)) == SendChunksW(s.Value(), Chunks(data[Min(i, |data|)..], ChunkSize))
      decreases |data| - i
    {
      var chunk := data[i..Min(i + ChunkSize, |data|)];
      var next := Min(i + ChunkSize, |data|);
      if |data| - i > ChunkSize {
        assert data[i..][..ChunkSize] == chunk && data[i..][ChunkSize..] == data[next..];
      } else {
        assert data[i..] == chunk && data[next..] == [];
      }
      assert Chunks(data[i..], ChunkSize) == [chunk] + Chunks(data[next..], ChunkSize);
      var a := s.SendAll(chunk);
      if a.Failure? { return a; }
      i := i + ChunkSize;
    }
    return Success(());
  }

  method JobOn(s: Socket, printerIp: string, queue: string, data: seq<byte>, timeout: real, cf: string)
    returns (r: Result<bool, LprError>)
    modifies s
    ensures Io(r, s.Value()) == JobW(old(s.Value()), printerIp, queue, data, timeout, cf)
  {
    var a := s.SetTimeout(Some(timeout));
    if a.Failure? { return Failure(Classify(a.error)); }
    var b := s.Connect(Endpoint(printerIp, LprPort));
    if b.Failure? { return Failure(Classify(b.error)); }
    ghost var afterOpen := s.Value();
    var init := SendAndCheck(s, ReceiveJob(queue));
    if init.Failure? { return Failure(init.error); }
    // a reply other than b'\x00' to the job line is only logged
    var cfAck := SendAndCheck(s, Subcommand('\U{2}', |cf|, "cfA" + queue));
    if cfAck.Failure? { return Failure(cfAck.error); }
    if cfAck.value != [0] { return Failure(ControlFileNotAcked(cfAck.value)); }
    var cfBytes := AsciiEncode(cf);
    if cfBytes.None? { return Failure(NotAscii); }
    var e := SendRecv(s, cfBytes.value + [0], 1024);
    if e.Failure? { return Failure(Classify(e.error)); }
    assert ControlStageW(afterOpen, ReceiveJob(queue), Subcommand('\U{2}', |cf|, "cfA" + queue), cf) == Io(Success(()), s.Value());
    ghost var afterControl := s.Value();
    var dfAck := SendAndCheck(s, Subcommand('\U{3}', |data|, "dfA" + queue));
    if dfAck.Failure? { return Failure(dfAck.error); }
    if dfAck.value != [0] { return Failure(DataFileNotAcked(dfAck.value)); }
    var g := SendChunks(s, data);
    if g.Failure? { return Failure(Classify(g.error)); }
    var h := SendRecv(s, [0], 1024);
    if h.Failure? { return Failure(Classify(h.error)); }
    if h.value == [0] { return Success(true); }
    return Failure(PrintNotConfirmed(h.value));
  }

  // ---------------------------------------------------------------------------
  // The /print_code_label route
  // ---------------------------------------------------------------------------

  /** Why the route gave up. */
  datatype PrintFailure = RenderFailed | AllMethodsFailed

  /** The route's JSON answer: `{"status": "success", "method": ...}` or `{"status": "error", "detail": ...}`. */
  datatype PrintResponse = Printed(via: string) | PrintError(detail: PrintFailure)

  /** The cascade: LPR first, the system `lpr` command second, an error last. */
  function Cascade(lpr: bool, systemLpr: bool): (r: PrintResponse)
    ensures r == Printed("lpr") <==> lpr
    ensures r == Printed("system_lpr") <==> !lpr && systemLpr
    ensures r == PrintError(AllMethodsFailed) <==> !lpr && !systemLpr
  {
    if lpr then Printed("lpr")
    else if systemLpr then Printed("system_lpr")
    else PrintError(AllMethodsFailed)
  }

  /**
   * `print_label(content)`: render the label, convert it to raster data
   * (`raster`, the outcome of the foreign conversion), then try LPR and the
   * system `lpr` command (`systemLpr`, its outcome) in turn.
   */
  method PrintLabel(content: string, lineHeight: int, raster: Call<seq<byte>>, hostname: string, peers: seq<Peer>, systemLpr: bool)
    returns (response: PrintResponse)
    ensures raster.Raises? ==> response == PrintError(RenderFailed)
    ensures raster.Returns? ==>
      (response == Printed("lpr") <==> FirstSuccess(Outcomes(raster.value, hostname, peers)).0)
    ensures raster.Returns? ==>
      response == Cascade(FirstSuccess(Outcomes(raster.value, hostname, peers)).0, systemLpr)
  {
    var _ := CreateLabelImage(content, lineHeight);
    if raster.Raises? {
      return PrintError(RenderFailed);
    }
    var lpr, _ := TryLprPrint(raster.value, hostname, peers);
    response := Cascade(lpr, systemLpr);
  }
}
