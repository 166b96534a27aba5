/**
 * The relay session of the netcat client (src/main.rs,
 * `NetcatClientEventHandler` and the `NetworkConnection` enum).
 *
 * The handler moves bytes from standard input to the network connection and
 * from the connection to standard output. The operating system's answers to
 * each read, write, send and half-close are inputs (`IoOutcomes`); what the
 * handler does is recorded as a log of `Effect`s.
 */
module Netcat {
  import opened EventSets
  import opened IoPoll

  /** Size of the buffer every read uses. */
  const BUF_SIZE: nat := 1024

  type Byte = bv8

  /** The bytes one read delivers: at most a buffer's worth. */
  type Chunk = s: seq<Byte> | |s| <= BUF_SIZE witness []

  /** The kind of connection the client holds (the socket itself is not modelled). */
  datatype NetworkConnection = TcpClient | UdpClient

  /** A read into the buffer: `ReadOk(data)` with the bytes read (none at end of stream), or a failure. */
  datatype ReadOutcome = ReadOk(data: Chunk) | ReadErr

  /** A datagram send: the number of bytes sent, or a failure. */
  datatype SendOutcome = SendOk(sent: nat) | SendErr

  /**
   * What the operating system answers to each operation a `ready_for_io`
   * call may perform: the stdin read, the TCP `write_all`, the UDP `send`,
   * the TCP write half-close, the network read or receive, and the stdout
   * `write_all`.
   */
  datatype IoOutcomes = IoOutcomes(
    stdinRead: ReadOutcome,
    netWriteOk: bool,
    udpSend: SendOutcome,
    halfCloseOk: bool,
    netRead: ReadOutcome,
    stdoutWriteOk: bool)

  /** One externally visible action of the handler, in the order it is performed. */
  datatype Effect =
    | WriteToNet(data: seq<Byte>)     // TCP write_all of the bytes read from stdin
    | UdpSend(data: seq<Byte>)        // one datagram with the bytes read from stdin
    | ShutdownWrite                   // TCP half-close after end of stdin
    | WriteToStdout(data: seq<Byte>)  // stdout write_all of the bytes read from the network
    | UnregisterStdin                 // stdin taken off the watch list
    | ShutdownLoop                    // the event loop asked to stop

  /** The `std::io::Result<()>` of `ready_for_io`. */
  datatype IoResult = IoOk | IoErr

  /** The handler's two latches. */
  datatype Session = Session(stdinOpen: bool, networkOpen: bool)

  /** What one `ready_for_io` call leaves behind. */
  datatype Reaction = Reaction(session: Session, effects: seq<Effect>, result: IoResult)

  /** A UDP send that did not send the whole buffer asks the loop to stop. */
  predicate SendFellShort(o: SendOutcome, n: nat) {
    match o
    case SendOk(sent) => sent != n
    case SendErr => true
  }

  /** The readiness `ready_for_io` acts on: the set is readable and the token is stdin's. */
  predicate StdinReadable(s: Session, token: Token, es: EventSet) {
    es.IsReadable() && token == Token(0) && s.stdinOpen
  }

  /** Forwarding the bytes read from stdin: the effects, whether it failed, whether it asks for a stop. */
  datatype Forwarded = Forwarded(effects: seq<Effect>, failed: bool, stop: bool)

  function Forward(conn: NetworkConnection, data: Chunk, io: IoOutcomes): (f: Forwarded)
    ensures f.failed <==> conn.TcpClient? && data != [] && !io.netWriteOk
    ensures f.stop <==> conn.UdpClient? && SendFellShort(io.udpSend, |data|)
    ensures conn.UdpClient? ==> f.effects == [UdpSend(data)] && !f.failed
    ensures conn.TcpClient? ==> f.effects == (if data == [] then [] else [WriteToNet(data)])
  {
    match conn
    case TcpClient =>
      // `write_all` on an empty buffer performs no write and cannot fail.
      if data == [] then Forwarded([], false, false)
      else Forwarded([WriteToNet(data)], !io.netWriteOk, false)
    case UdpClient =>
      Forwarded([UdpSend(data)], false, SendFellShort(io.udpSend, |data|))
  }

  /** The handler's reaction to a readable standard input with the stdin latch open. */
  function ReactStdin(conn: NetworkConnection, s: Session, io: IoOutcomes): Reaction {
    match io.stdinRead
    case ReadErr => Reaction(s, [ShutdownLoop], IoOk)
    case ReadOk(data) =>
      var fwd := Forward(conn, data, io);
      if fwd.failed then Reaction(s, fwd.effects, IoErr)
      else if data == [] then
        var closed := s.(stdinOpen := false);
        if conn.TcpClient? then
          var effects := fwd.effects + [UnregisterStdin, ShutdownWrite];
          if io.halfCloseOk then Reaction(closed, effects, IoOk)
          else Reaction(closed, effects, IoErr)
        else
          Reaction(closed, fwd.effects + [UnregisterStdin] + (if fwd.stop then [ShutdownLoop] else []), IoOk)
      else
        Reaction(s, fwd.effects + (if fwd.stop then [ShutdownLoop] else []), IoOk)
  }

  /** The handler's reaction to a readable network connection. */
  function ReactNetwork(s: Session, io: IoOutcomes): Reaction {
    match io.netRead
    case ReadErr => Reaction(s, [], IoOk)
    case ReadOk(data) =>
      if data == [] then Reaction(s.(networkOpen := false), [ShutdownLoop], IoOk)
      else if io.stdoutWriteOk then Reaction(s, [WriteToStdout(data)], IoOk)
      else Reaction(s, [WriteToStdout(data)], IoErr)
  }

  /**
   * What `ready_for_io` does for `token` and the reported set `es`, given the
   * outcomes of the operations it performs.
   */
  function React(conn: NetworkConnection, s: Session, token: Token, es: EventSet, io: IoOutcomes): Reaction {
    if !es.IsReadable() then Reaction(s, [], IoOk)
    else if token == Token(0) then
      if s.stdinOpen then ReactStdin(conn, s, io) else Reaction(s, [], IoOk)
    else ReactNetwork(s, io)
  }

  /** Only a readable set is acted on, and a readable stdin is ignored once its latch is closed. */
  lemma ReactIgnores(conn: NetworkConnection, s: Session, token: Token, es: EventSet, io: IoOutcomes)
    ensures !es.IsReadable() ==> React(conn, s, token, es, io) == Reaction(s, [], IoOk)
    ensures token == Token(0) && !s.stdinOpen ==> React(conn, s, token, es, io) == Reaction(s, [], IoOk)
    ensures token != Token(0) && io.netRead.ReadErr? ==> React(conn, s, token, es, io) == Reaction(s, [], IoOk)
  {
  }

  /**
   * The latches only ever close. Standard input closes, is unregistered and,
   * on TCP, half-closed exactly on end of stdin; the network closes exactly
   * on end of the network stream, and that asks the loop to stop.
   */
  lemma ReactLatches(conn: NetworkConnection, s: Session, token: Token, es: EventSet, io: IoOutcomes)
    ensures var r := React(conn, s, token, es, io);
      (r.session.stdinOpen ==> s.stdinOpen) && (r.session.networkOpen ==> s.networkOpen)
    ensures var r := React(conn, s, token, es, io);
      (s.stdinOpen && !r.session.stdinOpen <==> UnregisterStdin in r.effects) &&
      (UnregisterStdin in r.effects <==> StdinReadable(s, token, es) && io.stdinRead == ReadOk([]))
    ensures var r := React(conn, s, token, es, io);
      ShutdownWrite in r.effects <==> conn.TcpClient? && UnregisterStdin in r.effects
    ensures var r := React(conn, s, token, es, io);
      (s.networkOpen && !r.session.networkOpen <==>
        s.networkOpen && es.IsReadable() && token != Token(0) && io.netRead == ReadOk([])) &&
      (s.networkOpen && !r.session.networkOpen ==> ShutdownLoop in r.effects)
  {
  }

  /**
   * `ready_for_io` fails only at its three `?` sites (the TCP write, the
   * half-close, the stdout write). It asks the loop to stop on a stdin read
   * failure, a short or failed UDP send, or end of the network stream, and
   * never when it fails.
   */
  lemma ReactFailuresAndStops(conn: NetworkConnection, s: Session, token: Token, es: EventSet, io: IoOutcomes)
    ensures var r := React(conn, s, token, es, io);
      r.result == IoErr <==>
        (StdinReadable(s, token, es) && conn.TcpClient? && io.stdinRead.ReadOk? &&
          (if io.stdinRead.data == [] then !io.halfCloseOk else !io.netWriteOk)) ||
        (es.IsReadable() && token != Token(0) && io.netRead.ReadOk? &&
          io.netRead.data != [] && !io.stdoutWriteOk)
    ensures var r := React(conn, s, token, es, io);
      ShutdownLoop in r.effects <==>
        (StdinReadable(s, token, es) && (io.stdinRead.ReadErr? ||
          (conn.UdpClient? && SendFellShort(io.udpSend, |io.stdinRead.data|)))) ||
        (es.IsReadable() && token != Token(0) && io.netRead == ReadOk([]))
    ensures var r := React(conn, s, token, es, io);
      r.result == IoErr ==> ShutdownLoop !in r.effects
  {
  }

  /** Bytes are forwarded verbatim, each read to its one destination, and every stdin read reaches the network. */
  lemma ReactForwardsVerbatim(conn: NetworkConnection, s: Session, token: Token, es: EventSet, io: IoOutcomes)
    ensures forall e :: e in React(conn, s, token, es, io).effects && e.WriteToNet? ==>
      StdinReadable(s, token, es) && conn.TcpClient? && io.stdinRead.ReadOk? && io.stdinRead.data == e.data && e.data != []
    ensures forall e :: e in React(conn, s, token, es, io).effects && e.UdpSend? ==>
      StdinReadable(s, token, es) && conn.UdpClient? && io.stdinRead.ReadOk? && io.stdinRead.data == e.data
    ensures forall e :: e in React(conn, s, token, es, io).effects && e.WriteToStdout? ==>
      es.IsReadable() && token != Token(0) && io.netRead.ReadOk? && io.netRead.data == e.data && e.data != []
    ensures StdinReadable(s, token, es) && io.stdinRead.ReadOk? ==>
      (conn.UdpClient? ==> UdpSend(io.stdinRead.data) in React(conn, s, token, es, io).effects) &&
      (conn.TcpClient? && io.stdinRead.data != [] ==> WriteToNet(io.stdinRead.data) in React(conn, s, token, es, io).effects)
    ensures es.IsReadable() && token != Token(0) && io.netRead.ReadOk? && io.netRead.data != [] ==>
      WriteToStdout(io.netRead.data) in React(conn, s, token, es, io).effects
  {
    if StdinReadable(s, token, es) {
      assert React(conn, s, token, es, io) == ReactStdin(conn, s, io);
    } else if es.IsReadable() && token != Token(0) {
      assert React(conn, s, token, es, io) == ReactNetwork(s, io);
    }
  }

  class NetcatClientEventHandler {
    var stdinOpen: bool
    var networkOpen: bool
    const networkClient: NetworkConnection

    function State(): Session
      reads this
    {
      Session(stdinOpen, networkOpen)
    }

    /** A fresh session: both latches open. */
    constructor (conn: NetworkConnection)
      ensures stdinOpen && networkOpen
      ensures networkClient == conn
    {
      stdinOpen := true;
      networkOpen := true;
      networkClient := conn;
    }

    /**
     * `ready_for_io`: moves one buffer between stdin and the connection,
     * records what it did in `effects`, and reports the outcome in `r`.
     */
    method ReadyForIo(el: EventLoop, token: Token, es: EventSet, io: IoOutcomes) returns (r: IoResult, effects: seq<Effect>)
      modifies this, el
      ensures Reaction(State(), effects, r) == React(networkClient, old(State()), token, es, io)
      ensures el.pollfds == if UnregisterStdin in effects then Without(old(el.pollfds), STDIN_FD) else old(el.pollfds)
      ensures el.active == (old(el.active) && ShutdownLoop !in effects)
    {
      r, effects := IoOk, [];
      if es.IsReadable() {
        if token == Token(0) {
          if stdinOpen {
            r, effects := StdinReady(el, io);
          }
        } else {
          r, effects := NetworkReady(el, io);
        }
      }
    }

    /** The stdin branch of `ready_for_io`: one read from stdin, forwarded to the connection. */
    method StdinReady(el: EventLoop, io: IoOutcomes) returns (r: IoResult, effects: seq<Effect>)
      requires stdinOpen
      modifies this, el
      ensures Reaction(State(), effects, r) == ReactStdin(networkClient, old(State()), io)
      ensures el.pollfds == if UnregisterStdin in effects then Without(old(el.pollfds), STDIN_FD) else old(el.pollfds)
      ensures el.active == (old(el.active) && ShutdownLoop !in effects)
    {
      effects := [];
      var shutdownLoop := false;
      match io.stdinRead {
        case ReadOk(buf) =>
          match networkClient {
            case TcpClient =>
              // `write_all` on an empty buffer performs no write.
              if |buf| > 0 {
                effects := effects + [WriteToNet(buf)];
                if !io.netWriteOk {
                  return IoErr, effects;
                }
              }
            case UdpClient =>
              effects := effects + [UdpSend(buf)];
              match io.udpSend {
                case SendOk(sent) =>
                  if sent != |buf| {
                    shutdownLoop := true;
                  }
                case SendErr =>
                  shutdownLoop := true;
              }
          }
          if |buf| == 0 {
            stdinOpen := false;
            el.UnregisterStdin();
            effects := effects + [UnregisterStdin];
            if networkClient.TcpClient? {
              effects := effects + [ShutdownWrite];
              if !io.halfCloseOk {
                return IoErr, effects;
              }
            }
          }
        case ReadErr =>
          shutdownLoop := true;
      }
      if shutdownLoop {
        el.Shutdown();
        effects := effects + [ShutdownLoop];
      }
      r := IoOk;
    }

    /** The network branch of `ready_for_io`: one read or receive, copied to stdout. */
    method NetworkReady(el: EventLoop, io: IoOutcomes) returns (r: IoResult, effects: seq<Effect>)
      modifies this, el
      ensures Reaction(State(), effects, r) == ReactNetwork(old(State()), io)
      ensures el.pollfds == old(el.pollfds)
      ensures el.active == (old(el.active) && ShutdownLoop !in effects)
    {
      effects := [];
      var shutdownLoop := false;
      match io.netRead {
        case ReadOk(buf) =>
          if |buf| > 0 {
            effects := effects + [WriteToStdout(buf)];
            if !io.stdoutWriteOk {
              return IoErr, effects;
            }
          }
          if |buf| == 0 {
            shutdownLoop := true;
            networkOpen := false;
          }
        case ReadErr =>
      }
      if shutdownLoop {
        el.Shutdown();
        effects := effects + [ShutdownLoop];
      }
      r := IoOk;
    }

    /** `error` does nothing. */
    method Error(el: EventLoop, token: Token) returns (effects: seq<Effect>)
      ensures effects == []
    {
      effects := [];
    }

    /** `timeout` always asks the loop to stop. */
    method Timeout(el: EventLoop) returns (effects: seq<Effect>)
      modifies el
      ensures effects == [ShutdownLoop]
      ensures !el.active && el.pollfds == old(el.pollfds)
    {
      el.Shutdown();
      effects := [ShutdownLoop];
    }

    /** `hangup` asks the loop to stop only for standard input's token. */
    method Hangup(el: EventLoop, token: Token) returns (effects: seq<Effect>)
      modifies el
      ensures effects == if token == Token(0) then [ShutdownLoop] else []
      ensures el.active == (old(el.active) && token != Token(0))
      ensures el.pollfds == old(el.pollfds)
    {
      effects := [];
      if token == Token(0) {
        el.Shutdown();
        effects := [ShutdownLoop];
      }
    }
  }

  /** The process exit status after `run`: 1 when it returned an error, 0 otherwise. */
  function ExitCode(result: RunResult): (code: int)
    ensures code == 1 <==> result.RunErr?
    ensures code == 0 <==> result.RunOk?
  {
    if result.RunErr? then 1 else 0
  }
}
