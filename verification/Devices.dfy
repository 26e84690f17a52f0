/**
 The life cycle of the simulated access points of one node (src/OWLSclient.cpp, src/OWLS_*.cpp,
 src/SimulationRunner.cpp).

 The first half describes, on plain values, what every mutex-protected body does to the node. The
 second half is the imperative form: the classes of the source, each method proved against the
 function of the first half. Sockets and frames appear only through the outcome handed to a method;
 the scheduler is the multiset of events it still has to fire.
 */
module Devices {
  import opened Common
  import opened Naming
  import opened Stats
  import opened Tiling

  datatype EventKind = Establish | Reconnect | State | HealthCheck | WSPing | Log

  datatype Event = Event(kind: EventKind, client: string)

  /** The connection fields of one OWLSclient. */
  datatype ClientState = ClientState(valid: bool, connected: bool, fd: int, backoff: nat)

  /**
   Outcome of an EstablishConnection: an exception before its try block (a gateway that Poco::URI refuses,
   a certificate or key that cannot be loaded), or that of the handshake and the connect message.
   */
  datatype Handshake = Lost | Failed | Opened(fd: int)

  /** `accepted` tells whether Poco::URI accepts the uri of an upgrade. */
  datatype Command = Configure | Reboot | Upgrade(accepted: bool) | Factory | LEDs

  /** A command is ignored when parameters are missing; otherwise its answer is sent or not. */
  datatype Answer = Ignored | Unsent | Sent

  /** What reading a frame from the socket yields. */
  datatype Frame = Broken | Quiet | Order(command: Command) | Unsupported(sent: bool)

  /** One node: `clients` by serial number, `fdIndex` is Clients_fd_, `slots` the run's SimStats slots. */
  datatype Node = Node(
    master: bool,
    running: bool,
    clients: map<string, ClientState>,
    fdIndex: map<int, string>,
    pending: multiset<Event>,
    slots: Slots)

  const NO_FD: int := -1

  /** Commands that disconnect their client and then sleep. */
  predicate Restarts(command: Command)
  {
    command == Reboot || command == Upgrade(true) || command == Factory
  }

  /** Commands that disconnect their client and then end by an exception. */
  predicate Aborts(command: Command)
  {
    command == Upgrade(false)
  }

  function NextBackoff(backoff: nat): nat
  {
    if backoff > 300 then 15 else backoff * 2
  }

  /** One body run under a client's mutex, with the outcome of its I/O. */
  datatype Work =
    | Disconnecting                              // OWLSclient::Disconnect
    | DroppingOut                                // OWLSClientEvents::Disconnect, Reconnect == true
    | Reconnecting
    | Establishing(handshake: Handshake, now: nat)
    | Beating(kind: EventKind, sent: bool)       // State, HealthCheck, WSPing, Log
    | Obeying(command: Command, answer: Answer)  // a command thread, up to its sleep
    | Reading(frame: Frame)                      // OnSocketReadable

  datatype IndexChange = KeepIndex | Forget(fd: int) | Remember(fd: int)

  /** Greeting is what a successful connection posts. */
  datatype Posts = Nothing | One(kind: EventKind) | Greeting

  datatype LiveChange = Keep | Raise(now: nat) | Lower

  /** What a body does: the client's new fields and the changes around it. */
  datatype Effect = Effect(client: ClientState, index: IndexChange, posts: Posts, live: LiveChange)

  function NoEffect(s: ClientState): Effect
  {
    Effect(s, KeepIndex, Nothing, Keep)
  }

  function DisconnectEffect(s: ClientState): Effect
  {
    Effect(s.(fd := NO_FD, connected := s.connected && !s.valid),
           if s.fd == NO_FD then KeepIndex else Forget(s.fd), Nothing, if s.valid then Lower else Keep)
  }

  function DropOutEffect(running: bool, s: ClientState): Effect
  {
    if !running || !s.valid then NoEffect(s)
    else
      var e := DisconnectEffect(s);
      e.(client := e.client.(backoff := NextBackoff(s.backoff)), posts := One(Establish))
  }

  /** Dropping out is disconnecting, one step of back-off and one posted connection. */
  lemma DropOutIs(s: ClientState)
    requires s.valid
    ensures var cut := DisconnectEffect(s);
      DropOutEffect(true, s)
        == Effect(cut.client.(backoff := NextBackoff(s.backoff)), cut.index, One(Establish), cut.live)
  {
  }

  function EffectOf(running: bool, s: ClientState, work: Work): Effect
  {
    match work
    case Disconnecting => DisconnectEffect(s)
    case DroppingOut => DropOutEffect(running, s)
    case Reconnecting =>
      if !running || !s.valid then NoEffect(s)
      else Effect(s.(connected := false, backoff := NextBackoff(s.backoff)), KeepIndex, One(Establish), Keep)
    case Establishing(handshake, now) =>
      if !running || handshake.Lost? then NoEffect(s)
      else if handshake.Failed? then
        Effect(s.(backoff := NextBackoff(s.backoff)), KeepIndex, One(Reconnect), Keep)
      else
        Effect(s.(connected := true, fd := handshake.fd, backoff := 0), Remember(handshake.fd), Greeting, Raise(now))
    case Beating(kind, sent) =>
      if !running || !s.valid || !s.connected then NoEffect(s)
      else if !sent then DropOutEffect(running, s)
      else Effect(s, KeepIndex, if kind == Log then Nothing else One(kind), Keep)
    case Obeying(command, answer) =>
      if answer == Unsent then DropOutEffect(running, s)
      else if answer == Sent && (Restarts(command) || Aborts(command)) then DisconnectEffect(s)
      else NoEffect(s)
    case Reading(frame) =>
      if frame == Broken || frame == Unsupported(false) then DropOutEffect(running, s)
      else NoEffect(s)
  }

  function Posted(posts: Posts, c: string): multiset<Event>
  {
    match posts
    case Nothing => multiset{}
    case One(kind) => multiset{Event(kind, c)}
    case Greeting => multiset{Event(State, c), Event(HealthCheck, c), Event(Log, c), Event(WSPing, c)}
  }

  function Indexed<T>(fdIndex: map<int, T>, change: IndexChange, c: T): map<int, T>
  {
    match change
    case KeepIndex => fdIndex
    case Forget(fd) => fdIndex - {fd}
    case Remember(fd) => fdIndex[fd := c]
  }

  function Counted(master: bool, slots: Slots, change: LiveChange): Slots
  {
    match change
    case Keep => slots
    case Raise(now) => Raised(master, slots, now)
    case Lower => Lowered(slots)
  }

  function Enact(k: Node, c: string, e: Effect): Node
  {
    Node(k.master, k.running, k.clients[c := e.client], Indexed(k.fdIndex, e.index, c),
         k.pending + Posted(e.posts, c), Counted(k.master, k.slots, e.live))
  }

  function Perform(k: Node, c: string, work: Work): Node
    requires c in k.clients
  {
    Enact(k, c, EffectOf(k.running, k.clients[c], work))
  }

  /**
   How run() ends: by a remainder by zero, by the exception of a client's constructor, or after it started
   the secondaries, all of them if `completed`.
   */
  datatype Launch = ZeroModulus | BadSerial | Launched(remote: seq<Slice>, completed: bool)

  /** How many secondaries are called: all up to and including the first without an answer. */
  function Reached(answered: seq<bool>): (n: nat)
    ensures n <= |answered|
  {
    if answered == [] then 0 else if !answered[0] then 1 else 1 + Reached(answered[1..])
  }

  lemma {:induction false} ReachedAll(answered: seq<bool>)
    requires false !in answered
    ensures Reached(answered) == |answered|
  {
    if answered != [] {
      ReachedAll(answered[1..]);
    }
  }

  lemma {:induction false} ReachedAt(answered: seq<bool>, i: nat)
    requires i < |answered| && (forall j | 0 <= j < i :: answered[j]) && !answered[i]
    ensures Reached(answered) == i + 1
  {
    if i > 0 {
      ReachedAt(answered[1..], i - 1);
    }
  }

  class OWLSclient {
    const SerialNumber: string
    var Valid: bool
    var Connected: bool
    var Fd: int
    var BackoffDelay: nat

    constructor (serial: string)
      ensures SerialNumber == serial && State() == ClientState(true, false, NO_FD, 0)
    {
      SerialNumber := serial;
      Valid, Connected, Fd, BackoffDelay := true, false, NO_FD, 0;
    }

    function State(): ClientState
      reads this
    {
      ClientState(Valid, Connected, Fd, BackoffDelay)
    }

    method Backoff() returns (delay: nat)
      modifies this`BackoffDelay
      ensures delay == BackoffDelay == NextBackoff(old(BackoffDelay))
    {
      if BackoffDelay > 300 {
        BackoffDelay := 15;
      } else {
        BackoffDelay := BackoffDelay * 2;
      }
      delay := BackoffDelay;
    }
  }

  class SimulationRunner {
    const RunningId: string
    const stats: SimStats
    var Running: bool
    var Clients: map<string, OWLSclient>
    var ClientsFd: map<int, OWLSclient>
    var Pending: multiset<Event>

    ghost predicate Valid()
      reads this, stats, Clients.Values
    {
      && stats.Valid()
      && (forall c <- Clients :: Clients[c].SerialNumber == c)
      && (forall fd <- ClientsFd :: Owns(ClientsFd[fd]))
    }

    ghost predicate Owns(client: OWLSclient)
      reads this, Clients.Values
    {
      client.SerialNumber in Clients && Clients[client.SerialNumber] == client
    }

    ghost function View(): Node
      reads this, stats, Clients.Values
    {
      Node(stats.master, Running, ClientStates(), Serials(ClientsFd), Pending, stats.SlotsOf(RunningId))
    }

    ghost function ClientStates(): map<string, ClientState>
      reads this, Clients.Values
    {
      map c | c in Clients :: Clients[c].State()
    }

    static ghost function Serials(clientsFd: map<int, OWLSclient>): map<int, string>
    {
      map fd | fd in clientsFd :: clientsFd[fd].SerialNumber
    }

    static lemma SerialsIndexed(clientsFd: map<int, OWLSclient>, change: IndexChange, client: OWLSclient)
      ensures Serials(Indexed(clientsFd, change, client)) == Indexed(Serials(clientsFd), change, client.SerialNumber)
    {
    }

    /** The fields changed as effect `e` on `client` says, and nothing else did. */
    twostate predicate Did(client: OWLSclient, e: Effect)
      reads this, stats, client, Clients.Values
    {
      && Clients == old(Clients) && Running == old(Running)
      && client.State() == e.client
      && (forall c <- Clients :: Clients[c] != client ==> Clients[c].State() == old(Clients[c].State()))
      && ClientsFd == Indexed(old(ClientsFd), e.index, client)
      && Pending == old(Pending) + Posted(e.posts, client.SerialNumber)
      && stats.SlotsOf(RunningId) == Counted(stats.master, old(stats.SlotsOf(RunningId)), e.live)
    }

    /** So on the view the method enacted exactly that effect. */
    twostate lemma DidEnact(client: OWLSclient, e: Effect)
      requires old(Valid()) && old(Owns(client)) && Did(client, e)
      ensures View() == Enact(old(View()), client.SerialNumber, e)
    {
      assert ClientStates() == old(ClientStates())[client.SerialNumber := e.client];
      SerialsIndexed(old(ClientsFd), e.index, client);
    }

    constructor (runningId: string, stats: SimStats)
      requires stats.Valid()
      ensures Valid() && RunningId == runningId && this.stats == stats
      ensures View() == Node(stats.master, false, map[], map[], multiset{}, stats.SlotsOf(runningId))
    {
      RunningId, this.stats := runningId, stats;
      Running, Clients, ClientsFd, Pending := false, map[], map[], multiset{};
    }

    method AddClientFd(fd: int, client: OWLSclient)
      requires Valid() && Owns(client)
      modifies this`ClientsFd
      ensures Valid() && ClientsFd == old(ClientsFd)[fd := client]
    {
      ClientsFd := ClientsFd[fd := client];
    }

    method RemoveClientFd(fd: int)
      requires Valid()
      modifies this`ClientsFd
      ensures Valid() && ClientsFd == old(ClientsFd) - {fd}
    {
      ClientsFd := ClientsFd - {fd};
    }

    /** Hands an event to the scheduler. */
    method In(kind: EventKind, client: OWLSclient)
      requires Valid() && Owns(client)
      modifies this`Pending
      ensures Valid() && Pending == old(Pending) + multiset{Event(kind, client.SerialNumber)}
    {
      Pending := Pending + multiset{Event(kind, client.SerialNumber)};
    }

    /** OWLSclient::Disconnect: forget the descriptor, count the loss, close the socket. */
    method DisconnectClient(client: OWLSclient)
      requires Valid() && Owns(client)
      modifies this`ClientsFd, client, stats
      ensures Valid() && Did(client, DisconnectEffect(old(client.State())))
    {
      if client.Fd != NO_FD {
        RemoveClientFd(client.Fd);
        client.Fd := NO_FD;
      }
      if client.Valid {
        stats.Disconnect(RunningId);
        if client.Connected {
          client.Connected := false;
        }
      }
    }

    /** OWLSClientEvents::Disconnect, asked to reconnect as every caller does. */
    method Disconnect(client: OWLSclient)
      requires Valid() && Owns(client)
      modifies this`ClientsFd, this`Pending, client, stats
      ensures Valid() && Did(client, DropOutEffect(Running, old(client.State())))
    {
      if !Running { return; }
      if client.Valid {
        DropOutIs(client.State());
        DisconnectClient(client);
        PostConnection(client);
      }
    }

    /** A step of back-off, and EstablishConnection posted. */
    method PostConnection(client: OWLSclient)
      requires Valid() && Owns(client)
      modifies this`Pending, client`BackoffDelay
      ensures Valid() && client.State() == old(client.State()).(backoff := NextBackoff(old(client.BackoffDelay)))
      ensures Pending == old(Pending) + Posted(One(Establish), client.SerialNumber)
    {
      var _ := client.Backoff();
      In(Establish, client);
    }

    method ReconnectEvent(client: OWLSclient)
      requires Valid() && Owns(client)
      modifies this`Pending, client
      ensures Valid() && Did(client, EffectOf(Running, old(client.State()), Reconnecting))
    {
      if !Running { return; }
      if client.Valid {
        client.Connected := false;
        var _ := client.Backoff();
        In(Establish, client);
      }
    }

    method EstablishConnection(client: OWLSclient, handshake: Handshake, now: nat)
      requires Valid() && Owns(client)
      modifies this`ClientsFd, this`Pending, client, stats
      ensures Valid() && Did(client, EffectOf(Running, old(client.State()), Establishing(handshake, now)))
    {
      if !Running || handshake.Lost? { return; }
      ghost var e := EffectOf(Running, client.State(), Establishing(handshake, now));
      if handshake.Opened? {
        Connect(client, now);
        Attach(client, handshake.fd);
        assert e == Effect(client.State(), Remember(handshake.fd), Greeting, Raise(now));
      } else {
        var _ := client.Backoff();
        In(Reconnect, client);
        assert e == Effect(client.State(), KeepIndex, One(Reconnect), Keep);
      }
    }

    /** What a connection that has been opened and greeted sets on its client. */
    method Attach(client: OWLSclient, fd: int)
      requires Valid() && Owns(client)
      modifies this`ClientsFd, client`Fd, client`Connected
      ensures Valid() && client.State() == old(client.State()).(fd := fd, connected := true)
      ensures ClientsFd == old(ClientsFd)[fd := client]
    {
      client.Fd := fd;
      AddClientFd(client.Fd, client);
      client.Connected := true;
    }

    /** The successful half of OWLSClientEvents::Connect. */
    method Connect(client: OWLSclient, now: nat)
      requires Valid() && Owns(client)
      modifies this`Pending, client`BackoffDelay, stats
      ensures Valid() && Did(client, Effect(old(client.State()).(backoff := 0), KeepIndex, Greeting, Raise(now)))
    {
      Pending := Pending + Posted(Greeting, client.SerialNumber);
      client.BackoffDelay := 0;
      stats.Connect(RunningId, now);
    }

    method StateEvent(client: OWLSclient, sent: bool)
      requires Valid() && Owns(client)
      modifies this`ClientsFd, this`Pending, client, stats
      ensures Valid() && Did(client, EffectOf(Running, old(client.State()), Beating(State, sent)))
    {
      if !Running { return; }
      if client.Valid && client.Connected {
        if sent {
          In(State, client);
          return;
        }
        Disconnect(client);
      }
    }

    method HealthCheckEvent(client: OWLSclient, sent: bool)
      requires Valid() && Owns(client)
      modifies this`ClientsFd, this`Pending, client, stats
      ensures Valid() && Did(client, EffectOf(Running, old(client.State()), Beating(HealthCheck, sent)))
    {
      if !Running { return; }
      if client.Valid && client.Connected {
        if sent {
          In(HealthCheck, client);
          return;
        }
        Disconnect(client);
      }
    }

    method WSPingEvent(client: OWLSclient, sent: bool)
      requires Valid() && Owns(client)
      modifies this`ClientsFd, this`Pending, client, stats
      ensures Valid() && Did(client, EffectOf(Running, old(client.State()), Beating(WSPing, sent)))
    {
      if !Running { return; }
      if client.Valid && client.Connected {
        if sent {
          In(WSPing, client);
          return;
        }
        Disconnect(client);
      }
    }

    method LogEvent(client: OWLSclient, sent: bool)
      requires Valid() && Owns(client)
      modifies this`ClientsFd, this`Pending, client, stats
      ensures Valid() && Did(client, EffectOf(Running, old(client.State()), Beating(Log, sent)))
    {
      if !Running { return; }
      if client.Valid && client.Connected {
        if sent { return; }
        Disconnect(client);
      }
    }

    /** DoConfigure and DoLEDs: nothing but an answer. */
    method Acknowledge(client: OWLSclient, command: Command, answer: Answer)
      requires Valid() && Owns(client) && !Restarts(command) && !Aborts(command)
      modifies this`ClientsFd, this`Pending, client, stats
      ensures Valid() && Did(client, EffectOf(Running, old(client.State()), Obeying(command, answer)))
    {
      if answer == Unsent {
        Disconnect(client);
      }
    }

    /** DoReboot, DoUpgrade and DoFactory up to their sleep; `asleep` tells whether they get there. */
    method Restart(client: OWLSclient, command: Command, answer: Answer) returns (asleep: bool)
      requires Valid() && Owns(client) && (Restarts(command) || Aborts(command))
      modifies this`ClientsFd, this`Pending, client, stats
      ensures Valid() && Did(client, EffectOf(Running, old(client.State()), Obeying(command, answer)))
      ensures asleep <==> answer == Sent && Restarts(command)
    {
      asleep := false;
      if answer == Ignored { return; }
      ghost var e := EffectOf(Running, client.State(), Obeying(command, answer));
      if answer == Unsent {
        assert e == DropOutEffect(Running, client.State());
        Disconnect(client);
      } else {
        assert e == DisconnectEffect(client.State());
        DisconnectClient(client);
        asleep := !Aborts(command);
      }
    }

    /** The first half of the socket callbacks: which client does the descriptor belong to? */
    method FindClient(fd: int) returns (client: Option<OWLSclient>)
      requires Valid()
      ensures client.Some? <==> fd in View().fdIndex
      ensures client.Some? ==> Owns(client.value) && client.value.SerialNumber == View().fdIndex[fd]
    {
      client := if fd in ClientsFd then Some(ClientsFd[fd]) else None;
    }

    /** OnSocketReadable after the client was found and locked. */
    method OnSocketReadable(client: OWLSclient, frame: Frame) returns (spawned: Option<Command>)
      requires Valid() && Owns(client)
      modifies this`ClientsFd, this`Pending, client, stats
      ensures Valid() && Did(client, EffectOf(Running, old(client.State()), Reading(frame)))
      ensures spawned == if frame.Order? then Some(frame.command) else None
    {
      spawned := if frame.Order? then Some(frame.command) else None;
      if frame == Broken || frame == Unsupported(false) {
        assert EffectOf(Running, client.State(), Reading(frame)) == DropOutEffect(Running, client.State());
        Disconnect(client);
      }
    }

    method CreateClient(serial: string)
      requires Valid() && serial !in Clients && ClientsFd == map[]
      modifies this`Clients, this`Pending
      ensures Valid() && serial in Clients && fresh(Clients[serial])
      ensures Clients == old(Clients)[serial := Clients[serial]]
      ensures Clients[serial].State() == ClientState(true, false, NO_FD, 0)
      ensures Pending == old(Pending) + multiset{Event(Establish, serial)}
    {
      var client := new OWLSclient(serial);
      Pending := Pending + multiset{Event(Establish, serial)};
      Clients := Clients[serial := client];
    }

    /** These are the prefixes of serial numbers that can be read. */
    static lemma ReadableSerials(macPrefix: string, n: nat)
      requires |macPrefix| == 6 && n < DEVICE_SPACE
      ensures Readable(macPrefix) <==> SerialToInt(Serial(macPrefix, n)).Some?
    {
      SerialThrowsIff(macPrefix, n);
    }

    /** One turn of the loop below. */
    method CreateNext(macPrefix: string, ghost first: nat, d: nat)
      requires Valid() && ClientsFd == map[] && |macPrefix| == 6 && first <= d < DEVICE_SPACE
      requires Waiting(macPrefix, first, d)
      modifies this`Clients, this`Pending
      ensures Valid() && Waiting(macPrefix, first, d + 1)
    {
      SerialsSnoc(macPrefix, first, d);
      ghost var was := Clients;
      CreateClient(Serial(macPrefix, d));
      assert forall c <- was :: Clients[c] == was[c];
    }

    /**
     * The loop of run() that creates the clients numbered `first` up to `end`. A serial number that stoull
     * refuses ends it by the exception of the client's constructor.
     */
    method CreateClients(macPrefix: string, first: nat, end: nat) returns (created: bool)
      requires Valid() && Clients == map[] && ClientsFd == map[] && Pending == multiset{}
      requires |macPrefix| == 6 && first <= end <= DEVICE_SPACE
      modifies this`Clients, this`Pending
      ensures Valid() && ClientsFd == map[]
      ensures created <==> first == end || Readable(macPrefix)
      ensures Waiting(macPrefix, first, if created then end else first)
    {
      for d := first to end
        invariant Valid() && ClientsFd == map[] && Waiting(macPrefix, first, d)
        invariant first < d ==> Readable(macPrefix)
      {
        SerialThrowsIff(macPrefix, d);
        if SerialToInt(Serial(macPrefix, d)).None? {
          return false;
        }
        CreateNext(macPrefix, first, d);
      }
      created := true;
    }

    /** stoull accepts the serial numbers with this prefix. */
    static predicate Readable(macPrefix: string)
    {
      var digits := DigitPart(macPrefix);
      digits == "" || DigitValue(digits[0]).Some?
    }

    /** Exactly these clients exist, all idle, each with one pending connection and nothing else pending. */
    ghost predicate Waiting(macPrefix: string, first: nat, end: nat)
      reads this, Clients.Values
    {
      && Clients.Keys == Naming.Serials(macPrefix, first, end)
      && (forall c <- Clients :: Clients[c].State() == ClientState(true, false, NO_FD, 0))
      && (forall e :: Pending[e] == if e.kind == Establish && e.client in Clients then 1 else 0)
    }

    /**
     * The loop of run() that starts one slice after the other on the secondaries. A call that yields no
     * response ends it by an exception, after its slice was sent.
     */
    method StartSecondaries(devices: nat, services: nat, batch: nat, first: nat, answered: seq<bool>)
        returns (remote: seq<Slice>, completed: bool)
      requires PadModulus(devices, services) != 0 && |answered| == services
      requires batch == BatchSize(devices, services) && first == MasterShare(devices, services)
      ensures completed <==> false !in answered
      ensures remote == RemoteSlices(devices, services)[..Reached(answered)]
    {
      ModulusIsZeroIff(devices, services);
      remote := [];
      var start := first;
      for i := 0 to services
        invariant start == first + i * batch
        invariant remote == RemoteSlices(devices, services)[..i]
        invariant forall j | 0 <= j < i :: answered[j]
      {
        MinNeverTrims(devices, services, i);
        var slice := Slice(start, if batch <= devices - start then batch else devices - start, i + 1);
        assert slice == SliceOf(devices, services, i);
        remote := remote + [slice];
        if !answered[i] {
          ReachedAt(answered, i);
          return remote, false;
        }
        start := start + batch;
      }
      ReachedAll(answered);
      completed := true;
    }

    /**
     * run(): create this node's clients and say what every secondary is to be started with.
     * `answered` tells which calls to the secondaries yield a response.
     */
    method Run(macPrefix: string, devices: nat, services: nat, offset: nat, limit: nat, answered: seq<bool>)
        returns (launch: Launch)
      requires Valid() && Clients == map[] && ClientsFd == map[] && Pending == multiset{}
      requires |macPrefix| == 6 && devices <= DEVICE_SPACE && offset + limit <= DEVICE_SPACE
      requires |answered| == services
      modifies this`Running, this`Clients, this`Pending
      ensures Valid() && Running && ClientsFd == map[]
      ensures launch == ZeroModulus <==> stats.master && services > 0 && devices < services + 1
      ensures launch == BadSerial <==>
        launch != ZeroModulus && !Readable(macPrefix) && (if stats.master then devices else limit) > 0
      ensures launch == ZeroModulus || launch == BadSerial ==> Clients == map[] && Pending == multiset{}
      ensures launch.Launched? && stats.master && services > 0 ==>
        && PadModulus(devices, services) != 0
        && Waiting(macPrefix, 0, MasterShare(devices, services))
        && launch.remote == RemoteSlices(devices, services)[..Reached(answered)]
        && (launch.completed <==> false !in answered)
      ensures launch.Launched? && stats.master && services == 0 ==>
        Waiting(macPrefix, 0, devices) && launch == Launched([], true)
      ensures launch.Launched? && !stats.master ==>
        Waiting(macPrefix, offset, offset + limit) && launch == Launched([], true)
    {
      Running := true;
      ModulusIsZeroIff(devices, services);
      if stats.master && services > 0 {
        if devices / (services + 1) * (services + 1) == 0 {
          return ZeroModulus;
        }
        PadIsRemainder(devices, services);
        var batch := devices / (services + 1);
        var start := batch + devices % (batch * (services + 1));
        var created := CreateClients(macPrefix, 0, start);
        if !created {
          return BadSerial;
        }
        var remote, completed := StartSecondaries(devices, services, batch, start, answered);
        launch := Launched(remote, completed);
      } else {
        var first, count := offset, limit;
        if stats.master {
          first, count := 0, devices;
        }
        var created := CreateClients(macPrefix, first, first + count);
        launch := if created then Launched([], true) else BadSerial;
      }
    }

    method Stop()
      requires Valid()
      modifies this`Running
      ensures Valid() && View() == old(View()).(running := false)
    {
      if Running {
        Running := false;
      }
    }
  }
}
