/** The state machine of a connecting socket in IOSockets.c: DNS results, family choice and
    fallback, the SSL handshake with its re-entrant events call, data, and closing. The system,
    the resolver and the SSL library are inputs. */
module Lifecycle {
  import opened Addresses
  import opened Basics

  /** The events a client's callback gets. */
  datatype Event = DnsFailed | NotConnected | Connected | Recv | Closed

  /** The DNS flags, the lookup objects with their results, and the addresses chosen. */
  datatype Dns = Dns(
    pendingBind: bool, pendingDest: bool, doneBind: bool, doneDest: bool, error: bool,
    bindLookup: Option<seq<Record>>, destLookup: Option<seq<Record>>,
    bindAddr: Option<Record>, destAddr: Option<Record>)

  /** The SSL flags; `on` is IOSOCKETFLAG_SSLSOCKET. */
  datatype Ssl = Ssl(
    on: bool, handshake: bool, wantWrite: bool, readHs: bool, writeHs: bool, established: bool)

  /** What the world saw: `attempts` lists the families connected with, true for IPv6; `added`,
      `closes` and `collected` count engine->add, close() and iogc_add. */
  datatype Trail = Trail(attempts: seq<bool>, added: nat, closes: nat, collected: nat, events: seq<Event>)

  /** The socket and its descriptor. `registered` is the interest (read, write) the engine holds,
      `queued` the length of the write buffer, and `alive` that the descriptor still has its socket. */
  datatype Sock = Sock(
    alive: bool, active: bool, ipv6: bool, connecting: bool, shutdown: bool, dead: bool, reconnect4: bool,
    hasFd: bool, queued: nat, registered: Option<(bool, bool)>,
    dns: Dns, ssl: Ssl, trail: Trail)

  /** How one call into the SSL library that fails leaves a rehandshake flag: alone, set and waiting
      for one direction, or cleared. A fatal rehandshake under GnuTLS only forgets the direction. */
  datatype Rehandshake = Untouched | Waiting(forWrite: bool) | Finished | Broken

  /** With `clears` a call that succeeds clears its rehandshake flag, as under OpenSSL. */
  datatype ReadOutcome =
    | Data(full: bool, lines: nat, clears: bool)   // bytes > 0; the lines completed by them
    | NoData(again: bool, rehandshake: Rehandshake)

  datatype WriteOutcome =
    | Sent(bytes: nat, clears: bool)
    | Failed(again: bool, rehandshake: Rehandshake)

  datatype HandshakeOutcome = Done | WantRead | WantWrite | Fatal

  /** What the world answers to the calls of one event. `sends(i)` is what the callback for event
      number i of the socket gives to iosocket_send, if it calls it. */
  datatype World = World(
    handshake: HandshakeOutcome, recvs: seq<ReadOutcome>, write: WriteOutcome,
    pickBind: nat, pickDest: nat, socketOk: bool, lineMode: bool, sends: nat -> Option<nat>)

  datatype Input =
    | Resolved(bind: bool, result: Option<seq<Record>>, world: World)
    | Ready(readable: bool, writable: bool, world: World)
    | Send(bytes: nat)
    | Close(world: World)

  // ---------- interest ----------

  // iosocket_wants_reads and iosocket_wants_writes
  function Wants(s: Sock): (bool, bool) {
    if s.ssl.readHs || s.ssl.writeHs then (!s.ssl.wantWrite, s.ssl.wantWrite)
    else (true, s.queued > 0 || s.connecting)
  }

  // iosocket_activate
  function Activate(s: Sock): Sock {
    if s.active then s
    else s.(active := true, registered := Some(Wants(s)), trail := s.trail.(added := s.trail.added + 1))
  }

  // iosocket_deactivate
  function Deactivate(s: Sock): Sock {
    if s.active then s.(active := false, registered := None) else s
  }

  // engine->update; for a socket the engine does not know it fails and is only logged
  function Update(s: Sock): Sock {
    if s.registered.Some? then s.(registered := Some(Wants(s))) else s
  }

  // ---------- writing and closing ----------

  function SetWriteHs(l: Ssl, r: Rehandshake): Ssl {
    match r
    case Untouched => l
    case Waiting(forWrite) => l.(writeHs := true, wantWrite := forWrite)
    case Finished => l.(writeHs := false, wantWrite := false)
    case Broken => l.(wantWrite := false)
  }

  function SetReadHs(l: Ssl, r: Rehandshake): Ssl {
    match r
    case Untouched => l
    case Waiting(forWrite) => l.(readHs := true, wantWrite := forWrite)
    case Finished => l.(readHs := false, wantWrite := false)
    case Broken => l.(wantWrite := false)
  }

  // What a call that succeeds does to the flag.
  function Success(clears: bool): Rehandshake {
    if clears then Finished else Untouched
  }

  // Only an SSL socket goes through the library.
  function AfterWrite(l: Ssl, r: Rehandshake): Ssl {
    if l.on then SetWriteHs(l, r) else l
  }

  function AfterRead(l: Ssl, r: Rehandshake): Ssl {
    if l.on then SetReadHs(l, r) else l
  }

  /** iosocket_try_write */
  function TryWrite(s: Sock, w: WriteOutcome): Sock {
    if s.queued == 0 && !s.ssl.writeHs then s
    else if w.Failed? then s.(ssl := AfterWrite(s.ssl, w.rehandshake))
    else Written(s.(ssl := AfterWrite(s.ssl, Success(w.clears)),
                    queued := if w.bytes <= s.queued then s.queued - w.bytes else 0))
  }

  function Written(s: Sock): Sock {
    if s.active && !s.shutdown then Update(s) else s
  }

  // Whether iosocket_try_write returns a negative number.
  predicate WriteError(s: Sock, w: WriteOutcome) {
    !(s.queued == 0 && !s.ssl.writeHs) && w.Failed? && !w.again
  }

  /** iosocket_send */
  function SendStep(s: Sock, bytes: nat): Sock {
    if !s.alive || s.shutdown then s
    else var s := s.(queued := s.queued + bytes); if s.active then Update(s) else s
  }

  /** iosocket_close with _free_socket */
  function CloseStep(s: Sock, w: WriteOutcome): Sock {
    if !s.alive then s
    else
      var s := s.(shutdown := true);
      Release(if s.queued > 0 then TryWrite(s, w) else s)
  }

  function Release(s: Sock): Sock {
    var t := s.trail.(closes := s.trail.closes + (if s.hasFd then 1 else 0), collected := s.trail.collected + 1);
    Deactivate(s.(hasFd := false)).(alive := false, trail := t)
  }

  /** iosocket_trigger_event, with what the callback sends. */
  function Tell(s: Sock, e: Event, world: World): Sock {
    var n := |s.trail.events|;
    var s := s.(trail := s.trail.(events := s.trail.events + [e]));
    if world.sends(n).Some? then SendStep(s, world.sends(n).value) else s
  }

  // The lines of one recv.
  function TellLines(s: Sock, lines: nat, world: World): Sock
    decreases lines
  {
    if lines == 0 then s else TellLines(Tell(s, Recv, world), lines - 1, world)
  }

  // ---------- lookups ----------

  function Results(done: bool, lookup: Option<seq<Record>>): Option<seq<Record>> {
    if done then lookup else None
  }

  function Has(l: Option<seq<Record>>, v6: bool): bool {
    l.Some? ==> Count(l.value, v6) > 0
  }

  function Chosen(l: Option<seq<Record>>, v6: bool, pick: nat): (r: Option<Record>)
    requires Has(l, v6)
    ensures r.Some? <==> l.Some?
    ensures r.Some? ==> Is(r.value, v6) && r.value in l.value
  {
    if l.None? then None else Some(l.value[PickIndex(l.value, v6, pick % Count(l.value, v6))])
  }

  /** The family iosocket_lookup_apply settles on: one both lookups have, IPv6 first. */
  function Family(d: Dns, noip6: bool): Option<bool> {
    var b, t := Results(d.doneBind, d.bindLookup), Results(d.doneDest, d.destLookup);
    if b.None? && t.None? then None
    else if Has(b, true) && Has(t, true) && !noip6 then Some(true)
    else if Has(b, false) && Has(t, false) then Some(false)
    else None
  }

  function Choose(d: Dns, v6: bool, world: World): Dns
    requires Has(Results(d.doneBind, d.bindLookup), v6) && Has(Results(d.doneDest, d.destLookup), v6)
  {
    d.(bindAddr := Chosen(Results(d.doneBind, d.bindLookup), v6, world.pickBind),
       destAddr := Chosen(Results(d.doneDest, d.destLookup), v6, world.pickDest))
  }

  /** iosocket_lookup_apply, and whether the caller may go on. */
  function LookupApply(s: Sock, noip6: bool, world: World): (Sock, bool) {
    match Family(s.dns, noip6)
    case None =>
      var s := Tell(s.(dns := s.dns.(error := true)), DnsFailed, world);
      (CloseStep(s, world.write), false)
    case Some(v6) =>
      var both := Family(s.dns, true).Some?;
      (s.(ipv6 := v6, reconnect4 := v6 && (s.reconnect4 || both), dns := Choose(s.dns, v6, world)), true)
  }

  // socket_lookup_clear
  function LookupClear(s: Sock): Sock {
    s.(dns := s.dns.(bindLookup := if s.dns.doneBind then None else s.dns.bindLookup,
                     destLookup := if s.dns.doneDest then None else s.dns.destLookup))
  }

  // iosocket_connect_finish
  function ConnectFinish(s: Sock, world: World): Sock {
    if !world.socketOk then s
    else
      var t := s.trail.(attempts := s.trail.attempts + [s.ipv6]);
      Activate(s.(hasFd := true, connecting := true, trail := t))
  }

  // The flags and the result iosocket_lookup_callback stores.
  function Store(d: Dns, bind: bool, result: Option<seq<Record>>): Dns {
    var l := if result.Some? then result else Some([]);
    if bind then d.(bindLookup := l, pendingBind := false, doneBind := true)
    else d.(destLookup := l, pendingDest := false, doneDest := true)
  }

  /** iosocket_lookup_callback */
  function ResolvedStep(s: Sock, bind: bool, result: Option<seq<Record>>, world: World): Sock {
    var s := s.(dns := Store(s.dns, bind, result));
    if s.dns.pendingBind || s.dns.pendingDest then s
    else
      var (s, ok) := LookupApply(s, false, world);
      if ok then ConnectFinish(s, world) else s
  }

  // ---------- events ----------

  /** The end of iosocket_events_callback: the collected event, then closing if the socket died. */
  function Finish(s: Sock, event: Option<Event>, world: World): Sock {
    var s := if event.Some? then Tell(s, event.value, world) else s;
    if s.dead then CloseStep(s, world.write) else s
  }

  /** iosocket_events_callback(iosock, 0, 0), which the SSL library calls when the handshake is over. */
  function HandshakeOver(s: Sock, world: World): Sock {
    if !s.ssl.handshake then s
    else if s.ssl.established then Finish(Update(s.(ssl := s.ssl.(handshake := false))), Some(Connected), world)
    else Finish(s.(dead := true), Some(NotConnected), world)
  }

  // iossl_client_handshake
  function ClientHandshake(s: Sock, world: World): Sock {
    var s := s.(ssl := s.ssl.(wantWrite := world.handshake.WantWrite?,
                              established := s.ssl.established || world.handshake.Done?));
    if world.handshake.Done? || world.handshake.Fatal? then HandshakeOver(s, world) else s
  }

  function ConnectingStep(s: Sock, readable: bool, writable: bool, world: World): Sock {
    if readable then
      if s.ipv6 && s.reconnect4 then
        var (s, ok) := LookupApply(Deactivate(s), true, world);
        Finish(if ok then LookupClear(ConnectFinish(s, world)) else s, None, world)
      else
        Finish(s.(dead := true), Some(NotConnected), world)
    else if writable then
      var s := LookupClear(s.(connecting := false));
      if s.ssl.on then Update(ClientHandshake(s.(ssl := s.ssl.(handshake := true)), world))
      else Finish(Update(s), Some(Connected), world)
    else
      Finish(s, None, world)
  }

  // `rehandshake` is ssl_rehandshake: 0 for none, 1 for reading, 2 for writing
  datatype Progress = Progress(s: Sock, event: Option<Event>, rehandshake: nat)

  // What one recv that returned data leads to.
  function Take(p: Progress, lines: nat, clears: bool, world: World): Progress {
    var s := p.s.(ssl := AfterRead(p.s.ssl, Success(clears)));
    if world.lineMode then Progress(TellLines(s, lines, world), None, p.rehandshake)
    else Progress(s, Some(Recv), p.rehandshake)
  }

  // One that returned none.
  function Miss(p: Progress, again: bool, r: Rehandshake): Progress {
    var s := p.s.(ssl := AfterRead(p.s.ssl, r));
    if s.ssl.on && s.ssl.readHs then Progress(s, p.event, 1)
    else if !again then Progress(s.(dead := true), Some(Closed), p.rehandshake)
    else Progress(s, p.event, p.rehandshake)
  }

  /** The read part, again after each recv that filled the buffer. */
  function ReadPart(p: Progress, readable: bool, world: World, n: nat): Progress
    decreases |world.recvs| - n
  {
    if !((readable && p.rehandshake == 0) || p.rehandshake == 1) || n >= |world.recvs| then p
    else match world.recvs[n]
      case Data(full, lines, clears) =>
        var q := Take(p, lines, clears, world);
        if full then ReadPart(q, readable, world, n + 1) else q
      case NoData(again, r) => Miss(p, again, r)
  }

  function WritePart(p: Progress, writable: bool, world: World): Progress {
    if !((writable && p.rehandshake == 0) || p.rehandshake == 2) then p
    else
      var s := TryWrite(p.s, world.write);
      if !WriteError(p.s, world.write) then p.(s := s)
      else if s.ssl.on && s.ssl.writeHs then Progress(s, p.event, 1)
      else Progress(s.(dead := true), Some(Closed), p.rehandshake)
  }

  function ConnectedStep(s: Sock, readable: bool, writable: bool, world: World): Sock {
    var rehandshake := if s.ssl.on && s.ssl.readHs then 1 else if s.ssl.on && s.ssl.writeHs then 2 else 0;
    var p := WritePart(ReadPart(Progress(s, None, rehandshake), readable, world, 0), writable, world);
    Finish(if p.rehandshake != 0 then Update(p.s) else p.s, p.event, world)
  }

  /** iosocket_events_callback for an event of the engine. */
  function ReadyStep(s: Sock, readable: bool, writable: bool, world: World): Sock {
    if s.ssl.handshake then Finish(Update(ClientHandshake(s, world)), None, world)
    else if s.connecting then ConnectingStep(s, readable, writable, world)
    else ConnectedStep(s, readable, writable, world)
  }

  // ---------- runs ----------

  /** iosocket_connect_flags; a host that is a literal address needs no lookup. */
  function Start(bindHost: Option<Option<Record>>, dest: Option<Record>, ssl: bool, world: World): Sock {
    var lookBind := bindHost.Some? && bindHost.value.None?;
    var dns := Dns(lookBind, dest.None?, false, false, false,
                   if lookBind then Some([]) else None, if dest.None? then Some([]) else None,
                   if bindHost.Some? then bindHost.value else None, dest);
    var s := Sock(true, false, false, false, false, false, false, false, 0, None,
                  dns, Ssl(ssl, false, false, false, false, false), Trail([], 0, 0, 0, []));
    if dns.pendingBind || dns.pendingDest then s else ConnectFinish(s, world)
  }

  /** Which inputs can occur: answers to pending lookups, events of registered sockets, and calls
      of the client, which does not close a socket while its lookups are pending. */
  predicate Enabled(s: Sock, i: Input) {
    match i
    case Resolved(bind, _, _) => s.alive && if bind then s.dns.pendingBind else s.dns.pendingDest
    case Ready(readable, writable, _) => s.registered.Some? && (readable || writable)
    case Send(_) => true
    case Close(_) => !s.dns.pendingBind && !s.dns.pendingDest
  }

  function Step(s: Sock, i: Input): Sock {
    if !Enabled(s, i) then s
    else match i
      case Resolved(bind, result, world) => ResolvedStep(s, bind, result, world)
      case Ready(readable, writable, world) => ReadyStep(s, readable, writable, world)
      case Send(bytes) => SendStep(s, bytes)
      case Close(world) => CloseStep(s, world.write)
  }

  function Run(s: Sock, inputs: seq<Input>): Sock
    decreases |inputs|
  {
    if inputs == [] then s else Run(Step(s, inputs[0]), inputs[1..])
  }
}
