/** The connecting socket as the object the source updates in place. Every method is tied to the
    function of Lifecycle with its name. Fields of a socket that has been freed keep their values:
    the code does look at them once more after the re-entrant call. */
module ClientSockets {
  import opened Addresses
  import opened Basics
  import opened Lifecycle
  import LifecycleRuns
  import SocketEvents
  import WriteQueue

  class ClientSocket {
    // socket_flags; the DNS and SSL bits are grouped with what belongs to them
    var active: bool
    var ipv6: bool
    var connecting: bool
    var shutdown: bool
    var dead: bool
    var reconnect4: bool
    var dns: Dns
    var ssl: Ssl
    var hasFd: bool
    // writebuf.bufpos
    var queued: nat
    // descriptor->iosocket != NULL
    var alive: bool
    // the engine's table
    var registered: Option<(bool, bool)>
    // what the world saw of the socket
    var trail: Trail

    ghost function View(): Sock
      reads this
    {
      Sock(alive, active, ipv6, connecting, shutdown, dead, reconnect4, hasFd, queued, registered,
           dns, ssl, trail)
    }

    /** iosocket_connect_flags */
    constructor (bindHost: Option<Option<Record>>, dest: Option<Record>, ssl: bool, world: World)
      ensures View() == Start(bindHost, dest, ssl, world)
    {
      active, ipv6, connecting, shutdown, dead, reconnect4 := false, false, false, false, false, false;
      this.ssl := Ssl(ssl, false, false, false, false, false);
      dns := Dns(false, false, false, false, false, None, None, if bindHost.Some? then bindHost.value else None, dest);
      hasFd, queued, alive, registered := false, 0, true, None;
      trail := Trail([], 0, 0, 0, []);
      new;
      if bindHost.Some? && bindHost.value.None? {
        dns := dns.(pendingBind := true, bindLookup := Some([]));
      }
      if dest.None? {
        dns := dns.(pendingDest := true, destLookup := Some([]));
      }
      if !dns.pendingBind && !dns.pendingDest {
        this.ConnectFinish(world);
      }
    }

    /** iosocket_wants_reads */
    method WantsReads() returns (r: bool)
      ensures r == Wants(View()).0
    {
      if ssl.readHs || ssl.writeHs {
        return if ssl.wantWrite then false else true;
      }
      r := true;
    }

    /** iosocket_wants_writes */
    method WantsWrites() returns (r: bool)
      ensures r == Wants(View()).1
    {
      if ssl.readHs || ssl.writeHs {
        return if ssl.wantWrite then true else false;
      }
      r := queued > 0 || connecting;
    }

    /** iosocket_activate with engine_epoll_add */
    method Activate()
      modifies this`active, this`registered, this`trail
      ensures View() == Lifecycle.Activate(old(View()))
    {
      if active {
        return;
      }
      active := true;
      var r := WantsReads();
      var w := WantsWrites();
      registered := Some((r, w));
      trail := trail.(added := trail.added + 1);
    }

    /** iosocket_deactivate with engine_epoll_remove */
    method Deactivate()
      modifies this`active, this`registered
      ensures View() == Lifecycle.Deactivate(old(View()))
    {
      if !active {
        return;
      }
      active := false;
      registered := None;
    }

    /** engine_epoll_update */
    method UpdateEngine()
      modifies this`registered
      ensures View() == Update(old(View()))
    {
      var r := WantsReads();
      var w := WantsWrites();
      if registered.Some? {
        registered := Some((r, w));
      }
    }

    method SslWrite(r: Rehandshake)
      modifies this`ssl
      ensures ssl == SetWriteHs(old(ssl), r)
    {
      match r
      case Untouched =>
      case Waiting(forWrite) =>
        ssl := ssl.(writeHs := true, wantWrite := forWrite);
      case Finished =>
        ssl := ssl.(writeHs := false, wantWrite := false);
      case Broken =>
        ssl := ssl.(wantWrite := false);
    }

    method SslRead(r: Rehandshake)
      modifies this`ssl
      ensures ssl == SetReadHs(old(ssl), r)
    {
      match r
      case Untouched =>
      case Waiting(forWrite) =>
        ssl := ssl.(readHs := true, wantWrite := forWrite);
      case Finished =>
        ssl := ssl.(readHs := false, wantWrite := false);
      case Broken =>
        ssl := ssl.(wantWrite := false);
    }

    /** iosocket_try_write */
    method TryWrite(w: WriteOutcome) returns (error: bool)
      modifies this`queued, this`ssl, this`registered
      ensures View() == Lifecycle.TryWrite(old(View()), w) && error == WriteError(old(View()), w)
    {
      if queued == 0 && !ssl.writeHs {
        return false;
      }
      if ssl.on {
        SslWrite(if w.Failed? then w.rehandshake else Success(w.clears));
      }
      if w.Failed? {
        error := !w.again;
      } else {
        queued := if w.bytes <= queued then queued - w.bytes else 0;
        TellEngine();
        error := false;
      }
    }

    method TellEngine()
      modifies this`registered
      ensures View() == Written(old(View()))
    {
      if active && !shutdown {
        UpdateEngine();
      }
    }

    /** iosocket_send */
    method Send(bytes: nat)
      modifies this`queued, this`registered
      ensures View() == SendStep(old(View()), bytes)
    {
      if !alive || shutdown {
        return;
      }
      queued := queued + bytes;
      if active {
        UpdateEngine();
      }
    }

    /** iosocket_close with _free_socket */
    method Close(w: WriteOutcome)
      modifies this`shutdown, this`queued, this`ssl, this`registered, this`active, this`hasFd, this`alive, this`trail
      ensures View() == CloseStep(old(View()), w)
    {
      if !alive {
        return;
      }
      shutdown := true;
      if queued > 0 {
        var _ := TryWrite(w);
      }
      Free();
    }

    // close() and _free_socket
    method Free()
      modifies this`registered, this`active, this`hasFd, this`alive, this`trail
      ensures View() == Release(old(View()))
    {
      if hasFd {
        trail := trail.(closes := trail.closes + 1);
        hasFd := false;
      }
      Deactivate();
      alive := false;
      trail := trail.(collected := trail.collected + 1);
    }

    /** iosocket_trigger_event; the callback may call iosocket_send. */
    method Emit(e: Event, world: World)
      modifies this`trail, this`queued, this`registered
      ensures View() == Tell(old(View()), e, world)
    {
      var n := |trail.events|;
      trail := trail.(events := trail.events + [e]);
      if world.sends(n).Some? {
        Send(world.sends(n).value);
      }
    }

    // The first half of iosocket_lookup_apply: counting, and which family is usable.
    method Decide(noip6: bool) returns (v6: Option<bool>, useip4: bool)
      ensures v6 == Family(dns, noip6) && useip4 == Family(dns, true).Some?
    {
      var bind := if dns.doneBind then dns.bindLookup else None;
      var dest := if dns.doneDest then dns.destLookup else None;
      var b4, b6, d4, d6 := 0, 0, 0, 0;
      if bind.Some? {
        b4, b6 := CountRecords(bind.value);
      }
      if dest.Some? {
        d4, d6 := CountRecords(dest.value);
      }
      var useip6 := false;
      useip4 := false;
      if bind.None? && dest.None? {
        return None, false;
      } else if bind.Some? && b6 == 0 && b4 == 0 {
        return None, false;
      } else if dest.Some? && d6 == 0 && d4 == 0 {
        return None, false;
      } else if bind.Some? && dest.Some? {
        useip6 := b6 > 0 && d6 > 0;
        useip4 := b4 > 0 && d4 > 0;
      } else if bind.Some? {
        useip6 := b6 > 0;
        useip4 := b4 > 0;
      } else {
        useip6 := d6 > 0;
        useip4 := d4 > 0;
      }
      v6 := if useip6 && !noip6 then Some(true) else if useip4 then Some(false) else None;
    }

    // A random entry of the family, if there is a lookup.
    method Pick(l: Option<seq<Record>>, v6: bool, pick: nat) returns (r: Option<Record>)
      requires Has(l, v6)
      ensures r == Chosen(l, v6, pick)
    {
      if l.None? {
        return None;
      }
      var numip4, numip6 := CountRecords(l.value);
      var record := PickRecord(l.value, v6, pick % (if v6 then numip6 else numip4));
      r := Some(record);
    }

    /** iosocket_lookup_apply */
    method LookupApply(noip6: bool, world: World) returns (ok: bool)
      modifies this
      ensures View() == Lifecycle.LookupApply(old(View()), noip6, world).0
      ensures ok == Lifecycle.LookupApply(old(View()), noip6, world).1
    {
      var v6, useip4 := Decide(noip6);
      ok := v6.Some?;
      if v6.None? {
        dns := dns.(error := true);
        Emit(DnsFailed, world);
        Close(world.write);
      } else {
        ApplyFamily(v6.value, useip4, world);
      }
    }

    // The second half: the family and the addresses are written down.
    method ApplyFamily(v6: bool, useip4: bool, world: World)
      requires Has(Results(dns.doneBind, dns.bindLookup), v6) && Has(Results(dns.doneDest, dns.destLookup), v6)
      modifies this`ipv6, this`reconnect4, this`dns
      ensures ipv6 == v6 && reconnect4 == (v6 && (old(reconnect4) || useip4)) && dns == Choose(old(dns), v6, world)
    {
      ipv6 := v6;
      reconnect4 := v6 && (reconnect4 || useip4);
      var bind := Pick(if dns.doneBind then dns.bindLookup else None, v6, world.pickBind);
      var dest := Pick(if dns.doneDest then dns.destLookup else None, v6, world.pickDest);
      dns := dns.(bindAddr := bind, destAddr := dest);
    }

    /** socket_lookup_clear */
    method LookupClear()
      modifies this`dns
      ensures View() == Lifecycle.LookupClear(old(View()))
    {
      if dns.doneBind {
        dns := dns.(bindLookup := None);
      }
      if dns.doneDest {
        dns := dns.(destLookup := None);
      }
    }

    /** iosocket_connect_finish */
    method ConnectFinish(world: World)
      modifies this`hasFd, this`connecting, this`trail, this`active, this`registered
      ensures View() == Lifecycle.ConnectFinish(old(View()), world)
    {
      if !world.socketOk {
        return;
      }
      trail := trail.(attempts := trail.attempts + [ipv6]);
      hasFd := true;
      connecting := true;
      Activate();
    }

    method StoreResult(bind: bool, result: Option<seq<Record>>)
      modifies this`dns
      ensures View() == old(View().(dns := Store(View().dns, bind, result))) && dns == View().dns
    {
      var l := if result.Some? then result else Some([]);
      if bind {
        dns := dns.(bindLookup := l, pendingBind := false, doneBind := true);
      } else {
        dns := dns.(destLookup := l, pendingDest := false, doneDest := true);
      }
    }

    /** iosocket_lookup_callback */
    method LookupCallback(bind: bool, result: Option<seq<Record>>, world: World)
      modifies this
      ensures View() == ResolvedStep(old(View()), bind, result, world)
    {
      hide Lifecycle.LookupApply, Lifecycle.ConnectFinish, Store, ClientSocket.View;
      StoreResult(bind, result);
      if !dns.pendingBind && !dns.pendingDest {
        AllIn(world);
      }
    }

    // No lookup is pending any more.
    method AllIn(world: World)
      modifies this
      ensures View() == var (t, ok) := Lifecycle.LookupApply(old(View()), false, world);
        if ok then Lifecycle.ConnectFinish(t, world) else t
    {
      hide Lifecycle.LookupApply, Lifecycle.ConnectFinish;
      var ok := LookupApply(false, world);
      if ok {
        this.ConnectFinish(world);
      }
    }

    // The end of iosocket_events_callback.
    method Finish(event: Option<Event>, world: World)
      modifies this
      ensures View() == Lifecycle.Finish(old(View()), event, world)
    {
      if event.Some? {
        Emit(event.value, world);
      }
      if dead {
        Close(world.write);
      }
    }

    /** iossl_client_handshake; when the handshake is over it calls back into EventsCallback. */
    method ClientHandshake(world: World)
      requires ssl.handshake
      modifies this
      ensures View() == Lifecycle.ClientHandshake(old(View()), world)
      decreases 1, 0
    {
      ssl := ssl.(wantWrite := false);
      if world.handshake.Done? {
        ssl := ssl.(established := true);
        Handshaken(world);
      } else if world.handshake.WantWrite? {
        ssl := ssl.(wantWrite := true);
      } else if world.handshake.Fatal? {
        Handshaken(world);
      }
    }

    // The re-entrant call.
    method Handshaken(world: World)
      requires ssl.handshake
      modifies this
      ensures View() == HandshakeOver(old(View()), world)
      decreases 0, 2
    {
      EventsCallback(false, false, world);
    }

    /** iosocket_events_callback of a client socket */
    method EventsCallback(readable: bool, writable: bool, world: World)
      requires readable || writable || ssl.handshake
      modifies this
      ensures View() == if readable || writable then ReadyStep(old(View()), readable, writable, world)
                        else HandshakeOver(old(View()), world)
      decreases if readable || writable then 3 else 0, 1
    {
      if ssl.handshake {
        Handshaking(readable || writable, world);
      } else if connecting {
        Connecting(readable, writable, world);
      } else {
        var event := Transfer(readable, writable, world);
        Finish(event, world);
      }
    }

    // The handshake branch and the end of the callback.
    method Handshaking(ready: bool, world: World)
      requires ssl.handshake
      modifies this
      ensures View() == if ready then ReadyStep(old(View()), true, true, world) else HandshakeOver(old(View()), world)
      decreases if ready then 2 else 0, 0
    {
      if ready {
        ClientHandshake(world);
        UpdateEngine();
        Finish(None, world);
      } else if ssl.established {
        ssl := ssl.(handshake := false);
        UpdateEngine();
        Finish(Some(Connected), world);
      } else {
        dead := true;
        Finish(Some(NotConnected), world);
      }
    }

    // A connected socket starts its handshake or tells its client.
    method TellConnected(world: World)
      modifies this
      ensures View() == var s := old(View());
        if s.ssl.on then Update(Lifecycle.ClientHandshake(s.(ssl := s.ssl.(handshake := true)), world))
        else Lifecycle.Finish(Update(s), Some(Connected), world)
      decreases 1, 1
    {
      if ssl.on {
        ssl := ssl.(handshake := true);
        ClientHandshake(world);
        UpdateEngine();
      } else {
        UpdateEngine();
        Finish(Some(Connected), world);
      }
    }

    // Lines 1010-1046 and the end of the callback.
    method Connecting(readable: bool, writable: bool, world: World)
      requires readable || writable
      modifies this
      ensures View() == ConnectingStep(old(View()), readable, writable, world)
      decreases 2
    {
      if readable {
        if ipv6 && reconnect4 {
          FallBack(world);
          Finish(None, world);
        } else {
          dead := true;
          Finish(Some(NotConnected), world);
        }
      } else {
        connecting := false;
        LookupClear();
        assert View() == Lifecycle.LookupClear(old(View()).(connecting := false));
        TellConnected(world);
      }
    }

    method FallBack(world: World)
      modifies this
      ensures View() == var (s, ok) := Lifecycle.LookupApply(Lifecycle.Deactivate(old(View())), true, world);
        if ok then Lifecycle.LookupClear(Lifecycle.ConnectFinish(s, world)) else s
    {
      Deactivate();
      var ok := LookupApply(true, world);
      if ok {
        this.ConnectFinish(world);
        LookupClear();
      }
    }

    // The read and write parts for a connected socket.
    method Transfer(readable: bool, writable: bool, world: World) returns (event: Option<Event>)
      modifies this
      ensures ConnectedStep(old(View()), readable, writable, world)
           == Lifecycle.Finish(View(), event, world)
    {
      var rehandshake: nat := 0;
      if ssl.on {
        if ssl.readHs {
          rehandshake := 1;
        } else if ssl.writeHs {
          rehandshake := 2;
        }
      }
      event, rehandshake := Read(rehandshake, readable, world);
      event, rehandshake := Write(event, rehandshake, writable, world);
      if rehandshake != 0 {
        UpdateEngine();
      }
    }

    method Write(event: Option<Event>, rehandshake: nat, writable: bool, world: World)
      returns (event': Option<Event>, rehandshake': nat)
      modifies this`queued, this`ssl, this`registered, this`dead
      ensures Progress(View(), event', rehandshake')
           == WritePart(Progress(old(View()), event, rehandshake), writable, world)
    {
      event', rehandshake' := event, rehandshake;
      if !((writable && rehandshake == 0) || rehandshake == 2) {
        return;
      }
      var error := TryWrite(world.write);
      if error {
        if ssl.on && ssl.writeHs {
          rehandshake' := 1;
        } else {
          dead := true;
          event' := Some(Closed);
        }
      }
    }

    method Read(start: nat, readable: bool, world: World) returns (event: Option<Event>, rehandshake: nat)
      modifies this`ssl, this`dead, this`trail, this`queued, this`registered
      ensures Progress(View(), event, rehandshake)
           == ReadPart(Progress(old(View()), None, start), readable, world, 0)
    {
      event, rehandshake := None, start;
      var n := 0;
      while ((readable && rehandshake == 0) || rehandshake == 1) && n < |world.recvs|
        invariant n <= |world.recvs|
        invariant ReadPart(Progress(old(View()), None, start), readable, world, 0)
               == ReadPart(Progress(View(), event, rehandshake), readable, world, n)
      {
        var o := world.recvs[n];
        if o.NoData? {
          event, rehandshake := NoBytes(o, event, rehandshake);
          return;
        }
        event := Bytes(o, world, Progress(View(), event, rehandshake));
        if !o.full {
          return;
        }
        n := n + 1;
      }
    }

    // One that returned some.
    method Bytes(o: ReadOutcome, world: World, ghost p: Progress) returns (event: Option<Event>)
      requires o.Data? && p.s == View()
      modifies this`ssl, this`trail, this`queued, this`registered
      ensures Progress(View(), event, p.rehandshake) == Take(p, o.lines, o.clears, world)
    {
      if ssl.on {
        SslRead(Success(o.clears));
      }
      ghost var s := View();
      if !world.lineMode {
        return Some(Recv);
      }
      event := None;
      for i := 0 to o.lines
        invariant TellLines(s, o.lines, world) == TellLines(View(), o.lines - i, world)
      {
        Emit(Recv, world);
      }
    }

    // A recv or iossl_read that returned no bytes.
    method NoBytes(o: ReadOutcome, event: Option<Event>, rehandshake: nat)
      returns (event': Option<Event>, rehandshake': nat)
      requires o.NoData?
      modifies this`ssl, this`dead
      ensures Progress(View(), event', rehandshake')
           == Miss(Progress(old(View()), event, rehandshake),
                   o.again, o.rehandshake)
    {
      event', rehandshake' := event, rehandshake;
      if ssl.on {
        SslRead(o.rehandshake);
      }
      if ssl.on && ssl.readHs {
        rehandshake' := 1;
      } else if !o.again {
        dead := true;
        event' := Some(Closed);
      }
    }

    // ---------- runs ----------

    /** One input; those that cannot occur are ignored. */
    method Handle(i: Input)
      modifies this
      ensures View() == Step(old(View()), i)
    {
      if !CanOccur(i) {
        return;
      }
      match i
      case Resolved(bind, result, world) => LookupCallback(bind, result, world);
      case Ready(readable, writable, world) => EventsCallback(readable, writable, world);
      case Send(bytes) => this.Send(bytes);
      case Close(world) => this.Close(world.write);
    }

    predicate CanOccur(i: Input)
      reads this
      ensures CanOccur(i) == Enabled(View(), i)
    {
      match i
      case Resolved(bind, _, _) => alive && if bind then dns.pendingBind else dns.pendingDest
      case Ready(readable, writable, _) => registered.Some? && (readable || writable)
      case Send(_) => true
      case Close(_) => !dns.pendingBind && !dns.pendingDest
    }

    method HandleAll(inputs: seq<Input>)
      modifies this
      ensures View() == Run(old(View()), inputs)
    {
      ghost var s := View();
      for n := 0 to |inputs|
        invariant Run(s, inputs) == Run(View(), inputs[n..])
      {
        assert inputs[n..][0] == inputs[n] && inputs[n..][1..] == inputs[n + 1..];
        Handle(inputs[n]);
      }
    }

    /** A socket from the connect call through any sequence of inputs: its client sees one of the
        traces, the descriptor is collected once, the engine knows its interest, and the bytes queued
        are those accepted and not taken. */
    static method Live(bindHost: Option<Option<Record>>, dest: Option<Record>, ssl: bool, world: World,
                       inputs: seq<Input>) returns (c: ClientSocket)
      ensures fresh(c) && c.View() == Run(Start(bindHost, dest, ssl, world), inputs)
      ensures LifecycleRuns.Trace(c.trail.events) && c.trail.collected == if c.alive then 0 else 1
      ensures c.registered.Some? <==> c.active
      ensures c.active && !c.ssl.writeHs ==> c.registered == Some(Wants(c.View()))
      ensures c.queued == WriteQueue.Level(SocketEvents.RunMoves(Start(bindHost, dest, ssl, world), inputs))
    {
      c := new ClientSocket(bindHost, dest, ssl, world);
      c.HandleAll(inputs);
      LifecycleRuns.EventTraces(bindHost, dest, ssl, world, inputs);
      LifecycleRuns.RunInterest(bindHost, dest, ssl, world, inputs);
      SocketEvents.QueueIsLevel(bindHost, dest, ssl, world, inputs, i => i);
      assert c.queued == c.View().queued;
    }
  }
}
