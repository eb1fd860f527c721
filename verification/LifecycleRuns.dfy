/** What holds in every run of a connecting socket. */
module LifecycleRuns {
  import opened Addresses
  import opened Basics
  import opened Lifecycle

  // ---------- event traces ----------

  /** CONNECTED RECV* */
  ghost predicate Open(e: seq<Event>) {
    e != [] && e[0] == Connected && forall i :: 0 < i < |e| ==> e[i] == Recv
  }

  /** The traces a client can see: the prefixes of DNSFAILED, of NOTCONNECTED and of
      CONNECTED RECV* CLOSED. */
  ghost predicate Trace(e: seq<Event>) {
    || e == [] || e == [DnsFailed] || e == [NotConnected]
    || Open(e)
    || (|e| > 1 && Open(e[..|e| - 1]) && e[|e| - 1] == Closed)
  }

  predicate Terminal(e: seq<Event>) {
    e != [] && e[|e| - 1] in {DnsFailed, NotConnected, Closed}
  }

  ghost function Recvs(n: nat): seq<Event> {
    seq(n, i => Recv)
  }

  lemma OpenRecvs(e: seq<Event>, n: nat)
    requires Open(e)
    ensures Open(e + Recvs(n)) && Open(e + [Recv])
    ensures Trace(e + [Closed]) && Terminal(e + [Closed]) && !Terminal(e)
  {
    assert (e + [Closed])[..|e|] == e;
  }

  // ---------- the invariant ----------

  ghost predicate Gone(s: Sock) {
    && !s.active && s.registered.None? && !s.hasFd
    && !s.dns.pendingBind && !s.dns.pendingDest
    && s.trail.collected == 1 && Trace(s.trail.events)
  }

  /** The mask the engine holds is the one computed from the socket's flags and buffer. */
  ghost predicate Agrees(s: Sock) {
    s.active ==> s.registered == Some(Wants(s))
  }

  /** It is, unless a write of an SSL socket waits for a rehandshake. */
  ghost predicate Interest(s: Sock) {
    (s.active <==> s.registered.Some?) && (Agrees(s) || s.ssl.writeHs)
  }

  ghost predicate Pending(s: Sock) {
    s.dns.pendingBind || s.dns.pendingDest
  }

  // At most one of: waiting for lookups, connecting, shaking hands, connected.
  ghost predicate Phase(s: Sock) {
    && (Pending(s) ==>
          !s.active && !s.connecting && !s.reconnect4 && !s.ssl.handshake
          && s.trail.events == [] && s.trail.attempts == [])
    && (s.connecting ==> !s.ssl.handshake && s.trail.events == [])
    && (s.ssl.handshake ==> s.ssl.on && s.trail.events == [])
    && (s.active && !s.connecting && !s.ssl.handshake ==> s.trail.events != [])
    && (s.ssl.established ==> s.trail.events != [])
    && (!s.ssl.on || s.trail.events == [] ==> !s.ssl.readHs && !s.ssl.writeHs)
  }

  ghost predicate Living(s: Sock) {
    && !s.dead && !s.dns.error && !s.shutdown && s.trail.collected == 0 && s.trail.closes == 0
    && Interest(s) && Phase(s)
    && (s.trail.events == [] || Open(s.trail.events))
  }

  /** At most two connects, the second one over IPv4 and after IPv6; while a fallback is still to
      come, the results that are held suffice for it. A socket that tried to connect has a file,
      which is closed with it. */
  ghost predicate Attempts(s: Sock) {
    && (s.alive ==> (s.hasFd <==> s.trail.attempts != []) && s.trail.closes == 0)
    && (!s.alive ==> s.trail.closes == if s.trail.attempts == [] then 0 else 1)
    && (|s.trail.attempts| <= 1 || s.trail.attempts == [true, false]) && s.trail.added == |s.trail.attempts|
    && (s.trail.attempts == [] ==> !s.active && !s.connecting)
    && (s.ipv6 && s.reconnect4 && s.connecting ==> s.trail.attempts == [true] && Family(s.dns, true).Some?)
  }

  ghost predicate Inv(s: Sock) {
    (if s.alive then Living(s) else Gone(s)) && Attempts(s)
  }

  // ---------- the steps ----------

  // What only lookups and connects change.
  ghost predicate SameSetup(s: Sock, r: Sock) {
    && r.dns == s.dns && r.trail.attempts == s.trail.attempts && r.ssl.on == s.ssl.on
    && r.connecting == s.connecting && r.ipv6 == s.ipv6 && r.reconnect4 == s.reconnect4
  }

  // What iosocket_try_write leaves alone.
  ghost predicate SameButBuffer(s: Sock, r: Sock) {
    && r.alive == s.alive && r.active == s.active && r.ipv6 == s.ipv6 && r.connecting == s.connecting
    && r.shutdown == s.shutdown && r.dead == s.dead && r.reconnect4 == s.reconnect4 && r.hasFd == s.hasFd
    && r.dns == s.dns && r.trail == s.trail && (r.registered.Some? <==> s.registered.Some?)
    && r.ssl.on == s.ssl.on && r.ssl.handshake == s.ssl.handshake && r.ssl.established == s.ssl.established
    && (!s.ssl.on ==> r.ssl == s.ssl)
  }

  lemma TryWriteFrame(s: Sock, w: WriteOutcome)
    ensures SameButBuffer(s, TryWrite(s, w))
  {
    hide SameButBuffer, AfterWrite, Written;
    if s.queued == 0 && !s.ssl.writeHs {
      SameFrame(s);
    } else if w.Failed? {
      FailedFrame(s, w.rehandshake);
    } else {
      SentFrame(s, Success(w.clears), if w.bytes <= s.queued then s.queued - w.bytes else 0);
    }
  }

  lemma SameFrame(s: Sock)
    ensures SameButBuffer(s, s)
  {
  }

  lemma FailedFrame(s: Sock, r: Rehandshake)
    ensures SameButBuffer(s, s.(ssl := AfterWrite(s.ssl, r)))
  {
  }

  lemma SentFrame(s: Sock, r: Rehandshake, n: nat)
    ensures SameButBuffer(s, Written(s.(ssl := AfterWrite(s.ssl, r), queued := n)))
  {
  }

  // What telling the client leaves alone, whatever its callback sends.
  ghost predicate Told(s: Sock, r: Sock, e: seq<Event>) {
    && r.alive == s.alive && r.active == s.active && r.ipv6 == s.ipv6 && r.connecting == s.connecting
    && r.shutdown == s.shutdown && r.dead == s.dead && r.reconnect4 == s.reconnect4 && r.hasFd == s.hasFd
    && r.dns == s.dns && r.ssl == s.ssl && r.trail == s.trail.(events := s.trail.events + e)
    && (r.registered.Some? <==> s.registered.Some?)
    && (s.registered.Some? && Agrees(s) ==> Agrees(r))
  }

  lemma TellFrame(s: Sock, e: Event, world: World)
    ensures Told(s, Tell(s, e, world), [e])
  {
  }

  lemma ToldTwice(s: Sock, r: Sock, t: Sock, n: nat)
    requires n > 0 && Told(s, r, [Recv]) && Told(r, t, Recvs(n - 1))
    ensures Told(s, t, Recvs(n))
  {
    assert s.trail.events + [Recv] + Recvs(n - 1) == s.trail.events + Recvs(n);
  }

  lemma {:induction false} TellLinesFrame(s: Sock, lines: nat, world: World)
    ensures Told(s, TellLines(s, lines, world), Recvs(lines))
    decreases lines
  {
    if lines == 0 {
      assert s.trail.events + Recvs(0) == s.trail.events;
    } else {
      var t := Tell(s, Recv, world);
      TellFrame(s, Recv, world);
      TellLinesFrame(t, lines - 1, world);
      ToldTwice(s, t, TellLines(t, lines - 1, world), lines);
    }
  }

  lemma CloseFrame(s: Sock, w: WriteOutcome)
    requires s.alive && (s.active <==> s.registered.Some?)
    ensures var r := CloseStep(s, w);
      && !r.alive && !r.active && r.registered.None? && !r.hasFd && r.connecting == s.connecting
      && r.dns == s.dns && r.ipv6 == s.ipv6 && r.reconnect4 == s.reconnect4 && r.ssl.on == s.ssl.on
      && r.trail == s.trail.(closes := s.trail.closes + (if s.hasFd then 1 else 0), collected := s.trail.collected + 1)
  {
    var t := s.(shutdown := true);
    var u := if s.queued > 0 then TryWrite(t, w) else t;
    TryWriteFrame(t, w);
    assert SameButBuffer(t, u) && CloseStep(s, w) == Release(u);
  }

  lemma StartKeeps(bindHost: Option<Option<Record>>, dest: Option<Record>, ssl: bool, world: World)
    ensures Inv(Start(bindHost, dest, ssl, world))
  {
  }

  lemma SendKeeps(s: Sock, bytes: nat)
    requires Inv(s)
    ensures Inv(SendStep(s, bytes)) && SameSetup(s, SendStep(s, bytes))
  {
  }

  // A socket that is neither waiting nor gone can be closed.
  lemma CloseKeeps(s: Sock, w: WriteOutcome)
    requires s.alive && s.trail.collected == 0 && s.trail.closes == 0 && Trace(s.trail.events) && Attempts(s)
    requires (s.active <==> s.registered.Some?) && !Pending(s)
    ensures Inv(CloseStep(s, w)) && SameSetup(s, CloseStep(s, w))
  {
    CloseFrame(s, w);
  }

  // Applying lookup results either settles on a family ...
  ghost predicate Settled(s: Sock, noip6: bool, r: Sock) {
    && r == s.(ipv6 := r.ipv6, reconnect4 := r.reconnect4, dns := r.dns)
    && r.dns == s.dns.(bindAddr := r.dns.bindAddr, destAddr := r.dns.destAddr)
    && Some(r.ipv6) == Family(s.dns, noip6)
    && (r.reconnect4 ==> r.ipv6 && (s.reconnect4 || Family(s.dns, true).Some?))
  }

  // ... or ends the socket.
  ghost predicate Ended(s: Sock, r: Sock) {
    && !r.alive && !r.active && r.registered.None? && !r.hasFd && r.connecting == s.connecting
    && r.dns == s.dns.(error := true) && r.ipv6 == s.ipv6 && r.reconnect4 == s.reconnect4 && r.ssl.on == s.ssl.on
    && r.trail == Trail(s.trail.attempts, s.trail.added, s.trail.closes + (if s.hasFd then 1 else 0),
                        s.trail.collected + 1, s.trail.events + [DnsFailed])
  }

  lemma ApplyFrame(s: Sock, noip6: bool, world: World)
    requires s.alive && (s.active <==> s.registered.Some?)
    ensures var (r, ok) := LookupApply(s, noip6, world);
      && (ok <==> Family(s.dns, noip6).Some?)
      && (if ok then Settled(s, noip6, r) else Ended(s, r))
  {
    if Family(s.dns, noip6).None? {
      var t := s.(dns := s.dns.(error := true));
      TellFrame(t, DnsFailed, world);
      CloseFrame(Tell(t, DnsFailed, world), world.write);
    }
  }

  lemma ConnectKeeps(s: Sock, world: World)
    requires s.alive && Living(s) && !s.active && !s.ssl.handshake && s.trail.events == []
    requires !Pending(s)
    requires s.trail.attempts == [] || (s.trail.attempts == [true] && !s.ipv6)
    requires s.ipv6 && s.reconnect4 ==> Family(s.dns, true).Some?
    requires s.connecting ==> s.trail.attempts != []
    requires (s.hasFd <==> s.trail.attempts != []) && s.trail.added == |s.trail.attempts|
    ensures Inv(ConnectFinish(s, world))
  {
  }

  // No address is chosen while a lookup is pending, and no lookup starts later.
  ghost predicate SameAddresses(s: Sock, r: Sock) {
    Pending(r) ==> Pending(s) && r.dns.bindAddr == s.dns.bindAddr && r.dns.destAddr == s.dns.destAddr
  }

  lemma ResolvedKeeps(s: Sock, bind: bool, result: Option<seq<Record>>, world: World)
    requires Inv(s) && s.alive && if bind then s.dns.pendingBind else s.dns.pendingDest
    ensures Inv(ResolvedStep(s, bind, result, world))
    ensures ResolvedStep(s, bind, result, world).ssl.on == s.ssl.on
    ensures SameAddresses(s, ResolvedStep(s, bind, result, world))
  {
    var t := s.(dns := Store(s.dns, bind, result));
    if !Pending(t) {
      ApplyFrame(t, false, world);
      var (r, ok) := LookupApply(t, false, world);
      if ok {
        assert Family(r.dns, true) == Family(t.dns, true);
        ConnectKeeps(r, world);
      }
    }
  }

  ghost function Shown(event: Option<Event>): seq<Event> {
    if event.Some? then [event.value] else []
  }

  lemma FinishKeeps(s: Sock, event: Option<Event>, world: World)
    requires s.alive && s.dead && s.trail.collected == 0 && s.trail.closes == 0 && Attempts(s)
    requires (s.active <==> s.registered.Some?) && !Pending(s)
    requires Trace(s.trail.events + Shown(event))
    ensures Inv(Finish(s, event, world)) && !Finish(s, event, world).alive
    ensures SameSetup(s, Finish(s, event, world))
  {
    var t := if event.Some? then Tell(s, event.value, world) else s;
    if event.Some? {
      TellFrame(s, event.value, world);
    } else {
      assert s.trail.events + [] == s.trail.events;
    }
    CloseKeeps(t, world.write);
    CloseFrame(t, world.write);
  }

  // A socket that has just connected, before its client is told.
  ghost predicate Connecting(s: Sock) {
    && s.alive && !s.dead && !s.dns.error && !s.shutdown && s.trail.collected == 0 && s.trail.closes == 0
    && s.active && s.registered == Some(Wants(s)) && !Pending(s) && !s.connecting && !s.ssl.handshake
    && s.trail.events == [] && !s.ssl.readHs && !s.ssl.writeHs && Attempts(s)
  }

  lemma ConnectedKeeps(s: Sock, world: World)
    requires Connecting(s)
    ensures var r := Finish(s, Some(Connected), world);
      Inv(r) && !Pending(r) && r.alive && SameSetup(s, r) && Agrees(r)
  {
    TellFrame(s, Connected, world);
    assert [] + [Connected] == [Connected];
  }

  lemma UpdateKeeps(s: Sock, world: World)
    requires Inv(s)
    ensures Inv(Update(s)) && Agrees(Update(s)) && Finish(Update(s), None, world) == Update(s)
    ensures SameSetup(s, Update(s)) && Update(s).alive == s.alive
  {
  }

  // A socket in its handshake, before the engine is told.
  ghost predicate Shaking(s: Sock) {
    s.alive && s.active && s.registered.Some? && s.ssl.handshake && !s.connecting && Inv(Update(s))
  }

  // The handshake callback, whether it ends the handshake, fails it or waits.
  lemma HandshakeKeeps(s: Sock, world: World)
    requires Shaking(s)
    ensures var r := ClientHandshake(s, world);
      Inv(Update(r)) && !Pending(r) && SameSetup(s, r) && (r.alive <==> !world.handshake.Fatal?)
  {
    var t := s.(ssl := s.ssl.(wantWrite := world.handshake.WantWrite?,
                              established := s.ssl.established || world.handshake.Done?));
    if world.handshake.Done? {
      var u := Update(t.(ssl := t.ssl.(handshake := false)));
      assert ClientHandshake(s, world) == Finish(u, Some(Connected), world);
      ConnectedKeeps(u, world);
    } else if world.handshake.Fatal? {
      assert Trace([] + [NotConnected]);
      FinishKeeps(t.(dead := true), Some(NotConnected), world);
    }
  }

  // An event during the handshake.
  lemma HandshakingKeeps(s: Sock, world: World)
    requires Inv(s) && s.alive && s.active && s.ssl.handshake && !s.connecting
    ensures var r := Finish(Update(ClientHandshake(s, world)), None, world);
      Inv(r) && !Pending(r) && SameSetup(s, r) && Agrees(r)
  {
    UpdateKeeps(s, world);
    HandshakeKeeps(s, world);
    UpdateKeeps(Update(ClientHandshake(s, world)), world);
  }

  lemma FallbackKeeps(s: Sock, world: World)
    requires Inv(s) && s.alive && s.active && s.connecting && s.ipv6 && s.reconnect4
    ensures var r := ConnectingStep(s, true, false, world); Inv(r) && !Pending(r) && r.ssl.on == s.ssl.on
    ensures ConnectingStep(s, true, true, world) == ConnectingStep(s, true, false, world)
  {
    var t := Deactivate(s);
    ApplyFrame(t, true, world);
    var (r, ok) := LookupApply(t, true, world);
    assert ok && !r.ipv6;
    ConnectKeeps(r, world);
  }

  lemma ConnectingKeeps(s: Sock, readable: bool, writable: bool, world: World)
    requires Inv(s) && s.alive && s.active && s.connecting && (readable || writable)
    ensures var r := ConnectingStep(s, readable, writable, world); Inv(r) && !Pending(r) && r.ssl.on == s.ssl.on
  {
    if readable {
      if s.ipv6 && s.reconnect4 {
        FallbackKeeps(s, world);
      } else {
        assert Trace([] + [NotConnected]);
        FinishKeeps(s.(dead := true), Some(NotConnected), world);
      }
    } else {
      var t := LookupClear(s.(connecting := false));
      if s.ssl.on {
        var u := t.(ssl := t.ssl.(handshake := true));
        HandshakeKeeps(u, world);
      } else {
        ConnectedKeeps(Update(t), world);
      }
    }
  }

  // ---------- an event of a connected socket ----------

  ghost predicate Working(p: Progress) {
    && p.s.alive && p.s.active && !p.s.connecting && !p.s.ssl.handshake && !p.s.shutdown
    && !p.s.dns.error && !Pending(p.s)
    && p.s.trail.collected == 0 && p.s.trail.closes == 0 && Attempts(p.s)
    && p.s.registered.Some? && (p.rehandshake == 0 ==> Interest(p.s))
    && (!p.s.ssl.on ==> p.rehandshake == 0 && !p.s.ssl.readHs && !p.s.ssl.writeHs)
    && Open(p.s.trail.events)
    && (if p.s.dead then p.event == Some(Closed) else p.event in {None, Some(Recv)})
  }

  // While nothing asked for a rehandshake no flag is set.
  ghost predicate Reading(p: Progress) {
    Working(p) && (p.rehandshake == 0 ==> !p.s.ssl.readHs && !p.s.ssl.writeHs)
  }

  lemma TakeKeeps(p: Progress, lines: nat, clears: bool, world: World)
    requires Reading(p) && !p.s.dead
    ensures var q := Take(p, lines, clears, world);
      Reading(q) && !q.s.dead && SameSetup(p.s, q.s) && q.rehandshake == p.rehandshake
  {
    var t := p.s.(ssl := AfterRead(p.s.ssl, Success(clears)));
    TellLinesFrame(t, lines, world);
    OpenRecvs(p.s.trail.events, lines);
  }

  lemma MissKeeps(p: Progress, again: bool, r: Rehandshake)
    requires Reading(p) && !p.s.dead
    ensures var q := Miss(p, again, r);
      Reading(q) && SameSetup(p.s, q.s) && (p.rehandshake != 0 ==> q.rehandshake != 0)
  {
  }

  lemma {:induction false} ReadKeeps(p: Progress, readable: bool, world: World, n: nat)
    requires Reading(p) && !p.s.dead
    ensures var q := ReadPart(p, readable, world, n);
      Reading(q) && SameSetup(p.s, q.s) && (p.rehandshake != 0 ==> q.rehandshake != 0)
    decreases |world.recvs| - n
  {
    if ((readable && p.rehandshake == 0) || p.rehandshake == 1) && n < |world.recvs| {
      var o := world.recvs[n];
      if o.NoData? {
        MissKeeps(p, o.again, o.rehandshake);
      } else {
        TakeKeeps(p, o.lines, o.clears, world);
        if o.full {
          ReadKeeps(Take(p, o.lines, o.clears, world), readable, world, n + 1);
        }
      }
    }
  }

  // What a write leaves registered.
  lemma TryWriteInterest(s: Sock, w: WriteOutcome)
    requires s.active && !s.shutdown && s.registered.Some? && (s.queued > 0 || s.ssl.writeHs)
    ensures w.Sent? ==> Agrees(TryWrite(s, w))
    ensures w.Failed? && Agrees(s) && !s.ssl.readHs && !s.ssl.writeHs && !s.connecting ==>
      var r := TryWrite(s, w); r.ssl.writeHs == (s.ssl.on && w.rehandshake.Waiting?) && Agrees(r) == !r.ssl.writeHs
  {
  }

  lemma WriteKeeps(p: Progress, writable: bool, world: World)
    requires Reading(p)
    ensures var q := WritePart(p, writable, world);
      Working(q) && SameSetup(p.s, q.s) && (p.rehandshake != 0 ==> q.rehandshake != 0)
  {
    TryWriteFrame(p.s, world.write);
    if p.s.queued > 0 || p.s.ssl.writeHs {
      TryWriteInterest(p.s, world.write);
    }
  }

  // The end of an event of a connected socket.
  lemma EndKeeps(q: Progress, world: World)
    requires Working(q)
    ensures var r := Finish(if q.rehandshake != 0 then Update(q.s) else q.s, q.event, world);
      && Inv(r) && !Pending(r) && SameSetup(q.s, r)
      && (q.rehandshake != 0 || Agrees(q.s) ==> Agrees(r)) && (r.alive <==> !q.s.dead)
  {
    var t := if q.rehandshake != 0 then Update(q.s) else q.s;
    OpenRecvs(t.trail.events, 0);
    if t.dead {
      FinishKeeps(t, q.event, world);
    } else if q.event.Some? {
      TellFrame(t, Recv, world);
    }
  }

  lemma TransferKeeps(s: Sock, readable: bool, writable: bool, world: World)
    requires Inv(s) && s.alive && s.active && !s.connecting && !s.ssl.handshake
    ensures var r := ConnectedStep(s, readable, writable, world);
      && Inv(r) && !Pending(r) && SameSetup(s, r)
      && (s.ssl.readHs || s.ssl.writeHs ==> Agrees(r))
  {
    var rehandshake := if s.ssl.on && s.ssl.readHs then 1 else if s.ssl.on && s.ssl.writeHs then 2 else 0;
    var p := ReadPart(Progress(s, None, rehandshake), readable, world, 0);
    ReadKeeps(Progress(s, None, rehandshake), readable, world, 0);
    WriteKeeps(p, writable, world);
    EndKeeps(WritePart(p, writable, world), world);
  }

  lemma StepKeeps(s: Sock, i: Input)
    requires Inv(s)
    ensures Inv(Step(s, i)) && Step(s, i).ssl.on == s.ssl.on && SameAddresses(s, Step(s, i))
  {
    if Enabled(s, i) {
      match i
      case Resolved(bind, result, world) => ResolvedKeeps(s, bind, result, world);
      case Ready(readable, writable, world) => ReadyKeeps(s, readable, writable, world);
      case Send(bytes) => SendKeeps(s, bytes);
      case Close(world) =>
        if s.alive {
          CloseKeeps(s, world.write);
        }
    }
  }

  lemma ReadyKeeps(s: Sock, readable: bool, writable: bool, world: World)
    requires Inv(s) && s.registered.Some? && (readable || writable)
    ensures var r := ReadyStep(s, readable, writable, world); Inv(r) && !Pending(r) && r.ssl.on == s.ssl.on
  {
    if s.ssl.handshake {
      HandshakingKeeps(s, world);
    } else if s.connecting {
      ConnectingKeeps(s, readable, writable, world);
    } else {
      TransferKeeps(s, readable, writable, world);
    }
  }

  // ---------- every run ----------

  lemma {:induction false} RunKeeps(s: Sock, inputs: seq<Input>)
    requires Inv(s)
    ensures var r := Run(s, inputs); Inv(r) && r.ssl.on == s.ssl.on && SameAddresses(s, r)
    decreases |inputs|
  {
    if inputs != [] {
      StepKeeps(s, inputs[0]);
      RunKeeps(Step(s, inputs[0]), inputs[1..]);
    }
  }

  /** Client event traces: in every run the events are a prefix of DNSFAILED, of NOTCONNECTED or
      of CONNECTED RECV* CLOSED. When its socket is gone, and not before, the descriptor has been
      queued for freeing once and the file of a socket that tried to connect closed once; it is
      gone when a terminal event was seen. */
  lemma EventTraces(bindHost: Option<Option<Record>>, dest: Option<Record>, ssl: bool, world: World, inputs: seq<Input>)
    ensures var s := Run(Start(bindHost, dest, ssl, world), inputs);
      && Trace(s.trail.events)
      && s.trail.collected == (if s.alive then 0 else 1)
      && s.trail.closes == (if s.alive || s.trail.attempts == [] then 0 else 1)
      && (Terminal(s.trail.events) ==> !s.alive && !s.hasFd && s.registered.None?)
  {
    var s := Run(Start(bindHost, dest, ssl, world), inputs);
    StartKeeps(bindHost, dest, ssl, world);
    RunKeeps(Start(bindHost, dest, ssl, world), inputs);
    if s.alive && s.trail.events != [] {
      OpenRecvs(s.trail.events, 0);
    }
  }

  /** Nothing follows: a closed socket never changes again, whatever is called. */
  lemma {:induction false} NothingFollows(s: Sock, inputs: seq<Input>)
    requires Inv(s) && !s.alive
    ensures Run(s, inputs) == s
    decreases |inputs|
  {
    if inputs != [] {
      assert Step(s, inputs[0]) == s;
      NothingFollows(s, inputs[1..]);
    }
  }

  /** In every run the engine holds an interest exactly for an active socket, and it is the one
      computed from flags and buffer unless a write of an SSL socket waits for a rehandshake. */
  lemma RunInterest(bindHost: Option<Option<Record>>, dest: Option<Record>, ssl: bool, world: World, inputs: seq<Input>)
    ensures var s := Run(Start(bindHost, dest, ssl, world), inputs);
      && (s.active <==> s.registered.Some?)
      && (s.active && s.registered != Some(Wants(s)) ==> s.ssl.on && s.ssl.writeHs)
  {
    StartKeeps(bindHost, dest, ssl, world);
    RunKeeps(Start(bindHost, dest, ssl, world), inputs);
  }

  /** Interest agreement: for a plain socket it always is, so queued bytes always have it armed for
      writing. */
  lemma InterestAgreement(bindHost: Option<Option<Record>>, dest: Option<Record>, world: World, inputs: seq<Input>)
    ensures var s := Run(Start(bindHost, dest, false, world), inputs);
      && s.registered == (if s.active then Some((true, s.queued > 0 || s.connecting)) else None)
      && (s.active && s.queued > 0 ==> s.registered == Some((true, true)))
  {
    StartKeeps(bindHost, dest, false, world);
    RunKeeps(Start(bindHost, dest, false, world), inputs);
  }

  // ---------- addresses ----------

  /** In every run results are applied only after all lookups: while one is pending no address has
      been chosen beyond the literal ones of the connect call, no connect was tried, the engine
      knows nothing of the socket and its client was told nothing. */
  lemma LookupsWait(bindHost: Option<Option<Record>>, dest: Option<Record>, ssl: bool, world: World, inputs: seq<Input>)
    ensures var s := Run(Start(bindHost, dest, ssl, world), inputs);
      Pending(s) ==>
        && s.alive && s.trail.attempts == [] && s.trail.events == [] && s.registered.None? && !s.hasFd
        && s.dns.bindAddr == (if bindHost.Some? then bindHost.value else None) && s.dns.destAddr == dest
  {
    StartKeeps(bindHost, dest, ssl, world);
    RunKeeps(Start(bindHost, dest, ssl, world), inputs);
  }

  // A lookup that was made has entries of a family; one that was not does not matter.
  ghost predicate Offers(l: Option<seq<Record>>, v6: bool) {
    l.Some? ==> exists r :: r in l.value && Is(r, v6)
  }

  lemma {:induction false} CountPositive(l: seq<Record>, v6: bool)
    ensures Count(l, v6) > 0 <==> exists r :: r in l && Is(r, v6)
  {
    if l != [] {
      CountPositive(l[1..], v6);
      if Count(l[1..], v6) > 0 {
        var r :| r in l[1..] && Is(r, v6);
        assert r in l;
      }
      assert l[0] in l;
      assert forall r :: r in l ==> r == l[0] || r in l[1..];
    }
  }

  /** What the counts of lines 312-327 decide: a lookup that was made has an entry of the family. */
  lemma HasMeans(l: Option<seq<Record>>, v6: bool)
    ensures Has(l, v6) <==> Offers(l, v6)
  {
    if l.Some? {
      CountPositive(l.value, v6);
    }
  }

  // The address chosen from a lookup, if there was one, is one of its results of that family.
  ghost predicate FromLookup(l: Option<seq<Record>>, addr: Option<Record>, v6: bool) {
    l.Some? ==> addr.Some? && addr.value in l.value && Is(addr.value, v6)
  }

  /** It is the one the random number `pick` means: that many entries of the family, modulo their
      count, come before it. */
  ghost predicate PickedFrom(l: Option<seq<Record>>, addr: Option<Record>, v6: bool, pick: nat) {
    l.Some? ==>
      && addr.Some? && Count(l.value, v6) > 0
      && exists i :: 0 <= i < |l.value| && l.value[i] == addr.value && Is(l.value[i], v6)
          && Count(l.value[..i], v6) == pick % Count(l.value, v6)
  }

  lemma PickedIsFrom(l: Option<seq<Record>>, addr: Option<Record>, v6: bool, pick: nat)
    requires PickedFrom(l, addr, v6, pick)
    ensures FromLookup(l, addr, v6)
  {
  }

  lemma ChosenIsPicked(l: Option<seq<Record>>, v6: bool, pick: nat)
    requires Has(l, v6)
    ensures PickedFrom(l, Chosen(l, v6, pick), v6, pick)
  {
    if l.Some? {
      PickRank(l.value, v6, pick % Count(l.value, v6));
    }
  }

  lemma ChooseFrom(d: Dns, v6: bool, world: World)
    requires Has(Results(d.doneBind, d.bindLookup), v6) && Has(Results(d.doneDest, d.destLookup), v6)
    ensures var r := Choose(d, v6, world);
      && PickedFrom(Results(d.doneBind, d.bindLookup), r.bindAddr, v6, world.pickBind)
      && PickedFrom(Results(d.doneDest, d.destLookup), r.destAddr, v6, world.pickDest)
  {
    hide Chosen;
    ChosenIsPicked(Results(d.doneBind, d.bindLookup), v6, world.pickBind);
    ChosenIsPicked(Results(d.doneDest, d.destLookup), v6, world.pickDest);
  }

  /** The choice of a family, when the lookups are in and at a fallback: applying succeeds if and
      only if some lookup was made and all that were have a common usable family; it is IPv6
      whenever they can agree on that, and both chosen addresses are results of that family. With
      IPv6 a fallback to IPv4 is then prepared if they agree on IPv4 as well, or it already was. */
  lemma FamilyChoice(s: Sock, noip6: bool, world: World)
    requires s.alive && (s.active <==> s.registered.Some?)
    ensures var b, d := Results(s.dns.doneBind, s.dns.bindLookup), Results(s.dns.doneDest, s.dns.destLookup);
      var (r, ok) := LookupApply(s, noip6, world);
      var six, four := Has(b, true) && Has(d, true) && !noip6, Has(b, false) && Has(d, false);
      && (ok <==> (b.Some? || d.Some?) && (six || four))
      && (if ok then
            && r.ipv6 == six && r.reconnect4 == (six && (four || s.reconnect4))
            && PickedFrom(b, r.dns.bindAddr, r.ipv6, world.pickBind)
            && PickedFrom(d, r.dns.destAddr, r.ipv6, world.pickDest)
          else
            r.trail.events == s.trail.events + [DnsFailed] && !r.alive)
  {
    FamilyIs(s.dns, noip6);
    FamilyIs(s.dns, true);
    if Family(s.dns, noip6).Some? {
      Applied(s, noip6, world);
    } else {
      ApplyFrame(s, noip6, world);
    }
  }

  lemma FamilyIs(d: Dns, noip6: bool)
    ensures var b, t := Results(d.doneBind, d.bindLookup), Results(d.doneDest, d.destLookup);
      var six, four := Has(b, true) && Has(t, true) && !noip6, Has(b, false) && Has(t, false);
      Family(d, noip6) == if (b.Some? || t.Some?) && (six || four) then Some(six) else None
  {
  }

  lemma Applied(s: Sock, noip6: bool, world: World)
    requires Family(s.dns, noip6).Some?
    ensures var v6 := Family(s.dns, noip6).value;
      var (r, ok) := LookupApply(s, noip6, world);
      && ok && r.ipv6 == v6 && r.reconnect4 == (v6 && (s.reconnect4 || Family(s.dns, true).Some?))
      && PickedFrom(Results(s.dns.doneBind, s.dns.bindLookup), r.dns.bindAddr, v6, world.pickBind)
      && PickedFrom(Results(s.dns.doneDest, s.dns.destLookup), r.dns.destAddr, v6, world.pickDest)
  {
    hide PickedFrom, Has;
    ChooseFrom(s.dns, Family(s.dns, noip6).value, world);
  }

  // What the lookups of the start `o` have come to: they are held while they may be needed, and a
  // connect is made with an address from each of them and no other.
  ghost predicate Setup(o: Dns, s: Sock) {
    && (s.dns.pendingBind || s.dns.doneBind <==> o.pendingBind)
    && (s.dns.pendingDest || s.dns.doneDest <==> o.pendingDest)
    && (s.trail.attempts == [] || (s.connecting && s.ipv6 && s.reconnect4) ==> Kept(s.dns))
    && (if o.pendingBind || o.pendingDest
        then s.trail.attempts != [] ==> s.dns.bindAddr.Some? == o.pendingBind && s.dns.destAddr.Some? == o.pendingDest
        else s.dns.bindAddr == o.bindAddr && s.dns.destAddr == o.destAddr)
    && (s.alive && (s.ssl.handshake || s.trail.events != []) ==> Released(s.dns))
  }

  // No lookup results are held any more.
  ghost predicate Released(d: Dns) {
    Results(d.doneBind, d.bindLookup).None? && Results(d.doneDest, d.destLookup).None?
  }

  ghost predicate Kept(d: Dns) {
    (d.doneBind ==> d.bindLookup.Some?) && (d.doneDest ==> d.destLookup.Some?)
  }

  // Applied to lookups that are all in and held, the choice has an address from each of them.
  lemma ApplySetup(o: Dns, s: Sock, noip6: bool, world: World)
    requires (s.dns.doneBind <==> o.pendingBind) && (s.dns.doneDest <==> o.pendingDest) && Kept(s.dns)
    requires Family(s.dns, noip6).Some?
    ensures var d := LookupApply(s, noip6, world).0.dns;
      && d == s.dns.(bindAddr := d.bindAddr, destAddr := d.destAddr)
      && d.bindAddr.Some? == o.pendingBind && d.destAddr.Some? == o.pendingDest
      && (o.pendingBind || o.pendingDest)
  {
  }

  lemma ResolvedSetup(o: Dns, s: Sock, bind: bool, result: Option<seq<Record>>, world: World)
    requires Inv(s) && Setup(o, s) && s.alive && if bind then s.dns.pendingBind else s.dns.pendingDest
    ensures Setup(o, ResolvedStep(s, bind, result, world))
  {
    var t := s.(dns := Store(s.dns, bind, result));
    assert Kept(t.dns);
    if !Pending(t) {
      ApplyFrame(t, false, world);
      if Family(t.dns, false).Some? {
        ApplySetup(o, t, false, world);
      }
    }
  }

  lemma ConnectingSetup(o: Dns, s: Sock, readable: bool, writable: bool, world: World)
    requires Inv(s) && Setup(o, s) && s.alive && s.active && s.connecting && (readable || writable)
    ensures Setup(o, ConnectingStep(s, readable, writable, world))
  {
    if readable && s.ipv6 && s.reconnect4 {
      var t := Deactivate(s);
      ApplyFrame(t, true, world);
      ApplySetup(o, t, true, world);
    } else if readable {
      assert Trace([] + [NotConnected]);
      FinishKeeps(s.(dead := true), Some(NotConnected), world);
    } else {
      var t := LookupClear(s.(connecting := false));
      if s.ssl.on {
        HandshakeKeeps(t.(ssl := t.ssl.(handshake := true)), world);
      } else {
        ConnectedKeeps(Update(t), world);
      }
    }
  }

  lemma StepSetup(o: Dns, s: Sock, i: Input)
    requires Inv(s) && Setup(o, s)
    ensures Setup(o, Step(s, i))
  {
    if Enabled(s, i) {
      match i
      case Resolved(bind, result, world) => ResolvedSetup(o, s, bind, result, world);
      case Ready(readable, writable, world) =>
        if s.ssl.handshake {
          HandshakingKeeps(s, world);
        } else if s.connecting {
          ConnectingSetup(o, s, readable, writable, world);
        } else {
          TransferKeeps(s, readable, writable, world);
        }
      case Send(bytes) => SendKeeps(s, bytes);
      case Close(world) =>
        if s.alive {
          CloseKeeps(s, world.write);
        }
    }
  }

  lemma {:induction false} RunSetup(o: Dns, s: Sock, inputs: seq<Input>)
    requires Inv(s) && Setup(o, s)
    ensures Setup(o, Run(s, inputs))
    decreases |inputs|
  {
    if inputs != [] {
      StepSetup(o, s, inputs[0]);
      StepKeeps(s, inputs[0]);
      RunSetup(o, Step(s, inputs[0]), inputs[1..]);
    }
  }

  /** In every run a connect is tried without a destination address exactly if the destination was
      given as a literal address and the bind host had to be looked up: lines 414-415 forget it. In
      the same way lines 397-398 forget a literal bind address if the destination was looked up. */
  lemma AddressForgottenIff(bindHost: Option<Option<Record>>, dest: Option<Record>, ssl: bool, world: World,
                            inputs: seq<Input>)
    ensures var s := Run(Start(bindHost, dest, ssl, world), inputs);
      s.trail.attempts != [] ==>
        && (s.dns.destAddr.None? <==> dest.Some? && bindHost == Some(None))
        && (s.dns.bindAddr.None? <==> bindHost.None? || (bindHost.value.Some? && dest.None?))
  {
    var s := Start(bindHost, dest, ssl, world);
    StartKeeps(bindHost, dest, ssl, world);
    RunSetup(s.dns, s, inputs);
  }

  /** In every run a socket that is connected, or in its handshake, has given its lookups back. */
  lemma LookupsReleased(bindHost: Option<Option<Record>>, dest: Option<Record>, ssl: bool, world: World,
                        inputs: seq<Input>)
    ensures var s := Run(Start(bindHost, dest, ssl, world), inputs);
      s.alive && s.active && !s.connecting ==> Released(s.dns)
  {
    var s := Start(bindHost, dest, ssl, world);
    StartKeeps(bindHost, dest, ssl, world);
    RunSetup(s.dns, s, inputs);
    RunKeeps(s, inputs);
  }

  /** Every run makes at most two connect attempts, the second one over IPv4 after one over IPv6,
      and the engine is given the file of each; whenever a fallback is due the results held make it succeed. */
  lemma TwoAttempts(bindHost: Option<Option<Record>>, dest: Option<Record>, ssl: bool, world: World,
                    inputs: seq<Input>, retry: World)
    ensures var s := Run(Start(bindHost, dest, ssl, world), inputs);
      && (|s.trail.attempts| <= 1 || s.trail.attempts == [true, false]) && s.trail.added == |s.trail.attempts|
      && (s.alive && s.active && s.connecting && s.ipv6 && s.reconnect4 ==>
            var (r, ok) := LookupApply(Deactivate(s), true, retry); ok && !r.ipv6 && !r.reconnect4)
  {
    var s := Run(Start(bindHost, dest, ssl, world), inputs);
    StartKeeps(bindHost, dest, ssl, world);
    RunKeeps(Start(bindHost, dest, ssl, world), inputs);
    if s.alive {
      ApplyFrame(Deactivate(s), true, retry);
    }
  }

  // ---------- SSL sockets ----------

  /** Any event in a rehandshake ends in agreement. */
  lemma RehandshakeAgrees(s: Sock, readable: bool, writable: bool, world: World)
    requires Inv(s) && s.alive && s.active && !s.connecting && !s.ssl.handshake
    requires s.ssl.readHs || s.ssl.writeHs
    ensures Agrees(ConnectedStep(s, readable, writable, world))
  {
    TransferKeeps(s, readable, writable, world);
  }

  // The handshake succeeds, the write asks for a rehandshake, and the callbacks send nothing.
  function Asking(): World {
    World(Done, [], Failed(true, Waiting(false)), 0, 0, true, false, (i: nat) => None)
  }

  /** It does happen: an SSL socket connects, its client sends, and the write asks for a
      rehandshake. */
  lemma StaleInterest()
    ensures var w := Ready(false, true, Asking());
      var s := Run(Start(None, Some(A(0)), true, Asking()), [w, Send(1), w]);
      s.alive && s.active && s.registered != Some(Wants(s))
  {
    var world := Asking();
    var w := Ready(false, true, world);
    var a := Start(None, Some(A(0)), true, world);
    RunThree(a, w, Send(1), w);
    var b := Step(a, w);
    assert b.alive && b.active && !b.connecting && !b.ssl.handshake && b.ssl.on && !b.ssl.readHs && !b.ssl.writeHs;
    assert b.queued == 0 && !b.shutdown && !b.dead && b.registered.Some?;
    AsksOnce(Step(b, Send(1)), world);
  }

  lemma RunThree(s: Sock, x: Input, y: Input, z: Input)
    ensures Run(s, [x, y, z]) == Step(Step(Step(s, x), y), z)
  {
    assert [x, y, z][1..] == [y, z] && [y, z][1..] == [z] && [z][1..] == [];
    assert Run(Step(Step(s, x), y), [z]) == Run(Step(Step(Step(s, x), y), z), []);
  }

  // A write that asks for a rehandshake, of a socket that waits to write.
  lemma AsksOnce(s: Sock, world: World)
    requires world == Asking() && s.alive && s.active && !s.connecting && !s.ssl.handshake && s.ssl.on
    requires !s.ssl.readHs && !s.ssl.writeHs && s.queued > 0 && !s.dead && s.registered == Some((true, true))
    ensures var r := Step(s, Ready(false, true, world)); r.alive && r.active && r.registered != Some(Wants(r))
  {
  }

  // ---------- memory ----------

  /** In every run, whenever an SSL socket in its handshake or about to start it is served, the
      engine is asked to update a socket that the nested call has freed (lines 963 and 1034) exactly
      when the handshake fails for good. */
  lemma UpdatesFreedIff(bindHost: Option<Option<Record>>, dest: Option<Record>, start: World, inputs: seq<Input>,
                        world: World)
    ensures var s := Run(Start(bindHost, dest, true, start), inputs);
      var t := LookupClear(s.(connecting := false));
      && (s.alive && s.active && s.ssl.handshake ==>
            (!ClientHandshake(s, world).alive <==> world.handshake.Fatal?))
      && (s.alive && s.active && s.connecting ==>
            (!ClientHandshake(t.(ssl := t.ssl.(handshake := true)), world).alive <==> world.handshake.Fatal?))
  {
    var s := Run(Start(bindHost, dest, true, start), inputs);
    StartKeeps(bindHost, dest, true, start);
    RunKeeps(Start(bindHost, dest, true, start), inputs);
    if s.alive && s.active && s.ssl.handshake {
      UpdateKeeps(s, world);
      HandshakeKeeps(s, world);
    }
    if s.alive && s.active && s.connecting {
      var t := LookupClear(s.(connecting := false));
      HandshakeKeeps(t.(ssl := t.ssl.(handshake := true)), world);
    }
  }

  /** In every run a socket in its handshake is armed for writing exactly while bytes are queued, so
      one whose handshake waits to write is not armed for that exactly if none are. */
  lemma HandshakeArmedIff(bindHost: Option<Option<Record>>, dest: Option<Record>, world: World, inputs: seq<Input>)
    ensures var s := Run(Start(bindHost, dest, true, world), inputs);
      s.active && s.ssl.handshake ==> s.registered == Some((true, s.queued > 0))
  {
    StartKeeps(bindHost, dest, true, world);
    RunKeeps(Start(bindHost, dest, true, world), inputs);
  }
}
