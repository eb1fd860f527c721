/** What the answers to a socket's lookups come to, read off the inputs of a run: they may come in
    either order and with anything in between. */
module LookupRuns {
  import opened Addresses
  import opened Basics
  import opened Lifecycle
  import opened LifecycleRuns
  import opened SocketEvents

  /** The first answer to the lookup of the bind host, or of the destination. */
  function FirstAnswer(inputs: seq<Input>, bind: bool): Option<seq<Record>>
    decreases |inputs|
  {
    if inputs == [] then None
    else if inputs[0].Resolved? && inputs[0].bind == bind then Some(Answer(inputs[0].result))
    else FirstAnswer(inputs[1..], bind)
  }

  /** The answer a socket has had to one of its lookups, if it made that. */
  function Heard(looks: bool, inputs: seq<Input>, bind: bool): Option<seq<Record>> {
    if looks then FirstAnswer(inputs, bind) else None
  }

  ghost predicate Shared(b: Option<seq<Record>>, d: Option<seq<Record>>, v6: bool) {
    Offers(b, v6) && Offers(d, v6)
  }

  /** Which lookups a connect call makes. */
  datatype Looks = Looks(bind: bool, dest: bool)

  // What the answers `b` and `d` have made of the socket.
  ghost predicate Knows(l: Looks, b: Option<seq<Record>>, d: Option<seq<Record>>, s: Sock) {
    && (l.bind || l.dest) && (b.Some? ==> l.bind) && (d.Some? ==> l.dest)
    && (s.dns.pendingBind <==> l.bind && b.None?) && (s.dns.pendingDest <==> l.dest && d.None?)
    && (s.dns.doneBind <==> b.Some?) && (s.dns.doneDest <==> d.Some?)
    && (s.trail.attempts == [] || (s.connecting && s.ipv6 && s.reconnect4) ==>
          Results(s.dns.doneBind, s.dns.bindLookup) == b && Results(s.dns.doneDest, s.dns.destLookup) == d)
    && (DnsFailed in s.trail.events <==> !Pending(s) && !Shared(b, d, true) && !Shared(b, d, false))
    && (s.trail.attempts != [] ==> Uses(b, d, s))
  }

  // A connect was tried: over the right family first, and with addresses from the answers.
  ghost predicate Uses(b: Option<seq<Record>>, d: Option<seq<Record>>, s: Sock) {
    && !Pending(s) && s.trail.attempts != [] && s.trail.attempts[0] == Shared(b, d, true)
    && (Shared(b, d, true) || Shared(b, d, false)) && (|s.trail.attempts| > 1 ==> Shared(b, d, false))
    && FromLookup(b, s.dns.bindAddr, s.ipv6) && FromLookup(d, s.dns.destAddr, s.ipv6)
  }

  lemma FamilyShared(d: Dns, noip6: bool)
    ensures var b, t := Results(d.doneBind, d.bindLookup), Results(d.doneDest, d.destLookup);
      Family(d, noip6) ==
        if b.None? && t.None? then None
        else if Shared(b, t, true) && !noip6 then Some(true)
        else if Shared(b, t, false) then Some(false) else None
  {
    var b, t := Results(d.doneBind, d.bindLookup), Results(d.doneDest, d.destLookup);
    FamilyIs(d, noip6);
    HasMeans(b, true);
    HasMeans(b, false);
    HasMeans(t, true);
    HasMeans(t, false);
  }

  // Applying the answers, all of which are in and held.
  lemma AppliesAnswers(b: Option<seq<Record>>, d: Option<seq<Record>>, s: Sock, noip6: bool, world: World)
    requires s.alive && (s.active <==> s.registered.Some?) && (b.Some? || d.Some?)
    requires Results(s.dns.doneBind, s.dns.bindLookup) == b && Results(s.dns.doneDest, s.dns.destLookup) == d
    ensures var (r, ok) := LookupApply(s, noip6, world);
      && ok == ((Shared(b, d, true) && !noip6) || Shared(b, d, false))
      && (if ok then
            && Settled(s, noip6, r) && r.ipv6 == (Shared(b, d, true) && !noip6)
            && PickedFrom(b, r.dns.bindAddr, r.ipv6, world.pickBind)
            && PickedFrom(d, r.dns.destAddr, r.ipv6, world.pickDest)
          else Ended(s, r))
  {
    hide Shared, Family, PickedFrom;
    FamilyShared(s.dns, noip6);
    ApplyFrame(s, noip6, world);
    if Family(s.dns, noip6).Some? {
      Applied(s, noip6, world);
    }
  }

  /** The last answer that was waited for. */
  lemma LastAnswerIs(l: Looks, b: Option<seq<Record>>, d: Option<seq<Record>>, s: Sock, bind: bool,
                     result: Option<seq<Record>>, world: World)
    requires Inv(s) && Knows(l, b, d, s) && s.alive
    requires if bind then s.dns.pendingBind && !s.dns.pendingDest else s.dns.pendingDest && !s.dns.pendingBind
    ensures var r := ResolvedStep(s, bind, result, world);
      Outcome(if bind then Some(Answer(result)) else b, if bind then d else Some(Answer(result)), r, world)
  {
    hide Shared, PickedFrom;
    var t := s.(dns := Store(s.dns, bind, result));
    var b', d' := if bind then Some(Answer(result)) else b, if bind then d else Some(Answer(result));
    AppliesAnswers(b', d', t, false, world);
  }

  /** What the last answer comes to: DNSFAILED if the answers share no family; otherwise a connect
      over IPv6 if they share that and over IPv4 if not, with an address out of each answer, as
      soon as the system gives a socket. */
  ghost predicate Outcome(b: Option<seq<Record>>, d: Option<seq<Record>>, r: Sock, world: World) {
    var six, four := Shared(b, d, true), Shared(b, d, false);
    && !Pending(r)
    && if !six && !four then
         !r.alive && r.trail.events == [DnsFailed] && r.trail.attempts == [] && r.registered.None?
       else
         && r.alive && r.trail.events == [] && r.ipv6 == six
         && r.trail.attempts == (if world.socketOk then [six] else [])
         && (world.socketOk ==> r.connecting && r.hasFd && r.registered == Some((true, true)))
         && PickedFrom(b, r.dns.bindAddr, six, world.pickBind) && PickedFrom(d, r.dns.destAddr, six, world.pickDest)
  }

  lemma ResolvedKnows(l: Looks, b: Option<seq<Record>>, d: Option<seq<Record>>, s: Sock, bind: bool,
                      result: Option<seq<Record>>, world: World)
    requires Inv(s) && Knows(l, b, d, s) && s.alive && if bind then s.dns.pendingBind else s.dns.pendingDest
    ensures Knows(l, if bind then Some(Answer(result)) else b, if bind then d else Some(Answer(result)),
                  ResolvedStep(s, bind, result, world))
  {
    hide Shared, PickedFrom, FromLookup;
    var t := s.(dns := Store(s.dns, bind, result));
    var b', d' := if bind then Some(Answer(result)) else b, if bind then d else Some(Answer(result));
    if !Pending(t) {
      AppliesAnswers(b', d', t, false, world);
      var (r, ok) := LookupApply(t, false, world);
      if ok {
        PickedIsFrom(b', r.dns.bindAddr, r.ipv6, world.pickBind);
        PickedIsFrom(d', r.dns.destAddr, r.ipv6, world.pickDest);
      }
    }
  }

  // Inputs that leave lookups, family and connects alone.
  lemma SameKnows(l: Looks, b: Option<seq<Record>>, d: Option<seq<Record>>, s: Sock, r: Sock)
    requires Knows(l, b, d, s) && SameSetup(s, r) && (DnsFailed in r.trail.events <==> DnsFailed in s.trail.events)
    ensures Knows(l, b, d, r)
  {
    hide Shared, FromLookup;
  }

  lemma ClearKnows(l: Looks, b: Option<seq<Record>>, d: Option<seq<Record>>, s: Sock)
    requires Knows(l, b, d, s) && Attempts(s) && s.connecting
    ensures Knows(l, b, d, LookupClear(s.(connecting := false)))
  {
  }

  lemma FallbackKnows(l: Looks, b: Option<seq<Record>>, d: Option<seq<Record>>, s: Sock, world: World)
    requires Inv(s) && Knows(l, b, d, s) && s.alive && s.active && s.connecting && s.ipv6 && s.reconnect4
    ensures ConnectingStep(s, true, true, world) == ConnectingStep(s, true, false, world)
    ensures Knows(l, b, d, ConnectingStep(s, true, false, world))
  {
    hide Shared, FromLookup, PickedFrom;
    FallbackShows(s, world);
    var t := Deactivate(s);
    AppliesAnswers(b, d, t, true, world);
    var r := LookupApply(t, true, world).0;
    PickedIsFrom(b, r.dns.bindAddr, r.ipv6, world.pickBind);
    PickedIsFrom(d, r.dns.destAddr, r.ipv6, world.pickDest);
  }

  lemma ConnectingKnows(l: Looks, b: Option<seq<Record>>, d: Option<seq<Record>>, s: Sock, readable: bool,
                        writable: bool, world: World)
    requires Inv(s) && Knows(l, b, d, s) && s.alive && s.active && s.connecting && (readable || writable)
    ensures Knows(l, b, d, ConnectingStep(s, readable, writable, world))
  {
    hide Knows;
    ConnectingShows(s, readable, writable, world);
    if readable && s.ipv6 && s.reconnect4 {
      FallbackKnows(l, b, d, s, world);
    } else if readable {
      assert Trace([] + [NotConnected]);
      FinishKeeps(s.(dead := true), Some(NotConnected), world);
      SameKnows(l, b, d, s, ConnectingStep(s, readable, writable, world));
    } else {
      var t := LookupClear(s.(connecting := false));
      ClearKnows(l, b, d, s);
      if s.ssl.on {
        HandshakeKeeps(t.(ssl := t.ssl.(handshake := true)), world);
      } else {
        ConnectedKeeps(Update(t), world);
      }
      SameKnows(l, b, d, t, ConnectingStep(s, readable, writable, world));
    }
  }

  // What an input adds to the answers.
  function Next(pending: bool, b: Option<seq<Record>>, i: Input, bind: bool): Option<seq<Record>> {
    if pending && i.Resolved? && i.bind == bind then Some(Answer(i.result)) else b
  }

  lemma StepKnows(l: Looks, b: Option<seq<Record>>, d: Option<seq<Record>>, s: Sock, i: Input)
    requires Inv(s) && Knows(l, b, d, s)
    ensures Knows(l, Next(s.dns.pendingBind, b, i, true), Next(s.dns.pendingDest, d, i, false), Step(s, i))
  {
    hide Knows;
    if s.alive && Enabled(s, i) {
      match i
      case Resolved(bind, result, world) => ResolvedKnows(l, b, d, s, bind, result, world);
      case Ready(readable, writable, world) =>
        if s.connecting && !s.ssl.handshake {
          ConnectingKnows(l, b, d, s, readable, writable, world);
        } else {
          StepShows(s, i);
          if s.ssl.handshake {
            HandshakingKeeps(s, world);
          } else {
            TransferKeeps(s, readable, writable, world);
          }
          SameKnows(l, b, d, s, Step(s, i));
        }
      case Send(bytes) =>
        StepShows(s, i);
        SendKeeps(s, bytes);
        SameKnows(l, b, d, s, Step(s, i));
      case Close(world) =>
        StepShows(s, i);
        CloseKeeps(s, world.write);
        SameKnows(l, b, d, s, Step(s, i));
    }
  }

  lemma {:induction false} RunKnows(l: Looks, b: Option<seq<Record>>, d: Option<seq<Record>>, s: Sock,
                                    inputs: seq<Input>)
    requires Inv(s) && Knows(l, b, d, s)
    ensures Knows(l, if l.bind && b.None? then FirstAnswer(inputs, true) else b,
                  if l.dest && d.None? then FirstAnswer(inputs, false) else d, Run(s, inputs))
    decreases |inputs|
  {
    hide Inv, Shared, FromLookup;
    if inputs != [] {
      var i := inputs[0];
      StepKnows(l, b, d, s, i);
      StepKeeps(s, i);
      RunKnows(l, Next(s.dns.pendingBind, b, i, true), Next(s.dns.pendingDest, d, i, false), Step(s, i), inputs[1..]);
    }
  }

  lemma StartKnows(bindHost: Option<Option<Record>>, dest: Option<Record>, ssl: bool, world: World)
    requires bindHost == Some(None) || dest.None?
    ensures Knows(Looks(bindHost == Some(None), dest.None?), None, None, Start(bindHost, dest, ssl, world))
  {
  }

  /** In every run of a socket that makes lookups: it waits until each has been answered, in
      whatever order; its client gets DNSFAILED if and only if the answers then share no family; a
      connect is tried only if they share one, over IPv6 first if they share that, a second one over
      IPv4 only if they share that too, and the addresses are members of the answers. */
  lemma AnswersDecide(bindHost: Option<Option<Record>>, dest: Option<Record>, ssl: bool, world: World,
                      inputs: seq<Input>)
    requires bindHost == Some(None) || dest.None?
    ensures var s := Run(Start(bindHost, dest, ssl, world), inputs);
      var b, d := Heard(bindHost == Some(None), inputs, true), Heard(dest.None?, inputs, false);
      var six, four := Shared(b, d, true), Shared(b, d, false);
      && (Pending(s) <==> (bindHost == Some(None) && b.None?) || (dest.None? && d.None?))
      && (DnsFailed in s.trail.events <==> !Pending(s) && !six && !four)
      && (s.trail.attempts != [] ==>
            && !Pending(s) && (six || four) && s.trail.attempts[0] == six && (|s.trail.attempts| > 1 ==> four)
            && FromLookup(b, s.dns.bindAddr, s.ipv6) && FromLookup(d, s.dns.destAddr, s.ipv6))
  {
    var l, s := Looks(bindHost == Some(None), dest.None?), Start(bindHost, dest, ssl, world);
    StartKeeps(bindHost, dest, ssl, world);
    StartKnows(bindHost, dest, ssl, world);
    RunKnows(l, None, None, s, inputs);
  }

  lemma {:induction false} RunSnoc(s: Sock, inputs: seq<Input>, i: Input)
    ensures Run(s, inputs + [i]) == Step(Run(s, inputs), i)
    decreases |inputs|
  {
    var all := inputs + [i];
    if inputs == [] {
      assert all == [i] && [i][1..] == [];
      assert Run(s, [i]) == Run(Step(s, i), []);
    } else {
      assert all[0] == inputs[0] && all[1..] == inputs[1..] + [i];
      RunSnoc(Step(s, inputs[0]), inputs[1..], i);
    }
  }

  /** In every run, when the answer to the last lookup comes in: what it comes to, by the answers
      of the whole run. */
  lemma LastAnswer(bindHost: Option<Option<Record>>, dest: Option<Record>, ssl: bool, world: World,
                   inputs: seq<Input>, bind: bool, result: Option<seq<Record>>, now: World)
    requires bindHost == Some(None) || dest.None?
    ensures var start, all := Start(bindHost, dest, ssl, world), inputs + [Resolved(bind, result, now)];
      var s, r := Run(start, inputs), Run(start, all);
      Pending(s) && !Pending(r) ==>
        Outcome(Heard(bindHost == Some(None), all, true), Heard(dest.None?, all, false), r, now)
  {
    hide Outcome, Shared, FromLookup;
    var start, i := Start(bindHost, dest, ssl, world), Resolved(bind, result, now);
    var s, r := Run(start, inputs), Run(start, inputs + [i]);
    var l := Looks(bindHost == Some(None), dest.None?);
    StartKeeps(bindHost, dest, ssl, world);
    RunKeeps(start, inputs);
    RunSnoc(start, inputs, i);
    StartKnows(bindHost, dest, ssl, world);
    RunKnows(l, None, None, start, inputs);
    if Pending(s) && !Pending(r) {
      AnswersSnoc(inputs, i, true);
      AnswersSnoc(inputs, i, false);
      LastAnswerIs(l, Heard(l.bind, inputs, true), Heard(l.dest, inputs, false), s, bind, result, now);
    }
  }

  lemma {:induction false} AnswersSnoc(inputs: seq<Input>, i: Input, bind: bool)
    requires i.Resolved?
    ensures FirstAnswer(inputs + [i], bind) ==
      if FirstAnswer(inputs, bind).Some? then FirstAnswer(inputs, bind)
      else if i.bind == bind then Some(Answer(i.result)) else None
    decreases |inputs|
  {
    var all := inputs + [i];
    if inputs == [] {
      assert all == [i] && [i][1..] == [];
    } else {
      assert all[0] == inputs[0] && all[1..] == inputs[1..] + [i];
      AnswersSnoc(inputs[1..], i, bind);
    }
  }
}
