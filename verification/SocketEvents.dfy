/** What each input does to a connecting socket, read off the input itself: which events its client
    gets, whether the socket is closed, which connects are tried, and what happens to the bytes
    queued for writing. */
module SocketEvents {
  import opened Addresses
  import opened Basics
  import opened Lifecycle
  import opened LifecycleRuns
  import W = WriteQueue

  // ---------- the recvs of an event ----------

  /** How the recvs of an event end: for now, with a rehandshake asked for, or for good. */
  datatype ReadEnd = Paused | Asks | Fails

  // Whether a rehandshake is still going on after a call that failed.
  predicate StillShaking(before: bool, r: Rehandshake) {
    match r
    case Untouched => before
    case Waiting(_) => true
    case Finished => false
    case Broken => before
  }

  /** The recvs from number `n` on, up to the first that does not fill the buffer; `shaking` says
      that an SSL read waits for a rehandshake. */
  function EndOfReads(recvs: seq<ReadOutcome>, n: nat, ssl: bool, shaking: bool): ReadEnd
    decreases |recvs| - n
  {
    if n >= |recvs| then Paused
    else match recvs[n]
      case Data(full, _, clears) =>
        if full then EndOfReads(recvs, n + 1, ssl, shaking && !(ssl && clears)) else Paused
      case NoData(again, r) =>
        if ssl && StillShaking(shaking, r) then Asks else if again then Paused else Fails
  }

  /** How many lines they complete. */
  function LinesRead(recvs: seq<ReadOutcome>, n: nat): nat
    decreases |recvs| - n
  {
    if n >= |recvs| || recvs[n].NoData? then 0
    else recvs[n].lines + if recvs[n].full then LinesRead(recvs, n + 1) else 0
  }

  /** What the callbacks for the events from number `from` to `to` send. */
  function Accepted(world: World, from: nat, to: nat): nat
    decreases to
  {
    if to <= from then 0
    else Accepted(world, from, to - 1) + if world.sends(to - 1).Some? then world.sends(to - 1).value else 0
  }

  lemma {:induction false} AcceptedJoined(world: World, a: nat, b: nat, c: nat)
    requires a <= b <= c
    ensures Accepted(world, a, c) == Accepted(world, a, b) + Accepted(world, b, c)
    decreases c
  {
    if b < c {
      AcceptedJoined(world, a, b, c - 1);
    }
  }

  lemma TellOut(s: Sock, e: Event, world: World)
    requires s.alive && !s.shutdown
    ensures var r, n := Tell(s, e, world), |s.trail.events|;
      && r.trail == s.trail.(events := s.trail.events + [e])
      && r.queued == s.queued + Accepted(world, n, n + 1)
      && r.alive && !r.shutdown && r.dead == s.dead
  {
    assert Accepted(world, |s.trail.events|, |s.trail.events|) == 0;
  }

  lemma {:induction false} LinesOut(s: Sock, lines: nat, world: World)
    requires s.alive && !s.shutdown
    ensures var r, n := TellLines(s, lines, world), |s.trail.events|;
      r.queued == s.queued + Accepted(world, n, n + lines)
    decreases lines
  {
    var n := |s.trail.events|;
    if lines == 0 {
      assert Accepted(world, n, n) == 0;
    } else {
      TellOut(s, Recv, world);
      TellFrame(s, Recv, world);
      LinesOut(Tell(s, Recv, world), lines - 1, world);
      AcceptedJoined(world, n, n + 1, n + lines);
    }
  }

  // ---------- the parts of an event of a connected socket ----------

  // What reading changes: events, what the callbacks queue, and how it ends.
  ghost predicate ReadOut(p: Progress, q: Progress, world: World, n: nat) {
    var end := EndOfReads(world.recvs, n, p.s.ssl.on, p.s.ssl.readHs);
    var lines := if world.lineMode then LinesRead(world.recvs, n) else 0;
    && q.s.alive && !q.s.shutdown && q.s.dead == end.Fails?
    && q.s.ssl.on == p.s.ssl.on && q.s.ssl.writeHs == p.s.ssl.writeHs
    && q.rehandshake == (if end.Asks? then 1 else p.rehandshake)
    && q.event == (if end.Fails? then Some(Closed)
                   else if !world.lineMode && n < |world.recvs| && world.recvs[n].Data? then Some(Recv)
                   else p.event)
    && q.s.trail == p.s.trail.(events := p.s.trail.events + Recvs(lines))
    && q.s.queued == p.s.queued + Accepted(world, |p.s.trail.events|, |p.s.trail.events| + lines)
  }

  ghost predicate CanRead(p: Progress, world: World) {
    && p.s.alive && !p.s.shutdown && !p.s.dead && (p.s.ssl.readHs ==> p.s.ssl.on)
    && (p.event == None || (!world.lineMode && p.event == Some(Recv)))
  }

  lemma TakeOut(p: Progress, o: ReadOutcome, world: World)
    requires CanRead(p, world) && o.Data?
    ensures var q := Take(p, o.lines, o.clears, world);
      && CanRead(q, world) && q.rehandshake == p.rehandshake && !q.s.dead
      && q.s.ssl.on == p.s.ssl.on && q.s.ssl.writeHs == p.s.ssl.writeHs
      && q.s.ssl.readHs == (p.s.ssl.readHs && !(p.s.ssl.on && o.clears))
      && q.event == (if world.lineMode then None else Some(Recv))
      && (var n := if world.lineMode then o.lines else 0;
          && q.s.trail == p.s.trail.(events := p.s.trail.events + Recvs(n))
          && q.s.queued == p.s.queued + Accepted(world, |p.s.trail.events|, |p.s.trail.events| + n))
  {
    var t := p.s.(ssl := AfterRead(p.s.ssl, Success(o.clears)));
    TellLinesFrame(t, o.lines, world);
    LinesOut(t, o.lines, world);
    assert p.s.trail.events + Recvs(0) == p.s.trail.events;
  }

  lemma MissOut(p: Progress, again: bool, r: Rehandshake, world: World)
    requires CanRead(p, world)
    ensures var q := Miss(p, again, r);
      var asks := p.s.ssl.on && StillShaking(p.s.ssl.readHs, r);
      && q.s.dead == (!asks && !again) && q.rehandshake == (if asks then 1 else p.rehandshake)
      && q.event == (if !asks && !again then Some(Closed) else p.event)
      && q.s.trail == p.s.trail && q.s.queued == p.s.queued && q.s.alive && !q.s.shutdown
      && q.s.ssl.on == p.s.ssl.on && q.s.ssl.writeHs == p.s.ssl.writeHs
  {
    hide AfterRead;
    AfterReadIs(p.s.ssl, r);
  }

  lemma AfterReadIs(l: Ssl, r: Rehandshake)
    ensures var t := AfterRead(l, r);
      && t.on == l.on && t.writeHs == l.writeHs && t.readHs == (if l.on then StillShaking(l.readHs, r) else l.readHs)
      && (l.on && r.Waiting? ==> t.wantWrite == r.forWrite)
  {
  }

  lemma AfterWriteIs(l: Ssl, r: Rehandshake)
    ensures var t := AfterWrite(l, r);
      && t.on == l.on && t.readHs == l.readHs && t.writeHs == (if l.on then StillShaking(l.writeHs, r) else l.writeHs)
      && (l.on && r.Waiting? ==> t.wantWrite == r.forWrite)
  {
  }

  lemma {:induction false} ReadComesTo(p: Progress, readable: bool, world: World, n: nat)
    requires CanRead(p, world) && ((readable && p.rehandshake == 0) || p.rehandshake == 1)
    ensures ReadOut(p, ReadPart(p, readable, world, n), world, n)
    decreases |world.recvs| - n
  {
    hide Take, Miss, Accepted;
    var e := p.s.trail.events;
    NoneAccepted(world, |e|);
    assert e + Recvs(0) == e;
    if n < |world.recvs| {
      var o := world.recvs[n];
      if o.NoData? {
        MissOut(p, o.again, o.rehandshake, world);
      } else {
        var q := Take(p, o.lines, o.clears, world);
        TakeOut(p, o, world);
        if o.full {
          ReadComesTo(q, readable, world, n + 1);
          var a := if world.lineMode then o.lines else 0;
          var b := if world.lineMode then LinesRead(world.recvs, n + 1) else 0;
          AcceptedJoined(world, |e|, |e| + a, |e| + a + b);
          assert e + Recvs(a) + Recvs(b) == e + Recvs(a + b);
        }
      }
    }
  }

  lemma NoneAccepted(world: World, a: nat)
    ensures Accepted(world, a, a) == 0
  {
  }

  // Whether an event comes to the write, and what that does.
  predicate ToWrite(p: Progress, writable: bool) {
    (writable && p.rehandshake == 0) || p.rehandshake == 2
  }

  predicate WriteFails(ssl: bool, shaking: bool, queued: nat, w: WriteOutcome) {
    (queued > 0 || shaking) && w.Failed? && !w.again && !(ssl && StillShaking(shaking, w.rehandshake))
  }

  function Left(queued: nat, w: WriteOutcome): nat {
    if w.Sent? then queued - Min(w.bytes, queued) else queued
  }

  lemma WrittenQueued(s: Sock)
    ensures Written(s).queued == s.queued
  {
  }

  lemma ButBuffer(s: Sock, r: Sock)
    requires SameButBuffer(s, r)
    ensures r.trail == s.trail && r.alive == s.alive && r.shutdown == s.shutdown && r.dead == s.dead
  {
  }

  lemma TryWriteOut(s: Sock, w: WriteOutcome)
    ensures var r := TryWrite(s, w);
      && r.queued == Left(s.queued, w)
      && r.trail == s.trail && r.alive == s.alive && r.shutdown == s.shutdown && r.dead == s.dead
      && (w.Failed? && (s.queued > 0 || s.ssl.writeHs) ==> r.ssl == AfterWrite(s.ssl, w.rehandshake))
  {
    hide AfterWrite, Written, SameButBuffer;
    TryWriteFrame(s, w);
    ButBuffer(s, TryWrite(s, w));
    if w.Sent? {
      WrittenQueued(s.(ssl := AfterWrite(s.ssl, Success(w.clears)), queued := Left(s.queued, w)));
    }
  }

  ghost predicate WriteOut(p: Progress, q: Progress, writable: bool, world: World) {
    var fails := ToWrite(p, writable) && WriteFails(p.s.ssl.on, p.s.ssl.writeHs, p.s.queued, world.write);
    && q.s.dead == (p.s.dead || fails) && q.event == (if fails then Some(Closed) else p.event)
    && q.s.trail == p.s.trail && q.s.alive == p.s.alive && q.s.shutdown == p.s.shutdown
    && q.s.queued == if ToWrite(p, writable) then Left(p.s.queued, world.write) else p.s.queued
  }

  lemma WriteComesTo(p: Progress, writable: bool, world: World)
    requires p.s.ssl.writeHs ==> p.s.ssl.on
    ensures WriteOut(p, WritePart(p, writable, world), writable, world)
  {
    hide WriteOut, TryWrite, WriteError;
    if !ToWrite(p, writable) {
      NoWrite(p, writable, world);
    } else if WriteError(p.s, world.write) {
      WriteRefused(p, writable, world);
    } else {
      WriteDone(p, writable, world);
    }
  }

  lemma NoWrite(p: Progress, writable: bool, world: World)
    requires !ToWrite(p, writable)
    ensures WriteOut(p, p, writable, world)
  {
  }

  lemma WriteDone(p: Progress, writable: bool, world: World)
    requires ToWrite(p, writable) && !WriteError(p.s, world.write)
    ensures WriteOut(p, p.(s := TryWrite(p.s, world.write)), writable, world)
  {
    hide TryWrite, AfterWrite, StillShaking;
    TryWriteOut(p.s, world.write);
  }

  lemma WriteRefused(p: Progress, writable: bool, world: World)
    requires ToWrite(p, writable) && WriteError(p.s, world.write) && (p.s.ssl.writeHs ==> p.s.ssl.on)
    ensures WriteOut(p, WritePart(p, writable, world), writable, world)
  {
    hide WriteOut, TryWrite, AfterWrite, StillShaking;
    TryWriteOut(p.s, world.write);
    AfterWriteIs(p.s.ssl, world.write.rehandshake);
    RefusedOut(p, TryWrite(p.s, world.write), writable, world);
  }

  lemma RefusedOut(p: Progress, s: Sock, writable: bool, world: World)
    requires ToWrite(p, writable) && WriteError(p.s, world.write)
    requires s.queued == p.s.queued && s.trail == p.s.trail && s.alive == p.s.alive
    requires s.shutdown == p.s.shutdown && s.dead == p.s.dead
    ensures if p.s.ssl.on && StillShaking(p.s.ssl.writeHs, world.write.rehandshake)
            then WriteOut(p, Progress(s, p.event, 1), writable, world)
            else WriteOut(p, Progress(s.(dead := true), Some(Closed), p.rehandshake), writable, world)
  {
    hide StillShaking;
  }

  lemma CloseOut(s: Sock, w: WriteOutcome)
    requires s.alive
    ensures var r := CloseStep(s, w);
      && r.queued == Left(s.queued, w) && !r.alive
      && r.trail.events == s.trail.events && r.trail.attempts == s.trail.attempts
  {
    TryWriteOut(s.(shutdown := true), w);
  }

  lemma FinishOut(s: Sock, event: Option<Event>, world: World)
    requires s.alive && !s.shutdown
    ensures var r, n := Finish(s, event, world), |s.trail.events|;
      var told := s.queued + Accepted(world, n, n + |Shown(event)|);
      && r.trail.events == s.trail.events + Shown(event) && r.trail.attempts == s.trail.attempts
      && r.alive == !s.dead && r.queued == if s.dead then Left(told, world.write) else told
  {
    if event.Some? {
      TellOut(s, event.value, world);
    } else {
      NoneAccepted(world, |s.trail.events|);
      assert s.trail.events + [] == s.trail.events;
    }
    var t := if event.Some? then Tell(s, event.value, world) else s;
    if t.dead {
      CloseOut(t, world.write);
    }
  }

  // ---------- an event of a connected socket ----------

  predicate ReadsNow(s: Sock, readable: bool) {
    s.ssl.readHs || (readable && !s.ssl.writeHs)
  }

  function ReadEndOf(s: Sock, readable: bool, world: World): ReadEnd {
    if ReadsNow(s, readable) then EndOfReads(world.recvs, 0, s.ssl.on, s.ssl.readHs) else Paused
  }

  function LinesOf(s: Sock, readable: bool, world: World): nat {
    if ReadsNow(s, readable) && world.lineMode then LinesRead(world.recvs, 0) else 0
  }

  /** The bytes queued when the event comes to its write. */
  function QueuedByThen(s: Sock, readable: bool, world: World): nat {
    s.queued + Accepted(world, |s.trail.events|, |s.trail.events| + LinesOf(s, readable, world))
  }

  predicate WritesNow(s: Sock, readable: bool, writable: bool, world: World) {
    !s.ssl.readHs && (s.ssl.writeHs || (writable && !ReadEndOf(s, readable, world).Asks?))
  }

  /** The connection ends: a recv or the write failed for good and no rehandshake goes on. */
  predicate Closes(s: Sock, readable: bool, writable: bool, world: World) {
    || ReadEndOf(s, readable, world).Fails?
    || (WritesNow(s, readable, writable, world)
        && WriteFails(s.ssl.on, s.ssl.writeHs, QueuedByThen(s, readable, world), world.write))
  }

  ghost function LastEvent(s: Sock, readable: bool, writable: bool, world: World): Option<Event> {
    if Closes(s, readable, writable, world) then Some(Closed)
    else if ReadsNow(s, readable) && !world.lineMode && world.recvs != [] && world.recvs[0].Data? then Some(Recv)
    else None
  }

  /** What becomes of an input: the events the client gets, whether the socket is closed, the
      connects that are tried, and what happens to its write buffer. */
  datatype Effect = Effect(events: seq<Event>, closed: bool, attempts: seq<bool>, moves: seq<W.Move>)

  function WriteMoves(w: WriteOutcome): seq<W.Move> {
    if w.Sent? then [W.Takes(w.bytes)] else []
  }

  /** The effect of one event with what its callback sends, and of closing the socket after it. */
  function Telling(s: Sock, events: seq<Event>, closed: bool, world: World): Effect {
    var n := |s.trail.events|;
    Effect(events, closed, [],
           [W.Accepts(Accepted(world, n, n + |events|))] + if closed then WriteMoves(world.write) else [])
  }

  ghost function ConnectedEffect(s: Sock, readable: bool, writable: bool, world: World): Effect {
    var n, lines := |s.trail.events|, LinesOf(s, readable, world);
    var last := Shown(LastEvent(s, readable, writable, world));
    var closed := Closes(s, readable, writable, world);
    Effect(Recvs(lines) + last, closed, [],
           [W.Accepts(Accepted(world, n, n + lines))]
           + (if WritesNow(s, readable, writable, world) then WriteMoves(world.write) else [])
           + [W.Accepts(Accepted(world, n + lines, n + lines + |last|))]
           + if closed then WriteMoves(world.write) else [])
  }

  function HandshakeEffect(s: Sock, world: World): Effect {
    match world.handshake
    case Done => Telling(s, [Connected], false, world)
    case Fatal => Telling(s, [NotConnected], true, world)
    case _ => Effect([], false, [], [])
  }

  function ConnectingEffect(s: Sock, readable: bool, world: World): Effect {
    if readable && s.ipv6 && s.reconnect4 then Effect([], false, if world.socketOk then [false] else [], [])
    else if readable then Telling(s, [NotConnected], true, world)
    else if s.ssl.on then HandshakeEffect(s, world)
    else Telling(s, [Connected], false, world)
  }

  function Answer(result: Option<seq<Record>>): seq<Record> {
    if result.Some? then result.value else []
  }

  /** The answer to a lookup; the one that was made besides, if any, is known by `other`. */
  ghost function ResolvedEffect(s: Sock, other: Option<seq<Record>>, result: seq<Record>, world: World): Effect {
    var six := Offers(Some(result), true) && Offers(other, true);
    var four := Offers(Some(result), false) && Offers(other, false);
    if !six && !four then Telling(s, [DnsFailed], true, world)
    else Effect([], false, if world.socketOk then [six] else [], [])
  }

  ghost function EffectOf(s: Sock, i: Input): Effect {
    match i
    case Resolved(bind, result, world) =>
      if (if bind then s.dns.pendingDest else s.dns.pendingBind) then Effect([], false, [], [])
      else
        ResolvedEffect(s, if bind then Results(s.dns.doneDest, s.dns.destLookup)
                          else Results(s.dns.doneBind, s.dns.bindLookup), Answer(result), world)
    case Ready(readable, writable, world) =>
      if s.ssl.handshake then HandshakeEffect(s, world)
      else if s.connecting then ConnectingEffect(s, readable, world)
      else ConnectedEffect(s, readable, writable, world)
    case Send(bytes) => Effect([], false, [], [W.Accepts(bytes)])
    case Close(world) => Effect([], true, [], WriteMoves(world.write))
  }

  /** The length of the write buffer after the moves. */
  function After(n: nat, moves: seq<W.Move>): nat
    decreases |moves|
  {
    if moves == [] then n
    else
      match moves[0]
      case Accepts(k) => After(n + k, moves[1..])
      case Takes(k) => After(n - Min(k, n), moves[1..])
  }

  ghost predicate Shows(s: Sock, r: Sock, e: Effect) {
    && r.trail.events == s.trail.events + e.events && r.alive == !e.closed
    && r.trail.attempts == s.trail.attempts + e.attempts
    && r.queued == After(s.queued, e.moves)
  }

  lemma {:induction false} AfterAppend(n: nat, a: seq<W.Move>, b: seq<W.Move>)
    ensures After(n, a + b) == After(After(n, a), b)
    decreases |a|
  {
    if a == [] {
      assert a + b == b;
    } else {
      assert (a + b)[0] == a[0] && (a + b)[1..] == a[1..] + b;
      match a[0]
      case Accepts(k) => AfterAppend(n + k, a[1..], b);
      case Takes(k) => AfterAppend(n - Min(k, n), a[1..], b);
    }
  }

  lemma AfterNone(n: nat)
    ensures After(n, []) == n
  {
  }

  lemma AfterAccept(n: nat, k: nat)
    ensures After(n, [W.Accepts(k)]) == n + k
  {
  }

  lemma AfterWrites(n: nat, w: WriteOutcome)
    ensures After(n, WriteMoves(w)) == Left(n, w)
  {
  }

  lemma AfterTelling(s: Sock, n: nat, events: seq<Event>, closed: bool, world: World)
    ensures var k := |s.trail.events|;
      var told := s.queued + Accepted(world, k, k + |events|);
      After(s.queued, Telling(s, events, closed, world).moves) == if closed then Left(told, world.write) else told
  {
    var k := |s.trail.events|;
    var a := [W.Accepts(Accepted(world, k, k + |events|))];
    AfterAccept(s.queued, Accepted(world, k, k + |events|));
    AfterWrites(s.queued + Accepted(world, k, k + |events|), world.write);
    AfterAppend(s.queued, a, WriteMoves(world.write));
    assert a + [] == a;
  }

  lemma AfterConnected(s: Sock, readable: bool, writable: bool, world: World)
    ensures var n, lines := |s.trail.events|, LinesOf(s, readable, world);
      var last := Shown(LastEvent(s, readable, writable, world));
      var a := s.queued + Accepted(world, n, n + lines);
      var b := if WritesNow(s, readable, writable, world) then Left(a, world.write) else a;
      var c := b + Accepted(world, n + lines, n + lines + |last|);
      After(s.queued, ConnectedEffect(s, readable, writable, world).moves) ==
        if Closes(s, readable, writable, world) then Left(c, world.write) else c
  {
    hide After, Accepted, LinesOf, LastEvent, WritesNow, Closes, WriteMoves, Left, Shown;
    var n, lines := |s.trail.events|, LinesOf(s, readable, world);
    var last := Shown(LastEvent(s, readable, writable, world));
    var k, l := Accepted(world, n, n + lines), Accepted(world, n + lines, n + lines + |last|);
    var w := if WritesNow(s, readable, writable, world) then WriteMoves(world.write) else [];
    var c := if Closes(s, readable, writable, world) then WriteMoves(world.write) else [];
    AfterAccept(s.queued, k);
    AfterWrites(s.queued + k, world.write);
    AfterAppend(s.queued, [W.Accepts(k)], w);
    AfterNone(s.queued + k);
    var m := After(s.queued + k, w);
    AfterNone(m + l);
    AfterAppend(s.queued, [W.Accepts(k)] + w, [W.Accepts(l)]);
    AfterAccept(m, l);
    AfterAppend(s.queued, [W.Accepts(k)] + w + [W.Accepts(l)], c);
    AfterWrites(m + l, world.write);
  }

  lemma ConnectedShows(s: Sock, readable: bool, writable: bool, world: World)
    requires Inv(s) && s.alive && s.active && !s.connecting && !s.ssl.handshake
    ensures Shows(s, ConnectedStep(s, readable, writable, world), ConnectedEffect(s, readable, writable, world))
  {
    hide ConnectedStep, Inv, After, Accepted, WriteFails, EndOfReads, LinesRead, Left, LastEvent, WritesNow, Closes;
    ConnectedComesTo(s, readable, writable, world);
    AfterConnected(s, readable, writable, world);
    assert s.trail.attempts + [] == s.trail.attempts;
  }

  lemma ConnectedComesTo(s: Sock, readable: bool, writable: bool, world: World)
    requires Inv(s) && s.alive && s.active && !s.connecting && !s.ssl.handshake
    ensures var r, closes := ConnectedStep(s, readable, writable, world), Closes(s, readable, writable, world);
      var n, lines := |s.trail.events|, LinesOf(s, readable, world);
      var last := Shown(LastEvent(s, readable, writable, world));
      var a := s.queued + Accepted(world, n, n + lines);
      var b := if WritesNow(s, readable, writable, world) then Left(a, world.write) else a;
      var c := b + Accepted(world, n + lines, n + lines + |last|);
      && r.trail.events == s.trail.events + (Recvs(lines) + last) && r.trail.attempts == s.trail.attempts
      && r.alive == !closes && r.queued == if closes then Left(c, world.write) else c
  {
    hide ReadPart, WritePart, Finish, Update, Inv, Accepted, WriteFails, EndOfReads, LinesRead, LinesOf, Left;
    var p := Progress(s, None, if s.ssl.on && s.ssl.readHs then 1 else if s.ssl.on && s.ssl.writeHs then 2 else 0);
    var q := ReadPart(p, readable, world, 0);
    ReadsComeTo(s, p, readable, world);
    var w := WritePart(q, writable, world);
    WriteComesTo(q, writable, world);
    UpdateFrame(w.s);
    FinishOut(if w.rehandshake != 0 then Update(w.s) else w.s, w.event, world);
    assert WritesNow(s, readable, writable, world) == ToWrite(q, writable);
    assert w.event == LastEvent(s, readable, writable, world);
    assert s.trail.events + Recvs(LinesOf(s, readable, world)) + Shown(w.event)
        == s.trail.events + (Recvs(LinesOf(s, readable, world)) + Shown(w.event));
  }

  // The read part, made or not.
  lemma ReadsComeTo(s: Sock, p: Progress, readable: bool, world: World)
    requires Inv(s) && s.alive && s.active && !s.connecting && !s.ssl.handshake
    requires p == Progress(s, None, if s.ssl.on && s.ssl.readHs then 1 else if s.ssl.on && s.ssl.writeHs then 2 else 0)
    ensures var q, end := ReadPart(p, readable, world, 0), ReadEndOf(s, readable, world);
      var lines := LinesOf(s, readable, world);
      && q.s.alive && !q.s.shutdown && q.s.dead == end.Fails?
      && q.s.ssl.on == s.ssl.on && q.s.ssl.writeHs == s.ssl.writeHs
      && (s.ssl.readHs || s.ssl.writeHs ==> s.ssl.on)
      && q.rehandshake == (if end.Asks? then 1 else p.rehandshake)
      && q.event == (if end.Fails? then Some(Closed)
                     else if ReadsNow(s, readable) && !world.lineMode && world.recvs != [] && world.recvs[0].Data?
                     then Some(Recv) else None)
      && q.s.trail == s.trail.(events := s.trail.events + Recvs(lines))
      && q.s.queued == QueuedByThen(s, readable, world)
  {
    var e := s.trail.events;
    if ReadsNow(s, readable) {
      ReadComesTo(p, readable, world, 0);
    } else {
      NoneAccepted(world, |e|);
      assert e + Recvs(0) == e;
    }
  }

  // ---------- every input ----------

  lemma TellingShows(s: Sock, r: Sock, t: Sock, event: Event, closed: bool, world: World)
    requires t.alive && !t.shutdown && t.dead == closed && t.trail == s.trail && t.queued == s.queued
    requires r == Finish(t, Some(event), world)
    ensures Shows(s, r, Telling(s, [event], closed, world))
  {
    hide Finish, After;
    FinishOut(t, Some(event), world);
    AfterTelling(s, s.queued, [event], closed, world);
  }

  lemma NothingShows(s: Sock, r: Sock, attempts: seq<bool>)
    requires r.alive && r.queued == s.queued
    requires r.trail.events == s.trail.events && r.trail.attempts == s.trail.attempts + attempts
    ensures Shows(s, r, Effect([], false, attempts, []))
  {
  }

  lemma HandshakeShows(s: Sock, t: Sock, world: World)
    requires t.alive && !t.shutdown && !t.dead && t.trail == s.trail && t.queued == s.queued && t.ssl.handshake
    requires !t.ssl.established
    ensures Shows(s, Update(ClientHandshake(t, world)), HandshakeEffect(s, world))
  {
    hide Finish, Shows, Telling, Update;
    var u := t.(ssl := t.ssl.(wantWrite := world.handshake.WantWrite?, established := world.handshake.Done?));
    match world.handshake
    case Done =>
      var v := Update(u.(ssl := u.ssl.(handshake := false)));
      UpdateFrame(u.(ssl := u.ssl.(handshake := false)));
      TellingShows(s, Finish(v, Some(Connected), world), v, Connected, false, world);
      UpdateShows(s, Finish(v, Some(Connected), world), HandshakeEffect(s, world));
    case Fatal =>
      var v := u.(dead := true);
      TellingShows(s, Finish(v, Some(NotConnected), world), v, NotConnected, true, world);
      UpdateShows(s, Finish(v, Some(NotConnected), world), HandshakeEffect(s, world));
    case _ =>
      assert s.trail.attempts + [] == s.trail.attempts;
      UpdateFrame(u);
      NothingShows(s, Update(u), []);
  }

  lemma UpdateShows(s: Sock, r: Sock, e: Effect)
    requires Shows(s, r, e)
    ensures Shows(s, Update(r), e)
  {
  }

  lemma UpdateFrame(s: Sock)
    ensures var r := Update(s);
      && r.alive == s.alive && r.shutdown == s.shutdown && r.dead == s.dead
      && r.trail == s.trail && r.queued == s.queued
  {
  }

  lemma Serving(s: Sock)
    requires Inv(s) && s.alive
    ensures !s.dead && !s.shutdown && (s.connecting || s.ssl.handshake ==> !s.ssl.established)
    ensures s.active <==> s.registered.Some?
  {
  }

  lemma ConnectingShows(s: Sock, readable: bool, writable: bool, world: World)
    requires Inv(s) && s.alive && s.active && s.connecting && (readable || writable)
    ensures Shows(s, ConnectingStep(s, readable, writable, world), ConnectingEffect(s, readable, world))
  {
    hide Shows, Finish, Telling, ClientHandshake, Update, Inv;
    Serving(s);
    if readable && s.ipv6 && s.reconnect4 {
      FallbackShows(s, world);
    } else if readable {
      TellingShows(s, ConnectingStep(s, readable, writable, world), s.(dead := true), NotConnected, true, world);
    } else {
      var t := LookupClear(s.(connecting := false));
      if s.ssl.on {
        HandshakeShows(s, t.(ssl := t.ssl.(handshake := true)), world);
      } else {
        UpdateFrame(t);
        TellingShows(s, ConnectingStep(s, readable, writable, world), Update(t), Connected, false, world);
      }
    }
  }

  lemma FallbackShows(s: Sock, world: World)
    requires Inv(s) && s.alive && s.active && s.connecting && s.ipv6 && s.reconnect4
    ensures ConnectingStep(s, true, true, world) == ConnectingStep(s, true, false, world)
    ensures Shows(s, ConnectingStep(s, true, false, world),
                  Effect([], false, if world.socketOk then [false] else [], []))
  {
    var t := Deactivate(s);
    ApplyFrame(t, true, world);
    var r := LookupApply(t, true, world).0;
    assert !s.dead && r.trail == s.trail && r.queued == s.queued && !r.ipv6;
    NothingShows(s, ConnectingStep(s, true, false, world), if world.socketOk then [false] else []);
  }

  lemma FamilyOffers(d: Dns, bind: bool, result: seq<Record>)
    requires if bind then d.doneBind && d.bindLookup == Some(result) else d.doneDest && d.destLookup == Some(result)
    ensures var other := if bind then Results(d.doneDest, d.destLookup) else Results(d.doneBind, d.bindLookup);
      var six := Offers(Some(result), true) && Offers(other, true);
      var four := Offers(Some(result), false) && Offers(other, false);
      Family(d, false) == if six || four then Some(six) else None
  {
    var other := if bind then Results(d.doneDest, d.destLookup) else Results(d.doneBind, d.bindLookup);
    FamilyIs(d, false);
    HasMeans(Some(result), true);
    HasMeans(Some(result), false);
    HasMeans(other, true);
    HasMeans(other, false);
  }

  lemma DnsFailedShows(s: Sock, t: Sock, world: World)
    requires t.alive && !t.shutdown && t.trail == s.trail && t.queued == s.queued
    ensures Shows(s, CloseStep(Tell(t, DnsFailed, world), world.write), Telling(s, [DnsFailed], true, world))
  {
    hide Tell, CloseStep, After;
    TellOut(t, DnsFailed, world);
    CloseOut(Tell(t, DnsFailed, world), world.write);
    AfterTelling(s, s.queued, [DnsFailed], true, world);
    assert s.trail.attempts + [] == s.trail.attempts;
  }

  lemma ResolvedShows(s: Sock, bind: bool, result: Option<seq<Record>>, world: World)
    requires Inv(s) && s.alive && if bind then s.dns.pendingBind else s.dns.pendingDest
    ensures Shows(s, ResolvedStep(s, bind, result, world), EffectOf(s, Resolved(bind, result, world)))
  {
    hide Shows, Family, Offers, Telling, Finish;
    var t := s.(dns := Store(s.dns, bind, result));
    if Pending(t) {
      assert s.trail.attempts + [] == s.trail.attempts;
      NothingShows(s, t, []);
    } else {
      FamilyOffers(t.dns, bind, Answer(result));
      if Family(t.dns, false).None? {
        var u := t.(dns := t.dns.(error := true));
        DnsFailedShows(s, u, world);
      } else {
        ApplyFrame(t, false, world);
        var r := LookupApply(t, false, world).0;
        assert r.trail == s.trail && r.queued == s.queued && r.alive;
        NothingShows(s, ResolvedStep(s, bind, result, world), if world.socketOk then [r.ipv6] else []);
      }
    }
  }

  /** The effect of every input that can occur, read off the input and the socket before it. */
  lemma StepShows(s: Sock, i: Input)
    requires Inv(s) && s.alive && Enabled(s, i)
    ensures Shows(s, Step(s, i), EffectOf(s, i))
  {
    hide Shows, Inv, ConnectedEffect, ConnectingEffect, HandshakeEffect;
    Serving(s);
    match i
    case Resolved(bind, result, world) => ResolvedShows(s, bind, result, world);
    case Ready(readable, writable, world) =>
      if s.ssl.handshake {
        HandshakingShows(s, world);
      } else if s.connecting {
        ConnectingShows(s, readable, writable, world);
      } else {
        ConnectedShows(s, readable, writable, world);
      }
    case Send(bytes) => SendShows(s, bytes);
    case Close(world) => CloseShows(s, world);
  }

  lemma HandshakingShows(s: Sock, world: World)
    requires Inv(s) && s.alive && s.active && s.ssl.handshake
    ensures Shows(s, Finish(Update(ClientHandshake(s, world)), None, world), HandshakeEffect(s, world))
  {
    HandshakeShows(s, s, world);
    UpdateKeeps(s, world);
    HandshakeKeeps(s, world);
    UpdateKeeps(Update(ClientHandshake(s, world)), world);
  }

  lemma SendShows(s: Sock, bytes: nat)
    requires Inv(s) && s.alive
    ensures Shows(s, SendStep(s, bytes), Effect([], false, [], [W.Accepts(bytes)]))
  {
    AfterAccept(s.queued, bytes);
  }

  lemma CloseShows(s: Sock, world: World)
    requires s.alive
    ensures Shows(s, CloseStep(s, world.write), Effect([], true, [], WriteMoves(world.write)))
  {
    CloseOut(s, world.write);
    AfterWrites(s.queued, world.write);
    assert s.trail.events + [] == s.trail.events && s.trail.attempts + [] == s.trail.attempts;
  }

  // ---------- rehandshakes ----------

  // The write that asks for a rehandshake and reports EAGAIN.
  predicate AsksToRehandshake(w: WriteOutcome) {
    w.Failed? && w.again && w.rehandshake.Waiting?
  }

  // The callback for the last event of `p`, if there is one, sends something.
  predicate SendsLast(p: Progress, world: World) {
    p.event.Some? && world.sends(|p.s.trail.events|).Some?
  }

  /** It is told after the write of what was read, and sends more. */
  predicate SendsAfter(s: Sock, readable: bool, world: World) {
    readable && !world.lineMode && |world.recvs| > 0 && world.recvs[0].Data? && world.sends(|s.trail.events|).Some?
  }

  /** For a connected SSL socket outside a rehandshake the agreement survives an event if and only
      if no write asks for a rehandshake at its end: line 867 turns the error of such a write into
      0, and the engine is not told, unless the client sends once more. The write is made if the
      socket is writable, bytes are queued by then, and no read asked for a rehandshake. */
  lemma SslInterestIff(s: Sock, readable: bool, writable: bool, world: World)
    requires Inv(s) && s.alive && s.active && s.ssl.on && !s.connecting && !s.ssl.handshake
    requires !s.ssl.readHs && !s.ssl.writeHs
    requires ConnectedStep(s, readable, writable, world).alive
    ensures Agrees(ConnectedStep(s, readable, writable, world)) <==>
      !(writable && QueuedByThen(s, readable, world) > 0 && !ReadEndOf(s, readable, world).Asks?
        && AsksToRehandshake(world.write) && !SendsAfter(s, readable, world))
  {
    SslInterestAt(s, readable, writable, world);
    ReadsComeTo(s, Progress(s, None, 0), readable, world);
    ReadAlive(s, readable, writable, world);
  }

  // An event that leaves its socket alive did not find it dead while reading.
  lemma ReadAlive(s: Sock, readable: bool, writable: bool, world: World)
    requires Inv(s) && s.alive && s.active && s.ssl.on && !s.connecting && !s.ssl.handshake
    requires !s.ssl.readHs && !s.ssl.writeHs && ConnectedStep(s, readable, writable, world).alive
    ensures !ReadPart(Progress(s, None, 0), readable, world, 0).s.dead
  {
    var p := ReadPart(Progress(s, None, 0), readable, world, 0);
    ReadKeeps(Progress(s, None, 0), readable, world, 0);
    WriteKeeps(p, writable, world);
    EndKeeps(WritePart(p, writable, world), world);
    TryWriteFrame(p.s, world.write);
  }

  lemma SslInterestAt(s: Sock, readable: bool, writable: bool, world: World)
    requires Inv(s) && s.alive && s.active && s.ssl.on && !s.connecting && !s.ssl.handshake
    requires !s.ssl.readHs && !s.ssl.writeHs
    requires ConnectedStep(s, readable, writable, world).alive
    ensures var p := ReadPart(Progress(s, None, 0), readable, world, 0);
      Agrees(ConnectedStep(s, readable, writable, world)) <==>
        !(writable && p.rehandshake == 0 && p.s.queued > 0
          && AsksToRehandshake(world.write) && !SendsLast(p, world))
  {
    var p := ReadPart(Progress(s, None, 0), readable, world, 0);
    ReadKeeps(Progress(s, None, 0), readable, world, 0);
    WriteKeeps(p, writable, world);
    var q := WritePart(p, writable, world);
    EndKeeps(q, world);
    WriteAgreesIff(p, writable, world);
    if q.rehandshake == 0 && !Agrees(q.s) {
      LastSend(q, world);
    }
  }

  lemma WriteAgreesIff(p: Progress, writable: bool, world: World)
    requires Reading(p) && p.s.ssl.on
    ensures var q := WritePart(p, writable, world);
      && q.s.trail == p.s.trail && (!q.s.dead ==> q.event == p.event)
      && (q.rehandshake != 0 || Agrees(q.s) <==>
            !(writable && p.rehandshake == 0 && p.s.queued > 0 && AsksToRehandshake(world.write)))
  {
    TryWriteFrame(p.s, world.write);
    if writable && p.rehandshake == 0 && p.s.queued > 0 {
      TryWriteInterest(p.s, world.write);
    }
  }

  // A live socket that disagrees is put right by its callback exactly if that sends.
  lemma LastSend(q: Progress, world: World)
    requires Working(q) && !q.s.dead && q.rehandshake == 0 && !Agrees(q.s)
    ensures Agrees(Finish(q.s, q.event, world)) <==> SendsLast(q, world)
  {
  }

  /** Whether an SSL read waits for a rehandshake after the recvs from number `n` on. */
  function ShakingAfter(recvs: seq<ReadOutcome>, n: nat, ssl: bool, shaking: bool): bool
    decreases |recvs| - n
  {
    if n >= |recvs| then shaking
    else match recvs[n]
      case Data(full, _, clears) =>
        var still := shaking && !(ssl && clears);
        if full then ShakingAfter(recvs, n + 1, ssl, still) else still
      case NoData(_, r) => if ssl then StillShaking(shaking, r) else shaking
  }

  /** The direction the last of them waits for, if it asks for a rehandshake. */
  function AskedByRead(recvs: seq<ReadOutcome>, n: nat): Option<bool>
    decreases |recvs| - n
  {
    if n >= |recvs| then None
    else match recvs[n]
      case Data(full, _, _) => if full then AskedByRead(recvs, n + 1) else None
      case NoData(_, r) => if r.Waiting? then Some(r.forWrite) else None
  }

  /** The same of the write. */
  function ShakingWrite(w: WriteOutcome, ssl: bool, shaking: bool): bool {
    if !ssl then shaking else if w.Sent? then shaking && !w.clears else StillShaking(shaking, w.rehandshake)
  }

  lemma TakeFlags(p: Progress, o: ReadOutcome, world: World)
    requires o.Data?
    ensures var l, q := p.s.ssl, Take(p, o.lines, o.clears, world);
      && q.rehandshake == p.rehandshake && q.s.ssl.on == l.on && q.s.ssl.writeHs == l.writeHs
      && q.s.ssl.readHs == (l.readHs && !(l.on && o.clears))
  {
    hide AfterRead;
    AfterReadIs(p.s.ssl, Success(o.clears));
    TellLinesFrame(p.s.(ssl := AfterRead(p.s.ssl, Success(o.clears))), o.lines, world);
  }

  lemma MissFlags(p: Progress, again: bool, r: Rehandshake)
    ensures Miss(p, again, r).s.ssl == AfterRead(p.s.ssl, r)
  {
    hide AfterRead;
  }

  lemma {:induction false} ReadFlags(p: Progress, readable: bool, world: World, n: nat)
    requires (readable && p.rehandshake == 0) || p.rehandshake == 1
    ensures var l, r := p.s.ssl, ReadPart(p, readable, world, n).s.ssl;
      && r.on == l.on && r.writeHs == l.writeHs
      && r.readHs == ShakingAfter(world.recvs, n, l.on, l.readHs)
      && (l.on && AskedByRead(world.recvs, n).Some? ==> r.wantWrite == AskedByRead(world.recvs, n).value)
    decreases |world.recvs| - n
  {
    hide Take, Miss, AfterRead, StillShaking;
    if n < |world.recvs| {
      var o := world.recvs[n];
      if o.NoData? {
        MissFlags(p, o.again, o.rehandshake);
        AfterReadIs(p.s.ssl, o.rehandshake);
      } else {
        TakeFlags(p, o, world);
        if o.full {
          ReadFlags(Take(p, o.lines, o.clears, world), readable, world, n + 1);
        }
      }
    }
  }

  lemma WrittenSsl(s: Sock)
    ensures Written(s).ssl == s.ssl
  {
  }

  lemma WriteFlags(s: Sock, w: WriteOutcome)
    requires s.queued > 0 || s.ssl.writeHs
    ensures var l, r := s.ssl, TryWrite(s, w).ssl;
      && r.on == l.on && r.readHs == l.readHs && r.writeHs == ShakingWrite(w, l.on, l.writeHs)
      && (l.on && w.Failed? && w.rehandshake.Waiting? ==> r.wantWrite == w.rehandshake.forWrite)
  {
    hide AfterWrite, Written;
    if w.Failed? {
      AfterWriteIs(s.ssl, w.rehandshake);
    } else {
      AfterWriteIs(s.ssl, Success(w.clears));
      WrittenSsl(s.(ssl := AfterWrite(s.ssl, Success(w.clears)), queued := Left(s.queued, w)));
    }
  }

  /** Whether the write that an event comes to is made. */
  predicate Writes(s: Sock, readable: bool, writable: bool, world: World) {
    WritesNow(s, readable, writable, world) && (QueuedByThen(s, readable, world) > 0 || s.ssl.writeHs)
  }

  /** The rehandshake flags after an event that leaves the socket open; and if a recv, or the write
      of a socket that is put right, asks for a direction, it is the one the engine waits for. */
  lemma RehandshakeFlags(s: Sock, readable: bool, writable: bool, world: World)
    requires Inv(s) && s.alive && s.active && !s.connecting && !s.ssl.handshake
    requires !Closes(s, readable, writable, world)
    ensures var r, w := ConnectedStep(s, readable, writable, world), world.write;
      var reading, writing := ReadsNow(s, readable), Writes(s, readable, writable, world);
      var asked := AskedByRead(world.recvs, 0);
      && r.ssl.readHs == (if reading then ShakingAfter(world.recvs, 0, s.ssl.on, s.ssl.readHs) else s.ssl.readHs)
      && r.ssl.writeHs == (if writing then ShakingWrite(w, s.ssl.on, s.ssl.writeHs) else s.ssl.writeHs)
      && (reading && s.ssl.on && asked.Some? ==> r.registered == Some((!asked.value, asked.value)))
      && (writing && s.ssl.on && w.Failed? && w.rehandshake.Waiting? && (!w.again || s.ssl.writeHs) ==>
            r.registered == Some((!w.rehandshake.forWrite, w.rehandshake.forWrite)))
  {
    hide ReadPart, WritePart, Finish, TryWrite, Accepted, EndOfReads, LinesRead;
    hide AskedByRead, ShakingAfter, ShakingWrite;
    var p := Progress(s, None, if s.ssl.on && s.ssl.readHs then 1 else if s.ssl.on && s.ssl.writeHs then 2 else 0);
    var q := ReadPart(p, readable, world, 0);
    ReadsComeTo(s, p, readable, world);
    ReadKeeps(p, readable, world, 0);
    if ReadsNow(s, readable) {
      ReadFlags(p, readable, world, 0);
      AskedEnds(world.recvs, 0, s.ssl.on, s.ssl.readHs);
    } else {
      NoReads(p, readable, world);
    }
    WriteKeeps(q, writable, world);
    WriteSsl(q, writable, world);
    var w := WritePart(q, writable, world);
    EndKeeps(w, world);
    ConnectedShows(s, readable, writable, world);
    FinishSsl(w, world);
  }

  lemma {:induction false} AskedEnds(recvs: seq<ReadOutcome>, n: nat, ssl: bool, shaking: bool)
    ensures ssl && AskedByRead(recvs, n).Some? ==>
      EndOfReads(recvs, n, ssl, shaking).Asks? && ShakingAfter(recvs, n, ssl, shaking)
    decreases |recvs| - n
  {
    if n < |recvs| && recvs[n].Data? && recvs[n].full {
      AskedEnds(recvs, n + 1, ssl, shaking && !(ssl && recvs[n].clears));
    }
  }

  lemma NoReads(p: Progress, readable: bool, world: World)
    requires !((readable && p.rehandshake == 0) || p.rehandshake == 1)
    ensures ReadPart(p, readable, world, 0) == p
  {
  }

  // What the write part does to the SSL flags.
  lemma WriteSsl(p: Progress, writable: bool, world: World)
    ensures var q := WritePart(p, writable, world);
      && q.s.ssl == (if ToWrite(p, writable) then TryWrite(p.s, world.write).ssl else p.s.ssl)
      && (p.rehandshake != 0 ==> q.rehandshake != 0)
      && (p.s.queued == 0 && !p.s.ssl.writeHs ==> TryWrite(p.s, world.write) == p.s)
      && (p.s.queued > 0 || p.s.ssl.writeHs ==>
            var l, r := p.s.ssl, TryWrite(p.s, world.write).ssl;
            && r.on == l.on && r.readHs == l.readHs && r.writeHs == ShakingWrite(world.write, l.on, l.writeHs)
            && (l.on && world.write.Failed? && world.write.rehandshake.Waiting? ==>
                  && r.wantWrite == world.write.rehandshake.forWrite && r.writeHs
                  && (ToWrite(p, writable) && !world.write.again ==> q.rehandshake != 0)))
  {
    hide TryWrite;
    NoTryWrite(p.s, world.write);
    if p.s.queued > 0 || p.s.ssl.writeHs {
      WriteFlags(p.s, world.write);
    }
  }

  lemma NoTryWrite(s: Sock, w: WriteOutcome)
    ensures s.queued == 0 && !s.ssl.writeHs ==> TryWrite(s, w) == s
  {
  }

  lemma FinishSsl(q: Progress, world: World)
    requires !q.s.dead
    ensures var r := Finish(if q.rehandshake != 0 then Update(q.s) else q.s, q.event, world);
      r.ssl == q.s.ssl && r.active == q.s.active
  {
    var t := if q.rehandshake != 0 then Update(q.s) else q.s;
    if q.event.Some? {
      TellFrame(t, q.event.value, world);
    }
  }

  // ---------- every run ----------

  /** An answer to a lookup that is pending, an event of a socket the engine was given, or a call of
      the client, who closes no socket that still looks something up. */
  predicate Occurs(s: Sock, i: Input) {
    s.alive && match i
      case Resolved(bind, _, _) => if bind then s.dns.pendingBind else s.dns.pendingDest
      case Ready(readable, writable, _) => s.active && (readable || writable)
      case Send(_) => true
      case Close(_) => !s.dns.pendingBind && !s.dns.pendingDest
  }

  /** In every run each input that can occur has the effect read off it. All others change nothing,
      and nothing changes a socket that is gone. */
  lemma EveryInput(bindHost: Option<Option<Record>>, dest: Option<Record>, ssl: bool, world: World,
                   inputs: seq<Input>, i: Input)
    ensures var s := Run(Start(bindHost, dest, ssl, world), inputs);
      if Occurs(s, i) then Shows(s, Step(s, i), EffectOf(s, i)) else Step(s, i) == s
  {
    var s := Run(Start(bindHost, dest, ssl, world), inputs);
    StartKeeps(bindHost, dest, ssl, world);
    RunKeeps(Start(bindHost, dest, ssl, world), inputs);
    if s.alive && Enabled(s, i) {
      StepShows(s, i);
    }
  }

  /** What a run does to the write buffer: the client's sends, those of its callbacks, and what the
      writes take. */
  ghost function RunMoves(s: Sock, inputs: seq<Input>): seq<W.Move>
    decreases |inputs|
  {
    if inputs == [] then []
    else
      (if s.alive && Enabled(s, inputs[0]) then EffectOf(s, inputs[0]).moves else [])
      + RunMoves(Step(s, inputs[0]), inputs[1..])
  }

  lemma {:induction false} RunQueued(s: Sock, inputs: seq<Input>)
    requires Inv(s)
    ensures Run(s, inputs).queued == After(s.queued, RunMoves(s, inputs))
    decreases |inputs|
  {
    hide Inv, Shows, EffectOf, Enabled;
    if inputs != [] {
      var i := inputs[0];
      StepQueued(s, i);
      StepKeeps(s, i);
      RunQueued(Step(s, i), inputs[1..]);
      var moves := if s.alive && Enabled(s, i) then EffectOf(s, i).moves else [];
      AfterAppend(s.queued, moves, RunMoves(Step(s, i), inputs[1..]));
    }
  }

  lemma StepQueued(s: Sock, i: Input)
    requires Inv(s)
    ensures Step(s, i).queued == After(s.queued, if s.alive && Enabled(s, i) then EffectOf(s, i).moves else [])
  {
    hide EffectOf;
    if s.alive && Enabled(s, i) {
      StepShows(s, i);
    }
  }

  lemma {:induction false} LevelIsAfter(moves: seq<W.Move>)
    ensures W.Level(moves) == After(0, moves)
  {
    if moves != [] {
      var before, last := moves[..|moves| - 1], [moves[|moves| - 1]];
      assert before + last == moves;
      LevelIsAfter(before);
      AfterAppend(0, before, last);
    }
  }

  /** In every run the bytes queued are those that were accepted and that no write took: whatever
      bytes the client sends, the repaired write buffer holds as many, and with what was handed over
      they make up the accepted stream. */
  lemma QueueIsLevel(bindHost: Option<Option<Record>>, dest: Option<Record>, ssl: bool, world: World,
                     inputs: seq<Input>, stream: nat -> int)
    ensures var s := Start(bindHost, dest, ssl, world);
      var moves := RunMoves(s, inputs);
      var q := W.Run(moves, stream, true);
      && Run(s, inputs).queued == W.Level(moves) == |q.buffered|
      && q.sent + q.buffered == q.accepted
  {
    var s := Start(bindHost, dest, ssl, world);
    StartKeeps(bindHost, dest, ssl, world);
    RunQueued(s, inputs);
    LevelIsAfter(RunMoves(s, inputs));
    W.Conserves(RunMoves(s, inputs), stream, true);
    W.RepairedInOrder(RunMoves(s, inputs), stream);
  }
}
