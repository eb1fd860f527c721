/** The query list of the default DNS engine on values: claiming, resolving, completing or
    dropping, with aborts made by the callback of a delivered query or, where the resolution does
    not block, arriving meanwhile. */
module DnsQueue {
  import opened Basics

  /** struct _IODNSQuery; `id` tells queries apart. */
  datatype Query = Query(id: nat, running: bool, processing: bool, results: seq<nat>)

  /** What becomes of a query: its client gets the results, they are freed with it, or an abort
      frees it before it was claimed. */
  datatype Outcome =
    | Delivered(id: nat, success: bool, results: seq<nat>)
    | Dropped(id: nat, results: seq<nat>)
    | Freed(id: nat)

  /** `handles` are the queries whose descriptor still points at them: a delivery clears the
      pointer, an abort does not. The lookups of sockets have no descriptor. `fault` says that freed
      memory was used. */
  datatype State = State(list: seq<Query>, log: seq<Outcome>, handles: set<nat>, fault: bool)

  /** What the resolver finds for a claimed query, which queries are aborted meanwhile, and which
      ones the callback aborts if the query is delivered. */
  datatype Resolution = Resolution(found: seq<nat>, aborts: seq<nat>, callback: seq<nat>)

  predicate Pending(q: Query) {
    q.running && !q.processing
  }

  ghost predicate Distinct(l: seq<Query>) {
    forall i, j :: 0 <= i < j < |l| ==> l[i].id != l[j].id
  }

  /** The position of a query, or the length if it is not there. */
  function Find(l: seq<Query>, id: nat): (k: nat)
    ensures k <= |l| && (k < |l| ==> l[k].id == id)
    ensures forall i :: 0 <= i < k ==> l[i].id != id
  {
    if l == [] || l[0].id == id then 0 else 1 + Find(l[1..], id)
  }

  function FirstPending(l: seq<Query>): (k: nat)
    ensures k <= |l| && (k < |l| ==> Pending(l[k]))
    ensures forall i :: 0 <= i < k ==> !Pending(l[i])
  {
    if l == [] || Pending(l[0]) then 0 else 1 + FirstPending(l[1..])
  }

  /** _stop_dnsquery of the query at position `k` */
  ghost function Stop(s: State, k: nat): State
    requires k < |s.list|
  {
    if s.list[k].processing then s.(list := s.list[k := s.list[k].(running := false)])
    else s.(list := Cut(s.list, k), log := s.log + [Freed(s.list[k].id)])
  }

  /** iodns_abort. A descriptor whose query was freed under it still points
      there. */
  ghost function Abort(s: State, id: nat): State {
    var k := Find(s.list, id);
    if s.fault || id !in s.handles then s
    else if k == |s.list| then s.(fault := true)
    else Stop(s, k)
  }

  ghost function Aborts(s: State, ids: seq<nat>): State
    decreases |ids|
  {
    if ids == [] then s else Aborts(Abort(s, ids[0]), ids[1..])
  }

  function Claim(s: State, k: nat): State
    requires k < |s.list|
  {
    s.(list := s.list[k := s.list[k].(processing := true)])
  }

  /** The end of a resolution: a query that was stopped is dropped, another one is delivered by
      iodns_event_callback, which frees it. */
  ghost function Complete(s: State, id: nat, found: seq<nat>): State {
    var k := Find(s.list, id);
    if s.fault || k == |s.list| then s
    else
      var results := Reverse(found) + s.list[k].results;
      if s.list[k].running
      then s.(list := Cut(s.list, k), log := s.log + [Delivered(id, found != [], results)],
              handles := s.handles - {id})
      else s.(list := Cut(s.list, k), log := s.log + [Dropped(id, results)])
  }

  /** The first pending query is claimed, resolved and completed. */
  ghost function Resolve(s: State, r: Resolution): State
    requires FirstPending(s.list) < |s.list|
  {
    var k := FirstPending(s.list);
    Complete(Aborts(Claim(s, k), r.aborts), s.list[k].id, r.found)
  }

  /** Whether the completion of `id` in `s` is a delivery. */
  predicate Delivers(s: State, id: nat) {
    var k := Find(s.list, id);
    !s.fault && k < |s.list| && s.list[k].running
  }

  lemma CompleteFaulted(s: State, id: nat, found: seq<nat>)
    ensures s.fault ==> Complete(s, id, found) == s && !Delivers(s, id)
  {
  }

  /** One turn: a delivery calls the client, who may abort other queries. */
  ghost function Turn(s: State, r: Resolution): State
    requires FirstPending(s.list) < |s.list|
  {
    var k := FirstPending(s.list);
    if Delivers(Aborts(Claim(s, k), r.aborts), s.list[k].id) then Aborts(Resolve(s, r), r.callback) else Resolve(s, r)
  }

  /** How many queries are running and not being processed: what ends the restart loop. */
  function Backlog(l: seq<Query>): nat {
    if l == [] then 0 else (if Pending(l[0]) then 1 else 0) + Backlog(l[1..])
  }

  ghost function Ids(l: seq<Query>): set<nat> {
    set q | q in l :: q.id
  }

  ghost function Busy(l: seq<Query>): set<nat> {
    set q | q in l && q.processing :: q.id
  }

  /** The descriptors that point at freed memory. */
  ghost function Dangling(s: State): set<nat> {
    s.handles - Ids(s.list)
  }

  // ---------- one turn ----------

  function Weight(q: Query): nat {
    if Pending(q) then 1 else 0
  }

  lemma {:induction false} BacklogWithout(l: seq<Query>, k: nat)
    requires k < |l|
    ensures Backlog(Cut(l, k)) == Backlog(l) - Weight(l[k])
  {
    if k == 0 {
      assert Cut(l, 0) == l[1..];
    } else {
      BacklogWithout(l[1..], k - 1);
      assert Cut(l, k)[1..] == Cut(l[1..], k - 1) && Cut(l, k)[0] == l[0];
    }
  }

  lemma {:induction false} BacklogUpdate(l: seq<Query>, k: nat, q: Query)
    requires k < |l|
    ensures Backlog(l[k := q]) == Backlog(l) - Weight(l[k]) + Weight(q)
  {
    if k == 0 {
      assert l[0 := q][1..] == l[1..];
    } else {
      BacklogUpdate(l[1..], k - 1, q);
      assert l[k := q][1..] == l[1..][k - 1 := q];
    }
  }

  lemma {:induction false} FindUnique(l: seq<Query>, id: nat, k: nat)
    requires Distinct(l) && k < |l| && l[k].id == id
    ensures Find(l, id) == k
  {
    if k > 0 {
      assert l[0].id != l[k].id && l[1..][k - 1] == l[k];
      FindUnique(l[1..], id, k - 1);
    }
  }

  lemma FindIn(l: seq<Query>, id: nat)
    ensures Find(l, id) < |l| <==> id in Ids(l)
  {
    var k := Find(l, id);
    if k < |l| {
      assert l[k] in l;
    }
  }

  lemma CutIds(l: seq<Query>, k: nat)
    requires Distinct(l) && k < |l|
    ensures Distinct(Cut(l, k)) && Ids(Cut(l, k)) == Ids(l) - {l[k].id}
    ensures Busy(Cut(l, k)) == Busy(l) - {l[k].id}
  {
    var w := Cut(l, k);
    assert forall i :: 0 <= i < |w| ==> w[i] == l[if i < k then i else i + 1];
    forall q | q in l && q.id != l[k].id
      ensures q in w
    {
      var i :| 0 <= i < |l| && l[i] == q;
      assert w[if i < k then i else i - 1] == q;
    }
  }

  lemma UpdateIds(l: seq<Query>, k: nat, q: Query)
    requires Distinct(l) && k < |l| && q.id == l[k].id
    ensures Distinct(l[k := q]) && Ids(l[k := q]) == Ids(l)
    ensures Busy(l[k := q]) == if q.processing then Busy(l) + {q.id} else Busy(l) - {q.id}
  {
    var w := l[k := q];
    assert w[k] == q && l[k] in l;
    forall p | p in l && p.id != q.id
      ensures p in w
    {
      var i :| 0 <= i < |l| && l[i] == p;
      assert w[i] == p;
    }
    forall p | p in w && p.id != q.id
      ensures p in l
    {
      var i :| 0 <= i < |w| && w[i] == p;
      assert l[i] == p;
    }
    assert forall p :: p in l && p.id == q.id ==> p == l[k];
    assert forall p :: p in w && p.id == q.id ==> p == q;
  }

  // What one abort does to the descriptors.
  lemma AbortStep(s: State, id: nat)
    requires Distinct(s.list) && !s.fault
    ensures var t := Abort(s, id);
      && (t.fault <==> id in Dangling(s))
      && (!t.fault ==>
            && Distinct(t.list) && t.handles == s.handles && Busy(t.list) == Busy(s.list)
            && Dangling(t) == Dangling(s) + ({id} * s.handles - Busy(s.list)))
  {
    FindIn(s.list, id);
    var k := Find(s.list, id);
    if id in s.handles && k < |s.list| {
      if s.list[k].processing {
        assert s.list[k] in s.list;
        UpdateIds(s.list, k, s.list[k].(running := false));
      } else {
        CutIds(s.list, k);
        NotBusy(s.list, k);
      }
    }
  }

  lemma NotBusy(l: seq<Query>, k: nat)
    requires Distinct(l) && k < |l| && !l[k].processing
    ensures l[k].id !in Busy(l)
  {
  }

  /** Some abort meets a descriptor that points at freed memory: one of `gone`, or one aborted
      before, unless its query is being processed and therefore was not freed. */
  ghost predicate AbortsFreed(ids: seq<nat>, held: set<nat>, busy: set<nat>, gone: set<nat>) {
    exists j :: 0 <= j < |ids| && ids[j] in held && (ids[j] in gone || (ids[j] !in busy && ids[j] in ids[..j]))
  }

  lemma AbortsFreedCons(ids: seq<nat>, held: set<nat>, busy: set<nat>, gone: set<nat>)
    requires ids != [] && ids[0] !in gone && gone <= held
    ensures AbortsFreed(ids, held, busy, gone)
      <==> AbortsFreed(ids[1..], held, busy, gone + ({ids[0]} * held - busy))
  {
    var t, gone' := ids[1..], gone + ({ids[0]} * held - busy);
    if AbortsFreed(ids, held, busy, gone) {
      var j :| 0 <= j < |ids| && ids[j] in held && (ids[j] in gone || (ids[j] !in busy && ids[j] in ids[..j]));
      assert t[j - 1] == ids[j] && ids[..j] == [ids[0]] + t[..j - 1];
    }
    if AbortsFreed(t, held, busy, gone') {
      var j :| 0 <= j < |t| && t[j] in held && (t[j] in gone' || (t[j] !in busy && t[j] in t[..j]));
      assert ids[j + 1] == t[j] && ids[..j + 1] == [ids[0]] + t[..j];
    }
  }

  ghost function SetOf(ids: seq<nat>): set<nat> {
    set id | id in ids
  }

  lemma {:induction false} FaultStays(s: State, ids: seq<nat>)
    requires s.fault
    ensures Aborts(s, ids) == s
    decreases |ids|
  {
    if ids != [] {
      FaultStays(s, ids[1..]);
    }
  }

  lemma {:induction false} AbortsFaultIff(s: State, ids: seq<nat>)
    requires Distinct(s.list) && !s.fault
    ensures var t := Aborts(s, ids);
      && (t.fault <==> AbortsFreed(ids, s.handles, Busy(s.list), Dangling(s)))
      && (!t.fault ==>
            && Distinct(t.list) && t.handles == s.handles && Busy(t.list) == Busy(s.list)
            && Dangling(t) == Dangling(s) + (SetOf(ids) * s.handles - Busy(s.list)))
    decreases |ids|
  {
    if ids != [] {
      AbortStep(s, ids[0]);
      var t := Abort(s, ids[0]);
      if t.fault {
        FaultStays(t, ids[1..]);
        assert ids[0] in s.handles && ids[0] in Dangling(s);
      } else {
        AbortsFaultIff(t, ids[1..]);
        AbortsFreedCons(ids, s.handles, Busy(s.list), Dangling(s));
        assert SetOf(ids) == {ids[0]} + SetOf(ids[1..]);
      }
    }
  }

  // A query that is being processed stays in the list through aborts, which can only stop it.
  lemma {:induction false} AbortsKeep(s: State, ids: seq<nat>, id: nat)
    requires Distinct(s.list) && !Aborts(s, ids).fault
    requires Find(s.list, id) < |s.list| && s.list[Find(s.list, id)].processing
    ensures var r := Aborts(s, ids);
      && Find(r.list, id) < |r.list|
      && var q, q' := s.list[Find(s.list, id)], r.list[Find(r.list, id)];
        q' == q.(running := q.running && !(id in ids && id in s.handles))
    decreases |ids|
  {
    if s.fault {
      FaultStays(s, ids);
    } else if ids != [] {
      AbortStep(s, ids[0]);
      if Abort(s, ids[0]).fault {
        FaultStays(Abort(s, ids[0]), ids[1..]);
      } else {
        AbortKeeps(s, ids[0], id);
        AbortsKeep(Abort(s, ids[0]), ids[1..], id);
      }
    }
  }

  lemma AbortKeeps(s: State, a: nat, id: nat)
    requires Distinct(s.list) && !s.fault && !Abort(s, a).fault
    requires Find(s.list, id) < |s.list| && s.list[Find(s.list, id)].processing
    ensures var r := Abort(s, a);
      && Find(r.list, id) < |r.list|
      && var q := s.list[Find(s.list, id)];
        r.list[Find(r.list, id)] == q.(running := q.running && !(a == id && id in s.handles))
  {
    var r, k, j := Abort(s, a), Find(s.list, a), Find(s.list, id);
    AbortStep(s, a);
    if a in s.handles && k < |s.list| {
      if a == id {
        FindUnique(r.list, id, j);
      } else if s.list[k].processing {
        UpdateSpares(s.list, k, s.list[k].(running := false), id);
      } else {
        CutSpares(s.list, k, id);
      }
    }
  }

  lemma ClaimIs(s: State, k: nat)
    requires Distinct(s.list) && k < |s.list|
    ensures var c := Claim(s, k);
      && Distinct(c.list) && Find(c.list, s.list[k].id) == k && Dangling(c) == Dangling(s)
      && Busy(c.list) == Busy(s.list) + {s.list[k].id}
      && Backlog(c.list) == Backlog(s.list) - Weight(s.list[k])
  {
    var q := s.list[k].(processing := true);
    UpdateIds(s.list, k, q);
    BacklogUpdate(s.list, k, q);
    FindUnique(s.list[k := q], s.list[k].id, k);
  }

  lemma CompleteIs(s: State, k: nat, found: seq<nat>)
    requires Distinct(s.list) && !s.fault && k < |s.list|
    ensures var q, t := s.list[k], Complete(s, s.list[k].id, found);
      && t == State(Cut(s.list, k), s.log + [Ending(q, found)],
                    if q.running then s.handles - {q.id} else s.handles, false)
      && Distinct(t.list) && Find(t.list, q.id) == |t.list| && Backlog(t.list) == Backlog(s.list) - Weight(q)
      && Busy(t.list) == Busy(s.list) - {q.id}
      && Dangling(t) == if q.running then Dangling(s) else Dangling(s) + ({q.id} * s.handles)
  {
    var q := s.list[k];
    FindUnique(s.list, q.id, k);
    CutIds(s.list, k);
    FindIn(Cut(s.list, k), q.id);
    BacklogWithout(s.list, k);
    assert q in s.list && q.id in Ids(s.list);
  }

  // How a resolved query ends.
  function Ending(q: Query, found: seq<nat>): Outcome {
    var results := Reverse(found) + q.results;
    if q.running then Delivered(q.id, found != [], results) else Dropped(q.id, results)
  }

  /** Whether the claimed query is delivered: its client did not abort it meanwhile. */
  predicate Undisturbed(s: State, id: nat, aborts: seq<nat>) {
    !(id in aborts && id in s.handles)
  }

  // The descriptors that point at freed memory when the claimed query has been completed, and
  // those that still point anywhere.
  ghost function GoneBy(gone: set<nat>, held: set<nat>, busy: set<nat>, aborts: seq<nat>): set<nat> {
    gone + (SetOf(aborts) * held - busy)
  }

  ghost function HeldBy(held: set<nat>, claimed: nat, aborts: seq<nat>): set<nat> {
    if claimed in aborts then held else held - {claimed}
  }

  lemma ResolveIs(s: State, r: Resolution)
    requires Distinct(s.list) && !s.fault && FirstPending(s.list) < |s.list|
    ensures var k := FirstPending(s.list);
      var q, a, c := s.list[k], Aborts(Claim(s, k), r.aborts), Resolve(s, r);
      && a.fault == c.fault
      && (c.fault <==> AbortsFreed(r.aborts, s.handles, Busy(s.list) + {q.id}, Dangling(s)))
      && (!c.fault ==>
            && Delivers(a, q.id) == Undisturbed(s, q.id, r.aborts)
            && Distinct(c.list) && Backlog(c.list) < Backlog(s.list) && Find(c.list, q.id) == |c.list|
            && c.log == a.log + [Ending(q.(running := Undisturbed(s, q.id, r.aborts)), r.found)]
            && c.handles == HeldBy(s.handles, q.id, r.aborts) && Busy(c.list) == Busy(s.list)
            && Dangling(c) == GoneBy(Dangling(s), s.handles, Busy(s.list), r.aborts))
  {
    var k := FirstPending(s.list);
    var q, c := s.list[k], Claim(s, k);
    ClaimIs(s, k);
    NotBusy(s.list, k);
    assert q in s.list && q.id in Ids(s.list);
    AbortsFaultIff(c, r.aborts);
    var a := Aborts(c, r.aborts);
    if !a.fault {
      AbortsKeep(c, r.aborts, q.id);
      AbortsShrink(c, r.aborts);
      CompleteIs(a, Find(a.list, q.id), r.found);
    }
  }

  // Aborts do not add to what is to be done, and log only what they free.
  lemma {:induction false} AbortsShrink(s: State, ids: seq<nat>)
    ensures var t := Aborts(s, ids);
      && Backlog(t.list) <= Backlog(s.list) && s.log <= t.log
      && forall i :: |s.log| <= i < |t.log| ==> t.log[i].Freed?
    decreases |ids|
  {
    if ids != [] {
      var k := Find(s.list, ids[0]);
      if !s.fault && ids[0] in s.handles && k < |s.list| {
        if s.list[k].processing {
          BacklogUpdate(s.list, k, s.list[k].(running := false));
        } else {
          BacklogWithout(s.list, k);
        }
      }
      AbortsShrink(Abort(s, ids[0]), ids[1..]);
    }
  }

  /** A turn that uses no freed memory finishes the query it claims: it leaves the list for good,
      and the log says that it was dropped with its results if its client aborted it meanwhile, and
      delivered with them otherwise, as a success if and only if something was found. After a
      delivery the log has what the callback freed. The backlog shrinks. */
  lemma TurnFinishes(s: State, r: Resolution)
    requires Distinct(s.list) && !s.fault && FirstPending(s.list) < |s.list|
    ensures var q, t := s.list[FirstPending(s.list)], Turn(s, r);
      var before := |Aborts(Claim(s, FirstPending(s.list)), r.aborts).log|;
      !t.fault ==>
        && Distinct(t.list) && Backlog(t.list) < Backlog(s.list) && Find(t.list, q.id) == |t.list|
        && before < |t.log|
        && t.log[before] == Ending(q.(running := Undisturbed(s, q.id, r.aborts)), r.found)
        && (Undisturbed(s, q.id, r.aborts) || |t.log| == before + 1)
        && forall i :: before < i < |t.log| ==> t.log[i].Freed?
  {
    var q, c := s.list[FirstPending(s.list)], Resolve(s, r);
    ResolveIs(s, r);
    if c.fault {
      FaultStays(c, r.callback);
    } else {
      AbortsFaultIff(c, r.callback);
      AbortsShrink(c, r.callback);
      if !Aborts(c, r.callback).fault {
        AbortsAddNone(c, r.callback, q.id);
      }
    }
  }

  lemma {:induction false} AbortsAddNone(s: State, ids: seq<nat>, id: nat)
    requires Distinct(s.list) && Find(s.list, id) == |s.list|
    ensures var t := Aborts(s, ids); Find(t.list, id) == |t.list|
    decreases |ids|
  {
    AbortsLedger(s, ids, id);
  }

  /** A turn uses freed memory exactly when an abort meets a descriptor that points there: during
      the resolution, or in the callback of a query that is delivered. Otherwise the descriptors of
      the queries that were aborted and freed point there afterwards, and a delivery lets go of its
      own. */
  lemma TurnFaultsIff(s: State, r: Resolution)
    requires Distinct(s.list) && !s.fault && FirstPending(s.list) < |s.list|
    ensures var id, t := s.list[FirstPending(s.list)].id, Turn(s, r);
      var held, busy := HeldBy(s.handles, id, r.aborts), Busy(s.list);
      var gone := GoneBy(Dangling(s), s.handles, busy, r.aborts);
      var callback := if Undisturbed(s, id, r.aborts) then r.callback else [];
      && (t.fault <==>
            || AbortsFreed(r.aborts, s.handles, busy + {id}, Dangling(s))
            || AbortsFreed(callback, held, busy, gone))
      && (!t.fault ==> t.handles == held && Busy(t.list) == busy && Dangling(t) == GoneBy(gone, held, busy, callback))
  {
    var c := Resolve(s, r);
    ResolveIs(s, r);
    if c.fault {
      FaultStays(c, r.callback);
    } else {
      AbortsFaultIff(c, r.callback);
    }
  }

  // ---------- the whole loop ----------

  /** iodns_process_queries; resolution number n is `env(n)`, and callbacks start no queries. */
  ghost function Process(s: State, env: nat -> Resolution, n: nat): State
    requires Distinct(s.list)
    decreases Backlog(s.list)
  {
    if s.fault || FirstPending(s.list) == |s.list| then s
    else
      TurnFinishes(s, env(n));
      var t := Turn(s, env(n));
      if t.fault then t else Process(t, env, n + 1)
  }

  /** What a client sees of the loop: which query is resolved in each turn, what it aborts during
      that, and what its callback aborts. */
  datatype Resolving = Resolving(claimed: nat, aborts: seq<nat>, callback: seq<nat>)

  function Seen(s: State, r: Resolution): Resolving
    requires FirstPending(s.list) < |s.list|
  {
    var id := s.list[FirstPending(s.list)].id;
    Resolving(id, r.aborts, if Undisturbed(s, id, r.aborts) then r.callback else [])
  }

  ghost function History(s: State, env: nat -> Resolution, n: nat): seq<Resolving>
    requires Distinct(s.list)
    decreases Backlog(s.list)
  {
    if s.fault || FirstPending(s.list) == |s.list| then []
    else
      TurnFinishes(s, env(n));
      var t := Turn(s, env(n));
      [Seen(s, env(n))] + (if t.fault then [] else History(t, env, n + 1))
  }

  /** A client aborts a query that is gone: one that it aborted before, unless that one was being
      resolved all the while. Delivered queries are not `held` any more. */
  ghost predicate Misused(h: seq<Resolving>, held: set<nat>, busy: set<nat>, gone: set<nat>) {
    h != [] &&
      var held', gone' := HeldBy(held, h[0].claimed, h[0].aborts), GoneBy(gone, held, busy, h[0].aborts);
      || AbortsFreed(h[0].aborts, held, busy + {h[0].claimed}, gone)
      || AbortsFreed(h[0].callback, held', busy, gone')
      || Misused(h[1..], held', busy, GoneBy(gone', held', busy, h[0].callback))
  }

  /** The loop uses freed memory exactly when the client aborts a query that is gone. */
  lemma {:induction false} ProcessFaultsIff(s: State, env: nat -> Resolution, n: nat)
    requires Distinct(s.list) && !s.fault
    ensures Process(s, env, n).fault <==> Misused(History(s, env, n), s.handles, Busy(s.list), Dangling(s))
    decreases Backlog(s.list)
  {
    if FirstPending(s.list) < |s.list| {
      var t, n' := Turn(s, env(n)), n + 1;
      TurnFinishes(s, env(n));
      TurnFaultsIff(s, env(n));
      var h := History(s, env, n);
      if !t.fault {
        ProcessFaultsIff(t, env, n');
        assert h[1..] == History(t, env, n');
      }
    }
  }

  ghost function AllAborts(h: seq<Resolving>): seq<nat> {
    if h == [] then [] else h[0].aborts + (h[0].callback + AllAborts(h[1..]))
  }

  ghost predicate NoneTwice(ids: seq<nat>) {
    forall i, j :: 0 <= i < j < |ids| ==> ids[i] != ids[j]
  }

  lemma NoneFreed(ids: seq<nat>, held: set<nat>, busy: set<nat>, gone: set<nat>)
    requires NoneTwice(ids) && SetOf(ids) !! gone
    ensures !AbortsFreed(ids, held, busy, gone)
  {
    assert forall j :: 0 <= j < |ids| ==> ids[j] in SetOf(ids);
  }

  /** A client that aborts no query twice is safe. */
  lemma {:induction false} OnceIsSafe(h: seq<Resolving>, held: set<nat>, busy: set<nat>, gone: set<nat>)
    requires NoneTwice(AllAborts(h)) && SetOf(AllAborts(h)) !! gone
    ensures !Misused(h, held, busy, gone)
  {
    if h != [] {
      var a, c, b := h[0].aborts, h[0].callback, AllAborts(h[1..]);
      var held', gone' := HeldBy(held, h[0].claimed, a), GoneBy(gone, held, busy, a);
      OnceParts(a, c + b, gone);
      OnceParts(c, b, gone + SetOf(a));
      NoneFreed(a, held, busy + {h[0].claimed}, gone);
      NoneFreed(c, held', busy, gone');
      OnceIsSafe(h[1..], held', busy, GoneBy(gone', held', busy, c));
    }
  }

  lemma OnceParts(a: seq<nat>, b: seq<nat>, gone: set<nat>)
    requires NoneTwice(a + b) && SetOf(a + b) !! gone
    ensures NoneTwice(a) && NoneTwice(b) && SetOf(a) !! gone && SetOf(b) !! gone + SetOf(a)
  {
    var all := a + b;
    assert forall i :: 0 <= i < |a| ==> a[i] == all[i] && a[i] in SetOf(all);
    assert forall i :: 0 <= i < |b| ==> b[i] == all[|a| + i] && b[i] in SetOf(all);
  }

  /** Two queries: the callback of the first aborts the second twice. It is freed by the first
      abort, and the second one uses it. */
  lemma AbortTwiceFaults(p: Query, q: Query, handles: set<nat>, found: seq<nat>)
    requires p.id != q.id && Pending(p) && Pending(q) && q.id in handles
    ensures Turn(State([p, q], [], handles, false), Resolution(found, [], [q.id, q.id])).fault
  {
    var s := State([p, q], [], handles, false);
    assert s.list[0] == p && s.list[1] == q && FirstPending(s.list) == 0;
    var ids := [q.id, q.id];
    assert ids[1] in ids[..1] by {
      assert ids[..1][0] == q.id;
    }
    TurnFaultsIff(s, Resolution(found, [], ids));
  }

  function Mentions(log: seq<Outcome>, id: nat): nat {
    if log == [] then 0
    else Mentions(log[..|log| - 1], id) + (if log[|log| - 1].id == id then 1 else 0)
  }

  /** How often a query is accounted for: in the list, or in the log of what became of it. */
  function Ledger(s: State, id: nat): nat {
    Mentions(s.log, id) + (if Find(s.list, id) < |s.list| then 1 else 0)
  }

  predicate InProcess(l: seq<Query>, id: nat) {
    Find(l, id) < |l| && l[Find(l, id)].processing
  }

  // Queries that are not being processed are left as they are or leave the list.
  ghost predicate SameOrGone(l: seq<Query>, r: seq<Query>, id: nat) {
    Find(r, id) < |r| ==> Find(l, id) < |l| && r[Find(r, id)] == l[Find(l, id)]
  }

  lemma LedgerWithout(s: State, k: nat, o: Outcome, handles: set<nat>, id: nat)
    requires Distinct(s.list) && k < |s.list| && o.id == s.list[k].id
    ensures Ledger(State(Cut(s.list, k), s.log + [o], handles, s.fault), id) == Ledger(s, id)
    ensures SameOrGone(s.list, Cut(s.list, k), id)
  {
    var w, j := Cut(s.list, k), Find(s.list, id);
    CutIds(s.list, k);
    assert (s.log + [o])[..|s.log|] == s.log;
    if j < |s.list| && j != k {
      var i := if j < k then j else j - 1;
      assert w[i] == s.list[j];
      FindUnique(w, id, i);
    } else if j == |s.list| {
      assert forall i :: 0 <= i < |w| ==> w[i].id != id;
    } else {
      FindUnique(s.list, id, k);
      FindIn(w, id);
    }
  }

  lemma LedgerUpdate(s: State, k: nat, q: Query, id: nat)
    requires Distinct(s.list) && k < |s.list| && q.id == s.list[k].id
    ensures Ledger(s.(list := s.list[k := q]), id) == Ledger(s, id)
    ensures Distinct(s.list[k := q])
    ensures id != q.id ==> SameOrGone(s.list, s.list[k := q], id)
  {
    var l, j := s.list[k := q], Find(s.list, id);
    if j < |s.list| {
      FindUnique(l, id, j);
    } else {
      assert forall i :: 0 <= i < |l| ==> l[i].id != id;
    }
  }

  lemma {:induction false} AbortsLedger(s: State, ids: seq<nat>, id: nat)
    requires Distinct(s.list)
    ensures var r := Aborts(s, ids);
      && Distinct(r.list) && Ledger(r, id) == Ledger(s, id)
      && (InProcess(s.list, id) || SameOrGone(s.list, r.list, id))
    decreases |ids|
  {
    if ids != [] {
      var k := Find(s.list, ids[0]);
      if !s.fault && ids[0] in s.handles && k < |s.list| {
        if s.list[k].processing {
          LedgerUpdate(s, k, s.list[k].(running := false), id);
          FindUnique(s.list, s.list[k].id, k);
        } else {
          CutIds(s.list, k);
          LedgerWithout(s, k, Freed(ids[0]), s.handles, id);
        }
      }
      AbortsLedger(Abort(s, ids[0]), ids[1..], id);
    }
  }

  /** A turn that does not fault loses no query and accounts for none twice. */
  lemma TurnLedger(s: State, r: Resolution, id: nat)
    requires Distinct(s.list) && !s.fault && FirstPending(s.list) < |s.list| && !Turn(s, r).fault
    ensures Ledger(Turn(s, r), id) == Ledger(s, id)
    ensures InProcess(s.list, id) || SameOrGone(s.list, Turn(s, r).list, id)
  {
    var c := Resolve(s, r);
    ResolveIs(s, r);
    if c.fault {
      FaultStays(c, r.callback);
    } else {
      ResolveLedger(s, r, id);
      AbortsLedger(c, r.callback, id);
    }
  }

  lemma ResolveLedger(s: State, r: Resolution, id: nat)
    requires Distinct(s.list) && !s.fault && FirstPending(s.list) < |s.list| && !Resolve(s, r).fault
    ensures Ledger(Resolve(s, r), id) == Ledger(s, id)
    ensures InProcess(s.list, id) || SameOrGone(s.list, Resolve(s, r).list, id)
  {
    var k := FirstPending(s.list);
    var q, c := s.list[k], Claim(s, k);
    ResolveIs(s, r);
    ClaimIs(s, k);
    LedgerUpdate(s, k, q.(processing := true), id);
    AbortsFaultIff(c, r.aborts);
    AbortsKeep(c, r.aborts, q.id);
    AbortsLedger(c, r.aborts, id);
    var a := Aborts(c, r.aborts);
    var j := Find(a.list, q.id);
    CompleteIs(a, j, r.found);
    LedgerWithout(a, j, Ending(a.list[j], r.found), Resolve(s, r).handles, id);
    if id == q.id {
      FindUnique(s.list, id, k);
    }
  }

  /** A loop that does not fault ends with nothing left to claim. Each query is accounted for as
      often as before, so one that was in the list once is afterwards either still there or in the
      log exactly once; and one that was pending is in the log. */
  lemma {:induction false} ProcessSettles(s: State, env: nat -> Resolution, n: nat, id: nat)
    requires Distinct(s.list) && !Process(s, env, n).fault
    ensures var t := Process(s, env, n);
      && FirstPending(t.list) == |t.list|
      && Ledger(t, id) == Ledger(s, id)
      && (Find(s.list, id) < |s.list| && Pending(s.list[Find(s.list, id)]) ==>
            Find(t.list, id) == |t.list| && Mentions(t.log, id) == Mentions(s.log, id) + 1)
    decreases Backlog(s.list)
  {
    if FirstPending(s.list) < |s.list| {
      var t, n' := Turn(s, env(n)), n + 1;
      TurnFinishes(s, env(n));
      TurnLedger(s, env(n), id);
      ProcessSettles(t, env, n', id);
      ProcessNeverAdds(t, env, n', id);
    }
  }

  // A query that has left the list does not come back.
  lemma {:induction false} ProcessNeverAdds(s: State, env: nat -> Resolution, n: nat, id: nat)
    requires Distinct(s.list) && !Process(s, env, n).fault
    ensures Find(s.list, id) == |s.list| ==> var t := Process(s, env, n); Find(t.list, id) == |t.list|
    decreases Backlog(s.list)
  {
    if FirstPending(s.list) < |s.list| {
      var t, n' := Turn(s, env(n)), n + 1;
      TurnFinishes(s, env(n));
      TurnLedger(s, env(n), id);
      ProcessNeverAdds(t, env, n', id);
    }
  }

  // ---------- every run ----------

  /** What can happen to the list: a query is created and started, for a public descriptor or for a
      socket; a client aborts one; the engine processes the list. */
  datatype Op =
    | Open(id: nat, public: bool)
    | Stopping(id: nat)
    | Processing(env: nat -> Resolution)

  ghost function Opened(s: State, id: nat, public: bool): State {
    s.(list := s.list + [Query(id, true, false, [])], handles := if public then s.handles + {id} else s.handles)
  }

  ghost function Step(s: State, op: Op): State
    requires Distinct(s.list)
  {
    match op
    case Open(id, public) => if s.fault then s else Opened(s, id, public)
    case Stopping(id) => Abort(s, id)
    case Processing(env) => Process(s, env, 0)
  }

  function OpenedIds(ops: seq<Op>): seq<nat> {
    if ops == [] then []
    else OpenedIds(ops[..|ops| - 1]) + (if ops[|ops| - 1].Open? then [ops[|ops| - 1].id] else [])
  }

  /** Every query has an id of its own. */
  ghost predicate NewIds(ops: seq<Op>) {
    NoneTwice(OpenedIds(ops))
  }

  lemma NewIdsBefore(ops: seq<Op>)
    requires ops != [] && NewIds(ops)
    ensures NewIds(ops[..|ops| - 1])
    ensures ops[|ops| - 1].Open? ==> ops[|ops| - 1].id !in OpenedIds(ops[..|ops| - 1])
  {
    var a, b := OpenedIds(ops[..|ops| - 1]), OpenedIds(ops);
    assert forall i :: 0 <= i < |a| ==> a[i] == b[i];
    assert ops[|ops| - 1].Open? ==> b[|a|] == ops[|ops| - 1].id;
  }

  ghost predicate Among(ids: set<nat>, s: State) {
    s.handles <= ids && Ids(s.list) <= ids
  }

  ghost function Run(ops: seq<Op>): (s: State)
    requires NewIds(ops)
    ensures Distinct(s.list) && Among(SetOf(OpenedIds(ops)), s)
  {
    if ops == [] then State([], [], {}, false)
    else
      NewIdsBefore(ops);
      var s := Run(ops[..|ops| - 1]);
      StepKeeps(s, ops[|ops| - 1], SetOf(OpenedIds(ops[..|ops| - 1])), SetOf(OpenedIds(ops)));
      Step(s, ops[|ops| - 1])
  }

  lemma AppendIds(l: seq<Query>, q: Query)
    requires Distinct(l) && q.id !in Ids(l)
    ensures Distinct(l + [q]) && Ids(l + [q]) == Ids(l) + {q.id}
  {
    assert forall i :: 0 <= i < |l| ==> l[i] in l;
    assert (l + [q])[|l|] == q;
  }

  lemma StepKeeps(s: State, op: Op, before: set<nat>, after: set<nat>)
    requires Distinct(s.list) && Among(before, s) && before <= after
    requires op.Open? ==> op.id !in before && op.id in after
    ensures Distinct(Step(s, op).list) && Among(after, Step(s, op))
  {
    match op
    case Open(id, _) => AppendIds(s.list, Query(id, true, false, []));
    case Stopping(id) => AbortsAmong(s, [id], before);
    case Processing(env) => ProcessAmong(s, env, 0, before);
  }

  lemma {:induction false} AbortsAmong(s: State, ids: seq<nat>, all: set<nat>)
    requires Distinct(s.list) && Among(all, s)
    ensures Distinct(Aborts(s, ids).list) && Among(all, Aborts(s, ids))
    ensures ids != [] && |ids| == 1 ==> Aborts(s, ids) == Abort(s, ids[0])
    decreases |ids|
  {
    if ids != [] {
      var k := Find(s.list, ids[0]);
      if !s.fault && ids[0] in s.handles && k < |s.list| {
        if s.list[k].processing {
          UpdateIds(s.list, k, s.list[k].(running := false));
        } else {
          CutIds(s.list, k);
        }
      }
      AbortsAmong(Abort(s, ids[0]), ids[1..], all);
    }
  }

  lemma TurnAmong(s: State, r: Resolution, all: set<nat>)
    requires Distinct(s.list) && Among(all, s) && FirstPending(s.list) < |s.list|
    ensures Distinct(Turn(s, r).list) && Among(all, Turn(s, r))
  {
    var k := FirstPending(s.list);
    UpdateIds(s.list, k, s.list[k].(processing := true));
    var a := Aborts(Claim(s, k), r.aborts);
    AbortsAmong(Claim(s, k), r.aborts, all);
    var j := Find(a.list, s.list[k].id);
    if j < |a.list| {
      CutIds(a.list, j);
    }
    AbortsAmong(Resolve(s, r), r.callback, all);
  }

  lemma {:induction false} ProcessAmong(s: State, env: nat -> Resolution, n: nat, all: set<nat>)
    requires Distinct(s.list) && Among(all, s)
    ensures Distinct(Process(s, env, n).list) && Among(all, Process(s, env, n))
    decreases Backlog(s.list)
  {
    if !s.fault && FirstPending(s.list) < |s.list| {
      TurnAmong(s, env(n), all);
      TurnFinishes(s, env(n));
      if !Turn(s, env(n)).fault {
        ProcessAmong(Turn(s, env(n)), env, n + 1, all);
      }
    }
  }

  // What a client aborts in one step.
  ghost function AbortsOf(s: State, op: Op): seq<nat>
    requires Distinct(s.list)
  {
    match op
    case Open(_, _) => []
    case Stopping(id) => [id]
    case Processing(env) => AllAborts(History(s, env, 0))
  }

  ghost function RunAborts(ops: seq<Op>): seq<nat>
    requires NewIds(ops)
  {
    if ops == [] then []
    else
      NewIdsBefore(ops);
      RunAborts(ops[..|ops| - 1]) + AbortsOf(Run(ops[..|ops| - 1]), ops[|ops| - 1])
  }

  lemma {:induction false} ProcessDangles(s: State, env: nat -> Resolution, n: nat)
    requires Distinct(s.list) && !Process(s, env, n).fault
    ensures Dangling(Process(s, env, n)) <= Dangling(s) + SetOf(AllAborts(History(s, env, n)))
    decreases Backlog(s.list)
  {
    if FirstPending(s.list) < |s.list| {
      var t, h := Turn(s, env(n)), History(s, env, n);
      TurnFinishes(s, env(n));
      TurnFaultsIff(s, env(n));
      ProcessDangles(t, env, n + 1);
      assert h[1..] == History(t, env, n + 1);
    }
  }

  /** In every run a client that aborts no query twice makes the engine use no freed memory. */
  lemma {:induction false} RunSafe(ops: seq<Op>)
    requires NewIds(ops) && NoneTwice(RunAborts(ops))
    ensures !Run(ops).fault && Dangling(Run(ops)) <= SetOf(RunAborts(ops))
  {
    if ops != [] {
      NewIdsBefore(ops);
      var before, op := ops[..|ops| - 1], ops[|ops| - 1];
      var s := Run(before);
      OnceParts(RunAborts(before), AbortsOf(s, op), {});
      RunSafe(before);
      match op
      case Open(id, _) => AppendIds(s.list, Query(id, true, false, []));
      case Stopping(id) => AbortStep(s, id);
      case Processing(env) =>
        OnceIsSafe(History(s, env, 0), s.handles, Busy(s.list), Dangling(s));
        ProcessFaultsIff(s, env, 0);
        ProcessDangles(s, env, 0);
    }
  }

  lemma SafeIfOnce(ops: seq<Op>)
    requires NewIds(ops)
    ensures NoneTwice(RunAborts(ops)) ==> !Run(ops).fault
  {
    if NoneTwice(RunAborts(ops)) {
      RunSafe(ops);
    }
  }

  /** Each query that was ever created is in the list, or delivered, dropped or freed exactly once,
      in every run that uses no freed memory. */
  lemma {:induction false} RunLedger(ops: seq<Op>, id: nat)
    requires NewIds(ops) && !Run(ops).fault
    ensures Ledger(Run(ops), id) == if id in OpenedIds(ops) then 1 else 0
  {
    if ops != [] {
      NewIdsBefore(ops);
      var before, op := ops[..|ops| - 1], ops[|ops| - 1];
      var s := Run(before);
      assert !s.fault;
      RunLedger(before, id);
      match op
      case Open(i, _) => AppendLedger(s, i, op.public, id);
      case Stopping(i) => AbortsLedger(s, [i], id);
      case Processing(env) => ProcessSettles(s, env, 0, id);
    }
  }

  lemma AppendLedger(s: State, i: nat, public: bool, id: nat)
    requires Distinct(s.list) && i !in Ids(s.list)
    ensures Ledger(Opened(s, i, public), id) == Ledger(s, id) + if i == id then 1 else 0
  {
    AppendIds(s.list, Query(i, true, false, []));
    FindIn(s.list, id);
    FindIn(Opened(s, i, public).list, id);
  }

  // ---------- what becomes of each query ----------

  /** What becomes of the query `id` in one turn: it is dropped or delivered with what was found if
      it is the one that is claimed, and freed if it has a descriptor and is aborted. */
  function FateInTurn(h: Resolving, found: seq<nat>, id: nat, public: bool): Option<Outcome> {
    if h.claimed == id then
      Some(if public && id in h.aborts then Dropped(id, Reverse(found)) else Delivered(id, found != [], Reverse(found)))
    else if public && (id in h.aborts || id in h.callback) then Some(Freed(id))
    else None
  }

  /** The same of the turns of a loop, resolution number n being `env(n)`. */
  function FateIn(h: seq<Resolving>, env: nat -> Resolution, n: nat, id: nat, public: bool): Option<Outcome>
    decreases |h|
  {
    if h == [] then None
    else
      var o := FateInTurn(h[0], env(n).found, id, public);
      if o.Some? then o else FateIn(h[1..], env, n + 1, id, public)
  }

  // All queries are running, and none has been claimed.
  ghost predicate Untouched(l: seq<Query>) {
    forall i :: 0 <= i < |l| ==> Pending(l[i]) && l[i].results == []
  }

  lemma FirstOfUntouched(l: seq<Query>)
    requires Untouched(l)
    ensures FirstPending(l) == 0
  {
  }

  ghost predicate Listed(l: seq<Query>, id: nat) {
    Find(l, id) < |l|
  }

  lemma CutSpares(l: seq<Query>, k: nat, id: nat)
    requires Distinct(l) && k < |l| && l[k].id != id
    ensures Listed(Cut(l, k), id) <==> Listed(l, id)
    ensures Listed(l, id) ==> Cut(l, k)[Find(Cut(l, k), id)] == l[Find(l, id)]
  {
    var w, j := Cut(l, k), Find(l, id);
    CutIds(l, k);
    FindIn(l, id);
    FindIn(w, id);
    if j < |l| {
      var i := if j < k then j else j - 1;
      assert w[i] == l[j];
      FindUnique(w, id, i);
    }
  }

  lemma UpdateSpares(l: seq<Query>, k: nat, q: Query, id: nat)
    requires Distinct(l) && k < |l| && l[k].id == q.id != id && Listed(l, id)
    ensures Find(l[k := q], id) == Find(l, id) && l[k := q][Find(l, id)] == l[Find(l, id)]
  {
    UpdateIds(l, k, q);
    FindUnique(l[k := q], id, Find(l, id));
  }

  // An abort of another query, or of one without a descriptor, leaves a query alone.
  lemma AbortSpares(s: State, a: nat, id: nat)
    requires Distinct(s.list) && Listed(s.list, id) && (a != id || a !in s.handles)
    ensures var t := Abort(s, a); Listed(t.list, id) && t.list[Find(t.list, id)] == s.list[Find(s.list, id)]
  {
    var k := Find(s.list, a);
    if !s.fault && a in s.handles && k < |s.list| {
      if s.list[k].processing {
        UpdateSpares(s.list, k, s.list[k].(running := false), id);
      } else {
        CutSpares(s.list, k, id);
      }
    }
  }

  lemma {:induction false} AbortsFate(s: State, ids: seq<nat>, id: nat)
    requires Distinct(s.list) && !s.fault && !Aborts(s, ids).fault
    requires Listed(s.list, id) && !s.list[Find(s.list, id)].processing
    ensures var t := Aborts(s, ids);
      if id in ids && id in s.handles then !Listed(t.list, id) && Freed(id) in t.log
      else Listed(t.list, id) && t.list[Find(t.list, id)] == s.list[Find(s.list, id)]
    decreases |ids|
  {
    if ids != [] {
      var a, u := ids[0], Abort(s, ids[0]);
      AbortStep(s, a);
      if u.fault {
        FaultStays(u, ids[1..]);
      } else if a == id && a in s.handles {
        assert u.log[|s.log|] == Freed(id);
        FindIn(s.list, id);
        CutIds(s.list, Find(s.list, id));
        FindIn(u.list, id);
        AbortsAddNone(u, ids[1..], id);
        AbortsShrink(u, ids[1..]);
        assert Aborts(s, ids).log[|s.log|] == Freed(id);
      } else {
        AbortSpares(s, a, id);
        AbortsFate(u, ids[1..], id);
      }
    }
  }

  // The claimed query is completed, and another one is where it was.
  lemma CompleteSpares(s: State, k: nat, found: seq<nat>, id: nat)
    requires Distinct(s.list) && !s.fault && k < |s.list| && s.list[k].id != id
    ensures var t := Complete(s, s.list[k].id, found);
      && (Listed(t.list, id) <==> Listed(s.list, id)) && (id in t.handles <==> id in s.handles) && s.log <= t.log
      && (Listed(s.list, id) ==> t.list[Find(t.list, id)] == s.list[Find(s.list, id)])
  {
    CompleteIs(s, k, found);
    CutSpares(s.list, k, id);
  }

  // What the resolution of another query does to one that waits.
  lemma ResolveFate(s: State, r: Resolution, id: nat)
    requires Distinct(s.list) && !s.fault && FirstPending(s.list) < |s.list| && !Resolve(s, r).fault
    requires Listed(s.list, id) && !s.list[Find(s.list, id)].processing && id != s.list[FirstPending(s.list)].id
    ensures var t := Resolve(s, r);
      && (id in t.handles <==> id in s.handles)
      && if id in r.aborts && id in s.handles then !Listed(t.list, id) && Freed(id) in t.log
         else Listed(t.list, id) && t.list[Find(t.list, id)] == s.list[Find(s.list, id)]
  {
    var k := FirstPending(s.list);
    var q, c := s.list[k], Claim(s, k);
    ResolveIs(s, r);
    ClaimIs(s, k);
    UpdateSpares(s.list, k, q.(processing := true), id);
    AbortsFaultIff(c, r.aborts);
    AbortsKeep(c, r.aborts, q.id);
    AbortsFate(c, r.aborts, id);
    var a := Aborts(c, r.aborts);
    CompleteSpares(a, Find(a.list, q.id), r.found, id);
  }

  lemma CallbackFate(s: State, ids: seq<nat>, id: nat)
    requires Distinct(s.list) && !s.fault && !Aborts(s, ids).fault
    requires Listed(s.list, id) ==> !s.list[Find(s.list, id)].processing
    ensures var t := Aborts(s, ids);
      && (id in t.handles <==> id in s.handles) && s.log <= t.log
      && (Listed(t.list, id) <==> Listed(s.list, id) && !(id in ids && id in s.handles))
      && (Listed(s.list, id) && id in ids && id in s.handles ==> Freed(id) in t.log)
  {
    AbortsFaultIff(s, ids);
    AbortsShrink(s, ids);
    if Listed(s.list, id) {
      AbortsFate(s, ids, id);
    } else {
      AbortsAddNone(s, ids, id);
    }
  }

  lemma LogGrows(s: State, r: Resolution)
    requires Distinct(s.list) && !s.fault && FirstPending(s.list) < |s.list|
    ensures s.log <= Turn(s, r).log
  {
    var k := FirstPending(s.list);
    AbortsShrink(Claim(s, k), r.aborts);
    AbortsShrink(Resolve(s, r), r.callback);
  }

  lemma TurnFate(s: State, r: Resolution, id: nat)
    requires Distinct(s.list) && !s.fault && FirstPending(s.list) < |s.list| && !Turn(s, r).fault
    requires Listed(s.list, id) && Pending(s.list[Find(s.list, id)]) && s.list[Find(s.list, id)].results == []
    ensures var t, o := Turn(s, r), FateInTurn(Seen(s, r), r.found, id, id in s.handles);
      if o.Some? then !Listed(t.list, id) && o.value in t.log
      else Listed(t.list, id) && (id in t.handles <==> id in s.handles)
  {
    var k, c := FirstPending(s.list), Resolve(s, r);
    ResolveIs(s, r);
    if c.fault {
      FaultStays(c, r.callback);
    } else if id == s.list[k].id {
      FindUnique(s.list, id, k);
      TurnFinishes(s, r);
      assert Reverse(r.found) + [] == Reverse(r.found);
    } else {
      ResolveFate(s, r, id);
      if Undisturbed(s, s.list[k].id, r.aborts) {
        CallbackFate(c, r.callback, id);
      }
    }
  }

  lemma TurnUntouched(s: State, r: Resolution)
    requires Distinct(s.list) && !s.fault && FirstPending(s.list) < |s.list| && !Turn(s, r).fault && Untouched(s.list)
    ensures Untouched(Turn(s, r).list)
  {
    var t := Turn(s, r);
    TurnFinishes(s, r);
    forall i | 0 <= i < |t.list|
      ensures Pending(t.list[i]) && t.list[i].results == []
    {
      TurnLedger(s, r, t.list[i].id);
      FindUnique(t.list, t.list[i].id, i);
    }
  }

  /** A loop that uses no freed memory leaves the list empty if all its queries were waiting, and
      each of them has met its fate. */
  lemma {:induction false} ProcessFates(s: State, env: nat -> Resolution, n: nat, id: nat)
    requires Distinct(s.list) && !s.fault && !Process(s, env, n).fault && Untouched(s.list)
    ensures var t := Process(s, env, n);
      && t.list == [] && s.log <= t.log
      && (Listed(s.list, id) ==>
            var o := FateIn(History(s, env, n), env, n, id, id in s.handles); o.Some? && o.value in t.log)
    decreases Backlog(s.list)
  {
    FirstOfUntouched(s.list);
    if FirstPending(s.list) < |s.list| {
      var t, r := Turn(s, env(n)), env(n);
      TurnFinishes(s, r);
      TurnUntouched(s, r);
      LogGrows(s, r);
      ProcessFates(t, env, n + 1, id);
      var h := History(s, env, n);
      assert h[0] == Seen(s, r) && h[1..] == History(t, env, n + 1);
      if Listed(s.list, id) {
        TurnFate(s, r, id);
      }
    }
  }

  /** Whether the query was created for a public descriptor. */
  ghost predicate Public(ops: seq<Op>, id: nat) {
    Open(id, true) in ops
  }

  /** What becomes of a query in a run, read off its operations. */
  ghost function Fate(ops: seq<Op>, id: nat): Option<Outcome>
    requires NewIds(ops)
  {
    if ops == [] then None
    else
      NewIdsBefore(ops);
      var before := ops[..|ops| - 1];
      if id !in OpenedIds(before) then None
      else if Fate(before, id).Some? then Fate(before, id)
      else StepFate(before, ops[|ops| - 1], id)
  }

  /** The same of one operation, for a query that waits. */
  ghost function StepFate(before: seq<Op>, op: Op, id: nat): Option<Outcome>
    requires NewIds(before)
  {
    match op
    case Open(_, _) => None
    case Stopping(i) => if i == id && Public(before, id) then Some(Freed(id)) else None
    case Processing(env) => FateIn(History(Run(before), env, 0), env, 0, id, Public(before, id))
  }

  lemma OpenedAre(ops: seq<Op>, id: nat)
    ensures id in OpenedIds(ops) <==> Open(id, true) in ops || Open(id, false) in ops
  {
    if ops != [] {
      var n := |ops| - 1;
      OpenedAre(ops[..n], id);
      assert ops == ops[..n] + [ops[n]];
    }
  }

  ghost predicate AsFated(ops: seq<Op>, id: nat, s: State)
    requires NewIds(ops)
  {
    var o := Fate(ops, id);
    if o.Some? then !Listed(s.list, id) && o.value in s.log
    else Listed(s.list, id) && (id in s.handles <==> Public(ops, id))
  }

  /** In every run that uses no freed memory: each query that was created and has met its fate has
      left the list, and that is what the log has of it; the others wait. */
  lemma {:induction false} RunFates(ops: seq<Op>, id: nat)
    requires NewIds(ops) && !Run(ops).fault && id in OpenedIds(ops)
    ensures Untouched(Run(ops).list) && AsFated(ops, id, Run(ops))
  {
    hide Untouched, Listed, Opened, StepFate;
    NewIdsBefore(ops);
    var before, op := ops[..|ops| - 1], ops[|ops| - 1];
    var s := Run(before);
    assert ops == before + [op];
    assert !s.fault;
    RunUntouched(before);
    if id in OpenedIds(before) {
      RunFates(before, id);
      StepFates(s, before, op, id);
    } else {
      OpenedAre(before, id);
      JustOpened(s, id, op.public);
    }
    RunUntouched(ops);
  }

  lemma {:induction false} RunUntouched(ops: seq<Op>)
    requires NewIds(ops) && !Run(ops).fault
    ensures Untouched(Run(ops).list)
  {
    if ops != [] {
      NewIdsBefore(ops);
      var before, op := ops[..|ops| - 1], ops[|ops| - 1];
      assert !Run(before).fault;
      RunUntouched(before);
      if op.Processing? {
        ProcessFates(Run(before), op.env, 0, 0);
      }
    }
  }

  // A query that was created before the operation.
  lemma StepFates(s: State, before: seq<Op>, op: Op, id: nat)
    requires NewIds(before) && s == Run(before) && !s.fault && Untouched(s.list) && !Step(s, op).fault
    requires op.Open? ==> op.id != id && op.id !in Ids(s.list)
    requires AsFated(before, id, s)
    ensures var t := Step(s, op);
      var o := if Fate(before, id).Some? then Fate(before, id) else StepFate(before, op, id);
      if o.Some? then !Listed(t.list, id) && o.value in t.log
      else Listed(t.list, id) && (id in t.handles <==> Public(before + [op], id))
  {
    match op
    case Open(i, _) =>
      AppendLedgerFind(s, i, op.public, id);
    case Stopping(i) => CallbackFate(s, [i], id);
    case Processing(env) => ProcessFates(s, env, 0, id);
  }

  lemma JustOpened(s: State, id: nat, public: bool)
    requires Distinct(s.list) && id !in Ids(s.list) && id !in s.handles
    ensures var t := Opened(s, id, public); Listed(t.list, id) && (id in t.handles <==> public)
  {
    AppendIds(s.list, Query(id, true, false, []));
    FindUnique(Opened(s, id, public).list, id, |s.list|);
  }

  lemma AppendLedgerFind(s: State, i: nat, public: bool, id: nat)
    requires Distinct(s.list) && i !in Ids(s.list) && i != id
    ensures Listed(Opened(s, i, public).list, id) <==> Listed(s.list, id)
  {
    AppendIds(s.list, Query(i, true, false, []));
    FindIn(s.list, id);
    FindIn(Opened(s, i, public).list, id);
  }

  /** A loop that uses no freed memory resolves every query that was created before it: the list is
      empty afterwards, and the log has the fate of each and nothing else of it. */
  lemma RunResolves(ops: seq<Op>, env: nat -> Resolution, id: nat)
    requires NewIds(ops + [Processing(env)]) && !Run(ops + [Processing(env)]).fault && id in OpenedIds(ops)
    ensures var all := ops + [Processing(env)];
      var t, o := Run(all), Fate(all, id);
      t.list == [] && o.Some? && o.value in t.log && Mentions(t.log, id) == 1
  {
    hide Untouched, Fate;
    var all := ops + [Processing(env)];
    assert all[..|all| - 1] == ops;
    NewIdsBefore(all);
    RunUntouched(ops);
    ProcessFates(Run(ops), env, 0, id);
    RunFates(all, id);
    RunLedger(all, id);
  }

  lemma {:induction false} FateDelivers(h: seq<Resolving>, env: nat -> Resolution, n: nat, id: nat, public: bool)
    returns (i: nat)
    requires FateIn(h, env, n, id, public).Some? && !(public && id in AllAborts(h))
    ensures i < |h| && h[i].claimed == id
    ensures var f := env(n + i).found; FateIn(h, env, n, id, public) == Some(Delivered(id, f != [], Reverse(f)))
    decreases |h|
  {
    if h[0].claimed == id {
      i := 0;
    } else {
      i := FateDelivers(h[1..], env, n + 1, id, public);
      i := i + 1;
    }
  }

  /** A resolution of the run claimed the query and found `found`. */
  ghost predicate FoundBy(ops: seq<Op>, id: nat, found: seq<nat>) {
    exists k, n {:trigger ops[k], ops[k].env(n)} :: 0 <= k < |ops| && ops[k].Processing? && NewIds(ops[..k]) && 0 <= n
      && var h := History(Run(ops[..k]), ops[k].env, 0);
        n < |h| && h[n].claimed == id && found == ops[k].env(n).found
  }

  /** A query that has met its fate and that no one aborted, or no one could because it has no
      descriptor, was delivered with what its resolution found, as a success if and only if that is
      not empty. */
  lemma {:induction false} RunDelivers(ops: seq<Op>, id: nat)
    requires NewIds(ops) && Fate(ops, id).Some? && !(Public(ops, id) && id in RunAborts(ops))
    ensures exists f :: FoundBy(ops, id, f) && Fate(ops, id) == Some(Delivered(id, f != [], Reverse(f)))
  {
    hide FoundBy, StepFate, AbortsOf, OpenedIds;
    NewIdsBefore(ops);
    var before, op := ops[..|ops| - 1], ops[|ops| - 1];
    assert ops == before + [op];
    if Fate(before, id).Some? {
      RunDelivers(before, id);
      var f :| FoundBy(before, id, f) && Fate(before, id) == Some(Delivered(id, f != [], Reverse(f)));
      FoundLater(before, op, id, f);
    } else {
      FoundNow(before, op, id);
    }
  }

  lemma FoundNow(before: seq<Op>, op: Op, id: nat)
    requires NewIds(before) && StepFate(before, op, id).Some?
    requires !(Public(before, id) && id in AbortsOf(Run(before), op))
    ensures exists f ::
      FoundBy(before + [op], id, f) && StepFate(before, op, id) == Some(Delivered(id, f != [], Reverse(f)))
  {
    hide FateIn, Public;
    var all := before + [op];
    assert op.Processing?;
    var n := FateDelivers(History(Run(before), op.env, 0), op.env, 0, id, Public(before, id));
    assert all[|before|] == op && all[..|before|] == before;
    assert all[|before|].env(n).found == op.env(n).found;
    assert FoundBy(all, id, op.env(n).found);
  }

  lemma FoundLater(before: seq<Op>, op: Op, id: nat, found: seq<nat>)
    requires FoundBy(before, id, found)
    ensures FoundBy(before + [op], id, found)
  {
    var all := before + [op];
    var k, n :| 0 <= k < |before| && before[k].Processing? && NewIds(before[..k]) && 0 <= n
      && var h := History(Run(before[..k]), before[k].env, 0);
        n < |h| && h[n].claimed == id && found == before[k].env(n).found;
    assert all[k] == before[k] && all[..k] == before[..k];
    assert all[k].env(n).found == found;
  }

  lemma RunSettles(ops: seq<Op>)
    requires NewIds(ops)
    ensures !Run(ops).fault ==> forall id :: id in OpenedIds(ops) ==> AsFated(ops, id, Run(ops))
    ensures !Run(ops).fault && ops != [] && ops[|ops| - 1].Processing? ==> Run(ops).list == []
  {
    hide AsFated, Untouched;
    if !Run(ops).fault {
      forall id | id in OpenedIds(ops)
        ensures AsFated(ops, id, Run(ops))
      {
        RunFates(ops, id);
      }
      if ops != [] && ops[|ops| - 1].Processing? {
        NewIdsBefore(ops);
        RunUntouched(ops[..|ops| - 1]);
        ProcessFates(Run(ops[..|ops| - 1]), ops[|ops| - 1].env, 0, 0);
      }
    }
  }
}
