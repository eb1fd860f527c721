/** The doubly linked query list of IODNSLookup.c and the loop of the default engine over it. Every
    method is one step of DnsQueue. */
module DnsQueries {
  import opened Basics
  import Q = DnsQueue

  /** struct IODNSQuery, the client's handle. */
  class Descriptor {
    const id: nat
    var query: DnsQuery?

    constructor (id: nat)
      ensures this.id == id && query == null
    {
      this.id, query := id, null;
    }
  }

  /** struct _IODNSQuery; `freed` says that its memory was given back. A query with PARENT_PUBLIC
      has its descriptor as `parent`; the lookup of a socket, with PARENT_SOCKET, has none. */
  class DnsQuery {
    const id: nat
    const parent: Descriptor?
    var prev: DnsQuery?
    var next: DnsQuery?
    var running: bool
    var processing: bool
    var result: seq<nat>
    var freed: bool

    constructor (id: nat, parent: Descriptor?)
      ensures this.id == id && this.parent == parent
      ensures prev == null && next == null && !running && !processing && result == [] && !freed
    {
      this.id, this.parent := id, parent;
      prev, next, running, processing, result, freed := null, null, false, false, [], false;
    }

    function Handle(): set<Descriptor> {
      if parent == null then {} else {parent}
    }
  }

  ghost function ValueOf(q: DnsQuery): Q.Query
    reads q`running, q`processing, q`result
  {
    Q.Query(q.id, q.running, q.processing, q.result)
  }

  ghost function ValuesOf(l: seq<DnsQuery>): (r: seq<Q.Query>)
    reads l`running, l`processing, l`result
    ensures |r| == |l| && forall i :: 0 <= i < |l| ==> r[i] == ValueOf(l[i])
  {
    if l == [] then [] else [ValueOf(l[0])] + ValuesOf(l[1..])
  }

  ghost function At(l: seq<DnsQuery>, i: int): DnsQuery? {
    if 0 <= i < |l| then l[i] else null
  }

  ghost predicate Chained(l: seq<DnsQuery>)
    reads l`prev, l`next
  {
    && (forall i {:trigger l[i].prev} :: 0 <= i < |l| ==> l[i].prev == At(l, i - 1))
    && (forall i {:trigger l[i].next} :: 0 <= i < |l| ==> l[i].next == At(l, i + 1))
  }

  // Distinct queries, told apart by their ids.
  ghost predicate Distinct(l: seq<DnsQuery>) {
    forall i, j :: 0 <= i < j < |l| ==> l[i].id != l[j].id
  }

  ghost predicate Bypassed(l: seq<DnsQuery>, k: nat)
    reads l`prev, l`next
  {
    && (forall j {:trigger l[j].prev} :: 0 <= j < |l| ==> l[j].prev == At(l, if j == k + 1 then k - 1 else j - 1))
    && (forall j {:trigger l[j].next} :: 0 <= j < |l| ==> l[j].next == At(l, if j == k - 1 then k + 1 else j + 1))
  }

  lemma CutChained(l: seq<DnsQuery>, k: nat)
    requires k < |l| && Bypassed(l, k)
    ensures Chained(Cut(l, k))
  {
    var c := Cut(l, k);
    forall i | 0 <= i < |c|
      ensures c[i].prev == At(c, i - 1) && c[i].next == At(c, i + 1)
    {
      assert c[i] == l[if i < k then i else i + 1];
    }
  }

  lemma CutDistinct(l: seq<DnsQuery>, k: nat)
    requires k < |l| && Distinct(l)
    ensures Distinct(Cut(l, k)) && forall u :: u in Cut(l, k) <==> u in l && u != l[k]
  {
    forall u | u in l && u != l[k]
      ensures u in Cut(l, k)
    {
      var i :| 0 <= i < |l| && l[i] == u;
      assert Cut(l, k)[if i < k then i else i - 1] == u;
    }
  }

  lemma CutValues(l: seq<DnsQuery>, k: nat)
    requires k < |l|
    ensures ValuesOf(Cut(l, k)) == Cut(ValuesOf(l), k)
  {
    hide ValuesOf, ValueOf;
    var a, b := ValuesOf(Cut(l, k)), Cut(ValuesOf(l), k);
    forall i | 0 <= i < |a|
      ensures a[i] == b[i]
    {
      assert a[i] == ValueOf(l[if i < k then i else i + 1]);
    }
    assert a == b;
  }

  lemma ValuesUpdated(l: seq<DnsQuery>, was: seq<Q.Query>, k: nat, v: Q.Query)
    requires |was| == |l| && k < |l| && ValueOf(l[k]) == v
    requires forall i :: 0 <= i < |l| && i != k ==> ValueOf(l[i]) == was[i]
    ensures ValuesOf(l) == was[k := v]
  {
  }

  lemma ValuesAppended(l: seq<DnsQuery>, q: DnsQuery)
    ensures ValuesOf(l + [q]) == ValuesOf(l) + [ValueOf(q)]
  {
  }

  lemma AppendDistinct(l: seq<DnsQuery>, q: DnsQuery)
    requires Distinct(l) && forall i :: 0 <= i < |l| ==> l[i].id != q.id
    ensures Distinct(l + [q])
  {
  }

  lemma {:induction false} ValuesDistinct(l: seq<DnsQuery>)
    requires Distinct(l)
    ensures Q.Distinct(ValuesOf(l))
  {
  }

  // Stopping a query, in two steps.
  lemma StopAt(s: Q.State, k: nat)
    requires k < |s.list|
    ensures var q := s.list[k].(running := false);
      Q.Stop(s, k) == if q.processing then s.(list := s.list[k := q])
                      else s.(list := Cut(s.list[k := q], k), log := s.log + [Q.Freed(q.id)])
  {
    assert Cut(s.list[k := s.list[k].(running := false)], k) == Cut(s.list, k);
  }

  // An abort of a query in the list stops it.
  lemma AbortAt(s: Q.State, k: nat)
    requires Q.Distinct(s.list) && !s.fault && k < |s.list| && s.list[k].id in s.handles
    ensures Q.Abort(s, s.list[k].id) == Q.Stop(s, k)
  {
    Q.FindUnique(s.list, s.list[k].id, k);
  }

  // An abort of one that is gone.
  lemma AbortGone(s: Q.State, id: nat)
    requires !s.fault && id in s.handles && Q.Find(s.list, id) == |s.list|
    ensures Q.Abort(s, id) == s.(fault := true)
  {
  }

  // A completion of one.
  lemma CompleteAt(s: Q.State, k: nat, found: seq<nat>)
    requires Q.Distinct(s.list) && !s.fault && k < |s.list|
    ensures var q := s.list[k].(results := Reverse(found) + s.list[k].results);
      Q.Complete(s, q.id, found) == Ended(s.(list := s.list[k := q]), k, found != [])
  {
    var q := s.list[k].(results := Reverse(found) + s.list[k].results);
    Q.FindUnique(s.list, q.id, k);
    assert Cut(s.list[k := q], k) == Cut(s.list, k);
  }

  // How the resolved query at position `k` ends.
  ghost function Ended(s: Q.State, k: nat, success: bool): Q.State
    requires k < |s.list|
  {
    var q := s.list[k];
    if q.running
    then s.(list := Cut(s.list, k), log := s.log + [Q.Delivered(q.id, success, q.results)],
            handles := s.handles - {q.id})
    else s.(list := Cut(s.list, k), log := s.log + [Q.Dropped(q.id, q.results)])
  }

  // The state after one pass over the list.
  ghost function Next(s: Q.State, r: Q.Resolution): Q.State {
    if Waiting(s) then Q.Turn(s, r) else s
  }

  ghost predicate Waiting(s: Q.State) {
    !s.fault && Q.FirstPending(s.list) < |s.list|
  }

  lemma ProcessStep(s: Q.State, env: nat -> Q.Resolution, n: nat)
    requires Q.Distinct(s.list)
    ensures var t := Next(s, env(n));
      var more := Waiting(s) && !t.fault;
      && (more ==> Q.Distinct(t.list) && Q.Backlog(t.list) < Q.Backlog(s.list))
      && Q.Process(s, env, n) == if more then Q.Process(t, env, n + 1) else t
  {
    if Waiting(s) {
      Q.TurnFinishes(s, env(n));
    }
  }

  class QueryList {
    // iodnsquery_first, iodnsquery_last
    var first: DnsQuery?
    var last: DnsQuery?
    // What clients were given.
    var clients: map<nat, Descriptor>
    // Freed memory was used.
    var fault: bool
    ghost var list: seq<DnsQuery>
    ghost var log: seq<Q.Outcome>
    // The queries whose descriptor points at them.
    ghost var handles: set<nat>
    // Every query that was ever in the list.
    ghost var nodes: set<DnsQuery>

    /** The list is well formed: first and last are its ends, prev and next are inverse. */
    ghost predicate Valid()
      reads this`first, this`last, this`list, this`nodes, list`prev, list`next
    {
      && (forall i :: 0 <= i < |list| ==> list[i] in nodes)
      && Distinct(list) && Chained(list)
      && first == At(list, 0) && last == At(list, |list| - 1)
    }

    // The listed queries are those not freed.
    ghost predicate Alive(l: seq<DnsQuery>)
      reads this`nodes, nodes`freed
    {
      forall q {:trigger q.freed} :: q in nodes ==> (q.freed <==> q !in l)
    }

    // Each descriptor points at its own query, or at nothing if it was let go.
    ghost predicate Held()
      reads this`clients, this`nodes, this`handles, clients.Values`query
    {
      && handles <= clients.Keys
      && forall id {:trigger clients[id]} :: id in clients ==> var d := clients[id];
        && d.id == id && (id in handles <==> d.query != null)
        && (d.query != null ==> d.query in nodes && d.query.id == id)
    }

    // Each listed query but `but` is pointed at by its descriptor, if it has one.
    ghost predicate AllPointed(l: seq<DnsQuery>, but: DnsQuery?)
      reads this`clients, this`nodes, clients.Values`query
    {
      forall q {:trigger Pointed(q, but)} :: q in l ==> q in nodes && Pointed(q, but)
    }

    /** Queries and descriptors belong together; `but` may have been let go. */
    ghost predicate Owned(but: DnsQuery?)
      reads this`clients, this`list, this`nodes, this`handles, clients.Values`query, nodes`freed
    {
      Alive(list) && Held() && AllPointed(list, but)
    }

    ghost predicate Pointed(q: DnsQuery, but: DnsQuery?)
      reads this`clients, clients.Values`query
    {
      if q.parent == null then q.id !in clients
      else q.id in clients && clients[q.id] == q.parent && (q != but ==> clients[q.id].query == q)
    }

    ghost function View(): Q.State
      reads this`list, this`log, this`fault, this`handles, list`running, list`processing, list`result
    {
      Q.State(ValuesOf(list), log, handles, fault)
    }

    lemma PointedWeaker(l: seq<DnsQuery>, q: DnsQuery)
      requires AllPointed(l, null)
      ensures AllPointed(l, q)
    {
      forall u | u in l
        ensures u in nodes && Pointed(u, q)
      {
        assert Pointed(u, null);
      }
    }

    lemma PointedCut(l: seq<DnsQuery>, k: nat)
      requires k < |l| && Distinct(l) && AllPointed(l, l[k])
      ensures AllPointed(Cut(l, k), null)
    {
      CutDistinct(l, k);
      forall u | u in Cut(l, k)
        ensures u in nodes && Pointed(u, null)
      {
        assert Pointed(u, l[k]);
      }
    }

    lemma ViewDistinct()
      requires Valid()
      ensures Q.Distinct(View().list)
    {
      ValuesDistinct(list);
    }

    constructor ()
      ensures Valid() && Owned(null) && View() == Q.State([], [], {}, false) && nodes == {} && clients == map[]
    {
      first, last, list, log, nodes, clients, handles, fault := null, null, [], [], {}, map[], {}, false;
    }

    // No query had this id before.
    ghost predicate Fresh(id: nat)
      reads this`clients, this`nodes
    {
      id !in clients && forall q :: q in nodes ==> q.id != id
    }

    /** _create_dnsquery for a public descriptor */
    method Create(id: nat)
      requires Valid() && Owned(null) && Fresh(id)
      modifies this`first, this`last, this`clients, this`handles, this`list, this`nodes, nodes`next
      ensures Valid() && Owned(null) && fresh(nodes - old(nodes)) && fresh(clients.Values - old(clients.Values))
      ensures forall i :: old(Fresh(i)) && i != id ==> Fresh(i)
      ensures View() == var s := old(View());
        s.(list := s.list + [Q.Query(id, false, false, [])], handles := s.handles + {id})
    {
      hide Chained, Distinct, Alive, Held, AllPointed, ValuesOf;
      var d := new Descriptor(id);
      assert d !in clients.Values;
      var q := new DnsQuery(id, d);
      Enter(q, d);
    }

    /** _create_dnsquery for the lookup of a socket, which has no descriptor. */
    method CreateForSocket(id: nat)
      requires Valid() && Owned(null) && Fresh(id)
      modifies this`first, this`last, this`list, this`nodes, nodes`next
      ensures Valid() && Owned(null) && fresh(nodes - old(nodes))
      ensures forall i :: old(Fresh(i)) && i != id ==> Fresh(i)
      ensures View() == var s := old(View()); s.(list := s.list + [Q.Query(id, false, false, [])])
    {
      hide Chained, Distinct, Alive, Held, AllPointed, ValuesOf;
      var q := new DnsQuery(id, null);
      EnterForSocket(q);
    }

    method EnterForSocket(q: DnsQuery)
      requires Valid() && Owned(null) && ValueOf(q) == Q.Query(q.id, false, false, [])
      requires q.next == null && !q.freed && q !in nodes && Fresh(q.id) && q.parent == null
      modifies this`first, this`last, this`list, this`nodes, nodes`next, q`prev
      ensures Valid() && Owned(null) && nodes == old(nodes) + {q}
      ensures View() == var s := old(View()); s.(list := s.list + [Q.Query(q.id, false, false, [])])
    {
      hide Chained, Distinct, Alive, Held, AllPointed;
      ghost var l := list;
      ValuesAppended(l, q);
      Join(q);
      PointedMore(l, q);
    }

    lemma PointedMore(l: seq<DnsQuery>, q: DnsQuery)
      requires AllPointed(l, null) && q in nodes && Pointed(q, null)
      ensures AllPointed(l + [q], null)
    {
      forall u | u in l + [q]
        ensures u in nodes && Pointed(u, null)
      {
        assert u in l ==> Pointed(u, null);
      }
    }

    method Enter(q: DnsQuery, d: Descriptor)
      requires Valid() && Owned(null) && ValueOf(q) == Q.Query(q.id, false, false, [])
      requires q.next == null && !q.freed && q !in nodes && Fresh(q.id)
      requires d == q.parent && d !in clients.Values && d.id == q.id
      modifies this`first, this`last, this`clients, this`handles, this`list, this`nodes
      modifies nodes`next, q`prev, d`query
      ensures Valid() && Owned(null) && nodes == old(nodes) + {q} && clients == old(clients)[q.id := d]
      ensures View() == var s := old(View());
        s.(list := s.list + [Q.Query(q.id, false, false, [])], handles := s.handles + {q.id})
    {
      hide Chained, Distinct, Alive, Held, AllPointed;
      ghost var l := list;
      ValuesAppended(l, q);
      Join(q);
      Publish(q, d, l);
    }

    // The new query comes in, before its descriptor points at it.
    method Join(q: DnsQuery)
      requires Valid() && Owned(null) && q.next == null && !q.freed && q !in nodes && Fresh(q.id)
      modifies this`first, this`last, this`list, this`nodes, nodes`next, q`prev
      ensures Valid() && list == old(list) + [q] && nodes == old(nodes) + {q}
      ensures View() == old(View()).(list := old(ValuesOf(list + [q])))
      ensures Alive(list) && Held() && AllPointed(old(list), null)
    {
      hide Chained, Distinct, ValuesOf;
      ghost var l := list;
      Append(q);
      forall u | u in l
        ensures Pointed(u, null)
      {
        assert old(Pointed(u, null));
      }
    }

    method Publish(q: DnsQuery, d: Descriptor, ghost l: seq<DnsQuery>)
      requires list == l + [q] && Alive(list) && Held() && AllPointed(l, null)
      requires q in nodes && q.id !in clients && d == q.parent && d !in clients.Values && d.id == q.id
      requires forall i :: 0 <= i < |l| ==> l[i].id != q.id
      modifies this`clients, this`handles, d`query
      ensures Valid() == old(Valid()) && Owned(null) && clients == old(clients)[q.id := d]
      ensures View() == var s := old(View()); s.(handles := s.handles + {q.id})
    {
      handles := handles + {q.id};
      d.query := q;
      clients := clients[q.id := d];
      forall u | u in l
        ensures u in nodes && Pointed(u, null)
      {
        assert old(Pointed(u, null)) && u.id != q.id;
      }
    }

    method Append(q: DnsQuery)
      requires Valid() && q.next == null && forall i :: 0 <= i < |list| ==> list[i].id != q.id
      modifies this`first, this`last, this`list, this`nodes, nodes`next, q`prev
      ensures Valid() && list == old(list) + [q] && nodes == old(nodes) + {q}
      ensures ValuesOf(list) == old(ValuesOf(list + [q]))
    {
      ghost var l := list + [q];
      ghost var values := ValuesOf(l);
      LinkLast(q);
      assert ValuesOf(l) == values;
      AppendDistinct(list, q);
      list := l;
      nodes := nodes + {q};
    }

    // The pointer updates of _create_dnsquery.
    method LinkLast(q: DnsQuery)
      requires Valid() && q.next == null && q !in list
      modifies this`first, this`last, nodes`next, q`prev
      ensures Chained(list + [q]) && first == At(list + [q], 0) && last == q
    {
      if last != null {
        last.next := q;
      } else {
        first := q;
      }
      q.prev := last;
      last := q;
    }

    // The pointer updates of _free_dnsquery.
    method Bypass(q: DnsQuery, ghost k: nat)
      requires Valid() && k < |list| && list[k] == q
      modifies this`first, this`last, nodes`prev, nodes`next
      ensures Bypassed(list, k)
      ensures first == At(Cut(list, k), 0) && last == At(Cut(list, k), |list| - 2)
    {
      assert q.prev == At(list, k - 1) && q.next == At(list, k + 1);
      if q.prev != null {
        q.prev.next := q.next;
      } else {
        first := q.next;
      }
      if q.next != null {
        q.next.prev := q.prev;
      } else {
        last := q.prev;
      }
    }

    /** _free_dnsquery; the caller says what the freeing is to be logged as. */
    method Free(q: DnsQuery, ghost k: nat, ghost o: Q.Outcome)
      requires Valid() && Alive(list) && k < |list| && list[k] == q
      modifies this`first, this`last, this`list, this`log, nodes`prev, nodes`next, q`freed
      ensures Valid() && Alive(list) && list == Cut(old(list), k) && log == old(log) + [o]
    {
      Bypass(q, k);
      CutChained(list, k);
      CutDistinct(list, k);
      list := Cut(list, k);
      log := log + [o];
      q.freed := true;
    }

    // Frees the query at position k, whose descriptor may have been cleared.
    method FreeAt(q: DnsQuery, ghost k: nat, ghost o: Q.Outcome)
      requires Valid() && Owned(q) && k < |list| && list[k] == q
      modifies this`first, this`last, this`list, this`log, nodes`prev, nodes`next, q`freed
      ensures Valid() && Owned(null)
      ensures View() == var s := old(View()); s.(list := Cut(s.list, k), log := s.log + [o])
      ensures list == Cut(old(list), k)
    {
      hide Chained, Distinct, Alive, Held, AllPointed;
      ghost var l := Cut(list, k);
      CutValues(list, k);
      ghost var values := ValuesOf(l);
      PointedCut(list, k);
      Free(q, k, o);
      assert ValuesOf(list) == values && AllPointed(list, null);
    }

    // Sets the flags and the result list of the query at position k.
    method Write(q: DnsQuery, ghost k: nat, running: bool, processing: bool, result: seq<nat>)
      requires Distinct(list) && k < |list| && list[k] == q
      modifies q`running, q`processing, q`result
      ensures Valid() == old(Valid()) && Owned(null) == old(Owned(null))
      ensures View() == var s := old(View()); s.(list := s.list[k := Q.Query(q.id, running, processing, result)])
      ensures q.running == running && q.processing == processing && q.result == result
    {
      ghost var was, v := ValuesOf(list), Q.Query(q.id, running, processing, result);
      SetFields(q, running, processing, result);
      forall i | 0 <= i < |list| && i != k
        ensures ValueOf(list[i]) == was[i]
      {
        assert list[i].id != q.id;
        assert was[i] == old(ValueOf(list[i]));
      }
      ValuesUpdated(list, was, k, v);
    }

    method SetFields(q: DnsQuery, running: bool, processing: bool, result: seq<nat>)
      modifies q`running, q`processing, q`result
      ensures q.running == running && q.processing == processing && q.result == result
      ensures Valid() == old(Valid()) && Owned(null) == old(Owned(null))
    {
      q.running, q.processing, q.result := running, processing, result;
    }

    method ClearRunning(q: DnsQuery, ghost k: nat)
      requires Distinct(list) && k < |list| && list[k] == q
      modifies q`running
      ensures Valid() == old(Valid()) && Owned(null) == old(Owned(null))
      ensures View() == var s := old(View()); s.(list := s.list[k := s.list[k].(running := false)])
    {
      ghost var was := ValuesOf(list);
      q.running := false;
      forall i | 0 <= i < |list| && i != k
        ensures ValueOf(list[i]) == was[i]
      {
        assert list[i].id != q.id;
        assert was[i] == old(ValueOf(list[i]));
      }
      ValuesUpdated(list, was, k, ValueOf(q));
    }

    /** _start_dnsquery; the default engine's add does nothing. */
    method Start(q: DnsQuery, ghost k: nat)
      requires Valid() && Owned(null) && k < |list| && list[k] == q
      modifies q`running, q`processing, q`result
      ensures Valid() && Owned(null)
      ensures View() == var s := old(View()); s.(list := s.list[k := s.list[k].(running := true)])
    {
      Write(q, k, true, q.processing, q.result);
    }

    lemma Kept(l: seq<DnsQuery>, k: nat, kept: DnsQuery?)
      requires Distinct(l) && k < |l| && (kept != null ==> kept in l && kept != l[k])
      ensures kept != null ==> kept in Cut(l, k)
    {
      CutDistinct(l, k);
    }

    // A query that is listed and being processed, if one is named.
    ghost predicate Claimed(q: DnsQuery?)
      reads this`list, list`processing
    {
      q != null ==> q in list && q.processing
    }

    /** _stop_dnsquery; a query that is being processed stays. */
    method Stop(q: DnsQuery, ghost k: nat, ghost kept: DnsQuery?)
      requires Valid() && Owned(null) && Claimed(kept) && k < |list| && list[k] == q
      modifies this`first, this`last, this`list, this`log, nodes`prev, nodes`next
      modifies q`running, q`freed
      ensures Valid() && Owned(null) && Claimed(kept) && View() == Q.Stop(old(View()), k)
    {
      hide Chained, Distinct, Alive, Held, AllPointed, Q.Stop, QueryList.Valid;
      Listed(k);
      StopAt(View(), k);
      ClearRunning(q, k);
      if !q.processing {
        PointedWeaker(list, q);
        Kept(list, k, kept);
        FreeAt(q, k, Q.Freed(q.id));
      }
    }

    /** iodns_abort of the query `id`; the descriptor may point at a query that was freed. */
    method Abort(id: nat, ghost kept: DnsQuery?)
      requires Valid() && Owned(null) && Claimed(kept)
      modifies this`first, this`last, this`list, this`log, this`fault, nodes`prev, nodes`next
      modifies nodes`running, nodes`freed
      ensures Valid() && Owned(null) && Claimed(kept) && View() == Q.Abort(old(View()), id)
    {
      hide Chained, Distinct, Alive, AllPointed;
      if !fault && id in clients && clients[id].query != null {
        AbortQuery(clients[id].query, kept);
      }
    }

    method AbortQuery(q: DnsQuery, ghost kept: DnsQuery?)
      requires Valid() && Owned(null) && Claimed(kept) && !fault
      requires q in nodes && q.id in clients && clients[q.id].query == q
      modifies this`first, this`last, this`list, this`log, this`fault, nodes`prev, nodes`next
      modifies nodes`running, nodes`freed
      ensures Valid() && Owned(null) && Claimed(kept) && View() == Q.Abort(old(View()), q.id)
    {
      hide Chained, Distinct, Held, AllPointed;
      if q.freed {
        UseFreed(q);
      } else {
        ghost var k :| 0 <= k < |list| && list[k] == q;
        ViewDistinct();
        HandleOf(q);
        AbortAt(View(), k);
        Stop(q, k, kept);
      }
    }

    lemma HandleOf(q: DnsQuery)
      requires Held() && q.id in clients && clients[q.id].query == q
      ensures q.id in handles
    {
    }

    // The descriptor leads to freed memory.
    method UseFreed(q: DnsQuery)
      requires Valid() && Owned(null) && !fault && q in nodes && q.id in clients && clients[q.id].query == q && q.freed
      modifies this`fault
      ensures Valid() == old(Valid()) && Owned(null) == old(Owned(null))
      ensures View() == Q.Abort(old(View()), q.id)
    {
      hide Chained, Distinct, AllPointed;
      ghost var was := View();
      GoneFromList(q);
      AbortGone(was, q.id);
      fault := true;
    }

    lemma GoneFromList(q: DnsQuery)
      requires AllPointed(list, null) && q !in list && q.id in clients && clients[q.id].query == q
      ensures Q.Find(ValuesOf(list), q.id) == |list|
    {
      forall i | 0 <= i < |list|
        ensures list[i].id != q.id
      {
        assert list[i] in list && Pointed(list[i], null);
      }
    }

    /** iodns_abort of each of `ids`. */
    method AbortAll(ids: seq<nat>, ghost kept: DnsQuery?)
      requires Valid() && Owned(null) && Claimed(kept)
      modifies this`first, this`last, this`list, this`log, this`fault, nodes`prev, nodes`next
      modifies nodes`running, nodes`freed
      ensures Valid() && Owned(null) && Claimed(kept) && View() == Q.Aborts(old(View()), ids)
    {
      ghost var s := View();
      for n := 0 to |ids|
        invariant Valid() && Owned(null) && Claimed(kept) && Q.Aborts(s, ids) == Q.Aborts(View(), ids[n..])
      {
        assert ids[n..][0] == ids[n] && ids[n..][1..] == ids[n + 1..];
        Abort(ids[n], kept);
      }
    }

    // The scan of iodns_process_queries for a query to claim.
    method FirstToClaim() returns (q: DnsQuery?, ghost k: nat)
      requires Valid()
      ensures k == Q.FirstPending(ValuesOf(list)) && q == At(list, Q.FirstPending(ValuesOf(list)))
      ensures if q == null then k == |list| else k < |list| && list[k] == q
    {
      ghost var values := ValuesOf(list);
      q, k := first, 0;
      while q != null && (!q.running || q.processing)
        invariant k <= |list| && q == At(list, k)
        invariant Q.FirstPending(values) == k + Q.FirstPending(values[k..])
        decreases |list| - k
      {
        assert values[k..][0] == ValueOf(list[k]) && values[k..][1..] == values[k + 1..];
        q := q.next;
        k := k + 1;
      }
      assert q != null ==> values[k..][0] == ValueOf(list[k]);
    }

    // The results of a resolution are put in front of the result list one by one.
    method AddResults(q: DnsQuery, ghost k: nat, found: seq<nat>)
      requires Valid() && Owned(null) && k < |list| && list[k] == q
      modifies q`running, q`processing, q`result
      ensures Valid() && Owned(null)
      ensures View() == var s := old(View());
        s.(list := s.list[k := s.list[k].(results := Reverse(found) + s.list[k].results)])
    {
      hide Chained, Distinct, Alive, Held, AllPointed;
      var result := q.result;
      for i := 0 to |found|
        invariant result == Reverse(found[..i]) + q.result
      {
        result := [found[i]] + result;
        assert Reverse(found[..i + 1]) == [found[i]] + Reverse(found[..i]);
      }
      assert found[..|found|] == found;
      Write(q, k, q.running, q.processing, result);
    }

    /** Lines 273-282: the query is dropped, or delivered by iodns_event_callback and freed. */
    method Complete(q: DnsQuery, ghost k: nat, found: seq<nat>) returns (delivered: bool)
      requires Valid() && Owned(null) && k < |list| && list[k] == q && !fault
      modifies this`first, this`last, this`list, this`log, nodes`prev, nodes`next
      modifies q`running, q`processing, q`result, q`freed, q.Handle()`query, this`handles
      ensures Valid() && Owned(null) && View() == Q.Complete(old(View()), q.id, found)
      ensures delivered == old(q.running)
    {
      hide Chained, Distinct, Alive, Held, AllPointed;
      ViewDistinct();
      CompleteAt(View(), k, found);
      delivered := q.running;
      AddResults(q, k, found);
      Finish(q, k, found != []);
    }

    method Finish(q: DnsQuery, ghost k: nat, success: bool)
      requires Valid() && Owned(null) && k < |list| && list[k] == q
      modifies this`first, this`last, this`list, this`log, nodes`prev, nodes`next
      modifies q`freed, q.Handle()`query, this`handles
      ensures Valid() && Owned(null) && View() == Ended(old(View()), k, success)
    {
      hide Chained, Distinct, Alive, Held, AllPointed;
      if q.running {
        Deliver(q, k, success);
      } else {
        PointedWeaker(list, q);
        FreeAt(q, k, Q.Dropped(q.id, q.result));
      }
    }

    /** iodns_event_callback: the descriptor lets go of the query, which is freed. */
    method Deliver(q: DnsQuery, ghost k: nat, success: bool)
      requires Valid() && Owned(null) && k < |list| && list[k] == q
      modifies this`first, this`last, this`list, this`log, nodes`prev, nodes`next
      modifies q`freed, q.Handle()`query, this`handles
      ensures Valid() && Owned(null)
      ensures View() == var s := old(View());
        s.(list := Cut(s.list, k), log := s.log + [Q.Delivered(q.id, success, q.result)], handles := s.handles - {q.id})
    {
      hide Chained, Distinct, Alive, Held, AllPointed, Pointed;
      if q.parent != null {
        LetGo(q, q.parent);
      } else {
        NoHandle(q);
        PointedWeaker(list, q);
        assert handles - {q.id} == handles;
      }
      FreeAt(q, k, Q.Delivered(q.id, success, q.result));
    }

    lemma NoHandle(q: DnsQuery)
      requires Owned(null) && q in list && q.parent == null
      ensures q.id !in handles
    {
      assert Pointed(q, null);
    }

    method LetGo(q: DnsQuery, d: Descriptor)
      requires Owned(null) && q in list && d == q.parent
      modifies this`handles, d`query
      ensures Valid() == old(Valid()) && Owned(q)
      ensures View() == var s := old(View()); s.(handles := s.handles - {q.id})
    {
      assert Pointed(q, null);
      d.query := null;
      handles := handles - {q.id};
      forall u | u in list
        ensures u in nodes && Pointed(u, q)
      {
        assert old(Pointed(u, null)) && (u.parent == d ==> u == q);
      }
    }

    // Lines 190-283 for the query at position k, but for what the client does in its callback.
    method Resolve(q: DnsQuery, ghost k: nat, r: Q.Resolution) returns (delivered: bool)
      requires Valid() && Owned(null) && k < |list| && list[k] == q && k == Q.FirstPending(ValuesOf(list))
      requires !fault
      modifies this`first, this`last, this`list, this`log, this`fault, nodes`prev, nodes`next
      modifies nodes`running, nodes`processing, nodes`result, nodes`freed, clients.Values`query, this`handles
      ensures Valid() && Owned(null) && View() == Q.Resolve(old(View()), r)
      ensures delivered == Q.Delivers(Q.Aborts(Q.Claim(old(View()), k), r.aborts), q.id)
    {
      hide Chained, Distinct, Alive, Held, AllPointed, Q.Aborts, Q.Complete, Q.Delivers, QueryList.Valid;
      ghost var was := View();
      Listed(k);
      Write(q, k, q.running, true, q.result);
      assert View() == Q.Claim(was, k);
      AbortAll(r.aborts, q);
      Q.CompleteFaulted(View(), q.id, r.found);
      delivered := false;
      if !fault {
        delivered := Conclude(q, r.found);
      }
    }

    lemma Listed(k: nat)
      requires Valid() && k < |list|
      ensures Distinct(list) && list[k] in nodes
    {
    }

    // The query was found, and may have been stopped meanwhile.
    method Conclude(q: DnsQuery, found: seq<nat>) returns (delivered: bool)
      requires Valid() && Owned(null) && Claimed(q) && !fault
      modifies this`first, this`last, this`list, this`log, nodes`prev, nodes`next
      modifies nodes`running, nodes`processing, nodes`result, nodes`freed, clients.Values`query, this`handles
      ensures Valid() && Owned(null) && View() == Q.Complete(old(View()), q.id, found)
      ensures delivered == Q.Delivers(old(View()), q.id) && fault == old(fault)
    {
      hide Chained, Distinct, Alive, Held, Q.Complete, QueryList.Valid;
      ghost var j :| 0 <= j < |list| && list[j] == q;
      Listed(j);
      ViewDistinct();
      Q.FindUnique(View().list, q.id, j);
      assert Pointed(q, null);
      delivered := Complete(q, j, found);
    }

    // One turn of the loop for the claimed query.
    method Turn(q: DnsQuery, ghost k: nat, r: Q.Resolution)
      requires Valid() && Owned(null) && k < |list| && list[k] == q && k == Q.FirstPending(ValuesOf(list))
      requires !fault
      modifies this`first, this`last, this`list, this`log, this`fault, nodes`prev, nodes`next
      modifies nodes`running, nodes`processing, nodes`result, nodes`freed, clients.Values`query, this`handles
      ensures Valid() && Owned(null) && View() == Q.Turn(old(View()), r)
    {
      hide Chained, Distinct, Alive, Held, AllPointed, Q.Resolve, Q.Delivers;
      var delivered := Resolve(q, k, r);
      if delivered {
        AbortAll(r.callback, null);
      }
    }

    // One scan of the list; the query it claims is resolved and completed.
    method Pass(r: Q.Resolution) returns (more: bool)
      requires Valid() && Owned(null)
      modifies this`first, this`last, this`list, this`log, this`fault, nodes`prev, nodes`next
      modifies nodes`running, nodes`processing, nodes`result, nodes`freed, clients.Values`query, this`handles
      ensures Valid() && Owned(null) && View() == Next(old(View()), r)
      ensures more == (Waiting(old(View())) && !fault)
    {
      more := false;
      if !fault {
        more := Scan(r);
      }
    }

    method Scan(r: Q.Resolution) returns (more: bool)
      requires Valid() && Owned(null) && !fault
      modifies this`first, this`last, this`list, this`log, this`fault, nodes`prev, nodes`next
      modifies nodes`running, nodes`processing, nodes`result, nodes`freed, clients.Values`query, this`handles
      ensures Valid() && Owned(null) && View() == Next(old(View()), r)
      ensures more == (Waiting(old(View())) && !fault)
    {
      hide Chained, Distinct, Alive, Held, AllPointed;
      ghost var s := View();
      ghost var k;
      var q;
      q, k := FirstToClaim();
      assert Waiting(s) == (q != null);
      if q != null {
        Turn(q, k, r);
      }
      more := q != null && !fault;
    }

    /** iodns_process_queries: the scan starts over after every query. Resolution number n is
        `env(n)`; callbacks start no queries, but may abort some. The loop stops when it has used freed memory. */
    method ProcessQueries(env: nat -> Q.Resolution)
      requires Valid() && Owned(null)
      modifies this`first, this`last, this`list, this`log, this`fault, nodes`prev, nodes`next
      modifies nodes`running, nodes`processing, nodes`result, nodes`freed, clients.Values`query, this`handles
      ensures Valid() && Owned(null) && Q.Distinct(old(View()).list)
      ensures View() == Q.Process(old(View()), env, 0)
    {
      ViewDistinct();
      ghost var s, c := View(), View();
      var n, more := 0, true;
      while more
        invariant Valid() && Owned(null) && View() == c && (more ==> Q.Distinct(c.list))
        invariant Q.Process(s, env, 0) == if more then Q.Process(c, env, n) else c
        decreases more, Q.Backlog(c.list)
      {
        var r := env(n);
        ProcessStep(c, env, n);
        more := Pass(r);
        c := Next(c, r);
        n := n + 1;
      }
    }

    // ---------- runs ----------

    /** iodns_getaddrinfo, or the lookup of a socket: the query is created and started. */
    method Open(id: nat, public: bool)
      requires Valid() && Owned(null) && Fresh(id) && !fault
      modifies this`first, this`last, this`clients, this`handles, this`list, this`nodes, nodes`next
      modifies nodes`running, nodes`processing, nodes`result
      ensures Valid() && Owned(null) && fresh(nodes - old(nodes)) && fresh(clients.Values - old(clients.Values))
      ensures forall i :: old(Fresh(i)) && i != id ==> Fresh(i)
      ensures View() == Q.Opened(old(View()), id, public) && log == old(log)
    {
      hide Chained, Distinct, Alive, Held, AllPointed, Pointed, ValuesOf;
      ghost var l := ValuesOf(list);
      if public {
        Create(id);
      } else {
        CreateForSocket(id);
      }
      OpenedIs(l, id);
      StartLast(|l|);
    }

    lemma OpenedIs(l: seq<Q.Query>, id: nat)
      ensures var q := Q.Query(id, true, false, []); (l + [q.(running := false)])[|l| := q] == l + [q]
    {
    }

    method StartLast(ghost n: nat)
      requires Valid() && Owned(null) && |list| == n + 1
      modifies nodes`running, nodes`processing, nodes`result
      ensures Valid() && Owned(null)
      ensures View() == var s := old(View()); s.(list := s.list[n := s.list[n].(running := true)])
    {
      Start(last, n);
    }

    method Handle(op: Q.Op)
      requires Valid() && Owned(null) && (op.Open? ==> Fresh(op.id))
      modifies this, nodes, clients.Values
      ensures Valid() && Owned(null) && View() == Q.Step(old(View()), op)
      ensures fresh(nodes - old(nodes)) && fresh(clients.Values - old(clients.Values))
      ensures forall i :: old(Fresh(i)) && !(op.Open? && i == op.id) ==> Fresh(i)
    {
      ViewDistinct();
      match op
      case Open(id, public) =>
        if !fault {
          Open(id, public);
        }
      case Stopping(id) => Abort(id, null);
      case Processing(env) => ProcessQueries(env);
    }

    /** Any operations on a list that starts empty: it stays well formed, and what it comes to is the
        run on values. A client that aborts no query twice makes it use no freed memory; then each
        query meets its fate, and processing leaves none. */
    static method Serve(ops: seq<Q.Op>) returns (l: QueryList)
      requires Q.NewIds(ops)
      ensures fresh(l) && fresh(l.nodes) && fresh(l.clients.Values)
      ensures l.Valid() && l.Owned(null) && l.View() == Q.Run(ops)
      ensures forall id :: id !in Q.OpenedIds(ops) ==> l.Fresh(id)
      ensures Q.NoneTwice(Q.RunAborts(ops)) ==> !l.View().fault
      ensures !l.View().fault ==> forall id :: id in Q.OpenedIds(ops) ==> Q.AsFated(ops, id, l.View())
      ensures !l.View().fault && ops != [] && ops[|ops| - 1].Processing? ==> l.View().list == []
      decreases |ops|
    {
      hide Chained, Distinct, ValuesOf, Q.AsFated;
      Q.SafeIfOnce(ops);
      Q.RunSettles(ops);
      if ops == [] {
        l := new QueryList();
      } else {
        Q.NewIdsBefore(ops);
        l := Serve(ops[..|ops| - 1]);
        l.Handle(ops[|ops| - 1]);
      }
    }
  }
}
