/** The timer list of IOTimer.c: an intrusive doubly linked list sorted by deadline. Each
    method is proved against the queue values of Schedule. */
module Timers {
  import opened Basics
  import opened TimeVals
  import opened Schedule

  /** struct IOTimerDescriptor, the client's handle; `iotimer` is null once destroyed. */
  class Descriptor {
    var iotimer: Timer?

    constructor ()
      ensures iotimer == null
    {
      iotimer := null;
    }
  }

  /** struct _IOTimerDescriptor; each flag bit is a field, and a non-null `parent` stands for
      IOTIMERFLAG_PARENT_PUBLIC. */
  class Timer {
    var prev: Timer?
    var next: Timer?
    var timeout: TimeVal
    var autoreload: TimeVal
    var active: bool
    var inList: bool
    var periodic: bool
    var persistent: bool
    var parent: Descriptor?

    // _create_timer
    constructor (timeout: Option<TimeVal>)
      ensures prev == null && next == null && parent == null
      ensures !active && !inList && !periodic && !persistent
      ensures this.timeout == (if timeout.Some? then timeout.value else ZERO) && autoreload == ZERO
    {
      prev, next, parent := null, null, null;
      active, inList, periodic, persistent := false, false, false, false;
      this.timeout := if timeout.Some? then timeout.value else ZERO;
      autoreload := ZERO;
    }
  }

  ghost function EntryOf(t: Timer): Entry<Timer>
    reads t`timeout, t`periodic, t`autoreload
  {
    Entry(t, t.timeout, if t.periodic then Some(t.autoreload) else None)
  }

  ghost function EntriesOf(s: seq<Timer>): (q: seq<Entry<Timer>>)
    reads s`timeout, s`periodic, s`autoreload
    ensures |q| == |s|
    ensures forall i :: 0 <= i < |s| ==> q[i] == EntryOf(s[i])
  {
    if s == [] then [] else [EntryOf(s[0])] + EntriesOf(s[1..])
  }

  /** What a link holds that points to position `i`. */
  ghost function At(l: seq<Timer>, i: int): Timer? {
    if 0 <= i < |l| then l[i] else null
  }

  /** `l` is the list that starts at `head`: its ends are open and prev and next are inverse. */
  ghost predicate Chained(head: Timer?, l: seq<Timer>)
    reads l`prev, l`next
  {
    && head == At(l, 0)
    && (forall i {:trigger l[i].prev} :: 0 <= i < |l| ==> l[i].prev == At(l, i - 1))
    && (forall i {:trigger l[i].next} :: 0 <= i < |l| ==> l[i].next == At(l, i + 1))
  }

  ghost predicate Distinct(l: seq<Timer>) {
    forall i, j :: 0 <= i < j < |l| ==> l[i] != l[j]
  }

  lemma SamePlace(l: seq<Timer>, j: nat, k: nat)
    requires Distinct(l) && j < |l| && k < |l| && l[j] == l[k]
    ensures j == k
  {
  }

  ghost function Without(l: seq<Timer>, t: Timer): seq<Timer> {
    if l == [] then [] else if l[0] == t then l[1..] else [l[0]] + Without(l[1..], t)
  }

  lemma {:induction false} WithoutAt(l: seq<Timer>, k: nat)
    requires k < |l| && Distinct(l)
    ensures Without(l, l[k]) == Cut(l, k)
  {
    if k == 0 {
      assert Cut(l, 0) == l[1..];
    } else {
      assert l[k] == l[1..][k - 1] && l[0] != l[k];
      WithoutAt(l[1..], k - 1);
      assert Cut(l, k) == [l[0]] + Cut(l[1..], k - 1);
    }
  }

  lemma {:induction false} WithoutAbsent(l: seq<Timer>, t: Timer)
    requires t !in l
    ensures Without(l, t) == l
  {
    if l != [] {
      WithoutAbsent(l[1..], t);
    }
  }

  lemma {:induction false} RemoveEntry(l: seq<Timer>, t: Timer)
    ensures Remove(EntriesOf(l), t) == EntriesOf(Without(l, t))
  {
    if l != [] {
      assert EntriesOf(l)[1..] == EntriesOf(l[1..]);
      RemoveEntry(l[1..], t);
      if l[0] != t {
        assert Without(l, t)[1..] == Without(l[1..], t);
      }
    }
  }

  lemma InsertEntry(l: seq<Timer>, t: Timer)
    ensures Insert(EntriesOf(l), EntryOf(t)) == EntriesOf(Put(l, InsertPos(EntriesOf(l), t.timeout), t))
  {
  }

  /** The links of `l` with the element at position `k` passed over in both directions. */
  ghost predicate Bypassed(l: seq<Timer>, k: nat)
    reads l`prev, l`next
  {
    && (forall j {:trigger l[j].prev} :: 0 <= j < |l| ==> l[j].prev == At(l, if j == k + 1 then k - 1 else j - 1))
    && (forall j {:trigger l[j].next} :: 0 <= j < |l| ==> l[j].next == At(l, if j == k - 1 then k + 1 else j + 1))
  }

  lemma CutChained(l: seq<Timer>, k: nat)
    requires k < |l| && Bypassed(l, k)
    ensures Chained(At(Cut(l, k), 0), Cut(l, k))
  {
    var c := Cut(l, k);
    forall i | 0 <= i < |c|
      ensures c[i].prev == At(c, i - 1) && c[i].next == At(c, i + 1)
    {
      assert c[i] == l[if i < k then i else i + 1];
    }
  }

  lemma CutDistinct(l: seq<Timer>, k: nat)
    requires k < |l| && Distinct(l)
    ensures Distinct(Cut(l, k))
    ensures forall t :: t in Cut(l, k) <==> t in l && t != l[k]
  {
    forall t | t in l && t != l[k]
      ensures t in Cut(l, k)
    {
      var i :| 0 <= i < |l| && l[i] == t;
      assert Cut(l, k)[if i < k then i else i - 1] == t;
    }
  }

  /** The links of `l` opened at position `p` for `t`, whatever the links of `t` itself hold. */
  ghost predicate Opened(l: seq<Timer>, p: nat, t: Timer)
    reads l`prev, l`next
  {
    && (forall j {:trigger l[j].prev} :: 0 <= j < |l| ==> l[j].prev == if j == p then t else At(l, j - 1))
    && (forall j {:trigger l[j].next} :: 0 <= j < |l| ==> l[j].next == if j == p - 1 then t else At(l, j + 1))
  }

  lemma PutChained(l: seq<Timer>, p: nat, t: Timer)
    requires p <= |l| && Opened(l, p, t)
    ensures Chained(if p == 0 then t else l[0], Put(l, p, t)) <==> t.prev == At(l, p - 1) && t.next == At(l, p)
  {
    var c := Put(l, p, t);
    assert c[p] == t && At(c, p - 1) == At(l, p - 1) && At(c, p + 1) == At(l, p);
    forall i | 0 <= i < |c| && i != p
      ensures c[i].prev == At(c, i - 1) && c[i].next == At(c, i + 1)
    {
      assert c[i] == l[if i < p then i else i - 1];
    }
  }

  lemma PutDistinct(l: seq<Timer>, p: nat, t: Timer)
    requires p <= |l| && Distinct(l) && t !in l
    ensures Distinct(Put(l, p, t))
    ensures forall u :: u in Put(l, p, t) <==> u in l || u == t
  {
    assert Put(l, p, t)[p] == t;
    forall u | u in l
      ensures u in Put(l, p, t)
    {
      var i :| 0 <= i < |l| && l[i] == u;
      assert Put(l, p, t)[if i < p then i else i + 1] == u;
    }
  }

  class TimerList {
    // iotimer_sorted_descriptors
    var head: Timer?
    ghost var list: seq<Timer>
    // The timers that are allocated.
    ghost var timers: set<Timer>
    // The descriptors handed to clients.
    ghost var owners: set<Descriptor>
    // What was handed to iogc_add, in order.
    ghost var collected: seq<Descriptor>

    /** The list holds, once each, the timers whose IN_LIST flag is set. */
    ghost predicate Listed()
      reads this`list, this`timers, timers`inList
    {
      && Distinct(list)
      && (forall t :: t in list ==> t in timers && t.inList)
      && (forall t :: t in timers && t.inList ==> t in list)
    }

    ghost predicate Shape()
      reads this`head, this`list, this`timers, timers`inList, timers`prev, timers`next
    {
      && Listed()
      && Chained(head, list)
    }

    ghost function Entries(): (q: seq<Entry<Timer>>)
      reads this`list, list`timeout, list`periodic, list`autoreload
    {
      EntriesOf(list)
    }

    // The pointer updates that take the timer at position k out.
    method Bypass(t: Timer, ghost k: nat)
      requires Listed() && Chained(head, list) && k < |list| && list[k] == t
      modifies this`head, timers`prev, timers`next
      ensures head == At(Cut(list, k), 0)
      ensures Bypassed(list, k)
      ensures forall u :: u in timers && u !in list ==> u.prev == old(u.prev) && u.next == old(u.next)
    {
      assert t.prev == At(list, k - 1) && t.next == At(list, k + 1);
      if t.prev == null {
        head := t.next;
      } else {
        t.prev.next := t.next;
      }
      if t.next != null {
        t.next.prev := t.prev;
      }
    }

    /** The unlinking of _rearrange_timer and _destroy_timer, as written: the timer keeps its
        own links. */
    method Unlink(t: Timer) returns (ghost k: nat)
      requires Shape() && t in timers && t.inList
      modifies this`head, this`list, timers`prev, timers`next, t`inList
      ensures Shape() && !t.inList && t.prev == old(t.prev) && t.next == old(t.next)
      ensures k < |old(list)| && old(list)[k] == t && list == Cut(old(list), k)
      ensures forall u :: u in timers && !old(u.inList) ==> u.prev == old(u.prev) && u.next == old(u.next)
    {
      k :| 0 <= k < |list| && list[k] == t;
      Bypass(t, k);
      CutChained(list, k);
      CutDistinct(list, k);
      t.inList := false;
      list := Cut(list, k);
    }

    // Puts `t` in front of `c`, which is at position `p`.
    method PutBefore(t: Timer, c: Timer, ghost p: nat)
      requires Listed() && Chained(head, list) && t in timers && t !in list
      requires p < |list| && list[p] == c
      modifies this`head, timers`prev, timers`next
      ensures Opened(list, p, t) && head == (if p == 0 then t else list[0])
      ensures t.prev == At(list, p - 1) && t.next == c
      ensures forall u :: u in timers && u !in list && u != t ==> u.prev == old(u.prev) && u.next == old(u.next)
    {
      assert c.prev == At(list, p - 1);
      t.next := c;
      t.prev := c.prev;
      if c.prev != null {
        c.prev.next := t;
      } else {
        head := t;
      }
      c.prev := t;
    }

    // Puts `t` behind the last timer `c`; the `next` of `t` is left as it is.
    method PutAfter(t: Timer, c: Timer)
      requires Listed() && Chained(head, list) && t in timers && t !in list
      requires list != [] && list[|list| - 1] == c
      modifies timers`prev, timers`next
      ensures Opened(list, |list|, t)
      ensures t.prev == c && t.next == old(t.next)
      ensures forall u :: u in timers && u !in list && u != t ==> u.prev == old(u.prev) && u.next == old(u.next)
    {
      c.next := t;
      t.prev := c;
    }

    // The walk of _rearrange_timer, which opens the list for `t`.
    method Open(t: Timer) returns (ghost p: nat)
      requires Listed() && Chained(head, list) && t in timers && t !in list
      modifies this`head, timers`prev, timers`next
      ensures p <= |list| && forall i :: 0 <= i < p ==> !IsBigger(list[i].timeout, t.timeout)
      ensures p < |list| ==> IsBigger(list[p].timeout, t.timeout)
      ensures Opened(list, p, t) && head == (if p == 0 then t else list[0])
      ensures t.prev == (if list == [] then old(t.prev) else At(list, p - 1))
      ensures t.next == (if p == |list| then old(t.next) else list[p])
      ensures forall u :: u in timers && u !in list && u != t ==> u.prev == old(u.prev) && u.next == old(u.next)
    {
      p := 0;
      var c := head;
      while c != null
        invariant c == At(list, p) && (p < |list| || p == |list| == 0)
        invariant Chained(head, list)
        invariant forall i :: 0 <= i < p ==> !IsBigger(list[i].timeout, t.timeout)
        invariant forall u :: u in timers ==> u.prev == old(u.prev) && u.next == old(u.next)
        decreases |list| - p
      {
        if IsBigger(c.timeout, t.timeout) {
          PutBefore(t, c, p);
          return;
        } else if c.next == null {
          p := p + 1;
          PutAfter(t, c);
          return;
        }
        c := c.next;
        p := p + 1;
      }
      head := t;
    }

    /** The insertion of _rearrange_timer, as written. It sets both links of the timer only when
        it puts it in front of another one; what the others hold decides whether the list stays
        well formed. */
    method LinkIn(t: Timer) returns (ghost p: nat)
      requires Shape() && t in timers && !t.inList
      modifies this`head, this`list, timers`prev, timers`next, t`inList
      ensures p == InsertPos(old(Entries()), t.timeout) && t.inList
      ensures list == Put(old(list), p, t)
      ensures Listed()
      ensures Chained(head, list) <==>
        p < |old(list)| || (old(t.next) == null && (old(list) == [] ==> old(t.prev) == null))
      ensures forall u :: u in timers && !u.inList ==> u.prev == old(u.prev) && u.next == old(u.next)
    {
      hide Chained, Opened, Distinct;
      ghost var q := Entries();
      p := Open(t);
      InsertPosUnique(q, t.timeout, p);
      ghost var l := list;
      t.inList := true;
      list := Put(l, p, t);
      PutDistinct(l, p, t);
      PutChained(l, p, t);
    }

    // ---------- the whole list ----------

    // Timers that are not in the list have no links.
    ghost predicate Cleared()
      reads timers`inList, timers`prev, timers`next, this`timers
    {
      forall t :: t in timers && !t.inList ==> t.prev == null && t.next == null
    }

    // Public timers and their descriptors point at each other.
    ghost predicate Owned()
      reads this`timers, this`owners, timers`parent, owners`iotimer
    {
      && (forall t :: t in timers && t.parent != null ==> t.parent in owners && t.parent.iotimer == t)
      && (forall d :: d in owners && d.iotimer != null ==> d.iotimer in timers && d.iotimer.parent == d)
    }

    // IN_LIST implies ACTIVE, except for a timer about to be rearranged.
    ghost predicate OthersActive(t: Timer?)
      reads this`timers, timers`inList, timers`active
    {
      forall u :: u in timers && u.inList && u != t ==> u.active
    }

    /** The list is well formed, holds only active timers and is sorted by deadline. */
    ghost predicate Valid()
      reads this, timers, owners
    {
      Shape() && Cleared() && Owned() && OthersActive(null) && Sorted(Entries())
    }

    /** Valid but for the deadline and the ACTIVE flag of `t`, which may have just changed. */
    ghost predicate ValidBut(t: Timer)
      reads this, timers, owners
    {
      t in timers && Shape() && Cleared() && Owned() && OthersActive(t) && Sorted(Remove(Entries(), t))
    }

    /** _rearrange_timer, also when the deadline changed while the timer was linked. */
    method Rearrange(t: Timer)
      requires ValidBut(t)
      modifies this`head, this`list, timers`prev, timers`next, timers`inList
      ensures Valid()
      ensures Entries() ==
        if t.active then Insert(old(Remove(Entries(), t)), EntryOf(t)) else old(Remove(Entries(), t))
    {
      RemoveEntry(list, t);
      ghost var q := EntriesOf(Without(list, t));
      Detach(t);
      assert Entries() == q;
      if t.active {
        Attach(t);
      }
    }

    // Changed from the source: unlinking also clears the links of the timer. Lines 198-206
    // keep them, and then LinkIn can leave them stale; see RearmAsWritten.
    method Detach(t: Timer)
      requires t in timers && Shape() && Cleared()
      modifies this`head, this`list, timers`prev, timers`next, timers`inList
      ensures Shape() && Cleared()
      ensures !t.inList && forall u :: u in timers && u != t ==> u.inList == old(u.inList)
      ensures list == Without(old(list), t)
    {
      if t.inList {
        ghost var l := list;
        ghost var k := Unlink(t);
        WithoutAt(l, k);
        t.prev, t.next := null, null;
      } else {
        WithoutAbsent(list, t);
      }
    }

    method Attach(t: Timer)
      requires Valid() && t in timers && t.active && !t.inList
      modifies this`head, this`list, timers`prev, timers`next, timers`inList
      ensures Valid() && Entries() == Insert(old(Entries()), EntryOf(t))
    {
      ghost var q, e := Entries(), EntryOf(t);
      InsertCleared(t);
      InsertSorted(q, e);
    }

    // An insertion of a timer whose links are clear keeps the list well formed.
    method InsertCleared(t: Timer)
      requires Shape() && Cleared() && OthersActive(null) && t in timers && t.active && !t.inList
      modifies this`head, this`list, timers`prev, timers`next, timers`inList
      ensures Shape() && Cleared() && OthersActive(null)
      ensures Entries() == Insert(old(Entries()), old(EntryOf(t)))
    {
      hide Chained, Distinct, EntriesOf;
      ghost var q, l, e := Entries(), list, EntryOf(t);
      ghost var p := LinkIn(t);
      assert EntriesOf(l) == q && EntryOf(t) == e;
      InsertEntry(l, t);
    }

    // ---------- the public operations ----------

    constructor ()
      ensures Valid() && Entries() == [] && timers == {} && owners == {} && collected == []
    {
      head := null;
      list, timers, owners, collected := [], {}, {}, [];
    }

    // _create_timer
    method Allocate(timeout: Option<TimeVal>) returns (t: Timer)
      requires Valid()
      modifies this`timers
      ensures Valid() && Entries() == old(Entries())
      ensures fresh(t) && timers == old(timers) + {t}
      ensures t.parent == null && !t.active && !t.inList && !t.periodic && !t.persistent
      ensures t.timeout == (if timeout.Some? then timeout.value else ZERO)
    {
      ghost var q := Entries();
      t := new Timer(timeout);
      timers := timers + {t};
      assert Entries() == q;
    }

    /** iotimer_create */
    method Create(timeout: Option<TimeVal>) returns (d: Descriptor)
      requires Valid()
      modifies this`timers, this`owners
      ensures Valid() && Entries() == old(Entries())
      ensures fresh(d) && d.iotimer != null && fresh(d.iotimer)
      ensures timers == old(timers) + {d.iotimer} && owners == old(owners) + {d}
      ensures d.iotimer.timeout == (if timeout.Some? then timeout.value else ZERO)
      ensures !d.iotimer.active && !d.iotimer.periodic && !d.iotimer.persistent
    {
      d := new Descriptor();
      var t := Allocate(timeout);
      Publish(d, t);
    }

    method Publish(d: Descriptor, t: Timer)
      requires Valid() && t in timers && t.parent == null && d !in owners
      modifies this`owners, t`parent, d`iotimer
      ensures Valid() && owners == old(owners) + {d} && d.iotimer == t
    {
      hide Chained, Distinct, Sorted;
      ghost var q := Entries();
      assert forall u :: u in timers ==> u.parent != d;
      t.parent := d;
      d.iotimer := t;
      owners := owners + {d};
      assert Entries() == q;
    }

    /** iotimer_start; also arms a running timer again, behind the timers with its deadline. */
    method Start(d: Descriptor)
      requires Valid() && d in owners
      modifies this`head, this`list, timers`prev, timers`next, timers`inList, timers`active
      ensures Valid()
      ensures d.iotimer == null ==> Entries() == old(Entries())
      ensures d.iotimer != null ==>
        && d.iotimer.active
        && Entries() == Insert(old(Remove(Entries(), d.iotimer)), EntryOf(d.iotimer))
      ensures forall t :: t in timers && t != d.iotimer ==> t.active == old(t.active)
    {
      var t := d.iotimer;
      if t == null {
        return;
      }
      RemoveSorted(Entries(), t);
      t.active := true;
      Rearrange(t);
    }

    /** iotimer_set_timeout. A missing argument only logs a warning. */
    method SetTimeout(d: Descriptor, timeout: Option<TimeVal>)
      requires Valid() && d in owners
      modifies this`head, this`list, timers`prev, timers`next, timers`inList, timers`timeout
      ensures Valid()
      ensures d.iotimer == null || timeout.None? ==> Entries() == old(Entries())
      ensures d.iotimer != null && timeout.Some? ==>
        Entries() == var others := old(Remove(Entries(), d.iotimer));
            if d.iotimer.active then Insert(others, EntryOf(d.iotimer)) else others
      ensures forall t :: t in timers ==>
        t.timeout == if t == d.iotimer && timeout.Some? then timeout.value else old(t.timeout)
    {
      var t := d.iotimer;
      if t == null || timeout.None? {
        return;
      }
      WriteDeadline(t, timeout.value);
      Rearrange(t);
    }

    // Writing a deadline or a period leaves what is queued of the other timers alone.
    method WriteDeadline(t: Timer, timeout: TimeVal)
      requires Valid() && t in timers
      modifies t`timeout
      ensures t.timeout == timeout
      ensures ValidBut(t) && Remove(Entries(), t) == old(Remove(Entries(), t))
    {
      ghost var q := Entries();
      RemoveSorted(q, t);
      t.timeout := timeout;
      RemoveDiffers(q, Entries(), t);
    }

    method WritePeriod(t: Timer, periodic: bool, autoreload: TimeVal)
      requires Valid() && t in timers
      modifies t`periodic, t`autoreload
      ensures Valid() && t.periodic == periodic && t.autoreload == autoreload
      ensures Remove(Entries(), t) == old(Remove(Entries(), t))
    {
      ghost var q := Entries();
      SetPeriod(t, periodic, autoreload);
      RemoveDiffers(q, Entries(), t);
      SortedByDeadline(q, Entries());
    }

    method SetPeriod(t: Timer, periodic: bool, autoreload: TimeVal)
      modifies t`periodic, t`autoreload
      ensures t.periodic == periodic && t.autoreload == autoreload
      ensures Shape() == old(Shape()) && Cleared() == old(Cleared())
      ensures Owned() == old(Owned()) && OthersActive(null) == old(OthersActive(null))
    {
      t.periodic, t.autoreload := periodic, autoreload;
    }

    /** iotimer_set_autoreload; `now` is the clock, read when no deadline was given yet. */
    method SetAutoreload(d: Descriptor, autoreload: Option<TimeVal>, now: TimeVal)
      requires Valid() && d in owners
      modifies this`head, this`list, timers`prev, timers`next, timers`inList
      modifies timers`timeout, timers`periodic, timers`autoreload
      ensures Valid()
      ensures d.iotimer == null ==> Entries() == old(Entries())
      ensures d.iotimer != null ==> var t := d.iotimer;
        && t.periodic == autoreload.Some?
        && t.autoreload == (if autoreload.Some? then autoreload.value else old(t.autoreload))
        && t.timeout == (if autoreload.Some? && old(t.timeout) == ZERO
                         then Reload(now, autoreload.value) else old(t.timeout))
      ensures d.iotimer != null && autoreload.Some? && old(d.iotimer.timeout) == ZERO ==>
        Entries() == var others := old(Remove(Entries(), d.iotimer));
          if d.iotimer.active then Insert(others, EntryOf(d.iotimer)) else others
      ensures d.iotimer != null && !(autoreload.Some? && old(d.iotimer.timeout) == ZERO) ==>
        list == old(list)
      ensures forall t :: t in timers && t != d.iotimer ==>
        t.timeout == old(t.timeout) && t.periodic == old(t.periodic) && t.autoreload == old(t.autoreload)
    {
      var t := d.iotimer;
      if t == null {
        return;
      }
      if autoreload.Some? {
        WritePeriod(t, true, autoreload.value);
        if t.timeout == ZERO {
          WriteDeadline(t, Reload(now, autoreload.value));
          Rearrange(t);
        }
      } else {
        WritePeriod(t, false, t.autoreload);
      }
    }

    /** iotimer_set_persistent */
    method SetPersistent(d: Descriptor, persistent: bool)
      requires Valid() && d in owners
      modifies timers`persistent
      ensures Valid() && Entries() == old(Entries())
      ensures d.iotimer != null ==> d.iotimer.persistent == persistent
      ensures forall t :: t in timers && t != d.iotimer ==> t.persistent == old(t.persistent)
    {
      if d.iotimer != null {
        d.iotimer.persistent := persistent;
      }
    }

    /** _destroy_timer: freeing takes the timer out of `timers`. */
    method DestroyTimer(t: Timer)
      requires t in timers && Shape() && Cleared() && OthersActive(t)
      modifies this`head, this`list, this`timers, timers`prev, timers`next, t`inList
      ensures Shape() && Cleared() && OthersActive(null)
      ensures timers == old(timers) - {t} && list == Without(old(list), t)
    {
      if t.inList {
        ghost var l := list;
        ghost var k := Unlink(t);
        WithoutAt(l, k);
      } else {
        WithoutAbsent(list, t);
      }
      timers := timers - {t};
    }

    /** iotimer_destroy */
    method Destroy(d: Descriptor)
      requires Valid() && d in owners
      modifies this`head, this`list, this`timers, this`collected
      modifies timers`prev, timers`next, timers`inList, d`iotimer
      ensures Valid() && d.iotimer == null
      ensures old(d.iotimer) == null ==>
        Entries() == old(Entries()) && timers == old(timers) && collected == old(collected)
      ensures old(d.iotimer) != null ==>
        && Entries() == old(Remove(Entries(), d.iotimer))
        && timers == old(timers) - {old(d.iotimer)}
        && collected == old(collected) + [d]
    {
      var t := d.iotimer;
      if t == null {
        return;
      }
      RemoveSorted(Entries(), t);
      Release(d, t);
    }

    method Release(d: Descriptor, t: Timer)
      requires d in owners && d.iotimer == t && ValidBut(t)
      modifies this`head, this`list, this`timers, this`collected
      modifies timers`prev, timers`next, timers`inList, d`iotimer
      ensures Valid() && d.iotimer == null
      ensures Entries() == old(Remove(Entries(), t))
      ensures timers == old(timers) - {t} && collected == old(collected) + [d]
    {
      hide Chained, Distinct, Sorted, Remove, EntriesOf, Without;
      RemoveEntry(list, t);
      ghost var q := EntriesOf(Without(list, t));
      d.iotimer := null;
      collected := collected + [d];
      DestroyTimer(t);
      assert Entries() == q;
    }

    /** iotimer_stop: only a persistent timer outlives being stopped. */
    method Stop(d: Descriptor)
      requires Valid() && d in owners
      modifies this`head, this`list, this`timers, this`collected
      modifies timers`prev, timers`next, timers`inList, timers`active, d`iotimer
      ensures Valid()
      ensures old(d.iotimer) == null ==> Entries() == old(Entries()) && timers == old(timers)
      ensures old(d.iotimer) != null ==> var t := old(d.iotimer);
        && Entries() == old(Remove(Entries(), d.iotimer))
        && (if t.persistent then d.iotimer == t && !t.active && timers == old(timers)
            else d.iotimer == null && timers == old(timers) - {t} && collected == old(collected) + [d])
      ensures forall t :: t in timers && t != old(d.iotimer) ==> t.active == old(t.active)
      ensures old(d.iotimer) == null || old(d.iotimer.persistent) ==> collected == old(collected)
    {
      var t := d.iotimer;
      if t == null {
        return;
      }
      RemoveSorted(Entries(), t);
      t.active := false;
      if t.persistent {
        Rearrange(t);
      } else {
        Release(d, t);
      }
    }

    // ---------- the trigger loop ----------

    /** Deadlines are in range and periods positive, as the loop needs in order to end. */
    ghost predicate Proper()
      reads this`timers, timers`timeout, timers`periodic, timers`autoreload
    {
      forall t :: t in timers ==> EntryOk(EntryOf(t))
    }

    lemma ProperRuns()
      requires Valid() && Proper()
      ensures Runnable(Entries())
    {
    }

    /** Lines 264-267, as written: the head goes out of the list and keeps its own links. */
    method PopAsWritten(t: Timer)
      requires Shape() && list != [] && t == list[0]
      modifies this`head, this`list, timers`prev, timers`next, timers`inList
      ensures Shape() && !t.inList && list == old(list)[1..]
      ensures t.prev == old(t.prev) && t.next == old(t.next)
      ensures forall u :: u in timers && u != t ==> u.inList == old(u.inList)
      ensures forall u :: u in timers && u != t && !u.inList ==> u.prev == old(u.prev) && u.next == old(u.next)
    {
      ghost var l := list;
      assert t.prev == At(l, -1) && t.next == At(l, 1);
      head := t.next;
      if t.next != null {
        t.next.prev := t.prev;
      }
      CutChained(l, 0);
      CutDistinct(l, 0);
      assert Cut(l, 0) == l[1..];
      t.inList := false;
      list := l[1..];
    }

    // Changed from the source: taking the head out also clears its links.
    method PopHead(t: Timer)
      requires Shape() && Cleared() && list != [] && t == list[0]
      modifies this`head, this`list, timers`prev, timers`next, timers`inList
      ensures Shape() && Cleared()
      ensures !t.inList && list == old(list)[1..]
      ensures forall u :: u in timers && u != t ==> u.inList == old(u.inList)
    {
      PopAsWritten(t);
      t.prev, t.next := null, null;
    }

    /** _autoreload_timer */
    method Autoreload(t: Timer)
      requires Valid() && t in timers
      modifies this`head, this`list, timers`prev, timers`next, timers`inList, t`timeout
      ensures Valid() && t.timeout == Reload(old(t.timeout), t.autoreload)
      ensures Entries() == var others := old(Remove(Entries(), t));
        if t.active then Insert(others, EntryOf(t)) else others
    {
      WriteDeadline(t, Reload(t.timeout, t.autoreload));
      Rearrange(t);
    }

    method Pop(t: Timer)
      requires Valid() && list != [] && t == list[0]
      modifies this`head, this`list, timers`prev, timers`next, timers`inList
      ensures Valid() && t in timers && !t.inList && t.active
      ensures EntryOf(t) == old(Entries())[0]
      ensures Entries() == old(Entries())[1..] && Remove(Entries(), t) == Entries()
    {
      ghost var q := Entries();
      assert t in list;
      PopHead(t);
      assert Entries() == q[1..];
      RemoveEntry(list, t);
      WithoutAbsent(list, t);
    }

    // _destroy_timer for an internal timer that has just been popped.
    method Discard(t: Timer)
      requires Valid() && t in timers && !t.inList && t.parent == null
      modifies this`head, this`list, this`timers, timers`prev, timers`next, t`inList
      ensures Valid() && timers == old(timers) - {t} && Entries() == old(Entries())
    {
      ghost var q := Entries();
      WithoutAbsent(list, t);
      DestroyTimer(t);
      assert Entries() == q;
    }

    method Rearm(t: Timer)
      requires Valid() && t in timers && t.active && t.periodic && Remove(Entries(), t) == Entries()
      modifies this`head, this`list, timers`prev, timers`next, timers`inList, t`timeout
      ensures Valid() && Entries() == Insert(old(Entries()), Reloaded(old(EntryOf(t))))
      ensures t.timeout == Reload(old(t.timeout), t.autoreload)
    {
      Autoreload(t);
    }

    method Retire(t: Timer)
      requires Valid() && t in timers && !t.inList && Remove(Entries(), t) == Entries()
      modifies this`head, this`list, this`timers, this`collected
      modifies timers`prev, timers`next, timers`inList, owners`iotimer
      ensures Valid() && timers == old(timers) - {t} && Entries() == old(Entries())
      ensures collected == old(collected) + (if t.parent == null then [] else [t.parent])
    {
      if t.parent != null {
        Release(t.parent, t);
      } else {
        Discard(t);
      }
    }

    // The head fires, its callback leaving the timers alone, and a periodic timer is armed again.
    method FirePeriodic(t: Timer)
      requires Valid() && list != [] && t == list[0] && t.periodic
      modifies this`head, this`list, timers`prev, timers`next, timers`inList, t`timeout
      ensures Valid() && Entries() == AfterFiring(old(Entries()))
      ensures t.timeout == Reload(old(t.timeout), t.autoreload)
    {
      Pop(t);
      Rearm(t);
    }

    // The same for a one-shot, which is then destroyed, persistent or not.
    method FireOneShot(t: Timer)
      requires Valid() && list != [] && t == list[0] && !t.periodic
      modifies this`head, this`list, this`timers, this`collected
      modifies timers`prev, timers`next, timers`inList, owners`iotimer
      ensures Valid() && Entries() == AfterFiring(old(Entries()))
      ensures timers == old(timers) - {t}
      ensures collected == old(collected) + (if t.parent == null then [] else [t.parent])
    {
      Pop(t);
      Retire(t);
    }

    // A turn is one step of Run and spends some of the budget.
    method Turn(t: Timer, now: TimeVal, ghost clock: nat -> TimeVal, ghost bound: int, ghost n: nat)
      requires Valid() && Proper() && list != [] && t == list[0]
      requires ValidClock(clock, bound) && now == clock(n) && !IsBigger(t.timeout, now)
      modifies this`head, this`list, this`timers, this`collected
      modifies timers`prev, timers`next, timers`inList, t`timeout, owners`iotimer
      ensures Valid() && Proper() && Runnable(old(Entries())) && Runnable(Entries())
      ensures Run(old(Entries()), clock, n, bound)
           == After([Firing(t, old(t.timeout), now)], Run(Entries(), clock, n + 1, bound))
      ensures Budget(Entries(), bound) < Budget(old(Entries()), bound)
      ensures timers == old(timers) - (if t.periodic then {} else {t})
      ensures collected == old(collected) + HandedBy(t)
    {
      ProperRuns();
      AfterFiringRunnable(Entries());
      FiringSpendsBudget(Entries(), now, bound);
      if t.periodic {
        FirePeriodic(t);
      } else {
        FireOneShot(t);
      }
    }

    /** What a firing of `t` hands to the collector: the descriptor of a public one-shot. */
    ghost function HandedBy(t: Timer): seq<Descriptor>
      reads t`periodic, t`parent
    {
      if t.periodic || t.parent == null then [] else [t.parent]
    }

    ghost function Handed(fired: seq<Firing<Timer>>): seq<Descriptor>
      reads (set f | f in fired :: f.key)`periodic, (set f | f in fired :: f.key)`parent
    {
      if fired == [] then [] else Handed(fired[..|fired| - 1]) + HandedBy(fired[|fired| - 1].key)
    }

    lemma HandedSnoc(fired: seq<Firing<Timer>>, f: Firing<Timer>)
      ensures Handed(fired + [f]) == Handed(fired) + HandedBy(f.key)
    {
      assert (fired + [f])[..|fired|] == fired;
    }

    /** _trigger_timer; reading number i of gettimeofday is `clock(i)`. */
    method Trigger(clock: nat -> TimeVal, ghost bound: int)
      returns (ghost fired: seq<Firing<Timer>>, readings: nat)
      requires Valid() && Proper() && ValidClock(clock, bound)
      modifies this`head, this`list, this`timers, this`collected
      modifies timers`prev, timers`next, timers`inList, timers`timeout, owners`iotimer
      ensures Valid() && Proper() && Runnable(old(Entries()))
      ensures Outcome(fired, Entries(), readings) == Run(old(Entries()), clock, 0, bound)
      ensures timers <= old(timers)
      ensures forall t :: t in old(timers) ==> (t in timers <==> t.periodic || FiredOf(fired, t) == [])
      ensures forall t :: t in timers && FiredOf(fired, t) == [] ==> t.timeout == old(t.timeout)
      ensures collected == old(collected) + Handed(fired)
    {
      hide Valid, Proper, Runnable, ValidClock, Run, After, FiredOf, Handed, HandedBy, Budget, EntriesOf;
      fired, readings := [], 0;
      ProperRuns();
      ghost var start := Entries();
      NoneFired();
      AfterNothing(Run(start, clock, 0, bound));
      HeadIs();
      while head != null
        invariant Valid() && Proper() && Runnable(start) && Runnable(Entries()) && timers <= old(timers)
        invariant Run(start, clock, 0, bound) == After(fired, Run(Entries(), clock, readings, bound))
        invariant forall t :: t in old(timers) ==> (t in timers <==> t.periodic || FiredOf(fired, t) == [])
        invariant forall t :: t in timers && FiredOf(fired, t) == [] ==> t.timeout == old(t.timeout)
        invariant forall f :: f in fired ==> f.key in old(timers)
        invariant collected == old(collected) + Handed(fired)
        invariant head == At(list, 0) && (head != null ==> head in timers)
        decreases Budget(Entries(), bound)
      {
        var now := clock(readings);
        var t := head;
        if IsBigger(t.timeout, now) {
          RunStops(Entries(), clock, readings, bound);
          AfterLast(fired, Entries(), readings + 1);
          readings := readings + 1;
          return;
        }
        ghost var f: Firing<Timer> := Firing(t, t.timeout, now);
        ghost var handed := Handed(fired);
        Turn(t, now, clock, bound, readings);
        assert Handed(fired) == handed;
        readings := readings + 1;
        AfterStep(fired, f, Run(Entries(), clock, readings, bound));
        FiredOfSnoc(fired, f);
        HandedSnoc(fired, f);
        fired := fired + [f];
        HeadIs();
      }
      RunStops(Entries(), clock, readings, bound);
      AfterLast(fired, Entries(), readings);
    }

    lemma HeadIs()
      requires Valid()
      ensures head == At(list, 0) && (head != null ==> head in timers)
    {
      assert list != [] ==> list[0] in list;
    }

    lemma NoneFired()
      ensures Handed([]) == [] && forall t: Timer :: FiredOf([], t) == []
    {
    }

    /** A turn with a callback that carries out operations of its own. It may do anything but stop or
        destroy the timer that is firing, which line 276 reads again. What it leaves alone is as the
        firing left it: the fired timer is queued for its next period, or gone, and the others are
        as they were. */
    method TurnWithCallback(t: Timer, commands: seq<Command>, handles: seq<Descriptor>)
      returns (r: seq<Descriptor>)
      requires Valid() && Proper() && list != [] && t == list[0] && t.parent != null
      requires forall d :: d in handles ==> d in owners
      requires forall i :: 0 <= i < |commands| ==>
        CommandOk(commands[i]) && !commands[i].Trigger? && !EndsOne(commands[i], handles, t.parent)
      modifies this, timers, owners
      ensures Valid() && Proper() && forall d :: d in r ==> d in owners
      ensures t in timers <==> t.periodic
      ensures forall u :: u in old(timers) && u != t && !NamedBy(commands, handles, old(u.parent)) ==>
        u in timers && EntryOf(u) == old(EntryOf(u)) && (u in Keys(Entries()) <==> u in old(Keys(Entries())))
      ensures !NamedBy(commands, handles, old(t.parent)) && old(t.periodic) ==>
        t.periodic && t.timeout == Reload(old(t.timeout), old(t.autoreload)) && t in Keys(Entries())
    {
      hide Valid, Proper, EntriesOf, Extends, EndsOne, Names, NamedBy, Keys;
      ghost var d := t.parent;
      ExtendsSame(handles, owners);
      HeadListed(t);
      OwnedBack(t);
      ParentsKnown();
      Fire(t);
      label Fired:
      r := handles;
      for n := 0 to |commands|
        invariant Valid() && Proper() && t in timers && t.parent == d && d in old(owners) && old(owners) <= owners
        invariant forall d :: d in r ==> d in owners
        invariant fresh(timers - old(timers)) && fresh(owners - old(owners))
        invariant Extends(handles, r, old(owners))
        invariant forall u :: u in old(timers) && !NamedBy(commands, handles, old(u.parent)) ==>
          && u in timers && u.parent == old(u.parent) && EntryOf(u) == old@Fired(EntryOf(u))
          && (u in Keys(Entries()) <==> u in old@Fired(Keys(Entries())))
      {
        ghost var before := r;
        EndsNone(commands[n], handles, r, d, old(owners));
        forall u | u in old(timers) && !NamedBy(commands, handles, old(u.parent))
          ensures !Names(commands[n], r, old(u.parent)) && !EndsOne(commands[n], r, old(u.parent))
        {
          NamesNone(commands, n, handles, r, old(u.parent), old(owners));
        }
        r := Do(commands[n], r);
        ExtendsMore(handles, before, r, old(owners));
      }
      OwnedBack(t);
      Expire(t, t.parent);
    }

    lemma ParentsKnown()
      requires Valid()
      ensures forall u :: u in timers && u.parent != null ==> u.parent in owners
    {
    }

    // Lines 276-277.
    method Expire(t: Timer, d: Descriptor)
      requires Valid() && Proper() && t in timers && d in owners && d.iotimer == t
      modifies this`head, this`list, this`timers, this`collected
      modifies timers`prev, timers`next, timers`inList, d`iotimer
      ensures Valid() && Proper() && (t in timers <==> t.periodic) && timers + {t} == old(timers)
      ensures Keys(Entries()) + {t} == old(Keys(Entries())) + {t}
      ensures t.periodic ==> Keys(Entries()) == old(Keys(Entries()))
    {
      hide Valid, Keys, Remove, EntriesOf;
      if !t.periodic {
        KeysRemove(Entries(), t);
        Destroy(d);
      }
    }

    lemma OwnedBack(t: Timer)
      requires Valid() && t in timers && t.parent != null
      ensures t.parent in owners && t.parent.iotimer == t
    {
    }

    lemma HeadListed(t: Timer)
      requires Valid() && list != [] && t == list[0]
      ensures t in timers
    {
      assert t in list;
    }

    // The firing timer goes out of the list, and back in if it is periodic, before its callback.
    method Fire(t: Timer)
      requires Valid() && Proper() && list != [] && t == list[0]
      modifies this`head, this`list, timers`prev, timers`next, timers`inList, t`timeout
      ensures Valid() && Proper() && t in timers
      ensures Entries() == if t.periodic then AfterFiring(old(Entries())) else old(Entries())[1..]
      ensures Keys(Entries()) + {t} == old(Keys(Entries())) && (t.periodic ==> t in Keys(Entries()))
      ensures t.timeout == if t.periodic then Reload(old(t.timeout), t.autoreload) else old(t.timeout)
    {
      hide Valid, EntriesOf, Keys, Insert;
      HeadListed(t);
      KeysCons(Entries());
      if t.periodic {
        KeysInsert(Entries()[1..], Reloaded(EntryOf(t)));
      }
      Pop(t);
      if t.periodic {
        Rearm(t);
      }
    }

    // ---------- all sequences of operations ----------

    /** Carries out one operation; a handle is the number of the Create call that returned it. */
    method Do(c: Command, handles: seq<Descriptor>) returns (r: seq<Descriptor>)
      requires Valid() && Proper() && CommandOk(c)
      requires forall d :: d in handles ==> d in owners
      modifies this, timers, owners
      ensures Valid() && Proper()
      ensures fresh(timers - old(timers)) && fresh(owners - old(owners)) && old(owners) <= owners
      ensures forall d :: d in r ==> d in owners
      ensures r == handles || (c.Create? && |r| == |handles| + 1 && r[..|handles|] == handles && fresh(r[|handles|]))
      ensures forall u :: u in old(timers) ==> u.parent == old(u.parent)
      ensures !c.Trigger? ==> forall u :: u in old(timers) && !EndsOne(c, handles, old(u.parent)) ==> u in timers
      ensures !c.Trigger? ==> forall u :: u in old(timers) && !Names(c, handles, old(u.parent)) ==>
        EntryOf(u) == old(EntryOf(u)) && (u in Keys(Entries()) <==> u in old(Keys(Entries())))
    {
      hide Keys, EntriesOf;
      r := handles;
      if c.Create? {
        var d := Create(c.timeout);
        r := r + [d];
      } else if c.Trigger? {
        ghost var fired;
        var readings;
        fired, readings := Trigger(c.clock, c.bound);
      } else if c.i < |r| {
        Apply(c, r[c.i]);
      }
    }

    /** Every sequence of operations keeps the list well formed. */
    method DoAll(commands: seq<Command>) returns (handles: seq<Descriptor>)
      requires Valid() && Proper() && forall i :: 0 <= i < |commands| ==> CommandOk(commands[i])
      modifies this, timers, owners
      ensures Valid() && Proper() && forall d :: d in handles ==> d in owners
    {
      handles := [];
      for n := 0 to |commands|
        invariant Valid() && Proper() && forall d :: d in handles ==> d in owners
        invariant fresh(timers - old(timers)) && fresh(owners - old(owners))
      {
        handles := Do(commands[n], handles);
      }
    }

    lemma PointedBack(d: Descriptor)
      requires Valid() && d in owners
      ensures d.iotimer != null ==> d.iotimer.parent == d
    {
    }

    // The queue after an operation on `t`: it has the other timers it had.
    ghost predicate OthersStay(q: seq<Entry<Timer>>, t: Timer?)
      reads this`list, list`timeout, list`periodic, list`autoreload
    {
      if t == null then Keys(Entries()) == Keys(q) else Keys(Entries()) + {t} == Keys(q) + {t}
    }

    lemma MovedStay(q: seq<Entry<Timer>>, t: Timer)
      requires Entries() == Remove(q, t) || Entries() == Insert(Remove(q, t), EntryOf(t))
      ensures OthersStay(q, t)
    {
      KeysRemove(q, t);
      KeysInsert(Remove(q, t), EntryOf(t));
    }

    lemma SameStay(q: seq<Entry<Timer>>, t: Timer?)
      requires Entries() == q
      ensures OthersStay(q, t)
    {
    }

    method Apply(c: Command, d: Descriptor)
      requires Valid() && Proper() && CommandOk(c) && !c.Create? && !c.Trigger? && d in owners
      modifies this, timers, owners
      ensures Valid() && Proper() && timers <= old(timers) && owners == old(owners)
      ensures forall u :: u in old(timers) ==> u.parent == old(u.parent)
      ensures forall u :: u in old(timers) && !((c.Stop? || c.Destroy?) && d == old(u.parent)) ==> u in timers
      ensures forall u :: u in old(timers) && old(u.parent) != d ==> EntryOf(u) == old(EntryOf(u))
      ensures OthersStay(old(Entries()), old(d.iotimer))
    {
      hide Valid, Insert, Remove, OthersStay, EntriesOf;
      PointedBack(d);
      match c
      case Start(_) => ApplyStart(d);
      case Stop(_) => ApplyStop(d);
      case SetPersistent(_, persistent) =>
        ghost var q := Entries();
        SetPersistent(d, persistent);
        SameStay(q, d.iotimer);
      case Destroy(_) => ApplyDestroy(d);
      case SetTimeout(_, deadline) => ApplyTimeout(d, deadline);
      case SetAutoreload(_, autoreload, now) => ApplyAutoreload(d, autoreload, now);
    }

    method ApplyStart(d: Descriptor)
      requires Valid() && Proper() && d in owners
      modifies this`head, this`list, timers`prev, timers`next, timers`inList, timers`active
      ensures Valid() && Proper() && OthersStay(old(Entries()), d.iotimer)
    {
      hide Valid, Insert, Remove, OthersStay, EntriesOf;
      ghost var q := Entries();
      Start(d);
      if d.iotimer == null {
        SameStay(q, d.iotimer);
      } else {
        MovedStay(q, d.iotimer);
      }
    }

    method ApplyStop(d: Descriptor)
      requires Valid() && Proper() && d in owners
      modifies this`head, this`list, this`timers, this`collected
      modifies timers`prev, timers`next, timers`inList, timers`active, d`iotimer
      ensures Valid() && Proper() && OthersStay(old(Entries()), old(d.iotimer))
      ensures timers <= old(timers) && forall u :: u in old(timers) && u != old(d.iotimer) ==> u in timers
    {
      hide Valid, Insert, Remove, OthersStay, EntriesOf;
      ghost var q, t := Entries(), d.iotimer;
      Stop(d);
      if t == null {
        SameStay(q, t);
      } else {
        MovedStay(q, t);
      }
    }

    method ApplyDestroy(d: Descriptor)
      requires Valid() && Proper() && d in owners
      modifies this`head, this`list, this`timers, this`collected
      modifies timers`prev, timers`next, timers`inList, d`iotimer
      ensures Valid() && Proper() && OthersStay(old(Entries()), old(d.iotimer))
      ensures timers <= old(timers) && forall u :: u in old(timers) && u != old(d.iotimer) ==> u in timers
    {
      hide Valid, Insert, Remove, OthersStay, EntriesOf;
      ghost var q, t := Entries(), d.iotimer;
      Destroy(d);
      if t == null {
        SameStay(q, t);
      } else {
        MovedStay(q, t);
      }
    }

    method ApplyTimeout(d: Descriptor, deadline: Option<TimeVal>)
      requires Valid() && Proper() && d in owners && (deadline.Some? ==> Carried(deadline.value))
      modifies this`head, this`list, timers`prev, timers`next, timers`inList, timers`timeout
      ensures Valid() && Proper() && OthersStay(old(Entries()), d.iotimer)
      ensures forall u :: u in timers && u != d.iotimer ==> u.timeout == old(u.timeout)
    {
      hide Valid, Insert, Remove, OthersStay, EntriesOf;
      ghost var q := Entries();
      SetTimeout(d, deadline);
      if d.iotimer == null || deadline.None? {
        SameStay(q, d.iotimer);
      } else {
        MovedStay(q, d.iotimer);
      }
    }

    method ApplyAutoreload(d: Descriptor, autoreload: Option<TimeVal>, now: TimeVal)
      requires Valid() && Proper() && d in owners
      requires autoreload.Some? ==> Carried(autoreload.value) && Micros(autoreload.value) > 0 && Normal(now)
      modifies this`head, this`list, timers`prev, timers`next, timers`inList
      modifies timers`timeout, timers`periodic, timers`autoreload
      ensures Valid() && Proper() && OthersStay(old(Entries()), d.iotimer)
      ensures forall u :: u in timers && u != d.iotimer ==> EntryOf(u) == old(EntryOf(u))
    {
      hide Valid, Insert, Remove, OthersStay, EntriesOf;
      ghost var q, l := Entries(), list;
      SetAutoreload(d, autoreload, now);
      if d.iotimer == null {
        SameStay(q, d.iotimer);
      } else if list == l {
        KeysStay(q, d.iotimer);
      } else {
        MovedStay(q, d.iotimer);
      }
    }

    lemma KeysStay(q: seq<Entry<Timer>>, t: Timer)
      requires |q| == |list| && forall i :: 0 <= i < |list| ==> q[i].key == list[i]
      ensures OthersStay(q, t)
    {
    }
  }

  /** Arming the timer at position `k` again as written, unlinking and then inserting, leaves the
      list well formed if and only if the timer was the last one, or another timer is due after its
      new deadline: otherwise it comes last and keeps its stale `next`. */
  method RearmAsWritten(q: TimerList, t: Timer, ghost k: nat, deadline: TimeVal)
    requires q.Valid() && k < |q.list| && t == q.list[k]
    modifies q, q.timers
    ensures Chained(q.head, q.list) <==> k == old(|q.list|) - 1 || OtherLater(old(q.Entries()), k, deadline)
  {
    hide Chained, Distinct, Sorted;
    InsertPosIff(q.Entries(), k, deadline);
    UnlinkAt(q, t, k);
    ghost var rest := q.Entries();
    t.timeout := deadline;
    assert q.Entries() == rest;
    ghost var p := q.LinkIn(t);
  }

  /** Popping the head as written and inserting it again, as the trigger loop does with a periodic
      timer, leaves the list well formed under the same condition. */
  method ReloadAsWritten(q: TimerList, t: Timer, deadline: TimeVal)
    requires q.Valid() && q.list != [] && t == q.list[0]
    modifies q, q.timers
    ensures Chained(q.head, q.list) <==> |old(q.list)| == 1 || OtherLater(old(q.Entries()), 0, deadline)
  {
    hide Chained, Distinct, Sorted;
    InsertPosIff(q.Entries(), 0, deadline);
    PopFirst(q, t);
    ghost var rest := q.Entries();
    t.timeout := deadline;
    assert q.Entries() == rest;
    ghost var p := q.LinkIn(t);
  }

  method PopFirst(q: TimerList, t: Timer)
    requires q.Valid() && q.list != [] && t == q.list[0]
    modifies q`head, q`list, q.timers`prev, q.timers`next, q.timers`inList
    ensures q.Shape() && t in q.timers && !t.inList && t !in q.list
    ensures q.list == Cut(old(q.list), 0) && q.Entries() == Cut(old(q.Entries()), 0)
    ensures t.prev == null && t.next == At(old(q.list), 1)
  {
    hide Distinct, Sorted, EntriesOf;
    ghost var l, c := q.list, q.list[1..];
    assert t in l && t.next == At(l, 1) && t.prev == At(l, -1);
    CutDistinct(l, 0);
    assert Cut(l, 0) == c;
    ghost var rest := EntriesOf(c);
    assert rest == Cut(q.Entries(), 0);
    q.PopAsWritten(t);
    assert EntriesOf(q.list) == rest;
  }

  /** Such a list from the start: two timers are created and started, and the first is armed again
      behind the second. */
  method BrokenFromEmpty() returns (q: TimerList)
    ensures fresh(q) && !Chained(q.head, q.list)
  {
    var t;
    q, t := TwoTimers(TimeVal(1, 0), TimeVal(2, 0));
    RearmAsWritten(q, t, 0, TimeVal(3, 0));
  }

  method TwoTimers(first: TimeVal, second: TimeVal) returns (q: TimerList, t: Timer)
    requires !IsBigger(first, second)
    ensures fresh(q) && fresh(q.timers) && q.Valid() && |q.list| == 2 && q.list[0] == t
    ensures q.Entries()[1].deadline == second
  {
    hide Chained, Distinct, Sorted, Insert, Remove, TimerList.Valid;
    q := new TimerList();
    var a := q.Create(Some(first));
    var b := q.Create(Some(second));
    t := a.iotimer;
    ghost var u: Timer := b.iotimer;
    StartBoth(q, a, b);
    assert q.Entries() == [EntryOf(t), EntryOf(u)];
  }

  method StartBoth(q: TimerList, a: Descriptor, b: Descriptor)
    requires q.Valid() && q.Entries() == [] && a in q.owners && b in q.owners
    requires a.iotimer != null && b.iotimer != null && a.iotimer != b.iotimer
    requires !IsBigger(a.iotimer.timeout, b.iotimer.timeout)
    modifies q`head, q`list, q.timers`prev, q.timers`next, q.timers`inList, q.timers`active
    ensures q.Valid() && q.Entries() == [EntryOf(a.iotimer), EntryOf(b.iotimer)]
  {
    hide Chained, Distinct, Sorted, Insert, Remove, TimerList.Valid;
    InsertTwo(EntryOf(a.iotimer), EntryOf(b.iotimer));
    q.Start(a);
    assert q.Entries() == [EntryOf(a.iotimer)];
    q.Start(b);
  }

  // The queue with one timer, and with another one that is not due before it.
  lemma InsertTwo<T>(e: Entry<T>, f: Entry<T>)
    requires !IsBigger(e.deadline, f.deadline) && e.key != f.key
    ensures Remove([], e.key) == [] && Insert([], e) == [e]
    ensures Remove([e], f.key) == [e] && Insert([e], f) == [e, f]
  {
  }

  method UnlinkAt(q: TimerList, t: Timer, ghost k: nat)
    requires q.Valid() && k < |q.list| && t == q.list[k]
    modifies q`head, q`list, q.timers`prev, q.timers`next, t`inList
    ensures q.Shape() && t in q.timers && !t.inList && t !in q.list
    ensures q.list == Cut(old(q.list), k) && q.Entries() == Cut(old(q.Entries()), k)
    ensures t.prev == At(old(q.list), k - 1) && t.next == At(old(q.list), k + 1)
  {
    hide Distinct, Sorted;
    ghost var l, c := q.list, Cut(q.list, k);
    assert t in l && t.next == At(l, k + 1) && t.prev == At(l, k - 1);
    CutDistinct(l, k);
    ghost var rest := EntriesOf(c);
    assert rest == Cut(q.Entries(), k);
    ghost var j := q.Unlink(t);
    SamePlace(l, j, k);
    assert q.list == c && EntriesOf(c) == rest;
  }

  // The operation stops or destroys what `d` stands for.
  // The handles `r` came after `handles`, and none of the new ones is in `known`.
  ghost predicate Extends(handles: seq<Descriptor>, r: seq<Descriptor>, known: set<Descriptor>) {
    && |handles| <= |r| && (forall i :: 0 <= i < |handles| ==> r[i] == handles[i])
    && forall i :: |handles| <= i < |r| ==> r[i] !in known
  }

  lemma ExtendsSame(handles: seq<Descriptor>, known: set<Descriptor>)
    ensures Extends(handles, handles, known)
  {
  }

  lemma ExtendsMore(handles: seq<Descriptor>, r: seq<Descriptor>, s: seq<Descriptor>, known: set<Descriptor>)
    requires Extends(handles, r, known)
    requires s == r || (|s| == |r| + 1 && s[..|r|] == r && s[|r|] !in known)
    ensures Extends(handles, s, known)
  {
    assert s != r ==> forall i :: 0 <= i < |r| ==> s[i] == s[..|r|][i];
  }

  lemma EndsNone(c: Command, handles: seq<Descriptor>, r: seq<Descriptor>, d: Descriptor?, known: set<Descriptor>)
    requires Extends(handles, r, known) && !EndsOne(c, handles, d) && (d == null || d in known)
    ensures !EndsOne(c, r, d)
  {
  }

  lemma NamesNone(commands: seq<Command>, n: nat, handles: seq<Descriptor>, r: seq<Descriptor>, d: Descriptor?,
                  known: set<Descriptor>)
    requires Extends(handles, r, known) && n < |commands| && !NamedBy(commands, handles, d) && (d == null || d in known)
    ensures !Names(commands[n], r, d) && !EndsOne(commands[n], r, d)
  {
    assert !Names(commands[n], handles, d);
  }

  /** The operation is on the timer of the descriptor. */
  ghost predicate Names(c: Command, handles: seq<Descriptor>, d: Descriptor?) {
    !c.Create? && !c.Trigger? && c.i < |handles| && handles[c.i] == d
  }

  ghost predicate NamedBy(commands: seq<Command>, handles: seq<Descriptor>, d: Descriptor?) {
    exists i :: 0 <= i < |commands| && Names(commands[i], handles, d)
  }

  ghost predicate EndsOne(c: Command, handles: seq<Descriptor>, d: Descriptor?) {
    (c.Stop? || c.Destroy?) && Names(c, handles, d)
  }

  datatype Command =
    | Create(timeout: Option<TimeVal>)
    | Start(i: nat)
    | Stop(i: nat)
    | SetTimeout(i: nat, deadline: Option<TimeVal>)
    | SetAutoreload(i: nat, autoreload: Option<TimeVal>, now: TimeVal)
    | SetPersistent(i: nat, persistent: bool)
    | Destroy(i: nat)
    | Trigger(clock: nat -> TimeVal, bound: int)

  // Time values a client can pass: microseconds in range, and positive periods.
  ghost predicate CommandOk(c: Command) {
    match c
    case Create(timeout) => timeout.Some? ==> Carried(timeout.value)
    case SetTimeout(_, deadline) => deadline.Some? ==> Carried(deadline.value)
    case SetAutoreload(_, autoreload, now) =>
      autoreload.Some? ==> Carried(autoreload.value) && Micros(autoreload.value) > 0 && Normal(now)
    case Trigger(clock, bound) => ValidClock(clock, bound)
    case _ => true
  }
}
