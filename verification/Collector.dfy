/** The linked queue of IOGarbageCollector.c. */
module Collector {
  import opened TimeVals
  import opened Deferral

  /** struct IOGCObject */
  class GcObject {
    const obj: nat
    ghost const added: TimeVal
    const timeout: TimeVal
    var next: GcObject?

    constructor (obj: nat, now: TimeVal)
      ensures this.obj == obj && added == now && timeout == Deadline(Item(obj, now)) && next == null
    {
      this.obj, added, timeout, next := obj, now, TimeVal(now.sec + TIMEOUT, now.usec), null;
    }

    ghost function ToItem(): Item {
      Item(obj, added)
    }
  }

  ghost function ItemsOf(s: seq<GcObject>): (r: seq<Item>)
    ensures |r| == |s|
  {
    seq(|s|, i requires 0 <= i < |s| => s[i].ToItem())
  }

  ghost predicate Chained(first: GcObject?, l: seq<GcObject>)
    reads l
  {
    && first == (if l == [] then null else l[0])
    && (forall i, j :: 0 <= i < j < |l| ==> l[i] != l[j])
    && (forall i :: 0 <= i < |l| ==> l[i].timeout == Deadline(l[i].ToItem()))
    && (forall i {:trigger l[i].next} :: 0 <= i < |l| ==> l[i].next == if i == |l| - 1 then null else l[i + 1])
  }

  lemma ChainedFrom(first: GcObject?, l: seq<GcObject>, k: nat)
    requires k <= |l| && Chained(first, l)
    ensures Chained(if k == |l| then null else l[k], l[k..])
  {
  }

  class GarbageCollector {
    var enabled: bool
    var first: GcObject?
    var last: GcObject?
    ghost var nodes: seq<GcObject>
    ghost var freed: seq<Freed>
    ghost var atOnce: seq<Item>
    // What was added but cannot be reached from `first`.
    ghost var lost: seq<Item>

    /** The entries from `first` on are `nodes`. */
    ghost predicate Linked()
      reads this, nodes
    {
      Chained(first, nodes)
    }

    ghost predicate LastOk()
      reads this
    {
      last == if nodes == [] then null else nodes[|nodes| - 1]
    }

    ghost predicate Valid()
      reads this, nodes
    {
      Linked() && LastOk() && lost == []
    }

    /** What the code as written keeps: `last` is right as long as there are entries. */
    ghost predicate LooselyValid()
      reads this, nodes
    {
      Linked() && (nodes != [] ==> LastOk()) && (lost != [] ==> Detached())
    }

    /** The queue is empty, yet `last` points at an entry, which has been freed or lost. */
    ghost predicate Detached()
      reads this
    {
      nodes == [] && last != null
    }

    // What the queue and its end point at.
    ghost function Entries(): set<GcObject>
      reads this
    {
      (set o | o in nodes) + if last == null then {} else {last}
    }

    ghost function View(): State
      reads this
    {
      State(enabled, ItemsOf(nodes), freed, atOnce, Detached(), lost)
    }

    constructor ()
      ensures Valid() && View() == START
    {
      enabled, first, last, nodes, freed, atOnce, lost := true, null, null, [], [], [], [];
    }

    /** iohandler_set_gc */
    method SetGc(on: bool)
      requires LooselyValid()
      modifies this`enabled
      ensures LooselyValid() && (old(Valid()) ==> Valid())
      ensures forall repaired :: View() == Step(old(View()), SetEnabled(on), repaired)
    {
      enabled := on;
    }

    /** iogc_add_callback; `now` is what gettimeofday returns. When `last` is stale the object is
        linked behind an entry that has been freed, where nothing ever finds it. */
    method AddObject(obj: nat, now: TimeVal)
      requires LooselyValid()
      modifies this, Entries()
      ensures LooselyValid() && (old(Valid()) ==> Valid())
      ensures forall repaired :: View() == Step(old(View()), Add(obj, now), repaired)
      ensures fresh(Entries() - old(Entries()))
    {
      if !enabled {
        atOnce := atOnce + [Item(obj, now)];
        return;
      }
      var o := new GcObject(obj, now);
      if last != null {
        last.next := o;
      } else {
        first := o;
      }
      last := o;
      if first == null {
        lost := lost + [o.ToItem()];
      } else {
        nodes := nodes + [o];
        assert ItemsOf(nodes) == old(ItemsOf(nodes)) + [Item(obj, now)];
      }
    }

    // The loop of iogc_exec: frees from the front and returns the first entry that stays.
    method Sweep(now: TimeVal) returns (o: GcObject?, ghost k: nat)
      requires Linked()
      modifies this`freed
      ensures k == Expired(ItemsOf(nodes), now) && o == (if k < |nodes| then nodes[k] else null)
      ensures freed == old(freed) + FreeAll(ItemsOf(nodes)[..k], now)
    {
      ghost var items, out := ItemsOf(nodes), [];
      o, k := first, 0;
      while o != null
        invariant k <= |nodes| && o == (if k < |nodes| then nodes[k] else null)
        invariant Expired(items, now) == k + Expired(items[k..], now)
        invariant out == FreeAll(items[..k], now)
        decreases |nodes| - k
      {
        assert nodes[k].next == if k == |nodes| - 1 then null else nodes[k + 1];
        assert items[k..][0] == items[k] && items[k..][1..] == items[k + 1..];
        if !IsSmaller(o.timeout, now) {
          break;
        }
        var next := o.next;
        assert items[..k + 1] == items[..k] + [items[k]];
        out := out + [Freed(items[k], now)];
        o := next;
        k := k + 1;
      }
      freed := freed + out;
    }

    /** iogc_exec as written: `last` is left alone, and is wrong exactly when the queue was emptied. */
    method ExecAsWritten(now: TimeVal)
      requires LooselyValid()
      modifies this`first, this`nodes, this`freed
      ensures LooselyValid() && last == old(last) && Entries() <= old(Entries())
      ensures View() == Step(old(View()), Exec(now), false)
      ensures old(LastOk()) ==> (LastOk() <==> nodes != [] || old(nodes) == [])
    {
      hide Chained;
      ghost var items, k := ItemsOf(nodes), 0;
      ghost var all := first;
      first, k := Sweep(now);
      ChainedFrom(all, nodes, k);
      nodes := nodes[k..];
      assert ItemsOf(nodes) == items[k..];
    }

    /** iogc_exec. Changed from the source: `last` is reset when the queue empties. */
    method Execute(now: TimeVal)
      requires Valid()
      modifies this`first, this`last, this`nodes, this`freed
      ensures Valid() && View() == Step(old(View()), Exec(now), true)
    {
      ExecAsWritten(now);
      if first == null {
        last := null;
      }
    }

    // ---------- runs ----------

    /** Operations as written, one after the other, on the linked queue. */
    method RunAsWritten(ops: seq<Op>)
      requires Valid() && View() == START
      modifies this
      ensures LooselyValid() && View() == Run(ops, false)
      ensures lost != [] <==> AddedAfterEmptied(ops)
    {
      for n := 0 to |ops|
        invariant LooselyValid() && View() == Run(ops[..n], false)
        invariant fresh(Entries())
      {
        assert ops[..n + 1][..n] == ops[..n];
        match ops[n]
        case Add(obj, now) => AddObject(obj, now);
        case Exec(now) => ExecAsWritten(now);
        case SetEnabled(on) => SetGc(on);
      }
      assert ops[..|ops|] == ops;
      LosesIffAddedAfterEmptied(ops);
    }
  }
}
