/** The deferred-free queue of IOGarbageCollector.c on values. */
module Deferral {
  import opened TimeVals

  // IOGC_TIMEOUT
  const TIMEOUT: int := 60

  /** An object handed to iogc_add at a reading of the clock. */
  datatype Item = Item(obj: nat, added: TimeVal)

  function Deadline(i: Item): TimeVal {
    TimeVal(i.added.sec + TIMEOUT, i.added.usec)
  }

  datatype Freed = Freed(item: Item, at: TimeVal)

  /** `detached` says that last_object no longer is the end of the queue because the queue has
      been emptied under it; what is added then is `lost`. */
  datatype State = State(enabled: bool, queue: seq<Item>, freed: seq<Freed>, atOnce: seq<Item>,
                         detached: bool, lost: seq<Item>)

  datatype Op = Add(obj: nat, now: TimeVal) | Exec(now: TimeVal) | SetEnabled(on: bool)

  const START := State(true, [], [], [], false, [])

  /** How many objects iogc_exec frees: it stops at the first one that has not expired. */
  function Expired(q: seq<Item>, now: TimeVal): (k: nat)
    ensures k <= |q|
    ensures forall i :: 0 <= i < k ==> IsSmaller(Deadline(q[i]), now)
    ensures k < |q| ==> !IsSmaller(Deadline(q[k]), now)
  {
    if q == [] || !IsSmaller(Deadline(q[0]), now) then 0 else 1 + Expired(q[1..], now)
  }

  function FreeAll(q: seq<Item>, now: TimeVal): (r: seq<Freed>)
    ensures |r| == |q|
  {
    seq(|q|, i requires 0 <= i < |q| => Freed(q[i], now))
  }

  /** Changed from the source when `repaired`: line 101 sets first_object to NULL when the queue
      empties but leaves last_object pointing at the freed entry. */
  function Step(s: State, op: Op, repaired: bool): State {
    match op
    case SetEnabled(on) => s.(enabled := on)
    case Add(obj, now) =>
      var i := Item(obj, now);
      if !s.enabled then s.(atOnce := s.atOnce + [i])
      else if s.detached then s.(lost := s.lost + [i])
      else s.(queue := s.queue + [i])
    case Exec(now) =>
      var k := Expired(s.queue, now);
      s.(queue := s.queue[k..], freed := s.freed + FreeAll(s.queue[..k], now),
         detached := s.detached || (!repaired && k > 0 && k == |s.queue|))
  }

  function Run(ops: seq<Op>, repaired: bool): State {
    if ops == [] then START else Step(Run(ops[..|ops| - 1], repaired), ops[|ops| - 1], repaired)
  }

  // ---------- what was asked for, read off the operations ----------

  predicate Enabled(ops: seq<Op>) {
    ops == [] || var before, op := ops[..|ops| - 1], ops[|ops| - 1];
      if op.SetEnabled? then op.on else Enabled(before)
  }

  /** What was added while the collector was enabled, or while it was not. */
  function Added(ops: seq<Op>, enabled: bool): seq<Item> {
    if ops == [] then []
    else
      var before, op := ops[..|ops| - 1], ops[|ops| - 1];
      if op.Add? && Enabled(before) == enabled then Added(before, enabled) + [Item(op.obj, op.now)]
      else Added(before, enabled)
  }

  function Items(f: seq<Freed>): (r: seq<Item>)
    ensures |r| == |f|
  {
    seq(|f|, i requires 0 <= i < |f| => f[i].item)
  }

  /** The clock readings of a run are normalised and never go back. */
  ghost predicate Clocked(ops: seq<Op>) {
    && (forall i :: 0 <= i < |ops| && !ops[i].SetEnabled? ==> Normal(ops[i].now))
    && (forall i, j :: 0 <= i < j < |ops| && !ops[i].SetEnabled? && !ops[j].SetEnabled? ==>
          Micros(ops[i].now) <= Micros(ops[j].now))
  }

  // ---------- runs ----------

  /** Everything is accounted for, in order: what was freed later followed by what is still queued
      is what was added while enabled, and the rest was freed at once. */
  lemma {:induction false} Accounts(ops: seq<Op>)
    ensures var s := Run(ops, true);
      && Items(s.freed) + s.queue == Added(ops, true) && s.atOnce == Added(ops, false)
      && s.lost == [] && !s.detached && s.enabled == Enabled(ops)
  {
    if ops != [] {
      var before, op := ops[..|ops| - 1], ops[|ops| - 1];
      Accounts(before);
      var s := Run(before, true);
      if op.Exec? {
        ItemsFreed(s, Expired(s.queue, op.now), op.now);
      } else if op.Add? {
        var i := Item(op.obj, op.now);
        assert Items(s.freed) + (s.queue + [i]) == Items(s.freed) + s.queue + [i];
      }
    }
  }

  lemma ItemsFreed(s: State, k: nat, now: TimeVal)
    requires k <= |s.queue|
    ensures Items(s.freed + FreeAll(s.queue[..k], now)) + s.queue[k..] == Items(s.freed) + s.queue
  {
    assert Items(s.freed + FreeAll(s.queue[..k], now)) == Items(s.freed) + s.queue[..k];
  }

  // Queued items were added in the order of the clock, none after the last reading.
  ghost predicate InTime(q: seq<Item>, limit: int) {
    && (forall i :: 0 <= i < |q| ==> Normal(q[i].added) && Micros(q[i].added) <= limit)
    && (forall i, j :: 0 <= i < j < |q| ==> Micros(q[i].added) <= Micros(q[j].added))
  }

  ghost predicate Late(f: seq<Freed>) {
    forall i :: 0 <= i < |f| ==> Micros(f[i].at) > Micros(f[i].item.added) + TIMEOUT * MILLION
  }

  lemma {:induction false} QueueInTime(ops: seq<Op>, limit: int, repaired: bool)
    requires Clocked(ops) && forall i :: 0 <= i < |ops| && !ops[i].SetEnabled? ==> Micros(ops[i].now) <= limit
    ensures InTime(Run(ops, repaired).queue, limit) && Late(Run(ops, repaired).freed)
  {
    if ops != [] {
      var before, op := ops[..|ops| - 1], ops[|ops| - 1];
      assert forall i :: 0 <= i < |before| ==> before[i] == ops[i];
      QueueInTime(before, if op.SetEnabled? then limit else Micros(op.now), repaired);
      StepInTime(Run(before, repaired), op, limit, repaired);
    }
  }

  lemma StepInTime(s: State, op: Op, limit: int, repaired: bool)
    requires !op.SetEnabled? ==> Normal(op.now) && Micros(op.now) <= limit
    requires InTime(s.queue, if op.SetEnabled? then limit else Micros(op.now)) && Late(s.freed)
    ensures InTime(Step(s, op, repaired).queue, limit) && Late(Step(s, op, repaired).freed)
  {
  }

  /** Nothing is freed early: only strictly more than 60 seconds after it was added. */
  lemma FreedLate(ops: seq<Op>, limit: int, repaired: bool)
    requires Clocked(ops) && forall i :: 0 <= i < |ops| && !ops[i].SetEnabled? ==> Micros(ops[i].now) <= limit
    ensures var f := Run(ops, repaired).freed;
      forall i :: 0 <= i < |f| ==> Micros(f[i].at) > Micros(f[i].item.added) + 60 * 1000000
  {
    QueueInTime(ops, limit, repaired);
  }

  /** Stopping at the first object that has not expired misses none that has. */
  lemma ExecMissesNone(ops: seq<Op>, now: TimeVal, repaired: bool)
    requires Clocked(ops + [Exec(now)])
    ensures var q := Run(ops + [Exec(now)], repaired).queue;
      forall i :: 0 <= i < |q| ==> Micros(now) <= Micros(q[i].added) + 60 * 1000000
  {
    var all := ops + [Exec(now)];
    assert all[..|all| - 1] == ops && all[|all| - 1] == Exec(now);
    assert forall i :: 0 <= i < |ops| ==> ops[i] == all[i];
    QueueInTime(ops, Micros(now), repaired);
    var q := Run(ops, repaired).queue;
    var k := Expired(q, now);
    assert forall i :: k <= i < |q| ==> Micros(q[k].added) <= Micros(q[i].added);
  }

  // ---------- the code as written ----------

  /** The queue was emptied by an exec, and something was added after that. */
  predicate Emptied(ops: seq<Op>) {
    ops != [] && var before, op := ops[..|ops| - 1], ops[|ops| - 1];
      Emptied(before) || (op.Exec? && var q := Run(before, true).queue; q != [] && Expired(q, op.now) == |q|)
  }

  predicate AddedAfterEmptied(ops: seq<Op>) {
    ops != [] && var before, op := ops[..|ops| - 1], ops[|ops| - 1];
      AddedAfterEmptied(before) || (op.Add? && Enabled(before) && Emptied(before))
  }

  /** As written objects are lost, never to be freed, exactly in the runs that add one after an
      exec has emptied the queue; all other runs are the repaired ones. */
  lemma {:induction false} LosesIffAddedAfterEmptied(ops: seq<Op>)
    ensures var s := Run(ops, false);
      && (s.lost != [] <==> AddedAfterEmptied(ops))
      && s.detached == Emptied(ops) && s.enabled == Enabled(ops)
      && (!AddedAfterEmptied(ops) ==> s == Run(ops, true).(detached := s.detached))
      && (s.detached ==> s.queue == [])
      && !Run(ops, true).detached
      && (AddedAfterEmptied(ops) ==> Emptied(ops))
  {
    if ops != [] {
      LosesIffAddedAfterEmptied(ops[..|ops| - 1]);
      Accounts(ops[..|ops| - 1]);
    }
  }

  /** The shortest such run: one object is freed after its minute, and the next one is lost. */
  lemma LosingRun()
    ensures Run([Add(1, ZERO), Exec(TimeVal(61, 0)), Add(2, TimeVal(61, 0))], false).lost == [Item(2, TimeVal(61, 0))]
  {
    var a, b := Add(1, ZERO), Exec(TimeVal(61, 0));
    var ops := [a, b, Add(2, TimeVal(61, 0))];
    assert ops[..2] == [a, b] && [a, b][..1] == [a] && [a][..0] == [];
    assert Run([a], false) == State(true, [Item(1, ZERO)], [], [], false, []);
    assert Run([a, b], false).detached;
  }
}
