/** The timer queue as a value: entries in firing order, the stable insertion of
    _rearrange_timer, and a whole run of _trigger_timer. */
module Schedule {
  import opened Basics
  import opened TimeVals

  /** An armed timer; `period` is None for a one-shot. */
  datatype Entry<T> = Entry(key: T, deadline: TimeVal, period: Option<TimeVal>)

  datatype Firing<T> = Firing(key: T, deadline: TimeVal, at: TimeVal)

  /** What a run did: firings in order, the queue it left and how often it read the clock. */
  datatype Outcome<T> = Outcome(fired: seq<Firing<T>>, rest: seq<Entry<T>>, readings: nat)

  // ---------- the sorted queue ----------

  ghost predicate Sorted<T>(q: seq<Entry<T>>) {
    forall i, j :: 0 <= i < j < |q| ==> !IsBigger(q[i].deadline, q[j].deadline)
  }

  lemma SortedByDeadline<T>(q: seq<Entry<T>>, r: seq<Entry<T>>)
    requires Sorted(q) && |r| == |q| && forall i :: 0 <= i < |q| ==> r[i].deadline == q[i].deadline
    ensures Sorted(r)
  {
  }

  ghost predicate DistinctKeys<T>(q: seq<Entry<T>>) {
    forall i, j :: 0 <= i < j < |q| ==> q[i].key != q[j].key
  }

  /** Where a deadline goes: in front of the first later one. */
  ghost function InsertPos<T>(q: seq<Entry<T>>, deadline: TimeVal): (p: nat)
    ensures p <= |q|
    ensures forall i :: 0 <= i < p ==> !IsBigger(q[i].deadline, deadline)
    ensures p < |q| ==> IsBigger(q[p].deadline, deadline)
  {
    if q == [] || IsBigger(q[0].deadline, deadline) then 0 else 1 + InsertPos(q[1..], deadline)
  }

  lemma {:induction false} InsertPosUnique<T>(q: seq<Entry<T>>, deadline: TimeVal, p: nat)
    requires p <= |q|
    requires forall i :: 0 <= i < p ==> !IsBigger(q[i].deadline, deadline)
    requires p < |q| ==> IsBigger(q[p].deadline, deadline)
    ensures InsertPos(q, deadline) == p
  {
    if p > 0 {
      InsertPosUnique(q[1..], deadline, p - 1);
    }
  }

  /** Another entry than number `k` is due after `deadline`. */
  ghost predicate OtherLater<T>(q: seq<Entry<T>>, k: nat, deadline: TimeVal) {
    exists i :: 0 <= i < |q| && i != k && IsBigger(q[i].deadline, deadline)
  }

  // Without entry number `k`, a deadline goes last unless another entry is later.
  lemma InsertPosIff<T>(q: seq<Entry<T>>, k: nat, deadline: TimeVal)
    requires k < |q|
    ensures InsertPos(Cut(q, k), deadline) < |q| - 1 <==> OtherLater(q, k, deadline)
  {
    var c := Cut(q, k);
    var p := InsertPos(c, deadline);
    if p < |c| {
      assert c[p] == q[if p < k then p else p + 1];
    } else {
      assert forall i :: 0 <= i < |q| && i != k ==> q[i] == c[if i < k then i else i - 1];
    }
  }

  ghost function Insert<T>(q: seq<Entry<T>>, e: Entry<T>): (r: seq<Entry<T>>)
    ensures |r| == |q| + 1
  {
    Put(q, InsertPos(q, e.deadline), e)
  }

  lemma InsertIndices<T>(q: seq<Entry<T>>, e: Entry<T>)
    ensures var r, p := Insert(q, e), InsertPos(q, e.deadline);
      && r[p] == e
      && (forall i :: 0 <= i < p ==> r[i] == q[i])
      && (forall i :: p < i < |r| ==> r[i] == q[i - 1])
  {
  }

  lemma InsertSorted<T>(q: seq<Entry<T>>, e: Entry<T>)
    requires Sorted(q)
    ensures Sorted(Insert(q, e))
  {
    var r, p := Insert(q, e), InsertPos(q, e.deadline);
    InsertIndices(q, e);
    forall i, j | 0 <= i < j < |r|
      ensures !IsBigger(r[i].deadline, r[j].deadline)
    {
      if i == p {
        assert IsBigger(q[p].deadline, e.deadline);
      }
    }
  }

  ghost function Remove<T>(q: seq<Entry<T>>, key: T): (r: seq<Entry<T>>)
    ensures |q| - 1 <= |r| <= |q|
  {
    if q == [] then [] else if q[0].key == key then q[1..] else [q[0]] + Remove(q[1..], key)
  }

  ghost function Keys<T>(q: seq<Entry<T>>): set<T> {
    set i | 0 <= i < |q| :: q[i].key
  }

  lemma KeysInsert<T>(q: seq<Entry<T>>, e: Entry<T>)
    ensures Keys(Insert(q, e)) == Keys(q) + {e.key}
  {
    InsertIndices(q, e);
    var r, p := Insert(q, e), InsertPos(q, e.deadline);
    forall i | 0 <= i < |q|
      ensures q[i].key in Keys(r)
    {
      assert r[if i < p then i else i + 1] == q[i];
    }
  }

  lemma {:induction false} KeysRemove<T>(q: seq<Entry<T>>, key: T)
    ensures Keys(Remove(q, key)) + {key} == Keys(q) + {key}
  {
    if q != [] {
      KeysCons(q);
      if q[0].key != key {
        KeysRemove(q[1..], key);
        KeysCons([q[0]] + Remove(q[1..], key));
      }
    }
  }

  lemma KeysCons<T>(q: seq<Entry<T>>)
    requires q != []
    ensures Keys(q) == {q[0].key} + Keys(q[1..])
  {
    assert forall i :: 0 < i < |q| ==> q[1..][i - 1] == q[i];
  }

  lemma {:induction false} RemoveAt<T>(q: seq<Entry<T>>, k: nat)
    requires k < |q| && DistinctKeys(q)
    ensures Remove(q, q[k].key) == Cut(q, k)
  {
    if k == 0 {
      assert Cut(q, 0) == q[1..];
    } else {
      assert q[k] == q[1..][k - 1] && q[0].key != q[k].key;
      RemoveAt(q[1..], k - 1);
      assert Cut(q, k) == [q[0]] + Cut(q[1..], k - 1);
    }
  }

  lemma {:induction false} RemoveDiffers<T>(q: seq<Entry<T>>, r: seq<Entry<T>>, key: T)
    requires DistinctKeys(q) && |q| == |r|
    requires forall i :: 0 <= i < |q| ==> r[i].key == q[i].key && (q[i].key != key ==> r[i] == q[i])
    ensures Remove(q, key) == Remove(r, key)
  {
    if q != [] {
      if q[0].key == key {
        assert q[1..] == r[1..];
      } else {
        RemoveDiffers(q[1..], r[1..], key);
      }
    }
  }

  lemma {:induction false} RemoveSorted<T>(q: seq<Entry<T>>, key: T)
    requires Sorted(q)
    ensures Sorted(Remove(q, key))
  {
    if q != [] && q[0].key != key {
      RemoveSorted(q[1..], key);
      var t := Remove(q[1..], key);
      forall i | 0 <= i < |t|
        ensures !IsBigger(q[0].deadline, t[i].deadline)
      {
        RemoveIn(q[1..], key, t[i]);
      }
    }
  }

  lemma {:induction false} RemoveIn<T>(q: seq<Entry<T>>, key: T, r: Entry<T>)
    requires r in Remove(q, key)
    ensures r in q
  {
    if q != [] && q[0].key != key && r != q[0] {
      RemoveIn(q[1..], key, r);
    }
  }

  lemma {:induction false} RemoveAbsent<T>(q: seq<Entry<T>>, key: T)
    requires forall i :: 0 <= i < |q| ==> q[i].key != key
    ensures Remove(q, key) == q
  {
    if q != [] {
      RemoveAbsent(q[1..], key);
    }
  }

  // ---------- a trigger run ----------

  /** Successive readings of gettimeofday: they never go back and stay within `bound` microseconds. */
  ghost predicate ValidClock(clock: nat -> TimeVal, bound: int) {
    && (forall i :: Normal(clock(i)) && Micros(clock(i)) <= bound)
    && (forall i, j :: i <= j ==> Micros(clock(i)) <= Micros(clock(j)))
  }

  ghost predicate Runnable<T>(q: seq<Entry<T>>) {
    && Sorted(q)
    && DistinctKeys(q)
    && forall i :: 0 <= i < |q| ==> EntryOk(q[i])
  }

  predicate EntryOk<T>(e: Entry<T>) {
    Carried(e.deadline) && (e.period.Some? ==> Carried(e.period.value) && Micros(e.period.value) > 0)
  }

  // How far below `bound + 1` the deadlines are, in total.
  ghost function Budget<T>(q: seq<Entry<T>>, bound: int): nat {
    if q == [] then 0 else Slack(q[0], bound) + Budget(q[1..], bound)
  }

  function Slack<T>(e: Entry<T>, bound: int): nat {
    var gap := bound + 1 - Micros(e.deadline);
    if gap > 0 then gap else 0
  }

  lemma {:induction false} BudgetConcat<T>(a: seq<Entry<T>>, b: seq<Entry<T>>, bound: int)
    ensures Budget(a + b, bound) == Budget(a, bound) + Budget(b, bound)
  {
    if a == [] {
      assert a + b == b;
    } else {
      BudgetConcat(a[1..], b, bound);
      assert (a + b)[1..] == a[1..] + b;
    }
  }

  lemma BudgetInsert<T>(q: seq<Entry<T>>, e: Entry<T>, bound: int)
    ensures Budget(Insert(q, e), bound) == Budget(q, bound) + Slack(e, bound)
  {
    var p := InsertPos(q, e.deadline);
    BudgetConcat(q[..p], [e] + q[p..], bound);
    BudgetConcat(q[..p], q[p..], bound);
    assert q == q[..p] + q[p..];
    assert Put(q, p, e) == q[..p] + ([e] + q[p..]);
    assert ([e] + q[p..])[1..] == q[p..];
  }

  function Reloaded<T>(e: Entry<T>): Entry<T>
    requires e.period.Some?
  {
    e.(deadline := Reload(e.deadline, e.period.value))
  }

  /** The queue after its head fired: a one-shot leaves, a periodic timer is armed again. */
  ghost function AfterFiring<T>(q: seq<Entry<T>>): seq<Entry<T>>
    requires q != []
  {
    if q[0].period.None? then q[1..] else Insert(q[1..], Reloaded(q[0]))
  }

  lemma InsertRunnable<T>(q: seq<Entry<T>>, e: Entry<T>)
    requires Runnable(q) && EntryOk(e)
    requires forall i :: 0 <= i < |q| ==> q[i].key != e.key
    ensures Runnable(Insert(q, e))
  {
    InsertSorted(q, e);
    var r, p := Insert(q, e), InsertPos(q, e.deadline);
    InsertIndices(q, e);
    assert forall i :: 0 <= i < |r| ==> r[i] == if i < p then q[i] else if i == p then e else q[i - 1];
  }

  lemma AfterFiringRunnable<T>(q: seq<Entry<T>>)
    requires q != [] && Runnable(q)
    ensures Runnable(AfterFiring(q))
  {
    var t := q[1..];
    assert forall i :: 0 <= i < |t| ==> t[i] == q[i + 1];
    if q[0].period.Some? {
      assert EntryOk(q[0]);
      InsertRunnable(t, Reloaded(q[0]));
    }
  }

  /** The termination measure of the trigger loop. */
  lemma FiringSpendsBudget<T>(q: seq<Entry<T>>, now: TimeVal, bound: int)
    requires q != [] && Runnable(q)
    requires Normal(now) && Micros(now) <= bound && !IsBigger(q[0].deadline, now)
    ensures Budget(AfterFiring(q), bound) < Budget(q, bound)
  {
    BiggerThanClock(q[0].deadline, now);
    if q[0].period.Some? {
      BudgetInsert(q[1..], Reloaded(q[0]), bound);
    }
  }

  /** _trigger_timer with callbacks that leave the timers alone; reading number `n` is `clock(n)`. */
  ghost function Run<T>(q: seq<Entry<T>>, clock: nat -> TimeVal, n: nat, bound: int): Outcome<T>
    requires ValidClock(clock, bound) && Runnable(q)
    decreases Budget(q, bound)
  {
    if q == [] then
      Outcome([], q, n)
    else if IsBigger(q[0].deadline, clock(n)) then
      Outcome([], q, n + 1)
    else
      AfterFiringRunnable(q);
      FiringSpendsBudget(q, clock(n), bound);
      var o := Run(AfterFiring(q), clock, n + 1, bound);
      After([Firing(q[0].key, q[0].deadline, clock(n))], o)
  }

  lemma RunStops<T>(q: seq<Entry<T>>, clock: nat -> TimeVal, n: nat, bound: int)
    requires ValidClock(clock, bound) && Runnable(q)
    ensures q == [] ==> Run(q, clock, n, bound) == Outcome([], q, n)
    ensures q != [] && IsBigger(q[0].deadline, clock(n)) ==> Run(q, clock, n, bound) == Outcome([], q, n + 1)
  {
  }

  lemma RunGoesOn<T>(q: seq<Entry<T>>, clock: nat -> TimeVal, n: nat, bound: int)
    requires ValidClock(clock, bound) && Runnable(q) && q != [] && !IsBigger(q[0].deadline, clock(n))
    ensures Runnable(AfterFiring(q)) && Budget(AfterFiring(q), bound) < Budget(q, bound)
    ensures Run(q, clock, n, bound)
         == After([Firing(q[0].key, q[0].deadline, clock(n))], Run(AfterFiring(q), clock, n + 1, bound))
  {
    AfterFiringRunnable(q);
    FiringSpendsBudget(q, clock(n), bound);
  }

  lemma ClockNormal(clock: nat -> TimeVal, n: nat, bound: int)
    requires ValidClock(clock, bound)
    ensures Normal(clock(n))
  {
  }

  /** The outcome `o` of a run that had already fired `fired`. */
  ghost function After<T>(fired: seq<Firing<T>>, o: Outcome<T>): Outcome<T> {
    o.(fired := fired + o.fired)
  }

  lemma AfterStep<T>(fired: seq<Firing<T>>, f: Firing<T>, o: Outcome<T>)
    ensures After(fired, After([f], o)) == After(fired + [f], o)
  {
    assert fired + ([f] + o.fired) == fired + [f] + o.fired;
  }

  lemma AfterNothing<T>(o: Outcome<T>)
    ensures After([], o) == o
  {
    assert [] + o.fired == o.fired;
  }

  lemma AfterLast<T>(fired: seq<Firing<T>>, rest: seq<Entry<T>>, n: nat)
    ensures After(fired, Outcome([], rest, n)) == Outcome(fired, rest, n)
  {
    assert fired + [] == fired;
  }

  // ---------- what a run does ----------

  /** Firing number i is the i-th reading of the clock, and it is not early. */
  ghost predicate OnTime<T>(fired: seq<Firing<T>>, clock: nat -> TimeVal, n: nat) {
    forall i :: 0 <= i < |fired| ==>
      fired[i].at == clock(n + i) && Micros(fired[i].deadline) <= Micros(fired[i].at)
  }

  ghost predicate InOrder<T>(fired: seq<Firing<T>>) {
    forall i, j :: 0 <= i < j < |fired| ==> !IsBigger(fired[i].deadline, fired[j].deadline)
  }

  ghost predicate NoneBefore<T>(deadline: TimeVal, fired: seq<Firing<T>>) {
    forall i :: 0 <= i < |fired| ==> !IsBigger(deadline, fired[i].deadline)
  }

  lemma {:induction false} RunNeverEarly<T>(q: seq<Entry<T>>, clock: nat -> TimeVal, n: nat, bound: int)
    requires ValidClock(clock, bound) && Runnable(q)
    ensures OnTime(Run(q, clock, n, bound).fired, clock, n)
    decreases Budget(q, bound)
  {
    if q != [] && !IsBigger(q[0].deadline, clock(n)) {
      var q', n' := AfterFiring(q), n + 1;
      AfterFiringRunnable(q);
      FiringSpendsBudget(q, clock(n), bound);
      RunNeverEarly(q', clock, n', bound);
      BiggerThanClock(q[0].deadline, clock(n));
      OnTimeCons(q[0], clock, n, Run(q', clock, n', bound).fired);
    }
  }

  lemma OnTimeCons<T>(e: Entry<T>, clock: nat -> TimeVal, n: nat, later: seq<Firing<T>>)
    requires Micros(e.deadline) <= Micros(clock(n)) && OnTime(later, clock, n + 1)
    ensures OnTime([Firing(e.key, e.deadline, clock(n))] + later, clock, n)
  {
    var fired := [Firing(e.key, e.deadline, clock(n))] + later;
    forall i | 0 <= i < |fired|
      ensures fired[i].at == clock(n + i) && Micros(fired[i].deadline) <= Micros(fired[i].at)
    {
      if i > 0 {
        assert later[i - 1].at == clock(n + 1 + (i - 1));
      }
    }
  }

  lemma AfterFiringLater<T>(q: seq<Entry<T>>)
    requires q != [] && Runnable(q)
    ensures AfterFiring(q) != [] ==> !IsBigger(q[0].deadline, AfterFiring(q)[0].deadline)
  {
    assert EntryOk(q[0]);
    if q[0].period.Some? {
      var e := Reloaded(q[0]);
      BiggerRefinesMicros(q[0].deadline, e.deadline);
      InsertIndices(q[1..], e);
    }
  }

  /** Firings follow the order of the deadlines, for every clock. */
  lemma {:induction false} RunFiresInOrder<T>(q: seq<Entry<T>>, clock: nat -> TimeVal, n: nat, bound: int)
    requires ValidClock(clock, bound) && Runnable(q)
    ensures InOrder(Run(q, clock, n, bound).fired)
    ensures q != [] ==> NoneBefore(q[0].deadline, Run(q, clock, n, bound).fired)
    decreases Budget(q, bound)
  {
    if q != [] && !IsBigger(q[0].deadline, clock(n)) {
      var q', n' := AfterFiring(q), n + 1;
      AfterFiringRunnable(q);
      FiringSpendsBudget(q, clock(n), bound);
      RunFiresInOrder(q', clock, n', bound);
      AfterFiringLater(q);
      var later := Run(q', clock, n', bound).fired;
      assert q' == [] ==> later == [];
      assert NoneBefore(q[0].deadline, later);
      assert Run(q, clock, n, bound).fired == [Firing(q[0].key, q[0].deadline, clock(n))] + later;
    }
  }

  lemma NoneDue<T>(q: seq<Entry<T>>, now: TimeVal)
    requires Runnable(q) && q != [] && Normal(now) && IsBigger(q[0].deadline, now)
    ensures forall i :: 0 <= i < |q| ==> Micros(q[i].deadline) > Micros(now)
  {
    forall i | 0 <= i < |q|
      ensures Micros(q[i].deadline) > Micros(now)
    {
      assert i > 0 ==> !IsBigger(q[0].deadline, q[i].deadline);
      assert EntryOk(q[i]);
      BiggerThanClock(q[i].deadline, now);
    }
  }

  /** The run stops at the first reading the head is later than, so nothing armed is due then. */
  lemma {:induction false} RunLeavesNothingDue<T>(q: seq<Entry<T>>, clock: nat -> TimeVal, n: nat, bound: int)
    requires ValidClock(clock, bound) && Runnable(q)
    ensures var o := Run(q, clock, n, bound);
      && Runnable(o.rest)
      && o.readings == n + |o.fired| + (if o.rest == [] then 0 else 1)
      && forall i :: 0 <= i < |o.rest| ==> Micros(o.rest[i].deadline) > Micros(clock(o.readings - 1))
    decreases Budget(q, bound)
  {
    hide Run, Runnable, AfterFiring;
    RunStops(q, clock, n, bound);
    if q == [] {
    } else if IsBigger(q[0].deadline, clock(n)) {
      ClockNormal(clock, n, bound);
      NoneDue(q, clock(n));
    } else {
      RunGoesOn(q, clock, n, bound);
      RunLeavesNothingDue(AfterFiring(q), clock, n + 1, bound);
    }
  }

  // ---------- the account of each timer ----------

  /** The deadlines a key fired at. */
  ghost function FiredOf<T>(fired: seq<Firing<T>>, key: T): seq<TimeVal> {
    if fired == [] then []
    else (if fired[0].key == key then [fired[0].deadline] else []) + FiredOf(fired[1..], key)
  }

  /** An entry after `c` reloads. */
  ghost function Advance<T>(e: Entry<T>, c: nat): Entry<T>
    requires e.period.Some?
    decreases c
  {
    if c == 0 then e else Advance(Reloaded(e), c - 1)
  }

  /** The deadlines a periodic entry has before each of its next `c` reloads. */
  ghost function Deadlines<T>(e: Entry<T>, c: nat): (r: seq<TimeVal>)
    requires e.period.Some?
    ensures |r| == c
    decreases c
  {
    if c == 0 then [] else [e.deadline] + Deadlines(Reloaded(e), c - 1)
  }

  lemma OneMore(c: int, p: int)
    ensures (c - 1) * p + p == c * p
  {
  }

  lemma {:induction false} AdvanceDeadline<T>(e: Entry<T>, c: nat)
    requires e.period.Some?
    ensures Advance(e, c).period == e.period && Advance(e, c).key == e.key
    ensures Micros(Advance(e, c).deadline) == Micros(e.deadline) + c * Micros(e.period.value)
    decreases c
  {
    if c > 0 {
      AdvanceDeadline(Reloaded(e), c - 1);
      OneMore(c, Micros(e.period.value));
    }
  }

  /** No drift: firing number j of a periodic timer was due exactly j periods after its first
      deadline. */
  lemma {:induction false} NoDrift<T>(e: Entry<T>, c: nat, j: nat)
    requires e.period.Some? && j < c
    ensures Micros(Deadlines(e, c)[j]) == Micros(e.deadline) + j * Micros(e.period.value)
    decreases c
  {
    if j > 0 {
      NoDrift(Reloaded(e), c - 1, j - 1);
      assert Deadlines(e, c)[j] == Deadlines(Reloaded(e), c - 1)[j - 1];
      OneMore(j, Micros(e.period.value));
    }
  }

  /** What a run owes the entry `e`: the firings `mine` of its key and what is left of it. */
  ghost predicate Settled<T>(e: Entry<T>, mine: seq<TimeVal>, rest: seq<Entry<T>>) {
    if e.period.Some? then
      mine == Deadlines(e, |mine|) && Advance(e, |mine|) in rest
    else
      (mine == [] && e in rest) || (mine == [e.deadline] && forall r :: r in rest ==> r.key != e.key)
  }

  lemma AfterFiringKeeps<T>(q: seq<Entry<T>>, e: Entry<T>)
    requires q != [] && Runnable(q) && e in q
    ensures e.key != q[0].key ==> e in AfterFiring(q)
    ensures e.key == q[0].key ==> e == q[0]
    ensures e.key == q[0].key && e.period.Some? ==> Reloaded(e) in AfterFiring(q)
    ensures e.key == q[0].key && e.period.None? ==> forall r :: r in AfterFiring(q) ==> r.key != e.key
  {
    var k :| 0 <= k < |q| && q[k] == e;
    if q[0].period.Some? {
      var t, r := q[1..], Reloaded(q[0]);
      InsertIndices(t, r);
      var p := InsertPos(t, r.deadline);
      assert Insert(t, r)[p] == r;
      if k > 0 {
        assert Insert(t, r)[if k - 1 < p then k - 1 else k] == t[k - 1];
      }
    } else if k > 0 {
      assert q[1..][k - 1] == e;
    }
  }

  lemma AfterFiringOnly<T>(q: seq<Entry<T>>, key: T)
    requires q != [] && Runnable(q)
    requires forall r :: r in q ==> r.key != key
    ensures forall r :: r in AfterFiring(q) ==> r.key != key
  {
    assert q[0] in q;
    if q[0].period.Some? {
      InsertIndices(q[1..], Reloaded(q[0]));
    }
  }

  lemma {:induction false} RunIgnoresAbsent<T>(q: seq<Entry<T>>, clock: nat -> TimeVal, n: nat, bound: int, key: T)
    requires ValidClock(clock, bound) && Runnable(q)
    requires forall r :: r in q ==> r.key != key
    ensures var o := Run(q, clock, n, bound);
      FiredOf(o.fired, key) == [] && forall r :: r in o.rest ==> r.key != key
    decreases Budget(q, bound)
  {
    if q == [] || IsBigger(q[0].deadline, clock(n)) {
      assert Run(q, clock, n, bound).fired == [];
    } else {
      var q', n' := AfterFiring(q), n + 1;
      AfterFiringRunnable(q);
      FiringSpendsBudget(q, clock(n), bound);
      AfterFiringOnly(q, key);
      RunIgnoresAbsent(q', clock, n', bound, key);
      assert q[0] in q;
      var o := Run(q, clock, n, bound);
      assert o.fired[1..] == Run(q', clock, n', bound).fired;
    }
  }

  lemma FiredOfCons<T>(f: Firing<T>, later: seq<Firing<T>>, key: T)
    ensures FiredOf([f] + later, key) == (if f.key == key then [f.deadline] else []) + FiredOf(later, key)
  {
    assert ([f] + later)[1..] == later;
  }

  lemma SettledReload<T>(e: Entry<T>, mine: seq<TimeVal>, rest: seq<Entry<T>>)
    requires e.period.Some? && Settled(Reloaded(e), mine, rest)
    ensures Settled(e, [e.deadline] + mine, rest)
  {
  }

  lemma {:induction false} FiredOfSnoc<T>(fired: seq<Firing<T>>, f: Firing<T>)
    ensures forall key :: FiredOf(fired + [f], key) == FiredOf(fired, key) + (if f.key == key then [f.deadline] else [])
  {
    if fired != [] {
      FiredOfSnoc(fired[1..], f);
      assert (fired + [f])[1..] == fired[1..] + [f];
    }
  }

  /** Every timer is settled: a one-shot that fired is gone and fired once, one that did not is
      untouched, and a periodic timer is armed again exactly as many periods later as it fired. */
  lemma {:induction false} RunSettles<T>(q: seq<Entry<T>>, clock: nat -> TimeVal, n: nat, bound: int, e: Entry<T>)
    requires ValidClock(clock, bound) && Runnable(q) && e in q
    ensures var o := Run(q, clock, n, bound); Settled(e, FiredOf(o.fired, e.key), o.rest)
    decreases Budget(q, bound)
  {
    if IsBigger(q[0].deadline, clock(n)) {
      assert e.period.Some? ==> Deadlines(e, 0) == [] && Advance(e, 0) == e;
    } else {
      var q', n' := AfterFiring(q), n + 1;
      AfterFiringRunnable(q);
      FiringSpendsBudget(q, clock(n), bound);
      AfterFiringKeeps(q, e);
      var o' := Run(q', clock, n', bound);
      FiredOfCons(Firing(q[0].key, q[0].deadline, clock(n)), o'.fired, e.key);
      if e.key != q[0].key {
        RunSettles(q', clock, n', bound, e);
      } else if e.period.Some? {
        RunSettles(q', clock, n', bound, Reloaded(e));
        SettledReload(e, FiredOf(o'.fired, e.key), o'.rest);
      } else {
        RunIgnoresAbsent(q', clock, n', bound, e.key);
      }
    }
  }

  // ---------- the closed form of a run ----------

  /** How often a timer is due by the time `last`. */
  function TimesDue<T>(e: Entry<T>, last: TimeVal): nat
    requires EntryOk(e)
  {
    if Micros(e.deadline) > Micros(last) then 0
    else if e.period.None? then 1
    else (Micros(last) - Micros(e.deadline)) / Micros(e.period.value) + 1
  }

  ghost predicate AllBy(times: seq<TimeVal>, limit: int) {
    forall i :: 0 <= i < |times| ==> Micros(times[i]) <= limit
  }

  lemma {:induction false} FiredOfBy<T>(fired: seq<Firing<T>>, key: T, limit: int)
    requires forall i :: 0 <= i < |fired| ==> Micros(fired[i].deadline) <= limit
    ensures AllBy(FiredOf(fired, key), limit)
  {
    if fired != [] {
      FiredOfBy(fired[1..], key, limit);
    }
  }

  lemma QuotientUnique(gap: int, period: int, c: int)
    requires period > 0
    requires c * period <= gap < (c + 1) * period
    ensures gap / period == c
  {
    var d := gap / period;
    assert gap == d * period + gap % period;
    if d < c {
      MulMonotone(d + 1, c, period);
    } else if c < d {
      MulMonotone(c + 1, d, period);
    }
  }

  lemma MulMonotone(a: int, b: int, p: int)
    requires a <= b && p >= 0
    ensures a * p <= b * p
  {
    assert (b - a) * p >= 0;
  }

  /** A settled timer whose firings were not late and of which nothing due is left fired
      exactly as often as it was due. */
  lemma SettledCount<T>(e: Entry<T>, mine: seq<TimeVal>, rest: seq<Entry<T>>, last: TimeVal)
    requires EntryOk(e) && Settled(e, mine, rest) && AllBy(mine, Micros(last))
    requires forall r :: r in rest ==> Micros(r.deadline) > Micros(last)
    ensures |mine| == TimesDue(e, last)
  {
    var c := |mine|;
    if e.period.Some? {
      var p, gap := Micros(e.period.value), Micros(last) - Micros(e.deadline);
      AdvanceDeadline(e, c);
      assert gap < c * p;
      if c > 0 {
        NoDrift(e, c, c - 1);
        assert Micros(mine[c - 1]) <= Micros(last);
        MulMonotone(0, c - 1, p);
        QuotientUnique(gap, p, c - 1);
      }
    } else if c > 0 {
      assert Micros(mine[0]) <= Micros(last);
    }
  }

  // Firings are not late for a reading after theirs.
  lemma FiredBy<T>(fired: seq<Firing<T>>, clock: nat -> TimeVal, n: nat, last: nat, bound: int)
    requires ValidClock(clock, bound) && OnTime(fired, clock, n) && n + |fired| <= last + 1
    ensures forall i :: 0 <= i < |fired| ==> Micros(fired[i].deadline) <= Micros(clock(last))
  {
    forall i | 0 <= i < |fired|
      ensures Micros(fired[i].deadline) <= Micros(clock(last))
    {
      assert Micros(clock(n + i)) <= Micros(clock(last));
    }
  }

  lemma RunReads<T>(q: seq<Entry<T>>, clock: nat -> TimeVal, n: nat, bound: int)
    requires ValidClock(clock, bound) && Runnable(q) && q != []
    ensures Run(q, clock, n, bound).readings > n
  {
    if !IsBigger(q[0].deadline, clock(n)) {
      AfterFiringRunnable(q);
      FiringSpendsBudget(q, clock(n), bound);
      RunLeavesNothingDue(AfterFiring(q), clock, n + 1, bound);
    }
  }

  /** What a run does depends on its clock only through the last reading: each timer fires
      exactly as often as it is due by then. */
  lemma RunFiresWhatIsDue<T>(q: seq<Entry<T>>, clock: nat -> TimeVal, n: nat, bound: int, e: Entry<T>)
    requires ValidClock(clock, bound) && Runnable(q) && e in q
    ensures var o := Run(q, clock, n, bound);
      o.readings > n && |FiredOf(o.fired, e.key)| == TimesDue(e, clock(o.readings - 1))
  {
    hide Run, FiredOf, Runnable, ValidClock, Settled, TimesDue, AllBy;
    Member(q, e);
    var o := Run(q, clock, n, bound);
    RunReads(q, clock, n, bound);
    RunSettles(q, clock, n, bound, e);
    RestLater(q, clock, n, bound);
    FiredOnlyBy(q, clock, n, bound, e.key);
    SettledCount(e, FiredOf(o.fired, e.key), o.rest, clock(o.readings - 1));
  }

  lemma Member<T>(q: seq<Entry<T>>, e: Entry<T>)
    requires Runnable(q) && e in q
    ensures q != [] && EntryOk(e)
  {
  }

  lemma RestLater<T>(q: seq<Entry<T>>, clock: nat -> TimeVal, n: nat, bound: int)
    requires ValidClock(clock, bound) && Runnable(q) && Run(q, clock, n, bound).readings > n
    ensures var o := Run(q, clock, n, bound);
      forall r :: r in o.rest ==> Micros(r.deadline) > Micros(clock(o.readings - 1))
  {
    RunLeavesNothingDue(q, clock, n, bound);
  }

  lemma FiredOnlyBy<T>(q: seq<Entry<T>>, clock: nat -> TimeVal, n: nat, bound: int, key: T)
    requires ValidClock(clock, bound) && Runnable(q) && Run(q, clock, n, bound).readings > n
    ensures var o := Run(q, clock, n, bound);
      AllBy(FiredOf(o.fired, key), Micros(clock(o.readings - 1)))
  {
    hide Run, FiredOf, Runnable;
    var o := Run(q, clock, n, bound);
    RunLeavesNothingDue(q, clock, n, bound);
    RunNeverEarly(q, clock, n, bound);
    FiredBy(o.fired, clock, n, o.readings - 1, bound);
    FiredOfBy(o.fired, key, Micros(clock(o.readings - 1)));
  }
}
