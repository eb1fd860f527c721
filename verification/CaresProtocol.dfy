/** The life of one DNS query under the c-ares engine: the query node, the wrapper that counts
    outstanding answers, aborts by the client and answers by the resolver in any order. */
module CaresProtocol {
  import opened Basics

  datatype Op =
    | Abort                                   // iodns_abort
    | Answer(ok: bool, addresses: seq<nat>)   // dnsengine_cares_callback

  datatype Event = Event(success: bool, results: seq<nat>)

  /** `attached` is query->iodns != NULL and `handle` descriptor->query != NULL. The counters say
      how often each object was freed; `fault` that a null or dangling pointer was used. */
  datatype State = State(
    count: int, successful: nat, attached: bool,
    running: bool, processing: bool, results: seq<nat>, handle: bool,
    nodeFrees: nat, wrapperFrees: nat, resultFrees: nat,
    events: seq<Event>, fault: bool)

  // dnsengine_cares_add for `n` requests, none of which is answered before it returns
  function Started(n: nat): State {
    State(n, 0, true, true, true, [], true, 0, 0, 0, [], false)
  }

  // _stop_dnsquery
  function StopQuery(s: State): State {
    var s := s.(running := false);
    if !s.processing then s.(nodeFrees := s.nodeFrees + 1) else s
  }

  // iodns_event_callback for a public descriptor
  function EventCallback(s: State, success: bool): State {
    var s := StopQuery(s.(handle := false));
    s.(events := s.events + [Event(success, s.results)])
  }

  function AbortStep(s: State): State {
    if !s.handle then s
    else if s.nodeFrees > 0 then s.(fault := true)
    else StopQuery(s)
  }

  /** dnsengine_cares_callback. Changed from the source when `repaired`: lines 221-224 clear the
      pointer to the node before they use it to free the results and the node. */
  function AnswerStep(s: State, ok: bool, addresses: seq<nat>, repaired: bool): State {
    var s := s.(count := s.count - 1);
    if s.attached && !s.running && !repaired then
      s.(fault := true)
    else
      var s := Gather(Discard(s), ok, addresses);
      if s.count > 0 then s else Conclude(s)
  }

  // A query that was stopped is freed with its results.
  function Discard(s: State): State {
    if s.attached && !s.running
    then s.(attached := false, resultFrees := s.resultFrees + 1, nodeFrees := s.nodeFrees + 1)
    else s
  }

  function Gather(s: State, ok: bool, addresses: seq<nat>): State {
    if s.attached && ok
    then s.(results := Reverse(addresses) + s.results, successful := s.successful + 1)
    else s
  }

  // The last answer is in.
  function Conclude(s: State): State {
    var s := if s.attached
             then EventCallback(s.(processing := false, running := false), s.successful > 0)
             else s;
    s.(wrapperFrees := s.wrapperFrees + 1)
  }

  function Step(s: State, op: Op, repaired: bool): State {
    if s.fault then s
    else match op
      case Abort => AbortStep(s)
      case Answer(ok, addresses) => AnswerStep(s, ok, addresses, repaired)
  }

  function Run(n: nat, ops: seq<Op>, repaired: bool): State {
    if ops == [] then Started(n) else Step(Run(n, ops[..|ops| - 1], repaired), ops[|ops| - 1], repaired)
  }

  // ---------- what happened, read off the operations ----------

  function Answers(ops: seq<Op>): nat {
    if ops == [] then 0 else Answers(ops[..|ops| - 1]) + (if ops[|ops| - 1].Answer? then 1 else 0)
  }

  /** The client aborted while an answer was outstanding. */
  predicate Aborted(n: nat, ops: seq<Op>) {
    ops != [] && var before, op := ops[..|ops| - 1], ops[|ops| - 1];
      Aborted(n, before) || (op.Abort? && Answers(before) < n)
  }

  /** An answer came after that. */
  predicate Late(n: nat, ops: seq<Op>) {
    ops != [] && var before, op := ops[..|ops| - 1], ops[|ops| - 1];
      Late(n, before) || (op.Answer? && Aborted(n, before))
  }

  /** The client aborted again after that. */
  predicate AbortedAgain(n: nat, ops: seq<Op>) {
    ops != [] && var before, op := ops[..|ops| - 1], ops[|ops| - 1];
      AbortedAgain(n, before) || (op.Abort? && Late(n, before))
  }

  predicate AnySuccess(ops: seq<Op>) {
    ops != [] && var before, op := ops[..|ops| - 1], ops[|ops| - 1];
      AnySuccess(before) || (op.Answer? && op.ok)
  }

  /** The addresses of the successful answers, the latest first. */
  function Addresses(ops: seq<Op>): seq<nat> {
    if ops == [] then []
    else
      var before, op := ops[..|ops| - 1], ops[|ops| - 1];
      (if op.Answer? && op.ok then Reverse(op.addresses) else []) + Addresses(before)
  }

  // ---------- the protocol ----------

  // The flags and pointers of a run that has not faulted.
  ghost predicate Internal(n: nat, ops: seq<Op>, s: State) {
    && s.count == n - Answers(ops)
    && s.attached == !Late(n, ops)
    && s.handle == (Aborted(n, ops) || Answers(ops) < n)
    && s.running == (!Aborted(n, ops) && Answers(ops) < n)
    && s.processing == (Aborted(n, ops) || Answers(ops) < n)
    && (!Aborted(n, ops) ==> s.results == Addresses(ops) && (s.successful > 0 <==> AnySuccess(ops)))
  }

  ghost predicate Outward(n: nat, ops: seq<Op>, s: State) {
    && s.wrapperFrees == (if Answers(ops) == n then 1 else 0)
    && s.nodeFrees == (if Answers(ops) == n || Late(n, ops) then 1 else 0)
    && s.resultFrees == (if Late(n, ops) then 1 else 0)
    && s.events == (if Answers(ops) == n && !Aborted(n, ops) then [Event(AnySuccess(ops), Addresses(ops))] else [])
  }

  lemma {:induction false} LateIsAborted(n: nat, ops: seq<Op>)
    ensures Late(n, ops) ==> Aborted(n, ops)
    ensures AbortedAgain(n, ops) ==> Late(n, ops)
    ensures Aborted(n, ops) && Answers(ops) == n ==> Late(n, ops)
  {
    if ops != [] {
      LateIsAborted(n, ops[..|ops| - 1]);
    }
  }

  /** Every interleaving of aborts and at most `n` answers, repaired: the wrapper is freed once,
      with the last answer; the node once, with the last answer or the first one after an abort;
      a query that was not aborted gets exactly one event, with the last answer, which is a
      success if and only if some answer was and carries all their addresses; an aborted one gets
      none and its results are freed. The run faults only when an aborted query is aborted again
      after its node was freed. */
  lemma {:induction false} Protocol(n: nat, ops: seq<Op>)
    requires n > 0 && Answers(ops) <= n
    ensures var s := Run(n, ops, true);
      && (s.fault <==> AbortedAgain(n, ops))
      && (!s.fault ==> Internal(n, ops, s) && Outward(n, ops, s))
  {
    if ops != [] {
      var before := ops[..|ops| - 1];
      Protocol(n, before);
      LateIsAborted(n, before);
    }
  }

  /** As written the callback uses a null pointer exactly in the runs in which an answer comes
      after an abort, and all other runs are the repaired ones. */
  lemma {:induction false} AsWrittenFaultsIffLate(n: nat, ops: seq<Op>)
    requires n > 0 && Answers(ops) <= n
    ensures Run(n, ops, false).fault <==> Late(n, ops)
    ensures !Late(n, ops) ==> Run(n, ops, false) == Run(n, ops, true)
  {
    if ops != [] {
      var before := ops[..|ops| - 1];
      AsWrittenFaultsIffLate(n, before);
      Protocol(n, before);
      LateIsAborted(n, before);
    }
  }

  /** Aborting a query that waits for one answer and then answering it is enough. */
  lemma AbortThenAnswerFaults()
    ensures Run(1, [Abort, Answer(false, [])], false).fault
    ensures !Run(1, [Abort, Answer(false, [])], true).fault
  {
    var ops := [Abort, Answer(false, [])];
    assert ops[..1] == [Abort] && [Abort][..0] == [];
    AsWrittenFaultsIffLate(1, ops);
    Protocol(1, ops);
  }
}
