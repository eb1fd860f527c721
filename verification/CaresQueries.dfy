/** The objects of one query under the c-ares engine. Every method is one step of CaresProtocol. */
module CaresQueries {
  import opened Basics
  import opened CaresProtocol

  /** struct _IODNSQuery */
  class DnsQuery {
    var running: bool
    var processing: bool
    var result: seq<nat>

    constructor ()
      ensures !running && !processing && result == []
    {
      running, processing, result := false, false, [];
    }
  }

  /** struct dnsengine_cares_query */
  class CaresQuery {
    var queryCount: int
    var querySuccessful: nat
    var iodns: DnsQuery?

    constructor (query: DnsQuery)
      ensures queryCount == 0 && querySuccessful == 0 && iodns == query
    {
      queryCount, querySuccessful, iodns := 0, 0, query;
    }
  }

  /** struct IODNSQuery */
  class Descriptor {
    var query: DnsQuery?

    constructor (query: DnsQuery)
      ensures this.query == query
    {
      this.query := query;
    }
  }

  class Exchange {
    const node: DnsQuery
    const wrapper: CaresQuery
    const descriptor: Descriptor
    // How often the node was freed, and whether freed memory was used.
    var nodeFrees: nat
    var fault: bool
    // What else was freed and which events the client got.
    ghost var wrapperFrees: nat
    ghost var resultFrees: nat
    ghost var events: seq<Event>

    ghost predicate Valid()
      reads this, wrapper, descriptor
    {
      wrapper.iodns in {null, node} && descriptor.query in {null, node}
    }

    ghost function View(): State
      reads this, node, wrapper, descriptor
    {
      State(wrapper.queryCount, wrapper.querySuccessful, wrapper.iodns != null,
            node.running, node.processing, node.result, descriptor.query != null,
            nodeFrees, wrapperFrees, resultFrees, events, fault)
    }

    /** iodns_getaddrinfo with dnsengine_cares_add: one request for each record type asked for. */
    constructor (recordA: bool, recordAAAA: bool)
      requires recordA || recordAAAA
      ensures Valid() && View() == Started((if recordA then 1 else 0) + (if recordAAAA then 1 else 0))
      ensures fresh(node) && fresh(wrapper) && fresh(descriptor)
    {
      var query := new DnsQuery();
      node := query;
      descriptor := new Descriptor(query);
      wrapper := new CaresQuery(query);
      nodeFrees, wrapperFrees, resultFrees, events, fault := 0, 0, 0, [], false;
      new;
      node.running := true;
      node.processing := true;
      if recordA {
        wrapper.queryCount := wrapper.queryCount + 1;
      }
      if recordAAAA {
        wrapper.queryCount := wrapper.queryCount + 1;
      }
    }

    /** _stop_dnsquery */
    method Stop()
      requires Valid()
      modifies node`running, this`nodeFrees
      ensures Valid() && View() == StopQuery(old(View()))
    {
      if node.running {
        node.running := false;
      }
      if !node.processing {
        FreeNode();
      }
    }

    // _free_dnsquery
    method FreeNode()
      modifies this`nodeFrees
      ensures nodeFrees == old(nodeFrees) + 1
    {
      nodeFrees := nodeFrees + 1;
    }

    /** iodns_abort; the handle may point at a node that was freed. */
    method AbortQuery()
      requires Valid()
      modifies node`running, this`nodeFrees, this`fault
      ensures Valid() && View() == Step(old(View()), Abort, true)
    {
      if fault || descriptor.query == null {
        return;
      }
      if nodeFrees > 0 {
        fault := true;
      } else {
        Stop();
      }
    }

    /** iodns_event_callback */
    method Deliver(success: bool)
      requires Valid()
      modifies descriptor`query, node`running, this`nodeFrees, this`events
      ensures Valid() && View() == EventCallback(old(View()), success)
    {
      descriptor.query := null;
      Stop();
      events := events + [Event(success, node.result)];
    }

    /** dnsengine_cares_callback for a forward lookup. Changed from the source: lines 221-224 null
        the pointer before they use it; here the results and the node are freed first. */
    method Callback(ok: bool, addresses: seq<nat>)
      requires Valid()
      modifies this, node, wrapper, descriptor
      ensures Valid() && View() == Step(old(View()), Answer(ok, addresses), true)
    {
      hide Conclude, Discard, StopQuery, EventCallback;
      if fault {
        return;
      }
      wrapper.queryCount := wrapper.queryCount - 1;
      DropStopped();
      if wrapper.iodns != null && ok {
        AddResults(addresses);
        wrapper.querySuccessful := wrapper.querySuccessful + 1;
      }
      if wrapper.queryCount <= 0 {
        LastAnswer();
      }
    }

    // Lines 219-225, with the results and the node freed first.
    method DropStopped()
      requires Valid()
      modifies this`resultFrees, this`nodeFrees, wrapper`iodns
      ensures Valid() && View() == Discard(old(View()))
    {
      if wrapper.iodns != null && !node.running {
        resultFrees := resultFrees + 1;
        FreeNode();
        wrapper.iodns := null;
      }
    }

    // Lines 290-296.
    method LastAnswer()
      requires Valid() && !fault
      modifies this, node, descriptor
      ensures Valid() && View() == Conclude(old(View()))
    {
      if wrapper.iodns != null {
        node.processing := false;
        node.running := false;
        Deliver(wrapper.querySuccessful > 0);
      }
      wrapperFrees := wrapperFrees + 1;
    }

    // Each address is put in front of the result list.
    method AddResults(addresses: seq<nat>)
      modifies node`result
      ensures node.result == Reverse(addresses) + old(node.result)
    {
      var i := 0;
      while i < |addresses|
        invariant i <= |addresses| && node.result == Reverse(addresses[..i]) + old(node.result)
      {
        node.result := [addresses[i]] + node.result;
        assert Reverse(addresses[..i + 1]) == [addresses[i]] + Reverse(addresses[..i]);
        i := i + 1;
      }
      assert addresses[..i] == addresses;
    }
  }
}
