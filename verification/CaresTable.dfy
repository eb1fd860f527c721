/** dnsengine_cares_update_sockets: the table of sockets kept equal to those c-ares wants. */
module CaresTable {

  // ARES_GETSOCK_MAXNUM
  const MAXNUM: nat := 16

  /** What ares_getsock reports for one socket. */
  datatype Request = Request(fd: int, readable: bool, writable: bool)

  /** struct _IOSocket as this engine uses it. `registered` is the interest the I/O engine holds
      for it as (read, write); it is there exactly while the socket is active. */
  class IoSocket {
    var fd: int
    var overrideRead: bool
    var overrideWrite: bool
    var active: bool
    var registered: (bool, bool)

    constructor (fd: int)
      ensures this.fd == fd && !overrideRead && !overrideWrite && !active
    {
      this.fd := fd;
      overrideRead, overrideWrite, active, registered := false, false, false, (false, false);
    }
  }

  /** struct dnsengine_cares_socket */
  datatype Slot = Slot(iosock: IoSocket?, wantRead: bool, wantWrite: bool)

  function Fds(wanted: seq<Request>): set<int> {
    set i | 0 <= i < |wanted| :: wanted[i].fd
  }

  ghost predicate Proper(wanted: seq<Request>) {
    && |wanted| <= MAXNUM
    && (forall i :: 0 <= i < |wanted| ==> wanted[i].fd != 0)
    && forall i, j :: 0 <= i < j < |wanted| ==> wanted[i].fd != wanted[j].fd
  }

  // The array ares_socks, which is zero behind the wanted sockets.
  function Sock(wanted: seq<Request>, j: nat): int {
    if j < |wanted| then wanted[j].fd else 0
  }

  lemma {:induction false} FdsSize(wanted: seq<Request>)
    ensures |Fds(wanted)| <= |wanted|
  {
    if wanted != [] {
      var n := |wanted| - 1;
      FdsSize(wanted[..n]);
      assert Fds(wanted) == Fds(wanted[..n]) + {wanted[n].fd};
    }
  }

  /** Pigeonhole: distinct members of `s` are no more than `s` has. */
  lemma {:induction false} Pigeonhole(fds: seq<int>, s: set<int>)
    requires forall i :: 0 <= i < |fds| ==> fds[i] in s
    requires forall i, j :: 0 <= i < j < |fds| ==> fds[i] != fds[j]
    ensures |fds| <= |s|
  {
    if fds != [] {
      Pigeonhole(fds[1..], s - {fds[0]});
    }
  }

  class Table {
    const slots: array<Slot>

    ghost function Sockets(): set<IoSocket>
      reads slots
    {
      set k | 0 <= k < slots.Length && slots[k].iosock != null :: slots[k].iosock
    }

    // An entry is registered for what its flags ask for.
    ghost predicate EntryOk(k: nat)
      requires k < slots.Length
      reads slots, slots[k].iosock
    {
      var s := slots[k].iosock;
      s != null ==>
        && s.fd != 0 && s.active
        && s.overrideRead == slots[k].wantRead && s.overrideWrite == slots[k].wantWrite
        && s.registered == (s.overrideRead, s.overrideWrite)
    }

    ghost predicate Valid()
      reads slots, Sockets()
    {
      && slots.Length == MAXNUM
      && (forall k :: 0 <= k < MAXNUM ==> EntryOk(k))
      && forall j, k :: 0 <= j < k < MAXNUM && slots[j].iosock != null && slots[k].iosock != null ==>
          slots[j].iosock.fd != slots[k].iosock.fd
    }

    /** dnsengine_cares_init */
    constructor ()
      ensures Valid() && fresh(slots) && Sockets() == {}
    {
      slots := new Slot[MAXNUM](_ => Slot(null, false, false));
    }

    // Searches the wanted array for `fd`.
    method FindWanted(fd: int, wanted: seq<Request>) returns (found: bool)
      requires Proper(wanted) && fd != 0
      ensures found <==> fd in Fds(wanted)
    {
      var j := 0;
      while j < MAXNUM
        invariant j <= MAXNUM && forall i :: 0 <= i < j && i < |wanted| ==> wanted[i].fd != fd
      {
        if fd == Sock(wanted, j) {
          return true;
        }
        j := j + 1;
      }
      found := false;
    }

    // Searches the table for `fd`; MAXNUM stands for -1.
    method FindSlot(fd: int) returns (j: nat)
      requires slots.Length == MAXNUM
      ensures j <= MAXNUM
      ensures j < MAXNUM ==> slots[j].iosock != null && slots[j].iosock.fd == fd
      ensures j == MAXNUM ==> forall k :: 0 <= k < MAXNUM && slots[k].iosock != null ==> slots[k].iosock.fd != fd
    {
      j := 0;
      while j < MAXNUM
        invariant j <= MAXNUM
        invariant forall k :: 0 <= k < j && slots[k].iosock != null ==> slots[k].iosock.fd != fd
      {
        if slots[j].iosock != null && slots[j].iosock.fd == fd {
          return;
        }
        j := j + 1;
      }
    }

    method FindFree() returns (j: nat)
      requires slots.Length == MAXNUM
      ensures j <= MAXNUM
      ensures j < MAXNUM ==> slots[j].iosock == null
      ensures j == MAXNUM ==> forall k :: 0 <= k < MAXNUM ==> slots[k].iosock != null
    {
      j := 0;
      while j < MAXNUM
        invariant j <= MAXNUM && forall k :: 0 <= k < j ==> slots[k].iosock != null
      {
        if slots[j].iosock == null {
          return;
        }
        j := j + 1;
      }
    }

    /** The first loop: sockets no longer wanted are unregistered, the others are left alone. */
    method Unregister(wanted: seq<Request>)
      requires Valid() && Proper(wanted)
      modifies slots, Sockets()
      ensures Valid()
      ensures forall k :: 0 <= k < MAXNUM ==>
        var s := old(slots[k].iosock);
        if s == null then slots[k].iosock == null
        else if old(slots[k].iosock.fd) in Fds(wanted) then slots[k] == old(slots[k])
        else slots[k].iosock == null && !s.active
      ensures forall s :: s in old(Sockets()) ==> s.fd == old(s.fd)
    {
      var i := 0;
      while i < MAXNUM
        invariant i <= MAXNUM && Valid()
        invariant forall k :: i <= k < MAXNUM ==> slots[k] == old(slots[k])
        invariant forall k :: 0 <= k < i ==>
          var s := old(slots[k].iosock);
          if s == null then slots[k].iosock == null
          else if old(slots[k].iosock.fd) in Fds(wanted) then slots[k] == old(slots[k])
          else slots[k].iosock == null && !s.active
        invariant forall s :: s in old(Sockets()) ==> s.fd == old(s.fd)
      {
        var s := slots[i].iosock;
        if s != null {
          assert s in old(Sockets()) && EntryOk(i);
          assert forall k :: 0 <= k < MAXNUM && slots[k].iosock == s ==> k == i;
          var found := FindWanted(s.fd, wanted);
          if !found {
            label L:
            s.active := false;
            slots[i] := slots[i].(iosock := null);
            forall k | 0 <= k < MAXNUM && k != i
              ensures EntryOk(k)
            {
              assert old@L(EntryOk(k)) && slots[k].iosock != s;
            }
          }
        }
        i := i + 1;
      }
    }

    // Whether `fd` is wanted for what the entry at `k` says.
    ghost predicate Serves(k: nat, r: Request)
      requires k < slots.Length
      reads slots, slots[k].iosock
    {
      var s := slots[k].iosock;
      s != null && s.fd == r.fd && s.overrideRead == r.readable && s.overrideWrite == r.writable
    }

    // Lines 141-167 for the entry at `k`. Its want flags are one-bit fields holding 0 or -1 and
    // the requested ones are single bits of a mask, so their exclusive or is zero only if both are.
    method Apply(k: nat, r: Request, isNew: bool)
      requires slots.Length == MAXNUM && k < MAXNUM && slots[k].iosock != null
      requires slots[k].iosock.fd == r.fd != 0
      requires if isNew then !slots[k].iosock.active && !slots[k].wantRead && !slots[k].wantWrite
        && !slots[k].iosock.overrideRead && !slots[k].iosock.overrideWrite else EntryOk(k)
      modifies slots, slots[k].iosock
      ensures slots[k].iosock == old(slots[k].iosock) && slots[k].iosock.fd == r.fd
      ensures EntryOk(k) && Serves(k, r)
      ensures forall j :: 0 <= j < MAXNUM && j != k ==> slots[j] == old(slots[j])
    {
      var s := slots[k].iosock;
      var update := false;
      if slots[k].wantRead || r.readable {
        s.overrideRead := r.readable;
        slots[k] := slots[k].(wantRead := r.readable);
        update := true;
      }
      if slots[k].wantWrite || r.writable {
        s.overrideWrite := r.writable;
        slots[k] := slots[k].(wantWrite := r.writable);
        update := true;
      }
      if update || isNew {
        if isNew {
          s.active := true;
        }
        s.registered := (s.overrideRead, s.overrideWrite);
      }
    }

    // The table holds only wanted sockets.
    ghost predicate Within(wanted: seq<Request>)
      requires slots.Length == MAXNUM
      reads slots, Sockets()
    {
      forall k :: 0 <= k < MAXNUM && slots[k].iosock != null ==> slots[k].iosock.fd in Fds(wanted)
    }

    /** There is always a free entry for a wanted socket that has none. */
    lemma RoomLeft(wanted: seq<Request>, r: Request)
      requires Valid() && Within(wanted) && Proper(wanted) && r in wanted
      requires forall k :: 0 <= k < MAXNUM && slots[k].iosock != null ==> slots[k].iosock.fd != r.fd
      ensures exists k :: 0 <= k < MAXNUM && slots[k].iosock == null
    {
      if forall k :: 0 <= k < MAXNUM ==> slots[k].iosock != null {
        var fds := seq(MAXNUM, k requires 0 <= k < MAXNUM reads slots, Sockets() =>
          if slots[k].iosock != null then slots[k].iosock.fd else 0);
        assert r.fd in Fds(wanted);
        Pigeonhole(fds, Fds(wanted) - {r.fd});
        FdsSize(wanted);
      }
    }

    // Finds or makes the entry of a wanted socket.
    method Locate(r: Request, ghost wanted: seq<Request>) returns (k: nat, isNew: bool)
      requires Valid() && Within(wanted) && Proper(wanted) && r in wanted
      modifies slots
      ensures k < MAXNUM && slots[k].iosock != null && slots[k].iosock.fd == r.fd
      ensures isNew <==> old(slots[k].iosock) == null
      ensures if isNew then fresh(slots[k].iosock) && slots[k] == Slot(slots[k].iosock, false, false)
        && !slots[k].iosock.active && !slots[k].iosock.overrideRead && !slots[k].iosock.overrideWrite
        else slots[k] == old(slots[k]) && EntryOk(k)
      ensures forall j :: 0 <= j < MAXNUM && j != k ==>
        slots[j] == old(slots[j]) && EntryOk(j) && slots[j].iosock != slots[k].iosock
        && (slots[j].iosock != null ==> slots[j].iosock.fd != r.fd)
    {
      k := FindSlot(r.fd);
      isNew := k == MAXNUM;
      if isNew {
        RoomLeft(wanted, r);
        k := FindFree();
        // The source reports an error when it finds none; it always finds one.
        assert k < MAXNUM;
        var iosock := new IoSocket(r.fd);
        slots[k] := Slot(iosock, false, false);
      }
      forall j | 0 <= j < MAXNUM && j != k
        ensures EntryOk(j) && slots[j].iosock != slots[k].iosock
      {
        assert old(EntryOk(j)) && slots[j] == old(slots[j]);
        assert !isNew ==> slots[j].iosock == null || slots[j].iosock.fd != slots[k].iosock.fd;
      }
    }

    /** One turn of the second loop: the entry of a wanted socket is found or made, and its flags
        are set. */
    method Register(r: Request, ghost wanted: seq<Request>) returns (k: nat)
      requires Valid() && Within(wanted) && Proper(wanted) && r in wanted
      modifies slots, Sockets()
      ensures Valid() && Within(wanted) && k < MAXNUM && Serves(k, r)
      ensures if old(slots[k].iosock) == null then fresh(slots[k].iosock)
        else slots[k].iosock == old(slots[k].iosock) && old(slots[k].iosock.fd) == r.fd
      ensures forall j :: 0 <= j < MAXNUM && j != k ==> slots[j] == old(slots[j])
      ensures forall s :: s in old(Sockets()) && s != slots[k].iosock ==> unchanged(s)
      ensures forall j, q :: 0 <= j < MAXNUM && j != k && old(Serves(j, q)) ==> Serves(j, q)
    {
      assert forall i :: 0 <= i < |wanted| ==> wanted[i].fd in Fds(wanted);
      var isNew;
      k, isNew := Locate(r, wanted);
      Apply(k, r, isNew);
    }

    /** The second loop. */
    method RegisterAll(wanted: seq<Request>) returns (ghost place: seq<nat>)
      requires Valid() && Within(wanted) && Proper(wanted)
      modifies slots, Sockets()
      ensures Valid() && Within(wanted)
      ensures |place| == |wanted| && forall i :: 0 <= i < |wanted| ==> place[i] < MAXNUM && Serves(place[i], wanted[i])
      ensures forall k :: 0 <= k < MAXNUM ==>
        if old(slots[k].iosock) == null then slots[k].iosock == null || fresh(slots[k].iosock)
        else slots[k].iosock == old(slots[k].iosock)
    {
      hide Table.EntryOk, Within, Fds;
      place := [];
      var i := 0;
      while i < MAXNUM && Sock(wanted, i) != 0
        invariant i == |place| <= |wanted|
        invariant Valid() && Within(wanted)
        invariant forall j :: 0 <= j < i ==> place[j] < MAXNUM && Serves(place[j], wanted[j])
        invariant forall k :: 0 <= k < MAXNUM ==>
          if old(slots[k].iosock) == null then slots[k].iosock == null || fresh(slots[k].iosock)
          else slots[k].iosock == old(slots[k].iosock)
      {
        label L:
        assert forall s :: s in Sockets() ==> s in old(Sockets()) || fresh(s);
        var k := Register(wanted[i], wanted);
        forall j | 0 <= j < i
          ensures Serves(place[j], wanted[j])
        {
          assert old@L(Serves(place[j], wanted[j])) && wanted[j].fd != wanted[i].fd;
        }
        place := place + [k];
        i := i + 1;
      }
    }

    /** dnsengine_cares_update_sockets: afterwards the table is exactly the wanted set. Wanted
        socket number i has entry `place[i]`, with flags and registration as requested; entries
        that were wanted keep their socket object, the others are unregistered. */
    method Update(wanted: seq<Request>) returns (ghost place: seq<nat>)
      requires Valid() && Proper(wanted)
      modifies slots, Sockets()
      ensures Valid() && Within(wanted)
      ensures |place| == |wanted| && forall i :: 0 <= i < |wanted| ==> place[i] < MAXNUM && Serves(place[i], wanted[i])
      ensures forall k :: 0 <= k < MAXNUM && old(slots[k].iosock) != null ==>
        if old(slots[k].iosock.fd) in Fds(wanted) then slots[k].iosock == old(slots[k].iosock)
        else !old(slots[k].iosock).active && slots[k].iosock != old(slots[k].iosock)
    {
      Unregister(wanted);
      place := RegisterAll(wanted);
    }
  }
}
