/** The choice of an address family and of a random entry of it in iosocket_lookup_apply. */
module Addresses {

  /** A lookup result; IODNS_RECORD_A or IODNS_RECORD_AAAA. */
  datatype Record = A(addr: nat) | AAAA(addr: nat)

  /** The family a record belongs to, as what `result->type & usetype` tests. */
  predicate Is(r: Record, v6: bool) {
    r.AAAA? == v6
  }

  function Count(l: seq<Record>, v6: bool): nat {
    if l == [] then 0 else (if Is(l[0], v6) then 1 else 0) + Count(l[1..], v6)
  }

  /** The position of entry number `k` of a family. */
  function PickIndex(l: seq<Record>, v6: bool, k: nat): (i: nat)
    requires k < Count(l, v6)
    ensures i < |l| && Is(l[i], v6)
  {
    if Is(l[0], v6) then (if k == 0 then 0 else 1 + PickIndex(l[1..], v6, k - 1))
    else 1 + PickIndex(l[1..], v6, k)
  }

  lemma {:induction false} CountPrefix(l: seq<Record>, v6: bool, i: nat)
    requires i < |l|
    ensures Count(l[..i + 1], v6) == Count(l[..i], v6) + (if Is(l[i], v6) then 1 else 0)
  {
    if i == 0 {
      assert l[..1][1..] == [] && l[..0] == [];
    } else {
      CountPrefix(l[1..], v6, i - 1);
      assert l[..i + 1][1..] == l[1..][..i] && l[..i][1..] == l[1..][..i - 1];
    }
  }

  /** The pick and the rank within the family are inverse: the numbers below the count map
      one-to-one onto the entries of the family, so a uniform number gives a uniform entry. */
  lemma {:induction false} PickRank(l: seq<Record>, v6: bool, k: nat)
    requires k < Count(l, v6)
    ensures Count(l[..PickIndex(l, v6, k)], v6) == k
  {
    var i := PickIndex(l, v6, k);
    if i == 0 {
      assert l[..0] == [];
    } else {
      PickRank(l[1..], v6, if Is(l[0], v6) then k - 1 else k);
      assert l[..i][1..] == l[1..][..i - 1];
    }
  }

  lemma {:induction false} RankPick(l: seq<Record>, v6: bool, i: nat)
    requires i < |l| && Is(l[i], v6)
    ensures Count(l[..i], v6) < Count(l, v6) && PickIndex(l, v6, Count(l[..i], v6)) == i
  {
    if i == 0 {
      assert l[..0] == [];
    } else {
      RankPick(l[1..], v6, i - 1);
      assert l[..i][1..] == l[1..][..i - 1];
    }
  }

  // The counting loops of lines 312-327.
  method CountRecords(l: seq<Record>) returns (numip4: nat, numip6: nat)
    ensures numip4 == Count(l, false) && numip6 == Count(l, true)
  {
    numip4, numip6 := 0, 0;
    for i := 0 to |l|
      invariant numip4 == Count(l[..i], false) && numip6 == Count(l[..i], true)
    {
      CountPrefix(l, false, i);
      CountPrefix(l, true, i);
      if l[i].A? {
        numip4 := numip4 + 1;
      } else {
        numip6 := numip6 + 1;
      }
    }
    assert l[..|l|] == l;
  }

  /** The picking loops of lines 383-413, for the number `rand() % count`. */
  method PickRecord(l: seq<Record>, v6: bool, usenum: nat) returns (r: Record)
    requires usenum < Count(l, v6)
    ensures r == l[PickIndex(l, v6, usenum)]
  {
    var i: nat, left: nat := 0, usenum;
    while true
      invariant i <= |l| && left < Count(l[i..], v6)
      invariant PickIndex(l, v6, usenum) == i + PickIndex(l[i..], v6, left)
      decreases |l| - i
    {
      assert l[i..][0] == l[i] && l[i..][1..] == l[i + 1..];
      if Is(l[i], v6) {
        if left == 0 {
          return l[i];
        }
        left := left - 1;
      }
      i := i + 1;
    }
  }
}
