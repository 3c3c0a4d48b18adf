/** Shared vocabulary: optional values, bytes, pages and duplicate-free sequences. */
module Prelude {
  datatype Option<+T> = None | Some(value: T)

  newtype byte = x: int | 0 <= x < 256

  const PAGE_SIZE: nat := 4096
  /** One past the last user address, and the page number it starts. */
  const USERSPACETOP: nat := 0x8000_0000
  const KERNEL_VPN: nat := 0x8_0000

  type Page = seq<byte>

  function ZeroPage(): Page { seq(PAGE_SIZE, _ => 0) }

  predicate NoDup<T(==)>(s: seq<T>) {
    forall i, j :: 0 <= i < j < |s| ==> s[i] != s[j]
  }

  /** Dropping the k-th element of a duplicate-free sequence removes that value and no other. */
  lemma RemovedOnce<T>(l: seq<T>, k: nat)
    requires NoDup(l) && k < |l|
    ensures NoDup(l[..k] + l[k + 1..])
    ensures forall x :: x in l[..k] + l[k + 1..] <==> x in l && x != l[k]
  {
    var r := l[..k] + l[k + 1..];
    assert forall i :: 0 <= i < |r| ==> r[i] == l[if i < k then i else i + 1];
    forall x | x in l && x != l[k] ensures x in r {
      var i :| 0 <= i < |l| && l[i] == x;
      assert r[if i < k then i else i - 1] == x;
    }
  }

  /** What threadlist_addtail and threadlist_remhead do to a duplicate-free queue. */
  lemma Queued<T>(q: seq<T>, t: T)
    requires NoDup(q) && t !in q
    ensures NoDup(q + [t]) && q + [t] != [] && forall x :: x in q + [t] <==> x in q || x == t
  {
  }

  lemma Dequeued<T>(q: seq<T>)
    requires NoDup(q) && q != []
    ensures NoDup(q[1..]) && forall x :: x in q[1..] <==> x in q && x != q[0]
  {
    assert q == [q[0]] + q[1..];
  }

  lemma {:induction false} SubsetSize<T>(s: set<T>, t: set<T>)
    requires s <= t
    ensures |s| <= |t|
  {
    assert t == s + (t - s);
  }
}
