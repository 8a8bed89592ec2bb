/** The list of live snapshots (db/snapshot.h): a ring of nodes with a head that is not a snapshot itself. */
module Snapshots {
  import opened InternalKeys

  class Snapshot {
    const number: Sequence
    var prev: Snapshot
    var next: Snapshot

    constructor (number: Sequence)
      ensures this.number == number && prev == this && next == this
    {
      this.number := number;
      prev, next := this, this;
    }
  }

  ghost predicate Linked(a: Snapshot, b: Snapshot)
    reads a, b
  {
    a.next == b && b.prev == a
  }

  class SnapshotList {
    const head: Snapshot
    ghost var nodes: seq<Snapshot>    // oldest first

    ghost function Ring(): seq<Snapshot>
      reads this
    {
      [head] + nodes + [head]
    }

    ghost predicate Valid()
      reads this, head, nodes
    {
      && (forall i, j :: 0 <= i < j < |nodes| + 1 ==> Ring()[i] != Ring()[j])
      && (forall i :: 0 <= i < |nodes| + 1 ==> Linked(Ring()[i], Ring()[i + 1]))
    }

    /** The sequence numbers of the live snapshots. */
    ghost function Numbers(): (r: seq<Sequence>)
      reads this
      ensures |r| == |nodes|
    {
      seq(|nodes|, i requires 0 <= i < |nodes| reads this => nodes[i].number)
    }

    constructor ()
      ensures Valid() && nodes == [] && fresh(head)
    {
      head := new Snapshot(0);
      nodes := [];
    }

    method IsEmpty() returns (empty: bool)
      requires Valid()
      ensures empty <==> nodes == []
    {
      assert Linked(Ring()[0], Ring()[1]);
      assert nodes != [] ==> Ring()[1] == nodes[0] != Ring()[0];
      empty := head.next == head;
    }

    method Oldest() returns (s: Snapshot)
      requires Valid() && nodes != []
      ensures s == nodes[0]
    {
      assert Linked(Ring()[0], Ring()[1]);
      s := head.next;
    }

    method Newest() returns (s: Snapshot)
      requires Valid() && nodes != []
      ensures s == nodes[|nodes| - 1]
    {
      assert Linked(Ring()[|nodes|], Ring()[|nodes| + 1]);
      s := head.prev;
    }

    method New(number: Sequence) returns (s: Snapshot)
      requires Valid()
      modifies this, head, nodes
      ensures Valid() && fresh(s) && nodes == old(nodes) + [s] && Numbers() == old(Numbers()) + [number]
    {
      ghost var n, ring := |nodes|, Ring();
      assert Linked(ring[n], ring[n + 1]);
      s := new Snapshot(number);
      s.next := head;
      s.prev := head.prev;
      s.prev.next := s;
      s.next.prev := s;
      nodes := nodes + [s];
      forall i | 0 <= i < n + 2 ensures Linked(Ring()[i], Ring()[i + 1]) {
        if i < n { assert Ring()[i] == ring[i] && Ring()[i + 1] == ring[i + 1] && old(Linked(ring[i], ring[i + 1])); }
      }
      forall i, j | 0 <= i < j < n + 2 ensures Ring()[i] != Ring()[j] {
        assert Ring()[i] == ring[i];
        if j < n + 1 { assert Ring()[j] == ring[j]; }
      }
    }

    method Delete(s: Snapshot, ghost i: nat)
      requires Valid() && i < |nodes| && nodes[i] == s
      modifies this, head, nodes
      ensures Valid() && nodes == old(nodes[..i] + nodes[i + 1..])
      ensures Numbers() == old(Numbers()[..i] + Numbers()[i + 1..])
    {
      ghost var n, ring := |nodes|, Ring();
      assert ring[i + 1] == s && Linked(ring[i], ring[i + 1]) && Linked(ring[i + 1], ring[i + 2]);
      s.prev.next := s.next;
      s.next.prev := s.prev;
      nodes := nodes[..i] + nodes[i + 1..];
      assert forall j :: 0 <= j < n + 1 ==> Ring()[j] == ring[if j <= i then j else j + 1];
      forall j | 0 <= j < n ensures Linked(Ring()[j], Ring()[j + 1]) {
        if j < i {
          assert old(Linked(ring[j], ring[j + 1]));
        } else if j > i {
          assert old(Linked(ring[j + 1], ring[j + 2]));
        }
      }
    }
  }
}
