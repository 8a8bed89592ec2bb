/** The simple cursor that every iterator of the database refines: a position in a sorted sequence.
    There is one invalid position, one past the end, whether the cursor fell off the end or the front. */
module Cursors {
  import opened InternalKeys

  datatype Move<K> = SeekToFirst | SeekToLast | Seek(target: K) | Next | Prev

  // Next and Prev may only be called on a valid cursor.
  predicate Allowed<K>(n: nat, at: nat, m: Move<K>) { m.Next? || m.Prev? ==> at < n }

  /** `at` is where a seek lands in a sequence whose first `before` elements precede the target. */
  function Moved<K>(n: nat, at: nat, m: Move<K>, before: nat): nat
    requires Allowed(n, at, m)
  {
    match m
    case SeekToFirst => 0
    case SeekToLast => if n == 0 then 0 else n - 1
    case Seek(_) => before
    case Next => at + 1
    case Prev => if at == 0 then n else at - 1
  }

  /** The first position whose key is at or after the target. */
  ghost predicate IsSeek(es: seq<Entry>, target: InternalKey, at: nat) {
    && at <= |es|
    && (forall i :: 0 <= i < at ==> Before(es[i].key, target))
    && (forall i :: at <= i < |es| ==> AtOrAfter(es[i].key, target))
  }

  lemma SeekExists(es: seq<Entry>, target: InternalKey) returns (at: nat)
    requires Sorted(es)
    ensures IsSeek(es, target, at)
  {
    at := 0;
    while at < |es| && Before(es[at].key, target)
      invariant at <= |es| && forall i :: 0 <= i < at ==> Before(es[i].key, target)
    {
      at := at + 1;
    }
    forall i | at <= i < |es| ensures AtOrAfter(es[i].key, target) {
      assert at < i ==> Before(es[at].key, es[i].key);
    }
  }

  lemma SeekIsUnique(es: seq<Entry>, target: InternalKey, i: nat, j: nat)
    requires IsSeek(es, target, i) && IsSeek(es, target, j)
    ensures i == j
  {
    var k := if i < j then i else j;
    if k < |es| {
      assert k < i <==> Before(es[k].key, target);
      assert k < j <==> Before(es[k].key, target);
    }
  }

  class Cursor {
    const entries: seq<Entry>
    var at: nat

    ghost predicate Ok()
      reads this
    {
      Sorted(entries) && at <= |entries|
    }

    constructor (entries: seq<Entry>)
      requires Sorted(entries)
      ensures Ok() && this.entries == entries && at == |entries|
    {
      this.entries, at := entries, |entries|;
    }

    predicate Valid()
      reads this
    {
      at < |entries|
    }

    function Key(): InternalKey
      reads this
      requires Valid()
    {
      entries[at].key
    }

    function Item(): Bytes
      reads this
      requires Valid()
    {
      entries[at].value
    }

    method SeekToFirst()
      requires Ok()
      modifies this
      ensures Ok() && at == 0
    {
      at := 0;
    }

    method SeekToLast()
      requires Ok()
      modifies this
      ensures Ok() && at == if entries == [] then 0 else |entries| - 1
    {
      at := if |entries| == 0 then 0 else |entries| - 1;
    }

    method Seek(target: InternalKey)
      requires Ok()
      modifies this
      ensures Ok() && IsSeek(entries, target, at)
    {
      var i := 0;
      while i < |entries| && Before(entries[i].key, target)
        invariant i <= |entries| && forall j :: 0 <= j < i ==> Before(entries[j].key, target)
      {
        i := i + 1;
      }
      at := i;
      ghost var there := SeekExists(entries, target);
    }

    method Next()
      requires Ok() && Valid()
      modifies this
      ensures Ok() && at == old(at) + 1
    {
      at := at + 1;
    }

    method Prev()
      requires Ok() && Valid()
      modifies this
      ensures Ok() && at == if old(at) == 0 then |entries| else old(at) - 1
    {
      at := if at == 0 then |entries| else at - 1;
    }
  }
}
