/** What a history of writes says about a user key, told without sequence numbers: the last write on the key
    decides. */
module LastWrites {
  import opened Options
  import opened InternalKeys

  /** The value of the last write on `user`, if that is not a deletion. */
  function LastWrite(writes: seq<Entry>, user: UserKey): Option<Bytes> {
    if writes == [] then None
    else
      var n := |writes| - 1;
      if writes[n].key.user != user then LastWrite(writes[..n], user)
      else if writes[n].key.kind == Deletion then None
      else Some(writes[n].value)
  }

  /** Sequence numbers rise along the history. */
  ghost predicate Rising(writes: seq<Entry>) {
    forall i, j :: 0 <= i < j < |writes| ==> writes[i].key.sequence < writes[j].key.sequence
  }

  lemma RisingIsUnique(writes: seq<Entry>)
    requires Rising(writes)
    ensures Unique(SetOf(writes))
  {
  }

  lemma SetOfLast(writes: seq<Entry>)
    requires writes != []
    ensures SetOf(writes) == {writes[|writes| - 1]} + SetOf(writes[..|writes| - 1])
  {
    assert writes == writes[..|writes| - 1] + [writes[|writes| - 1]];
  }

  /** Sequence numbers show what the order of writes says. */
  lemma {:induction false} LastWriteIsVisible(writes: seq<Entry>, user: UserKey, t: Sequence)
    requires Rising(writes) && forall i :: 0 <= i < |writes| ==> writes[i].key.sequence <= t
    ensures Visible(SetOf(writes), user, t) == LastWrite(writes, user)
  {
    hide Newest;
    if writes == [] {
      NewestIsNone(SetOf(writes), user, t);
    } else {
      var n := |writes| - 1;
      LastWriteIsVisible(writes[..n], user, t);
      RisingIsUnique(writes);
      SetOfLast(writes);
      NewestOfLayers({writes[n]}, SetOf(writes[..n]), user, t);
      if writes[n].key.user == user {
        NewestIs({writes[n]}, user, t, writes[n]);
      } else {
        NewestIsNone({writes[n]}, user, t);
      }
    }
  }

  /** What is written later does not change what a reader at an earlier number sees. */
  lemma LaterIsInvisible(before: set<Entry>, after: set<Entry>, user: UserKey, t: Sequence)
    requires Unique(before + after)
    requires (forall e :: e in before ==> e.key.sequence <= t) && forall e :: e in after ==> e.key.sequence > t
    ensures Visible(before + after, user, t) == Visible(before, user, t)
  {
    assert after + before == before + after;
    NewestOfLayers(after, before, user, t);
    NewestIsNone(after, user, t);
  }
}
