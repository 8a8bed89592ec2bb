/** How the decoder checks that no required field is missing (pb_decode.c). */
module PbRequired {
  const MAX_REQUIRED_FIELDS: nat := 64

  type Word = w: seq<bool> | |w| == 32 witness seq(32, _ => false)

  /** What the language leaves open: a word read behind `fields_seen`, and a shift by all 32 bits. */
  datatype Platform = Platform(behind: Word, shifted: Word)

  /** `fields_seen[w]`, after the required fields numbered by `seen` have come by. */
  function SeenWord(seen: set<nat>, w: nat, p: Platform): Word {
    if w < 2 then seq(32, b requires 0 <= b < 32 => 32 * w + b in seen) else p.behind
  }

  /** `allbits >> (32 - k)`. */
  function LowBits(k: nat, p: Platform): Word {
    if k == 0 then p.shifted else seq(32, b => b < k)
  }

  function AllBits(): Word { seq(32, _ => true) }

  predicate CheckRequired(count: nat, seen: set<nat>, p: Platform) {
    count == 0 || ((forall w :: 0 <= w < count / 32 ==> SeenWord(seen, w, p) == AllBits())
        && SeenWord(seen, count / 32, p) == LowBits(count % 32, p))
  }

  /** Only the first 64 required fields are recorded. */
  function Recorded(seen: set<nat>): set<nat> { set i | i in seen && i < MAX_REQUIRED_FIELDS }

  function All(count: nat): (all: set<nat>)
    ensures forall i :: i in all <==> 0 <= i < count
  {
    if count == 0 then {} else All(count - 1) + {count - 1}
  }

  ghost predicate ChecksRightly(count: nat) {
    forall p, seen {:trigger CheckRequired(count, Recorded(seen), p)} :: seen <= All(count)
        ==> (CheckRequired(count, Recorded(seen), p) <==> seen == All(count))
  }

  predicate CountIsGood(count: nat) { count < MAX_REQUIRED_FIELDS && (count == 0 || count % 32 != 0) }

  predicate BitSeen(seen: set<nat>, w: nat, b: nat) { 32 * w + b in seen }

  ghost predicate BitsSeen(seen: set<nat>, w: nat, k: nat) { forall b :: 0 <= b < k ==> BitSeen(seen, w, b) }

  lemma WordIsFull(seen: set<nat>, w: nat, p: Platform)
    requires w < 2
    ensures SeenWord(seen, w, p) == AllBits() <==> BitsSeen(seen, w, 32)
  {
    var word := SeenWord(seen, w, p);
    assert forall b :: 0 <= b < 32 ==> (word[b] <==> BitSeen(seen, w, b));
    if word == AllBits() { assert forall b :: 0 <= b < 32 ==> word[b] == AllBits()[b]; }
  }

  lemma WordIsLow(seen: set<nat>, w: nat, k: nat, p: Platform)
    requires w < 2 && 0 < k < 32 && forall i :: i in seen ==> i < 32 * w + k
    ensures SeenWord(seen, w, p) == LowBits(k, p) <==> BitsSeen(seen, w, k)
  {
    var word, low := SeenWord(seen, w, p), LowBits(k, p);
    assert forall b :: 0 <= b < 32 ==> (word[b] <==> BitSeen(seen, w, b));
    assert forall b :: 0 <= b < 32 ==> (low[b] <==> b < k);
    if word == low { assert forall b :: 0 <= b < 32 ==> word[b] == low[b]; }
  }

  lemma AllAreSeen(count: nat, seen: set<nat>)
    requires seen <= All(count) && count < 64
    ensures seen == All(count) <==>
            BitsSeen(seen, 0, if count < 32 then count else 32) && (count >= 32 ==> BitsSeen(seen, 1, count - 32))
  {
    forall i | i in All(count)
        ensures i in seen <==> if i < 32 then BitSeen(seen, 0, i) else BitSeen(seen, 1, i - 32) { }
    if seen == All(count) {
      forall b | 0 <= b < count && b < 32 ensures BitSeen(seen, 0, b) { assert b in All(count); }
      forall b | 0 <= b < count - 32 ensures BitSeen(seen, 1, b) { assert b + 32 in All(count); }
    } else {
      var i :| i in All(count) && i !in seen;
      assert if i < 32 then !BitSeen(seen, 0, i) else !BitSeen(seen, 1, i - 32);
    }
  }

  lemma GoodCountChecks(count: nat, seen: set<nat>, p: Platform)
    requires CountIsGood(count) && seen <= All(count)
    ensures CheckRequired(count, Recorded(seen), p) <==> seen == All(count)
  {
    hide BitsSeen;
    hide SeenWord;
    hide LowBits;
    assert Recorded(seen) == seen;
    AllAreSeen(count, seen);
    if count == 0 {
      assert seen == All(0);
    } else if count < 32 {
      WordIsLow(seen, 0, count, p);
    } else {
      WordIsFull(seen, 0, p);
      WordIsLow(seen, 1, count - 32, p);
    }
  }

  /** With a bad number of required fields some platform refuses a complete message. */
  lemma BadCountRefuses(count: nat) returns (p: Platform)
    requires !CountIsGood(count)
    ensures !CheckRequired(count, Recorded(All(count)), p)
  {
    var none: Word := seq(32, _ => false);
    assert none[0] != AllBits()[0];
    if count == 32 {
      p := Platform(none, AllBits());
      assert SeenWord(Recorded(All(32)), 1, p)[0] != AllBits()[0];
    } else if count % 32 == 0 {
      p := Platform(none, AllBits());
    } else {
      p := Platform(none, none);
      assert LowBits(count % 32, p)[0] != none[0];
    }
  }

  /** The check is right on every platform exactly for fewer than 64 required fields that are not 32. */
  lemma RequiredCheckIff(count: nat)
    ensures ChecksRightly(count) <==> CountIsGood(count)
  {
    if CountIsGood(count) {
      forall p, seen {:trigger CheckRequired(count, Recorded(seen), p)} | seen <= All(count)
        ensures CheckRequired(count, Recorded(seen), p) <==> seen == All(count)
      {
        GoodCountChecks(count, seen, p);
      }
    } else {
      var p := BadCountRefuses(count);
      assert !CheckRequired(count, Recorded(All(count)), p);
    }
  }
}
