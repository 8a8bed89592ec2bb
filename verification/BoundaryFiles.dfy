/** When moving a file is safe: a move that leaves a boundary file behind makes point lookups wrong. */
module BoundaryFiles {
  import opened InternalKeys
  import opened Files
  import opened PointLookup
  import opened InputSelection
  import opened VersionBuilder
  import opened CompactionWork
  import opened TreeSteps
  import opened LsmMachine

  // ---------- a trivial move, exactly ----------

  lemma NewerIsDisjoint(v: Version)
    requires LevelsNewer(v)
    ensures LevelsDisjoint(v)
  {
    forall l, m, e | 0 <= l < m < NUM_LEVELS && e in EntriesOf(v[l]) ensures e !in EntriesOf(v[m]) {
      if e in EntriesOf(v[m]) { LevelPair(v, l, m, e, e); }
    }
  }

  lemma MoveLevels(v: Version, next: nat, c: Inputs, l: nat, e: Entry)
    requires NumbersOk(v, next) && GoodInputs(v, c) && |c.in0| == 1 && c.in1 == [] && l < NUM_LEVELS
    ensures e in EntriesOf(Replace(v, c, c.in0)[l]) <==>
              if l == c.level then exists g :: g in v[l] && g !in c.in0 && e in g.entries
              else e in EntriesOf(v[l]) || (l == c.level + 1 && e in EntriesOf(c.in0))
  {
    hide SaveLevel;
    hide LevelSorted;
    hide Table.Valid;
    var v' := Replace(v, c, c.in0);
    MoveOutputsOk(v, next, c);
    if e in EntriesOf(v'[l]) {
      var f :| f in v'[l] && e in f.entries;
      ReplaceContents(v, next, c, c.in0, l, f);
    }
    if e in EntriesOf(v[l]) {
      var f :| f in v[l] && e in f.entries;
      ReplaceContents(v, next, c, c.in0, l, f);
    }
    if l == c.level + 1 && e in EntriesOf(c.in0) {
      var f :| f in c.in0 && e in f.entries;
      ReplaceContents(v, next, c, c.in0, l, f);
    }
    if l == c.level && exists g :: g in v[l] && g !in c.in0 && e in g.entries {
      var g :| g in v[l] && g !in c.in0 && e in g.entries;
      ReplaceContents(v, next, c, c.in0, l, g);
    }
  }

  lemma MovedIsNowhereElse(files: seq<File>, chosen: seq<File>, e: Entry)
    requires LevelSorted(files) && (forall f :: f in chosen ==> f in files) && e in EntriesOf(chosen)
    ensures e in EntriesOf(files) && forall g :: g in files && g !in chosen ==> e !in g.entries
  {
    var f :| f in chosen && e in f.entries;
    forall g | g in files && g !in chosen ensures e !in g.entries {
      if e in g.entries {
        SortedIsApart(files, f, g);
        EntryInRange(f, e);
        EntryInRange(g, e);
      }
    }
  }

  lemma MovedIsDisjoint(v: Version, next: nat, c: Inputs)
    requires TreeOk(v, next) && GoodInputs(v, c) && |c.in0| == 1 && c.in1 == [] && c.level > 0
    ensures LevelsDisjoint(Replace(v, c, c.in0))
  {
    NewerIsDisjoint(v);
    MovedKeepsDisjoint(v, next, c);
  }

  lemma MovedKeepsDisjoint(v: Version, next: nat, c: Inputs)
    requires NumbersOk(v, next) && TreeShape(v) && LevelsDisjoint(v)
    requires GoodInputs(v, c) && |c.in0| == 1 && c.in1 == [] && c.level > 0
    ensures LevelsDisjoint(Replace(v, c, c.in0))
  {
    hide SaveLevel;
    hide NumbersOf;
    hide Before;
    hide AfterFile;
    hide LevelSorted;
    var v' := Replace(v, c, c.in0);
    forall l, m, e | 0 <= l < m < NUM_LEVELS && e in EntriesOf(v'[l]) ensures e !in EntriesOf(v'[m]) {
      MoveLevels(v, next, c, l, e);
      MoveLevels(v, next, c, m, e);
      if e in EntriesOf(c.in0) { MovedIsNowhereElse(v[c.level], c.in0, e); }
    }
  }

  lemma NewerMoveHasNoBoundary(v: Version, next: nat, c: Inputs)
    requires TreeOk(v, next) && Unique(AllEntries(v)) && GoodInputs(v, c) && |c.in0| == 1 && c.in1 == [] && c.level > 0
    requires LevelsNewer(Replace(v, c, c.in0))
    ensures NoBoundaryFile(v[c.level], c.in0)
  {
    var v' := Replace(v, c, c.in0);
    forall g | g in v[c.level] && g !in c.in0 ensures NewerThanAll(g, c.in0) {
      forall f | f in c.in0 ensures AllNewer(Held(g), Held(f)) {
        forall x, y | x in Held(g) && y in Held(f) && x.key.user == y.key.user ensures x.key.sequence > y.key.sequence {
          MoveLevels(v, next, c, c.level, x);
          MoveLevels(v, next, c, c.level + 1, y);
          LevelPair(v', c.level, c.level + 1, x, y);
        }
      }
    }
    LevelIsUnique(v, c.level);
    StaysNewerIff(v[c.level], c.in0);
  }

  /** After a trivial move below level 0, point lookups are exact for all keys and sequences if and only
      if the move left no boundary file behind. */
  lemma MoveIsSafeIff(v: Version, next: nat, c: Inputs)
    requires TreeOk(v, next) && Unique(AllEntries(v)) && GoodInputs(v, c) && |c.in0| == 1 && c.in1 == [] && c.level > 0
    ensures LookupIsExact(Replace(v, c, c.in0)) <==> NoBoundaryFile(v[c.level], c.in0)
  {
    hide TreeShape;
    hide NumbersOk;
    hide AllNewer;
    hide NumbersOf;
    hide Touches;
    var v' := Replace(v, c, c.in0);
    MovedIsDisjoint(v, next, c);
    MoveOutputsOk(v, next, c);
    ReplaceEntries(v, next, c, c.in0);
    EntriesSplit(v, c);
    assert AllEntries(v') == AllEntries(v);
    LookupIsExactIff(v');
    if LevelsNewer(v') {
      NewerMoveHasNoBoundary(v, next, c);
    }
    if NoBoundaryFile(v[c.level], c.in0) {
      PickedFits(v, c);
      ReplaceNewer(v, next, c, c.in0);
    }
  }
}
