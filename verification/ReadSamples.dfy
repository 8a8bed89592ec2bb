/** Version::RecordReadSample: a read that has to look at two files charges the first of them. */
module ReadSamples {
  import opened Options
  import opened InternalKeys
  import opened Files
  import opened PointLookup
  import opened InputSelection

  /** What the search on one sorted level opens. */
  method OpenOne(files: seq<File>, key: InternalKey) returns (chosen: Option<File>)
    requires LevelSorted(files)
    ensures if chosen.Some? then Opens(files, key, chosen.value) else forall f :: !Opens(files, key, f)
  {
    var index := FindFile(files, key);
    if index < |files| {
      var f := files[index];
      forall g | g in files && Before(g.largest, f.largest) ensures Before(g.largest, key) {
        var j :| 0 <= j < |files| && files[j] == g;
        LaterEndsLater(files, index, j);
      }
      if key.user < f.smallest.user {
        forall g ensures !Opens(files, key, g) { NoneOpens(files, key, index, g); }
        return None;
      }
      return Some(f);
    }
    return None;
  }

  /** ForEachOverlapping with State::Match as the callback: stops at the second match. */
  method FirstOfTwo(v: Version, key: InternalKey) returns (stats: GetStats)
    requires TreeShape(v)
    ensures stats.seekFile.Some? <==> Opened(v, NUM_LEVELS, key) >= 2
    ensures stats.seekFile.Some? ==>
            stats.seekLevel < NUM_LEVELS - 1 && IsFirst(v, stats.seekLevel, key, stats.seekFile.value)
  {
    hide Opens;
    hide Before;
    hide Covering;
    stats := GetStats(None, 0);
    var tmp := OverlappingNewestFirst(v[0], key.user);
    assert Opened(v, 0, key) == 0 && Opened(v, 1, key) == |tmp|;
    if |tmp| > 0 {
      assert tmp[0] in tmp;
      NewestIsFirst(v, key, tmp);
      stats := GetStats(Some(tmp[0]), 0);
      if |tmp| >= 2 {
        OpenedGrows(v, 1, NUM_LEVELS, key);
        return;
      }
    }
    var level := 1;
    while level < NUM_LEVELS
      invariant 1 <= level <= NUM_LEVELS && Opened(v, level, key) == if stats.seekFile.Some? then 1 else 0
      invariant stats.seekFile.Some? ==>
                stats.seekLevel < level && IsFirst(v, stats.seekLevel, key, stats.seekFile.value)
    {
      var chosen := OpenOne(v[level], key);
      if chosen.Some? {
        if stats.seekFile.Some? {
          OpenedGrows(v, level + 1, NUM_LEVELS, key);
          return;
        }
        stats := GetStats(chosen, level);
      }
      level := level + 1;
    }
    stats := GetStats(None, 0);
  }

  /** A sample that would open two files or more charges the first; a key that does not parse charges none.
      Since another file is opened after it, the charged file is never on the bottom level. */
  method RecordReadSample(versions: VersionSet, key: Option<InternalKey>, seeksExhausted: bool) returns (schedule: bool)
    requires versions.Valid()
    modifies versions`fileToCompact, versions`fileToCompactLevel
    ensures versions.Valid()
    ensures schedule <==>
            key.Some? && Opened(versions.current, NUM_LEVELS, key.value) >= 2 && seeksExhausted
            && old(versions.fileToCompact).None?
    ensures schedule ==>
              && versions.fileToCompact.Some? && versions.fileToCompactLevel < NUM_LEVELS - 1
              && IsFirst(versions.current, versions.fileToCompactLevel, key.value, versions.fileToCompact.value)
    ensures !schedule ==>
            versions.fileToCompact == old(versions.fileToCompact)
            && versions.fileToCompactLevel == old(versions.fileToCompactLevel)
  {
    if key.None? {
      return false;
    }
    var stats := FirstOfTwo(versions.current, key.value);
    schedule := versions.UpdateStats(stats.seekFile, stats.seekLevel, seeksExhausted);
  }
}
