/** What reading any log file means, damaged or not: a physical record is taken only if its bytes are what a writer
    writes for it, and nothing is passed over in silence that could be one. */
module LogDamage {
  import opened Options
  import opened Coding
  import opened LogFormat
  import opened LogRecovery

  const EOF: nat := 5

  function Length(header: Buffer): nat
    requires |header| >= HEADER_SIZE
  {
    var a: nat, b: nat := header[4], header[5];
    a + 256 * b
  }

  // ---------- one physical record ----------

  /** The front of `b` is the physical record of `data`.  Its checksum is only looked at if `checksum` is on. */
  ghost predicate Front(crc: Checksum, checksum: bool, b: Buffer, kind: Byte, data: Buffer) {
    && |data| < 0x1_0000 && HEADER_SIZE + |data| <= |b|
    && b[4..HEADER_SIZE + |data|] == Physical(crc, kind, data)[4..]
    && (checksum ==> b[..4] == Physical(crc, kind, data)[..4])
  }

  /** A header of kind zero and length zero, as preallocated files hold. */
  predicate BlankHeader(b: Buffer)
    requires |b| >= HEADER_SIZE
  {
    b[6] == ZERO && Length(b) == 0
  }

  lemma CrcField(w: Word32)
    ensures Unmask(FixedValue(Fixed(4, Mask(w))) % WORD32) == w
  {
    hide Mask;
    hide Unmask;
    hide Fixed;
    hide FixedValue;
    assert Power(256, 4) == WORD32;
    FixedRoundTrip(4, Mask(w));
    UnmaskMask(w);
  }

  lemma MaskUnmask(m: Word32)
    ensures Mask(Unmask(m)) == m
  {
    var rot := (m + WORD32 - MASK_DELTA) % WORD32;
    var crc := rot / 0x2_0000 + rot % 0x2_0000 * 0x8000;
    assert crc / 0x8000 == rot % 0x2_0000 && crc % 0x8000 == rot / 0x2_0000;
  }

  /** The checksum of a header is right exactly if its bytes are those a writer would have put there. */
  lemma CrcFieldIff(b: Buffer, w: Word32)
    requires |b| == 4
    ensures Unmask(FixedValue(b) % WORD32) == w <==> b == Fixed(4, Mask(w))
  {
    hide Mask;
    hide Unmask;
    hide Fixed;
    hide FixedValue;
    assert Power(256, 4) == WORD32;
    CrcField(w);
    FixedOfValue(4, b);
    MaskUnmask(FixedValue(b));
  }

  /** What the checks on a header establish. */
  lemma FrontIs(crc: Checksum, b: Buffer)
    requires |b| >= HEADER_SIZE && HEADER_SIZE + Length(b) <= |b|
    ensures var data := b[HEADER_SIZE..HEADER_SIZE + Length(b)];
            && Front(crc, false, b, b[6], data)
            && (Front(crc, true, b, b[6], data) <==>
                Unmask(FixedValue(b[..4]) % WORD32) == crc(b[6..HEADER_SIZE + Length(b)]))
  {
    hide Mask;
    hide Unmask;
    hide Fixed;
    hide FixedValue;
    var n := Length(b);
    var data := b[HEADER_SIZE..HEADER_SIZE + n];
    var r, w := Physical(crc, b[6], data), crc([b[6]] + data);
    assert r[..4] == Fixed(4, Mask(w));
    assert r[4..] == [n % 256, n / 256, b[6]] + data;
    assert b[4..HEADER_SIZE + n] == [b[4], b[5], b[6]] + data;
    assert b[6..HEADER_SIZE + n] == [b[6]] + data;
    CrcFieldIff(b[..4], w);
  }

  /** There is at most one physical record at the front. */
  lemma FrontIsOne(crc: Checksum, checksum: bool, b: Buffer, kind: Byte, data: Buffer)
    requires Front(crc, checksum, b, kind, data)
    ensures kind == b[6] && HEADER_SIZE + Length(b) <= |b| && data == b[HEADER_SIZE..HEADER_SIZE + Length(b)]
  {
    hide Mask;
    hide Fixed;
    var r, part := Physical(crc, kind, data), b[4..HEADER_SIZE + |data|];
    assert r[4..] == [|data| % 256, |data| / 256, kind] + data;
    assert part[0] == b[4] && part[1] == b[5] && part[2] == b[6];
    assert part[3..] == b[HEADER_SIZE..HEADER_SIZE + |data|];
  }

  // ---------- stretches of a file ----------

  /** A stretch of the file that a reader passes: a physical record, or a block whose rest is preallocated. */
  datatype Piece = Piece(at: nat, kind: Byte, data: Buffer) | Blank(at: nat, end: nat) {
    function End(): nat {
      match this
      case Piece(at, _, data) => at + HEADER_SIZE + |data|
      case Blank(_, end) => end
    }
  }

  ghost predicate Stands(crc: Checksum, checksum: bool, file: Buffer, p: Piece) {
    match p
    case Piece(at, kind, data) => at <= |file| && Front(crc, checksum, file[at..], kind, data)
    case Blank(at, end) =>
      at + HEADER_SIZE <= end <= |file| && end - at <= BLOCK_SIZE && BlankHeader(file[at..at + HEADER_SIZE])
  }

  ghost predicate AllStand(crc: Checksum, checksum: bool, file: Buffer, pieces: seq<Piece>) {
    forall i {:trigger pieces[i]} :: 0 <= i < |pieces| ==> Stands(crc, checksum, file, pieces[i])
  }

  function EndAfter(pieces: seq<Piece>, from: nat): nat {
    if pieces == [] then from else pieces[|pieces| - 1].End()
  }

  /** One after the other, with nothing between two of them but a trailer too short for a header. */
  ghost predicate Consecutive(pieces: seq<Piece>, from: nat) {
    forall i {:trigger pieces[i]} :: 0 <= i < |pieces| ==>
      var end := if i == 0 then from else pieces[i - 1].End();
      end <= pieces[i].at < end + HEADER_SIZE
  }

  /** What may be passed over without a report when reading from the start: it holds no data. */
  predicate Silent(p: Piece) { p.Blank? || p.data == [] || p.kind == BAD_RECORD }

  ghost predicate AllSilent(pieces: seq<Piece>) {
    forall i {:trigger pieces[i]} :: 0 <= i < |pieces| ==> Silent(pieces[i])
  }

  function Joined(pieces: seq<Piece>): Buffer {
    if pieces == [] then []
    else
      var last := pieces[|pieces| - 1];
      Joined(pieces[..|pieces| - 1]) + if last.Piece? then last.data else []
  }

  /** A first fragment and middle ones. */
  ghost predicate IsOpen(pieces: seq<Piece>) {
    && pieces != [] && pieces[0].Piece? && pieces[0].kind == FIRST
    && forall i {:trigger pieces[i]} :: 1 <= i < |pieces| ==> pieces[i].Piece? && pieces[i].kind == MIDDLE
  }

  /** The fragments of one record. */
  ghost predicate IsRecord(pieces: seq<Piece>) {
    && pieces != []
    && var last := pieces[|pieces| - 1];
       && last.Piece?
       && if |pieces| == 1 then last.kind == FULL else last.kind == LAST && IsOpen(pieces[..|pieces| - 1])
  }

  /** Pieces found in the file one after the other. */
  ghost predicate Found(crc: Checksum, checksum: bool, file: Buffer, pieces: seq<Piece>, from: nat, to: nat) {
    AllStand(crc, checksum, file, pieces) && Consecutive(pieces, from) && EndAfter(pieces, from) == to
  }

  /** A record was read between two places of the file: it is joined from fragments that stand there.  If the call
      reported nothing, what it passed over before them held no data. */
  ghost predicate RecordFound(crc: Checksum, checksum: bool, file: Buffer, from: nat, to: nat, clean: bool,
                              record: Buffer) {
    exists pieces: seq<Piece> ::
      && IsRecord(pieces) && Joined(pieces) == record && from <= pieces[0].at
      && Found(crc, checksum, file, pieces, pieces[0].at, to)
      && (clean ==> OnlySilentBefore(crc, checksum, file, from, to, pieces))
  }

  ghost predicate OnlySilentBefore(crc: Checksum, checksum: bool, file: Buffer, from: nat, to: nat,
                                   pieces: seq<Piece>) {
    exists silent :: AllSilent(silent) && Found(crc, checksum, file, silent + pieces, from, to)
  }

  /** No whole physical record follows: less than a header is left, or a length that goes past the end, or a kind
      that the reader takes for the end. */
  ghost predicate Tail(file: Buffer, from: nat) {
    exists at :: from <= at < from + HEADER_SIZE && NothingWhole(file, at)
  }

  ghost predicate NothingWhole(file: Buffer, at: nat) {
    && at <= |file|
    && (|file| - at < HEADER_SIZE || at + HEADER_SIZE + Length(file[at..]) > |file| || file[at + 6] == EOF)
  }

  /** The end was met: all that was passed over held no data, but for the fragments of a record without its end. */
  ghost predicate EndFound(crc: Checksum, checksum: bool, file: Buffer, from: nat) {
    exists silent: seq<Piece>, open: seq<Piece> ::
      && AllSilent(silent) && (open == [] || IsOpen(open))
      && Found(crc, checksum, file, silent + open, from, EndAfter(silent + open, from))
      && Tail(file, EndAfter(silent + open, from))
  }

  // ---------- assembling a record ----------

  /** The record being assembled from fragments, and where it started. */
  datatype Assembly = Assembly(inFragment: bool, scratch: Buffer, prospective: int)

  /** What the pieces read since the call began amount to: silent ones, and those of the record being assembled. */
  datatype Trace = Trace(silent: seq<Piece>, open: seq<Piece>)

  ghost predicate Traced(crc: Checksum, checksum: bool, file: Buffer, from: nat, pos: nat, clean: bool, t: Trace,
                         a: Assembly) {
    && from <= pos && (!a.inFragment ==> t.open == [])
    && (a.inFragment ==>
        && IsOpen(t.open) && Joined(t.open) == a.scratch && from <= t.open[0].at
        && Found(crc, checksum, file, t.open, t.open[0].at, pos))
    && (clean ==> AllSilent(t.silent) && Found(crc, checksum, file, t.silent + t.open, from, pos))
  }

  /** What fitting a physical record to the assembly gives. */
  function Fit(a: Assembly, kind: nat, fragment: Buffer, offset: int): (Assembly, Option<Buffer>) {
    if kind == FULL then (a, Some(fragment))
    else if kind == FIRST then (Assembly(true, fragment, offset), None)
    else if kind == MIDDLE then (if a.inFragment then a.(scratch := a.scratch + fragment) else a, None)
    else if kind == LAST then if a.inFragment then (a, Some(a.scratch + fragment)) else (a, None)
    else (a.(inFragment := false, scratch := []), None)
  }

  predicate Complains(a: Assembly, kind: nat) {
    if kind == FULL || kind == FIRST then a.inFragment && a.scratch != []
    else if kind == MIDDLE || kind == LAST then !a.inFragment
    else kind != BAD_RECORD || a.inFragment
  }

  lemma FoundMore(crc: Checksum, checksum: bool, file: Buffer, pieces: seq<Piece>, from: nat, pos: nat, p: Piece)
    requires Found(crc, checksum, file, pieces, from, pos)
    requires pos <= p.at < pos + HEADER_SIZE && Stands(crc, checksum, file, p)
    ensures Found(crc, checksum, file, pieces + [p], from, p.End())
  {
    hide Stands;
    var more := pieces + [p];
    forall i {:trigger more[i]} | 0 <= i < |more|
      ensures Stands(crc, checksum, file, more[i])
      ensures var end := if i == 0 then from else more[i - 1].End(); end <= more[i].at < end + HEADER_SIZE
    {
      if i < |pieces| {
        assert more[i] == pieces[i] && (i > 0 ==> more[i - 1] == pieces[i - 1]);
      } else {
        assert i > 0 ==> more[i - 1] == pieces[i - 1];
      }
    }
  }

  lemma FoundOne(crc: Checksum, checksum: bool, file: Buffer, p: Piece)
    requires Stands(crc, checksum, file, p)
    ensures Found(crc, checksum, file, [p], p.at, p.End())
  {
    hide Stands;
  }

  lemma JoinedMore(pieces: seq<Piece>, p: Piece)
    ensures Joined(pieces + [p]) == Joined(pieces) + if p.Piece? then p.data else []
  {
    assert (pieces + [p])[..|pieces|] == pieces;
  }

  lemma {:induction false} JoinedEmpty(pieces: seq<Piece>)
    requires Joined(pieces) == []
    ensures AllSilent(pieces)
  {
    if pieces != [] {
      var n := |pieces| - 1;
      JoinedEmpty(pieces[..n]);
      forall i {:trigger pieces[i]} | 0 <= i < |pieces| ensures Silent(pieces[i]) {
        if i < n { assert pieces[i] == pieces[..n][i]; }
      }
    }
  }

  lemma SilentJoin(a: seq<Piece>, b: seq<Piece>)
    requires AllSilent(a) && AllSilent(b)
    ensures AllSilent(a + b)
  {
    forall i {:trigger (a + b)[i]} | 0 <= i < |a + b| ensures Silent((a + b)[i]) {
      assert (a + b)[i] == if i < |a| then a[i] else b[i - |a|];
    }
  }

  lemma OpenMore(open: seq<Piece>, p: Piece)
    requires IsOpen(open) && p.Piece?
    ensures p.kind == MIDDLE ==> IsOpen(open + [p])
    ensures p.kind == LAST ==> IsRecord(open + [p])
  {
    assert (open + [p])[..|open|] == open;
  }

  /** What the next piece is to the reader: a physical record it was handed, or one that it skipped. */
  ghost predicate PassedOver(crc: Checksum, checksum: bool, file: Buffer, pos: nat, pos': nat, clean: bool, kind: nat,
                         fragment: Buffer, p: Piece) {
    if kind == BAD_RECORD && !clean then pos <= pos'
    else
      && pos <= p.at < pos + HEADER_SIZE && Stands(crc, checksum, file, p) && p.End() == pos'
      && (if kind == BAD_RECORD then p.Blank? || p.kind == BAD_RECORD
          else kind < 256 && p == Piece(p.at, kind, fragment))
  }

  lemma RecordIs(crc: Checksum, checksum: bool, file: Buffer, from: nat, to: nat, clean: bool, silent: seq<Piece>,
                 pieces: seq<Piece>)
    requires IsRecord(pieces) && from <= pieces[0].at && Found(crc, checksum, file, pieces, pieces[0].at, to)
    requires clean ==> AllSilent(silent) && Found(crc, checksum, file, silent + pieces, from, to)
    ensures RecordFound(crc, checksum, file, from, to, clean, Joined(pieces))
  {
    hide Found;
  }

  lemma EndsLater(crc: Checksum, checksum: bool, file: Buffer, p: Piece)
    requires Stands(crc, checksum, file, p)
    ensures p.at < p.End() <= |file|
  {
  }

  /** A fragment that goes on with the record being assembled. */
  lemma TraceGoesOn(crc: Checksum, checksum: bool, file: Buffer, from: nat, pos: nat, clean: bool, t: Trace,
                    a: Assembly, p: Piece)
    requires Traced(crc, checksum, file, from, pos, clean, t, a) && a.inFragment && p.Piece?
    requires pos <= p.at < pos + HEADER_SIZE && Stands(crc, checksum, file, p)
    ensures p.kind == MIDDLE ==>
              Traced(crc, checksum, file, from, p.End(), clean, Trace(t.silent, t.open + [p]),
                     a.(scratch := a.scratch + p.data))
    ensures p.kind == LAST ==> RecordFound(crc, checksum, file, from, p.End(), clean, a.scratch + p.data)
  {
    hide Stands;
    hide Found;
    hide IsOpen;
    hide IsRecord;
    var open := t.open + [p];
    OpenIsSome(t.open);
    FoundMore(crc, checksum, file, t.open, t.open[0].at, pos, p);
    JoinedMore(t.open, p);
    OpenMore(t.open, p);
    if clean {
      FoundMore(crc, checksum, file, t.silent + t.open, from, pos, p);
      assert t.silent + open == t.silent + t.open + [p];
    }
    assert open[0] == t.open[0];
    if p.kind == LAST { RecordIs(crc, checksum, file, from, p.End(), clean, t.silent, open); }
  }

  lemma OpenIsSome(open: seq<Piece>)
    requires IsOpen(open)
    ensures open != []
  {
  }

  /** A fragment that starts a record, or is a whole one. */
  lemma TraceStarts(crc: Checksum, checksum: bool, file: Buffer, from: nat, pos: nat, clean: bool, t: Trace,
                    a: Assembly, p: Piece, prospective: int)
    requires Traced(crc, checksum, file, from, pos, clean, t, a) && p.Piece?
    requires pos <= p.at < pos + HEADER_SIZE && Stands(crc, checksum, file, p)
    requires clean && a.inFragment ==> a.scratch == []
    ensures p.kind == FIRST ==>
              Traced(crc, checksum, file, from, p.End(), clean, Trace(t.silent + t.open, [p]),
                     Assembly(true, p.data, prospective))
    ensures p.kind == FULL ==> RecordFound(crc, checksum, file, from, p.End(), clean, p.data)
  {
    hide Stands;
    hide Found;
    FoundOne(crc, checksum, file, p);
    JoinedMore([], p);
    assert [] + [p] == [p];
    if clean {
      FoundMore(crc, checksum, file, t.silent + t.open, from, pos, p);
      AllPassedIsSilent(crc, checksum, file, from, pos, t, a);
    }
    if p.kind == FULL { RecordIs(crc, checksum, file, from, p.End(), clean, t.silent + t.open, [p]); }
  }

  lemma AllPassedIsSilent(crc: Checksum, checksum: bool, file: Buffer, from: nat, pos: nat, t: Trace, a: Assembly)
    requires Traced(crc, checksum, file, from, pos, true, t, a) && (a.inFragment ==> a.scratch == [])
    ensures AllSilent(t.silent + t.open)
  {
    hide Found;
    hide IsOpen;
    JoinedEmpty(t.open);
    SilentJoin(t.silent, t.open);
  }

  /** A piece that is left out. */
  lemma TraceSkips(crc: Checksum, checksum: bool, file: Buffer, from: nat, pos: nat, clean: bool, t: Trace, a: Assembly,
                   p: Piece, pos': nat, a': Assembly)
    requires Traced(crc, checksum, file, from, pos, clean, t, a) && pos <= pos' && !a'.inFragment
    requires clean ==> !a.inFragment && pos <= p.at < pos + HEADER_SIZE && Stands(crc, checksum, file, p)
                       && p.End() == pos' && Silent(p)
    ensures Traced(crc, checksum, file, from, pos', clean, Trace(if clean then t.silent + [p] else [], []), a')
  {
    hide Stands;
    hide Found;
    if clean {
      assert t.silent + t.open == t.silent && t.silent + [p] + [] == t.silent + [p];
      FoundMore(crc, checksum, file, t.silent, from, pos, p);
      SilentJoin(t.silent, [p]);
    }
  }

  lemma TraceWeakens(crc: Checksum, checksum: bool, file: Buffer, from: nat, pos: nat, clean: bool, t: Trace,
                     a: Assembly)
    requires Traced(crc, checksum, file, from, pos, clean, t, a)
    ensures Traced(crc, checksum, file, from, pos, false, t, a)
  {
  }

  /** One more physical record, fitted to the assembly. */
  lemma TraceNext(crc: Checksum, checksum: bool, file: Buffer, from: nat, pos: nat, pos': nat, before: bool,
                  clean: bool, t: Trace, a: Assembly, kind: nat, fragment: Buffer, offset: int, p: Piece)
    returns (t': Trace)
    requires Traced(crc, checksum, file, from, pos, before, t, a) && kind != EOF
    requires PassedOver(crc, checksum, file, pos, pos', clean, kind, fragment, p)
    requires clean ==> before && !Complains(a, kind)
    ensures var (r, record) := Fit(a, kind, fragment, offset);
            if record.Some? then RecordFound(crc, checksum, file, from, pos', clean, record.value)
            else Traced(crc, checksum, file, from, pos', clean, t', r)
  {
    hide Stands;
    hide Traced;
    hide RecordFound;
    if !clean { TraceWeakens(crc, checksum, file, from, pos, before, t, a); }
    if clean || kind != BAD_RECORD { EndsLater(crc, checksum, file, p); }
    t' := t;
    if kind == FULL || kind == FIRST {
      TraceStarts(crc, checksum, file, from, pos, clean, t, a, p, offset);
      t' := Trace(t.silent + t.open, [p]);
    } else if a.inFragment && (kind == MIDDLE || kind == LAST) {
      TraceGoesOn(crc, checksum, file, from, pos, clean, t, a, p);
      t' := Trace(t.silent, t.open + [p]);
    } else {
      var r := Fit(a, kind, fragment, offset).0;
      TraceSkips(crc, checksum, file, from, pos, clean, t, a, p, pos', r);
      t' := Trace(if clean then t.silent + [p] else [], []);
    }
  }

  lemma TraceBegins(crc: Checksum, checksum: bool, file: Buffer, from: nat, clean: bool, a: Assembly)
    requires !a.inFragment
    ensures Traced(crc, checksum, file, from, from, clean, Trace([], []), a)
  {
  }

  /** At the end, what is still open is a record without its end. */
  lemma TraceEnds(crc: Checksum, checksum: bool, file: Buffer, from: nat, pos: nat, t: Trace, a: Assembly)
    requires Traced(crc, checksum, file, from, pos, true, t, a) && Tail(file, pos)
    ensures EndFound(crc, checksum, file, from)
  {
    hide Tail;
    hide AllStand;
    hide Consecutive;
  }

  lemma TailFromBefore(file: Buffer, from: nat, at: nat)
    requires from <= at < from + HEADER_SIZE && at <= |file| && |file| - at < HEADER_SIZE
    ensures Tail(file, from)
  {
    assert NothingWhole(file, at);
  }

  /** A physical record at the front of a part is at the front of the whole. */
  lemma FrontOfMore(crc: Checksum, checksum: bool, b: Buffer, more: Buffer, kind: Byte, data: Buffer)
    requires Front(crc, checksum, b, kind, data) && |b| <= |more| && more[..|b|] == b
    ensures Front(crc, checksum, more, kind, data)
  {
    hide Physical;
    assert more[4..HEADER_SIZE + |data|] == b[4..HEADER_SIZE + |data|] && more[..4] == b[..4];
  }

  lemma PassedUnclean(crc: Checksum, checksum: bool, file: Buffer, pos: nat, pos': nat, clean: bool, clean': bool,
                      kind: nat, fragment: Buffer, p: Piece)
    requires PassedOver(crc, checksum, file, pos, pos', clean, kind, fragment, p) && (clean' ==> clean)
    ensures PassedOver(crc, checksum, file, pos, pos', clean', kind, fragment, p)
  {
    PassedMoves(crc, checksum, file, pos, pos', clean, kind, fragment, p);
  }

  lemma PassedMoves(crc: Checksum, checksum: bool, file: Buffer, pos: nat, pos': nat, clean: bool, kind: nat,
                    fragment: Buffer, p: Piece)
    requires PassedOver(crc, checksum, file, pos, pos', clean, kind, fragment, p)
    ensures pos <= pos'
  {
    if clean || kind != BAD_RECORD { EndsLater(crc, checksum, file, p); }
  }

  lemma FoundFrom(crc: Checksum, checksum: bool, file: Buffer, from: nat, from': nat, to: nat, clean: bool,
                  record: Buffer)
    requires RecordFound(crc, checksum, file, from, to, clean, record) && from' <= from && (clean ==> from == from')
    ensures RecordFound(crc, checksum, file, from', to, clean, record)
  {
    hide Found;
    hide IsRecord;
  }
}
