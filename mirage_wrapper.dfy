/**
  The libmirage interface of mirage2iso. libmirage itself is a value here:
  a disc is a sequence of sessions, a session a sequence of tracks, and a
  track carries its sector mode, its start sector, its layout length and
  the sectors the library would return (a sector missing from the map is a
  read that fails; a present one may have any length). The wrapper's own
  rules are modelled over that value: which track modes it accepts, the
  track size it reports, how it walks and writes out a track's sectors, and
  the checks it performs when opening an image.
 */
module MirageWrapper {
  import opened Common

  /** Payload bytes of one Mode 1 sector. */
  const SECTOR_SIZE: nat := 2048

  // libmirage's MIRAGE_MODE_* track modes (the values of its mirage.h).
  const MODE_MODE0: int := 0
  const MODE_AUDIO: int := 1
  const MODE_MODE1: int := 2
  const MODE_MODE2: int := 3
  const MODE_MODE2_FORM1: int := 4
  const MODE_MODE2_FORM2: int := 5
  const MODE_MODE2_MIXED: int := 6

  /** The modes the wrapper recognises but does not extract. */
  const UNSUPPORTED_MODES: set<int> :=
    {MODE_MODE0, MODE_AUDIO, MODE_MODE2, MODE_MODE2_FORM1, MODE_MODE2_FORM2, MODE_MODE2_MIXED}

  datatype Track = Track(mode: int, start: int, length: int, sectors: map<int, seq<byte>>)
  datatype Session = Session(tracks: seq<Track>)
  datatype Disc = Disc(sessions: seq<Session>)

  /** A track's start never lies past its layout length. */
  predicate SessionWellFormed(s: Session) {
    forall t <- s.tracks :: t.start <= t.length
  }

  predicate DiscWellFormed(d: Disc) {
    forall s <- d.sessions :: SessionWellFormed(s)
  }

  /** libmirage's session lookup: index -1 names the last session. */
  function SessionByIndex(d: Disc, n: int): (r: Option<Session>)
    ensures r.Some? ==> r.value in d.sessions
    ensures r.Some? <==> (0 <= n < |d.sessions| || (n == -1 && |d.sessions| > 0))
    ensures n == -1 && |d.sessions| > 0 ==> r == Some(d.sessions[|d.sessions| - 1])
    ensures 0 <= n < |d.sessions| ==> r == Some(d.sessions[n])
  {
    if n == -1 && |d.sessions| > 0 then Some(d.sessions[|d.sessions| - 1])
    else if 0 <= n < |d.sessions| then Some(d.sessions[n])
    else None
  }

  /** libmirage's track lookup within a session. */
  function TrackByIndex(s: Session, n: int): Option<Track> {
    if 0 <= n < |s.tracks| then Some(s.tracks[n]) else None
  }

  // ---------------------------------------------------------------------------
  // Track classification

  /** What the mode switch of get_track_common makes of a mode. */
  datatype ModeClass = Supported(sectSize: nat) | Unsupported(description: string) | Unknown

  function ClassifyMode(mode: int): (c: ModeClass)
    ensures c.Supported? <==> mode == MODE_MODE1
    ensures c.Supported? ==> c.sectSize == SECTOR_SIZE
    ensures c.Unsupported? <==> mode in UNSUPPORTED_MODES
    ensures c.Unknown? <==> mode != MODE_MODE1 && mode !in UNSUPPORTED_MODES
  {
    if mode == MODE_MODE1 then Supported(2048)
    else if mode == MODE_MODE0 then Unsupported("a Mode 0")
    else if mode == MODE_AUDIO then Unsupported("an audio")
    else if mode == MODE_MODE2 then Unsupported("a Mode 2")
    else if mode == MODE_MODE2_FORM1 then Unsupported("a Mode 2 Form 1")
    else if mode == MODE_MODE2_FORM2 then Unsupported("a Mode 2 Form 2")
    else if mode == MODE_MODE2_MIXED then Unsupported("a mixed Mode 2")
    else Unknown
  }

  /** The outcome of get_track_common: the track it returns (NULL is None), the value of its
      `*sectsize` out-parameter afterwards, and whether it wrote a diagnostic to stderr. */
  datatype TrackQuery = TrackQuery(track: Option<Track>, sectSize: int, reported: bool)

  function GetTrackCommon(s: Session, n: int, verbose: bool, sectSize: int): (q: TrackQuery)
    ensures q.track.Some? <==> 0 <= n < |s.tracks| && s.tracks[n].mode == MODE_MODE1
    ensures q.track.Some? ==> q.track.value == s.tracks[n] && q.sectSize == SECTOR_SIZE && !q.reported
    ensures q.track.None? ==> q.sectSize == sectSize
    ensures 0 <= n < |s.tracks| && s.tracks[n].mode in UNSUPPORTED_MODES ==> q.reported == verbose
    ensures q.track.None? && !(0 <= n < |s.tracks| && s.tracks[n].mode in UNSUPPORTED_MODES)
            ==> q.reported
  {
    match TrackByIndex(s, n)
    case None => TrackQuery(None, sectSize, true)
    case Some(t) =>
      match ClassifyMode(t.mode)
      case Supported(size) => TrackQuery(Some(t), size, false)
      case Unsupported(_) => TrackQuery(None, sectSize, verbose)
      case Unknown => TrackQuery(None, sectSize, true)
  }

  // ---------------------------------------------------------------------------
  // Track size

  /** The size get_track_size reports for track `n` of a session: 0 doubles as its error value. */
  function SessionTrackSize(s: Session, n: int): (size: nat)
    requires SessionWellFormed(s)
    ensures 0 <= n < |s.tracks| && s.tracks[n].mode == MODE_MODE1
            ==> size == SECTOR_SIZE * (s.tracks[n].length - s.tracks[n].start)
    ensures !(0 <= n < |s.tracks| && s.tracks[n].mode == MODE_MODE1) ==> size == 0
    ensures size > 0 <==> 0 <= n < |s.tracks| && s.tracks[n].mode == MODE_MODE1
                          && s.tracks[n].start < s.tracks[n].length
  {
    var q := GetTrackCommon(s, n, false, 0);
    if q.track.None? then 0
    else
      assert q.track.value in s.tracks;
      q.sectSize * (q.track.value.length - q.track.value.start)
  }

  const INT_MIN: int := -0x8000_0000
  const INT_MAX: int := 0x7fff_ffff

  /** A 32-bit two's complement `int` result. */
  function WrapInt(x: int): (r: int)
    ensures INT_MIN <= r <= INT_MAX
    ensures INT_MIN <= x <= INT_MAX ==> r == x
    ensures (r - x) % 0x1_0000_0000 == 0
  {
    (x - INT_MIN) % 0x1_0000_0000 + INT_MIN
  }

  /** Conversion of an `int` to a 64-bit `size_t`. */
  function ToSizeT(x: int): (r: nat)
    ensures 0 <= x < 0x1_0000_0000_0000_0000 ==> r == x
    ensures -0x1_0000_0000_0000_0000 <= x < 0 ==> r == x + 0x1_0000_0000_0000_0000
  {
    x % 0x1_0000_0000_0000_0000
  }

  /** The size as get_track_size computes it: `expssize * (len - sstart)` in `int`, then
      returned as `size_t`. */
  function TrackSizeAsWritten(t: Track): (size: nat)
    ensures size < 0x1_0000_0000_0000_0000
    ensures size % SECTOR_SIZE == 0
    ensures 0 <= t.length - t.start < 0x10_0000 ==> size == SECTOR_SIZE * (t.length - t.start)
  {
    var x := SECTOR_SIZE * (t.length - t.start);
    var w := WrapInt(x);
    assert x % SECTOR_SIZE == 0;
    SectorMultipleShift(x, w - x, 0x1_0000_0000);
    SectorMultipleShift(w, 0x1_0000_0000_0000_0000, 0x1_0000_0000_0000_0000);
    ToSizeT(w)
  }

  /** Adding a multiple of `m`, itself a multiple of SECTOR_SIZE, keeps a value a multiple of
      SECTOR_SIZE. */
  lemma SectorMultipleShift(x: int, d: int, m: int)
    requires m > 0 && m % SECTOR_SIZE == 0
    requires x % SECTOR_SIZE == 0 && d % m == 0
    ensures (x + d) % SECTOR_SIZE == 0
  {
    var k := d / m;
    var j := m / SECTOR_SIZE;
    assert d == m * k;
    assert m == SECTOR_SIZE * j;
    assert d == SECTOR_SIZE * (j * k);
  }

  /** Below 2^20 sectors the `int` product is exact and the two sizes agree. */
  lemma TrackSizeAsWrittenAgrees(t: Track)
    requires t.mode == MODE_MODE1 && 0 <= t.length - t.start < 0x10_0000
    ensures TrackSizeAsWritten(t) == SessionTrackSize(Session([t]), 0)
  {
    assert Session([t]).tracks[0] == t;
  }

  /** A 2 GiB Mode 1 track (2^20 sectors): the `int` product wraps to INT_MIN, which becomes
      2^64 - 2^31 as a `size_t`. */
  lemma TrackSizeWrapsNegative()
    ensures TrackSizeAsWritten(Track(MODE_MODE1, 0, 0x10_0000, map[]))
            == 0x1_0000_0000_0000_0000 - 0x8000_0000
  {
  }

  /** A 4 GiB Mode 1 track (2^21 sectors): the `int` product wraps to 0, the error value, so
      the track is reported as having no size at all. */
  lemma TrackSizeOverflow()
    ensures var t := Track(MODE_MODE1, 0, 0x20_0000, map[]);
            TrackSizeAsWritten(t) == 0 && SessionTrackSize(Session([t]), 0) == 0x1_0000_0000
  {
    var t := Track(MODE_MODE1, 0, 0x20_0000, map[]);
    assert Session([t]).tracks[0] == t;
  }

  // ---------------------------------------------------------------------------
  // Sector extraction

  /** What an extraction did: whether it succeeded, the sectors it asked the library for, in
      order, and the payload it delivered to the output. */
  datatype Extraction = Extraction(ok: bool, visited: seq<int>, payload: seq<byte>)

  /** Space left after writing `n` bytes to an output of `room` bytes (None: no limit). */
  function Less(room: Option<nat>, n: nat): Option<nat>
    requires room.Some? ==> n <= room.value
  {
    if room.None? then None else Some(room.value - n)
  }

  /** A sector that cannot be delivered: the read fails, returns a length other than
      SECTOR_SIZE, or the output has no room left for it. */
  predicate Faulty(sectors: map<int, seq<byte>>, k: int, room: Option<nat>) {
    k !in sectors || |sectors[k]| != SECTOR_SIZE || (room.Some? && room.value < SECTOR_SIZE)
  }

  /** Walking sectors `i .. end - 1` in ascending order, stopping at the first faulty one. */
  function Walk(sectors: map<int, seq<byte>>, i: int, end: int, room: Option<nat>): Extraction
    decreases end - i
  {
    if i >= end then Extraction(true, [], [])
    else if Faulty(sectors, i, room) then Extraction(false, [i], [])
    else
      var rest := Walk(sectors, i + 1, end, Less(room, SECTOR_SIZE));
      Extraction(rest.ok, [i] + rest.visited, sectors[i] + rest.payload)
  }

  /** The sectors already handled, put in front of what remains to be done. */
  function Prepend(visited: seq<int>, payload: seq<byte>, e: Extraction): Extraction {
    Extraction(e.ok, visited + e.visited, payload + e.payload)
  }

  /** Extraction of track `n` of a session: nothing is read for a track that is not returned. */
  function TrackExtraction(s: Session, n: int, room: Option<nat>): Extraction {
    var q := GetTrackCommon(s, n, false, 0);
    if q.track.None? then Extraction(false, [], [])
    else Walk(q.track.value.sectors, q.track.value.start, q.track.value.length, room)
  }

  /** One iteration of the sector loop, with `visited` and `written` already done. */
  lemma WalkStep(sectors: map<int, seq<byte>>, i: int, end: int, room: Option<nat>,
                 visited: seq<int>, written: seq<byte>)
    requires i < end
    ensures Faulty(sectors, i, room) ==>
              Prepend(visited, written, Walk(sectors, i, end, room)) == Extraction(false, visited + [i], written)
    ensures !Faulty(sectors, i, room) ==>
              Prepend(visited, written, Walk(sectors, i, end, room))
              == Prepend(visited + [i], written + sectors[i], Walk(sectors, i + 1, end, Less(room, SECTOR_SIZE)))
  {
    if !Faulty(sectors, i, room) {
      var rest := Walk(sectors, i + 1, end, Less(room, SECTOR_SIZE));
      assert visited + ([i] + rest.visited) == (visited + [i]) + rest.visited;
      assert written + (sectors[i] + rest.payload) == (written + sectors[i]) + rest.payload;
    }
  }

  /** Sectors are asked for in ascending order from `i`, each once, and never past `end - 1`. */
  lemma {:induction false} WalkInOrder(sectors: map<int, seq<byte>>, i: int, end: int, room: Option<nat>)
    ensures var e := Walk(sectors, i, end, room);
            i + |e.visited| <= (if i <= end then end else i)
            && forall j :: 0 <= j < |e.visited| ==> e.visited[j] == i + j
    decreases end - i
  {
    if i < end && !Faulty(sectors, i, room) {
      WalkInOrder(sectors, i + 1, end, Less(room, SECTOR_SIZE));
    }
  }

  /** Every sector in [i, end) readable at full size, with room for all of them. */
  predicate Deliverable(sectors: map<int, seq<byte>>, i: int, end: int, room: Option<nat>) {
    && (forall k :: i <= k < end ==> k in sectors && |sectors[k]| == SECTOR_SIZE)
    && (room.Some? && i < end ==> room.value >= SECTOR_SIZE * (end - i))
  }

  /** An extraction succeeds exactly when every sector can be delivered; it then reads all of
      them and delivers SECTOR_SIZE bytes per sector. */
  lemma {:induction false} WalkSucceeds(sectors: map<int, seq<byte>>, i: int, end: int, room: Option<nat>)
    ensures var e := Walk(sectors, i, end, room);
            e.ok <==> Deliverable(sectors, i, end, room)
    ensures var e := Walk(sectors, i, end, room);
            e.ok ==> |e.visited| == (if i <= end then end - i else 0)
                     && |e.payload| == SECTOR_SIZE * |e.visited|
    decreases end - i
  {
    if i < end && !Faulty(sectors, i, room) {
      WalkSucceeds(sectors, i + 1, end, Less(room, SECTOR_SIZE));
      if room.Some? && i + 1 < end {
        assert room.value - SECTOR_SIZE >= SECTOR_SIZE * (end - (i + 1))
           <==> room.value >= SECTOR_SIZE * (end - i);
      }
    }
  }

  /** A failed extraction stops at the first faulty sector: that is the last one asked for,
      every earlier one was delivered whole, and no later one is read. */
  lemma {:induction false} WalkStopsAtFault(sectors: map<int, seq<byte>>, i: int, end: int, room: Option<nat>)
    ensures var e := Walk(sectors, i, end, room);
            !e.ok ==>
              && |e.visited| > 0
              && var k := i + |e.visited| - 1;
              && k < end
              && e.visited[|e.visited| - 1] == k
              && (k !in sectors || |sectors[k]| != SECTOR_SIZE
                  || (room.Some? && room.value < SECTOR_SIZE * (k - i + 1)))
              && (forall j :: i <= j < k ==> j in sectors && |sectors[j]| == SECTOR_SIZE)
              && |e.payload| == SECTOR_SIZE * (k - i)
    decreases end - i
  {
    if i < end && !Faulty(sectors, i, room) {
      var room' := Less(room, SECTOR_SIZE);
      WalkStopsAtFault(sectors, i + 1, end, room');
      var rest := Walk(sectors, i + 1, end, room');
      if !rest.ok {
        var k := i + 1 + |rest.visited| - 1;
        assert k == i + |[i] + rest.visited| - 1;
        if room.Some? {
          assert room'.value < SECTOR_SIZE * (k - (i + 1) + 1)
             <==> room.value < SECTOR_SIZE * (k - i + 1);
        }
      }
    }
  }

  /** Sector `k`'s payload is delivered at offset (k - i) * SECTOR_SIZE. */
  lemma {:induction false} WalkLayout(sectors: map<int, seq<byte>>, i: int, end: int, room: Option<nat>)
    ensures var e := Walk(sectors, i, end, room);
            |e.payload| % SECTOR_SIZE == 0
            && forall k :: i <= k < i + |e.payload| / SECTOR_SIZE ==>
                 k in sectors
                 && |sectors[k]| == SECTOR_SIZE
                 && e.payload[(k - i) * SECTOR_SIZE .. (k - i + 1) * SECTOR_SIZE] == sectors[k]
    decreases end - i
  {
    if i < end && !Faulty(sectors, i, room) {
      var room' := Less(room, SECTOR_SIZE);
      WalkLayout(sectors, i + 1, end, room');
      var rest := Walk(sectors, i + 1, end, room');
      var p := sectors[i] + rest.payload;
      assert |p| / SECTOR_SIZE == 1 + |rest.payload| / SECTOR_SIZE;
      forall k | i <= k < i + |p| / SECTOR_SIZE
        ensures k in sectors && |sectors[k]| == SECTOR_SIZE
        ensures p[(k - i) * SECTOR_SIZE .. (k - i + 1) * SECTOR_SIZE] == sectors[k]
      {
        if k == i {
          assert p[0 .. SECTOR_SIZE] == sectors[i];
        } else {
          assert p[(k - i) * SECTOR_SIZE .. (k - i + 1) * SECTOR_SIZE]
              == rest.payload[(k - (i + 1)) * SECTOR_SIZE .. (k - (i + 1) + 1) * SECTOR_SIZE];
        }
      }
    }
  }

  /** A successful extraction of a track delivers exactly the size get_track_size reports. */
  lemma ExtractionMatchesSize(s: Session, n: int, room: Option<nat>)
    requires SessionWellFormed(s)
    ensures var e := TrackExtraction(s, n, room);
            e.ok ==> 0 <= n < |s.tracks| && s.tracks[n].mode == MODE_MODE1
                     && |e.payload| == SessionTrackSize(s, n)
  {
    var q := GetTrackCommon(s, n, false, 0);
    if q.track.Some? {
      var t := q.track.value;
      assert t in s.tracks;
      WalkSucceeds(t.sectors, t.start, t.length, room);
    }
  }

  // ---------------------------------------------------------------------------
  // Output and wrapper state

  /** A stdio output stream (stdout or a file opened for writing). `room` is how many more
      bytes the device accepts; a write beyond it fails. */
  class OutputFile {
    var contents: seq<byte>
    var room: nat

    constructor (room: nat)
      ensures contents == [] && this.room == room
    {
      contents := [];
      this.room := room;
    }

    /** fwrite(data, |data|, 1, f) == 1 */
    method Write(data: seq<byte>) returns (ok: bool)
      modifies this
      ensures ok <==> |data| <= old(room)
      ensures ok ==> contents == old(contents) + data && room == old(room) - |data|
      ensures !ok ==> contents == old(contents) && room == old(room)
    {
      ok := |data| <= room;
      if ok {
        contents := contents + data;
        room := room - |data|;
      }
    }

    /** The file takes the contents of a memory region mapped onto it. */
    method CommitMapping(region: seq<byte>)
      modifies this
      ensures contents == region && room == old(room)
    {
      contents := region;
    }
  }

  /** The sector loop of output_track over one track: each sector from `start` to
      `length - 1` is read, checked to be SECTOR_SIZE long and delivered (to the stream when
      there is no buffer); the first fault ends the loop. */
  method CopySectors(t: Track, out: array?<byte>, f: OutputFile) returns (ok: bool, visited: seq<int>)
    requires t.start <= t.length
    requires out != null ==> out.Length >= SECTOR_SIZE * (t.length - t.start)
    modifies out, f
    ensures var e := Walk(t.sectors, t.start, t.length, if out == null then Some(old(f.room)) else None);
            && ok == e.ok
            && visited == e.visited
            && (out == null ==> f.contents == old(f.contents) + e.payload && f.room == old(f.room) - |e.payload|)
            && (out != null ==> && unchanged(f)
                                && |e.payload| <= out.Length
                                && out[..|e.payload|] == e.payload
                                && out[|e.payload|..] == old(out[|e.payload|..]))
  {
    ghost var room0 := if out == null then Some(f.room) else None;
    ghost var written: seq<byte> := [];
    var off := 0;
    var i := t.start;
    var last := t.length - 1;
    visited := [];
    while i <= last
      invariant t.start <= i <= t.length
      invariant off == |written| == SECTOR_SIZE * (i - t.start)
      invariant WalkSoFar(t, room0, i, visited, written)
      invariant out == null ==> f.contents == old(f.contents) + written
                                && f.room == old(f.room) - |written|
      invariant out != null ==> && unchanged(f)
                                && off <= out.Length
                                && out[..off] == written
                                && out[off..] == old(out[off..])
      decreases last - i
    {
      if i !in t.sectors || |t.sectors[i]| != SECTOR_SIZE {
        WalkStopped(t, room0, i, visited, written);
        return false, visited + [i];
      }
      var data := t.sectors[i];
      assert out != null ==> out[off + |data|..] == out[off..][|data|..];
      var wrote := PutSector(out, off, data, f);
      if !wrote {
        WalkStopped(t, room0, i, visited, written);
        return false, visited + [i];
      }
      WalkAdvanced(t, room0, i, visited, written);
      visited := visited + [i];
      written := written + data;
      off := off + |data|;
      i := i + 1;
    }
    return true, visited;
  }

  /** The sector loop's invariant: the sectors before `i` are done, as `visited` and `written`. */
  ghost predicate WalkSoFar(t: Track, room0: Option<nat>, i: int, visited: seq<int>, written: seq<byte>) {
    && (room0.Some? ==> |written| <= room0.value)
    && Walk(t.sectors, t.start, t.length, room0)
       == Prepend(visited, written, Walk(t.sectors, i, t.length, Less(room0, |written|)))
  }

  /** A faulty sector at `i` ends the whole walk there. */
  lemma WalkStopped(t: Track, room0: Option<nat>, i: int, visited: seq<int>, written: seq<byte>)
    requires i < t.length && WalkSoFar(t, room0, i, visited, written)
    requires Faulty(t.sectors, i, Less(room0, |written|))
    ensures Walk(t.sectors, t.start, t.length, room0) == Extraction(false, visited + [i], written)
  {
    WalkStep(t.sectors, i, t.length, Less(room0, |written|), visited, written);
  }

  /** A deliverable sector at `i` moves the invariant on to `i + 1`. */
  lemma WalkAdvanced(t: Track, room0: Option<nat>, i: int, visited: seq<int>, written: seq<byte>)
    requires i < t.length && WalkSoFar(t, room0, i, visited, written)
    requires !Faulty(t.sectors, i, Less(room0, |written|))
    ensures WalkSoFar(t, room0, i + 1, visited + [i], written + t.sectors[i])
  {
    var room := Less(room0, |written|);
    WalkStep(t.sectors, i, t.length, room, visited, written);
    assert Less(room, SECTOR_SIZE) == Less(room0, |written + t.sectors[i]|);
  }

  /** One sector goes out: fwrite to the stream when there is no buffer, memcpy into the
      buffer at `off` otherwise (which cannot fail). */
  method PutSector(out: array?<byte>, off: nat, data: seq<byte>, f: OutputFile) returns (ok: bool)
    requires out != null ==> off + |data| <= out.Length
    modifies out, f
    ensures out == null ==> && (ok <==> |data| <= old(f.room))
                            && f.contents == old(f.contents) + (if ok then data else [])
                            && f.room == old(f.room) - (if ok then |data| else 0)
    ensures out != null ==> && ok && unchanged(f)
                            && out[..off + |data|] == old(out[..off]) + data
                            && out[off + |data|..] == old(out[off + |data|..])
  {
    if out == null {
      ok := f.Write(data);
      assert old(f.contents) + [] == old(f.contents);
    } else {
      CopyInto(out, off, data);
      ok := true;
    }
  }

  /** Copies one sector's payload into the mapped output at `off` (memcpy). */
  method CopyInto(out: array<byte>, off: nat, data: seq<byte>)
    requires off + |data| <= out.Length
    modifies out
    ensures out[..] == old(out[..off]) + data + old(out[off + |data|..])
    ensures out[..off + |data|] == old(out[..off]) + data
    ensures out[off + |data|..] == old(out[off + |data|..])
  {
    forall k | 0 <= k < |data| {
      out[off + k] := data[k];
    }
    assert out[..] == old(out[..off]) + data + old(out[off + |data|..]);
  }

  /** The wrapper's module-level state: the open disc, the selected session, and its track count. */
  class Wrapper {
    var disc: Option<Disc>
    var session: Option<Session>
    var tracks: int

    ghost predicate Valid()
      reads this
    {
      && (disc.Some? ==> DiscWellFormed(disc.value))
      && (session.Some? ==> SessionWellFormed(session.value) && tracks == |session.value.tracks|)
    }

    constructor ()
      ensures Valid()
      ensures disc.None? && session.None? && tracks == 0
    {
      disc := None;
      session := None;
      tracks := 0;
    }

    /** miragewrap_open: the disc must have a session, the requested session must exist, and it
        must hold a track. `image` is what the library made of the image file (None: it
        could not be opened). */
    method Open(image: Option<Disc>, sessionNum: int) returns (ok: bool)
      requires Valid()
      requires image.Some? ==> DiscWellFormed(image.value)
      modifies this
      ensures Valid()
      ensures disc == image
      ensures ok <==> && image.Some?
                      && |image.value.sessions| > 0
                      && SessionByIndex(image.value, sessionNum).Some?
                      && |SessionByIndex(image.value, sessionNum).value.tracks| > 0
      ensures image.None? || |image.value.sessions| == 0
              ==> session == old(session) && tracks == old(tracks)
      ensures image.Some? && |image.value.sessions| > 0
              ==> session == SessionByIndex(image.value, sessionNum)
      ensures session.None? ==> tracks == old(tracks)
      ensures ok ==> TrackCount() > 0
    {
      disc := image;
      if image.None? {
        return false;
      }
      var d := image.value;
      if |d.sessions| == 0 {
        return false;
      }
      session := SessionByIndex(d, sessionNum);
      if session.None? {
        return false;
      }
      tracks := |session.value.tracks|;
      if tracks == 0 {
        return false;
      }
      return true;
    }

    /** miragewrap_get_track_count: 0 before a session is selected. */
    function TrackCount(): (n: int)
      reads this
      requires Valid()
      ensures session.None? ==> n == 0
      ensures session.Some? ==> n == |session.value.tracks|
    {
      if session.None? then 0 else tracks
    }

    /** miragewrap_get_track_size: 0 before a session is selected. */
    function TrackSize(trackNum: int): (size: nat)
      reads this
      requires Valid()
      ensures session.None? ==> size == 0
      ensures session.Some? ==> size == SessionTrackSize(session.value, trackNum)
    {
      if session.None? then 0 else SessionTrackSize(session.value, trackNum)
    }

    /** miragewrap_output_track: with `out` (a region mapped onto the output file) the payload
        lands in it at an advancing offset; without, each sector is written to `f`. The result
        also reports which sectors were asked for. */
    method OutputTrack(out: array?<byte>, trackNum: int, f: OutputFile) returns (ok: bool, visited: seq<int>)
      requires Valid()
      requires out != null ==> out.Length >= TrackSize(trackNum)
      modifies out, f
      ensures session.None? ==> !ok && visited == [] && unchanged(f) && (out != null ==> unchanged(out))
      ensures session.Some? ==>
        var e := TrackExtraction(session.value, trackNum, if out == null then Some(old(f.room)) else None);
        && ok == e.ok
        && visited == e.visited
        && (out == null ==> f.contents == old(f.contents) + e.payload && f.room == old(f.room) - |e.payload|)
        && (out != null ==> && unchanged(f)
                            && |e.payload| <= out.Length
                            && out[..|e.payload|] == e.payload
                            && out[|e.payload|..] == old(out[|e.payload|..]))
    {
      if session.None? {
        return false, [];
      }
      var q := GetTrackCommon(session.value, trackNum, false, 0);
      if q.track.None? {
        return false, [];
      }
      var t := q.track.value;
      assert t in session.value.tracks;
      ok, visited := CopySectors(t, out, f);
    }
  }

  /** miragewrap_get_version (libmirage releases with a Mirage object): NULL before
      initialisation or when the library fails; otherwise the library's version cut to at most
      9 characters, which fit the static 10-byte buffer with its terminator. `tooLong` is the
      "version string too long" diagnostic. */
  datatype VersionQuery = VersionQuery(text: Option<string>, tooLong: bool)

  function GetVersion(initialised: bool, libraryVersion: Option<string>): (r: VersionQuery)
    ensures !initialised || libraryVersion.None? ==> r.text.None?
    ensures initialised && libraryVersion.Some? ==>
              var v := CStr(libraryVersion.value);
              && r.text.Some?
              && |r.text.value| == (if |v| <= 9 then |v| else 9)
              && r.text.value == v[..|r.text.value|]
              && (r.tooLong <==> |v| > 9)
  {
    if !initialised || libraryVersion.None? then VersionQuery(None, false)
    else
      var v := CStr(libraryVersion.value);
      VersionQuery(Some(if |v| > 9 then v[..9] else v), |v| > 9)
  }
}
