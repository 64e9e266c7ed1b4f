/** Setlists for live performance: an ordered list of songs with playback
    settings, the total running time including the gaps between songs, its
    human-readable estimate, and the list edits (move, remove, add, clear). */
module Setlists {
  import opened Wrappers
  import opened Text

  /** A song in a setlist; `duration` is in seconds. */
  datatype SetlistSong = SetlistSong(
    id: string,
    title: string,
    artist: string,
    duration: real,
    notes: Option<string>,
    transpose: int,
    key: Option<string>,
    bpm: Option<int>)

  /** Playback settings. The 0..60 bound on the gap is checked when settings are
      built (`NewSettings`); a later assignment to the field is not checked. */
  datatype Settings = Settings(autoAdvance: bool, gapSeconds: int, loop: bool, shuffle: bool, countdown: bool)

  /** A point in time, as supplied by the caller's clock. */
  type Timestamp = int

  datatype Setlist = Setlist(
    version: string,
    name: string,
    description: Option<string>,
    createdAt: Timestamp,
    modifiedAt: Option<Timestamp>,
    settings: Settings,
    songs: seq<SetlistSong>,
    tags: seq<string>)

  /** Field validation of `SetlistSettings`: the gap must lie in 0..60 seconds. */
  function NewSettings(autoAdvance: bool, gapSeconds: int, loop: bool, shuffle: bool, countdown: bool): (r: Option<Settings>)
    ensures r.Some? <==> 0 <= gapSeconds <= 60
    ensures r.Some? ==> r.value == Settings(autoAdvance, gapSeconds, loop, shuffle, countdown)
  {
    if 0 <= gapSeconds <= 60 then Some(Settings(autoAdvance, gapSeconds, loop, shuffle, countdown)) else None
  }

  /** The defaults: auto-advance, a 5 second gap, no loop, no shuffle, countdown on. */
  function DefaultSettings(): (r: Settings)
    ensures NewSettings(r.autoAdvance, r.gapSeconds, r.loop, r.shuffle, r.countdown) == Some(r)
  {
    Settings(true, 5, false, false, true)
  }

  /** A new, empty setlist created at `now`. */
  function NewSetlist(name: string, description: Option<string>, tags: seq<string>, now: Timestamp): (r: Setlist)
    ensures r.songs == [] && r.modifiedAt.None? && r.createdAt == now
    ensures r.settings == DefaultSettings() && r.version == "1.0.0"
  {
    Setlist("1.0.0", name, description, now, None, DefaultSettings(), [], tags)
  }

  /** The sum of the songs' durations. */
  function SumDurations(songs: seq<SetlistSong>): real {
    if |songs| == 0 then 0.0 else songs[0].duration + SumDurations(songs[1..])
  }

  lemma {:induction false} SumConcat(a: seq<SetlistSong>, b: seq<SetlistSong>)
    ensures SumDurations(a + b) == SumDurations(a) + SumDurations(b)
  {
    if |a| > 0 {
      assert (a + b)[1..] == a[1..] + b;
      SumConcat(a[1..], b);
    } else {
      assert a + b == b;
    }
  }

  /** `Setlist.total_duration`: the songs' durations plus one gap between each
      two consecutive songs. */
  function TotalDuration(s: Setlist): real {
    if |s.songs| == 0 then 0.0
    else SumDurations(s.songs) + (if |s.songs| > 1 then ((|s.songs| - 1) * s.settings.gapSeconds) as real else 0.0)
  }

  /** Adding a song at the end adds its duration, plus one gap unless the list
      was empty. */
  lemma TotalDurationAppend(s: Setlist, x: SetlistSong)
    ensures TotalDuration(s.(songs := s.songs + [x]))
         == TotalDuration(s) + x.duration + (if |s.songs| > 0 then s.settings.gapSeconds as real else 0.0)
  {
    SumConcat(s.songs, [x]);
    assert SumDurations([x]) == x.duration;
  }

  /** Three songs of 180, 240 and 200 seconds with 5 second gaps run 630 seconds. */
  lemma TotalDurationExample(s: Setlist)
    requires |s.songs| == 3 && s.settings.gapSeconds == 5
    requires s.songs[0].duration == 180.0 && s.songs[1].duration == 240.0 && s.songs[2].duration == 200.0
    ensures TotalDuration(s) == 630.0
  {
    var q := s.songs;
    assert SumDurations(q[2..]) == 200.0 by {
      assert q[2..][1..] == [];
    }
    assert SumDurations(q[1..]) == 440.0 by {
      assert q[1..][1..] == q[2..];
    }
  }

  /** Python's `int(x)` on a float: truncation toward zero. */
  function Trunc(x: real): (r: int)
    ensures x >= 0.0 ==> r as real <= x < r as real + 1.0
    ensures x < 0.0 ==> r as real - 1.0 < x <= r as real
  {
    if x >= 0.0 then x.Floor else -((-x).Floor)
  }

  /** Python's float `x % 60`: the remainder takes the divisor's sign. */
  function Mod60(x: real): (r: real)
    ensures 0.0 <= r < 60.0
    ensures (x - r) / 60.0 == ((x - r) / 60.0).Floor as real
  {
    x - 60.0 * ((x / 60.0).Floor as real)
  }

  /** The three shapes of the estimate `estimated_time` renders. */
  datatype Estimate =
    | HoursMinutes(hours: int, minutes: int)
    | MinutesSeconds(minutes: int, seconds: int)
    | WholeMinutes(minutes: int)

  /** The arithmetic of `Setlist.estimated_time`: whole minutes and seconds;
      above 60 minutes, hours and minutes and the seconds are dropped. */
  function EstimateOf(total: real): Estimate {
    var minutes := Trunc(total / 60.0);
    var seconds := Trunc(Mod60(total));
    if minutes > 60 then HoursMinutes(minutes / 60, minutes % 60)
    else if seconds > 0 then MinutesSeconds(minutes, seconds)
    else WholeMinutes(minutes)
  }

  /** The text of the estimate: "2h 5m", "45m 30s" or "45 minutes". */
  function FormatEstimate(e: Estimate): string {
    match e
    case HoursMinutes(h, m) => IntToString(h) + "h " + IntToString(m) + "m"
    case MinutesSeconds(m, s) => IntToString(m) + "m " + IntToString(s) + "s"
    case WholeMinutes(m) => IntToString(m) + " minutes"
  }

  /** `Setlist.estimated_time`. */
  function EstimatedTime(s: Setlist): string {
    FormatEstimate(EstimateOf(TotalDuration(s)))
  }

  /** For a non-negative running time the estimate is the time truncated to the
      precision shown: whole seconds up to an hour, whole minutes (in hours and
      minutes) beyond 60 minutes. */
  lemma EstimateMeaning(total: real)
    requires total >= 0.0
    ensures match EstimateOf(total)
      case HoursMinutes(h, m) =>
        h >= 1 && 0 <= m < 60 && 60 * h + m > 60
        && (3600 * h + 60 * m) as real <= total < (3600 * h + 60 * m + 60) as real
      case MinutesSeconds(m, sec) =>
        0 <= m <= 60 && 0 < sec < 60
        && (60 * m + sec) as real <= total < (60 * m + sec + 1) as real
      case WholeMinutes(m) =>
        0 <= m <= 60 && (60 * m) as real <= total < (60 * m + 1) as real
  {
    var minutes := Trunc(total / 60.0);
    var r := Mod60(total);
    assert minutes == (total / 60.0).Floor;
    assert r == total - 60.0 * minutes as real;
  }

  /** A setlist of one hour-long song and no gap is estimated at "60 minutes",
      not "1h 0m". */
  lemma OneHourEstimate(s: Setlist)
    requires |s.songs| == 1 && s.songs[0].duration == 3600.0
    ensures EstimateOf(TotalDuration(s)) == WholeMinutes(60)
    ensures EstimatedTime(s) == "60 minutes"
  {
    assert SumDurations(s.songs) == 3600.0 by {
      assert s.songs[1..] == [];
    }
    assert Trunc(3600.0 / 60.0) == 60;
    assert NatToString(60) == "60" by {
      assert NatToString(6) == "6";
    }
  }

  /** `s[:i] + s[i+1:]`, what `list.pop(i)` leaves. */
  function RemoveAt<T>(q: seq<T>, i: int): (r: seq<T>)
    requires 0 <= i < |q|
    ensures |r| == |q| - 1
    ensures forall k :: 0 <= k < i ==> r[k] == q[k]
    ensures forall k :: i <= k < |r| ==> r[k] == q[k + 1]
  {
    q[..i] + q[i + 1..]
  }

  /** `list.insert(i, x)` at an index already clamped into 0..|q|. */
  function InsertAt<T>(q: seq<T>, i: int, x: T): (r: seq<T>)
    requires 0 <= i <= |q|
    ensures |r| == |q| + 1 && r[i] == x
    ensures forall k :: 0 <= k < i ==> r[k] == q[k]
    ensures forall k :: i < k < |r| ==> r[k] == q[k - 1]
  {
    q[..i] + [x] + q[i..]
  }

  /** Removing what was inserted gives the list back, and inserting the removed
      element where it was gives the list back. */
  lemma InsertRemoveInverse<T>(q: seq<T>, i: int, x: T)
    requires 0 <= i <= |q|
    ensures RemoveAt(InsertAt(q, i, x), i) == q
  {
  }

  lemma RemoveInsertInverse<T>(q: seq<T>, i: int)
    requires 0 <= i < |q|
    ensures InsertAt(RemoveAt(q, i), i, q[i]) == q
  {
  }

  /** Where `list.insert(i, x)` puts `x` in a list of length `n`: a negative
      index counts from the end, and the result is clamped into 0..n. */
  function PyInsertIndex(n: nat, i: int): (r: nat)
    ensures r <= n
    ensures 0 <= i <= n ==> r == i
    ensures -(n as int) <= i < 0 ==> r == n + i
    ensures i > n ==> r == n
    ensures i < -(n as int) ==> r == 0
  {
    if i < 0 then (if i + n < 0 then 0 else i + n) else if i > n then n else i
  }

  lemma {:induction false} SumInsert(q: seq<SetlistSong>, i: int, x: SetlistSong)
    requires 0 <= i <= |q|
    ensures SumDurations(InsertAt(q, i, x)) == SumDurations(q) + x.duration
  {
    assert InsertAt(q, i, x) == q[..i] + ([x] + q[i..]);
    SumConcat(q[..i], [x] + q[i..]);
    SumConcat([x], q[i..]);
    SumConcat(q[..i], q[i..]);
    assert q[..i] + q[i..] == q;
  }

  lemma {:induction false} SumRemove(q: seq<SetlistSong>, i: int)
    requires 0 <= i < |q|
    ensures SumDurations(RemoveAt(q, i)) == SumDurations(q) - q[i].duration
  {
    RemoveInsertInverse(q, i);
    SumInsert(RemoveAt(q, i), i, q[i]);
  }

  /** `Setlist.move_song`: with both indices in range the song at `from` is
      taken out and put back at `to`, every other song keeping its relative
      order; with either out of range nothing changes. */
  function MoveSong(s: Setlist, from: int, to: int, now: Timestamp): (r: Setlist)
    ensures !(0 <= from < |s.songs| && 0 <= to < |s.songs|) ==> r == s
    ensures 0 <= from < |s.songs| && 0 <= to < |s.songs| ==>
      && |r.songs| == |s.songs|
      && r.songs[to] == s.songs[from]
      && RemoveAt(r.songs, to) == RemoveAt(s.songs, from)
      && multiset(r.songs) == multiset(s.songs)
      && r == s.(songs := r.songs, modifiedAt := Some(now))
  {
    if 0 <= from < |s.songs| && 0 <= to < |s.songs| then
      var rest := RemoveAt(s.songs, from);
      var songs := InsertAt(rest, to, s.songs[from]);
      InsertRemoveInverse(rest, to, s.songs[from]);
      calc {
        multiset(songs);
        multiset(rest[..to]) + multiset([s.songs[from]]) + multiset(rest[to..]);
        { assert rest[..to] + rest[to..] == rest; }
        multiset(rest) + multiset([s.songs[from]]);
        { assert rest == s.songs[..from] + s.songs[from + 1..]; }
        multiset(s.songs[..from]) + multiset([s.songs[from]]) + multiset(s.songs[from + 1..]);
        { assert s.songs[..from] + [s.songs[from]] + s.songs[from + 1..] == s.songs; }
        multiset(s.songs);
      }
      s.(songs := songs, modifiedAt := Some(now))
    else s
  }

  /** Moving a song back to where it came from restores the order. */
  lemma MoveSongInverse(s: Setlist, from: int, to: int, t1: Timestamp, t2: Timestamp)
    requires 0 <= from < |s.songs| && 0 <= to < |s.songs|
    ensures MoveSong(MoveSong(s, from, to, t1), to, from, t2).songs == s.songs
  {
    var m := MoveSong(s, from, to, t1).songs;
    RemoveInsertInverse(s.songs, from);
  }

  /** Reordering does not change the running time. */
  lemma MoveSongKeepsTotalDuration(s: Setlist, from: int, to: int, now: Timestamp)
    ensures TotalDuration(MoveSong(s, from, to, now)) == TotalDuration(s)
  {
    if 0 <= from < |s.songs| && 0 <= to < |s.songs| {
      var r := MoveSong(s, from, to, now).songs;
      SumRemove(s.songs, from);
      SumRemove(r, to);
    }
  }

  /** Moving the first of three songs to the end. */
  lemma MoveSongExample(s: Setlist, a: SetlistSong, b: SetlistSong, c: SetlistSong, now: Timestamp)
    requires s.songs == [a, b, c]
    ensures MoveSong(s, 0, 2, now).songs == [b, c, a]
  {
  }

  /** `Setlist.remove_song`: an index in range removes and returns that song;
      any other index changes nothing and returns `None`. */
  function RemoveSong(s: Setlist, index: int, now: Timestamp): (r: (Setlist, Option<SetlistSong>))
    ensures r.1.Some? <==> 0 <= index < |s.songs|
    ensures r.1.Some? ==> r.1.value == s.songs[index] && r.0 == s.(songs := RemoveAt(s.songs, index), modifiedAt := Some(now))
    ensures r.1.None? ==> r.0 == s
  {
    if 0 <= index < |s.songs| then (s.(songs := RemoveAt(s.songs, index), modifiedAt := Some(now)), Some(s.songs[index]))
    else (s, None)
  }

  /** `Setlist.add_song`: appended without an index, else inserted as
      `list.insert` does (negative indices from the end, clamped). */
  function AddSong(s: Setlist, song: SetlistSong, index: Option<int>, now: Timestamp): (r: Setlist)
    ensures |r.songs| == |s.songs| + 1
    ensures index.None? ==> r.songs == s.songs + [song]
    ensures index.Some? ==> r.songs[PyInsertIndex(|s.songs|, index.value)] == song
    ensures index.Some? ==> RemoveAt(r.songs, PyInsertIndex(|s.songs|, index.value)) == s.songs
    ensures r == s.(songs := r.songs, modifiedAt := Some(now))
  {
    if index.None? then s.(songs := s.songs + [song], modifiedAt := Some(now))
    else
      var at := PyInsertIndex(|s.songs|, index.value);
      InsertRemoveInverse(s.songs, at, song);
      s.(songs := InsertAt(s.songs, at, song), modifiedAt := Some(now))
  }

  /** Putting a removed song back at its index restores the list. */
  lemma RemoveThenAddRestores(s: Setlist, index: int, t1: Timestamp, t2: Timestamp)
    requires 0 <= index < |s.songs|
    ensures AddSong(RemoveSong(s, index, t1).0, RemoveSong(s, index, t1).1.value, Some(index), t2).songs == s.songs
  {
    RemoveInsertInverse(s.songs, index);
  }

  /** `Setlist.get_song`: the song at an in-range index, else `None`. */
  function GetSong(s: Setlist, index: int): (r: Option<SetlistSong>)
    ensures r.Some? <==> 0 <= index < |s.songs|
    ensures r.Some? ==> r.value == s.songs[index]
  {
    if 0 <= index < |s.songs| then Some(s.songs[index]) else None
  }

  /** `Setlist.song_count`. */
  function SongCount(s: Setlist): (r: nat)
    ensures r == |s.songs|
  {
    |s.songs|
  }

  /** `Setlist.clear`: no songs, everything else kept. */
  function Clear(s: Setlist, now: Timestamp): (r: Setlist)
    ensures r.songs == [] && TotalDuration(r) == 0.0
    ensures r == s.(songs := [], modifiedAt := Some(now))
  {
    s.(songs := [], modifiedAt := Some(now))
  }

  /** `Setlist.duplicate`: a new setlist under a new name, created at `now`,
      with copies of the description, settings, songs and tags. */
  function Duplicate(s: Setlist, newName: string, now: Timestamp): (r: Setlist)
    ensures r.name == newName && r.createdAt == now && r.modifiedAt.None? && r.version == "1.0.0"
    ensures r.songs == s.songs && r.settings == s.settings && r.tags == s.tags && r.description == s.description
    ensures TotalDuration(r) == TotalDuration(s)
  {
    Setlist("1.0.0", newName, s.description, now, None, s.settings, s.songs, s.tags)
  }
}
