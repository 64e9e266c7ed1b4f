/** Setlist playback: a cursor over the songs of a loaded setlist, moved by
    next / previous / jump, optionally through a shuffled play order, with
    looping at the end and a progress summary. */
module Queue {
  import opened Wrappers
  import opened Setlists

  /** The queue's state. `autoAdvancePending` records whether an auto-advance
      task is scheduled; `shuffleOrder` maps play positions to song indices
      and is empty when shuffle is off. */
  datatype QueueState = QueueState(
    setlist: Option<Setlist>,
    currentIndex: nat,
    isPlaying: bool,
    autoAdvancePending: bool,
    shuffleOrder: seq<int>)

  /** `order` lists each of 0..n-1 exactly once. */
  predicate IsPermutation(order: seq<int>, n: nat) {
    && |order| == n
    && (forall i :: 0 <= i < n ==> 0 <= order[i] < n)
    && (forall i, j :: 0 <= i < j < n ==> order[i] != order[j])
  }

  /** The shuffle order is empty or a permutation of the loaded setlist's indices. */
  predicate Valid(q: QueueState) {
    if q.setlist.None? then q.shuffleOrder == []
    else q.shuffleOrder == [] || IsPermutation(q.shuffleOrder, |q.setlist.value.songs|)
  }

  /** `QueueManager.__init__`: nothing loaded. */
  function NewQueue(): (r: QueueState)
    ensures Valid(r) && r.setlist.None? && r.currentIndex == 0 && !r.isPlaying
  {
    QueueState(None, 0, false, false, [])
  }

  /** `QueueManager.load_setlist`: back to the first song, not playing; with
      shuffle on, `shuffled` (the result of `random.shuffle`) becomes the play
      order. A scheduled auto-advance is left alone. */
  function LoadSetlist(q: QueueState, s: Setlist, shuffled: seq<int>): (r: QueueState)
    requires s.settings.shuffle ==> IsPermutation(shuffled, |s.songs|)
    ensures Valid(r)
    ensures r.setlist == Some(s) && r.currentIndex == 0 && !r.isPlaying
    ensures r.shuffleOrder == (if s.settings.shuffle then shuffled else [])
    ensures r.autoAdvancePending == q.autoAdvancePending
  {
    QueueState(Some(s), 0, false, q.autoAdvancePending, if s.settings.shuffle then shuffled else [])
  }

  /** Python's `q[i]`: negative indices count from the end; out of range raises. */
  function PyIndex<T>(q: seq<T>, i: int): (r: Fallible<T>)
    ensures r.Returned? <==> -|q| <= i < |q|
    ensures 0 <= i < |q| ==> r == Returned(q[i])
    ensures -|q| <= i < 0 ==> r == Returned(q[|q| + i])
  {
    if 0 <= i < |q| then Returned(q[i])
    else if -|q| <= i < 0 then Returned(q[|q| + i])
    else IndexError
  }

  /** `QueueManager.get_actual_index`: the song index at play position `logical`. */
  function GetActualIndex(q: QueueState, logical: int): (r: Fallible<int>)
    ensures q.shuffleOrder == [] ==> r == Returned(logical)
    ensures q.shuffleOrder != [] && 0 <= logical < |q.shuffleOrder| ==> r == Returned(q.shuffleOrder[logical])
    ensures Valid(q) && q.setlist.Some? && 0 <= logical < |q.setlist.value.songs| ==>
      r.Returned? && 0 <= r.value < |q.setlist.value.songs|
  {
    if |q.shuffleOrder| > 0 then PyIndex(q.shuffleOrder, logical) else Returned(logical)
  }

  /** The song at play position `i` of a valid queue. */
  function SongAt(q: QueueState, i: int): SetlistSong
    requires Valid(q) && q.setlist.Some? && 0 <= i < |q.setlist.value.songs|
  {
    q.setlist.value.songs[GetActualIndex(q, i).value]
  }

  /** `QueueManager.get_current_song`: nothing without a setlist or past the
      end; otherwise the song at the current play position. */
  function GetCurrentSong(q: QueueState): (r: Fallible<Option<SetlistSong>>)
    ensures Valid(q) ==> r.Returned?
    ensures Valid(q) ==> (r.value.Some? <==> q.setlist.Some? && q.currentIndex < |q.setlist.value.songs|)
    ensures Valid(q) && r.value.Some? ==> r.value.value == SongAt(q, q.currentIndex)
  {
    if q.setlist.None? || q.currentIndex >= |q.setlist.value.songs| then Returned(None)
    else match GetActualIndex(q, q.currentIndex)
      case IndexError => IndexError
      case Returned(actual) =>
        match PyIndex(q.setlist.value.songs, actual)
        case IndexError => IndexError
        case Returned(song) => Returned(Some(song))
  }

  /** `QueueManager.get_next_song`: the song at the next play position; past
      the end the first one when looping, else nothing. A looping empty
      setlist raises `IndexError`. */
  function GetNextSong(q: QueueState): (r: Fallible<Option<SetlistSong>>)
    requires Valid(q)
    ensures q.setlist.None? ==> r == Returned(None)
    ensures q.setlist.Some? && |q.setlist.value.songs| == 0 && q.setlist.value.settings.loop ==> r == IndexError
    ensures q.setlist.Some? && q.currentIndex + 1 < |q.setlist.value.songs| ==>
      r == Returned(Some(SongAt(q, q.currentIndex + 1)))
    ensures q.setlist.Some? && q.currentIndex + 1 >= |q.setlist.value.songs| > 0 && q.setlist.value.settings.loop ==>
      r == Returned(Some(SongAt(q, 0)))
    ensures q.setlist.Some? && q.currentIndex + 1 >= |q.setlist.value.songs| && !q.setlist.value.settings.loop ==>
      r == Returned(None)
  {
    if q.setlist.None? then Returned(None)
    else
      var next := q.currentIndex + 1;
      var position := if next >= |q.setlist.value.songs| then 0 else next;
      if next >= |q.setlist.value.songs| && !q.setlist.value.settings.loop then Returned(None)
      else match GetActualIndex(q, position)
        case IndexError => IndexError
        case Returned(actual) =>
          match PyIndex(q.setlist.value.songs, actual)
          case IndexError => IndexError
          case Returned(song) => Returned(Some(song))
  }

  /** `QueueManager.get_previous_song`: nothing at the first position or without
      a setlist; otherwise the song one play position back. Once the cursor has
      run more than one past the end, the lookup raises `IndexError`. */
  function GetPreviousSong(q: QueueState): (r: Fallible<Option<SetlistSong>>)
    requires Valid(q)
    ensures q.setlist.None? || q.currentIndex == 0 ==> r == Returned(None)
    ensures q.setlist.Some? && 0 < q.currentIndex <= |q.setlist.value.songs| ==>
      r == Returned(Some(SongAt(q, q.currentIndex - 1)))
    ensures q.setlist.Some? && q.currentIndex > |q.setlist.value.songs| ==> r == IndexError
  {
    if q.setlist.None? || q.currentIndex == 0 then Returned(None)
    else match GetActualIndex(q, q.currentIndex - 1)
      case IndexError => IndexError
      case Returned(actual) =>
        match PyIndex(q.setlist.value.songs, actual)
        case IndexError => IndexError
        case Returned(song) => Returned(Some(song))
  }

  /** `QueueManager.play_current` (state part): when there is a current song,
      playing starts and, with auto-advance on, an auto-advance is scheduled. */
  function PlayCurrent(q: QueueState): (r: QueueState)
    requires Valid(q)
    ensures Valid(r)
    ensures r.setlist == q.setlist && r.currentIndex == q.currentIndex && r.shuffleOrder == q.shuffleOrder
    ensures r.isPlaying <==> q.isPlaying || GetCurrentSong(q).value.Some?
    ensures GetCurrentSong(q).value.None? ==> r == q
    ensures GetCurrentSong(q).value.Some? ==>
      r.autoAdvancePending == (q.autoAdvancePending || q.setlist.value.settings.autoAdvance)
  {
    if GetCurrentSong(q).value.None? then q
    else q.(isPlaying := true,
            autoAdvancePending := q.autoAdvancePending || q.setlist.value.settings.autoAdvance)
  }

  /** `QueueManager.next_song` (state part): cancel any scheduled auto-advance,
      advance one position, wrap to the first when looping past the end, or stop
      playing past the end without looping (the cursor stays past the end).
      When a song starts playing, a new auto-advance is scheduled exactly when
      the setlist's settings ask for one. */
  function NextSong(q: QueueState): (r: QueueState)
    requires Valid(q)
    ensures Valid(r)
    ensures q.setlist.None? ==> r == q
    ensures q.setlist.Some? ==> r.setlist == q.setlist && r.shuffleOrder == q.shuffleOrder
    ensures q.setlist.Some? && q.currentIndex + 1 < |q.setlist.value.songs| ==>
      r.currentIndex == q.currentIndex + 1 && r.isPlaying
      && r.autoAdvancePending == q.setlist.value.settings.autoAdvance
    ensures q.setlist.Some? && q.currentIndex + 1 >= |q.setlist.value.songs| && q.setlist.value.settings.loop ==>
      r.currentIndex == 0 && (r.isPlaying <==> q.isPlaying || |q.setlist.value.songs| > 0)
      && r.autoAdvancePending == (q.setlist.value.settings.autoAdvance && |q.setlist.value.songs| > 0)
    ensures q.setlist.Some? && q.currentIndex + 1 >= |q.setlist.value.songs| && !q.setlist.value.settings.loop ==>
      r.currentIndex == q.currentIndex + 1 && !r.isPlaying && !r.autoAdvancePending
  {
    if q.setlist.None? then q
    else
      var advanced := q.(autoAdvancePending := false, currentIndex := q.currentIndex + 1);
      if advanced.currentIndex >= |q.setlist.value.songs| then
        if q.setlist.value.settings.loop then PlayCurrent(advanced.(currentIndex := 0))
        else advanced.(isPlaying := false)
      else PlayCurrent(advanced)
  }

  /** `QueueManager.previous_song` (state part): nothing at the first position;
      otherwise cancel any auto-advance, step back one position and play, which
      schedules a new auto-advance exactly when the settings ask for one. Back
      from beyond the end there is no song to play, so nothing is scheduled. */
  function PreviousSong(q: QueueState): (r: QueueState)
    requires Valid(q)
    ensures Valid(r)
    ensures q.setlist.None? || q.currentIndex == 0 ==> r == q
    ensures q.setlist.Some? && q.currentIndex > 0 ==>
      r.currentIndex == q.currentIndex - 1 && r.setlist == q.setlist && r.shuffleOrder == q.shuffleOrder
    ensures q.setlist.Some? && 0 < q.currentIndex <= |q.setlist.value.songs| ==>
      r.isPlaying && r.autoAdvancePending == q.setlist.value.settings.autoAdvance
    ensures q.setlist.Some? && q.currentIndex > |q.setlist.value.songs| ==>
      r.isPlaying == q.isPlaying && !r.autoAdvancePending
  {
    if q.setlist.None? || q.currentIndex == 0 then q
    else PlayCurrent(q.(autoAdvancePending := false, currentIndex := q.currentIndex - 1))
  }

  /** `QueueManager.jump_to_song` (state part): an index outside the setlist is
      ignored; otherwise any auto-advance is cancelled, the cursor moves there
      exactly and playing starts, with a new auto-advance scheduled exactly when
      the settings ask for one. */
  function JumpToSong(q: QueueState, index: int): (r: QueueState)
    requires Valid(q)
    ensures Valid(r)
    ensures q.setlist.None? || index < 0 || index >= |q.setlist.value.songs| ==> r == q
    ensures q.setlist.Some? && 0 <= index < |q.setlist.value.songs| ==>
      r.currentIndex == index && r.isPlaying && r.setlist == q.setlist && r.shuffleOrder == q.shuffleOrder
      && r.autoAdvancePending == q.setlist.value.settings.autoAdvance
  {
    if q.setlist.None? || index < 0 || index >= |q.setlist.value.songs| then q
    else PlayCurrent(q.(autoAdvancePending := false, currentIndex := index))
  }

  /** `QueueManager.stop`: not playing, no auto-advance scheduled, cursor kept. */
  function Stop(q: QueueState): (r: QueueState)
    ensures !r.isPlaying && !r.autoAdvancePending
    ensures r.(isPlaying := q.isPlaying, autoAdvancePending := q.autoAdvancePending) == q
  {
    q.(isPlaying := false, autoAdvancePending := false)
  }

  /** The song `get_next_song` announces is the one `next_song` makes current. */
  lemma NextSongPlaysAnnouncedSong(q: QueueState)
    requires Valid(q)
    requires q.setlist.Some? ==> |q.setlist.value.songs| > 0 || !q.setlist.value.settings.loop
    ensures GetCurrentSong(NextSong(q)) == GetNextSong(q) || q.setlist.None?
  {
  }

  /** Likewise for `get_previous_song` and `previous_song`, from any position
      up to one past the end. */
  lemma PreviousSongPlaysAnnouncedSong(q: QueueState)
    requires Valid(q) && q.setlist.Some? && 0 < q.currentIndex <= |q.setlist.value.songs|
    ensures GetCurrentSong(PreviousSong(q)) == GetPreviousSong(q)
  {
  }

  /** Inside the setlist, previous and next undo each other. */
  lemma PreviousNextInverse(q: QueueState)
    requires Valid(q) && q.setlist.Some?
    ensures 0 < q.currentIndex < |q.setlist.value.songs| ==> NextSong(PreviousSong(q)).currentIndex == q.currentIndex
    ensures q.currentIndex + 1 < |q.setlist.value.songs| ==> PreviousSong(NextSong(q)).currentIndex == q.currentIndex
  {
  }

  /** Without looping, every further `next_song` past the end moves the cursor
      one more past the end, and the previous-song lookup then raises. */
  lemma NextSongRunsPastEnd(q: QueueState)
    requires Valid(q) && q.setlist.Some? && !q.setlist.value.settings.loop
    requires q.currentIndex >= |q.setlist.value.songs|
    ensures NextSong(q).currentIndex == q.currentIndex + 1 > |q.setlist.value.songs|
    ensures GetPreviousSong(NextSong(q)) == IndexError
  {
  }

  /** The image of the first `m` play positions under `order`. */
  ghost function Image(order: seq<int>, m: nat): set<int>
    requires m <= |order|
  {
    set i | 0 <= i < m :: order[i]
  }

  predicate InRange(k: int, n: int) {
    0 <= k < n
  }

  /** The indices 0..n-1. */
  ghost function Range(n: nat): set<int> {
    set k | 0 <= k < n && InRange(k, n)
  }

  lemma {:induction false} ImageSize(order: seq<int>, m: nat)
    requires m <= |order|
    requires forall i, j :: 0 <= i < j < |order| ==> order[i] != order[j]
    ensures |Image(order, m)| == m
  {
    if m > 0 {
      ImageSize(order, m - 1);
      assert Image(order, m) == Image(order, m - 1) + {order[m - 1]};
      assert order[m - 1] !in Image(order, m - 1);
    } else {
      assert Image(order, m) == {};
    }
  }

  lemma {:induction false} RangeSize(n: nat)
    ensures |Range(n)| == n
  {
    if n > 0 {
      RangeSize(n - 1);
      assert Range(n) == Range(n - 1) + {n - 1} by {
        assert forall k :: k in Range(n) <==> k in Range(n - 1) || k == n - 1 by {
          forall k
            ensures k in Range(n) <==> k in Range(n - 1) || k == n - 1
          {
            assert InRange(k, n) <==> InRange(k, n - 1) || k == n - 1;
          }
        }
      }
    } else {
      assert Range(n) == {};
    }
  }

  lemma SubsetSize(a: set<int>, b: set<int>)
    requires a <= b
    ensures |a| <= |b|
  {
    assert b == a + (b - a);
    assert a * (b - a) == {};
  }

  /** A permutation reaches every index: each of 0..n-1 is at some position. */
  lemma PermutationIsOnto(order: seq<int>, n: nat)
    requires IsPermutation(order, n)
    ensures forall k :: 0 <= k < n ==> k in Image(order, n)
  {
    var image := Image(order, n);
    ImageSize(order, n);
    RangeSize(n);
    assert image <= Range(n) by {
      forall k | k in image
        ensures k in Range(n)
      {
        var i :| 0 <= i < n && order[i] == k;
        assert InRange(k, n);
      }
    }
    forall k | 0 <= k < n
      ensures k in image
    {
      if k !in image {
        assert InRange(k, n);
        SubsetSize(image, Range(n) - {k});
      }
    }
  }

  /** The song indices one pass through the play positions reaches. */
  ghost function PlayedIndices(q: QueueState): set<int>
    requires Valid(q) && q.setlist.Some?
  {
    set i | 0 <= i < |q.setlist.value.songs| :: GetActualIndex(q, i).value
  }

  /** One pass through the play positions plays every song of the setlist, and
      no song twice, shuffled or not. */
  lemma PassPlaysEverySongOnce(q: QueueState)
    requires Valid(q) && q.setlist.Some?
    ensures forall k :: 0 <= k < |q.setlist.value.songs| ==> k in PlayedIndices(q)
    ensures forall i, j :: 0 <= i < j < |q.setlist.value.songs| ==> GetActualIndex(q, i) != GetActualIndex(q, j)
  {
    var n := |q.setlist.value.songs|;
    if q.shuffleOrder != [] {
      PermutationIsOnto(q.shuffleOrder, n);
      forall k | 0 <= k < n
        ensures k in PlayedIndices(q)
      {
        assert k in Image(q.shuffleOrder, n);
        var i :| 0 <= i < n && q.shuffleOrder[i] == k;
        assert GetActualIndex(q, i).value == k;
      }
    } else {
      forall k | 0 <= k < n
        ensures k in PlayedIndices(q)
      {
        assert GetActualIndex(q, k).value == k;
      }
    }
  }

  /** What `get_progress` reports. */
  datatype Progress = Progress(
    currentIndex: int,
    totalSongs: int,
    progressPercent: int,
    elapsedTime: real,
    totalTime: real,
    remainingSongs: int)

  /** `int((i / n) * 100)` for `n > 0` is the whole percentage: the largest
      `p` with `p * n <= 100 * i`. */
  lemma PercentIsFloor(i: nat, n: nat)
    requires n > 0
    ensures var p := Trunc((i as real / n as real) * 100.0);
      p * n <= 100 * i < (p + 1) * n
  {
    var x := (i as real / n as real) * 100.0;
    var p := Trunc(x);
    var nr := n as real;
    var mid := 100 * i;
    var lo := p * n;
    var hi := (p + 1) * n;
    var low := p as real * nr;
    var top := (p as real + 1.0) * nr;
    assert x * nr == mid as real;
    assert p as real <= x < p as real + 1.0;
    assert nr > 0.0;
    assert low <= x * nr by {
      var d := x - p as real;
      assert d >= 0.0;
      assert d * nr >= 0.0;
      assert x * nr - low == d * nr;
    }
    assert x * nr < top by {
      var d := p as real + 1.0 - x;
      assert d > 0.0;
      assert d * nr > 0.0;
      assert top - x * nr == d * nr;
    }
    assert lo as real == low;
    assert hi as real == top;
    assert lo as real <= mid as real;
    assert mid as real < hi as real;
  }

  /** `QueueManager.get_progress`: all zero without a setlist; otherwise the
      time before the current position (the songs before it in list order, plus
      one gap per song passed), the share of songs passed, the total running
      time and the songs still to come after the current one. */
  function GetProgress(q: QueueState): (r: Progress)
    ensures q.setlist.None? ==> r == Progress(0, 0, 0, 0.0, 0.0, 0)
    ensures q.setlist.Some? ==>
      && r.currentIndex == q.currentIndex
      && r.totalSongs == |q.setlist.value.songs|
      && r.totalTime == TotalDuration(q.setlist.value)
      && r.currentIndex + r.remainingSongs + 1 == r.totalSongs
    ensures q.setlist.Some? && |q.setlist.value.songs| == 0 ==> r.progressPercent == 0
    ensures q.setlist.Some? && |q.setlist.value.songs| > 0 ==>
      r.progressPercent * |q.setlist.value.songs| <= 100 * q.currentIndex
                                                 < (r.progressPercent + 1) * |q.setlist.value.songs|
  {
    if q.setlist.None? then Progress(0, 0, 0, 0.0, 0.0, 0)
    else
      var s := q.setlist.value;
      var n := |s.songs|;
      var passed := if q.currentIndex <= n then s.songs[..q.currentIndex] else s.songs;
      var percent := if n > 0 then Trunc((q.currentIndex as real / n as real) * 100.0) else 0;
      assert n > 0 ==> percent * n <= 100 * q.currentIndex < (percent + 1) * n by {
        if n > 0 {
          PercentIsFloor(q.currentIndex, n);
        }
      }
      Progress(
        q.currentIndex,
        n,
        percent,
        SumDurations(passed) + (q.currentIndex * s.settings.gapSeconds) as real,
        TotalDuration(s),
        n - q.currentIndex - 1)
  }

  /** Within the setlist the percentage lies in 0..99 and at least one song
      (the current one) remains. */
  lemma ProgressBounds(q: QueueState)
    requires q.setlist.Some? && q.currentIndex < |q.setlist.value.songs|
    ensures 0 <= GetProgress(q).progressPercent < 100
    ensures GetProgress(q).remainingSongs >= 0
  {
    var n := |q.setlist.value.songs|;
    var x := (q.currentIndex as real / n as real) * 100.0;
    assert 0.0 <= x < 100.0 by {
      assert q.currentIndex as real / n as real < 1.0;
    }
  }

  /** Past the end the report runs over: at least 100 percent, and a negative
      count of remaining songs below -1. */
  lemma ProgressPastEnd(q: QueueState)
    requires q.setlist.Some? && q.currentIndex > |q.setlist.value.songs| > 0
    ensures GetProgress(q).progressPercent >= 100
    ensures GetProgress(q).remainingSongs < -1
  {
    var n := |q.setlist.value.songs| as real;
    var ratio := q.currentIndex as real / n;
    assert ratio * n == q.currentIndex as real;
    assert ratio >= 1.0;
  }

  /** The elapsed time at position `i` inside the setlist is when song `i`
      starts in an uninterrupted run: the running time of the songs before it
      plus the gap that follows the last of them. */
  lemma ElapsedIsStartTime(q: QueueState)
    requires q.setlist.Some? && q.currentIndex <= |q.setlist.value.songs|
    ensures var s := q.setlist.value;
      GetProgress(q).elapsedTime
        == TotalDuration(s.(songs := s.songs[..q.currentIndex]))
         + (if q.currentIndex > 0 then s.settings.gapSeconds as real else 0.0)
  {
  }

  /** Past the end, without looping, the cursor keeps counting, and so does the
      elapsed time: every song, plus one gap per position passed. For a
      non-empty setlist that is its total running time plus the gaps after the
      last song, one per step past it. */
  lemma ElapsedPastEnd(q: QueueState)
    requires q.setlist.Some? && q.currentIndex >= |q.setlist.value.songs|
    ensures var s := q.setlist.value;
      GetProgress(q).elapsedTime == SumDurations(s.songs) + (q.currentIndex * s.settings.gapSeconds) as real
    ensures var s := q.setlist.value;
      |s.songs| > 0 ==>
        GetProgress(q).elapsedTime
          == TotalDuration(s) + ((q.currentIndex - |s.songs| + 1) * s.settings.gapSeconds) as real
  {
    var s := q.setlist.value;
    var n := |s.songs|;
    var g := s.settings.gapSeconds;
    assert s.songs[..n] == s.songs;
    if n > 0 {
      assert (n - 1) * g + (q.currentIndex - n + 1) * g == q.currentIndex * g;
    }
  }

  /** At one past the last song the elapsed time is the total running time plus
      one trailing gap. */
  lemma ElapsedAtEnd(q: QueueState)
    requires q.setlist.Some? && q.currentIndex == |q.setlist.value.songs| > 0
    ensures GetProgress(q).elapsedTime == GetProgress(q).totalTime + q.setlist.value.settings.gapSeconds as real
  {
    assert q.setlist.value.songs[..q.currentIndex] == q.setlist.value.songs;
  }
}
