/** The sync engine: fed the playback position, it tracks the entry and section
    sounding there and a 4/4 beat counter, and reports each change as an event
    to whichever listeners are registered. */
module Sync {
  import opened Wrappers
  import opened Json
  import opened Songs

  /** Which of the three callbacks are registered. */
  datatype Listeners = Listeners(onEntry: bool, onSection: bool, onBeat: bool)

  /** A callback invocation, in the order `update` makes them. */
  datatype Event =
    | EntryChanged(entry: TaggedEntry)
    | SectionChanged(section: Section)
    | Beat(number: int)

  /** The engine's state; `beat` is the zero-based counter, shown one-based. */
  datatype Engine = Engine(
    song: Song,
    position: real,
    entry: Option<TaggedEntry>,
    section: Option<Section>,
    beat: int,
    lastBeatTime: real,
    listeners: Listeners)

  /** The result of `update`: the new state and the callbacks made, in order.
      `raised` is set when the beat step raised because the song's BPM is not a
      non-zero number (the position, entry and section are already updated then). */
  datatype Step = Step(engine: Engine, events: seq<Event>, raised: bool)

  /** The beat counter stays within one bar of 4/4. */
  predicate Valid(e: Engine) {
    0 <= e.beat < 4
  }

  /** `SyncEngine.__init__`: at position 0, nothing current, first beat, no listeners. */
  function NewEngine(song: Song): (r: Engine)
    ensures Valid(r) && GetCurrentBeat(r) == 1
    ensures r.song == song
    ensures r.entry.None? && r.section.None? && r.position == 0.0 && r.lastBeatTime == 0.0
    ensures r.listeners == Listeners(false, false, false)
  {
    Engine(song, 0.0, None, None, 0, 0.0, Listeners(false, false, false))
  }

  /** The song's BPM as Python divides by it: numbers as they are, booleans as
      0 and 1, anything else a type error. */
  function BpmValue(bpm: Json): Option<real> {
    match bpm
    case JNum(n) => Some(n)
    case JBool(b) => Some(if b then 1.0 else 0.0)
    case _ => None
  }

  /** Seconds per beat, `60 / bpm`; `None` where the division raises. */
  function BeatDuration(song: Song): (r: Option<real>)
    ensures r.Some? <==> BpmValue(song.bpm).Some? && BpmValue(song.bpm).value != 0.0
    ensures r.Some? ==> r.value * BpmValue(song.bpm).value == 60.0
  {
    match BpmValue(song.bpm)
    case None => None
    case Some(bpm) => if bpm == 0.0 then None else Some(60.0 / bpm)
  }

  /** `SyncEngine._update_beat`: once at least a beat's duration has passed since
      the last beat, the counter advances by one (mod 4) and the new one-based
      beat number is reported. */
  function UpdateBeat(e: Engine, position: real): (r: Step)
    requires Valid(e)
    ensures Valid(r.engine)
    ensures r.raised <==> BeatDuration(e.song).None?
    ensures r.engine.(beat := e.beat, lastBeatTime := e.lastBeatTime) == e
    ensures forall k :: 0 <= k < |r.events| ==> r.events[k].Beat?
    ensures !r.raised && position - e.lastBeatTime >= BeatDuration(e.song).value ==>
      && r.engine.lastBeatTime == position
      && r.engine.beat == (e.beat + 1) % 4
      && r.events == (if e.listeners.onBeat then [Beat(GetCurrentBeat(r.engine))] else [])
    ensures (r.raised || position - e.lastBeatTime < BeatDuration(e.song).value) ==>
      r.engine == e && r.events == []
  {
    match BeatDuration(e.song)
    case None => Step(e, [], true)
    case Some(duration) =>
      if position - e.lastBeatTime >= duration then
        var beat := (e.beat + 1) % 4;
        Step(e.(lastBeatTime := position, beat := beat), if e.listeners.onBeat then [Beat(beat + 1)] else [], false)
      else Step(e, [], false)
  }

  /** The events of an update are at most one entry event, then at most one
      section event, then at most one beat event: each kind has its one place. */
  lemma EventsLayout(entryEvents: seq<Event>, sectionEvents: seq<Event>, beatEvents: seq<Event>)
    requires |entryEvents| <= 1 && |sectionEvents| <= 1 && |beatEvents| <= 1
    requires forall k :: 0 <= k < |entryEvents| ==> entryEvents[k].EntryChanged?
    requires forall k :: 0 <= k < |sectionEvents| ==> sectionEvents[k].SectionChanged?
    requires forall k :: 0 <= k < |beatEvents| ==> beatEvents[k].Beat?
    ensures var events := entryEvents + sectionEvents + beatEvents;
      && |events| <= 3
      && (forall k :: 0 <= k < |events| && events[k].EntryChanged? ==> k == 0 && events[k] == entryEvents[0])
      && (forall k :: 0 <= k < |events| && events[k].SectionChanged? ==>
            k == |entryEvents| && events[k] == sectionEvents[0])
      && ((exists k :: 0 <= k < |events| && events[k].EntryChanged?) <==> |entryEvents| > 0)
      && ((exists k :: 0 <= k < |events| && events[k].SectionChanged?) <==> |sectionEvents| > 0)
  {
    var events := entryEvents + sectionEvents + beatEvents;
    assert |entryEvents| > 0 ==> events[0] == entryEvents[0];
    assert |sectionEvents| > 0 ==> events[|entryEvents|] == sectionEvents[0];
    assert forall k :: |entryEvents| <= k < |entryEvents| + |sectionEvents| ==> events[k] == sectionEvents[k - |entryEvents|];
    assert forall k :: |entryEvents| + |sectionEvents| <= k < |events| ==> events[k] == beatEvents[k - |entryEvents| - |sectionEvents|];
  }

  /** `SyncEngine.update`: store the position; look up the entry and section at
      it and, for each that differs from the stored one, store it and report it
      when a listener is registered and it is not `None`; then step the beat:
      at most one beat event, reported last, exactly when a beat's duration has
      passed since the last beat and a beat listener is registered. */
  function Update(e: Engine, position: real): (r: Step)
    requires Valid(e)
    ensures Valid(r.engine)
    ensures r.engine.position == position
    ensures r.engine.entry == EntryAt(e.song.sections, position)
    ensures r.engine.section == SectionAt(e.song.sections, position)
    ensures r.engine.song == e.song && r.engine.listeners == e.listeners
    ensures (exists k :: 0 <= k < |r.events| && r.events[k].EntryChanged?)
      <==> e.listeners.onEntry && r.engine.entry.Some? && r.engine.entry != e.entry
    ensures forall k :: 0 <= k < |r.events| && r.events[k].EntryChanged? ==> r.engine.entry == Some(r.events[k].entry)
    ensures (exists k :: 0 <= k < |r.events| && r.events[k].SectionChanged?)
      <==> e.listeners.onSection && r.engine.section.Some? && r.engine.section != e.section
    ensures forall k :: 0 <= k < |r.events| && r.events[k].SectionChanged? ==> r.engine.section == Some(r.events[k].section)
    ensures forall k :: 0 <= k < |r.events| && r.events[k].EntryChanged? ==> k == 0
    ensures forall k :: 0 <= k < |r.events| && r.events[k].SectionChanged? ==>
      k == (if e.listeners.onEntry && r.engine.entry.Some? && r.engine.entry != e.entry then 1 else 0)
    ensures |r.events| <= 3
  {
    var entry := EntryAt(e.song.sections, position);
    var section := SectionAt(e.song.sections, position);
    var entryEvents := if entry != e.entry && e.listeners.onEntry && entry.Some? then [EntryChanged(entry.value)] else [];
    var sectionEvents := if section != e.section && e.listeners.onSection && section.Some? then [SectionChanged(section.value)] else [];
    var beat := UpdateBeat(e.(position := position, entry := entry, section := section), position);
    var events := entryEvents + sectionEvents + beat.events;
    EventsLayout(entryEvents, sectionEvents, beat.events);
    Step(beat.engine, events, beat.raised)
  }

  /** The beat step of an update: it raises exactly when the BPM is not a
      non-zero number; otherwise, once a beat's duration has passed since the
      last beat, the counter advances by one (mod 4) and the last-beat time
      becomes the position, and else both stay. At most one beat event is
      reported, after the others, exactly when the beat advanced and a beat
      listener is registered, and it carries the beat then shown. */
  lemma UpdateBeatStep(e: Engine, position: real)
    requires Valid(e)
    ensures var r := Update(e, position);
      && (r.raised <==> BeatDuration(e.song).None?)
      && (!r.raised && position - e.lastBeatTime >= BeatDuration(e.song).value ==>
            r.engine.beat == (e.beat + 1) % 4 && r.engine.lastBeatTime == position)
      && ((r.raised || position - e.lastBeatTime < BeatDuration(e.song).value) ==>
            r.engine.beat == e.beat && r.engine.lastBeatTime == e.lastBeatTime)
      && ((exists k :: 0 <= k < |r.events| && r.events[k].Beat?)
            <==> e.listeners.onBeat && !r.raised && position - e.lastBeatTime >= BeatDuration(e.song).value)
      && (forall k :: 0 <= k < |r.events| && r.events[k].Beat? ==>
            k == |r.events| - 1 && r.events[k].number == GetCurrentBeat(r.engine))
  {
    var entry := EntryAt(e.song.sections, position);
    var section := SectionAt(e.song.sections, position);
    var beat := UpdateBeat(e.(position := position, entry := entry, section := section), position);
    var r := Update(e, position);
    var before := |r.events| - |beat.events|;
    assert r.events[before..] == beat.events;
    assert forall k :: 0 <= k < before ==> !r.events[k].Beat?;
    assert |beat.events| > 0 ==> r.events[before] == beat.events[0];
  }

  /** An update repeated at the same position, with a positive BPM, changes
      nothing and reports nothing. */
  lemma UpdateIdempotent(e: Engine, position: real)
    requires Valid(e)
    requires BpmValue(e.song.bpm).Some? && BpmValue(e.song.bpm).value > 0.0
    ensures Update(Update(e, position).engine, position).engine == Update(e, position).engine
    ensures Update(Update(e, position).engine, position).events == []
  {
    var d := BeatDuration(e.song).value;
    assert d > 0.0 by {
      var bpm := BpmValue(e.song.bpm).value;
      assert d * bpm == 60.0;
    }
  }

  /** The engine holds the caller's `Song` object itself, so a change made to
      that song afterwards (a new transpose, BPM or key) is what the engine's
      next update reads: the engine continues with the changed song and
      everything else it stored. */
  function SetSong(e: Engine, song: Song): (r: Engine)
    ensures r.song == song && r.(song := e.song) == e
    ensures Valid(e) ==> Valid(r)
  {
    e.(song := song)
  }

  /** A transpose made while the engine is caught up at a position shows at the
      next update there: when it changes the chord text of the entry sounding
      at that position, the changed entry is reported first, and it becomes
      the current entry. */
  lemma TransposeSeenByNextUpdate(e: Engine, position: real, n: int)
    requires Valid(e) && e.listeners.onEntry
    requires e.entry == EntryAt(e.song.sections, position)
    requires var now := EntryAt(SetTranspose(e.song, n).sections, position);
      && e.entry.Some? && now.Some? && now.value.entry.chords != e.entry.value.entry.chords
    ensures var now := EntryAt(SetTranspose(e.song, n).sections, position);
      var r := Update(SetSong(e, SetTranspose(e.song, n)), position);
      && |r.events| > 0 && r.events[0] == EntryChanged(now.value)
      && r.engine.entry == now
  {
    var now := EntryAt(SetTranspose(e.song, n).sections, position);
    var r := Update(SetSong(e, SetTranspose(e.song, n)), position);
    assert now != e.entry;
    var k :| 0 <= k < |r.events| && r.events[k].EntryChanged?;
    assert k == 0;
  }

  /** With a negative BPM the beat duration is negative, so every update that
      does not move back before the last beat, even one at the same position,
      advances the beat. */
  lemma NegativeBpmBeatsEveryUpdate(e: Engine, position: real)
    requires Valid(e) && position >= e.lastBeatTime
    requires BpmValue(e.song.bpm).Some? && BpmValue(e.song.bpm).value < 0.0
    ensures Update(e, position).engine.beat == (e.beat + 1) % 4
    ensures Update(Update(e, position).engine, position).engine.beat == (e.beat + 2) % 4
  {
    var d := BeatDuration(e.song).value;
    assert d < 0.0 by {
      var bpm := BpmValue(e.song.bpm).value;
      assert d * bpm == 60.0;
    }
  }

  /** Four beat steps bring the counter back to where it started. */
  lemma {:induction false} BarWrapsAfterFourBeats(e: Engine, p1: real, p2: real, p3: real, p4: real)
    requires Valid(e) && BeatDuration(e.song).Some?
    requires var d := BeatDuration(e.song).value;
      p1 - e.lastBeatTime >= d && p2 - p1 >= d && p3 - p2 >= d && p4 - p3 >= d
    ensures UpdateBeat(UpdateBeat(UpdateBeat(UpdateBeat(e, p1).engine, p2).engine, p3).engine, p4).engine.beat == e.beat
  {
    var e1 := UpdateBeat(e, p1).engine;
    var e2 := UpdateBeat(e1, p2).engine;
    var e3 := UpdateBeat(e2, p3).engine;
    assert e1.song == e.song && e2.song == e.song && e3.song == e.song;
    assert e3.beat == (e.beat + 3) % 4;
  }

  /** The setters for the three callbacks. */
  function SetOnEntryChange(e: Engine, registered: bool): (r: Engine)
    ensures r.listeners.onEntry == registered && r.(listeners := e.listeners) == e
    ensures r.listeners.onSection == e.listeners.onSection && r.listeners.onBeat == e.listeners.onBeat
  {
    e.(listeners := e.listeners.(onEntry := registered))
  }

  function SetOnSectionChange(e: Engine, registered: bool): (r: Engine)
    ensures r.listeners.onSection == registered && r.(listeners := e.listeners) == e
    ensures r.listeners.onEntry == e.listeners.onEntry && r.listeners.onBeat == e.listeners.onBeat
  {
    e.(listeners := e.listeners.(onSection := registered))
  }

  function SetOnBeat(e: Engine, registered: bool): (r: Engine)
    ensures r.listeners.onBeat == registered && r.(listeners := e.listeners) == e
    ensures r.listeners.onEntry == e.listeners.onEntry && r.listeners.onSection == e.listeners.onSection
  {
    e.(listeners := e.listeners.(onBeat := registered))
  }

  /** `get_current_beat`: the beat number shown, 1 to 4. */
  function GetCurrentBeat(e: Engine): (r: int)
    requires Valid(e)
    ensures 1 <= r <= 4
  {
    e.beat + 1
  }

  /** The beat a beat event reports is the one the engine shows afterwards. */
  lemma BeatEventMatchesDisplay(e: Engine, position: real)
    requires Valid(e)
    ensures forall k :: 0 <= k < |Update(e, position).events| && Update(e, position).events[k].Beat? ==>
      Update(e, position).events[k].number == GetCurrentBeat(Update(e, position).engine)
  {
  }

  /** `SyncEngine.reset`: back to the state of a new engine on the same song; the
      registered callbacks stay. */
  function Reset(e: Engine): (r: Engine)
    ensures r == NewEngine(e.song).(listeners := e.listeners)
  {
    e.(position := 0.0, entry := None, section := None, beat := 0, lastBeatTime := 0.0)
  }

  /** Entries of one section starting within `[from, to]`, tagged with its name. */
  function EntriesStartingIn(entries: seq<Entry>, from: real, to: real, name: string): (r: seq<TaggedEntry>)
    ensures forall k :: 0 <= k < |r| ==> r[k].section == name && r[k].entry in entries && from <= r[k].entry.startTime <= to
    ensures forall x :: x in entries && from <= x.startTime <= to ==> TaggedEntry(x, name) in r
  {
    if |entries| == 0 then []
    else
      var rest := EntriesStartingIn(entries[1..], from, to, name);
      assert forall x :: x in entries ==> x == entries[0] || x in entries[1..];
      (if from <= entries[0].startTime <= to then [TaggedEntry(entries[0], name)] else []) + rest
  }

  /** The scan of `get_upcoming_entries`: it stops at the first section that
      starts after the window and skips sections that ended before it. */
  function ScanUpcoming(sections: seq<Section>, from: real, to: real): seq<TaggedEntry> {
    if |sections| == 0 || sections[0].startTime > to then []
    else if sections[0].endTime < from then ScanUpcoming(sections[1..], from, to)
    else EntriesStartingIn(sections[0].entries, from, to, sections[0].name) + ScanUpcoming(sections[1..], from, to)
  }

  /** The window `get_upcoming_entries` looks ahead when the caller gives none. */
  const DefaultLookahead: real := 5.0

  /** `SyncEngine.get_upcoming_entries`: the entries starting within
      `[position, position + lookahead]`; for sections in time order, all of
      them, in order. */
  function GetUpcomingEntries(e: Engine, lookahead: real): (r: seq<TaggedEntry>)
    ensures forall k :: 0 <= k < |r| ==> e.position <= r[k].entry.startTime <= e.position + lookahead
    ensures Ordered(e.song.sections) ==> r == AllStartingIn(e.song.sections, e.position, e.position + lookahead)
  {
    UpcomingSound(e.song.sections, e.position, e.position + lookahead);
    assert Ordered(e.song.sections) ==>
      ScanUpcoming(e.song.sections, e.position, e.position + lookahead)
        == AllStartingIn(e.song.sections, e.position, e.position + lookahead) by {
      if Ordered(e.song.sections) {
        UpcomingComplete(e.song.sections, e.position, e.position + lookahead);
      }
    }
    ScanUpcoming(e.song.sections, e.position, e.position + lookahead)
  }

  /** Reference definition: every entry of every section that starts within the
      window, in order, with no early stop. */
  function AllStartingIn(sections: seq<Section>, from: real, to: real): seq<TaggedEntry> {
    if |sections| == 0 then []
    else EntriesStartingIn(sections[0].entries, from, to, sections[0].name) + AllStartingIn(sections[1..], from, to)
  }

  /** Sections in order of start time, each entry starting inside its section. */
  ghost predicate Ordered(sections: seq<Section>) {
    && (forall i, j :: 0 <= i < j < |sections| ==> sections[i].startTime <= sections[j].startTime)
    && (forall i, x :: 0 <= i < |sections| && x in sections[i].entries ==>
          sections[i].startTime <= x.startTime <= sections[i].endTime)
  }

  lemma {:induction false} NoneStartIn(entries: seq<Entry>, from: real, to: real, name: string)
    requires forall x :: x in entries ==> !(from <= x.startTime <= to)
    ensures EntriesStartingIn(entries, from, to, name) == []
  {
    if |entries| > 0 {
      NoneStartIn(entries[1..], from, to, name);
    }
  }

  lemma {:induction false} AllStartAfter(sections: seq<Section>, from: real, to: real)
    requires Ordered(sections) && |sections| > 0 && sections[0].startTime > to
    ensures AllStartingIn(sections, from, to) == []
  {
    NoneStartIn(sections[0].entries, from, to, sections[0].name);
    if |sections| > 1 {
      assert Ordered(sections[1..]) by {
        forall i, x | 0 <= i < |sections[1..]| && x in sections[1..][i].entries
          ensures sections[1..][i].startTime <= x.startTime <= sections[1..][i].endTime
        {
          assert sections[1..][i] == sections[i + 1];
        }
      }
      AllStartAfter(sections[1..], from, to);
    }
  }

  /** For sections in time order whose entries start inside them, the early stop
      and the skip lose nothing: the upcoming entries are exactly the entries,
      in order, that start within the window. */
  lemma {:induction false} UpcomingComplete(sections: seq<Section>, from: real, to: real)
    requires Ordered(sections)
    ensures ScanUpcoming(sections, from, to) == AllStartingIn(sections, from, to)
  {
    if |sections| > 0 {
      if sections[0].startTime > to {
        AllStartAfter(sections, from, to);
      } else {
        assert Ordered(sections[1..]) by {
          forall i, x | 0 <= i < |sections[1..]| && x in sections[1..][i].entries
            ensures sections[1..][i].startTime <= x.startTime <= sections[1..][i].endTime
          {
            assert sections[1..][i] == sections[i + 1];
          }
        }
        UpcomingComplete(sections[1..], from, to);
        if sections[0].endTime < from {
          NoneStartIn(sections[0].entries, from, to, sections[0].name);
        }
      }
    }
  }

  /** Every upcoming entry starts within the window and is an entry of a section
      of the song carrying that section's name. */
  lemma {:induction false} UpcomingSound(sections: seq<Section>, from: real, to: real)
    ensures forall k :: 0 <= k < |ScanUpcoming(sections, from, to)| ==>
      var t := ScanUpcoming(sections, from, to)[k];
      from <= t.entry.startTime <= to
      && exists i :: 0 <= i < |sections| && sections[i].name == t.section && t.entry in sections[i].entries
  {
    if |sections| > 0 && sections[0].startTime <= to {
      UpcomingSound(sections[1..], from, to);
      var r := ScanUpcoming(sections, from, to);
      var rest := ScanUpcoming(sections[1..], from, to);
      forall k | 0 <= k < |r|
        ensures from <= r[k].entry.startTime <= to
        ensures exists i :: 0 <= i < |sections| && sections[i].name == r[k].section && r[k].entry in sections[i].entries
      {
        if sections[0].endTime < from || k >= |r| - |rest| {
          var k' := k - (|r| - |rest|);
          assert r[k] == rest[k'];
          var i :| 0 <= i < |sections[1..]| && sections[1..][i].name == rest[k'].section && rest[k'].entry in sections[1..][i].entries;
          assert sections[i + 1] == sections[1..][i];
        } else {
          assert 0 <= 0 < |sections|;
        }
      }
    }
  }
}
