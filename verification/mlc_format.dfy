/** The song-file (`.mlc`) structure check and the empty-file template. The
    check looks for required keys only, in a fixed order, and reports the first
    one missing; it does not look at value types beyond `sections` being a list. */
module MlcFormat {
  import opened Wrappers
  import opened Text
  import opened Json

  /** The format version written into new files. */
  const Version: string := "1.0.0"

  const MetaFields: seq<string> := ["title", "bpm", "key", "duration"]
  const SectionFields: seq<string> := ["name", "start_time", "end_time", "entries"]
  const EntryFields: seq<string> := ["start_time", "end_time"]

  /** The first problem found, one case per message the check can return. */
  datatype ValidationError =
    | MissingVersion
    | MissingMeta
    | MissingMetaField(field: string)
    | MissingSections
    | SectionsNotList
    | SectionMissing(index: nat, field: string)
    | EntryMissing(section: nat, entry: nat, field: string)

  /** The outcome of the check: valid, the first problem, or a Python exception
      (`TypeError` from `in`, subscripting or iterating a value of the wrong type). */
  datatype Validation = Valid | Invalid(error: ValidationError) | Raises

  /** The message text `validate_mlc_data` returns for each problem. */
  function Message(e: ValidationError): string {
    match e
    case MissingVersion => "Missing '" + "version" + "' field"
    case MissingMeta => "Missing '" + "meta" + "' field"
    case MissingMetaField(f) => "Missing required meta field: " + f + ""
    case MissingSections => "Missing '" + "sections" + "' field"
    case SectionsNotList => "'sections' must be a " + "list" + ""
    case SectionMissing(i, f) => "Section " + IntToString(i) + " missing '" + f + "'"
    case EntryMissing(i, j, f) => "Section " + IntToString(i) + ", entry " + IntToString(j) + " missing '" + f + "'"
  }

  /** The word each message is about: the missing key, or "list" for a
      `sections` value that is not a list. */
  function Subject(e: ValidationError): string {
    match e
    case MissingVersion => "version"
    case MissingMeta => "meta"
    case MissingMetaField(f) => f
    case MissingSections => "sections"
    case SectionsNotList => "list"
    case SectionMissing(_, f) => f
    case EntryMissing(_, _, f) => f
  }

  lemma {:induction false} ContainsAfter(a: string, k: string, b: string)
    ensures Contains(a + k + b, k)
  {
    if |a| == 0 {
      assert a + k + b == k + b;
      assert k <= k + b;
    } else {
      assert (a + k + b)[1..] == a[1..] + k + b;
      ContainsAfter(a[1..], k, b);
    }
  }

  /** Every message names what it is about. */
  lemma MessageNamesSubject(e: ValidationError)
    ensures Contains(Message(e), Subject(e))
  {
    match e
    case MissingVersion =>
      ContainsAfter("Missing '", "version", "' field");
    case MissingMeta =>
      ContainsAfter("Missing '", "meta", "' field");
    case MissingMetaField(f) =>
      ContainsAfter("Missing required meta field: ", f, "");
    case MissingSections =>
      ContainsAfter("Missing '", "sections", "' field");
    case SectionsNotList =>
      ContainsAfter("'sections' must be a ", "list", "");
    case SectionMissing(i, f) =>
      ContainsAfter("Section " + IntToString(i) + " missing '", f, "'");
    case EntryMissing(i, j, f) =>
      ContainsAfter("Section " + IntToString(i) + ", entry " + IntToString(j) + " missing '", f, "'");
  }

  /** The first of `fields` that `container` lacks, `Some(None)` when it has
      them all; `None` when `in` raises, which it does on the first field
      already when the container is not a dict, list or string. */
  function FirstMissing(container: Json, fields: seq<string>): (r: Option<Option<string>>)
    ensures r.None? <==> |fields| > 0 && PyContains(container, fields[0]).None?
    ensures r == Some(None) <==> forall k :: 0 <= k < |fields| ==> PyContains(container, fields[k]) == Some(true)
    ensures r.Some? && r.value.Some? ==>
      exists k :: && 0 <= k < |fields| && fields[k] == r.value.value
                  && PyContains(container, fields[k]) == Some(false)
                  && forall j :: 0 <= j < k ==> PyContains(container, fields[j]) == Some(true)
  {
    if |fields| == 0 then Some(None)
    else match PyContains(container, fields[0])
      case None => None
      case Some(false) => Some(Some(fields[0]))
      case Some(true) =>
        var r := FirstMissing(container, fields[1..]);
        assert forall k :: 1 <= k < |fields| ==> fields[k] == fields[1..][k - 1];
        assert r.Some? && r.value.Some? ==>
          exists k :: && 0 <= k < |fields| && fields[k] == r.value.value
                      && PyContains(container, fields[k]) == Some(false)
                      && forall j :: 0 <= j < k ==> PyContains(container, fields[j]) == Some(true) by {
          if r.Some? && r.value.Some? {
            var k :| && 0 <= k < |fields[1..]| && fields[1..][k] == r.value.value
                     && PyContains(container, fields[1..][k]) == Some(false)
                     && forall j :: 0 <= j < k ==> PyContains(container, fields[1..][j]) == Some(true);
            assert fields[k + 1] == r.value.value;
          }
        }
        r
  }

  /** The entry check, over the entries of section `i` from index `j` on (the
      index `enumerate` gives): the problem reported is the first missing key
      of the first entry that lacks one, and every entry before it has both keys. */
  function CheckEntries(entries: seq<Json>, i: nat, j: nat): (r: Validation)
    ensures r.Invalid? ==> r.error.EntryMissing? && r.error.section == i
    ensures r.Invalid? ==> j <= r.error.entry < |entries| && r.error.field in EntryFields
    ensures r.Invalid? ==> PyContains(entries[r.error.entry], r.error.field) == Some(false)
    ensures r.Invalid? ==> FirstMissing(entries[r.error.entry], EntryFields) == Some(Some(r.error.field))
    ensures r.Invalid? ==> forall k :: j <= k < r.error.entry ==> FirstMissing(entries[k], EntryFields) == Some(None)
    decreases |entries| - j
  {
    if j >= |entries| then Valid
    else match FirstMissing(entries[j], EntryFields)
      case None => Raises
      case Some(Some(f)) => Invalid(EntryMissing(i, j, f))
      case Some(None) => CheckEntries(entries, i, j + 1)
  }

  /** Entry `k`, at or after `j`, is the first whose keys cannot be looked up
      (`in` raises on it), and every entry from `j` up to it has both keys. */
  ghost predicate EntryRaisesAt(entries: seq<Json>, j: nat, k: int) {
    && j <= k < |entries| && FirstMissing(entries[k], EntryFields).None?
    && forall m :: j <= m < k ==> FirstMissing(entries[m], EntryFields) == Some(None)
  }

  /** The entry check raises exactly when `in` raises on an entry and every
      entry before it has both keys. */
  lemma {:induction false} CheckEntriesRaises(entries: seq<Json>, i: nat, j: nat)
    ensures CheckEntries(entries, i, j).Raises? <==> exists k :: EntryRaisesAt(entries, j, k)
    decreases |entries| - j
  {
    if j < |entries| {
      match FirstMissing(entries[j], EntryFields)
      case None =>
        assert EntryRaisesAt(entries, j, j);
      case Some(Some(f)) =>
        forall k | j <= k < |entries| ensures !EntryRaisesAt(entries, j, k) {
          assert FirstMissing(entries[j], EntryFields) != Some(None);
        }
      case Some(None) =>
        var next := j + 1;
        CheckEntriesRaises(entries, i, next);
        if exists k :: EntryRaisesAt(entries, next, k) {
          var k :| EntryRaisesAt(entries, next, k);
          assert EntryRaisesAt(entries, j, k);
        }
        if exists k :: EntryRaisesAt(entries, j, k) {
          var k :| EntryRaisesAt(entries, j, k);
          assert EntryRaisesAt(entries, next, k);
        }
    }
  }

  /** The check of section number `i`: its four keys, then its entries; an
      entry problem is reported only when the section has all four keys. */
  function CheckSection(section: Json, i: nat): (r: Validation)
    ensures r.Invalid? && r.error.SectionMissing? ==> r.error.index == i && r.error.field in SectionFields
    ensures r.Invalid? && r.error.SectionMissing? ==> PyContains(section, r.error.field) == Some(false)
    ensures r.Invalid? && r.error.SectionMissing? ==> FirstMissing(section, SectionFields) == Some(Some(r.error.field))
    ensures r.Invalid? && r.error.EntryMissing? ==>
      && FirstMissing(section, SectionFields) == Some(None)
      && PySubscript(section, "entries").Some? && PyIter(PySubscript(section, "entries").value).Some?
    ensures r.Invalid? ==> r.error.SectionMissing? || (r.error.EntryMissing? && r.error.section == i)
    ensures FirstMissing(section, SectionFields).Some? && FirstMissing(section, SectionFields).value.Some? ==>
      r == Invalid(SectionMissing(i, FirstMissing(section, SectionFields).value.value))
    ensures r.Raises? <==>
      || FirstMissing(section, SectionFields).None?
      || (&& FirstMissing(section, SectionFields) == Some(None)
          && (|| PySubscript(section, "entries").None?
              || PyIter(PySubscript(section, "entries").value).None?
              || CheckEntries(PyIter(PySubscript(section, "entries").value).value, i, 0).Raises?))
  {
    match FirstMissing(section, SectionFields)
    case None => Raises
    case Some(Some(f)) => Invalid(SectionMissing(i, f))
    case Some(None) =>
      match PySubscript(section, "entries")
      case None => Raises
      case Some(entries) =>
        match PyIter(entries)
        case None => Raises
        case Some(items) => CheckEntries(items, i, 0)
  }

  /** The section check, over the sections from index `i` on; stops at the first problem. */
  function CheckSections(sections: seq<Json>, i: nat): (r: Validation)
    ensures r.Invalid? ==> r.error.SectionMissing? || r.error.EntryMissing?
    ensures r.Invalid? && r.error.SectionMissing? ==> i <= r.error.index < i + |sections|
    ensures r.Invalid? && r.error.SectionMissing? ==> PyContains(sections[r.error.index - i], r.error.field) == Some(false)
    ensures r.Invalid? && r.error.EntryMissing? ==> i <= r.error.section < i + |sections|
  {
    if |sections| == 0 then Valid
    else
      var here := CheckSection(sections[0], i);
      if here.Valid? then CheckSections(sections[1..], i + 1) else here
  }

  /** The number of the section a section or entry problem is in. */
  function SectionOf(e: ValidationError): nat
    requires e.SectionMissing? || e.EntryMissing?
  {
    if e.SectionMissing? then e.index else e.section
  }

  /** Index `m` of the sections after the first is index `m + 1` of all of them. */
  lemma SectionAfterFirst(sections: seq<Json>, m: nat)
    requires m + 1 < |sections|
    ensures sections[1..][m] == sections[m + 1]
  {
  }

  /** A prefix passes when its first section passes and the rest of it does. */
  lemma PrefixPasses(sections: seq<Json>, i: nat, m: nat)
    requires m + 1 <= |sections|
    requires CheckSection(sections[0], i).Valid?
    requires CheckSections(sections[1..][..m], i + 1).Valid?
    ensures CheckSections(sections[..m + 1], i).Valid?
  {
    var before := sections[..m + 1];
    assert before[0] == sections[0];
    assert before[1..] == sections[1..][..m];
  }

  /** What the section check reports when it fails: a problem of a section in
      range, that section's own outcome, with every section before it passing. */
  ghost predicate ReportsFirst(sections: seq<Json>, i: nat) {
    var r := CheckSections(sections, i);
    r.Invalid? ==>
      && i <= SectionOf(r.error) < i + |sections|
      && CheckSection(sections[SectionOf(r.error) - i], SectionOf(r.error)) == r
      && CheckSections(sections[..SectionOf(r.error) - i], i).Valid?
  }

  /** The section check reports the first section with a problem: the problem
      reported is that section's own, and the sections before it pass. */
  lemma {:induction false} CheckSectionsFirst(sections: seq<Json>, i: nat)
    ensures ReportsFirst(sections, i)
  {
    if |sections| > 0 {
      if CheckSection(sections[0], i).Valid? {
        CheckSectionsFirst(sections[1..], i + 1);
        LaterProblem(sections, i);
      } else {
        HeadProblem(sections, i);
      }
    }
  }

  /** When the first section does not pass, its outcome is the one reported. */
  lemma HeadProblem(sections: seq<Json>, i: nat)
    requires |sections| > 0 && !CheckSection(sections[0], i).Valid?
    ensures ReportsFirst(sections, i)
  {
    var r := CheckSections(sections, i);
    assert r == CheckSection(sections[0], i);
    if r.Invalid? {
      assert SectionOf(r.error) == i;
      assert sections[..0] == [];
    }
  }

  /** When the first section passes, the problem reported is the one the rest
      of the sections report, one index further on. */
  lemma LaterProblem(sections: seq<Json>, i: nat)
    requires |sections| > 0 && CheckSection(sections[0], i).Valid?
    requires ReportsFirst(sections[1..], i + 1)
    ensures ReportsFirst(sections, i)
  {
    var r := CheckSections(sections[1..], i + 1);
    assert CheckSections(sections, i) == r;
    if r.Invalid? {
      var m := SectionOf(r.error) - (i + 1);
      SectionAfterFirst(sections, m);
      PrefixPasses(sections, i, m);
    }
  }

  /** `MLCFormat.validate_mlc_data`, in its order: version, meta, the four meta
      fields, sections present, sections a list, then each section's keys and
      each of its entries' keys. The first problem decides the outcome, so a
      missing version is reported whatever else is missing, and each later
      problem only once every earlier check has passed. */
  function Validate(data: JsonObject): (r: Validation)
    ensures r == Invalid(MissingVersion) <==> !HasKey(data, "version")
    ensures r == Invalid(MissingMeta) <==> HasKey(data, "version") && !HasKey(data, "meta")
    ensures && HasKey(data, "version") && HasKey(data, "meta")
            && FirstMissing(Get(data, "meta").value, MetaFields).Some?
            && FirstMissing(Get(data, "meta").value, MetaFields).value.Some? ==>
      r == Invalid(MissingMetaField(FirstMissing(Get(data, "meta").value, MetaFields).value.value))
    ensures r.Invalid? && r.error.MissingMetaField? ==>
      && HasKey(data, "version") && HasKey(data, "meta")
      && exists k :: && 0 <= k < |MetaFields| && MetaFields[k] == r.error.field
                     && PyContains(Get(data, "meta").value, MetaFields[k]) == Some(false)
                     && forall j :: 0 <= j < k ==> PyContains(Get(data, "meta").value, MetaFields[j]) == Some(true)
    ensures r == Invalid(MissingSections) <==>
      && HasKey(data, "version") && HasKey(data, "meta") && HasAll(Get(data, "meta").value, MetaFields)
      && !HasKey(data, "sections")
    ensures r == Invalid(SectionsNotList) <==>
      && HasKey(data, "version") && HasKey(data, "meta") && HasAll(Get(data, "meta").value, MetaFields)
      && HasKey(data, "sections") && !Get(data, "sections").value.JArr?
    ensures r.Invalid? && (r.error.SectionMissing? || r.error.EntryMissing?) ==>
      && HasKey(data, "version") && HasKey(data, "meta") && HasAll(Get(data, "meta").value, MetaFields)
      && HasKey(data, "sections") && Get(data, "sections").value.JArr?
      && r == CheckSections(Get(data, "sections").value.items, 0)
    ensures r.Raises? <==>
      && HasKey(data, "version") && HasKey(data, "meta")
      && (|| FirstMissing(Get(data, "meta").value, MetaFields).None?
          || (&& HasAll(Get(data, "meta").value, MetaFields)
              && HasKey(data, "sections") && Get(data, "sections").value.JArr?
              && CheckSections(Get(data, "sections").value.items, 0).Raises?))
  {
    if !HasKey(data, "version") then Invalid(MissingVersion)
    else if !HasKey(data, "meta") then Invalid(MissingMeta)
    else match FirstMissing(Get(data, "meta").value, MetaFields)
      case None => Raises
      case Some(Some(f)) => Invalid(MissingMetaField(f))
      case Some(None) =>
        if !HasKey(data, "sections") then Invalid(MissingSections)
        else match Get(data, "sections").value
          case JArr(sections) => CheckSections(sections, 0)
          case _ => Invalid(SectionsNotList)
  }

  /** The `(is_valid, error_message)` pair `validate_mlc_data` returns; `None`
      when it raises. The flag is set exactly for a well-formed file, and the
      message, present exactly when the flag is clear, is the first problem's. */
  function ValidateMlcData(data: JsonObject): (r: Option<(bool, Option<string>)>)
    ensures r.None? <==> Validate(data).Raises?
    ensures r.Some? ==> (r.value.0 <==> r.value.1.None?)
    ensures r.Some? ==> (r.value.0 <==> Validate(data).Valid?)
    ensures r.Some? ==> (r.value.0 <==> WellFormedMlc(data))
    ensures r.Some? && !r.value.0 ==> r.value.1 == Some(Message(Validate(data).error))
    ensures r.Some? && !r.value.0 ==> Validate(data).Invalid? && Contains(r.value.1.value, Subject(Validate(data).error))
  {
    ValidateAcceptsWellFormed(data);
    match Validate(data)
    case Valid => Some((true, None))
    case Raises => None
    case Invalid(e) =>
      MessageNamesSubject(e);
      Some((false, Some(Message(e))))
  }

  /** A file whose meta has a title but no BPM is reported as missing the BPM,
      whatever its sections hold. */
  lemma MissingBpmReported(data: JsonObject, meta: JsonObject)
    requires HasKey(data, "version") && Get(data, "meta") == Some(JObj(meta))
    requires HasKey(meta, "title") && !HasKey(meta, "bpm")
    ensures ValidateMlcData(data) == Some((false, Some("Missing required meta field: bpm")))
  {
    assert MetaFields[1..][1..] == ["key", "duration"];
    assert FirstMissing(JObj(meta), MetaFields[1..]) == Some(Some("bpm"));
    assert FirstMissing(JObj(meta), MetaFields) == Some(Some("bpm"));
    assert Validate(data) == Invalid(MissingMetaField("bpm"));
    assert Message(MissingMetaField("bpm")) == "Missing required meta field: bpm";
  }

  /** A file whose first section has a name but no start time is reported as
      section 0 missing `start_time`, whatever follows it. */
  lemma SectionStartTimeReported(data: JsonObject, section: JsonObject, rest: seq<Json>)
    requires HasKey(data, "version") && HasKey(data, "meta") && HasAll(Get(data, "meta").value, MetaFields)
    requires Get(data, "sections") == Some(JArr([JObj(section)] + rest))
    requires HasKey(section, "name") && !HasKey(section, "start_time")
    ensures ValidateMlcData(data) == Some((false, Some("Section 0 missing 'start_time'")))
  {
    var sections := [JObj(section)] + rest;
    StartTimeFirstMissing(section);
    assert CheckSection(sections[0], 0) == Invalid(SectionMissing(0, "start_time"));
    assert CheckSections(sections, 0) == Invalid(SectionMissing(0, "start_time"));
    ValidateReachesSections(data);
    SectionMessage();
  }

  lemma StartTimeFirstMissing(section: JsonObject)
    requires HasKey(section, "name") && !HasKey(section, "start_time")
    ensures FirstMissing(JObj(section), SectionFields) == Some(Some("start_time"))
  {
    assert SectionFields[1..][1..] == ["end_time", "entries"];
    assert FirstMissing(JObj(section), SectionFields[1..]) == Some(Some("start_time"));
  }

  /** Once the top-level keys are all there, the outcome is the section check's. */
  lemma ValidateReachesSections(data: JsonObject)
    requires HasKey(data, "version") && HasKey(data, "meta") && HasAll(Get(data, "meta").value, MetaFields)
    requires HasKey(data, "sections") && Get(data, "sections").value.JArr?
    ensures Validate(data) == CheckSections(Get(data, "sections").value.items, 0)
  {
    assert FirstMissing(Get(data, "meta").value, MetaFields) == Some(None);
  }

  lemma SectionMessage()
    ensures Message(SectionMissing(0, "start_time")) == "Section 0 missing 'start_time'"
  {
    assert IntToString(0) == "0";
  }

  /** Reference definition of a file the check accepts, key by key. */
  ghost predicate HasAll(container: Json, fields: seq<string>) {
    forall k :: 0 <= k < |fields| ==> PyContains(container, fields[k]) == Some(true)
  }

  ghost predicate EntryOk(entry: Json) {
    HasAll(entry, EntryFields)
  }

  ghost predicate SectionOk(section: Json) {
    && HasAll(section, SectionFields)
    && PySubscript(section, "entries").Some?
    && PyIter(PySubscript(section, "entries").value).Some?
    && forall e :: e in PyIter(PySubscript(section, "entries").value).value ==> EntryOk(e)
  }

  ghost predicate WellFormedMlc(data: JsonObject) {
    && HasKey(data, "version")
    && HasKey(data, "meta")
    && HasAll(Get(data, "meta").value, MetaFields)
    && HasKey(data, "sections")
    && Get(data, "sections").value.JArr?
    && forall s :: s in Get(data, "sections").value.items ==> SectionOk(s)
  }

  lemma {:induction false} CheckEntriesValid(entries: seq<Json>, i: nat, j: nat)
    ensures CheckEntries(entries, i, j).Valid? <==> forall k :: j <= k < |entries| ==> EntryOk(entries[k])
    decreases |entries| - j
  {
    if j < |entries| {
      CheckEntriesValid(entries, i, j + 1);
      assert EntryOk(entries[j]) <==> FirstMissing(entries[j], EntryFields) == Some(None);
    }
  }

  lemma CheckSectionValid(section: Json, i: nat)
    ensures CheckSection(section, i).Valid? <==> SectionOk(section)
  {
    if HasAll(section, SectionFields) && PySubscript(section, "entries").Some?
      && PyIter(PySubscript(section, "entries").value).Some? {
      var items := PyIter(PySubscript(section, "entries").value).value;
      CheckEntriesValid(items, i, 0);
      assert (forall k :: 0 <= k < |items| ==> EntryOk(items[k])) <==> forall e :: e in items ==> EntryOk(e);
    }
  }

  lemma {:induction false} CheckSectionsValid(sections: seq<Json>, i: nat)
    ensures CheckSections(sections, i).Valid? <==> forall s :: s in sections ==> SectionOk(s)
  {
    if |sections| > 0 {
      CheckSectionValid(sections[0], i);
      CheckSectionsValid(sections[1..], i + 1);
      assert forall s :: s in sections ==> s == sections[0] || s in sections[1..];
    }
  }

  /** The check accepts exactly the files that have every required key at every level. */
  lemma ValidateAcceptsWellFormed(data: JsonObject)
    ensures Validate(data).Valid? <==> WellFormedMlc(data)
  {
    if HasKey(data, "version") && HasKey(data, "meta") && HasAll(Get(data, "meta").value, MetaFields)
      && HasKey(data, "sections") && Get(data, "sections").value.JArr? {
      CheckSectionsValid(Get(data, "sections").value.items, 0);
    }
  }

  /** The values `create_empty_mlc` uses for an argument the caller leaves out. */
  const DefaultTitle: string := "Untitled"
  const DefaultArtist: string := "Unknown"
  const DefaultBpm: int := 120
  const DefaultKey: string := "C"
  const DefaultTimeSignature: string := "4/4"

  /** `MLCFormat.create_empty_mlc`: a file with the current version, the given
      fields, defaults for the rest, and no sections. */
  function CreateEmptyMlc(title: string, artist: string, bpm: int, key: string, timeSignature: string): (r: JsonObject)
    ensures Get(r, "version") == Some(JStr(Version))
    ensures Get(r, "sections") == Some(JArr([]))
    ensures Get(r, "meta") == Some(JObj(EmptyMeta(title, artist, bpm, key, timeSignature)))
  {
    var r := [("version", JStr(Version)),
              ("meta", JObj(EmptyMeta(title, artist, bpm, key, timeSignature))),
              ("sections", JArr([]))];
    GetFirst(r, 0, "version");
    GetFirst(r, 1, "meta");
    GetFirst(r, 2, "sections");
    r
  }

  function EmptyMeta(title: string, artist: string, bpm: int, key: string, timeSignature: string): JsonObject {
    [("title", JStr(title)),
     ("artist", JStr(artist)),
     ("album", JStr("")),
     ("year", JNull),
     ("genre", JStr("")),
     ("bpm", JNum(bpm as real)),
     ("key", JStr(key)),
     ("time_signature", JStr(timeSignature)),
     ("transpose", JNum(0.0)),
     ("capo", JNum(0.0)),
     ("duration", JNum(0.0)),
     ("audio_file", JNull),
     ("prefer_notation", JStr("sharp"))]
  }

  /** An empty file carries the caller's title and artist ... */
  lemma EmptyMetaNames(title: string, artist: string, bpm: int, key: string, timeSignature: string)
    ensures Get(EmptyMeta(title, artist, bpm, key, timeSignature), "title") == Some(JStr(title))
    ensures Get(EmptyMeta(title, artist, bpm, key, timeSignature), "artist") == Some(JStr(artist))
  {
    var m := EmptyMeta(title, artist, bpm, key, timeSignature);
    GetFirst(m, 0, "title");
    GetFirst(m, 1, "artist");
  }

  /** ... its BPM and key ... */
  lemma EmptyMetaMusic(title: string, artist: string, bpm: int, key: string, timeSignature: string)
    ensures Get(EmptyMeta(title, artist, bpm, key, timeSignature), "bpm") == Some(JNum(bpm as real))
    ensures Get(EmptyMeta(title, artist, bpm, key, timeSignature), "key") == Some(JStr(key))
  {
    var m := EmptyMeta(title, artist, bpm, key, timeSignature);
    GetFirst(m, 5, "bpm");
    GetFirst(m, 6, "key");
  }

  /** ... and its time signature. */
  lemma EmptyMetaTimeSignature(title: string, artist: string, bpm: int, key: string, timeSignature: string)
    ensures Get(EmptyMeta(title, artist, bpm, key, timeSignature), "time_signature") == Some(JStr(timeSignature))
  {
    GetFirst(EmptyMeta(title, artist, bpm, key, timeSignature), 7, "time_signature");
  }

  /** Called with no arguments, `create_empty_mlc` writes an untitled song by
      an unknown artist at 120 BPM in C, in 4/4. */
  lemma DefaultEmptyMeta()
    ensures var m := EmptyMeta(DefaultTitle, DefaultArtist, DefaultBpm, DefaultKey, DefaultTimeSignature);
      && Get(m, "title") == Some(JStr("Untitled")) && Get(m, "artist") == Some(JStr("Unknown"))
      && Get(m, "bpm") == Some(JNum(120.0)) && Get(m, "key") == Some(JStr("C"))
      && Get(m, "time_signature") == Some(JStr("4/4"))
  {
    EmptyMetaNames(DefaultTitle, DefaultArtist, DefaultBpm, DefaultKey, DefaultTimeSignature);
    EmptyMetaMusic(DefaultTitle, DefaultArtist, DefaultBpm, DefaultKey, DefaultTimeSignature);
    EmptyMetaTimeSignature(DefaultTitle, DefaultArtist, DefaultBpm, DefaultKey, DefaultTimeSignature);
  }

  /** An empty file passes the check, whatever the arguments. */
  lemma EmptyMlcIsValid(title: string, artist: string, bpm: int, key: string, timeSignature: string)
    ensures Validate(CreateEmptyMlc(title, artist, bpm, key, timeSignature)) == Valid
  {
    var m := EmptyMeta(title, artist, bpm, key, timeSignature);
    assert m[0].0 == "title" && m[5].0 == "bpm" && m[6].0 == "key" && m[10].0 == "duration";
    assert HasAll(JObj(m), MetaFields);
    var r := CreateEmptyMlc(title, artist, bpm, key, timeSignature);
    assert r[0].0 == "version" && r[1].0 == "meta" && r[2].0 == "sections";
  }
}
