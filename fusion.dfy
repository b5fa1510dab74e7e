/**
 * Turning the manifest into the manufacturing file (`generate_fusion_file`):
 * one CSV row per record, bucket by bucket in insertion order, each with a tag
 * name, the callsign, the class, the base and letter heights and an engraving
 * length; and one note line for every record that carries a note.
 */
module FusionFile {
  import opened PyText
  import opened Parameters
  import opened ManifestBuilder

  /** One data row of the manufacturing CSV; the two heights are counted in print layers. */
  datatype FusionRow = FusionRow(
    name: string,
    callsign: string,
    licenseClass: string,
    baseLayers: nat,
    letterLayers: nat,
    length: nat)

  /** The file line of the first data row: line 1 holds the header. */
  const FIRST_LINE: nat := 2

  /** The tag name `CALLSIGN_CLASS_COLOR`, with every space turned into an underscore. */
  function TagName(callsign: string, licenseClass: string, color: string): string
  {
    ReplaceSpaces(callsign + "_" + licenseClass + "_" + color)
  }

  /**
   * The engraving length: the callsign's width plus the start buffer, raised to
   * the known minimum of the capitalized class when there is one and it is larger.
   */
  function EngravingLength(callsign: string, licenseClass: string): (r: nat)
    ensures r >= CHAR_LENGTH * |callsign| + START_BUFFER
    ensures Capitalize(licenseClass) in KNOWN_LENGTHS ==> r >= KNOWN_LENGTHS[Capitalize(licenseClass)]
    ensures r == CHAR_LENGTH * |callsign| + START_BUFFER ||
      (Capitalize(licenseClass) in KNOWN_LENGTHS && r == KNOWN_LENGTHS[Capitalize(licenseClass)])
  {
    var length := CHAR_LENGTH * |callsign| + START_BUFFER;
    var capClass := Capitalize(licenseClass);
    if capClass in KNOWN_LENGTHS && length < KNOWN_LENGTHS[capClass] then KNOWN_LENGTHS[capClass]
    else length
  }

  /** The CSV row written for one record. */
  function RowFor(rec: Record): FusionRow
  {
    var callsign := Upper(rec.callsign);
    var licenseClass := Upper(rec.licenseClass);
    FusionRow(TagName(callsign, licenseClass, Upper(rec.color)), callsign, licenseClass,
              BASE_LAYERS, LETTER_LAYERS, EngravingLength(callsign, licenseClass))
  }

  function RowsFor(recs: seq<Record>): seq<FusionRow>
  {
    seq(|recs|, k requires 0 <= k < |recs| => RowFor(recs[k]))
  }

  /** The note line `Line N <name> : <note>`. */
  function NoteLine(line: nat, name: string, note: string): string
  {
    "Line " + Decimal(line) + " " + name + " : " + note
  }

  /** The note a record written on file line `line` contributes: one line if its note is not empty. */
  function NoteFor(rec: Record, line: nat): seq<string>
  {
    if rec.note != "" then [NoteLine(line, RowFor(rec).name, rec.note)] else []
  }

  /** The notes of records written from file line `first` on. */
  function NotesFor(recs: seq<Record>, first: nat): seq<string>
  {
    if recs == [] then []
    else NotesFor(recs[..|recs| - 1], first) + NoteFor(recs[|recs| - 1], first + |recs| - 1)
  }

  /** The positions of the records that carry a note, in increasing order. */
  function NoteIndices(recs: seq<Record>): (r: seq<nat>)
    ensures forall t :: 0 <= t < |r| ==> r[t] < |recs|
  {
    if recs == [] then []
    else
      var n := |recs| - 1;
      var prefix := recs[..n];
      NoteIndices(prefix) + (if recs[n].note != "" then [n] else [])
  }

  /**
   * The positions listed are exactly those of the records with a note, each
   * once and in increasing order.
   */
  lemma {:induction false} NoteIndicesExact(recs: seq<Record>)
    ensures forall t :: 0 <= t < |NoteIndices(recs)| ==> recs[NoteIndices(recs)[t]].note != ""
    ensures forall k :: 0 <= k < |recs| && recs[k].note != "" ==> k in NoteIndices(recs)
    ensures forall t, u :: 0 <= t < u < |NoteIndices(recs)| ==> NoteIndices(recs)[t] < NoteIndices(recs)[u]
  {
    if recs != [] {
      var n := |recs| - 1;
      var prefix := recs[..n];
      NoteIndicesExact(prefix);
      assert forall k :: 0 <= k < n ==> recs[k] == prefix[k];
    }
  }

  /** The note line of the record at position `k`, written on file line `first + k`. */
  function NoteAt(recs: seq<Record>, first: nat, k: nat): string
    requires k < |recs|
  {
    NoteLine(first + k, RowFor(recs[k]).name, recs[k].note)
  }

  lemma NotesForSnoc(recs: seq<Record>, rec: Record, first: nat)
    ensures NotesFor(recs + [rec], first) == NotesFor(recs, first) + NoteFor(rec, first + |recs|)
  {
    assert (recs + [rec])[..|recs|] == recs;
  }

  /** There is one note line per record that carries a note. */
  lemma {:induction false} NotesCount(recs: seq<Record>, first: nat)
    ensures |NotesFor(recs, first)| == |NoteIndices(recs)|
  {
    if recs != [] {
      NotesCount(recs[..|recs| - 1], first);
    }
  }

  /** The `t`-th note line belongs to the `t`-th record that carries a note. */
  lemma {:induction false} NoteAtIndex(recs: seq<Record>, first: nat, t: nat)
    requires t < |NoteIndices(recs)|
    ensures t < |NotesFor(recs, first)|
    ensures NotesFor(recs, first)[t] == NoteAt(recs, first, NoteIndices(recs)[t])
  {
    NotesCount(recs, first);
    var n := |recs| - 1;
    var prefix := recs[..n];
    NotesCount(prefix, first);
    var indices := NoteIndices(prefix);
    var last := NoteFor(recs[n], first + n);
    assert NotesFor(recs, first) == NotesFor(prefix, first) + last;
    assert NoteIndices(recs) == indices + (if recs[n].note != "" then [n] else []);
    if t < |indices| {
      NoteAtIndex(prefix, first, t);
      var k := indices[t];
      assert recs[k] == prefix[k];
      assert NoteAt(recs, first, k) == NoteAt(prefix, first, k);
      assert NotesFor(recs, first)[t] == NotesFor(prefix, first)[t];
    } else {
      assert NoteIndices(recs)[t] == n;
      assert NotesFor(recs, first)[t] == last[0];
    }
  }

  /**
   * The notes are exactly one line per record with a note, in record order,
   * each carrying that record's file line and tag name.
   */
  lemma NotesByIndex(recs: seq<Record>, first: nat)
    ensures |NotesFor(recs, first)| == |NoteIndices(recs)|
    ensures forall t :: 0 <= t < |NoteIndices(recs)| ==>
      NotesFor(recs, first)[t] == NoteAt(recs, first, NoteIndices(recs)[t])
  {
    NotesCount(recs, first);
    forall t | 0 <= t < |NoteIndices(recs)|
      ensures NotesFor(recs, first)[t] == NoteAt(recs, first, NoteIndices(recs)[t])
    {
      NoteAtIndex(recs, first, t);
    }
  }

  /** Reading a stored record's colour back and upper-casing it gives the bucket it sits in. */
  lemma RebindingHarmless(m: Manifest, color: string, id: Id)
    requires Valid(m) && color in m.buckets && id in m.buckets[color].records
    ensures Upper(m.buckets[color].records[id].color) == color
  {
    UpperOfNoLower(m.buckets[color].records[id].color);
  }

  lemma RowsForAppend(recs: seq<Record>, more: seq<Record>)
    ensures RowsFor(recs + more) == RowsFor(recs) + RowsFor(more)
  {
  }

  /** The notes of consecutive runs of records, written one run after the other. */
  lemma {:induction false} NotesForAppend(recs: seq<Record>, more: seq<Record>, first: nat)
    ensures NotesFor(recs + more, first) == NotesFor(recs, first) + NotesFor(more, first + |recs|)
    decreases |more|
  {
    if more != [] {
      var n := |more| - 1;
      var front, last := more[..n], more[n];
      assert more == front + [last];
      assert recs + more == (recs + front) + [last];
      NotesForSnoc(recs + front, last, first);
      NotesForSnoc(front, last, first + |recs|);
      NotesForAppend(recs, front, first);
      AppendAssoc(NotesFor(recs, first), NotesFor(front, first + |recs|),
                  NoteFor(last, first + |recs| + n));
    } else {
      assert recs + more == recs;
    }
  }

  lemma AppendAssoc<T>(a: seq<T>, b: seq<T>, c: seq<T>)
    ensures (a + b) + c == a + (b + c)
  {
  }

  lemma PrefixSnoc<T>(s: seq<T>, j: nat)
    requires j < |s|
    ensures s[..j + 1] == s[..j] + [s[j]]
  {
  }

  /**
   * Writing one more record, whose upper-cased colour is `color`, on file line
   * `line` extends the rows and the notes of the records written before it.
   */
  lemma WriteStep(done: seq<Record>, rec: Record, color: string, first: nat, line: nat,
                  rowsBefore: seq<FusionRow>, rows: seq<FusionRow>,
                  notesBefore: seq<string>, notes: seq<string>)
    requires Upper(rec.color) == color && line == first + |done|
    requires rows == rowsBefore + RowsFor(done) && notes == notesBefore + NotesFor(done, first)
    ensures var callsign, licenseClass := Upper(rec.callsign), Upper(rec.licenseClass);
      var name := TagName(callsign, licenseClass, color);
      && rows + [FusionRow(name, callsign, licenseClass, BASE_LAYERS, LETTER_LAYERS,
                           EngravingLength(callsign, licenseClass))] == rowsBefore + RowsFor(done + [rec])
      && notes + (if rec.note != "" then [NoteLine(line, name, rec.note)] else []) ==
         notesBefore + NotesFor(done + [rec], first)
  {
    RowsForAppend(done, [rec]);
    AppendAssoc(rowsBefore, RowsFor(done), [RowFor(rec)]);
    assert (done + [rec])[..|done|] == done;
    AppendAssoc(notesBefore, NotesFor(done, first), NoteFor(rec, line));
  }

  /** The records of the first `i + 1` buckets are those of the first `i` followed by bucket `i`'s. */
  lemma EntriesOfNext(m: Manifest, i: nat)
    requires Valid(m) && i < |m.colors|
    ensures EntriesOf(m, m.colors[..i + 1]) ==
      EntriesOf(m, m.colors[..i]) + BucketRecords(m.buckets[m.colors[i]])
  {
    assert m.colors[..i + 1][..i] == m.colors[..i];
  }

  /**
   * The inner loop over one colour bucket: appends a row for each of its
   * records and a note for each record with a note, counting file lines from `line`.
   */
  method WriteBucket(m: Manifest, bucketColor: string, line: nat, rows: seq<FusionRow>, notes: seq<string>)
    returns (rows': seq<FusionRow>, notes': seq<string>, line': nat)
    requires Valid(m) && bucketColor in m.buckets
    ensures rows' == rows + RowsFor(BucketRecords(m.buckets[bucketColor]))
    ensures notes' == notes + NotesFor(BucketRecords(m.buckets[bucketColor]), line)
    ensures line' == line + |m.buckets[bucketColor].ids|
  {
    var bucket := m.buckets[bucketColor];
    ghost var recs := BucketRecords(bucket);
    var color := bucketColor;
    rows', notes', line' := rows, notes, line;
    var j := 0;
    while j < |bucket.ids|
      invariant 0 <= j <= |bucket.ids|
      invariant color == bucketColor
      invariant line' == line + j
      invariant rows' == rows + RowsFor(recs[..j])
      invariant notes' == notes + NotesFor(recs[..j], line)
    {
      var id := bucket.ids[j];
      // The script rebinds the loop's colour to the record's own colour here.
      RebindingHarmless(m, color, id);
      color := Upper(m.buckets[color].records[id].color);
      var rec := m.buckets[color].records[id];
      var callsign := Upper(rec.callsign);
      var licenseClass := Upper(rec.licenseClass);
      var name := TagName(callsign, licenseClass, color);
      var length := EngravingLength(callsign, licenseClass);
      WriteStep(recs[..j], rec, color, line, line', rows, rows', notes, notes');
      if rec.note != "" {
        notes' := notes' + [NoteLine(line', name, rec.note)];
      }
      rows' := rows' + [FusionRow(name, callsign, licenseClass, BASE_LAYERS, LETTER_LAYERS, length)];
      PrefixSnoc(recs, j);
      line' := line' + 1;
      j := j + 1;
    }
    assert recs[..|bucket.ids|] == recs;
  }

  /** The notes after one more bucket are those of all records written so far. */
  lemma NotesAfterBucket(notesBefore: seq<string>, done: seq<Record>, recs: seq<Record>,
                         notes: seq<string>, notes': seq<string>)
    requires notes == notesBefore + NotesFor(done, FIRST_LINE)
    requires notes' == notes + NotesFor(recs, FIRST_LINE + |done|)
    ensures notes' == notesBefore + NotesFor(done + recs, FIRST_LINE)
  {
    var earlier, later := NotesFor(done, FIRST_LINE), NotesFor(recs, FIRST_LINE + |done|);
    NotesForAppend(done, recs, FIRST_LINE);
    AppendAssoc(notesBefore, earlier, later);
  }

  /**
   * The file rows and the notes the script produces for the manifest `m`;
   * the notes are appended to those gathered before.
   */
  method GenerateFusion(m: Manifest, notesBefore: seq<string>) returns (rows: seq<FusionRow>, notes: seq<string>)
    requires Valid(m)
    ensures rows == RowsFor(Entries(m))
    ensures notes == notesBefore + NotesFor(Entries(m), FIRST_LINE)
  {
    rows, notes := [], notesBefore;
    var line := FIRST_LINE;
    var i := 0;
    ghost var done: seq<Record> := [];
    while i < |m.colors|
      invariant 0 <= i <= |m.colors|
      invariant done == EntriesOf(m, m.colors[..i])
      invariant line == FIRST_LINE + |done|
      invariant rows == RowsFor(done)
      invariant notes == notesBefore + NotesFor(done, FIRST_LINE)
    {
      ghost var recs := BucketRecords(m.buckets[m.colors[i]]);
      EntriesOfNext(m, i);
      RowsForAppend(done, recs);
      ghost var notesBeforeBucket := notes;
      rows, notes, line := WriteBucket(m, m.colors[i], line, rows, notes);
      NotesAfterBucket(notesBefore, done, recs, notesBeforeBucket, notes);
      done := done + recs;
      i := i + 1;
    }
    assert m.colors[..|m.colors|] == m.colors;
  }

  /**
   * The tag name has one character per character of its parts plus the two
   * underscores, contains no space, and is the parts with spaces replaced, joined by "_".
   */
  lemma TagNameShape(callsign: string, licenseClass: string, color: string)
    ensures |TagName(callsign, licenseClass, color)| == |callsign| + |licenseClass| + |color| + 2
    ensures ' ' !in TagName(callsign, licenseClass, color)
    ensures TagName(callsign, licenseClass, color) ==
      ReplaceSpaces(callsign) + "_" + ReplaceSpaces(licenseClass) + "_" + ReplaceSpaces(color)
  {
    var a := callsign + "_";
    var b := a + licenseClass;
    var c := b + "_";
    assert ReplaceSpaces("_") == "_";
    ReplaceSpacesAppend(callsign, "_");
    ReplaceSpacesAppend(a, licenseClass);
    ReplaceSpacesAppend(b, "_");
    ReplaceSpacesAppend(c, color);
    assert TagName(callsign, licenseClass, color) == ReplaceSpaces(c + color);
  }

  /** Every class with a known minimum length is written in title case. */
  lemma KnownClassesAreTitles(licenseClass: string)
    requires licenseClass in KNOWN_LENGTHS
    ensures IsTitle(licenseClass)
  {
    var tail := licenseClass[1..];
    assert licenseClass == "Novice" ==> tail == "ovice";
    assert licenseClass == "Technician" ==> tail == "echnician";
    assert licenseClass == "General" ==> tail == "eneral";
    assert licenseClass == "Advanced" ==> tail == "dvanced";
    assert licenseClass == "Extra" ==> tail == "xtra";
  }

  /**
   * A row whose class, after the alias, has a known minimum length is engraved
   * at least that long: the stored class upper-cases it and the length check
   * capitalizes it back.
   */
  lemma KnownMinimumApplies(callsign: string, rawClass: string, rawColor: string, note: string)
    requires NormalizeClass(rawClass) in KNOWN_LENGTHS
    ensures RowFor(Prepare(callsign, rawClass, rawColor, note).rec).length >=
      KNOWN_LENGTHS[NormalizeClass(rawClass)]
    ensures RowFor(Prepare(callsign, rawClass, rawColor, note).rec).length >=
      CHAR_LENGTH * |callsign| + START_BUFFER
  {
    var licenseClass := NormalizeClass(rawClass);
    KnownClassesAreTitles(licenseClass);
    CapitalizeOfUpper(licenseClass);
    UpperIdempotent(licenseClass);
    UpperIdempotent(callsign);
  }

  /**
   * The row written for a stored record carries the record's fields unchanged
   * (they are upper-case already) and its bucket's colour in the tag name.
   */
  lemma RowOfStoredRecord(m: Manifest, color: string, id: Id)
    requires Valid(m) && color in m.buckets && id in m.buckets[color].records
    ensures var rec := m.buckets[color].records[id];
      RowFor(rec) == FusionRow(TagName(rec.callsign, rec.licenseClass, color), rec.callsign,
        rec.licenseClass, BASE_LAYERS, LETTER_LAYERS, EngravingLength(rec.callsign, rec.licenseClass))
  {
    var rec := m.buckets[color].records[id];
    UpperOfNoLower(rec.callsign);
    UpperOfNoLower(rec.licenseClass);
    UpperOfNoLower(rec.color);
  }
}
