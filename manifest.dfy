/**
 * Building the manifest from roster rows (`build_manifest`): each row is
 * skipped, rejected or turned into a record, and the record is inserted into a
 * two-level dictionary, colour bucket -> ID -> record, where a repeated ID is a
 * duplicate and is discarded.
 *
 * Python dictionaries keep insertion order, so each dictionary is modelled as
 * the sequence of its keys in insertion order together with a map.
 */
module ManifestBuilder {
  import opened PyText
  import opened Parameters

  datatype Option<T> = None | Some(value: T)

  /** One stored roster entry. */
  datatype Record = Record(callsign: string, licenseClass: string, color: string, note: string)

  /**
   * A record's ID. The script takes the MD5 digest of the key string; the model
   * keeps the key string itself, that is, it treats the hash as injective.
   */
  type Id = string

  /** A colour bucket: the dictionary from ID to record, with its keys in insertion order. */
  datatype Bucket = Bucket(ids: seq<Id>, records: map<Id, Record>)

  /** The manifest: the dictionary from colour to bucket, with its keys in insertion order. */
  datatype Manifest = Manifest(colors: seq<string>, buckets: map<string, Bucket>)

  const EMPTY: Manifest := Manifest([], map[])

  /** A roster row as the CSV reader yields it: its cells, in column order. */
  type Row = seq<string>

  predicate Distinct<T(==)>(s: seq<T>)
  {
    forall i, j :: 0 <= i < j < |s| ==> s[i] != s[j]
  }

  /** The string whose digest is the ID: the three fields upper-cased, with no separator. */
  function KeyOf(callsign: string, licenseClass: string, color: string): Id
  {
    Upper(callsign) + Upper(licenseClass) + Upper(color)
  }

  /** The key string of a stored record, whose fields are already upper-case. */
  function IdOf(r: Record): Id
  {
    r.callsign + r.licenseClass + r.color
  }

  /** A record stored under `id` in the bucket for `color`. */
  ghost predicate ValidEntry(color: string, id: Id, r: Record)
  {
    && r.color == color
    && NoLower(r.callsign) && NoLower(r.licenseClass) && NoLower(r.color)
    && id == IdOf(r)
  }

  ghost predicate ValidBucket(color: string, b: Bucket)
  {
    && Distinct(b.ids)
    && (forall id :: id in b.ids <==> id in b.records)
    && forall id :: id in b.records ==> ValidEntry(color, id, b.records[id])
  }

  /**
   * The manifest's invariant: keys are unique at both levels, the key order
   * lists exactly the keys present, and every record is upper-case, sits under
   * the bucket of its own colour and under the ID of its own fields.
   */
  ghost predicate Valid(m: Manifest)
  {
    && Distinct(m.colors)
    && (forall c :: c in m.colors <==> c in m.buckets)
    && forall c :: c in m.buckets ==> ValidBucket(c, m.buckets[c])
  }

  /** `rec` is stored under `id` in the bucket for `color`. */
  ghost predicate StoredIn(m: Manifest, color: string, id: Id, rec: Record)
  {
    color in m.buckets && id in m.buckets[color].records && m.buckets[color].records[id] == rec
  }

  /** What one roster row asks of the manifest. */
  datatype RowAction =
    | TooShort                                  // indexing the row raises IndexError
    | Ignore                                    // blank name or already completed
    | Insert(color: string, id: Id, rec: Record)

  /** What processing one row did. */
  datatype Outcome =
    | IndexError
    | Skipped
    | Duplicate(color: string, id: Id)
    | Added(color: string, id: Id)

  /** The colour a blank colour cell defaults to, looked up by the raw class. */
  function DefaultColor(rawClass: string): string
  {
    if rawClass in STANDARD_COLORS then STANDARD_COLORS[rawClass] else FALLBACK_COLOR
  }

  /** The class after the alias table. */
  function NormalizeClass(rawClass: string): string
  {
    if rawClass in LEVEL_OVERRIDES then LEVEL_OVERRIDES[rawClass] else rawClass
  }

  /** The bucket colour of a row: its own colour, or the default, upper-cased. */
  function StoredColor(rawClass: string, rawColor: string): string
  {
    Upper(if rawColor == "" then DefaultColor(rawClass) else rawColor)
  }

  /** The entry a kept row produces. */
  function Prepare(callsign: string, rawClass: string, rawColor: string, note: string): RowAction
  {
    var color := StoredColor(rawClass, rawColor);
    var licenseClass := NormalizeClass(rawClass);
    Insert(color, KeyOf(callsign, licenseClass, color),
           Record(Upper(callsign), Upper(licenseClass), Upper(color), note))
  }

  /**
   * Reads a row in the script's order: the name cell first (a row without one
   * raises), then the completed flag, then the data cells.
   */
  function Classify(row: Row): RowAction
  {
    if |row| <= COL_NAME then TooShort
    else if row[COL_NAME] == "" then Ignore
    else if |row| <= COL_COMPLETED then TooShort
    else if Upper(row[COL_COMPLETED]) == COMPLETED_MARK then Ignore
    else Prepare(row[COL_CALLSIGN], row[COL_LICENSE_CLASS], row[COL_COLOR], row[COL_NOTES])
  }

  /** Adds `rec` under `id` at the end of the bucket for `color`, opening the bucket if needed. */
  function Place(m: Manifest, color: string, id: Id, rec: Record): Manifest
  {
    if color in m.buckets then
      var b := m.buckets[color];
      m.(buckets := m.buckets[color := Bucket(b.ids + [id], b.records[id := rec])])
    else
      Manifest(m.colors + [color], m.buckets[color := Bucket([id], map[id := rec])])
  }

  datatype Step = Step(manifest: Manifest, outcome: Outcome)

  /** The effect of one row on the manifest. */
  function ApplyRow(m: Manifest, row: Row): Step
  {
    match Classify(row)
    case TooShort => Step(m, IndexError)
    case Ignore => Step(m, Skipped)
    case Insert(color, id, rec) =>
      if color in m.buckets && id in m.buckets[color].records then Step(m, Duplicate(color, id))
      else Step(Place(m, color, id, rec), Added(color, id))
  }

  /** The manifest after the rows, up to the first row that raises. */
  function BuildFrom(m: Manifest, rows: seq<Row>): Manifest
    decreases |rows|
  {
    if rows == [] then m
    else
      var s := ApplyRow(m, rows[0]);
      if s.outcome == IndexError then m else BuildFrom(s.manifest, rows[1..])
  }

  /** The index of the first row that raises, if any. */
  function FirstTooShort(rows: seq<Row>): (r: Option<nat>)
    ensures r.None? ==> forall i :: 0 <= i < |rows| ==> !Classify(rows[i]).TooShort?
    ensures r.Some? ==> r.value < |rows| && Classify(rows[r.value]).TooShort?
    ensures r.Some? ==> forall i :: 0 <= i < r.value ==> !Classify(rows[i]).TooShort?
  {
    if rows == [] then None
    else if Classify(rows[0]).TooShort? then Some(0)
    else match FirstTooShort(rows[1..])
      case None => None
      case Some(k) => Some(k + 1)
  }

  /** The records in iteration order: bucket by bucket, each in insertion order. */
  function BucketRecords(b: Bucket): seq<Record>
    requires forall id :: id in b.ids ==> id in b.records
  {
    seq(|b.ids|, k requires 0 <= k < |b.ids| => b.records[b.ids[k]])
  }

  function EntriesOf(m: Manifest, cs: seq<string>): seq<Record>
    requires Valid(m)
    requires forall c :: c in cs ==> c in m.buckets
  {
    if cs == [] then []
    else EntriesOf(m, cs[..|cs| - 1]) + BucketRecords(m.buckets[cs[|cs| - 1]])
  }

  function Entries(m: Manifest): seq<Record>
    requires Valid(m)
  {
    EntriesOf(m, m.colors)
  }

  /**
   * The global manifest of the script, updated in place row by row.
   */
  class ManifestStore {
    var colors: seq<string>
    var buckets: map<string, Bucket>

    function Value(): Manifest
      reads this
    {
      Manifest(colors, buckets)
    }

    constructor ()
      ensures Value() == EMPTY
    {
      colors := [];
      buckets := map[];
    }

    /** One iteration of the row loop. */
    method AddRow(row: Row) returns (outcome: Outcome)
      requires Valid(Value())
      modifies this
      ensures Valid(Value())
      ensures ApplyRow(old(Value()), row) == Step(Value(), outcome)
    {
      if |row| <= COL_NAME {
        return IndexError;
      }
      if row[COL_NAME] == "" {
        return Skipped;
      }
      if |row| <= COL_COMPLETED {
        return IndexError;
      }
      if Upper(row[COL_COMPLETED]) == COMPLETED_MARK {
        return Skipped;
      }
      var callsign := row[COL_CALLSIGN];
      var licenseClass := row[COL_LICENSE_CLASS];
      var color := row[COL_COLOR];
      var note := row[COL_NOTES];
      if color == "" {
        color := DefaultColor(licenseClass);
      }
      licenseClass := NormalizeClass(licenseClass);
      color := Upper(color);
      var id := Upper(callsign) + Upper(licenseClass) + Upper(color);
      var rec := Record(Upper(callsign), Upper(licenseClass), Upper(color), note);
      KeptRowPrepares(row);
      assert Prepare(row[COL_CALLSIGN], row[COL_LICENSE_CLASS], row[COL_COLOR], note) == Insert(color, id, rec);
      PreparedEntryValid(row[COL_CALLSIGN], row[COL_LICENSE_CLASS], row[COL_COLOR], note);
      outcome := Store(color, id, rec);
    }

    /**
     * Adds `rec` under `id` to the bucket for `color`, opening the bucket if
     * needed, unless that bucket already holds the ID.
     */
    method Store(color: string, id: Id, rec: Record) returns (outcome: Outcome)
      requires Valid(Value()) && ValidEntry(color, id, rec)
      modifies this
      ensures Valid(Value())
      ensures old(color in buckets && id in buckets[color].records) ==>
        Value() == old(Value()) && outcome == Duplicate(color, id)
      ensures !old(color in buckets && id in buckets[color].records) ==>
        Value() == Place(old(Value()), color, id, rec) && outcome == Added(color, id)
    {
      ghost var m0 := Value();
      if color in buckets {
        if id in buckets[color].records {
          return Duplicate(color, id);
        }
        var b := buckets[color];
        buckets := buckets[color := Bucket(b.ids + [id], b.records[id := rec])];
      } else {
        colors := colors + [color];
        buckets := buckets[color := Bucket([id], map[id := rec])];
      }
      outcome := Added(color, id);
      PlacePreservesValid(m0, color, id, rec);
    }

    /** The row loop: processes the rows in order and stops at the first row that raises. */
    method Build(rows: seq<Row>) returns (failedAt: Option<nat>)
      requires Valid(Value())
      modifies this
      ensures Valid(Value())
      ensures Value() == BuildFrom(old(Value()), rows)
      ensures failedAt == FirstTooShort(rows)
    {
      var i := 0;
      while i < |rows|
        invariant 0 <= i <= |rows|
        invariant Valid(Value())
        invariant BuildFrom(old(Value()), rows) == BuildFrom(Value(), rows[i..])
        invariant forall k :: 0 <= k < i ==> !Classify(rows[k]).TooShort?
      {
        assert rows[i..][0] == rows[i] && rows[i..][1..] == rows[i + 1..];
        var outcome := AddRow(rows[i]);
        if outcome == IndexError {
          return Some(i);
        }
        i := i + 1;
      }
      return None;
    }
  }

  /** The entry a kept row produces satisfies the manifest's per-entry invariant. */
  lemma PreparedEntryValid(callsign: string, rawClass: string, rawColor: string, note: string)
    ensures var a := Prepare(callsign, rawClass, rawColor, note);
      ValidEntry(a.color, a.id, a.rec)
  {
    var color := StoredColor(rawClass, rawColor);
    UpperIdempotent(color);
  }

  /** Appending a well-formed entry under a new ID in an existing bucket keeps the invariant. */
  lemma AppendToBucketValid(color: string, b: Bucket, id: Id, rec: Record)
    requires ValidBucket(color, b) && id !in b.records && ValidEntry(color, id, rec)
    ensures ValidBucket(color, Bucket(b.ids + [id], b.records[id := rec]))
  {
    var ids' := b.ids + [id];
    forall i, j | 0 <= i < j < |ids'| ensures ids'[i] != ids'[j] {
      if j == |b.ids| {
        assert b.ids[i] in b.ids;
      }
    }
  }

  /** Inserting a well-formed entry whose ID is new in its bucket keeps the invariant. */
  lemma PlacePreservesValid(m: Manifest, color: string, id: Id, rec: Record)
    requires Valid(m) && ValidEntry(color, id, rec)
    requires !(color in m.buckets && id in m.buckets[color].records)
    ensures Valid(Place(m, color, id, rec))
  {
    var m' := Place(m, color, id, rec);
    if color in m.buckets {
      AppendToBucketValid(color, m.buckets[color], id, rec);
      assert forall c :: c in m'.buckets ==> ValidBucket(c, m'.buckets[c]);
    } else {
      assert Distinct(m'.colors) by {
        forall i, j | 0 <= i < j < |m'.colors| ensures m'.colors[i] != m'.colors[j] {
          if j == |m.colors| {
            assert m.colors[i] in m.colors;
          }
        }
      }
      assert ValidBucket(color, Bucket([id], map[id := rec]));
    }
  }

  /** Processing a row keeps the manifest's invariant. */
  lemma ApplyRowPreservesValid(m: Manifest, row: Row)
    requires Valid(m)
    ensures Valid(ApplyRow(m, row).manifest)
  {
    var a := Classify(row);
    if a.Insert? && !(a.color in m.buckets && a.id in m.buckets[a.color].records) {
      PreparedEntryValid(row[COL_CALLSIGN], row[COL_LICENSE_CLASS], row[COL_COLOR], row[COL_NOTES]);
      PlacePreservesValid(m, a.color, a.id, a.rec);
    }
  }

  /** The rows that leave the manifest alone are exactly those with a blank name or a completed flag. */
  lemma SkippedRows(m: Manifest, row: Row)
    ensures ApplyRow(m, row).outcome == Skipped <==>
      |row| > COL_NAME &&
      (row[COL_NAME] == "" || (|row| > COL_COMPLETED && Upper(row[COL_COMPLETED]) == COMPLETED_MARK))
    ensures ApplyRow(m, row).outcome == Skipped ==> ApplyRow(m, row).manifest == m
  {
  }

  /** "black" upper-cased. */
  lemma FallbackColorUpper()
    ensures Upper(FALLBACK_COLOR) == "BLACK"
  {
    assert FALLBACK_COLOR == ['b'] + "lack";
    assert Upper("lack") == "LACK" by {
      assert "lack" == ['l'] + "ack";
      assert "ack" == ['a'] + "ck";
      assert "ck" == ['c'] + "k";
      assert "k" == ['k'] + "";
    }
  }

  /**
   * A blank colour cell becomes the upper-cased standard colour of the raw
   * class, or BLACK for a class without one; a given colour is only upper-cased.
   */
  lemma BlankColorDefault(rawClass: string, rawColor: string)
    ensures rawColor == "" && rawClass in STANDARD_COLORS ==>
      StoredColor(rawClass, rawColor) == Upper(STANDARD_COLORS[rawClass])
    ensures rawColor == "" && rawClass !in STANDARD_COLORS ==>
      StoredColor(rawClass, rawColor) == "BLACK"
    ensures rawColor != "" ==> StoredColor(rawClass, rawColor) == Upper(rawColor)
  {
    FallbackColorUpper();
  }

  /** The stored class is "EXTRA" for the alias "Amateur Extra", and the upper-cased raw class otherwise. */
  lemma ClassNormalization(callsign: string, rawClass: string, rawColor: string, note: string)
    ensures Prepare(callsign, rawClass, rawColor, note).rec.licenseClass ==
      if rawClass == "Amateur Extra" then "EXTRA" else Upper(rawClass)
  {
    if rawClass == "Amateur Extra" {
      assert NormalizeClass(rawClass) == "Extra";
      ExtraUpper();
    } else {
      assert rawClass !in LEVEL_OVERRIDES;
    }
  }

  /** "Extra" upper-cased. */
  lemma ExtraUpper()
    ensures Upper("Extra") == "EXTRA"
  {
    assert "Extra" == ['E'] + "xtra";
    assert "xtra" == ['x'] + "tra";
    assert "tra" == ['t'] + "ra";
    assert "ra" == ['r'] + "a";
    assert "a" == ['a'] + "";
  }

  /** "green" upper-cased. */
  lemma GreenUpper()
    ensures Upper("green") == "GREEN"
  {
    assert "green" == ['g'] + "reen";
    assert "reen" == ['r'] + "een";
    assert "een" == ['e'] + "en";
    assert "en" == ['e'] + "n";
    assert "n" == ['n'] + "";
  }

  /**
   * The colour lookup happens before the alias: a blank-colour "Amateur Extra"
   * row lands in GREEN, with class EXTRA.
   */
  lemma AmateurExtraBlankIsGreen(callsign: string, note: string)
    ensures Prepare(callsign, "Amateur Extra", "", note).color == "GREEN"
    ensures Prepare(callsign, "Amateur Extra", "", note).rec.licenseClass == "EXTRA"
  {
    assert DefaultColor("Amateur Extra") == "green";
    GreenUpper();
    ClassNormalization(callsign, "Amateur Extra", "", note);
  }

  /**
   * An "Extra" row has no standard colour of its own (the table knows only the
   * alias "Amateur Extra"): with a blank colour it lands in BLACK, with class EXTRA.
   */
  lemma ExtraBlankIsBlack(callsign: string, note: string)
    ensures Prepare(callsign, "Extra", "", note).color == "BLACK"
    ensures Prepare(callsign, "Extra", "", note).rec.licenseClass == "EXTRA"
  {
    assert DefaultColor("Extra") == FALLBACK_COLOR;
    FallbackColorUpper();
    assert NormalizeClass("Extra") == "Extra";
    ExtraUpper();
  }

  /** Entry `id` is in the bucket for `color`, under record `rec`, and nothing else changed. */
  ghost predicate AppendedOne(m: Manifest, m': Manifest, color: string, id: Id, rec: Record)
  {
    && m'.colors == (if color in m.buckets then m.colors else m.colors + [color])
    && color in m'.buckets
    && m'.buckets[color].ids == (if color in m.buckets then m.buckets[color].ids else []) + [id]
    && m'.buckets[color].records ==
         (if color in m.buckets then m.buckets[color].records else map[])[id := rec]
    && forall c :: c != color ==>
         (c in m'.buckets <==> c in m.buckets) && (c in m.buckets ==> m'.buckets[c] == m.buckets[c])
  }

  /**
   * Duplicates are discarded and the first row wins: an ID already in its bucket
   * leaves the manifest as it was (the later row's note included); a new ID is
   * appended to its bucket, and nothing else changes.
   */
  lemma DuplicateOrAppend(m: Manifest, row: Row)
    requires Classify(row).Insert?
    ensures var a := Classify(row);
      if a.color in m.buckets && a.id in m.buckets[a.color].records then
        ApplyRow(m, row) == Step(m, Duplicate(a.color, a.id))
      else
        ApplyRow(m, row).outcome == Added(a.color, a.id) &&
        AppendedOne(m, ApplyRow(m, row).manifest, a.color, a.id, a.rec)
  {
  }

  /** `m'` extends `m`: no key order is reordered and no stored record is altered or removed. */
  ghost predicate Grows(m: Manifest, m': Manifest)
  {
    && m.colors <= m'.colors
    && forall c :: c in m.buckets ==>
         && c in m'.buckets
         && m.buckets[c].ids <= m'.buckets[c].ids
         && forall id :: id in m.buckets[c].records ==>
              id in m'.buckets[c].records && m'.buckets[c].records[id] == m.buckets[c].records[id]
  }

  lemma GrowsTransitive(m1: Manifest, m2: Manifest, m3: Manifest)
    requires Grows(m1, m2) && Grows(m2, m3)
    ensures Grows(m1, m3)
  {
    forall c | c in m1.buckets
      ensures m1.buckets[c].ids <= m3.buckets[c].ids
    {
      var s1, s2, s3 := m1.buckets[c].ids, m2.buckets[c].ids, m3.buckets[c].ids;
      assert s1 == s2[..|s1|] && s2 == s3[..|s2|];
      assert s3[..|s2|][..|s1|] == s3[..|s1|];
    }
  }

  /** One row only ever adds to the manifest. */
  lemma ApplyRowGrows(m: Manifest, row: Row)
    ensures Grows(m, ApplyRow(m, row).manifest)
  {
    var a := Classify(row);
    if a.Insert? && !(a.color in m.buckets && a.id in m.buckets[a.color].records) {
      PlaceGrows(m, a.color, a.id, a.rec);
    }
  }

  /** Adding an entry under a new ID keeps every existing entry and key order. */
  lemma PlaceGrows(m: Manifest, color: string, id: Id, rec: Record)
    requires !(color in m.buckets && id in m.buckets[color].records)
    ensures Grows(m, Place(m, color, id, rec))
  {
    var m' := Place(m, color, id, rec);
    forall c | c in m.buckets
      ensures c in m'.buckets && m.buckets[c].ids <= m'.buckets[c].ids
    {
      if c == color {
        assert m'.buckets[c].ids == m.buckets[c].ids + [id];
      }
    }
  }

  /** Building only ever adds to the manifest and keeps its invariant. */
  lemma {:induction false} BuildGrows(m: Manifest, rows: seq<Row>)
    requires Valid(m)
    ensures Valid(BuildFrom(m, rows))
    ensures Grows(m, BuildFrom(m, rows))
    decreases |rows|
  {
    if rows != [] {
      var s := ApplyRow(m, rows[0]);
      if s.outcome != IndexError {
        ApplyRowPreservesValid(m, rows[0]);
        ApplyRowGrows(m, rows[0]);
        BuildGrows(s.manifest, rows[1..]);
        GrowsTransitive(m, s.manifest, BuildFrom(s.manifest, rows[1..]));
      }
    }
  }

  /** A row with a name that is not completed: the rows that yield an entry. */
  predicate Kept(row: Row)
  {
    |row| > COL_COMPLETED && row[COL_NAME] != "" && Upper(row[COL_COMPLETED]) != COMPLETED_MARK
  }

  /** Exactly the kept rows ask for an insertion; the others are skipped or raise. */
  lemma KeptRowsInsert(row: Row)
    ensures Classify(row).Insert? <==> Kept(row)
  {
  }

  /** Row `row` asks to store something under `id` in the bucket for `color`. */
  predicate YieldsKey(row: Row, color: string, id: Id)
  {
    var a := Classify(row);
    a.Insert? && a.color == color && a.id == id
  }

  /** Row `i` is the first of `rows` to ask for `color` and `id`, which `m` does not hold yet. */
  ghost predicate FirstToYield(m: Manifest, rows: seq<Row>, i: nat, color: string, id: Id)
    requires i < |rows|
  {
    && !(color in m.buckets && id in m.buckets[color].records)
    && forall j :: 0 <= j < i ==> !YieldsKey(rows[j], color, id)
  }

  /** After a row that asks for a key, the manifest holds that key. */
  lemma ApplyRowHoldsKey(m: Manifest, row: Row, color: string, id: Id)
    requires YieldsKey(row, color, id)
    ensures color in ApplyRow(m, row).manifest.buckets
    ensures id in ApplyRow(m, row).manifest.buckets[color].records
  {
  }

  /** A record that one row newly stores is the record that row asks for, under a key that was free. */
  lemma ApplyRowNewRecord(m: Manifest, row: Row, color: string, id: Id, rec: Record)
    requires StoredIn(ApplyRow(m, row).manifest, color, id, rec) && !StoredIn(m, color, id, rec)
    ensures Classify(row) == Insert(color, id, rec)
    ensures !(color in m.buckets && id in m.buckets[color].records)
  {
  }

  /**
   * No kept row is lost: a kept row that comes before any row that raises has
   * its colour and ID in the built manifest, stored by it or by an earlier
   * row with the same key.
   */
  lemma {:induction false} BuildHoldsKeptKeys(m: Manifest, rows: seq<Row>, i: nat)
    requires Valid(m) && i < |rows|
    requires forall k :: 0 <= k <= i ==> !Classify(rows[k]).TooShort?
    requires Classify(rows[i]).Insert?
    ensures Classify(rows[i]).color in BuildFrom(m, rows).buckets
    ensures Classify(rows[i]).id in BuildFrom(m, rows).buckets[Classify(rows[i]).color].records
    decreases i
  {
    var a := Classify(rows[i]);
    var m1 := ApplyRow(m, rows[0]).manifest;
    assert !Classify(rows[0]).TooShort?;
    assert BuildFrom(m, rows) == BuildFrom(m1, rows[1..]);
    ApplyRowPreservesValid(m, rows[0]);
    if i == 0 {
      ApplyRowHoldsKey(m, rows[0], a.color, a.id);
      BuildGrows(m1, rows[1..]);
    } else {
      assert rows[1..][i - 1] == rows[i];
      assert forall k :: 0 <= k <= i - 1 ==> rows[1..][k] == rows[k + 1];
      BuildHoldsKeptKeys(m1, rows[1..], i - 1);
    }
  }

  /**
   * Every record the build adds comes from a kept row, namely the first row
   * that asks for its colour and ID: a later duplicate never replaces it.
   */
  lemma {:induction false} BuildProvenance(m: Manifest, rows: seq<Row>, color: string, id: Id, rec: Record)
    requires Valid(m)
    requires StoredIn(BuildFrom(m, rows), color, id, rec)
    ensures StoredIn(m, color, id, rec) ||
      exists i :: 0 <= i < |rows| && FirstToYield(m, rows, i, color, id) &&
        Classify(rows[i]) == Insert(color, id, rec) && Kept(rows[i])
    decreases |rows|
  {
    if rows != [] && ApplyRow(m, rows[0]).outcome != IndexError && !StoredIn(m, color, id, rec) {
      var m1 := ApplyRow(m, rows[0]).manifest;
      ApplyRowPreservesValid(m, rows[0]);
      BuildProvenance(m1, rows[1..], color, id, rec);
      if StoredIn(m1, color, id, rec) {
        ApplyRowNewRecord(m, rows[0], color, id, rec);
        KeptRowsInsert(rows[0]);
        assert FirstToYield(m, rows, 0, color, id);
      } else {
        var rest := rows[1..];
        var i :| 0 <= i < |rest| && FirstToYield(m1, rest, i, color, id) &&
          Classify(rest[i]) == Insert(color, id, rec) && Kept(rest[i]);
        assert !YieldsKey(rows[0], color, id) by {
          if YieldsKey(rows[0], color, id) {
            ApplyRowHoldsKey(m, rows[0], color, id);
          }
        }
        assert !(color in m.buckets && id in m.buckets[color].records) by {
          ApplyRowGrows(m, rows[0]);
        }
        FirstToYieldShift(m, m1, rows, i, color, id);
        assert rows[i + 1] == rest[i];
      }
    }
  }

  /** A row that does not ask for a key moves the first row asking for it one place on. */
  lemma FirstToYieldShift(m: Manifest, m1: Manifest, rows: seq<Row>, i: nat, color: string, id: Id)
    requires rows != [] && i < |rows| - 1
    requires FirstToYield(m1, rows[1..], i, color, id) && !YieldsKey(rows[0], color, id)
    requires !(color in m.buckets && id in m.buckets[color].records)
    ensures FirstToYield(m, rows, i + 1, color, id)
  {
    forall j | 0 < j < i + 1
      ensures !YieldsKey(rows[j], color, id)
    {
      assert rows[j] == rows[1..][j - 1];
    }
  }

  /** A roster row for callsign AB1, class CD, colour red. */
  const CONFLATED_FIRST: Row := ["Ann", "", "AB1", "CD", "red", "", ""]

  /** A roster row for callsign AB1C, class D, colour red. */
  const CONFLATED_SECOND: Row := ["Bob", "", "AB1C", "D", "red", "", ""]

  /**
   * Because the key has no separators, two different entries of one colour can
   * share an ID: the callsign AB1 with class CD and the callsign AB1C with class
   * D both give "AB1CDRED", and the second row is discarded as a duplicate.
   */
  lemma KeyConflatesEntries()
    ensures Classify(CONFLATED_FIRST).Insert? && Classify(CONFLATED_SECOND).Insert?
    ensures Classify(CONFLATED_FIRST).rec != Classify(CONFLATED_SECOND).rec
    ensures ApplyRow(ApplyRow(EMPTY, CONFLATED_FIRST).manifest, CONFLATED_SECOND).outcome ==
      Duplicate("RED", "AB1CDRED")
  {
    assert "AB1" + "CD" == "AB1CD" && "AB1C" + "D" == "AB1CD";
    assert "AB1CD" + "RED" == "AB1CDRED";
    FirstRowKey();
    SecondRowKey();
    var m1 := ApplyRow(EMPTY, CONFLATED_FIRST).manifest;
    assert m1 == Place(EMPTY, "RED", "AB1CDRED", Classify(CONFLATED_FIRST).rec);
    assert "AB1CDRED" in m1.buckets["RED"].records;
  }

  /** A kept row is read from its callsign, class, colour and note cells. */
  lemma KeptRowPrepares(row: Row)
    requires Kept(row)
    ensures Classify(row) == Prepare(row[COL_CALLSIGN], row[COL_LICENSE_CLASS], row[COL_COLOR], row[COL_NOTES])
  {
  }

  /** "red" upper-cased. */
  lemma RedUpper()
    ensures Upper("red") == "RED"
  {
    assert "red" == ['r'] + "ed";
    assert "ed" == ['e'] + "d";
    assert "d" == ['d'] + "";
  }

  /**
   * A row with upper-case callsign and class (not an alias) and a given colour
   * cell stores those fields as they are, under the key of their concatenation.
   */
  lemma PreparedUpperKey(callsign: string, rawClass: string, rawColor: string, color: string, note: string)
    requires rawColor != "" && Upper(rawColor) == color
    requires rawClass !in LEVEL_OVERRIDES && NoLower(callsign) && NoLower(rawClass)
    ensures Prepare(callsign, rawClass, rawColor, note) ==
      Insert(color, callsign + rawClass + color, Record(callsign, rawClass, color, note))
  {
    UpperOfNoLower(callsign);
    UpperOfNoLower(rawClass);
    UpperIdempotent(rawColor);
  }

  /** The first conflated row asks for the ID "AB1CDRED" in bucket RED. */
  lemma FirstRowKey()
    ensures Classify(CONFLATED_FIRST) == Insert("RED", "AB1" + "CD" + "RED", Record("AB1", "CD", "RED", ""))
  {
    KeptRowPrepares(CONFLATED_FIRST);
    RedUpper();
    PreparedUpperKey("AB1", "CD", "red", "RED", "");
  }

  /** The second conflated row asks for the ID "AB1CDRED" in bucket RED too. */
  lemma SecondRowKey()
    ensures Classify(CONFLATED_SECOND) == Insert("RED", "AB1C" + "D" + "RED", Record("AB1C", "D", "RED", ""))
  {
    KeptRowPrepares(CONFLATED_SECOND);
    RedUpper();
    PreparedUpperKey("AB1C", "D", "red", "RED", "");
  }

  /** Two records with the same callsign, class and colour. */
  predicate SameTag(r1: Record, r2: Record)
  {
    r1.callsign == r2.callsign && r1.licenseClass == r2.licenseClass && r1.color == r2.color
  }

  /** Within one bucket no two records share callsign, class and colour. */
  lemma BucketTagsDistinct(color: string, b: Bucket)
    requires ValidBucket(color, b)
    ensures forall i, j :: 0 <= i < j < |b.ids| ==> !SameTag(BucketRecords(b)[i], BucketRecords(b)[j])
  {
    forall i, j | 0 <= i < j < |b.ids|
      ensures !SameTag(BucketRecords(b)[i], BucketRecords(b)[j])
    {
      assert b.ids[i] in b.ids && b.ids[j] in b.ids;
    }
  }

  /** Every record listed for the buckets `cs` has one of those colours. */
  lemma {:induction false} EntriesOfColors(m: Manifest, cs: seq<string>)
    requires Valid(m) && forall c :: c in cs ==> c in m.buckets
    ensures forall k :: 0 <= k < |EntriesOf(m, cs)| ==> EntriesOf(m, cs)[k].color in cs
  {
    if cs != [] {
      var n := |cs| - 1;
      var b := m.buckets[cs[n]];
      EntriesOfColors(m, cs[..n]);
      forall k | 0 <= k < |b.ids|
        ensures BucketRecords(b)[k].color == cs[n]
      {
        assert b.ids[k] in b.ids;
      }
      forall c | c in cs[..n] ensures c in cs {
      }
    }
  }

  lemma {:induction false} EntriesOfDistinct(m: Manifest, cs: seq<string>)
    requires Valid(m) && Distinct(cs) && forall c :: c in cs ==> c in m.buckets
    ensures forall i, j :: 0 <= i < j < |EntriesOf(m, cs)| ==>
      !SameTag(EntriesOf(m, cs)[i], EntriesOf(m, cs)[j])
  {
    if cs != [] {
      var n := |cs| - 1;
      var front := cs[..n];
      var b := m.buckets[cs[n]];
      EntriesOfDistinct(m, front);
      EntriesOfColors(m, front);
      BucketTagsDistinct(cs[n], b);
      var earlier, last := EntriesOf(m, front), BucketRecords(b);
      forall k | 0 <= k < |b.ids|
        ensures last[k].color == cs[n]
      {
        assert b.ids[k] in b.ids;
      }
      assert cs[n] !in front;
      forall i, j | 0 <= i < j < |earlier + last|
        ensures !SameTag((earlier + last)[i], (earlier + last)[j])
      {
        if i < |earlier| && j >= |earlier| {
          assert (earlier + last)[i].color in front;
        }
      }
    }
  }

  /**
   * The manifest lists no (callsign, class, colour) combination twice, so
   * neither does the file written from it.
   */
  lemma EntriesDistinct(m: Manifest)
    requires Valid(m)
    ensures forall i, j :: 0 <= i < j < |Entries(m)| ==> !SameTag(Entries(m)[i], Entries(m)[j])
  {
    EntriesOfDistinct(m, m.colors);
  }

  lemma {:induction false} EntriesOfStored(m: Manifest, cs: seq<string>)
    requires Valid(m) && forall c :: c in cs ==> c in m.buckets
    ensures forall k :: 0 <= k < |EntriesOf(m, cs)| ==>
      StoredIn(m, EntriesOf(m, cs)[k].color, IdOf(EntriesOf(m, cs)[k]), EntriesOf(m, cs)[k])
  {
    if cs != [] {
      var n := |cs| - 1;
      var b := m.buckets[cs[n]];
      EntriesOfStored(m, cs[..n]);
      forall k | 0 <= k < |b.ids|
        ensures StoredIn(m, BucketRecords(b)[k].color, IdOf(BucketRecords(b)[k]), BucketRecords(b)[k])
      {
        assert b.ids[k] in b.ids;
      }
    }
  }

  lemma {:induction false} StoredInEntriesOf(m: Manifest, cs: seq<string>, color: string, id: Id)
    requires Valid(m) && forall c :: c in cs ==> c in m.buckets
    requires color in cs && id in m.buckets[color].records
    ensures m.buckets[color].records[id] in EntriesOf(m, cs)
  {
    var n := |cs| - 1;
    if cs[n] == color {
      var b := m.buckets[color];
      var k :| 0 <= k < |b.ids| && b.ids[k] == id;
      assert BucketRecords(b)[k] == b.records[id];
    } else {
      assert color in cs[..n];
      StoredInEntriesOf(m, cs[..n], color, id);
    }
  }

  /**
   * The iteration order lists exactly the stored records: each listed record
   * sits in the bucket of its colour under its own ID, and each stored record is listed.
   */
  lemma EntriesAreStoredRecords(m: Manifest)
    requires Valid(m)
    ensures forall k :: 0 <= k < |Entries(m)| ==>
      StoredIn(m, Entries(m)[k].color, IdOf(Entries(m)[k]), Entries(m)[k])
    ensures forall c, id :: c in m.buckets && id in m.buckets[c].records ==>
      m.buckets[c].records[id] in Entries(m)
  {
    EntriesOfStored(m, m.colors);
    forall c, id | c in m.buckets && id in m.buckets[c].records
      ensures m.buckets[c].records[id] in Entries(m)
    {
      StoredInEntriesOf(m, m.colors, c, id);
    }
  }

  /** Some kept row among `rows` asks for exactly the record `r`. */
  predicate FromKeptRow(rows: seq<Row>, r: Record)
  {
    exists i :: 0 <= i < |rows| && Kept(rows[i]) && Classify(rows[i]).rec == r
  }

  /**
   * Building from an empty manifest lists only records that some kept row (a
   * named row that is not completed) asks for.
   */
  lemma BuiltFromKeptRows(rows: seq<Row>)
    ensures Valid(BuildFrom(EMPTY, rows))
    ensures forall r :: r in Entries(BuildFrom(EMPTY, rows)) ==> FromKeptRow(rows, r)
  {
    var m := BuildFrom(EMPTY, rows);
    BuildGrows(EMPTY, rows);
    EntriesAreStoredRecords(m);
    forall r | r in Entries(m)
      ensures FromKeptRow(rows, r)
    {
      var k :| 0 <= k < |Entries(m)| && Entries(m)[k] == r;
      BuildProvenance(EMPTY, rows, r.color, IdOf(r), r);
      assert !StoredIn(EMPTY, r.color, IdOf(r), r);
      var i :| 0 <= i < |rows| && FirstToYield(EMPTY, rows, i, r.color, IdOf(r)) &&
        Classify(rows[i]) == Insert(r.color, IdOf(r), r) && Kept(rows[i]);
      assert Classify(rows[i]).rec == r;
    }
  }
}
