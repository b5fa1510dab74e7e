# HAM tag manifest: a Dafny model

The script `File_Generation/generate_manifest_file.py` turns a roster export
of an amateur-radio exam session into the input file for printing callsign
name tags. It has two steps:

- **`build_manifest`** reads the roster rows. It skips rows without a name
  and rows whose completed flag is `TRUE`. It gives a row without a colour
  the standard colour of its licence class, or black. It renames the class
  "Amateur Extra" to "Extra" and upper-cases the fields. It then stores the
  record in a dictionary from print colour to a dictionary from record ID to
  record. The ID is the MD5 digest of the upper-case callsign, class and
  colour, concatenated. A repeated ID is a duplicate, and the first row wins.
- **`generate_fusion_file`** walks that dictionary in insertion order. It
  writes one CSV row per record: the tag name `CALLSIGN_CLASS_COLOR` with
  spaces replaced by `_`, the callsign, the class, the two heights and the
  engraving length. The length is `8 * len(callsign) + 3`, raised to the
  class's known minimum when that is larger. For each record with a note it
  also collects the line `Line N <name> : <note>`, where `N` is the record's
  line in the output file. The first data row is on line 2.

The project has four files:

- `parameters.dfy` (module `Parameters`) holds the tables and the integer
  constants of lines 7–39. `LAYER_HEIGHT` (line 28) is not there, because
  heights are kept as layer counts. It also names three literals the script
  writes inline: `FALLBACK_COLOR` ("black", line 83), `COMPLETED_MARK`
  ("TRUE", line 70) and `COL_NAME` (the index 0 of line 68).
- `text.dfy` (module `PyText`) holds the ASCII versions of the string
  methods the script uses: `upper`, `capitalize`, `replace(" ", "_")` and
  `str` on a natural number. `Lower` is the lower-casing that `capitalize`
  applies after the first character; the script does not call `lower()`
  itself.
- `manifest.dfy` (module `ManifestBuilder`) models `build_manifest`.
  - Each Python dictionary is modelled as its keys in insertion order plus
    a map.
  - The global `MANIFEST` is the class `ManifestStore`. Its method `AddRow`
    is one iteration of the row loop and `Build` is the loop itself.
    `Store` is the dictionary insertion at the end of an iteration.
  - Both methods are proved against the functions `ApplyRow` and
    `BuildFrom`. The lemmas about those functions state what the script
    promises.
- `fusion.dfy` (module `FusionFile`) models `generate_fusion_file`.
  - `WriteBucket` is the inner loop and `GenerateFusion` the outer loop.
  - The two methods are proved to produce `RowsFor(Entries(m))`, and the
    notes `NotesFor(Entries(m), 2)`.
  - Lemmas characterise those functions.

Where the code and its description differ, the model follows the code:

- **Blank colours.** The default colour of a row is stored upper-cased:
  `BLACK`, not `black`.
- **Blank CSV lines.** The reader yields an empty row for a blank line, so
  `line[0]` raises. Such a line is not skipped. The same happens to a named
  row with fewer than seven cells, at `line[6]`. Both end the build. `Build`
  returns the index of that row, and the rows before it stay in the
  manifest.
- **Duplicate key.** The key has no separators. Two different entries of one
  colour, such as callsign AB1 with class CD and callsign AB1C with class D,
  therefore get the same ID. The second is dropped as a duplicate. This is
  the code's behaviour, and `KeyConflatesEntries` exhibits it.

## Model

| member | source | states |
|---|---|---|
| PyText.Upper | File_Generation/generate_manifest_file.py:88-89 | `upper()` keeps the length and maps each character to its capital (lower-case letters) or to itself (everything else), so the result has no lower-case letter |
| PyText.UpperIdempotent | File_Generation/generate_manifest_file.py:145-147 | upper-casing an upper-cased string again changes nothing, so the script's repeated `.upper()` calls are harmless |
| PyText.Lower | File_Generation/generate_manifest_file.py:155 | the lower-casing `capitalize()` applies after the first character: keeps the length and maps each capital to its lower-case letter and every other character to itself; `LowerOfUpper` and `CapitalizeOfUpper` use it |
| PyText.Capitalize | File_Generation/generate_manifest_file.py:155 | `capitalize()` keeps the length, upper-cases the first character and lower-cases every later one, so no capital follows the first character |
| PyText.CapitalizeOfUpper | File_Generation/generate_manifest_file.py:147-156 | capitalizing the upper-case form of a title-cased class name gives the name back |
| PyText.ReplaceSpaces | File_Generation/generate_manifest_file.py:150 | `replace(" ", "_")` keeps the length, leaves no space, turns each space into `_` and keeps every other character |
| PyText.ReplaceSpacesAppend | File_Generation/generate_manifest_file.py:149-150 | replacing spaces in a concatenation is the concatenation of the replaced parts |
| PyText.Decimal | File_Generation/generate_manifest_file.py:163 | `str(line)` is a non-empty string of digits with no leading zero |
| PyText.DecimalRoundTrip | File_Generation/generate_manifest_file.py:163 | reading the digits of `str(n)` back gives `n` |
| ManifestBuilder.DefaultColor | File_Generation/generate_manifest_file.py:79-83 | defines the colour of a blank colour cell: the standard colour of the raw class, or black; `BlankColorDefault` proves its use |
| ManifestBuilder.NormalizeClass | File_Generation/generate_manifest_file.py:85-86 | defines the class after the alias table; `ClassNormalization` proves its effect |
| ManifestBuilder.StoredColor | File_Generation/generate_manifest_file.py:79-88 | defines the bucket colour: the row's colour or its default, upper-cased; `BlankColorDefault` states it case by case |
| ManifestBuilder.KeyOf | File_Generation/generate_manifest_file.py:89 | defines the string the ID is the digest of: the upper-cased callsign, class and colour with no separator; `KeyConflatesEntries` shows the consequence |
| ManifestBuilder.Prepare | File_Generation/generate_manifest_file.py:73-100 | defines the colour, ID and record a kept row asks for; `PreparedEntryValid`, `ClassNormalization` and `PreparedUpperKey` state its properties |
| ManifestBuilder.Classify | File_Generation/generate_manifest_file.py:68-78 | defines what a row asks for, in the script's order of reads: raise, skip or insert; `SkippedRows`, `KeptRowsInsert` and `FirstTooShort` characterise it |
| ManifestBuilder.Place | File_Generation/generate_manifest_file.py:91-108 | defines the insertion of a record under a new ID, opening its bucket at the end if needed; `PlacePreservesValid` and `PlaceGrows` state its properties |
| ManifestBuilder.ApplyRow | File_Generation/generate_manifest_file.py:66-108 | defines one iteration of the row loop on the manifest; `ApplyRowPreservesValid`, `DuplicateOrAppend` and `ApplyRowGrows` state its properties |
| ManifestBuilder.BuildFrom | File_Generation/generate_manifest_file.py:66-108 | defines the row loop, stopping at the first row that raises; `BuildGrows`, `BuildProvenance`, `BuildHoldsKeptKeys` and `BuiltFromKeptRows` state its properties |
| ManifestBuilder.BucketRecords | File_Generation/generate_manifest_file.py:144 | defines the records of one bucket in the order `for ID in MANIFEST[color]` visits them |
| ManifestBuilder.EntriesOf | File_Generation/generate_manifest_file.py:143-144 | defines the records of a run of buckets, bucket after bucket; `EntriesOfNext`, `EntriesOfStored`, `StoredInEntriesOf` and `EntriesOfDistinct` characterise it |
| ManifestBuilder.Entries | File_Generation/generate_manifest_file.py:143-144 | defines the order in which the nested loops visit the records; `EntriesAreStoredRecords` (exactly the stored records) and `EntriesDistinct` (no tag twice) characterise it |
| ManifestBuilder.FirstTooShort | File_Generation/generate_manifest_file.py:66-70 | the index of the first row that raises when its name cell or completed flag is read, and no row before it raises; none when no row raises |
| ManifestBuilder.ManifestStore.constructor | File_Generation/generate_manifest_file.py:42 | the manifest starts empty |
| ManifestBuilder.ManifestStore.AddRow | File_Generation/generate_manifest_file.py:67-108 | one row updates the manifest exactly as `ApplyRow` says and keeps its invariant: unique keys, and every record upper-case, in the bucket of its own colour, under the ID of its own fields |
| ManifestBuilder.ManifestStore.Store | File_Generation/generate_manifest_file.py:91-108 | an ID already in its colour's bucket leaves the manifest unchanged and reports a duplicate; otherwise the record is stored as `Place` says and the invariant is kept |
| ManifestBuilder.ManifestStore.Build | File_Generation/generate_manifest_file.py:66-108 | the row loop leaves the manifest `BuildFrom` describes, keeps the invariant and reports the first row that raises |
| ManifestBuilder.PreparedEntryValid | File_Generation/generate_manifest_file.py:88-100 | the record built from a kept row is upper-case, has the bucket's colour and sits under the ID of its fields |
| ManifestBuilder.AppendToBucketValid | File_Generation/generate_manifest_file.py:91-100 | adding a valid record under a new ID to an existing bucket keeps the bucket valid |
| ManifestBuilder.PlacePreservesValid | File_Generation/generate_manifest_file.py:91-108 | inserting a valid record under an ID its bucket lacks, opening the bucket if needed, keeps the manifest valid |
| ManifestBuilder.ApplyRowPreservesValid | File_Generation/generate_manifest_file.py:66-108 | processing any row keeps the manifest valid |
| ManifestBuilder.SkippedRows | File_Generation/generate_manifest_file.py:68-71 | a row is skipped exactly when its name is blank or its completed flag upper-cases to TRUE, and a skipped row leaves the manifest unchanged |
| ManifestBuilder.FallbackColorUpper | File_Generation/generate_manifest_file.py:83-88 | the fallback colour is stored as BLACK |
| ManifestBuilder.BlankColorDefault | File_Generation/generate_manifest_file.py:79-88 | a blank colour becomes the upper-cased standard colour of the raw class, or BLACK for an unknown class; a given colour is only upper-cased |
| ManifestBuilder.ClassNormalization | File_Generation/generate_manifest_file.py:85-97 | the stored class is EXTRA for "Amateur Extra" and the upper-cased raw class otherwise |
| ManifestBuilder.AmateurExtraBlankIsGreen | File_Generation/generate_manifest_file.py:79-88 | the colour lookup comes before the alias, so a blank-colour "Amateur Extra" row lands in GREEN with class EXTRA |
| ManifestBuilder.ExtraBlankIsBlack | File_Generation/generate_manifest_file.py:79-88 | a blank-colour "Extra" row has no standard colour and lands in BLACK with class EXTRA |
| ManifestBuilder.DuplicateOrAppend | File_Generation/generate_manifest_file.py:89-108 | a kept row whose ID is already in its bucket leaves the manifest as it was; otherwise exactly one entry is appended to its bucket, the bucket is opened at the end if new, and nothing else changes |
| ManifestBuilder.ApplyRowGrows | File_Generation/generate_manifest_file.py:91-108 | one row never removes, reorders or alters an entry |
| ManifestBuilder.PlaceGrows | File_Generation/generate_manifest_file.py:91-108 | inserting under a new ID keeps every existing entry and key order |
| ManifestBuilder.BuildGrows | File_Generation/generate_manifest_file.py:66-108 | the whole build keeps the invariant and only ever adds entries |
| ManifestBuilder.KeptRowsInsert | File_Generation/generate_manifest_file.py:66-78 | exactly the named, not completed rows with all seven cells ask for an insertion (a duplicate among them then stores nothing) |
| ManifestBuilder.KeptRowPrepares | File_Generation/generate_manifest_file.py:72-78 | such a row is read from its callsign, class, colour and note cells |
| ManifestBuilder.ApplyRowHoldsKey | File_Generation/generate_manifest_file.py:91-108 | after a row that asks for a colour and ID, the manifest holds that ID in that bucket |
| ManifestBuilder.ApplyRowNewRecord | File_Generation/generate_manifest_file.py:91-108 | a record that one row newly stores is exactly the record that row asks for, under a key that was free |
| ManifestBuilder.BuildHoldsKeptKeys | File_Generation/generate_manifest_file.py:66-108 | no kept row is lost: a kept row before any row that raises has its colour and ID in the built manifest |
| ManifestBuilder.BuildProvenance | File_Generation/generate_manifest_file.py:66-108 | every record the build adds is the record of the first kept row asking for its colour and ID, so the first row wins |
| ManifestBuilder.FirstToYieldShift | File_Generation/generate_manifest_file.py:66 | a row that does not ask for a key moves the first row that does one place on |
| ManifestBuilder.KeyConflatesEntries | File_Generation/generate_manifest_file.py:89-94 | two rows with different records (AB1/CD and AB1C/D, both red) get the same ID, and the second is reported as a duplicate |
| ManifestBuilder.PreparedUpperKey | File_Generation/generate_manifest_file.py:73-100 | a row whose callsign and class are upper-case already stores them unchanged, under the key of their concatenation with the colour |
| ManifestBuilder.FirstRowKey | File_Generation/generate_manifest_file.py:73-100 | the row AB1/CD/red asks for key AB1+CD+RED in bucket RED |
| ManifestBuilder.SecondRowKey | File_Generation/generate_manifest_file.py:73-100 | the row AB1C/D/red asks for key AB1C+D+RED in bucket RED |
| ManifestBuilder.BucketTagsDistinct | File_Generation/generate_manifest_file.py:89-92 | within one bucket no two records share callsign, class and colour |
| ManifestBuilder.EntriesOfColors | File_Generation/generate_manifest_file.py:143-144 | every record listed for a set of buckets has one of their colours |
| ManifestBuilder.EntriesOfDistinct | File_Generation/generate_manifest_file.py:143-144 | records listed for distinct buckets never repeat a callsign, class and colour combination |
| ManifestBuilder.EntriesDistinct | File_Generation/generate_manifest_file.py:89-92 | the records in the order the file is written never repeat a callsign, class and colour combination |
| ManifestBuilder.EntriesOfStored | File_Generation/generate_manifest_file.py:143-144 | each record listed for a set of buckets is stored in its own colour's bucket under its own ID |
| ManifestBuilder.StoredInEntriesOf | File_Generation/generate_manifest_file.py:143-144 | each record stored in one of those buckets is listed |
| ManifestBuilder.EntriesAreStoredRecords | File_Generation/generate_manifest_file.py:143-144 | the iteration order lists exactly the stored records |
| ManifestBuilder.BuiltFromKeptRows | File_Generation/generate_manifest_file.py:66-108 | every record of a manifest built from scratch is the record some kept row asks for, so skipped and completed rows never reach the file |
| FusionFile.TagName | File_Generation/generate_manifest_file.py:149-150 | defines the tag name; `TagNameShape` states its shape |
| FusionFile.RowFor | File_Generation/generate_manifest_file.py:145-158 | defines the CSV row written for a record (line 169); `RowOfStoredRecord` and `KnownMinimumApplies` state its properties |
| FusionFile.RowsFor | File_Generation/generate_manifest_file.py:169 | defines the rows written for a run of records, one per record in order; `RowsForAppend` characterises it |
| FusionFile.NoteLine | File_Generation/generate_manifest_file.py:162-166 | defines the note text `Line N name : note` |
| FusionFile.NoteFor | File_Generation/generate_manifest_file.py:160-167 | defines the note a record contributes: one line when its note is not empty, none otherwise |
| FusionFile.NotesFor | File_Generation/generate_manifest_file.py:160-167 | defines the notes of a run of records written from a given line; `NotesByIndex` characterises it |
| FusionFile.EngravingLength | File_Generation/generate_manifest_file.py:154-158 | the length is at least `8 * len(callsign) + 3`, at least the known minimum of the capitalized class, and equal to one of the two |
| FusionFile.KnownClassesAreTitles | File_Generation/generate_manifest_file.py:18-24 | every class in the length table is written in title case |
| FusionFile.KnownMinimumApplies | File_Generation/generate_manifest_file.py:154-158 | a row whose class, after the alias, is in the length table is engraved at least that long, and never shorter than its callsign needs |
| FusionFile.TagNameShape | File_Generation/generate_manifest_file.py:149-150 | the tag name contains no space, is two characters longer than its parts together, and is the parts with spaces replaced, joined by `_` |
| FusionFile.RowOfStoredRecord | File_Generation/generate_manifest_file.py:145-169 | the row written for a stored record carries its fields unchanged and its bucket's colour in the tag name |
| FusionFile.RebindingHarmless | File_Generation/generate_manifest_file.py:145 | rebinding the loop's colour to the record's upper-cased colour gives back the bucket being walked |
| FusionFile.NoteIndices | File_Generation/generate_manifest_file.py:161 | the positions listed are positions of the records |
| FusionFile.NoteIndicesExact | File_Generation/generate_manifest_file.py:161 | the positions listed are exactly those of records with a note, in increasing order |
| FusionFile.NotesForSnoc | File_Generation/generate_manifest_file.py:160-167 | one more record adds its note line, if any, at the end |
| FusionFile.NotesCount | File_Generation/generate_manifest_file.py:160-167 | there is one note line per record with a note |
| FusionFile.NoteAtIndex | File_Generation/generate_manifest_file.py:160-167 | the t-th note line is `Line N name : note` for the t-th record with a note, N being its file line |
| FusionFile.NotesByIndex | File_Generation/generate_manifest_file.py:160-170 | the note lines correspond one to one, in order, to the records with a note, each with its file line and tag name |
| FusionFile.RowsForAppend | File_Generation/generate_manifest_file.py:143-169 | the rows for consecutive runs of records are written one run after the other |
| FusionFile.NotesForAppend | File_Generation/generate_manifest_file.py:142-170 | the notes for consecutive runs of records follow one another, the second run counting lines on from the first |
| FusionFile.WriteStep | File_Generation/generate_manifest_file.py:145-170 | writing one more record extends the rows by its row and the notes by its note line |
| FusionFile.EntriesOfNext | File_Generation/generate_manifest_file.py:143-144 | the records of one more bucket follow those of the buckets before it |
| FusionFile.WriteBucket | File_Generation/generate_manifest_file.py:144-170 | the inner loop appends the rows and notes of one bucket's records in insertion order and advances the line counter by their number |
| FusionFile.NotesAfterBucket | File_Generation/generate_manifest_file.py:143-170 | after one more bucket, the notes are those of all records written so far |
| FusionFile.GenerateFusion | File_Generation/generate_manifest_file.py:142-170 | the file holds one row per stored record, bucket by bucket in insertion order, and the notes are those gathered before plus one line per record with a note, numbered from line 2 |

## Left out

- The file dialogs, reading and writing files, CSV quoting, the output header row (lines 131-138) and the time-stamped output file name are left out.
- The input header row, which line 64 skips, is not part of `Build`'s `rows`: they start with the first data row. Rows are given as sequences of cells, and the output as a sequence of `FusionRow` values.
- The MD5 digest is left out. The ID is the key string the digest is taken of, which treats the hash as injective.
- Floating-point heights are left out. The base and letter heights are kept as layer counts (5 and 3 layers of 0.2).
- `print_manifest`, `display_notes` and the "Duplicate TAG" message are left out, because they only print.
- Case mapping covers ASCII letters only; Python's Unicode case tables are not modelled.
- `Build` does not model the exception propagating out of the program. It returns the index of the row that raises, and the manifest as it stood before that row.
- The global note list is a parameter and result of `GenerateFusion`, not a shared variable.
- The inner loop of `generate_fusion_file` is its own method, `WriteBucket`.
