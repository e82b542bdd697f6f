/** The cursor loop that derives missing document-number keys:
    src/legal_chatbot/documents/metadata_backfill.py. */
module MetadataBackfill {
  import opened Wrappers
  import opened Sequences

  const MAX_BATCH_SIZE := 500

  type VersionId = nat   // a UUID, in the order the database sorts it

  /** normalize_document_number: a key, nothing, or an error for a key over 256 characters. */
  datatype Normalized = Key(key: string) | Blank | TooLong

  /** The columns of document_versions the backfill reads and writes. */
  datatype Version = Version(id: VersionId, number: Option<string>, key: Option<string>)

  datatype BackfillError = BatchSizeOutOfRange | NumberTooLong

  datatype Counts = Counts(scanned: nat, updated: nat)

  type Normalizer = string -> Normalized

  /** The table in the order of its primary key. */
  predicate Sorted(rows: seq<Version>) {
    forall i, j :: 0 <= i < j < |rows| ==> rows[i].id < rows[j].id
  }

  predicate Eligible(row: Version) {
    row.number.Some? && row.key.None?
  }

  predicate IsAfter(cursor: Option<VersionId>, row: Version) {
    cursor.None? || row.id > cursor.value
  }

  function EligibleAfter(cursor: Option<VersionId>): Version -> bool {
    (row: Version) => Eligible(row) && IsAfter(cursor, row)
  }

  function After(cursor: Option<VersionId>): Version -> bool {
    (row: Version) => IsAfter(cursor, row)
  }

  /** SELECT ... WHERE number IS NOT NULL AND key IS NULL AND id > cursor ORDER BY id LIMIT n */
  function NextBatch(rows: seq<Version>, cursor: Option<VersionId>, batchSize: nat): seq<Version> {
    Take(Filter(EligibleAfter(cursor), rows), batchSize)
  }

  function WithKey(id: VersionId, key: string): Version -> Version {
    (row: Version) => if row.id == id && row.key.None? then row.(key := Some(key)) else row
  }

  /** UPDATE ... SET key WHERE id = ... AND key IS NULL */
  function UpdateKey(rows: seq<Version>, id: VersionId, key: string): seq<Version> {
    Map(WithKey(id, key), rows)
  }

  function RowCount(rows: seq<Version>, id: VersionId): nat {
    if rows == [] then 0
    else RowCount(rows[..|rows| - 1], id) + (if rows[|rows| - 1].id == id && rows[|rows| - 1].key.None? then 1 else 0)
  }

  // ----- the specification -----

  function ChangedBy(rows: seq<Version>, after: seq<Version>): set<int>
    requires |after| == |rows|
  {
    set i | 0 <= i < |rows| && after[i] != rows[i]
  }

  lemma ChangedSnoc(rows: seq<Version>, after: seq<Version>, row: Version, next: Version)
    requires |after| == |rows|
    ensures |ChangedBy(rows + [row], after + [next])| == |ChangedBy(rows, after)| + (if next != row then 1 else 0)
  {
    var more := if next != row then {|rows|} else {};
    assert ChangedBy(rows + [row], after + [next]) == ChangedBy(rows, after) + more;
  }

  lemma {:induction false} UpdateCountsChanges(rows: seq<Version>, id: VersionId, key: string)
    ensures RowCount(rows, id) == |ChangedBy(rows, UpdateKey(rows, id, key))|
  {
    if rows != [] {
      var front, last := rows[..|rows| - 1], rows[|rows| - 1];
      UpdateCountsChanges(front, id, key);
      assert rows == front + [last];
      assert UpdateKey(rows, id, key) == UpdateKey(front, id, key) + [WithKey(id, key)(last)];
      hide ChangedBy, UpdateKey;
      ChangedSnoc(front, UpdateKey(front, id, key), last, WithKey(id, key)(last));
    }
  }

  /** The update changes the row of its id, unless that has a key already; and it counts what
      it changes. */
  lemma UpdateWritesOnce(rows: seq<Version>, id: VersionId, key: string)
    ensures var after := UpdateKey(rows, id, key);
      && |after| == |rows| && RowCount(rows, id) == |ChangedBy(rows, after)|
      && forall i :: 0 <= i < |rows| ==>
           after[i] == if rows[i].id == id && rows[i].key.None? then Version(id, rows[i].number, Some(key)) else rows[i]
  {
    UpdateCountsChanges(rows, id, key);
    hide ChangedBy, RowCount;
  }

  function FilledRow(normalize: Normalizer, row: Version): Version {
    if Eligible(row) && normalize(row.number.value).Key? then row.(key := Some(normalize(row.number.value).key)) else row
  }

  function FillThrough(normalize: Normalizer, cursor: Option<VersionId>): Version -> Version {
    (row: Version) => if cursor.Some? && row.id <= cursor.value then FilledRow(normalize, row) else row
  }

  /** Every missing key up to the cursor set to its normalisation, and nothing else. */
  function FilledThrough(normalize: Normalizer, rows: seq<Version>, cursor: Option<VersionId>): seq<Version> {
    Map(FillThrough(normalize, cursor), rows)
  }

  function Filled(normalize: Normalizer, rows: seq<Version>): seq<Version> {
    Map((row: Version) => FilledRow(normalize, row), rows)
  }

  function EligibleRows(rows: seq<Version>): seq<Version> {
    Filter(Eligible, rows)
  }

  /** How many of the eligible rows get a key. */
  function KeyCount(normalize: Normalizer, eligible: seq<Version>): nat {
    if eligible == [] then 0
    else
      var last := eligible[|eligible| - 1];
      KeyCount(normalize, eligible[..|eligible| - 1]) + (if last.number.Some? && normalize(last.number.value).Key? then 1 else 0)
  }

  /** The first eligible row whose number cannot be normalised, or their number. */
  function FirstTooLong(normalize: Normalizer, eligible: seq<Version>): (f: nat)
    ensures f <= |eligible|
    ensures f < |eligible| ==> eligible[f].number.Some? && normalize(eligible[f].number.value).TooLong?
    ensures forall i :: 0 <= i < f ==> !(eligible[i].number.Some? && normalize(eligible[i].number.value).TooLong?)
  {
    if eligible == [] || (eligible[0].number.Some? && normalize(eligible[0].number.value).TooLong?) then 0
    else 1 + FirstTooLong(normalize, eligible[1..])
  }

  /** The cursor after the first `n` eligible rows. */
  function CursorAt(eligible: seq<Version>, n: nat): Option<VersionId>
    requires n <= |eligible|
  {
    if n == 0 then None else Some(eligible[n - 1].id)
  }

  /** The rows in whole batches among the first `n`. */
  function Committed(n: nat, batchSize: nat): (c: nat)
    requires batchSize > 0
    ensures c <= n
  {
    if n < batchSize then 0 else batchSize + Committed(n - batchSize, batchSize)
  }

  /** The table after a run. */
  function RowsAfter(normalize: Normalizer, rows: seq<Version>, batchSize: int): seq<Version> {
    var eligible := EligibleRows(rows);
    var f := FirstTooLong(normalize, eligible);
    if !(1 <= batchSize <= MAX_BATCH_SIZE) then rows
    else if f == |eligible| then Filled(normalize, rows)
    else FilledThrough(normalize, rows, CursorAt(eligible, Committed(f, batchSize)))
  }

  /** The table after runs with these batch sizes, one after the other. */
  function RowsAfterAll(normalize: Normalizer, rows: seq<Version>, batchSizes: seq<int>): seq<Version> {
    if batchSizes == [] then rows
    else RowsAfter(normalize, RowsAfterAll(normalize, rows, batchSizes[..|batchSizes| - 1]), batchSizes[|batchSizes| - 1])
  }

  // ----- what a batch finds and leaves -----

  lemma {:induction false} EligibleAreSorted(rows: seq<Version>)
    requires Sorted(rows)
    ensures Sorted(EligibleRows(rows))
    ensures forall row :: row in EligibleRows(rows) <==> row in rows && Eligible(row)
  {
    FilterMembers(Eligible, rows);
    if rows != [] {
      var front, last := rows[..|rows| - 1], rows[|rows| - 1];
      EligibleAreSorted(front);
      var kept := EligibleRows(front);
      forall i | 0 <= i < |kept| ensures kept[i].id < last.id {
        assert kept[i] in front;
      }
    }
  }

  lemma {:induction false} AfterOfEligible(rows: seq<Version>, cursor: Option<VersionId>)
    ensures Filter(EligibleAfter(cursor), rows) == Filter(After(cursor), EligibleRows(rows))
  {
    if rows != [] {
      var front := rows[..|rows| - 1];
      AfterOfEligible(front, cursor);
      assert (EligibleRows(front) + [rows[|rows| - 1]])[..|EligibleRows(front)|] == EligibleRows(front);
    }
  }

  lemma {:induction false} FilledIsBehind(normalize: Normalizer, rows: seq<Version>, cursor: Option<VersionId>)
    ensures Filter(EligibleAfter(cursor), FilledThrough(normalize, rows, cursor)) == Filter(EligibleAfter(cursor), rows)
  {
    if rows != [] {
      var front := rows[..|rows| - 1];
      FilledIsBehind(normalize, front, cursor);
      assert FilledThrough(normalize, rows, cursor)[..|front|] == FilledThrough(normalize, front, cursor);
    }
  }

  lemma CursorDivides(eligible: seq<Version>, n: nat)
    requires Sorted(eligible) && n <= |eligible|
    ensures forall x :: x in eligible[..n] ==> !After(CursorAt(eligible, n))(x)
    ensures forall x :: x in eligible[n..] ==> After(CursorAt(eligible, n))(x)
  {
    forall x | x in eligible[..n] ensures !After(CursorAt(eligible, n))(x) {
      var i :| 0 <= i < n && eligible[i] == x;
      assert eligible[i].id <= eligible[n - 1].id;
    }
  }

  lemma RestOfEligible(eligible: seq<Version>, n: nat)
    requires Sorted(eligible) && n <= |eligible|
    ensures Filter(After(CursorAt(eligible, n)), eligible) == eligible[n..]
  {
    var p := After(CursorAt(eligible, n));
    CursorDivides(eligible, n);
    hide Sorted, CursorAt, Filter, After;
    assert eligible == eligible[..n] + eligible[n..];
    FilterConcat(p, eligible[..n], eligible[n..]);
    FilterNone(p, eligible[..n]);
    FilterAll(p, eligible[n..]);
  }

  /** The next batch is the next eligible rows of the table as it was at the start. */
  lemma BatchIsNext(normalize: Normalizer, rows: seq<Version>, n: nat, batchSize: nat)
    requires Sorted(rows) && n <= |EligibleRows(rows)|
    ensures var cursor := CursorAt(EligibleRows(rows), n);
      NextBatch(FilledThrough(normalize, rows, cursor), cursor, batchSize) == Take(EligibleRows(rows)[n..], batchSize)
  {
    hide Filter, FilledThrough, CursorAt;
    var cursor := CursorAt(EligibleRows(rows), n);
    EligibleAreSorted(rows);
    FilledIsBehind(normalize, rows, cursor);
    AfterOfEligible(rows, cursor);
    RestOfEligible(EligibleRows(rows), n);
  }

  /** ... so it is a stretch of them, and it is short only at the end. */
  lemma BatchRuns(normalize: Normalizer, rows: seq<Version>, n: nat, batchSize: nat)
    requires Sorted(rows) && n <= |EligibleRows(rows)| && batchSize > 0
    ensures var eligible, cursor := EligibleRows(rows), CursorAt(EligibleRows(rows), n);
      var batch := NextBatch(FilledThrough(normalize, rows, cursor), cursor, batchSize);
      && n + |batch| <= |eligible| && (forall j :: 0 <= j < |batch| ==> batch[j] == eligible[n + j])
      && |batch| <= batchSize && (|batch| == batchSize || n + |batch| == |eligible|)
  {
    BatchIsNext(normalize, rows, n, batchSize);
    hide EligibleRows, NextBatch, FilledThrough, CursorAt;
  }

  /** No eligible row lies strictly between two neighbours of the eligible ones. */
  lemma NothingBetween(rows: seq<Version>, n: nat, i: nat)
    requires Sorted(rows) && n < |EligibleRows(rows)| && i < |rows| && Eligible(rows[i])
    requires IsAfter(CursorAt(EligibleRows(rows), n), rows[i]) && rows[i].id <= EligibleRows(rows)[n].id
    ensures rows[i] == EligibleRows(rows)[n]
  {
    EligibleAreSorted(rows);
    hide EligibleRows;
    var eligible := EligibleRows(rows);
    assert rows[i] in eligible;
    var k :| 0 <= k < |eligible| && eligible[k] == rows[i];
  }

  /** Updating the next eligible row moves the filled part on by one. */
  lemma UpdateMovesOn(normalize: Normalizer, rows: seq<Version>, n: nat)
    requires Sorted(rows) && n < |EligibleRows(rows)|
    requires EligibleRows(rows)[n].number.Some?
    ensures var row := EligibleRows(rows)[n];
      var before := FilledThrough(normalize, rows, CursorAt(EligibleRows(rows), n));
      var after := FilledThrough(normalize, rows, Some(row.id));
      match normalize(row.number.value)
      case Key(key) => UpdateKey(before, row.id, key) == after
      case _ => before == after
  {
    var eligible := EligibleRows(rows);
    EligibleAreSorted(rows);
    var cursor := CursorAt(eligible, n);
    var row := eligible[n];
    assert row in rows && Eligible(row);
    forall i | 0 <= i < |rows| && Eligible(rows[i]) && IsAfter(cursor, rows[i]) && rows[i].id <= row.id ensures rows[i] == row {
      NothingBetween(rows, n, i);
    }
    assert cursor.Some? ==> cursor.value < row.id;
    forall i | 0 <= i < |rows| && rows[i].id == row.id ensures rows[i] == row {
      SameIdSameRow(rows, i, row);
    }
    hide EligibleRows, Sorted;
  }

  lemma SameIdSameRow(rows: seq<Version>, i: nat, row: Version)
    requires Sorted(rows) && i < |rows| && row in rows && rows[i].id == row.id
    ensures rows[i] == row
  {
    var k :| 0 <= k < |rows| && rows[k] == row;
  }

  lemma {:induction false} CountsOne(rows: seq<Version>, id: VersionId, i: nat)
    requires Sorted(rows) && i < |rows| && rows[i].id == id && rows[i].key.None?
    ensures RowCount(rows, id) == 1
  {
    var last := |rows| - 1;
    if i == last {
      CountsNone(rows[..last], id);
    } else {
      CountsOne(rows[..last], id, i);
    }
  }

  lemma {:induction false} CountsNone(rows: seq<Version>, id: VersionId)
    requires forall i :: 0 <= i < |rows| ==> rows[i].id != id
    ensures RowCount(rows, id) == 0
  {
    if rows != [] {
      CountsNone(rows[..|rows| - 1], id);
    }
  }

  /** The next eligible row is still without a key, so exactly one row is updated. */
  lemma UpdatesOneRow(normalize: Normalizer, rows: seq<Version>, n: nat)
    requires Sorted(rows) && n < |EligibleRows(rows)|
    ensures RowCount(FilledThrough(normalize, rows, CursorAt(EligibleRows(rows), n)), EligibleRows(rows)[n].id) == 1
  {
    var eligible := EligibleRows(rows);
    EligibleAreSorted(rows);
    assert eligible[n] in rows;
    hide EligibleRows;
    var i :| 0 <= i < |rows| && rows[i] == eligible[n];
    var before := FilledThrough(normalize, rows, CursorAt(eligible, n));
    assert forall k :: 0 <= k < |rows| ==> before[k].id == rows[k].id;
    assert before[i] == rows[i];
    CountsOne(before, eligible[n].id, i);
  }

  lemma KeyCountNext(normalize: Normalizer, eligible: seq<Version>, n: nat)
    requires n < |eligible|
    ensures KeyCount(normalize, eligible[..n + 1])
      == KeyCount(normalize, eligible[..n]) + (if eligible[n].number.Some? && normalize(eligible[n].number.value).Key? then 1 else 0)
  {
    assert eligible[..n + 1][..n] == eligible[..n];
  }

  lemma FilledToTheEnd(normalize: Normalizer, rows: seq<Version>)
    requires Sorted(rows)
    ensures FilledThrough(normalize, rows, CursorAt(EligibleRows(rows), |EligibleRows(rows)|)) == Filled(normalize, rows)
  {
    var eligible := EligibleRows(rows);
    EligibleAreSorted(rows);
    hide EligibleRows;
    forall i | 0 <= i < |rows| && Eligible(rows[i])
      ensures eligible != [] && rows[i].id <= eligible[|eligible| - 1].id
    {
      assert rows[i] in eligible;
      var k :| 0 <= k < |eligible| && eligible[k] == rows[i];
    }
  }

  class DocumentMetadataBackfill {
    const normalize: Normalizer
    var versions: seq<Version>

    constructor (normalize: Normalizer, versions: seq<Version>)
      ensures this.normalize == normalize && this.versions == versions
    {
      this.normalize := normalize;
      this.versions := versions;
    }

    /** Fills every missing key and counts; when a number cannot be normalised, the whole
        batches before its own stay committed and nothing else. */
    method Run(batchSize: int) returns (result: Result<Counts, BackfillError>)
      requires Sorted(versions)
      modifies this
      ensures !(1 <= batchSize <= MAX_BATCH_SIZE) ==> result == Err(BatchSizeOutOfRange) && versions == old(versions)
      ensures 1 <= batchSize <= MAX_BATCH_SIZE ==>
        var eligible := EligibleRows(old(versions));
        var f := FirstTooLong(normalize, eligible);
        && (f == |eligible| ==>
              && result == Ok(Counts(|eligible|, KeyCount(normalize, eligible)))
              && versions == Filled(normalize, old(versions)))
        && (f < |eligible| ==>
              && result == Err(NumberTooLong)
              && versions == FilledThrough(normalize, old(versions), CursorAt(eligible, Committed(f, batchSize))))
      ensures versions == RowsAfter(normalize, old(versions), batchSize)
    {
      hide EligibleRows, FilledThrough, CursorAt, Filled, KeyCount, FirstTooLong, Sorted, UpdateKey, RowCount;
      hide NextBatch, Take, FilledRow, Committed, Map, Eligible;
      if !(1 <= batchSize <= MAX_BATCH_SIZE) {
        return Err(BatchSizeOutOfRange);
      }
      ghost var rows := versions;
      ghost var eligible := EligibleRows(rows);
      var cursor: Option<VersionId> := None;
      var scanned: nat, updated: nat := 0, 0;
      StartsUnfilled(normalize, rows);
      while true
        invariant scanned <= |eligible| && scanned <= FirstTooLong(normalize, eligible)
        invariant cursor == CursorAt(eligible, scanned)
        invariant versions == FilledThrough(normalize, rows, cursor)
        invariant updated == KeyCount(normalize, eligible[..scanned])
        invariant Committed(scanned, batchSize) == scanned || scanned == |eligible|
        decreases |eligible| - scanned
      {
        var batch := NextBatch(versions, cursor, batchSize);
        BatchRuns(normalize, rows, scanned, batchSize);
        if batch == [] {
          break;
        }
        var working, added := versions, 0;   // this transaction
        for j := 0 to |batch|
          invariant scanned + j <= FirstTooLong(normalize, eligible)
          invariant working == FilledThrough(normalize, rows, CursorAt(eligible, scanned + j))
          invariant updated + added == KeyCount(normalize, eligible[..scanned + j])
          modifies {}
        {
          assert batch[j] == eligible[scanned + j];
          NumberIsThere(rows, scanned + j);
          UpdateMovesOn(normalize, rows, scanned + j);
          UpdatesOneRow(normalize, rows, scanned + j);
          KeyCountNext(normalize, eligible, scanned + j);
          CursorMovesOn(eligible, scanned + j);
          var normalized := normalize(batch[j].number.value);
          if normalized.TooLong? {
            FirstIsHere(normalize, eligible, scanned + j);
            CommittedWithin(scanned, j, batchSize);
            return Err(NumberTooLong);   // rolls the transaction back
          }
          FirstIsLater(normalize, eligible, scanned + j);
          if normalized.Key? {
            added := added + RowCount(working, batch[j].id);
            working := UpdateKey(working, batch[j].id, normalized.key);
          }
        }
        versions := working;
        updated := updated + added;
        if Committed(scanned, batchSize) == scanned {
          CommittedNext(scanned, batchSize);
        }
        scanned := scanned + |batch|;
        cursor := Some(batch[|batch| - 1].id);
        CursorMovesOn(eligible, scanned - 1);
      }
      FilledToTheEnd(normalize, rows);
      AllScanned(normalize, eligible, scanned);
      result := Ok(Counts(scanned, updated));
    }
  }

  lemma StartsUnfilled(normalize: Normalizer, rows: seq<Version>)
    ensures FilledThrough(normalize, rows, CursorAt(EligibleRows(rows), 0)) == rows
    ensures CursorAt(EligibleRows(rows), 0) == None && KeyCount(normalize, EligibleRows(rows)[..0]) == 0
    ensures EligibleRows(rows)[..0] == []
  {
  }

  lemma NumberIsThere(rows: seq<Version>, n: nat)
    requires n < |EligibleRows(rows)|
    ensures EligibleRows(rows)[n].number.Some?
  {
    FilterMembers(Eligible, rows);
    assert EligibleRows(rows)[n] in EligibleRows(rows);
  }

  lemma CursorMovesOn(eligible: seq<Version>, n: nat)
    requires n < |eligible|
    ensures CursorAt(eligible, n + 1) == Some(eligible[n].id)
  {
  }

  lemma FirstIsHere(normalize: Normalizer, eligible: seq<Version>, n: nat)
    requires n < |eligible| && n <= FirstTooLong(normalize, eligible)
    requires eligible[n].number.Some? && normalize(eligible[n].number.value).TooLong?
    ensures FirstTooLong(normalize, eligible) == n
  {
  }

  lemma FirstIsLater(normalize: Normalizer, eligible: seq<Version>, n: nat)
    requires n < |eligible| && n <= FirstTooLong(normalize, eligible)
    requires eligible[n].number.Some? && !normalize(eligible[n].number.value).TooLong?
    ensures n + 1 <= FirstTooLong(normalize, eligible)
  {
  }

  lemma {:induction false} CommittedWithin(scanned: nat, j: nat, batchSize: nat)
    requires j < batchSize && Committed(scanned, batchSize) == scanned
    ensures Committed(scanned + j, batchSize) == scanned
    decreases scanned
  {
    if scanned >= batchSize {
      CommittedWithin(scanned - batchSize, j, batchSize);
    }
  }

  lemma CommittedNext(scanned: nat, batchSize: nat)
    requires batchSize > 0 && Committed(scanned, batchSize) == scanned
    ensures Committed(scanned + batchSize, batchSize) == scanned + batchSize
  {
  }

  lemma AllScanned(normalize: Normalizer, eligible: seq<Version>, scanned: nat)
    requires scanned == |eligible| && scanned <= FirstTooLong(normalize, eligible)
    ensures FirstTooLong(normalize, eligible) == |eligible| && eligible[..scanned] == eligible
  {
  }

  // ----- what the result means -----

  /** The final table: keys and numbers that were there are untouched, every missing key is
      the normalisation of its number, and rows that normalise to nothing stay as they are. */
  lemma FilledIsExact(normalize: Normalizer, rows: seq<Version>, i: nat)
    requires i < |rows|
    ensures var after := Filled(normalize, rows)[i];
      && after.id == rows[i].id && after.number == rows[i].number
      && (rows[i].key.Some? ==> after.key == rows[i].key)
      && (after.key.Some? && rows[i].key.None? <==>
            Eligible(rows[i]) && normalize(rows[i].number.value).Key? && after.key == Some(normalize(rows[i].number.value).key))
  {
  }

  /** A second run finds only rows that normalise to nothing, and updates nothing. */
  lemma SecondRunUpdatesNothing(normalize: Normalizer, rows: seq<Version>)
    ensures Filled(normalize, Filled(normalize, rows)) == Filled(normalize, rows)
    ensures KeyCount(normalize, EligibleRows(Filled(normalize, rows))) == 0
  {
    var after := Filled(normalize, rows);
    assert Filled(normalize, after) == after;
    FilterMembers(Eligible, after);
    forall row | row in EligibleRows(after) ensures row.number.Some? && !normalize(row.number.value).Key? {
      var i :| 0 <= i < |after| && after[i] == row;
    }
    NoKeyNoCount(normalize, EligibleRows(after));
  }

  lemma {:induction false} NoKeyNoCount(normalize: Normalizer, eligible: seq<Version>)
    requires forall row :: row in eligible ==> row.number.Some? && !normalize(row.number.value).Key?
    ensures KeyCount(normalize, eligible) == 0
  {
    if eligible != [] {
      NoKeyNoCount(normalize, eligible[..|eligible| - 1]);
    }
  }

  // ----- a number that cannot be normalised -----

  predicate IsTooLong(normalize: Normalizer, row: Version) {
    Eligible(row) && row.number.Some? && normalize(row.number.value).TooLong?
  }

  /** The first row, in the order of the ids, whose number cannot be normalised. */
  predicate IsFirstBad(normalize: Normalizer, rows: seq<Version>, bad: Version) {
    && bad in rows && IsTooLong(normalize, bad)
    && forall i :: 0 <= i < |rows| && rows[i].id < bad.id ==> !IsTooLong(normalize, rows[i])
  }

  lemma FirstBadStops(normalize: Normalizer, rows: seq<Version>, bad: Version)
    requires Sorted(rows) && IsFirstBad(normalize, rows, bad)
    ensures var eligible := EligibleRows(rows);
      FirstTooLong(normalize, eligible) < |eligible| && eligible[FirstTooLong(normalize, eligible)].id == bad.id
  {
    FilterMembers(Eligible, rows);
    EligibleAreSorted(rows);
    var eligible := EligibleRows(rows);
    hide FirstTooLong, EligibleRows;
    assert bad in eligible;
    var k :| 0 <= k < |eligible| && eligible[k] == bad;
    var f := FirstTooLong(normalize, eligible);
    assert f <= k;
    assert forall row :: row in rows && row.id < bad.id ==> !IsTooLong(normalize, row);
    assert eligible[f] in eligible;
  }

  lemma BatchesStopBefore(normalize: Normalizer, rows: seq<Version>, bad: Version, batchSize: nat)
    requires Sorted(rows) && IsFirstBad(normalize, rows, bad) && batchSize > 0
    ensures var eligible := EligibleRows(rows);
      var cursor := CursorAt(eligible, Committed(FirstTooLong(normalize, eligible), batchSize));
      cursor.Some? ==> cursor.value < bad.id
  {
    FirstBadStops(normalize, rows, bad);
    EligibleAreSorted(rows);
    hide EligibleRows, FirstTooLong;
  }

  /** A run leaves the bad row and everything after it as it was. */
  lemma RunStopsBefore(normalize: Normalizer, rows: seq<Version>, bad: Version, batchSize: int)
    requires Sorted(rows) && IsFirstBad(normalize, rows, bad)
    ensures var after := RowsAfter(normalize, rows, batchSize);
      && Sorted(after) && IsFirstBad(normalize, after, bad) && |after| == |rows|
      && forall i :: 0 <= i < |rows| ==> after[i].id == rows[i].id && (rows[i].id >= bad.id ==> after[i] == rows[i])
  {
    var after := RowsAfter(normalize, rows, batchSize);
    if 1 <= batchSize <= MAX_BATCH_SIZE {
      FirstBadStops(normalize, rows, bad);
      BatchesStopBefore(normalize, rows, bad, batchSize);
      hide EligibleRows, FirstTooLong, Committed, CursorAt;
      var k :| 0 <= k < |rows| && rows[k] == bad;
      assert after[k] == bad;
    }
  }

  /** A number that cannot be normalised fails every later run, whatever the batch sizes,
      and no run ever reaches a row behind it. */
  lemma {:induction false} FailureIsPermanent(normalize: Normalizer, rows: seq<Version>, bad: Version, batchSizes: seq<int>)
    requires Sorted(rows) && IsFirstBad(normalize, rows, bad)
    ensures var after := RowsAfterAll(normalize, rows, batchSizes);
      && Sorted(after) && IsFirstBad(normalize, after, bad)
      && FirstTooLong(normalize, EligibleRows(after)) < |EligibleRows(after)|
      && |after| == |rows| && forall i :: 0 <= i < |rows| ==> after[i].id == rows[i].id && (rows[i].id >= bad.id ==> after[i] == rows[i])
  {
    hide IsFirstBad, Sorted, RowsAfter;
    if batchSizes != [] {
      var front := batchSizes[..|batchSizes| - 1];
      FailureIsPermanent(normalize, rows, bad, front);
      RunStopsBefore(normalize, RowsAfterAll(normalize, rows, front), bad, batchSizes[|batchSizes| - 1]);
    }
    FirstBadStops(normalize, RowsAfterAll(normalize, rows, batchSizes), bad);
  }

  lemma NothingTooLong(normalize: Normalizer, eligible: seq<Version>)
    requires forall row :: row in eligible ==> !(row.number.Some? && normalize(row.number.value).TooLong?)
    ensures FirstTooLong(normalize, eligible) == |eligible|
  {
    hide FirstTooLong;
    assert forall i :: 0 <= i < |eligible| ==> eligible[i] in eligible;
  }

  /** Without such a number the runs agree: whatever their batch sizes and however many,
      the table ends as one run with any batch size leaves it. */
  lemma {:induction false} RunsAgree(normalize: Normalizer, rows: seq<Version>, batchSizes: seq<int>)
    requires forall i :: 0 <= i < |rows| ==> !IsTooLong(normalize, rows[i])
    requires batchSizes != [] && forall i :: 0 <= i < |batchSizes| ==> 1 <= batchSizes[i] <= MAX_BATCH_SIZE
    ensures RowsAfterAll(normalize, rows, batchSizes) == Filled(normalize, rows)
  {
    var front := batchSizes[..|batchSizes| - 1];
    var before := RowsAfterAll(normalize, rows, front);
    if front == [] {
      assert before == rows;
    } else {
      RunsAgree(normalize, rows, front);
      SecondRunUpdatesNothing(normalize, rows);
    }
    FilterMembers(Eligible, before);
    forall row | row in EligibleRows(before) ensures !(row.number.Some? && normalize(row.number.value).TooLong?) {
      var i :| 0 <= i < |before| && before[i] == row;
      assert !IsTooLong(normalize, rows[i]);
    }
    NothingTooLong(normalize, EligibleRows(before));
  }
}
