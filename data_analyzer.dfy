/** `DataAnalyzer`: batch import with symptom and fix normalisation, and the
    failure, part-usage, inventory and summary reports over the store. */
module DataAnalyzer {
  import opened Common
  import opened Sequences
  import opened Strings
  import opened TextAnalysis
  import opened Schema

  /** A formatted spreadsheet row handed to `importRecords`. */
  datatype ImportRow = ImportRow(
    machine: Option<string>,
    machineSide: Option<string>,
    symptom: Option<string>,
    dateFailure: Option<int>,
    timeFailure: Option<TimeOfDay>,
    repairer: Option<string>,
    howToFix: Option<string>,
    partCode: Option<string>,
    namePart: Option<string>,
    courtPart: Option<int>)

  /** A row that could not be imported, with the message of what failed. */
  datatype ImportError = ImportError(record: ImportRow, error: string)

  datatype ImportResult = ImportResult(success: nat, failed: nat, errors: seq<ImportError>)

  /** The similarity threshold used to cluster symptoms and fixes. */
  const ImportThreshold: real := 0.75

  /** JavaScript truthiness of an optional text: present and not empty. */
  predicate Truthy(t: Option<string>) { t.Some? && t.value != "" }

  /** `texts.filter(t => t)`: the truthy texts, in order. */
  function Present(texts: seq<Option<string>>): (r: seq<string>)
    ensures forall k :: 0 <= k < |r| ==> r[k] != "" && Some(r[k]) in texts
    ensures forall i :: 0 <= i < |texts| && Truthy(texts[i]) ==> texts[i].value in r
    decreases |texts|
  {
    if texts == [] then []
    else
      var init := texts[..|texts| - 1];
      var t := texts[|texts| - 1];
      assert texts == init + [t];
      Present(init) + (if Truthy(t) then [t.value] else [])
  }

  /** A single text is kept exactly when it is truthy. */
  lemma PresentSingle(t: Option<string>)
    ensures Present([t]) == (if Truthy(t) then [t.value] else [])
  {
    assert [t][..0] == [];
  }

  /** Filtering keeps the order and the multiplicity of the texts: the
      texts kept from `a + b` are those kept from `a` followed by those
      kept from `b`. */
  lemma {:induction false} PresentConcat(a: seq<Option<string>>, b: seq<Option<string>>)
    ensures Present(a + b) == Present(a) + Present(b)
    decreases |b|
  {
    if b == [] {
      assert a + b == a;
    } else {
      var init := b[..|b| - 1];
      var t := b[|b| - 1];
      var kept := if Truthy(t) then [t.value] else [];
      assert b == init + [t];
      ConcatAssoc(a, init, [t]);
      PresentConcat(a, init);
      PresentSnoc(a + init, t);
      PresentSnoc(init, t);
      ConcatAssoc(Present(a), Present(init), kept);
    }
  }

  /** Appending one text appends it to the kept texts when it is truthy. */
  lemma PresentSnoc(s: seq<Option<string>>, t: Option<string>)
    ensures Present(s + [t]) == Present(s) + (if Truthy(t) then [t.value] else [])
  {
    assert (s + [t])[..|s|] == s;
  }

  function Symptoms(records: seq<ImportRow>): seq<Option<string>>
  {
    seq(|records|, i requires 0 <= i < |records| => records[i].symptom)
  }

  function Fixes(records: seq<ImportRow>): seq<Option<string>>
  {
    seq(|records|, i requires 0 <= i < |records| => records[i].howToFix)
  }

  // ---------------------------------------------------------------------
  // Representative maps

  /** `variants.forEach(v => map.set(v, representative))` applied to `m`. */
  function MapVariants(m: map<string, string>, variants: seq<string>, representative: string): (r: map<string, string>)
    ensures forall v :: v in r <==> v in m || v in variants
    ensures forall v :: v in r ==> (v in variants && r[v] == representative) || (v !in variants && r[v] == m[v])
    decreases |variants|
  {
    if variants == [] then m
    else MapVariants(m, variants[..|variants| - 1], representative)[variants[|variants| - 1] := representative]
  }

  /** The map from every variant of every cluster to its cluster's
      representative, later clusters overriding earlier ones. */
  function RepresentativeMap(clusters: seq<Cluster>): map<string, string>
    decreases |clusters|
  {
    if clusters == [] then map[]
    else
      var last := clusters[|clusters| - 1];
      MapVariants(RepresentativeMap(clusters[..|clusters| - 1]), last.variants, last.representative)
  }

  /** Every variant of every cluster is a key. */
  lemma {:induction false} RepresentativeMapKeys(clusters: seq<Cluster>)
    ensures forall c, k :: 0 <= c < |clusters| && 0 <= k < |clusters[c].variants| ==>
      clusters[c].variants[k] in RepresentativeMap(clusters)
    decreases |clusters|
  {
    if clusters != [] {
      var init := clusters[..|clusters| - 1];
      RepresentativeMapKeys(init);
      forall c, k | 0 <= c < |clusters| && 0 <= k < |clusters[c].variants|
        ensures clusters[c].variants[k] in RepresentativeMap(clusters)
      {
        if c < |init| {
          assert clusters[c] == init[c];
        }
      }
    }
  }

  /** Every key maps to the representative of a cluster it is a variant of. */
  lemma {:induction false} RepresentativeMapValues(clusters: seq<Cluster>)
    ensures forall v :: v in RepresentativeMap(clusters) ==>
      (exists c :: 0 <= c < |clusters| && v in clusters[c].variants &&
         RepresentativeMap(clusters)[v] == clusters[c].representative)
    decreases |clusters|
  {
    if clusters != [] {
      var init := clusters[..|clusters| - 1];
      var last := clusters[|clusters| - 1];
      RepresentativeMapValues(init);
      assert RepresentativeMap(clusters) == MapVariants(RepresentativeMap(init), last.variants, last.representative);
      forall v | v in RepresentativeMap(clusters)
        ensures (exists c :: 0 <= c < |clusters| && v in clusters[c].variants && RepresentativeMap(clusters)[v] == clusters[c].representative)
      {
        if v in last.variants {
          assert clusters[|clusters| - 1] == last;
        } else {
          var c :| 0 <= c < |init| && v in init[c].variants &&
            RepresentativeMap(init)[v] == init[c].representative;
          assert clusters[c] == init[c];
        }
      }
    }
  }

  /** Fills the representative map cluster by cluster, variant by variant. */
  method BuildRepresentativeMap(clusters: seq<Cluster>) returns (m: map<string, string>)
    ensures m == RepresentativeMap(clusters)
  {
    m := map[];
    for c := 0 to |clusters|
      invariant m == RepresentativeMap(clusters[..c])
    {
      var cluster := clusters[c];
      ghost var before := m;
      for v := 0 to |cluster.variants|
        invariant m == MapVariants(before, cluster.variants[..v], cluster.representative)
      {
        assert cluster.variants[..v + 1][..v] == cluster.variants[..v];
        m := m[cluster.variants[v] := cluster.representative];
      }
      assert cluster.variants[..|cluster.variants|] == cluster.variants;
      assert clusters[..c + 1][..c] == clusters[..c];
    }
    assert clusters[..|clusters|] == clusters;
  }

  /** `map.get(t) || t`: the mapped text when there is a truthy one, else `t`. */
  function Normalized(m: map<string, string>, t: Option<string>): Option<string>
  {
    if t.Some? && t.value in m && m[t.value] != "" then Some(m[t.value]) else t
  }

  /** Every variant of a well-formed cluster is its representative or at
      least `threshold` similar to it. */
  lemma VariantSimilar(list: seq<string>, threshold: real, sim: (string, string) -> real, cl: Cluster, v: string)
    requires WellFormed(list, threshold, sim, cl)
    requires v in cl.variants
    ensures v == cl.representative || sim(cl.representative, v) >= threshold
  {
    var k :| 0 <= k < |cl.variants| && cl.variants[k] == v;
    if k > 0 {
      assert sim(list[cl.indices[0]], list[cl.indices[k]]) >= threshold;
    }
  }

  /** A text whose index some cluster holds is a key of the map. */
  lemma CoveredMapped(list: seq<string>, threshold: real, sim: (string, string) -> real, cs: seq<Cluster>, j: nat)
    requires forall c :: 0 <= c < |cs| ==> WellFormed(list, threshold, sim, cs[c])
    requires j < |list| && Covered(cs, j)
    ensures list[j] in RepresentativeMap(cs)
  {
    var c :| Member(cs, j, c);
    var k :| 0 <= k < |cs[c].indices| && cs[c].indices[k] == j;
    assert WellFormed(list, threshold, sim, cs[c]);
    assert cs[c].variants[k] == list[j];
    RepresentativeMapKeys(cs);
  }

  /** Under a clustering of the truthy texts, a truthy text normalises to a
      representative of a cluster holding it: the text itself, or one at
      least `threshold` similar to it. */
  lemma NormalizedRepresentative(texts: seq<Option<string>>, threshold: real, sim: (string, string) -> real,
    clusters: seq<Cluster>, i: int)
    requires Clustering(Present(texts), threshold, sim, clusters)
    requires 0 <= i < |texts| && Truthy(texts[i])
    ensures Normalized(RepresentativeMap(clusters), texts[i]).Some?
    ensures var n := Normalized(RepresentativeMap(clusters), texts[i]).value;
      n == texts[i].value || sim(n, texts[i].value) >= threshold
  {
    var list := Present(texts);
    var t := texts[i].value;
    var m := RepresentativeMap(clusters);
    var j :| 0 <= j < |list| && list[j] == t;
    assert Partition(clusters, |list|);
    assert Covered(clusters, j);
    CoveredMapped(list, threshold, sim, clusters, j);
    RepresentativeMapValues(clusters);
    var c :| 0 <= c < |clusters| && t in clusters[c].variants && m[t] == clusters[c].representative;
    VariantSimilar(list, threshold, sim, clusters[c], t);
  }

  // ---------------------------------------------------------------------
  // importRecords

  /** The statement values bound for `row`, with its symptom and fix normalised. */
  function ToInput(row: ImportRow, symptomMap: map<string, string>, fixMap: map<string, string>): (input: RecordInput)
    ensures Complete(input) <==> RowComplete(row)
  {
    RecordInput(row.machine, row.machineSide, row.symptom, Normalized(symptomMap, row.symptom),
      row.dateFailure, row.timeFailure, row.repairer, row.howToFix, Normalized(fixMap, row.howToFix))
  }

  /** The row binds every NOT NULL column of `maintenance_records`. */
  predicate RowComplete(row: ImportRow)
  {
    row.machine.Some? && row.symptom.Some? && row.dateFailure.Some? &&
    row.timeFailure.Some? && row.repairer.Some?
  }

  /** The rows the store accepts, in input order. */
  function CompleteRows(records: seq<ImportRow>): (r: seq<ImportRow>)
    ensures |r| <= |records|
    ensures forall k :: 0 <= k < |r| ==> RowComplete(r[k])
    decreases |records|
  {
    if records == [] then []
    else
      var last := records[|records| - 1];
      CompleteRows(records[..|records| - 1]) + (if RowComplete(last) then [last] else [])
  }

  /** A row is stored exactly when it is in the input and complete. */
  lemma {:induction false} CompleteRowsMember(records: seq<ImportRow>, row: ImportRow)
    ensures row in CompleteRows(records) <==> row in records && RowComplete(row)
    decreases |records|
  {
    if records != [] {
      var init := records[..|records| - 1];
      CompleteRowsMember(init, row);
      assert records == init + [records[|records| - 1]];
    }
  }

  /** A part and its usage are written only for a truthy code and name. */
  predicate HasPart(row: ImportRow) { Truthy(row.partCode) && Truthy(row.namePart) }

  /** `court_part || 1`. */
  function Quantity(row: ImportRow): (q: int)
    ensures q != 0
  {
    if row.courtPart.Some? && row.courtPart.value != 0 then row.courtPart.value else 1
  }

  /** The records stored for the complete rows, numbered on from `lastId`. */
  function NewRecords(lastId: nat, rows: seq<ImportRow>, symptomMap: map<string, string>, fixMap: map<string, string>)
    : (r: seq<MaintenanceRecord>)
    requires forall k :: 0 <= k < |rows| ==> RowComplete(rows[k])
    ensures |r| == |rows|
    decreases |rows|
  {
    if rows == [] then []
    else
      var last := rows[|rows| - 1];
      assert RowComplete(rows[|rows| - 1]);
      NewRecords(lastId, rows[..|rows| - 1], symptomMap, fixMap) + [StoredRecord(lastId + |rows|, ToInput(last, symptomMap, fixMap))]
  }

  /** The k-th stored row carries the k-th complete row's values, normalised,
      under key `lastId + 1 + k`. */
  lemma {:induction false} NewRecordsAt(lastId: nat, rows: seq<ImportRow>, symptomMap: map<string, string>, fixMap: map<string, string>)
    requires forall k :: 0 <= k < |rows| ==> RowComplete(rows[k])
    ensures forall k :: 0 <= k < |rows| ==>
      NewRecords(lastId, rows, symptomMap, fixMap)[k] == StoredRecord(lastId + 1 + k, ToInput(rows[k], symptomMap, fixMap))
    decreases |rows|
  {
    if rows != [] {
      var init := rows[..|rows| - 1];
      NewRecordsAt(lastId, init, symptomMap, fixMap);
      forall k | 0 <= k < |rows|
        ensures NewRecords(lastId, rows, symptomMap, fixMap)[k] == StoredRecord(lastId + 1 + k, ToInput(rows[k], symptomMap, fixMap))
      {
        if k < |init| {
          assert rows[k] == init[k];
        }
      }
    }
  }

  /** The `parts` table after the part inserts of the complete rows. */
  function PartsAfter(parts: seq<Part>, rows: seq<ImportRow>): seq<Part>
    decreases |rows|
  {
    if rows == [] then parts
    else
      var last := rows[|rows| - 1];
      var before := PartsAfter(parts, rows[..|rows| - 1]);
      if HasPart(last) then AfterInsertPart(before, last.partCode, last.namePart) else before
  }

  /** The usage rows written for the complete rows, numbered on from `lastId`. */
  function UsagesAdded(lastId: nat, rows: seq<ImportRow>): (r: seq<PartUsage>)
    requires forall k :: 0 <= k < |rows| ==> RowComplete(rows[k])
    decreases |rows|
  {
    if rows == [] then []
    else
      var init := rows[..|rows| - 1];
      var last := rows[|rows| - 1];
      assert RowComplete(rows[|rows| - 1]);
      UsagesAdded(lastId, init) +
        (if HasPart(last) then [PartUsage(lastId + |rows|, last.partCode.value, Quantity(last), last.dateFailure.value)]
         else [])
  }

  /** The error recorded for each row that cannot be stored, in order. */
  function ErrorsOf(records: seq<ImportRow>, symptomMap: map<string, string>, fixMap: map<string, string>)
    : seq<ImportError>
    decreases |records|
  {
    if records == [] then []
    else
      var last := records[|records| - 1];
      ErrorsOf(records[..|records| - 1], symptomMap, fixMap) +
        (if RowComplete(last) then [] else [ImportError(last, MissingColumn(ToInput(last, symptomMap, fixMap)))])
  }

  /** Every row is either stored or reported, never both: the successes and
      the failures add up to the number of rows. */
  lemma {:induction false} ImportCounts(records: seq<ImportRow>, symptomMap: map<string, string>, fixMap: map<string, string>)
    ensures |ErrorsOf(records, symptomMap, fixMap)| + |CompleteRows(records)| == |records|
    ensures forall k :: 0 <= k < |ErrorsOf(records, symptomMap, fixMap)| ==>
      ErrorsOf(records, symptomMap, fixMap)[k].record in records &&
      !RowComplete(ErrorsOf(records, symptomMap, fixMap)[k].record)
    decreases |records|
  {
    if records != [] {
      var init := records[..|records| - 1];
      var last := records[|records| - 1];
      ImportCounts(init, symptomMap, fixMap);
      var errors := ErrorsOf(records, symptomMap, fixMap);
      var extra := if RowComplete(last) then [] else [ImportError(last, MissingColumn(ToInput(last, symptomMap, fixMap)))];
      assert errors == ErrorsOf(init, symptomMap, fixMap) + extra;
      assert |CompleteRows(records)| == |CompleteRows(init)| + (if RowComplete(last) then 1 else 0);
      forall k | 0 <= k < |errors|
        ensures errors[k].record in records && !RowComplete(errors[k].record)
      {
        if k < |ErrorsOf(init, symptomMap, fixMap)| {
          assert errors[k] == ErrorsOf(init, symptomMap, fixMap)[k];
          assert errors[k].record in init;
          var m :| 0 <= m < |init| && init[m] == errors[k].record;
          assert records[m] == init[m];
        } else {
          assert errors[k] == extra[0];
        }
      }
    }
  }

  lemma NewRecordsAppend(lastId: nat, rows: seq<ImportRow>, row: ImportRow,
    symptomMap: map<string, string>, fixMap: map<string, string>)
    requires forall k :: 0 <= k < |rows| ==> RowComplete(rows[k])
    requires RowComplete(row)
    ensures NewRecords(lastId, rows + [row], symptomMap, fixMap) ==
      NewRecords(lastId, rows, symptomMap, fixMap) + [StoredRecord(lastId + 1 + |rows|, ToInput(row, symptomMap, fixMap))]
  {
    assert (rows + [row])[..|rows|] == rows;
  }

  lemma PartsAfterAppend(parts: seq<Part>, rows: seq<ImportRow>, row: ImportRow)
    ensures PartsAfter(parts, rows + [row]) ==
      if HasPart(row) then AfterInsertPart(PartsAfter(parts, rows), row.partCode, row.namePart)
      else PartsAfter(parts, rows)
  {
    assert (rows + [row])[..|rows|] == rows;
  }

  lemma UsagesAddedAppend(lastId: nat, rows: seq<ImportRow>, row: ImportRow)
    requires forall k :: 0 <= k < |rows| ==> RowComplete(rows[k])
    requires RowComplete(row)
    ensures UsagesAdded(lastId, rows + [row]) == UsagesAdded(lastId, rows) +
      (if HasPart(row) then [PartUsage(lastId + |rows| + 1, row.partCode.value, Quantity(row), row.dateFailure.value)] else [])
  {
    assert (rows + [row])[..|rows|] == rows;
  }

  lemma ErrorsOfAppend(records: seq<ImportRow>, row: ImportRow, symptomMap: map<string, string>, fixMap: map<string, string>)
    ensures ErrorsOf(records + [row], symptomMap, fixMap) == ErrorsOf(records, symptomMap, fixMap) +
      (if RowComplete(row) then [] else [ImportError(row, MissingColumn(ToInput(row, symptomMap, fixMap)))])
  {
    assert (records + [row])[..|records|] == records;
  }

  /** One pass of the import loop: stores the row and, when it names a
      part, inserts the part if new and one usage of it. A row the store
      refuses fails with the store's message and changes nothing; the
      usage insert cannot fail, because its record and its part were just
      written. */
  method ImportOne(db: DatabaseManager, row: ImportRow, symptomMap: map<string, string>, fixMap: map<string, string>)
    returns (outcome: Result<()>)
    requires db.Valid()
    modifies db
    ensures db.Valid()
    ensures outcome.Ok? <==> RowComplete(row)
    ensures outcome.Err? ==>
      outcome.message == MissingColumn(ToInput(row, symptomMap, fixMap)) &&
      db.records == old(db.records) && db.parts == old(db.parts) &&
      db.usages == old(db.usages) && db.lastRecordId == old(db.lastRecordId)
    ensures outcome.Ok? ==>
      var id := old(db.lastRecordId) + 1;
      db.records == old(db.records) + [StoredRecord(id, ToInput(row, symptomMap, fixMap))] &&
      db.lastRecordId == id &&
      db.parts == (if HasPart(row) then AfterInsertPart(old(db.parts), row.partCode, row.namePart) else old(db.parts)) &&
      db.usages == old(db.usages) +
        (if HasPart(row) then [PartUsage(id, row.partCode.value, Quantity(row), row.dateFailure.value)] else [])
  {
    var input := ToInput(row, symptomMap, fixMap);
    var inserted := db.InsertMaintenanceRecord(input);
    if inserted.Err? {
      return Err(inserted.message);
    }
    var id := inserted.value;
    if HasPart(row) {
      db.InsertPart(row.partCode, row.namePart);
      RecordByIdAppend(old(db.records), StoredRecord(id, input), id);
      var usage := db.InsertPartUsage(id, row.partCode, Some(Quantity(row)), row.dateFailure);
      assert usage.Ok?;
    }
    outcome := Ok(());
  }

  /** The tables `(records, parts, usages, lastId)` hold what importing the
      complete rows `stored` into the snapshot `(records0, parts0, usages0,
      lastId0)` writes. */
  ghost predicate Replayed(records: seq<MaintenanceRecord>, parts: seq<Part>, usages: seq<PartUsage>, lastId: nat,
    records0: seq<MaintenanceRecord>, parts0: seq<Part>, usages0: seq<PartUsage>, lastId0: nat,
    stored: seq<ImportRow>, symptomMap: map<string, string>, fixMap: map<string, string>)
  {
    (forall k :: 0 <= k < |stored| ==> RowComplete(stored[k])) &&
    records == records0 + NewRecords(lastId0, stored, symptomMap, fixMap) &&
    lastId == lastId0 + |stored| &&
    parts == PartsAfter(parts0, stored) &&
    usages == usages0 + UsagesAdded(lastId0, stored)
  }

  /** Importing one more complete row extends the replay by that row. */
  lemma ReplayStep(records: seq<MaintenanceRecord>, parts: seq<Part>, usages: seq<PartUsage>, lastId: nat,
    records0: seq<MaintenanceRecord>, parts0: seq<Part>, usages0: seq<PartUsage>, lastId0: nat,
    stored: seq<ImportRow>, symptomMap: map<string, string>, fixMap: map<string, string>,
    row: ImportRow, records': seq<MaintenanceRecord>, parts': seq<Part>, usages': seq<PartUsage>, lastId': nat)
    requires Replayed(records, parts, usages, lastId, records0, parts0, usages0, lastId0, stored, symptomMap, fixMap)
    requires RowComplete(row)
    requires records' == records + [StoredRecord(lastId + 1, ToInput(row, symptomMap, fixMap))]
    requires lastId' == lastId + 1
    requires parts' == if HasPart(row) then AfterInsertPart(parts, row.partCode, row.namePart) else parts
    requires usages' == usages +
      (if HasPart(row) then [PartUsage(lastId + 1, row.partCode.value, Quantity(row), row.dateFailure.value)] else [])
    ensures Replayed(records', parts', usages', lastId', records0, parts0, usages0, lastId0, stored + [row], symptomMap, fixMap)
  {
    var next := stored + [row];
    assert forall k :: 0 <= k < |next| ==> RowComplete(next[k]);
    NewRecordsAppend(lastId0, stored, row, symptomMap, fixMap);
    PartsAfterAppend(parts0, stored, row);
    UsagesAddedAppend(lastId0, stored, row);
  }

  /** One row against the replayed tables: a stored row extends the replay. */
  method ImportStep(db: DatabaseManager, row: ImportRow, symptomMap: map<string, string>, fixMap: map<string, string>,
    ghost records0: seq<MaintenanceRecord>, ghost parts0: seq<Part>, ghost usages0: seq<PartUsage>, ghost lastId0: nat,
    ghost stored: seq<ImportRow>)
    returns (outcome: Result<()>)
    requires db.Valid()
    requires Replayed(db.records, db.parts, db.usages, db.lastRecordId, records0, parts0, usages0, lastId0, stored,
      symptomMap, fixMap)
    modifies db
    ensures db.Valid()
    ensures outcome.Ok? <==> RowComplete(row)
    ensures outcome.Err? ==> outcome.message == MissingColumn(ToInput(row, symptomMap, fixMap))
    ensures Replayed(db.records, db.parts, db.usages, db.lastRecordId, records0, parts0, usages0, lastId0,
      if RowComplete(row) then stored + [row] else stored, symptomMap, fixMap)
  {
    outcome := ImportOne(db, row, symptomMap, fixMap);
    if outcome.Ok? {
      ReplayStep(old(db.records), old(db.parts), old(db.usages), old(db.lastRecordId), records0, parts0, usages0, lastId0,
        stored, symptomMap, fixMap, row, db.records, db.parts, db.usages, db.lastRecordId);
    }
  }

  /** The complete rows and the errors of one more row of the input. */
  lemma PrefixStep(records: seq<ImportRow>, i: int, symptomMap: map<string, string>, fixMap: map<string, string>)
    requires 0 <= i < |records|
    ensures CompleteRows(records[..i + 1]) ==
      CompleteRows(records[..i]) + (if RowComplete(records[i]) then [records[i]] else [])
    ensures ErrorsOf(records[..i + 1], symptomMap, fixMap) == ErrorsOf(records[..i], symptomMap, fixMap) +
      (if RowComplete(records[i]) then []
       else [ImportError(records[i], MissingColumn(ToInput(records[i], symptomMap, fixMap)))])
  {
    assert records[..i + 1][..i] == records[..i];
  }

  /** After `i` rows: the rows stored so far, the counters and the errors. */
  ghost predicate Progress(records: seq<ImportRow>, i: int, success: nat, failed: nat, errors: seq<ImportError>,
    stored: seq<ImportRow>, symptomMap: map<string, string>, fixMap: map<string, string>)
  {
    0 <= i <= |records| &&
    stored == CompleteRows(records[..i]) &&
    success == |stored| && failed == i - |stored| &&
    errors == ErrorsOf(records[..i], symptomMap, fixMap)
  }

  /** The body of the import loop for row `i`: the row is stored, or counted
      as failed with its message, and the tables follow the replay. */
  method ImportNext(db: DatabaseManager, records: seq<ImportRow>, i: int, symptomMap: map<string, string>,
    fixMap: map<string, string>, success: nat, failed: nat, errors: seq<ImportError>,
    ghost records0: seq<MaintenanceRecord>, ghost parts0: seq<Part>, ghost usages0: seq<PartUsage>, ghost lastId0: nat,
    ghost stored: seq<ImportRow>)
    returns (success': nat, failed': nat, errors': seq<ImportError>, ghost stored': seq<ImportRow>)
    requires 0 <= i < |records|
    requires db.Valid()
    requires Progress(records, i, success, failed, errors, stored, symptomMap, fixMap)
    requires Replayed(db.records, db.parts, db.usages, db.lastRecordId, records0, parts0, usages0, lastId0, stored,
      symptomMap, fixMap)
    modifies db
    ensures db.Valid()
    ensures Progress(records, i + 1, success', failed', errors', stored', symptomMap, fixMap)
    ensures Replayed(db.records, db.parts, db.usages, db.lastRecordId, records0, parts0, usages0, lastId0, stored',
      symptomMap, fixMap)
  {
    var row := records[i];
    PrefixStep(records, i, symptomMap, fixMap);
    var outcome := ImportStep(db, row, symptomMap, fixMap, records0, parts0, usages0, lastId0, stored);
    if outcome.Ok? {
      success', failed', errors', stored' := success + 1, failed, errors, stored + [row];
    } else {
      success', failed', errors', stored' := success, failed + 1, errors + [ImportError(row, outcome.message)], stored;
    }
  }

  /** The insert loop of `importRecords` under given representative maps:
      every row is tried in order, a refused row is counted and reported,
      and the loop goes on. */
  method ImportRows(db: DatabaseManager, records: seq<ImportRow>, symptomMap: map<string, string>, fixMap: map<string, string>)
    returns (result: ImportResult)
    requires db.Valid()
    modifies db
    ensures db.Valid()
    ensures result.success == |CompleteRows(records)|
    ensures result.failed == |records| - |CompleteRows(records)|
    ensures result.errors == ErrorsOf(records, symptomMap, fixMap)
    ensures Replayed(db.records, db.parts, db.usages, db.lastRecordId, old(db.records), old(db.parts), old(db.usages),
      old(db.lastRecordId), CompleteRows(records), symptomMap, fixMap)
  {
    ghost var records0, parts0, usages0, lastId0 := db.records, db.parts, db.usages, db.lastRecordId;
    var success: nat, failed: nat, errors: seq<ImportError> := 0, 0, [];
    ghost var stored: seq<ImportRow> := [];
    for i := 0 to |records|
      invariant db.Valid()
      invariant Progress(records, i, success, failed, errors, stored, symptomMap, fixMap)
      invariant Replayed(db.records, db.parts, db.usages, db.lastRecordId, records0, parts0, usages0, lastId0, stored,
        symptomMap, fixMap)
    {
      success, failed, errors, stored :=
        ImportNext(db, records, i, symptomMap, fixMap, success, failed, errors, records0, parts0, usages0, lastId0, stored);
    }
    assert records[..|records|] == records;
    result := ImportResult(success, failed, errors);
  }

  /** `importRecords`: clusters the truthy symptoms and fixes at 0.75, maps
      each variant to its representative, then tries every row in order: a
      complete row is stored with its normalised symptom and fix and, when
      it names a part, the part (insert-or-ignore) and one usage of
      `court_part || 1` on its failure date; an incomplete row is counted as
      failed with the store's message, and the import goes on. */
  method ImportRecords(db: DatabaseManager, records: seq<ImportRow>)
    returns (result: ImportResult, ghost symptomClusters: seq<Cluster>, ghost fixClusters: seq<Cluster>)
    requires db.Valid()
    modifies db
    ensures db.Valid()
    ensures Clustering(Present(Symptoms(records)), ImportThreshold, Similarity, symptomClusters)
    ensures Clustering(Present(Fixes(records)), ImportThreshold, Similarity, fixClusters)
    ensures var sm := RepresentativeMap(symptomClusters);
      var fm := RepresentativeMap(fixClusters);
      var stored := CompleteRows(records);
      result.success == |stored| &&
      result.failed == |records| - |stored| &&
      result.errors == ErrorsOf(records, sm, fm) &&
      db.records == old(db.records) + NewRecords(old(db.lastRecordId), stored, sm, fm) &&
      db.lastRecordId == old(db.lastRecordId) + |stored| &&
      db.parts == PartsAfter(old(db.parts), stored) &&
      db.usages == old(db.usages) + UsagesAdded(old(db.lastRecordId), stored)
  {
    var symptoms := Present(Symptoms(records));
    var symptomGroups := ClusterSimilarTexts(symptoms, ImportThreshold);
    var fixes := Present(Fixes(records));
    var fixGroups := ClusterSimilarTexts(fixes, ImportThreshold);
    symptomClusters, fixClusters := symptomGroups, fixGroups;
    var symptomMap := BuildRepresentativeMap(symptomGroups);
    var fixMap := BuildRepresentativeMap(fixGroups);
    result := ImportRows(db, records, symptomMap, fixMap);
  }

  // ---------------------------------------------------------------------
  // calculateDaysBetween, analyzeFailureFrequency

  /** `calculateDaysBetween`: the whole number of days, rounded up, between
      two instants given in days. */
  function DaysBetween(start: real, end: real): (days: nat)
    ensures (if end < start then start - end else end - start) <= days as real
    ensures days as real < (if end < start then start - end else end - start) + 1.0
  {
    Ceil(if end < start then start - end else end - start)
  }

  /** The count does not depend on the order of the two dates. */
  lemma DaysBetweenSymmetric(a: real, b: real)
    ensures DaysBetween(a, b) == DaysBetween(b, a)
  {
  }

  /** Between two calendar days the count is their exact distance. */
  lemma DaysBetweenWholeDays(a: int, b: int)
    ensures DaysBetween(a as real, b as real) == Abs(b - a)
  {
  }

  /** One entry of `analyzeFailureFrequency`; the monthly rate is printed
      with `toFixed(2)`, so it is kept in hundredths. */
  datatype FrequencyReport = FrequencyReport(machine: string, machineSide: Option<string>, failureCount: nat,
    failuresPerMonthCents: int, commonSymptoms: seq<string>)

  /** `symptoms ? symptoms.split(',') : []`. */
  function CommonSymptoms(symptoms: Option<string>): seq<string>
  {
    if Truthy(symptoms) then Split(symptoms.value, ',') else []
  }

  /** A count per 30-day month over a span of `days` days. */
  function MonthlyRate(count: int, days: nat): (rate: real)
    requires days > 0
    ensures rate * (days as real) == 30.0 * (count as real)
    ensures count >= 0 ==> rate >= 0.0
  {
    var rate := count as real / (days as real / 30.0);
    assert rate * (days as real / 30.0) == count as real;
    rate
  }

  /** Each group with its monthly rate over `days` days, to the cent, and
      its symptom list. */
  function Reports(groups: seq<FrequencyRow>, days: nat): (r: seq<FrequencyReport>)
    requires days > 0 || groups == []
    ensures |r| == |groups|
    ensures forall k :: 0 <= k < |r| ==>
      r[k].machine == groups[k].machine && r[k].machineSide == groups[k].machineSide &&
      r[k].failureCount == groups[k].failureCount &&
      r[k].commonSymptoms == CommonSymptoms(groups[k].symptoms)
    ensures forall k :: 0 <= k < |r| ==>
      var rate := MonthlyRate(groups[k].failureCount, days);
      rate * 100.0 - 0.5 < r[k].failuresPerMonthCents as real <= rate * 100.0 + 0.5
  {
    seq(|groups|, k requires 0 <= k < |groups| =>
      FrequencyReport(groups[k].machine, groups[k].machineSide, groups[k].failureCount,
        Round(MonthlyRate(groups[k].failureCount, days) * 100.0), CommonSymptoms(groups[k].symptoms)))
  }

  /** `analyzeFailureFrequency`: each group of the store's failure frequency
      with its rate per 30-day month of the period. The span must be
      positive when there is a group to divide. */
  function AnalyzeFailureFrequency(records: seq<MaintenanceRecord>, machine: string, start: int, end: int)
    : (r: seq<FrequencyReport>)
    requires start != end || FailureFrequency(records, machine, start, end) == []
    ensures var groups := FailureFrequency(records, machine, start, end);
      |r| == |groups| &&
      forall k :: 0 <= k < |r| ==>
        r[k].machine == groups[k].machine && r[k].machineSide == groups[k].machineSide &&
        r[k].failureCount == groups[k].failureCount &&
        r[k].commonSymptoms == CommonSymptoms(groups[k].symptoms) &&
        var rate := MonthlyRate(groups[k].failureCount, Abs(end - start));
        rate * 100.0 - 0.5 < r[k].failuresPerMonthCents as real <= rate * 100.0 + 0.5
  {
    DaysBetweenWholeDays(start, end);
    Reports(FailureFrequency(records, machine, start, end), DaysBetween(start as real, end as real))
  }

  /** Texts that survive a comma-joined list: none empty, none with a comma. */
  predicate Listable(values: seq<string>)
  {
    forall k :: 0 <= k < |values| ==> values[k] != "" && ',' !in values[k]
  }

  /** The symptom list of a group is its distinct normalised symptoms again,
      provided none is empty or contains a comma. */
  lemma CommonSymptomsRoundTrip(rows: seq<MaintenanceRecord>, machine: string, side: Option<string>)
    requires Listable(DistinctSymptoms(OnSide(rows, side)))
    ensures CommonSymptoms(Group(rows, machine, side).symptoms) == DistinctSymptoms(OnSide(rows, side))
  {
    var values := DistinctSymptoms(OnSide(rows, side));
    if values != [] {
      JoinSplit(values, ',');
      if |values| == 1 {
        assert Join(values, ',') == values[0];
      } else {
        assert |Join(values, ',')| > 0;
      }
    }
  }

  // ---------------------------------------------------------------------
  // calculateReplacementUrgency

  /** `Math.min(100, Math.max(0, x))`. */
  function Clamp(x: real): (r: real)
    ensures 0.0 <= r <= 100.0
    ensures 0.0 <= x <= 100.0 ==> r == x
  {
    if x < 0.0 then 0.0 else if x > 100.0 then 100.0 else x
  }

  /** A ratio to a positive `a` reaches `c` exactly when `d` reaches `c * a`. */
  lemma RatioAtLeast(d: real, a: real, c: real)
    requires a > 0.0
    ensures d / a >= c <==> d >= c * a
  {
    var q := d / a;
    assert q * a == d;
    assert (q - c) * a == d - c * a;
    ProductSign(q - c, a);
  }

  lemma ProductSign(x: real, a: real)
    requires a > 0.0
    ensures x >= 0.0 <==> x * a >= 0.0
  {
  }

  /** `calculateReplacementUrgency`: how pressing a replacement is, from 0 to
      100, given the days since the last one (null when there is none) and
      the average and shortest lifespans. Past the average it is 100; from
      80% of the average it climbs from 50; otherwise past the shortest
      lifespan it is 75, and below that it grows with the share of the
      average elapsed, under 40. */
  function ReplacementUrgency(daysSince: Option<nat>, avgLifespan: real, minLifespan: real): (u: real)
    ensures 0.0 <= u <= 100.0
    ensures daysSince.None? || daysSince == Some(0) || avgLifespan == 0.0 ==> u == 0.0
    ensures daysSince.Some? && avgLifespan > 0.0 ==>
      var d := daysSince.value as real;
      (d >= avgLifespan ==> u == 100.0) &&
      (0.8 * avgLifespan <= d < avgLifespan ==> 50.0 <= u < 100.0) &&
      (d < 0.8 * avgLifespan && 0.0 < minLifespan <= d ==> u == 75.0) &&
      (d < 0.8 * avgLifespan && !(0.0 < minLifespan <= d) ==> u < 40.0)
    ensures daysSince.Some? && daysSince.value > 0 && avgLifespan > 0.0 ==>
      var d := daysSince.value as real;
      (0.8 * avgLifespan <= d < avgLifespan ==> u == 50.0 + (d / avgLifespan - 0.8) * 250.0) &&
      (d < 0.8 * avgLifespan && !(0.0 < minLifespan <= d) ==> u == d / avgLifespan * 50.0)
  {
    if daysSince.None? || daysSince.value == 0 || avgLifespan == 0.0 then 0.0
    else
      var d := daysSince.value as real;
      var avgRatio := d / avgLifespan;
      var minRatio := if minLifespan > 0.0 then d / minLifespan else 0.0;
      var urgency :=
        if avgRatio >= 1.0 then 100.0
        else if avgRatio >= 0.8 then 50.0 + (avgRatio - 0.8) * 250.0
        else if minRatio >= 1.0 then 75.0
        else avgRatio * 50.0;
      if avgLifespan > 0.0 then
        RatioAtLeast(d, avgLifespan, 1.0);
        RatioAtLeast(d, avgLifespan, 0.8);
        RatioAtLeast(d, avgLifespan, 0.0);
        if minLifespan > 0.0 then
          RatioAtLeast(d, minLifespan, 1.0);
          Clamp(urgency)
        else Clamp(urgency)
      else Clamp(urgency)
  }

  /** The urgency does not grow with the days elapsed: with an average
      lifespan of 100 days and a shortest of 10, day 79 scores 75 and day
      80 only 50. */
  lemma UrgencyNotMonotone()
    ensures ReplacementUrgency(Some(79), 100.0, 10.0) == 75.0
    ensures ReplacementUrgency(Some(80), 100.0, 10.0) == 50.0
  {
  }

  // ---------------------------------------------------------------------
  // analyzePartUsage

  /** The accumulator of one part in `analyzePartUsage`. */
  datatype PartTally = PartTally(namePart: string, replacementCount: nat, lifespans: seq<int>,
    lastReplacement: Option<int>)

  /** A part's accumulator before its first row. */
  const NoReplacement := PartTally("", 0, [], None)

  function PartCodeOf(stat: LifespanRow): string { stat.partCode }

  function DateOf(stat: LifespanRow): int { stat.date }

  /** `days_between` is truthy and positive. */
  predicate HasLifespan(stat: LifespanRow) { stat.daysBetween.Some? && stat.daysBetween.value > 0 }

  /** One row fed to its part's accumulator: the name comes from the part's
      first row, every row is one more replacement, a positive gap is one
      more lifespan and a later date is the new last replacement. */
  function AddReplacement(acc: PartTally, stat: LifespanRow): PartTally
  {
    PartTally(
      if acc.replacementCount == 0 then stat.namePart else acc.namePart,
      acc.replacementCount + 1,
      acc.lifespans + (if HasLifespan(stat) then [stat.daysBetween.value] else []),
      if acc.lastReplacement.None? || stat.date > acc.lastReplacement.value then Some(stat.date)
      else acc.lastReplacement)
  }

  /** The positive gaps of `stats`, in order. */
  function Lifespans(stats: seq<LifespanRow>): (r: seq<int>)
    ensures |r| == |Filter(stats, HasLifespan)|
    ensures forall k :: 0 <= k < |r| ==> r[k] == Filter(stats, HasLifespan)[k].daysBetween.value && r[k] > 0
  {
    var kept := Filter(stats, HasLifespan);
    seq(|kept|, k requires 0 <= k < |kept| => kept[k].daysBetween.value)
  }

  lemma LifespansAppend(stats: seq<LifespanRow>, x: LifespanRow)
    ensures Lifespans(stats + [x]) == Lifespans(stats) + (if HasLifespan(x) then [x.daysBetween.value] else [])
  {
    FilterAppend(stats, x, HasLifespan);
  }

  /** What a part's accumulator holds after its rows `ms`: the first row's
      name, one replacement per row, the positive gaps in order and the
      latest date. */
  lemma {:induction false} PartTallyOf(ms: seq<LifespanRow>)
    requires ms != []
    ensures FoldOf(ms, NoReplacement, AddReplacement) ==
      PartTally(ms[0].namePart, |ms|, Lifespans(ms), Some(MaxOf(ms, DateOf)))
    decreases |ms|
  {
    var init := ms[..|ms| - 1];
    var x := ms[|ms| - 1];
    var gaps := if HasLifespan(x) then [x.daysBetween.value] else [];
    assert FoldOf(ms, NoReplacement, AddReplacement) == AddReplacement(FoldOf(init, NoReplacement, AddReplacement), x);
    assert Lifespans(ms) == Lifespans(init) + gaps by {
      assert ms == init + [x];
      LifespansAppend(init, x);
    }
    if init == [] {
      assert Lifespans(init) == [];
      assert MaxOf(ms, DateOf) == x.date;
    } else {
      PartTallyOf(init);
      assert init[0] == ms[0];
      assert MaxOf(ms, DateOf) == if x.date > MaxOf(init, DateOf) then x.date else MaxOf(init, DateOf);
    }
  }

  /** The accumulators of `analyzePartUsage`, one per part code in the order
      the codes first appear. */
  function PartGroups(stats: seq<LifespanRow>): seq<(string, PartTally)>
  {
    GroupedOf(stats, PartCodeOf, NoReplacement, AddReplacement)
  }

  /** Each part's accumulator describes exactly the rows of that part. */
  lemma PartGroupsMeaning(stats: seq<LifespanRow>, k: int)
    requires 0 <= k < |PartGroups(stats)|
    ensures var code := PartGroups(stats)[k].0;
      var ms := Members(stats, PartCodeOf, code);
      code == Keys(stats, PartCodeOf)[k] && ms != [] &&
      PartGroups(stats)[k].1 == PartTally(ms[0].namePart, Occurrences(stats, PartCodeOf, code), Lifespans(ms),
        Some(MaxOf(ms, DateOf)))
  {
    var ks := Keys(stats, PartCodeOf);
    FoldsForAt(stats, PartCodeOf, NoReplacement, AddReplacement, ks, k);
    MembersNonEmpty(stats, PartCodeOf, k);
    MembersOccurrences(stats, PartCodeOf, ks[k]);
    PartTallyOf(Members(stats, PartCodeOf, ks[k]));
  }

  /** One entry of `analyzePartUsage`. */
  datatype PartUsageReport = PartUsageReport(partCode: string, namePart: string, replacementCount: nat,
    avgLifespanDays: int, minLifespanDays: int, maxLifespanDays: int, lastReplacement: Option<int>,
    daysSinceLastReplacement: Option<nat>, nextReplacementEstimate: Option<int>, replacementUrgency: real)

  function IntValue(x: int): int { x }

  /** The mean of the non-empty `s`. */
  function Mean(s: seq<int>): (m: real)
    requires s != []
    ensures m * (|s| as real) == SumOf(s, IntValue) as real
  {
    SumOf(s, IntValue) as real / |s| as real
  }

  lemma MulSucc(a: int, b: int)
    ensures (a + 1) * b == a * b + b
  {
  }

  lemma {:induction false} SumBetween(s: seq<int>, lo: int, hi: int)
    requires forall k :: 0 <= k < |s| ==> lo <= s[k] <= hi
    ensures |s| * lo <= SumOf(s, IntValue) <= |s| * hi
    decreases |s|
  {
    if s != [] {
      var init := s[..|s| - 1];
      var x := s[|s| - 1];
      SumBetween(init, lo, hi);
      assert SumOf(s, IntValue) == SumOf(init, IntValue) + x;
      MulSucc(|init|, lo);
      MulSucc(|init|, hi);
    }
  }

  /** The mean lies between the least and the greatest value. */
  lemma MeanBounds(s: seq<int>)
    requires s != []
    ensures MinOf(s, IntValue) as real <= Mean(s) <= MaxOf(s, IntValue) as real
  {
    var lo := MinOf(s, IntValue);
    var hi := MaxOf(s, IntValue);
    SumBetween(s, lo, hi);
    QuotientBetween(SumOf(s, IntValue), |s|, lo, hi);
  }

  /** A total between `n * lo` and `n * hi` has its share in `[lo, hi]`. */
  lemma QuotientBetween(sum: int, n: nat, lo: int, hi: int)
    requires n > 0 && n * lo <= sum <= n * hi
    ensures lo as real <= sum as real / n as real <= hi as real
  {
    var q := sum as real / n as real;
    assert q * n as real == sum as real;
    assert (n * lo) as real == n as real * lo as real;
    assert (n * hi) as real == n as real * hi as real;
  }

  /** Rounding keeps the order of an integer below or above a real. */
  lemma RoundBetween(lo: int, x: real, hi: int)
    requires lo as real <= x <= hi as real
    ensures lo <= Round(x) <= hi
  {
  }

  /** The report of one part, `today` being the current UTC date. */
  function PartReport(code: string, acc: PartTally, today: int): (r: PartUsageReport)
    ensures r.partCode == code && r.namePart == acc.namePart && r.replacementCount == acc.replacementCount
    ensures r.lastReplacement == acc.lastReplacement
    ensures acc.lifespans != [] ==>
      r.minLifespanDays == MinOf(acc.lifespans, IntValue) && r.maxLifespanDays == MaxOf(acc.lifespans, IntValue) &&
      r.minLifespanDays <= r.avgLifespanDays <= r.maxLifespanDays
    ensures acc.lifespans == [] ==>
      r.avgLifespanDays == 0 && r.minLifespanDays == 0 && r.maxLifespanDays == 0 && r.nextReplacementEstimate.None?
    ensures acc.lastReplacement.None? ==> r.daysSinceLastReplacement.None? && r.nextReplacementEstimate.None?
    ensures acc.lastReplacement.Some? ==>
      r.daysSinceLastReplacement == Some(Abs(today - acc.lastReplacement.value))
    ensures acc.lastReplacement.Some? && acc.lifespans != [] ==>
      r.nextReplacementEstimate.Some? &&
      acc.lastReplacement.value + r.minLifespanDays <= r.nextReplacementEstimate.value <=
        acc.lastReplacement.value + r.maxLifespanDays
    ensures acc.lifespans != [] ==> r.avgLifespanDays == Round(Mean(acc.lifespans))
    ensures acc.lastReplacement.Some? && acc.lifespans != [] ==>
      r.nextReplacementEstimate == Some(acc.lastReplacement.value + Floor(Mean(acc.lifespans)))
    ensures r.replacementUrgency == ReplacementUrgency(r.daysSinceLastReplacement,
      if acc.lifespans == [] then 0.0 else Mean(acc.lifespans), r.minLifespanDays as real)
    ensures 0.0 <= r.replacementUrgency <= 100.0
  {
    var n := |acc.lifespans|;
    var avg := if n > 0 then Mean(acc.lifespans) else 0.0;
    var lo := if n > 0 then MinOf(acc.lifespans, IntValue) else 0;
    var hi := if n > 0 then MaxOf(acc.lifespans, IntValue) else 0;
    var next := if n > 0 && acc.lastReplacement.Some? then Some(acc.lastReplacement.value + Floor(avg)) else None;
    var since := if acc.lastReplacement.Some? then Some(DaysBetween(acc.lastReplacement.value as real, today as real))
      else None;
    LifespanFacts(acc.lifespans);
    DaysBetweenWholeDays(if acc.lastReplacement.Some? then acc.lastReplacement.value else 0, today);
    PartUsageReport(code, acc.namePart, acc.replacementCount, Round(avg), lo, hi, acc.lastReplacement,
      since, next, ReplacementUrgency(since, avg, lo as real))
  }

  /** The rounded and the floored mean of the lifespans lie between the
      shortest and the longest. */
  lemma LifespanFacts(s: seq<int>)
    ensures s != [] ==>
      MinOf(s, IntValue) <= Round(Mean(s)) <= MaxOf(s, IntValue) &&
      MinOf(s, IntValue) <= Floor(Mean(s)) <= MaxOf(s, IntValue)
  {
    if s != [] {
      MeanBounds(s);
      RoundBetween(MinOf(s, IntValue), Mean(s), MaxOf(s, IntValue));
    }
  }

  function PartReports(groups: seq<(string, PartTally)>, today: int): (r: seq<PartUsageReport>)
    ensures |r| == |groups|
    ensures forall k :: 0 <= k < |r| ==> r[k] == PartReport(groups[k].0, groups[k].1, today)
  {
    seq(|groups|, k requires 0 <= k < |groups| => PartReport(groups[k].0, groups[k].1, today))
  }

  function UrgencyKey(r: PartUsageReport): real { r.replacementUrgency }

  function ReplacementsOf(r: PartUsageReport): int { r.replacementCount }

  lemma {:induction false} PartReportsTotal(stats: seq<LifespanRow>, ks: seq<string>, today: int)
    ensures SumOf(PartReports(FoldsFor(stats, PartCodeOf, NoReplacement, AddReplacement, ks), today), ReplacementsOf) ==
      TotalOccurrences(stats, PartCodeOf, ks)
    decreases |ks|
  {
    if ks != [] {
      var init := ks[..|ks| - 1];
      var k := ks[|ks| - 1];
      PartReportsTotal(stats, init, today);
      var before := FoldsFor(stats, PartCodeOf, NoReplacement, AddReplacement, init);
      var report := PartReport(k, FoldOf(Members(stats, PartCodeOf, k), NoReplacement, AddReplacement), today);
      assert PartReports(FoldsFor(stats, PartCodeOf, NoReplacement, AddReplacement, ks), today) ==
        PartReports(before, today) + [report];
      SumOfAppend(PartReports(before, today), report, ReplacementsOf);
      KeyReplacements(stats, k, today);
    }
  }

  /** The report of one part code counts the rows of that code. */
  lemma KeyReplacements(stats: seq<LifespanRow>, k: string, today: int)
    ensures PartReport(k, FoldOf(Members(stats, PartCodeOf, k), NoReplacement, AddReplacement), today).replacementCount ==
      Occurrences(stats, PartCodeOf, k)
  {
    MembersOccurrences(stats, PartCodeOf, k);
    if Members(stats, PartCodeOf, k) != [] {
      PartTallyOf(Members(stats, PartCodeOf, k));
    }
  }

  /** `analyzePartUsage`: one report per part used on the machine (and side,
      when given), most urgent first, ties in first-seen order; the
      replacement counts add up to the rows of `getPartLifespanStats`. */
  method AnalyzePartUsage(records: seq<MaintenanceRecord>, parts: seq<Part>, usages: seq<PartUsage>,
    machine: string, machineSide: Option<string>, today: int) returns (r: seq<PartUsageReport>)
    ensures var stats := PartLifespanStats(records, parts, usages, machine, machineSide, None);
      multiset(r) == multiset(PartReports(PartGroups(stats), today)) &&
      SumOf(r, ReplacementsOf) == |stats|
    ensures Descending(r, UrgencyKey)
    ensures TiesInOrder(r, PartReports(PartGroups(PartLifespanStats(records, parts, usages, machine, machineSide, None)), today),
      UrgencyKey)
    ensures forall x :: x in r ==>
      0.0 <= x.replacementUrgency <= 100.0 && x.minLifespanDays <= x.avgLifespanDays <= x.maxLifespanDays
  {
    var stats := PartLifespanStats(records, parts, usages, machine, machineSide, None);
    var groups := GroupFold(stats, PartCodeOf, NoReplacement, AddReplacement);
    var reports := PartReports(groups, today);
    r := SortDesc(reports, UrgencyKey);
    SortDescTies(reports, UrgencyKey);
    PartReportsTotal(stats, Keys(stats, PartCodeOf), today);
    TallyTotal(stats, PartCodeOf);
    SumOfPermutation(reports, r, ReplacementsOf);
    forall x | x in r
      ensures 0.0 <= x.replacementUrgency <= 100.0 && x.minLifespanDays <= x.avgLifespanDays <= x.maxLifespanDays
    {
      assert x in multiset(reports);
      var k :| 0 <= k < |reports| && reports[k] == x;
    }
  }

  // ---------------------------------------------------------------------
  // getRecommendedPartInventory

  function RecordDate(rec: MaintenanceRecord): int { rec.date }

  /** The days between the earliest and the latest failure of `recs`. */
  function Span(recs: seq<MaintenanceRecord>): (days: nat)
    requires recs != []
    ensures days == MaxOf(recs, RecordDate) - MinOf(recs, RecordDate)
  {
    var first := MinOf(recs, RecordDate);
    var last := MaxOf(recs, RecordDate);
    DaysBetweenWholeDays(first, last);
    DaysBetween(first as real, last as real)
  }

  /** `SELECT part_code, quantity FROM part_usage WHERE maintenance_id = ?`:
      the usages of one record, in table order. */
  function UsagesOfRecord(rec: MaintenanceRecord, usages: seq<PartUsage>): (r: seq<PartUsage>)
    ensures forall u :: u in r <==> u in usages && u.maintenanceId == rec.id
    ensures |r| == Count(usages, (u: PartUsage) => u.maintenanceId == rec.id)
  {
    var p := (u: PartUsage) => u.maintenanceId == rec.id;
    FilterMember(usages, p);
    Filter(usages, p)
  }

  /** The usages of each of `recs` in turn. */
  function UsagesOf(recs: seq<MaintenanceRecord>, usages: seq<PartUsage>): seq<PartUsage>
    decreases |recs|
  {
    if recs == [] then []
    else UsagesOf(recs[..|recs| - 1], usages) + UsagesOfRecord(recs[|recs| - 1], usages)
  }

  function UsageCode(u: PartUsage): string { u.code }

  function UsageQuantity(u: PartUsage): int { u.quantity }

  /** `total_usage += part.quantity`. */
  function AddQuantity(total: int, u: PartUsage): int { total + u.quantity }

  /** A running total is the sum of the quantities fed to it. */
  lemma {:induction false} TotalIsSum(ms: seq<PartUsage>)
    ensures FoldOf(ms, 0, AddQuantity) == SumOf(ms, UsageQuantity)
    decreases |ms|
  {
    if ms != [] {
      TotalIsSum(ms[..|ms| - 1]);
    }
  }

  /** The totals of `getRecommendedPartInventory`, one per part code in the
      order the codes first appear among the usages of `recs`. */
  function UsageTotals(recs: seq<MaintenanceRecord>, usages: seq<PartUsage>): seq<(string, int)>
  {
    GroupedOf(UsagesOf(recs, usages), UsageCode, 0, AddQuantity)
  }

  /** Each part's total is the sum of the quantities of its usages. */
  lemma UsageTotalsMeaning(recs: seq<MaintenanceRecord>, usages: seq<PartUsage>, k: int)
    requires 0 <= k < |UsageTotals(recs, usages)|
    ensures var used := UsagesOf(recs, usages);
      UsageTotals(recs, usages)[k] ==
        (Keys(used, UsageCode)[k], SumOf(Members(used, UsageCode, Keys(used, UsageCode)[k]), UsageQuantity))
  {
    var used := UsagesOf(recs, usages);
    FoldsForAt(used, UsageCode, 0, AddQuantity, Keys(used, UsageCode), k);
    TotalIsSum(Members(used, UsageCode, Keys(used, UsageCode)[k]));
  }

  lemma UsagesOfAppend(recs: seq<MaintenanceRecord>, rec: MaintenanceRecord, usages: seq<PartUsage>)
    ensures UsagesOf(recs + [rec], usages) == UsagesOf(recs, usages) + UsagesOfRecord(rec, usages)
  {
    assert (recs + [rec])[..|recs|] == recs;
  }

  /** One pass of the outer loop of `getRecommendedPartInventory`: the
      usages of `rec` added to the totals of the records `done`. */
  method AddRecordUsages(totals: seq<(string, int)>, ghost done: seq<MaintenanceRecord>, rec: MaintenanceRecord,
    usages: seq<PartUsage>) returns (next: seq<(string, int)>)
    requires Filled(totals, UsagesOf(done, usages), UsageCode, 0, AddQuantity)
    ensures Filled(next, UsagesOf(done + [rec], usages), UsageCode, 0, AddQuantity)
  {
    var rows := UsagesOfRecord(rec, usages);
    next := AccumulateAll(totals, UsagesOf(done, usages), rows, UsageCode, 0, AddQuantity);
    UsagesOfAppend(done, rec, usages);
  }

  /** The loops of `getRecommendedPartInventory`: over the records, and over
      each record's usages, adding each quantity to its part's total. */
  method TotalUsage(recs: seq<MaintenanceRecord>, usages: seq<PartUsage>) returns (totals: seq<(string, int)>)
    ensures totals == UsageTotals(recs, usages)
  {
    totals := [];
    for i := 0 to |recs|
      invariant Filled(totals, UsagesOf(recs[..i], usages), UsageCode, 0, AddQuantity)
    {
      totals := AddRecordUsages(totals, recs[..i], recs[i], usages);
      assert recs[..i + 1] == recs[..i] + [recs[i]];
    }
    assert Filled(totals, UsagesOf(recs, usages), UsageCode, 0, AddQuantity) by {
      assert recs[..|recs|] == recs;
    }
  }

  /** One entry of `getRecommendedPartInventory`; the monthly usage is kept
      in hundredths, as `toFixed(2)` prints it. */
  datatype InventoryItem = InventoryItem(partCode: string, namePart: string, historicalUsage: int,
    usagePerMonthCents: int, recommendedQuantity: int, forecastMonths: int)

  /** The part's name, or `'N/A'` when no part has the code. */
  function PartName(parts: seq<Part>, code: string): (name: string)
    ensures PartByCode(parts, code).None? ==> name == "N/A"
    ensures PartByCode(parts, code).Some? ==> name == PartByCode(parts, code).value.name
  {
    match PartByCode(parts, code)
    case Some(p) => p.name
    case None => "N/A"
  }

  /** The recommendation for one part's total over `days` days. */
  function Recommendation(parts: seq<Part>, code: string, total: int, days: nat, forecastMonths: int)
    : (item: InventoryItem)
    requires days > 0
    ensures item.partCode == code && item.namePart == PartName(parts, code)
    ensures item.historicalUsage == total && item.forecastMonths == forecastMonths
    ensures var rate := MonthlyRate(total, days);
      rate * 100.0 - 0.5 < item.usagePerMonthCents as real <= rate * 100.0 + 0.5 &&
      rate * forecastMonths as real <= item.recommendedQuantity as real < rate * forecastMonths as real + 1.0
  {
    var rate := MonthlyRate(total, days);
    InventoryItem(code, PartName(parts, code), total, Round(rate * 100.0), Ceil(rate * forecastMonths as real),
      forecastMonths)
  }

  function Recommendations(parts: seq<Part>, totals: seq<(string, int)>, days: nat, forecastMonths: int)
    : (r: seq<InventoryItem>)
    requires days > 0 || totals == []
    ensures |r| == |totals|
    ensures forall k :: 0 <= k < |r| ==> r[k] == Recommendation(parts, totals[k].0, totals[k].1, days, forecastMonths)
  {
    seq(|totals|, k requires 0 <= k < |totals| => Recommendation(parts, totals[k].0, totals[k].1, days, forecastMonths))
  }

  function UsageKey(item: InventoryItem): real { item.usagePerMonthCents as real }

  /** `getRecommendedPartInventory`: nothing for a machine without records;
      otherwise one recommendation per part used on the machine, highest
      monthly usage first, ties in first-seen order. The span of the
      machine's failures must be positive when there is a usage to divide. */
  method GetRecommendedPartInventory(records: seq<MaintenanceRecord>, parts: seq<Part>, usages: seq<PartUsage>,
    machine: string, forecastMonths: int) returns (r: seq<InventoryItem>)
    requires var recs := RecordsByMachine(records, machine);
      recs == [] || Span(recs) > 0 || UsagesOf(recs, usages) == []
    ensures var recs := RecordsByMachine(records, machine);
      (recs == [] ==> r == []) &&
      (recs != [] ==>
        multiset(r) == multiset(Recommendations(parts, UsageTotals(recs, usages), Span(recs), forecastMonths)))
    ensures Descending(r, UsageKey)
    ensures var recs := RecordsByMachine(records, machine);
      recs != [] ==> TiesInOrder(r, Recommendations(parts, UsageTotals(recs, usages), Span(recs), forecastMonths), UsageKey)
  {
    var recs := RecordsByMachine(records, machine);
    if recs == [] {
      return [];
    }
    var days := Span(recs);
    var totals := TotalUsage(recs, usages);
    var items := Recommendations(parts, totals, days, forecastMonths);
    r := SortDesc(items, UsageKey);
    SortDescTies(items, UsageKey);
  }

  // ---------------------------------------------------------------------
  // getMachineSummary

  /** `machine_side || 'N/A'`. */
  function SideLabel(rec: MaintenanceRecord): string
  {
    if Truthy(rec.machineSide) then rec.machineSide.value else "N/A"
  }

  /** `symptom_normalized || symptom`. */
  function SymptomLabel(rec: MaintenanceRecord): string
  {
    if Truthy(rec.symptomNormalized) then rec.symptomNormalized.value else rec.symptom
  }

  /** How many of the most frequent symptoms the summary lists. */
  const TopSymptomCount: nat := 5

  function CountKey(e: (string, nat)): real { e.1 as real }

  /** The summary of one machine's records; the monthly failure rate is in
      hundredths, as `toFixed(2)` prints it, and is absent where the span is
      0 days and JavaScript prints `Infinity`. */
  datatype MachineSummary = MachineSummary(machine: string, totalFailures: nat, periodDays: nat,
    firstRecord: int, lastRecord: int, failuresPerMonthCents: Option<int>,
    sideBreakdown: seq<(string, nat)>, topSymptoms: seq<(string, nat)>)

  /** No symptom left out of the top list is more frequent than one in it. */
  lemma TopSymptomsDominate(recs: seq<MaintenanceRecord>)
    ensures var all := TallyOf(recs, SymptomLabel);
      var top := Take(SortDesc(all, CountKey), TopSymptomCount);
      forall t, e :: t in top && e in all && e !in top ==> t.1 >= e.1
  {
    var all := TallyOf(recs, SymptomLabel);
    var top := Take(SortDesc(all, CountKey), TopSymptomCount);
    forall t, e | t in top && e in all && e !in top
      ensures t.1 >= e.1
    {
      TakeDescDominates(all, CountKey, TopSymptomCount, t, e);
    }
  }

  /** `((count / days) * 30).toFixed(2)` in hundredths, absent for a span
      of 0 days. */
  function FailuresPerMonthCents(count: nat, days: nat): (cents: Option<int>)
    ensures days == 0 <==> cents.None?
    ensures days > 0 ==> var rate := MonthlyRate(count, days);
      rate * 100.0 - 0.5 < cents.value as real <= rate * 100.0 + 0.5
  {
    if days > 0 then Some(Round(MonthlyRate(count, days) * 100.0)) else None
  }

  /** `s` summarises the non-empty records `recs` of `machine`: their
      failure count, first and last failure dates and the span between
      them, the failures per 30-day month, the failures per side (adding up
      to the count) and the five most frequent symptoms, none of the others
      more frequent than any of them. */
  ghost predicate Summarizes(s: MachineSummary, recs: seq<MaintenanceRecord>, machine: string)
    requires recs != []
  {
    s.machine == machine && s.totalFailures == |recs| &&
    s.firstRecord == MinOf(recs, RecordDate) && s.lastRecord == MaxOf(recs, RecordDate) &&
    s.periodDays == s.lastRecord - s.firstRecord &&
    s.failuresPerMonthCents == FailuresPerMonthCents(|recs|, s.periodDays) &&
    s.sideBreakdown == TallyOf(recs, SideLabel) &&
    SumOf(s.sideBreakdown, EntryCount) == s.totalFailures &&
    s.topSymptoms == Take(SortDesc(TallyOf(recs, SymptomLabel), CountKey), TopSymptomCount) &&
    forall t, e :: t in s.topSymptoms && e in TallyOf(recs, SymptomLabel) && e !in s.topSymptoms ==> t.1 >= e.1
  }

  /** The summary of the non-empty records of one machine. */
  method Summarize(recs: seq<MaintenanceRecord>, machine: string) returns (s: MachineSummary)
    requires recs != []
    ensures Summarizes(s, recs, machine)
  {
    var first := MinOf(recs, RecordDate);
    var last := MaxOf(recs, RecordDate);
    DaysBetweenWholeDays(first, last);
    var totalDays := DaysBetween(first as real, last as real);
    var sides := Tally(recs, SideLabel);
    var symptoms := Tally(recs, SymptomLabel);
    var top := Take(SortDesc(symptoms, CountKey), TopSymptomCount);
    var rate := FailuresPerMonthCents(|recs|, totalDays);
    TallyOfTotal(recs, SideLabel);
    TopSymptomsDominate(recs);
    s := MachineSummary(machine, |recs|, totalDays, first, last, rate, sides, top);
  }

  /** `getMachineSummary`: null for a machine without records, otherwise
      the summary of its records. */
  method GetMachineSummary(records: seq<MaintenanceRecord>, machine: string) returns (summary: Option<MachineSummary>)
    ensures var recs := RecordsByMachine(records, machine);
      (summary.None? <==> recs == []) &&
      (summary.Some? ==> recs != [] && Summarizes(summary.value, recs, machine))
  {
    var recs := RecordsByMachine(records, machine);
    if recs == [] {
      return None;
    }
    var s := Summarize(recs, machine);
    summary := Some(s);
  }
}
