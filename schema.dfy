/** The maintenance record store: the SQLite tables `maintenance_records`,
    `parts` and `part_usage` held as sequences in insertion order, the four
    statements that write them and the queries the analytics read. */
module Schema {
  import opened Common
  import opened Sequences
  import opened Strings

  /** A time of day in seconds; the text column `HH:MM:SS` sorts as this number. */
  type TimeOfDay = t: int | 0 <= t < 86400

  /** A row of `maintenance_records`; the NOT NULL columns are plain values. */
  datatype MaintenanceRecord = MaintenanceRecord(
    id: nat,
    machine: string,
    machineSide: Option<string>,
    symptom: string,
    symptomNormalized: Option<string>,
    date: int,
    time: TimeOfDay,
    repairer: string,
    howToFix: Option<string>,
    fixMethodNormalized: Option<string>)

  /** The values bound to `insertMaintenanceRecord`'s statement; any may be null. */
  datatype RecordInput = RecordInput(
    machine: Option<string>,
    machineSide: Option<string>,
    symptom: Option<string>,
    symptomNormalized: Option<string>,
    date: Option<int>,
    time: Option<TimeOfDay>,
    repairer: Option<string>,
    howToFix: Option<string>,
    fixMethodNormalized: Option<string>)

  /** A row of `parts`: `part_code` is UNIQUE but may be null. */
  datatype Part = Part(code: Option<string>, name: string)

  /** A row of `part_usage`. */
  datatype PartUsage = PartUsage(maintenanceId: int, code: string, quantity: int, date: int)

  /** The NOT NULL columns of `maintenance_records` are all bound. */
  predicate Complete(input: RecordInput)
  {
    input.machine.Some? && input.symptom.Some? && input.date.Some? &&
    input.time.Some? && input.repairer.Some?
  }

  /** The row stored for `input` under `id`. */
  function StoredRecord(id: nat, input: RecordInput): MaintenanceRecord
    requires Complete(input)
  {
    MaintenanceRecord(id, input.machine.value, input.machineSide, input.symptom.value,
      input.symptomNormalized, input.date.value, input.time.value, input.repairer.value,
      input.howToFix, input.fixMethodNormalized)
  }

  /** SQLite's message for the first unbound NOT NULL column, in column order. */
  function MissingColumn(input: RecordInput): (message: string)
    requires !Complete(input)
    ensures message != ""
  {
    var column :=
      if input.machine.None? then "machine"
      else if input.symptom.None? then "symptom"
      else if input.date.None? then "date_failure"
      else if input.time.None? then "time_failure"
      else "repairer";
    "NOT NULL constraint failed: maintenance_records." + column
  }

  /** The record with primary key `id`. */
  function RecordById(records: seq<MaintenanceRecord>, id: int): (r: Option<MaintenanceRecord>)
    ensures r.Some? ==> r.value in records && r.value.id == id
    ensures r.None? <==> forall k :: 0 <= k < |records| ==> records[k].id != id
    decreases |records|
  {
    if records == [] then None
    else if records[|records| - 1].id == id then Some(records[|records| - 1])
    else RecordById(records[..|records| - 1], id)
  }

  /** The part whose `part_code` equals `code` (a null code equals nothing). */
  function PartByCode(parts: seq<Part>, code: string): (r: Option<Part>)
    ensures r.Some? ==> r.value in parts && r.value.code == Some(code)
    ensures r.None? <==> forall k :: 0 <= k < |parts| ==> parts[k].code != Some(code)
    decreases |parts|
  {
    if parts == [] then None
    else if parts[|parts| - 1].code == Some(code) then Some(parts[|parts| - 1])
    else PartByCode(parts[..|parts| - 1], code)
  }

  lemma RecordByIdAppend(records: seq<MaintenanceRecord>, x: MaintenanceRecord, id: int)
    ensures RecordById(records + [x], id) == if x.id == id then Some(x) else RecordById(records, id)
  {
    assert (records + [x])[..|records|] == records;
  }

  lemma PartByCodeAppend(parts: seq<Part>, x: Part, code: string)
    ensures PartByCode(parts + [x], code) == if x.code == Some(code) then Some(x) else PartByCode(parts, code)
  {
    assert (parts + [x])[..|parts|] == parts;
  }

  // ---------------------------------------------------------------------
  // insertPart

  /** `INSERT OR IGNORE`: the row is skipped when its name is null (NOT NULL)
      or its non-null code is already present (UNIQUE). */
  predicate PartInsertable(parts: seq<Part>, code: Option<string>, name: Option<string>)
  {
    name.Some? && (code.None? || PartByCode(parts, code.value).None?)
  }

  /** The `parts` table after `insertPart(code, name)`. */
  function AfterInsertPart(parts: seq<Part>, code: Option<string>, name: Option<string>): (r: seq<Part>)
    ensures |r| == |parts| + (if PartInsertable(parts, code, name) then 1 else 0)
    ensures r[..|parts|] == parts
    ensures code.Some? && name.Some? ==> PartByCode(r, code.value).Some?
    ensures code.Some? && PartByCode(parts, code.value).Some? ==>
      PartByCode(r, code.value) == PartByCode(parts, code.value)
  {
    if PartInsertable(parts, code, name) then
      var r := parts + [Part(code, name.value)];
      assert code.Some? ==> PartByCode(r, code.value) == Some(Part(code, name.value)) by {
        if code.Some? {
          PartByCodeAppend(parts, Part(code, name.value), code.value);
        }
      }
      r
    else parts
  }

  /** Inserting a part whose code is known again changes nothing; the name
      first stored under a code is never replaced. */
  lemma InsertPartIdempotent(parts: seq<Part>, code: Option<string>, name: Option<string>)
    requires code.Some?
    ensures AfterInsertPart(AfterInsertPart(parts, code, name), code, name) == AfterInsertPart(parts, code, name)
  {
  }

  /** A null `part_code` is not UNIQUE-checked: every such insert adds a row. */
  lemma InsertPartNullCode(parts: seq<Part>, name: string)
    ensures |AfterInsertPart(AfterInsertPart(parts, None, Some(name)), None, Some(name))| == |parts| + 2
  {
  }

  /** Every usage row names an existing maintenance record and an existing part. */
  ghost predicate KeysResolve(records: seq<MaintenanceRecord>, parts: seq<Part>, usages: seq<PartUsage>)
  {
    forall k :: 0 <= k < |usages| ==>
      RecordById(records, usages[k].maintenanceId).Some? && PartByCode(parts, usages[k].code).Some?
  }

  lemma KeysResolveAppend(records: seq<MaintenanceRecord>, parts: seq<Part>, usages: seq<PartUsage>, u: PartUsage)
    requires KeysResolve(records, parts, usages)
    requires RecordById(records, u.maintenanceId).Some? && PartByCode(parts, u.code).Some?
    ensures KeysResolve(records, parts, usages + [u])
  {
    var us := usages + [u];
    forall k | 0 <= k < |us|
      ensures RecordById(records, us[k].maintenanceId).Some? && PartByCode(parts, us[k].code).Some?
    {
      if k < |usages| {
        assert us[k] == usages[k];
      }
    }
  }

  /** Why SQLite refuses a `part_usage` row, checking the NOT NULL columns
      in table order and then the foreign keys; `None` when it is accepted. */
  function UsageRejection(records: seq<MaintenanceRecord>, parts: seq<Part>, maintenanceId: int,
    code: Option<string>, quantity: Option<int>, date: Option<int>): (error: Option<string>)
    ensures error.None? <==>
      code.Some? && quantity.Some? && date.Some? &&
      RecordById(records, maintenanceId).Some? && PartByCode(parts, code.value).Some?
  {
    if code.None? then Some("NOT NULL constraint failed: part_usage.part_code")
    else if quantity.None? then Some("NOT NULL constraint failed: part_usage.quantity")
    else if date.None? then Some("NOT NULL constraint failed: part_usage.replacement_date")
    else if RecordById(records, maintenanceId).None? || PartByCode(parts, code.value).None? then
      Some("FOREIGN KEY constraint failed")
    else None
  }

  /** Primary keys ascend in insertion order, start at 1 and never exceed
      the AUTOINCREMENT counter. */
  ghost predicate IdsAscend(records: seq<MaintenanceRecord>, lastRecordId: nat)
  {
    (forall i, j :: 0 <= i < j < |records| ==> records[i].id < records[j].id) &&
    (records != [] ==> 1 <= records[0].id && records[|records| - 1].id <= lastRecordId)
  }

  /** No two parts share a non-null `part_code` (the UNIQUE constraint). */
  ghost predicate CodesUnique(parts: seq<Part>)
  {
    forall i, j :: 0 <= i < j < |parts| && parts[i].code.Some? ==> parts[i].code != parts[j].code
  }

  /** The integrity the schema's constraints maintain over the three tables. */
  ghost predicate StoreValid(records: seq<MaintenanceRecord>, parts: seq<Part>, usages: seq<PartUsage>, lastRecordId: nat)
  {
    IdsAscend(records, lastRecordId) && CodesUnique(parts) && KeysResolve(records, parts, usages)
  }

  /** Appending a record under the next key keeps the tables consistent,
      and the new key exceeds every key already present. */
  lemma AddRecordValid(records: seq<MaintenanceRecord>, parts: seq<Part>, usages: seq<PartUsage>,
    lastRecordId: nat, input: RecordInput)
    requires StoreValid(records, parts, usages, lastRecordId) && Complete(input)
    ensures StoreValid(records + [StoredRecord(lastRecordId + 1, input)], parts, usages, lastRecordId + 1)
    ensures forall k :: 0 <= k < |records| ==> records[k].id < lastRecordId + 1
  {
    var id := lastRecordId + 1;
    var row := StoredRecord(id, input);
    forall k | 0 <= k < |records|
      ensures records[k].id < id
    {
      if k < |records| - 1 {
        assert records[k].id < records[|records| - 1].id;
      }
    }
    var rs := records + [row];
    assert IdsAscend(rs, id) by {
      forall i, j | 0 <= i < j < |rs|
        ensures rs[i].id < rs[j].id
      {
        assert rs[i] == records[i];
      }
    }
    assert KeysResolve(rs, parts, usages) by {
      forall k | 0 <= k < |usages|
        ensures RecordById(rs, usages[k].maintenanceId).Some?
      {
        RecordByIdAppend(records, row, usages[k].maintenanceId);
      }
    }
  }

  /** `INSERT OR IGNORE` into `parts` keeps the tables consistent. */
  lemma AddPartValid(records: seq<MaintenanceRecord>, parts: seq<Part>, usages: seq<PartUsage>,
    lastRecordId: nat, code: Option<string>, name: Option<string>)
    requires StoreValid(records, parts, usages, lastRecordId)
    ensures StoreValid(records, AfterInsertPart(parts, code, name), usages, lastRecordId)
  {
    if PartInsertable(parts, code, name) {
      var row := Part(code, name.value);
      var ps := parts + [row];
      assert KeysResolve(records, ps, usages) by {
        forall k | 0 <= k < |usages|
          ensures PartByCode(ps, usages[k].code).Some?
        {
          PartByCodeAppend(parts, row, usages[k].code);
        }
      }
      assert CodesUnique(ps) by {
        forall i, j | 0 <= i < j < |ps| && ps[i].code.Some?
          ensures ps[i].code != ps[j].code
        {
          assert ps[i] == parts[i];
        }
      }
    }
  }

  /** Appending a usage row whose keys resolve keeps the tables consistent. */
  lemma AddUsageValid(records: seq<MaintenanceRecord>, parts: seq<Part>, usages: seq<PartUsage>,
    lastRecordId: nat, u: PartUsage)
    requires StoreValid(records, parts, usages, lastRecordId)
    requires RecordById(records, u.maintenanceId).Some? && PartByCode(parts, u.code).Some?
    ensures StoreValid(records, parts, usages + [u], lastRecordId)
  {
    KeysResolveAppend(records, parts, usages, u);
  }

  // ---------------------------------------------------------------------
  // The store

  /** `DatabaseManager`: the three tables and the AUTOINCREMENT counter of
      `maintenance_records`, which `DELETE` does not reset. */
  class DatabaseManager {
    var records: seq<MaintenanceRecord>
    var parts: seq<Part>
    var usages: seq<PartUsage>
    var lastRecordId: nat

    /** Primary keys ascend in insertion order and never exceed the counter,
        non-null part codes are unique, and every usage row's foreign keys
        resolve. */
    ghost predicate Valid()
      reads this
    {
      StoreValid(records, parts, usages, lastRecordId)
    }

    /** A fresh, empty store. */
    constructor()
      ensures Valid()
      ensures records == [] && parts == [] && usages == [] && lastRecordId == 0
    {
      records := [];
      parts := [];
      usages := [];
      lastRecordId := 0;
    }

    /** `insertMaintenanceRecord`: appends one row under the next
        AUTOINCREMENT key and returns that key, or fails (throws) when a
        NOT NULL column is null and leaves the store unchanged. */
    method InsertMaintenanceRecord(input: RecordInput) returns (result: Result<nat>)
      requires Valid()
      modifies this
      ensures Valid()
      ensures result.Ok? <==> Complete(input)
      ensures result.Ok? ==>
        result.value == old(lastRecordId) + 1 &&
        (forall k :: 0 <= k < |old(records)| ==> old(records)[k].id < result.value) &&
        records == old(records) + [StoredRecord(result.value, input)] &&
        lastRecordId == result.value
      ensures result.Err? ==>
        result.message == MissingColumn(input) && records == old(records) && lastRecordId == old(lastRecordId)
      ensures parts == old(parts) && usages == old(usages)
    {
      if !Complete(input) {
        return Err(MissingColumn(input));
      }
      var id := lastRecordId + 1;
      AddRecordValid(records, parts, usages, lastRecordId, input);
      records := records + [StoredRecord(id, input)];
      lastRecordId := id;
      result := Ok(id);
    }

    /** `insertPart`: `INSERT OR IGNORE INTO parts`. */
    method InsertPart(code: Option<string>, name: Option<string>)
      requires Valid()
      modifies this
      ensures Valid()
      ensures parts == AfterInsertPart(old(parts), code, name)
      ensures records == old(records) && usages == old(usages) && lastRecordId == old(lastRecordId)
    {
      AddPartValid(records, parts, usages, lastRecordId, code, name);
      if PartInsertable(parts, code, name) {
        parts := parts + [Part(code, name.value)];
      }
    }

    /** `insertPartUsage`: appends one usage row, or fails (throws) on a
        null column or an unresolved foreign key and changes nothing. */
    method InsertPartUsage(maintenanceId: int, code: Option<string>, quantity: Option<int>, date: Option<int>)
      returns (result: Result<()>)
      requires Valid()
      modifies this
      ensures Valid()
      ensures result.Ok? <==>
        code.Some? && quantity.Some? && date.Some? &&
        RecordById(records, maintenanceId).Some? && PartByCode(parts, code.value).Some?
      ensures result.Ok? ==> usages == old(usages) + [PartUsage(maintenanceId, code.value, quantity.value, date.value)]
      ensures result.Err? ==> usages == old(usages)
      ensures records == old(records) && parts == old(parts) && lastRecordId == old(lastRecordId)
    {
      var error := UsageRejection(records, parts, maintenanceId, code, quantity, date);
      if error.Some? {
        result := Err(error.value);
      } else {
        var row := PartUsage(maintenanceId, code.value, quantity.value, date.value);
        AddUsageValid(records, parts, usages, lastRecordId, row);
        usages := usages + [row];
        result := Ok(());
      }
    }

    /** `clearAllData`: every table is emptied; the key counter survives. */
    method ClearAllData()
      requires Valid()
      modifies this
      ensures Valid()
      ensures records == [] && parts == [] && usages == []
      ensures lastRecordId == old(lastRecordId)
    {
      usages := [];
      records := [];
      parts := [];
    }
  }

  // ---------------------------------------------------------------------
  // getRecordsByMachine, getRecordsByMachineAndSide

  /** The sort key of `ORDER BY date_failure, time_failure`. */
  function Timestamp(rec: MaintenanceRecord): real
  {
    (rec.date * 86400 + rec.time) as real
  }

  /** Ordering by `Timestamp` is ordering by date, then by time of day. */
  lemma TimestampOrder(a: MaintenanceRecord, b: MaintenanceRecord)
    ensures Timestamp(a) < Timestamp(b) <==> a.date < b.date || (a.date == b.date && a.time < b.time)
  {
    if a.date < b.date {
      assert a.date * 86400 + 86400 <= b.date * 86400;
    } else if a.date > b.date {
      assert b.date * 86400 + 86400 <= a.date * 86400;
    }
  }

  /** `getRecordsByMachine`: the machine's records, latest first. */
  function RecordsByMachine(records: seq<MaintenanceRecord>, machine: string): (r: seq<MaintenanceRecord>)
    ensures forall x :: x in r <==> x in records && x.machine == machine
    ensures |r| == Count(records, (x: MaintenanceRecord) => x.machine == machine)
    ensures Descending(r, Timestamp)
  {
    var matching := Filter(records, (x: MaintenanceRecord) => x.machine == machine);
    var r := SortDesc(matching, Timestamp);
    FilterMember(records, (x: MaintenanceRecord) => x.machine == machine);
    SameElements(r, matching);
    r
  }

  /** `getRecordsByMachineAndSide`: `machine_side = NULL` is never true, so a
      null side selects nothing. */
  function RecordsByMachineAndSide(records: seq<MaintenanceRecord>, machine: string, side: Option<string>)
    : (r: seq<MaintenanceRecord>)
    ensures forall x :: x in r <==> x in records && x.machine == machine && side.Some? && x.machineSide == side
    ensures |r| == Count(records, (x: MaintenanceRecord) => x.machine == machine && side.Some? && x.machineSide == side)
    ensures side.None? ==> r == []
    ensures Descending(r, Timestamp)
  {
    var p := (x: MaintenanceRecord) => x.machine == machine && side.Some? && x.machineSide == side;
    var matching := Filter(records, p);
    var r := SortDesc(matching, Timestamp);
    FilterMember(records, p);
    SameElements(r, matching);
    assert side.None? ==> |matching| == 0;
    r
  }

  // ---------------------------------------------------------------------
  // getFailureFrequency

  /** One group of `getFailureFrequency`. */
  datatype FrequencyRow = FrequencyRow(machine: string, machineSide: Option<string>, failureCount: nat, symptoms: Option<string>)

  function SideOf(rec: MaintenanceRecord): Option<string> { rec.machineSide }

  function FailureCountOf(row: FrequencyRow): int { row.failureCount }

  function FailureCountKey(row: FrequencyRow): real { row.failureCount as real }

  function RowSide(row: FrequencyRow): Option<string> { row.machineSide }

  /** `WHERE machine = ? AND date_failure BETWEEN ? AND ?` (both ends included). */
  function InPeriod(records: seq<MaintenanceRecord>, machine: string, start: int, end: int): (r: seq<MaintenanceRecord>)
    ensures forall x :: x in r <==> x in records && x.machine == machine && start <= x.date <= end
    ensures |r| == Count(records, (x: MaintenanceRecord) => x.machine == machine && start <= x.date <= end)
  {
    var p := (x: MaintenanceRecord) => x.machine == machine && start <= x.date <= end;
    FilterMember(records, p);
    Filter(records, p)
  }

  /** The distinct non-null `symptom_normalized` values of `rows`, first seen first. */
  function DistinctSymptoms(rows: seq<MaintenanceRecord>): (r: seq<string>)
    ensures Distinct(r)
    ensures forall k :: 0 <= k < |rows| && rows[k].symptomNormalized.Some? ==> rows[k].symptomNormalized.value in r
    ensures forall s :: s in r ==> exists k :: 0 <= k < |rows| && rows[k].symptomNormalized == Some(s)
    decreases |rows|
  {
    if rows == [] then []
    else
      var init := rows[..|rows| - 1];
      var x := rows[|rows| - 1];
      assert rows == init + [x];
      var r := DistinctSymptoms(init);
      if x.symptomNormalized.Some? && x.symptomNormalized.value !in r then r + [x.symptomNormalized.value] else r
  }

  /** `GROUP_CONCAT(x)`: the values joined by commas, null when there are none. */
  function GroupConcat(values: seq<string>): (r: Option<string>)
    ensures r.None? <==> values == []
  {
    if values == [] then None else Some(Join(values, ','))
  }

  /** The group of the rows whose side is `side`: `COUNT(*)` and
      `GROUP_CONCAT(DISTINCT symptom_normalized)`. */
  function Group(rows: seq<MaintenanceRecord>, machine: string, side: Option<string>): FrequencyRow
  {
    FrequencyRow(machine, side, Occurrences(rows, SideOf, side), GroupConcat(DistinctSymptoms(OnSide(rows, side))))
  }

  /** The rows whose side is `side`. */
  function OnSide(rows: seq<MaintenanceRecord>, side: Option<string>): seq<MaintenanceRecord>
  {
    Filter(rows, (x: MaintenanceRecord) => x.machineSide == side)
  }

  /** One group per side in `sides`, in that order. */
  function Groups(rows: seq<MaintenanceRecord>, machine: string, sides: seq<Option<string>>): (r: seq<FrequencyRow>)
    ensures |r| == |sides|
    ensures forall k :: 0 <= k < |r| ==> r[k] == Group(rows, machine, sides[k])
    decreases |sides|
  {
    if sides == [] then []
    else Groups(rows, machine, sides[..|sides| - 1]) + [Group(rows, machine, sides[|sides| - 1])]
  }

  lemma {:induction false} GroupsTotal(rows: seq<MaintenanceRecord>, machine: string, sides: seq<Option<string>>)
    ensures SumOf(Groups(rows, machine, sides), FailureCountOf) == TotalOccurrences(rows, SideOf, sides)
    decreases |sides|
  {
    if sides != [] {
      var init := sides[..|sides| - 1];
      GroupsTotal(rows, machine, init);
      SumOfAppend(Groups(rows, machine, init), Group(rows, machine, sides[|sides| - 1]), FailureCountOf);
    }
  }

  /** Every group built from the sides present is the group of its side and
      has at least one member. */
  lemma GroupsNonEmpty(rows: seq<MaintenanceRecord>, machine: string)
    ensures forall g :: g in Groups(rows, machine, Keys(rows, SideOf)) ==>
      g == Group(rows, machine, g.machineSide) && g.failureCount >= 1
  {
    var sides := Keys(rows, SideOf);
    var groups := Groups(rows, machine, sides);
    forall g | g in groups
      ensures g == Group(rows, machine, g.machineSide) && g.failureCount >= 1
    {
      var k :| 0 <= k < |groups| && groups[k] == g;
      assert g.failureCount == Occurrences(rows, SideOf, sides[k]);
      KeysFrom(rows, SideOf, k);
      assert exists i :: 0 <= i < |rows| && SideOf(rows[i]) == sides[k];
      var i :| 0 <= i < |rows| && SideOf(rows[i]) == sides[k];
      OccurrencesPositive(rows, SideOf, i);
    }
  }

  /** Groups of distinct sides are distinct. */
  lemma GroupsDistinct(rows: seq<MaintenanceRecord>, machine: string, sides: seq<Option<string>>)
    requires Distinct(sides)
    ensures Distinct(Groups(rows, machine, sides))
  {
  }

  /** `getFailureFrequency`: the machine's records dated within
      `[start, end]`, one group per side (a null side is a group of its own)
      with its count and its distinct normalised symptoms, most frequent
      side first. */
  function FailureFrequency(records: seq<MaintenanceRecord>, machine: string, start: int, end: int)
    : (r: seq<FrequencyRow>)
    ensures forall g :: g in r ==>
      g == Group(InPeriod(records, machine, start, end), machine, g.machineSide) && g.failureCount >= 1
    ensures forall x :: x in InPeriod(records, machine, start, end) ==>
      Group(InPeriod(records, machine, start, end), machine, x.machineSide) in r
    ensures forall i, j :: 0 <= i < j < |r| ==> r[i].machineSide != r[j].machineSide
    ensures Descending(r, FailureCountKey)
  {
    var rows := InPeriod(records, machine, start, end);
    var sides := Keys(rows, SideOf);
    var groups := Groups(rows, machine, sides);
    var r := SortDesc(groups, FailureCountKey);
    ReorderedGroups(rows, machine, r);
    r
  }

  /** Every side present in `rows` has its group. */
  lemma GroupsCover(rows: seq<MaintenanceRecord>, machine: string)
    ensures forall x :: x in rows ==> Group(rows, machine, x.machineSide) in Groups(rows, machine, Keys(rows, SideOf))
  {
    var sides := Keys(rows, SideOf);
    var groups := Groups(rows, machine, sides);
    forall x | x in rows
      ensures Group(rows, machine, x.machineSide) in groups
    {
      var i :| 0 <= i < |rows| && rows[i] == x;
      var k :| 0 <= k < |sides| && sides[k] == SideOf(rows[i]);
      assert groups[k] == Group(rows, machine, x.machineSide);
    }
  }

  /** Any reordering of the groups holds exactly the groups of the sides
      present, each side once. */
  lemma ReorderedGroups(rows: seq<MaintenanceRecord>, machine: string, r: seq<FrequencyRow>)
    requires multiset(r) == multiset(Groups(rows, machine, Keys(rows, SideOf)))
    ensures forall g :: g in r ==> g == Group(rows, machine, g.machineSide) && g.failureCount >= 1
    ensures forall x :: x in rows ==> Group(rows, machine, x.machineSide) in r
    ensures forall i, j :: 0 <= i < j < |r| ==> r[i].machineSide != r[j].machineSide
  {
    var sides := Keys(rows, SideOf);
    var groups := Groups(rows, machine, sides);
    GroupsNonEmpty(rows, machine);
    GroupsCover(rows, machine);
    GroupsDistinct(rows, machine, sides);
    DistinctPermutation(groups, r);
    SameElements(r, groups);
    forall i, j | 0 <= i < j < |r|
      ensures r[i].machineSide != r[j].machineSide
    {
      assert r[i] in groups && r[j] in groups;
      var a :| 0 <= a < |groups| && groups[a] == r[i];
      var b :| 0 <= b < |groups| && groups[b] == r[j];
    }
  }

  /** The failure counts of `getFailureFrequency` add up to the number of
      the machine's records in the period. */
  lemma FailureFrequencyTotal(records: seq<MaintenanceRecord>, machine: string, start: int, end: int)
    ensures SumOf(FailureFrequency(records, machine, start, end), FailureCountOf) ==
      |InPeriod(records, machine, start, end)|
  {
    var rows := InPeriod(records, machine, start, end);
    var sides := Keys(rows, SideOf);
    var groups := Groups(rows, machine, sides);
    GroupsTotal(rows, machine, sides);
    TallyTotal(rows, SideOf);
    SumOfPermutation(groups, SortDesc(groups, FailureCountKey), FailureCountOf);
  }

  // ---------------------------------------------------------------------
  // getPartLifespanStats

  /** A row of `getPartLifespanStats`. */
  datatype LifespanRow = LifespanRow(partCode: string, namePart: string, date: int,
    prevDate: Option<int>, daysBetween: Option<int>)

  function LifespanDate(row: LifespanRow): real { row.date as real }

  /** The join and `WHERE` clause: the usage's record is on `machine`, on
      `side` unless that is null, the usage is of part `code` unless that is
      null, and its part exists. */
  predicate Selected(records: seq<MaintenanceRecord>, parts: seq<Part>, machine: string,
    side: Option<string>, code: Option<string>, u: PartUsage)
  {
    match RecordById(records, u.maintenanceId)
    case None => false
    case Some(rec) =>
      rec.machine == machine && (side.None? || rec.machineSide == side) &&
      (code.None? || u.code == code.value) && PartByCode(parts, u.code).Some?
  }

  /** The usages that pass the join and the `WHERE` clause, in table order. */
  function Chosen(records: seq<MaintenanceRecord>, parts: seq<Part>, usages: seq<PartUsage>,
    machine: string, side: Option<string>, code: Option<string>): (r: seq<PartUsage>)
    ensures forall u :: u in r <==> u in usages && Selected(records, parts, machine, side, code, u)
    ensures |r| == Count(usages, (u: PartUsage) => Selected(records, parts, machine, side, code, u))
  {
    var p := (u: PartUsage) => Selected(records, parts, machine, side, code, u);
    FilterMember(usages, p);
    Filter(usages, p)
  }

  /** The output row of a chosen usage, before the window function. */
  function JoinRow(parts: seq<Part>, u: PartUsage): LifespanRow
    requires PartByCode(parts, u.code).Some?
  {
    LifespanRow(u.code, PartByCode(parts, u.code).value.name, u.date, None, None)
  }

  /** The chosen usages joined with their part names, in table order. */
  function Joined(records: seq<MaintenanceRecord>, parts: seq<Part>, usages: seq<PartUsage>,
    machine: string, side: Option<string>, code: Option<string>): (r: seq<LifespanRow>)
    ensures |r| == |Chosen(records, parts, usages, machine, side, code)|
    ensures forall k :: 0 <= k < |r| ==>
      r[k] == JoinRow(parts, Chosen(records, parts, usages, machine, side, code)[k])
  {
    var chosen := Chosen(records, parts, usages, machine, side, code);
    assert forall k :: 0 <= k < |chosen| ==> chosen[k] in chosen;
    seq(|chosen|, k requires 0 <= k < |chosen| => JoinRow(parts, chosen[k]))
  }

  /** The previous row's date and the gap to it, or neither for the first row. */
  function Lagged(rows: seq<LifespanRow>, k: nat): (row: LifespanRow)
    requires k < |rows|
    ensures row.partCode == rows[k].partCode && row.namePart == rows[k].namePart && row.date == rows[k].date
    ensures k == 0 ==> row.prevDate.None? && row.daysBetween.None?
    ensures k > 0 ==> row.prevDate == Some(rows[k - 1].date) && row.daysBetween == Some(rows[k].date - rows[k - 1].date)
  {
    if k == 0 then LifespanRow(rows[k].partCode, rows[k].namePart, rows[k].date, None, None)
    else LifespanRow(rows[k].partCode, rows[k].namePart, rows[k].date,
      Some(rows[k - 1].date), Some(rows[k].date - rows[k - 1].date))
  }

  /** `LAG(replacement_date) OVER (ORDER BY replacement_date)` and the day
      difference to it, over the whole sorted result. */
  function WithLag(rows: seq<LifespanRow>): (r: seq<LifespanRow>)
    ensures |r| == |rows|
    ensures forall k :: 0 <= k < |r| ==> r[k] == Lagged(rows, k)
  {
    seq(|rows|, k requires 0 <= k < |rows| => Lagged(rows, k))
  }

  /** A row without its window columns. */
  function Plain(row: LifespanRow): LifespanRow
  {
    LifespanRow(row.partCode, row.namePart, row.date, None, None)
  }

  /** The rows without their window columns. */
  function PlainRows(rows: seq<LifespanRow>): (r: seq<LifespanRow>)
    ensures |r| == |rows|
    ensures forall k :: 0 <= k < |r| ==> r[k] == Plain(rows[k])
  {
    seq(|rows|, k requires 0 <= k < |rows| => Plain(rows[k]))
  }

  /** The window columns are added without touching the rest of a row. */
  lemma WithLagPlain(rows: seq<LifespanRow>)
    requires forall k :: 0 <= k < |rows| ==> rows[k].prevDate.None? && rows[k].daysBetween.None?
    ensures PlainRows(WithLag(rows)) == rows
    ensures forall k :: 0 <= k < |rows| ==> LifespanDate(WithLag(rows)[k]) == LifespanDate(rows[k])
  {
    var r := WithLag(rows);
    forall k | 0 <= k < |rows|
      ensures PlainRows(r)[k] == rows[k]
      ensures LifespanDate(r[k]) == LifespanDate(rows[k])
    {
      assert r[k] == Lagged(rows, k);
    }
  }

  /** Row `k` carries the date of the row before it and the non-negative gap to it. */
  ghost predicate LagRow(r: seq<LifespanRow>, k: int)
    requires 0 < k < |r|
  {
    r[k].prevDate == Some(r[k - 1].date) &&
    r[k].daysBetween == Some(r[k].date - r[k - 1].date) &&
    r[k].daysBetween.value >= 0
  }

  /** The window columns as `LAG` over the whole result defines them: the
      first row has no previous date, every other row has the date of the
      row before it, whatever its part, and the non-negative gap to it. */
  ghost predicate LagColumns(r: seq<LifespanRow>)
  {
    (r != [] ==> r[0].prevDate.None? && r[0].daysBetween.None?) &&
    forall k :: 0 < k < |r| ==> LagRow(r, k)
  }

  lemma LagAt(rows: seq<LifespanRow>, k: int)
    requires Ascending(rows, LifespanDate) && 0 < k < |rows|
    ensures LagRow(WithLag(rows), k)
  {
    var r := WithLag(rows);
    assert r[k] == Lagged(rows, k);
    assert r[k - 1] == Lagged(rows, k - 1);
    assert LifespanDate(rows[k - 1]) <= LifespanDate(rows[k]);
  }

  /** Over ascending dates, each row's lag is the row before it and the gap
      to it is never negative. */
  lemma WithLagGaps(rows: seq<LifespanRow>)
    requires Ascending(rows, LifespanDate)
    ensures LagColumns(WithLag(rows))
  {
    var r := WithLag(rows);
    forall k | 0 < k < |rows|
      ensures LagRow(r, k)
    {
      LagAt(rows, k);
    }
    if rows != [] {
      assert r[0] == Lagged(rows, 0);
    }
  }

  /** `ORDER BY replacement_date` over the joined rows. */
  function SortedJoined(records: seq<MaintenanceRecord>, parts: seq<Part>, usages: seq<PartUsage>,
    machine: string, side: Option<string>, code: Option<string>): (r: seq<LifespanRow>)
    ensures multiset(r) == multiset(Joined(records, parts, usages, machine, side, code))
    ensures Ascending(r, LifespanDate)
    ensures forall k :: 0 <= k < |r| ==> r[k].prevDate.None? && r[k].daysBetween.None?
  {
    var joined := Joined(records, parts, usages, machine, side, code);
    var sorted := SortBy(joined, LifespanDate);
    forall k | 0 <= k < |sorted|
      ensures sorted[k].prevDate.None? && sorted[k].daysBetween.None?
    {
      assert sorted[k] in multiset(joined);
      var i :| 0 <= i < |joined| && joined[i] == sorted[k];
    }
    sorted
  }

  /** `getPartLifespanStats`: the selected usages ordered by replacement
      date; each row carries the previous row's date and the gap to it, the
      previous row being the one before it in the whole result whatever its
      part, and the first row has neither. */
  function PartLifespanStats(records: seq<MaintenanceRecord>, parts: seq<Part>, usages: seq<PartUsage>,
    machine: string, side: Option<string>, code: Option<string>): (r: seq<LifespanRow>)
    ensures multiset(PlainRows(r)) == multiset(Joined(records, parts, usages, machine, side, code))
    ensures Ascending(r, LifespanDate)
    ensures LagColumns(r)
  {
    var sorted := SortedJoined(records, parts, usages, machine, side, code);
    WithLagPlain(sorted);
    WithLagGaps(sorted);
    var r := WithLag(sorted);
    assert Ascending(r, LifespanDate) by {
      forall i, j | 0 <= i < j < |r|
        ensures LifespanDate(r[i]) <= LifespanDate(r[j])
      {
        assert LifespanDate(sorted[i]) <= LifespanDate(sorted[j]);
      }
    }
    r
  }
}
