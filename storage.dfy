/** The measurement store: one persisted record holding the baby profile and
    the list of measurements. The updates (`saveBabyProfile`, `saveMeasurement`,
    `deleteMeasurement`) load the record, edit it in memory and save it back;
    the queries (`loadBabyProfile`, `loadMeasurements`, `getStorageInfo`) only
    load; `importData` saves the parsed input without loading, and
    `clearAllData` only removes the stored value. The persisted value is
    abstract: the JSON text is either absent, text that does not parse, or a
    parsed record. */
module Storage {
  import opened GrowthTypes
  import Sorting

  const StorageVersion: string := "1.0.0"

  /** What `JSON.parse` gives back for a stored or imported text. A
      `measurements` field that is missing or not an array is `None`; any
      other parsed value (null, a number, an object without `version`) reads
      as a record whose version is not "1.0.0". */
  datatype StoredRecord = StoredRecord(
    version: string,
    babyProfile: Option<BabyProfile>,
    measurements: Option<seq<GrowthMeasurement>>)

  datatype Blob = Unparseable | Parsed(record: StoredRecord)

  /** `createDefaultStorageData`. */
  function DefaultData(): (d: StorageData)
    ensures d.version == StorageVersion && d.babyProfile == None && d.measurements == []
  {
    StorageData(StorageVersion, None, [])
  }

  /** `migrateData`: no migration exists yet, so the old record is dropped. */
  function MigrateData(oldData: StoredRecord): (d: StorageData)
    ensures d == DefaultData()
  {
    DefaultData()
  }

  /** The stored value `loadData` hands back as it is: parsed, current
      version, measurements an array. */
  predicate Readable(stored: Option<Blob>)
  {
    && stored.Some? && stored.value.Parsed?
    && stored.value.record.version == StorageVersion
    && stored.value.record.measurements.Some?
  }

  /** `loadData`. */
  function LoadData(stored: Option<Blob>): (d: StorageData)
    ensures d.version == StorageVersion
    ensures Readable(stored) ==>
      d.babyProfile == stored.value.record.babyProfile &&
      d.measurements == stored.value.record.measurements.value
    ensures !Readable(stored) ==> d == DefaultData()
  {
    match stored
    case None => DefaultData()
    case Some(Unparseable) => DefaultData()
    case Some(Parsed(record)) =>
      if record.version != StorageVersion then MigrateData(record)
      else if record.measurements.None? then DefaultData()
      else StorageData(record.version, record.babyProfile, record.measurements.value)
  }

  /** What `saveData` writes: the data with the version stamped. */
  function Encode(data: StorageData): (b: Blob)
    ensures Readable(Some(b))
  {
    Parsed(StoredRecord(StorageVersion, data.babyProfile, Some(data.measurements)))
  }

  /** A load right after a save gives back what was saved, version stamped. */
  lemma LoadAfterSave(data: StorageData)
    ensures Readable(Some(Encode(data)))
    ensures LoadData(Some(Encode(data))) == data.(version := StorageVersion)
  {
  }

  /** Saving what was loaded changes nothing a later load can see. */
  lemma SaveWhatWasLoaded(stored: Option<Blob>)
    ensures LoadData(Some(Encode(LoadData(stored)))) == LoadData(stored)
  {
    LoadAfterSave(LoadData(stored));
  }

  /** A stored record of another version loads as the empty default, whatever
      it held. */
  lemma StaleVersionIsDiscarded(record: StoredRecord)
    requires record.version != StorageVersion
    ensures LoadData(Some(Parsed(record))) == DefaultData()
    ensures LoadData(Some(Parsed(record))).measurements == []
  {
  }

  predicate HasId(ms: seq<GrowthMeasurement>, id: string)
  {
    exists i :: 0 <= i < |ms| && ms[i].id == id
  }

  /** `findIndex(m => m.id === id)`: the first index with that id, or -1. */
  function FindIndexById(ms: seq<GrowthMeasurement>, id: string): (i: int)
    ensures -1 <= i < |ms|
    ensures i == -1 <==> !HasId(ms, id)
    ensures i >= 0 ==> ms[i].id == id && forall j :: 0 <= j < i ==> ms[j].id != id
  {
    if ms == [] then -1
    else if ms[0].id == id then 0
    else
      var k := FindIndexById(ms[1..], id);
      if k == -1 then
        assert forall j :: 1 <= j < |ms| ==> ms[j].id == ms[1..][j - 1].id;
        -1
      else k + 1
  }

  /** Replace the first record with the same id, or append. */
  function Upsert(ms: seq<GrowthMeasurement>, m: GrowthMeasurement): (r: seq<GrowthMeasurement>)
    ensures m in r
    ensures |r| == if HasId(ms, m.id) then |ms| else |ms| + 1
    ensures forall x :: x in ms && x.id != m.id ==> x in r
    ensures forall x :: x in r ==> x == m || x in ms
    ensures HasId(ms, m.id) ==>
      var i := FindIndexById(ms, m.id);
      r[i] == m && forall j :: 0 <= j < |ms| && j != i ==> r[j] == ms[j]
    ensures !HasId(ms, m.id) ==> r == ms + [m]
  {
    var existingIndex := FindIndexById(ms, m.id);
    if existingIndex >= 0 then
      assert forall j :: 0 <= j < |ms| && j != existingIndex ==> ms[j] == ms[existingIndex := m][j];
      assert ms[existingIndex := m][existingIndex] == m;
      ms[existingIndex := m]
    else ms + [m]
  }

  /** Saving the same record twice is the same as saving it once. */
  lemma UpsertIdempotent(ms: seq<GrowthMeasurement>, m: GrowthMeasurement)
    ensures Upsert(Upsert(ms, m), m) == Upsert(ms, m)
  {
    var i := FindIndexById(ms, m.id);
    var r := Upsert(ms, m);
    if i >= 0 {
      assert r == ms[i := m];
      FirstIndexIs(r, m.id, i);
      assert r[i := m] == r;
    } else {
      assert r == ms + [m];
      FirstIndexIs(r, m.id, |ms|);
      assert r[|ms| := m] == r;
    }
  }

  lemma {:induction false} FirstIndexIs(ms: seq<GrowthMeasurement>, id: string, i: nat)
    requires i < |ms| && ms[i].id == id
    requires forall j :: 0 <= j < i ==> ms[j].id != id
    ensures FindIndexById(ms, id) == i
  {
    if i > 0 {
      assert ms[0].id != id;
      assert forall j :: 0 <= j < i - 1 ==> ms[1..][j] == ms[j + 1];
      FirstIndexIs(ms[1..], id, i - 1);
    }
  }

  /** The sort key of `(a, b) => b.date - a.date`: newest first. */
  function NewestFirst(m: GrowthMeasurement): int
  {
    -m.date
  }

  /** The list `saveMeasurement` stores: upsert, then the stable sort by date,
      newest first. */
  function AfterSaveMeasurement(ms: seq<GrowthMeasurement>, m: GrowthMeasurement): (r: seq<GrowthMeasurement>)
    ensures |r| == if HasId(ms, m.id) then |ms| else |ms| + 1
  {
    Sorting.InsertionSort(Upsert(ms, m), NewestFirst)
  }

  /** The saved list is in date order, newest first, holds the saved record,
      is a permutation of the upserted list, and keeps every record with
      another id. */
  lemma SavedListProperties(ms: seq<GrowthMeasurement>, m: GrowthMeasurement)
    ensures var r := AfterSaveMeasurement(ms, m);
      && (forall i, j :: 0 <= i < j < |r| ==> r[i].date >= r[j].date)
      && multiset(r) == multiset(Upsert(ms, m))
      && m in r
      && (forall x :: x in ms && x.id != m.id ==> x in r)
      && |r| == if HasId(ms, m.id) then |ms| else |ms| + 1
  {
    var u := Upsert(ms, m);
    var r := AfterSaveMeasurement(ms, m);
    Sorting.InsertionSortCorrect(u, NewestFirst);
    forall i, j | 0 <= i < j < |r| ensures r[i].date >= r[j].date {
      assert NewestFirst(r[i]) <= NewestFirst(r[j]);
    }
    assert m in multiset(u);
    forall x | x in ms && x.id != m.id ensures x in r {
      assert x in multiset(u);
    }
  }

  /** No two records share an id. */
  ghost predicate IdsUnique(ms: seq<GrowthMeasurement>)
  {
    forall i, j :: 0 <= i < j < |ms| ==> ms[i].id != ms[j].id
  }

  lemma UpsertKeepsIdsUnique(ms: seq<GrowthMeasurement>, m: GrowthMeasurement)
    requires IdsUnique(ms)
    ensures IdsUnique(Upsert(ms, m))
  {
    var i := FindIndexById(ms, m.id);
    var r := Upsert(ms, m);
    if i >= 0 {
      forall a, b | 0 <= a < b < |r| ensures r[a].id != r[b].id {
        if a != i && b != i {
          assert r[a] == ms[a] && r[b] == ms[b];
        } else if a == i {
          assert r[b] == ms[b];
          assert ms[a].id != ms[b].id;
        } else {
          assert r[a] == ms[a];
          assert ms[a].id != ms[b].id;
        }
      }
    } else {
      forall a, b | 0 <= a < b < |r| ensures r[a].id != r[b].id {
        if b == |ms| {
          assert r[a] == ms[a];
        }
      }
    }
  }

  /** Sorting moves records but never duplicates an id. */
  lemma {:induction false} SortKeepsIdsUnique(ms: seq<GrowthMeasurement>)
    requires IdsUnique(ms)
    ensures IdsUnique(Sorting.InsertionSort(ms, NewestFirst))
    decreases |ms|
  {
    if ms != [] {
      var init, last := ms[..|ms| - 1], ms[|ms| - 1];
      assert IdsUnique(init) by {
        forall i, j | 0 <= i < j < |init| ensures init[i].id != init[j].id {
          assert init[i] == ms[i] && init[j] == ms[j];
        }
      }
      SortKeepsIdsUnique(init);
      var sorted := Sorting.InsertionSort(init, NewestFirst);
      Sorting.InsertionSortCorrect(init, NewestFirst);
      forall x | x in sorted ensures x.id != last.id {
        assert x in multiset(init);
        var k :| 0 <= k < |init| && init[k] == x;
        assert ms[k] == x;
      }
      InsertFreshIdKeepsUnique(sorted, last);
      assert Sorting.InsertionSort(ms, NewestFirst) == Sorting.Insert(sorted, last, NewestFirst);
    }
  }

  lemma InsertFreshIdKeepsUnique(sorted: seq<GrowthMeasurement>, x: GrowthMeasurement)
    requires IdsUnique(sorted)
    requires forall y :: y in sorted ==> y.id != x.id
    ensures IdsUnique(Sorting.Insert(sorted, x, NewestFirst))
  {
    var p := Sorting.InsertPosition(sorted, x, NewestFirst);
    var r := sorted[..p] + [x] + sorted[p..];
    forall i, j | 0 <= i < j < |r| ensures r[i].id != r[j].id {
      if j < p {
        assert r[i] == sorted[i] && r[j] == sorted[j];
      } else if j == p {
        assert r[i] == sorted[i] && sorted[i] in sorted;
      } else if i < p {
        assert r[i] == sorted[i] && r[j] == sorted[j - 1];
      } else if i == p {
        assert r[j] == sorted[j - 1] && sorted[j - 1] in sorted;
      } else {
        assert r[i] == sorted[i - 1] && r[j] == sorted[j - 1];
      }
    }
  }

  /** A list with unique ids still has unique ids after `saveMeasurement`. */
  lemma SaveMeasurementKeepsIdsUnique(ms: seq<GrowthMeasurement>, m: GrowthMeasurement)
    requires IdsUnique(ms)
    ensures IdsUnique(AfterSaveMeasurement(ms, m))
  {
    UpsertKeepsIdsUnique(ms, m);
    SortKeepsIdsUnique(Upsert(ms, m));
  }

  /** `filter(m => m.id !== id)`. */
  function RemoveById(ms: seq<GrowthMeasurement>, id: string): (r: seq<GrowthMeasurement>)
    ensures |r| <= |ms|
    ensures forall x :: x in r <==> x in ms && x.id != id
  {
    if ms == [] then []
    else (if ms[0].id == id then [] else [ms[0]]) + RemoveById(ms[1..], id)
  }

  /** A delete drops every copy of a record with the id and keeps every copy
      of the others: multiplicities are those of the input. */
  lemma {:induction false} RemoveByIdCounts(ms: seq<GrowthMeasurement>, id: string)
    ensures forall x :: multiset(RemoveById(ms, id))[x] == if x.id == id then 0 else multiset(ms)[x]
  {
    if ms != [] {
      assert ms == [ms[0]] + ms[1..];
      RemoveByIdCounts(ms[1..], id);
    }
  }

  /** `a` is `b` with some elements left out, the rest in their order. */
  predicate IsSubsequence<T(==)>(a: seq<T>, b: seq<T>)
  {
    if a == [] then true
    else if b == [] then false
    else if a[0] == b[0] then IsSubsequence(a[1..], b[1..])
    else IsSubsequence(a, b[1..])
  }

  /** The records kept by a delete stay in their relative order. */
  lemma {:induction false} RemoveByIdKeepsOrder(ms: seq<GrowthMeasurement>, id: string)
    ensures IsSubsequence(RemoveById(ms, id), ms)
  {
    if ms != [] {
      RemoveByIdKeepsOrder(ms[1..], id);
      var rest := RemoveById(ms[1..], id);
      if ms[0].id == id {
        assert RemoveById(ms, id) == rest;
        SkipHead(rest, ms);
      } else {
        assert RemoveById(ms, id) == [ms[0]] + rest;
        assert ([ms[0]] + rest)[1..] == rest;
      }
    }
  }

  lemma {:induction false} SkipHead<T>(a: seq<T>, b: seq<T>)
    requires b != [] && IsSubsequence(a, b[1..])
    ensures IsSubsequence(a, b)
    decreases |b|
  {
    if a != [] && a[0] == b[0] {
      if |b| > 1 && a[1..] != [] {
        SubsequenceTail(a, b[1..]);
        SkipHead(a[1..], b[1..]);
      }
    }
  }

  lemma {:induction false} SubsequenceTail<T>(a: seq<T>, b: seq<T>)
    requires a != [] && IsSubsequence(a, b)
    ensures b != [] && IsSubsequence(a[1..], b[1..])
    decreases |b|
  {
    if a[0] != b[0] {
      SubsequenceTail(a, b[1..]);
      SkipHead(a[1..], b[1..]);
    }
  }

  /** Deleting an id that no record has leaves the list as it is; deleting
      twice is deleting once. */
  lemma {:induction false} RemoveByIdAbsent(ms: seq<GrowthMeasurement>, id: string)
    requires !HasId(ms, id)
    ensures RemoveById(ms, id) == ms
  {
    if ms != [] {
      assert !HasId(ms[1..], id) by {
        forall j | 0 <= j < |ms[1..]| ensures ms[1..][j].id != id {
          assert ms[1..][j] == ms[j + 1];
        }
      }
      RemoveByIdAbsent(ms[1..], id);
      assert ms[0].id != id;
    }
  }

  lemma RemoveByIdIdempotent(ms: seq<GrowthMeasurement>, id: string)
    ensures RemoveById(RemoveById(ms, id), id) == RemoveById(ms, id)
  {
    var r := RemoveById(ms, id);
    assert !HasId(r, id) by {
      forall j | 0 <= j < |r| ensures r[j].id != id {
        assert r[j] in r;
      }
    }
    RemoveByIdAbsent(r, id);
  }

  /** Deleting a record's id after saving it removes it again. */
  lemma DeleteUndoesAppend(ms: seq<GrowthMeasurement>, m: GrowthMeasurement)
    requires !HasId(ms, m.id)
    ensures RemoveById(Upsert(ms, m), m.id) == ms
  {
    RemoveByIdAppend(ms, m);
    RemoveByIdAbsent(ms, m.id);
  }

  lemma {:induction false} RemoveByIdAppend(ms: seq<GrowthMeasurement>, m: GrowthMeasurement)
    ensures RemoveById(ms + [m], m.id) == RemoveById(ms, m.id)
  {
    if ms == [] {
      assert [m][1..] == [];
    } else {
      assert (ms + [m])[1..] == ms[1..] + [m];
      RemoveByIdAppend(ms[1..], m);
    }
  }

  /** The device's store: the one persisted value under `growth/v1/data`. */
  class GrowthStore {
    var stored: Option<Blob>

    constructor(initial: Option<Blob>)
      ensures stored == initial
    {
      stored := initial;
    }

    /** `saveData`: stamps the version and writes. */
    method SaveData(data: StorageData)
      modifies this
      ensures stored == Some(Encode(data))
      ensures LoadData(stored) == data.(version := StorageVersion)
    {
      stored := Some(Encode(data));
      LoadAfterSave(data);
    }

    /** `saveBabyProfile`: only the profile changes. */
    method SaveBabyProfile(profile: BabyProfile)
      modifies this
      ensures stored == Some(Encode(LoadData(old(stored)).(babyProfile := Some(profile))))
      ensures LoadData(stored).babyProfile == Some(profile)
      ensures LoadData(stored).measurements == LoadData(old(stored)).measurements
    {
      var data := LoadData(stored);
      data := data.(babyProfile := Some(profile));
      SaveData(data);
    }

    /** `loadBabyProfile`. */
    method LoadBabyProfile() returns (profile: Option<BabyProfile>)
      ensures profile == LoadData(stored).babyProfile
      ensures !Readable(stored) ==> profile == None
    {
      var data := LoadData(stored);
      profile := data.babyProfile;
    }

    /** `saveMeasurement`: upsert by id, sort newest first, save. */
    method SaveMeasurement(measurement: GrowthMeasurement)
      modifies this
      ensures stored == Some(Encode(LoadData(old(stored)).(
        measurements := AfterSaveMeasurement(LoadData(old(stored)).measurements, measurement))))
      ensures LoadData(stored).babyProfile == LoadData(old(stored)).babyProfile
      ensures !Readable(old(stored)) ==> LoadData(stored).measurements == [measurement]
    {
      var data := LoadData(stored);
      var measurements := data.measurements;
      var existingIndex := FindIndexById(measurements, measurement.id);
      if existingIndex >= 0 {
        measurements := measurements[existingIndex := measurement];
      } else {
        measurements := measurements + [measurement];
      }
      assert measurements == Upsert(data.measurements, measurement);
      measurements := Sorting.InsertionSort(measurements, NewestFirst);
      SaveData(data.(measurements := measurements));
    }

    /** `loadMeasurements`. */
    method LoadMeasurements() returns (measurements: seq<GrowthMeasurement>)
      ensures measurements == LoadData(stored).measurements
      ensures !Readable(stored) ==> measurements == []
    {
      var data := LoadData(stored);
      measurements := data.measurements;
    }

    /** `deleteMeasurement`: keep every record with another id. */
    method DeleteMeasurement(id: string)
      modifies this
      ensures stored == Some(Encode(LoadData(old(stored)).(
        measurements := RemoveById(LoadData(old(stored)).measurements, id))))
      ensures LoadData(stored).babyProfile == LoadData(old(stored)).babyProfile
      ensures !HasId(LoadData(stored).measurements, id)
    {
      var data := LoadData(stored);
      data := data.(measurements := RemoveById(data.measurements, id));
      SaveData(data);
      forall j | 0 <= j < |data.measurements| ensures data.measurements[j].id != id {
        assert data.measurements[j] in data.measurements;
      }
    }

    /** `clearAllData`: removes the stored value. */
    method ClearAllData()
      modifies this
      ensures stored == None
      ensures LoadData(stored) == DefaultData()
    {
      stored := None;
    }

    /** `importData`: the thrown error is `imported == false`, in which case
        nothing is written. Text that parses with an array of measurements is
        saved with the version stamped, whatever version it carried. */
    method ImportData(input: Blob) returns (imported: bool)
      modifies this
      ensures imported <==> input.Parsed? && input.record.measurements.Some?
      ensures !imported ==> stored == old(stored)
      ensures imported ==>
        LoadData(stored) == StorageData(StorageVersion, input.record.babyProfile, input.record.measurements.value)
    {
      if input.Unparseable? || input.record.measurements.None? {
        return false;
      }
      var importedData := StorageData(input.record.version, input.record.babyProfile, input.record.measurements.value);
      SaveData(importedData);
      return true;
    }

    /** `getStorageInfo`, without the timestamp. */
    method GetStorageInfo() returns (hasData: bool, measurementCount: nat)
      ensures hasData <==> LoadData(stored).measurements != [] || LoadData(stored).babyProfile.Some?
      ensures measurementCount == |LoadData(stored).measurements|
      ensures !Readable(stored) ==> !hasData && measurementCount == 0
    {
      var data := LoadData(stored);
      hasData := |data.measurements| > 0 || data.babyProfile.Some?;
      measurementCount := |data.measurements|;
    }
  }
}
