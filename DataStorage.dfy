/** The car-wash record store of `dataStorage.js` (class `DataStorageService`): an
    in-memory list of records kept newest first and written back to local storage
    after each change. Whether a write succeeds, the record ids (`Date.now() +
    Math.random()`) and the creation times are parameters; times are milliseconds. */
module DataStorage {
  import opened Wrappers
  import JsText
  import Seqs
  import StableSort

  /** The parts of a service record that the history list reads. */
  datatype ServiceRecord = ServiceRecord(interior: Option<seq<string>>, exterior: Option<seq<string>>, notes: string)

  /** What the caller passes to `addRecord`. */
  datatype Draft = Draft(licensePlate: string, date: string, image: Option<string>, serviceRecord: ServiceRecord)

  datatype Record = Record(id: int, licensePlate: string, date: string, image: Option<string>,
                           serviceRecord: ServiceRecord, createdAt: int)

  /** The `updates` object of `updateRecord`: absent fields keep their value. */
  datatype RecordPatch = RecordPatch(id: Option<int>, licensePlate: Option<string>, date: Option<string>,
                                     image: Option<Option<string>>, serviceRecord: Option<ServiceRecord>,
                                     createdAt: Option<int>)

  /** `{ ...record, ...updates }` */
  function Merge(r: Record, u: RecordPatch): (m: Record)
    ensures m.id == (if u.id.Some? then u.id.value else r.id)
    ensures m.licensePlate == (if u.licensePlate.Some? then u.licensePlate.value else r.licensePlate)
    ensures m.date == (if u.date.Some? then u.date.value else r.date)
    ensures m.image == (if u.image.Some? then u.image.value else r.image)
    ensures m.serviceRecord == (if u.serviceRecord.Some? then u.serviceRecord.value else r.serviceRecord)
    ensures m.createdAt == (if u.createdAt.Some? then u.createdAt.value else r.createdAt)
  {
    Record(
      if u.id.Some? then u.id.value else r.id,
      if u.licensePlate.Some? then u.licensePlate.value else r.licensePlate,
      if u.date.Some? then u.date.value else r.date,
      if u.image.Some? then u.image.value else r.image,
      if u.serviceRecord.Some? then u.serviceRecord.value else r.serviceRecord,
      if u.createdAt.Some? then u.createdAt.value else r.createdAt)
  }

  /** `records.findIndex(record => record.id === id)`, with -1 as None. */
  function IndexOfId(records: seq<Record>, id: int): (r: Option<nat>)
    ensures r.None? <==> forall k :: 0 <= k < |records| ==> records[k].id != id
    ensures r.Some? ==> (r.value < |records| && records[r.value].id == id &&
      forall k :: 0 <= k < r.value ==> records[k].id != id)
  {
    if |records| == 0 then None
    else if records[0].id == id then Some(0)
    else
      var r := IndexOfId(records[1..], id);
      assert forall k :: 1 <= k < |records| ==> records[k] == records[1..][k - 1];
      if r.Some? then Some(r.value + 1) else None
  }

  /** `searchByLicensePlate`: every record for a blank query, else the records whose
      plate contains the query, ignoring case, in stored order. */
  function PlateSearch(records: seq<Record>, query: string): (r: seq<Record>)
    ensures JsText.AllSpace(query) ==> r == records
    ensures !JsText.AllSpace(query) ==>
      (forall k :: 0 <= k < |r| ==> r[k] in records && JsText.ContainsIgnoringCase(r[k].licensePlate, query)) &&
      (forall k :: 0 <= k < |records| && JsText.ContainsIgnoringCase(records[k].licensePlate, query) ==> records[k] in r) &&
      Seqs.IsSubsequence(r, records) &&
      forall k :: 0 <= k < |records| ==>
        multiset(r)[records[k]] == if JsText.ContainsIgnoringCase(records[k].licensePlate, query) then multiset(records)[records[k]] else 0
  {
    JsText.TrimEmptyIffAllSpace(query);
    if JsText.Trim(query) == "" then records
    else
      Seqs.FilterIsSubsequence(records, PlateContains(query));
      Seqs.FilterCounts(records, PlateContains(query));
      Seqs.Filter(records, PlateContains(query))
  }

  function PlateContains(query: string): Record -> bool {
    (rec: Record) => JsText.ContainsIgnoringCase(rec.licensePlate, query)
  }

  /** Two plates are the same plate when they agree after lower-casing. */
  predicate SamePlate(a: string, b: string) {
    JsText.EqualsIgnoringCase(a, b)
  }

  /** The sort key of `(a, b) => new Date(b.createdAt) - new Date(a.createdAt)`. */
  function NewestFirstKey(r: Record): int {
    -r.createdAt
  }

  /** `records.filter(record => record.licensePlate.toLowerCase() === plate.toLowerCase())` */
  function RecordsOfPlate(records: seq<Record>, plate: string): (r: seq<Record>)
    ensures forall k :: 0 <= k < |r| ==> r[k] in records && SamePlate(r[k].licensePlate, plate)
    ensures forall k :: 0 <= k < |records| && SamePlate(records[k].licensePlate, plate) ==> records[k] in r
    ensures Seqs.IsSubsequence(r, records)
    ensures forall k :: 0 <= k < |records| ==>
      multiset(r)[records[k]] == if SamePlate(records[k].licensePlate, plate) then multiset(records)[records[k]] else 0
  {
    Seqs.FilterIsSubsequence(records, OfSamePlate(plate));
    Seqs.FilterCounts(records, OfSamePlate(plate));
    Seqs.Filter(records, OfSamePlate(plate))
  }

  function OfSamePlate(plate: string): Record -> bool {
    (rec: Record) => SamePlate(rec.licensePlate, plate)
  }

  /** `getRecordsByPlate` */
  function PlateHistory(records: seq<Record>, plate: string): (r: seq<Record>)
    ensures forall k :: 0 <= k < |r| ==> SamePlate(r[k].licensePlate, plate)
    ensures forall i, j :: 0 <= i < j < |r| ==> r[i].createdAt >= r[j].createdAt
    ensures multiset(r) == multiset(RecordsOfPlate(records, plate))
  {
    var matching := RecordsOfPlate(records, plate);
    var r := StableSort.SortBy(matching, NewestFirstKey);
    forall k | 0 <= k < |r| ensures SamePlate(r[k].licensePlate, plate) {
      assert r[k] in multiset(matching);
    }
    r
  }

  /** Records of one plate that were created at the same time keep their stored order. */
  lemma PlateHistoryStable(records: seq<Record>, plate: string, t: int)
    ensures StableSort.WithKey(PlateHistory(records, plate), NewestFirstKey, -t) ==
      StableSort.WithKey(RecordsOfPlate(records, plate), NewestFirstKey, -t)
  {
    NewestFirstStable(RecordsOfPlate(records, plate), t);
  }

  lemma NewestFirstStable(m: seq<Record>, t: int)
    ensures StableSort.WithKey(StableSort.SortBy(m, NewestFirstKey), NewestFirstKey, -t) ==
      StableSort.WithKey(m, NewestFirstKey, -t)
  {
    StableSort.SortByStable(m, NewestFirstKey, -t);
  }

  /** `acc[plate] = (acc[plate] || 0) + 1` folded over the plates from the left. */
  function Tally(plates: seq<string>): (m: map<string, nat>)
    ensures m.Keys == set p | p in plates
  {
    if |plates| == 0 then map[]
    else
      var plate := plates[|plates| - 1];
      var m := Tally(plates[..|plates| - 1]);
      assert plates == plates[..|plates| - 1] + [plate];
      Bump(m, plate)
  }

  /** `acc[plate] = (acc[plate] || 0) + 1` */
  function Bump(m: map<string, nat>, plate: string): (r: map<string, nat>)
    ensures r.Keys == m.Keys + {plate}
  {
    m[plate := if plate in m then m[plate] + 1 else 1]
  }

  /** How often `x` occurs in `s`. */
  function Count(s: seq<string>, x: string): nat {
    if |s| == 0 then 0 else (if s[|s| - 1] == x then 1 else 0) + Count(s[..|s| - 1], x)
  }

  /** Each plate's tally is the number of its records. */
  lemma {:induction false} TallyCounts(plates: seq<string>, p: string)
    requires p in plates
    ensures p in Tally(plates) && Tally(plates)[p] == Count(plates, p)
  {
    var n := |plates|;
    var pre := plates[..n - 1];
    if p in pre {
      TallyCounts(pre, p);
    } else {
      assert plates[n - 1] == p;
      CountAbsent(pre, p);
    }
  }

  lemma {:induction false} CountAbsent(s: seq<string>, x: string)
    requires x !in s
    ensures Count(s, x) == 0
  {
    if |s| > 0 {
      assert s[..|s| - 1][..] == s[..|s| - 1];
      assert forall y :: y in s[..|s| - 1] ==> y in s;
      CountAbsent(s[..|s| - 1], x);
    }
  }

  /** The sum of `m`'s values at the listed keys. */
  function SumAt(m: map<string, nat>, keys: seq<string>): nat
    requires forall k :: 0 <= k < |keys| ==> keys[k] in m
  {
    if |keys| == 0 then 0 else SumAt(m, keys[..|keys| - 1]) + m[keys[|keys| - 1]]
  }

  /** Raising one key's value by one raises the sum over the distinct keys by one if the
      key is listed, and leaves it alone otherwise. */
  lemma {:induction false} SumAtBump(m: map<string, nat>, keys: seq<string>, x: string, v: nat)
    requires forall k :: 0 <= k < |keys| ==> keys[k] in m
    requires forall i, j :: 0 <= i < j < |keys| ==> keys[i] != keys[j]
    requires x in keys ==> x in m && v == m[x] + 1
    ensures SumAt(m[x := v], keys) == SumAt(m, keys) + (if x in keys then 1 else 0)
  {
    if |keys| > 0 {
      var pre := keys[..|keys| - 1];
      var last := keys[|keys| - 1];
      assert keys == pre + [last];
      assert x in pre ==> x != last;
      assert x in keys ==> x in pre || x == last;
      forall i | 0 <= i < |pre| ensures pre[i] != last {
        assert pre[i] == keys[i];
      }
      SumAtBump(m, pre, x, if x in pre then v else (if x in m then m[x] + 1 else 1));
      if x in pre {
        assert SumAt(m[x := v], pre) == SumAt(m, pre) + 1;
      } else {
        SumAtFresh(m, pre, x, v);
      }
    }
  }

  /** Changing a key that is not listed does not change the sum. */
  lemma {:induction false} SumAtFresh(m: map<string, nat>, keys: seq<string>, x: string, v: nat)
    requires forall k :: 0 <= k < |keys| ==> keys[k] in m
    requires x !in keys
    ensures SumAt(m[x := v], keys) == SumAt(m, keys)
  {
    if |keys| > 0 {
      var pre := keys[..|keys| - 1];
      assert forall y :: y in pre ==> y in keys;
      SumAtFresh(m, pre, x, v);
    }
  }

  /** The per-plate counts add up to the number of records. */
  lemma {:induction false} TallySum(plates: seq<string>)
    ensures forall k :: 0 <= k < |Seqs.Distinct(plates)| ==> Seqs.Distinct(plates)[k] in Tally(plates)
    ensures SumAt(Tally(plates), Seqs.Distinct(plates)) == |plates|
  {
    if |plates| > 0 {
      TallySum(plates[..|plates| - 1]);
      TallySumStep(plates);
    }
  }

  lemma TallySumStep(plates: seq<string>)
    requires |plates| > 0
    requires var pre := plates[..|plates| - 1];
      (forall k :: 0 <= k < |Seqs.Distinct(pre)| ==> Seqs.Distinct(pre)[k] in Tally(pre)) &&
      SumAt(Tally(pre), Seqs.Distinct(pre)) == |pre|
    ensures forall k :: 0 <= k < |Seqs.Distinct(plates)| ==> Seqs.Distinct(plates)[k] in Tally(plates)
    ensures SumAt(Tally(plates), Seqs.Distinct(plates)) == |plates|
  {
    var pre, last := plates[..|plates| - 1], plates[|plates| - 1];
    var m, d := Tally(pre), Seqs.Distinct(pre);
    assert last in d <==> last in m by {
      if last in pre {
        var k :| 0 <= k < |pre| && pre[k] == last;
      }
    }
    SumStep(m, d, last, |pre|);
  }

  /** The sum invariant carried over one more plate. */
  lemma SumStep(m: map<string, nat>, d: seq<string>, x: string, n: nat)
    requires forall k :: 0 <= k < |d| ==> d[k] in m
    requires forall i, j :: 0 <= i < j < |d| ==> d[i] != d[j]
    requires SumAt(m, d) == n && (x in d <==> x in m)
    ensures var d2 := if x in d then d else d + [x];
      (forall k :: 0 <= k < |d2| ==> d2[k] in Bump(m, x)) && SumAt(Bump(m, x), d2) == n + 1
  {
    if x in d {
      BumpSeen(m, d, x);
    } else {
      BumpNew(m, d, x);
    }
  }

  /** One more record of a plate already counted. */
  lemma BumpSeen(m: map<string, nat>, d: seq<string>, x: string)
    requires forall k :: 0 <= k < |d| ==> d[k] in m
    requires forall i, j :: 0 <= i < j < |d| ==> d[i] != d[j]
    requires x in d
    ensures forall k :: 0 <= k < |d| ==> d[k] in Bump(m, x)
    ensures SumAt(Bump(m, x), d) == SumAt(m, d) + 1
  {
    SumAtBump(m, d, x, m[x] + 1);
  }

  /** The first record of a new plate. */
  lemma BumpNew(m: map<string, nat>, d: seq<string>, x: string)
    requires forall k :: 0 <= k < |d| ==> d[k] in m
    requires x !in d && x !in m
    ensures forall k :: 0 <= k < |d + [x]| ==> (d + [x])[k] in Bump(m, x)
    ensures SumAt(Bump(m, x), d + [x]) == SumAt(m, d) + 1
  {
    SumAtFresh(m, d, x, 1);
    assert (d + [x])[..|d|] == d;
  }

  function Plates(records: seq<Record>): (r: seq<string>)
    ensures |r| == |records| && forall k :: 0 <= k < |records| ==> r[k] == records[k].licensePlate
  {
    seq(|records|, k requires 0 <= k < |records| => records[k].licensePlate)
  }

  /** `getStatistics` without `todayRecords`. */
  datatype Statistics = Statistics(totalRecords: nat, uniquePlates: nat, plateCounts: map<string, nat>)

  function StatisticsOf(records: seq<Record>): (s: Statistics)
    ensures s.totalRecords == |records|
    ensures s.uniquePlates == |Seqs.Distinct(Plates(records))|
    ensures s.plateCounts.Keys == set k | 0 <= k < |records| :: records[k].licensePlate
  {
    var plates := Plates(records);
    Seqs.DistinctCardinality(plates);
    assert (set p | p in plates) == set k | 0 <= k < |records| :: records[k].licensePlate by {
      forall p | p in plates ensures exists k :: 0 <= k < |records| && records[k].licensePlate == p {
        var k :| 0 <= k < |plates| && plates[k] == p;
      }
    }
    Statistics(|records|, |set p | p in plates|, Tally(plates))
  }

  /** The plate counts are the number of records of each plate and add up to
      `totalRecords`. */
  lemma StatisticsConsistent(records: seq<Record>)
    ensures var s := StatisticsOf(records);
      var d := Seqs.Distinct(Plates(records));
      (forall k :: 0 <= k < |records| ==> s.plateCounts[records[k].licensePlate] == Count(Plates(records), records[k].licensePlate)) &&
      (forall k :: 0 <= k < |d| ==> d[k] in s.plateCounts) &&
      SumAt(s.plateCounts, d) == s.totalRecords && |d| == s.uniquePlates
  {
    var plates := Plates(records);
    forall k | 0 <= k < |records|
      ensures StatisticsOf(records).plateCounts[records[k].licensePlate] == Count(plates, records[k].licensePlate)
    {
      assert plates[k] == records[k].licensePlate;
      TallyCounts(plates, records[k].licensePlate);
    }
    TallySum(plates);
  }

  /** What `importData` was given: a `records` array, an object without an array
      there, or a value whose `records` cannot be read (null), with the thrown message. */
  datatype ImportPayload = RecordsArray(records: seq<Record>) | NotRecordsArray | Unreadable(message: string)

  datatype Outcome = Outcome(success: bool, error: Option<string>)

  const SaveFailedMessage := "保存失败"
  const BadFormatMessage := "数据格式错误"

  class DataStorageService {
    /** `this.records` */
    var records: seq<Record>
    /** What local storage last received. */
    var saved: Option<seq<Record>>

    /** `loadRecords` reads what storage holds; `stored` is None when nothing is stored or it does not parse. */
    constructor (stored: Option<seq<Record>>)
      ensures records == (if stored.Some? then stored.value else [])
      ensures saved == stored
    {
      records := if stored.Some? then stored.value else [];
      saved := stored;
    }

    /** `saveRecords`: `ok` is whether the write succeeded. */
    method Save(ok: bool) returns (success: bool)
      modifies this`saved
      ensures success == ok
      ensures saved == if ok then Some(records) else old(saved)
    {
      if ok { saved := Some(records); }
      success := ok;
    }

    /** `addRecord`: the new record goes in front, whether or not the write succeeds. */
    method AddRecord(draft: Draft, id: int, createdAt: int, saveOk: bool) returns (success: bool, record: Record)
      modifies this
      ensures record == Record(id, draft.licensePlate, draft.date, draft.image, draft.serviceRecord, createdAt)
      ensures records == [record] + old(records)
      ensures success == saveOk && saved == (if saveOk then Some(records) else old(saved))
    {
      record := Record(id, draft.licensePlate, draft.date, draft.image, draft.serviceRecord, createdAt);
      records := [record] + records;
      success := Save(saveOk);
    }

    /** `getAllRecords` returns a copy. */
    method GetAllRecords() returns (r: seq<Record>)
      ensures r == records
    {
      r := records;
    }

    method SearchByLicensePlate(query: string) returns (r: seq<Record>)
      ensures r == PlateSearch(records, query)
    {
      r := PlateSearch(records, query);
    }

    method GetRecordsByPlate(plate: string) returns (r: seq<Record>)
      ensures r == PlateHistory(records, plate)
    {
      r := PlateHistory(records, plate);
    }

    /** `updateRecord`: merge into the first record with the id; false when there is none. */
    method UpdateRecord(id: int, updates: RecordPatch, saveOk: bool) returns (success: bool)
      modifies this
      ensures var i := IndexOfId(old(records), id);
        (i.None? ==> !success && records == old(records) && saved == old(saved)) &&
        (i.Some? ==> (success == saveOk && records == old(records)[i.value := Merge(old(records)[i.value], updates)] &&
          saved == (if saveOk then Some(records) else old(saved))))
    {
      var i := IndexOfId(records, id);
      if i.Some? {
        records := records[i.value := Merge(records[i.value], updates)];
        success := Save(saveOk);
      } else {
        success := false;
      }
    }

    /** `deleteRecord`: `splice` out the first record with the id; false when there is none. */
    method DeleteRecord(id: int, saveOk: bool) returns (success: bool)
      modifies this
      ensures var i := IndexOfId(old(records), id);
        (i.None? ==> !success && records == old(records) && saved == old(saved)) &&
        (i.Some? ==> (success == saveOk && records == old(records)[..i.value] + old(records)[i.value + 1..] &&
          saved == (if saveOk then Some(records) else old(saved))))
    {
      var i := IndexOfId(records, id);
      if i.Some? {
        records := records[..i.value] + records[i.value + 1..];
        success := Save(saveOk);
      } else {
        success := false;
      }
    }

    method GetStatistics() returns (s: Statistics)
      ensures s == StatisticsOf(records)
    {
      s := StatisticsOf(records);
    }

    /** `importData`: replace the records, and put the old ones back when the write fails. */
    method ImportData(data: ImportPayload, saveOk: bool) returns (result: Outcome)
      modifies this
      ensures data.RecordsArray? && saveOk ==> result == Outcome(true, None) && records == data.records && saved == Some(data.records)
      ensures data.RecordsArray? && !saveOk ==> result == Outcome(false, Some(SaveFailedMessage)) && records == old(records) && saved == old(saved)
      ensures data.NotRecordsArray? ==> result == Outcome(false, Some(BadFormatMessage)) && records == old(records) && saved == old(saved)
      ensures data.Unreadable? ==> result == Outcome(false, Some(data.message)) && records == old(records) && saved == old(saved)
    {
      match data
      case RecordsArray(rs) =>
        var backup := records;
        records := rs;
        var ok := Save(saveOk);
        if ok {
          result := Outcome(true, None);
        } else {
          records := backup;
          result := Outcome(false, Some(SaveFailedMessage));
        }
      case NotRecordsArray =>
        result := Outcome(false, Some(BadFormatMessage));
      case Unreadable(m) =>
        result := Outcome(false, Some(m));
    }

    method ClearAllData(saveOk: bool) returns (success: bool)
      modifies this
      ensures records == [] && success == saveOk && saved == (if saveOk then Some([]) else old(saved))
    {
      records := [];
      success := Save(saveOk);
    }
  }

  /** Deleting removes exactly one record, the first with the id: the rest keep their order. */
  lemma DeleteRemovesFirstMatch(records: seq<Record>, id: int)
    requires IndexOfId(records, id).Some?
    ensures var i := IndexOfId(records, id).value;
      var r := records[..i] + records[i + 1..];
      |r| == |records| - 1 && Seqs.IsSubsequence(r, records) &&
      (forall k :: 0 <= k < |records| && k != i ==> records[k] in r)
  {
    var i := IndexOfId(records, id).value;
    var r := records[..i] + records[i + 1..];
    DropOneIsSubsequence(records, i);
    forall k | 0 <= k < |records| && k != i ensures records[k] in r {
      if k < i { assert r[k] == records[k]; } else { assert r[k - 1] == records[k]; }
    }
  }

  lemma {:induction false} DropOneIsSubsequence<T>(s: seq<T>, i: nat)
    requires i < |s|
    ensures Seqs.IsSubsequence(s[..i] + s[i + 1..], s)
  {
    if i == 0 {
      assert s[..0] + s[1..] == s[1..];
      SelfSubsequence(s[1..]);
    } else {
      DropOneIsSubsequence(s[1..], i - 1);
      var r := s[..i] + s[i + 1..];
      assert r[0] == s[0];
      assert r[1..] == s[1..][..i - 1] + s[1..][i..];
    }
  }

  lemma {:induction false} SelfSubsequence<T>(s: seq<T>)
    ensures Seqs.IsSubsequence(s, s)
  {
    if s != [] { SelfSubsequence(s[1..]); }
  }

  /** Adding a record and then deleting its id gives back the old records, provided no
      older record had that id. */
  lemma AddThenDelete(records: seq<Record>, rec: Record)
    requires forall k :: 0 <= k < |records| ==> records[k].id != rec.id
    ensures IndexOfId([rec] + records, rec.id) == Some(0)
    ensures var r := [rec] + records; r[..0] + r[1..] == records
  {
  }
}
