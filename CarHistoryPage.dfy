/** The vehicle history page of the React app: a case-insensitive plate search over the
    loaded records, the per-plate history newest first, the one-line service summary,
    and the grouping of the search results by plate. The page state (search term,
    results, all records) is the class HistoryPage. */
module CarHistoryPage {
  import JsText
  import Seqs
  import StableSort
  import SimpleCarWashPage

  /** A stored visit; the timestamp is the instant `new Date(timestamp)` denotes, in milliseconds. */
  datatype HistoryRecord = HistoryRecord(id: int, licensePlate: string, date: string, timestamp: int,
                                         serviceRecord: SimpleCarWashPage.ServiceSheet)

  // ---------------------------------------------------------------- search

  function PlateContains(term: string): HistoryRecord -> bool {
    (rec: HistoryRecord) => JsText.ContainsIgnoringCase(rec.licensePlate, term)
  }

  /** `handleSearch(term)`: all records for a blank term, else the records whose plate
      contains the (untrimmed) term, ignoring case, in their order. */
  function Search(all: seq<HistoryRecord>, term: string): (r: seq<HistoryRecord>)
    ensures JsText.AllSpace(term) ==> r == all
    ensures !JsText.AllSpace(term) ==>
      (forall k :: 0 <= k < |r| ==> r[k] in all && JsText.ContainsIgnoringCase(r[k].licensePlate, term)) &&
      (forall k :: 0 <= k < |all| && JsText.ContainsIgnoringCase(all[k].licensePlate, term) ==> all[k] in r) &&
      Seqs.IsSubsequence(r, all) &&
      forall k :: 0 <= k < |all| ==>
        multiset(r)[all[k]] == if JsText.ContainsIgnoringCase(all[k].licensePlate, term) then multiset(all)[all[k]] else 0
  {
    JsText.TrimEmptyIffAllSpace(term);
    if JsText.Trim(term) == "" then all
    else
      Seqs.FilterIsSubsequence(all, PlateContains(term));
      Seqs.FilterCounts(all, PlateContains(term));
      Seqs.Filter(all, PlateContains(term))
  }

  // ---------------------------------------------------------------- history of one plate

  function SamePlateAs(plate: string): HistoryRecord -> bool {
    (rec: HistoryRecord) => JsText.EqualsIgnoringCase(rec.licensePlate, plate)
  }

  /** The sort key of `(a, b) => new Date(b.timestamp) - new Date(a.timestamp)`. */
  function NewestFirst(rec: HistoryRecord): int {
    -rec.timestamp
  }

  function OfPlate(all: seq<HistoryRecord>, plate: string): seq<HistoryRecord> {
    Seqs.Filter(all, SamePlateAs(plate))
  }

  /** `getHistoryForPlate(plate)` */
  function HistoryForPlate(all: seq<HistoryRecord>, plate: string): (r: seq<HistoryRecord>)
    ensures forall k :: 0 <= k < |r| ==> JsText.EqualsIgnoringCase(r[k].licensePlate, plate)
    ensures forall i, j :: 0 <= i < j < |r| ==> r[i].timestamp >= r[j].timestamp
    ensures multiset(r) == multiset(OfPlate(all, plate))
  {
    var matching := OfPlate(all, plate);
    var r := StableSort.SortBy(matching, NewestFirst);
    forall k | 0 <= k < |r| ensures JsText.EqualsIgnoringCase(r[k].licensePlate, plate) {
      assert r[k] in multiset(matching);
    }
    r
  }

  /** Every record of the plate is in its history. */
  lemma HistoryForPlateComplete(all: seq<HistoryRecord>, plate: string, k: nat)
    requires k < |all| && JsText.EqualsIgnoringCase(all[k].licensePlate, plate)
    ensures all[k] in HistoryForPlate(all, plate)
  {
    assert all[k] in OfPlate(all, plate);
    assert all[k] in multiset(HistoryForPlate(all, plate));
  }

  /** Visits with the same timestamp keep their stored order. */
  lemma HistoryForPlateStable(all: seq<HistoryRecord>, plate: string, t: int)
    ensures StableSort.WithKey(HistoryForPlate(all, plate), NewestFirst, -t) ==
            StableSort.WithKey(OfPlate(all, plate), NewestFirst, -t)
  {
    StableSort.SortByStable(OfPlate(all, plate), NewestFirst, -t);
  }

  // ---------------------------------------------------------------- service summary

  /** The two-way label choice: the first label exactly for the named value. */
  function Label(value: string, first: string, a: string, b: string): (l: string)
    ensures l == a <== value == first
    ensures value != first ==> l == b
  {
    if value == first then a else b
  }

  /** The summary entry of one field, when the field is filled. */
  function EntryFor(s: SimpleCarWashPage.ServiceSheet, f: SimpleCarWashPage.Field): string {
    match f
    case Rego => "Rego: " + Label(s.rego, "better", "更好", "添加")
    case EngineOil => "机油: " + Label(s.engineOil, "better", "更好", "添加")
    case Wipers => "雨刮器: " + Label(s.wipers, "normal", "正常", "损坏")
    case Tires => "轮胎: 更换"
    case Interior => "内饰: " + Label(s.interior, "staff1", "员工A", "员工B")
    case Exterior => "外观: " + Label(s.exterior, "staff1", "员工A", "员工B")
  }

  /** The order the summary lists the fields in. */
  const FieldOrder: seq<SimpleCarWashPage.Field> :=
    [SimpleCarWashPage.Rego, SimpleCarWashPage.EngineOil, SimpleCarWashPage.Wipers,
     SimpleCarWashPage.Tires, SimpleCarWashPage.Interior, SimpleCarWashPage.Exterior]

  function Filled(s: SimpleCarWashPage.ServiceSheet): SimpleCarWashPage.Field -> bool {
    (f: SimpleCarWashPage.Field) => SimpleCarWashPage.FieldOf(s, f) != ""
  }

  function Push(s: SimpleCarWashPage.ServiceSheet, f: SimpleCarWashPage.Field): seq<string> {
    if SimpleCarWashPage.FieldOf(s, f) != "" then [EntryFor(s, f)] else []
  }

  /** One push per field of `fs` that is filled, in the order of `fs`. */
  function EntriesOf(s: SimpleCarWashPage.ServiceSheet, fs: seq<SimpleCarWashPage.Field>): (r: seq<string>)
    ensures forall k :: 0 <= k < |r| ==> r[k] != ""
  {
    if fs == [] then [] else Push(s, fs[0]) + EntriesOf(s, fs[1..])
  }

  /** The `services` array. */
  function Entries(s: SimpleCarWashPage.ServiceSheet): seq<string> {
    EntriesOf(s, FieldOrder)
  }

  /** The entries are exactly the entries of the filled fields, in field order. */
  lemma {:induction false} EntriesOfFilledFields(s: SimpleCarWashPage.ServiceSheet, fs: seq<SimpleCarWashPage.Field>)
    ensures EntriesFollow(s, EntriesOf(s, fs), Seqs.Filter(fs, Filled(s)))
  {
    if fs != [] {
      EntriesOfFilledFields(s, fs[1..]);
      EntriesStep(s, fs);
    }
  }

  lemma EntriesStep(s: SimpleCarWashPage.ServiceSheet, fs: seq<SimpleCarWashPage.Field>)
    requires fs != [] && EntriesFollow(s, EntriesOf(s, fs[1..]), Seqs.Filter(fs[1..], Filled(s)))
    ensures EntriesFollow(s, EntriesOf(s, fs), Seqs.Filter(fs, Filled(s)))
  {
    var gs, gs' := Seqs.Filter(fs, Filled(s)), Seqs.Filter(fs[1..], Filled(s));
    var e, e' := EntriesOf(s, fs), EntriesOf(s, fs[1..]);
    if Filled(s)(fs[0]) {
      assert gs == [fs[0]] + gs';
      assert e == [EntryFor(s, fs[0])] + e';
      EntriesFollowCons(s, fs[0], e', gs');
    } else {
      assert gs == gs';
      assert e == e';
    }
  }

  /** `es` lists the entries of the fields `gs`, one each, in order. */
  ghost predicate EntriesFollow(s: SimpleCarWashPage.ServiceSheet, es: seq<string>, gs: seq<SimpleCarWashPage.Field>) {
    |es| == |gs| && forall k :: 0 <= k < |gs| ==> es[k] == EntryFor(s, gs[k])
  }

  lemma EntriesFollowCons(s: SimpleCarWashPage.ServiceSheet, f: SimpleCarWashPage.Field,
                          es: seq<string>, gs: seq<SimpleCarWashPage.Field>)
    requires EntriesFollow(s, es, gs)
    ensures EntriesFollow(s, [EntryFor(s, f)] + es, [f] + gs)
  {
    var es', gs' := [EntryFor(s, f)] + es, [f] + gs;
    forall k | 0 <= k < |gs'| ensures es'[k] == EntryFor(s, gs'[k]) {
      if k > 0 {
        assert es'[k] == es[k - 1] && gs'[k] == gs[k - 1];
      }
    }
  }

  /** `renderServiceDetails(serviceRecord)` */
  function ServiceDetails(s: SimpleCarWashPage.ServiceSheet): string {
    JsText.Join(Entries(s), ", ")
  }

  /** The summary is empty exactly when no field is filled. */
  lemma ServiceDetailsEmptyIff(s: SimpleCarWashPage.ServiceSheet)
    ensures ServiceDetails(s) == "" <==> s == SimpleCarWashPage.BlankSheet
  {
    JsText.JoinEmptyIff(Entries(s), ", ");
    if s == SimpleCarWashPage.BlankSheet {
      BlankSheetNoEntries(FieldOrder);
    }
    if Entries(s) == [] {
      NoEntriesNoneFilled(s, FieldOrder);
      SimpleCarWashPage.BlankSheetIsBlank(s);
      assert SimpleCarWashPage.FieldOf(s, FieldOrder[0]) == "" && SimpleCarWashPage.FieldOf(s, FieldOrder[1]) == "";
      assert SimpleCarWashPage.FieldOf(s, FieldOrder[2]) == "" && SimpleCarWashPage.FieldOf(s, FieldOrder[3]) == "";
      assert SimpleCarWashPage.FieldOf(s, FieldOrder[4]) == "" && SimpleCarWashPage.FieldOf(s, FieldOrder[5]) == "";
    }
  }

  lemma {:induction false} BlankSheetNoEntries(fs: seq<SimpleCarWashPage.Field>)
    ensures EntriesOf(SimpleCarWashPage.BlankSheet, fs) == []
  {
    if fs != [] {
      BlankSheetNoEntries(fs[1..]);
      assert SimpleCarWashPage.FieldOf(SimpleCarWashPage.BlankSheet, fs[0]) == "";
    }
  }

  lemma {:induction false} NoEntriesNoneFilled(s: SimpleCarWashPage.ServiceSheet, fs: seq<SimpleCarWashPage.Field>)
    requires EntriesOf(s, fs) == []
    ensures forall k :: 0 <= k < |fs| ==> SimpleCarWashPage.FieldOf(s, fs[k]) == ""
  {
    if fs != [] {
      assert Push(s, fs[0]) == [];
      NoEntriesNoneFilled(s, fs[1..]);
      forall k | 1 <= k < |fs| ensures SimpleCarWashPage.FieldOf(s, fs[k]) == "" {
        assert fs[k] == fs[1..][k - 1];
      }
    }
  }

  // ---------------------------------------------------------------- grouping

  function PlatesOf(rs: seq<HistoryRecord>): (ps: seq<string>)
    ensures |ps| == |rs| && forall k :: 0 <= k < |rs| ==> ps[k] == rs[k].licensePlate
  {
    seq(|rs|, k requires 0 <= k < |rs| => rs[k].licensePlate)
  }

  function WithPlate(p: string): HistoryRecord -> bool {
    (rec: HistoryRecord) => rec.licensePlate == p
  }

  /** The records filed under plate `p`, in their order. */
  function Group(rs: seq<HistoryRecord>, p: string): seq<HistoryRecord> {
    Seqs.Filter(rs, WithPlate(p))
  }

  /** The group of a record is the group of its plate and of no other plate. */
  lemma GroupsAreDisjoint(rs: seq<HistoryRecord>, k: nat, p: string)
    requires k < |rs|
    ensures rs[k] in Group(rs, p) <==> p == rs[k].licensePlate
  {
    if rs[k] in Group(rs, p) {
      var i :| 0 <= i < |Group(rs, p)| && Group(rs, p)[i] == rs[k];
      assert WithPlate(p)(Group(rs, p)[i]);
    }
  }

  /** The total size of the groups of plates `keys`. */
  function GroupSizes(rs: seq<HistoryRecord>, keys: seq<string>): nat {
    if keys == [] then 0 else |Group(rs, keys[0])| + GroupSizes(rs, keys[1..])
  }

  /** How often `p` occurs in `keys`. */
  function Hits(p: string, keys: seq<string>): nat {
    if keys == [] then 0 else (if keys[0] == p then 1 else 0) + Hits(p, keys[1..])
  }

  lemma {:induction false} HitsOnce(p: string, keys: seq<string>)
    requires Seqs.NoDuplicates(keys)
    ensures Hits(p, keys) == if p in keys then 1 else 0
  {
    if keys != [] {
      assert Seqs.NoDuplicates(keys[1..]) by {
        forall i, j | 0 <= i < j < |keys[1..]| ensures keys[1..][i] != keys[1..][j] {
          assert keys[1..][i] == keys[i + 1] && keys[1..][j] == keys[j + 1];
        }
      }
      HitsOnce(p, keys[1..]);
      assert keys == [keys[0]] + keys[1..];
      if keys[0] == p {
        assert p !in keys[1..] by {
          forall k | 0 <= k < |keys[1..]| ensures keys[1..][k] != p {
            assert keys[1..][k] == keys[k + 1];
          }
        }
      }
    }
  }

  lemma {:induction false} GroupSizesCons(r: HistoryRecord, rest: seq<HistoryRecord>, keys: seq<string>)
    ensures GroupSizes([r] + rest, keys) == Hits(r.licensePlate, keys) + GroupSizes(rest, keys)
  {
    if keys != [] {
      GroupSizesCons(r, rest, keys[1..]);
      var rs := [r] + rest;
      assert rs[0] == r && rs[1..] == rest;
    }
  }

  /** Over repetition-free keys covering every plate, the group sizes add up to the number of records. */
  lemma {:induction false} GroupSizesCount(rs: seq<HistoryRecord>, keys: seq<string>)
    requires Seqs.NoDuplicates(keys)
    requires forall k :: 0 <= k < |rs| ==> rs[k].licensePlate in keys
    ensures GroupSizes(rs, keys) == |rs|
  {
    if rs == [] {
      GroupSizesEmpty(keys);
    } else {
      assert rs == [rs[0]] + rs[1..];
      GroupSizesCons(rs[0], rs[1..], keys);
      HitsOnce(rs[0].licensePlate, keys);
      GroupSizesCount(rs[1..], keys);
    }
  }

  lemma {:induction false} GroupSizesEmpty(keys: seq<string>)
    ensures GroupSizes([], keys) == 0
  {
    if keys != [] {
      GroupSizesEmpty(keys[1..]);
    }
  }

  /** The groups of the distinct plates hold all records between them. */
  lemma GroupsCoverRecords(rs: seq<HistoryRecord>)
    ensures GroupSizes(rs, Seqs.Distinct(PlatesOf(rs))) == |rs|
    ensures |Seqs.Distinct(PlatesOf(rs))| == |set p | p in PlatesOf(rs)|
  {
    var d := Seqs.Distinct(PlatesOf(rs));
    forall k | 0 <= k < |rs| ensures rs[k].licensePlate in d {
      assert PlatesOf(rs)[k] == rs[k].licensePlate;
    }
    GroupSizesCount(rs, d);
    Seqs.DistinctCardinality(PlatesOf(rs));
  }

  /** Group arrays are shown newest first: `records.sort((a, b) => b.timestamp - a.timestamp)`. */
  function ShownGroup(group: seq<HistoryRecord>): (r: seq<HistoryRecord>)
    ensures forall i, j :: 0 <= i < j < |r| ==> r[i].timestamp >= r[j].timestamp
    ensures multiset(r) == multiset(group)
  {
    StableSort.SortBy(group, NewestFirst)
  }

  class HistoryPage {
    var searchTerm: string
    var searchResults: seq<HistoryRecord>
    var allRecords: seq<HistoryRecord>

    /** The page after its load effect: every loaded record is listed. */
    constructor(loaded: seq<HistoryRecord>)
      ensures searchTerm == "" && searchResults == loaded && allRecords == loaded
    {
      searchTerm := "";
      searchResults := loaded;
      allRecords := loaded;
    }

    /** `handleSearch(term)` */
    method HandleSearch(term: string)
      modifies this
      ensures searchTerm == term && searchResults == Search(allRecords, term)
      ensures allRecords == old(allRecords)
    {
      searchTerm := term;
      searchResults := Search(allRecords, term);
    }

    /** `groupedResults`: the search results filed under their exact plate, the plates
        in order of first appearance (`Object.entries` order). */
    method GroupedResults() returns (keys: seq<string>, groups: map<string, seq<HistoryRecord>>)
      ensures Grouped(searchResults, keys, groups)
    {
      keys := [];
      groups := map[];
      var i := 0;
      while i < |searchResults|
        invariant 0 <= i <= |searchResults|
        invariant Grouped(searchResults[..i], keys, groups)
      {
        var rec := searchResults[i];
        var plate := rec.licensePlate;
        GroupedStep(searchResults, i, keys, groups);
        FiledInTwoSteps(groups, rec);
        if plate !in groups {
          groups := groups[plate := []];
          keys := keys + [plate];
        }
        groups := groups[plate := groups[plate] + [rec]];
        i := i + 1;
      }
      assert searchResults[..i] == searchResults;
    }
  }

  /** `keys` are the distinct plates of `rs` in order of first appearance, and each of
      them is mapped to the records of that plate, in their order. */
  ghost predicate Grouped(rs: seq<HistoryRecord>, keys: seq<string>, groups: map<string, seq<HistoryRecord>>) {
    && keys == Seqs.Distinct(PlatesOf(rs))
    && (forall p :: p in groups <==> p in keys)
    && (forall p :: p in groups ==> groups[p] == Group(rs, p))
  }

  /** What a grouping promises: every record is in the group of its plate and in no other,
      the group sizes add up to the number of records, and there are as many groups as
      distinct plates. */
  lemma GroupingPartitions(rs: seq<HistoryRecord>, keys: seq<string>, groups: map<string, seq<HistoryRecord>>)
    requires Grouped(rs, keys, groups)
    ensures forall k :: 0 <= k < |rs| ==> rs[k].licensePlate in groups && rs[k] in groups[rs[k].licensePlate]
    ensures forall p, k :: p in groups && 0 <= k < |groups[p]| ==> groups[p][k].licensePlate == p
    ensures GroupSizes(rs, keys) == |rs|
    ensures |keys| == |set p | p in PlatesOf(rs)|
  {
    GroupsCoverRecords(rs);
    forall k | 0 <= k < |rs| ensures rs[k].licensePlate in groups && rs[k] in groups[rs[k].licensePlate] {
      assert PlatesOf(rs)[k] == rs[k].licensePlate;
      GroupsAreDisjoint(rs, k, rs[k].licensePlate);
    }
    forall p, k | p in groups && 0 <= k < |groups[p]| ensures groups[p][k].licensePlate == p {
      assert WithPlate(p)(Group(rs, p)[k]);
    }
  }

  /** A plate that no record carries has an empty group. */
  lemma EmptyGroup(rs: seq<HistoryRecord>, p: string)
    requires p !in Seqs.Distinct(PlatesOf(rs))
    ensures Group(rs, p) == []
  {
    forall k | 0 <= k < |rs| ensures rs[k].licensePlate != p {
      assert PlatesOf(rs)[k] == rs[k].licensePlate;
    }
    NoRecordNoGroup(rs, p);
  }

  lemma {:induction false} NoRecordNoGroup(rs: seq<HistoryRecord>, p: string)
    requires forall k :: 0 <= k < |rs| ==> rs[k].licensePlate != p
    ensures Group(rs, p) == []
  {
    if |rs| > 0 {
      assert !WithPlate(p)(rs[0]);
      forall k | 0 <= k < |rs[1..]| ensures rs[1..][k].licensePlate != p {
        assert rs[1..][k] == rs[k + 1];
      }
      NoRecordNoGroup(rs[1..], p);
    }
  }

  /** The plates after filing `rec`: unchanged when its plate already has a group. */
  function FiledKeys(keys: seq<string>, groups: map<string, seq<HistoryRecord>>, rec: HistoryRecord): seq<string> {
    if rec.licensePlate in groups then keys else keys + [rec.licensePlate]
  }

  /** The groups after filing `rec`: it is appended to the group of its plate, which is created when missing. */
  function FiledGroups(groups: map<string, seq<HistoryRecord>>, rec: HistoryRecord): map<string, seq<HistoryRecord>> {
    groups[rec.licensePlate := (if rec.licensePlate in groups then groups[rec.licensePlate] else []) + [rec]]
  }

  /** Creating the missing group and then appending to it files the record. */
  lemma FiledInTwoSteps(groups: map<string, seq<HistoryRecord>>, rec: HistoryRecord)
    ensures var g := if rec.licensePlate in groups then groups else groups[rec.licensePlate := []];
            g[rec.licensePlate := g[rec.licensePlate] + [rec]] == FiledGroups(groups, rec)
  {
  }

  /** Filing record `rs[i]` into a grouping of `rs[..i]` gives the grouping of `rs[..i + 1]`. */
  lemma GroupedStep(rs: seq<HistoryRecord>, i: nat, keys: seq<string>, groups: map<string, seq<HistoryRecord>>)
    requires i < |rs| && Grouped(rs[..i], keys, groups)
    ensures Grouped(rs[..i + 1], FiledKeys(keys, groups, rs[i]), FiledGroups(groups, rs[i]))
  {
    var keys', groups' := FiledKeys(keys, groups, rs[i]), FiledGroups(groups, rs[i]);
    StepKeys(rs, i, keys, groups);
    assert forall p :: p in groups' <==> p in keys';
    StepGroups(rs, i, keys, groups);
    GroupedIntro(rs[..i + 1], keys', groups');
  }

  lemma StepKeys(rs: seq<HistoryRecord>, i: nat, keys: seq<string>, groups: map<string, seq<HistoryRecord>>)
    requires i < |rs| && Grouped(rs[..i], keys, groups)
    ensures FiledKeys(keys, groups, rs[i]) == Seqs.Distinct(PlatesOf(rs[..i + 1]))
  {
    DistinctStep(rs, i);
  }

  lemma StepGroups(rs: seq<HistoryRecord>, i: nat, keys: seq<string>, groups: map<string, seq<HistoryRecord>>)
    requires i < |rs| && Grouped(rs[..i], keys, groups)
    ensures forall p :: p in FiledGroups(groups, rs[i]) ==> FiledGroups(groups, rs[i])[p] == Group(rs[..i + 1], p)
  {
    if rs[i].licensePlate !in groups {
      EmptyGroup(rs[..i], rs[i].licensePlate);
    }
    forall p | p in FiledGroups(groups, rs[i]) ensures FiledGroups(groups, rs[i])[p] == Group(rs[..i + 1], p) {
      StepGroupAt(rs, i, groups, p);
    }
  }

  lemma StepGroupAt(rs: seq<HistoryRecord>, i: nat, groups: map<string, seq<HistoryRecord>>, p: string)
    requires i < |rs|
    requires p in groups ==> groups[p] == Group(rs[..i], p)
    requires p == rs[i].licensePlate && p !in groups ==> Group(rs[..i], p) == []
    ensures p in FiledGroups(groups, rs[i]) ==> FiledGroups(groups, rs[i])[p] == Group(rs[..i + 1], p)
  {
    GroupOfStep(rs, i, p);
  }

  lemma GroupedIntro(rs: seq<HistoryRecord>, keys: seq<string>, groups: map<string, seq<HistoryRecord>>)
    requires keys == Seqs.Distinct(PlatesOf(rs))
    requires forall p :: p in groups <==> p in keys
    requires forall p :: p in groups ==> groups[p] == Group(rs, p)
    ensures Grouped(rs, keys, groups)
  {
  }

  lemma DistinctStep(rs: seq<HistoryRecord>, i: nat)
    requires i < |rs|
    ensures var d := Seqs.Distinct(PlatesOf(rs[..i]));
            Seqs.Distinct(PlatesOf(rs[..i + 1])) ==
              if rs[i].licensePlate in d then d else d + [rs[i].licensePlate]
  {
    var ps := PlatesOf(rs[..i + 1]);
    assert ps[..|ps| - 1] == PlatesOf(rs[..i]);
  }

  lemma GroupOfStep(rs: seq<HistoryRecord>, i: nat, p: string)
    requires i < |rs|
    ensures Group(rs[..i + 1], p) == Group(rs[..i], p) + (if p == rs[i].licensePlate then [rs[i]] else [])
  {
    assert rs[..i + 1] == rs[..i] + [rs[i]];
    Seqs.FilterConcat(rs[..i], [rs[i]], WithPlate(p));
  }
}
