/** The service-history tab of the React app: the records of the store filtered by a
    case-insensitive plate search, the staff tags of each record, and deletion after a
    confirmation, followed by a reload from the store. */
module HistoryTab {
  import opened Wrappers
  import JsText
  import Seqs
  import DataStorage

  function PlateMatches(term: string): DataStorage.Record -> bool {
    (rec: DataStorage.Record) => JsText.ContainsIgnoringCase(rec.licensePlate, term)
  }

  /** `filteredRecords`: the records whose plate contains the search term, ignoring case.
      The term is not trimmed, and the empty term keeps every record. */
  function FilteredRecords(records: seq<DataStorage.Record>, term: string): (r: seq<DataStorage.Record>)
    ensures forall k :: 0 <= k < |r| ==> r[k] in records && JsText.ContainsIgnoringCase(r[k].licensePlate, term)
    ensures forall k :: 0 <= k < |records| && JsText.ContainsIgnoringCase(records[k].licensePlate, term) ==> records[k] in r
    ensures Seqs.IsSubsequence(r, records)
    ensures term == "" ==> r == records
    ensures forall k :: 0 <= k < |records| ==>
      multiset(r)[records[k]] == if JsText.ContainsIgnoringCase(records[k].licensePlate, term) then multiset(records)[records[k]] else 0
  {
    assert term == "" ==> forall k :: 0 <= k < |records| ==> PlateMatches(term)(records[k]) by {
      if term == "" {
        forall k | 0 <= k < |records| ensures PlateMatches(term)(records[k]) {
          JsText.IncludesEmpty(JsText.Lower(records[k].licensePlate));
        }
      }
    }
    Seqs.FilterIsSubsequence(records, PlateMatches(term));
    Seqs.FilterCounts(records, PlateMatches(term));
    Seqs.Filter(records, PlateMatches(term))
  }

  const NoValue := "-"

  /** `formatArrayValue(arr)`: the entries joined by ", ", or "-" for a missing or empty list. */
  function FormatArrayValue(arr: Option<seq<string>>): string {
    if arr.Some? && |arr.value| > 0 then JsText.Join(arr.value, ", ") else NoValue
  }

  /** Joining a non-empty list gives "-" only for the list holding just "-". */
  lemma JoinIsDash(xs: seq<string>)
    requires xs != []
    ensures JsText.Join(xs, ", ") == NoValue <==> xs == [NoValue]
  {
    if |xs| > 1 {
      assert |JsText.Join(xs, ", ")| >= 2;
    }
  }

  /** A staff tag is shown when its formatted value is not "-". */
  predicate TagShown(arr: Option<seq<string>>) {
    FormatArrayValue(arr) != NoValue
  }

  /** A tag is shown exactly for a present, non-empty list other than `["-"]`. */
  lemma TagShownIff(arr: Option<seq<string>>)
    ensures TagShown(arr) <==> arr.Some? && arr.value != [] && arr.value != [NoValue]
  {
    if arr.Some? && arr.value != [] {
      JoinIsDash(arr.value);
    }
  }

  class HistoryTabView {
    var records: seq<DataStorage.Record>
    var searchTerm: string
    const store: DataStorage.DataStorageService

    /** The tab after its load effect: the store's records, no search. */
    constructor(store: DataStorage.DataStorageService)
      ensures this.store == store && records == store.records && searchTerm == ""
    {
      this.store := store;
      records := store.records;
      searchTerm := "";
    }

    /** What the list shows. */
    function Shown(): (r: seq<DataStorage.Record>)
      reads this
      ensures Seqs.IsSubsequence(r, records)
    {
      FilteredRecords(records, searchTerm)
    }

    method SetSearchTerm(term: string)
      modifies this
      ensures searchTerm == term && records == old(records)
    {
      searchTerm := term;
    }

    /** `handleDelete(record)`: without confirmation nothing happens; with it the record's
        id is deleted from the store and the list is reloaded from the store. */
    method HandleDelete(rec: DataStorage.Record, confirmed: bool, saveOk: bool)
      modifies this, store
      ensures !confirmed ==>
                records == old(records) && store.records == old(store.records) && store.saved == old(store.saved)
      ensures confirmed ==>
                var i := DataStorage.IndexOfId(old(store.records), rec.id);
                (i.None? ==> store.records == old(store.records)) &&
                (i.None? ==> store.saved == old(store.saved)) &&
                (i.Some? ==> store.records == old(store.records)[..i.value] + old(store.records)[i.value + 1..]) &&
                (i.Some? ==> store.saved == (if saveOk then Some(store.records) else old(store.saved))) &&
                records == store.records
      ensures searchTerm == old(searchTerm)
    {
      if confirmed {
        var _ := store.DeleteRecord(rec.id, saveOk);
        records := store.GetAllRecords();
      }
    }
  }
}
