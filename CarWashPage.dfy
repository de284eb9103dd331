/** The car-wash entry form (car-wash app): the known-plate list with its test-plate
    fallback, plate suggestions, the service choices with their multi-select toggles and
    quick note tags, and the save guard with the form reset. The React state of the page
    is the class CarWashForm; each handler is one of its methods, and what a handler
    computes is a function below. The store the form saves to is a parameter (what
    `addRecord` answered). */
module CarWashPage {
  import opened Wrappers
  import JsText
  import Seqs
  import StableSort

  /** Shown when the store holds no plates or cannot be read. */
  const TestPlates: seq<string> := ["京A12345", "沪B67890", "粤C11111", "川D22222", "鲁E33333"]

  const MaxSuggestions: nat := 5

  /** The quick note tags offered under the notes field. */
  const QuickTags: seq<string> := ["保养", "加机油", "换轮胎", "换雨刮"]

  // ---------------------------------------------------------------- known plates

  /** What reading the stored records gave: their plates in stored order, or a failure. */
  datatype LoadOutcome = Loaded(plates: seq<string>) | LoadFailed

  /** `filter(Boolean)` on strings keeps the non-empty ones. */
  predicate Present(p: string) {
    p != ""
  }

  /** `loadAllLicensePlates`: the distinct non-empty plates in first-occurrence order,
      or the test plates when there are none or the records cannot be read. */
  function KnownPlates(o: LoadOutcome): (r: seq<string>)
    ensures r != [] && Seqs.NoDuplicates(r)
    ensures forall k :: 0 <= k < |r| ==> r[k] != ""
    ensures o.Loaded? && (exists p :: p in o.plates && p != "") ==>
              forall p :: p in r <==> p in o.plates && p != ""
    ensures o.LoadFailed? || (forall p :: p in o.plates ==> p == "") ==> r == TestPlates
    ensures o.Loaded? && (exists p :: p in o.plates && p != "") ==>
              Seqs.IsSubsequence(r, o.plates) && Seqs.InFirstOccurrenceOrder(r, o.plates)
  {
    match o
    case LoadFailed => TestPlates
    case Loaded(ps) =>
      LoadedPlates(ps);
      KeepsFirstOccurrenceOrder(ps);
      var d := Seqs.Filter(Seqs.Distinct(ps), Present);
      if d == [] then TestPlates else d
  }

  /** The non-empty distinct plates are what `ps` holds besides "", without repetition. */
  lemma LoadedPlates(ps: seq<string>)
    ensures var d := Seqs.Filter(Seqs.Distinct(ps), Present);
      Seqs.NoDuplicates(d) && (forall k :: 0 <= k < |d| ==> d[k] != "") &&
      (d == [] <==> forall p :: p in ps ==> p == "") &&
      (forall p :: p in d <==> p in ps && p != "")
  {
    var u := Seqs.Distinct(ps);
    var d := Seqs.Filter(u, Present);
    Seqs.FilterKeepsNoDuplicates(u, Present);
    forall p ensures p in d <==> p in ps && p != "" {
      if p in ps && p != "" {
        var k :| 0 <= k < |u| && u[k] == p;
        assert Present(u[k]);
      }
    }
  }

  /** The non-empty distinct plates keep the stored order of first occurrence. */
  lemma KeepsFirstOccurrenceOrder(ps: seq<string>)
    ensures var d := Seqs.Filter(Seqs.Distinct(ps), Present);
      Seqs.IsSubsequence(d, ps) && Seqs.InFirstOccurrenceOrder(d, ps)
  {
    var u := Seqs.Distinct(ps);
    var d := Seqs.Filter(u, Present);
    Seqs.FilterIsSubsequence(u, Present);
    Seqs.DistinctIsSubsequence(ps);
    Seqs.SubsequenceTransitive(d, u, ps);
    Seqs.DistinctFirstOccurrenceOrder(ps);
    Seqs.SubsequenceKeepsOrder(d, u, ps);
  }

  // ---------------------------------------------------------------- suggestions

  function Matching(u: string): string -> bool {
    p => JsText.Includes(p, u)
  }

  /** The order the suggestion comparator imposes: the exact match before everything,
      then by `length`. The comparator returns -1 for an exact `a`, 1 for an exact `b`,
      and the length difference otherwise, which is the order of these ranks. */
  function Rank(u: string, p: string): (k: int)
    ensures k < 0 <==> p == u
  {
    if p == u then -1 else JsText.JsLength(p)
  }

  function RankBy(u: string): string -> int {
    p => Rank(u, p)
  }

  /** The matching plates, sorted by the comparator (before `slice`): every copy of a
      plate containing `u`, and nothing else, in rank order. */
  function Ranked(plates: seq<string>, u: string): (r: seq<string>)
    ensures forall i, j :: 0 <= i < j < |r| ==> Rank(u, r[i]) <= Rank(u, r[j])
    ensures forall k :: 0 <= k < |plates| ==>
      multiset(r)[plates[k]] == if JsText.Includes(plates[k], u) then multiset(plates)[plates[k]] else 0
  {
    Seqs.FilterCounts(plates, Matching(u));
    StableSort.SortBy(Seqs.Filter(plates, Matching(u)), RankBy(u))
  }

  function Min(a: nat, b: nat): nat {
    if a < b then a else b
  }

  /** The ranked list holds exactly the known plates that contain `u`. */
  lemma RankedMembers(plates: seq<string>, u: string)
    ensures forall q :: q in Ranked(plates, u) <==> q in plates && JsText.Includes(q, u)
  {
    var m := Seqs.Filter(plates, Matching(u));
    var s := Ranked(plates, u);
    forall q ensures q in s <==> q in plates && JsText.Includes(q, u) {
      assert q in s <==> q in multiset(s);
      assert q in m <==> q in multiset(m);
      if q in plates && JsText.Includes(q, u) {
        var k :| 0 <= k < |plates| && plates[k] == q;
        assert Matching(u)(plates[k]);
      }
      if q in m {
        var k :| 0 <= k < |m| && m[k] == q;
        assert Matching(u)(m[k]);
      }
    }
  }

  /** `getSuggestions(input)` over the known plates. */
  function Suggestions(plates: seq<string>, input: string): (r: seq<string>)
    ensures input == "" ==> r == []
    ensures |r| <= MaxSuggestions
    ensures forall k :: 0 <= k < |r| ==> r[k] in plates && JsText.Includes(r[k], JsText.Upper(input))
  {
    if input == "" then []
    else
      var u := JsText.Upper(input);
      var s := Ranked(plates, u);
      RankedMembers(plates, u);
      var r := s[..Min(|s|, MaxSuggestions)];
      assert forall k :: 0 <= k < |r| ==> r[k] in s;
      r
  }

  /** A plate equal to the upper-cased input is the first suggestion. */
  lemma ExactMatchFirst(plates: seq<string>, input: string)
    requires input != "" && JsText.Upper(input) in plates
    ensures Suggestions(plates, input) != []
    ensures Suggestions(plates, input)[0] == JsText.Upper(input)
  {
    var u := JsText.Upper(input);
    var s := Ranked(plates, u);
    JsText.IncludesSelf(u);
    RankedMembers(plates, u);
    assert u in s;
    var i :| 0 <= i < |s| && s[i] == u;
    if i > 0 {
      assert Rank(u, s[0]) <= Rank(u, s[i]);
    }
    assert Suggestions(plates, input)[0] == s[0];
  }

  /** Suggestions come in rank order: the exact match, then shorter plates before longer. */
  lemma SuggestionsInRankOrder(plates: seq<string>, input: string)
    requires input != ""
    ensures var r := Suggestions(plates, input);
            forall i, j :: 0 <= i < j < |r| ==>
              Rank(JsText.Upper(input), r[i]) <= Rank(JsText.Upper(input), r[j])
  {
    var u := JsText.Upper(input);
    var s := Ranked(plates, u);
    var r := Suggestions(plates, input);
    forall i, j | 0 <= i < j < |r| ensures Rank(u, r[i]) <= Rank(u, r[j]) {
      assert r[i] == s[i] && r[j] == s[j];
    }
  }

  /** A matching plate that is not suggested was crowded out: five plates of no greater
      rank are suggested instead. */
  lemma SuggestionsComplete(plates: seq<string>, input: string, p: string)
    requires input != "" && p in plates && JsText.Includes(p, JsText.Upper(input))
    ensures var r := Suggestions(plates, input);
            p in r || (|r| == MaxSuggestions &&
                       forall q :: q in r ==> Rank(JsText.Upper(input), q) <= Rank(JsText.Upper(input), p))
  {
    var u := JsText.Upper(input);
    var s := Ranked(plates, u);
    var r := Suggestions(plates, input);
    RankedMembers(plates, u);
    assert p in s;
    var k :| 0 <= k < |s| && s[k] == p;
    if k < MaxSuggestions {
      assert r[k] == p;
    } else {
      assert r == s[..MaxSuggestions];
      SortedPrefixBelow(s, MaxSuggestions, k, RankBy(u));
    }
  }

  /** In a sorted list, the elements of a prefix that ends before `k` do not rank above `s[k]`. */
  lemma SortedPrefixBelow(s: seq<string>, n: nat, k: nat, key: string -> int)
    requires StableSort.SortedBy(s, key) && n <= k < |s|
    ensures forall q :: q in s[..n] ==> key(q) <= key(s[k])
  {
    forall q | q in s[..n] ensures key(q) <= key(s[k]) {
      var i :| 0 <= i < n && s[..n][i] == q;
      assert s[i] == q;
    }
  }

  /** Any stable sort of the matching plates by the comparator, cut to five, is the
      suggestion list: the result does not depend on the sort algorithm. */
  lemma SuggestionsAreStableTopFive(plates: seq<string>, input: string, sorted: seq<string>)
    requires input != ""
    requires StableSort.SortedBy(sorted, RankBy(JsText.Upper(input)))
    requires forall k :: StableSort.WithKey(sorted, RankBy(JsText.Upper(input)), k) ==
                         StableSort.WithKey(Seqs.Filter(plates, Matching(JsText.Upper(input))), RankBy(JsText.Upper(input)), k)
    ensures Suggestions(plates, input) == sorted[..Min(|sorted|, MaxSuggestions)]
  {
    var u := JsText.Upper(input);
    StableSort.StableSortIsSortBy(Seqs.Filter(plates, Matching(u)), sorted, RankBy(u));
  }

  /** The suggestion list is shown iff the typed value and the suggestions are both non-empty. */
  function ShowsSuggestions(value: string, suggestions: seq<string>): (shown: bool)
    ensures shown <==> value != "" && suggestions != []
  {
    JsText.JsLength(value) > 0 && |suggestions| > 0
  }

  // ---------------------------------------------------------------- service choices

  datatype ServiceForm = ServiceForm(
    mileage: string, tires: string, oil: string, wipers: string,
    interior: seq<string>, exterior: seq<string>, notes: string)

  const DefaultService := ServiceForm("normal", "normal", "normal", "normal", [], [], "")

  /** The fields `handleServiceChange` is used for. */
  datatype TextField = Mileage | Tires | Oil | Wipers | Notes

  /** The fields `handleMultiSelectChange` is used for. */
  datatype ListField = Interior | Exterior

  function TextOf(f: ServiceForm, field: TextField): string {
    match field
    case Mileage => f.mileage
    case Tires => f.tires
    case Oil => f.oil
    case Wipers => f.wipers
    case Notes => f.notes
  }

  function ListOf(f: ServiceForm, field: ListField): seq<string> {
    match field
    case Interior => f.interior
    case Exterior => f.exterior
  }

  /** `{...prev, [category]: value}` for a text field. */
  function WithText(f: ServiceForm, field: TextField, value: string): (r: ServiceForm)
    ensures TextOf(r, field) == value
    ensures forall g :: g != field ==> TextOf(r, g) == TextOf(f, g)
    ensures forall g :: ListOf(r, g) == ListOf(f, g)
  {
    match field
    case Mileage => f.(mileage := value)
    case Tires => f.(tires := value)
    case Oil => f.(oil := value)
    case Wipers => f.(wipers := value)
    case Notes => f.(notes := value)
  }

  /** `{...prev, [category]: values}` for a list field. */
  function WithList(f: ServiceForm, field: ListField, values: seq<string>): (r: ServiceForm)
    ensures ListOf(r, field) == values
    ensures forall g :: g != field ==> ListOf(r, g) == ListOf(f, g)
    ensures forall g :: TextOf(r, g) == TextOf(f, g)
  {
    match field
    case Interior => f.(interior := values)
    case Exterior => f.(exterior := values)
  }

  function Other(v: string): string -> bool {
    w => w != v
  }

  /** The multi-select toggle: drop every occurrence of a selected value, append an unselected one. */
  function Toggle(values: seq<string>, v: string): (r: seq<string>)
    ensures v in r <==> v !in values
    ensures forall w :: w != v ==> (w in r <==> w in values)
    ensures v in values ==> Seqs.IsSubsequence(r, values)
    ensures v in values ==> forall k :: 0 <= k < |values| ==>
      multiset(r)[values[k]] == if values[k] != v then multiset(values)[values[k]] else 0
    ensures v !in values ==> |r| == |values| + 1 && r[..|values|] == values && r[|values|] == v
  {
    if v in values then
      Seqs.FilterIsSubsequence(values, Other(v));
      Seqs.FilterCounts(values, Other(v));
      Seqs.Filter(values, Other(v))
    else values + [v]
  }

  /** Selecting a value and then deselecting it restores the selection. */
  lemma ToggleTwice(values: seq<string>, v: string)
    requires v !in values
    ensures Toggle(Toggle(values, v), v) == values
  {
    Seqs.FilterConcat(values, [v], Other(v));
    assert Seqs.Filter([v], Other(v)) == [];
    assert Seqs.Filter(values, Other(v)) == values;
  }

  /** `handleMultiSelectChange(category, value)` */
  function MultiSelect(f: ServiceForm, field: ListField, v: string): (r: ServiceForm)
    ensures v in ListOf(r, field) <==> v !in ListOf(f, field)
    ensures forall g :: g != field ==> ListOf(r, g) == ListOf(f, g)
    ensures forall g :: TextOf(r, g) == TextOf(f, g)
  {
    WithList(f, field, Toggle(ListOf(f, field), v))
  }

  // ---------------------------------------------------------------- quick tags

  predicate IsSeparator(c: char) {
    c == ',' || JsText.IsJsSpace(c)
  }

  predicate NoSeparators(tag: string) {
    forall k :: 0 <= k < |tag| ==> !IsSeparator(tag[k])
  }

  /** The first position at or after `i` whose character does not satisfy `p`. */
  function SkipAll(s: string, i: nat, p: char -> bool): (j: nat)
    requires i <= |s|
    ensures i <= j <= |s|
    ensures j == |s| || !p(s[j])
    ensures forall k :: i <= k < j ==> p(s[k])
    decreases |s| - i
  {
    if i < |s| && p(s[i]) then SkipAll(s, i + 1, p) else i
  }

  /** `s.replace(new RegExp(tag + '[,\\s]*', 'g'), '')` from position `i` on: scanning left
      to right, each occurrence of the tag is deleted with the separators that follow it. */
  function DeleteTag(s: string, tag: string, i: nat): (r: string)
    requires tag != "" && i <= |s|
    ensures |r| <= |s| - i
    decreases |s| - i
  {
    if i == |s| then ""
    else if JsText.OccursAt(s, tag, i) then DeleteTag(s, tag, SkipAll(s, i + |tag|, IsSeparator))
    else [s[i]] + DeleteTag(s, tag, i + 1)
  }

  /** `s.replace(/^,\s*|,\s*$/g, '')`: one comma (and the white space after it) at the
      start, and one comma followed only by white space at the end. */
  function StripEdgeCommas(s: string): (r: string)
    ensures |r| <= |s|
  {
    var start := if |s| > 0 && s[0] == ',' then SkipAll(s, 1, JsText.IsJsSpace) else 0;
    var t := s[start..];
    var u := JsText.TrimEnd(t);
    if |u| > 0 && u[|u| - 1] == ',' then t[..|u| - 1] else t
  }

  function AddQuickTag(notes: string, tag: string): string {
    if notes == "" then tag else notes + ", " + tag
  }

  function RemoveQuickTag(notes: string, tag: string): string
    requires tag != ""
  {
    JsText.Trim(StripEdgeCommas(DeleteTag(notes, tag, 0)))
  }

  /** `handleQuickTag(tag)` on the notes text. */
  function QuickTag(notes: string, tag: string): string
    requires tag != ""
  {
    if JsText.Includes(notes, tag) then RemoveQuickTag(notes, tag) else AddQuickTag(notes, tag)
  }

  /** The four quick tags are non-empty and contain no comma or white space. */
  lemma QuickTagsWellFormed()
    ensures forall t :: t in QuickTags ==> t != "" && NoSeparators(t)
  {
    forall t | t in QuickTags ensures t != "" && NoSeparators(t) {
      assert t == "保养" || t == "加机油" || t == "换轮胎" || t == "换雨刮";
    }
  }

  /** Pressing an absent tag makes the notes contain it (its button turns active). */
  lemma QuickTagAdds(notes: string, tag: string)
    requires tag != "" && !JsText.Includes(notes, tag)
    ensures JsText.Includes(QuickTag(notes, tag), tag)
  {
    var r := QuickTag(notes, tag);
    assert JsText.OccursAt(r, tag, |r| - |tag|);
  }

  lemma {:induction false} DeleteTagShortens(s: string, tag: string, i: nat, k: nat)
    requires tag != "" && i <= k && JsText.OccursAt(s, tag, k)
    ensures |DeleteTag(s, tag, i)| <= |s| - i - |tag|
    decreases |s| - i
  {
    if JsText.OccursAt(s, tag, i) {
    } else {
      DeleteTagShortens(s, tag, i + 1, k);
    }
  }

  /** Pressing a present tag removes at least as many characters as the tag has. */
  lemma QuickTagRemoves(notes: string, tag: string)
    requires tag != "" && JsText.Includes(notes, tag)
    ensures |QuickTag(notes, tag)| <= |notes| - |tag|
  {
    var k :| 0 <= k <= |notes| && JsText.OccursAt(notes, tag, k);
    DeleteTagShortens(notes, tag, 0, k);
  }

  lemma {:induction false} DeleteTagSkipsPlainText(s: string, tag: string, i: nat, j: nat)
    requires tag != "" && i <= j <= |s|
    requires forall k :: i <= k < j ==> !JsText.OccursAt(s, tag, k)
    ensures DeleteTag(s, tag, i) == s[i..j] + DeleteTag(s, tag, j)
    decreases j - i
  {
    if i < j {
      calc {
        DeleteTag(s, tag, i);
        { assert !JsText.OccursAt(s, tag, i); }
        [s[i]] + DeleteTag(s, tag, i + 1);
        { DeleteTagSkipsPlainText(s, tag, i + 1, j); }
        [s[i]] + (s[i + 1..j] + DeleteTag(s, tag, j));
        ([s[i]] + s[i + 1..j]) + DeleteTag(s, tag, j);
        { assert [s[i]] + s[i + 1..j] == s[i..j]; }
        s[i..j] + DeleteTag(s, tag, j);
      }
    }
  }

  /** In `notes + ", " + tag` the tag occurs only at the end when the notes lack it. */
  lemma OnlyTrailingTag(notes: string, tag: string)
    requires tag != "" && NoSeparators(tag) && !JsText.Includes(notes, tag)
    ensures var s := notes + ", " + tag;
            forall k :: 0 <= k < |notes| + 2 ==> !JsText.OccursAt(s, tag, k)
  {
    var s := notes + ", " + tag;
    forall k | 0 <= k < |notes| + 2 ensures !JsText.OccursAt(s, tag, k) {
      if k + |tag| <= |notes| {
        assert s[k..k + |tag|] == notes[k..k + |tag|];
        assert !JsText.OccursAt(notes, tag, k);
      } else if k <= |notes| && k + |tag| <= |s| {
        var d := |notes| - k;
        assert s[k..k + |tag|][d] == ',';
        assert !IsSeparator(tag[d]);
      } else if k + |tag| <= |s| {
        assert s[k..k + |tag|][0] == ' ';
        assert !IsSeparator(tag[0]);
      }
    }
  }

  /** Pressing an absent tag twice gives back the notes, provided they do not start with
      a comma and carry no white space at either end. */
  lemma QuickTagRoundTrip(notes: string, tag: string)
    requires tag != "" && NoSeparators(tag) && !JsText.Includes(notes, tag)
    requires notes == "" || (notes[0] != ',' && JsText.Trim(notes) == notes)
    ensures QuickTag(QuickTag(notes, tag), tag) == notes
  {
    QuickTagAdds(notes, tag);
    var s := AddQuickTag(notes, tag);
    if notes == "" {
      assert JsText.OccursAt(s, tag, 0);
      assert DeleteTag(s, tag, 0) == DeleteTag(s, tag, |s|);
      assert StripEdgeCommas("") == "";
    } else {
      DeleteTrailingTag(notes, tag);
      StripTrailingComma(notes);
    }
  }

  /** Deleting the tag from `notes + ", " + tag` leaves `notes + ", "`. */
  lemma DeleteTrailingTag(notes: string, tag: string)
    requires tag != "" && NoSeparators(tag) && !JsText.Includes(notes, tag)
    ensures DeleteTag(notes + ", " + tag, tag, 0) == notes + ", "
  {
    var s := notes + ", " + tag;
    var n := |notes|;
    OnlyTrailingTag(notes, tag);
    DeleteTagSkipsPlainText(s, tag, 0, n + 2);
    assert JsText.OccursAt(s, tag, n + 2);
    assert DeleteTag(s, tag, n + 2) == DeleteTag(s, tag, |s|);
    assert s[0..n + 2] == notes + ", ";
  }

  /** The comma the tag was appended after is stripped again. */
  lemma StripTrailingComma(notes: string)
    requires notes != "" && notes[0] != ',' && JsText.Trim(notes) == notes
    ensures JsText.Trim(StripEdgeCommas(notes + ", ")) == notes
  {
    var n := |notes|;
    var t := notes + ", ";
    assert t[0] != ',';
    assert t[..|t| - 1] == notes + ",";
    assert JsText.TrimEnd(t) == JsText.TrimEnd(notes + ",");
    assert JsText.TrimEnd(t) == notes + ",";
    assert StripEdgeCommas(t) == t[..n];
    assert t[..n] == notes;
  }

  // ---------------------------------------------------------------- saving

  /** What `dataStorage.addRecord` did: stored the record, answered `{success: false, error}`
      (the empty string standing for a missing error), or threw. */
  datatype SaveOutcome = Saved | SaveRejected(error: string) | SaveThrew

  /** The record handed to the store (its timestamp and date come from the clock and are not modelled). */
  datatype WashDraft = WashDraft(licensePlate: string, service: ServiceForm)

  const EmptyPlateMessage := "请先输入或识别车牌号"
  const SavedMessage := "记录保存成功！"
  const ThrownMessage := "保存失败，请重试"

  const FailurePrefix := "保存失败: "
  const RetryHint := "请重试"

  /** `保存失败: ${result.error || '请重试'}`: the store's error, or a retry hint when it gave none. */
  function RejectedMessage(error: string): (m: string)
    ensures JsText.StartsWith(m, FailurePrefix)
    ensures m[|FailurePrefix|..] == if error == "" then RetryHint else error
  {
    FailurePrefix + (if error == "" then RetryHint else error)
  }

  /** The data behind the page, as React state. */
  class CarWashForm {
    var licensePlate: string
    var suggestions: seq<string>
    var showSuggestions: bool
    var allLicensePlates: seq<string>
    var service: ServiceForm
    var isLoading: bool

    constructor()
      ensures licensePlate == "" && suggestions == [] && !showSuggestions
      ensures allLicensePlates == [] && service == DefaultService && !isLoading
    {
      licensePlate := "";
      suggestions := [];
      showSuggestions := false;
      allLicensePlates := [];
      service := DefaultService;
      isLoading := false;
    }

    /** The save button is disabled without a plate or while saving. */
    function SaveDisabled(): (d: bool)
      reads this
      ensures d <==> licensePlate == "" || isLoading
    {
      licensePlate == "" || isLoading
    }

    /** `loadAllLicensePlates` */
    method LoadAllLicensePlates(o: LoadOutcome)
      modifies this
      ensures allLicensePlates == KnownPlates(o)
      ensures licensePlate == old(licensePlate) && service == old(service) && isLoading == old(isLoading)
      ensures suggestions == old(suggestions) && showSuggestions == old(showSuggestions)
    {
      allLicensePlates := KnownPlates(o);
    }

    /** `handleLicensePlateChange`: store the upper-cased input and refresh the suggestions. */
    method LicensePlateChange(input: string)
      modifies this
      ensures licensePlate == JsText.Upper(input)
      ensures suggestions == Suggestions(old(allLicensePlates), licensePlate)
      ensures showSuggestions <==> licensePlate != "" && suggestions != []
      ensures allLicensePlates == old(allLicensePlates) && service == old(service) && isLoading == old(isLoading)
    {
      var value := JsText.Upper(input);
      licensePlate := value;
      var found := Suggestions(allLicensePlates, value);
      suggestions := found;
      showSuggestions := ShowsSuggestions(value, found);
    }

    /** `selectSuggestion(plate)` */
    method SelectSuggestion(plate: string)
      modifies this
      ensures licensePlate == plate && !showSuggestions && suggestions == []
      ensures allLicensePlates == old(allLicensePlates) && service == old(service) && isLoading == old(isLoading)
    {
      licensePlate := plate;
      showSuggestions := false;
      suggestions := [];
    }

    /** `closeSuggestions` (run after a blur) */
    method CloseSuggestions()
      modifies this
      ensures !showSuggestions && suggestions == []
      ensures licensePlate == old(licensePlate) && allLicensePlates == old(allLicensePlates)
      ensures service == old(service) && isLoading == old(isLoading)
    {
      showSuggestions := false;
      suggestions := [];
    }

    /** Focusing the plate input shows the list again when there is a plate and suggestions. */
    method Focus()
      modifies this
      ensures showSuggestions == (old(showSuggestions) || (licensePlate != "" && suggestions != []))
      ensures licensePlate == old(licensePlate) && suggestions == old(suggestions)
      ensures allLicensePlates == old(allLicensePlates) && service == old(service) && isLoading == old(isLoading)
    {
      if licensePlate != "" && |suggestions| > 0 {
        showSuggestions := true;
      }
    }

    /** `handleServiceChange(category, value)` */
    method ServiceChange(field: TextField, value: string)
      modifies this
      ensures service == WithText(old(service), field, value)
      ensures licensePlate == old(licensePlate) && suggestions == old(suggestions)
      ensures showSuggestions == old(showSuggestions) && allLicensePlates == old(allLicensePlates)
      ensures isLoading == old(isLoading)
    {
      service := WithText(service, field, value);
    }

    /** `handleMultiSelectChange(category, value)` */
    method MultiSelectChange(field: ListField, value: string)
      modifies this
      ensures service == MultiSelect(old(service), field, value)
      ensures licensePlate == old(licensePlate) && suggestions == old(suggestions)
      ensures showSuggestions == old(showSuggestions) && allLicensePlates == old(allLicensePlates)
      ensures isLoading == old(isLoading)
    {
      service := MultiSelect(service, field, value);
    }

    /** `handleQuickTag(tag)` */
    method QuickTagPressed(tag: string)
      requires tag != ""
      modifies this
      ensures service == old(service).(notes := QuickTag(old(service).notes, tag))
      ensures licensePlate == old(licensePlate) && suggestions == old(suggestions)
      ensures showSuggestions == old(showSuggestions) && allLicensePlates == old(allLicensePlates)
      ensures isLoading == old(isLoading)
    {
      service := service.(notes := QuickTag(service.notes, tag));
    }

    /** `handleSaveRecord`: nothing happens without a plate; otherwise the record is
        handed to the store, the form is reset only when it was stored, and the
        loading flag is off again at the end. Returns the record handed over and the
        toast text. */
    method SaveRecord(outcome: SaveOutcome) returns (attempted: Option<WashDraft>, message: string)
      modifies this
      ensures old(licensePlate) == "" ==>
                attempted == None && message == EmptyPlateMessage &&
                licensePlate == old(licensePlate) && service == old(service) && isLoading == old(isLoading)
      ensures old(licensePlate) != "" ==>
                attempted == Some(WashDraft(old(licensePlate), old(service))) && !isLoading
      ensures old(licensePlate) != "" && outcome.Saved? ==>
                licensePlate == "" && service == DefaultService && message == SavedMessage
      ensures old(licensePlate) != "" && !outcome.Saved? ==>
                licensePlate == old(licensePlate) && service == old(service) &&
                message == (if outcome.SaveRejected? then RejectedMessage(outcome.error) else ThrownMessage)
      ensures suggestions == old(suggestions) && showSuggestions == old(showSuggestions)
      ensures allLicensePlates == old(allLicensePlates)
    {
      if licensePlate == "" {
        return None, EmptyPlateMessage;
      }
      isLoading := true;
      attempted := Some(WashDraft(licensePlate, service));
      match outcome {
        case Saved =>
          message := SavedMessage;
          licensePlate := "";
          service := DefaultService;
        case SaveRejected(error) =>
          message := RejectedMessage(error);
        case SaveThrew =>
          message := ThrownMessage;
      }
      isLoading := false;
    }
  }
}
