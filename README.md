# Mingle monorepo core, modelled in Dafny

This project models the deterministic logic of three small web apps.

- The Notion-like notebook (`online-notebook`) has three parts:
  - the notebook context, which holds the page and block operations, page creation and deletion, and the current page;
  - the block component's key and typing handlers;
  - the editor's placeholder rule.
  It also has the registration endpoint's input validation.
- Two car-wash record apps (`car-wash`, `my-react-app`):
  - the record store;
  - the plate-recognition post-processing;
  - the entry forms, with plate suggestions, multi-select toggles, quick note tags and the save guard;
  - the history views: search, per-plate history, service summary and grouping;
  - the history tab;
  - the local-to-remote migration bookkeeping.
- The React app's sort page and feedback counters.

There is one Dafny module per source file, plus three shared modules:

- `JsText`: the JavaScript string semantics the apps use, namely white space, `trim`, ASCII case mapping, `includes`, `join` and UTF-16 `length`.
- `Seqs`: `filter`, and deduplication through `Set`.
- `StableSort`: `Array.prototype.sort` with a key comparator. ECMA-262, 10th edition, section 22.1.3.27 requires this sort to be stable, and `StableSort.SortedStableUnique` proves that a stable result is unique.

Imperative parts of the source are Dafny classes whose methods update fields:

- the store's `records` array;
- the migration flag;
- the token cache;
- the React state of each page.

The copy-on-write parts are functions.

Clocks, `uuidv4`, `Date.now() + Math.random()` ids, local-storage writes, server answers and OCR answers become parameters. Examples:

- a `saveOk` flag;
- a `CreateOutcome` for `createPage`;
- the OCR answer records;
- the `Upload` outcome of each migrated record.

Some behaviours of the code that the model states:

- Enter in a block appends the new paragraph at the end of the page (`BlockComponent.EnterAppendsBlocks`).
- A block is an id, a type and its content; its position is its place in the page's list.
- The editor reads the caret only through `selectionStart`.
- The quick-tag strip pattern `/^,\s*|,\s*$/g` removes one edge comma, with the white space after it, at each end (`CarWashPage.StripEdgeCommas`).

## Model

| member | source | states |
|---|---|---|
| NotebookContext.Merge | online-notebook/contexts/NotebookContext.tsx:246 | each field of the merged block comes from the update when the update has it, else from the block |
| NotebookContext.FreshPage | online-notebook/contexts/NotebookContext.tsx:158-164 | a locally created page has the given id, the title 'Untitled Page' and no blocks |
| NotebookContext.MapPage | online-notebook/contexts/NotebookContext.tsx:222-230 | the page map keeps the length, applies the updater to the pages with the id, and leaves every other page equal |
| NotebookContext.AddBlockTo | online-notebook/contexts/NotebookContext.tsx:220-230 | `addBlock` keeps the page ids; the target page gets the block as its new last block, its old blocks stay as a prefix, its title and createdAt stay and updatedAt becomes now; other pages are unchanged |
| NotebookContext.UpdateBlocks | online-notebook/contexts/NotebookContext.tsx:245-247 | the block count is kept; blocks with the id are merged with the update; all other blocks are unchanged |
| NotebookContext.UpdateBlockIn | online-notebook/contexts/NotebookContext.tsx:239-251 | `updateBlock` keeps the page ids, leaves other pages alone, and on the target page only updates the block list and updatedAt |
| NotebookContext.RemoveBlocks | online-notebook/contexts/NotebookContext.tsx:266 | the block filter removes exactly the blocks with the id and keeps every other block, each as many times as it occurs, in order as a subsequence; it changes nothing when no block has the id |
| NotebookContext.DeleteBlockFrom | online-notebook/contexts/NotebookContext.tsx:260-270 | `deleteBlock` keeps the page ids and other pages, and filters only the target page's blocks |
| NotebookContext.RetitlePage | online-notebook/contexts/NotebookContext.tsx:209-216 | `updatePageTitle` changes only the title and updatedAt of the pages with the id |
| NotebookContext.FindPage | online-notebook/contexts/NotebookContext.tsx:334 | `currentPage` is found iff the current id is set and some page has it, and then it is the first page with that id |
| NotebookContext.AfterCreate | online-notebook/contexts/NotebookContext.tsx:155-202 | on every path (signed out, server success, server failure) exactly one page is appended and becomes current; it is the server's page or a fresh 'Untitled Page' |
| NotebookContext.AfterDelete | online-notebook/contexts/NotebookContext.tsx:279-331 | a rejected server delete leaves the state unchanged; otherwise the pages with the id are filtered out, an empty result becomes one fresh current page, and a deleted current page hands over to the first remaining page |
| NotebookContext.AddThenDeleteBlock | online-notebook/contexts/NotebookContext.tsx:220-270 | adding a block with a new id and then deleting that id restores every page except its updatedAt |
| NotebookContext.RetitleLastWins | online-notebook/contexts/NotebookContext.tsx:209-216 | retitling twice equals retitling once with the later title |
| NotebookContext.UpdateMissingBlock | online-notebook/contexts/NotebookContext.tsx:245-247 | an update whose id matches no block leaves the blocks unchanged |
| NotebookContext.UpdateKeepsBlockIds | online-notebook/contexts/NotebookContext.tsx:245-247 | an update that does not set `id` keeps the ids and order of the blocks |
| NotebookContext.SamePageIdsKeepCurrent | online-notebook/contexts/NotebookContext.tsx:209-277 | operations that keep the page ids keep the current page findable |
| NotebookContext.CreateMakesCurrentValid | online-notebook/contexts/NotebookContext.tsx:155-202 | after `createPage` the current page exists |
| NotebookContext.DeleteKeepsCurrentValid | online-notebook/contexts/NotebookContext.tsx:279-331 | `deletePage` never leaves the notebook without a valid current page |
| NotebookContext.DeleteRemovesPage | online-notebook/contexts/NotebookContext.tsx:314-331 | a completed delete leaves no page with the id and never an empty list; every other page survives, in order |
| NotebookContext.Apply | online-notebook/contexts/NotebookContext.tsx:209-277 | any block or title command keeps the page ids |
| NotebookContext.ApplyAll | online-notebook/contexts/NotebookContext.tsx:209-277 | a sequence of block or title commands keeps the page ids |
| NotebookContext.Notebook.constructor | online-notebook/contexts/NotebookContext.tsx:47-48 | the provider starts with no pages and no current id |
| NotebookContext.Notebook.CurrentPage | online-notebook/contexts/NotebookContext.tsx:334 | the current page exists iff its id is one of the pages' ids |
| NotebookContext.Notebook.CreatePage | online-notebook/contexts/NotebookContext.tsx:155-202 | the provider state becomes `AfterCreate` of the old state, and the returned id is the current one |
| NotebookContext.Notebook.SelectPage | online-notebook/contexts/NotebookContext.tsx:205-207 | only the current id changes |
| NotebookContext.Notebook.UpdatePageTitle | online-notebook/contexts/NotebookContext.tsx:209-216 | the pages become `RetitlePage` of the old pages and the current id stays |
| NotebookContext.Notebook.AddBlock | online-notebook/contexts/NotebookContext.tsx:220-237 | the pages become `AddBlockTo` of the old pages and the current id stays |
| NotebookContext.Notebook.UpdateBlock | online-notebook/contexts/NotebookContext.tsx:239-258 | the pages become `UpdateBlockIn` of the old pages and the current id stays |
| NotebookContext.Notebook.DeleteBlock | online-notebook/contexts/NotebookContext.tsx:260-277 | the pages become `DeleteBlockFrom` of the old pages and the current id stays |
| NotebookContext.Notebook.DeletePage | online-notebook/contexts/NotebookContext.tsx:279-332 | the provider state becomes `AfterDelete` of the old state |
| BlockComponent.OnTypeChange | online-notebook/components/Block.tsx:120-126 | choosing a type issues one update that sets only `type`, closes the menu without touching the content, and focuses the block's own input again |
| BlockComponent.OnKeyDown | online-notebook/components/Block.tsx:50-118 | key handling never edits the text; it issues context calls only with the default action prevented; a key it does not intercept changes nothing; only `/` on empty content opens the menu |
| BlockComponent.OnChange | online-notebook/components/Block.tsx:33-48 | the view takes the new text; exactly one context call is issued, an add iff the block is the placeholder, with no focus change and no prevented default |
| BlockComponent.OnBlur | online-notebook/components/Block.tsx:128-130 | blur closes the menu and keeps the content |
| BlockComponent.PlaceholderText | online-notebook/components/Block.tsx:132-147 | heading types get a '标题 ' placeholder; bullet and number blocks get '列表项' |
| BlockComponent.RenderInput | online-notebook/components/Block.tsx:161-197 | a single-line input is rendered iff the type is a heading; bullets show a bullet and number blocks show index + 1 |
| BlockComponent.EnterAppendsBlocks | online-notebook/components/Block.tsx:51-78 | Enter without Shift on a paragraph or heading appends, at the end of the target page, the placeholder's text as a block (when it is the placeholder and has text) and then one empty paragraph; other pages are unchanged; focus goes to the new block and the default action is prevented |
| BlockComponent.AddTwoBlocks | online-notebook/contexts/NotebookContext.tsx:220-230 | two successive `addBlock` calls put both blocks at the end of the page, in call order |
| BlockComponent.EnterOnListOrShiftIgnored | online-notebook/components/Block.tsx:51-52 | Enter with Shift, or on a bullet or number block, triggers no branch at all |
| BlockComponent.BackspaceDeletesEmptyBlock | online-notebook/components/Block.tsx:79-93 | Backspace on empty content is intercepted; the placeholder is never deleted; any other block's id disappears from its page and focus moves to index − 1 only when index > 0 |
| BlockComponent.ArrowsMoveFocus | online-notebook/components/Block.tsx:94-113 | ArrowUp at offset 0 targets the previous block with the caret at its end; ArrowDown at the end of the value targets the next block with the caret at 0 if it exists; other caret positions fall through; no block changes |
| BlockComponent.SlashOpensMenu | online-notebook/components/Block.tsx:114-117 | `/` opens the menu and prevents the default action exactly when the content is empty |
| BlockComponent.OtherKeysIgnored | online-notebook/components/Block.tsx:50-118 | keys outside the chain are not intercepted |
| BlockComponent.TypingIntoPlaceholder | online-notebook/components/Block.tsx:33-46 | typing into the placeholder adds one block with the fresh id, the placeholder's type and the typed text, and issues no update |
| BlockComponent.TypingIntoBlock | online-notebook/components/Block.tsx:47 | typing into a real block changes only that block's content; block count, order, ids and types stay |
| BlockComponent.RetypePlaceholderKeepsBlocks | online-notebook/components/Block.tsx:120-121 | re-typing the placeholder updates an id no real block has, so no page's blocks change |
| Editor.ShownBlocks | online-notebook/components/Editor.tsx:14-78 | with no current page nothing is shown; otherwise the blocks are shown in page order with index equal to position, or the single placeholder `{id:'placeholder', type:'paragraph', content:''}` at index 0 when the page has no blocks |
| Editor.PlaceholderIffEmptyPage | online-notebook/components/Editor.tsx:67-78 | the placeholder is shown iff the page has no blocks, and then it is the only block shown |
| Editor.OnTitleChange | online-notebook/components/Editor.tsx:22-24 | a title edit issues exactly one title update for the current page |
| Editor.OnTitleKey | online-notebook/components/Editor.tsx:26-44 | the default action is prevented iff the key is Enter; Enter issues one context call and focuses the block with the fresh id; other keys issue nothing and focus nothing |
| Editor.TitleEnterAppendsParagraph | online-notebook/components/Editor.tsx:26-34 | Enter in the title appends one empty paragraph to the current page and nothing else; other keys change nothing |
| Editor.TypingMaterialisesPlaceholder | online-notebook/components/Editor.tsx:67-78 | after the first keystroke into an empty page's placeholder, the editor shows just the new block at index 0 |
| Editor.AddedToFirst | online-notebook/contexts/NotebookContext.tsx:220-231 | adding a block to an empty page leaves that page, now holding just the block, as the page `find` returns |
| Editor.FindFirst | online-notebook/contexts/NotebookContext.tsx:334 | `find` returns the page at the first position with the id |
| RegisterRoute.FirstAt | online-notebook/app/api/auth/register/route.ts:17 | the position of the first `@`, or none when there is no `@` |
| RegisterRoute.ValidEmailIffRegex | online-notebook/app/api/auth/register/route.ts:17-18 | the scanning email check accepts exactly the strings matching `^[^\s@]+@[^\s@]+\.[^\s@]+$` |
| RegisterRoute.ValidEmailMatches | online-notebook/app/api/auth/register/route.ts:17-18 | an email the scan accepts matches the regex |
| RegisterRoute.MatchesValidEmail | online-notebook/app/api/auth/register/route.ts:17-18 | an email matching the regex passes the scan |
| RegisterRoute.ValidEmailOneAt | online-notebook/app/api/auth/register/route.ts:17 | an accepted email has no white space and exactly one `@` |
| RegisterRoute.ThrownMessage | online-notebook/app/api/auth/register/route.ts:33-37 | a thrown error's message is used when non-empty, else 'Registration failed' |
| RegisterRoute.Post | online-notebook/app/api/auth/register/route.ts:4-39 | the answer is 200 or 400; 200 exactly when `registerUser` was called and returned; a 400 carries a non-empty error; `registerUser` is called only for a readable body |
| RegisterRoute.FirstFailure | online-notebook/app/api/auth/register/route.ts:9-28 | no check fails iff all three fields are truthy, the email matches the regex and the password has at least 6 UTF-16 units; a missing field always gives the required-fields message |
| RegisterRoute.ValidationFailureIsFinal | online-notebook/app/api/auth/register/route.ts:9-28 | a failed check answers 400 with that check's message and `registerUser` is never called |
| RegisterRoute.ValidBodyIsRegistered | online-notebook/app/api/auth/register/route.ts:30-38 | a valid body is registered: success gives 200 'Registration successful', a thrown error gives 400 with its message |
| RegisterRoute.SuccessIff | online-notebook/app/api/auth/register/route.ts:4-39 | the status is 200 exactly when the body is readable, every check passes and registration succeeds |
| DataStorage.Merge | my-react-app/src/services/dataStorage.js:78 | each field of the merged record comes from the updates when present, else from the record |
| DataStorage.IndexOfId | my-react-app/src/services/dataStorage.js:76-86 | `findIndex` gives none iff no record has the id; otherwise it gives the first position with the id |
| DataStorage.PlateSearch | my-react-app/src/services/dataStorage.js:57-65 | a blank query gives all records; otherwise exactly the records whose plate contains the query ignoring case, each as many times as it is stored, in stored order |
| DataStorage.RecordsOfPlate | my-react-app/src/services/dataStorage.js:69-70 | exactly the records whose plate equals the given plate ignoring case, each as many times as it is stored, in stored order |
| DataStorage.PlateHistory | my-react-app/src/services/dataStorage.js:68-72 | `getRecordsByPlate` holds only records of the plate, newest createdAt first, and is a permutation of the filtered records |
| DataStorage.PlateHistoryStable | my-react-app/src/services/dataStorage.js:71 | records with the same createdAt keep their stored order |
| DataStorage.Tally | my-react-app/src/services/dataStorage.js:106-110 | the plate-count keys are exactly the plates that occur |
| DataStorage.Bump | my-react-app/src/services/dataStorage.js:108 | one reducer step adds the plate to the keys |
| DataStorage.TallyCounts | my-react-app/src/services/dataStorage.js:106-110 | each plate's count is the number of its records |
| DataStorage.TallySum | my-react-app/src/services/dataStorage.js:106-110 | the counts over the distinct plates add up to the number of records |
| DataStorage.Plates | my-react-app/src/services/dataStorage.js:97 | the plates of the records, position by position |
| DataStorage.StatisticsOf | my-react-app/src/services/dataStorage.js:95-118 | totalRecords is the record count, uniquePlates the number of distinct plates, and the plateCounts keys are the plates |
| DataStorage.StatisticsConsistent | my-react-app/src/services/dataStorage.js:95-118 | each plate count is that plate's number of records, and the counts sum to totalRecords over uniquePlates keys |
| DataStorage.DataStorageService.constructor | my-react-app/src/services/dataStorage.js:7-20 | the store starts with what storage holds, or with no records |
| DataStorage.DataStorageService.Save | my-react-app/src/services/dataStorage.js:23-31 | the write's outcome is returned, and storage holds the records only after a successful write |
| DataStorage.DataStorageService.AddRecord | my-react-app/src/services/dataStorage.js:34-49 | the new record is put in front of the old records whether or not the save succeeds, and the save result is returned |
| DataStorage.DataStorageService.GetAllRecords | my-react-app/src/services/dataStorage.js:52-54 | returns the stored records |
| DataStorage.DataStorageService.SearchByLicensePlate | my-react-app/src/services/dataStorage.js:57-65 | returns `PlateSearch` of the records |
| DataStorage.DataStorageService.GetRecordsByPlate | my-react-app/src/services/dataStorage.js:68-72 | returns `PlateHistory` of the records |
| DataStorage.DataStorageService.UpdateRecord | my-react-app/src/services/dataStorage.js:75-82 | merges into the first record with the id and returns the save result; with no match it returns false and changes nothing |
| DataStorage.DataStorageService.DeleteRecord | my-react-app/src/services/dataStorage.js:85-92 | splices out the first record with the id and returns the save result; with no match it returns false and changes nothing |
| DataStorage.DataStorageService.GetStatistics | my-react-app/src/services/dataStorage.js:95-118 | returns `StatisticsOf` the records |
| DataStorage.DataStorageService.ImportData | my-react-app/src/services/dataStorage.js:130-153 | a valid array replaces the records when the save succeeds; a failed save restores the old records exactly; a non-array or throwing payload changes nothing and reports its error |
| DataStorage.DataStorageService.ClearAllData | my-react-app/src/services/dataStorage.js:156-159 | the records become empty and the save result is returned |
| DataStorage.DeleteRemovesFirstMatch | my-react-app/src/services/dataStorage.js:86-88 | a delete drops exactly one record, the first with the id, and keeps the rest in order |
| DataStorage.AddThenDelete | my-react-app/src/services/dataStorage.js:41-88 | deleting the id of a just-added record with a new id restores the old records |
| LicensePlateService.RemoveSpaces | my-react-app/src/services/licensePlateService.js:126 | the result is the input without its white space: a subsequence of it that keeps every other character as many times as it occurs |
| LicensePlateService.IsCandidate | my-react-app/src/services/licensePlateService.js:124-153 | the filter callback; what it accepts is stated by `CandidateIffPlateShape` |
| LicensePlateService.CandidateIffPlateShape | my-react-app/src/services/licensePlateService.js:124-153 | a text is a candidate iff its cleaned form is 3 to 8 characters, each a capital A-Z or a digit |
| LicensePlateService.Candidates | my-react-app/src/services/licensePlateService.js:122-153 | exactly the texts passing the filter, each as many times as it occurs, in order |
| LicensePlateService.Best | my-react-app/src/services/licensePlateService.js:157 | the reduction returns one of the texts, and no text is longer |
| LicensePlateService.BestIsLastLongest | my-react-app/src/services/licensePlateService.js:157 | the chosen plate is the raw text of greatest length; among equally long texts the last one wins |
| LicensePlateService.LongestStep | my-react-app/src/services/licensePlateService.js:157 | one reducer step keeps the last-longest choice |
| LicensePlateService.FromGeneral | my-react-app/src/services/licensePlateService.js:117-175 | success iff some line is a candidate; a success is a candidate line of the answer, with color 'unknown' and the general-OCR flag; otherwise the no-plate failure with code 282103 |
| LicensePlateService.FromPlate | my-react-app/src/services/licensePlateService.js:178-210 | never the simulation; a success is the first entry's number with a non-empty color; a failure that carries a code carries the answer's non-zero code |
| LicensePlateService.Recognize | my-react-app/src/services/licensePlateService.js:70-217 | mock mode, no token or a thrown request gives the simulation; a success has a color and comes from the general OCR iff the plate OCR answered 282103; otherwise the simulation only when the general request threw |
| LicensePlateService.GeneralFallback | my-react-app/src/services/licensePlateService.js:103-176 | general OCR is used only after error 282103; it gives success with 'unknown' color and the last-longest candidate, or the no-plate failure with code 282103 |
| LicensePlateService.ErrorCodesFail | my-react-app/src/services/licensePlateService.js:178-195 | any other error code fails and carries its code; the image-format message is used iff the code is 216201 |
| LicensePlateService.PlateAnswerWithoutError | my-react-app/src/services/licensePlateService.js:197-210 | without an error, the first entry's number wins and a missing color becomes 'unknown'; an empty list fails with no code |
| LicensePlateService.TokenCache.constructor | my-react-app/src/services/licensePlateService.js:7-9 | no token and no expiry |
| LicensePlateService.TokenCache.GetAccessToken | my-react-app/src/services/licensePlateService.js:15-51 | a set, unexpired token is served from the cache; otherwise a fetched token is stored with expiry 29 days after the clock reading taken once the fetch returned, and a failed or mocked fetch gives none and changes nothing |
| LicensePlateService.Expired | my-react-app/src/services/licensePlateService.js:220-222 | `isTokenExpired`: an expiry is set, not 0, and the clock is past it; stated with the cache by `TokenCache.GetAccessToken` and `FreshTokenLifetime` |
| LicensePlateService.FreshTokenLifetime | my-react-app/src/services/licensePlateService.js:220-222 | a fetched token expires exactly after 29 days |
| CarWashPage.KnownPlates | car-wash/src/pages/carwash/CarWashPage.jsx:193-213 | the distinct non-empty plates, as a subsequence of the stored plates in order of first occurrence; when there are none, or loading fails, the five test plates |
| CarWashPage.Rank | car-wash/src/pages/carwash/CarWashPage.jsx:224-229 | the rank is negative exactly for the exact match, so it sorts before every other plate |
| CarWashPage.Ranked | car-wash/src/pages/carwash/CarWashPage.jsx:216-231 | before slicing, every copy of a plate containing the input and nothing else, in non-decreasing rank |
| CarWashPage.RankedMembers | car-wash/src/pages/carwash/CarWashPage.jsx:216-231 | before slicing, the ranked list holds exactly the plates containing the input |
| CarWashPage.Suggestions | car-wash/src/pages/carwash/CarWashPage.jsx:216-231 | empty input gives nothing; at most 5 plates, each containing the upper-cased input |
| CarWashPage.ExactMatchFirst | car-wash/src/pages/carwash/CarWashPage.jsx:222-226 | a plate equal to the upper-cased input is suggested first |
| CarWashPage.SuggestionsInRankOrder | car-wash/src/pages/carwash/CarWashPage.jsx:222-229 | suggestions are ranked: the exact match first, then shorter plates before longer |
| CarWashPage.SuggestionsComplete | car-wash/src/pages/carwash/CarWashPage.jsx:216-231 | a matching plate is left out only when five plates of no greater rank are suggested |
| CarWashPage.SortedPrefixBelow | car-wash/src/pages/carwash/CarWashPage.jsx:222-230 | in the sorted list, the first five rank no higher than any later plate |
| CarWashPage.SuggestionsAreStableTopFive | car-wash/src/pages/carwash/CarWashPage.jsx:222-230 | any stable sort by the comparator, cut to five, gives the suggestions |
| CarWashPage.ShowsSuggestions | car-wash/src/pages/carwash/CarWashPage.jsx:234-253 | the list is shown iff the value and the suggestions are both non-empty |
| CarWashPage.WithText | car-wash/src/pages/carwash/CarWashPage.jsx:269-274 | `handleServiceChange` sets only the named field |
| CarWashPage.WithList | car-wash/src/pages/carwash/CarWashPage.jsx:277-289 | only the named list field is replaced |
| CarWashPage.Toggle | car-wash/src/pages/carwash/CarWashPage.jsx:280-287 | a present value is removed wherever it occurs, and every other value keeps all its copies in order; an absent one is appended at the end |
| CarWashPage.ToggleTwice | car-wash/src/pages/carwash/CarWashPage.jsx:280-287 | selecting and then deselecting a value restores the list |
| CarWashPage.MultiSelect | car-wash/src/pages/carwash/CarWashPage.jsx:277-289 | toggles the value in the named list and changes no other field |
| CarWashPage.SkipAll | car-wash/src/pages/carwash/CarWashPage.jsx:299 | `[,\s]*` consumes the longest run of separators |
| CarWashPage.DeleteTag | car-wash/src/pages/carwash/CarWashPage.jsx:299 | deleting tag occurrences never lengthens the text |
| CarWashPage.StripEdgeCommas | car-wash/src/pages/carwash/CarWashPage.jsx:300-302 | stripping edge commas never lengthens the text |
| CarWashPage.DeleteTagShortens | car-wash/src/pages/carwash/CarWashPage.jsx:299 | an occurrence of the tag removes at least the tag's length |
| CarWashPage.DeleteTagSkipsPlainText | car-wash/src/pages/carwash/CarWashPage.jsx:299 | text with no occurrence of the tag is kept as it is |
| CarWashPage.QuickTag | car-wash/src/pages/carwash/CarWashPage.jsx:292-315 | `handleQuickTag` on the notes; what it does is stated by `QuickTagAdds`, `QuickTagRemoves` and `QuickTagRoundTrip` |
| CarWashPage.QuickTagsWellFormed | car-wash/src/pages/carwash/CarWashPage.jsx:546 | the four quick tags are non-empty and contain no comma or white space |
| CarWashPage.QuickTagAdds | car-wash/src/pages/carwash/CarWashPage.jsx:306-312 | pressing an absent tag makes the notes contain it |
| CarWashPage.QuickTagRemoves | car-wash/src/pages/carwash/CarWashPage.jsx:296-305 | pressing a present tag removes at least the tag's length |
| CarWashPage.OnlyTrailingTag | car-wash/src/pages/carwash/CarWashPage.jsx:308-310 | in `notes + ', ' + tag` the tag occurs only at the end when the notes lacked it |
| CarWashPage.QuickTagRoundTrip | car-wash/src/pages/carwash/CarWashPage.jsx:292-315 | pressing an absent tag twice restores trimmed notes that do not start with a comma |
| CarWashPage.DeleteTrailingTag | car-wash/src/pages/carwash/CarWashPage.jsx:299 | removing the appended tag leaves `notes + ', '` |
| CarWashPage.StripTrailingComma | car-wash/src/pages/carwash/CarWashPage.jsx:300-302 | the comma the tag was appended after is stripped and trimmed away |
| CarWashPage.RejectedMessage | car-wash/src/pages/carwash/CarWashPage.jsx:318-378 | the failure alert is '保存失败: ' followed by the store's error, or by '请重试' when there is none |
| CarWashPage.CarWashForm.constructor | car-wash/src/pages/carwash/CarWashPage.jsx:9-25 | the initial React state: empty plate, no suggestions, default service record, not loading |
| CarWashPage.CarWashForm.SaveDisabled | car-wash/src/pages/carwash/CarWashPage.jsx:561 | the save button is disabled iff there is no plate or a save is running |
| CarWashPage.CarWashForm.LoadAllLicensePlates | car-wash/src/pages/carwash/CarWashPage.jsx:193-213 | the known plates become `KnownPlates` of the load outcome; nothing else changes |
| CarWashPage.CarWashForm.LicensePlateChange | car-wash/src/pages/carwash/CarWashPage.jsx:234-253 | the plate is stored upper-cased, the suggestions are recomputed, and they are shown iff both are non-empty |
| CarWashPage.CarWashForm.SelectSuggestion | car-wash/src/pages/carwash/CarWashPage.jsx:256-260 | the plate becomes the suggestion and the list is cleared and hidden |
| CarWashPage.CarWashForm.CloseSuggestions | car-wash/src/pages/carwash/CarWashPage.jsx:263-266 | the list is cleared and hidden |
| CarWashPage.CarWashForm.Focus | car-wash/src/pages/carwash/CarWashPage.jsx:391-395 | focus shows the list again when there is a plate and suggestions |
| CarWashPage.CarWashForm.ServiceChange | car-wash/src/pages/carwash/CarWashPage.jsx:269-274 | the service record becomes `WithText` of the old one; nothing else changes |
| CarWashPage.CarWashForm.MultiSelectChange | car-wash/src/pages/carwash/CarWashPage.jsx:277-289 | the service record becomes `MultiSelect` of the old one; nothing else changes |
| CarWashPage.CarWashForm.QuickTagPressed | car-wash/src/pages/carwash/CarWashPage.jsx:292-315 | only the notes change, to `QuickTag` of the old notes |
| CarWashPage.CarWashForm.SaveRecord | car-wash/src/pages/carwash/CarWashPage.jsx:318-378 | with no plate nothing changes; otherwise the record is handed over and loading ends; a stored record resets the plate and service record, a rejected or thrown save keeps them and gives the matching alert |
| SimpleCarWashPage.BlankSheetIsBlank | my-react-app/src/pages/carwash/CarWashPage.jsx:8-15 | the reset service record is the one with all six fields empty |
| SimpleCarWashPage.WithField | my-react-app/src/pages/carwash/CarWashPage.jsx:43-48 | `handleServiceChange` sets the named field and keeps the other five |
| SimpleCarWashPage.WithFieldLastWins | my-react-app/src/pages/carwash/CarWashPage.jsx:43-48 | of two changes to one field the later wins |
| SimpleCarWashPage.SimpleCarWashForm.constructor | my-react-app/src/pages/carwash/CarWashPage.jsx:5-15 | empty plate, no image, not loading, blank service record |
| SimpleCarWashPage.SimpleCarWashForm.LicensePlateChange | my-react-app/src/pages/carwash/CarWashPage.jsx:38-40 | the plate is stored upper-cased and nothing else changes |
| SimpleCarWashPage.SimpleCarWashForm.ServiceChange | my-react-app/src/pages/carwash/CarWashPage.jsx:43-48 | only the named service field changes |
| SimpleCarWashPage.SimpleCarWashForm.SaveRecord | my-react-app/src/pages/carwash/CarWashPage.jsx:51-80 | with no plate only the alert is given; otherwise the record of plate, image and service record is built and the form is reset to empty plate, no image and blank fields |
| CarHistoryPage.Search | my-react-app/src/pages/carwash/CarHistoryPage.jsx:64-75 | a blank term gives all records; otherwise exactly the records whose plate contains the untrimmed term ignoring case, each as many times as it occurs, in order |
| CarHistoryPage.HistoryForPlate | my-react-app/src/pages/carwash/CarHistoryPage.jsx:78-82 | only records of the plate, ignoring case, newest timestamp first, as a permutation of the filtered records |
| CarHistoryPage.HistoryForPlateComplete | my-react-app/src/pages/carwash/CarHistoryPage.jsx:78-82 | every record of the plate is in its history |
| CarHistoryPage.HistoryForPlateStable | my-react-app/src/pages/carwash/CarHistoryPage.jsx:81 | visits with equal timestamps keep their order |
| CarHistoryPage.Label | my-react-app/src/pages/carwash/CarHistoryPage.jsx:88-93 | the two-way label: the first label exactly for the named value, else the second |
| CarHistoryPage.EntriesOf | my-react-app/src/pages/carwash/CarHistoryPage.jsx:86-93 | every pushed entry is non-empty |
| CarHistoryPage.EntriesOfFilledFields | my-react-app/src/pages/carwash/CarHistoryPage.jsx:86-93 | the entries are exactly those of the filled fields, one each, in the fixed field order |
| CarHistoryPage.EntriesStep | my-react-app/src/pages/carwash/CarHistoryPage.jsx:88-93 | one more field keeps the entry correspondence |
| CarHistoryPage.ServiceDetails | my-react-app/src/pages/carwash/CarHistoryPage.jsx:85-96 | the entries joined by ', '; stated by `ServiceDetailsEmptyIff` and `EntriesOfFilledFields` |
| CarHistoryPage.ServiceDetailsEmptyIff | my-react-app/src/pages/carwash/CarHistoryPage.jsx:85-96 | the summary is '' iff every field is empty |
| CarHistoryPage.BlankSheetNoEntries | my-react-app/src/pages/carwash/CarHistoryPage.jsx:88-93 | a blank record pushes nothing |
| CarHistoryPage.NoEntriesNoneFilled | my-react-app/src/pages/carwash/CarHistoryPage.jsx:88-93 | nothing pushed means no listed field is filled |
| CarHistoryPage.PlatesOf | my-react-app/src/pages/carwash/CarHistoryPage.jsx:100 | the plates of the records, position by position |
| CarHistoryPage.GroupsAreDisjoint | my-react-app/src/pages/carwash/CarHistoryPage.jsx:99-106 | a record is in the group of its own plate and of no other |
| CarHistoryPage.GroupsCoverRecords | my-react-app/src/pages/carwash/CarHistoryPage.jsx:99-106 | the groups of the distinct plates hold all records between them |
| CarHistoryPage.ShownGroup | my-react-app/src/pages/carwash/CarHistoryPage.jsx:144-145 | each shown group is sorted newest first and is a permutation of the group |
| CarHistoryPage.HistoryPage.constructor | my-react-app/src/pages/carwash/CarHistoryPage.jsx:5-61 | after loading, the term is empty and every record is listed |
| CarHistoryPage.HistoryPage.HandleSearch | my-react-app/src/pages/carwash/CarHistoryPage.jsx:64-75 | the results become `Search` of all records and the records stay |
| CarHistoryPage.HistoryPage.GroupedResults | my-react-app/src/pages/carwash/CarHistoryPage.jsx:99-106 | the keys are the distinct plates in first-appearance order, each mapped to its records in order |
| CarHistoryPage.GroupingPartitions | my-react-app/src/pages/carwash/CarHistoryPage.jsx:99-106 | every record lands in the group of its exact plate; groups hold only their plate; the sizes sum to the record count; there are as many groups as distinct plates |
| CarHistoryPage.EmptyGroup | my-react-app/src/pages/carwash/CarHistoryPage.jsx:99-106 | a plate no record carries has no records grouped under it |
| CarHistoryPage.FiledInTwoSteps | my-react-app/src/pages/carwash/CarHistoryPage.jsx:101-104 | creating the missing group and then pushing files the record |
| CarHistoryPage.GroupedStep | my-react-app/src/pages/carwash/CarHistoryPage.jsx:99-106 | filing one more record extends the grouping of the prefix |
| HistoryTab.FilteredRecords | my-react-app/src/pages/carwash/HistoryTab.jsx:26-28 | exactly the records whose plate contains the untrimmed term ignoring case, each as many times as it occurs, in order; the empty term keeps all |
| HistoryTab.JoinIsDash | my-react-app/src/pages/carwash/HistoryTab.jsx:30-32 | joining a non-empty list gives '-' only for `['-']` |
| HistoryTab.FormatArrayValue | my-react-app/src/pages/carwash/HistoryTab.jsx:30-32 | the entries joined by ', ', or '-' for a missing or empty list; stated by `JoinIsDash` and `TagShownIff` |
| HistoryTab.TagShownIff | my-react-app/src/pages/carwash/HistoryTab.jsx:96-105 | a staff tag is shown iff the list is present, non-empty and not `['-']` |
| HistoryTab.HistoryTabView.constructor | my-react-app/src/pages/carwash/HistoryTab.jsx:10-17 | the tab loads the store's records and starts without a search term |
| HistoryTab.HistoryTabView.Shown | my-react-app/src/pages/carwash/HistoryTab.jsx:26-58 | what is listed, and counted, is a subsequence of the records |
| HistoryTab.HistoryTabView.SetSearchTerm | my-react-app/src/pages/carwash/HistoryTab.jsx:7 | only the term changes |
| HistoryTab.HistoryTabView.HandleDelete | my-react-app/src/pages/carwash/HistoryTab.jsx:19-24 | without confirmation nothing changes; with it the first record with the id is removed from the store, the store saves as `deleteRecord` does, and the list is reloaded from it |
| DataMigration.Successes | car-wash/src/services/dataMigration.js:32-49 | the success count is at most the number of records; it equals that number iff every upload succeeded, and is 0 iff none did |
| DataMigration.Summary | car-wash/src/services/dataMigration.js:61-65 | successes plus errors equal the number of records; success iff every upload succeeded |
| DataMigration.DataMigrationService.constructor | car-wash/src/services/dataMigration.js:6-14 | the flag is what local storage holds |
| DataMigration.DataMigrationService.NeedsMigration | car-wash/src/services/dataMigration.js:11-14 | migration is needed iff the flag is absent or empty |
| DataMigration.DataMigrationService.MarkMigrationComplete | car-wash/src/services/dataMigration.js:78-81 | the flag is set to 'true', so no migration is needed |
| DataMigration.DataMigrationService.ResetMigrationStatus | car-wash/src/services/dataMigration.js:94-97 | the flag is removed, so migration is needed again |
| DataMigration.DataMigrationService.MigrateData | car-wash/src/services/dataMigration.js:17-65 | no records: flag set, `{success: true, migratedCount: 0}`; otherwise every record is attempted once in order, the result is `Summary` of the uploads, and the flag is set iff some upload succeeded |
| SortPage.MostUpvoted | my-react-app/src/pages/sort/SortPage.jsx:45-52 | the copy is sorted by upvotes, most first, and is a permutation of the articles |
| SortPage.MostRecent | my-react-app/src/pages/sort/SortPage.jsx:54-59 | the copy is sorted by date, newest first, and is a permutation of the articles |
| SortPage.MostUpvotedStable | my-react-app/src/pages/sort/SortPage.jsx:50 | articles with equal upvotes keep their input order |
| SortPage.MostRecentStable | my-react-app/src/pages/sort/SortPage.jsx:55-57 | articles of the same date keep their input order |
| SortPage.MostUpvotedUnique | my-react-app/src/pages/sort/SortPage.jsx:50 | every stable sort by upvotes gives this order |
| SortPage.MostRecentUnique | my-react-app/src/pages/sort/SortPage.jsx:55-57 | every stable sort by date gives this order |
| SortPage.SortPageState.constructor | my-react-app/src/pages/sort/SortPage.jsx:43-47 | the articles are kept as given and shown sorted by upvotes |
| SortPage.SortPageState.HandleMostUpvoted | my-react-app/src/pages/sort/SortPage.jsx:49-52 | shows the upvote order; the articles are never changed |
| SortPage.SortPageState.HandleMostRecent | my-react-app/src/pages/sort/SortPage.jsx:54-59 | shows the date order; the articles are never changed |
| FeedbackPage.ButtonsUseDistinctCounters | my-react-app/src/pages/feedback/FeedbackPage.jsx:5-61 | the ten buttons use ten different counters, all inside the array of ten |
| FeedbackPage.Bump | my-react-app/src/pages/feedback/FeedbackPage.jsx:9-16 | the length is kept, entry i goes up by one, and every other entry is unchanged |
| FeedbackPage.BumpTotal | my-react-app/src/pages/feedback/FeedbackPage.jsx:9-16 | an in-range press adds exactly one vote in total; an out-of-range press changes nothing |
| FeedbackPage.UpvoteRaisesOnlyItsCount | my-react-app/src/pages/feedback/FeedbackPage.jsx:32-61 | an upvote raises its own displayed count by one and no other displayed count |
| FeedbackPage.FeedbackCounters.constructor | my-react-app/src/pages/feedback/FeedbackPage.jsx:6 | the counters start as ten zeros |
| FeedbackPage.FeedbackCounters.HandleUpOrDown | my-react-app/src/pages/feedback/FeedbackPage.jsx:7-17 | the counters become `Bump` of the old ones |
| StableSort.SortBy | my-react-app/src/pages/sort/SortPage.jsx:50 | the `sort` result is sorted by the key and is a permutation of the input |
| StableSort.SortByStable | my-react-app/src/pages/sort/SortPage.jsx:50 | elements with equal keys keep their input order |
| StableSort.SortedStableUnique | my-react-app/src/pages/sort/SortPage.jsx:50 | two sorted sequences that agree on each key's elements in order are equal |
| StableSort.StableSortIsSortBy | my-react-app/src/pages/sort/SortPage.jsx:50 | any sorted, stable rearrangement of the input is `SortBy` |
| Seqs.Filter | my-react-app/src/pages/carwash/HistoryTab.jsx:26-28 | `filter` returns only elements that pass and every element that passes, and keeps all of them when all pass |
| Seqs.FilterCounts | my-react-app/src/pages/carwash/HistoryTab.jsx:26-28 | `filter` keeps every copy of an element that passes and no copy of one that fails |
| Seqs.FilterIsSubsequence | my-react-app/src/pages/carwash/HistoryTab.jsx:26-28 | `filter` keeps the order of what it keeps |
| Seqs.Distinct | car-wash/src/pages/carwash/CarWashPage.jsx:197 | `[...new Set(xs)]` has each element of xs once and nothing else |
| Seqs.DistinctIsSubsequence | car-wash/src/pages/carwash/CarWashPage.jsx:197 | `[...new Set(xs)]` is a subsequence of xs |
| Seqs.DistinctFirstOccurrenceOrder | car-wash/src/pages/carwash/CarWashPage.jsx:197 | the elements of `[...new Set(xs)]` come in the order of their first occurrence in xs |
| Seqs.DistinctCardinality | my-react-app/src/services/dataStorage.js:97 | `new Set(xs).size` is the length of the deduplicated list |
| JsText.TrimEmptyIffAllSpace | my-react-app/src/services/dataStorage.js:58 | `trim()` is empty iff the text is all white space |
| JsText.Upper | car-wash/src/pages/carwash/CarWashPage.jsx:234-236 | `toUpperCase` maps each character (ASCII only) and keeps the length |
| JsText.Lower | my-react-app/src/services/dataStorage.js:63 | `toLowerCase` maps each character (ASCII only) and keeps the length |
| JsText.UpperIdempotent | car-wash/src/pages/carwash/CarWashPage.jsx:234-236 | upper-casing twice is upper-casing once |
| JsText.JoinEmptyIff | my-react-app/src/pages/carwash/CarHistoryPage.jsx:95 | joining non-empty entries gives '' only for no entries |
| JsText.JsLength | online-notebook/app/api/auth/register/route.ts:23 | `length` counts UTF-16 units: at least the characters and at most twice as many |

## Left out

- Debounced server sync, `loadPages` and `updatePageOnServer` in the notebook context are left out. They are timers and network calls. The server's answers to `createPage` and `deletePage` are parameters.
- `setTimeout` focus calls: a focus request is modelled as a target block or index together with a caret position, in the block key handler, the type menu and the title's Enter. The mount-time effect of `Block.tsx` that focuses the placeholder block is not modelled. The delay and the DOM lookup are left out.
- `registerUser` (bcrypt, prisma) and the auth session are foreign calls. Their outcome is a parameter.
- RegisterRoute.Post models only bodies whose `email`, `password` and `name` are strings or absent. Other JSON values behave differently in the route: a number has no `length`, so the length check passes, and an array of six or more entries passes it too; `emailRegex.test` converts a non-string to a string first.
- Local-storage reads and writes in the record store and in the migration are left out. What each write did is a `saveOk` flag, and what storage held is a constructor parameter.
- DataStorage.DataStorageService.AddRecord: a draft carries no `id`, so the stored record always gets the generated id. In `addRecord` an `id` in the caller's record would override the generated one through the spread; that case is not modelled.
- `getStatistics`'s `todayRecords` depends on the clock and the time zone. `StatisticsOf` omits it.
- DataStorage.Tally treats every plate as an ordinary key. On the plain `{}` of the reducer, a plate equal to an inherited property name is misread: "constructor" starts from a function and yields a string, and `__proto__` is never stored. That case is not modelled.
- DataStorage.StatisticsOf inherits that limit of `Tally` for its `plateCounts`.
- `exportData` is left out: it only wraps the records with the current date.
- Image capture is left out: `handleCapturePhoto`, the camera, `imageToBase64` and the simulated capture delay are DOM and timer code. The image is an opaque optional string.
- `simulateRecognition` is random and delayed. It appears only as the `Simulated` outcome.
- Confidence values are floating point and are not modelled.
- LicensePlateService.TokenCache.GetAccessToken does not model the token endpoint's URL or request. The fetched `access_token` is a parameter, and so are the two clock readings: `now` before the request and `fetchedAt` after it.
- Case mapping (`toUpperCase`/`toLowerCase`) is ASCII only. Unicode case mapping is not modelled.
- Strings are sequences of characters. `length`, the password check and the plate pattern's `{3,8}` are counted in UTF-16 units through `JsText.JsLength`.
- CarWashPage.QuickTag: the tag regex is built from the tag without escaping. The model is proved for tags without separators, which the four fixed tags are (`QuickTagsWellFormed`). The regex meaning of metacharacters inside a tag is not modelled.
- CarWashPage.Suggestions: `sort` is modelled as a stable sort by rank. The plates are deduplicated, so the comparator's inconsistent answer for two equal exact matches never arises.
- CarHistoryPage.HistoryPage.GroupedResults has two modelling limits:
  - For keys made only of digits, the JavaScript object enumerates them in numeric order; the model keeps first-appearance order.
  - A plate equal to an inherited property name such as "constructor" would be misread by `!groups[plate]`; that case is not modelled.
- The mock records of the history page and the sample articles of the sort page are data, not logic. They are left out.
- The displayed counts (`searchResults.length`, `filteredRecords.length`, `records.length`) are lengths of modelled sequences. They have no member of their own.
- The outer `catch` of `migrateData` is not reachable from the modelled operations, so it is left out. The errors inside its loop are modelled by the `Threw` outcome.
- The history tab's image preview and delete-confirmation dialog are UI. The confirmation's answer is a parameter.
- `useEffect` content sync in `Block.tsx` re-reads `block.content` into the local state. It is not modelled as a separate step.
- The heading, bullet and number CSS classes and the other layout are left out.
