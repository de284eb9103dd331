/** The notebook document model of `NotebookContext.tsx`: pages holding ordered blocks,
    the copy-on-write page and block operations, page creation and deletion, and the
    current-page lookup. The clock (`Date.now`), `uuidv4` and the server's answers are
    parameters; the debounced server sync is not modelled. */
module NotebookContext {
  import opened Wrappers
  import Seqs

  datatype BlockType = Heading1 | Heading2 | Heading3 | Paragraph | Bullet | Number

  datatype Block = Block(id: string, blockType: BlockType, content: string)

  datatype Page = Page(id: string, title: string, blocks: seq<Block>, createdAt: int, updatedAt: int)

  /** `Partial<Block>`: the fields an update carries; absent fields keep their value. */
  datatype BlockPatch = BlockPatch(id: Option<string>, blockType: Option<BlockType>, content: Option<string>)

  const UntitledTitle := "Untitled Page"

  /** `{ ...block, ...updates }` */
  function Merge(b: Block, u: BlockPatch): (r: Block)
    ensures r.id == (if u.id.Some? then u.id.value else b.id)
    ensures r.blockType == (if u.blockType.Some? then u.blockType.value else b.blockType)
    ensures r.content == (if u.content.Some? then u.content.value else b.content)
  {
    Block(
      if u.id.Some? then u.id.value else b.id,
      if u.blockType.Some? then u.blockType.value else b.blockType,
      if u.content.Some? then u.content.value else b.content)
  }

  /** A patch that sets only the content. */
  function ContentPatch(content: string): BlockPatch {
    BlockPatch(None, None, Some(content))
  }

  /** A patch that sets only the type. */
  function TypePatch(t: BlockType): BlockPatch {
    BlockPatch(None, Some(t), None)
  }

  /** The fresh, empty page that `createPage` and `deletePage` build locally. */
  function FreshPage(id: string, now: int): (p: Page)
    ensures p.id == id && p.title == UntitledTitle && p.blocks == []
  {
    Page(id, UntitledTitle, [], now, now)
  }

  function PageIds(pages: seq<Page>): (r: seq<string>)
    ensures |r| == |pages| && forall i :: 0 <= i < |pages| ==> r[i] == pages[i].id
  {
    seq(|pages|, i requires 0 <= i < |pages| => pages[i].id)
  }

  function BlockIds(blocks: seq<Block>): (r: seq<string>)
    ensures |r| == |blocks| && forall i :: 0 <= i < |blocks| ==> r[i] == blocks[i].id
  {
    seq(|blocks|, i requires 0 <= i < |blocks| => blocks[i].id)
  }

  /** `prev.map(page => page.id === pageId ? f(page) : page)` */
  function MapPage(pages: seq<Page>, pageId: string, f: Page -> Page): (r: seq<Page>)
    ensures |r| == |pages|
    ensures forall i :: 0 <= i < |pages| && pages[i].id != pageId ==> r[i] == pages[i]
    ensures forall i :: 0 <= i < |pages| && pages[i].id == pageId ==> r[i] == f(pages[i])
  {
    seq(|pages|, i requires 0 <= i < |pages| => if pages[i].id == pageId then f(pages[i]) else pages[i])
  }

  /** `addBlock`: the block goes at the end of the target page's blocks. */
  function AddBlockTo(pages: seq<Page>, pageId: string, block: Block, now: int): (r: seq<Page>)
    ensures PageIds(r) == PageIds(pages)
    ensures forall i :: 0 <= i < |pages| && pages[i].id != pageId ==> r[i] == pages[i]
    ensures forall i :: 0 <= i < |pages| && pages[i].id == pageId ==>
      r[i].title == pages[i].title && r[i].createdAt == pages[i].createdAt && r[i].updatedAt == now &&
      |r[i].blocks| == |pages[i].blocks| + 1 && r[i].blocks[|pages[i].blocks|] == block &&
      r[i].blocks[..|pages[i].blocks|] == pages[i].blocks
  {
    var r := MapPage(pages, pageId, (p: Page) => p.(blocks := p.blocks + [block], updatedAt := now));
    assert forall i :: 0 <= i < |pages| && pages[i].id == pageId ==>
      r[i].blocks == pages[i].blocks + [block];
    r
  }

  /** `page.blocks.map(block => block.id === blockId ? { ...block, ...updates } : block)` */
  function UpdateBlocks(blocks: seq<Block>, blockId: string, patch: BlockPatch): (r: seq<Block>)
    ensures |r| == |blocks|
    ensures forall k :: 0 <= k < |blocks| && blocks[k].id != blockId ==> r[k] == blocks[k]
    ensures forall k :: 0 <= k < |blocks| && blocks[k].id == blockId ==> r[k] == Merge(blocks[k], patch)
  {
    seq(|blocks|, k requires 0 <= k < |blocks| =>
      if blocks[k].id == blockId then Merge(blocks[k], patch) else blocks[k])
  }

  /** `updateBlock` */
  function UpdateBlockIn(pages: seq<Page>, pageId: string, blockId: string, patch: BlockPatch, now: int): (r: seq<Page>)
    ensures PageIds(r) == PageIds(pages)
    ensures forall i :: 0 <= i < |pages| && pages[i].id != pageId ==> r[i] == pages[i]
    ensures forall i :: 0 <= i < |pages| && pages[i].id == pageId ==>
      r[i] == pages[i].(blocks := UpdateBlocks(pages[i].blocks, blockId, patch), updatedAt := now)
  {
    MapPage(pages, pageId, (p: Page) => p.(blocks := UpdateBlocks(p.blocks, blockId, patch), updatedAt := now))
  }

  /** `page.blocks.filter(block => block.id !== blockId)` */
  function RemoveBlocks(blocks: seq<Block>, blockId: string): (r: seq<Block>)
    ensures forall k :: 0 <= k < |r| ==> r[k].id != blockId && r[k] in blocks
    ensures forall k :: 0 <= k < |blocks| && blocks[k].id != blockId ==> blocks[k] in r
    ensures Seqs.IsSubsequence(r, blocks)
    ensures (forall k :: 0 <= k < |blocks| ==> blocks[k].id != blockId) ==> r == blocks
    ensures forall k :: 0 <= k < |blocks| ==>
      multiset(r)[blocks[k]] == if blocks[k].id != blockId then multiset(blocks)[blocks[k]] else 0
  {
    Seqs.FilterIsSubsequence(blocks, OtherBlock(blockId));
    Seqs.FilterCounts(blocks, OtherBlock(blockId));
    Seqs.Filter(blocks, OtherBlock(blockId))
  }

  function OtherBlock(blockId: string): Block -> bool {
    (b: Block) => b.id != blockId
  }

  /** `deleteBlock` */
  function DeleteBlockFrom(pages: seq<Page>, pageId: string, blockId: string, now: int): (r: seq<Page>)
    ensures PageIds(r) == PageIds(pages)
    ensures forall i :: 0 <= i < |pages| && pages[i].id != pageId ==> r[i] == pages[i]
    ensures forall i :: 0 <= i < |pages| && pages[i].id == pageId ==>
      r[i] == pages[i].(blocks := RemoveBlocks(pages[i].blocks, blockId), updatedAt := now)
  {
    MapPage(pages, pageId, (p: Page) => p.(blocks := RemoveBlocks(p.blocks, blockId), updatedAt := now))
  }

  /** `updatePageTitle` */
  function RetitlePage(pages: seq<Page>, pageId: string, title: string, now: int): (r: seq<Page>)
    ensures PageIds(r) == PageIds(pages)
    ensures forall i :: 0 <= i < |pages| && pages[i].id != pageId ==> r[i] == pages[i]
    ensures forall i :: 0 <= i < |pages| && pages[i].id == pageId ==>
      r[i].title == title && r[i].updatedAt == now &&
      r[i].blocks == pages[i].blocks && r[i].createdAt == pages[i].createdAt
  {
    MapPage(pages, pageId, (p: Page) => p.(title := title, updatedAt := now))
  }

  /** `i` is the first position holding a page with this id. */
  predicate FirstWithId(pages: seq<Page>, id: string, i: int) {
    0 <= i < |pages| && pages[i].id == id && forall j :: 0 <= j < i ==> pages[j].id != id
  }

  /** `pages.find(page => page.id === currentPageId) || null` */
  function FindPage(pages: seq<Page>, currentPageId: Option<string>): (r: Option<Page>)
    ensures r.Some? <==> currentPageId.Some? && currentPageId.value in PageIds(pages)
    ensures r.Some? ==> exists i :: FirstWithId(pages, currentPageId.value, i) && r.value == pages[i]
  {
    if currentPageId.None? || |pages| == 0 then None
    else if pages[0].id == currentPageId.value then Some(pages[0])
    else
      var r := FindPage(pages[1..], currentPageId);
      assert PageIds(pages) == [pages[0].id] + PageIds(pages[1..]);
      if r.Some? then
        ghost var i :| FirstWithId(pages[1..], currentPageId.value, i) && r.value == pages[1..][i];
        assert FirstWithId(pages, currentPageId.value, i + 1) by {
          forall j | 0 <= j < i + 1 ensures pages[j].id != currentPageId.value {
            if j > 0 { assert pages[j] == pages[1..][j - 1]; }
          }
        }
        r
      else r
  }

  /** The notebook's state: the page list and the current page's id (`null` is None). */
  datatype State = State(pages: seq<Page>, currentPageId: Option<string>)

  /** How `createPage` gets its page: the user is not signed in, the server created
      `page`, or the request failed or threw. */
  datatype CreateOutcome = NotSignedIn | ServerCreated(page: Page) | ServerFailed

  /** `createPage`: the new page is appended and becomes current. `freshId` is what
      `uuidv4()` returns on the local paths. */
  function AfterCreate(s: State, outcome: CreateOutcome, freshId: string, now: int): (r: State)
    ensures |r.pages| == |s.pages| + 1 && r.pages[..|s.pages|] == s.pages
    ensures r.currentPageId == Some(r.pages[|s.pages|].id)
    ensures outcome.ServerCreated? ==> r.pages[|s.pages|] == outcome.page
    ensures !outcome.ServerCreated? ==> r.pages[|s.pages|] == FreshPage(freshId, now)
  {
    var p := if outcome.ServerCreated? then outcome.page else FreshPage(freshId, now);
    assert (s.pages + [p])[..|s.pages|] == s.pages;
    State(s.pages + [p], Some(p.id))
  }

  /** How the server part of `deletePage` ended: not signed in (no request), the
      server deleted the page, or the request failed or threw. */
  datatype DeleteOutcome = LocalOnly | ServerDeleted | ServerRejected

  function OtherPage(pageId: string): Page -> bool {
    (p: Page) => p.id != pageId
  }

  /** `deletePage`: the local update after the server step (or after none). */
  function AfterDelete(s: State, pageId: string, outcome: DeleteOutcome, freshId: string, now: int): (r: State)
    ensures outcome == ServerRejected ==> r == s
    ensures outcome != ServerRejected ==>
      var rest := Seqs.Filter(s.pages, OtherPage(pageId));
      (rest == [] ==> r == State([FreshPage(freshId, now)], Some(freshId))) &&
      (rest != [] ==> r.pages == rest) &&
      (rest != [] && s.currentPageId == Some(pageId) ==> r.currentPageId == Some(rest[0].id)) &&
      (rest != [] && s.currentPageId != Some(pageId) ==> r.currentPageId == s.currentPageId)
  {
    if outcome == ServerRejected then s
    else
      var rest := Seqs.Filter(s.pages, OtherPage(pageId));
      if s.currentPageId == Some(pageId) && |rest| > 0 then State(rest, Some(rest[0].id))
      else if |rest| == 0 then State([FreshPage(freshId, now)], Some(freshId))
      else State(rest, s.currentPageId)
  }

  /** Adding a block with a new id and then deleting that id gives back the page's
      blocks exactly; only `updatedAt` moves. */
  lemma AddThenDeleteBlock(pages: seq<Page>, pageId: string, block: Block, t1: int, t2: int)
    requires forall i :: 0 <= i < |pages| && pages[i].id == pageId ==> block.id !in BlockIds(pages[i].blocks)
    ensures var r := DeleteBlockFrom(AddBlockTo(pages, pageId, block, t1), pageId, block.id, t2);
      |r| == |pages| &&
      forall i :: 0 <= i < |pages| ==> r[i] == if pages[i].id == pageId then pages[i].(updatedAt := t2) else pages[i]
  {
    var a := AddBlockTo(pages, pageId, block, t1);
    forall i | 0 <= i < |pages| && pages[i].id == pageId
      ensures RemoveBlocks(a[i].blocks, block.id) == pages[i].blocks
    {
      var bs := pages[i].blocks;
      assert a[i].blocks == bs + [block];
      Seqs.FilterConcat(bs, [block], (b: Block) => b.id != block.id);
      assert forall k :: 0 <= k < |bs| ==> bs[k].id != block.id by {
        forall k | 0 <= k < |bs| ensures bs[k].id != block.id {
          assert BlockIds(bs)[k] == bs[k].id;
        }
      }
    }
  }

  /** Retitling twice is retitling once with the later title and time. */
  lemma RetitleLastWins(pages: seq<Page>, pageId: string, t1: string, n1: int, t2: string, n2: int)
    ensures RetitlePage(RetitlePage(pages, pageId, t1, n1), pageId, t2, n2) == RetitlePage(pages, pageId, t2, n2)
  {
    var a := RetitlePage(RetitlePage(pages, pageId, t1, n1), pageId, t2, n2);
    var b := RetitlePage(pages, pageId, t2, n2);
    assert PageIds(RetitlePage(pages, pageId, t1, n1)) == PageIds(pages);
    forall i | 0 <= i < |pages| ensures a[i] == b[i] {
      assert RetitlePage(pages, pageId, t1, n1)[i].id == pages[i].id by {
        assert PageIds(RetitlePage(pages, pageId, t1, n1))[i] == PageIds(pages)[i];
      }
    }
  }

  /** An update whose id matches no block leaves the blocks as they are. */
  lemma UpdateMissingBlock(blocks: seq<Block>, blockId: string, patch: BlockPatch)
    requires blockId !in BlockIds(blocks)
    ensures UpdateBlocks(blocks, blockId, patch) == blocks
  {
    forall k | 0 <= k < |blocks| ensures blocks[k].id != blockId {
      assert BlockIds(blocks)[k] == blocks[k].id;
    }
  }

  /** An update that does not set `id` keeps every block's id, so the block order is kept. */
  lemma UpdateKeepsBlockIds(blocks: seq<Block>, blockId: string, patch: BlockPatch)
    requires patch.id.None?
    ensures BlockIds(UpdateBlocks(blocks, blockId, patch)) == BlockIds(blocks)
  {
    var r := UpdateBlocks(blocks, blockId, patch);
    forall k | 0 <= k < |blocks| ensures BlockIds(r)[k] == BlockIds(blocks)[k] {
    }
  }

  /** The notebook shows a page: there is one and the current id names one of them. */
  predicate CurrentValid(s: State) {
    |s.pages| > 0 && FindPage(s.pages, s.currentPageId).Some?
  }

  /** The block operations and retitling keep the page ids, so they keep the current page. */
  lemma SamePageIdsKeepCurrent(s: State, pages: seq<Page>)
    requires PageIds(pages) == PageIds(s.pages)
    ensures FindPage(pages, s.currentPageId).Some? == FindPage(s.pages, s.currentPageId).Some?
    ensures CurrentValid(s) ==> CurrentValid(State(pages, s.currentPageId))
  {
    assert |pages| == |PageIds(pages)|;
  }

  /** After `createPage` the notebook always shows a page: the new one. */
  lemma CreateMakesCurrentValid(s: State, outcome: CreateOutcome, freshId: string, now: int)
    ensures CurrentValid(AfterCreate(s, outcome, freshId, now))
  {
    var r := AfterCreate(s, outcome, freshId, now);
    assert PageIds(r.pages)[|s.pages|] == r.currentPageId.value;
  }

  /** `deletePage` keeps the notebook showing a page. */
  lemma DeleteKeepsCurrentValid(s: State, pageId: string, outcome: DeleteOutcome, freshId: string, now: int)
    requires CurrentValid(s)
    ensures CurrentValid(AfterDelete(s, pageId, outcome, freshId, now))
  {
    var r := AfterDelete(s, pageId, outcome, freshId, now);
    var rest := Seqs.Filter(s.pages, OtherPage(pageId));
    if outcome != ServerRejected && rest != [] {
      if s.currentPageId == Some(pageId) {
        assert PageIds(rest)[0] == rest[0].id;
      } else {
        var i :| FirstWithId(s.pages, s.currentPageId.value, i);
        assert s.pages[i] in rest;
        var k :| 0 <= k < |rest| && rest[k] == s.pages[i];
        assert PageIds(rest)[k] == s.currentPageId.value;
      }
    } else if outcome != ServerRejected {
      assert PageIds(r.pages)[0] == freshId;
    }
  }

  /** A completed `deletePage` leaves no page with that id (the fresh id is new), keeps
      every other page in order, and never leaves the list empty. */
  lemma DeleteRemovesPage(s: State, pageId: string, outcome: DeleteOutcome, freshId: string, now: int)
    requires outcome != ServerRejected && freshId != pageId
    ensures var r := AfterDelete(s, pageId, outcome, freshId, now);
      pageId !in PageIds(r.pages) && |r.pages| > 0 &&
      (forall i :: 0 <= i < |s.pages| && s.pages[i].id != pageId ==> s.pages[i] in r.pages) &&
      (|r.pages| > 1 || r.pages[0].id != freshId ==> Seqs.IsSubsequence(r.pages, s.pages))
  {
    var r := AfterDelete(s, pageId, outcome, freshId, now);
    var rest := Seqs.Filter(s.pages, OtherPage(pageId));
    Seqs.FilterIsSubsequence(s.pages, OtherPage(pageId));
    forall k | 0 <= k < |r.pages| ensures PageIds(r.pages)[k] != pageId {
      assert r.pages[k].id != pageId;
    }
  }

  /** A call the components make on the context. */
  datatype Command =
    | AddBlockCmd(pageId: string, block: Block)
    | UpdateBlockCmd(pageId: string, blockId: string, patch: BlockPatch)
    | DeleteBlockCmd(pageId: string, blockId: string)
    | UpdateTitleCmd(pageId: string, title: string)

  /** The page list after one command, all at time `now`. */
  function Apply(pages: seq<Page>, c: Command, now: int): (r: seq<Page>)
    ensures PageIds(r) == PageIds(pages)
  {
    match c
    case AddBlockCmd(p, b) => AddBlockTo(pages, p, b, now)
    case UpdateBlockCmd(p, id, u) => UpdateBlockIn(pages, p, id, u, now)
    case DeleteBlockCmd(p, id) => DeleteBlockFrom(pages, p, id, now)
    case UpdateTitleCmd(p, t) => RetitlePage(pages, p, t, now)
  }

  /** The page list after the commands, in the order they were issued. */
  function ApplyAll(pages: seq<Page>, cs: seq<Command>, now: int): (r: seq<Page>)
    ensures PageIds(r) == PageIds(pages)
    decreases |cs|
  {
    if |cs| == 0 then pages else ApplyAll(Apply(pages, cs[0], now), cs[1..], now)
  }

  /** The provider's state (`pages`, `currentPageId`); each operation replaces it. */
  class Notebook {
    var pages: seq<Page>
    var currentPageId: Option<string>

    constructor ()
      ensures pages == [] && currentPageId == None
    {
      pages := [];
      currentPageId := None;
    }

    function Snapshot(): State
      reads this
    {
      State(pages, currentPageId)
    }

    /** `currentPage` */
    function CurrentPage(): (r: Option<Page>)
      reads this
      ensures r.Some? <==> currentPageId.Some? && currentPageId.value in PageIds(pages)
    {
      FindPage(pages, currentPageId)
    }

    method CreatePage(outcome: CreateOutcome, freshId: string, now: int) returns (id: string)
      modifies this
      ensures Snapshot() == AfterCreate(old(Snapshot()), outcome, freshId, now)
      ensures currentPageId == Some(id)
    {
      var r := AfterCreate(Snapshot(), outcome, freshId, now);
      pages, currentPageId := r.pages, r.currentPageId;
      id := r.currentPageId.value;
    }

    method SelectPage(pageId: string)
      modifies this
      ensures pages == old(pages) && currentPageId == Some(pageId)
    {
      currentPageId := Some(pageId);
    }

    method UpdatePageTitle(pageId: string, title: string, now: int)
      modifies this
      ensures pages == RetitlePage(old(pages), pageId, title, now) && currentPageId == old(currentPageId)
    {
      pages := RetitlePage(pages, pageId, title, now);
    }

    method AddBlock(pageId: string, block: Block, now: int)
      modifies this
      ensures pages == AddBlockTo(old(pages), pageId, block, now) && currentPageId == old(currentPageId)
    {
      pages := AddBlockTo(pages, pageId, block, now);
    }

    method UpdateBlock(pageId: string, blockId: string, patch: BlockPatch, now: int)
      modifies this
      ensures pages == UpdateBlockIn(old(pages), pageId, blockId, patch, now) && currentPageId == old(currentPageId)
    {
      pages := UpdateBlockIn(pages, pageId, blockId, patch, now);
    }

    method DeleteBlock(pageId: string, blockId: string, now: int)
      modifies this
      ensures pages == DeleteBlockFrom(old(pages), pageId, blockId, now) && currentPageId == old(currentPageId)
    {
      pages := DeleteBlockFrom(pages, pageId, blockId, now);
    }

    method DeletePage(pageId: string, outcome: DeleteOutcome, freshId: string, now: int)
      modifies this
      ensures Snapshot() == AfterDelete(old(Snapshot()), pageId, outcome, freshId, now)
    {
      var r := AfterDelete(Snapshot(), pageId, outcome, freshId, now);
      pages, currentPageId := r.pages, r.currentPageId;
    }
  }
}
