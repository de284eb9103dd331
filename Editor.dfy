/** The page editor (`Editor.tsx`): which blocks are shown for the current page, with
    a stand-in placeholder block when the page is empty, and the title input's handlers. */
module Editor {
  import opened Wrappers
  import opened NotebookContext
  import BlockComponent

  /** The block Editor shows on an empty page. */
  function PlaceholderBlock(): Block {
    Block(BlockComponent.PlaceholderId, Paragraph, "")
  }

  /** One rendered `BlockComponent`: its React key, its block and its `index` prop. */
  datatype Shown = Shown(key: string, block: Block, index: nat)

  /** What the editor shows for the context's `currentPage` and `currentPageId`:
      nothing without a page or with a falsy id (`null` or ""), the page's blocks in
      order, or, for a page without blocks, the single placeholder keyed "empty-block". */
  function ShownBlocks(currentPage: Option<Page>, currentPageId: Option<string>): (r: seq<Shown>)
    ensures currentPage.None? || currentPageId.None? || currentPageId.value == "" ==> r == []
    ensures currentPage.Some? && currentPageId.Some? && currentPageId.value != "" ==>
      var blocks := currentPage.value.blocks;
      (blocks == [] ==> r == [Shown("empty-block", PlaceholderBlock(), 0)]) &&
      (blocks != [] ==> (|r| == |blocks| &&
        forall i :: 0 <= i < |blocks| ==> r[i] == Shown(blocks[i].id, blocks[i], i)))
  {
    if currentPage.None? || currentPageId.None? || currentPageId.value == "" then []
    else
      var blocks := currentPage.value.blocks;
      seq(|blocks|, i requires 0 <= i < |blocks| => Shown(blocks[i].id, blocks[i], i))
        + (if |blocks| == 0 then [Shown("empty-block", PlaceholderBlock(), 0)] else [])
  }

  /** The placeholder appears exactly when the current page has no blocks (its real
      blocks never use the placeholder id), and then it is the only block shown. */
  lemma PlaceholderIffEmptyPage(page: Page, id: string)
    requires id != ""
    requires BlockComponent.PlaceholderId !in BlockIds(page.blocks)
    ensures var r := ShownBlocks(Some(page), Some(id));
      (exists i :: 0 <= i < |r| && r[i].block.id == BlockComponent.PlaceholderId) <==> page.blocks == []
    ensures page.blocks == [] ==> |ShownBlocks(Some(page), Some(id))| == 1
  {
    var r := ShownBlocks(Some(page), Some(id));
    if page.blocks != [] {
      forall i | 0 <= i < |r| ensures r[i].block.id != BlockComponent.PlaceholderId {
        assert BlockIds(page.blocks)[i] == r[i].block.id;
      }
    } else {
      assert r[0].block.id == BlockComponent.PlaceholderId;
    }
  }

  /** `handleTitleChange` */
  function OnTitleChange(currentPageId: string, value: string): (cs: seq<Command>)
    ensures cs == [UpdateTitleCmd(currentPageId, value)]
  {
    [UpdateTitleCmd(currentPageId, value)]
  }

  /** What the title's key handler does: the context calls, the block it focuses
      (`[data-block-id]` after the re-render) and whether the default action is prevented. */
  datatype TitleReaction = TitleReaction(commands: seq<Command>, focus: BlockComponent.Focus, preventDefault: bool)

  /** `handleKeyDown` on the title: Enter adds one empty paragraph with a fresh id and
      focuses it. */
  function OnTitleKey(currentPageId: string, key: BlockComponent.Key, freshId: string): (r: TitleReaction)
    ensures r.preventDefault <==> key == BlockComponent.Enter
    ensures key == BlockComponent.Enter ==> r.focus == BlockComponent.FocusBlock(freshId) && |r.commands| == 1
    ensures key != BlockComponent.Enter ==> r.focus == BlockComponent.NoFocus && r.commands == []
  {
    if key == BlockComponent.Enter then
      TitleReaction([AddBlockCmd(currentPageId, Block(freshId, Paragraph, ""))], BlockComponent.FocusBlock(freshId), true)
    else TitleReaction([], BlockComponent.NoFocus, false)
  }

  /** Enter in the title appends exactly one empty paragraph to the current page and
      changes no other block; other keys change nothing. */
  lemma TitleEnterAppendsParagraph(pages: seq<Page>, currentPageId: string, key: BlockComponent.Key,
                                   freshId: string, now: int)
    ensures var after := ApplyAll(pages, OnTitleKey(currentPageId, key, freshId).commands, now);
      (key != BlockComponent.Enter ==> after == pages) &&
      (key == BlockComponent.Enter ==> after == AddBlockTo(pages, currentPageId, Block(freshId, Paragraph, ""), now))
  {
    var p1 := AddBlockTo(pages, currentPageId, Block(freshId, Paragraph, ""), now);
    assert ApplyAll(p1, [], now) == p1;
  }

  /** Typing the first character into an empty page's placeholder replaces the
      placeholder by the new block on the next render. */
  lemma TypingMaterialisesPlaceholder(pages: seq<Page>, pageId: string, view: BlockComponent.View,
                                      text: string, freshId: string, now: int)
    requires pageId != ""
    requires FindPage(pages, Some(pageId)).Some? && FindPage(pages, Some(pageId)).value.blocks == []
    ensures var r := BlockComponent.OnChange(PlaceholderBlock(), pageId, view, text, freshId);
      var after := ApplyAll(pages, r.commands, now);
      var nb := Block(freshId, Paragraph, text);
      FindPage(after, Some(pageId)).Some? &&
      ShownBlocks(FindPage(after, Some(pageId)), Some(pageId)) == [Shown(freshId, nb, 0)]
  {
    var nb := Block(freshId, Paragraph, text);
    BlockComponent.TypingIntoPlaceholder(PlaceholderBlock(), pageId, view, text, freshId, pages, now);
    var i :| FirstWithId(pages, pageId, i) && FindPage(pages, Some(pageId)).value == pages[i];
    AddedToFirst(pages, pageId, nb, now, i);
    var after := AddBlockTo(pages, pageId, nb, now);
    ShownSingleBlock(after[i], pageId, nb);
  }

  /** A page holding one block shows just that block, at index 0. */
  lemma ShownSingleBlock(page: Page, pageId: string, nb: Block)
    requires pageId != "" && page.blocks == [nb]
    ensures ShownBlocks(Some(page), Some(pageId)) == [Shown(nb.id, nb, 0)]
  {
  }

  /** Adding a block to an empty page found at position `i` leaves that page first, holding just the block. */
  lemma AddedToFirst(pages: seq<Page>, pageId: string, nb: Block, now: int, i: int)
    requires FirstWithId(pages, pageId, i) && pages[i].blocks == []
    ensures var after := AddBlockTo(pages, pageId, nb, now);
      FindPage(after, Some(pageId)) == Some(after[i]) && after[i].blocks == [nb]
  {
    var after := AddBlockTo(pages, pageId, nb, now);
    assert FirstWithId(after, pageId, i) by {
      forall j | 0 <= j < i ensures after[j].id != pageId {
        assert PageIds(after)[j] == PageIds(pages)[j];
      }
    }
    FindFirst(after, pageId, i);
    assert after[i].blocks == [nb] by {
      assert after[i].blocks[..0] == [];
    }
  }

  /** The page `FindPage` returns is the one at the first position with that id. */
  lemma FindFirst(pages: seq<Page>, id: string, i: int)
    requires FirstWithId(pages, id, i)
    ensures FindPage(pages, Some(id)) == Some(pages[i])
  {
    assert PageIds(pages)[i] == id;
    var j: int :| FirstWithId(pages, id, j) && FindPage(pages, Some(id)).value == pages[j];
    assert FirstWithId(pages, id, j);
    assert 0 <= j < |pages|;
  }
}
