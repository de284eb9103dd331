/** One block's editing logic (`Block.tsx`): the key-handling decision chain, typing
    into a block or into the placeholder, re-typing through the `/` menu, the menu's
    visibility, the placeholder text and the choice of input element. A handler is a
    step from the component's state to a new state, the context calls it issues, the
    focus it asks for and whether it prevents the browser's default action. `uuidv4()`
    results are parameters. */
module BlockComponent {
  import opened NotebookContext
  import JsText

  /** The id Editor gives the stand-in block of an empty page. */
  const PlaceholderId := "placeholder"

  /** The component's own React state. */
  datatype View = View(content: string, showMenu: bool)

  datatype Key = Enter | Backspace | ArrowUp | ArrowDown | Slash | OtherKey

  /** A key press: the key, whether Shift is held, and the caret offset (`selectionStart`,
      in UTF-16 units like `value.length`). */
  datatype KeyPress = KeyPress(key: Key, shift: bool, selectionStart: int)

  datatype Caret = KeepCaret | CaretAtEnd | CaretAtStart

  /** A focus request: none, the block with this id (looked up after the re-render),
      or the block rendered at a position. */
  datatype Focus = NoFocus | FocusBlock(id: string) | FocusAt(index: nat, caret: Caret)

  datatype Reaction = Reaction(view: View, commands: seq<Command>, focus: Focus, preventDefault: bool)

  predicate IsHeading(t: BlockType) {
    t == Heading1 || t == Heading2 || t == Heading3
  }

  /** A handler that does nothing. */
  function Ignore(view: View): Reaction {
    Reaction(view, [], NoFocus, false)
  }

  /** `handleKeyDown`. `rendered` is how many blocks the editor shows; `firstId` and
      `newId` are the two fresh ids. */
  function OnKeyDown(block: Block, pageId: string, index: nat, rendered: nat, view: View,
                     ev: KeyPress, firstId: string, newId: string): (r: Reaction)
    // Key handling never edits the text, issues context calls only together with
    // preventDefault, and a key it does not intercept changes nothing.
    ensures r.view.content == view.content
    ensures r.commands != [] ==> r.preventDefault
    ensures !r.preventDefault ==> r == Ignore(view)
    ensures r.view.showMenu != view.showMenu ==> ev.key == Slash && view.content == "" && r.view.showMenu
  {
    if ev.key == Enter && !ev.shift then
      if block.blockType == Paragraph || IsHeading(block.blockType) then
        var first := if block.id == PlaceholderId && view.content != ""
          then [AddBlockCmd(pageId, Block(firstId, block.blockType, view.content))] else [];
        Reaction(view, first + [AddBlockCmd(pageId, Block(newId, Paragraph, ""))], FocusBlock(newId), true)
      else Ignore(view)
    else if ev.key == Backspace && view.content == "" then
      if block.id != PlaceholderId then
        Reaction(view, [DeleteBlockCmd(pageId, block.id)], if index > 0 then FocusAt(index - 1, KeepCaret) else NoFocus, true)
      else Reaction(view, [], NoFocus, true)
    else if ev.key == ArrowUp && ev.selectionStart == 0 then
      Reaction(view, [], if 0 < index <= rendered then FocusAt(index - 1, CaretAtEnd) else NoFocus, true)
    else if ev.key == ArrowDown && ev.selectionStart == JsText.JsLength(view.content) then
      Reaction(view, [], if index + 1 < rendered then FocusAt(index + 1, CaretAtStart) else NoFocus, true)
    else if ev.key == Slash && view.content == "" then
      Reaction(view.(showMenu := true), [], NoFocus, true)
    else Ignore(view)
  }

  /** `handleChange`: typing into the placeholder creates a real block; typing into a
      real block updates its content. */
  function OnChange(block: Block, pageId: string, view: View, newContent: string, freshId: string): (r: Reaction)
    ensures r.view.content == newContent && r.view.showMenu == view.showMenu
    ensures |r.commands| == 1 && r.focus == NoFocus && !r.preventDefault
    ensures r.commands[0].AddBlockCmd? <==> block.id == PlaceholderId
  {
    var v := view.(content := newContent);
    if block.id == PlaceholderId then
      Reaction(v, [AddBlockCmd(pageId, Block(freshId, block.blockType, newContent))], NoFocus, false)
    else
      Reaction(v, [UpdateBlockCmd(pageId, block.id, ContentPatch(newContent))], NoFocus, false)
  }

  /** `handleTypeChange`: pick a type from the menu; the block's own input is focused
      again once the menu has closed. */
  function OnTypeChange(block: Block, pageId: string, view: View, t: BlockType): (r: Reaction)
    ensures !r.view.showMenu && r.view.content == view.content
    ensures r.commands == [UpdateBlockCmd(pageId, block.id, TypePatch(t))]
    ensures r.focus == FocusBlock(block.id) && !r.preventDefault
  {
    Reaction(view.(showMenu := false), [UpdateBlockCmd(pageId, block.id, TypePatch(t))], FocusBlock(block.id), false)
  }

  /** `handleBlur` */
  function OnBlur(view: View): (v: View)
    ensures !v.showMenu && v.content == view.content
  {
    view.(showMenu := false)
  }

  /** `getPlaceholder` */
  function PlaceholderText(t: BlockType): (s: string)
    ensures IsHeading(t) ==> JsText.StartsWith(s, "标题 ")
    ensures t == Bullet || t == Number ==> s == "列表项"
  {
    match t
    case Heading1 => "标题 1"
    case Heading2 => "标题 2"
    case Heading3 => "标题 3"
    case Bullet => "列表项"
    case Number => "列表项"
    case Paragraph => "输入 \"/\" 查看命令"
  }

  datatype InputElement = SingleLineInput | TextArea
  datatype Marker = NoMarker | BulletMarker | NumberMarker(n: nat)

  /** `renderInput`: the element and the list marker shown for a block at `index`. */
  function RenderInput(t: BlockType, index: nat): (r: (InputElement, Marker))
    ensures r.0 == SingleLineInput <==> IsHeading(t)
    ensures r.1 == (if t == Bullet then BulletMarker else if t == Number then NumberMarker(index + 1) else NoMarker)
  {
    if IsHeading(t) then (SingleLineInput, NoMarker)
    else if t == Bullet then (TextArea, BulletMarker)
    else if t == Number then (TextArea, NumberMarker(index + 1))
    else (TextArea, NoMarker)
  }

  /** Enter (without Shift) on a paragraph or heading adds an empty paragraph at the END
      of the page, preceded by a block holding the placeholder's text when the block is
      the placeholder and has text; other pages are left alone and focus goes to the new block. */
  lemma EnterAppendsBlocks(block: Block, pageId: string, index: nat, rendered: nat, view: View,
                          ev: KeyPress, firstId: string, newId: string, pages: seq<Page>, now: int)
    requires ev.key == Enter && !ev.shift && (block.blockType == Paragraph || IsHeading(block.blockType))
    ensures var r := OnKeyDown(block, pageId, index, rendered, view, ev, firstId, newId);
      var added := (if block.id == PlaceholderId && view.content != "" then [Block(firstId, block.blockType, view.content)] else [])
        + [Block(newId, Paragraph, "")];
      var after := ApplyAll(pages, r.commands, now);
      r.preventDefault && r.focus == FocusBlock(newId) && r.view == view && |after| == |pages| &&
      forall i :: 0 <= i < |pages| ==>
        after[i] == if pages[i].id == pageId then pages[i].(blocks := pages[i].blocks + added, updatedAt := now) else pages[i]
  {
    var r := OnKeyDown(block, pageId, index, rendered, view, ev, firstId, newId);
    var nb := Block(newId, Paragraph, "");
    if block.id == PlaceholderId && view.content != "" {
      var fb := Block(firstId, block.blockType, view.content);
      var p1 := AddBlockTo(pages, pageId, fb, now);
      var p2 := AddBlockTo(p1, pageId, nb, now);
      assert r.commands == [AddBlockCmd(pageId, fb), AddBlockCmd(pageId, nb)];
      assert ApplyAll(pages, r.commands, now) == p2 by {
        assert r.commands[1..] == [AddBlockCmd(pageId, nb)];
        assert ApplyAll(p2, [], now) == p2;
        assert ApplyAll(p1, r.commands[1..], now) == p2;
        assert Apply(pages, r.commands[0], now) == p1;
      }
      AddTwoBlocks(pages, pageId, fb, nb, now);
    } else {
      var p1 := AddBlockTo(pages, pageId, nb, now);
      assert r.commands == [AddBlockCmd(pageId, nb)];
      assert ApplyAll(pages, r.commands, now) == p1 by {
        assert ApplyAll(p1, [], now) == p1;
      }
      forall i | 0 <= i < |pages| && pages[i].id == pageId
        ensures p1[i] == pages[i].(blocks := pages[i].blocks + [nb], updatedAt := now)
      {
        assert p1[i].blocks == pages[i].blocks + [nb];
      }
    }
  }

  /** Two blocks added one after the other to a page end up at its end, in that order. */
  lemma AddTwoBlocks(pages: seq<Page>, pageId: string, fb: Block, nb: Block, now: int)
    ensures var p2 := AddBlockTo(AddBlockTo(pages, pageId, fb, now), pageId, nb, now);
      |p2| == |pages| &&
      forall i :: 0 <= i < |pages| ==>
        p2[i] == if pages[i].id == pageId then pages[i].(blocks := pages[i].blocks + [fb, nb], updatedAt := now) else pages[i]
  {
    var p1 := AddBlockTo(pages, pageId, fb, now);
    var p2 := AddBlockTo(p1, pageId, nb, now);
    forall i | 0 <= i < |pages| && pages[i].id == pageId
      ensures p2[i] == pages[i].(blocks := pages[i].blocks + [fb, nb], updatedAt := now)
    {
      assert PageIds(p1)[i] == PageIds(pages)[i];
      assert p1[i].blocks == pages[i].blocks + [fb];
      assert p2[i].blocks == p1[i].blocks + [nb];
      assert pages[i].blocks + [fb] + [nb] == pages[i].blocks + [fb, nb];
    }
    forall i | 0 <= i < |pages| && pages[i].id != pageId ensures p2[i] == pages[i] {
      assert PageIds(p1)[i] == PageIds(pages)[i];
    }
  }

  /** Enter on a bullet or number block, and Enter with Shift, do nothing at all. */
  lemma EnterOnListOrShiftIgnored(block: Block, pageId: string, index: nat, rendered: nat, view: View,
                                  ev: KeyPress, firstId: string, newId: string)
    requires ev.key == Enter && (ev.shift || block.blockType == Bullet || block.blockType == Number)
    ensures OnKeyDown(block, pageId, index, rendered, view, ev, firstId, newId) == Ignore(view)
  {
  }

  /** Backspace in an empty block deletes it (never the placeholder) and asks to focus
      the block before it, if any; the block's id is then gone from the page. */
  lemma BackspaceDeletesEmptyBlock(block: Block, pageId: string, index: nat, rendered: nat, view: View,
                                   ev: KeyPress, firstId: string, newId: string, pages: seq<Page>, now: int)
    requires ev.key == Backspace && view.content == ""
    ensures var r := OnKeyDown(block, pageId, index, rendered, view, ev, firstId, newId);
      r.preventDefault && r.view == view &&
      (block.id == PlaceholderId ==> r.commands == [] && r.focus == NoFocus) &&
      (block.id != PlaceholderId ==>
        r.focus == (if index > 0 then FocusAt(index - 1, KeepCaret) else NoFocus) &&
        forall i, k :: 0 <= i < |pages| && pages[i].id == pageId && 0 <= k < |ApplyAll(pages, r.commands, now)[i].blocks| ==>
          ApplyAll(pages, r.commands, now)[i].blocks[k].id != block.id)
  {
    var r := OnKeyDown(block, pageId, index, rendered, view, ev, firstId, newId);
    if block.id != PlaceholderId {
      var p1 := DeleteBlockFrom(pages, pageId, block.id, now);
      assert ApplyAll(pages, r.commands, now) == p1 by {
        assert r.commands == [DeleteBlockCmd(pageId, block.id)];
        assert ApplyAll(p1, [], now) == p1;
      }
    }
  }

  /** ArrowUp at offset 0 moves to the end of the previous block; ArrowDown at the end
      of the text moves to the start of the next one; neither changes any block. */
  lemma ArrowsMoveFocus(block: Block, pageId: string, index: nat, rendered: nat, view: View,
                        ev: KeyPress, firstId: string, newId: string)
    requires ev.key == ArrowUp || ev.key == ArrowDown
    ensures var r := OnKeyDown(block, pageId, index, rendered, view, ev, firstId, newId);
      r.commands == [] && r.view == view &&
      (ev.key == ArrowUp && ev.selectionStart == 0 ==>
        r.preventDefault && r.focus == (if 0 < index <= rendered then FocusAt(index - 1, CaretAtEnd) else NoFocus)) &&
      (ev.key == ArrowDown && ev.selectionStart == JsText.JsLength(view.content) ==>
        r.preventDefault && r.focus == (if index + 1 < rendered then FocusAt(index + 1, CaretAtStart) else NoFocus)) &&
      (ev.key == ArrowUp && ev.selectionStart != 0 ==> r == Ignore(view)) &&
      (ev.key == ArrowDown && ev.selectionStart != JsText.JsLength(view.content) ==> r == Ignore(view))
  {
  }

  /** `/` opens the type menu exactly when the block is empty, and changes nothing else. */
  lemma SlashOpensMenu(block: Block, pageId: string, index: nat, rendered: nat, view: View,
                       ev: KeyPress, firstId: string, newId: string)
    requires ev.key == Slash
    ensures var r := OnKeyDown(block, pageId, index, rendered, view, ev, firstId, newId);
      r.commands == [] && r.focus == NoFocus && r.view.content == view.content &&
      (r.view.showMenu <==> view.content == "" || view.showMenu) &&
      (r.preventDefault <==> view.content == "")
  {
  }

  /** Other keys are never intercepted. */
  lemma OtherKeysIgnored(block: Block, pageId: string, index: nat, rendered: nat, view: View,
                         ev: KeyPress, firstId: string, newId: string)
    requires ev.key == OtherKey
    ensures OnKeyDown(block, pageId, index, rendered, view, ev, firstId, newId) == Ignore(view)
  {
  }

  /** Typing into the placeholder adds one block with a fresh id, the placeholder's type
      and the typed text, at the end of the page, and issues no update. */
  lemma TypingIntoPlaceholder(block: Block, pageId: string, view: View, newContent: string, freshId: string,
                              pages: seq<Page>, now: int)
    requires block.id == PlaceholderId
    ensures var r := OnChange(block, pageId, view, newContent, freshId);
      r.view.content == newContent &&
      (forall c :: c in r.commands ==> !c.UpdateBlockCmd?) &&
      ApplyAll(pages, r.commands, now) == AddBlockTo(pages, pageId, Block(freshId, block.blockType, newContent), now)
  {
    var r := OnChange(block, pageId, view, newContent, freshId);
    var p1 := AddBlockTo(pages, pageId, Block(freshId, block.blockType, newContent), now);
    assert ApplyAll(p1, [], now) == p1;
  }

  /** `c` is `b` with its content replaced by `text` when `b` has id `id`, else `b` itself. */
  predicate ContentOnlyChange(b: Block, c: Block, id: string, text: string) {
    c.id == b.id && c.blockType == b.blockType && c.content == (if b.id == id then text else b.content)
  }

  /** Typing into a real block changes that block's content and nothing else about the
      blocks: their number, order, ids and types stay. */
  lemma TypingIntoBlock(block: Block, pageId: string, view: View, newContent: string, freshId: string,
                        pages: seq<Page>, now: int)
    requires block.id != PlaceholderId
    ensures var r := OnChange(block, pageId, view, newContent, freshId);
      var after := ApplyAll(pages, r.commands, now);
      r.view.content == newContent && |after| == |pages| &&
      forall i :: 0 <= i < |pages| ==>
        (pages[i].id != pageId ==> after[i] == pages[i]) &&
        (pages[i].id == pageId ==> (|after[i].blocks| == |pages[i].blocks| &&
          forall k :: 0 <= k < |pages[i].blocks| ==> ContentOnlyChange(pages[i].blocks[k], after[i].blocks[k], block.id, newContent)))
  {
    var r := OnChange(block, pageId, view, newContent, freshId);
    var p1 := UpdateBlockIn(pages, pageId, block.id, ContentPatch(newContent), now);
    assert ApplyAll(pages, r.commands, now) == p1 by {
      assert ApplyAll(p1, [], now) == p1;
    }
  }

  /** Re-typing the placeholder updates a block id that no real block has, so the blocks
      of every page stay exactly as they were (only the page's `updatedAt` moves). */
  lemma RetypePlaceholderKeepsBlocks(block: Block, pageId: string, view: View, t: BlockType,
                                     pages: seq<Page>, now: int)
    requires block.id == PlaceholderId
    requires forall i :: 0 <= i < |pages| ==> PlaceholderId !in BlockIds(pages[i].blocks)
    ensures var after := ApplyAll(pages, OnTypeChange(block, pageId, view, t).commands, now);
      |after| == |pages| && forall i :: 0 <= i < |pages| ==> after[i].blocks == pages[i].blocks
  {
    var p1 := UpdateBlockIn(pages, pageId, block.id, TypePatch(t), now);
    assert ApplyAll(pages, OnTypeChange(block, pageId, view, t).commands, now) == p1 by {
      assert ApplyAll(p1, [], now) == p1;
    }
    forall i | 0 <= i < |pages| ensures p1[i].blocks == pages[i].blocks {
      if pages[i].id == pageId {
        UpdateMissingBlock(pages[i].blocks, block.id, TypePatch(t));
      }
    }
  }
}
