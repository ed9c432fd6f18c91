// The line structure of src/ui/components/markdownRender.ts: the block loop and the recursive
// list parser. What the line patterns match is taken as given.
module Markdown {
  import opened Options

  // ---- Lines, by what the patterns say of them ----

  datatype Fence = Fence(tick: bool, length: nat)

  datatype Line = Line(
    blank: bool,
    indent: nat,
    item: Option<bool>,    // a list item, ordered or not
    opener: Option<Fence>, // opens a fence
    closer: Option<Fence>, // closes a fence of this kind and at most this length
    ticks: bool,           // starts with three back ticks
    heading: bool,
    quote: bool,
    rule: bool,
    pipe: bool,            // holds a pipe
    separator: bool,       // is a table separator row
    blockStart: bool)      // starts a new block

  // The item pattern needs a marker, so no blank line matches it.
  ghost predicate Consistent(lines: seq<Line>) {
    forall k :: 0 <= k < |lines| && lines[k].item.Some? ==> !lines[k].blank
  }

  // ---- What is rendered ----

  // An item's text is the item line and its continuation lines; nested lists come after it.
  datatype List = List(ordered: bool, items: seq<Item>)

  datatype Item = Item(texts: seq<nat>, children: seq<List>)

  datatype Kind = FenceBlock | Heading | Table | Quote | Rule | ListBlock | Paragraph

  // A block, the lines it takes and, for a list, its items.
  datatype Block = Block(kind: Kind, start: nat, end: nat, list: Option<List>)

  // ---- The lines of a list ----

  function ListLines(list: List): multiset<nat>
    decreases list
  {
    ItemsLines(list.items)
  }

  function ListsLines(lists: seq<List>): multiset<nat>
    decreases lists
  {
    if lists == [] then multiset{}
    else ListsLines(lists[..|lists| - 1]) + ListLines(lists[|lists| - 1])
  }

  function ItemLines(item: Item): multiset<nat>
    decreases item
  {
    multiset(item.texts) + ListsLines(item.children)
  }

  function ItemsLines(items: seq<Item>): multiset<nat>
    decreases items
  {
    if items == [] then multiset{}
    else ItemsLines(items[..|items| - 1]) + ItemLines(items[|items| - 1])
  }

  // The lines from a to b that are not blank, once each.
  function Texts(lines: seq<Line>, a: nat, b: nat): multiset<nat>
    requires a <= b <= |lines|
  {
    if a == b then multiset{}
    else Texts(lines, a, b - 1) + if lines[b - 1].blank then multiset{} else multiset{b - 1}
  }

  lemma {:induction false} TextsJoin(lines: seq<Line>, a: nat, b: nat, c: nat)
    requires a <= b <= c <= |lines|
    ensures Texts(lines, a, c) == Texts(lines, a, b) + Texts(lines, b, c)
  {
    if b < c {
      TextsJoin(lines, a, b, c - 1);
    }
  }

  ghost predicate AllBlank(lines: seq<Line>, a: nat, b: nat)
    requires b <= |lines|
  {
    forall k :: a <= k < b ==> lines[k].blank
  }

  lemma {:induction false} BlankHasNoTexts(lines: seq<Line>, a: nat, b: nat)
    requires a <= b <= |lines| && AllBlank(lines, a, b)
    ensures Texts(lines, a, b) == multiset{}
  {
    if a < b {
      BlankHasNoTexts(lines, a, b - 1);
    }
  }

  // ---- The recursive list parser ----

  function Distance(a: nat, b: nat): nat {
    if a <= b then b - a else a - b
  }

  // The line is an item of a list with this indent and kind.
  predicate IsSibling(line: Line, indent: nat, ordered: bool) {
    line.item.Some? && Distance(line.indent, indent) <= 1 && line.item.value == ordered
  }

  // ---- How lines belong to items ----

  // Line k goes on the text of an item of a list with this indent.
  predicate GoesOn(lines: seq<Line>, k: nat, indent: nat) {
    k < |lines| && !lines[k].blank && lines[k].item.None? && (lines[k].indent > indent || !lines[k].blockStart)
  }

  // A nested list starts at an item that is indented by more than one beyond its parent's.
  predicate NestedUnder(lines: seq<Line>, list: List, indent: nat)
    decreases list, 1
  {
    NestedList(lines, list) && lines[list.items[0].texts[0]].indent > indent + 1
  }

  predicate NestedItem(lines: seq<Line>, item: Item, indent: nat, ordered: bool)
    decreases item
  {
    && item.texts != [] && item.texts[0] < |lines| && IsSibling(lines[item.texts[0]], indent, ordered)
    && (forall k :: 1 <= k < |item.texts| ==> GoesOn(lines, item.texts[k], indent))
    && (forall k :: 0 <= k < |item.children| ==> NestedUnder(lines, item.children[k], indent))
  }

  // Every item of a list has the kind of the first one, and about its indent.
  predicate NestedList(lines: seq<Line>, list: List)
    decreases list, 0
  {
    && list.items != [] && list.items[0].texts != [] && list.items[0].texts[0] < |lines|
    && var indent := lines[list.items[0].texts[0]].indent;
       forall k :: 0 <= k < |list.items| ==> NestedItem(lines, list.items[k], indent, list.ordered)
  }

  // Nothing at line k goes on an item: the next line that is not blank is an item of this
  // or an outer list, or starts another block no further in than the item.
  ghost predicate Stops(lines: seq<Line>, k: nat, indent: nat, ordered: bool) {
    k < |lines| ==>
      if lines[k].blank then
        forall j :: k < j < |lines| && AllBlank(lines, k, j) && !lines[j].blank ==>
          !IsSibling(lines[j], indent, ordered) && lines[j].indent <= indent + 1
      else if lines[k].item.Some? then lines[k].indent <= indent + 1
      else lines[k].indent <= indent && lines[k].blockStart
  }

  lemma StopsAtBlank(lines: seq<Line>, k: nat, j: nat, indent: nat, ordered: bool)
    requires k < j < |lines| && lines[k].blank && AllBlank(lines, k, j) && !lines[j].blank
    requires !IsSibling(lines[j], indent, ordered) && lines[j].indent <= indent + 1
    ensures Stops(lines, k, indent, ordered)
  {
    hide IsSibling;
    forall m | k < m < |lines| && AllBlank(lines, k, m) && !lines[m].blank
      ensures m == j
    {}
  }

  method SkipBlank(lines: seq<Line>, from: nat) returns (next: nat)
    requires from <= |lines|
    ensures from <= next <= |lines| && AllBlank(lines, from, next)
    ensures next < |lines| ==> !lines[next].blank
  {
    next := from;
    while next < |lines| && lines[next].blank
      invariant from <= next <= |lines| && AllBlank(lines, from, next)
    {
      next := next + 1;
    }
  }

  lemma TextsSkip(lines: seq<Line>, a: nat, b: nat, c: nat)
    requires a <= b <= c <= |lines| && AllBlank(lines, b, c)
    ensures Texts(lines, a, c) == Texts(lines, a, b)
  {
    TextsJoin(lines, a, b, c);
    BlankHasNoTexts(lines, b, c);
  }

  // What has been gathered of an item, up to line i.
  ghost predicate InItem(lines: seq<Line>, item: Item, indent: nat, ordered: bool, start: nat, i: nat) {
    && start < i <= |lines|
    && ItemLines(item) == Texts(lines, start, i)
    && NestedItem(lines, item, indent, ordered) && item.texts[0] == start
  }

  lemma ItemStarts(lines: seq<Line>, start: nat, indent: nat, ordered: bool)
    requires start < |lines| && IsSibling(lines[start], indent, ordered) && Consistent(lines)
    ensures InItem(lines, Item([start], []), indent, ordered, start, start + 1)
  {
    assert Texts(lines, start, start) == multiset{};
  }

  function AddText(item: Item, i: nat): Item {
    item.(texts := item.texts + [i])
  }

  function AddChild(item: Item, list: List): Item {
    item.(children := item.children + [list])
  }

  lemma ItemGoesOn(lines: seq<Line>, item: Item, indent: nat, ordered: bool, start: nat, i: nat)
    requires InItem(lines, item, indent, ordered, start, i) && GoesOn(lines, i, indent)
    ensures InItem(lines, AddText(item, i), indent, ordered, start, i + 1)
  {
    hide NestedUnder;
  }

  lemma ListsMore(lists: seq<List>, list: List)
    ensures ListsLines(lists + [list]) == ListsLines(lists) + ListLines(list)
  {
    assert (lists + [list])[..|lists|] == lists;
  }

  lemma ChildLines(item: Item, list: List)
    ensures ItemLines(AddChild(item, list)) == ItemLines(item) + ListLines(list)
  {
    ListsMore(item.children, list);
    hide ListLines, ListsLines;
  }

  lemma ChildNests(lines: seq<Line>, item: Item, indent: nat, ordered: bool, list: List)
    requires NestedItem(lines, item, indent, ordered) && NestedUnder(lines, list, indent)
    ensures NestedItem(lines, AddChild(item, list), indent, ordered)
  {
    hide NestedUnder, GoesOn;
  }

  lemma ItemNests(lines: seq<Line>, item: Item, indent: nat, ordered: bool, start: nat, i: nat, list: List, end: nat)
    requires InItem(lines, item, indent, ordered, start, i) && i < end <= |lines|
    requires ListLines(list) == Texts(lines, i, end) && NestedUnder(lines, list, indent)
    ensures InItem(lines, AddChild(item, list), indent, ordered, start, end)
  {
    TextsJoin(lines, start, i, end);
    ChildLines(item, list);
    ChildNests(lines, item, indent, ordered, list);
    hide Texts, ItemLines, ListLines, NestedItem, NestedUnder;
  }

  lemma ItemSkips(lines: seq<Line>, item: Item, indent: nat, ordered: bool, start: nat, i: nat, j: nat)
    requires InItem(lines, item, indent, ordered, start, i) && i <= j <= |lines| && AllBlank(lines, i, j)
    ensures InItem(lines, item, indent, ordered, start, j)
  {
    TextsSkip(lines, start, i, j);
    hide ItemLines, NestedItem;
  }

  // What has been gathered of a list, up to line i.
  ghost predicate InList(lines: seq<Line>, list: List, indent: nat, start: nat, i: nat) {
    && start < i <= |lines|
    && ListLines(list) == Texts(lines, start, i)
    && list.items != []
    && (forall k :: 0 <= k < |list.items| ==> NestedItem(lines, list.items[k], indent, list.ordered))
    && list.items[0].texts[0] == start
  }

  lemma ItemsMore(items: seq<Item>, item: Item)
    ensures ItemsLines(items + [item]) == ItemsLines(items) + ItemLines(item)
  {
    assert (items + [item])[..|items|] == items;
  }

  lemma ListStarts(lines: seq<Line>, item: Item, indent: nat, ordered: bool, start: nat, i: nat)
    requires InItem(lines, item, indent, ordered, start, i)
    ensures InList(lines, List(ordered, [item]), indent, start, i)
  {
    ItemsMore([], item);
    assert [] + [item] == [item];
    hide ItemLines, NestedItem;
  }

  lemma ListGoesOn(lines: seq<Line>, list: List, indent: nat, start: nat, i: nat, item: Item, end: nat)
    requires InList(lines, list, indent, start, i) && InItem(lines, item, indent, list.ordered, i, end)
    ensures InList(lines, List(list.ordered, list.items + [item]), indent, start, end)
  {
    hide Texts, ItemLines, ItemsLines, NestedItem;
    TextsJoin(lines, start, i, end);
    ItemsMore(list.items, item);
  }

  lemma ListIsNested(lines: seq<Line>, list: List, start: nat, i: nat)
    requires start < |lines| && InList(lines, list, lines[start].indent, start, i)
    ensures NestedList(lines, list)
  {
    assert NestedItem(lines, list.items[0], lines[start].indent, list.ordered);
  }

  // One item: its own line, then what belongs to it.
  method RenderItem(lines: seq<Line>, start: nat, indent: nat, ordered: bool) returns (item: Item, next: nat)
    requires start < |lines| && IsSibling(lines[start], indent, ordered) && Consistent(lines)
    ensures InItem(lines, item, indent, ordered, start, next)
    ensures Stops(lines, next, indent, ordered)
    decreases |lines| - start, 0
  {
    item := Item([start], []);
    var i := start + 1;
    ItemStarts(lines, start, indent, ordered);
    hide Texts, ListLines, NestedItem, NestedList, AllBlank, AddText, AddChild, IsSibling;
    while i < |lines|
      invariant start < i <= |lines| && InItem(lines, item, indent, ordered, start, i)
      decreases |lines| - i
    {
      var line := lines[i];
      if line.blank {
        var j := SkipBlank(lines, i);
        if j >= |lines| {
          ItemSkips(lines, item, indent, ordered, start, i, j);
          i := j;
          break;
        }
        if IsSibling(lines[j], indent, ordered) || lines[j].indent > indent + 1 {
          ItemSkips(lines, item, indent, ordered, start, i, j);
          i := j;
          continue;
        }
        StopsAtBlank(lines, i, j, indent, ordered);
        break;
      }
      if line.item.Some? {
        if line.indent > indent + 1 {
          var nested, after := RenderList(lines, i);
          ItemNests(lines, item, indent, ordered, start, i, nested, after);
          item := AddChild(item, nested);
          i := after;
          continue;
        }
        break;
      }
      if line.indent > indent || !line.blockStart {
        ItemGoesOn(lines, item, indent, ordered, start, i);
        item := AddText(item, i);
        i := i + 1;
        continue;
      }
      break;
    }
    next := i;
  }

  method RenderList(lines: seq<Line>, start: nat) returns (list: List, next: nat)
    requires start < |lines| && lines[start].item.Some? && Consistent(lines)
    ensures start < next <= |lines|
    ensures ListLines(list) == Texts(lines, start, next)
    ensures NestedList(lines, list) && list.items[0].texts[0] == start
    ensures Stops(lines, next, lines[start].indent, lines[start].item.value)
    ensures next < |lines| ==> !IsSibling(lines[next], lines[start].indent, lines[start].item.value)
    decreases |lines| - start, 1
  {
    var indent, ordered := lines[start].indent, lines[start].item.value;
    var items: seq<Item> := [];
    var i := start;
    while i < |lines|
      invariant start <= i <= |lines|
      invariant i == start <==> items == []
      invariant items != [] ==> InList(lines, List(ordered, items), indent, start, i)
      invariant items != [] ==> Stops(lines, i, indent, ordered)
      decreases |lines| - i
    {
      hide Texts, ListLines, NestedItem, InList;
      if !IsSibling(lines[i], indent, ordered) {
        break;
      }
      var item, after := RenderItem(lines, i, indent, ordered);
      if items == [] {
        ListStarts(lines, item, indent, ordered, start, after);
        assert items + [item] == [item];
      } else {
        ListGoesOn(lines, List(ordered, items), indent, start, i, item, after);
      }
      items := items + [item];
      i := after;
    }
    list, next := List(ordered, items), i;
    ListIsNested(lines, list, start, next);
    hide NestedList, NestedItem, Texts, ListLines;
  }

  // ---- The block loop ----

  predicate LikelyTable(lines: seq<Line>, i: nat) {
    i + 1 < |lines| && lines[i].pipe && lines[i + 1].separator
  }

  // What a block that starts at line i is: the first pattern that applies, in this order.
  function KindAt(lines: seq<Line>, i: nat): Kind
    requires i < |lines|
  {
    if lines[i].opener.Some? then FenceBlock
    else if lines[i].heading then Heading
    else if LikelyTable(lines, i) then Table
    else if lines[i].quote then Quote
    else if lines[i].rule then Rule
    else if lines[i].item.Some? then ListBlock
    else Paragraph
  }

  predicate Closes(open: Fence, line: Line) {
    line.closer.Some? && line.closer.value.tick == open.tick && open.length <= line.closer.value.length
  }

  // Line k goes on a block of this kind.
  predicate Continues(lines: seq<Line>, kind: Kind, k: nat)
    requires k < |lines|
  {
    match kind
    case Table => !lines[k].blank && lines[k].pipe && !lines[k].ticks
    case Quote => lines[k].quote
    case Paragraph => !lines[k].blank && !LikelyTable(lines, k) && !lines[k].blockStart && !lines[k].rule
    case _ => false
  }

  // How many lines a block takes before it looks for more.
  function Lead(kind: Kind): nat {
    if kind == Table then 2 else if kind == Quote then 0 else 1
  }

  // The block takes exactly the lines that its kind says: up to the first line that closes
  // a fence, or the first that does not go on a table, quote or paragraph; and a list renders
  // every line it takes, but for blank ones, exactly once, and stops only where nothing goes on
  // its last item and no further item follows.
  ghost predicate TakesItsLines(lines: seq<Line>, b: Block) {
    && b.start < b.end <= |lines|
    && b.kind == KindAt(lines, b.start)
    && (b.kind != FenceBlock ==> !lines[b.start].blank)
    && (b.list.Some? <==> b.kind == ListBlock)
    && match b.kind
       case ListBlock =>
         && ListLines(b.list.value) == Texts(lines, b.start, b.end)
         && NestedList(lines, b.list.value) && b.list.value.items[0].texts[0] == b.start
         && var indent, ordered := lines[b.start].indent, lines[b.start].item.value;
            Stops(lines, b.end, indent, ordered) && (b.end < |lines| ==> !IsSibling(lines[b.end], indent, ordered))
       case FenceBlock =>
         var open := lines[b.start].opener.value;
         && (forall k :: b.start < k < b.end - 1 ==> !Closes(open, lines[k]))
         && ((b.start + 1 < b.end && Closes(open, lines[b.end - 1])) || b.end == |lines|)
       case _ =>
         && b.start + Lead(b.kind) <= b.end
         && (forall k :: b.start + Lead(b.kind) <= k < b.end ==> Continues(lines, b.kind, k))
         && (b.end < |lines| ==> !Continues(lines, b.kind, b.end))
  }

  // The blocks follow each other, with nothing but blank lines between them.
  ghost predicate Tile(lines: seq<Line>, blocks: seq<Block>, end: nat)
    requires end <= |lines|
  {
    if blocks == [] then AllBlank(lines, 0, end)
    else
      var last := blocks[|blocks| - 1];
      && TakesItsLines(lines, last)
      && last.end <= end && AllBlank(lines, last.end, end)
      && Tile(lines, blocks[..|blocks| - 1], last.start)
  }

  method TakeFence(lines: seq<Line>, start: nat) returns (end: nat)
    requires start < |lines| && lines[start].opener.Some?
    ensures TakesItsLines(lines, Block(FenceBlock, start, end, None))
  {
    var open := lines[start].opener.value;
    end := start + 1;
    while end < |lines| && !Closes(open, lines[end])
      invariant start < end <= |lines|
      invariant forall k :: start < k < end ==> !Closes(open, lines[k])
    {
      end := end + 1;
    }
    if end < |lines| {
      end := end + 1;
    }
  }

  method TakeMore(lines: seq<Line>, kind: Kind, from: nat) returns (end: nat)
    requires from <= |lines|
    ensures from <= end <= |lines|
    ensures forall k :: from <= k < end ==> Continues(lines, kind, k)
    ensures end < |lines| ==> !Continues(lines, kind, end)
  {
    end := from;
    while end < |lines| && Continues(lines, kind, end)
      invariant from <= end <= |lines|
      invariant forall k :: from <= k < end ==> Continues(lines, kind, k)
    {
      end := end + 1;
    }
  }

  lemma TileMore(lines: seq<Line>, blocks: seq<Block>, b: Block)
    requires b.start <= |lines| && Tile(lines, blocks, b.start) && TakesItsLines(lines, b)
    ensures Tile(lines, blocks + [b], b.end)
  {
    assert (blocks + [b])[..|blocks|] == blocks;
    hide TakesItsLines;
  }

  method RenderBlock(lines: seq<Line>, i: nat) returns (block: Block)
    requires Consistent(lines) && i < |lines| && (lines[i].blank ==> lines[i].opener.Some?)
    ensures block.start == i && TakesItsLines(lines, block)
  {
    hide ListLines, Texts, Closes;
    var line := lines[i];
    if line.opener.Some? {
      var end := TakeFence(lines, i);
      return Block(FenceBlock, i, end, None);
    }
    if line.heading {
      return Block(Heading, i, i + 1, None);
    }
    if LikelyTable(lines, i) {
      var end := TakeMore(lines, Table, i + 2);
      return Block(Table, i, end, None);
    }
    if line.quote {
      var end := TakeMore(lines, Quote, i);
      return Block(Quote, i, end, None);
    }
    if line.rule {
      return Block(Rule, i, i + 1, None);
    }
    if line.item.Some? {
      var list, end := RenderList(lines, i);
      return Block(ListBlock, i, end, Some(list));
    }
    var end := TakeMore(lines, Paragraph, i + 1);
    return Block(Paragraph, i, end, None);
  }

  lemma TakesSome(lines: seq<Line>, b: Block)
    requires TakesItsLines(lines, b)
    ensures b.start < b.end <= |lines|
  {}

  // Every line of every source ends up in exactly one block, in order, or is a blank line
  // between two of them.
  method RenderBlocks(lines: seq<Line>) returns (blocks: seq<Block>)
    requires Consistent(lines)
    ensures Tile(lines, blocks, |lines|)
  {
    hide TakesItsLines;
    blocks := [];
    var i := 0;
    while i < |lines|
      invariant 0 <= i <= |lines|
      invariant Tile(lines, blocks, i)
      decreases |lines| - i
    {
      if lines[i].opener.None? && lines[i].blank {
        i := i + 1;
        continue;
      }
      var block := RenderBlock(lines, i);
      TakesSome(lines, block);
      TileMore(lines, blocks, block);
      blocks := blocks + [block];
      i := block.end;
    }
  }

  // In a tiling, every line that is not blank is taken by one block, and by one only.
  predicate Takes(b: Block, k: nat) {
    b.start <= k < b.end
  }

  lemma {:induction false} BlocksEnd(lines: seq<Line>, blocks: seq<Block>, end: nat)
    requires end <= |lines| && Tile(lines, blocks, end)
    ensures forall q :: 0 <= q < |blocks| ==> blocks[q].start < blocks[q].end <= end
    ensures forall q, r :: 0 <= q < r < |blocks| ==> blocks[q].end <= blocks[r].start
  {
    if blocks != [] {
      var n := |blocks| - 1;
      assert forall q :: 0 <= q < n ==> blocks[..n][q] == blocks[q];
      BlocksEnd(lines, blocks[..n], blocks[n].start);
    }
  }

  lemma {:induction false} TakenOnce(lines: seq<Line>, blocks: seq<Block>, end: nat, k: nat) returns (p: nat)
    requires end <= |lines| && Tile(lines, blocks, end) && k < end
    ensures lines[k].blank || (p < |blocks| && Takes(blocks[p], k))
    ensures forall q, r :: 0 <= q < |blocks| && 0 <= r < |blocks| && Takes(blocks[q], k) && Takes(blocks[r], k) ==>
      q == r
    ensures forall q :: 0 <= q < |blocks| ==> blocks[q].end <= end
  {
    p := 0;
    if blocks != [] {
      var n := |blocks| - 1;
      var last := blocks[n];
      hide TakesItsLines;
      assert forall q :: 0 <= q < n ==> blocks[..n][q] == blocks[q];
      BlocksEnd(lines, blocks, end);
      if k >= last.start {
        p := n;
      } else {
        p := TakenOnce(lines, blocks[..n], last.start, k);
      }
    }
  }
}
