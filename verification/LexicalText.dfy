/** The renderer of Lexical trees keeps the text of the leaves, in document order. */
module LexicalText {
  import opened Lexical

  /** How a node is reached: rendered itself, laid out as a row or a cell of a table, or never looked at. */
  datatype Place = Plain | Row | Cell | Gone

  /** Where a node is: how it is reached, and whether inside a cell. */
  datatype At = At(place: Place, inCell: bool)

  datatype Found = Found(text: string, at: At)

  function PlaceOf(parent: Node, place: Place, child: Node): Place {
    match place
    case Row => Cell
    case Cell => Plain
    case Gone => Gone
    case Plain =>
      match parent.kind
      case TextLeaf => Gone
      case Rule => Gone
      case ListNode => if child.kind == ListItem then Plain else Gone
      case TableNode => if child.kind == TableRow then Row else Gone
      case Root => Plain
      case Paragraph => Plain
      case ListItem => Plain
      case TableRow => Plain
      case LinkNode => Plain
      case Other => Plain
  }

  /** Every child of a row is a cell. */
  function Below(parent: Node, at: At, child: Node): At {
    At(PlaceOf(parent, at.place, child), at.inCell || at.place == Row)
  }

  const Outside := At(Plain, false)

  /** Every text node of a tree once, in document order, with how it is reached. */
  function Leaves(node: Node, at: At): seq<Found>
    decreases node, 1
  {
    Own(node, at) + LeavesIn(node, |node.children|, at)
  }

  function Own(node: Node, at: At): seq<Found> {
    if node.kind == TextLeaf then [Found(node.text, at)] else []
  }

  function LeavesIn(node: Node, n: nat, at: At): seq<Found>
    requires n <= |node.children|
    decreases node, 0, n
  {
    if n == 0 then []
    else
      LeavesIn(node, n - 1, at) + Leaves(node.children[n - 1], Below(node, at, node.children[n - 1]))
  }

  /** The texts, among the first `n`, of the nodes that are rendered themselves; without newlines in cells. */
  function Shown(found: seq<Found>, n: nat): seq<string>
    requires n <= |found|
  {
    if n == 0 then [] else Shown(found, n - 1) + ShownOne(found[n - 1])
  }

  function ShownOne(leaf: Found): seq<string> {
    if leaf.at.place == Plain then [if leaf.at.inCell then Flat(leaf.text) else leaf.text] else []
  }

  function ShownAll(found: seq<Found>): seq<string> {
    Shown(found, |found|)
  }

  /** The texts that the first `n` writes wrote for leaves. */
  function Texts(ts: seq<Token>, n: nat): seq<string>
    requires n <= |ts|
  {
    if n == 0 then [] else Texts(ts, n - 1) + TextOfOne(ts[n - 1])
  }

  function TextOfOne(t: Token): seq<string> {
    if t.role == Leaf then [t.s] else []
  }

  /** What is shown of the leaves of a tree, and of those below its first `n` children. */
  function Kept(node: Node, at: At): seq<string>
    decreases node, 1
  {
    OwnKept(node, at) + KeptIn(node, |node.children|, at)
  }

  function OwnKept(node: Node, at: At): seq<string> {
    if node.kind == TextLeaf then ShownOne(Found(node.text, at)) else []
  }

  function KeptIn(node: Node, n: nat, at: At): seq<string>
    requires n <= |node.children|
    decreases node, 0, n
  {
    if n == 0 then []
    else
      KeptIn(node, n - 1, at) + Kept(node.children[n - 1], Below(node, at, node.children[n - 1]))
  }

  /** The texts of leaves that a document writes. */
  function DocTexts(d: Doc): seq<string> {
    match d
    case Nil => []
    case One(t) => TextOfOne(t)
    case Many(ts) => Texts(ts, |ts|)
    case Cat(left, right) => DocTexts(left) + DocTexts(right)
  }

  function FlatAll(ss: seq<string>): (r: seq<string>)
    ensures |r| == |ss| && forall i :: 0 <= i < |ss| ==> r[i] == Flat(ss[i])
  {
    seq(|ss|, i requires 0 <= i < |ss| => Flat(ss[i]))
  }

  // ---------------------------------------------------------------- pieces

  lemma {:induction false} ShownPrefix(a: seq<Found>, b: seq<Found>, n: nat)
    requires n <= |a|
    ensures Shown(a + b, n) == Shown(a, n)
  {
    if n > 0 {
      ShownPrefix(a, b, n - 1);
    }
  }

  lemma {:induction false} ShownJoins(a: seq<Found>, b: seq<Found>, n: nat)
    requires n <= |b|
    ensures Shown(a + b, |a| + n) == Shown(a, |a|) + Shown(b, n)
  {
    if n == 0 {
      ShownPrefix(a, b, |a|);
    } else {
      ShownJoins(a, b, n - 1);
      assert (a + b)[|a| + n - 1] == b[n - 1];
    }
  }

  lemma {:induction false} TextsPrefix(a: seq<Token>, b: seq<Token>, n: nat)
    requires n <= |a|
    ensures Texts(a + b, n) == Texts(a, n)
  {
    if n > 0 {
      TextsPrefix(a, b, n - 1);
    }
  }

  lemma {:induction false} TextsJoin(a: seq<Token>, b: seq<Token>, n: nat)
    requires n <= |b|
    ensures Texts(a + b, |a| + n) == Texts(a, |a|) + Texts(b, n)
  {
    if n == 0 {
      TextsPrefix(a, b, |a|);
    } else {
      TextsJoin(a, b, n - 1);
      assert (a + b)[|a| + n - 1] == b[n - 1];
    }
  }

  lemma {:induction false} TextsOfDoc(d: Doc)
    ensures Texts(Flatten(d), |Flatten(d)|) == DocTexts(d)
  {
    match d
    case Nil =>
    case One(t) => assert Texts([t], 0) == [];
    case Many(ts) =>
    case Cat(left, right) =>
      TextsOfDoc(left);
      TextsOfDoc(right);
      AllTextsJoin(Flatten(left), Flatten(right));
  }

  lemma AllTextsJoin(a: seq<Token>, b: seq<Token>)
    ensures Texts(a + b, |a + b|) == Texts(a, |a|) + Texts(b, |b|)
  {
    TextsJoin(a, b, |b|);
  }

  lemma {:induction false} TextsOfClean(ts: seq<Token>, n: nat)
    requires n <= |ts|
    ensures Texts(Clean(ts), n) == FlatAll(Texts(ts, n))
  {
    if n > 0 {
      TextsOfClean(ts, n - 1);
    }
  }

  lemma TextsOfWrap(on: bool, tag: Tag, opening: string, inner: Doc, closing: string)
    ensures DocTexts(Wrap(on, tag, opening, inner, closing)) == DocTexts(inner)
  {
    assert DocTexts(Cat(inner, Mark(on, Closes(tag), closing))) == DocTexts(inner);
  }

  lemma TextsOfText(node: Node)
    ensures DocTexts(TextOf(node)) == [node.text]
  {
    var leaf := One(Token(Leaf, node.text));
    var strike := Wrap(Has(node, Strike), Strike, "~~", leaf, "~~");
    TextsOfWrap(Has(node, Strike), Strike, "~~", leaf, "~~");
    var underline := Wrap(Has(node, Underline), Underline, "<u>", strike, "</u>");
    TextsOfWrap(Has(node, Underline), Underline, "<u>", strike, "</u>");
    var italic := Wrap(Has(node, Italic), Italic, "_", underline, "_");
    TextsOfWrap(Has(node, Italic), Italic, "_", underline, "_");
    var bold := Wrap(Has(node, Bold), Bold, "**", italic, "**");
    TextsOfWrap(Has(node, Bold), Bold, "**", italic, "**");
    var code := Wrap(Has(node, Code), Code, "`", bold, "`");
    TextsOfWrap(Has(node, Code), Code, "`", bold, "`");
    TextsOfWrap(node.openTag != "", Span, node.openTag, code, "</span>");
  }

  lemma ShownAllJoins(a: seq<Found>, b: seq<Found>)
    ensures ShownAll(a + b) == ShownAll(a) + ShownAll(b)
  {
    ShownJoins(a, b, |b|);
  }

  lemma ShownSingle(leaf: Found)
    ensures ShownAll([leaf]) == ShownOne(leaf)
  {
    assert Shown([leaf], 0) == [];
  }

  lemma {:induction false} KeptIsShown(node: Node, at: At)
    ensures Kept(node, at) == ShownAll(Leaves(node, at))
    decreases node, 1
  {
    KeptInIsShown(node, |node.children|, at);
    ShownAllJoins(Own(node, at), LeavesIn(node, |node.children|, at));
    ShownSingle(Found(node.text, at));
    assert OwnKept(node, at) == ShownAll(Own(node, at));
  }

  lemma {:induction false} KeptInIsShown(node: Node, n: nat, at: At)
    requires n <= |node.children|
    ensures KeptIn(node, n, at) == ShownAll(LeavesIn(node, n, at))
    decreases node, 0, n
  {
    if n > 0 {
      var child := node.children[n - 1];
      var before, last := LeavesIn(node, n - 1, at), Leaves(child, Below(node, at, child));
      KeptInIsShown(node, n - 1, at);
      KeptIsShown(child, Below(node, at, child));
      calc {
        KeptIn(node, n, at);
        KeptIn(node, n - 1, at) + Kept(child, Below(node, at, child));
        ShownAll(before) + ShownAll(last);
        { ShownAllJoins(before, last); }
        ShownAll(before + last);
        ShownAll(LeavesIn(node, n, at));
      }
    }
  }

  // ---------------------------------------------------------------- what is not looked at, and cells

  /** Nothing below a node that is never looked at is shown. */
  lemma {:induction false} GoneIsNotKept(node: Node, at: At)
    requires at.place == Gone
    ensures Kept(node, at) == []
    decreases node, 1
  {
    GoneBelow(node, |node.children|, at);
  }

  lemma {:induction false} GoneBelow(node: Node, n: nat, at: At)
    requires n <= |node.children|
    requires forall i :: 0 <= i < n ==> PlaceOf(node, at.place, node.children[i]) == Gone
    ensures KeptIn(node, n, at) == []
    decreases node, 0, n
  {
    if n > 0 {
      GoneBelow(node, n - 1, at);
      GoneIsNotKept(node.children[n - 1], Below(node, at, node.children[n - 1]));
    }
  }

  /** What is shown inside a cell is what would be shown outside, without newlines. */
  lemma {:induction false} KeptInCell(node: Node, at: At)
    ensures Kept(node, At(at.place, true)) == FlatAll(Kept(node, at))
    decreases node, 1
  {
    KeptInCellBelow(node, |node.children|, at);
    OwnInCell(node, at);
    FlatJoins(OwnKept(node, at), KeptIn(node, |node.children|, at));
  }

  lemma {:induction false} KeptInCellBelow(node: Node, n: nat, at: At)
    requires n <= |node.children|
    ensures KeptIn(node, n, At(at.place, true)) == FlatAll(KeptIn(node, n, at))
    decreases node, 0, n
  {
    if n > 0 {
      var child := node.children[n - 1];
      var below := Below(node, at, child);
      KeptInCellBelow(node, n - 1, at);
      KeptInCell(child, below);
      assert Below(node, At(at.place, true), child) == At(below.place, true);
      FlatJoins(KeptIn(node, n - 1, at), Kept(child, below));
    }
  }

  lemma OwnInCell(node: Node, at: At)
    ensures OwnKept(node, At(at.place, true)) == FlatAll(OwnKept(node, at))
  {
    assert Flat(Flat(node.text)) == Flat(node.text);
  }

  lemma FlatJoins(a: seq<string>, b: seq<string>)
    ensures FlatAll(a + b) == FlatAll(a) + FlatAll(b)
  {
  }

  // ---------------------------------------------------------------- the text is kept

  /**
   The text written for leaves is, in document order, the text of the nodes that are rendered
   themselves: no leaf is written twice, moved or changed, except that newlines in cells become blanks.
   */
  lemma TextIsKeptInOrder(node: Node, depth: nat)
    ensures
      var ts, found := Flatten(Walk(node, depth)), Leaves(node, Outside);
      Texts(ts, |ts|) == ShownAll(found)
  {
    TextsOfDoc(Walk(node, depth));
    WalkKeepsText(node, depth);
    KeptIsShown(node, Outside);
  }

  lemma {:induction false} WalkKeepsText(node: Node, depth: nat)
    ensures DocTexts(Walk(node, depth)) == Kept(node, Outside)
    decreases node, 3
  {
    var n := |node.children|;
    match node.kind {
      case Root => KidsKeepText(node, n, depth, One(Newline), Plain);
      case Paragraph =>
        KidsKeepText(node, n, depth, Nil, Plain);
        ParagraphKeepsText(node, depth);
      case TextLeaf =>
        TextsOfText(node);
        GoneBelow(node, n, Outside);
      case ListNode => ListKeepsText(node, depth);
      case TableNode =>
        RowsKeepText(node, n);
        GridKeepsText(Rows(node, n));
      case LinkNode =>
        KidsKeepText(node, n, 0, Nil, Plain);
        TextsOfWrap(true, Bracket, "[", Kids(node, n, 0, Nil), "](" + node.url + ")");
      case Rule => GoneBelow(node, n, Outside);
      case ListItem => KidsKeepText(node, n, depth, Nil, Plain);
      case TableRow => KidsKeepText(node, n, depth, Nil, Plain);
      case Other => KidsKeepText(node, n, depth, Nil, Plain);
    }
  }

  lemma ParagraphKeepsText(node: Node, depth: nat)
    ensures DocTexts(ParagraphOf(node, depth)) == DocTexts(Kids(node, |node.children|, depth, Nil))
  {
    TextsOfWrap(AlignOf(node) != "", Div, OpenDiv(node), Kids(node, |node.children|, depth, Nil), "</div>");
  }

  lemma {:induction false} KidsKeepText(node: Node, n: nat, depth: nat, tail: Doc, place: Place)
    requires n <= |node.children|
    requires DocTexts(tail) == []
    requires forall i :: 0 <= i < n ==> PlaceOf(node, place, node.children[i]) == Plain
    ensures DocTexts(Kids(node, n, depth, tail)) == KeptIn(node, n, At(place, false))
    decreases node, 1, n
  {
    if n > 0 {
      KidsKeepText(node, n - 1, depth, tail, place);
      WalkKeepsText(node.children[n - 1], depth);
      var before, last := Kids(node, n - 1, depth, tail), Walk(node.children[n - 1], depth);
      KidTexts(before, last, tail);
      assert KeptIn(node, n, At(place, false)) == DocTexts(before) + DocTexts(last);
    }
  }

  lemma KidTexts(before: Doc, kid: Doc, tail: Doc)
    requires DocTexts(tail) == []
    ensures DocTexts(Cat(before, Cat(kid, tail))) == DocTexts(before) + DocTexts(kid)
  {
    assert DocTexts(Cat(kid, tail)) == DocTexts(kid);
  }

  lemma {:induction false} ListKeepsText(list: Node, depth: nat)
    requires list.kind == ListNode
    ensures DocTexts(List(list, depth)) == Kept(list, Outside)
    decreases list, 2
  {
    ItemsKeepText(list, |list.children|, depth);
  }

  lemma {:induction false} ItemsKeepText(list: Node, n: nat, depth: nat)
    requires list.kind == ListNode && n <= |list.children|
    ensures DocTexts(Items(list, n, depth)) == KeptIn(list, n, Outside)
    decreases list, 1, n
  {
    if n > 0 {
      var item := list.children[n - 1];
      ItemsKeepText(list, n - 1, depth);
      if item.kind == ListItem {
        var marker := Marker(list, item, FirstIndex(list) + ItemsIn(list, n - 1));
        var content := ItemKids(item, |item.children|, depth);
        ItemKeepsText(item, depth);
        ItemTexts(Items(list, n - 1, depth), marker, depth, content);
        assert Items(list, n, depth) == Cat(Items(list, n - 1, depth), Item(marker, depth, content));
        assert KeptIn(list, n, Outside) == KeptIn(list, n - 1, Outside) + Kept(item, Outside);
      } else {
        GoneIsNotKept(item, At(Gone, false));
      }
    }
  }

  lemma {:induction false} ItemKeepsText(item: Node, depth: nat)
    requires item.kind == ListItem
    ensures DocTexts(ItemKids(item, |item.children|, depth)) == Kept(item, Outside)
    decreases item, 2
  {
    ItemKidsKeepText(item, |item.children|, depth);
  }

  lemma ItemTexts(before: Doc, marker: string, depth: nat, content: Doc)
    ensures DocTexts(Cat(before, Item(marker, depth, content))) == DocTexts(before) + DocTexts(content)
  {
    assert DocTexts(Cat(One(Token(Layout, Repeat("  ", depth))), One(Token(Layout, marker)))) == [];
    assert DocTexts(Cat(content, One(Newline))) == DocTexts(content);
  }

  lemma {:induction false} ItemKidsKeepText(item: Node, n: nat, depth: nat)
    requires item.kind == ListItem && n <= |item.children|
    ensures DocTexts(ItemKids(item, n, depth)) == KeptIn(item, n, Outside)
    decreases item, 1, n
  {
    if n > 0 {
      var child := item.children[n - 1];
      ItemKidsKeepText(item, n - 1, depth);
      if child.kind == ListNode {
        ListKeepsText(child, depth + 1);
        NestedTexts(ItemKids(item, n - 1, depth), List(child, depth + 1));
      } else {
        WalkKeepsText(child, depth);
      }
    }
  }

  lemma NestedTexts(before: Doc, nested: Doc)
    ensures DocTexts(Cat(before, Cat(One(Newline), nested))) == DocTexts(before) + DocTexts(nested)
  {
    assert DocTexts(Cat(One(Newline), nested)) == DocTexts(nested);
  }

  /** The texts of leaves in the first `n` cells of a row, and in the first `n` rows. */
  function RowTexts(row: seq<seq<Token>>, n: nat): seq<string>
    requires n <= |row|
  {
    if n == 0 then [] else RowTexts(row, n - 1) + Texts(row[n - 1], |row[n - 1]|)
  }

  function TableTexts(rows: seq<seq<seq<Token>>>, n: nat): seq<string>
    requires n <= |rows|
  {
    if n == 0 then [] else TableTexts(rows, n - 1) + RowTexts(rows[n - 1], |rows[n - 1]|)
  }

  function AllTexts(rows: seq<seq<seq<Token>>>): seq<string> {
    TableTexts(rows, |rows|)
  }

  lemma {:induction false} RowTextsPrefix(row: seq<seq<Token>>, cell: seq<Token>, n: nat)
    requires n <= |row|
    ensures RowTexts(row + [cell], n) == RowTexts(row, n)
  {
    if n > 0 {
      RowTextsPrefix(row, cell, n - 1);
    }
  }

  lemma {:induction false} TableTextsPrefix(rows: seq<seq<seq<Token>>>, row: seq<seq<Token>>, n: nat)
    requires n <= |rows|
    ensures TableTexts(rows + [row], n) == TableTexts(rows, n)
  {
    if n > 0 {
      TableTextsPrefix(rows, row, n - 1);
    }
  }

  lemma RowTextsAppend(row: seq<seq<Token>>, cell: seq<Token>)
    ensures RowTexts(row + [cell], |row| + 1) == RowTexts(row, |row|) + Texts(cell, |cell|)
  {
    RowTextsPrefix(row, cell, |row|);
  }

  lemma TableTextsAppend(rows: seq<seq<seq<Token>>>, row: seq<seq<Token>>)
    ensures AllTexts(rows + [row]) == AllTexts(rows) + RowTexts(row, |row|)
  {
    TableTextsPrefix(rows, row, |rows|);
  }

  lemma {:induction false} CellsKeepText(row: Node, n: nat)
    requires n <= |row.children|
    ensures RowTexts(Cells(row, n), n) == KeptIn(row, n, At(Row, false))
    decreases row, 1, n
  {
    if n > 0 {
      var cell := row.children[n - 1];
      CellsKeepText(row, n - 1);
      CellKeepsText(cell);
      RowTextsAppend(Cells(row, n - 1), CellOf(cell));
    }
  }

  lemma {:induction false} CellKeepsText(cell: Node)
    ensures Texts(CellOf(cell), |CellOf(cell)|) == Kept(cell, At(Cell, true))
    decreases cell, 2
  {
    var n, kids := |cell.children|, Kids(cell, |cell.children|, 0, Nil);
    KidsKeepText(cell, n, 0, Nil, Cell);
    TextsOfDoc(kids);
    TextsOfClean(Flatten(kids), |Flatten(kids)|);
    KeptInCellBelow(cell, n, At(Cell, false));
  }

  lemma {:induction false} RowKeepsText(row: Node)
    requires row.kind == TableRow
    ensures RowTexts(Cells(row, |row.children|), |row.children|) == Kept(row, At(Row, false))
    decreases row, 2
  {
    CellsKeepText(row, |row.children|);
    assert OwnKept(row, At(Row, false)) == [];
  }

  lemma {:induction false} RowsKeepText(table: Node, n: nat)
    requires table.kind == TableNode && n <= |table.children|
    ensures AllTexts(Rows(table, n)) == KeptIn(table, n, Outside)
    decreases table, 1, n
  {
    if n > 0 {
      var row := table.children[n - 1];
      var before := Rows(table, n - 1);
      RowsKeepText(table, n - 1);
      if row.kind == TableRow {
        var cells := Cells(row, |row.children|);
        RowKeepsText(row);
        TableTextsAppend(before, cells);
        assert Rows(table, n) == before + [cells];
        assert KeptIn(table, n, Outside) == AllTexts(before) + RowTexts(cells, |cells|);
      } else {
        GoneIsNotKept(row, At(Gone, false));
        assert Rows(table, n) == before;
      }
    }
  }

  /** Padding a row to at least its own length writes every cell once, in order. */
  lemma {:induction false} ColumnsKeepText(row: seq<seq<Token>>, n: nat)
    ensures DocTexts(Columns(row, n)) == RowTexts(row, if n <= |row| then n else |row|)
  {
    if n > 0 {
      ColumnsKeepText(row, n - 1);
      if n <= |row| {
        var cell := Many(row[n - 1]);
        assert DocTexts(Cat(cell, One(Token(Layout, " |")))) == DocTexts(cell);
        assert DocTexts(Column(row, n - 1)) == Texts(row[n - 1], |row[n - 1]|);
      }
    }
  }

  lemma LineKeepsText(columns: Doc)
    ensures DocTexts(OneLine(columns)) == DocTexts(columns)
  {
    assert DocTexts(Cat(columns, One(Newline))) == DocTexts(columns);
  }

  lemma Associate(a: seq<string>, b: seq<string>, c: seq<string>)
    ensures a + (b + c) == a + b + c
  {
  }

  lemma {:induction false} LinesKeepText(rows: seq<seq<seq<Token>>>, n: nat, cols: nat)
    requires 1 <= n <= |rows|
    requires forall i :: 0 <= i < |rows| ==> |rows[i]| <= cols
    ensures RowTexts(rows[0], |rows[0]|) + DocTexts(Lines(rows, n, cols)) == TableTexts(rows, n)
  {
    if n == 1 {
      assert TableTexts(rows, 0) == [];
    } else {
      LinesKeepText(rows, n - 1, cols);
      ColumnsKeepText(rows[n - 1], cols);
      LineKeepsText(Columns(rows[n - 1], cols));
      Associate(RowTexts(rows[0], |rows[0]|), DocTexts(Lines(rows, n - 1, cols)),
                DocTexts(OneLine(Columns(rows[n - 1], cols))));
    }
  }

  lemma {:induction false} DashesHaveNoText(n: nat)
    ensures DocTexts(Dashes(n)) == []
  {
    if n > 0 {
      DashesHaveNoText(n - 1);
    }
  }

  lemma GridKeepsText(rows: seq<seq<seq<Token>>>)
    ensures DocTexts(Grid(rows)) == AllTexts(rows)
  {
    if rows != [] {
      var cols := MaxCols(rows, |rows|);
      var head, separator, body := OneLine(Columns(rows[0], cols)), OneLine(Dashes(cols)), Lines(rows, |rows|, cols);
      ColumnsKeepText(rows[0], cols);
      LineKeepsText(Columns(rows[0], cols));
      DashesHaveNoText(cols);
      LineKeepsText(Dashes(cols));
      LinesKeepText(rows, |rows|, cols);
      assert DocTexts(Cat(head, separator)) == DocTexts(head);
      assert DocTexts(Cat(body, One(Newline))) == DocTexts(body);
    }
  }

  // ---------------------------------------------------------------- when text is lost

  /** The shape the editor produces: lists of items, tables of rows, no text as a cell, nothing below text. */
  predicate Conforms(node: Node) {
    && (forall i :: 0 <= i < |node.children| ==> Conforms(node.children[i]))
    && (node.kind == TextLeaf || node.kind == Rule ==> node.children == [])
    && (node.kind == ListNode ==> forall i :: 0 <= i < |node.children| ==> node.children[i].kind == ListItem)
    && (node.kind == TableNode ==> forall i :: 0 <= i < |node.children| ==> node.children[i].kind == TableRow)
    && (node.kind == TableRow ==> forall i :: 0 <= i < |node.children| ==> node.children[i].kind != TextLeaf)
  }

  predicate AllPlain(found: seq<Found>) {
    forall i :: 0 <= i < |found| ==> found[i].at.place == Plain
  }

  lemma {:induction false} ShownCount(found: seq<Found>, n: nat)
    requires n <= |found|
    ensures |Shown(found, n)| <= n
    ensures |Shown(found, n)| == n <==> forall i :: 0 <= i < n ==> found[i].at.place == Plain
  {
    if n > 0 {
      ShownCount(found, n - 1);
    }
  }

  /** As many texts are written as the tree has text nodes exactly when each of them is rendered itself. */
  lemma NothingIsLostIff(node: Node, depth: nat)
    ensures
      var ts, found := Flatten(Walk(node, depth)), Leaves(node, Outside);
      |Texts(ts, |ts|)| == |found| <==> AllPlain(found)
  {
    TextIsKeptInOrder(node, depth);
    ShownCount(Leaves(node, Outside), |Leaves(node, Outside)|);
  }

  /** In particular nothing is lost from a tree of the editor's shape. */
  lemma {:induction false} ConformingTreesLoseNothing(node: Node, depth: nat)
    requires Conforms(node)
    ensures
      var ts, found := Flatten(Walk(node, depth)), Leaves(node, Outside);
      AllPlain(found) && |Texts(ts, |ts|)| == |found|
  {
    ConformingIsPlain(node, Outside);
    NothingIsLostIff(node, depth);
  }

  predicate FitsPlace(node: Node, at: At) {
    && at.place != Gone
    && (at.place == Row ==> node.kind == TableRow)
    && (at.place == Cell ==> node.kind != TextLeaf)
  }

  lemma {:induction false} ConformingIsPlain(node: Node, at: At)
    requires Conforms(node) && FitsPlace(node, at)
    ensures AllPlain(Leaves(node, at))
    decreases node, 1
  {
    ConformingBelow(node, |node.children|, at);
  }

  lemma {:induction false} ConformingBelow(node: Node, n: nat, at: At)
    requires n <= |node.children|
    requires Conforms(node) && FitsPlace(node, at)
    ensures AllPlain(LeavesIn(node, n, at))
    decreases node, 0, n
  {
    if n > 0 {
      var child := node.children[n - 1];
      ConformingBelow(node, n - 1, at);
      ConformingIsPlain(child, Below(node, at, child));
    }
  }

  /** A text used as a cell of a table is laid out by its children, so its own text is lost. */
  lemma TextAsCellIsLost(text: string, depth: nat)
    ensures
      var cell := Node(TextLeaf, [], text, Unset, "", "", Bullets, 0, false);
      var row := Node(TableRow, [cell], "", Unset, "", "", Bullets, 0, false);
      var table := Node(TableNode, [row], "", Unset, "", "", Bullets, 0, false);
      Leaves(table, Outside) == [Found(text, At(Cell, true))] && DocTexts(Walk(table, depth)) == []
  {
    var cell := Node(TextLeaf, [], text, Unset, "", "", Bullets, 0, false);
    var row := Node(TableRow, [cell], "", Unset, "", "", Bullets, 0, false);
    var table := Node(TableNode, [row], "", Unset, "", "", Bullets, 0, false);
    var found := Found(text, At(Cell, true));
    assert LeavesIn(cell, 0, At(Cell, true)) == [];
    assert Leaves(cell, At(Cell, true)) == [found];
    assert LeavesIn(row, 0, At(Row, false)) == [];
    assert LeavesIn(row, 1, At(Row, false)) == [found];
    assert LeavesIn(table, 0, Outside) == [];
    assert LeavesIn(table, 1, Outside) == [found];
    TextIsKeptInOrder(table, depth);
    ShownSingle(found);
    TextsOfDoc(Walk(table, depth));
  }
}
