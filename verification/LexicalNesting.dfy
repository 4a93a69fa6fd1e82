/** The markup that the renderer of Lexical trees emits is properly nested. */
module LexicalNesting {
  import opened Lexical

  /** The tags that are open, or nothing once a closing did not match the tag opened last. */
  datatype Reading = Stuck | Open(tags: seq<Tag>)

  /** Reading the first `n` tokens with `tags` open before. */
  function Read(ts: seq<Token>, n: nat, tags: seq<Tag>): Reading
    requires n <= |ts|
  {
    if n == 0 then Open(tags)
    else
      match Read(ts, n - 1, tags)
      case Stuck => Stuck
      case Open(now) => ReadOne(ts[n - 1].role, now)
  }

  function ReadOne(role: Role, now: seq<Tag>): Reading {
    match role
    case Opens(tag) => Open(now + [tag])
    case Closes(tag) => if now != [] && now[|now| - 1] == tag then Open(now[..|now| - 1]) else Stuck
    case Leaf => Open(now)
    case Layout => Open(now)
  }

  /** Every closing matches the tag opened last, nothing from outside is closed and nothing stays open. */
  ghost predicate Balanced(ts: seq<Token>) {
    forall tags :: Read(ts, |ts|, tags) == Open(tags)
  }

  /** Reading a document is reading its writes. */
  function ReadDoc(d: Doc, tags: seq<Tag>): Reading {
    match d
    case Nil => Open(tags)
    case One(t) => ReadOne(t.role, tags)
    case Many(ts) => Read(ts, |ts|, tags)
    case Cat(left, right) =>
      match ReadDoc(left, tags)
      case Stuck => Stuck
      case Open(now) => ReadDoc(right, now)
  }

  ghost predicate BalancedDoc(d: Doc) {
    forall tags :: ReadDoc(d, tags) == Open(tags)
  }

  lemma {:induction false} ReadPrefix(a: seq<Token>, b: seq<Token>, n: nat, tags: seq<Tag>)
    requires n <= |a|
    ensures Read(a + b, n, tags) == Read(a, n, tags)
  {
    if n > 0 {
      ReadPrefix(a, b, n - 1, tags);
    }
  }

  lemma {:induction false} ReadJoins(a: seq<Token>, b: seq<Token>, n: nat, tags: seq<Tag>)
    requires n <= |b|
    ensures Read(a + b, |a| + n, tags)
         == match Read(a, |a|, tags)
            case Stuck => Stuck
            case Open(now) => Read(b, n, now)
  {
    if n == 0 {
      ReadPrefix(a, b, |a|, tags);
    } else {
      ReadJoins(a, b, n - 1, tags);
      assert (a + b)[|a| + n - 1] == b[n - 1];
    }
  }

  lemma {:induction false} ReadDocReads(d: Doc, tags: seq<Tag>)
    ensures Read(Flatten(d), |Flatten(d)|, tags) == ReadDoc(d, tags)
  {
    match d
    case Nil =>
    case One(t) => assert Read([t], 0, tags) == Open(tags);
    case Many(ts) =>
    case Cat(left, right) =>
      var a, b := Flatten(left), Flatten(right);
      ReadDocReads(left, tags);
      ReadJoins(a, b, |b|, tags);
      if Read(a, |a|, tags).Open? {
        ReadDocReads(right, Read(a, |a|, tags).tags);
      }
  }

  lemma BalancedFlat(d: Doc)
    ensures BalancedDoc(d) <==> Balanced(Flatten(d))
  {
    forall tags ensures Read(Flatten(d), |Flatten(d)|, tags) == ReadDoc(d, tags) {
      ReadDocReads(d, tags);
    }
  }

  lemma BalancedCat(a: Doc, b: Doc)
    requires BalancedDoc(a) && BalancedDoc(b)
    ensures BalancedDoc(Cat(a, b))
  {
  }

  lemma BalancedThree(a: Doc, b: Doc, c: Doc)
    requires BalancedDoc(a) && BalancedDoc(b) && BalancedDoc(c)
    ensures BalancedDoc(Cat(a, Cat(b, c)))
  {
    BalancedCat(b, c);
    BalancedCat(a, Cat(b, c));
  }

  lemma BalancedOne(t: Token)
    requires t.role.Leaf? || t.role.Layout?
    ensures BalancedDoc(One(t)) && BalancedDoc(Nil)
  {
  }

  lemma BalancedWrap(on: bool, tag: Tag, opening: string, inner: Doc, closing: string)
    requires BalancedDoc(inner)
    ensures BalancedDoc(Wrap(on, tag, opening, inner, closing))
  {
    var closed := Mark(on, Closes(tag), closing);
    forall tags ensures ReadDoc(Wrap(on, tag, opening, inner, closing), tags) == Open(tags) {
      var now := if on then tags + [tag] else tags;
      assert ReadDoc(Mark(on, Opens(tag), opening), tags) == Open(now);
      assert (tags + [tag])[..|tags|] == tags;
      assert ReadDoc(closed, now) == Open(tags);
      assert ReadDoc(Cat(inner, closed), now) == Open(tags);
    }
  }

  lemma {:induction false} CleanReads(ts: seq<Token>, n: nat, tags: seq<Tag>)
    requires n <= |ts|
    ensures Read(Clean(ts), n, tags) == Read(ts, n, tags)
  {
    if n > 0 {
      CleanReads(ts, n - 1, tags);
    }
  }

  lemma BalancedClean(ts: seq<Token>)
    requires Balanced(ts)
    ensures Balanced(Clean(ts))
  {
    forall tags ensures Read(Clean(ts), |ts|, tags) == Open(tags) {
      CleanReads(ts, |ts|, tags);
    }
  }

  lemma BalancedText(node: Node)
    ensures BalancedDoc(TextOf(node))
  {
    var leaf := One(Token(Leaf, node.text));
    BalancedOne(leaf.t);
    var strike := Wrap(Has(node, Strike), Strike, "~~", leaf, "~~");
    BalancedWrap(Has(node, Strike), Strike, "~~", leaf, "~~");
    var underline := Wrap(Has(node, Underline), Underline, "<u>", strike, "</u>");
    BalancedWrap(Has(node, Underline), Underline, "<u>", strike, "</u>");
    var italic := Wrap(Has(node, Italic), Italic, "_", underline, "_");
    BalancedWrap(Has(node, Italic), Italic, "_", underline, "_");
    var bold := Wrap(Has(node, Bold), Bold, "**", italic, "**");
    BalancedWrap(Has(node, Bold), Bold, "**", italic, "**");
    var code := Wrap(Has(node, Code), Code, "`", bold, "`");
    BalancedWrap(Has(node, Code), Code, "`", bold, "`");
    BalancedWrap(node.openTag != "", Span, node.openTag, code, "</span>");
  }

  /** Whatever the tree, the tags of its rendering are properly nested. */
  lemma RenderingIsBalanced(node: Node, depth: nat)
    ensures Balanced(Flatten(Walk(node, depth)))
  {
    WalkIsBalanced(node, depth);
    BalancedFlat(Walk(node, depth));
  }

  lemma {:induction false} WalkIsBalanced(node: Node, depth: nat)
    ensures BalancedDoc(Walk(node, depth))
    decreases node, 3
  {
    var n := |node.children|;
    BalancedOne(Newline);
    match node.kind {
      case Root => KidsAreBalanced(node, n, depth, One(Newline));
      case Paragraph =>
        KidsAreBalanced(node, n, depth, Nil);
        ParagraphIsBalanced(node, depth);
      case TextLeaf => BalancedText(node);
      case ListNode => ListIsBalanced(node, depth);
      case TableNode =>
        var rows := RowsAreBalanced(node, n);
        GridIsBalanced(rows);
      case LinkNode =>
        KidsAreBalanced(node, n, 0, Nil);
        BalancedWrap(true, Bracket, "[", Kids(node, n, 0, Nil), "](" + node.url + ")");
      case Rule => BalancedOne(Token(Layout, "---\n"));
      case ListItem => KidsAreBalanced(node, n, depth, Nil);
      case TableRow => KidsAreBalanced(node, n, depth, Nil);
      case Other => KidsAreBalanced(node, n, depth, Nil);
    }
  }

  lemma ParagraphIsBalanced(node: Node, depth: nat)
    requires BalancedDoc(Kids(node, |node.children|, depth, Nil))
    ensures BalancedDoc(ParagraphOf(node, depth))
  {
    var kids := Kids(node, |node.children|, depth, Nil);
    BalancedOne(Newline);
    BalancedWrap(AlignOf(node) != "", Div, OpenDiv(node), kids, "</div>");
    BalancedCat(Wrap(AlignOf(node) != "", Div, OpenDiv(node), kids, "</div>"), One(Newline));
  }

  lemma {:induction false} KidsAreBalanced(node: Node, n: nat, depth: nat, tail: Doc)
    requires n <= |node.children| && BalancedDoc(tail)
    ensures BalancedDoc(Kids(node, n, depth, tail))
    decreases node, 1, n
  {
    BalancedOne(Newline);
    if n > 0 {
      var before, last := Kids(node, n - 1, depth, tail), Walk(node.children[n - 1], depth);
      KidsAreBalanced(node, n - 1, depth, tail);
      WalkIsBalanced(node.children[n - 1], depth);
      BalancedThree(before, last, tail);
    }
  }

  lemma {:induction false} ListIsBalanced(list: Node, depth: nat)
    ensures BalancedDoc(List(list, depth))
    decreases list, 2
  {
    BalancedOne(Newline);
    ItemsAreBalanced(list, |list.children|, depth);
    BalancedCat(Items(list, |list.children|, depth), if depth == 0 then One(Newline) else Nil);
  }

  lemma {:induction false} ItemsAreBalanced(list: Node, n: nat, depth: nat)
    requires n <= |list.children|
    ensures BalancedDoc(Items(list, n, depth))
    decreases list, 1, n
  {
    BalancedOne(Newline);
    if n > 0 {
      var item := list.children[n - 1];
      ItemsAreBalanced(list, n - 1, depth);
      if item.kind == ListItem {
        var marker := Marker(list, item, FirstIndex(list) + ItemsIn(list, n - 1));
        ItemKidsAreBalanced(item, |item.children|, depth);
        ItemIsBalanced(marker, depth, ItemKids(item, |item.children|, depth));
        BalancedCat(Items(list, n - 1, depth), Item(marker, depth, ItemKids(item, |item.children|, depth)));
      }
    }
  }

  lemma ItemIsBalanced(marker: string, depth: nat, content: Doc)
    requires BalancedDoc(content)
    ensures BalancedDoc(Item(marker, depth, content))
  {
    var indent, mark := One(Token(Layout, Repeat("  ", depth))), One(Token(Layout, marker));
    BalancedOne(indent.t);
    BalancedOne(mark.t);
    BalancedOne(Newline);
    BalancedCat(indent, mark);
    BalancedCat(content, One(Newline));
    BalancedCat(Cat(indent, mark), Cat(content, One(Newline)));
  }

  lemma {:induction false} ItemKidsAreBalanced(item: Node, n: nat, depth: nat)
    requires n <= |item.children|
    ensures BalancedDoc(ItemKids(item, n, depth))
    decreases item, 1, n
  {
    BalancedOne(Newline);
    if n > 0 {
      var child := item.children[n - 1];
      ItemKidsAreBalanced(item, n - 1, depth);
      if child.kind == ListNode {
        ListIsBalanced(child, depth + 1);
        BalancedCat(One(Newline), List(child, depth + 1));
        BalancedCat(ItemKids(item, n - 1, depth), Cat(One(Newline), List(child, depth + 1)));
      } else {
        WalkIsBalanced(child, depth);
        BalancedCat(ItemKids(item, n - 1, depth), Walk(child, depth));
      }
    }
  }

  ghost predicate BalancedRow(row: seq<seq<Token>>) {
    forall j :: 0 <= j < |row| ==> Balanced(row[j])
  }

  ghost predicate BalancedRows(rows: seq<seq<seq<Token>>>) {
    forall i :: 0 <= i < |rows| ==> BalancedRow(rows[i])
  }

  lemma BalancedAppend(rows: seq<seq<seq<Token>>>, row: seq<seq<Token>>)
    requires BalancedRows(rows) && BalancedRow(row)
    ensures BalancedRows(rows + [row])
  {
  }

  lemma {:induction false} RowsAreBalanced(table: Node, n: nat) returns (rows: seq<seq<seq<Token>>>)
    requires n <= |table.children|
    ensures rows == Rows(table, n) && BalancedRows(rows)
    decreases table, 1, n
  {
    if n == 0 {
      rows := [];
    } else {
      var row := table.children[n - 1];
      rows := RowsAreBalanced(table, n - 1);
      if row.kind == TableRow {
        CellsAreBalanced(row, |row.children|);
        BalancedAppend(rows, Cells(row, |row.children|));
        rows := rows + [Cells(row, |row.children|)];
      }
    }
  }

  lemma {:induction false} CellsAreBalanced(row: Node, n: nat)
    requires n <= |row.children|
    ensures BalancedRow(Cells(row, n))
    decreases row, 1, n
  {
    if n > 0 {
      CellsAreBalanced(row, n - 1);
      CellIsBalanced(row.children[n - 1]);
    }
  }

  lemma {:induction false} CellIsBalanced(cell: Node)
    ensures Balanced(CellOf(cell))
    decreases cell, 2
  {
    BalancedOne(Newline);
    var kids := Kids(cell, |cell.children|, 0, Nil);
    KidsAreBalanced(cell, |cell.children|, 0, Nil);
    BalancedFlat(kids);
    BalancedClean(Flatten(kids));
  }

  lemma RowIsBalanced(row: seq<seq<Token>>, n: nat)
    requires BalancedRow(row)
    ensures BalancedDoc(Columns(row, n))
  {
    forall j: nat | j < n ensures BalancedDoc(Column(row, j)) {
      ColumnIsBalanced(row, j);
    }
    ColumnsAreBalanced(row, n);
  }

  lemma {:induction false} ColumnsAreBalanced(row: seq<seq<Token>>, n: nat)
    requires forall j: nat :: j < n ==> BalancedDoc(Column(row, j))
    ensures BalancedDoc(Columns(row, n))
  {
    if n > 0 {
      ColumnsAreBalanced(row, n - 1);
      BalancedCat(Columns(row, n - 1), Column(row, n - 1));
    }
  }

  lemma ColumnIsBalanced(row: seq<seq<Token>>, j: nat)
    requires BalancedRow(row)
    ensures BalancedDoc(Column(row, j))
  {
    if j < |row| {
      assert BalancedDoc(Many(row[j]));
      BalancedCat(Many(row[j]), One(Token(Layout, " |")));
      BalancedCat(One(Token(Layout, " ")), Cat(Many(row[j]), One(Token(Layout, " |"))));
    }
  }

  lemma LineIsBalanced(columns: Doc)
    requires BalancedDoc(columns)
    ensures BalancedDoc(OneLine(columns))
  {
    BalancedOne(Token(Layout, "|"));
    BalancedOne(Newline);
    BalancedCat(columns, One(Newline));
    BalancedCat(One(Token(Layout, "|")), Cat(columns, One(Newline)));
  }

  lemma {:induction false} DashesAreBalanced(n: nat)
    ensures BalancedDoc(Dashes(n))
  {
    BalancedOne(Token(Layout, "---|"));
    if n > 0 {
      DashesAreBalanced(n - 1);
      BalancedCat(Dashes(n - 1), One(Token(Layout, "---|")));
    }
  }

  lemma {:induction false} LinesAreBalanced(rows: seq<seq<seq<Token>>>, n: nat, cols: nat)
    requires 1 <= n <= |rows| && BalancedRows(rows)
    ensures BalancedDoc(Lines(rows, n, cols))
  {
    BalancedOne(Newline);
    if n > 1 {
      LinesAreBalanced(rows, n - 1, cols);
      RowIsBalanced(rows[n - 1], cols);
      LineIsBalanced(Columns(rows[n - 1], cols));
      BalancedCat(Lines(rows, n - 1, cols), OneLine(Columns(rows[n - 1], cols)));
    }
  }

  lemma GridIsBalanced(rows: seq<seq<seq<Token>>>)
    requires BalancedRows(rows)
    ensures BalancedDoc(Grid(rows))
  {
    BalancedOne(Newline);
    if rows != [] {
      var cols := MaxCols(rows, |rows|);
      var head, separator, body := OneLine(Columns(rows[0], cols)), OneLine(Dashes(cols)), Lines(rows, |rows|, cols);
      RowIsBalanced(rows[0], cols);
      LineIsBalanced(Columns(rows[0], cols));
      DashesAreBalanced(cols);
      LineIsBalanced(Dashes(cols));
      LinesAreBalanced(rows, |rows|, cols);
      BalancedCat(head, separator);
      BalancedCat(body, One(Newline));
      BalancedCat(Cat(head, separator), Cat(body, One(Newline)));
    }
  }
}
