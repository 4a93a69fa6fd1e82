/**
 What the renderer of Lexical trees prints for each type of node, character by character, in terms of
 what it prints for the children.
 */
module LexicalPrint {
  import opened Lexical

  /** The text of a document. */
  function Written(d: Doc): string {
    match d
    case Nil => ""
    case One(t) => t.s
    case Many(ts) => Print(ts, |ts|)
    case Cat(left, right) => Written(left) + Written(right)
  }

  lemma {:induction false} PrintPrefix(a: seq<Token>, b: seq<Token>, n: nat)
    requires n <= |a|
    ensures Print(a + b, n) == Print(a, n)
  {
    if n > 0 {
      PrintPrefix(a, b, n - 1);
    }
  }

  lemma {:induction false} PrintJoins(a: seq<Token>, b: seq<Token>, n: nat)
    requires n <= |b|
    ensures Print(a + b, |a| + n) == Print(a, |a|) + Print(b, n)
  {
    if n == 0 {
      PrintPrefix(a, b, |a|);
    } else {
      PrintJoins(a, b, n - 1);
      assert (a + b)[|a| + n - 1] == b[n - 1];
    }
  }

  lemma PrintAllJoins(a: seq<Token>, b: seq<Token>)
    ensures Print(a + b, |a + b|) == Print(a, |a|) + Print(b, |b|)
  {
    PrintJoins(a, b, |b|);
  }

  lemma {:induction false} WrittenIsPrinted(d: Doc)
    ensures Print(Flatten(d), |Flatten(d)|) == Written(d)
  {
    match d
    case Nil =>
    case One(t) => assert Print([t], 0) == "";
    case Many(ts) =>
    case Cat(left, right) =>
      WrittenIsPrinted(left);
      WrittenIsPrinted(right);
      PrintAllJoins(Flatten(left), Flatten(right));
  }

  /** What is printed for a node. */
  function Text(node: Node, depth: nat): string {
    var ts := Flatten(Walk(node, depth));
    Print(ts, |ts|)
  }

  lemma TextIsWritten(node: Node, depth: nat)
    ensures Text(node, depth) == Written(Walk(node, depth))
  {
    WrittenIsPrinted(Walk(node, depth));
  }

  /** The first `n` texts after each other. */
  function Concat(texts: seq<string>, n: nat): string
    requires n <= |texts|
  {
    if n == 0 then "" else Concat(texts, n - 1) + texts[n - 1]
  }

  function When(on: bool, s: string): string {
    if on then s else ""
  }

  lemma WrapPrints(on: bool, tag: Tag, opening: string, inner: Doc, closing: string)
    ensures Written(Wrap(on, tag, opening, inner, closing)) == When(on, opening) + (Written(inner) + When(on, closing))
  {
    assert Written(Cat(inner, Mark(on, Closes(tag), closing))) == Written(inner) + When(on, closing);
  }

  // ---------------------------------------------------------------- children after each other

  /** The texts of the children, each followed by `tail`. */
  function ChildTexts(node: Node, depth: nat, tail: string): (texts: seq<string>)
    ensures |texts| == |node.children|
  {
    seq(|node.children|, i requires 0 <= i < |node.children| => Text(node.children[i], depth) + tail)
  }

  function ChildrenText(node: Node, depth: nat, tail: string): string {
    Concat(ChildTexts(node, depth, tail), |node.children|)
  }

  lemma KidsPrint(node: Node, depth: nat, tail: Doc)
    ensures Written(Kids(node, |node.children|, depth, tail)) == ChildrenText(node, depth, Written(tail))
  {
    var texts := ChildTexts(node, depth, Written(tail));
    forall i | 0 <= i < |texts| ensures texts[i] == Written(Walk(node.children[i], depth)) + Written(tail) {
      TextIsWritten(node.children[i], depth);
    }
    FirstKidsPrint(node, |texts|, depth, tail, texts);
  }

  lemma {:induction false} FirstKidsPrint(node: Node, n: nat, depth: nat, tail: Doc, texts: seq<string>)
    requires n <= |node.children| == |texts|
    requires forall i :: 0 <= i < |texts| ==> texts[i] == Written(Walk(node.children[i], depth)) + Written(tail)
    ensures Written(Kids(node, n, depth, tail)) == Concat(texts, n)
  {
    if n > 0 {
      var before, kid := Kids(node, n - 1, depth, tail), Walk(node.children[n - 1], depth);
      FirstKidsPrint(node, n - 1, depth, tail, texts);
      CatThree(before, kid, tail);
      assert Kids(node, n, depth, tail) == Cat(before, Cat(kid, tail));
    }
  }

  lemma CatTwo(a: Doc, b: Doc)
    ensures Written(Cat(a, b)) == Written(a) + Written(b)
  {
  }

  lemma CatThree(a: Doc, b: Doc, c: Doc)
    ensures Written(Cat(a, Cat(b, c))) == Written(a) + (Written(b) + Written(c))
  {
    assert Written(Cat(b, c)) == Written(b) + Written(c);
  }

  /** The root prints its children one below the other, a rule prints itself, most nodes print just their children. */
  lemma GroupPrints(node: Node, depth: nat)
    ensures node.kind == Root ==> Text(node, depth) == ChildrenText(node, depth, "\n")
    ensures node.kind == Rule ==> Text(node, depth) == "---\n"
    ensures node.kind == ListItem || node.kind == TableRow || node.kind == Other ==>
              Text(node, depth) == ChildrenText(node, depth, "")
  {
    TextIsWritten(node, depth);
    KidsPrint(node, depth, One(Newline));
    KidsPrint(node, depth, Nil);
  }

  /** A paragraph prints its children, inside a div if it is aligned otherwise than left, and a newline. */
  lemma ParagraphPrints(node: Node, depth: nat)
    requires node.kind == Paragraph
    ensures
      var aligned := node.format.Align? && node.format.align != "" && node.format.align != "left";
      Text(node, depth)
      == (if aligned then "<div align=\"" + node.format.align + "\">" else "")
         + (ChildrenText(node, depth, "") + if aligned then "</div>" else "")
         + "\n"
  {
    var kids := Kids(node, |node.children|, depth, Nil);
    TextIsWritten(node, depth);
    KidsPrint(node, depth, Nil);
    WrapPrints(AlignOf(node) != "", Div, OpenDiv(node), kids, "</div>");
  }

  /** A link prints its children in brackets and its address in parentheses. */
  lemma LinkPrints(node: Node, depth: nat)
    requires node.kind == LinkNode
    ensures Text(node, depth) == "[" + (ChildrenText(node, 0, "") + ("](" + node.url + ")"))
  {
    TextIsWritten(node, depth);
    KidsPrint(node, 0, Nil);
    WrapPrints(true, Bracket, "[", Kids(node, |node.children|, 0, Nil), "](" + node.url + ")");
  }

  /** A text prints its marks around itself: 16 code, 1 bold, 2 italic, 8 underline, 4 strike, from the outside in. */
  lemma LeafPrints(node: Node, depth: nat)
    requires node.kind == TextLeaf
    ensures
      var bits := if node.format.Mask? then node.format.bits else 0;
      var code, bold, italic := bits / 16 % 2 == 1, bits % 2 == 1, bits / 2 % 2 == 1;
      var underline, strike := bits / 8 % 2 == 1, bits / 4 % 2 == 1;
      Text(node, depth)
      == node.openTag
         + (When(code, "`")
            + (When(bold, "**")
               + (When(italic, "_")
                  + (When(underline, "<u>")
                     + (When(strike, "~~") + (node.text + When(strike, "~~")) + When(underline, "</u>"))
                     + When(italic, "_"))
                  + When(bold, "**"))
               + When(code, "`"))
            + When(node.openTag != "", "</span>"))
  {
    var leaf := One(Token(Leaf, node.text));
    var strike := Wrap(Has(node, Strike), Strike, "~~", leaf, "~~");
    var underline := Wrap(Has(node, Underline), Underline, "<u>", strike, "</u>");
    var italic := Wrap(Has(node, Italic), Italic, "_", underline, "_");
    var bold := Wrap(Has(node, Bold), Bold, "**", italic, "**");
    var code := Wrap(Has(node, Code), Code, "`", bold, "`");
    TextIsWritten(node, depth);
    WrapPrints(Has(node, Strike), Strike, "~~", leaf, "~~");
    WrapPrints(Has(node, Underline), Underline, "<u>", strike, "</u>");
    WrapPrints(Has(node, Italic), Italic, "_", underline, "_");
    WrapPrints(Has(node, Bold), Bold, "**", italic, "**");
    WrapPrints(Has(node, Code), Code, "`", bold, "`");
    WrapPrints(node.openTag != "", Span, node.openTag, code, "</span>");
  }

  // ---------------------------------------------------------------- lists

  predicate ItemAt(list: Node, i: int) {
    0 <= i < |list.children| && list.children[i].kind == ListItem
  }

  /** The number of list items among the first `n` children. */
  function Rank(list: Node, n: nat): nat
    requires n <= |list.children|
  {
    |set i | 0 <= i < n && ItemAt(list, i)|
  }

  lemma RankStep(list: Node, n: nat)
    requires 0 < n <= |list.children|
    ensures Rank(list, n) == Rank(list, n - 1) + if list.children[n - 1].kind == ListItem then 1 else 0
  {
    var before := set i | 0 <= i < n - 1 && ItemAt(list, i);
    var now := set i | 0 <= i < n && ItemAt(list, i);
    assert now == if list.children[n - 1].kind == ListItem then before + {n - 1} else before;
  }

  lemma {:induction false} RankCounts(list: Node, n: nat)
    requires n <= |list.children|
    ensures Rank(list, n) == ItemsIn(list, n)
  {
    if n > 0 {
      RankCounts(list, n - 1);
      RankStep(list, n);
    } else {
      assert (set i | 0 <= i < 0 && ItemAt(list, i)) == {};
    }
  }

  /** The number that the first `n` digits denote. */
  function Value(s: string, n: nat): int
    requires n <= |s|
  {
    if n == 0 then 0 else 10 * Value(s, n - 1) + (s[n - 1] as int - '0' as int)
  }

  /** `s` is `n` in decimal, without leading zeros. */
  predicate IsDecimal(s: string, n: nat) {
    && s != "" && (forall i :: 0 <= i < |s| ==> '0' <= s[i] <= '9')
    && (s[0] == '0' ==> |s| == 1)
    && Value(s, |s|) == n
  }

  lemma {:induction false} ValuePrefix(a: string, b: string, n: nat)
    requires n <= |a|
    ensures Value(a + b, n) == Value(a, n)
  {
    if n > 0 {
      ValuePrefix(a, b, n - 1);
    }
  }

  lemma {:induction false} DigitsAreDecimal(n: nat)
    ensures IsDecimal(Digits(n), n)
    ensures n > 0 ==> Digits(n)[0] != '0'
  {
    var last := [(n % 10) as char + '0'];
    if n < 10 {
      assert Value(last, 0) == 0;
    } else {
      DigitsAreDecimal(n / 10);
      ValuePrefix(Digits(n / 10), last, |Digits(n / 10)|);
    }
  }

  /** The mark in front of a list item with `k` list items before it. */
  ghost predicate IsMark(list: Node, item: Node, k: nat, mark: string) {
    match list.marking
    case Checks => mark == if item.checked then "- [x] " else "- [ ] "
    case Bullets => mark == "- "
    case Numbers => exists digits :: IsDecimal(digits, (if list.start > 0 then list.start else 1) + k) && mark == digits + ". "
  }

  /** The content of a list item: nested lists start on a line of their own, one level deeper. */
  function ContentTexts(item: Node, depth: nat): (texts: seq<string>)
    ensures |texts| == |item.children|
  {
    seq(|item.children|, i requires 0 <= i < |item.children| =>
      if item.children[i].kind == ListNode then "\n" + Text(item.children[i], depth + 1)
      else Text(item.children[i], depth))
  }

  /** Two blanks for each level, the mark, the content, a newline. */
  ghost predicate IsItemText(list: Node, item: Node, k: nat, depth: nat, text: string) {
    exists blanks, mark ::
      && |blanks| == 2 * depth && (forall i :: 0 <= i < |blanks| ==> blanks[i] == ' ')
      && IsMark(list, item, k, mark)
      && text == blanks + mark + (Concat(ContentTexts(item, depth), |item.children|) + "\n")
  }

  lemma MarkerIsMark(list: Node, item: Node, k: nat)
    ensures IsMark(list, item, k, Marker(list, item, FirstIndex(list) + k))
  {
    DigitsAreDecimal(FirstIndex(list) + k);
  }

  lemma {:induction false} RepeatIsBlank(n: nat)
    ensures |Repeat("  ", n)| == 2 * n && forall i :: 0 <= i < 2 * n ==> Repeat("  ", n)[i] == ' '
  {
    if n > 0 {
      RepeatIsBlank(n - 1);
    }
  }

  lemma ItemWritten(marker: string, depth: nat, content: Doc)
    ensures Written(Item(marker, depth, content)) == Repeat("  ", depth) + marker + (Written(content) + "\n")
  {
    var indent, mark := One(Token(Layout, Repeat("  ", depth))), One(Token(Layout, marker));
    assert Written(Cat(indent, mark)) == Repeat("  ", depth) + marker;
    assert Written(Cat(content, One(Newline))) == Written(content) + "\n";
  }

  /** What is written for one child of a list item. */
  predicate IsContent(item: Node, i: nat, depth: nat, text: string)
    requires i < |item.children|
  {
    var child := item.children[i];
    text == Written(if child.kind == ListNode then Cat(One(Newline), List(child, depth + 1)) else Walk(child, depth))
  }

  lemma ContentAt(item: Node, depth: nat, i: nat)
    requires i < |item.children|
    ensures IsContent(item, i, depth, ContentTexts(item, depth)[i])
  {
    var child := item.children[i];
    if child.kind == ListNode {
      TextIsWritten(child, depth + 1);
      CatTwo(One(Newline), List(child, depth + 1));
    } else {
      TextIsWritten(child, depth);
    }
  }

  lemma ContentPrints(item: Node, depth: nat)
    ensures Written(ItemKids(item, |item.children|, depth)) == Concat(ContentTexts(item, depth), |item.children|)
  {
    var texts := ContentTexts(item, depth);
    forall i: nat | i < |texts| ensures IsContent(item, i, depth, texts[i]) {
      ContentAt(item, depth, i);
    }
    FirstContentPrints(item, texts, |texts|, depth);
  }

  lemma {:induction false} FirstContentPrints(item: Node, texts: seq<string>, n: nat, depth: nat)
    requires n <= |item.children| == |texts|
    requires forall i: nat :: i < |texts| ==> IsContent(item, i, depth, texts[i])
    ensures Written(ItemKids(item, n, depth)) == Concat(texts, n)
  {
    if n > 0 {
      var child, before := item.children[n - 1], ItemKids(item, n - 1, depth);
      var last := if child.kind == ListNode then Cat(One(Newline), List(child, depth + 1)) else Walk(child, depth);
      FirstContentPrints(item, texts, n - 1, depth);
      assert IsContent(item, n - 1, depth, texts[n - 1]);
      CatTwo(before, last);
      assert ItemKids(item, n, depth) == Cat(before, last);
    }
  }

  lemma OneItemPrints(list: Node, item: Node, k: nat, depth: nat)
    ensures IsItemText(list, item, k, depth,
                       Written(Item(Marker(list, item, FirstIndex(list) + k), depth, ItemKids(item, |item.children|, depth))))
  {
    var mark := Marker(list, item, FirstIndex(list) + k);
    MarkerIsMark(list, item, k);
    RepeatIsBlank(depth);
    ContentPrints(item, depth);
    ItemWritten(mark, depth, ItemKids(item, |item.children|, depth));
  }

  /** What each child of a list prints: a list item its line, with the list items before it counted, and others nothing. */
  ghost predicate AreItemTexts(list: Node, depth: nat, texts: seq<string>) {
    && |texts| == |list.children|
    && forall i: nat :: i < |texts| ==>
         if ItemAt(list, i) then IsItemText(list, list.children[i], Rank(list, i), depth, texts[i]) else texts[i] == ""
  }

  /** What is written for one child. */
  function ItemDoc(list: Node, i: nat, depth: nat): Doc
    requires i < |list.children|
  {
    var item := list.children[i];
    if item.kind != ListItem then Nil
    else
      Item(Marker(list, item, FirstIndex(list) + ItemsIn(list, i)), depth, ItemKids(item, |item.children|, depth))
  }

  predicate IsWrittenItem(list: Node, i: nat, depth: nat, text: string)
    requires i < |list.children|
  {
    Written(ItemDoc(list, i, depth)) == text
  }

  lemma {:induction false} ItemsPrint(list: Node, n: nat, depth: nat, texts: seq<string>)
    requires n <= |list.children| == |texts|
    requires forall i: nat :: i < |texts| ==> IsWrittenItem(list, i, depth, texts[i])
    ensures Written(Items(list, n, depth)) == Concat(texts, n)
  {
    if n > 0 {
      ItemsPrint(list, n - 1, depth, texts);
      assert IsWrittenItem(list, n - 1, depth, texts[n - 1]);
      LastItemPrints(list, n, depth);
    }
  }

  lemma LastItemPrints(list: Node, n: nat, depth: nat)
    requires 0 < n <= |list.children|
    ensures Written(Items(list, n, depth)) == Written(Items(list, n - 1, depth)) + Written(ItemDoc(list, n - 1, depth))
  {
    CatTwo(Items(list, n - 1, depth), ItemDoc(list, n - 1, depth));
  }

  /** A list prints the texts of its list items, and at the outermost level a newline. */
  lemma ListPrints(list: Node, depth: nat) returns (texts: seq<string>)
    requires list.kind == ListNode
    ensures AreItemTexts(list, depth, texts)
    ensures Text(list, depth) == Concat(texts, |texts|) + if depth == 0 then "\n" else ""
  {
    texts := seq(|list.children|, i requires 0 <= i < |list.children| => Written(ItemDoc(list, i, depth)));
    forall i: nat | i < |texts|
      ensures if ItemAt(list, i) then IsItemText(list, list.children[i], Rank(list, i), depth, texts[i]) else texts[i] == ""
    {
      if ItemAt(list, i) {
        RankCounts(list, i);
        OneItemPrints(list, list.children[i], Rank(list, i), depth);
      }
    }
    AllItemsPrint(list, depth, texts);
  }

  lemma AllItemsPrint(list: Node, depth: nat, texts: seq<string>)
    requires list.kind == ListNode && |texts| == |list.children|
    requires forall i: nat :: i < |texts| ==> IsWrittenItem(list, i, depth, texts[i])
    ensures Text(list, depth) == Concat(texts, |texts|) + if depth == 0 then "\n" else ""
  {
    ItemsPrint(list, |texts|, depth, texts);
    TextIsWritten(list, depth);
    CatTwo(Items(list, |texts|, depth), if depth == 0 then One(Newline) else Nil);
  }

  // ---------------------------------------------------------------- tables

  /** The rows of a table. */
  function RowNodes(table: Node, n: nat): seq<Node>
    requires n <= |table.children|
  {
    if n == 0 then []
    else if table.children[n - 1].kind == TableRow then RowNodes(table, n - 1) + [table.children[n - 1]]
    else RowNodes(table, n - 1)
  }

  /** What is printed of a cell: its children after each other, with blanks for newlines. */
  function CellText(cell: Node): string {
    Flat(ChildrenText(cell, 0, ""))
  }

  /** The columns of one line: the row's own cells, and empty ones up to the number of columns. */
  function ColumnTexts(row: Node, cols: nat): (texts: seq<string>)
    ensures |texts| == cols
  {
    seq(cols, j requires 0 <= j < cols =>
      if j < |row.children| then " " + (CellText(row.children[j]) + " |") else "  |")
  }

  predicate IsRowText(row: Node, cols: nat, line: string) {
    line == "|" + (Concat(ColumnTexts(row, cols), cols) + "\n")
  }

  predicate IsSeparator(cols: nat, line: string) {
    line == "|" + (Concat(seq(cols, j => "---|"), cols) + "\n")
  }

  /** The lines of the rows from the second to the n-th. */
  predicate AreRowTexts(rows: seq<Node>, n: nat, cols: nat, lines: seq<string>)
    requires 1 <= n <= |rows|
  {
    |lines| == n - 1 && forall i :: 0 <= i < n - 1 ==> IsRowText(rows[i + 1], cols, lines[i])
  }

  lemma CellPrints(cell: Node)
    ensures Print(CellOf(cell), |CellOf(cell)|) == CellText(cell)
  {
    var kids := Kids(cell, |cell.children|, 0, Nil);
    CleanPrints(Flatten(kids), |Flatten(kids)|);
    WrittenIsPrinted(kids);
    KidsPrint(cell, 0, Nil);
  }

  lemma {:induction false} CellsAt(row: Node, n: nat, j: nat)
    requires j < n <= |row.children|
    ensures Cells(row, n)[j] == CellOf(row.children[j])
  {
    if j < n - 1 {
      CellsAt(row, n - 1, j);
    }
  }

  /** What is written for one column. */
  predicate IsColumn(cells: seq<seq<Token>>, j: nat, text: string) {
    Written(Column(cells, j)) == text
  }

  lemma ColumnPrints(row: Node, cols: nat, j: nat)
    requires j < cols
    ensures IsColumn(Cells(row, |row.children|), j, ColumnTexts(row, cols)[j])
  {
    var cells := Cells(row, |row.children|);
    if j < |cells| {
      CellsAt(row, |row.children|, j);
      CellPrints(row.children[j]);
      CatThree(One(Token(Layout, " ")), Many(cells[j]), One(Token(Layout, " |")));
    }
  }

  lemma {:induction false} ColumnsPrint(cells: seq<seq<Token>>, n: nat, texts: seq<string>)
    requires n <= |texts| && forall j: nat :: j < |texts| ==> IsColumn(cells, j, texts[j])
    ensures Written(Columns(cells, n)) == Concat(texts, n)
  {
    if n > 0 {
      ColumnsPrint(cells, n - 1, texts);
      assert IsColumn(cells, n - 1, texts[n - 1]);
      CatTwo(Columns(cells, n - 1), Column(cells, n - 1));
    }
  }

  lemma RowPrints(row: Node, cols: nat) returns (line: string)
    ensures IsRowText(row, cols, line)
    ensures Written(OneLine(Columns(Cells(row, |row.children|), cols))) == line
  {
    var columns, texts := Columns(Cells(row, |row.children|), cols), ColumnTexts(row, cols);
    forall j: nat | j < |texts| ensures IsColumn(Cells(row, |row.children|), j, texts[j]) {
      ColumnPrints(row, cols, j);
    }
    ColumnsPrint(Cells(row, |row.children|), cols, texts);
    CatThree(One(Token(Layout, "|")), columns, One(Newline));
    line := Written(OneLine(columns));
  }

  lemma {:induction false} DashesPrint(n: nat, cols: nat)
    requires n <= cols
    ensures Written(Dashes(n)) == Concat(seq(cols, j => "---|"), n)
  {
    if n > 0 {
      DashesPrint(n - 1, cols);
    }
  }

  lemma SeparatorPrints(cols: nat) returns (line: string)
    ensures IsSeparator(cols, line) && Written(OneLine(Dashes(cols))) == line
  {
    DashesPrint(cols, cols);
    CatThree(One(Token(Layout, "|")), Dashes(cols), One(Newline));
    line := Written(OneLine(Dashes(cols)));
  }

  lemma {:induction false} RowsAre(table: Node, n: nat)
    requires n <= |table.children|
    ensures |Rows(table, n)| == |RowNodes(table, n)|
    ensures forall i :: 0 <= i < |Rows(table, n)| ==>
              Rows(table, n)[i] == Cells(RowNodes(table, n)[i], |RowNodes(table, n)[i].children|)
  {
    if n > 0 {
      RowsAre(table, n - 1);
    }
  }

  /** The text of one laid out line. */
  predicate IsWritten(row: seq<seq<Token>>, cols: nat, line: string) {
    Written(OneLine(Columns(row, cols))) == line
  }

  lemma {:induction false} BodyPrints(rows: seq<Node>, cells: seq<seq<seq<Token>>>, n: nat, cols: nat)
    returns (body: seq<string>)
    requires |cells| == |rows| && 1 <= n <= |rows|
    requires forall i :: 0 <= i < |rows| ==> cells[i] == Cells(rows[i], |rows[i].children|)
    ensures AreRowTexts(rows, n, cols, body)
    ensures forall i :: 0 <= i < n - 1 ==> IsWritten(cells[i + 1], cols, body[i])
  {
    if n == 1 {
      body := [];
    } else {
      var before := BodyPrints(rows, cells, n - 1, cols);
      var line := RowPrints(rows[n - 1], cols);
      body := before + [line];
      assert IsWritten(cells[n - 1], cols, line);
      forall i | 0 <= i < n - 1
        ensures IsRowText(rows[i + 1], cols, body[i]) && IsWritten(cells[i + 1], cols, body[i])
      {
        if i < n - 2 {
          assert body[i] == before[i];
        }
      }
    }
  }

  lemma {:induction false} LinesPrint(cells: seq<seq<seq<Token>>>, body: seq<string>, n: nat, cols: nat)
    requires 1 <= n <= |cells| == |body| + 1
    requires forall i :: 0 <= i < |body| ==> IsWritten(cells[i + 1], cols, body[i])
    ensures Written(Lines(cells, n, cols)) == Concat(body, n - 1)
  {
    if n > 1 {
      LinesPrint(cells, body, n - 1, cols);
      CatTwo(Lines(cells, n - 1, cols), OneLine(Columns(cells[n - 1], cols)));
      assert IsWritten(cells[n - 2 + 1], cols, body[n - 2]);
    }
  }

  /** `cols` is the length of the longest row. */
  ghost predicate IsWidth(rows: seq<Node>, cols: nat) {
    && (forall i :: 0 <= i < |rows| ==> |rows[i].children| <= cols)
    && exists i :: 0 <= i < |rows| && |rows[i].children| == cols
  }

  /**
   A table prints its first row, the separator, its other rows and an empty line, each row filled up to
   the width of the widest; a table without rows prints nothing.
   */
  lemma TablePrints(table: Node, depth: nat)
    returns (cols: nat, head: string, separator: string, body: seq<string>)
    requires table.kind == TableNode
    ensures
      var rows := RowNodes(table, |table.children|);
      if rows == [] then Text(table, depth) == ""
      else
        && IsWidth(rows, cols)
        && IsRowText(rows[0], cols, head) && IsSeparator(cols, separator)
        && AreRowTexts(rows, |rows|, cols, body)
        && Text(table, depth) == (head + separator) + (Concat(body, |body|) + "\n")
  {
    var rows, cells := RowNodes(table, |table.children|), Rows(table, |table.children|);
    RowsAre(table, |table.children|);
    TextIsWritten(table, depth);
    cols, head, separator, body := 0, "", "", [];
    if rows != [] {
      assert Walk(table, depth) == Grid(cells);
      cols, head, separator, body := GridTexts(rows, cells);
    }
  }

  lemma GridTexts(rows: seq<Node>, cells: seq<seq<seq<Token>>>)
    returns (cols: nat, head: string, separator: string, body: seq<string>)
    requires rows != [] && |cells| == |rows|
    requires forall i :: 0 <= i < |rows| ==> cells[i] == Cells(rows[i], |rows[i].children|)
    ensures IsWidth(rows, cols)
    ensures IsRowText(rows[0], cols, head) && IsSeparator(cols, separator)
    ensures AreRowTexts(rows, |rows|, cols, body)
    ensures Written(Grid(cells)) == (head + separator) + (Concat(body, |body|) + "\n")
  {
    cols := MaxCols(cells, |cells|);
    WidthIs(rows, cells);
    head := RowPrints(rows[0], cols);
    separator := SeparatorPrints(cols);
    body := BodyPrints(rows, cells, |rows|, cols);
    GridOf(cells, head, separator, body);
  }

  lemma GridOf(cells: seq<seq<seq<Token>>>, head: string, separator: string, body: seq<string>)
    requires cells != [] && |cells| == |body| + 1
    requires
      var cols := MaxCols(cells, |cells|);
      && Written(OneLine(Columns(cells[0], cols))) == head && Written(OneLine(Dashes(cols))) == separator
      && forall i :: 0 <= i < |body| ==> IsWritten(cells[i + 1], cols, body[i])
    ensures Written(Grid(cells)) == (head + separator) + (Concat(body, |body|) + "\n")
  {
    var cols := MaxCols(cells, |cells|);
    LinesPrint(cells, body, |cells|, cols);
    GridPrints(OneLine(Columns(cells[0], cols)), OneLine(Dashes(cols)), Lines(cells, |cells|, cols));
  }

  lemma WidthIs(rows: seq<Node>, cells: seq<seq<seq<Token>>>)
    requires rows != [] && |cells| == |rows|
    requires forall i :: 0 <= i < |rows| ==> cells[i] == Cells(rows[i], |rows[i].children|)
    ensures IsWidth(rows, MaxCols(cells, |cells|))
  {
    var cols := MaxCols(cells, |cells|);
    forall i | 0 <= i < |rows| ensures |rows[i].children| <= cols {
      assert |cells[i]| <= cols;
    }
    if cols == 0 {
      assert |rows[0].children| == 0;
    } else {
      var i :| 0 <= i < |cells| && |cells[i]| == cols;
      assert |rows[i].children| == cols;
    }
  }

  lemma GridPrints(head: Doc, separator: Doc, body: Doc)
    ensures Written(Cat(Cat(head, separator), Cat(body, One(Newline))))
         == (Written(head) + Written(separator)) + (Written(body) + "\n")
  {
    assert Written(Cat(head, separator)) == Written(head) + Written(separator);
    assert Written(Cat(body, One(Newline))) == Written(body) + "\n";
  }
}
