/**
 The renderer of Lexical trees to Markdown: pkg/lexical/parser.go.

 The text in the builder is modelled with what each write was for: the opening or
 the closing of a markup tag, the text of a leaf, or layout. `Print` gives the text.
 What a node writes is described by a `Doc`, whose writes in order are `Flatten`.
 */
module Lexical {

  /** The format of a node: a bit mask on text nodes, an alignment on paragraphs. */
  datatype Format = Unset | Mask(bits: int) | Align(align: string)

  /** The node types that the renderer tells apart; `Other` is every other type. */
  datatype Kind = Root | Paragraph | TextLeaf | ListNode | ListItem | TableNode | TableRow | LinkNode | Rule | Other

  /** The list types: "number", "check", and "bullet" or anything else. */
  datatype Marking = Numbers | Checks | Bullets

  /** A node as decoded from JSON. `openTag` is the span that its style asks for, or "". */
  datatype Node = Node(
    kind: Kind, children: seq<Node>, text: string, format: Format, openTag: string,
    url: string, marking: Marking, start: int, checked: bool)

  datatype Tag = Div | Span | Code | Bold | Italic | Underline | Strike | Bracket

  datatype Role = Opens(tag: Tag) | Closes(tag: Tag) | Leaf | Layout

  datatype Token = Token(role: Role, s: string)

  datatype Doc = Nil | One(t: Token) | Many(ts: seq<Token>) | Cat(left: Doc, right: Doc)

  const Newline := Token(Layout, "\n")

  // ---------------------------------------------------------------- text

  function Flatten(d: Doc): seq<Token> {
    match d
    case Nil => []
    case One(t) => [t]
    case Many(ts) => ts
    case Cat(left, right) => Flatten(left) + Flatten(right)
  }

  /** The text of the first `n` writes. */
  function Print(ts: seq<Token>, n: nat): string
    requires n <= |ts|
  {
    if n == 0 then "" else Print(ts, n - 1) + ts[n - 1].s
  }

  /** What a tree is rendered to. */
  function Rendering(root: Node): string {
    var ts := Flatten(Walk(root, 0));
    Print(ts, |ts|)
  }

  /** strings.ReplaceAll(s, "\n", " ") */
  function Flat(s: string): (r: string)
    ensures |r| == |s|
    ensures forall i :: 0 <= i < |s| ==> r[i] == if s[i] == '\n' then ' ' else s[i]
  {
    seq(|s|, i requires 0 <= i < |s| => if s[i] == '\n' then ' ' else s[i])
  }

  /** The writes to a cell, without newlines. */
  function Clean(ts: seq<Token>): (r: seq<Token>)
    ensures |r| == |ts|
    ensures forall i :: 0 <= i < |ts| ==> r[i] == Token(ts[i].role, Flat(ts[i].s))
  {
    seq(|ts|, i requires 0 <= i < |ts| => Token(ts[i].role, Flat(ts[i].s)))
  }

  function Repeat(s: string, n: nat): string {
    if n == 0 then "" else s + Repeat(s, n - 1)
  }

  function Digits(n: nat): (s: string) {
    var last := [(n % 10) as char + '0'];
    if n < 10 then last else Digits(n / 10) + last
  }

  /** Replacing the newlines of the text of a cell is replacing them in each write to it. */
  lemma {:induction false} CleanPrints(ts: seq<Token>, n: nat)
    requires n <= |ts|
    ensures Print(Clean(ts), n) == Flat(Print(ts, n))
  {
    if n > 0 {
      CleanPrints(ts, n - 1);
    }
  }

  // ---------------------------------------------------------------- what is written

  /** The bits of a mask, as Go's `&` on a two's complement number sees them. */
  predicate Has(node: Node, tag: Tag) {
    node.format.Mask? &&
    match tag
    case Bold => node.format.bits % 2 == 1
    case Italic => node.format.bits / 2 % 2 == 1
    case Strike => node.format.bits / 4 % 2 == 1
    case Underline => node.format.bits / 8 % 2 == 1
    case Code => node.format.bits / 16 % 2 == 1
    case Div => false
    case Span => false
    case Bracket => false
  }

  function Mark(on: bool, role: Role, s: string): Doc {
    if on then One(Token(role, s)) else Nil
  }

  /** One wrapper around a text, if it is on. */
  function Wrap(on: bool, tag: Tag, opening: string, inner: Doc, closing: string): Doc {
    Cat(Mark(on, Opens(tag), opening), Cat(inner, Mark(on, Closes(tag), closing)))
  }

  /** A text node: a span around code around bold around italic around underline around strike. */
  function TextOf(node: Node): Doc {
    var leaf := One(Token(Leaf, node.text));
    var strike := Wrap(Has(node, Strike), Strike, "~~", leaf, "~~");
    var underline := Wrap(Has(node, Underline), Underline, "<u>", strike, "</u>");
    var italic := Wrap(Has(node, Italic), Italic, "_", underline, "_");
    var bold := Wrap(Has(node, Bold), Bold, "**", italic, "**");
    var code := Wrap(Has(node, Code), Code, "`", bold, "`");
    Wrap(node.openTag != "", Span, node.openTag, code, "</span>")
  }

  function AlignOf(node: Node): string {
    if node.format.Align? && node.format.align != "left" then node.format.align else ""
  }

  function OpenDiv(node: Node): string {
    "<div align=\"" + AlignOf(node) + "\">"
  }

  /** The number of list items among the first `n` children. */
  function ItemsIn(list: Node, n: nat): nat
    requires n <= |list.children|
  {
    if n == 0 then 0 else ItemsIn(list, n - 1) + if list.children[n - 1].kind == ListItem then 1 else 0
  }

  function Marker(list: Node, item: Node, index: nat): string {
    if list.marking == Numbers then Digits(index) + ". "
    else if list.marking == Checks then (if item.checked then "- [x] " else "- [ ] ")
    else "- "
  }

  function FirstIndex(list: Node): nat {
    if list.start > 0 then list.start else 1
  }

  function Walk(node: Node, depth: nat): Doc
    decreases node, 3
  {
    match node.kind
    case Root => Kids(node, |node.children|, depth, One(Newline))
    case Paragraph => ParagraphOf(node, depth)
    case TextLeaf => TextOf(node)
    case ListNode => List(node, depth)
    case TableNode => Table(node)
    case LinkNode => LinkOf(node)
    case Rule => One(Token(Layout, "---\n"))
    case ListItem => Kids(node, |node.children|, depth, Nil)
    case TableRow => Kids(node, |node.children|, depth, Nil)
    case Other => Kids(node, |node.children|, depth, Nil)
  }

  function ParagraphOf(node: Node, depth: nat): Doc
    decreases node, 2
  {
    Cat(Wrap(AlignOf(node) != "", Div, OpenDiv(node), Kids(node, |node.children|, depth, Nil), "</div>"), One(Newline))
  }

  function LinkOf(node: Node): Doc
    decreases node, 2
  {
    Wrap(true, Bracket, "[", Kids(node, |node.children|, 0, Nil), "](" + node.url + ")")
  }

  function Table(node: Node): Doc
    decreases node, 2
  {
    Grid(Rows(node, |node.children|))
  }

  /** The first `n` children, each followed by `tail`. */
  function Kids(node: Node, n: nat, depth: nat, tail: Doc): Doc
    requires n <= |node.children|
    decreases node, 1, n
  {
    if n == 0 then Nil else Cat(Kids(node, n - 1, depth, tail), Cat(Walk(node.children[n - 1], depth), tail))
  }

  function List(list: Node, depth: nat): Doc
    decreases list, 2
  {
    Cat(Items(list, |list.children|, depth), if depth == 0 then One(Newline) else Nil)
  }

  /** The first `n` children of a list, those that are not list items left out. */
  function Items(list: Node, n: nat, depth: nat): Doc
    requires n <= |list.children|
    decreases list, 1, n
  {
    if n == 0 then Nil
    else
      var item := list.children[n - 1];
      var before := Items(list, n - 1, depth);
      if item.kind != ListItem then before
      else
        Cat(before, Item(Marker(list, item, FirstIndex(list) + ItemsIn(list, n - 1)), depth,
                         ItemKids(item, |item.children|, depth)))
  }

  function Item(marker: string, depth: nat, content: Doc): Doc {
    Cat(Cat(One(Token(Layout, Repeat("  ", depth))), One(Token(Layout, marker))), Cat(content, One(Newline)))
  }

  /** The first `n` children of a list item; a nested list starts on a line of its own, one level deeper. */
  function ItemKids(item: Node, n: nat, depth: nat): Doc
    requires n <= |item.children|
    decreases item, 1, n
  {
    if n == 0 then Nil
    else
      var child := item.children[n - 1];
      Cat(ItemKids(item, n - 1, depth),
          if child.kind == ListNode then Cat(One(Newline), List(child, depth + 1)) else Walk(child, depth))
  }

  /** The cells of the rows among the first `n` children of a table. */
  function Rows(table: Node, n: nat): seq<seq<seq<Token>>>
    requires n <= |table.children|
    decreases table, 1, n
  {
    if n == 0 then []
    else
      var row := table.children[n - 1];
      if row.kind == TableRow then Rows(table, n - 1) + [Cells(row, |row.children|)] else Rows(table, n - 1)
  }

  function Cells(row: Node, n: nat): (cells: seq<seq<Token>>)
    requires n <= |row.children|
    ensures |cells| == n
    decreases row, 1, n
  {
    if n == 0 then [] else Cells(row, n - 1) + [CellOf(row.children[n - 1])]
  }

  /** A cell is laid out by its children, whatever its own type. */
  function CellOf(cell: Node): seq<Token>
    decreases cell, 2
  {
    Clean(Flatten(Kids(cell, |cell.children|, 0, Nil)))
  }

  function MaxCols(rows: seq<seq<seq<Token>>>, n: nat): (m: nat)
    requires n <= |rows|
    ensures forall i :: 0 <= i < n ==> |rows[i]| <= m
    ensures m == 0 || exists i :: 0 <= i < n && |rows[i]| == m
  {
    if n == 0 then 0
    else
      var m := MaxCols(rows, n - 1);
      if |rows[n - 1]| > m then |rows[n - 1]| else m
  }

  /** The first `n` columns of a line; the columns that a row does not have are empty. */
  function Columns(row: seq<seq<Token>>, n: nat): Doc {
    if n == 0 then Nil else Cat(Columns(row, n - 1), Column(row, n - 1))
  }

  function Column(row: seq<seq<Token>>, j: nat): Doc {
    if j < |row| then Cat(One(Token(Layout, " ")), Cat(Many(row[j]), One(Token(Layout, " |"))))
    else One(Token(Layout, "  |"))
  }

  function Dashes(n: nat): Doc {
    if n == 0 then Nil else Cat(Dashes(n - 1), One(Token(Layout, "---|")))
  }

  function OneLine(columns: Doc): Doc {
    Cat(One(Token(Layout, "|")), Cat(columns, One(Newline)))
  }

  /** The lines of the first `n` rows after the header. */
  function Lines(rows: seq<seq<seq<Token>>>, n: nat, cols: nat): Doc
    requires 1 <= n <= |rows|
  {
    if n == 1 then Nil else Cat(Lines(rows, n - 1, cols), OneLine(Columns(rows[n - 1], cols)))
  }

  function Grid(rows: seq<seq<seq<Token>>>): Doc {
    if rows == [] then Nil
    else
      var cols := MaxCols(rows, |rows|);
      Cat(Cat(OneLine(Columns(rows[0], cols)), OneLine(Dashes(cols))), Cat(Lines(rows, |rows|, cols), One(Newline)))
  }

  // ---------------------------------------------------------------- how it is written

  class Builder {
    var out: seq<Token>

    constructor ()
      ensures out == []
    {
      out := [];
    }

    method Write(role: Role, s: string)
      modifies this
      ensures out == old(out) + [Token(role, s)]
    {
      out := out + [Token(role, s)];
    }

    method WriteIf(on: bool, role: Role, s: string)
      modifies this
      ensures out == old(out) + Flatten(Mark(on, role, s))
    {
      if on {
        Write(role, s);
      }
    }
  }

  /** Parse after decoding. */
  method Parse(root: Node) returns (text: string)
    ensures text == Rendering(root)
  {
    var sb := new Builder();
    WalkNode(root, sb, 0);
    assert sb.out == Flatten(Walk(root, 0));
    text := Print(sb.out, |sb.out|);
  }

  method WalkNode(node: Node, sb: Builder, depth: nat)
    modifies sb
    ensures sb.out == old(sb.out) + Flatten(Walk(node, depth))
    decreases node, 3
  {
    match node.kind {
      case Root => WalkKids(node, sb, depth, true);
      case Paragraph => HandleParagraph(node, sb, depth);
      case TextLeaf => HandleText(node, sb);
      case ListNode => HandleList(node, sb, depth);
      case TableNode => HandleTable(node, sb);
      case LinkNode => HandleLink(node, sb);
      case Rule => sb.Write(Layout, "---\n");
      case ListItem => WalkKids(node, sb, depth, false);
      case TableRow => WalkKids(node, sb, depth, false);
      case Other => WalkKids(node, sb, depth, false);
    }
  }

  method WalkKids(node: Node, sb: Builder, depth: nat, newlines: bool)
    modifies sb
    ensures sb.out == old(sb.out) + Flatten(Kids(node, |node.children|, depth, if newlines then One(Newline) else Nil))
    decreases node, 1
  {
    ghost var tail := if newlines then One(Newline) else Nil;
    for i := 0 to |node.children|
      invariant sb.out == old(sb.out) + Flatten(Kids(node, i, depth, tail))
    {
      ghost var before := sb.out;
      WalkNode(node.children[i], sb, depth);
      if newlines {
        sb.Write(Layout, "\n");
      }
      assert Flatten(Cat(Walk(node.children[i], depth), tail)) == Flatten(Walk(node.children[i], depth)) + Flatten(tail);
      assert sb.out == before + Flatten(Cat(Walk(node.children[i], depth), tail));
    }
  }

  lemma Regroup(a: seq<Token>, b: seq<Token>, c: seq<Token>)
    ensures a + b + c == a + (b + c)
  {
  }

  /** What is written before, inside and after a wrapper. */
  lemma WrapWrites(before: seq<Token>, on: bool, tag: Tag, opening: string, inner: Doc, closing: string)
    ensures
      before + Flatten(Wrap(on, tag, opening, inner, closing))
      == before + Flatten(Mark(on, Opens(tag), opening)) + Flatten(inner) + Flatten(Mark(on, Closes(tag), closing))
  {
    var o, c := Mark(on, Opens(tag), opening), Mark(on, Closes(tag), closing);
    assert Flatten(Cat(o, Cat(inner, c))) == Flatten(o) + Flatten(Cat(inner, c));
    assert Flatten(Cat(inner, c)) == Flatten(inner) + Flatten(c);
  }

  method HandleParagraph(node: Node, sb: Builder, depth: nat)
    modifies sb
    ensures sb.out == old(sb.out) + Flatten(ParagraphOf(node, depth))
    decreases node, 2
  {
    var align := "";
    if node.format.Align? && node.format.align != "" && node.format.align != "left" {
      align := node.format.align;
    }
    assert align == AlignOf(node);
    sb.WriteIf(align != "", Opens(Div), "<div align=\"" + align + "\">");
    WalkKids(node, sb, depth, false);
    sb.WriteIf(align != "", Closes(Div), "</div>");
    ghost var kids := Kids(node, |node.children|, depth, Nil);
    WrapWrites(old(sb.out), align != "", Div, OpenDiv(node), kids, "</div>");
    sb.Write(Layout, "\n");
    Regroup(old(sb.out), Flatten(Wrap(align != "", Div, OpenDiv(node), kids, "</div>")), [Newline]);
  }

  method HandleText(node: Node, sb: Builder)
    modifies sb
    ensures sb.out == old(sb.out) + Flatten(TextOf(node))
  {
    var span := node.openTag != "";
    var code, bold, italic := Has(node, Code), Has(node, Bold), Has(node, Italic);
    var underline, strike := Has(node, Underline), Has(node, Strike);
    sb.WriteIf(span, Opens(Span), node.openTag);
    sb.WriteIf(code, Opens(Code), "`");
    sb.WriteIf(bold, Opens(Bold), "**");
    sb.WriteIf(italic, Opens(Italic), "_");
    sb.WriteIf(underline, Opens(Underline), "<u>");
    sb.WriteIf(strike, Opens(Strike), "~~");
    sb.Write(Leaf, node.text);
    sb.WriteIf(strike, Closes(Strike), "~~");
    sb.WriteIf(underline, Closes(Underline), "</u>");
    sb.WriteIf(italic, Closes(Italic), "_");
    sb.WriteIf(bold, Closes(Bold), "**");
    sb.WriteIf(code, Closes(Code), "`");
    sb.WriteIf(span, Closes(Span), "</span>");
    TextWrites(node, old(sb.out));
  }

  /** The wrappers close in the opposite order of opening. */
  lemma TextWrites(node: Node, before: seq<Token>)
    ensures
      before + Flatten(TextOf(node))
      == before + Flatten(Mark(node.openTag != "", Opens(Span), node.openTag))
         + Flatten(Mark(Has(node, Code), Opens(Code), "`")) + Flatten(Mark(Has(node, Bold), Opens(Bold), "**"))
         + Flatten(Mark(Has(node, Italic), Opens(Italic), "_"))
         + Flatten(Mark(Has(node, Underline), Opens(Underline), "<u>"))
         + Flatten(Mark(Has(node, Strike), Opens(Strike), "~~"))
         + [Token(Leaf, node.text)]
         + Flatten(Mark(Has(node, Strike), Closes(Strike), "~~"))
         + Flatten(Mark(Has(node, Underline), Closes(Underline), "</u>"))
         + Flatten(Mark(Has(node, Italic), Closes(Italic), "_"))
         + Flatten(Mark(Has(node, Bold), Closes(Bold), "**")) + Flatten(Mark(Has(node, Code), Closes(Code), "`"))
         + Flatten(Mark(node.openTag != "", Closes(Span), "</span>"))
  {
    var leaf := One(Token(Leaf, node.text));
    var d1 := Wrap(Has(node, Strike), Strike, "~~", leaf, "~~");
    var d2 := Wrap(Has(node, Underline), Underline, "<u>", d1, "</u>");
    var d3 := Wrap(Has(node, Italic), Italic, "_", d2, "_");
    var d4 := Wrap(Has(node, Bold), Bold, "**", d3, "**");
    var d5 := Wrap(Has(node, Code), Code, "`", d4, "`");
    var b1 := before + Flatten(Mark(node.openTag != "", Opens(Span), node.openTag));
    var b2 := b1 + Flatten(Mark(Has(node, Code), Opens(Code), "`"));
    var b3 := b2 + Flatten(Mark(Has(node, Bold), Opens(Bold), "**"));
    var b4 := b3 + Flatten(Mark(Has(node, Italic), Opens(Italic), "_"));
    var b5 := b4 + Flatten(Mark(Has(node, Underline), Opens(Underline), "<u>"));
    WrapWrites(before, node.openTag != "", Span, node.openTag, d5, "</span>");
    WrapWrites(b1, Has(node, Code), Code, "`", d4, "`");
    WrapWrites(b2, Has(node, Bold), Bold, "**", d3, "**");
    WrapWrites(b3, Has(node, Italic), Italic, "_", d2, "_");
    WrapWrites(b4, Has(node, Underline), Underline, "<u>", d1, "</u>");
    WrapWrites(b5, Has(node, Strike), Strike, "~~", leaf, "~~");
    assert Flatten(leaf) == [Token(Leaf, node.text)];
  }

  method HandleLink(node: Node, sb: Builder)
    modifies sb
    ensures sb.out == old(sb.out) + Flatten(LinkOf(node))
    decreases node, 2
  {
    sb.Write(Opens(Bracket), "[");
    WalkKids(node, sb, 0, false);
    sb.Write(Closes(Bracket), "](" + node.url + ")");
    WrapWrites(old(sb.out), true, Bracket, "[", Kids(node, |node.children|, 0, Nil), "](" + node.url + ")");
  }

  method HandleList(node: Node, sb: Builder, depth: nat)
    modifies sb
    ensures sb.out == old(sb.out) + Flatten(List(node, depth))
    decreases node, 2
  {
    var index: nat := 1;
    if node.start > 0 {
      index := node.start;
    }
    for i := 0 to |node.children|
      invariant node.marking == Numbers ==> index == FirstIndex(node) + ItemsIn(node, i)
      invariant sb.out == old(sb.out) + Flatten(Items(node, i, depth))
    {
      var child := node.children[i];
      if child.kind != ListItem {
        continue;
      }
      HandleItem(node, child, index, sb, depth);
      assert Marker(node, child, index) == Marker(node, child, FirstIndex(node) + ItemsIn(node, i));
      Regroup(old(sb.out), Flatten(Items(node, i, depth)),
              Flatten(Item(Marker(node, child, index), depth, ItemKids(child, |child.children|, depth))));
      if node.marking == Numbers {
        index := index + 1;
      }
    }
    if depth == 0 {
      sb.Write(Layout, "\n");
    }
  }

  method HandleItem(list: Node, item: Node, index: nat, sb: Builder, depth: nat)
    modifies sb
    ensures sb.out == old(sb.out)
                      + Flatten(Item(Marker(list, item, index), depth, ItemKids(item, |item.children|, depth)))
    decreases item, 1
  {
    sb.Write(Layout, Repeat("  ", depth));
    WriteMarker(list, item, index, sb);
    ghost var head := sb.out;
    for i := 0 to |item.children|
      invariant sb.out == head + Flatten(ItemKids(item, i, depth))
    {
      var child := item.children[i];
      if child.kind == ListNode {
        sb.Write(Layout, "\n");
        HandleList(child, sb, depth + 1);
        assert Flatten(Cat(One(Newline), List(child, depth + 1))) == [Newline] + Flatten(List(child, depth + 1));
      } else {
        WalkNode(child, sb, depth);
      }
    }
    sb.Write(Layout, "\n");
    ItemWrites(old(sb.out), Marker(list, item, index), depth, ItemKids(item, |item.children|, depth));
  }

  lemma ItemWrites(before: seq<Token>, marker: string, depth: nat, content: Doc)
    ensures before + Flatten(Item(marker, depth, content))
         == before + [Token(Layout, Repeat("  ", depth))] + [Token(Layout, marker)] + Flatten(content) + [Newline]
  {
    var indent, mark := One(Token(Layout, Repeat("  ", depth))), One(Token(Layout, marker));
    assert Flatten(Cat(indent, mark)) == Flatten(indent) + Flatten(mark);
    assert Flatten(Cat(content, One(Newline))) == Flatten(content) + Flatten(One(Newline));
  }

  method WriteMarker(list: Node, item: Node, index: nat, sb: Builder)
    modifies sb
    ensures sb.out == old(sb.out) + [Token(Layout, Marker(list, item, index))]
  {
    if list.marking == Numbers {
      sb.Write(Layout, Digits(index) + ". ");
    } else if list.marking == Checks {
      if item.checked {
        sb.Write(Layout, "- [x] ");
      } else {
        sb.Write(Layout, "- [ ] ");
      }
    } else {
      sb.Write(Layout, "- ");
    }
  }

  method HandleTable(node: Node, sb: Builder)
    modifies sb
    ensures sb.out == old(sb.out) + Flatten(Table(node))
    decreases node, 2
  {
    var rows, maxCols := ReadRows(node);
    if |rows| == 0 {
      return;
    }
    WriteGrid(rows, maxCols, sb);
  }

  method ReadRows(table: Node) returns (rows: seq<seq<seq<Token>>>, maxCols: nat)
    ensures rows == Rows(table, |table.children|) && maxCols == MaxCols(rows, |rows|)
    decreases table, 1
  {
    rows, maxCols := [], 0;
    for i := 0 to |table.children|
      invariant rows == Rows(table, i) && maxCols == MaxCols(rows, |rows|)
    {
      var row := table.children[i];
      if row.kind != TableRow {
        continue;
      }
      var cells := ReadRow(row);
      MaxColsPrefix(rows, cells, |rows|);
      rows := rows + [cells];
      if |cells| > maxCols {
        maxCols := |cells|;
      }
    }
  }

  lemma {:induction false} MaxColsPrefix(rows: seq<seq<seq<Token>>>, row: seq<seq<Token>>, n: nat)
    requires n <= |rows|
    ensures MaxCols(rows + [row], n) == MaxCols(rows, n)
  {
    if n > 0 {
      MaxColsPrefix(rows, row, n - 1);
    }
  }

  method ReadRow(row: Node) returns (cells: seq<seq<Token>>)
    ensures cells == Cells(row, |row.children|)
    decreases row, 2
  {
    cells := [];
    for i := 0 to |row.children|
      invariant cells == Cells(row, i)
    {
      var cellSb := new Builder();
      WalkKids(row.children[i], cellSb, 0, false);
      assert cellSb.out == Flatten(Kids(row.children[i], |row.children[i].children|, 0, Nil));
      cells := cells + [Clean(cellSb.out)];
    }
  }

  method WriteGrid(rows: seq<seq<seq<Token>>>, cols: nat, sb: Builder)
    requires rows != [] && cols == MaxCols(rows, |rows|)
    modifies sb
    ensures sb.out == old(sb.out) + Flatten(Grid(rows))
  {
    WriteLine(rows[0], cols, sb);
    WriteSeparator(cols, sb);
    WriteBody(rows, cols, sb);
    sb.Write(Layout, "\n");
    GridWrites(old(sb.out), OneLine(Columns(rows[0], cols)), OneLine(Dashes(cols)), Lines(rows, |rows|, cols));
  }

  lemma GridWrites(before: seq<Token>, head: Doc, separator: Doc, body: Doc)
    ensures before + Flatten(head) + Flatten(separator) + Flatten(body) + [Newline]
         == before + Flatten(Cat(Cat(head, separator), Cat(body, One(Newline))))
  {
    assert Flatten(Cat(head, separator)) == Flatten(head) + Flatten(separator);
    assert Flatten(Cat(body, One(Newline))) == Flatten(body) + Flatten(One(Newline));
    Regroup(before, Flatten(head), Flatten(separator));
    Regroup(before + (Flatten(head) + Flatten(separator)), Flatten(body), [Newline]);
    Regroup(before, Flatten(head) + Flatten(separator), Flatten(body) + [Newline]);
  }

  method WriteBody(rows: seq<seq<seq<Token>>>, cols: nat, sb: Builder)
    requires rows != []
    modifies sb
    ensures sb.out == old(sb.out) + Flatten(Lines(rows, |rows|, cols))
  {
    for i := 1 to |rows|
      invariant sb.out == old(sb.out) + Flatten(Lines(rows, i, cols))
    {
      WriteLine(rows[i], cols, sb);
      Regroup(old(sb.out), Flatten(Lines(rows, i, cols)), Flatten(OneLine(Columns(rows[i], cols))));
    }
  }

  method WriteLine(row: seq<seq<Token>>, cols: nat, sb: Builder)
    modifies sb
    ensures sb.out == old(sb.out) + Flatten(OneLine(Columns(row, cols)))
  {
    sb.Write(Layout, "|");
    ghost var head := sb.out;
    for i := 0 to cols
      invariant sb.out == head + Flatten(Columns(row, i))
    {
      ghost var before := sb.out;
      if i < |row| {
        sb.out := sb.out + [Token(Layout, " ")] + row[i] + [Token(Layout, " |")];
        assert Flatten(Cat(Many(row[i]), One(Token(Layout, " |")))) == row[i] + [Token(Layout, " |")];
      } else {
        sb.Write(Layout, "  |");
      }
      assert sb.out == before + Flatten(Column(row, i));
      Regroup(head, Flatten(Columns(row, i)), Flatten(Column(row, i)));
    }
    sb.Write(Layout, "\n");
    LineWrites(old(sb.out), Columns(row, cols));
  }

  lemma LineWrites(before: seq<Token>, columns: Doc)
    ensures before + Flatten(OneLine(columns))
         == before + [Token(Layout, "|")] + Flatten(columns) + [Newline]
  {
    assert Flatten(Cat(columns, One(Newline))) == Flatten(columns) + Flatten(One(Newline));
  }

  method WriteSeparator(cols: nat, sb: Builder)
    modifies sb
    ensures sb.out == old(sb.out) + Flatten(OneLine(Dashes(cols)))
  {
    sb.Write(Layout, "|");
    ghost var head := sb.out;
    for i := 0 to cols
      invariant sb.out == head + Flatten(Dashes(i))
    {
      sb.Write(Layout, "---|");
    }
    sb.Write(Layout, "\n");
    LineWrites(old(sb.out), Dashes(cols));
  }
}
