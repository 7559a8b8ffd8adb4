/** The layout arithmetic of the footer menu (`renderMenu`) and the
    horizontal-overflow test (`hasHorizontalOverflow`) of
    internal/ui/model.go. Display width (ansi.StringWidth) is a parameter. */
module Layout {
  import opened Text

  /** Columns reserved for a block's key. */
  const KeyWidth := 2

  /** One key/label entry of the footer menu. */
  datatype MenuBlock = MenuBlock(key: string, text: string)

  /** A block that is drawn, with the columns given to its key and its label. */
  datatype Cell = Cell(block: MenuBlock, keyWidth: int, labelWidth: int)

  /** The menu spans the terminal width, never less than zero. */
  function MenuWidth(width: int): (w: nat)
    ensures width >= 0 ==> w == width
    ensures width < 0 ==> w == 0
  {
    if width < 0 then 0 else width
  }

  /** Block widths: every block gets `total / count` columns and the
      left-most `total % count` blocks one more. */
  function Widths(total: nat, count: nat): (ws: seq<int>)
    requires count > 0
    ensures |ws| == count
  {
    seq(count, i requires 0 <= i < count => total / count + (if i < total % count then 1 else 0))
  }

  function Sum(s: seq<int>): int {
    if s == [] then 0 else Sum(s[..|s| - 1]) + s[|s| - 1]
  }

  /** The first `k` blocks take `k` base widths plus one column for each of
      them that lies in the remainder. */
  lemma {:induction false} WidthsPrefixSum(total: nat, count: nat, k: nat)
    requires count > 0 && k <= count
    ensures Sum(Widths(total, count)[..k]) == k * (total / count) + (if k < total % count then k else total % count)
    decreases k
  {
    var ws := Widths(total, count);
    if k > 0 {
      WidthsPrefixSum(total, count, k - 1);
      assert ws[..k][..k - 1] == ws[..k - 1];
      assert k * (total / count) == (k - 1) * (total / count) + total / count;
    }
  }

  /** No column is lost or invented: the block widths add up to the total. */
  lemma WidthsSum(total: nat, count: nat)
    requires count > 0
    ensures Sum(Widths(total, count)) == total
  {
    WidthsPrefixSum(total, count, count);
    assert Widths(total, count)[..count] == Widths(total, count);
  }

  /** A block gets at least one column exactly when it is among the first
      `total` blocks: a menu narrower than its block count loses its last blocks. */
  lemma WidthPositive(total: nat, count: nat, i: nat)
    requires count > 0 && i < count
    ensures Widths(total, count)[i] > 0 <==> i < total
  {
    if total < count {
      assert total / count == 0 && total % count == total;
    } else {
      assert total / count >= 1 by {
        assert total == count * (total / count) + total % count;
      }
    }
  }

  /** The block widths of `renderMenu`, filled into a fresh array. */
  method BlockWidths(width: int, blockCount: nat) returns (widths: array<int>)
    requires blockCount > 0
    ensures fresh(widths)
    ensures widths[..] == Widths(MenuWidth(width), blockCount)
  {
    var menuWidth := if width < 0 then 0 else width;
    var baseWidth := menuWidth / blockCount;
    var remainder := menuWidth % blockCount;
    widths := new int[blockCount];
    var i := 0;
    while i < blockCount
      invariant 0 <= i <= blockCount
      invariant widths[..i] == Widths(menuWidth, blockCount)[..i]
    {
      widths[i] := baseWidth;
      if i < remainder {
        widths[i] := widths[i] + 1;
      }
      i := i + 1;
    }
    assert widths[..blockCount] == widths[..];
  }

  /** How a block of positive width is split: the key column takes up to
      `KeyWidth` columns and the label whatever remains. */
  function Columns(block: MenuBlock, blockWidth: int): (c: Cell)
    requires blockWidth > 0
    ensures c.block == block
    ensures c.keyWidth + c.labelWidth == blockWidth
    ensures 0 < c.keyWidth <= KeyWidth && 0 <= c.labelWidth
    ensures c.labelWidth > 0 ==> c.keyWidth == KeyWidth
  {
    var keyWidth := if KeyWidth > blockWidth then blockWidth else KeyWidth;
    Cell(block, keyWidth, blockWidth - keyWidth)
  }

  function CellsWidth(cells: seq<Cell>): int {
    if cells == [] then 0 else CellsWidth(cells[..|cells| - 1]) + cells[|cells| - 1].keyWidth + cells[|cells| - 1].labelWidth
  }

  /** The cells drawn for the first `n` blocks: a block of width zero is
      skipped, the others are split into key and label columns. */
  function Drawn(blocks: seq<MenuBlock>, ws: seq<int>, n: nat): seq<Cell>
    requires n <= |blocks| && n <= |ws|
  {
    if n == 0 then []
    else
      var before := Drawn(blocks, ws, n - 1);
      if ws[n - 1] > 0 then before + [Columns(blocks[n - 1], ws[n - 1])] else before
  }

  /** When exactly the first `total` widths are positive, the first `n`
      blocks draw min(n, total) cells: those of the first blocks, in block
      order. */
  lemma {:induction false} DrawnCells(blocks: seq<MenuBlock>, ws: seq<int>, total: nat, n: nat)
    requires n <= |blocks| == |ws|
    requires forall j :: 0 <= j < |ws| ==> (ws[j] > 0 <==> j < total)
    ensures |Drawn(blocks, ws, n)| == if n < total then n else total
    ensures forall j :: 0 <= j < |Drawn(blocks, ws, n)| ==>
      Drawn(blocks, ws, n)[j] == Columns(blocks[j], ws[j])
  {
    if n > 0 {
      DrawnCells(blocks, ws, total, n - 1);
    }
  }

  /** The cells drawn for the first `n` blocks are as wide together as the
      first `n` widths, when no width is negative. */
  lemma {:induction false} DrawnWidth(blocks: seq<MenuBlock>, ws: seq<int>, n: nat)
    requires n <= |blocks| == |ws|
    requires forall j :: 0 <= j < |ws| ==> ws[j] >= 0
    ensures CellsWidth(Drawn(blocks, ws, n)) == Sum(ws[..n])
  {
    if n > 0 {
      DrawnWidth(blocks, ws, n - 1);
      var before := Drawn(blocks, ws, n - 1);
      assert ws[..n][..n - 1] == ws[..n - 1];
      if ws[n - 1] > 0 {
        var cell := Columns(blocks[n - 1], ws[n - 1]);
        assert (before + [cell])[..|before|] == before;
      }
    }
  }

  /** Each cell is the block at its position, split by `Columns` at that
      block's balanced share of the menu width, which is positive. */
  predicate SplitAtWidths(blocks: seq<MenuBlock>, width: int, cells: seq<Cell>) {
    && 0 < |blocks| && |cells| <= |blocks|
    && forall i :: 0 <= i < |cells| ==>
         && Widths(MenuWidth(width), |blocks|)[i] > 0
         && cells[i] == Columns(blocks[i], Widths(MenuWidth(width), |blocks|)[i])
  }

  /** The drawing loop of `renderMenu`: blocks of width zero are skipped, the
      others are split into key and label columns. Exactly the first
      min(count, width) blocks are drawn and together they fill the width. */
  method Arrange(blocks: seq<MenuBlock>, width: int) returns (cells: seq<Cell>)
    ensures |blocks| == 0 ==> cells == []
    ensures |blocks| > 0 ==> cells == Drawn(blocks, Widths(MenuWidth(width), |blocks|), |blocks|)
    ensures |blocks| > 0 ==>
      |cells| == if |blocks| < MenuWidth(width) then |blocks| else MenuWidth(width)
    ensures |blocks| > 0 ==> SplitAtWidths(blocks, width, cells)
    ensures |blocks| > 0 ==> CellsWidth(cells) == MenuWidth(width)
  {
    if |blocks| == 0 {
      return [];
    }
    var widths := BlockWidths(width, |blocks|);
    ghost var ws := widths[..];
    cells := [];
    var i := 0;
    while i < |blocks|
      invariant 0 <= i <= |blocks|
      invariant cells == Drawn(blocks, ws, i)
    {
      if widths[i] > 0 {
        cells := cells + [Columns(blocks[i], widths[i])];
      }
      i := i + 1;
    }
    DrawnMenu(blocks, width);
  }

  /** What drawing every block at its balanced width gives: the first
      min(count, width) blocks, each split at its share, filling the width. */
  lemma DrawnMenu(blocks: seq<MenuBlock>, width: int)
    requires |blocks| > 0
    ensures var cells := Drawn(blocks, Widths(MenuWidth(width), |blocks|), |blocks|);
      && |cells| == (if |blocks| < MenuWidth(width) then |blocks| else MenuWidth(width))
      && SplitAtWidths(blocks, width, cells)
      && CellsWidth(cells) == MenuWidth(width)
  {
    var total := MenuWidth(width);
    var ws := Widths(total, |blocks|);
    WidthsFacts(total, |blocks|);
    DrawnCells(blocks, ws, total, |blocks|);
    DrawnWidth(blocks, ws, |blocks|);
    assert ws[..|blocks|] == ws;
  }

  /** The facts about the block widths that the drawing loop relies on. */
  lemma WidthsFacts(total: nat, count: nat)
    requires count > 0
    ensures forall i :: 0 <= i < count ==> Widths(total, count)[i] >= 0
    ensures forall i :: 0 <= i < count ==> (Widths(total, count)[i] > 0 <==> i < total)
    ensures Sum(Widths(total, count)) == total
  {
    forall i | 0 <= i < count
      ensures Widths(total, count)[i] > 0 <==> i < total
    {
      WidthPositive(total, count, i);
    }
    WidthsSum(total, count);
  }

  /** Some line of the content, once CRLF is normalized, is wider than a
      positive `width`. */
  predicate Overflows(content: string, width: int, displayWidth: string -> nat) {
    width > 0 && AnyWider(Lines(content), width, displayWidth)
  }

  /** Some line is wider than `width`, looking from the first line on. */
  predicate AnyWider(lines: seq<string>, width: int, displayWidth: string -> nat) {
    |lines| > 0 && (displayWidth(lines[0]) > width || AnyWider(lines[1..], width, displayWidth))
  }

  /** AnyWider holds exactly when some line is wider than `width`. */
  lemma {:induction false} AnyWiderMeans(lines: seq<string>, width: int, displayWidth: string -> nat)
    ensures AnyWider(lines, width, displayWidth) <==>
      exists i :: 0 <= i < |lines| && displayWidth(lines[i]) > width
  {
    if |lines| > 0 {
      AnyWiderMeans(lines[1..], width, displayWidth);
      if exists i :: 0 <= i < |lines| && displayWidth(lines[i]) > width {
        var i :| 0 <= i < |lines| && displayWidth(lines[i]) > width;
        if i > 0 {
          assert lines[1..][i - 1] == lines[i];
        }
      }
      if exists i :: 0 <= i < |lines[1..]| && displayWidth(lines[1..][i]) > width {
        var i :| 0 <= i < |lines[1..]| && displayWidth(lines[1..][i]) > width;
        assert lines[i + 1] == lines[1..][i];
      }
    }
  }

  /** Overflows, stated directly: the width is positive and some line of
      the content is wider. */
  lemma OverflowsMeans(content: string, width: int, displayWidth: string -> nat)
    ensures Overflows(content, width, displayWidth) <==>
      width > 0 && exists i :: 0 <= i < |Lines(content)| && displayWidth(Lines(content)[i]) > width
  {
    AnyWiderMeans(Lines(content), width, displayWidth);
  }

  /** `hasHorizontalOverflow`, a scan over the lines that stops at the first
      one wider than `width`. */
  method HasHorizontalOverflow(content: string, width: int, displayWidth: string -> nat) returns (overflow: bool)
    ensures overflow <==> Overflows(content, width, displayWidth)
    ensures width <= 0 ==> !overflow
  {
    if width <= 0 {
      return false;
    }
    var lines := Lines(content);
    var i := 0;
    while i < |lines|
      invariant 0 <= i <= |lines|
      invariant AnyWider(lines, width, displayWidth) == AnyWider(lines[i..], width, displayWidth)
    {
      if displayWidth(lines[i]) > width {
        return true;
      }
      assert lines[i..][1..] == lines[i + 1..];
      i := i + 1;
    }
    return false;
  }
}
