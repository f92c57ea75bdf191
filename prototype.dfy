/** The value-level helpers of the earlier single-file prototype of the game:
    array removal, sprite-sheet cutting, rectangle tests, two-leg paths, the
    floor-based compass bucketing and bitmap-font text measurement. */
module Prototype {
  import opened Geometry
  import opened Utils

  /* ---------------------------------------------------------------------
     removeFromArray
     --------------------------------------------------------------------- */

  /** `array.indexOf(element)`: the first position holding the element, or
      -1 when there is none. */
  function FirstIndex<T(==)>(s: seq<T>, e: T): (i: int)
    ensures -1 <= i < |s|
    ensures i >= 0 ==> s[i] == e && e !in s[..i]
    ensures i == -1 <==> e !in s
  {
    if s == [] then -1
    else if s[0] == e then 0
    else
      var k := FirstIndex(s[1..], e);
      assert s[1..][..if k < 0 then 0 else k] == s[1..if k < 0 then 1 else k + 1];
      if k < 0 then -1 else k + 1
  }

  /** Any position that holds the element with no earlier copy is the first
      index. */
  lemma FirstIndexUnique<T>(s: seq<T>, e: T, i: int)
    requires 0 <= i < |s| && s[i] == e && e !in s[..i]
    ensures FirstIndex(s, e) == i
  {
  }

  /** The array after `removeFromArray(array, element)`. */
  function RemoveFirst<T(==)>(s: seq<T>, e: T): seq<T> {
    var i := FirstIndex(s, e);
    if i < 0 then s else s[..i] + s[i + 1..]
  }

  /** `removeFromArray`: splices out the first occurrence and leaves an
      array without the element untouched. */
  method RemoveFromArray<T(==)>(items: seq<T>, element: T) returns (result: seq<T>)
    ensures result == RemoveFirst(items, element)
  {
    var i := 0;
    while i < |items| && items[i] != element
      invariant 0 <= i <= |items|
      invariant element !in items[..i]
    {
      assert items[..i + 1] == items[..i] + [items[i]];
      i := i + 1;
    }
    var index := if i < |items| then i else -1;
    if index >= 0 {
      FirstIndexUnique(items, element, index);
      result := items[..index] + items[index + 1..];
    } else {
      assert items[..i] == items;
      result := items;
    }
  }

  /** Removal drops exactly one copy of a present element, keeps the order
      of the rest, and changes nothing when the element is absent. */
  lemma RemoveFirstDropsOneCopy<T>(s: seq<T>, e: T)
    ensures e !in s ==> RemoveFirst(s, e) == s
    ensures e in s ==> |RemoveFirst(s, e)| == |s| - 1
    ensures multiset(RemoveFirst(s, e)) == multiset(s) - multiset{e}
    ensures e in s ==> RemoveFirst(s, e)[..FirstIndex(s, e)] == s[..FirstIndex(s, e)]
  {
    var i := FirstIndex(s, e);
    var r := RemoveFirst(s, e);
    if i >= 0 {
      assert r == s[..i] + s[i + 1..];
      SpliceMultiset(s, i);
      assert r[..i] == s[..i];
    } else {
      assert r == s;
      assert multiset(s)[e] == 0;
    }
  }

  /** Splicing out position i takes exactly one copy of `s[i]` out of the
      multiset. */
  lemma SpliceMultiset<T>(s: seq<T>, i: nat)
    requires i < |s|
    ensures multiset(s[..i] + s[i + 1..]) == multiset(s) - multiset{s[i]}
  {
    var before, after := s[..i], s[i + 1..];
    assert s == before + [s[i]] + after;
    calc {
      multiset(s);
      multiset(before + [s[i]]) + multiset(after);
      multiset(before) + multiset{s[i]} + multiset(after);
    }
  }

  /** In a list without repeats, removal takes the element out and keeps
      every other member. */
  lemma RemoveFirstDistinct<T>(s: seq<T>, e: T)
    requires forall i, j :: 0 <= i < j < |s| ==> s[i] != s[j]
    ensures forall x :: x in RemoveFirst(s, e) <==> x in s && x != e
    ensures forall i, j :: 0 <= i < j < |RemoveFirst(s, e)| ==>
      RemoveFirst(s, e)[i] != RemoveFirst(s, e)[j]
  {
    var r := RemoveFirst(s, e);
    var k := FirstIndex(s, e);
    if k >= 0 {
      assert |r| == |s| - 1;
      assert forall m :: 0 <= m < |r| ==> r[m] == s[if m < k then m else m + 1];
      forall x ensures x in r <==> x in s && x != e {
        if x in r {
          var m :| 0 <= m < |r| && r[m] == x;
          assert s[if m < k then m else m + 1] == x;
        }
        if x in s && x != e {
          var m' :| 0 <= m' < |s| && s[m'] == x;
          assert r[if m' < k then m' else m' - 1] == x;
        }
      }
    }
  }

  /* ---------------------------------------------------------------------
     strip
     --------------------------------------------------------------------- */

  /** Both nested loops of `strip` step forward whenever they run. */
  predicate StripTerminates(sprite: Sprite, w: int, h: int) {
    (h > 0 || sprite.h <= 0) && (sprite.h <= 0 || w > 0 || sprite.w <= 0)
  }

  /** The frames of the row `top` pixels below the sheet's top edge: a
      `slice` of that `h`-high band. */
  function Row(sprite: Sprite, w: int, h: int, top: int): seq<Sprite>
    requires w > 0 || sprite.w <= 0
  {
    SliceFrames(sprite.(y := sprite.y + top, h := h), w)
  }

  /** The first `r` rows, top to bottom. */
  function StripRows(sprite: Sprite, w: int, h: int, r: nat): seq<Sprite>
    requires r == 0 || w > 0 || sprite.w <= 0
  {
    if r == 0 then [] else StripRows(sprite, w, h, r - 1) + Row(sprite, w, h, (r - 1) * h)
  }

  /** Specification of `strip(sprite, w, h)`: every row of the sheet in turn. */
  function StripFrames(sprite: Sprite, w: int, h: int): seq<Sprite>
    requires StripTerminates(sprite, w, h)
  {
    StripRows(sprite, w, h, StepCount(sprite.h, h))
  }

  /** `strip`: cuts a sheet into `w` by `h` frames, row by row. The loops
      only end if they step forward, so non-positive steps are admitted only
      for the empty extents they would never walk. */
  method Strip(sprite: Sprite, w: int, h: int) returns (sprites: seq<Sprite>)
    requires StripTerminates(sprite, w, h)
    ensures sprites == StripFrames(sprite, w, h)
  {
    sprites := [];
    ghost var r := 0;
    var y := 0;
    while y < sprite.h
      invariant y == r * h
      invariant sprite.h <= 0 ==> r == 0
      invariant sprite.h > 0 && r > 0 ==> (r - 1) * h < sprite.h
      invariant sprites == StripRows(sprite, w, h, r)
      decreases sprite.h - y
    {
      var row := StripRow(sprite, w, h, y);
      sprites := sprites + row;
      r := r + 1;
      y := y + h;
    }
    if sprite.h > 0 {
      StepCountUnique(sprite.h, h, r);
    }
  }

  /** The inner loop of `strip`: the frames of the row `y` pixels below the
      sheet's top edge, left to right. */
  method StripRow(sprite: Sprite, w: int, h: int, y: int) returns (row: seq<Sprite>)
    requires w > 0 || sprite.w <= 0
    ensures row == Row(sprite, w, h, y)
  {
    row := [];
    var x := 0;
    while x < sprite.w
      invariant x == |row| * w
      invariant sprite.w <= 0 ==> row == []
      invariant sprite.w > 0 && |row| > 0 ==> (|row| - 1) * w < sprite.w
      invariant forall i :: 0 <= i < |row| ==>
        row[i] == sprite.(x := sprite.x + i * w, y := sprite.y + y, w := w, h := h)
      decreases sprite.w - x
    {
      row := row + [sprite.(x := sprite.x + x, y := sprite.y + y, w := w, h := h)];
      x := x + w;
    }
    if sprite.w > 0 {
      StepCountUnique(sprite.w, w, |row|);
    }
  }

  /** Division by a positive divisor recovers the quotient and remainder it
      was built from. */
  lemma DivModOf(k: int, n: int, q: int, c: int)
    requires n > 0 && 0 <= c < n && k == q * n + c
    ensures k / n == q && k % n == c
  {
    var q', c' := k / n, k % n;
    assert k == q' * n + c';
    if q' < q {
      MulMonotonic(q' + 1, q, n);
    } else if q' > q {
      MulMonotonic(q + 1, q', n);
    }
  }

  /** The frame in row `row` and column `col` of a sheet. */
  function Cell(sprite: Sprite, w: int, h: int, row: int, col: int): Sprite {
    sprite.(x := sprite.x + col * w, y := sprite.y + row * h, w := w, h := h)
  }

  lemma {:induction false} StripRowsLayout(sprite: Sprite, w: int, h: int, r: nat)
    requires r == 0 || w > 0 || sprite.w <= 0
    ensures var cols := if r == 0 then 0 else StepCount(sprite.w, w);
      && |StripRows(sprite, w, h, r)| == r * cols
      && (cols > 0 ==> forall k :: 0 <= k < r * cols ==>
            StripRows(sprite, w, h, r)[k] == Cell(sprite, w, h, k / cols, k % cols))
  {
    if r > 0 {
      var cols := StepCount(sprite.w, w);
      var prev := StripRows(sprite, w, h, r - 1);
      var row := Row(sprite, w, h, (r - 1) * h);
      StripRowsLayout(sprite, w, h, r - 1);
      assert |prev| == (r - 1) * cols;
      assert |row| == cols;
      if cols > 0 {
        forall k | 0 <= k < r * cols
          ensures StripRows(sprite, w, h, r)[k] == Cell(sprite, w, h, k / cols, k % cols)
        {
          if k >= (r - 1) * cols {
            var c := k - (r - 1) * cols;
            DivModOf(k, cols, r - 1, c);
            assert StripRows(sprite, w, h, r)[k] == row[c];
          }
        }
      }
    }
  }

  /** `strip` yields one frame per (row, column) pair, in row-major order:
      frame k is the `w` by `h` cell at column `k % cols` and row `k / cols`
      of the sheet. */
  lemma StripLayout(sprite: Sprite, w: int, h: int)
    requires w > 0 && h > 0
    ensures var rows, cols := StepCount(sprite.h, h), StepCount(sprite.w, w);
      && |StripFrames(sprite, w, h)| == rows * cols
      && forall k :: 0 <= k < rows * cols ==>
           StripFrames(sprite, w, h)[k] == Cell(sprite, w, h, k / cols, k % cols)
  {
    StripRowsLayout(sprite, w, h, StepCount(sprite.h, h));
  }

  /* ---------------------------------------------------------------------
     isPointInRect
     --------------------------------------------------------------------- */

  /** An axis-aligned rectangle by its two corners. */
  datatype Rectangle = Rectangle(x1: real, y1: real, x2: real, y2: real)

  /** `isPointInRect`: the point lies in the closed rectangle. */
  predicate IsPointInRect(point: Point, rectangle: Rectangle) {
    point.x >= rectangle.x1 && point.y >= rectangle.y1 &&
    point.x <= rectangle.x2 && point.y <= rectangle.y2
  }

  /** Moving the point and the rectangle together does not change the test,
      and only rectangles with ordered corners contain anything. */
  lemma PointInRectShape(point: Point, rectangle: Rectangle, dx: real, dy: real)
    ensures IsPointInRect(Point(point.x + dx, point.y + dy),
      Rectangle(rectangle.x1 + dx, rectangle.y1 + dy, rectangle.x2 + dx, rectangle.y2 + dy))
      <==> IsPointInRect(point, rectangle)
    ensures IsPointInRect(point, rectangle) ==> rectangle.x1 <= rectangle.x2 && rectangle.y1 <= rectangle.y2
  {
  }

  /* ---------------------------------------------------------------------
     findPath
     --------------------------------------------------------------------- */

  function Abs(v: real): (a: real)
    ensures a >= 0.0 && (a == v || a == -v)
  {
    if v < 0.0 then -v else v
  }

  /** `Math.sign`. */
  function Sign(v: real): (s: real)
    ensures s * v == Abs(v)
    ensures s == 0.0 || s == 1.0 || s == -1.0
  {
    if v > 0.0 then 1.0 else if v < 0.0 then -1.0 else 0.0
  }

  /** `findPath`: a diagonal leg covering the shorter of the two axis gaps,
      then an axis-aligned leg to the target. The checkpoint is the same
      distance `min(|dx|, |dy|)` from the start along both axes, lies
      between start and target on each axis, and shares one coordinate with
      the target. */
  function FindPath(p1: Point, p2: Point): (path: seq<Point>)
    ensures |path| == 2 && path[1] == p2
    ensures var d := if Abs(p2.x - p1.x) < Abs(p2.y - p1.y) then Abs(p2.x - p1.x) else Abs(p2.y - p1.y);
      Abs(path[0].x - p1.x) == d && Abs(path[0].y - p1.y) == d
    ensures (p1.x <= path[0].x <= p2.x) || (p2.x <= path[0].x <= p1.x)
    ensures (p1.y <= path[0].y <= p2.y) || (p2.y <= path[0].y <= p1.y)
    ensures path[0].x == p2.x || path[0].y == p2.y
  {
    var dx := p2.x - p1.x;
    var dy := p2.y - p1.y;
    var d := if Abs(dx) < Abs(dy) then Abs(dx) else Abs(dy);
    [Point(p1.x + d * Sign(dx), p1.y + d * Sign(dy)), p2]
  }

  /* ---------------------------------------------------------------------
     getDirectionFromAngle (floor-based)
     --------------------------------------------------------------------- */

  /** The prototype's `getDirectionFromAngle`: one turn is added to a
      negative angle, and the fraction of a turn times eight is floored. The
      result is cast to a direction without a range check. */
  function FloorDirectionIndex(radians: real): (index: int)
    ensures -TWO_PI <= radians < TWO_PI ==> 0 <= index < 8
  {
    var r := if radians < 0.0 then TWO_PI + radians else radians;
    (r / TWO_PI * 8.0).Floor
  }

  /** Sector k of the floor-based compass is the arc [k/8, (k+1)/8) of a
      turn, reached either directly or as a negative angle one turn lower. */
  lemma FloorDirectionSector(radians: real, k: int)
    requires 0 <= k < 8
    requires k as real * TWO_PI / 8.0 <= radians < (k + 1) as real * TWO_PI / 8.0
    ensures FloorDirectionIndex(radians) == k
    ensures FloorDirectionIndex(radians - TWO_PI) == k
  {
    var x := radians / TWO_PI * 8.0;
    assert k as real <= x < (k + 1) as real;
    assert TWO_PI + (radians - TWO_PI) == radians;
  }

  /** One full turn or more falls outside the eight directions: the
      unchecked cast only holds on [-TWO_PI, TWO_PI). */
  lemma FloorDirectionFullTurn()
    ensures FloorDirectionIndex(TWO_PI) == 8
    ensures FloorDirectionIndex(-TWO_PI - 1.0) < 0
  {
    var y := (-1.0) / TWO_PI * 8.0;
    assert -2.0 < y < 0.0;
  }

  /* ---------------------------------------------------------------------
     measureText
     --------------------------------------------------------------------- */

  /** `GLYPH_WIDTH`. */
  const GLYPH_WIDTH: nat := 5

  /** Advance of one glyph of the bitmap font: the override table, else
      `GLYPH_WIDTH`. */
  function GlyphWidth(ch: char): (w: nat)
    ensures 2 <= w <= 6
  {
    match ch
    case 'i' | 'j' | 'l' | 'z' | '[' | ']' | ' ' => 3
    case 'c' | 't' | 'y' | 'r' | 'e' | 'f' | 'g' | 'h' | 'o' | 'q' | 'p' | 'v' | 's' | 'n' | 'I' => 4
    case 'N' | 'm' | 'w' => 6
    case '|' => 2
    case _ => GLYPH_WIDTH
  }

  /** The sum of the glyph advances of a line of text. */
  function TextWidth(text: string): nat
    decreases |text|
  {
    if text == [] then 0 else TextWidth(text[..|text| - 1]) + GlyphWidth(text[|text| - 1])
  }

  /** `measureText`: tracks a running width and its maximum; every advance
      is positive, so the maximum is the full sum. */
  method MeasureText(text: string) returns (maxWidth: int)
    ensures maxWidth == TextWidth(text)
  {
    maxWidth := 0;
    var currentWidth := 0;
    for i := 0 to |text|
      invariant currentWidth == TextWidth(text[..i])
      invariant maxWidth == currentWidth
    {
      assert text[..i + 1][..i] == text[..i];
      currentWidth := currentWidth + GlyphWidth(text[i]);
      if currentWidth > maxWidth {
        maxWidth := currentWidth;
      }
    }
    assert text[..|text|] == text;
  }

  /** Text widths add up across a concatenation. */
  lemma {:induction false} TextWidthAppend(a: string, b: string)
    ensures TextWidth(a + b) == TextWidth(a) + TextWidth(b)
    decreases |b|
  {
    if b != [] {
      var b' := b[..|b| - 1];
      assert (a + b)[..|a + b| - 1] == a + b';
      assert (a + b)[|a + b| - 1] == b[|b| - 1];
      TextWidthAppend(a, b');
      assert TextWidth(a + b) == TextWidth(a + b') + GlyphWidth(b[|b| - 1]);
    } else {
      assert a + b == a;
    }
  }

  /** The empty line is zero wide, and a line is between two and six pixels
      per character wide. */
  lemma {:induction false} TextWidthBounds(text: string)
    ensures text == [] ==> TextWidth(text) == 0
    ensures 2 * |text| <= TextWidth(text) <= 6 * |text|
    decreases |text|
  {
    if text != [] {
      TextWidthBounds(text[..|text| - 1]);
    }
  }
}
