/**
 * Display: the 32 x 64 grid of one-bit pixels (`pixels[row][column]`) and
 * the XOR sprite composition of DXYN.  A sprite is a sequence of bytes, one
 * per row, eight pixels wide, most significant bit leftmost; it is placed
 * with its top left corner at (x, y) and wraps around both edges.
 */
module Display {
  import opened Bytes

  const HEIGHT: nat := 32
  const WIDTH: nat := 64
  const SPRITE_WIDTH: nat := 8

  type Grid = seq<seq<bool>>

  predicate IsGrid(g: Grid) {
    |g| == HEIGHT && forall r :: 0 <= r < HEIGHT ==> |g[r]| == WIDTH
  }

  /** The dark screen that 00E0 installs. */
  function Cleared(): (g: Grid)
    ensures IsGrid(g)
    ensures forall r, c :: 0 <= r < HEIGHT && 0 <= c < WIDTH ==> !g[r][c]
  {
    seq(HEIGHT, _ => seq(WIDTH, _ => false))
  }

  /**
   * Whether pixel (r, c) is under a set bit of `rows` drawn at (x, y) that
   * comes before bit `j` of row `i` in the source's drawing order (row by
   * row, each row left to right).  The sprite row and column under (r, c)
   * are (r - y) mod 32 and (c - x) mod 64; a sprite has at most 32 rows
   * and 8 columns, so each pixel lies under at most one sprite bit.
   */
  predicate DrawnBefore(rows: seq<byte>, x: nat, y: nat, i: nat, j: nat, r: int, c: int) {
    var si := (r - y) % HEIGHT;
    var sj := (c - x) % WIDTH;
    si < |rows| && sj < SPRITE_WIDTH && SpriteBit(rows[si], sj) && (si < i || (si == i && sj < j))
  }

  /** Whether drawing all of `rows` at (x, y) toggles pixel (r, c). */
  predicate Covers(rows: seq<byte>, x: nat, y: nat, r: int, c: int) {
    DrawnBefore(rows, x, y, |rows|, 0, r, c)
  }

  /** The grid after drawing `rows` at (x, y) by XOR. */
  function Draw(g: Grid, rows: seq<byte>, x: nat, y: nat): (d: Grid)
    requires IsGrid(g)
    ensures IsGrid(d)
  {
    seq(HEIGHT, r requires 0 <= r < HEIGHT =>
      seq(WIDTH, c requires 0 <= c < WIDTH => g[r][c] != Covers(rows, x, y, r, c)))
  }

  /** Some set bit drawn before bit `j` of row `i` lands on a pixel lit in `g`. */
  predicate CollidedBefore(g: Grid, rows: seq<byte>, x: nat, y: nat, i: nat, j: nat)
    requires IsGrid(g)
  {
    exists si, sj :: 0 <= si < |rows| && 0 <= sj < SPRITE_WIDTH && (si < i || (si == i && sj < j))
      && SpriteBit(rows[si], sj) && g[(y + si) % HEIGHT][(x + sj) % WIDTH]
  }

  /** Drawing `rows` at (x, y) onto `g` hits a lit pixel: the collision flag of DXYN. */
  predicate Collides(g: Grid, rows: seq<byte>, x: nat, y: nat)
    requires IsGrid(g)
  {
    CollidedBefore(g, rows, x, y, |rows|, 0)
  }

  /** Row arithmetic modulo the screen height: a sprite row maps to one screen row and back. */
  lemma WrapRow(y: nat, i: nat, r: int)
    requires i < HEIGHT && 0 <= r < HEIGHT
    ensures ((y + i) % HEIGHT - y) % HEIGHT == i
    ensures (r - y) % HEIGHT == i ==> r == (y + i) % HEIGHT
  {
  }

  /** Column arithmetic modulo the screen width. */
  lemma WrapColumn(x: nat, j: nat, c: int)
    requires j < WIDTH && 0 <= c < WIDTH
    ensures ((x + j) % WIDTH - x) % WIDTH == j
    ensures (c - x) % WIDTH == j ==> c == (x + j) % WIDTH
  {
  }

  /** Drawing bit `j` of row `i` affects the one pixel it lands on and no other. */
  lemma DrawStep(rows: seq<byte>, x: nat, y: nat, i: nat, j: nat)
    requires i < |rows| <= HEIGHT && j < SPRITE_WIDTH
    ensures !DrawnBefore(rows, x, y, i, j, (y + i) % HEIGHT, (x + j) % WIDTH)
    ensures DrawnBefore(rows, x, y, i, j + 1, (y + i) % HEIGHT, (x + j) % WIDTH) <==> SpriteBit(rows[i], j)
    ensures forall r, c :: 0 <= r < HEIGHT && 0 <= c < WIDTH && !(r == (y + i) % HEIGHT && c == (x + j) % WIDTH) ==>
      DrawnBefore(rows, x, y, i, j + 1, r, c) == DrawnBefore(rows, x, y, i, j, r, c)
  {
    WrapRow(y, i, 0);
    WrapColumn(x, j, 0);
    forall r, c | 0 <= r < HEIGHT && 0 <= c < WIDTH && !(r == (y + i) % HEIGHT && c == (x + j) % WIDTH)
      ensures DrawnBefore(rows, x, y, i, j + 1, r, c) == DrawnBefore(rows, x, y, i, j, r, c)
    {
      WrapRow(y, i, r);
      WrapColumn(x, j, c);
    }
  }

  /** Finishing a row is the same as starting the next one. */
  lemma DrawRowDone(rows: seq<byte>, x: nat, y: nat, i: nat)
    ensures forall r, c :: DrawnBefore(rows, x, y, i, SPRITE_WIDTH, r, c) == DrawnBefore(rows, x, y, i + 1, 0, r, c)
  {
  }

  /** The collision flag after one more bit: it is raised when a set bit lands on a lit pixel. */
  lemma CollideStep(g: Grid, rows: seq<byte>, x: nat, y: nat, i: nat, j: nat)
    requires IsGrid(g) && i < |rows| && j < SPRITE_WIDTH
    ensures CollidedBefore(g, rows, x, y, i, j + 1) <==>
      CollidedBefore(g, rows, x, y, i, j) || (SpriteBit(rows[i], j) && g[(y + i) % HEIGHT][(x + j) % WIDTH])
  {
    if CollidedBefore(g, rows, x, y, i, j + 1) && !CollidedBefore(g, rows, x, y, i, j) {
      var si, sj :| 0 <= si < |rows| && 0 <= sj < SPRITE_WIDTH && (si < i || (si == i && sj < j + 1))
        && SpriteBit(rows[si], sj) && g[(y + si) % HEIGHT][(x + sj) % WIDTH];
      assert si == i && sj == j;
    }
  }

  lemma CollideRowDone(g: Grid, rows: seq<byte>, x: nat, y: nat, i: nat)
    requires IsGrid(g)
    ensures CollidedBefore(g, rows, x, y, i, SPRITE_WIDTH) == CollidedBefore(g, rows, x, y, i + 1, 0)
  {
  }

  /** Two grids with the same pixels are the same grid. */
  lemma GridExtensionality(g: Grid, h: Grid)
    requires IsGrid(g) && IsGrid(h)
    requires forall r, c :: 0 <= r < HEIGHT && 0 <= c < WIDTH ==> g[r][c] == h[r][c]
    ensures g == h
  {
    forall r | 0 <= r < HEIGHT
      ensures g[r] == h[r]
    {
      assert forall c :: 0 <= c < WIDTH ==> g[r][c] == h[r][c];
    }
  }

  /** Each bit j of sprite row i toggles pixel ((y + i) mod 32, (x + j) mod 64) when set and leaves it when clear. */
  lemma DrawTogglesSpriteBits(g: Grid, rows: seq<byte>, x: nat, y: nat, i: nat, j: nat)
    requires IsGrid(g) && |rows| <= HEIGHT && i < |rows| && j < SPRITE_WIDTH
    ensures var r, c := (y + i) % HEIGHT, (x + j) % WIDTH;
      Draw(g, rows, x, y)[r][c] == (g[r][c] != SpriteBit(rows[i], j))
  {
    WrapRow(y, i, 0);
    WrapColumn(x, j, 0);
  }

  /** A pixel changes exactly when some set sprite bit lands on it; every other pixel is left alone. */
  lemma DrawChangesExactlySprite(g: Grid, rows: seq<byte>, x: nat, y: nat, r: nat, c: nat)
    requires IsGrid(g) && |rows| <= HEIGHT && r < HEIGHT && c < WIDTH
    ensures Draw(g, rows, x, y)[r][c] != g[r][c] <==>
      exists i, j :: 0 <= i < |rows| && 0 <= j < SPRITE_WIDTH && SpriteBit(rows[i], j)
        && (y + i) % HEIGHT == r && (x + j) % WIDTH == c
  {
    if Draw(g, rows, x, y)[r][c] != g[r][c] {
      var i, j := (r - y) % HEIGHT, (c - x) % WIDTH;
      WrapRow(y, i, r);
      WrapColumn(x, j, c);
      assert SpriteBit(rows[i], j) && (y + i) % HEIGHT == r && (x + j) % WIDTH == c;
    }
    if exists i, j :: 0 <= i < |rows| && 0 <= j < SPRITE_WIDTH && SpriteBit(rows[i], j)
                      && (y + i) % HEIGHT == r && (x + j) % WIDTH == c
    {
      var i, j :| 0 <= i < |rows| && 0 <= j < SPRITE_WIDTH && SpriteBit(rows[i], j)
        && (y + i) % HEIGHT == r && (x + j) % WIDTH == c;
      DrawTogglesSpriteBits(g, rows, x, y, i, j);
    }
  }

  /** A collision turns off the lit pixel that the colliding bit lands on. */
  lemma CollisionTurnsPixelOff(g: Grid, rows: seq<byte>, x: nat, y: nat) returns (r: nat, c: nat)
    requires IsGrid(g) && |rows| <= HEIGHT && Collides(g, rows, x, y)
    ensures r < HEIGHT && c < WIDTH && g[r][c] && !Draw(g, rows, x, y)[r][c]
  {
    var i, j :| 0 <= i < |rows| && 0 <= j < SPRITE_WIDTH && (i < |rows| || (i == |rows| && j < 0))
      && SpriteBit(rows[i], j) && g[(y + i) % HEIGHT][(x + j) % WIDTH];
    DrawTogglesSpriteBits(g, rows, x, y, i, j);
    r, c := (y + i) % HEIGHT, (x + j) % WIDTH;
  }

  /** A lit pixel that the draw turns off is hit by a set sprite bit: a collision. */
  lemma PixelTurnedOffCollides(g: Grid, rows: seq<byte>, x: nat, y: nat, r: nat, c: nat)
    requires IsGrid(g) && |rows| <= HEIGHT && r < HEIGHT && c < WIDTH
    requires g[r][c] && !Draw(g, rows, x, y)[r][c]
    ensures Collides(g, rows, x, y)
  {
    assert Covers(rows, x, y, r, c);
    var i, j := (r - y) % HEIGHT, (c - x) % WIDTH;
    WrapRow(y, i, r);
    WrapColumn(x, j, c);
    assert SpriteBit(rows[i], j) && g[(y + i) % HEIGHT][(x + j) % WIDTH];
  }

  /** The collision flag is raised exactly when the draw turns some lit pixel off. */
  lemma CollisionIffPixelTurnedOff(g: Grid, rows: seq<byte>, x: nat, y: nat)
    requires IsGrid(g) && |rows| <= HEIGHT
    ensures Collides(g, rows, x, y) <==>
      exists r, c :: 0 <= r < HEIGHT && 0 <= c < WIDTH && g[r][c] && !Draw(g, rows, x, y)[r][c]
  {
    if Collides(g, rows, x, y) {
      var r, c := CollisionTurnsPixelOff(g, rows, x, y);
    }
    if exists r, c :: 0 <= r < HEIGHT && 0 <= c < WIDTH && g[r][c] && !Draw(g, rows, x, y)[r][c] {
      var r, c :| 0 <= r < HEIGHT && 0 <= c < WIDTH && g[r][c] && !Draw(g, rows, x, y)[r][c];
      PixelTurnedOffCollides(g, rows, x, y, r, c);
    }
  }

  /** Drawing the same sprite twice in the same place restores the grid. */
  lemma DrawTwiceRestores(g: Grid, rows: seq<byte>, x: nat, y: nat)
    requires IsGrid(g)
    ensures Draw(Draw(g, rows, x, y), rows, x, y) == g
  {
    GridExtensionality(Draw(Draw(g, rows, x, y), rows, x, y), g);
  }

  /** A sprite with a set bit collides on the first or on the second of two identical draws. */
  lemma DrawTwiceCollides(g: Grid, rows: seq<byte>, x: nat, y: nat, i: nat)
    requires IsGrid(g) && |rows| <= HEIGHT && i < |rows| && rows[i] != 0
    ensures Collides(g, rows, x, y) || Collides(Draw(g, rows, x, y), rows, x, y)
  {
    var j := NonZeroRowHasBit(rows[i]);
    DrawTogglesSpriteBits(g, rows, x, y, i, j);
    var r, c := (y + i) % HEIGHT, (x + j) % WIDTH;
    if !g[r][c] {
      assert Draw(g, rows, x, y)[r][c];
    }
  }

  /** On a dark screen a sprite with a set bit does not collide, and drawing it again does. */
  lemma DrawTwiceOnClearedScreen(rows: seq<byte>, x: nat, y: nat, i: nat)
    requires |rows| <= HEIGHT && i < |rows| && rows[i] != 0
    ensures !Collides(Cleared(), rows, x, y)
    ensures Collides(Draw(Cleared(), rows, x, y), rows, x, y)
    ensures Draw(Draw(Cleared(), rows, x, y), rows, x, y) == Cleared()
  {
    DrawTwiceCollides(Cleared(), rows, x, y, i);
    DrawTwiceRestores(Cleared(), rows, x, y);
  }
}
