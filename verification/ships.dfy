/** Points and ships: the `Dot` and `Ship` classes of main.py. */
module Ships {

  /** A cell position compared by value; `x` indexes the row, `y` the column. */
  datatype Dot = Dot(x: int, y: int)

  /** A ship: the cell of its nose, its length, its orientation (0 steps
      along `x`, 1 steps along `y`) and the number of lives it has left. */
  datatype Ship = Ship(nose: Dot, length: int, orientation: int, lives: int)

  /** A freshly built ship has as many lives as cells. */
  function NewShip(nose: Dot, length: int, orientation: int): (r: Ship)
    ensures r.nose == nose && r.length == length && r.orientation == orientation
    ensures Shaped(r) ==> r.lives == |Dots(r)| && r.lives >= 1
  {
    Ship(nose, length, orientation, length)
  }

  /** The ships whose `dots` is a list. For a length below 1 or any other
      orientation the source's `dots` falls through and yields `None`, and
      every caller then fails with a type error. */
  predicate Shaped(s: Ship)
  {
    s.length >= 1 && (s.orientation == 0 || s.orientation == 1)
  }

  predicate AllShaped(ships: seq<Ship>)
  {
    forall i :: 0 <= i < |ships| ==> Shaped(ships[i])
  }

  /** `p` moved `k` cells along the axis an orientation selects. */
  function Shift(p: Dot, orientation: int, k: int): Dot
  {
    if orientation == 0 then Dot(p.x + k, p.y) else Dot(p.x, p.y + k)
  }

  /** No cell occurs twice. */
  predicate NoDup(s: seq<Dot>)
  {
    forall i, j :: 0 <= i < j < |s| ==> s[i] != s[j]
  }

  /** `dots`: the cells of a ship, nose first. */
  function Dots(s: Ship): (r: seq<Dot>)
    requires Shaped(s)
    ensures |r| == s.length
  {
    seq(s.length, i => Shift(s.nose, s.orientation, i))
  }

  /** The cells of a ship form a straight run: it starts at the nose, each
      cell is one step further along the ship's axis than the one before,
      and no cell repeats. */
  lemma DotsLine(s: Ship)
    requires Shaped(s)
    ensures Dots(s)[0] == s.nose
    ensures forall i :: 0 <= i < s.length - 1 ==> Dots(s)[i + 1] == Shift(Dots(s)[i], s.orientation, 1)
    ensures NoDup(Dots(s))
  {
  }

  /** `shooten`: whether a shot lands on the ship. */
  predicate Shooten(s: Ship, p: Dot)
    requires Shaped(s)
  {
    p in Dots(s)
  }

  /** The i-th cell of a ship is its nose moved i cells along its axis, and a
      shot hits exactly those cells. */
  lemma ShootenIff(s: Ship, p: Dot)
    requires Shaped(s)
    ensures Shooten(s, p) <==> exists i :: 0 <= i < s.length && p == Shift(s.nose, s.orientation, i)
    ensures forall i :: 0 <= i < s.length ==> Dots(s)[i] == Shift(s.nose, s.orientation, i)
  {
    var ds := Dots(s);
    if p in ds {
      var i :| 0 <= i < |ds| && ds[i] == p;
      assert p == Shift(s.nose, s.orientation, i);
    }
    if i :| 0 <= i < s.length && p == Shift(s.nose, s.orientation, i) {
      assert ds[i] == p;
    }
  }

  /** Two cells touch when they are equal or 8-adjacent (Chebyshev distance at most 1). */
  predicate Touch(a: Dot, b: Dot)
  {
    -1 <= a.x - b.x <= 1 && -1 <= a.y - b.y <= 1
  }

  /** The nine cells `contour` visits around one ship cell, in the order of
      its offset table. */
  function Around(d: Dot): (r: seq<Dot>)
    ensures |r| == 9
  {
    [Dot(d.x - 1, d.y - 1), Dot(d.x - 1, d.y), Dot(d.x - 1, d.y + 1),
     Dot(d.x, d.y - 1), Dot(d.x, d.y), Dot(d.x, d.y + 1),
     Dot(d.x + 1, d.y - 1), Dot(d.x + 1, d.y), Dot(d.x + 1, d.y + 1)]
  }

  /** The offset table covers exactly the cells touching `d`. */
  lemma AroundTouch(d: Dot)
    ensures forall c :: c in Around(d) <==> Touch(c, d)
  {
  }

  /** The candidates `contour` visits for a list of ship cells, in visiting order. */
  function Halo(ds: seq<Dot>): (r: seq<Dot>)
    ensures |r| == 9 * |ds|
  {
    if ds == [] then [] else Around(ds[0]) + Halo(ds[1..])
  }

  /** The halo holds exactly the cells touching one of the given cells. */
  lemma {:induction false} HaloTouch(ds: seq<Dot>)
    ensures forall c :: c in Halo(ds) <==> exists d :: d in ds && Touch(c, d)
  {
    if ds != [] {
      AroundTouch(ds[0]);
      HaloTouch(ds[1..]);
      assert forall d :: d in ds <==> d == ds[0] || d in ds[1..];
    }
  }
}
