/** The `Board` class of main.py: the cell matrix, the `busy` list, the placed
    ships and the destroyed-ship counter, with `out`, `contour`, `add_ship`,
    `shot` and `begin`. Each operation's contract says when it succeeds and
    what it keeps; the lemmas after it (`ContourTakes` and `ContourDraws`,
    `AddShipTakes` and `AddShipPaints`, `ShotDraws`) say which cells it takes
    and how it draws them. */
module Boards {
  import opened Wrappers
  import opened Ships

  /** One field cell; the source draws them as "O", "■", "X" and ".". */
  datatype Cell = Empty | Deck | Hit | Miss

  /** `BoardOutException`, `BoardUsedException` and `BoardWrongShipException`. */
  datatype BoardError = OutOfBoard | Used | WrongShip

  /** `field[x][y]` is the cell at `Dot(x, y)`; `busy` lists, in the order they
      were taken, the cells no longer open to placement or fire. */
  datatype Board = Board(size: nat, field: seq<seq<Cell>>, busy: seq<Dot>, ships: seq<Ship>, count: int)

  /** The field is a `size` by `size` matrix. */
  predicate Valid(b: Board)
  {
    |b.field| == b.size && forall x :: 0 <= x < |b.field| ==> |b.field[x]| == b.size
  }

  /** `Board(size=size)`: an all-"O" field, nothing busy, no ships, no kills. */
  function NewBoard(size: nat): (b: Board)
    ensures Valid(b) && b.size == size && b.busy == [] && b.ships == [] && b.count == 0
    ensures forall x, y :: 0 <= x < size && 0 <= y < size ==> b.field[x][y] == Empty
  {
    Board(size, seq(size, _ => seq(size, _ => Empty)), [], [], 0)
  }

  /** `out`: the cell lies off the board. */
  predicate Out(b: Board, d: Dot)
  {
    !(0 <= d.x < b.size && 0 <= d.y < b.size)
  }

  function CellAt(b: Board, p: Dot): Cell
    requires Valid(b) && !Out(b, p)
  {
    b.field[p.x][p.y]
  }

  /** Overwrites one on-board cell and nothing else. */
  function Paint(b: Board, p: Dot, c: Cell): (r: Board)
    requires Valid(b) && !Out(b, p)
    ensures Valid(r) && r == b.(field := r.field)
    ensures forall q :: !Out(b, q) ==> CellAt(r, q) == if q == p then c else CellAt(b, q)
  {
    b.(field := b.field[p.x := b.field[p.x][p.y := c]])
  }

  lemma NoDupAppend(a: seq<Dot>, c: seq<Dot>)
    requires NoDup(a) && NoDup(c)
    requires forall d :: d in c ==> d !in a
    ensures NoDup(a + c)
  {
    forall i, j | 0 <= i < j < |a + c|
      ensures (a + c)[i] != (a + c)[j]
    {
      if j >= |a| && i < |a| {
        assert (a + c)[j] in c;
      }
    }
  }

  /** The commit loop of `add_ship`: each ship cell is drawn as a deck and
      appended to `busy`, in order. */
  function Commit(b: Board, ds: seq<Dot>): (r: Board)
    requires Valid(b) && forall d :: d in ds ==> !Out(b, d)
    ensures Valid(r) && r == b.(field := r.field, busy := r.busy)
    ensures r.busy == b.busy + ds
    decreases |ds|
  {
    if ds == [] then b
    else
      assert forall q :: q in ds[1..] ==> q in ds;
      assert b.busy + ds == b.busy + [ds[0]] + ds[1..];
      Commit(Paint(b, ds[0], Deck).(busy := b.busy + [ds[0]]), ds[1..])
  }

  /** The commit loop draws a deck on exactly the ship cells. */
  lemma {:induction false} CommitDraws(b: Board, ds: seq<Dot>)
    requires Valid(b) && forall d :: d in ds ==> !Out(b, d)
    ensures forall q :: !Out(b, q) ==> CellAt(Commit(b, ds), q) == if q in ds then Deck else CellAt(b, q)
    decreases |ds|
  {
    if ds != [] {
      assert forall q :: q in ds <==> q == ds[0] || q in ds[1..];
      CommitDraws(Paint(b, ds[0], Deck).(busy := b.busy + [ds[0]]), ds[1..]);
    }
  }

  /** `contour` run over an explicit candidate list: every candidate on the
      board and not yet busy is appended to `busy`, and drawn as a miss when
      `mark` (the source's `verb`) is set. */
  function Reserve(b: Board, cands: seq<Dot>, mark: bool): (r: Board)
    requires Valid(b)
    ensures Valid(r) && r == b.(field := r.field, busy := r.busy)
    ensures |b.busy| <= |r.busy|
    ensures !mark ==> r.field == b.field
    decreases |cands|
  {
    if cands == [] then b
    else
      var c := cands[0];
      var next :=
        if Out(b, c) || c in b.busy then b
        else if mark then Paint(b, c, Miss).(busy := b.busy + [c])
        else b.(busy := b.busy + [c]);
      Reserve(next, cands[1..], mark)
  }

  /** What the contour loop takes: the old `busy` stays a prefix, and the
      cells added are exactly the on-board candidates not busy before, each
      once. */
  lemma {:induction false} ReserveTakes(b: Board, cands: seq<Dot>, mark: bool)
    requires Valid(b)
    ensures var r := Reserve(b, cands, mark);
      && r.busy[..|b.busy|] == b.busy
      && (forall c :: c in r.busy <==> c in b.busy || (c in cands && !Out(b, c)))
      && (NoDup(b.busy) ==> NoDup(r.busy))
    decreases |cands|
  {
    if cands != [] {
      var c := cands[0];
      var next :=
        if Out(b, c) || c in b.busy then b
        else if mark then Paint(b, c, Miss).(busy := b.busy + [c])
        else b.(busy := b.busy + [c]);
      ReserveTakes(next, cands[1..], mark);
      var r := Reserve(next, cands[1..], mark);
      assert r.busy[..|b.busy|] == next.busy[..|b.busy|] == b.busy;
      assert forall q :: q in cands <==> q == c || q in cands[1..];
    }
  }

  /** What the contour loop draws: with `mark` set, a miss on exactly the
      candidates it takes; without it, nothing. */
  lemma {:induction false} ReserveDraws(b: Board, cands: seq<Dot>, mark: bool)
    requires Valid(b)
    ensures forall q :: !Out(b, q) ==>
      CellAt(Reserve(b, cands, mark), q) == if mark && q in cands && q !in b.busy then Miss else CellAt(b, q)
    decreases |cands|
  {
    if cands != [] {
      var c := cands[0];
      var next :=
        if Out(b, c) || c in b.busy then b
        else if mark then Paint(b, c, Miss).(busy := b.busy + [c])
        else b.(busy := b.busy + [c]);
      ReserveDraws(next, cands[1..], mark);
      assert forall q :: q in cands <==> q == c || q in cands[1..];
    }
  }

  /** `contour(ship, verb)`: reserves every on-board cell touching the ship. */
  function Contour(b: Board, s: Ship, mark: bool): (r: Board)
    requires Valid(b) && Shaped(s)
    ensures Valid(r) && r == b.(field := r.field, busy := r.busy)
    ensures !mark ==> r.field == b.field
  {
    Reserve(b, Halo(Dots(s)), mark)
  }

  /** A cell lies within one step of some cell of the ship. */
  predicate Near(s: Ship, c: Dot)
    requires Shaped(s)
  {
    exists d :: d in Dots(s) && Touch(c, d)
  }

  /** What `contour` takes: the old `busy` stays a prefix, and a cell is busy
      afterwards exactly when it was busy before or is an on-board cell
      touching the ship; no cell is taken twice. */
  lemma ContourTakes(b: Board, s: Ship, mark: bool)
    requires Valid(b) && Shaped(s)
    ensures var r := Contour(b, s, mark);
      && |b.busy| <= |r.busy| && r.busy[..|b.busy|] == b.busy
      && (forall c :: c in r.busy <==> c in b.busy || (!Out(b, c) && Near(s, c)))
      && (NoDup(b.busy) ==> NoDup(r.busy))
  {
    HaloTouch(Dots(s));
    ReserveTakes(b, Halo(Dots(s)), mark);
  }

  /** What `contour` draws: with `mark` set, a miss on exactly the on-board
      cells touching the ship that were not busy before; nothing else
      changes. */
  lemma ContourDraws(b: Board, s: Ship, mark: bool)
    requires Valid(b) && Shaped(s)
    ensures forall q :: !Out(b, q) ==>
      CellAt(Contour(b, s, mark), q) == if mark && q !in b.busy && Near(s, q) then Miss else CellAt(b, q)
  {
    HaloTouch(Dots(s));
    ReserveDraws(b, Halo(Dots(s)), mark);
  }

  /** Every cell is on the board and not busy. */
  predicate Fits(b: Board, ds: seq<Dot>)
  {
    forall d :: d in ds ==> !Out(b, d) && d !in b.busy
  }

  /** `add_ship`: every ship cell is checked before anything changes; then the
      cells are drawn and taken, the ship is appended and its halo reserved
      without being drawn. A refused ship leaves the caller's board as it was. */
  function AddShip(b: Board, s: Ship): (r: Result<Board, BoardError>)
    requires Valid(b) && Shaped(s)
    ensures r.Ok? <==> Fits(b, Dots(s))
    ensures r.Err? ==> r.error == WrongShip
    ensures r.Ok? ==> Valid(r.value) && r.value.size == b.size && r.value.count == b.count
    ensures r.Ok? ==> r.value.ships == b.ships + [s]
  {
    var ds := Dots(s);
    if !Fits(b, ds) then Err(WrongShip)
    else Ok(Contour(Commit(b, ds).(ships := b.ships + [s]), s, false))
  }

  /** What `add_ship` takes: the old `busy` stays a prefix, and the cells
      added are exactly the on-board cells touching the ship (its own cells
      among them), each once. */
  lemma AddShipTakes(b: Board, s: Ship)
    requires Valid(b) && Shaped(s) && AddShip(b, s).Ok?
    ensures var r := AddShip(b, s).value;
      && |b.busy| <= |r.busy| && r.busy[..|b.busy|] == b.busy
      && (forall c :: c in r.busy <==> c in b.busy || (!Out(b, c) && Near(s, c)))
      && (NoDup(b.busy) ==> NoDup(r.busy))
  {
    var ds := Dots(s);
    var placed := Commit(b, ds).(ships := b.ships + [s]);
    DotsLine(s);
    ContourTakes(placed, s, false);
    if NoDup(b.busy) {
      NoDupAppend(b.busy, ds);
    }
    var r := AddShip(b, s).value;
    assert r.busy[..|b.busy|] == placed.busy[..|b.busy|];
    forall c
      ensures c in r.busy <==> c in b.busy || (!Out(b, c) && Near(s, c))
    {
      if c in ds {
        assert Touch(c, c);
      }
    }
  }

  /** What `add_ship` draws: a deck on exactly the ship cells; the reserved
      halo is not drawn. */
  lemma AddShipPaints(b: Board, s: Ship)
    requires Valid(b) && Shaped(s) && AddShip(b, s).Ok?
    ensures forall q :: !Out(b, q) ==> CellAt(AddShip(b, s).value, q) == if q in Dots(s) then Deck else CellAt(b, q)
  {
    var ds := Dots(s);
    var placed := Commit(b, ds).(ships := b.ships + [s]);
    CommitDraws(b, ds);
    ContourDraws(placed, s, false);
  }

  /** The first ship, in placement order, that the shot lands on. */
  function FirstHit(ships: seq<Ship>, d: Dot): (r: Option<nat>)
    requires AllShaped(ships)
    ensures r.Some? ==> r.value < |ships| && Shooten(ships[r.value], d)
    ensures r.Some? ==> forall j :: 0 <= j < r.value ==> !Shooten(ships[j], d)
    ensures r.None? <==> forall j :: 0 <= j < |ships| ==> !Shooten(ships[j], d)
  {
    if ships == [] then None
    else if Shooten(ships[0], d) then Some(0)
    else match FirstHit(ships[1..], d)
      case None => None
      case Some(i) => Some(i + 1)
  }

  /** The board a kill leaves before its halo is reserved. */
  function Sinking(b: Board, d: Dot, i: nat): (w: Board)
    requires Valid(b) && AllShaped(b.ships) && !Out(b, d) && i < |b.ships|
    ensures Valid(w) && w.size == b.size && w.busy == b.busy + [d]
    ensures w.ships == b.ships[i := b.ships[i].(lives := b.ships[i].lives - 1)] && w.count == b.count + 1
    ensures CellAt(w, d) == Hit
    ensures forall q :: !Out(b, q) && q != d ==> CellAt(w, q) == CellAt(b, q)
  {
    var s := b.ships[i].(lives := b.ships[i].lives - 1);
    Paint(b.(busy := b.busy + [d]), d, Hit).(ships := b.ships[i := s], count := b.count + 1)
  }

  /** `shot`: an off-board cell or a busy cell is refused and nothing changes;
      otherwise the cell is taken. A miss is drawn "." and ends the turn. A
      hit is drawn "X" and costs the ship a life: while lives remain the
      shooter moves again, and when none remain the kill is counted, the
      ship's halo is drawn "." and the turn ends. */
  function Shot(b: Board, d: Dot): (r: Result<(Board, bool), BoardError>)
    requires Valid(b) && AllShaped(b.ships)
    ensures Out(b, d) ==> r == Err(OutOfBoard)
    ensures !Out(b, d) && d in b.busy ==> r == Err(Used)
    ensures r.Ok? <==> !Out(b, d) && d !in b.busy
    ensures r.Ok? ==> Valid(r.value.0) && r.value.0.size == b.size && AllShaped(r.value.0.ships)
    ensures r.Ok? ==> |b.busy| < |r.value.0.busy| && r.value.0.busy[..|b.busy|] == b.busy && r.value.0.busy[|b.busy|] == d
    ensures r.Ok? && FirstHit(b.ships, d).None? ==>
      !r.value.1 && r.value.0.ships == b.ships && r.value.0.count == b.count
    ensures r.Ok? && FirstHit(b.ships, d).Some? ==>
      var i := FirstHit(b.ships, d).value;
      var s := b.ships[i].(lives := b.ships[i].lives - 1);
      && r.value.0.ships == b.ships[i := s]
      && (r.value.1 <==> s.lives != 0)
      && r.value.0.count == if r.value.1 then b.count else b.count + 1
  {
    if Out(b, d) then Err(OutOfBoard)
    else if d in b.busy then Err(Used)
    else
      var taken := b.(busy := b.busy + [d]);
      match FirstHit(b.ships, d)
      case None => Ok((Paint(taken, d, Miss), false))
      case Some(i) =>
        var s := b.ships[i].(lives := b.ships[i].lives - 1);
        if s.lives == 0 then
          var sinking := Sinking(b, d, i);
          ContourTakes(sinking, s, true);
          Ok((Contour(sinking, s, true), false))
        else Ok((Paint(taken, d, Hit).(ships := b.ships[i := s]), true))
  }

  /** What a successful shot takes and draws: a miss or a wound takes just the
      target; a kill also takes every on-board cell near the sunk ship. The
      target is drawn "X" on a hit and "." on a miss; after a kill, the halo
      cells that were not yet busy are drawn "."; no other cell changes. */
  lemma ShotDraws(b: Board, d: Dot)
    requires Valid(b) && AllShaped(b.ships) && Shot(b, d).Ok?
    ensures var (b', repeat) := Shot(b, d).value;
      var hit := FirstHit(b.ships, d);
      var kill := hit.Some? && !repeat;
      && (!kill ==> b'.busy == b.busy + [d])
      && (kill ==> forall c :: c in b'.busy <==> c in b.busy + [d] || (!Out(b, c) && Near(b.ships[hit.value], c)))
      && (forall q :: !Out(b, q) ==>
           CellAt(b', q) ==
             if q == d then (if hit.Some? then Hit else Miss)
             else if kill && q !in b.busy && Near(b.ships[hit.value], q) then Miss
             else CellAt(b, q))
  {
    match FirstHit(b.ships, d)
    case None =>
    case Some(i) =>
      var s := b.ships[i].(lives := b.ships[i].lives - 1);
      if s.lives == 0 {
        KillTakes(b, d, i);
        KillDraws(b, d, i);
      }
  }

  /** The kill branch of `shot` takes the sunk ship's on-board halo. */
  lemma KillTakes(b: Board, d: Dot, i: nat)
    requires Valid(b) && AllShaped(b.ships) && !Out(b, d) && d !in b.busy
    requires FirstHit(b.ships, d) == Some(i) && b.ships[i].lives == 1
    ensures forall c :: c in Shot(b, d).value.0.busy <==> c in b.busy + [d] || (!Out(b, c) && Near(b.ships[i], c))
  {
    var s := b.ships[i].(lives := b.ships[i].lives - 1);
    var w := Sinking(b, d, i);
    assert Shot(b, d).value.0 == Contour(w, s, true);
    assert Dots(s) == Dots(b.ships[i]);
    ContourTakes(w, s, true);
  }

  /** The kill branch of `shot` draws "." on the halo cells not yet busy. */
  lemma KillDraws(b: Board, d: Dot, i: nat)
    requires Valid(b) && AllShaped(b.ships) && !Out(b, d) && d !in b.busy
    requires FirstHit(b.ships, d) == Some(i) && b.ships[i].lives == 1
    ensures forall q :: !Out(b, q) ==>
      CellAt(Shot(b, d).value.0, q) ==
        if q == d then Hit
        else if q !in b.busy && Near(b.ships[i], q) then Miss
        else CellAt(b, q)
  {
    var s := b.ships[i].(lives := b.ships[i].lives - 1);
    var w := Sinking(b, d, i);
    assert Shot(b, d).value.0 == Contour(w, s, true);
    assert Dots(s) == Dots(b.ships[i]);
    ContourDraws(w, s, true);
  }

  /** `begin`: forgets every reservation, so that play starts with nothing busy. */
  function Begin(b: Board): (r: Board)
    ensures r.busy == [] && r.size == b.size && r.field == b.field && r.ships == b.ships && r.count == b.count
    ensures Valid(b) ==> Valid(r)
  {
    b.(busy := [])
  }
}
