/** The placement phase: what `add_ship` keeps true of a board while a fleet
    is being laid out, before `begin` clears the reservations. */
module Placement {
  import opened Wrappers
  import opened Ships
  import opened Boards

  /** No cell of one ship touches (shares or is 8-adjacent to) a cell of the other. */
  predicate Apart(s: Ship, t: Ship)
    requires Shaped(s) && Shaped(t)
  {
    forall p, q :: p in Dots(s) && q in Dots(t) ==> !Touch(p, q)
  }

  /** Every two distinct ships of the fleet keep apart. */
  predicate FleetApart(ships: seq<Ship>)
    requires AllShaped(ships)
  {
    forall i, j :: 0 <= i < |ships| && 0 <= j < |ships| && i != j ==> Apart(ships[i], ships[j])
  }

  /** The cell belongs to some ship of the fleet. */
  predicate OnFleet(ships: seq<Ship>, p: Dot)
    requires AllShaped(ships)
  {
    exists i :: 0 <= i < |ships| && p in Dots(ships[i])
  }

  /** Every on-board cell touching `p` is busy. */
  ghost predicate Reserved(b: Board, p: Dot)
  {
    forall c :: Touch(c, p) && !Out(b, c) ==> c in b.busy
  }

  /** The board while ships are being added: every ship is whole and on the
      board, its cells and their halo are busy, the ships keep apart, and the
      field shows a deck exactly on the ship cells. */
  ghost predicate Placed(b: Board)
  {
    && Valid(b) && AllShaped(b.ships) && b.count == 0
    && (forall i :: 0 <= i < |b.ships| ==> b.ships[i].lives == b.ships[i].length)
    && (forall i, p :: 0 <= i < |b.ships| && p in Dots(b.ships[i]) ==> !Out(b, p) && Reserved(b, p))
    && FleetApart(b.ships)
    && (forall p :: !Out(b, p) ==> CellAt(b, p) == if OnFleet(b.ships, p) then Deck else Empty)
  }

  /** A fresh board satisfies the placement invariant. */
  lemma NewBoardPlaced(size: nat)
    ensures Placed(NewBoard(size))
  {
  }

  /** A ship that `add_ship` accepts keeps apart from every ship already
      placed: a touching cell would lie in a reserved halo, hence be busy. */
  lemma {:induction false} AddShipApart(b: Board, s: Ship)
    requires Placed(b) && Shaped(s) && AddShip(b, s).Ok?
    ensures forall i :: 0 <= i < |b.ships| ==> Apart(b.ships[i], s) && Apart(s, b.ships[i])
  {
    assert forall d :: d in Dots(s) ==> !Out(b, d) && d !in b.busy;
    forall i | 0 <= i < |b.ships|
      ensures Apart(b.ships[i], s) && Apart(s, b.ships[i])
    {
      forall p, q | p in Dots(b.ships[i]) && q in Dots(s)
        ensures !Touch(p, q) && !Touch(q, p)
      {
        assert Reserved(b, p);
        assert !Out(b, q) && q !in b.busy;
      }
    }
  }

  /** After `add_ship` every ship cell, old and new, is on the board and has
      its on-board halo busy. */
  lemma {:induction false} AddShipReserves(b: Board, s: Ship)
    requires Placed(b) && Shaped(s) && AddShip(b, s).Ok?
    ensures var b' := AddShip(b, s).value;
      forall i, p :: 0 <= i < |b'.ships| && p in Dots(b'.ships[i]) ==> !Out(b', p) && Reserved(b', p)
  {
    var b' := AddShip(b, s).value;
    AddShipTakes(b, s);
    forall i, p | 0 <= i < |b'.ships| && p in Dots(b'.ships[i])
      ensures !Out(b', p) && Reserved(b', p)
    {
      if i < |b.ships| {
        assert b'.ships[i] == b.ships[i];
        assert Reserved(b, p);
      } else {
        assert b'.ships[i] == s;
        forall c | Touch(c, p) && !Out(b', c)
          ensures c in b'.busy
        {
          assert Near(s, c);
        }
      }
    }
  }

  /** After `add_ship` the field still shows a deck exactly on the fleet. */
  lemma {:induction false} AddShipShowsFleet(b: Board, s: Ship)
    requires Placed(b) && Shaped(s) && AddShip(b, s).Ok?
    ensures var b' := AddShip(b, s).value;
      forall p :: !Out(b', p) ==> CellAt(b', p) == if OnFleet(b'.ships, p) then Deck else Empty
  {
    var b' := AddShip(b, s).value;
    AddShipPaints(b, s);
    forall p | !Out(b', p)
      ensures CellAt(b', p) == if OnFleet(b'.ships, p) then Deck else Empty
    {
      if p in Dots(s) {
        assert p in Dots(b'.ships[|b.ships|]);
      } else if OnFleet(b'.ships, p) {
        var i :| 0 <= i < |b'.ships| && p in Dots(b'.ships[i]);
        assert i < |b.ships| && b'.ships[i] == b.ships[i];
      } else {
        forall i | 0 <= i < |b.ships|
          ensures p !in Dots(b.ships[i])
        {
          assert b'.ships[i] == b.ships[i];
        }
      }
    }
  }

  /** A successful `add_ship` of a fresh ship keeps the placement invariant;
      so after any run of successful placements no two ships share a cell or
      are 8-adjacent. */
  lemma {:induction false} AddShipKeepsPlaced(b: Board, s: Ship)
    requires Placed(b) && Shaped(s) && s.lives == s.length
    requires AddShip(b, s).Ok?
    ensures Placed(AddShip(b, s).value)
  {
    var b' := AddShip(b, s).value;
    AddShipApart(b, s);
    AddShipReserves(b, s);
    AddShipShowsFleet(b, s);
    assert FleetApart(b'.ships) by {
      forall i, j | 0 <= i < |b'.ships| && 0 <= j < |b'.ships| && i != j
        ensures Apart(b'.ships[i], b'.ships[j])
      {
        if i < |b.ships| && j < |b.ships| {
          assert b'.ships[i] == b.ships[i] && b'.ships[j] == b.ships[j];
        }
      }
    }
  }
}
