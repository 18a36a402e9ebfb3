/** `Game.try_board` and `Game.random_board`: laying out the standard fleet
    from a supply of random candidate ships under an attempt budget. */
module Generator {
  import opened Wrappers
  import opened Ships
  import opened Boards
  import opened Placement
  import opened Play

  /** A ship length `try_board` asks for: at least one deck. */
  type Length = n: int | 1 <= n witness 1

  /** The ship lengths `try_board` places, in order. */
  const Fleet: seq<Length> := [3, 2, 2, 1, 1, 1, 1]

  /** The number of `add_ship` attempts one pass may make. */
  const Budget: nat := 2000

  type Bit = o: int | 0 <= o <= 1

  /** One random draw of `try_board`: the nose coordinates and the orientation
      of a candidate ship. */
  datatype Candidate = Candidate(x: int, y: int, orientation: Bit)

  /** The candidates one pass of `try_board` may draw: attempt number `k + 1`
      uses `draws[k]`. */
  type Draws = d: seq<Candidate> | |d| == Budget witness seq(Budget, _ => Candidate(0, 0, 0))

  function ShipOf(c: Candidate, len: Length): Ship
  {
    NewShip(Dot(c.x, c.y), len, c.orientation)
  }

  function Lengths(ships: seq<Ship>): seq<int>
  {
    seq(|ships|, i requires 0 <= i < |ships| => ships[i].length)
  }

  /** The inner loop of `try_board` for one ship length. Attempt number
      `k + 1` uses candidate `draws[k]`; once the running count would pass the
      budget the pass is abandoned. The result is the board after the first
      accepted candidate and that candidate's index `k`, so `k + 1` attempts
      have been made. */
  function PlaceOne(b: Board, len: Length, draws: Draws, attempts: nat): (r: Option<(Board, nat)>)
    requires Valid(b)
    ensures r.Some? ==> attempts <= r.value.1 < Budget
    ensures r.Some? ==> AddShip(b, ShipOf(draws[r.value.1], len)) == Ok(r.value.0)
    decreases Budget - attempts
  {
    if attempts + 1 > Budget then None
    else
      match AddShip(b, ShipOf(draws[attempts], len))
      case Ok(b') => Some((b', attempts))
      case Err(_) => PlaceOne(b, len, draws, attempts + 1)
  }

  /** The candidate a placement accepts is the first one that fits, and a
      placement gives up exactly when no candidate left in the budget fits. */
  lemma {:induction false} PlaceOneFirst(b: Board, len: Length, draws: Draws, attempts: nat)
    requires Valid(b)
    ensures var r := PlaceOne(b, len, draws, attempts);
      && (r.Some? ==> forall k :: attempts <= k < r.value.1 ==> !Fits(b, Dots(ShipOf(draws[k], len))))
      && (r.None? <==> forall k :: attempts <= k < Budget ==> !Fits(b, Dots(ShipOf(draws[k], len))))
    decreases Budget - attempts
  {
    if attempts + 1 <= Budget {
      PlaceOneFirst(b, len, draws, attempts + 1);
    }
  }

  /** The outer loop of `try_board`: the lengths are placed in order, sharing
      one attempt counter; the result carries the attempts made so far. */
  function PlaceAll(b: Board, lens: seq<Length>, draws: Draws, attempts: nat): (r: Option<(Board, nat)>)
    requires Valid(b)
    ensures r.Some? ==> Valid(r.value.0) && r.value.0.size == b.size
    ensures r.Some? ==> attempts <= r.value.1 && (lens != [] ==> r.value.1 <= Budget)
    decreases |lens|
  {
    if lens == [] then Some((b, attempts))
    else
      var r := PlaceOne(b, lens[0], draws, attempts);
      if r.None? then None else PlaceAll(r.value.0, lens[1..], draws, r.value.1 + 1)
  }

  /** `try_board`: one pass over a fresh board; on success `begin` clears the
      reservations. */
  function TryBoard(size: nat, draws: Draws): (r: Option<Board>)
    ensures r.Some? ==> Valid(r.value) && r.value.size == size && r.value.busy == []
  {
    match PlaceAll(NewBoard(size), Fleet, draws, 0)
    case None => None
    case Some((b, _)) => Some(Begin(b))
  }

  /** One step of the outer loop: a run of lengths succeeds only if its first
      length is placed, and then continues from there. */
  lemma PlaceAllStep(b: Board, lens: seq<Length>, draws: Draws, attempts: nat)
    requires Valid(b) && lens != [] && PlaceAll(b, lens, draws, attempts).Some?
    ensures PlaceOne(b, lens[0], draws, attempts).Some?
    ensures var r := PlaceOne(b, lens[0], draws, attempts).value;
      PlaceAll(b, lens, draws, attempts) == PlaceAll(r.0, lens[1..], draws, r.1 + 1)
  {
  }

  /** One accepted placement keeps the placement invariant. */
  lemma PlaceOneKeepsPlaced(b: Board, len: Length, draws: Draws, attempts: nat)
    requires Placed(b)
    requires PlaceOne(b, len, draws, attempts).Some?
    ensures Placed(PlaceOne(b, len, draws, attempts).value.0)
  {
    var r := PlaceOne(b, len, draws, attempts).value;
    AddShipKeepsPlaced(b, ShipOf(draws[r.1], len));
  }

  /** One accepted placement appends one ship of the given length. */
  lemma PlaceOneLength(b: Board, len: Length, draws: Draws, attempts: nat)
    requires Valid(b)
    requires PlaceOne(b, len, draws, attempts).Some?
    ensures Lengths(PlaceOne(b, len, draws, attempts).value.0.ships) == Lengths(b.ships) + [len]
  {
    var r := PlaceOne(b, len, draws, attempts).value;
    var s := ShipOf(draws[r.1], len);
    assert r.0.ships == b.ships + [s];
    assert s.length == len;
  }

  /** Placing a run of fresh ships keeps the placement invariant. */
  lemma {:induction false} PlaceAllPlaces(b: Board, lens: seq<Length>, draws: Draws, attempts: nat)
    requires Placed(b)
    requires PlaceAll(b, lens, draws, attempts).Some?
    ensures Placed(PlaceAll(b, lens, draws, attempts).value.0)
    decreases |lens|
  {
    if lens != [] {
      PlaceAllStep(b, lens, draws, attempts);
      var r := PlaceOne(b, lens[0], draws, attempts).value;
      PlaceOneKeepsPlaced(b, lens[0], draws, attempts);
      PlaceAllPlaces(r.0, lens[1..], draws, r.1 + 1);
    }
  }

  /** Appending the head of a run and then its tail appends the whole run. */
  lemma AppendRun(before: seq<int>, middle: seq<int>, after: seq<int>, lens: seq<Length>)
    requires lens != [] && middle == before + [lens[0]] && after == middle + lens[1..]
    ensures after == before + lens
  {
    assert lens == [lens[0]] + lens[1..];
  }

  /** Placing a run of lengths appends one ship per length, in order. */
  lemma {:induction false} PlaceAllLengths(b: Board, lens: seq<Length>, draws: Draws, attempts: nat)
    requires Valid(b)
    requires PlaceAll(b, lens, draws, attempts).Some?
    ensures Lengths(PlaceAll(b, lens, draws, attempts).value.0.ships) == Lengths(b.ships) + lens
    decreases |lens|
  {
    if lens != [] {
      PlaceAllStep(b, lens, draws, attempts);
      var r := PlaceOne(b, lens[0], draws, attempts).value;
      PlaceOneLength(b, lens[0], draws, attempts);
      PlaceAllLengths(r.0, lens[1..], draws, r.1 + 1);
      AppendRun(Lengths(b.ships), Lengths(r.0.ships), Lengths(PlaceAll(b, lens, draws, attempts).value.0.ships), lens);
    }
  }

  /** A board `try_board` returns holds one ship per fleet length, in order,
      each whole and on the board, no two touching; the field shows a deck
      exactly on the ship cells; nothing is busy or sunk, so play can begin. */
  lemma TryBoardSound(size: nat, draws: Draws)
    requires TryBoard(size, draws).Some?
    ensures var b := TryBoard(size, draws).value;
      && b.size == size && Lengths(b.ships) == Fleet && b.busy == [] && b.count == 0
      && InPlay(b)
      && (forall i :: 0 <= i < |b.ships| ==> b.ships[i].lives == b.ships[i].length)
      && (forall i, p :: 0 <= i < |b.ships| && p in Dots(b.ships[i]) ==> !Out(b, p))
      && (forall p :: !Out(b, p) ==> CellAt(b, p) == if OnFleet(b.ships, p) then Deck else Empty)
  {
    var empty := NewBoard(size);
    var placed := PlaceAll(empty, Fleet, draws, 0).value.0;
    assert TryBoard(size, draws) == Some(Begin(placed));
    NewBoardPlaced(size);
    PlaceAllPlaces(empty, Fleet, draws, 0);
    PlaceAllLengths(empty, Fleet, draws, 0);
    assert Lengths(placed.ships) == Fleet by {
      assert Lengths(empty.ships) == [];
    }
    BeginReady(placed);
  }

  /** `begin` on a laid-out board keeps the ships whole, on the board and
      shown on the field, and starts play. */
  lemma BeginReady(placed: Board)
    requires Placed(placed)
    ensures var b := Begin(placed);
      && b.size == placed.size && b.ships == placed.ships && b.busy == [] && b.count == 0
      && InPlay(b)
      && (forall i :: 0 <= i < |b.ships| ==> b.ships[i].lives == b.ships[i].length)
      && (forall i, p :: 0 <= i < |b.ships| && p in Dots(b.ships[i]) ==> !Out(b, p))
      && (forall p :: !Out(b, p) ==> CellAt(b, p) == if OnFleet(b.ships, p) then Deck else Empty)
  {
    BeginStartsPlay(placed);
    var b := Begin(placed);
    assert b.ships == placed.ships && b.size == placed.size && b.field == placed.field;
    forall i, p | 0 <= i < |b.ships| && p in Dots(b.ships[i])
      ensures !Out(b, p)
    {
      assert p in Dots(placed.ships[i]);
      assert !Out(placed, p);
    }
    forall p | !Out(b, p)
      ensures CellAt(b, p) == if OnFleet(b.ships, p) then Deck else Empty
    {
      assert CellAt(b, p) == CellAt(placed, p);
    }
  }

  /** The first success among the outcomes from `from` on, with its index. */
  function FirstBoard(outcomes: seq<Option<Board>>, from: nat): (r: Option<(Board, nat)>)
    requires from <= |outcomes|
    ensures r.Some? ==> from <= r.value.1 < |outcomes| && outcomes[r.value.1] == Some(r.value.0)
    decreases |outcomes| - from
  {
    if from == |outcomes| then None
    else if outcomes[from].Some? then Some((outcomes[from].value, from))
    else FirstBoard(outcomes, from + 1)
  }

  /** The success `FirstBoard` picks is the first one, and it finds none
      exactly when every outcome is a failure. */
  lemma {:induction false} FirstBoardFirst(outcomes: seq<Option<Board>>, from: nat)
    requires from <= |outcomes|
    ensures var r := FirstBoard(outcomes, from);
      && (r.Some? ==> forall q :: from <= q < r.value.1 ==> outcomes[q].None?)
      && (r.None? <==> forall q :: from <= q < |outcomes| ==> outcomes[q].None?)
    decreases |outcomes| - from
  {
    if from < |outcomes| {
      FirstBoardFirst(outcomes, from + 1);
    }
  }

  /** `random_board`: `try_board` is retried until a pass succeeds; the retries
      are bounded by the supply of passes, one sequence of candidates each. */
  function RandomBoard(size: nat, passes: seq<Draws>): (r: Option<(Board, nat)>)
    ensures r.Some? ==> r.value.1 < |passes| && TryBoard(size, passes[r.value.1]) == Some(r.value.0)
  {
    FirstBoard(seq(|passes|, i requires 0 <= i < |passes| => TryBoard(size, passes[i])), 0)
  }

  /** Every pass before the one `random_board` takes failed; no board at all
      means every pass failed. */
  lemma RandomBoardFirst(size: nat, passes: seq<Draws>)
    ensures var r := RandomBoard(size, passes);
      && (r.Some? ==> forall q :: 0 <= q < r.value.1 ==> TryBoard(size, passes[q]).None?)
      && (r.None? <==> forall q :: 0 <= q < |passes| ==> TryBoard(size, passes[q]).None?)
  {
    var outcomes := seq(|passes|, i requires 0 <= i < |passes| => TryBoard(size, passes[i]));
    FirstBoardFirst(outcomes, 0);
    assert forall q :: 0 <= q < |passes| ==> outcomes[q] == TryBoard(size, passes[q]);
  }
}
