/** The firing phase: what `shot` keeps true of a board once `begin` has
    cleared the placement reservations. */
module Play {
  import opened Wrappers
  import opened Ships
  import opened Boards
  import opened Placement

  /** The number of cells of `ds` that are not busy. */
  function Remaining(ds: seq<Dot>, busy: seq<Dot>): (n: nat)
    ensures n <= |ds|
    ensures n == 0 <==> forall d :: d in ds ==> d in busy
  {
    if ds == [] then 0
    else
      assert forall d :: d in ds <==> d == ds[0] || d in ds[1..];
      (if ds[0] in busy then 0 else 1) + Remaining(ds[1..], busy)
  }

  /** The number of ships with no lives left. */
  function Sunk(ships: seq<Ship>): (n: nat)
    ensures n <= |ships|
    ensures n == |ships| <==> forall i :: 0 <= i < |ships| ==> ships[i].lives == 0
  {
    if ships == [] then 0
    else
      assert forall i :: 0 < i < |ships| ==> ships[i] == ships[1..][i - 1];
      (if ships[0].lives == 0 then 1 else 0) + Sunk(ships[1..])
  }

  /** The board in play: the ships keep apart, each ship has exactly as many
      lives as it has cells not yet fired on, and `count` is the number of
      ships with no lives left. */
  ghost predicate InPlay(b: Board)
  {
    && Valid(b) && AllShaped(b.ships) && FleetApart(b.ships)
    && (forall i :: 0 <= i < |b.ships| ==> b.ships[i].lives == Remaining(Dots(b.ships[i]), b.busy))
    && b.count == Sunk(b.ships)
  }

  /** Nothing busy: every cell remains. */
  lemma {:induction false} RemainingAll(ds: seq<Dot>)
    ensures Remaining(ds, []) == |ds|
  {
    if ds != [] {
      RemainingAll(ds[1..]);
    }
  }

  /** Only membership of the ship's own cells matters. */
  lemma {:induction false} RemainingSame(ds: seq<Dot>, busy: seq<Dot>, busy': seq<Dot>)
    requires forall d :: d in ds ==> (d in busy <==> d in busy')
    ensures Remaining(ds, busy) == Remaining(ds, busy')
  {
    if ds != [] {
      RemainingSame(ds[1..], busy, busy');
    }
  }

  /** Taking one fresh cell of a ship lowers its remaining count by one. */
  lemma {:induction false} RemainingTake(ds: seq<Dot>, busy: seq<Dot>, d: Dot)
    requires NoDup(ds) && d in ds && d !in busy
    ensures Remaining(ds, busy + [d]) == Remaining(ds, busy) - 1
  {
    if ds[0] == d {
      assert forall c :: c in ds[1..] ==> c != d;
      RemainingSame(ds[1..], busy, busy + [d]);
    } else {
      assert NoDup(ds[1..]);
      RemainingTake(ds[1..], busy, d);
    }
  }

  /** Replacing one ship changes the sunk count by the change in that ship. */
  lemma {:induction false} SunkUpdate(ships: seq<Ship>, i: nat, s: Ship)
    requires i < |ships|
    ensures Sunk(ships[i := s]) ==
      Sunk(ships) - (if ships[i].lives == 0 then 1 else 0) + (if s.lives == 0 then 1 else 0)
  {
    if i > 0 {
      assert ships[i := s][1..] == ships[1..][i - 1 := s];
      SunkUpdate(ships[1..], i - 1, s);
    }
  }

  /** A fleet whose every ship has a life left has nothing sunk. */
  lemma {:induction false} NoneSunk(ships: seq<Ship>)
    requires forall i :: 0 <= i < |ships| ==> ships[i].lives >= 1
    ensures Sunk(ships) == 0
  {
    if ships != [] {
      assert forall i :: 0 <= i < |ships| - 1 ==> ships[1..][i] == ships[i + 1];
      NoneSunk(ships[1..]);
    }
  }

  /** `begin` turns a laid-out board into one ready for play: nothing is
      busy, nothing is sunk, every ship has all its lives. */
  lemma BeginStartsPlay(b: Board)
    requires Placed(b)
    ensures InPlay(Begin(b)) && Begin(b).busy == [] && Begin(b).count == 0
    ensures Begin(b).ships == b.ships && Begin(b).field == b.field
  {
    forall i | 0 <= i < |b.ships|
      ensures b.ships[i].lives == Remaining(Dots(b.ships[i]), [])
    {
      RemainingAll(Dots(b.ships[i]));
    }
    NoneSunk(b.ships);
  }

  /** Ships that keep apart share no cell. */
  lemma OnlyShip(b: Board, d: Dot, k: nat)
    requires AllShaped(b.ships) && FleetApart(b.ships)
    requires k < |b.ships| && d in Dots(b.ships[k])
    ensures forall j :: 0 <= j < |b.ships| && j != k ==> d !in Dots(b.ships[j])
  {
    forall j | 0 <= j < |b.ships| && j != k
      ensures d !in Dots(b.ships[j])
    {
      assert Apart(b.ships[k], b.ships[j]);
      assert Touch(d, d);
    }
  }

  /** A shot that takes only the target keeps every unhit ship's count. */
  lemma TargetOnlyKeeps(b: Board, b': Board, d: Dot, k: int)
    requires InPlay(b) && Valid(b') && AllShaped(b'.ships) && |b'.ships| == |b.ships|
    requires b'.busy == b.busy + [d]
    requires forall j :: 0 <= j < |b.ships| && j != k ==> b'.ships[j] == b.ships[j] && d !in Dots(b.ships[j])
    ensures forall j :: 0 <= j < |b.ships| && j != k ==>
      b'.ships[j].lives == Remaining(Dots(b'.ships[j]), b'.busy)
  {
    forall j | 0 <= j < |b.ships| && j != k
      ensures b'.ships[j].lives == Remaining(Dots(b'.ships[j]), b'.busy)
    {
      RemainingSame(Dots(b.ships[j]), b.busy, b'.busy);
    }
  }

  /** A kill takes the sunk ship's halo, which holds no cell of any other ship. */
  lemma KillKeeps(b: Board, b': Board, d: Dot, k: nat)
    requires InPlay(b) && Valid(b') && AllShaped(b'.ships) && |b'.ships| == |b.ships|
    requires k < |b.ships| && d in Dots(b.ships[k])
    requires forall c :: c in b'.busy <==> c in b.busy + [d] || (!Out(b, c) && Near(b.ships[k], c))
    requires forall j :: 0 <= j < |b.ships| && j != k ==> b'.ships[j] == b.ships[j]
    requires Remaining(Dots(b.ships[k]), b.busy + [d]) == 0 && b'.ships[k].lives == 0
    requires Dots(b'.ships[k]) == Dots(b.ships[k])
    ensures forall j :: 0 <= j < |b.ships| ==>
      b'.ships[j].lives == Remaining(Dots(b'.ships[j]), b'.busy)
  {
    OnlyShip(b, d, k);
    forall j | 0 <= j < |b.ships|
      ensures b'.ships[j].lives == Remaining(Dots(b'.ships[j]), b'.busy)
    {
      if j == k {
        assert forall c :: c in Dots(b.ships[k]) ==> c in b.busy + [d];
        assert forall c :: c in Dots(b.ships[k]) ==> c in b'.busy;
      } else {
        forall c | c in Dots(b.ships[j])
          ensures c in b.busy <==> c in b'.busy
        {
          assert Apart(b.ships[j], b.ships[k]);
          assert !Near(b.ships[k], c);
        }
        RemainingSame(Dots(b.ships[j]), b.busy, b'.busy);
      }
    }
  }

  /** A shot moves no ship, so the fleet stays apart. */
  lemma ShotKeepsApart(b: Board, d: Dot)
    requires InPlay(b) && Shot(b, d).Ok?
    ensures FleetApart(Shot(b, d).value.0.ships)
  {
    var b' := Shot(b, d).value.0;
    ShotDraws(b, d);
    forall i, j | 0 <= i < |b'.ships| && 0 <= j < |b'.ships| && i != j
      ensures Apart(b'.ships[i], b'.ships[j])
    {
      assert Dots(b'.ships[i]) == Dots(b.ships[i]) && Dots(b'.ships[j]) == Dots(b.ships[j]);
      assert Apart(b.ships[i], b.ships[j]);
    }
  }

  /** `shot` keeps a board in play: lives keep matching the unfired cells and
      `count` keeps matching the sunk ships. */
  lemma {:induction false} ShotKeepsInPlay(b: Board, d: Dot)
    requires InPlay(b) && Shot(b, d).Ok?
    ensures InPlay(Shot(b, d).value.0)
  {
    var (b', repeat) := Shot(b, d).value;
    ShotDraws(b, d);
    ShotKeepsApart(b, d);
    match FirstHit(b.ships, d)
    case None =>
      TargetOnlyKeeps(b, b', d, -1);
    case Some(k) =>
      OnlyShip(b, d, k);
      DotsLine(b.ships[k]);
      RemainingTake(Dots(b.ships[k]), b.busy, d);
      SunkUpdate(b.ships, k, b'.ships[k]);
      if repeat {
        TargetOnlyKeeps(b, b', d, k);
      } else {
        KillKeeps(b, b', d, k);
      }
  }

  /** Under the play invariant a shot's result means what the turn rule
      needs: the shooter goes again exactly when the target is on a ship that
      still has lives left, `count` grows by one exactly when the target is on
      a ship with none left, and a miss changes no ship. */
  lemma {:induction false} ShotOutcome(b: Board, d: Dot)
    requires InPlay(b) && Shot(b, d).Ok?
    ensures var (b', repeat) := Shot(b, d).value;
      && |b'.ships| == |b.ships|
      && (repeat <==> exists i :: 0 <= i < |b.ships| && Shooten(b.ships[i], d) && b'.ships[i].lives > 0)
      && (b'.count == b.count + 1 <==>
            exists i :: 0 <= i < |b.ships| && Shooten(b.ships[i], d) && b'.ships[i].lives == 0)
      && (b'.count == b.count || b'.count == b.count + 1)
      && (!OnFleet(b.ships, d) ==> !repeat && b'.ships == b.ships && b'.count == b.count)
  {
    var (b', repeat) := Shot(b, d).value;
    match FirstHit(b.ships, d)
    case None =>
    case Some(k) =>
      OnlyShip(b, d, k);
      DotsLine(b.ships[k]);
      RemainingTake(Dots(b.ships[k]), b.busy, d);
  }

  /** The same cell cannot be shot twice: once a shot is taken, a second shot
      at that cell is refused as used. */
  lemma ShotTwice(b: Board, d: Dot)
    requires Valid(b) && AllShaped(b.ships) && Shot(b, d).Ok?
    ensures Shot(Shot(b, d).value.0, d) == Err(Used)
  {
    var b' := Shot(b, d).value.0;
    assert b'.busy[|b.busy|] == d;
  }

  /** In play, `count` never exceeds the fleet and reaches its size exactly
      when every ship is sunk; lives stay between 0 and the ship's length. */
  lemma CountBounds(b: Board)
    requires InPlay(b)
    ensures 0 <= b.count <= |b.ships|
    ensures b.count == |b.ships| <==> forall i :: 0 <= i < |b.ships| ==> b.ships[i].lives == 0
    ensures forall i :: 0 <= i < |b.ships| ==> 0 <= b.ships[i].lives <= b.ships[i].length
  {
  }
}
