/** `Player.move` and `Game.loop`: the user and the computer fire at each
    other's boards in turn; a shot that wounds a ship still afloat earns the
    shooter another shot, and the game ends when one fleet is sunk. */
module Turns {
  import opened Wrappers
  import opened Ships
  import opened Boards
  import opened Placement
  import opened Play
  import opened Generator

  datatype Player = User | Computer

  /** The two boards of `Game` and the turn counter `num` of `Game.loop`. */
  datatype Game = Game(user: Board, pc: Board, num: int)

  /** Where one pass of the loop body leads: on to the next pass, or to the
      end of the game with its winner. */
  datatype Outcome = Continue(game: Game) | Won(game: Game, winner: Player)

  /** The number of sunk ships that ends the game. */
  const WinCount: int := 7

  /** Whose turn an even or odd counter means. */
  function Mover(num: int): Player
  {
    if num % 2 == 0 then User else Computer
  }

  /** The board a player fires at. */
  function Enemy(g: Game, p: Player): Board
  {
    if p == User then g.pc else g.user
  }

  /** Both boards are well formed, so `shot` may be called on either. */
  predicate Sound(g: Game)
  {
    Valid(g.user) && AllShaped(g.user.ships) && Valid(g.pc) && AllShaped(g.pc.ships)
  }

  /** Both boards are in play and carry the standard fleet's number of ships. */
  ghost predicate Ready(g: Game)
  {
    InPlay(g.user) && InPlay(g.pc) && |g.user.ships| == WinCount && |g.pc.ships| == WinCount
  }

  /** `Player.move` from target `from` on: targets are asked for until `shot`
      accepts one; a refused target changes nothing and is reported. The
      result is the enemy board after the accepted shot, whether the shooter
      goes again, and the accepted target's index. */
  function MoveFrom(enemy: Board, targets: seq<Dot>, from: nat): (r: Option<(Board, bool, nat)>)
    requires Valid(enemy) && AllShaped(enemy.ships) && from <= |targets|
    ensures r.Some? ==> from <= r.value.2 < |targets|
    ensures r.Some? ==> Shot(enemy, targets[r.value.2]) == Ok((r.value.0, r.value.1))
    decreases |targets| - from
  {
    if from == |targets| then None
    else
      var s := Shot(enemy, targets[from]);
      if s.Ok? then Some((s.value.0, s.value.1, from)) else MoveFrom(enemy, targets, from + 1)
  }

  /** `Player.move` over a finite supply of targets; `None` when the supply
      runs out before a target is accepted. */
  function Move(enemy: Board, targets: seq<Dot>): (r: Option<(Board, bool, nat)>)
    requires Valid(enemy) && AllShaped(enemy.ships)
    ensures r.Some? ==> r.value.2 < |targets| && Shot(enemy, targets[r.value.2]) == Ok((r.value.0, r.value.1))
  {
    MoveFrom(enemy, targets, 0)
  }

  /** The accepted target is the first that is on the board and not yet
      used; every target before it was refused. */
  lemma {:induction false} MoveFromFirst(enemy: Board, targets: seq<Dot>, from: nat)
    requires Valid(enemy) && AllShaped(enemy.ships) && from <= |targets|
    ensures var r := MoveFrom(enemy, targets, from);
      && (r.Some? ==> !Out(enemy, targets[r.value.2]) && targets[r.value.2] !in enemy.busy)
      && (r.Some? ==> forall q :: from <= q < r.value.2 ==> Out(enemy, targets[q]) || targets[q] in enemy.busy)
      && (r.None? <==> forall q :: from <= q < |targets| ==> Out(enemy, targets[q]) || targets[q] in enemy.busy)
    decreases |targets| - from
  {
    if from < |targets| {
      MoveFromFirst(enemy, targets, from + 1);
    }
  }

  /** A move fires at the first target that is on the board and fresh, and
      finds none exactly when every target is off the board or used. */
  lemma MoveFirst(enemy: Board, targets: seq<Dot>)
    requires Valid(enemy) && AllShaped(enemy.ships)
    ensures var r := Move(enemy, targets);
      && (r.Some? ==> !Out(enemy, targets[r.value.2]) && targets[r.value.2] !in enemy.busy)
      && (r.Some? ==> forall q :: 0 <= q < r.value.2 ==> Out(enemy, targets[q]) || targets[q] in enemy.busy)
      && (r.None? <==> forall q :: 0 <= q < |targets| ==> Out(enemy, targets[q]) || targets[q] in enemy.busy)
  {
    MoveFromFirst(enemy, targets, 0);
  }

  /** The game after the mover's accepted shot: the enemy board replaced,
      the counter stepped back when the mover goes again. */
  function AfterShot(g: Game, enemy': Board, repeat: bool): Game
  {
    var g' := if Mover(g.num) == User then g.(pc := enemy') else g.(user := enemy');
    g'.(num := if repeat then g.num - 1 else g.num)
  }

  /** One pass of the loop body of `Game.loop`: the mover fires; the user
      wins once the computer's count reaches 7, otherwise the computer wins
      once the user's count does, otherwise the counter advances. `None` when
      the targets run out before a shot is accepted. */
  function Round(g: Game, targets: seq<Dot>): (r: Option<Outcome>)
    requires Sound(g)
    ensures r.Some? ==> Sound(r.value.game)
    ensures r.Some? ==> (Mover(g.num) == User ==> r.value.game.user == g.user)
    ensures r.Some? ==> (Mover(g.num) == Computer ==> r.value.game.pc == g.pc)
    ensures r.Some? ==> (r.value.Won? <==> r.value.game.pc.count == WinCount || r.value.game.user.count == WinCount)
    ensures r.Some? && r.value.Won? ==> (r.value.winner == User <==> r.value.game.pc.count == WinCount)
    ensures r.Some? <==> Move(Enemy(g, Mover(g.num)), targets).Some?
    ensures r.Some? ==> Enemy(r.value.game, Mover(g.num)) == Move(Enemy(g, Mover(g.num)), targets).value.0
    ensures r.Some? && r.value.Continue? ==>
      r.value.game.num == if Move(Enemy(g, Mover(g.num)), targets).value.1 then g.num else g.num + 1
  {
    match Move(Enemy(g, Mover(g.num)), targets)
    case None => None
    case Some((enemy', repeat, _)) =>
      var g' := AfterShot(g, enemy', repeat);
      if g'.pc.count == WinCount then Some(Won(g', User))
      else if g'.user.count == WinCount then Some(Won(g', Computer))
      else Some(Continue(g'.(num := g'.num + 1)))
  }

  /** The turn passes exactly when the shot does not earn a repeat: after a
      round that does not end the game, the same player moves again if and
      only if the accepted shot wounded a ship that is still afloat. */
  lemma RoundTurnOrder(g: Game, targets: seq<Dot>)
    requires Sound(g) && InPlay(Enemy(g, Mover(g.num)))
    requires Round(g, targets).Some? && Round(g, targets).value.Continue?
    ensures var enemy := Enemy(g, Mover(g.num));
      var m := Move(enemy, targets).value;
      var d := targets[m.2];
      (Mover(Round(g, targets).value.game.num) == Mover(g.num) <==>
        exists i :: 0 <= i < |enemy.ships| && Shooten(enemy.ships[i], d) && m.0.ships[i].lives > 0)
  {
    var enemy := Enemy(g, Mover(g.num));
    var m := Move(enemy, targets).value;
    ShotOutcome(enemy, targets[m.2]);
    var next := Round(g, targets).value.game;
    assert next.num == if m.1 then g.num else g.num + 1;
    MoverAlternates(g.num);
  }

  /** Consecutive counter values belong to different players. */
  lemma MoverAlternates(num: int)
    ensures Mover(num + 1) != Mover(num)
  {
  }

  /** A round keeps both boards in play, and counts only grow, by at most one. */
  lemma RoundKeepsReady(g: Game, targets: seq<Dot>)
    requires Sound(g) && Ready(g) && Round(g, targets).Some?
    ensures var g' := Round(g, targets).value.game;
      && Ready(g')
      && g.user.count <= g'.user.count <= g.user.count + 1
      && g.pc.count <= g'.pc.count <= g.pc.count + 1
  {
    var enemy := Enemy(g, Mover(g.num));
    var m := Move(enemy, targets).value;
    ShotKeepsInPlay(enemy, targets[m.2]);
    ShotOutcome(enemy, targets[m.2]);
  }

  /** With seven ships a side, a player wins exactly when every ship of the
      opponent is sunk. */
  lemma RoundWinner(g: Game, targets: seq<Dot>)
    requires Sound(g) && Ready(g) && Round(g, targets).Some?
    ensures var o := Round(g, targets).value;
      && (o.Won? && o.winner == User <==> forall i :: 0 <= i < |o.game.pc.ships| ==> o.game.pc.ships[i].lives == 0)
      && (o.Won? && o.winner == Computer ==> forall i :: 0 <= i < |o.game.user.ships| ==> o.game.user.ships[i].lives == 0)
  {
    RoundKeepsReady(g, targets);
    var g' := Round(g, targets).value.game;
    CountBounds(g'.user);
    CountBounds(g'.pc);
  }

  /** `Game.loop` over a finite supply of rounds, each with its own targets:
      rounds are played until one ends the game. `Continue` when the supply
      of rounds runs out first; `None` when a round runs out of targets. */
  function Run(g: Game, rounds: seq<seq<Dot>>): (r: Option<Outcome>)
    requires Sound(g)
    ensures r.Some? ==> Sound(r.value.game)
    decreases |rounds|
  {
    if rounds == [] then Some(Continue(g))
    else
      match Round(g, rounds[0])
      case None => None
      case Some(o) => if o.Won? then Some(o) else Run(o.game, rounds[1..])
  }

  /** A game played from ready boards, neither fleet sunk, stays ready, the counts never go
      down, and it is won only by sinking every ship of the loser. */
  lemma {:induction false} RunKeepsReady(g: Game, rounds: seq<seq<Dot>>)
    requires Sound(g) && Ready(g) && g.user.count < WinCount && g.pc.count < WinCount
    requires Run(g, rounds).Some?
    ensures var o := Run(g, rounds).value;
      && Ready(o.game)
      && g.user.count <= o.game.user.count && g.pc.count <= o.game.pc.count
      && (o.Won? && o.winner == User ==> forall i :: 0 <= i < |o.game.pc.ships| ==> o.game.pc.ships[i].lives == 0)
      && (o.Won? && o.winner == Computer ==> forall i :: 0 <= i < |o.game.user.ships| ==> o.game.user.ships[i].lives == 0)
      && (o.Continue? ==> o.game.pc.count < WinCount && o.game.user.count < WinCount)
    decreases |rounds|
  {
    if rounds != [] {
      RoundKeepsReady(g, rounds[0]);
      RoundWinner(g, rounds[0]);
      var o := Round(g, rounds[0]).value;
      if !o.Won? {
        RunKeepsReady(o.game, rounds[1..]);
      }
    }
  }

  /** `Game.__init__`: each side gets a board from `random_board`, and the
      user moves first. `None` when either side's passes all fail. */
  function NewGame(size: nat, userPasses: seq<Draws>, pcPasses: seq<Draws>): (r: Option<Game>)
    ensures r.Some? <==> RandomBoard(size, userPasses).Some? && RandomBoard(size, pcPasses).Some?
    ensures r.Some? ==> r.value.user == RandomBoard(size, userPasses).value.0
    ensures r.Some? ==> r.value.pc == RandomBoard(size, pcPasses).value.0
    ensures r.Some? ==> r.value.num == 0 && Mover(r.value.num) == User
    ensures r.Some? ==> r.value.user.size == size && r.value.pc.size == size
  {
    match (RandomBoard(size, userPasses), RandomBoard(size, pcPasses))
    case (Some((u, _)), Some((c, _))) => Some(Game(u, c, 0))
    case _ => None
  }

  /** A new game is ready to play: both boards are in play with the standard
      fleet, nothing is fired on, and the user moves first. */
  lemma NewGameReady(size: nat, userPasses: seq<Draws>, pcPasses: seq<Draws>)
    requires NewGame(size, userPasses, pcPasses).Some?
    ensures var g := NewGame(size, userPasses, pcPasses).value;
      && Sound(g) && Ready(g) && Mover(g.num) == User
      && g.user.count == 0 && g.pc.count == 0 && g.user.busy == [] && g.pc.busy == []
  {
    var u := RandomBoard(size, userPasses).value;
    var c := RandomBoard(size, pcPasses).value;
    TryBoardSound(size, userPasses[u.1]);
    TryBoardSound(size, pcPasses[c.1]);
    assert |u.0.ships| == |Lengths(u.0.ships)| == |Fleet|;
    assert |c.0.ships| == |Lengths(c.0.ships)| == |Fleet|;
  }
}
