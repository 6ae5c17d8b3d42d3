/**
 * The turn-based combat resolver as a function of the values it changes.
 * One script entry stands for one pass through the combat loop: the action
 * typed at the prompt together with the random draws that pass may make.
 */
module Combat {
  import opened Items
  import opened Players

  /** The combat prompt's answers: "1", "2", "3", or anything else. */
  datatype Action = Attack | UsePotion | Flee | Unrecognised

  /**
   * One pass of the loop: the action, the attack roll `randint(10, 20)`, the
   * reward roll `randint(20, 50)`, the potion number typed, whether
   * `random.random() < 0.5` let the player escape, and the enemy's roll
   * `randint(5, enemy.damage)`.
   */
  datatype Round = Round(action: Action, strike: int, reward: int, pick: int, escapes: bool, hit: int)

  /** The draws of every round lie in the ranges `randint` produces for an enemy of the given damage. */
  predicate RoundsFit(script: seq<Round>, damage: int)
  {
    forall i :: 0 <= i < |script| ==>
      && 10 <= script[i].strike <= 20
      && 20 <= script[i].reward <= 50
      && 5 <= script[i].hit <= damage
  }

  /** What combat reads and changes: player health, gold and inventory, the enemy's health, and the game-over flag. */
  datatype Fray = Fray(health: int, gold: int, inventory: seq<Item>, enemyHealth: int, gameOver: bool)

  /** After a pass: go round the loop again, or return from combat with this result. */
  datatype Status = Next | Stop(won: bool)

  /**
   * How combat ends: by returning its boolean, or by running out of input
   * (`input()` then raises, and the exception ends the session).
   */
  datatype Outcome = Finished(won: bool) | EndOfInput

  /** The flat bonus an equipped weapon adds to every attack. */
  function Bonus(weapon: Option<Item>): int
  {
    if weapon.Some? then weapon.value.value else 0
  }

  /** The enemy's counter-attack, which happens only while the enemy still stands. */
  function EnemyTurn(f: Fray, hit: int): (Fray, Status)
  {
    if f.enemyHealth > 0 then
      var health := f.health - hit;
      if health <= 0 then (f.(health := health, gameOver := true), Stop(false))
      else (f.(health := health), Next)
    else (f, Next)
  }

  /** One pass through the body of the combat loop. */
  function RoundStep(f: Fray, maxHealth: int, bonus: int, r: Round): (res: (Fray, Status))
    ensures res.1 == Stop(true) ==> res.0.enemyHealth <= 0
    ensures res.0.gold == f.gold || (res.1 == Stop(true) && res.0.gold == f.gold + r.reward)
    ensures f.gameOver ==> res.0.gameOver
  {
    match r.action
    case Attack =>
      var enemyHealth := f.enemyHealth - (r.strike + bonus);
      if enemyHealth <= 0 then (f.(enemyHealth := enemyHealth, gold := f.gold + r.reward), Stop(true))
      else EnemyTurn(f.(enemyHealth := enemyHealth), r.hit)
    case UsePotion =>
      var d := Quaff(f.health, maxHealth, f.inventory, r.pick);
      if !d.ok then (f, Next)
      else EnemyTurn(f.(health := d.health, inventory := d.inventory), r.hit)
    case Flee =>
      if r.escapes then (f, Stop(false)) else EnemyTurn(f, r.hit)
    case Unrecognised =>
      EnemyTurn(f, r.hit)
  }

  /** The whole combat loop run on a script of passes. */
  function Fight(f: Fray, maxHealth: int, bonus: int, script: seq<Round>): (res: (Fray, Outcome))
    decreases |script|
    ensures res.1 == EndOfInput ==> res.0.enemyHealth > 0 && res.0.health > 0
    ensures |script| == 0 && f.enemyHealth > 0 && f.health > 0 ==> res == (f, EndOfInput)
  {
    if !(f.enemyHealth > 0 && f.health > 0) then (f, Finished(true))
    else if script == [] then (f, EndOfInput)
    else
      var (g, s) := RoundStep(f, maxHealth, bonus, script[0]);
      if s.Stop? then (g, Finished(s.won)) else Fight(g, maxHealth, bonus, script[1..])
  }

  // ---- Properties of a single pass ----

  /**
   * An attack deals its roll plus the weapon bonus; a blow that leaves the enemy
   * at or below zero ends combat won, adds the reward, and spares the player the
   * counter-attack. Otherwise the enemy hits back.
   */
  lemma AttackRound(f: Fray, maxHealth: int, bonus: int, r: Round)
    requires r.action == Attack
    ensures var (g, s) := RoundStep(f, maxHealth, bonus, r);
      && g.enemyHealth == f.enemyHealth - r.strike - bonus
      && (g.enemyHealth <= 0 ==> s == Stop(true) && g.gold == f.gold + r.reward && g.health == f.health)
      && (g.enemyHealth > 0 ==> g.health == f.health - r.hit && g.gold == f.gold)
  {
  }

  /** A failed potion skips the counter-attack; a successful one is followed by it. */
  lemma PotionRound(f: Fray, maxHealth: int, bonus: int, r: Round)
    requires r.action == UsePotion && f.enemyHealth > 0
    ensures var (g, s) := RoundStep(f, maxHealth, bonus, r);
      var d := Quaff(f.health, maxHealth, f.inventory, r.pick);
      && (!d.ok ==> g == f && s == Next)
      && (d.ok ==> g.health == d.health - r.hit && g.inventory == d.inventory && g.enemyHealth == f.enemyHealth)
  {
  }

  /**
   * Escaping returns a loss with the player untouched; a failed escape and an
   * unrecognised action both let the enemy hit.
   */
  lemma FleeOrOtherRound(f: Fray, maxHealth: int, bonus: int, r: Round)
    requires r.action == Flee || r.action == Unrecognised
    requires f.enemyHealth > 0
    ensures var (g, s) := RoundStep(f, maxHealth, bonus, r);
      && (r.action == Flee && r.escapes ==> g == f && s == Stop(false))
      && (r.action == Unrecognised || !r.escapes ==>
            g.health == f.health - r.hit && g.enemyHealth == f.enemyHealth && g.gold == f.gold
            && (s == Stop(false) <==> g.health <= 0) && (g.gameOver <==> f.gameOver || g.health <= 0))
  {
  }

  // ---- Properties of the whole combat ----

  /** Combat against an enemy already at or below zero returns a win at once, with no reward. */
  lemma BeatenEnemyYieldsNothing(f: Fray, maxHealth: int, bonus: int, script: seq<Round>)
    requires f.enemyHealth <= 0
    ensures Fight(f, maxHealth, bonus, script) == (f, Finished(true))
  {
  }

  /** A pass that goes round again leaves the player alive (the failed potion leaves everything as it was). */
  lemma NextKeepsPlayerAlive(f: Fray, maxHealth: int, bonus: int, r: Round)
    requires f.health > 0 && f.enemyHealth > 0
    ensures var (g, s) := RoundStep(f, maxHealth, bonus, r);
      s == Next ==> g.health > 0 && g.enemyHealth > 0
  {
  }

  /** With the player alive at the start, combat reports a win only when the enemy is at or below zero. */
  lemma {:induction false} WinMeansEnemyDown(f: Fray, maxHealth: int, bonus: int, script: seq<Round>)
    decreases |script|
    requires f.health > 0
    ensures var (g, o) := Fight(f, maxHealth, bonus, script);
      o == Finished(true) ==> g.enemyHealth <= 0
  {
    if f.enemyHealth > 0 && script != [] {
      NextKeepsPlayerAlive(f, maxHealth, bonus, script[0]);
      var (g, s) := RoundStep(f, maxHealth, bonus, script[0]);
      if s.Next? {
        WinMeansEnemyDown(g, maxHealth, bonus, script[1..]);
      }
    }
  }

  /**
   * Starting alive and not over, combat sets the game-over flag exactly when it
   * leaves the player at or below zero health, and that case returns a loss.
   */
  lemma {:induction false} DefeatSetsGameOver(f: Fray, maxHealth: int, bonus: int, script: seq<Round>)
    decreases |script|
    requires f.health > 0 && !f.gameOver
    ensures var (g, o) := Fight(f, maxHealth, bonus, script);
      && (g.gameOver <==> g.health <= 0)
      && (g.gameOver ==> o == Finished(false))
  {
    if f.enemyHealth > 0 && script != [] {
      NextKeepsPlayerAlive(f, maxHealth, bonus, script[0]);
      var (g, s) := RoundStep(f, maxHealth, bonus, script[0]);
      if s.Next? {
        DefeatSetsGameOver(g, maxHealth, bonus, script[1..]);
      }
    }
  }

  /** Combat never clears the game-over flag. */
  lemma {:induction false} GameOverSticks(f: Fray, maxHealth: int, bonus: int, script: seq<Round>)
    decreases |script|
    requires f.gameOver
    ensures Fight(f, maxHealth, bonus, script).0.gameOver
  {
    if f.enemyHealth > 0 && f.health > 0 && script != [] {
      var (g, s) := RoundStep(f, maxHealth, bonus, script[0]);
      if s.Next? {
        GameOverSticks(g, maxHealth, bonus, script[1..]);
      }
    }
  }

  /** Healing is capped and the enemy only subtracts, so combat never lifts health above the maximum. */
  lemma {:induction false} HealthStaysCapped(f: Fray, maxHealth: int, bonus: int, script: seq<Round>, damage: int)
    decreases |script|
    requires f.health <= maxHealth && RoundsFit(script, damage)
    ensures Fight(f, maxHealth, bonus, script).0.health <= maxHealth
  {
    if f.enemyHealth > 0 && f.health > 0 && script != [] {
      var (g, s) := RoundStep(f, maxHealth, bonus, script[0]);
      assert 5 <= script[0].hit;
      if s.Next? {
        HealthStaysCapped(g, maxHealth, bonus, script[1..], damage);
      }
    }
  }

  /** Gold changes only by a single reward in [20, 50], paid when combat is won. */
  lemma {:induction false} RewardOnlyOnWin(f: Fray, maxHealth: int, bonus: int, script: seq<Round>, damage: int)
    decreases |script|
    requires RoundsFit(script, damage)
    ensures var (g, o) := Fight(f, maxHealth, bonus, script);
      g.gold == f.gold || (o == Finished(true) && f.gold + 20 <= g.gold <= f.gold + 50)
  {
    if f.enemyHealth > 0 && f.health > 0 && script != [] {
      var (g, s) := RoundStep(f, maxHealth, bonus, script[0]);
      if s.Next? {
        RewardOnlyOnWin(g, maxHealth, bonus, script[1..], damage);
      }
    }
  }

  /** Attacks never heal the enemy: its health can only go down. */
  lemma {:induction false} EnemyOnlyWeakens(f: Fray, maxHealth: int, bonus: int, script: seq<Round>, damage: int)
    decreases |script|
    requires bonus >= 0 && RoundsFit(script, damage)
    ensures Fight(f, maxHealth, bonus, script).0.enemyHealth <= f.enemyHealth
  {
    if f.enemyHealth > 0 && f.health > 0 && script != [] {
      var (g, s) := RoundStep(f, maxHealth, bonus, script[0]);
      if s.Next? {
        EnemyOnlyWeakens(g, maxHealth, bonus, script[1..], damage);
      }
    }
  }

  /** `after` is `before` with some potions taken out: nothing else is lost and nothing is added. */
  ghost predicate PotionsTaken(before: seq<Item>, after: seq<Item>)
  {
    && multiset(after) <= multiset(before)
    && forall x: Item :: x.kind != Potion ==> multiset(after)[x] == multiset(before)[x]
  }

  lemma PotionsTakenTrans(a: seq<Item>, b: seq<Item>, c: seq<Item>)
    requires PotionsTaken(a, b) && PotionsTaken(b, c)
    ensures PotionsTaken(a, c)
  {
  }

  lemma RoundTakesOnlyPotions(f: Fray, maxHealth: int, bonus: int, r: Round)
    ensures PotionsTaken(f.inventory, RoundStep(f, maxHealth, bonus, r).0.inventory)
  {
    if r.action == UsePotion {
      QuaffKeepsItems(f.health, maxHealth, f.inventory, r.pick);
      var d := Quaff(f.health, maxHealth, f.inventory, r.pick);
      assert RoundStep(f, maxHealth, bonus, r).0.inventory == (if d.ok then d.inventory else f.inventory);
    }
  }

  /** Combat only ever removes potions: every item it keeps was carried before, and no non-potion is lost. */
  lemma {:induction false} OnlyPotionsConsumed(f: Fray, maxHealth: int, bonus: int, script: seq<Round>)
    decreases |script|
    ensures PotionsTaken(f.inventory, Fight(f, maxHealth, bonus, script).0.inventory)
  {
    if f.enemyHealth > 0 && f.health > 0 && script != [] {
      var (g, s) := RoundStep(f, maxHealth, bonus, script[0]);
      RoundTakesOnlyPotions(f, maxHealth, bonus, script[0]);
      if s.Next? {
        OnlyPotionsConsumed(g, maxHealth, bonus, script[1..]);
        PotionsTakenTrans(f.inventory, g.inventory, Fight(g, maxHealth, bonus, script[1..]).0.inventory);
      }
    }
  }
}
