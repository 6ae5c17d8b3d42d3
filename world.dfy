/**
 * The game world as a value: the location graph, the enemy catalog's health,
 * the player's state and the game-over flag; what a visit to each location
 * and what one command of the main loop do to it.
 */
module World {
  import opened Items
  import opened Combat

  // Location ids, as the game spells them.
  const Village := "village"
  const Forest := "floresta"
  const Shop := "loja"
  const Tavern := "taverna"
  const Cave := "caverna"
  const Lake := "lago"
  const DragonLair := "dragon_lair"

  // Enemy catalog keys and stats.
  const GoblinKey := "goblin"
  const WolfKey := "lobo"
  const DragonKey := "dragão"
  const GoblinHealth := 30
  const GoblinDamage := 10
  const WolfHealth := 25
  const WolfDamage := 15
  const DragonHealth := 100
  const DragonDamage := 25

  const PotionPrice := 30

  datatype Place = Place(description: string, options: seq<string>)

  /** The location graph the game starts with. */
  function Graph(): map<string, Place>
  {
    map[
      Village := Place("🏠 Você está em uma vila pacífica. O povo precisa de ajuda!", [Forest, Shop, Tavern]),
      Forest := Place("🌲 Floresta densa com sons misteriosos...", [Village, Cave, Lake]),
      Shop := Place("🏪 Loja do velho Merlin - itens mágicos à venda!", [Village]),
      Tavern := Place("🍻 A taverna 'Dragão Dourado'. Aventureiros compartilham histórias.", [Village]),
      Cave := Place("🕳️ Caverna escura e úmida. Algo valioso pode estar aqui...", [Forest, DragonLair]),
      Lake := Place("🏞️ Lago cristalino. Uma energia mágica emana das águas.", [Forest]),
      DragonLair := Place("🐉 COVIL DO DRAGÃO! O dragão ancião guarda o tesouro!", [Cave])
    ]
  }

  /** Every movement option names a location of the graph: no edge dangles. */
  lemma GraphClosed()
    ensures forall id, k :: id in Graph() && 0 <= k < |Graph()[id].options| ==> Graph()[id].options[k] in Graph()
  {
  }

  /** The option picked by number in a sound session is a location of its graph. */
  lemma OptionExists(w: World, k: int)
    requires Sound(w) && 0 <= k < |w.locations[w.location].options|
    ensures w.locations[w.location].options[k] in w.locations
  {
    GraphClosed();
  }

  /** The lair's rewrite of its own options puts back the very list it started with. */
  lemma LairRewriteKeepsGraph()
    ensures Graph()[DragonLair := Graph()[DragonLair].(options := [Cave])] == Graph()
  {
  }

  /** The two enemies a forest encounter can pick between. */
  datatype Beast = Goblin | Wolf

  function BeastKey(b: Beast): string
  {
    match b
    case Goblin => GoblinKey
    case Wolf => WolfKey
  }

  function DamageOf(b: Beast): int
  {
    match b
    case Goblin => GoblinDamage
    case Wolf => WolfDamage
  }

  /**
   * The inputs and draws one arrival at a location may use: whether the shop
   * prompt was answered "1", whether `random.random() < 0.6` started a forest
   * encounter, which enemy `random.choice` picked, and the combat script.
   */
  datatype Visit = Visit(buy: bool, encounter: bool, foe: Beast, script: seq<Round>)

  /** The whole mutable state of a session. `foes` holds the current health of each catalog enemy. */
  datatype World = World(
    health: int, maxHealth: int, gold: int, inventory: seq<Item>, weapon: Option<Item>, location: string,
    gameOver: bool, locations: map<string, Place>, foes: map<string, int>)

  /** A fresh session: a new player in the village, the starting graph, every enemy at full health. */
  function Start(): (w: World)
    ensures w.health == w.maxHealth == 100 && w.gold == 50 && w.inventory == [] && w.weapon == None
    ensures w.location == Village && w.location in w.locations && !w.gameOver
  {
    World(100, 100, 50, [], None, Village, false, Graph(),
          map[GoblinKey := GoblinHealth, WolfKey := WolfHealth, DragonKey := DragonHealth])
  }

  /**
   * What holds between commands: health is at most the maximum of 100 and
   * above zero unless the game is over, gold is not negative, the graph is the
   * starting one, the player stands on one of its locations, and the only
   * weapon ever equipped is the steel sword.
   */
  predicate Sound(w: World)
  {
    && w.maxHealth == 100
    && w.health <= w.maxHealth
    && (!w.gameOver ==> w.health > 0)
    && w.gold >= 0
    && w.locations == Graph()
    && w.location in w.locations
    && (w.weapon == None || w.weapon == Some(Sword))
    && w.foes.Keys == {GoblinKey, WolfKey, DragonKey}
  }

  lemma StartSound()
    ensures Sound(Start()) && Mundane(Start().inventory) && !Start().gameOver
  {
  }

  /** Combat against the catalog enemy `foe`, which keeps whatever health combat leaves it with. */
  function Encounter(w: World, foe: string, script: seq<Round>): (res: (World, Outcome))
    requires foe in w.foes
    ensures res.0.location == w.location && res.0.weapon == w.weapon && res.0.maxHealth == w.maxHealth
    ensures res.0.locations == w.locations && res.0.foes.Keys == w.foes.Keys
  {
    var (g, o) := Fight(Fray(w.health, w.gold, w.inventory, w.foes[foe], w.gameOver), w.maxHealth, Bonus(w.weapon), script);
    (w.(health := g.health, gold := g.gold, inventory := g.inventory, gameOver := g.gameOver,
        foes := w.foes[foe := g.enemyHealth]), o)
  }

  /** Combat's result carried back into the session: the fought enemy keeps the health combat left it with. */
  lemma EncounterResult(w: World, foe: string, script: seq<Round>, g: Fray, o: Outcome)
    requires foe in w.foes
    requires Fight(Fray(w.health, w.gold, w.inventory, w.foes[foe], w.gameOver), w.maxHealth, Bonus(w.weapon), script) == (g, o)
    ensures Encounter(w, foe, script)
         == (w.(health := g.health, gold := g.gold, inventory := g.inventory, gameOver := g.gameOver,
                foes := w.foes[foe := g.enemyHealth]), o)
  {
  }

  /**
   * The catalog enemy keeps the health combat leaves it with: once beaten, it
   * stays at or below zero, and every later encounter with it is won at once,
   * with no reward and nothing else changed.
   */
  lemma BeatenStaysBeaten(w: World, foe: string, first: seq<Round>, later: seq<Round>)
    requires foe in w.foes && w.health > 0
    ensures var (w1, o) := Encounter(w, foe, first);
      o == Finished(true) ==> w1.foes[foe] <= 0 && Encounter(w1, foe, later) == (w1, Finished(true))
  {
    var f := Fray(w.health, w.gold, w.inventory, w.foes[foe], w.gameOver);
    WinMeansEnemyDown(f, w.maxHealth, Bonus(w.weapon), first);
    var (g, o) := Fight(f, w.maxHealth, Bonus(w.weapon), first);
    EncounterResult(w, foe, first, g, o);
    var w1 := Encounter(w, foe, first).0;
    if o == Finished(true) {
      var f1 := Fray(w1.health, w1.gold, w1.inventory, w1.foes[foe], w1.gameOver);
      BeatenEnemyYieldsNothing(f1, w1.maxHealth, Bonus(w1.weapon), later);
      EncounterResult(w1, foe, later, f1, Finished(true));
      assert w1.foes[foe := f1.enemyHealth] == w1.foes;
    }
  }

  /** The draws of a visit lie in their ranges for whichever combat that visit can start. */
  predicate VisitFits(location: string, v: Visit, inventory: seq<Item>)
  {
    && (location == Forest && v.encounter ==> RoundsFit(v.script, DamageOf(v.foe)))
    && (location == DragonLair && HasItemNamed(inventory, LegendaryName) ==> RoundsFit(v.script, DragonDamage))
  }

  /** The draws of a visit fit every combat it could start, wherever the player arrives. */
  predicate DrawsFit(v: Visit, inventory: seq<Item>)
  {
    && (v.encounter ==> RoundsFit(v.script, DamageOf(v.foe)))
    && (HasItemNamed(inventory, LegendaryName) ==> RoundsFit(v.script, DragonDamage))
  }

  /**
   * Arriving at `location`: its event runs, on every arrival. The boolean is
   * true when input ran out during a combat.
   */
  function VisitSpec(w: World, location: string, v: Visit): (res: (World, bool))
    requires Sound(w) && location in w.locations
    ensures res.0.location == w.location && res.0.maxHealth == w.maxHealth
    ensures res.1 ==> location == Forest || location == DragonLair
  {
    if location == Village then
      (w.(inventory := w.inventory + [Sword], weapon := Some(Sword)), false)
    else if location == Shop then
      (if v.buy && w.gold >= PotionPrice
       then w.(gold := w.gold - PotionPrice, inventory := w.inventory + [HealingPotion])
       else w, false)
    else if location == Forest then
      if v.encounter then
        var (w', o) := Encounter(w, BeastKey(v.foe), v.script);
        (w', o == EndOfInput)
      else (w, false)
    else if location == Cave then
      (w.(inventory := w.inventory + [OldKey]), false)
    else if location == Lake then
      (w.(health := w.maxHealth), false)
    else if location == DragonLair then
      if HasItemNamed(w.inventory, LegendaryName) then
        var (w', o) := Encounter(w, DragonKey, v.script);
        (if o == Finished(true) then w'.(gameOver := true) else w', o == EndOfInput)
      else
        (w.(locations := w.locations[DragonLair := w.locations[DragonLair].(options := [Cave])]), false)
    else (w, false)
  }

  /** A main-loop command: "q", "i", a string of digits (as its number), or anything else. */
  datatype Command = Quit | ShowInventory | Digits(n: nat) | Unknown

  /** How a command leaves the main loop: going on, quit, or stopped by input running out. */
  datatype TurnResult = Continue | Quitted | OutOfInput

  /** One pass of the main loop: quit, show the inventory, or move by number and run the arrival's event. */
  function TurnSpec(w: World, cmd: Command, v: Visit): (res: (World, TurnResult))
    requires Sound(w)
    ensures res.1 == Quitted <==> cmd == Quit
    ensures res.1 == OutOfInput ==> cmd.Digits?
    ensures res.0.maxHealth == w.maxHealth
  {
    match cmd
    case Quit => (w, Quitted)
    case ShowInventory => (w, Continue)
    case Unknown => (w, Continue)
    case Digits(n) =>
      var options := w.locations[w.location].options;
      if 0 <= n - 1 < |options| then
        GraphClosed();
        var target := options[n - 1];
        var (w', ended) := VisitSpec(w.(location := target), target, v);
        (w', if ended then OutOfInput else Continue)
      else (w, Continue)
  }

  // ---- Location events ----

  /** Every visit to the village hands over one more sword and equips it. */
  lemma VillageArms(w: World, v: Visit)
    requires Sound(w) && Village in w.locations
    ensures var (w', ended) := VisitSpec(w, Village, v);
      && w' == w.(inventory := w.inventory + [Sword], weapon := Some(Sword))
      && |w'.inventory| == |w.inventory| + 1 && w'.weapon == Some(Sword) && !ended
  {
  }

  /**
   * The shop sells a potion for exactly 30 gold when asked and when the player
   * can pay; in every other case gold and inventory stay as they were.
   */
  lemma ShopSells(w: World, v: Visit)
    requires Sound(w)
    ensures var (w', ended) := VisitSpec(w, Shop, v);
      && !ended && w'.health == w.health
      && (v.buy && w.gold >= 30 <==> w'.gold == w.gold - 30)
      && (v.buy && w.gold >= 30 ==> w' == w.(gold := w.gold - 30, inventory := w.inventory + [HealingPotion]))
      && (!(v.buy && w.gold >= 30) ==> w' == w)
      && w'.gold >= 0
  {
  }

  /** Every visit to the cave hands over one more old key. */
  lemma CaveGivesKey(w: World, v: Visit)
    requires Sound(w)
    ensures var (w', ended) := VisitSpec(w, Cave, v);
      w' == w.(inventory := w.inventory + [OldKey]) && !ended
  {
  }

  /** The lake restores health to exactly the maximum, whatever it was, so visiting twice is visiting once. */
  lemma LakeRestores(w: World, v: Visit, v': Visit)
    requires Sound(w)
    ensures var (w', ended) := VisitSpec(w, Lake, v);
      && w' == w.(health := 100) && !ended
      && Sound(w') && VisitSpec(w', Lake, v') == (w', false)
  {
  }

  /** The tavern changes nothing. */
  lemma TavernIsQuiet(w: World, v: Visit)
    requires Sound(w)
    ensures VisitSpec(w, Tavern, v) == (w, false)
  {
  }

  /** Without the legendary sword the lair starts no combat and leaves the world exactly as it was. */
  lemma LairTurnsAway(w: World, v: Visit)
    requires Sound(w) && !HasItemNamed(w.inventory, LegendaryName)
    ensures VisitSpec(w, DragonLair, v) == (w, false)
  {
    LairRewriteKeepsGraph();
  }

  /** With the legendary sword the lair fights the dragon, and a win ends the game. */
  lemma LairFights(w: World, v: Visit)
    requires Sound(w) && HasItemNamed(w.inventory, LegendaryName)
    ensures var (w', o) := Encounter(w, DragonKey, v.script);
      VisitSpec(w, DragonLair, v) == (if o == Finished(true) then w'.(gameOver := true) else w', o == EndOfInput)
  {
  }

  /** The forest fights the chosen beast when the encounter roll says so, and otherwise does nothing. */
  lemma ForestMayFight(w: World, v: Visit)
    requires Sound(w)
    ensures var (w', ended) := VisitSpec(w, Forest, v);
      && (!v.encounter ==> w' == w && !ended)
      && (v.encounter ==> (w', ended) == (Encounter(w, BeastKey(v.foe), v.script).0,
                                          Encounter(w, BeastKey(v.foe), v.script).1 == EndOfInput))
  {
  }

  // ---- Invariants ----

  /**
   * Combat keeps the session sound, takes only potions from the inventory,
   * and, in a game not yet over, ends it exactly when health drops to zero or below.
   */
  lemma EncounterKeepsSound(w: World, foe: string, script: seq<Round>, damage: int)
    requires Sound(w) && foe in w.foes && RoundsFit(script, damage)
    ensures var (w', o) := Encounter(w, foe, script);
      && Sound(w')
      && (Mundane(w.inventory) ==> Mundane(w'.inventory))
      && PotionsTaken(w.inventory, w'.inventory)
      && (!w.gameOver ==> (w'.gameOver <==> w'.health <= 0))
      && (!w.gameOver && w'.gameOver ==> o == Finished(false))
      && w'.weapon == w.weapon && w'.location == w.location
  {
    var f := Fray(w.health, w.gold, w.inventory, w.foes[foe], w.gameOver);
    var bonus := Bonus(w.weapon);
    var (g, o) := Fight(f, w.maxHealth, bonus, script);
    HealthStaysCapped(f, w.maxHealth, bonus, script, damage);
    RewardOnlyOnWin(f, w.maxHealth, bonus, script, damage);
    OnlyPotionsConsumed(f, w.maxHealth, bonus, script);
    if !w.gameOver {
      DefeatSetsGameOver(f, w.maxHealth, bonus, script);
    } else {
      GameOverSticks(f, w.maxHealth, bonus, script);
    }
    if Mundane(w.inventory) {
      forall i | 0 <= i < |g.inventory|
        ensures g.inventory[i] in [Sword, HealingPotion, OldKey]
      {
        assert multiset(g.inventory)[g.inventory[i]] > 0;
        assert g.inventory[i] in multiset(w.inventory);
      }
    }
  }

  /**
   * Every visit, when its draws fit, keeps the session sound and its inventory
   * free of the legendary sword; and in a game not yet over, the game ends only
   * by defeat, which leaves health at zero or below.
   */
  lemma VisitKeepsSound(w: World, location: string, v: Visit)
    requires Sound(w) && location in w.locations && VisitFits(location, v, w.inventory)
    ensures var (w', ended) := VisitSpec(w, location, v);
      && Sound(w')
      && w'.location == w.location
      && (Mundane(w.inventory) ==> Mundane(w'.inventory))
      && (Mundane(w.inventory) && !w.gameOver ==> (w'.gameOver <==> w'.health <= 0))
  {
    if location == Forest && v.encounter {
      EncounterKeepsSound(w, BeastKey(v.foe), v.script, DamageOf(v.foe));
    } else if location == DragonLair {
      if HasItemNamed(w.inventory, LegendaryName) {
        EncounterKeepsSound(w, DragonKey, v.script, DragonDamage);
        if Mundane(w.inventory) {
          MundaneLacksLegendary(w.inventory);
        }
      } else {
        LairRewriteKeepsGraph();
      }
    } else if location == Village || location == Cave || location == Shop {
      var w' := VisitSpec(w, location, v).0;
      if Mundane(w.inventory) {
        assert forall i :: 0 <= i < |w'.inventory| ==>
          w'.inventory[i] in [Sword, HealingPotion, OldKey];
      }
    }
  }

  // ---- The main loop's command ----

  /**
   * A number within the current location's options moves the player to that
   * option, which is a location of the graph, and runs the arrival event
   * there; any other command leaves the world as it was.
   */
  lemma TurnMoves(w: World, cmd: Command, v: Visit)
    requires Sound(w)
    ensures var (w', r) := TurnSpec(w, cmd, v);
      var options := w.locations[w.location].options;
      && (cmd.Digits? && 1 <= cmd.n <= |options| ==>
            var t := options[cmd.n - 1];
            var (w2, ended) := VisitSpec(w.(location := t), t, v);
            && w'.location == t && t in Graph()
            && w' == w2 && (r == OutOfInput <==> ended))
      && (!(cmd.Digits? && 1 <= cmd.n <= |options|) ==> w' == w)
      && (r == Quitted <==> cmd == Quit)
  {
    GraphClosed();
  }

  /** Every command, when its draws fit, keeps the session sound and free of the legendary sword. */
  lemma TurnKeepsSound(w: World, cmd: Command, v: Visit)
    requires Sound(w) && Mundane(w.inventory) && !w.gameOver && DrawsFit(v, w.inventory)
    ensures var (w', r) := TurnSpec(w, cmd, v);
      && Sound(w') && Mundane(w'.inventory)
      && (w'.gameOver <==> w'.health <= 0)
  {
    if cmd.Digits? {
      var options := w.locations[w.location].options;
      if 1 <= cmd.n <= |options| {
        var target := options[cmd.n - 1];
        assert target in Graph() by { GraphClosed(); }
        var w1 := w.(location := target);
        assert VisitFits(target, v, w1.inventory);
        VisitKeepsSound(w1, target, v);
        assert TurnSpec(w, cmd, v).0 == VisitSpec(w1, target, v).0;
      }
    }
  }

  // ---- The main loop ----

  /** The draws of every turn fit the combat it could start. */
  predicate TurnsFit(turns: seq<(Command, Visit)>)
  {
    forall i :: 0 <= i < |turns| ==> (turns[i].1.encounter ==> RoundsFit(turns[i].1.script, DamageOf(turns[i].1.foe)))
  }

  /**
   * The main loop on a sequence of commands, each with the inputs and draws
   * its arrival may use. It runs until the game is over, the player quits or
   * input runs out.
   */
  function PlaySpec(w: World, turns: seq<(Command, Visit)>): (res: World)
    requires Sound(w) && Mundane(w.inventory) && TurnsFit(turns)
    decreases |turns|
    ensures Sound(res) && Mundane(res.inventory)
    ensures w.gameOver ==> res == w
  {
    if w.gameOver || turns == [] then w
    else
      var (cmd, v) := turns[0];
      MundaneLacksLegendary(w.inventory);
      TurnKeepsSound(w, cmd, v);
      var (w', r) := TurnSpec(w, cmd, v);
      if r == Continue then PlaySpec(w', turns[1..]) else w'
  }

  /**
   * Victory is out of reach: since no event hands out the legendary sword, a
   * session that is over has ended in defeat, with health at zero or below;
   * one that is not over has health in (0, 100].
   */
  lemma {:induction false} OnlyDefeatEndsTheGame(w: World, turns: seq<(Command, Visit)>)
    requires Sound(w) && Mundane(w.inventory) && TurnsFit(turns) && !w.gameOver
    decreases |turns|
    ensures var w' := PlaySpec(w, turns);
      && Sound(w') && Mundane(w'.inventory)
      && (w'.gameOver <==> w'.health <= 0)
      && (!w'.gameOver ==> 0 < w'.health <= 100)
  {
    if turns != [] {
      var (cmd, v) := turns[0];
      MundaneLacksLegendary(w.inventory);
      TurnKeepsSound(w, cmd, v);
      var (w', r) := TurnSpec(w, cmd, v);
      if r == Continue && !w'.gameOver {
        OnlyDefeatEndsTheGame(w', turns[1..]);
      }
    }
  }
}
