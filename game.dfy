/**
 * The game session as the program runs it: one object holding the player,
 * the location graph, the enemy catalog and the game-over flag, whose methods
 * change them in place. Each method is proved against the value-level
 * description in module World.
 */
module Adventure {
  import opened Items
  import opened Players
  import opened Combat
  import opened World

  /** Writing one enemy's health into the catalog's health map. */
  lemma CatalogUpdate(foe: string, foes: map<string, int>, goblin: int, wolf: int, dragon: int, h: int)
    requires foes.Keys == {GoblinKey, WolfKey, DragonKey} && foe in foes
    requires (if foe == GoblinKey then h else foes[GoblinKey]) == goblin
    requires (if foe == WolfKey then h else foes[WolfKey]) == wolf
    requires (if foe == DragonKey then h else foes[DragonKey]) == dragon
    ensures map[GoblinKey := goblin, WolfKey := wolf, DragonKey := dragon] == foes[foe := h]
  {
  }

  class Game {
    const player: Player
    var gameOver: bool
    var locations: map<string, Place>
    /** The enemy catalog; combat lowers the health of these very objects. */
    const enemies: map<string, Enemy>

    /** The catalog holds the three enemies, as three distinct objects with their fixed damage. */
    ghost predicate Valid()
      reads this, player
    {
      && player.maxHealth == 100
      && enemies.Keys == {GoblinKey, WolfKey, DragonKey}
      && enemies[GoblinKey] != enemies[WolfKey]
      && enemies[GoblinKey] != enemies[DragonKey]
      && enemies[WolfKey] != enemies[DragonKey]
      && enemies[GoblinKey].damage == GoblinDamage
      && enemies[WolfKey].damage == WolfDamage
      && enemies[DragonKey].damage == DragonDamage
    }

    /** The session as a value. */
    ghost function State(): World
      reads this, player, enemies.Values
      requires Valid()
    {
      World(player.health, player.maxHealth, player.gold, player.inventory, player.equippedWeapon,
            player.location, gameOver, locations,
            map[GoblinKey := enemies[GoblinKey].health,
                WolfKey := enemies[WolfKey].health,
                DragonKey := enemies[DragonKey].health])
    }

    /** What one pass of combat against `foe` reads and changes. */
    ghost function Standing(foe: string): Fray
      reads this, player, enemies.Values
      requires foe in enemies
    {
      Fray(player.health, player.gold, player.inventory, enemies[foe].health, gameOver)
    }

    /**
     * A new game with the player already created: the starting graph, the
     * catalog at full health, a player named `name` with 100 health and 50
     * gold in the village, and the game not over.
     */
    constructor (name: string)
      ensures Valid() && fresh(player) && player.name == name
      ensures State() == Start()
    {
      player := new Player(name);
      gameOver := false;
      locations := Graph();
      var goblin := new Enemy("Goblin", GoblinHealth, GoblinDamage, "Uma criatura verde e perigosa");
      var wolf := new Enemy("Lobo Selvagem", WolfHealth, WolfDamage, "Feroz e rápido");
      var dragon := new Enemy("Dragão Ancião", DragonHealth, DragonDamage, "GUARDIÃO DO TESOURO FINAL");
      enemies := map[GoblinKey := goblin, WolfKey := wolf, DragonKey := dragon];
    }

    /**
     * One pass through the body of the combat loop against the catalog enemy
     * `foe`: the player's action, then the enemy's counter-attack unless the
     * pass already ended combat or a potion could not be drunk.
     */
    method Exchange(foe: string, bonus: int, r: Round) returns (s: Status)
      requires Valid() && foe in enemies && bonus == Bonus(player.equippedWeapon)
      modifies this`gameOver, player`health, player`gold, player`inventory, enemies[foe]
      ensures Valid()
      ensures (Standing(foe), s) == RoundStep(old(Standing(foe)), 100, bonus, r)
    {
      var enemy := enemies[foe];
      s := Next;
      if r.action == Attack {
        var damage := r.strike;
        if player.equippedWeapon.Some? {
          damage := damage + player.equippedWeapon.value.value;
        }
        enemy.health := enemy.health - damage;
        if enemy.health <= 0 {
          player.gold := player.gold + r.reward;
          return Stop(true);
        }
      } else if r.action == UsePotion {
        var ok := player.UsePotion(r.pick);
        if !ok {
          return Next;
        }
      } else if r.action == Flee {
        if r.escapes {
          return Stop(false);
        }
      }
      // The enemy's counter-attack.
      if enemy.health > 0 {
        player.health := player.health - r.hit;
        if player.health <= 0 {
          gameOver := true;
          return Stop(false);
        }
      }
    }

    /**
     * The turn-based combat against the catalog enemy `foe`, one script entry
     * per pass through the loop. It changes exactly what `Encounter` says:
     * player health, gold, inventory, the game-over flag and that enemy's
     * health, which stays lowered after the fight.
     */
    method Combat(foe: string, script: seq<Round>) returns (o: Outcome)
      requires Valid() && foe in enemies && RoundsFit(script, enemies[foe].damage)
      modifies this`gameOver, player`health, player`gold, player`inventory, enemies[foe]
      ensures Valid()
      ensures (State(), o) == Encounter(old(State()), foe, script)
    {
      var enemy := enemies[foe];
      var bonus := Bonus(player.equippedWeapon);
      ghost var start := Standing(foe);
      o := Finished(true);
      var i := 0;
      while enemy.health > 0 && player.health > 0
        invariant 0 <= i <= |script|
        invariant Valid() && enemy == enemies[foe] && o == Finished(true)
        invariant player.equippedWeapon == old(player.equippedWeapon)
        invariant player.location == old(player.location) && locations == old(locations)
        invariant forall k :: k in enemies && k != foe ==> enemies[k].health == old(enemies[k].health)
        invariant Fight(Standing(foe), 100, bonus, script[i..]) == Fight(start, 100, bonus, script)
        decreases |script| - i
      {
        if i == |script| {
          o := EndOfInput;
          break;
        }
        assert script[i..][1..] == script[i + 1..];
        var s := Exchange(foe, bonus, script[i]);
        i := i + 1;
        if s.Stop? {
          o := Finished(s.won);
          break;
        }
      }
      assert Fight(start, 100, bonus, script) == (Standing(foe), o);
      ghost var w := old(State());
      EncounterResult(w, foe, script, Standing(foe), o);
      CatalogUpdate(foe, w.foes, enemies[GoblinKey].health, enemies[WolfKey].health, enemies[DragonKey].health, enemy.health);
    }

    /** The end of the game by defeating the dragon. */
    method Victory()
      modifies this`gameOver
      ensures gameOver
    {
      gameOver := true;
    }

    /**
     * The event of arriving at `location`, on every arrival. Returns true when
     * input ran out during a combat.
     */
    method HandleLocation(location: string, v: Visit) returns (ended: bool)
      requires Valid() && Sound(State()) && location in locations
      requires VisitFits(location, v, player.inventory)
      modifies this`gameOver, this`locations, player, enemies.Values
      ensures Valid() && Sound(State())
      ensures (State(), ended) == VisitSpec(old(State()), location, v)
    {
      ghost var w := State();
      ended := false;
      if location == Village {
        player.AddItem(Sword);
        player.equippedWeapon := Some(Sword);
        VillageArms(w, v);
        assert (State(), ended) == VisitSpec(w, location, v);
      } else if location == Shop {
        if v.buy && player.gold >= PotionPrice {
          player.gold := player.gold - PotionPrice;
          player.AddItem(HealingPotion);
        }
        ShopSells(w, v);
        assert (State(), ended) == VisitSpec(w, location, v);
      } else if location == Forest {
        if v.encounter {
          var o := Combat(BeastKey(v.foe), v.script);
          ended := o == EndOfInput;
        }
        ForestMayFight(w, v);
        assert (State(), ended) == VisitSpec(w, location, v);
      } else if location == Cave {
        player.AddItem(OldKey);
        CaveGivesKey(w, v);
        assert (State(), ended) == VisitSpec(w, location, v);
      } else if location == Lake {
        player.health := player.maxHealth;
        LakeRestores(w, v, v);
        assert (State(), ended) == VisitSpec(w, location, v);
      } else if location == DragonLair {
        if HasItemNamed(player.inventory, LegendaryName) {
          var o := Combat(DragonKey, v.script);
          if o == Finished(true) {
            Victory();
          }
          ended := o == EndOfInput;
          LairFights(w, v);
        } else {
          locations := locations[DragonLair := locations[DragonLair].(options := [Cave])];
          LairTurnsAway(w, v);
          LairRewriteKeepsGraph();
        }
        assert (State(), ended) == VisitSpec(w, location, v);
      } else {
        assert (State(), ended) == VisitSpec(w, location, v);
      }
      VisitKeepsSound(w, location, v);
    }

    /** One pass of the main loop: quit, show the inventory, or move by number and handle the arrival. */
    method Turn(cmd: Command, v: Visit) returns (r: TurnResult)
      requires Valid() && Sound(State()) && DrawsFit(v, player.inventory)
      modifies this`gameOver, this`locations, player, enemies.Values
      ensures Valid() && Sound(State())
      ensures (State(), r) == TurnSpec(old(State()), cmd, v)
    {
      ghost var w := State();
      match cmd
      case Quit =>
        r := Quitted;
        assert (State(), r) == TurnSpec(w, cmd, v);
      case ShowInventory =>
        r := Continue;
        assert (State(), r) == TurnSpec(w, cmd, v);
      case Unknown =>
        r := Continue;
        assert (State(), r) == TurnSpec(w, cmd, v);
      case Digits(n) =>
        var options := locations[player.location].options;
        r := Continue;
        if 0 <= n - 1 < |options| {
          OptionExists(w, n - 1);
          var target := options[n - 1];
          player.location := target;
          assert State() == w.(location := target);
          var ended := HandleLocation(target, v);
          if ended {
            r := OutOfInput;
          }
          assert (State(), r) == TurnSpec(w, cmd, v);
        } else {
          assert (State(), r) == TurnSpec(w, cmd, v);
        }
    }

    /**
     * The main loop, one command (with the inputs and draws of the arrival it
     * causes) per pass, until the game is over, the player quits or input runs out.
     */
    method Play(turns: seq<(Command, Visit)>)
      requires Valid() && Sound(State()) && Mundane(player.inventory) && TurnsFit(turns)
      modifies this`gameOver, this`locations, player, enemies.Values
      ensures Valid() && State() == PlaySpec(old(State()), turns)
    {
      ghost var start := State();
      var i := 0;
      while !gameOver
        invariant 0 <= i <= |turns|
        invariant Valid() && Sound(State()) && Mundane(player.inventory)
        invariant TurnsFit(turns[i..])
        invariant PlaySpec(State(), turns[i..]) == PlaySpec(start, turns)
        decreases |turns| - i
      {
        if i == |turns| {
          return;
        }
        var (cmd, v) := turns[i];
        assert turns[i..][0] == (cmd, v) && turns[i..][1..] == turns[i + 1..];
        ghost var before := State();
        MundaneLacksLegendary(player.inventory);
        TurnKeepsSound(before, cmd, v);
        var r := Turn(cmd, v);
        i := i + 1;
        if r != Continue {
          return;
        }
      }
    }
  }
}
