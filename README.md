# Dragon's Quest — a verified model of the game state

Dragon's Quest (`projeto.py`) is a text adventure. A player walks a small fixed
graph of locations (village, forest, shop, tavern, cave, lake, dragon's lair),
collects items, fights goblins and wolves in turn-based combat, and would win by
carrying the dragon-slaying sword into the lair and beating the dragon.

This project models the game-state logic of that program in Dafny:

- `items.dfy` (module `Items`): the item catalog, the `Enemy` record (a class,
  because combat lowers the health of the catalog object itself), and the list
  operations the game uses: the potion filter, `list.remove`, and the
  "is an item with this name carried" check.
- `players.dfy` (module `Players`): the `Player` class with `AddItem` and
  `UsePotion`, and `Quaff`, the value-level description of drinking a potion.
- `combat.dfy` (module `Combat`): one pass of the combat loop (`RoundStep`) and
  the whole loop (`Fight`) as functions of the values combat changes, with the
  properties of a single pass and of a whole fight.
- `world.dfy` (module `World`): the location graph, the whole session as a
  value (`World`), what arriving at each location does (`VisitSpec`), one
  command of the main loop (`TurnSpec`) and the main loop itself (`PlaySpec`),
  with the per-location properties and the session invariant.
- `game.dfy` (module `Adventure`): the `Game` class the program runs: the player,
  the location map, the enemy catalog and the game-over flag, with
  `Combat`, `HandleLocation`, `Victory`, `Turn` and `Play` updating them in
  place. Each method is proved to do exactly what its `World` function says
  (`State()` is the session as a value).

Console input and randomness are parameters. A combat `Round` carries the action
typed ("1" attack, "2" potion, "3" flee, anything else), the attack roll
`randint(10, 20)`, the reward roll `randint(20, 50)`, the potion number typed,
whether `random.random() < 0.5` let the player escape, and the enemy's roll
`randint(5, enemy.damage)`. A `Visit` carries the shop answer, whether
`random.random() < 0.6` started a forest encounter, which of goblin and wolf
`random.choice` picked, and the combat rounds. The ranges of `randint` are
preconditions (`RoundsFit`). When the rounds run out while the combat loop still
wants input, the model reports `EndOfInput`: in the program `input()` raises at
end of input and the exception ends the session in `main`.

What the proofs establish, in the game's terms:

- Drinking a potion fails, and changes nothing, exactly when there is no potion
  or the number typed is not between 1 and the number of potions. Otherwise
  health becomes `min(max_health, health + value)` and exactly the first equal
  potion leaves the inventory, every other item keeping its place.
- An attack deals its roll plus the equipped weapon's value. A killing blow adds
  the reward and spares the player the counter-attack. A failed potion skips the
  counter-attack. A successful escape returns a loss with the player untouched.
  A failed escape, a drunk potion and an unrecognised action are all followed by
  the enemy's attack.
- For a player who enters combat alive, combat returns a win only when the
  enemy is at or below zero. It sets the game-over flag exactly when the player
  ends at or below zero, and then returns a loss. Gold changes only by one
  reward in [20, 50] on a win. Only potions leave the inventory.
- The enemy catalog keeps the health combat leaves it with. An enemy beaten once
  stays beaten, and every later encounter with it is won at once with no reward.
- Every visit re-runs its location's event: each village visit adds another
  sword and equips it, each cave visit adds another key. The shop sells a potion
  for exactly 30 gold only when asked and affordable, so gold never goes
  negative. The lake sets health to exactly 100, so a second visit changes
  nothing. The tavern does nothing.
- Every movement option names a location of the graph. A number within the
  options moves the player there; any other command leaves the session as it was.
- No event hands out the dragon-slaying sword. So the lair never starts the boss
  fight, its rewrite of its own options puts back the list it already had, and
  the game can only end in defeat. Between commands of a session still running,
  health stays in (0, 100].

The model follows the code where its behaviour is surprising:

- Combat works on the catalog `Enemy` object itself (projeto.py:154, 172), so
  its health is not restored for the next encounter.
- An action other than "1", "2" or "3" does not re-prompt for free: the enemy
  still attacks (projeto.py:164-197).
- The lair's rewrite of its options (projeto.py:252) sets the same `["caverna"]`
  the graph starts with (projeto.py:102), so the graph never changes.
- The new player starts in the village without a sword: the village event runs
  only when the player moves there (projeto.py:35, 301-302).

## Model

| member | source | states |
|---|---|---|
| `Items.Enemy.constructor` | projeto.py:20-25 | an enemy record holds the name, health, damage and description it was made with |
| `Items.Potions` | projeto.py:50 | the potion list is no longer than the inventory and holds only potions taken from it |
| `Items.PotionsComplete` | projeto.py:50 | the potion list holds every potion of the inventory exactly as often as the inventory does, and no other item |
| `Items.PotionsEmpty` | projeto.py:50-53 | the potion list is empty exactly when no item of the inventory is a potion |
| `Items.IndexOf` | projeto.py:64 | the index found holds `x` and no earlier position does |
| `Items.RemoveFirst` | projeto.py:64 | `list.remove` shortens the list by exactly one |
| `Items.RemoveFirstCutsFirst` | projeto.py:64 | `list.remove` cuts out exactly the first occurrence and keeps all other items in order |
| `Items.RemoveFirstMultiset` | projeto.py:64 | `list.remove` takes out one copy of the item and nothing else |
| `Items.HasItemNamed` | projeto.py:245 | the front-to-back scan that `any` performs is true exactly when some inventory position holds an item of that name |
| `Items.MundaneLacksLegendary` | projeto.py:245 | an inventory of swords, potions and keys fails the lair's legendary-sword check |
| `Players.Quaff` | projeto.py:49-69 | a failed drink keeps health and inventory; a successful one leaves health at most the maximum and the inventory one item shorter |
| `Players.QuaffFailure` | projeto.py:49-69 | drinking fails exactly when there is no potion or the number is outside 1..#potions, and then health and inventory are unchanged |
| `Players.QuaffHeals` | projeto.py:61-63 | a valid pick succeeds and sets health to min(max_health, health + the picked potion's value) |
| `Players.QuaffRemovesFirst` | projeto.py:62-64 | a successful drink removes the first occurrence of the picked potion and keeps every other item in order |
| `Players.QuaffKeepsItems` | projeto.py:49-69 | drinking never adds items and never removes anything but a potion |
| `Players.Player.constructor` | projeto.py:28-35 | a new player has 100 of 100 health, 50 gold, no items, no weapon, and stands in the village |
| `Players.Player.AddItem` | projeto.py:37-39 | the item is appended; duplicates are kept |
| `Players.Player.UsePotion` | projeto.py:49-69 | health, inventory and result are those of `Quaff`; success exactly for a pick in 1..#potions |
| `Combat.RoundStep` | projeto.py:164-202 | a pass returns a win only with the enemy at or below zero, changes gold only by the reward of a winning pass, and never clears game over |
| `Combat.Fight` | projeto.py:158-204 | combat stops for lack of input only while both fighters are above zero, and with no input left and both standing it changes nothing |
| `Combat.AttackRound` | projeto.py:166-180 | an attack lowers enemy health by the roll plus the weapon bonus; a kill adds the reward, returns a win and spares the player; otherwise the enemy hits back |
| `Combat.PotionRound` | projeto.py:182-197 | a failed potion changes nothing and goes round again; a drunk potion is followed by the enemy's attack |
| `Combat.FleeOrOtherRound` | projeto.py:186-197 | a successful escape returns a loss with nothing changed; a failed escape or an unrecognised action lets the enemy hit, and a hit to zero or below sets game over and returns a loss |
| `Combat.NextKeepsPlayerAlive` | projeto.py:158-202 | a pass that goes round the loop again leaves both fighters above zero |
| `Combat.BeatenEnemyYieldsNothing` | projeto.py:154-158 | combat against an enemy already at or below zero returns a win at once with no reward and nothing changed |
| `Combat.WinMeansEnemyDown` | projeto.py:158-204 | for a player who enters combat alive, combat reports a win only when the enemy's health is at or below zero |
| `Combat.DefeatSetsGameOver` | projeto.py:193-202 | combat sets game over exactly when it leaves the player at or below zero, and then returns a loss |
| `Combat.GameOverSticks` | projeto.py:199-201 | combat never clears the game-over flag |
| `Combat.HealthStaysCapped` | projeto.py:158-204 | combat never lifts player health above the maximum |
| `Combat.RewardOnlyOnWin` | projeto.py:175-180 | gold changes only by one reward in [20, 50], and only on a win |
| `Combat.EnemyOnlyWeakens` | projeto.py:166-172 | enemy health never goes up during combat |
| `Combat.RoundTakesOnlyPotions` | projeto.py:182-184 | one pass removes at most potions from the inventory |
| `Combat.OnlyPotionsConsumed` | projeto.py:158-204 | a whole combat removes only potions and adds nothing |
| `World.Start` | projeto.py:28-35 | a new session has 100 of 100 health, 50 gold, no items, no weapon, stands in the village, which is a graph location, and is not over |
| `World.Encounter` | projeto.py:152-204 | combat keeps the player's location and weapon, the maximum health, the graph and the set of catalog enemies |
| `World.VisitSpec` | projeto.py:206-252 | no location event moves the player or changes the maximum health, and input can run out only in the forest or the lair |
| `World.TurnSpec` | projeto.py:289-309 | a command quits exactly when it is "q", input can run out only after a move by number, and the maximum health stays |
| `World.PlaySpec` | projeto.py:274-309 | the main loop keeps the session invariant and the inventory free of the legendary sword, and a session already over is left as it is |
| `World.GraphClosed` | projeto.py:75-104 | every movement option names a location of the graph |
| `World.LairRewriteKeepsGraph` | projeto.py:252 | the lair's rewrite of its options leaves the graph as it started |
| `World.StartSound` | projeto.py:28-35 | the starting session satisfies the session invariant, carries no legendary sword and is not over |
| `World.BeatenStaysBeaten` | projeto.py:154-204 | a beaten catalog enemy stays at or below zero, and a later encounter is won at once with nothing changed |
| `World.VillageArms` | projeto.py:214-217 | each village visit appends one more sword and equips it; gold and health stay |
| `World.ShopSells` | projeto.py:219-226 | gold drops by exactly 30 and a potion is appended exactly when the player asks and has 30 gold; otherwise nothing changes; gold stays non-negative |
| `World.CaveGivesKey` | projeto.py:234-236 | each cave visit appends one more old key and changes nothing else |
| `World.LakeRestores` | projeto.py:238-241 | the lake sets health to exactly 100 whatever it was, so a second visit changes nothing |
| `World.TavernIsQuiet` | projeto.py:206-214 | the tavern visit changes nothing |
| `World.LairFights` | projeto.py:245-248 | with an item named as the legendary sword the lair fights the dragon from the catalog, and a win sets game over |
| `World.LairTurnsAway` | projeto.py:243-252 | without an item named as the legendary sword the lair starts no combat, and its options rewrite leaves the session as it was |
| `World.ForestMayFight` | projeto.py:228-232 | the forest fights the picked enemy when the encounter roll says so, and otherwise changes nothing |
| `World.EncounterKeepsSound` | projeto.py:152-204 | combat keeps the session invariant, keeps weapon and location, takes only potions, and ends a running game exactly by defeat |
| `World.VisitKeepsSound` | projeto.py:206-252 | every location event keeps the session invariant and leaves the inventory free of the legendary sword |
| `World.TurnMoves` | projeto.py:289-309 | a number within the options moves the player to that option, a graph location, and then runs that location's arrival event (`VisitSpec`), whose end of input is the turn's; any other command changes nothing; only "q" quits |
| `World.TurnKeepsSound` | projeto.py:289-309 | every command keeps the session invariant, and game over goes with health at or below zero |
| `World.OnlyDefeatEndsTheGame` | projeto.py:274-309 | the main loop keeps the session invariant; the game is over only by defeat, and a running game has health in (0, 100] |
| `Adventure.Game.constructor` | projeto.py:72-117 | a new game holds the starting graph, the enemy catalog at full health, the new player and no game over |
| `Adventure.Game.Exchange` | projeto.py:164-202 | one pass of the combat loop changes player and enemy exactly as `RoundStep` says |
| `Adventure.Game.Combat` | projeto.py:152-204 | the combat loop changes the session exactly as `Encounter` says, including the catalog enemy's lowered health |
| `Adventure.Game.Victory` | projeto.py:254-268 | victory sets the game-over flag |
| `Adventure.Game.HandleLocation` | projeto.py:206-252 | the arrival event changes the session exactly as `VisitSpec` says, and the session invariant holds after it |
| `Adventure.Game.Turn` | projeto.py:289-309 | one command changes the session exactly as `TurnSpec` says, and the session invariant holds after it |
| `Adventure.Game.Play` | projeto.py:270-309 | the main loop changes the session exactly as `PlaySpec` says |

`Adventure.Game.Exchange` is the body of the combat `while` loop at
projeto.py:164-202, written as its own method. Its early `return`s become the
status it hands back to `Combat`, which then leaves the loop.

`Adventure.Game.Play` is stated for sessions that satisfy the session invariant
and carry only swords, potions and keys. `World.StartSound` shows that a new
game does, and `World.TurnKeepsSound` shows that every command keeps it so.

## Left out

- Presentation: `print`, `type_text` with its `time.sleep`, `clear_screen`, `show_title`, `show_inventory` and the victory banner. The "i" command is modelled as changing nothing.
- Player creation: the game constructor takes the player's name. The name prompt in `create_player`, its `strip()` and its "press Enter" pause are not modelled.
- End of input is modelled only at the combat action prompt. At the shop prompt (projeto.py:224), at the potion-number prompt (projeto.py:60) and at the "press Enter to continue" pauses after a move and after showing the inventory, `input()` also raises at end of input and the session ends; there the model always has an answer (`Visit.buy`, `Round.pick`) or skips the pause.
- Parsing of input: combat actions and main-loop commands arrive already classified. A potion choice is an integer, and non-numeric text counts as a number out of range. Digit characters that `str.isdigit` accepts but `int()` rejects are not modelled.
- Randomness: every `randint`, `random.random()` comparison and `random.choice` is a parameter. The probabilities 0.5 and 0.6 and the uniform draws are statistical claims and are not modelled.
- `main`'s `KeyboardInterrupt` and `Exception` handlers are process plumbing and are not modelled.
- Item descriptions and location descriptions are carried as data only; nothing depends on them.
