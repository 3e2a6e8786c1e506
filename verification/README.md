# The Ruins of Asgoth — a Dafny model of the game's rules

This project models the rules core of *The Ruins of Asgoth*, a turn-based,
text-mode dungeon crawler for a small party of heroes, and proves
properties of that model. The core covers:

- creatures, players, weapons and items, and their dict forms;
- experience and levelling, equipping, buying, selling and losing items;
- weapon drops and chests;
- initiative, player and enemy turns, and the combat loop;
- the rewards after a kill and the handling of fallen heroes (`main.py`);
- the dungeon grid: moving, entering rooms, merchants, the locked boss
  door, the dragon;
- saving and loading a game as nested dicts.

## How the model is built

- **Randomness and the keyboard.** Every operation that rolls dice or reads
  a reply takes a `Feed` and returns what is left of it. A `Feed` is a
  script of integer rolls plus a script of typed lines.
  - A roll stands for CPython's `randbelow(n)` and is read `% n`;
    `randint(lo, hi)` is `lo + randbelow(hi - lo + 1)`.
  - An exhausted script reads 0 or the empty line.
  - `random.shuffle` is CPython's Fisher-Yates pass. `random.sample` is
    CPython's pool method, which CPython uses for pools of at most 21
    entries (`Oracle.Sample` under "Left out").
  - `random.random()` is an integer `k` in `[0, 2^53)`. A flight succeeds
    exactly when `k < 5404319552844595`, which is `0.6` as a double times
    `2^53`.
  - The weighted `random.choices` in `generate_loot` is a plain index roll
    into the candidate list. Its float weights only shape the distribution,
    and that is out of scope.
- **Numbers.** Python integers are unbounded, like Dafny's `int`.
  - Attack and defense are floats in the source and exact `real`s here.
  - `int(x)` truncates toward zero (`TruncReal`, `TruncDiv`).
  - `//` on non-negative values is Dafny's `/`.
- **Combat.** `CombatManager.run` loops until one side is down or someone
  flees. The model bounds the rounds with a `fuel` argument; running out is
  a separate outcome (`OutOfFuel`, `Stuck`).
- **Enemy targeting.** The enemy's target choice is a parameter
  (`RandomTarget` or `WeakestTarget`). The source fixes it to `'random'`
  in `ENEMY_TARGET_MODE`.
- **Callbacks.** `combat(...)` takes its two callbacks as arguments. The
  model wires them as `main.py` does, to `distribute_xp_loot` and
  `handle_deaths` (`Rewards.Encounter`).
- **Persistence.** Dicts and lists are a `Value` datatype (None, bool, int,
  float, str, list, dict). Each decoder returns `Decoded<T>`:
  - `Null` where the source returns `None`;
  - `Ok` with the value;
  - `Fail` where the source raises, or builds something the typed model
    cannot hold.
- **Occupied rooms.** A room fights whenever its monster list is non-empty,
  even when every monster in it is dead (`game/dungeon.py:200`). Entering
  such a room again repeats the fight and its rewards (`Dungeons.BranchOf`).

Modules follow the source files:

| module | file | models |
|---|---|---|
| Base | base.dfy | Python's `min`, `max`, `int()`, indexing and `pop` |
| Oracle | oracle.dfy | the dice and the prompts |
| Text | text.dfy | `strip`, `lower`, `int()`, `str()`, `split` |
| Values | values.dfy | the dict and list values of a save |
| Utils | utils.dfy | `game/utils.py` |
| Creatures | creature.dfy | `game/creature.py` |
| Items | items.dfy | `game/items.py` |
| Loot | loot.dfy | `game/loot.py` |
| Players | player.dfy | `game/player.py`, except persistence |
| PlayerSave | player_save.dfy | `save_state` and `load_state` |
| Combat | combat.dfy | `game/combat.py` |
| Rewards | rewards.dfy | `distribute_xp_loot`, `handle_deaths`, `ensure_equipped_weapon` (`main.py`) |
| Dungeons | dungeon.dfy | `game/dungeon.py` |
| Saves | save.dfy | `game/save.py` |
| Findings | findings.dfy | the code as written where it departs from its evident intent |

## Model

| member | source | states |
|---|---|---|
| Base.TruncReal | game/combat.py:346 | `int(x)` truncates toward zero: it lies within one of `x`, on the side of zero. |
| Base.PyIndex | game/dungeon.py:334-335 | A Python index from `-n` to `n - 1` names the entry it counts to, from the front when non-negative and from the back when negative. |
| Base.RemoveAt | game/player.py:276 | `pop(i)` removes exactly entry `i` and keeps the others in order; what is left plus the popped entry is the old list, as a multiset. |
| Values.Get | game/save.py:88-91 | `d.get(k, default)` gives the stored value when the key is present and the default otherwise. |
| Oracle.Below | game/combat.py:343 | `random.choice` of `n` entries draws an index in `[0, n)` and consumes one roll. |
| Oracle.ReadLine | game/utils.py:77 | A prompt consumes exactly the next typed line and no roll; with no line left it reads the empty line. |
| Oracle.RandInt | game/utils.py:28-40 | A `randint(lo, hi)` draw lies in the inclusive range and consumes exactly one roll. |
| Oracle.RandIntReaches | game/utils.py:28-40 | Every value in the range is produced by some script, so no outcome of the source's dice is missing from the model. |
| Oracle.RandomFloat | game/combat.py:310-318 | `random()` is one of the `2^53` steps of `[0, 1)` and consumes one roll. |
| Oracle.Shuffle | game/combat.py:25-41 | Shuffling reorders and neither loses nor duplicates an element. |
| Oracle.ShuffleDownStill | game/combat.py:25-41 | Each step may leave its position in place: some script leaves the order unchanged. |
| Oracle.Sample | game/player.py:309-312 | `random.sample(pool, k)` draws `k` elements of the pool, each at most as often as it occurs there, and no repeats from a repeat-free pool. |
| Oracle.PopPicked | game/player.py:313-316 | Popping the picked positions from the highest down removes exactly the entries at the distinct picks in range and keeps every unpicked entry. |
| Oracle.PopPickedPermutes | game/player.py:313-316 | What is kept and what is removed together are the original entries, as a multiset. |
| Oracle.PopPickedKeepsOrder | game/player.py:313-316 | The entries left after the pops are exactly the unpicked ones, in their original order, as the independent filter `Unpicked` lists them. |
| Text.Strip | game/utils.py:76-83 | `strip()` gives a slice of the text with no whitespace at either end of it and nothing but whitespace before and after it. |
| Text.StripKeepsTrimmed | game/utils.py:76-83 | Text already free of whitespace at both ends is unchanged by `strip()`. |
| Text.Lower | game/utils.py:77 | `lower()` keeps the length and turns each ASCII capital `A`–`Z` into its small letter; every other character stays. |
| Text.SaysYes | game/utils.py:76-83 | A reply reads as yes only when something is left of it after stripping. |
| Text.IntToString | game/save.py:75 | `str(n)` is non-empty, starts with `-` exactly for a negative number, and is digits after its first character. |
| Text.ParseInt | game/dungeon.py:334 | `int(s)` reads a number only from text that is not blank. |
| Text.SplitOn | game/save.py:94 | `split(c)` gives at least one piece, and no piece holds the separator. |
| Text.SplitWs | game/dungeon.py:334 | `split()` gives non-empty pieces with no whitespace in them. |
| Text.SaysYesFirstChar | game/dungeon.py:192-193 | A reply reads as yes exactly when its first non-blank character is `y` or `Y`. |
| Text.ParseIntOfIntToString | game/combat.py:129-131 | `int(str(n)) == n` for every integer, so a typed menu number is read back as that number. |
| Text.SplitOnJoin | game/save.py:94 | Two separator-free parts joined by the separator split back into the two parts. |
| Utils.SquareIs | game/utils.py:43-50 | The `level ** 2` of the experience curve is the square of the level. |
| Utils.XpForLevel | game/utils.py:43-50 | The experience threshold is never negative and is 0 exactly at level 0. |
| Utils.XpForLevelIncreasing | game/utils.py:43-50 | Every next level needs strictly more experience. |
| Utils.PromptConfirm | game/utils.py:62-83 | An empty or failed reply gives the default; any other reply is yes exactly when it starts with `y` or `Y`. |
| Utils.InventoryLines | game/utils.py:86-106 | One line per entry. |
| Utils.InventoryLineNumbers | game/utils.py:86-106 | Line `i` of a numbered listing starts with `i + 1` and the entry, and that number reads back as `i + 1`; an unnumbered line is the entry itself. |
| Creatures.New | game/creature.py:14-45 | A new creature starts at full hit points and mana, with the stats it was given. |
| Creatures.TakeDamage | game/creature.py:54-68 | Damage never drives hit points below 0; the reported loss is what was actually removed, `min(d, hp)`; damage of at least the hit points kills; nothing else changes. |
| Creatures.Heal | game/creature.py:70-77 | Healing never exceeds the maximum, adds the amount unless capped, and never lowers hit points; nothing else changes. |
| Creatures.HealRevivesDead | game/creature.py:70-77 | Healing has no revive gate: a dead creature healed by a positive amount is alive again. |
| Creatures.AliveIndices | game/utils.py:53-59 | Exactly the living creatures' positions, in ascending order. |
| Creatures.AliveEntities | game/utils.py:53-59 | The living creatures, in their original order and no others. |
| Creatures.RoundTrip | game/creature.py:79-111 | `from_dict(to_dict(c))` gives back every field of `c`. |
| Creatures.FromDict | game/creature.py:94-111 | Reading a creature dict never yields nothing. |
| Creatures.SavedStats | game/creature.py:79-92 | The saved dict holds the name, level, hit points and mana under their keys. |
| Creatures.SavedRest | game/creature.py:79-92 | The saved dict holds the mana cap, attack, defense, special and experience value under their keys. |
| Creatures.FromDictDefaults | game/creature.py:102-110 | A missing `max_hp` falls back to `hp` and a missing `hp` to the maximum (1 when both are missing), likewise for mana; a missing experience value is 0 and a missing special is none. |
| Items.Starter | game/items.py:127-131 | Each of the three classes, and only those, has a starter weapon. |
| Items.GetWeaponByName | game/items.py:154-162 | A found template has exactly that name; a non-empty name that is not found belongs to no template. |
| Items.FindByName | game/items.py:158-161 | A found weapon is in the list and has the name; when none is found, no weapon in the list has it. |
| Items.ResolveWeapon | game/items.py:186-191 | An item stands for its embedded weapon, or when it has none, for the template of the same name. |
| Items.WrapWeapon | game/dungeon.py:290-293 | A weapon wrapped as an item keeps its name, has kind `weapon`, and stands for exactly that weapon. |
| Items.EstimateSellPrice | game/items.py:175-197 | Junk sells for its `sell` entry; an unprotected known weapon for 10 per required level; protected weapons, unknown weapons and other kinds have no price. |
| Items.EstimateResellPrice | game/items.py:200-217 | Junk resells for its `sell` entry and any known weapon, protected or not, for 12 per required level; anything else has no price. |
| Items.SellableIsUnprotected | game/items.py:186-196 | Nothing protected ever gets a sell price. |
| Items.ResellCoversSell | game/items.py:200-217 | A merchant resells a weapon for at least what it paid and junk for exactly what it paid. |
| Items.StartersAreProtected | game/items.py:127-131 | Starters are bound, cannot be sold, are never lost, and are not found by name lookup. |
| Items.SuperRareTemplates | game/items.py:102-124 | Exactly the last template of each class is super-rare. |
| Items.WeaponFromDict | game/items.py:51-55 | A falsy value reads as no weapon, and only a falsy value does. |
| Items.WeaponRoundTrip | game/items.py:40-55 | `Weapon.from_dict(w.to_dict()) == w`. |
| Items.WeaponToDict | game/items.py:39-48 | A saved weapon is a dict holding its name under `name`. |
| Items.WeaponFields | game/items.py:40-49 | The saved weapon dict holds every field under its key. |
| Items.ItemFromDict | game/items.py:84-99 | A falsy value reads as no item, and only a falsy value does. |
| Items.ItemToDict | game/items.py:66-80 | A saved item is a dict of exactly `name`, `kind` and `effect`, with the name and kind as given and a `None` effect exactly when the item has none. |
| Items.ItemRoundTrip | game/items.py:66-99 | `Item.from_dict(i.to_dict()) == i`, embedded weapons included. |
| Items.EffectRoundTrip | game/items.py:75-98 | One effect entry, an int or a wrapped weapon, reads back as itself. |
| Items.EffectsRoundTrip | game/items.py:75-98 | A whole effect map reads back as itself. |
| Items.EffectsReadBack | game/items.py:75-98 | A saved effect map keeps its keys, and each entry reads back as the effect it came from. |
| Loot.PoolTemplates | game/loot.py:57-58 | Every weapon in a class pool is a listed template of that class, neither starter nor bound. |
| Loot.Near | game/loot.py:62 | Exactly the pool's templates within six levels of the given level. |
| Loot.Candidates | game/loot.py:62-66 | The nearby templates when there are any, else the whole pool; never empty for a non-empty pool. |
| Loot.GenerateLoot | game/loot.py:34-77 | A drop happens exactly when the attempt roll is at most 30; a dropped weapon is a listed, non-starter, unbound template among the candidates of its class. |
| Loot.GenerateLootDraws | game/loot.py:53-77 | After a successful attempt the class and then the candidate are drawn, in that order. |
| Loot.LootReaches | game/loot.py:53-77 | Every candidate of every class can drop. |
| Loot.PartyLevel | game/loot.py:100 | When the levels sum to at least their count the party level is exactly their floored mean; otherwise it is exactly 1. |
| Loot.GenerateChest | game/loot.py:80-116 | A chest weapon needs an attempt roll below 40 and is a droppable template; otherwise the chest holds the greater potion or a pouch of 30 to 120 gold. |
| Loot.ChestWeapon | game/loot.py:104-107 | Every droppable weapon at the party level can be found in a chest. |
| Loot.ChestAfterDrop | game/loot.py:104-107 | When the weapon attempt drops something, the chest holds exactly that weapon. |
| Loot.ChestPotion | game/loot.py:110-113 | After a failed weapon attempt, a roll below 50 gives the greater health potion. |
| Loot.ChestGold | game/loot.py:110-116 | After a failed weapon attempt, a roll of 50 or more gives a pouch, and every amount from 30 to 120 is possible. |
| Players.ClassLevelGains | game/player.py:35-48 | Every level up raises hit points, mana and attack, and never lowers defense. |
| Players.NewPlayer | game/player.py:64-88 | A new hero has the class base line at full hit points and mana, no experience, items or gold, and the class starter in hand at the entrance. |
| Players.ApplyLevelUp | game/player.py:106-119 | One level up adds one round of the class gains, refills hit points and mana, and changes nothing else. |
| Players.LevelUpCheck | game/player.py:90-119 | Levels never drop or pass the cap, no further level up is pending afterwards, a hero who gained levels is fully healed, only the body's stats change, and `n` levels gained add `n` rounds of the class gains. |
| Players.LevelUpCheckIsHighest | game/player.py:99-102 | The level reached is the highest the experience pays for, up to the cap. |
| Players.GrowthMatchesBaseLine | game/player.py:18-48 | A Warrior levelled once has the base stats of the next level; a Mage's defense and a Ranger's attack do not follow their base lines. |
| Players.Equip | game/player.py:120-136 | Equipping succeeds exactly when the class fits and the level is reached, and then only the weapon slot changes; a refusal changes nothing. |
| Players.EquipTemplates | game/player.py:127-133 | A hero can wield a template of their own class once its level is reached, and never one of another class. |
| Players.AddItem | game/player.py:231-242 | An item is appended exactly when the bag is below its limit; otherwise nothing changes. |
| Players.SellItem | game/player.py:244-279 | A sale happens exactly when the Python index is valid and the item has a price; the item leaves the bag, the price is added to the gold, and the item was not protected. |
| Players.AddThenSellLast | game/player.py:231-279 | Adding a sellable item and then selling the last entry restores the hero, richer by the price. |
| Players.LossCandidates | game/player.py:294-308 | Exactly the positions of the unprotected items, ascending. |
| Players.LoseRandomItems | game/player.py:281-317 | Up to `count` unprotected items leave the bag, as many as there are candidates when fewer; kept and lost together are the old bag; every protected item stays; the kept items are exactly the unpicked ones in their original order. |
| Players.LossFacts | game/player.py:309-317 | Popping a sample of candidates loses only unprotected items, as many as were sampled, and keeps every protected one. |
| Players.AttackDamage | game/player.py:138-149 | The damage is at least 1 and lies between attack plus the weapon's low end minus 2 and attack plus the high end plus 2. |
| Players.AttackDamageReaches | game/player.py:138-149 | Every weapon roll and every variance from -2 to 2 can occur. |
| PlayerSave.EntryRoundTrip | game/player.py:196-207 | A saved item with a name loads back as itself. |
| PlayerSave.EntryOf | game/player.py:198-206 | A dict entry with a truthy name loads exactly when `Item.from_dict` accepts it, as that item; any other loaded entry is a three-part list whose first two parts are the name and kind; an entry that is neither dict nor list is skipped. |
| PlayerSave.InventoryOf | game/player.py:196-208 | Every loaded item comes from a saved entry, there are never more items than entries, and when every entry loads the bag is those items in order. |
| PlayerSave.InventoryRoundTrip | game/player.py:196-208 | A saved inventory of named items loads back unchanged. |
| PlayerSave.InventoryOfLast | game/player.py:196-208 | A readable last entry is loaded after the others, keeping the order. |
| PlayerSave.EquipmentOf | game/player.py:213-228 | A falsy slot keeps the starter; a name loads its template when one exists and otherwise keeps the starter. |
| PlayerSave.EquipmentRoundTrip | game/player.py:151-229 | A saved weapon loads back as itself, and an empty slot as the starter. |
| PlayerSave.LoadState | game/player.py:178-229 | Loading never yields nothing; a missing required key fails; gold, position, death count and bag limit have defaults; the last-hit flag starts cleared; without equipment the starter is in hand. |
| PlayerSave.SaveState | game/player.py:151-176 | `save_state` gives a dict. |
| PlayerSave.SavedKeys | game/player.py:159-176 | The saved dict has exactly the sixteen keys of `save_state`, and one saved entry per item in the bag. |
| PlayerSave.ItemValues | game/player.py:170 | The saved inventory holds each item's `to_dict()`, in bag order. |
| PlayerSave.SavedIdentity | game/player.py:159-176 | The saved dict holds the name, class, level and experience. |
| PlayerSave.SavedPoints | game/player.py:159-176 | The saved dict holds hit points, mana and their caps. |
| PlayerSave.SavedCombat | game/player.py:159-176 | The saved dict holds attack, defense, the items and the weapon. |
| PlayerSave.SavedProgress | game/player.py:159-176 | The saved dict holds gold, death count, bag limit and position. |
| PlayerSave.SaveLoadRoundTrip | game/player.py:151-229 | `load_state(save_state(p))` is `p`, with the last-hit flag cleared and an empty weapon slot refilled with the starter. |
| PlayerSave.LoadsBack | game/player.py:186-229 | Any dict holding a hero's fields loads back as that hero, up to the same two changes. |
| PlayerSave.LoadedOk | game/player.py:186-194 | A dict holding every saved field loads without failing. |
| PlayerSave.LoadedBody | game/player.py:186-194 | Such a dict restores the hero's level, points and stats exactly. |
| PlayerSave.LoadedRest | game/player.py:186-229 | Such a dict restores class, experience, items, gold, position, limits and death count; the weapon comes back, or the starter when there was none. |
| Combat.InitiativeOrder | game/combat.py:25-41 | The turn order is a permutation of the living heroes and living enemies. |
| Combat.InitiativeCoversTheLiving | game/combat.py:33-41 | A combatant has a slot in the order exactly when they are alive. |
| Combat.PlayerSlotIff | game/combat.py:33-36 | A hero has a slot exactly when they are alive. |
| Combat.EnemySlotIff | game/combat.py:37-39 | An enemy has a slot exactly when it is alive. |
| Combat.ApplyItem | game/combat.py:44-60 | A potion heals by its `hp`, a mana potion restores its `mp` up to the cap, and anything else does nothing. |
| Combat.PotionBounds | game/combat.py:53-56 | A healing potion never lowers hit points nor lifts them past the maximum, and a living hero stays alive. |
| Combat.Burst | game/combat.py:90-92 | Only targeted enemies are hit, only their hit points change, and each targeted living enemy loses some. |
| Combat.UseSpecial | game/combat.py:63-111 | The Mage pays 8 mana and the Ranger 5, only when they can; short of mana nothing at all happens and no die is rolled; the Mage's burst wounds every living enemy at a non-negative attack; only enemies' hit points change, downward; the last-hit flag is set only by a kill and never by the Mage. |
| Combat.Single | game/combat.py:74-80 | A single-target special strikes the living enemy picked by `random.choice` and no other; it changes only hit points, downward, and sets the last-hit flag only when it kills. |
| Combat.SelectTarget | game/combat.py:114-133 | A chosen target is a living enemy; with nobody alive nothing is read; otherwise exactly one reply is read. |
| Combat.SelectTargetByNumber | game/combat.py:126-131 | Typing `k` picks the `k`-th living enemy, and typing `0` picks the last one. |
| Combat.SelectTargetByText | game/combat.py:126-131 | Any reply that reads as `k` picks as typing `k` does. |
| Combat.SelectTargetReads | game/combat.py:126-131 | A reply reading as `n` with `n - 1` a valid Python index picks that living enemy. |
| Combat.Attack | game/combat.py:266-281 | A landed attack deals the chosen enemy exactly `max(1, int(attack_damage() - defense))`, at least 1 hit point, and touches no other enemy; the attacker's last-hit flag says whether it killed; a wasted turn changes nothing. |
| Combat.Blow | game/combat.py:270-281 | The chosen enemy takes exactly the given damage through `take_damage` and loses hit points; nobody else changes but the attacker's last-hit flag, which records the kill. |
| Combat.DefendTurn | game/combat.py:283-287 | Defending raises defense by exactly 3, rolls nothing, and changes nothing else. |
| Combat.UseItem | game/combat.py:289-304 | Using an item touches only the user; with an empty bag nothing is read or changed. |
| Combat.UseItemTakes | game/combat.py:289-304 | The chosen entry leaves the bag whatever its kind, even when it has no effect, and is then applied. |
| Combat.ItemUsed | game/combat.py:300-302 | Using an item changes only hit points, mana and the bag, which only shrinks. |
| Combat.PlayerTurn | game/combat.py:243-322 | A turn changes only the acting hero and the enemies' hit points; a dead hero reads nothing and does nothing; only a living hero choosing 5 can flee. The five replies are routed by `AttackTurn`, `DefendTurn`, `ItemTurn`, `SpecialTurn`, `FleeTurn` and `IdleTurn`. |
| Combat.AttackTurn | game/combat.py:264-281 | Reply 1 of a living hero is the attack, reading the target from the next reply. |
| Combat.ItemTurn | game/combat.py:289-305 | Reply 3 of a living hero is the use of an item, whose number is the next reply. |
| Combat.SpecialTurn | game/combat.py:307-309 | Reply 4 of a living hero is the class special, whose outcome replaces the hero and the enemies. |
| Combat.IdleTurn | game/combat.py:264-322 | Any reply other than 1 to 5 takes no action: nothing changes, no one flees and nothing more is read. |
| Combat.FleeTurn | game/combat.py:310-318 | Choosing 5 draws one `random()` and flees exactly when it is below 0.6. |
| Combat.FleeChance | game/combat.py:310-318 | Fleeing succeeds for exactly the draws below 0.6. |
| Combat.Weakest | game/combat.py:340-341 | The first of the living heroes with the fewest hit points. |
| Combat.WeakestAmongLiving | game/combat.py:340-341 | Taken over the living, `Weakest` finds the first living hero with the fewest hit points in the whole party, as `min(live, key=hp)` does. |
| Combat.EnemyTarget | game/combat.py:333-343 | There is no target exactly when the enemy is dead or no hero stands. Otherwise the target is a living hero: with `'weakest'` the first with the fewest hit points, with no roll, and with `'random'` the `random.choice` of the living in list order. |
| Combat.EnemyTargetReaches | game/combat.py:340-343 | Under `'random'` targeting every living hero can be the target. |
| Combat.EnemyBlow | game/combat.py:344-347 | A blow costs the hero `min(hp, max(1, int(atk - defense * 0.5 + v)))` hit points, at least 1, and changes nothing else about them or anyone else. |
| Combat.EnemyAction | game/combat.py:324-348 | An enemy's turn leaves the enemies alone and does nothing when the enemy is dead or no hero stands. Otherwise exactly one living hero is wounded: the target `EnemyTarget` names loses `min(hp, max(1, int(atk - defense * 0.5 + v)))` hit points for a variance `v` drawn from -1 to 2, and every other hero is unchanged. |
| Combat.WoundedOne | game/combat.py:346-347 | Wounding one living hero leaves every other hero as they were, so exactly one living hero is wounded. |
| Combat.PlayRound | game/combat.py:211-226 | A round only fights, and once a side is down it does nothing. |
| Combat.Rounds | game/combat.py:208-228 | The loop ends only after a flight or with one side down, and a finished fight or a lost side stops it at once. |
| Combat.Run | game/combat.py:198-228 | A finished fight ends in a flight or with one side down; a fight with a side already down ends at once, unchanged. |
| Combat.RoundsAfterFlight | game/combat.py:217-228 | A flight ends the loop with the battle as it stood, after one more order is drawn. |
| Combat.Payouts | game/combat.py:233-236 | After a flight nobody is paid; otherwise exactly the dead enemies are paid out, in list order. |
| Combat.DeadIndices | game/combat.py:233-236 | Exactly the dead enemies' positions, ascending. |
| Combat.FinishedFightIsDecided | game/combat.py:210-228 | A fight that finishes without a flight leaves one side wholly down. |
| Rewards.LastHitter | main.py:395-396 | The last hero holding the last-hit flag, or none when nobody holds it. |
| Rewards.BaseXp | main.py:391 | A non-zero experience value is used as it is; a zero one falls back to exactly `10 + 5 * level`, at least 10 at a non-negative level; the reward is positive whenever the value or the level allows. |
| Rewards.PickWinner | main.py:395-396 | The last flag holder wins without a roll; otherwise a living hero is drawn. |
| Rewards.ShareXp | main.py:398-429 | Each hero's experience grows by their intended share and nothing else changes. |
| Rewards.SplitGains | main.py:415-425 | With several survivors, each gets the floored share and the winner also the remainder. |
| Rewards.SoleGains | main.py:426-429 | A lone survivor takes all the experience. |
| Rewards.GainsTotal | main.py:398-429 | The shares add up to exactly the enemy's experience: nothing is lost to rounding. |
| Rewards.DistributeXpLoot | main.py:376-450 | With nobody alive nothing happens and nothing is drawn; otherwise there is a winner, the last flag holder when there is one, else a living hero. (corrected, see Findings) |
| Rewards.Spoils | main.py:435-446 | Only the winner's bag and purse change; the elite gives the key, any other enemy at most one wrapped template; the gold is between 5 and 15 per enemy level. (corrected, see Findings) |
| Rewards.DistributedXp | main.py:398-429 | After the whole reward step each hero's experience has grown by their share. |
| Rewards.DistributedSpoils | main.py:435-446 | After the whole reward step only the winner's bag and purse have changed, by the key or at most one weapon and by 5 to 15 gold per level. (corrected, see Findings) |
| Rewards.Paid | main.py:437-446 | The winner gains 5 to 15 gold per enemy level and the key, the wrapped drop, or nothing. (corrected, see Findings) |
| Rewards.Tidy | main.py:447-450 | Afterwards nobody holds the last-hit flag and nobody has a level up pending. |
| Rewards.DistributedXpTotal | main.py:376-450 | The party's total experience grows by exactly the enemy's experience value. |
| Rewards.FirstSuperRare | main.py:166-175 | The first super-rare weapon carried, or none when none is carried. |
| Rewards.EnsureEquippedWeapon | main.py:158-191 | The first super-rare weapon carried is taken up; otherwise an equipped weapon stays; otherwise the starter is equipped and carried; only the slot and possibly one appended starter change. |
| Rewards.EnsureEquippedIdempotent | main.py:158-191 | Doing it twice is the same as doing it once. |
| Rewards.FirstRevive | main.py:47-53 | The first revive token in the bag, or none. |
| Rewards.Respawn | main.py:84-93 | The hero is back at the entrance, alive with half hit points (at least 1) and half mana; nothing else changes but the weapon slot and possibly one starter added to the bag. |
| Rewards.Docked | main.py:68-72 | The death is counted, and `min(deaths, 30)` gold is taken, never more than is carried. |
| Rewards.Fall | main.py:44-93 | A fallen hero is respawned. A revive token is spent instead of any penalty. Without one the death is counted, gold is docked, at most 3 unprotected items are lost (at least 1 when any can go), and every protected item is kept. |
| Rewards.RevivedFall | main.py:54-67 | Spending the first revive token and respawning meets that guarantee. |
| Rewards.PenaltyFall | main.py:68-93 | The gold penalty, an item loss of 1 to 3 and a respawn meet that guarantee. |
| Rewards.RespawnAfterLoss | main.py:74-93 | Any loss that keeps what `lose_random_items` promises, followed by a respawn, meets that guarantee. |
| Rewards.Attend | main.py:43-93 | Every hero comes out alive, and a living one untouched. |
| Rewards.AttendHandled | main.py:43-93 | A living hero is left alone and a fallen one respawned as guaranteed. |
| Rewards.HandleDeaths | main.py:30-93 | Every hero comes out alive, and when nobody had fallen nothing changes. |
| Rewards.HandleDeathsEach | main.py:30-93 | Each hero in the party gets exactly that guarantee. |
| Rewards.Settle | game/combat.py:233-236 | Paying out keeps the party's size, and paying nobody changes nothing. |
| Rewards.Encounter | game/combat.py:198-241 | After a fight every hero is alive; nobody is paid after a flight and otherwise exactly the dead enemies; enemies only lose hit points. |
| Rewards.EncounterOfRun | game/combat.py:198-241 | A finished fight becomes an aftermath with its flight flag and enemies. |
| Dungeons.Grid | game/dungeon.py:61-79 | One fresh room for every cell of the grid, and no others. |
| Dungeons.NewDungeon | game/dungeon.py:61-79 | A new dungeon covers the grid, has the boss door locked, and starts at (0, 0) with the merchant at (1, 0). |
| Dungeons.NewDungeonLayout | game/dungeon.py:61-79 | The boss is in the far corner and the key-carrying elite next to it; the merchant is at (1, 0); every room is unvisited and has no chest. |
| Dungeons.Move | game/dungeon.py:121-137 | A move stays on the grid and goes at most one step; an unknown word goes nowhere. |
| Dungeons.MoveUndo | game/dungeon.py:128-136 | Away from a wall the opposite step undoes a move; against a wall the outward step goes nowhere. |
| Dungeons.Here | game/dungeon.py:156 | Exactly the living heroes in the room, in party order. |
| Dungeons.Adjacent | game/dungeon.py:159-177 | Exactly the living heroes other than the initiator within one step, in party order. |
| Dungeons.Accepted | game/dungeon.py:187-193 | Those who said yes are candidates, without repeats, and answering rolls no dice. |
| Dungeons.Newcomers | game/dungeon.py:194-197 | Exactly the joiners not already in the room, without repeats. |
| Dungeons.MoveInto | game/dungeon.py:194-195 | Exactly the joiners move into the room, and nobody else changes. |
| Dungeons.Join | game/dungeon.py:180-197 | Those already in the room stay first; newcomers are candidates who moved into the room; nobody else changes. |
| Dungeons.Gather | game/dungeon.py:180-197 | The participants are those in the room followed by the joiners, all alive and without repeats; nobody's body changes. |
| Dungeons.JoinedAlive | game/dungeon.py:180-197 | Joining by moving cannot bring a fallen hero into the fight. |
| Dungeons.Fight | game/dungeon.py:200-204 | After a fight every participant is alive and nobody outside it has changed. |
| Dungeons.BranchOf | game/dungeon.py:199-213 | A room with any monsters, living or dead, fights; an empty visited room is a revisit; an empty unvisited room is a first entry. |
| Dungeons.GenerateEnemy | game/dungeon.py:408-426 | A monster is within two levels of the party level (never below 1), has a listed name and the stats of its level. |
| Dungeons.GenerateGroup | game/dungeon.py:250-251 | One to three living, listed monsters. |
| Dungeons.HandleChest | game/dungeon.py:273-309 | Gold is split evenly among the living participants; anything else goes to one living participant, a weapon wrapped as an item. |
| Dungeons.PickLiving | game/dungeon.py:290-306 | `random.choice(alive_entities(...))` picks a living participant. |
| Dungeons.ChestGoldSplit | game/dungeon.py:296-303 | A gold split hands out at most the pouch and loses less than one coin per living participant. |
| Dungeons.Buy | game/dungeon.py:332-351 | A purchase happens exactly when the slot is valid, the reply confirms, the gold covers the price and the bag has room; then the buyer pays the price and gets the item. The stock stays, and a reply is read only for a valid slot. |
| Dungeons.CommandIndex | game/dungeon.py:334 | `int(cmd.split()[1]) - 1` succeeds exactly when a second word reads as a number, and is that number less one. |
| Dungeons.SlotFor | game/dungeon.py:334-335 | A slot exists exactly when the command's index is a valid Python index into the list, and it lies in range. |
| Dungeons.SellTo | game/dungeon.py:352-391 | A sale happens exactly when the slot is valid, the item has a sell price and the reply confirms; it goes as `sell_item` does, and only a sale changes the stock. |
| Dungeons.ResellPrice | game/dungeon.py:380 | `estimate_resell_price(it) or price`: a non-zero estimate wins, otherwise the sale price; it is 0 only when the sale price is. |
| Dungeons.SellSlot | game/dungeon.py:356-389 | Once a slot is named, an item without a sell price is refused without a question; a priced item is sold exactly when the reply confirms, changing the hero and the stock as a sale does; anything else changes neither. |
| Dungeons.Trade | game/dungeon.py:326-391 | The stripped reply is a purchase when it starts with `buy`, otherwise a sale when it starts with `sell`, otherwise a skip that changes nothing; trading never touches the body, position or weapon. |
| Dungeons.SoldKeepsSelf | game/dungeon.py:372-386 | A sale changes only the seller's bag and purse. |
| Dungeons.BuyKeepsBounds | game/dungeon.py:341-347 | A purchase never leaves the buyer in debt or over the bag limit. |
| Dungeons.SellKeepsProtected | game/dungeon.py:352-391 | No copy of a protected item is ever sold. |
| Dungeons.HandleMerchant | game/dungeon.py:311-391 | Only the participants trade, and nobody's body or position changes. |
| Dungeons.KeyHolder | game/dungeon.py:221-228 | A participant holding a key and where it is, or none when no participant holds one. |
| Dungeons.FirstKey | game/dungeon.py:223-226 | The first key in a bag, or none when it holds no key. |
| Dungeons.OpenDoor | game/dungeon.py:218-236 | An open door stays open. A locked door opens exactly when a participant has a key, and the first key found is used up. Nobody's body changes. |
| Dungeons.DistributeBossLoot | game/dungeon.py:429-444 | The winner gets the loot wrapped as an item (the string `None` item when there is none) and 500 gold; nobody else changes. (corrected, see Findings) |
| Dungeons.BossWinner | game/dungeon.py:436-440 | The winner is a participant: the last flag holder, else a living one. |
| Dungeons.BossLoot | game/dungeon.py:246 | Boss loot is a listed, non-starter, unbound template when there is any. |
| Dungeons.Cache | game/dungeon.py:266-271 | Each participant gains 2 to 7 gold and nothing else changes. |
| Dungeons.GoldDraws | game/dungeon.py:268-270 | One draw per participant, each from 2 to 7. |
| Dungeons.Claim | game/dungeon.py:242-247 | While the dragon lives nobody is paid; once it is dead one participant gains 500 gold and one item, and nobody else changes. (corrected, see Findings) |
| Dungeons.Battle | game/dungeon.py:200-204 | A room fight keeps the grid and the door, leaves the room as it was except for its monsters' state, and touches no other room. |
| Dungeons.Revisit | game/dungeon.py:205-213 | A roll of 50 or more changes nothing; a lower one brings one to three monsters into the room, changes nothing else in it, and touches no other room. |
| Dungeons.Explore | game/dungeon.py:249-271 | A first entry leaves the room visited, chest-free and still an ordinary room, the door as it was, and every other room untouched; a roll below 45 that the party survives leaves one to three monsters behind. |
| Dungeons.ExploreChest | game/dungeon.py:255-260 | A roll from 45 to 74 finds a chest that is handed out to those present, and the room is left visited without it. |
| Dungeons.ExploreMerchant | game/dungeon.py:261-265 | A roll from 75 to 89 finds nothing without a merchant; with one, the party and the merchant's stock are what the trades leave them. |
| Dungeons.ExploreCache | game/dungeon.py:266-271 | A roll of 90 or more gives each hero present 2 to 7 gold and changes nothing else. |
| Dungeons.Ambush | game/dungeon.py:249-254 | An ambush leaves one to three monsters in the visited room. |
| Dungeons.ChestRoom | game/dungeon.py:255-260 | A chest room is always resolved and left visited without its chest; the chest rolled for the levels of those present is handed out: gold split evenly among the living ones present, an item to one living hero present. |
| Dungeons.MerchantRoom | game/dungeon.py:261-265 | Without a merchant only the visit is recorded; with one, the party and the merchant's stock are what the trades leave them, those elsewhere are untouched, and no one's body or position changes. |
| Dungeons.CacheRoom | game/dungeon.py:266-271 | A cache room is always resolved and left visited; each hero present gains 2 to 7 gold and nothing else about anyone changes. |
| Dungeons.BossRoom | game/dungeon.py:217-248 | Without an open door or a key nothing changes, not even the visit. Otherwise the door ends open and the room is visited with the dragon in it. (corrected, see Findings) |
| Dungeons.BossFight | game/dungeon.py:237-248 | Behind the door the fight leaves the door open and the room visited with the dragon in it. |
| Dungeons.EnterRoom | game/dungeon.py:143-271 | Entering keeps the party's size, the grid and an open door open; only a first entry into the boss room can open the door; no other room changes, and the room entered stays the boss room or not and never forgets it was visited. (corrected, see Findings) |
| Saves.NewGameState | game/save.py:40-43 | The players are always a list: empty, one, or the party given. |
| Saves.CoordOf | game/save.py:94 | A key reads as a room only when splitting it at commas gives exactly two parts. |
| Saves.StockValue | game/save.py:64-74 | The saved stock is a list with one entry per offer. |
| Saves.KeyRoundTrip | game/save.py:75-94 | Every room key reads back as its room. |
| Saves.KeyInjective | game/save.py:75 | Different rooms have different keys. |
| Saves.MerchantInventories | game/save.py:61-75 | Exactly the merchant rooms are saved, each under its key with its stock. |
| Saves.ToDict | game/save.py:45-76 | A save holds the players, the position and the dungeon part with the boss lock (locked when there is no dungeon) and the stocks. |
| Saves.SavedAll | game/save.py:53 | The saved players are each player's `save_state()`, in party order. |
| Saves.PlayersOf | game/save.py:87 | Every saved player loads through `load_state`, one per entry. |
| Saves.LoadAll | game/save.py:87 | The list loads exactly when every entry is a dict that `load_state` accepts. |
| Saves.StockItemOf | game/save.py:98-106 | A readable item dict gives that item; a falsy value fails. |
| Saves.OffersOf | game/save.py:98-106 | Each saved pair gives one offer, with its price and its item. |
| Saves.StockOf | game/save.py:97-106 | Reading a stock never gives nothing, and a stock that reads comes from a list with one entry per offer. |
| Saves.RestoredStock | game/save.py:93-106 | Without a key for the room the stock is kept; with one, the saved list replaces it. |
| Saves.DefaultDungeon | game/save.py:88 | Loading starts from a blank 5 by 5 dungeon with the merchant at (1, 0). |
| Saves.Restored | game/save.py:88-106 | A blank dungeon except for the boss lock and the merchant's stock. |
| Saves.RestoredBlank | game/save.py:88-106 | Restoring the default lock and stock gives the blank dungeon. |
| Saves.DungeonOf | game/save.py:90-106 | The boss lock reads as its truthiness (locked by default); every merchant key must read as `x,y`, and a key naming no merchant room is skipped; the stock is restored from its key. |
| Saves.NoDungeonSaved | game/save.py:90-91 | Without a saved dungeon part the lock stays and the stock is the default. |
| Saves.FromDict | game/save.py:78-108 | A loaded game always has a blank dungeon (apart from the lock and the stock) and a position; both default when missing. |
| Saves.SavedStockKey | game/save.py:61-75 | A default-shaped dungeon saves exactly one key for the merchant room, holding its stock. |
| Saves.OnlyMerchantKey | game/save.py:61-75 | A default-shaped dungeon saves no key but that of the merchant at (1, 0). |
| Saves.SavedKeysRead | game/save.py:61-94 | Every key such a dungeon saves reads back as a room. |
| Saves.StockRoundTrip | game/save.py:64-106 | A saved stock reads back unchanged. |
| Saves.PlayersRoundTrip | game/save.py:53-87 | Saved players load back as `load_state` rebuilds each. |
| Saves.SavedStockLoads | game/save.py:61-106 | The saved merchant map restores the merchant's stock. |
| Saves.StockUnderKey | game/save.py:95-106 | A merchant map whose one key for the merchant room holds a saved stock restores that stock. |
| Saves.DungeonRoundTrip | game/save.py:55-106 | The saved dungeon part reads back as the boss lock and the stock. |
| Saves.SavedDungeonReads | game/save.py:90-106 | A dungeon part whose merchant map reads back reads back whole. |
| Saves.SaveLoadGame | game/save.py:45-108 | Saving and loading a game gives back the reloaded players, the position, the boss lock and the merchant's stock. |
| Saves.ReadsAsGame | game/save.py:78-108 | A dict whose three parts read back reads back as that game. |
| Findings.AppendLootAsWritten | main.py:441-443 | As written, a drop enters the bag as a bare weapon after the old entries. |
| Findings.CandidatesAsWritten | game/player.py:294-308 | As written, the loss scan fails exactly when the bag holds a bare weapon, and otherwise finds the usual candidates. |
| Findings.BareLootBreaksLoss | main.py:441-443 | After a bare drop the owner's next item loss fails. |
| Findings.WrappedLootResolves | game/player.py:294-308 | A wrapped drop stands for its weapon, is protected exactly when the weapon is, and can be lost exactly when it is unprotected. |
| Findings.ClaimAsWritten | game/dungeon.py:241-247 | As written, the boss loot is skipped only when every participant is down, whether the dragon died or not. |
| Findings.FleeingPartyIsPaid | game/dungeon.py:241-247 | As written, a hero who fled the living dragon collects 500 gold; corrected, nobody is paid. |
| Findings.LoneSurvivorPaid | game/dungeon.py:242-247 | As written, any lone participant left standing collects the boss gold. |
| Findings.DragonFlight | game/dungeon.py:237-241 | A lone hero can flee the dragon on the first turn and come out alive, with the dragon unharmed. |
| Findings.FleeFromDragon | game/combat.py:310-318 | The fight of that flight ends in flight with the battle unchanged. |
| Findings.EncounterFlight | game/combat.py:198-241 | The encounter after that flight ends in flight with the dragon unharmed. |
| Findings.BlockedEntryAsWritten | game/dungeon.py:214-236 | As written, a shut boss door leaves the room marked visited, with the door locked. |
| Findings.ShutDoorStaysShut | game/dungeon.py:205-236 | After that, the next entry into the boss room leaves the door locked, with or without a key. |
| Findings.StepKeepsShut | game/dungeon.py:199-236 | Once the door is locked and every boss room has been entered, one more entry into any room, by any party, keeps it so. |
| Findings.ReplayKeepsShut | game/dungeon.py:199-236 | The same holds over any run of entries, by any parties. |
| Findings.BlockedEntryShuts | game/dungeon.py:214-236 | As written, the turned-away entry leaves the only boss room visited behind the locked door. |
| Findings.ShutDoorNeverOpens | game/dungeon.py:205-236 | After that entry, no run of later entries opens the door until the game is saved and reloaded, key or no key. |
| Findings.ShutDoorOpensLater | game/dungeon.py:214-236 | Corrected, a shut door changes nothing but the roll, and a later party with a key gets through. |

## Left out

- Screen and keyboard handling: the `game_loop` menus, class choice, stats and inventory screens, the map (`draw_map`, `Room.ascii`) and all printing. Replies enter only as the `Feed`'s lines.
- The equip, use and give menus of `game_loop`: they are user interface around `Players.Equip`, `Combat.ApplyItem` and `Players.AddItem`.
- File I/O (`save_to_file`, `load_from_file`, `save_game`, `load_game`): the model stops at the dict. JSON encoding is not modelled.
- The module-level `player_turn` and `enemy_action` wrappers in `game/combat.py`: they only forward to the manager's methods.
- Probability: the float weights of `random.choices`, the odds of a flight beyond its threshold, and the fairness of the shuffle. The model says which outcomes are possible and which rolls produce them, not how likely they are.
- Combat.Rounds: fights are cut off after `fuel` rounds (`OutOfFuel`, and `Stuck` in the dungeon). A fight that would never end, such as one where neither side can hurt the other, is not modelled.
- Combat.PlayRound: its contract states only that a round fights and stops once a side is down. `FinishedFightIsDecided`, `RoundsAfterFlight` and `FleeChance` pin down how the loop ends.
- Text.ParseInt: it covers ASCII digits with an optional sign and surrounding whitespace. Python's `int()` also accepts other Unicode digits and underscores. Its contract only says a result needs non-blank text; `ParseIntOfIntToString` is its partner.
- Text.SplitWs: its contract says the pieces are non-empty and free of whitespace; which words a command splits into is not stated.
- Text.SplitOn: its contract says there is at least one piece and none holds the separator; `SplitOnJoin` states the round trip.
- Utils.InventoryLines: its contract only gives the line count; `InventoryLineNumbers` states the contents.
- PlayerSave.SaveState: its contract only says it gives a dict; `SavedKeys`, `SavedIdentity`, `SavedPoints`, `SavedCombat` and `SavedProgress` state the contents.
- Saves.RoomKey: it carries no contract of its own, because every fact attached to it is repeated inside the saved merchant map; `KeyRoundTrip` and `KeyInjective` state that a key reads back as its room and that rooms have distinct keys.
- Creatures.FromDict: its contract only says it never yields nothing; `RoundTrip` and `FromDictDefaults` state what it reads.
- PlayerSave.InventoryOf: when some entries are skipped, its contract only says each loaded item comes from some entry; `InventoryOfLast` states the order.
- PlayerSave.EntryOf: legacy inventory entries are read only as `(name, kind, effect)` triples of two strings and `None` or a dict of ints. Other legacy shapes are skipped.
- Saves.StockItemOf: an item that is not a dict becomes `Item(str(d), 'misc', None)` in the source. Only strings are turned into such items here. Other values (a float, a list) fail, because `str()` of them is not modelled.
- Saves.OffersOf: a price that is not an int fails. So does an int field of a saved dict that holds a float.
- Saves.RestoredStock: when several merchant keys name the same room, the source lets the last one win. Here that case fails.
- Saves.DungeonOf: a `boss_locked` that is not a bool is kept only as its truthiness.
- Saves.FromDict: rooms' visited flags, monsters and chests are not saved by the source, so a loaded dungeon is blank apart from the boss lock and the merchant's stock, as in the source.
- Saves.FromDict: a saved `pos` is read only from a list of exactly two ints. The source's `tuple(...)` accepts any iterable, such as a string of two characters, and leaves the parts unchecked; those saves fail here.
- PlayerSave.LoadState: the same holds for a hero's `pos`, which is read only from a list of two ints, where the source accepts any iterable.
- Oracle.Sample: only CPython's pool method is modelled. CPython uses its set method instead when at most 5 are drawn from a pool of more than 21 entries, and a bag of up to 30 can offer that many candidates to `lose_random_items`. The set method redraws `randbelow(n)` until it finds an unused position, so the same picks come from other rolls. `Players.LoseRandomItems` states its guarantees for every sample, but its roll-by-roll outcome matches the source only for pools of at most 21.
- Rewards.DistributeXpLoot: models the corrected behaviour, where a drop enters the bag wrapped as an item; the code as written is `Findings.AppendLootAsWritten`.
- Rewards.Spoils: states the corrected, wrapped drop; the code as written is `Findings.AppendLootAsWritten`.
- Rewards.Paid: states the corrected, wrapped drop; the code as written is `Findings.AppendLootAsWritten`.
- Rewards.DistributedSpoils: states the corrected, wrapped drop; the code as written is `Findings.AppendLootAsWritten`.
- Dungeons.DistributeBossLoot: models the corrected behaviour, where the boss loot enters the bag wrapped as an item; the code as written is `Findings.AppendLootAsWritten`.
- Dungeons.Claim: models the corrected behaviour, where the loot is paid only once the dragon is dead; the code as written is `Findings.ClaimAsWritten`.
- Dungeons.BossRoom: models the corrected behaviour, where a shut door changes nothing but the roll; the code as written is `Findings.BlockedEntryAsWritten`.
- Dungeons.EnterRoom: its boss-room branch is the corrected `BossRoom`; the code as written is `Findings.BlockedEntryAsWritten`.
- Saves.CoordOf: its contract only says a key that reads has two parts; `KeyRoundTrip` and `KeyInjective` are its partners.
- Saves.StockValue: its contract only gives the length; `StockRoundTrip` states the contents.
- Dungeons.SlotFor: its contract only says a slot is in range; `Dungeons.Buy` and `Dungeons.SellTo` state what the slot selects.
- Dungeons.EnterRoom: its contract covers the party size, the grid and the door. The branches are stated by `Battle`, `Revisit`, `BossRoom` and, for a first entry into an ordinary room, by `Explore` (monsters) and `ExploreChest`, `ExploreMerchant` and `ExploreCache` (the other three roll bands).
- Text.Lower: only the ASCII capitals `A`–`Z` are lowered. Python's `str.lower()` also lowers other letters and can lengthen a string (`'İ'` becomes two characters). The only use is `prompt_confirm`'s test for a leading `y`, and no character but `Y` lowers to a leading `y`, so `Text.SaysYes` is unaffected.
- Combat.UseSpecial: its contract says who is struck and what else changes, not the damage amounts (`atk * 1.8 + randint(0, 4)` for the Warrior, `atk * 1.2 + randint(3, 7)` for the Mage, `atk * 1.6 + randint(1, 5)` for the Ranger).
- Combat.Single: its contract names the target and what changes, not the damage amount.
- Findings.ShutDoorStaysShut: it states only the next entry into the boss room; `Findings.ShutDoorNeverOpens` states it for every later run of entries.
- Findings.ShutDoorNeverOpens: it assumes the room turned away is the dungeon's only boss room, as in every new dungeon (`Dungeons.NewDungeonLayout`). An entry whose fight runs out of rounds leaves the dungeon as it was. Saving and reloading rebuilds every room unvisited (game/save.py:88) and is outside the run of entries.
- Dungeons.HandleMerchant: its contract says who can change and that nobody's body or position does; the effect of each trade is stated by `Buy`, `SellTo` and their lemmas.
- Rewards.Settle: its contract gives the size and the empty case; each payment is `DistributeXpLoot`, whose lemmas state its effect.
- The Ranger's base attack `11 + level * 1.5` and every other float stat are exact reals here. Where the source rounds a double, the model does not.

## Findings

| source | as written | input that shows it | evidently intended | confidence | as-written member | corrected member |
|---|---|---|---|---|---|---|
| main.py:441-443 | The winner's bag gets the bare `Weapon` from `generate_loot`. `distribute_boss_loot` does the same at `game/dungeon.py:442`. `lose_random_items` reads `it.kind` on every entry, so the owner's next death without a revive token raises `AttributeError`. | Any weapon drop, then a death of its owner with no revive token. | The drop is wrapped as `Item(w.name, 'weapon', {'weapon': w})`, as chests, merchants and starters do. | not executed | Findings.BareLootBreaksLoss | Findings.WrappedLootResolves |
| game/dungeon.py:241-247 | The boss loot is skipped only when every participant is down. That test runs after `handle_deaths` has revived everyone, so it passes after a flight or a wipe. The loot and 500 gold are paid while the dragon lives. | A lone hero enters the unlocked boss room. The order roll is 1, the reply is `5` and the flee draw is 0 (`DragonFlight`). | The loot is paid only once the dragon is dead. | not executed | Findings.FleeingPartyIsPaid | Dungeons.Claim |
| game/dungeon.py:214-236 | The first entry marks the boss room visited before checking the lock. A party without a key is turned away, but the room counts as visited. Every later entry takes the revisit branch, and the door can never be opened until the game is saved and reloaded, which rebuilds every room unvisited (`Dungeon()` at game/save.py:88). | A first entry into the boss room with the door locked and no key among the participants. | Nothing changes when the door stays shut, so a party that brings the key later can get in. | not executed | Findings.ShutDoorNeverOpens | Findings.ShutDoorOpensLater |
