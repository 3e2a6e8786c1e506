/** The turn-based combat loop: initiative, player actions, enemy actions
    and the rounds until one side is down or the party flees. */
module Combat {
  import opened Base
  import opened Text
  import opened Oracle
  import opened Creatures
  import opened Items
  import opened Players

  /** A turn slot: `('P', i)` or `('E', j)`. */
  datatype Slot = P(i: nat) | E(j: nat)

  datatype Battle = Battle(players: seq<Player>, enemies: seq<Creature>)

  /** How enemies pick a victim (`ENEMY_TARGET_MODE`; the game ships with
      `RandomTarget`). */
  datatype TargetMode = RandomTarget | WeakestTarget

  /** 0.6 as a double, times 2^53: `random() < 0.6` exactly when the drawn
      numerator is below this. */
  const FleeThreshold: int := 5404319552844595

  function Bodies(ps: seq<Player>): (r: seq<Creature>)
    ensures |r| == |ps|
    ensures forall i :: 0 <= i < |ps| ==> r[i] == ps[i].body
  {
    seq(|ps|, i requires 0 <= i < |ps| => ps[i].body)
  }

  predicate AnyPlayerAlive(ps: seq<Player>) {
    exists i :: 0 <= i < |ps| && Alive(ps[i])
  }

  /** The fight goes on while both sides have someone standing. */
  predicate BothSidesStand(b: Battle) {
    AnyPlayerAlive(b.players) && AnyAlive(b.enemies)
  }

  /** Slots are drawn for both lists in full. */
  predicate Fits(b: Battle, order: seq<Slot>) {
    forall k :: 0 <= k < |order| ==>
      match order[k]
      case P(i) => i < |b.players|
      case E(j) => j < |b.enemies|
  }

  function PlayerSlots(idx: seq<nat>): (r: seq<Slot>)
    ensures |r| == |idx| && forall k :: 0 <= k < |idx| ==> r[k] == P(idx[k])
  {
    seq(|idx|, k requires 0 <= k < |idx| => P(idx[k]))
  }

  function EnemySlots(idx: seq<nat>): (r: seq<Slot>)
    ensures |r| == |idx| && forall k :: 0 <= k < |idx| ==> r[k] == E(idx[k])
  {
    seq(|idx|, k requires 0 <= k < |idx| => E(idx[k]))
  }

  /** The unshuffled order: living players, then living enemies, by index. */
  function Lineup(b: Battle): seq<Slot> {
    PlayerSlots(AliveIndices(Bodies(b.players))) + EnemySlots(AliveIndices(b.enemies))
  }

  /** `initiative_order`: the lineup, shuffled. Every living combatant gets
      exactly one slot and nobody else gets one. */
  function InitiativeOrder(b: Battle, f: Feed): (r: Draw<Slot>)
    ensures multiset(r.items) == multiset(Lineup(b))
    ensures |r.items| == |AliveIndices(Bodies(b.players))| + |AliveIndices(b.enemies)|
    ensures Fits(b, r.items)
  {
    var line := Lineup(b);
    var r := Shuffle(f, line);
    LineupFits(b);
    FitsReordered(b, line, r.items);
    r
  }

  lemma LineupFits(b: Battle)
    ensures Fits(b, Lineup(b))
  {
    var ps := PlayerSlots(AliveIndices(Bodies(b.players)));
    var es := EnemySlots(AliveIndices(b.enemies));
    forall k | 0 <= k < |ps + es|
      ensures (ps + es)[k] == (if k < |ps| then ps[k] else es[k - |ps|])
    {
    }
  }

  /** A reordering of slots that fit still fits. */
  lemma FitsReordered(b: Battle, xs: seq<Slot>, ys: seq<Slot>)
    requires Fits(b, xs) && multiset(ys) == multiset(xs)
    ensures Fits(b, ys)
  {
    forall k | 0 <= k < |ys|
      ensures match ys[k] case P(i) => i < |b.players| case E(j) => j < |b.enemies|
    {
      assert ys[k] in multiset(xs);
      var m :| 0 <= m < |xs| && xs[m] == ys[k];
    }
  }

  lemma PlayerSlotIff(b: Battle, f: Feed, i: nat)
    requires i < |b.players|
    ensures P(i) in InitiativeOrder(b, f).items <==> Alive(b.players[i])
  {
    var order := InitiativeOrder(b, f).items;
    assert P(i) in order <==> P(i) in multiset(Lineup(b));
    PlayerInLineup(b, i);
  }

  lemma PlayerInLineup(b: Battle, i: nat)
    requires i < |b.players|
    ensures P(i) in Lineup(b) <==> Alive(b.players[i])
  {
    var pi := AliveIndices(Bodies(b.players));
    var ps := PlayerSlots(pi);
    var es := EnemySlots(AliveIndices(b.enemies));
    assert Lineup(b) == ps + es;
    assert P(i) !in es;
    assert P(i) in Lineup(b) <==> P(i) in ps;
    if Alive(b.players[i]) {
      assert IsAlive(Bodies(b.players)[i]);
      var k :| 0 <= k < |pi| && pi[k] == i;
      assert ps[k] == P(i);
    }
    if P(i) in ps {
      var k :| 0 <= k < |ps| && ps[k] == P(i);
      assert IsAlive(Bodies(b.players)[pi[k]]);
    }
  }

  lemma EnemyInLineup(b: Battle, j: nat)
    requires j < |b.enemies|
    ensures E(j) in Lineup(b) <==> IsAlive(b.enemies[j])
  {
    var ps := PlayerSlots(AliveIndices(Bodies(b.players)));
    var es := EnemySlots(AliveIndices(b.enemies));
    assert Lineup(b) == ps + es;
    assert E(j) !in ps;
    assert E(j) in Lineup(b) <==> E(j) in es;
    if IsAlive(b.enemies[j]) {
      var ei := AliveIndices(b.enemies);
      var k :| 0 <= k < |ei| && ei[k] == j;
      assert es[k] == E(j);
    }
  }

  lemma EnemySlotIff(b: Battle, f: Feed, j: nat)
    requires j < |b.enemies|
    ensures E(j) in InitiativeOrder(b, f).items <==> IsAlive(b.enemies[j])
  {
    var order := InitiativeOrder(b, f).items;
    assert E(j) in order <==> E(j) in multiset(Lineup(b));
    EnemyInLineup(b, j);
  }

  /** Every slot of the order names a living combatant, and every living
      combatant has a slot. */
  lemma InitiativeCoversTheLiving(b: Battle, f: Feed)
    ensures var order := InitiativeOrder(b, f).items;
      && (forall i :: 0 <= i < |b.players| ==> (P(i) in order <==> Alive(b.players[i])))
      && (forall j :: 0 <= j < |b.enemies| ==> (E(j) in order <==> IsAlive(b.enemies[j])))
  {
    forall i | 0 <= i < |b.players| {
      PlayerSlotIff(b, f, i);
    }
    forall j | 0 <= j < |b.enemies| {
      EnemySlotIff(b, f, j);
    }
  }

  // ---------------------------------------------------------------------------
  // Items and specials

  /** `apply_item`: a potion heals its `hp`, a mana potion restores its `mp`
      up to the maximum; other kinds do nothing. A potion without an effect
      dict raises after it was taken, so it is used up for nothing. */
  function ApplyItem(p: Player, it: Item): (r: Player)
    ensures it.kind == "potion" && it.effect.Some? ==>
      r == p.(body := Heal(p.body, IntEntry(it.effect.value, "hp", 0)))
    ensures it.kind == "mana" && it.effect.Some? ==>
      r == p.(body := p.body.(mp := Min(p.body.maxMp, p.body.mp + IntEntry(it.effect.value, "mp", 0))))
    ensures (it.kind != "potion" && it.kind != "mana") || it.effect.None? ==> r == p
  {
    if it.effect.None? then p
    else if it.kind == "potion" then p.(body := Heal(p.body, IntEntry(it.effect.value, "hp", 0)))
    else if it.kind == "mana" then
      p.(body := p.body.(mp := Min(p.body.maxMp, p.body.mp + IntEntry(it.effect.value, "mp", 0))))
    else p
  }

  /** A healing potion never lowers hit points and never lifts them past the
      maximum; a living player stays alive. */
  lemma PotionBounds(p: Player, it: Item)
    requires it.kind == "potion" && it.effect.Some? && IntEntry(it.effect.value, "hp", 0) >= 0
    requires 0 <= p.body.hp <= p.body.maxHp
    ensures p.body.hp <= ApplyItem(p, it).body.hp <= p.body.maxHp
    ensures Alive(p) ==> Alive(ApplyItem(p, it))
  {
  }

  /** What a fight may change in a player: hit points, mana, defense, the
      last-hit flag, and items used up. */
  predicate FightChanged(p: Player, q: Player) {
    && q == p.(body := q.body, inventory := q.inventory, lastHit := q.lastHit)
    && q.body == p.body.(hp := q.body.hp, mp := q.body.mp, defense := q.body.defense)
    && multiset(q.inventory) <= multiset(p.inventory)
  }

  /** What a fight may change in an enemy: its hit points, which only go
      down (never below 0 unless they already were). */
  predicate Worn(e: Creature, e': Creature) {
    e' == e.(hp := e'.hp) && e'.hp <= Max(0, e.hp)
  }

  predicate NonNegativeAttack(ps: seq<Player>) {
    forall i :: 0 <= i < |ps| ==> ps[i].body.atk >= 0.0
  }

  /** One battle state leads to the other by fighting alone. Enemies only
      lose hit points as long as no player has a negative attack (which
      would turn a special into healing). */
  predicate Fought(b: Battle, b': Battle) {
    && |b'.players| == |b.players| && |b'.enemies| == |b.enemies|
    && (forall i :: 0 <= i < |b.players| ==> FightChanged(b.players[i], b'.players[i]))
    && (forall j :: 0 <= j < |b.enemies| ==> b'.enemies[j] == b.enemies[j].(hp := b'.enemies[j].hp))
    && (NonNegativeAttack(b.players) ==> forall j :: 0 <= j < |b.enemies| ==> Worn(b.enemies[j], b'.enemies[j]))
  }

  lemma FoughtTransitive(b0: Battle, b1: Battle, b2: Battle)
    requires Fought(b0, b1) && Fought(b1, b2)
    ensures Fought(b0, b2)
  {
    if NonNegativeAttack(b0.players) {
      assert NonNegativeAttack(b1.players) by {
        forall i | 0 <= i < |b1.players|
          ensures b1.players[i].body.atk >= 0.0
        {
          assert FightChanged(b0.players[i], b1.players[i]);
        }
      }
    }
    forall i | 0 <= i < |b0.players|
      ensures FightChanged(b0.players[i], b2.players[i])
    {
      assert FightChanged(b0.players[i], b1.players[i]) && FightChanged(b1.players[i], b2.players[i]);
    }
  }

  lemma FoughtStill(b: Battle)
    ensures Fought(b, b)
  {
    forall i | 0 <= i < |b.players|
      ensures FightChanged(b.players[i], b.players[i])
    {
    }
  }

  /** Changing one player within a fight, and possibly hitting one enemy. */
  lemma FoughtOne(b: Battle, i: nat, q: Player, es: seq<Creature>)
    requires i < |b.players| && FightChanged(b.players[i], q)
    requires |es| == |b.enemies|
    requires forall j :: 0 <= j < |es| ==> es[j] == b.enemies[j].(hp := es[j].hp)
    requires b.players[i].body.atk >= 0.0 ==> forall j :: 0 <= j < |es| ==> Worn(b.enemies[j], es[j])
    ensures Fought(b, Battle(b.players[i := q], es))
  {
    var b' := Battle(b.players[i := q], es);
    forall k | 0 <= k < |b.players|
      ensures FightChanged(b.players[k], b'.players[k])
    {
      if k != i {
        assert b'.players[k] == b.players[k];
      }
    }
  }

  // ---------------------------------------------------------------------------
  // Specials

  datatype Hits = Hits(enemies: seq<Creature>, rest: Feed)

  /** The Mage's burst: each listed enemy takes its own `int(atk * 1.2 +
      randint(3, 7))`, one roll per target, in list order. */
  function Burst(enemies: seq<Creature>, targets: seq<nat>, atk: real, f: Feed): (r: Hits)
    requires forall k :: 0 <= k < |targets| ==> targets[k] < |enemies|
    ensures |r.enemies| == |enemies|
    ensures forall j :: 0 <= j < |enemies| && j !in targets ==> r.enemies[j] == enemies[j]
    ensures forall j :: 0 <= j < |enemies| ==> r.enemies[j] == enemies[j].(hp := r.enemies[j].hp)
    ensures atk >= 0.0 ==> forall j :: 0 <= j < |enemies| ==> Worn(enemies[j], r.enemies[j])
    ensures atk >= 0.0 ==> forall j :: 0 <= j < |enemies| && j in targets && IsAlive(enemies[j]) ==>
              r.enemies[j].hp < enemies[j].hp
    decreases |targets|
  {
    if |targets| == 0 then Hits(enemies, f)
    else
      var roll := RandInt(f, 3, 7);
      var t := targets[0];
      var hit := TakeDamage(enemies[t], TruncReal(atk * 1.2 + roll.value as real));
      var r := Burst(enemies[t := hit.after], targets[1..], atk, roll.rest);
      assert forall j :: j in targets ==> j == t || j in targets[1..];
      r
  }

  /** `use_special`: Cleave (Warrior), Arcane Burst (Mage, 8 mana) or
      Piercing Shot (Ranger, 5 mana); any other class does nothing. */
  function UseSpecial(p: Player, enemies: seq<Creature>, f: Feed): (r: Special)
    ensures |r.enemies| == |enemies|
    ensures forall j :: 0 <= j < |enemies| ==> r.enemies[j] == enemies[j].(hp := r.enemies[j].hp)
    ensures p.body.atk >= 0.0 ==> forall j :: 0 <= j < |enemies| ==> Worn(enemies[j], r.enemies[j])
    ensures r.player == p.(body := p.body.(mp := r.player.body.mp), lastHit := r.player.lastHit)
    ensures r.player.body.mp == (if p.pclass == "Mage" && p.body.mp >= 8 then p.body.mp - 8
                                 else if p.pclass == "Ranger" && p.body.mp >= 5 then p.body.mp - 5
                                 else p.body.mp)
    ensures p.pclass == "Mage" ==> r.player.lastHit == p.lastHit
    ensures r.player.lastHit != p.lastHit ==>
      r.player.lastHit && exists j :: 0 <= j < |enemies| && IsAlive(enemies[j]) && !IsAlive(r.enemies[j])
    ensures p.pclass !in WeaponClasses || !AnyAlive(enemies) ==> r.enemies == enemies
    ensures (p.pclass == "Mage" && p.body.mp < 8) || (p.pclass == "Ranger" && p.body.mp < 5) ==>
      r == Special(p, enemies, f)
    ensures p.pclass == "Mage" && p.body.mp >= 8 && p.body.atk >= 0.0 ==>
      forall j :: 0 <= j < |enemies| && IsAlive(enemies[j]) ==> r.enemies[j].hp < enemies[j].hp
  {
    var live := AliveIndices(enemies);
    AnyAliveIndices(enemies);
    if p.pclass == "Warrior" then
      if |live| == 0 then Special(p, enemies, f)
      else Single(p, enemies, f, 0, 4, 1.8)
    else if p.pclass == "Mage" then
      if p.body.mp < 8 then Special(p, enemies, f)
      else
        var paid := p.(body := p.body.(mp := p.body.mp - 8));
        var hits := Burst(enemies, live, p.body.atk, f);
        Special(paid, hits.enemies, hits.rest)
    else if p.pclass == "Ranger" then
      if p.body.mp < 5 then Special(p, enemies, f)
      else
        var paid := p.(body := p.body.(mp := p.body.mp - 5));
        if |live| == 0 then Special(paid, enemies, f)
        else Single(paid, enemies, f, 1, 5, 1.6)
    else Special(p, enemies, f)
  }

  datatype Special = Special(player: Player, enemies: seq<Creature>, rest: Feed)

  /** A single-target special: a random living enemy takes
      `int(atk * scale + randint(lo, hi))`; killing it earns the last hit. */
  function Single(p: Player, enemies: seq<Creature>, f: Feed, lo: int, hi: int, scale: real): (r: Special)
    requires AnyAlive(enemies) && 0 <= lo <= hi && scale > 0.0
    ensures |r.enemies| == |enemies|
    ensures forall j :: 0 <= j < |enemies| ==> r.enemies[j] == enemies[j].(hp := r.enemies[j].hp)
    ensures p.body.atk >= 0.0 ==> forall j :: 0 <= j < |enemies| ==> Worn(enemies[j], r.enemies[j])
    ensures r.player == p.(lastHit := r.player.lastHit)
    ensures r.player.lastHit != p.lastHit ==>
      r.player.lastHit && exists j :: 0 <= j < |enemies| && IsAlive(enemies[j]) && !IsAlive(r.enemies[j])
    ensures var live := AliveIndices(enemies);
      && |live| > 0
      && var t := live[Below(f, |live|).value];
      && IsAlive(enemies[t])
      && forall k :: 0 <= k < |enemies| && k != t ==> r.enemies[k] == enemies[k]
  {
    var live := AliveIndices(enemies);
    AnyAliveIndices(enemies);
    var c := Below(f, |live|);
    var t := live[c.value];
    var roll := RandInt(c.rest, lo, hi);
    var hit := TakeDamage(enemies[t], TruncReal(p.body.atk * scale + roll.value as real));
    Special(if IsAlive(hit.after) then p else p.(lastHit := true), enemies[t := hit.after], roll.rest)
  }

  // ---------------------------------------------------------------------------
  // Choosing a target

  datatype Target = Target(choice: Option<nat>, rest: Feed)

  /** `select_target`: the reply, read as a number `n`, picks entry `n - 1`
      of the living enemies with Python indexing (so `0` picks the last);
      anything else wastes the turn. With nobody alive nothing is read. */
  function SelectTarget(enemies: seq<Creature>, f: Feed): (r: Target)
    ensures r.choice.Some? ==> r.choice.value < |enemies| && IsAlive(enemies[r.choice.value])
    ensures !AnyAlive(enemies) ==> r == Target(None, f)
    ensures AnyAlive(enemies) ==> r.rest == ReadLine(f).rest
  {
    var live := AliveIndices(enemies);
    AnyAliveIndices(enemies);
    if |live| == 0 then Target(None, f)
    else
      var line := ReadLine(f);
      var n := ParseInt(line.text);
      if n.Some? && PyIndexOk(|live|, n.value - 1) then Target(Some(live[PyIndex(|live|, n.value - 1)]), line.rest)
      else Target(None, line.rest)
  }

  /** Typing `k` picks the `k`-th living enemy; typing `0` picks the last
      one, through Python's negative indexing. */
  lemma SelectTargetByNumber(enemies: seq<Creature>, k: nat, rest: seq<string>, rolls: seq<int>)
    requires k <= |AliveIndices(enemies)| && |AliveIndices(enemies)| > 0
    ensures var live := AliveIndices(enemies);
      SelectTarget(enemies, Feed(rolls, [IntToString(k)] + rest))
        == Target(Some(if k == 0 then live[|live| - 1] else live[k - 1]), Feed(rolls, rest))
  {
    ParseIntOfIntToString(k);
    SelectTargetByText(enemies, IntToString(k), k, rest, rolls);
  }

  lemma SelectTargetByText(enemies: seq<Creature>, text: string, k: nat, rest: seq<string>, rolls: seq<int>)
    requires k <= |AliveIndices(enemies)| && |AliveIndices(enemies)| > 0 && ParseInt(text) == Some(k)
    ensures var live := AliveIndices(enemies);
      SelectTarget(enemies, Feed(rolls, [text] + rest))
        == Target(Some(if k == 0 then live[|live| - 1] else live[k - 1]), Feed(rolls, rest))
  {
    var live := AliveIndices(enemies);
    ReadLineHead(text, rest, rolls);
    SelectTargetReads(enemies, Feed(rolls, [text] + rest), k);
    assert PyIndex(|live|, k - 1) == if k == 0 then |live| - 1 else k - 1;
  }

  /** A reply that parses as `n` with `n - 1` a valid Python index picks
      that living enemy. */
  lemma SelectTargetReads(enemies: seq<Creature>, f: Feed, n: int)
    requires |AliveIndices(enemies)| > 0 && PyIndexOk(|AliveIndices(enemies)|, n - 1)
    requires ParseInt(ReadLine(f).text) == Some(n)
    ensures var live := AliveIndices(enemies);
      SelectTarget(enemies, f) == Target(Some(live[PyIndex(|live|, n - 1)]), ReadLine(f).rest)
  {
  }

  // ---------------------------------------------------------------------------
  // A player's turn

  datatype Turn = Turn(battle: Battle, fled: bool, rest: Feed)

  function SetPlayer(b: Battle, i: nat, p: Player): Battle
    requires i < |b.players|
  {
    b.(players := b.players[i := p])
  }

  /** Action 1: attack the chosen enemy for `max(1, int(attack_damage() -
      defense))`; the last-hit flag records whether that blow killed it. */
  function Attack(b: Battle, i: nat, f: Feed): (r: Turn)
    requires i < |b.players|
    ensures Fought(b, r.battle) && !r.fled
    ensures forall k :: 0 <= k < |b.players| && k != i ==> r.battle.players[k] == b.players[k]
    ensures SelectTarget(b.enemies, f).choice.None? ==> r.battle == b
    ensures SelectTarget(b.enemies, f).choice.Some? ==>
      var j := SelectTarget(b.enemies, f).choice.value;
      && r.battle.enemies[j].hp < b.enemies[j].hp
      && r.battle.players[i] == b.players[i].(lastHit := !IsAlive(r.battle.enemies[j]))
      && forall k :: 0 <= k < |b.enemies| && k != j ==> r.battle.enemies[k] == b.enemies[k]
    ensures SelectTarget(b.enemies, f).choice.None? ==> r.rest == SelectTarget(b.enemies, f).rest
    ensures SelectTarget(b.enemies, f).choice.Some? ==>
      var j := SelectTarget(b.enemies, f).choice.value;
      var d := AttackDamage(b.players[i], SelectTarget(b.enemies, f).rest);
      && r.battle.enemies[j] == TakeDamage(b.enemies[j], Max(1, TruncReal(d.value - b.enemies[j].defense))).after
      && r.rest == d.rest
  {
    var t := SelectTarget(b.enemies, f);
    if t.choice.None? then FoughtStill(b); Turn(b, false, t.rest)
    else
      var j := t.choice.value;
      var d := AttackDamage(b.players[i], t.rest);
      Blow(b, i, j, Max(1, TruncReal(d.value - b.enemies[j].defense)), d.rest)
  }

  /** A blow of `dmg`, at least 1, against living enemy `j`: it takes
      exactly that damage, and the attacker's last-hit flag records whether
      it died. */
  function Blow(b: Battle, i: nat, j: nat, dmg: int, rest: Feed): (r: Turn)
    requires i < |b.players| && j < |b.enemies| && IsAlive(b.enemies[j]) && dmg >= 1
    ensures Fought(b, r.battle) && !r.fled && r.rest == rest
    ensures forall k :: 0 <= k < |b.players| && k != i ==> r.battle.players[k] == b.players[k]
    ensures r.battle.enemies[j].hp < b.enemies[j].hp
    ensures r.battle.enemies[j] == TakeDamage(b.enemies[j], dmg).after
    ensures r.battle.players[i] == b.players[i].(lastHit := !IsAlive(r.battle.enemies[j]))
    ensures forall k :: 0 <= k < |b.enemies| && k != j ==> r.battle.enemies[k] == b.enemies[k]
  {
    var hit := TakeDamage(b.enemies[j], dmg);
    var q := b.players[i].(lastHit := !IsAlive(hit.after));
    var es := b.enemies[j := hit.after];
    assert FightChanged(b.players[i], q);
    FoughtOne(b, i, q, es);
    Turn(Battle(b.players[i := q], es), false, rest)
  }

  /** Action 2 of a living player: defense rises by exactly 3 and stays
      raised; nothing else changes and no die is rolled. */
  lemma DefendTurn(b: Battle, i: nat, f: Feed)
    requires i < |b.players| && Alive(b.players[i]) && Strip(ReadLine(f).text) == "2"
    ensures var p := b.players[i];
      PlayerTurn(b, i, f)
        == Turn(SetPlayer(b, i, p.(body := p.body.(defense := p.body.defense + 3.0))), false, ReadLine(f).rest)
  {
    var choice := Strip(ReadLine(f).text);
    assert choice != "1";
  }

  /** Action 3: the reply, read as a number `n`, takes inventory entry
      `n - 1` (Python indexing) and applies it. */
  function UseItem(b: Battle, i: nat, f: Feed): (r: Turn)
    requires i < |b.players|
    ensures Fought(b, r.battle) && !r.fled
    ensures forall k :: 0 <= k < |b.players| && k != i ==> r.battle.players[k] == b.players[k]
    ensures |b.players[i].inventory| == 0 ==> r == Turn(b, false, f)
  {
    var p := b.players[i];
    FoughtStill(b);
    if |p.inventory| == 0 then Turn(b, false, f)
    else
      var line := ReadLine(f);
      var n := ParseInt(line.text);
      if n.None? || !PyIndexOk(|p.inventory|, n.value - 1) then Turn(b, false, line.rest)
      else
        var k := PyIndex(|p.inventory|, n.value - 1);
        var it := p.inventory[k];
        var rest := RemoveAt(p.inventory, k);
        var q := ApplyItem(p.(inventory := rest), it);
        ItemUsed(p, k);
        FoughtOne(b, i, q, b.enemies);
        Turn(SetPlayer(b, i, q), false, line.rest)
  }

  /** A valid choice takes that entry out of the inventory whatever its
      kind, even when applying it has no effect, and then applies it. */
  lemma UseItemTakes(b: Battle, i: nat, f: Feed, n: int)
    requires i < |b.players| && PyIndexOk(|b.players[i].inventory|, n - 1)
    requires ParseInt(ReadLine(f).text) == Some(n)
    ensures var inv := b.players[i].inventory;
      var k := PyIndex(|inv|, n - 1);
      var q := UseItem(b, i, f).battle.players[i];
      && q.inventory == RemoveAt(inv, k)
      && q == ApplyItem(b.players[i].(inventory := RemoveAt(inv, k)), inv[k])
      && UseItem(b, i, f).rest == ReadLine(f).rest
  {
    var inv := b.players[i].inventory;
    assert |inv| > 0;
    var k := PyIndex(|inv|, n - 1);
    var q := ApplyItem(b.players[i].(inventory := RemoveAt(inv, k)), inv[k]);
    assert UseItem(b, i, f) == Turn(SetPlayer(b, i, q), false, ReadLine(f).rest);
  }

  /** Using an item takes it out of the inventory and touches at most the
      user's hit points and mana. */
  lemma ItemUsed(p: Player, k: nat)
    requires k < |p.inventory|
    ensures var rest := RemoveAt(p.inventory, k);
      FightChanged(p, ApplyItem(p.(inventory := rest), p.inventory[k]))
  {
    var rest := RemoveAt(p.inventory, k);
    var q := ApplyItem(p.(inventory := rest), p.inventory[k]);
    assert multiset(rest) <= multiset(p.inventory);
    assert q.inventory == rest;
  }

  /** `player_turn`: read an action and carry it out. A dead player does
      nothing and reads nothing; only action 5 can flee. */
  function PlayerTurn(b: Battle, i: nat, f: Feed): (r: Turn)
    requires i < |b.players|
    ensures Fought(b, r.battle)
    ensures forall k :: 0 <= k < |b.players| && k != i ==> r.battle.players[k] == b.players[k]
    ensures !Alive(b.players[i]) ==> r == Turn(b, false, f)
    ensures r.fled ==> Alive(b.players[i]) && Strip(ReadLine(f).text) == "5"
  {
    var p := b.players[i];
    FoughtStill(b);
    if !Alive(p) then Turn(b, false, f)
    else
      var line := ReadLine(f);
      var choice := Strip(line.text);
      if choice == "1" then Attack(b, i, line.rest)
      else if choice == "2" then
        var q := p.(body := p.body.(defense := p.body.defense + 3.0));
        assert FightChanged(p, q);
        FoughtOne(b, i, q, b.enemies);
        Turn(SetPlayer(b, i, q), false, line.rest)
      else if choice == "3" then UseItem(b, i, line.rest)
      else if choice == "4" then
        var s := UseSpecial(p, b.enemies, line.rest);
        assert FightChanged(p, s.player);
        FoughtOne(b, i, s.player, s.enemies);
        Turn(Battle(b.players[i := s.player], s.enemies), false, s.rest)
      else if choice == "5" then
        var k := RandomFloat(line.rest);
        Turn(b, k.value < FleeThreshold, k.rest)
      else Turn(b, false, line.rest)
  }

  /** Action 1 of a living player: the turn is the attack, which reads
      the target from the next reply. */
  lemma AttackTurn(b: Battle, i: nat, f: Feed)
    requires i < |b.players| && Alive(b.players[i]) && Strip(ReadLine(f).text) == "1"
    ensures PlayerTurn(b, i, f) == Attack(b, i, ReadLine(f).rest)
  {
  }

  /** Action 3 of a living player: the turn is the use of an item, whose
      number is the next reply. */
  lemma ItemTurn(b: Battle, i: nat, f: Feed)
    requires i < |b.players| && Alive(b.players[i]) && Strip(ReadLine(f).text) == "3"
    ensures PlayerTurn(b, i, f) == UseItem(b, i, ReadLine(f).rest)
  {
    var choice := Strip(ReadLine(f).text);
    assert choice != "1" && choice != "2";
  }

  /** Action 4 of a living player: the class special, whose outcome
      replaces the hero and the enemies. */
  lemma SpecialTurn(b: Battle, i: nat, f: Feed)
    requires i < |b.players| && Alive(b.players[i]) && Strip(ReadLine(f).text) == "4"
    ensures var s := UseSpecial(b.players[i], b.enemies, ReadLine(f).rest);
      PlayerTurn(b, i, f) == Turn(Battle(b.players[i := s.player], s.enemies), false, s.rest)
  {
    var choice := Strip(ReadLine(f).text);
    assert choice != "1" && choice != "2" && choice != "3";
  }

  /** Any other reply of a living player takes no action: nothing changes
      and nothing more is read. */
  lemma IdleTurn(b: Battle, i: nat, f: Feed)
    requires i < |b.players| && Alive(b.players[i])
    requires Strip(ReadLine(f).text) !in ["1", "2", "3", "4", "5"]
    ensures PlayerTurn(b, i, f) == Turn(b, false, ReadLine(f).rest)
  {
    var choice := Strip(ReadLine(f).text);
    assert choice != "1" && choice != "2" && choice != "3" && choice != "4" && choice != "5";
  }

  /** Action 5 of a living player: one `random()` draw after the reply,
      and a flight exactly when it is below 0.6. */
  lemma FleeTurn(b: Battle, i: nat, f: Feed)
    requires i < |b.players| && Alive(b.players[i]) && Strip(ReadLine(f).text) == "5"
    ensures var k := RandomFloat(ReadLine(f).rest);
      PlayerTurn(b, i, f) == Turn(b, k.value < FleeThreshold, k.rest)
  {
    var choice := Strip(ReadLine(f).text);
    assert choice != "1" && choice != "2" && choice != "3" && choice != "4";
  }

  /** Fleeing succeeds exactly for the draws `random() < 0.6`. */
  lemma FleeChance(b: Battle, i: nat, k: int, rest: seq<int>, lines: seq<string>)
    requires i < |b.players| && Alive(b.players[i]) && 0 <= k < FloatSteps
    ensures PlayerTurn(b, i, Feed([k] + rest, ["5"] + lines)) == Turn(b, k < FleeThreshold, Feed(rest, lines))
  {
    var f := Feed([k] + rest, ["5"] + lines);
    var f' := Feed([k] + rest, lines);
    assert ReadLine(f) == Line("5", f');
    assert Strip("5") == "5" by { StripKeepsTrimmed("5"); }
    assert RandomFloat(f') == Roll(k, Feed(rest, lines)) by {
      BelowHead(f', FloatSteps);
      assert f'.(rolls := f'.rolls[1..]) == Feed(rest, lines);
    }
    FleeTurn(b, i, f);
  }

  // ---------------------------------------------------------------------------
  // An enemy's turn

  /** The position in `idx` of the first player with the fewest hit points
      (`min(live, key=hp)`). */
  function Weakest(ps: seq<Player>, idx: seq<nat>): (k: nat)
    requires |idx| > 0 && forall t :: 0 <= t < |idx| ==> idx[t] < |ps|
    ensures k < |idx|
    ensures forall t :: 0 <= t < |idx| ==> ps[idx[k]].body.hp <= ps[idx[t]].body.hp
    ensures forall t :: 0 <= t < k ==> ps[idx[t]].body.hp > ps[idx[k]].body.hp
    decreases |idx|
  {
    if |idx| == 1 then 0
    else
      var k := Weakest(ps, idx[..|idx| - 1]);
      if ps[idx[|idx| - 1]].body.hp < ps[idx[k]].body.hp then |idx| - 1 else k
  }

  /** Read at a position of the living, `Weakest` finds the first living
      player with the fewest hit points in the whole list. */
  lemma WeakestAmongLiving(ps: seq<Player>, live: seq<nat>)
    requires live == AliveIndices(Bodies(ps)) && |live| > 0
    ensures var i := live[Weakest(ps, live)];
      && (forall k :: 0 <= k < |ps| && Alive(ps[k]) ==> ps[i].body.hp <= ps[k].body.hp)
      && (forall k :: 0 <= k < i && Alive(ps[k]) ==> ps[k].body.hp > ps[i].body.hp)
  {
    var w := Weakest(ps, live);
    var i := live[w];
    forall k | 0 <= k < |ps| && Alive(ps[k])
      ensures ps[i].body.hp <= ps[k].body.hp
      ensures k < i ==> ps[k].body.hp > ps[i].body.hp
    {
      assert IsAlive(Bodies(ps)[k]);
      var t :| 0 <= t < |live| && live[t] == k;
      assert ps[live[w]].body.hp <= ps[live[t]].body.hp;
      assert w < t ==> live[w] < live[t];
      if k < i {
        assert t < w;
        assert ps[live[t]].body.hp > ps[live[w]].body.hp;
      }
    }
  }

  /** The player an enemy hits. There is none when the enemy is dead or no
      player stands. Otherwise, with `'weakest'` targeting it is the first
      living player with the fewest hit points and no roll is used; with
      `'random'` it is `random.choice` over the living, in list order. */
  function EnemyTarget(b: Battle, j: nat, mode: TargetMode, f: Feed): (r: Option<Roll>)
    requires j < |b.enemies|
    ensures r.None? <==> !IsAlive(b.enemies[j]) || !AnyPlayerAlive(b.players)
    ensures r.Some? ==> 0 <= r.value.value < |b.players| && Alive(b.players[r.value.value])
    ensures r.Some? && mode == WeakestTarget ==>
      var i := r.value.value;
      && r.value.rest == f
      && (forall k :: 0 <= k < |b.players| && Alive(b.players[k]) ==> b.players[i].body.hp <= b.players[k].body.hp)
      && (forall k :: 0 <= k < i && Alive(b.players[k]) ==> b.players[k].body.hp > b.players[i].body.hp)
    ensures r.Some? && mode == RandomTarget ==>
      var live := AliveIndices(Bodies(b.players));
      && |live| > 0
      && r.value == Roll(live[Below(f, |live|).value], Below(f, |live|).rest)
  {
    var live := AliveIndices(Bodies(b.players));
    AnyAliveIndices(Bodies(b.players));
    if !IsAlive(b.enemies[j]) || |live| == 0 then None
    else
      var w := if mode == WeakestTarget then Roll(Weakest(b.players, live), f) else Below(f, |live|);
      var i := live[w.value];
      assert Alive(b.players[i]) by { assert IsAlive(Bodies(b.players)[i]); }
      if mode == WeakestTarget then WeakestAmongLiving(b.players, live); Some(Roll(i, f))
      else Some(Roll(i, w.rest))
  }

  /** With random targeting every living player can be hit: a roll of the
      player's rank among the living picks them. */
  lemma EnemyTargetReaches(b: Battle, j: nat, i: nat, rolls: seq<int>, lines: seq<string>)
    requires j < |b.enemies| && IsAlive(b.enemies[j])
    requires i < |b.players| && Alive(b.players[i])
    ensures exists d :: 0 <= d && EnemyTarget(b, j, RandomTarget, Feed([d] + rolls, lines)) == Some(Roll(i, Feed(rolls, lines)))
  {
    var live := AliveIndices(Bodies(b.players));
    assert IsAlive(Bodies(b.players)[i]);
    var d :| 0 <= d < |live| && live[d] == i;
    var f := Feed([d] + rolls, lines);
    BelowHead(f, |live|);
    assert f.(rolls := f.rolls[1..]) == Feed(rolls, lines);
    assert EnemyTarget(b, j, RandomTarget, f) == Some(Roll(i, Feed(rolls, lines)));
  }

  datatype Strike = Strike(battle: Battle, rest: Feed)

  /** `enemy_action`: a living enemy facing a living player hits exactly
      the `EnemyTarget`, for `max(1, int(atk - defense * 0.5 + randint(-1, 2)))`
      hit points, floored at 0; everyone else is left as they were. */
  function EnemyAction(b: Battle, j: nat, mode: TargetMode, f: Feed): (r: Strike)
    requires j < |b.enemies|
    ensures Fought(b, r.battle) && r.battle.enemies == b.enemies
    ensures !IsAlive(b.enemies[j]) || !AnyPlayerAlive(b.players) ==> r == Strike(b, f)
    ensures forall i :: 0 <= i < |b.players| ==>
      r.battle.players[i] == b.players[i] || (Alive(b.players[i]) && r.battle.players[i].body.hp < b.players[i].body.hp)
    ensures IsAlive(b.enemies[j]) && AnyPlayerAlive(b.players) ==>
      exists i :: 0 <= i < |b.players| && Alive(b.players[i]) && r.battle.players[i].body.hp < b.players[i].body.hp
        && forall k :: 0 <= k < |b.players| && k != i ==> r.battle.players[k] == b.players[k]
    ensures EnemyTarget(b, j, mode, f).Some? ==>
      var i := EnemyTarget(b, j, mode, f).value.value;
      var v := RandInt(EnemyTarget(b, j, mode, f).value.rest, -1, 2);
      && r.battle.players[i] == b.players[i].(body := b.players[i].body.(hp := r.battle.players[i].body.hp))
      && b.players[i].body.hp - r.battle.players[i].body.hp
         == Min(b.players[i].body.hp, Max(1, TruncReal(b.enemies[j].atk - b.players[i].body.defense * 0.5 + v.value as real)))
      && (forall k :: 0 <= k < |b.players| && k != i ==> r.battle.players[k] == b.players[k])
      && r.rest == v.rest
  {
    var t := EnemyTarget(b, j, mode, f);
    FoughtStill(b);
    if t.None? then Strike(b, f)
    else
      var r := EnemyBlow(b, t.value.value, j, RandInt(t.value.rest, -1, 2));
      WoundedOne(b, r.battle, t.value.value);
      r
  }

  /** Enemy `j` hits living player `i` with the variance `v.value`: only that
      player's hit points change, by the damage floored at their hit points. */
  function EnemyBlow(b: Battle, i: nat, j: nat, v: Roll): (r: Strike)
    requires i < |b.players| && j < |b.enemies| && Alive(b.players[i])
    ensures Fought(b, r.battle) && r.battle.enemies == b.enemies && r.rest == v.rest
    ensures r.battle.players[i].body.hp < b.players[i].body.hp
    ensures r.battle.players[i] == b.players[i].(body := b.players[i].body.(hp := r.battle.players[i].body.hp))
    ensures b.players[i].body.hp - r.battle.players[i].body.hp
         == Min(b.players[i].body.hp, Max(1, TruncReal(b.enemies[j].atk - b.players[i].body.defense * 0.5 + v.value as real)))
    ensures forall k :: 0 <= k < |b.players| && k != i ==> r.battle.players[k] == b.players[k]
  {
    var p := b.players[i];
    var hit := TakeDamage(p.body, Max(1, TruncReal(b.enemies[j].atk - p.body.defense * 0.5 + v.value as real)));
    var q := p.(body := hit.after);
    assert FightChanged(p, q);
    FoughtOne(b, i, q, b.enemies);
    Strike(SetPlayer(b, i, q), v.rest)
  }

  /** A blow that lowers one living player's hit points and leaves everyone
      else as they were wounds exactly one living player. */
  lemma WoundedOne(b: Battle, c: Battle, i: nat)
    requires i < |b.players| == |c.players| && Alive(b.players[i]) && c.players[i].body.hp < b.players[i].body.hp
    requires forall k :: 0 <= k < |b.players| && k != i ==> c.players[k] == b.players[k]
    ensures forall k :: 0 <= k < |b.players| ==>
      c.players[k] == b.players[k] || (Alive(b.players[k]) && c.players[k].body.hp < b.players[k].body.hp)
    ensures exists k :: 0 <= k < |b.players| && Alive(b.players[k]) && c.players[k].body.hp < b.players[k].body.hp
                        && (forall m :: 0 <= m < |b.players| && m != k ==> c.players[m] == b.players[m])
  {
  }

  // ---------------------------------------------------------------------------
  // Rounds

  /** One pass over the turn order. It stops early once a side is down or
      someone flees; a dead combatant's slot is skipped. */
  function PlayRound(b: Battle, order: seq<Slot>, mode: TargetMode, f: Feed): (r: Turn)
    requires Fits(b, order)
    ensures Fought(b, r.battle)
    ensures !BothSidesStand(b) ==> r == Turn(b, false, f)
    decreases |order|
  {
    if |order| == 0 || !BothSidesStand(b) then Turn(b, false, f)
    else
      match order[0]
      case P(i) =>
        var t := PlayerTurn(b, i, f);
        if t.fled then t
        else
          FitsTail(b, t.battle, order);
          var r := PlayRound(t.battle, order[1..], mode, t.rest);
          FoughtTransitive(b, t.battle, r.battle);
          r
      case E(j) =>
        if !IsAlive(b.enemies[j]) then FitsTail(b, b, order); PlayRound(b, order[1..], mode, f)
        else
          var s := EnemyAction(b, j, mode, f);
          FitsTail(b, s.battle, order);
          var r := PlayRound(s.battle, order[1..], mode, s.rest);
          FoughtTransitive(b, s.battle, r.battle);
          r
  }

  /** The rest of an order still fits a battle of the same sizes. */
  lemma FitsTail(b: Battle, c: Battle, order: seq<Slot>)
    requires Fits(b, order) && |order| > 0
    requires |c.players| == |b.players| && |c.enemies| == |b.enemies|
    ensures Fits(c, order[1..])
  {
    forall k | 0 <= k < |order| - 1 ensures match order[1..][k] case P(i) => i < |c.players| case E(j) => j < |c.enemies| {
      assert order[1..][k] == order[k + 1];
    }
  }

  /** How a fight ends: settled, or still going when the fuel ran out. */
  datatype CombatEnd = Finished(battle: Battle, fled: bool, rest: Feed) | OutOfFuel

  /** The `while` loop of `run`: rounds until a side is down or someone
      flees, a fresh order drawn after every round. `fuel` bounds the
      number of rounds. */
  function Rounds(b: Battle, order: seq<Slot>, fled: bool, mode: TargetMode, f: Feed, fuel: nat): (r: CombatEnd)
    requires Fits(b, order)
    ensures r.Finished? ==> Fought(b, r.battle) && (r.fled || !BothSidesStand(r.battle))
    ensures fled || !BothSidesStand(b) ==> r == Finished(b, fled, f)
    decreases fuel
  {
    if fled || !BothSidesStand(b) then Finished(b, fled, f)
    else if fuel == 0 then OutOfFuel
    else
      var t := PlayRound(b, order, mode, f);
      var next := InitiativeOrder(t.battle, t.rest);
      var r := Rounds(t.battle, next.items, t.fled, mode, next.rest, fuel - 1);
      if r.Finished? then FoughtTransitive(b, t.battle, r.battle); r else r
  }

  /** `CombatManager.run` up to its callbacks: draw the first order, fight
      the rounds. */
  function Run(b: Battle, mode: TargetMode, f: Feed, fuel: nat): (r: CombatEnd)
    ensures r.Finished? ==> Fought(b, r.battle) && (r.fled || !BothSidesStand(r.battle))
    ensures !BothSidesStand(b) ==> r.Finished? && r.battle == b && !r.fled
  {
    var order := InitiativeOrder(b, f);
    Rounds(b, order.items, false, mode, order.rest, fuel)
  }

  /** A round in which someone flees ends the loop: the next order is
      still drawn, and the fight finishes with the battle as it stood. */
  lemma RoundsAfterFlight(b: Battle, order: seq<Slot>, mode: TargetMode, f: Feed, fuel: nat, g: Feed)
    requires Fits(b, order) && fuel >= 1 && BothSidesStand(b)
    requires PlayRound(b, order, mode, f) == Turn(b, true, g)
    ensures Rounds(b, order, false, mode, f, fuel) == Finished(b, true, InitiativeOrder(b, g).rest)
  {
    var next := InitiativeOrder(b, g);
    assert Rounds(b, next.items, true, mode, next.rest, fuel - 1) == Finished(b, true, next.rest);
  }

  /** The enemies `distribute_cb` is called for, in list order: the dead
      ones, unless the party fled. */
  function Payouts(enemies: seq<Creature>, fled: bool): (r: seq<nat>)
    ensures fled ==> r == []
    ensures !fled ==> forall j :: 0 <= j < |enemies| ==> (j in r <==> !IsAlive(enemies[j]))
    ensures forall k :: 0 <= k < |r| ==> r[k] < |enemies|
    ensures forall a, b :: 0 <= a < b < |r| ==> r[a] < r[b]
  {
    if fled then [] else DeadIndices(enemies)
  }

  function DeadIndices(cs: seq<Creature>): (r: seq<nat>)
    ensures forall k :: 0 <= k < |r| ==> r[k] < |cs| && !IsAlive(cs[r[k]])
    ensures forall j :: 0 <= j < |cs| && !IsAlive(cs[j]) ==> j in r
    ensures forall a, b :: 0 <= a < b < |r| ==> r[a] < r[b]
  {
    if |cs| == 0 then []
    else
      var prev := DeadIndices(cs[..|cs| - 1]);
      if IsAlive(cs[|cs| - 1]) then prev else prev + [|cs| - 1]
  }

  /** A fight that finishes without a flight ends with one side wholly
      down: the loop only stops early for a flight. */
  lemma FinishedFightIsDecided(b: Battle, mode: TargetMode, f: Feed, fuel: nat)
    requires Run(b, mode, f, fuel).Finished? && !Run(b, mode, f, fuel).fled
    ensures var e := Run(b, mode, f, fuel).battle;
      !AnyAlive(e.enemies) || !AnyPlayerAlive(e.players)
  {
  }
}
