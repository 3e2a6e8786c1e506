/** Player characters: class stats, levelling, equipment, the inventory and
    its protections. */
module Players {
  import opened Base
  import opened Oracle
  import opened Creatures
  import opened Items
  import opened Utils

  /** Hit points, mana, attack and defense of a class's base line. */
  datatype Stats = Stats(hp: int, mp: int, atk: real, def: real)

  /** The per-level gains, whole numbers for every class. */
  datatype Gains = Gains(hp: int, mp: int, atk: int, def: int)

  /** `class_base_stats`: Python's `level // 2` and `level // 1.5` floor. */
  function ClassBaseStats(pclass: string, level: int): Stats {
    if pclass == "Warrior" then Stats(80 + level * 10, 20 + level * 2, (12 + level * 2) as real, (8 + level) as real)
    else if pclass == "Mage" then Stats(50 + level * 6, 80 + level * 8, (8 + level) as real, (4 + level / 2) as real)
    else if pclass == "Ranger" then Stats(65 + level * 8, 40 + level * 4, 11.0 + level as real * 1.5, (6 + (2 * level) / 3) as real)
    else Stats(60, 30, 10.0, 5.0)
  }

  /** `class_level_gains`. */
  function ClassLevelGains(pclass: string): (g: Gains)
    ensures g.hp > 0 && g.mp > 0 && g.atk > 0 && g.def >= 0
  {
    if pclass == "Warrior" then Gains(10, 2, 2, 1)
    else if pclass == "Mage" then Gains(6, 8, 1, 0)
    else if pclass == "Ranger" then Gains(8, 4, 1, 1)
    else Gains(8, 3, 1, 1)
  }

  datatype Player = Player(
    body: Creature,
    pclass: string,
    xp: int,
    inventory: seq<Item>,
    weapon: Option<Weapon>,   // `equipment['weapon']`
    gold: int,
    lastHit: bool,
    pos: Pos,
    invLimit: int,
    deathCount: int)

  predicate Alive(p: Player) {
    IsAlive(p.body)
  }

  const DefaultLevel: int := 5
  const DefaultInvLimit: int := 30

  /** `Player(name, pclass, level)`: full hit points and mana from the class
      base line, nothing carried, the class's starter weapon equipped. */
  function NewPlayer(name: string, pclass: string, level: int): (p: Player)
    ensures var b := ClassBaseStats(pclass, level);
      && p.body.name == name && p.body.level == level
      && p.body.hp == p.body.maxHp == b.hp && p.body.mp == p.body.maxMp == b.mp
      && p.body.atk == b.atk && p.body.defense == b.def
      && p.body.special == None && p.body.xpValue == 0
    ensures p.pclass == pclass && p.xp == 0 && p.inventory == [] && p.gold == 0
    ensures p.weapon == Starter(pclass)
    ensures !p.lastHit && p.pos == (0, 0) && p.invLimit == DefaultInvLimit && p.deathCount == 0
  {
    var b := ClassBaseStats(pclass, level);
    Player(New(name, level, b.hp, b.mp, b.atk, b.def, None, 0), pclass, 0, [], Starter(pclass),
           0, false, (0, 0), DefaultInvLimit, 0)
  }

  // ---------------------------------------------------------------------------
  // Levelling

  /** `_apply_level_up`: add the class gains and refill hit points and mana. */
  function ApplyLevelUp(p: Player): (r: Player)
    ensures var g := ClassLevelGains(p.pclass);
      && r.body.maxHp == p.body.maxHp + g.hp && r.body.maxMp == p.body.maxMp + g.mp
      && r.body.atk == p.body.atk + g.atk as real && r.body.defense == p.body.defense + g.def as real
    ensures r.body.hp == r.body.maxHp && r.body.mp == r.body.maxMp
    ensures r == p.(body := r.body)
    ensures r.body == p.body.(maxHp := r.body.maxHp, maxMp := r.body.maxMp, atk := r.body.atk,
                              defense := r.body.defense, hp := r.body.hp, mp := r.body.mp)
  {
    var g := ClassLevelGains(p.pclass);
    var b := p.body;
    p.(body := b.(maxHp := b.maxHp + g.hp, maxMp := b.maxMp + g.mp, atk := b.atk + g.atk as real,
                  defense := b.defense + g.def as real, hp := b.maxHp + g.hp, mp := b.maxMp + g.mp))
  }

  /** `b` is `a` after `n` rounds of the gains `g`. */
  predicate GrewBy(a: Creature, b: Creature, n: int, g: Gains) {
    && b.maxHp == a.maxHp + n * g.hp && b.maxMp == a.maxMp + n * g.mp
    && b.atk == a.atk + (n * g.atk) as real && b.defense == a.defense + (n * g.def) as real
  }

  /** `level_up_check`: gain levels one at a time while below the cap and
      the experience reaches the next threshold. */
  function Climb(p: Player): Player
    decreases MaxLevel - p.body.level
  {
    if p.body.level < MaxLevel && p.xp >= XpForLevel(p.body.level + 1) then
      Climb(ApplyLevelUp(p.(body := p.body.(level := p.body.level + 1))))
    else p
  }

  /** `level_up_check` with what it promises: levels never drop or pass the
      cap, no further level is pending, a hero who gained levels is fully
      healed, only the body's stats change, and `n` levels gained add `n`
      rounds of the class gains. */
  function LevelUpCheck(p: Player): (r: Player)
    ensures r.body.level >= p.body.level
    ensures p.body.level <= MaxLevel ==> r.body.level <= MaxLevel
    ensures r.body.level >= MaxLevel || r.xp < XpForLevel(r.body.level + 1)
    ensures r.body.level > p.body.level ==> r.body.hp == r.body.maxHp && r.body.mp == r.body.maxMp
    ensures r.body.level == p.body.level ==> r == p
    ensures r == p.(body := r.body)
    ensures r.body == p.body.(level := r.body.level, maxHp := r.body.maxHp, maxMp := r.body.maxMp,
                              atk := r.body.atk, defense := r.body.defense, hp := r.body.hp, mp := r.body.mp)
    ensures GrewBy(p.body, r.body, r.body.level - p.body.level, ClassLevelGains(p.pclass))
  {
    ClimbLevels(p);
    ClimbFrame(p);
    ClimbGains(p);
    Climb(p)
  }

  /** The levels `Climb` passes: never fewer, never past the cap, and it
      stops only when no further level is paid for. */
  lemma {:induction false} ClimbLevels(p: Player)
    ensures var r := Climb(p);
      && r.body.level >= p.body.level
      && (p.body.level <= MaxLevel ==> r.body.level <= MaxLevel)
      && (r.body.level >= MaxLevel || r.xp < XpForLevel(r.body.level + 1))
      && (r.body.level > p.body.level ==> r.body.hp == r.body.maxHp && r.body.mp == r.body.maxMp)
      && (r.body.level == p.body.level ==> r == p)
    decreases MaxLevel - p.body.level
  {
    if p.body.level < MaxLevel && p.xp >= XpForLevel(p.body.level + 1) {
      var q := ApplyLevelUp(p.(body := p.body.(level := p.body.level + 1)));
      ClimbLevels(q);
    }
  }

  /** `Climb` changes nothing but the body's level and stats. */
  lemma {:induction false} ClimbFrame(p: Player)
    ensures var r := Climb(p);
      && r == p.(body := r.body)
      && r.body == p.body.(level := r.body.level, maxHp := r.body.maxHp, maxMp := r.body.maxMp,
                           atk := r.body.atk, defense := r.body.defense, hp := r.body.hp, mp := r.body.mp)
    decreases MaxLevel - p.body.level
  {
    if p.body.level < MaxLevel && p.xp >= XpForLevel(p.body.level + 1) {
      var q := ApplyLevelUp(p.(body := p.body.(level := p.body.level + 1)));
      ClimbFrame(q);
    }
  }

  /** Each level `Climb` passes adds one round of the class gains. */
  lemma {:induction false} ClimbGains(p: Player)
    ensures GrewBy(p.body, Climb(p).body, Climb(p).body.level - p.body.level, ClassLevelGains(p.pclass))
    decreases MaxLevel - p.body.level
  {
    var g := ClassLevelGains(p.pclass);
    if p.body.level < MaxLevel && p.xp >= XpForLevel(p.body.level + 1) {
      var q := ApplyLevelUp(p.(body := p.body.(level := p.body.level + 1)));
      ClimbGains(q);
      GainsChain(p.body, q.body, Climb(q).body, g);
    } else {
      GainsStep(-1, 0, g);
    }
  }

  /** Gains over one level followed by gains over `m` more make gains over
      `m + 1` levels. */
  lemma GainsChain(a: Creature, b: Creature, c: Creature, g: Gains)
    requires b.level == a.level + 1 && GrewBy(a, b, 1, g) && GrewBy(b, c, c.level - b.level, g)
    ensures GrewBy(a, c, c.level - a.level, g)
  {
    GainsStep(c.level - b.level, c.level - a.level, g);
  }

  /** One more level adds one more round of gains. */
  lemma GainsStep(m: int, n: int, g: Gains)
    requires n == m + 1
    ensures n * g.hp == m * g.hp + g.hp && n * g.mp == m * g.mp + g.mp
    ensures n * g.atk == m * g.atk + g.atk && n * g.def == m * g.def + g.def
  {
  }

  /** The level reached is exactly the highest one the experience pays for:
      every level passed was earned, and no level above it up to the cap is. */
  lemma {:induction false} LevelUpCheckIsHighest(p: Player)
    requires 0 <= p.body.level
    ensures var r := LevelUpCheck(p);
      && (forall l :: p.body.level < l <= r.body.level ==> p.xp >= XpForLevel(l))
      && (forall l :: r.body.level < l <= MaxLevel ==> p.xp < XpForLevel(l))
    decreases MaxLevel - p.body.level
  {
    var r := LevelUpCheck(p);
    if p.body.level < MaxLevel && p.xp >= XpForLevel(p.body.level + 1) {
      var q := ApplyLevelUp(p.(body := p.body.(level := p.body.level + 1)));
      LevelUpCheckIsHighest(q);
    } else {
      forall l | r.body.level < l <= MaxLevel
        ensures p.xp < XpForLevel(l)
      {
        if l > r.body.level + 1 {
          XpForLevelIncreasing(r.body.level + 1, l);
        }
      }
    }
  }

  /** A Warrior's gains match its base line: levelling a fresh level-`l`
      Warrior once gives the stats of a fresh level-`l + 1` Warrior. A Mage
      or Ranger ends up with different attack or defense, since its base
      line uses fractional steps its gains do not. */
  lemma GrowthMatchesBaseLine(l: int)
    ensures var a := ApplyLevelUp(NewPlayer("", "Warrior", l)).body; var b := NewPlayer("", "Warrior", l + 1).body;
      a.maxHp == b.maxHp && a.maxMp == b.maxMp && a.atk == b.atk && a.defense == b.defense
    ensures ApplyLevelUp(NewPlayer("", "Mage", 1)).body.defense != NewPlayer("", "Mage", 2).body.defense
    ensures ApplyLevelUp(NewPlayer("", "Ranger", 1)).body.atk != NewPlayer("", "Ranger", 2).body.atk
  {
  }

  // ---------------------------------------------------------------------------
  // Equipment and inventory

  /** Whether `equip(w)` accepts: an empty or matching class requirement and
      a high enough level. */
  predicate MayEquip(p: Player, w: Weapon) {
    (w.classReq.None? || w.classReq.value == "" || w.classReq.value == p.pclass)
    && p.body.level >= w.levelReq
  }

  datatype Outcome = Outcome(ok: bool, player: Player)

  /** `equip(w)`: on success the weapon slot holds `w`; on failure nothing
      changes. */
  function Equip(p: Player, w: Weapon): (r: Outcome)
    ensures r.ok <==> MayEquip(p, w)
    ensures r.ok ==> r.player == p.(weapon := Some(w))
    ensures !r.ok ==> r.player == p
  {
    if w.classReq.Some? && w.classReq.value != "" && w.classReq.value != p.pclass then Outcome(false, p)
    else if p.body.level < w.levelReq then Outcome(false, p)
    else Outcome(true, p.(weapon := Some(w)))
  }

  /** Every template of a player's own class can be equipped once its level
      is reached, and no template of another class ever can. */
  lemma EquipTemplates(p: Player, cls: string, k: nat)
    requires cls in WeaponClasses && k < |Pool(cls)|
    ensures Equip(p, Pool(cls)[k]).ok <==> cls == p.pclass && p.body.level >= Pool(cls)[k].levelReq
  {
  }

  /** `add_item(it)`: appends when below the limit, otherwise nothing changes. */
  function AddItem(p: Player, it: Item): (r: Outcome)
    ensures r.ok <==> |p.inventory| < p.invLimit
    ensures r.ok ==> r.player == p.(inventory := p.inventory + [it])
    ensures !r.ok ==> r.player == p
  {
    if |p.inventory| >= p.invLimit then Outcome(false, p)
    else Outcome(true, p.(inventory := p.inventory + [it]))
  }

  datatype Sale = Sale(price: int, item: Item, player: Player)

  /** `sell_item(idx)`: the item at the Python index `idx` is removed and
      its price added to the player's gold, unless the index is out of range
      or the item has no sell price. */
  function SellItem(p: Player, idx: int): (r: Option<Sale>)
    ensures r.Some? <==> PyIndexOk(|p.inventory|, idx)
                         && EstimateSellPrice(p.inventory[PyIndex(|p.inventory|, idx)]).Some?
    ensures r.Some? ==>
      var i := PyIndex(|p.inventory|, idx);
      && r.value.item == p.inventory[i]
      && r.value.price == EstimateSellPrice(r.value.item).value
      && r.value.player == p.(inventory := RemoveAt(p.inventory, i), gold := p.gold + r.value.price)
      && !Protected(r.value.item)
  {
    if !PyIndexOk(|p.inventory|, idx) then None
    else
      var i := PyIndex(|p.inventory|, idx);
      var it := p.inventory[i];
      var price := EstimateSellPrice(it);
      if price.None? then None
      else
        SellableIsUnprotected(it);
        Some(Sale(price.value, it, p.(inventory := RemoveAt(p.inventory, i), gold := p.gold + price.value)))
  }

  /** Adding a sellable item and selling the last entry gives back the
      player as before, richer by the item's price. */
  lemma AddThenSellLast(p: Player, it: Item)
    requires |p.inventory| < p.invLimit && EstimateSellPrice(it).Some?
    ensures var q := AddItem(p, it).player; var price := EstimateSellPrice(it).value;
      SellItem(q, -1) == Some(Sale(price, it, p.(gold := p.gold + price)))
  {
    var q := AddItem(p, it).player;
    assert RemoveAt(q.inventory, |p.inventory|) == p.inventory;
  }

  // ---------------------------------------------------------------------------
  // Random loss

  /** The positions `lose_random_items` may take from, ascending. */
  function LossCandidates(inv: seq<Item>): (r: seq<nat>)
    ensures forall k :: 0 <= k < |r| ==> r[k] < |inv| && !Protected(inv[r[k]])
    ensures forall i :: 0 <= i < |inv| && !Protected(inv[i]) ==> i in r
    ensures forall a, b :: 0 <= a < b < |r| ==> r[a] < r[b]
  {
    if |inv| == 0 then []
    else
      var prev := LossCandidates(inv[..|inv| - 1]);
      if Protected(inv[|inv| - 1]) then prev else prev + [|inv| - 1]
  }

  datatype Loss = Loss(player: Player, removed: seq<Item>, rest: Feed)

  /** `lose_random_items(count)`: a sample of up to `count` unprotected
      items is removed; revive tokens and super-rare, bound or starter
      weapons always stay, and the rest keep their order. */
  function LoseRandomItems(p: Player, count: nat, f: Feed): (r: Loss)
    ensures multiset(r.player.inventory) + multiset(r.removed) == multiset(p.inventory)
    ensures |r.removed| == Min(count, |LossCandidates(p.inventory)|)
    ensures forall k :: 0 <= k < |r.removed| ==> !Protected(r.removed[k])
    ensures forall i :: 0 <= i < |p.inventory| && Protected(p.inventory[i]) ==> p.inventory[i] in r.player.inventory
    ensures r.player == p.(inventory := r.player.inventory)
    ensures |LossCandidates(p.inventory)| == 0 ==> r == Loss(p, [], f)
    ensures |LossCandidates(p.inventory)| > 0 ==>
      var picks := Sample(f, LossCandidates(p.inventory), Min(|LossCandidates(p.inventory)|, count));
      r.player.inventory == Unpicked(p.inventory, picks.items, 0) && r.rest == picks.rest
  {
    var candidates := LossCandidates(p.inventory);
    if |candidates| == 0 then Loss(p, [], f)
    else
      var picks := Sample(f, candidates, Min(|candidates|, count));
      var split := PopPicked(p.inventory, picks.items);
      LossFacts(p.inventory, candidates, picks.items);
      PopPickedKeepsOrder(p.inventory, picks.items);
      Loss(p.(inventory := split.kept), split.removed, picks.rest)
  }

  lemma LossFacts(inv: seq<Item>, candidates: seq<nat>, picks: seq<nat>)
    requires candidates == LossCandidates(inv)
    requires multiset(picks) <= multiset(candidates)
    requires Distinct(candidates) ==> Distinct(picks)
    ensures var split := PopPicked(inv, picks);
      && multiset(split.kept) + multiset(split.removed) == multiset(inv)
      && |split.removed| == |picks|
      && (forall k :: 0 <= k < |split.removed| ==> !Protected(split.removed[k]))
      && (forall i :: 0 <= i < |inv| && Protected(inv[i]) ==> inv[i] in split.kept)
  {
    var split := PopPicked(inv, picks);
    PopPickedPermutes(inv, picks);
    assert Distinct(candidates);
    forall t | 0 <= t < |picks|
      ensures picks[t] in candidates
    {
      assert picks[t] in multiset(picks);
    }
    PickedBelowAll(|inv|, picks);
  }

  // ---------------------------------------------------------------------------
  // Attack

  datatype Damage = Damage(value: real, rest: Feed)

  /** `attack_damage()`: attack plus the weapon's roll, plus a variance in
      [-2, 2], and never below 1. */
  function AttackDamage(p: Player, f: Feed): (r: Damage)
    ensures r.value >= 1.0
    ensures var (lo, hi) := WeaponRange(p);
      MaxReal(1.0, p.body.atk + (lo - 2) as real) <= r.value <= MaxReal(1.0, p.body.atk + (hi + 2) as real)
  {
    var w := if p.weapon.Some? then RandInt(f, p.weapon.value.range.0, p.weapon.value.range.1) else Roll(0, f);
    var v := RandInt(w.rest, -2, 2);
    Damage(MaxReal(1.0, p.body.atk + (w.value + v.value) as real), v.rest)
  }

  /** The span a weapon roll adds to the attack; no weapon adds exactly 0. */
  function WeaponRange(p: Player): DamageRange {
    if p.weapon.Some? then p.weapon.value.range else (0, 0)
  }

  /** Every weapon roll and variance in range is reachable: the script
      naming them yields exactly that damage. */
  lemma AttackDamageReaches(p: Player, d: int, v: int, rest: seq<int>, lines: seq<string>)
    requires WeaponRange(p).0 <= d <= WeaponRange(p).1 && -2 <= v <= 2
    ensures var rolls := (if p.weapon.Some? then [d - WeaponRange(p).0] else []) + [v + 2] + rest;
      AttackDamage(p, Feed(rolls, lines)) == Damage(MaxReal(1.0, p.body.atk + (d + v) as real), Feed(rest, lines))
  {
    var f := Feed((if p.weapon.Some? then [d - WeaponRange(p).0] else []) + [v + 2] + rest, lines);
    if p.weapon.Some? {
      RandIntReaches(WeaponRange(p).0, WeaponRange(p).1, d, [v + 2] + rest, lines);
      assert f.rolls == [d - WeaponRange(p).0] + ([v + 2] + rest);
    }
    RandIntReaches(-2, 2, v, rest, lines);
  }
}
