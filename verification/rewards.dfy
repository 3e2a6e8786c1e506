/** The callbacks the game hands to every fight: experience, gold and loot
    for each dead enemy (`distribute_xp_loot`), then death handling
    (`handle_deaths` with `ensure_equipped_weapon`). */
module Rewards {
  import opened Base
  import opened Oracle
  import opened Creatures
  import opened Items
  import opened Utils
  import opened Players
  import opened Loot
  import opened Combat

  // ---------------------------------------------------------------------------
  // Counting the living

  function Living(ps: seq<Player>): seq<nat> {
    AliveIndices(Bodies(ps))
  }

  lemma {:induction false} AliveCount(cs: seq<Creature>)
    ensures |AliveIndices(cs)| <= |cs|
    decreases |cs|
  {
    if |cs| > 0 {
      AliveCount(cs[..|cs| - 1]);
    }
  }

  /** With exactly one survivor, the survivor is `alive[0]`. */
  lemma SoleSurvivor(ps: seq<Player>, k: nat)
    requires k < |ps| && Alive(ps[k]) && |Living(ps)| == 1
    ensures Living(ps)[0] == k
  {
    assert IsAlive(Bodies(ps)[k]);
  }

  // ---------------------------------------------------------------------------
  // Experience

  /** `getattr(enemy, 'xp_value', 0) or (10 + enemy.level * 5)`. */
  function BaseXp(e: Creature): (r: int)
    ensures e.xpValue != 0 ==> r == e.xpValue
    ensures e.xpValue == 0 ==> r == 10 + 5 * e.level
    ensures e.xpValue == 0 && e.level >= 0 ==> r >= 10
    ensures e.xpValue > 0 || (e.xpValue == 0 && e.level >= 0) ==> r > 0
  {
    if e.xpValue != 0 then e.xpValue else 10 + 5 * e.level
  }

  /** The last participant whose blow killed something. */
  function LastHitter(ps: seq<Player>): (r: Option<nat>)
    ensures r.Some? ==> r.value < |ps| && ps[r.value].lastHit
    ensures r.Some? ==> forall k :: r.value < k < |ps| ==> !ps[k].lastHit
    ensures r.None? ==> forall k :: 0 <= k < |ps| ==> !ps[k].lastHit
  {
    if |ps| == 0 then None
    else if ps[|ps| - 1].lastHit then Some(|ps| - 1)
    else LastHitter(ps[..|ps| - 1])
  }

  /** `last_hit_players[-1] if last_hit_players else random.choice(alive)`:
      the roll is drawn only when nobody holds the flag. */
  function PickWinner(ps: seq<Player>, f: Feed): (r: Roll)
    requires LastHitter(ps).Some? || |Living(ps)| > 0
    ensures 0 <= r.value < |ps|
    ensures LastHitter(ps).Some? ==> r == Roll(LastHitter(ps).value, f)
    ensures LastHitter(ps).None? ==> Alive(ps[r.value])
  {
    match LastHitter(ps)
    case Some(w) => Roll(w, f)
    case None =>
      var alive := Living(ps);
      var c := Below(f, |alive|);
      assert IsAlive(Bodies(ps)[alive[c.value]]);
      Roll(alive[c.value], c.rest)
  }

  /** What participant `k` gains from an enemy worth `base`, as the split
      is meant: with `n > 1` survivors each gets `base // n` and the winner
      also the remainder; a lone survivor gets all of it. */
  function Gain(ps: seq<Player>, base: int, winner: nat, k: nat): int
    requires k < |ps|
  {
    var n := |Living(ps)|;
    (if Alive(ps[k]) then (if n > 1 then base / n else base) else 0)
      + (if n > 1 && k == winner then base % n else 0)
  }

  function AddXp(ps: seq<Player>, k: nat, amount: int): (r: seq<Player>)
    requires k < |ps|
    ensures |r| == |ps|
  {
    ps[k := ps[k].(xp := ps[k].xp + amount)]
  }

  function SplitAmongLiving(ps: seq<Player>, share: int): (r: seq<Player>)
    ensures |r| == |ps|
    ensures forall k :: 0 <= k < |ps| ==> r[k] == if Alive(ps[k]) then ps[k].(xp := ps[k].xp + share) else ps[k]
  {
    seq(|ps|, k requires 0 <= k < |ps| => if Alive(ps[k]) then ps[k].(xp := ps[k].xp + share) else ps[k])
  }

  /** The general rule with `n > 1` survivors: `xp // n` to each of them
      and the remainder to the winner. */
  lemma SplitGains(ps: seq<Player>, base: int, winner: nat)
    requires winner < |ps| && |Living(ps)| > 1
    ensures var n := |Living(ps)|;
      var r := AddXp(SplitAmongLiving(ps, base / n), winner, base - base / n * n);
      forall k :: 0 <= k < |ps| ==> r[k] == ps[k].(xp := ps[k].xp + Gain(ps, base, winner, k))
  {
    var n := |Living(ps)|;
    assert base - base / n * n == base % n;
  }

  /** A lone survivor `alive[0]` takes everything. */
  lemma SoleGains(ps: seq<Player>, base: int, winner: nat)
    requires winner < |ps| && |Living(ps)| == 1
    ensures var r := AddXp(ps, Living(ps)[0], base);
      forall k :: 0 <= k < |ps| ==> r[k] == ps[k].(xp := ps[k].xp + Gain(ps, base, winner, k))
  {
    forall k | 0 <= k < |ps| && Alive(ps[k])
      ensures Living(ps)[0] == k
    {
      SoleSurvivor(ps, k);
    }
  }

  /** The experience part of `distribute_xp_loot`, branch by branch: the
      two-player rule first, then the general one. Both agree with `Gain`. */
  function ShareXp(ps: seq<Player>, base: int, winner: nat): (r: seq<Player>)
    requires winner < |ps| && |Living(ps)| > 0
    ensures |r| == |ps|
    ensures forall k :: 0 <= k < |ps| ==> r[k] == ps[k].(xp := ps[k].xp + Gain(ps, base, winner, k))
  {
    var alive := Living(ps);
    AliveCount(Bodies(ps));
    if |ps| == 2 then
      if |alive| == 2 then
        var share := base / 2;
        SplitGains(ps, base, winner);
        AddXp(SplitAmongLiving(ps, share), winner, base - share * 2)
      else
        SoleGains(ps, base, winner);
        AddXp(ps, alive[0], base)
    else if |ps| > 1 && |alive| > 1 then
      var share := base / |alive|;
      SplitGains(ps, base, winner);
      AddXp(SplitAmongLiving(ps, share), winner, base - share * |alive|)
    else
      SoleGains(ps, base, winner);
      AddXp(ps, alive[0], base)
  }

  function Xps(ps: seq<Player>): (r: seq<int>)
    ensures |r| == |ps| && forall k :: 0 <= k < |ps| ==> r[k] == ps[k].xp
  {
    seq(|ps|, k requires 0 <= k < |ps| => ps[k].xp)
  }

  function Gains(ps: seq<Player>, base: int, winner: nat): (r: seq<int>)
    ensures |r| == |ps| && forall k :: 0 <= k < |ps| ==> r[k] == Gain(ps, base, winner, k)
  {
    seq(|ps|, k requires 0 <= k < |ps| => Gain(ps, base, winner, k))
  }

  lemma {:induction false} SumPlus(a: seq<int>, b: seq<int>, c: seq<int>)
    requires |a| == |b| == |c|
    requires forall k :: 0 <= k < |a| ==> c[k] == a[k] + b[k]
    ensures Sum(c) == Sum(a) + Sum(b)
    decreases |a|
  {
    if |a| > 0 {
      var n := |a| - 1;
      SumPlus(a[..n], b[..n], c[..n]);
    }
  }

  /** The living players of `ps` without its last entry. */
  lemma LivingFront(ps: seq<Player>)
    requires |ps| > 0
    ensures var n := |ps| - 1;
      Living(ps) == if Alive(ps[n]) then Living(ps[..n]) + [n] else Living(ps[..n])
  {
    var n := |ps| - 1;
    assert Bodies(ps)[..n] == Bodies(ps[..n]);
  }

  lemma {:induction false} SumShares(ps: seq<Player>, share: int, v: seq<int>)
    requires |v| == |ps|
    requires forall k :: 0 <= k < |ps| ==> v[k] == if Alive(ps[k]) then share else 0
    ensures Sum(v) == |Living(ps)| * share
    decreases |ps|
  {
    if |ps| > 0 {
      var n := |ps| - 1;
      var m := |Living(ps[..n])|;
      SumShares(ps[..n], share, v[..n]);
      LivingFront(ps);
      assert Sum(v) == m * share + v[n];
      MulSucc(m, share);
    }
  }

  lemma MulSucc(m: int, share: int)
    ensures (m + 1) * share == m * share + share
  {
  }

  lemma {:induction false} SumSingle(v: seq<int>, w: nat, amount: int)
    requires w < |v|
    requires forall k :: 0 <= k < |v| ==> v[k] == if k == w then amount else 0
    ensures Sum(v) == amount
    decreases |v|
  {
    var n := |v| - 1;
    if n > w {
      SumSingle(v[..n], w, amount);
    } else {
      SumZero(v[..n]);
    }
  }

  lemma {:induction false} SumZero(v: seq<int>)
    requires forall k :: 0 <= k < |v| ==> v[k] == 0
    ensures Sum(v) == 0
    decreases |v|
  {
    if |v| > 0 {
      SumZero(v[..|v| - 1]);
    }
  }

  /** The split hands out exactly `base`: nothing is lost to rounding. */
  lemma GainsTotal(ps: seq<Player>, base: int, winner: nat)
    requires winner < |ps| && |Living(ps)| > 0
    ensures Sum(Gains(ps, base, winner)) == base
  {
    var n := |Living(ps)|;
    var g := Gains(ps, base, winner);
    if n > 1 {
      var shares := seq(|ps|, k requires 0 <= k < |ps| => if Alive(ps[k]) then base / n else 0);
      var bonus := seq(|ps|, k requires 0 <= k < |ps| => if k == winner then base % n else 0);
      SumShares(ps, base / n, shares);
      SumSingle(bonus, winner, base % n);
      SumPlus(shares, bonus, g);
    } else {
      SumShares(ps, base, g);
    }
  }

  // ---------------------------------------------------------------------------
  // distribute_xp_loot

  datatype Award = Award(players: seq<Player>, winner: Option<nat>, rest: Feed)

  predicate EliteKeyHolder(e: Creature) {
    e.special == Some("elite_key")
  }

  /** `distribute_xp_loot(enemy, players)`: with nobody alive nothing
      happens; otherwise the experience is shared, the winner takes the
      loot (the ruins key from the elite, else a dropped weapon, wrapped as
      an item) and `randint(5, 15) * level` gold; then every flag is cleared
      and everyone's level is checked (`Tidy`, which leaves no flag set and
      no level up pending). `DistributedXp` and `DistributedSpoils` state
      what each participant gets. */
  function DistributeXpLoot(e: Creature, ps: seq<Player>, f: Feed): (r: Award)
    ensures |r.players| == |ps|
    ensures |Living(ps)| == 0 <==> r.winner.None?
    ensures |Living(ps)| == 0 ==> r == Award(ps, None, f)
    ensures r.winner.Some? ==> r.winner.value < |ps|
    ensures r.winner.Some? && LastHitter(ps).Some? ==> r.winner == LastHitter(ps)
    ensures r.winner.Some? && LastHitter(ps).None? ==> Alive(ps[r.winner.value])
  {
    if |Living(ps)| == 0 then Award(ps, None, f)
    else
      var w := PickWinner(ps, f);
      var s := Spoils(e, ShareXp(ps, BaseXp(e), w.value), w.value, w.rest);
      Award(Tidy(s.players), Some(w.value), s.rest)
  }

  /** The winner's loot and gold, drawn after the experience is shared. */
  function Spoils(e: Creature, ps: seq<Player>, w: nat, f: Feed): (r: Payout)
    requires w < |ps|
    ensures |r.players| == |ps|
    ensures forall k :: 0 <= k < |ps| && k != w ==> r.players[k] == ps[k]
    ensures r.players[w] == ps[w].(inventory := r.players[w].inventory, gold := r.players[w].gold)
    ensures e.level >= 0 ==> ps[w].gold + 5 * e.level <= r.players[w].gold <= ps[w].gold + 15 * e.level
    ensures EliteKeyHolder(e) ==> r.players[w].inventory == ps[w].inventory + [KeyItem]
    ensures !EliteKeyHolder(e) ==>
      r.players[w].inventory == ps[w].inventory
      || exists t :: t in AllWeapons && r.players[w].inventory == ps[w].inventory + [WrapWeapon(t)]
  {
    var drop := GenerateLoot(e.level, f);
    var g := RandInt(drop.rest, 5, 15);
    Payout(ps[w := Paid(ps[w], e, drop.weapon, g.value)], g.rest)
  }

  /** Each participant's experience grows by their `Gain`. */
  lemma DistributedXp(e: Creature, ps: seq<Player>, f: Feed, k: nat)
    requires k < |ps| && |Living(ps)| > 0
    ensures var r := DistributeXpLoot(e, ps, f);
      r.players[k].xp == ps[k].xp + Gain(ps, BaseXp(e), r.winner.value, k)
  {
  }

  /** Only the winner's inventory and gold change: the key from the elite,
      otherwise at most one weapon from `WEAPONS`, and between `5 * level`
      and `15 * level` gold. */
  lemma DistributedSpoils(e: Creature, ps: seq<Player>, f: Feed, k: nat)
    requires k < |ps| && |Living(ps)| > 0
    ensures var r := DistributeXpLoot(e, ps, f);
      var w := r.winner.value;
      var before := ps[k];
      var after := r.players[k];
      && (k != w ==> after.inventory == before.inventory && after.gold == before.gold)
      && (k == w && e.level >= 0 ==> before.gold + 5 * e.level <= after.gold <= before.gold + 15 * e.level)
      && (k == w && EliteKeyHolder(e) ==> after.inventory == before.inventory + [KeyItem])
      && (k == w && !EliteKeyHolder(e) ==>
            after.inventory == before.inventory
            || exists t :: t in AllWeapons && after.inventory == before.inventory + [WrapWeapon(t)])
  {
  }

  /** The winner's share of the spoils. */
  function Paid(p: Player, e: Creature, loot: Option<Weapon>, g: int): (r: Player)
    requires 5 <= g <= 15
    ensures r == p.(inventory := r.inventory, gold := r.gold)
    ensures e.level >= 0 ==> p.gold + 5 * e.level <= r.gold <= p.gold + 15 * e.level
    ensures EliteKeyHolder(e) ==> r.inventory == p.inventory + [KeyItem]
    ensures !EliteKeyHolder(e) && loot.Some? ==> r.inventory == p.inventory + [WrapWeapon(loot.value)]
    ensures !EliteKeyHolder(e) && loot.None? ==> r.inventory == p.inventory
  {
    var inv := if EliteKeyHolder(e) then p.inventory + [KeyItem]
               else if loot.Some? then p.inventory + [WrapWeapon(loot.value)]
               else p.inventory;
    assert e.level >= 0 ==> 5 * e.level <= g * e.level <= 15 * e.level;
    p.(inventory := inv, gold := p.gold + g * e.level)
  }

  /** `p.last_hit = False` for everyone, then `p.level_up_check()`. */
  function Tidy(ps: seq<Player>): (r: seq<Player>)
    ensures |r| == |ps|
    ensures forall k :: 0 <= k < |ps| ==> r[k] == ps[k].(lastHit := false, body := r[k].body)
    ensures forall k :: 0 <= k < |ps| ==>
      r[k].body.level >= MaxLevel || r[k].xp < XpForLevel(r[k].body.level + 1)
  {
    seq(|ps|, k requires 0 <= k < |ps| => LevelUpCheck(ps[k].(lastHit := false)))
  }

  /** The experience handed out for one enemy is exactly its base value,
      as long as somebody is alive to receive it. */
  lemma DistributedXpTotal(e: Creature, ps: seq<Player>, f: Feed)
    requires |Living(ps)| > 0
    ensures Sum(Xps(DistributeXpLoot(e, ps, f).players)) == Sum(Xps(ps)) + BaseXp(e)
  {
    var r := DistributeXpLoot(e, ps, f);
    var w := r.winner.value;
    GainsTotal(ps, BaseXp(e), w);
    forall k | 0 <= k < |ps|
      ensures Xps(r.players)[k] == Xps(ps)[k] + Gains(ps, BaseXp(e), w)[k]
    {
      DistributedXp(e, ps, f, k);
    }
    SumPlus(Xps(ps), Gains(ps, BaseXp(e), w), Xps(r.players));
  }

  // ---------------------------------------------------------------------------
  // ensure_equipped_weapon

  predicate SuperRareItem(it: Item) {
    it.kind == "weapon" && IsSuperRare(ResolveWeapon(it))
  }

  function FirstSuperRare(inv: seq<Item>): (r: Option<nat>)
    ensures r.Some? ==> r.value < |inv| && SuperRareItem(inv[r.value])
    ensures r.Some? ==> forall k :: 0 <= k < r.value ==> !SuperRareItem(inv[k])
    ensures r.None? ==> forall k :: 0 <= k < |inv| ==> !SuperRareItem(inv[k])
  {
    if |inv| == 0 then None
    else if SuperRareItem(inv[0]) then Some(0)
    else match FirstSuperRare(inv[1..])
      case Some(k) => Some(k + 1)
      case None => None
  }

  predicate HasWeaponNamed(inv: seq<Item>, name: string) {
    exists k :: 0 <= k < |inv| && inv[k].kind == "weapon" && inv[k].name == name
  }

  /** `ensure_equipped_weapon`: the first super-rare weapon carried is
      equipped; failing that, an empty slot gets the class starter, which is
      also put in the inventory unless a weapon of that name is there. */
  function EnsureEquippedWeapon(p: Player): (r: Player)
    ensures r == p.(inventory := r.inventory, weapon := r.weapon)
    ensures FirstSuperRare(p.inventory).Some? ==>
      r.inventory == p.inventory && IsSuperRare(r.weapon) && r.weapon == ResolveWeapon(p.inventory[FirstSuperRare(p.inventory).value])
    ensures FirstSuperRare(p.inventory).None? && p.weapon.Some? ==> r == p
    ensures r.weapon.None? <==> FirstSuperRare(p.inventory).None? && p.weapon.None? && Starter(p.pclass).None?
    ensures FirstSuperRare(p.inventory).None? && p.weapon.None? && Starter(p.pclass).Some? ==>
      && r.weapon == Starter(p.pclass)
      && HasWeaponNamed(r.inventory, Starter(p.pclass).value.name)
      && (r.inventory == p.inventory || r.inventory == p.inventory + [WrapWeapon(Starter(p.pclass).value)])
    ensures r.inventory == p.inventory
         || (Starter(p.pclass).Some? && r.inventory == p.inventory + [WrapWeapon(Starter(p.pclass).value)])
  {
    match FirstSuperRare(p.inventory)
    case Some(k) => p.(weapon := ResolveWeapon(p.inventory[k]))
    case None =>
      if p.weapon.Some? || Starter(p.pclass).None? then p
      else
        var s := Starter(p.pclass).value;
        var inv := if HasWeaponNamed(p.inventory, s.name) then p.inventory else p.inventory + [WrapWeapon(s)];
        assert !HasWeaponNamed(p.inventory, s.name) ==> inv[|p.inventory|] == WrapWeapon(s);
        p.(inventory := inv, weapon := Some(s))
  }

  /** Running it twice changes nothing more: a starter it adds is never
      super-rare, and once a weapon is equipped the slot is left alone. */
  lemma EnsureEquippedIdempotent(p: Player)
    ensures EnsureEquippedWeapon(EnsureEquippedWeapon(p)) == EnsureEquippedWeapon(p)
  {
    var q := EnsureEquippedWeapon(p);
    if FirstSuperRare(p.inventory).None? && p.weapon.None? && Starter(p.pclass).Some? {
      var s := Starter(p.pclass).value;
      assert ResolveWeapon(WrapWeapon(s)) == Some(s);
      assert !SuperRareItem(WrapWeapon(s));
      assert forall k :: 0 <= k < |q.inventory| ==> !SuperRareItem(q.inventory[k]);
    }
  }

  // ---------------------------------------------------------------------------
  // handle_deaths

  function FirstRevive(inv: seq<Item>): (r: Option<nat>)
    ensures r.Some? ==> r.value < |inv| && inv[r.value].kind == "revive"
    ensures r.Some? ==> forall k :: 0 <= k < r.value ==> inv[k].kind != "revive"
    ensures r.None? ==> forall k :: 0 <= k < |inv| ==> inv[k].kind != "revive"
  {
    if |inv| == 0 then None
    else if inv[0].kind == "revive" then Some(0)
    else match FirstRevive(inv[1..])
      case Some(k) => Some(k + 1)
      case None => None
  }

  /** Back at the entrance with half hit points (at least 1) and half mana
      (floored), and a weapon in hand. */
  function Respawn(p: Player, start: Pos): (r: Player)
    ensures r.pos == start && Alive(r)
    ensures r.body == p.body.(hp := Max(1, p.body.maxHp / 2), mp := Max(0, p.body.maxMp / 2))
    ensures r == p.(pos := start, body := r.body, inventory := r.inventory, weapon := r.weapon)
    ensures r.inventory == p.inventory
         || (Starter(p.pclass).Some? && r.inventory == p.inventory + [WrapWeapon(Starter(p.pclass).value)])
  {
    EnsureEquippedWeapon(p.(pos := start, body := p.body.(hp := Max(1, p.body.maxHp / 2), mp := Max(0, p.body.maxMp / 2))))
  }

  datatype Fate = Fate(player: Player, lost: seq<Item>, rest: Feed)

  /** What `handle_deaths` guarantees about one fallen player `p`, whatever
      was rolled: respawned at `start`; with a revive token the first token
      is spent and nothing else is lost; without one the death count goes
      up, up to `min(death_count, 30)` gold is taken and between one and
      three unprotected items are lost (fewer only if there are not
      enough). A starter weapon may be appended at the end. */
  predicate Respawned(p: Player, q: Player, lost: seq<Item>, start: Pos) {
    var n := |p.inventory| - |lost| - (if FirstRevive(p.inventory).Some? then 1 else 0);
    && 0 <= n <= |q.inventory|
    && var kept := q.inventory[..n];
    && q.pos == start && Alive(q)
    && q.body == p.body.(hp := Max(1, p.body.maxHp / 2), mp := Max(0, p.body.maxMp / 2))
    && q == p.(pos := q.pos, body := q.body, inventory := q.inventory, weapon := q.weapon,
               gold := q.gold, deathCount := q.deathCount)
    && (q.inventory == kept
        || (Starter(p.pclass).Some? && q.inventory == kept + [WrapWeapon(Starter(p.pclass).value)]))
    && (FirstRevive(p.inventory).Some? ==>
          && lost == [] && q.gold == p.gold && q.deathCount == p.deathCount
          && kept == RemoveAt(p.inventory, FirstRevive(p.inventory).value))
    && (FirstRevive(p.inventory).None? ==>
          && q.deathCount == p.deathCount + 1
          && q.gold == Max(0, p.gold - Min(p.gold, Min(p.deathCount + 1, 30)))
          && |lost| <= 3 && |lost| <= |LossCandidates(p.inventory)|
          && (|LossCandidates(p.inventory)| > 0 ==> |lost| >= 1)
          && (forall k :: 0 <= k < |lost| ==> !Protected(lost[k]))
          && multiset(kept) + multiset(lost) == multiset(p.inventory)
          && (forall i :: 0 <= i < |p.inventory| && Protected(p.inventory[i]) ==> p.inventory[i] in kept))
  }

  /** The death penalty before any items go: the death is counted and
      `min(death_count, 30)` gold is taken, never more than is carried. */
  function Docked(p: Player): (r: Player)
    ensures r.gold == Max(0, p.gold - Min(p.gold, Min(p.deathCount + 1, 30)))
    ensures r == p.(deathCount := p.deathCount + 1, gold := r.gold)
  {
    var dc := p.deathCount + 1;
    var lost := Min(p.gold, Min(dc, 30));
    p.(deathCount := dc, gold := Max(0, p.gold - lost))
  }

  /** One fallen player, as `handle_deaths` treats them. */
  function Fall(p: Player, start: Pos, f: Feed): (r: Fate)
    ensures Respawned(p, r.player, r.lost, start)
    ensures FirstRevive(p.inventory).Some? ==> r.rest == f
  {
    match FirstRevive(p.inventory)
    case Some(i) =>
      RevivedFall(p, start);
      Fate(Respawn(p.(inventory := RemoveAt(p.inventory, i)), start), [], f)
    case None =>
      var n := RandInt(f, 1, 3);
      var loss := LoseRandomItems(Docked(p), n.value, n.rest);
      PenaltyFall(p, start, n.value, n.rest);
      Fate(Respawn(loss.player, start), loss.removed, loss.rest)
  }

  lemma RevivedFall(p: Player, start: Pos)
    requires FirstRevive(p.inventory).Some?
    ensures var i := FirstRevive(p.inventory).value;
      Respawned(p, Respawn(p.(inventory := RemoveAt(p.inventory, i)), start), [], start)
  {
    var i := FirstRevive(p.inventory).value;
    var q := Respawn(p.(inventory := RemoveAt(p.inventory, i)), start);
    assert q.inventory[..|p.inventory| - 1] == RemoveAt(p.inventory, i);
  }

  lemma PenaltyFall(p: Player, start: Pos, n: int, f: Feed)
    requires FirstRevive(p.inventory).None? && 1 <= n <= 3
    ensures var loss := LoseRandomItems(Docked(p), n, f);
      Respawned(p, Respawn(loss.player, start), loss.removed, start)
  {
    var loss := LoseRandomItems(Docked(p), n, f);
    RespawnAfterLoss(p, n, loss.player, loss.removed, start);
  }

  /** The respawn after a penalty, from what `LoseRandomItems` promises
      about the docked player. */
  lemma RespawnAfterLoss(p: Player, n: int, after: Player, removed: seq<Item>, start: Pos)
    requires FirstRevive(p.inventory).None? && 1 <= n <= 3
    requires multiset(after.inventory) + multiset(removed) == multiset(p.inventory)
    requires |removed| == Min(n, |LossCandidates(p.inventory)|)
    requires forall k :: 0 <= k < |removed| ==> !Protected(removed[k])
    requires forall i :: 0 <= i < |p.inventory| && Protected(p.inventory[i]) ==> p.inventory[i] in after.inventory
    requires after == Docked(p).(inventory := after.inventory)
    ensures Respawned(p, Respawn(after, start), removed, start)
  {
    var q := Respawn(after, start);
    var m := |p.inventory| - |removed|;
    assert |after.inventory| == m by {
      assert |multiset(after.inventory)| + |multiset(removed)| == |multiset(p.inventory)|;
    }
    assert q.inventory[..m] == after.inventory;
  }

  /** The players after `handle_deaths`, and what each of them lost. */
  datatype Fates = Fates(players: seq<Player>, losses: seq<seq<Item>>, rest: Feed)

  /** What `handle_deaths` does to one player: nothing if they are alive,
      otherwise a respawn. */
  predicate Handled(p: Player, q: Player, lost: seq<Item>, start: Pos) {
    if Alive(p) then q == p && lost == [] else Respawned(p, q, lost, start)
  }

  /** One player's turn in `handle_deaths`. */
  function Attend(p: Player, start: Pos, f: Feed): (r: Fate)
    ensures Alive(r.player)
    ensures Alive(p) ==> r == Fate(p, [], f)
  {
    if Alive(p) then Fate(p, [], f) else Fall(p, start, f)
  }

  lemma AttendHandled(p: Player, start: Pos, f: Feed)
    ensures var r := Attend(p, start, f);
      Handled(p, r.player, r.lost, start)
  {
  }

  /** `handle_deaths(players)`: each fallen player in list order; the
      living are left alone (`HandleDeathsEach` says what happens to each). */
  function HandleDeaths(ps: seq<Player>, start: Pos, f: Feed): (r: Fates)
    ensures |r.players| == |ps| && |r.losses| == |ps|
    ensures forall k :: 0 <= k < |ps| ==> Alive(r.players[k])
    ensures (forall k :: 0 <= k < |ps| ==> Alive(ps[k])) ==> r.players == ps && r.rest == f
    decreases |ps|
  {
    if |ps| == 0 then Fates([], [], f)
    else
      var head := Attend(ps[0], start, f);
      var tail := HandleDeaths(ps[1..], start, head.rest);
      var r := Fates([head.player] + tail.players, [head.lost] + tail.losses, tail.rest);
      JoinedFates(ps, f, head, tail, r);
      r
  }

  /** The first player's fate put in front of the others'. */
  lemma JoinedFates(ps: seq<Player>, f: Feed, head: Fate, tail: Fates, r: Fates)
    requires |ps| > 0 && |tail.players| == |ps| - 1 && |tail.losses| == |ps| - 1
    requires Alive(head.player) && forall k :: 0 <= k < |tail.players| ==> Alive(tail.players[k])
    requires Alive(ps[0]) ==> head == Fate(ps[0], [], f)
    requires (forall k :: 1 <= k < |ps| ==> Alive(ps[k])) ==> tail.players == ps[1..] && tail.rest == head.rest
    requires r == Fates([head.player] + tail.players, [head.lost] + tail.losses, tail.rest)
    ensures |r.players| == |ps| && |r.losses| == |ps|
    ensures forall k :: 0 <= k < |ps| ==> Alive(r.players[k])
    ensures (forall k :: 0 <= k < |ps| ==> Alive(ps[k])) ==> r.players == ps && r.rest == f
  {
    forall k | 0 <= k < |ps| ensures Alive(r.players[k]) {
      if k > 0 {
        assert r.players[k] == tail.players[k - 1];
      }
    }
    if forall k :: 0 <= k < |ps| ==> Alive(ps[k]) {
      assert forall k :: 1 <= k < |ps| ==> Alive(ps[k]);
      assert ps == [ps[0]] + ps[1..];
    }
  }

  /** Every player comes out of `handle_deaths` as `Handled` says: a living
      one untouched, a fallen one respawned. */
  lemma {:induction false} HandleDeathsEach(ps: seq<Player>, start: Pos, f: Feed, k: nat)
    requires k < |ps|
    ensures var r := HandleDeaths(ps, start, f);
      Handled(ps[k], r.players[k], r.losses[k], start)
    decreases k
  {
    var head := Attend(ps[0], start, f);
    AttendHandled(ps[0], start, f);
    if k > 0 {
      HandleDeathsEach(ps[1..], start, head.rest, k - 1);
      assert ps[1..][k - 1] == ps[k];
    }
  }

  // ---------------------------------------------------------------------------
  // The end of a fight

  datatype Payout = Payout(players: seq<Player>, rest: Feed)

  /** `distribute_cb(e, players)` for each enemy in `paid`, in order. */
  function Settle(ps: seq<Player>, enemies: seq<Creature>, paid: seq<nat>, f: Feed): (r: Payout)
    requires forall k :: 0 <= k < |paid| ==> paid[k] < |enemies|
    ensures |r.players| == |ps|
    ensures |paid| == 0 ==> r == Payout(ps, f)
    decreases |paid|
  {
    if |paid| == 0 then Payout(ps, f)
    else
      var a := DistributeXpLoot(enemies[paid[0]], ps, f);
      Settle(a.players, enemies, paid[1..], a.rest)
  }

  /** A fight and its callbacks: `paid` lists the enemies
      `distribute_cb` was called for, in order; `death_cb` runs once at the
      end. `Unfinished` when the round bound ran out first. */
  datatype Aftermath =
    | Aftermath(players: seq<Player>, enemies: seq<Creature>, fled: bool, paid: seq<nat>, rest: Feed)
    | Unfinished

  /** `combat(players, enemies, distribute_xp_loot, handle_deaths)`. */
  function Encounter(ps: seq<Player>, enemies: seq<Creature>, mode: TargetMode, start: Pos, f: Feed, fuel: nat): (r: Aftermath)
    ensures r.Aftermath? ==> |r.players| == |ps| && |r.enemies| == |enemies|
    ensures r.Aftermath? ==> forall k :: 0 <= k < |ps| ==> Alive(r.players[k])
    ensures r.Aftermath? && r.fled ==> r.paid == []
    ensures r.Aftermath? && !r.fled ==> forall j :: 0 <= j < |enemies| ==> (j in r.paid <==> !IsAlive(r.enemies[j]))
    ensures r.Aftermath? ==> forall a, b :: 0 <= a < b < |r.paid| ==> r.paid[a] < r.paid[b]
    ensures r.Aftermath? ==> forall j :: 0 <= j < |enemies| ==> r.enemies[j] == enemies[j].(hp := r.enemies[j].hp)
    ensures r.Aftermath? && NonNegativeAttack(ps) ==> forall j :: 0 <= j < |enemies| ==> Worn(enemies[j], r.enemies[j])
  {
    var end := Run(Battle(ps, enemies), mode, f, fuel);
    if end.OutOfFuel? then Unfinished
    else
      var paid := Payouts(end.battle.enemies, end.fled);
      var s := Settle(end.battle.players, end.battle.enemies, paid, end.rest);
      var d := HandleDeaths(s.players, start, s.rest);
      Aftermath(d.players, end.battle.enemies, end.fled, paid, d.rest)
  }

  /** A finished run becomes an aftermath with the run's flight flag and
      the enemies as the run left them. */
  lemma EncounterOfRun(ps: seq<Player>, enemies: seq<Creature>, mode: TargetMode, start: Pos, f: Feed, fuel: nat,
                       b: Battle, fled: bool, rest: Feed)
    requires Run(Battle(ps, enemies), mode, f, fuel) == Finished(b, fled, rest)
    ensures Encounter(ps, enemies, mode, start, f, fuel).Aftermath?
    ensures Encounter(ps, enemies, mode, start, f, fuel).fled == fled
    ensures Encounter(ps, enemies, mode, start, f, fuel).enemies == b.enemies
  {
  }
}
