/** `generate_loot` and `generate_chest`: weapon drops and chest rewards. */
module Loot {
  import opened Base
  import opened Oracle
  import opened Items

  /** Every template of a class pool belongs to that class, is listed in
      `WEAPONS`, and is neither a starter nor bound. */
  lemma PoolTemplates(cls: string)
    ensures forall w :: w in Pool(cls) ==>
      w in AllWeapons && w.classReq == Some(cls) && !w.starter && !w.bound
  {
    var pool := Pool(cls);
    forall w | w in pool
      ensures w in AllWeapons && w.classReq == Some(cls) && !w.starter && !w.bound
    {
      var k :| 0 <= k < |pool| && pool[k] == w;
      if cls == "Warrior" {
        assert AllWeapons[k] == w;
      } else if cls == "Mage" {
        assert AllWeapons[5 + k] == w;
      } else {
        assert AllWeapons[10 + k] == w;
      }
    }
  }

  /** The templates of `pool` within six levels of `level`, in pool order. */
  function Near(pool: seq<Weapon>, level: int): (r: seq<Weapon>)
    ensures forall k :: 0 <= k < |r| ==> r[k] in pool && Abs(r[k].levelReq - level) <= 6
    ensures forall k :: 0 <= k < |pool| && Abs(pool[k].levelReq - level) <= 6 ==> pool[k] in r
    ensures (forall k :: 0 <= k < |pool| ==> Abs(pool[k].levelReq - level) > 6) ==> r == []
  {
    if |pool| == 0 then []
    else
      var n := |pool| - 1;
      var prev := Near(pool[..n], level);
      var r := if Abs(pool[n].levelReq - level) <= 6 then prev + [pool[n]] else prev;
      NearStep(pool, level, prev, r);
      r
  }

  /** `Near` of a pool from `Near` of all but its last template. */
  lemma NearStep(pool: seq<Weapon>, level: int, prev: seq<Weapon>, r: seq<Weapon>)
    requires |pool| > 0
    requires forall k :: 0 <= k < |prev| ==> prev[k] in pool[..|pool| - 1] && Abs(prev[k].levelReq - level) <= 6
    requires forall k :: 0 <= k < |pool| - 1 && Abs(pool[k].levelReq - level) <= 6 ==> pool[k] in prev
    requires r == if Abs(pool[|pool| - 1].levelReq - level) <= 6 then prev + [pool[|pool| - 1]] else prev
    ensures forall k :: 0 <= k < |r| ==> r[k] in pool && Abs(r[k].levelReq - level) <= 6
    ensures forall k :: 0 <= k < |pool| && Abs(pool[k].levelReq - level) <= 6 ==> pool[k] in r
  {
    var n := |pool| - 1;
    forall k | 0 <= k < |r| ensures r[k] in pool {
      if k < |prev| {
        assert r[k] == prev[k];
        var m :| 0 <= m < n && pool[..n][m] == prev[k];
        assert pool[m] == prev[k];
      }
    }
    forall k | 0 <= k < |pool| && Abs(pool[k].levelReq - level) <= 6 ensures pool[k] in r {
      if k < n {
        assert pool[k] in prev;
      }
    }
  }

  /** The candidates a drop is chosen from: the nearby templates, or the
      whole pool when none is nearby. */
  function Candidates(pool: seq<Weapon>, level: int): (r: seq<Weapon>)
    ensures |pool| > 0 ==> |r| > 0
    ensures forall k :: 0 <= k < |r| ==> r[k] in pool
    ensures (exists k :: 0 <= k < |pool| && Abs(pool[k].levelReq - level) <= 6) ==>
              forall k :: 0 <= k < |r| ==> Abs(r[k].levelReq - level) <= 6
    ensures forall k :: 0 <= k < |pool| && Abs(pool[k].levelReq - level) <= 6 ==> pool[k] in r
    ensures (forall k :: 0 <= k < |pool| ==> Abs(pool[k].levelReq - level) > 6) ==> r == pool
  {
    var near := Near(pool, level);
    if |near| > 0 then near else pool
  }

  datatype Drop = Drop(weapon: Option<Weapon>, rest: Feed)

  /** `generate_loot(level)`: a roll of `randint(0, 100)` above 30 drops
      nothing; otherwise a class is drawn from `WEAPONS` and one of its
      candidates is chosen. */
  function GenerateLoot(level: int, f: Feed): (r: Drop)
    ensures r.weapon.Some? <==> RandInt(f, 0, 100).value <= 30
    ensures r.weapon.None? ==> r.rest == RandInt(f, 0, 100).rest
    ensures r.weapon.Some? ==>
      var w := r.weapon.value;
      && w in AllWeapons && !w.starter && !w.bound
      && w.classReq.Some? && w.classReq.value in WeaponClasses
      && w in Candidates(Pool(w.classReq.value), level)
  {
    var attempt := RandInt(f, 0, 100);
    if attempt.value > 30 then Drop(None, attempt.rest)
    else
      var c := Below(attempt.rest, |WeaponClasses|);
      var cls := WeaponClasses[c.value];
      var cands := Candidates(Pool(cls), level);
      var pick := Below(c.rest, |cands|);
      PoolTemplates(cls);
      assert cands[pick.value] in Pool(cls);
      Drop(Some(cands[pick.value]), pick.rest)
  }

  /** `GenerateLoot` once the attempt succeeded, one draw at a time. */
  lemma GenerateLootDraws(level: int, f: Feed)
    requires RandInt(f, 0, 100).value <= 30
    ensures var c := Below(RandInt(f, 0, 100).rest, |WeaponClasses|);
      var cands := Candidates(Pool(WeaponClasses[c.value]), level);
      var pick := Below(c.rest, |cands|);
      GenerateLoot(level, f) == Drop(Some(cands[pick.value]), pick.rest)
  {
  }

  /** Every candidate of every class is a possible drop: an attempt roll
      of at most 30, then the class and the candidate as rolls. */
  lemma LootReaches(level: int, f: Feed)
    requires |f.rolls| >= 3 && 0 <= f.rolls[0] <= 30 && 0 <= f.rolls[1] < |WeaponClasses|
    requires 0 <= f.rolls[2] < |Candidates(Pool(WeaponClasses[f.rolls[1]]), level)|
    ensures GenerateLoot(level, f)
         == Drop(Some(Candidates(Pool(WeaponClasses[f.rolls[1]]), level)[f.rolls[2]]), f.(rolls := f.rolls[3..]))
  {
    var f1 := f.(rolls := f.rolls[1..]);
    var f2 := f1.(rolls := f1.rolls[1..]);
    RandIntHead(f, 0, 100);
    BelowHead(f1, |WeaponClasses|);
    BelowHead(f2, |Candidates(Pool(WeaponClasses[f.rolls[1]]), level)|);
    GenerateLootDraws(level, f);
    assert f2.rolls[1..] == f.rolls[3..];
  }

  // ---------------------------------------------------------------------------
  // Chests

  /** A chest holds a bare weapon template or an item. */
  datatype Prize = PrizeWeapon(w: Weapon) | PrizeItem(it: Item)

  datatype Chest = Chest(prize: Prize, rest: Feed)

  const GreaterPotion: Item := Item("Greater Health Potion", "potion", Some(map["hp" := EInt(50)]))

  function GoldPouch(amount: int): Item {
    Item("Pouch of Gold", "gold", Some(map["amount" := EInt(amount)]))
  }

  /** `max(1, sum(levels) // len(levels))`: the floored mean, at least 1. */
  function PartyLevel(levels: seq<int>): (r: int)
    requires |levels| > 0
    ensures r >= 1
    ensures r == 1 || r * |levels| <= Sum(levels) < (r + 1) * |levels|
    ensures Sum(levels) >= |levels| ==> r * |levels| <= Sum(levels) < (r + 1) * |levels|
    ensures Sum(levels) < |levels| ==> r == 1
  {
    Max(1, Sum(levels) / |levels|)
  }

  /** `generate_chest(levels)`: a roll below 40 tries for a weapon at the
      party level; without one, a roll below 50 gives the greater potion
      and anything else a pouch of 30 to 120 gold. */
  function GenerateChest(levels: seq<int>, f: Feed): (r: Chest)
    requires |levels| > 0
    ensures r.prize.PrizeWeapon? ==>
      RandInt(f, 0, 100).value < 40 && r.prize.w in AllWeapons && !r.prize.w.starter && !r.prize.w.bound
    ensures r.prize.PrizeItem? ==>
      r.prize.it == GreaterPotion || exists a :: 30 <= a <= 120 && r.prize.it == GoldPouch(a)
  {
    var attempt := RandInt(f, 0, 100);
    var drop := if attempt.value < 40 then GenerateLoot(PartyLevel(levels), attempt.rest) else Drop(None, attempt.rest);
    if drop.weapon.Some? then Chest(PrizeWeapon(drop.weapon.value), drop.rest)
    else
      var kind := RandInt(drop.rest, 0, 100);
      if kind.value < 50 then Chest(PrizeItem(GreaterPotion), kind.rest)
      else
        var amount := RandInt(kind.rest, 30, 120);
        Chest(PrizeItem(GoldPouch(amount.value)), amount.rest)
  }

  /** Each of the three kinds of chest is reachable: a weapon after an
      attempt roll below 40 and a successful drop; the potion or a pouch of
      any amount in range after an attempt roll of 40 or more. */
  lemma ChestWeapon(levels: seq<int>, f: Feed)
    requires |levels| > 0 && |f.rolls| >= 4 && 0 <= f.rolls[0] < 40
    requires 0 <= f.rolls[1] <= 30 && 0 <= f.rolls[2] < |WeaponClasses|
    requires 0 <= f.rolls[3] < |Candidates(Pool(WeaponClasses[f.rolls[2]]), PartyLevel(levels))|
    ensures GenerateChest(levels, f)
         == Chest(PrizeWeapon(Candidates(Pool(WeaponClasses[f.rolls[2]]), PartyLevel(levels))[f.rolls[3]]),
                  f.(rolls := f.rolls[4..]))
  {
    var f1 := f.(rolls := f.rolls[1..]);
    RandIntHead(f, 0, 100);
    LootReaches(PartyLevel(levels), f1);
    ChestAfterDrop(levels, f);
    assert f1.rolls[3..] == f.rolls[4..];
  }

  /** A chest whose weapon attempt succeeded holds the dropped weapon. */
  lemma ChestAfterDrop(levels: seq<int>, f: Feed)
    requires |levels| > 0 && RandInt(f, 0, 100).value < 40
    requires GenerateLoot(PartyLevel(levels), RandInt(f, 0, 100).rest).weapon.Some?
    ensures var d := GenerateLoot(PartyLevel(levels), RandInt(f, 0, 100).rest);
      GenerateChest(levels, f) == Chest(PrizeWeapon(d.weapon.value), d.rest)
  {
  }

  lemma ChestPotion(levels: seq<int>, f: Feed)
    requires |levels| > 0 && |f.rolls| >= 2 && 40 <= f.rolls[0] <= 100 && 0 <= f.rolls[1] < 50
    ensures GenerateChest(levels, f) == Chest(PrizeItem(GreaterPotion), f.(rolls := f.rolls[2..]))
  {
    var f1 := f.(rolls := f.rolls[1..]);
    RandIntHead(f, 0, 100);
    RandIntHead(f1, 0, 100);
    assert f1.rolls[1..] == f.rolls[2..];
  }

  lemma ChestGold(levels: seq<int>, f: Feed)
    requires |levels| > 0 && |f.rolls| >= 3 && 40 <= f.rolls[0] <= 100 && 50 <= f.rolls[1] <= 100
    requires 0 <= f.rolls[2] <= 90
    ensures GenerateChest(levels, f) == Chest(PrizeItem(GoldPouch(30 + f.rolls[2])), f.(rolls := f.rolls[3..]))
  {
    var f1 := f.(rolls := f.rolls[1..]);
    var f2 := f1.(rolls := f1.rolls[1..]);
    RandIntHead(f, 0, 100);
    RandIntHead(f1, 0, 100);
    RandIntHead(f2, 30, 120);
    assert f2.rolls[1..] == f.rolls[3..];
  }
}
