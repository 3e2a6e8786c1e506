/** The shared combatant record: monsters are bare `Creature`s and every
    player embeds one. */
module Creatures {
  import opened Base
  import opened Values

  datatype Creature = Creature(
    name: string,
    level: int,
    hp: int,
    maxHp: int,
    mp: int,
    maxMp: int,
    atk: real,       // a float for some classes (a Ranger's `11 + level * 1.5`)
    defense: real,
    special: Option<string>,  // e.g. "elite_key"
    xpValue: int)

  /** `Creature(name, level, hp, mp, atk, defense, special, xp_value)`:
      the given hit points and mana are both the maximum and the current value. */
  function New(name: string, level: int, hp: int, mp: int, atk: real, defense: real,
               special: Option<string>, xpValue: int): (c: Creature)
    ensures c.hp == c.maxHp == hp && c.mp == c.maxMp == mp
    ensures c.name == name && c.level == level && c.atk == atk && c.defense == defense
    ensures c.special == special && c.xpValue == xpValue
  {
    Creature(name, level, hp, hp, mp, mp, atk, defense, special, xpValue)
  }

  predicate IsAlive(c: Creature) {
    c.hp > 0
  }

  datatype Hit = Hit(after: Creature, lost: int)

  /** `take_damage(d)`: hit points drop to `max(0, hp - d)` and the hit
      points actually removed are reported. */
  function TakeDamage(c: Creature, d: int): (r: Hit)
    ensures r.after.hp >= 0
    ensures r.lost == c.hp - r.after.hp
    ensures d >= 0 && c.hp >= 0 ==> r.lost == Min(d, c.hp)
    ensures d >= c.hp ==> !IsAlive(r.after)
    ensures r.after == c.(hp := r.after.hp)
  {
    var hp := Max(0, c.hp - d);
    Hit(c.(hp := hp), c.hp - hp)
  }

  /** `heal(amount)`: hit points rise by `amount` but never above the
      maximum; a creature at 0 hit points is healed like any other. */
  function Heal(c: Creature, amount: int): (r: Creature)
    ensures r.hp <= c.maxHp
    ensures r.hp == c.hp + amount || r.hp == c.maxHp
    ensures amount >= 0 && c.hp <= c.maxHp ==> c.hp <= r.hp
    ensures r == c.(hp := r.hp)
  {
    c.(hp := Min(c.maxHp, c.hp + amount))
  }

  /** Healing has no revive gate: a dead creature with room below its
      maximum comes back alive. */
  lemma HealRevivesDead(c: Creature, amount: int)
    requires c.hp == 0 && amount > 0 && c.maxHp > 0
    ensures IsAlive(Heal(c, amount))
  {
  }

  // ---------------------------------------------------------------------------
  // Living members, in order

  /** The positions of the living creatures in `cs`, ascending. */
  function AliveIndices(cs: seq<Creature>): (r: seq<nat>)
    ensures forall k :: 0 <= k < |r| ==> r[k] < |cs| && IsAlive(cs[r[k]])
    ensures forall i :: 0 <= i < |cs| && IsAlive(cs[i]) ==> i in r
    ensures forall a, b :: 0 <= a < b < |r| ==> r[a] < r[b]
  {
    if |cs| == 0 then []
    else
      var prev := AliveIndices(cs[..|cs| - 1]);
      if IsAlive(cs[|cs| - 1]) then prev + [|cs| - 1] else prev
  }

  predicate AnyAlive(cs: seq<Creature>) {
    exists i :: 0 <= i < |cs| && IsAlive(cs[i])
  }

  lemma AnyAliveIndices(cs: seq<Creature>)
    ensures AnyAlive(cs) <==> |AliveIndices(cs)| > 0
  {
    if |AliveIndices(cs)| > 0 {
      assert IsAlive(cs[AliveIndices(cs)[0]]);
    }
  }

  /** `alive_entities(cs)`: the living creatures as an order-preserving
      subsequence of `cs`. */
  function AliveEntities(cs: seq<Creature>): (r: seq<Creature>)
    ensures |r| == |AliveIndices(cs)|
    ensures forall k :: 0 <= k < |r| ==> r[k] == cs[AliveIndices(cs)[k]] && IsAlive(r[k])
  {
    var idx := AliveIndices(cs);
    seq(|idx|, k requires 0 <= k < |idx| => cs[idx[k]])
  }

  // ---------------------------------------------------------------------------
  // Dict mapping

  /** `to_dict()`. */
  function ToDict(c: Creature): Value {
    VDict(map[
      "name" := VStr(c.name),
      "level" := VInt(c.level),
      "hp" := VInt(c.hp),
      "max_hp" := VInt(c.maxHp),
      "mp" := VInt(c.mp),
      "max_mp" := VInt(c.maxMp),
      "atk" := VReal(c.atk),
      "defense" := VReal(c.defense),
      "special" := OptStrValue(c.special),
      "xp_value" := VInt(c.xpValue)])
  }

  /** `Creature.from_dict(d)`: missing keys take the source's defaults;
      `max_hp` falls back to `hp`, and `hp` to the resulting `max_hp`. */
  function FromDict(d: map<string, Value>): (r: Decoded<Creature>)
    ensures r != Null
  {
    var name := AsStr(Get(d, "name", VStr("Unknown")));
    var level := AsInt(Get(d, "level", VInt(1)));
    var maxHp := AsInt(Get(d, "max_hp", Get(d, "hp", VInt(1))));
    var maxMp := AsInt(Get(d, "max_mp", Get(d, "mp", VInt(0))));
    var atk := RealOf(Get(d, "atk", VInt(1)));
    var defense := RealOf(Get(d, "defense", VInt(0)));
    var special := OptStrOf(Get(d, "special", VNone));
    var xp := AsInt(Get(d, "xp_value", VInt(0)));
    if name.None? || level.None? || maxHp.None? || maxMp.None? || atk.None? || defense.None?
       || special.Null? || special.Fail? || xp.None? then Fail
    else
      var hp := AsInt(Get(d, "hp", VInt(maxHp.value)));
      var mp := AsInt(Get(d, "mp", VInt(maxMp.value)));
      if hp.None? || mp.None? then Fail
      else Ok(Creature(name.value, level.value, hp.value, maxHp.value, mp.value, maxMp.value,
                       atk.value, defense.value, special.value, xp.value))
  }

  /** Every field survives `from_dict(to_dict(c))`. */
  lemma RoundTrip(c: Creature)
    ensures FromDict(ToDict(c).fields) == Ok(c)
  {
    SavedStats(c);
    SavedRest(c);
    assert OptStrOf(OptStrValue(c.special)) == Ok(c.special);
  }

  /** What `ToDict` writes, in two halves of the ten-key dict. */
  lemma SavedStats(c: Creature)
    ensures var d := ToDict(c).fields;
      && "name" in d && "level" in d && "hp" in d && "max_hp" in d && "mp" in d
      && d["name"] == VStr(c.name) && d["level"] == VInt(c.level) && d["hp"] == VInt(c.hp)
      && d["max_hp"] == VInt(c.maxHp) && d["mp"] == VInt(c.mp)
  {
  }

  lemma SavedRest(c: Creature)
    ensures var d := ToDict(c).fields;
      && "max_mp" in d && "atk" in d && "defense" in d && "special" in d && "xp_value" in d
      && d["max_mp"] == VInt(c.maxMp) && d["atk"] == VReal(c.atk) && d["defense"] == VReal(c.defense)
      && d["special"] == OptStrValue(c.special) && d["xp_value"] == VInt(c.xpValue)
  {
  }

  /** The fallbacks of `from_dict`: `max_hp` from `hp`, `hp` from `max_hp`
      (likewise for mana), `xp_value` 0, `special` None. */
  lemma FromDictDefaults(d: map<string, Value>)
    requires FromDict(d).Ok?
    ensures var c := FromDict(d).value;
      && ("max_hp" !in d && "hp" in d ==> c.maxHp == c.hp)
      && ("hp" !in d ==> c.hp == c.maxHp)
      && ("max_mp" !in d && "mp" in d ==> c.maxMp == c.mp)
      && ("mp" !in d ==> c.mp == c.maxMp)
      && ("hp" !in d && "max_hp" !in d ==> c.hp == c.maxHp == 1)
      && ("xp_value" !in d ==> c.xpValue == 0)
      && ("special" !in d ==> c.special == None)
  {
  }
}
