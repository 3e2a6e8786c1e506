/** `Player.save_state` and `Player.load_state`. */
module PlayerSave {
  import opened Base
  import opened Values
  import opened Creatures
  import opened Items
  import opened Players

  function ItemValues(inv: seq<Item>): (r: seq<Value>)
    ensures |r| == |inv|
    ensures forall k :: 0 <= k < |inv| ==> r[k] == ItemToDict(inv[k])
  {
    if |inv| == 0 then [] else ItemValues(inv[..|inv| - 1]) + [ItemToDict(inv[|inv| - 1])]
  }

  /** `save_state()`: every field by name, items and the weapon as dicts. */
  function SaveState(p: Player): (r: Value)
    ensures r.VDict?
  {
    VDict(map[
      "name" := VStr(p.body.name),
      "pclass" := VStr(p.pclass),
      "level" := VInt(p.body.level),
      "xp" := VInt(p.xp),
      "hp" := VInt(p.body.hp),
      "max_hp" := VInt(p.body.maxHp),
      "mp" := VInt(p.body.mp),
      "max_mp" := VInt(p.body.maxMp),
      "atk" := VReal(p.body.atk),
      "defense" := VReal(p.body.defense),
      "inventory" := VList(ItemValues(p.inventory)),
      "equipment" := if p.weapon.Some? then WeaponToDict(p.weapon.value) else VNone,
      "gold" := VInt(p.gold),
      "pos" := PairValue(p.pos),
      "death_count" := VInt(p.deathCount),
      "inv_limit" := VInt(p.invLimit)])
  }

  /** A save holds exactly the sixteen fields, the inventory one entry per
      item. */
  lemma SavedKeys(p: Player)
    ensures var d := SaveState(p).fields;
      && d.Keys == {"name", "pclass", "level", "xp", "hp", "max_hp", "mp", "max_mp", "atk",
                    "defense", "inventory", "equipment", "gold", "pos", "death_count", "inv_limit"}
      && d["inventory"].VList? && |d["inventory"].items| == |p.inventory|
  {
  }

  /** One saved inventory entry: a dict with a truthy name goes through
      `Item.from_dict`; anything else is read as a legacy `(name, kind,
      effect)` triple. An entry that fails either way is skipped. */
  function EntryOf(v: Value): (r: Option<Item>)
    ensures v.VDict? && Truthy(Get(v.fields, "name", VNone)) ==> (r.Some? <==> ItemFromDict(v).Ok?)
    ensures r.Some? && v.VDict? ==> ItemFromDict(v) == Ok(r.value)
    ensures r.Some? && !v.VDict? ==>
      && v.VList? && |v.items| == 3 && v.items[0].VStr? && v.items[1].VStr?
      && r.value.name == v.items[0].s && r.value.kind == v.items[1].s
    ensures !v.VDict? && !v.VList? ==> r.None?
  {
    if v.VDict? && Truthy(Get(v.fields, "name", VNone)) then
      match ItemFromDict(v)
      case Ok(it) => Some(it)
      case _ => None
    else if v.VList? && |v.items| == 3 && v.items[0].VStr? && v.items[1].VStr? then
      var e := v.items[2];
      if e.VNone? then Some(Item(v.items[0].s, v.items[1].s, None))
      else if e.VDict? && (forall k :: k in e.fields ==> e.fields[k].VInt?) then
        Some(Item(v.items[0].s, v.items[1].s, Some(map k | k in e.fields :: EInt(e.fields[k].i))))
      else None
    else None
  }

  /** The loaded inventory: the readable entries, in order. */
  function InventoryOf(vs: seq<Value>): (r: seq<Item>)
    ensures |r| <= |vs|
    ensures forall k :: 0 <= k < |r| ==> exists t :: 0 <= t < |vs| && EntryOf(vs[t]) == Some(r[k])
    ensures (forall t :: 0 <= t < |vs| ==> EntryOf(vs[t]).Some?) ==>
              |r| == |vs| && forall k :: 0 <= k < |vs| ==> EntryOf(vs[k]) == Some(r[k])
  {
    if |vs| == 0 then []
    else
      var prev := InventoryOf(vs[..|vs| - 1]);
      match EntryOf(vs[|vs| - 1])
      case Some(it) => prev + [it]
      case None => prev
  }

  /** The weapon slot after loading: a dict with a truthy name through
      `Weapon.from_dict`, a string through `get_weapon_by_name`; a falsy or
      unreadable value keeps the starter the constructor equipped. */
  function EquipmentOf(v: Value, starter: Option<Weapon>): (r: Option<Weapon>)
    ensures !Truthy(v) ==> r == starter
    ensures v.VStr? ==> r == (if GetWeaponByName(v.s).Some? then GetWeaponByName(v.s) else starter)
  {
    if !Truthy(v) then starter
    else if v.VDict? && Truthy(Get(v.fields, "name", VNone)) then
      match WeaponFromDict(v)
      case Ok(w) => Some(w)
      case _ => starter
    else if v.VStr? && GetWeaponByName(v.s).Some? then GetWeaponByName(v.s)
    else starter
  }

  /** `Player.load_state(data)`: a blank `Player(name, pclass, level)` with
      the saved fields written over it. A missing required key fails;
      `gold`, `pos`, `death_count` and `inv_limit` have defaults. */
  function LoadState(d: map<string, Value>): (r: Decoded<Player>)
    ensures r != Null
    ensures r.Ok? ==> !r.value.lastHit
    ensures r.Ok? ==> "gold" !in d ==> r.value.gold == 0
    ensures r.Ok? ==> "pos" !in d ==> r.value.pos == (0, 0)
    ensures r.Ok? ==> "death_count" !in d ==> r.value.deathCount == 0
    ensures r.Ok? ==> "inv_limit" !in d ==> r.value.invLimit == DefaultInvLimit
    ensures r.Ok? ==> !Truthy(Get(d, "equipment", VNone)) ==> r.value.weapon == Starter(r.value.pclass)
    ensures !(RequiredKeys <= d.Keys) ==> r == Fail
  {
    if !(RequiredKeys <= d.Keys) then Fail
    else
      var name := AsStr(d["name"]);
      var pclass := AsStr(d["pclass"]);
      var level := AsInt(d["level"]);
      var xp := AsInt(d["xp"]);
      var hp := AsInt(d["hp"]);
      var maxHp := AsInt(d["max_hp"]);
      var mp := AsInt(d["mp"]);
      var maxMp := AsInt(d["max_mp"]);
      var atk := RealOf(d["atk"]);
      var defense := RealOf(d["defense"]);
      var inv := Get(d, "inventory", VList([]));
      var gold := AsInt(Get(d, "gold", VInt(0)));
      var pos := PairOf(Get(d, "pos", PairValue((0, 0))));
      var deaths := AsInt(Get(d, "death_count", VInt(0)));
      var limit := AsInt(Get(d, "inv_limit", VInt(DefaultInvLimit)));
      if name.None? || pclass.None? || level.None? || xp.None? || hp.None? || maxHp.None?
         || mp.None? || maxMp.None? || atk.None? || defense.None? || !inv.VList?
         || gold.None? || pos.None? || deaths.None? || limit.None? then Fail
      else
        var blank := NewPlayer(name.value, pclass.value, level.value);
        var body := blank.body.(xpValue := 0, hp := hp.value, maxHp := maxHp.value, mp := mp.value,
                                maxMp := maxMp.value, atk := atk.value, defense := defense.value);
        Ok(blank.(body := body, xp := xp.value, inventory := InventoryOf(inv.items), gold := gold.value,
                  pos := pos.value, deathCount := deaths.value, invLimit := limit.value,
                  weapon := EquipmentOf(Get(d, "equipment", VNone), blank.weapon)))
  }

  const RequiredKeys: set<string> :=
    {"name", "pclass", "level", "xp", "hp", "max_hp", "mp", "max_mp", "atk", "defense"}

  lemma EntryRoundTrip(it: Item)
    requires it.name != ""
    ensures EntryOf(ItemToDict(it)) == Some(it)
  {
    assert Get(ItemToDict(it).fields, "name", VNone) == VStr(it.name);
    ItemRoundTrip(it);
  }

  lemma {:induction false} InventoryRoundTrip(inv: seq<Item>)
    requires forall k :: 0 <= k < |inv| ==> inv[k].name != ""
    ensures InventoryOf(ItemValues(inv)) == inv
  {
    if |inv| > 0 {
      var vs := ItemValues(inv);
      var last := |inv| - 1;
      var front := inv[..last];
      assert vs[..last] == ItemValues(front);
      InventoryRoundTrip(front);
      EntryRoundTrip(inv[last]);
      InventoryOfLast(vs, inv[last]);
      assert inv == front + [inv[last]];
    }
  }

  /** A readable last entry is loaded after the others. */
  lemma InventoryOfLast(vs: seq<Value>, it: Item)
    requires |vs| > 0 && EntryOf(vs[|vs| - 1]) == Some(it)
    ensures InventoryOf(vs) == InventoryOf(vs[..|vs| - 1]) + [it]
  {
  }

  lemma EquipmentRoundTrip(w: Option<Weapon>, starter: Option<Weapon>)
    requires w.Some? ==> w.value.name != ""
    ensures EquipmentOf(if w.Some? then WeaponToDict(w.value) else VNone, starter)
         == (if w.Some? then w else starter)
  {
    if w.Some? {
      WeaponRoundTrip(w.value);
      assert Get(WeaponToDict(w.value).fields, "name", VNone) == VStr(w.value.name);
    }
  }

  /** What `SaveState` writes, field by field (in four parts, each a
      handful of lookups in the sixteen-key dict). */
  lemma SavedIdentity(p: Player)
    ensures var d := SaveState(p).fields;
      && "name" in d && "pclass" in d && "level" in d && "xp" in d
      && d["name"] == VStr(p.body.name) && d["pclass"] == VStr(p.pclass) && d["level"] == VInt(p.body.level)
      && d["xp"] == VInt(p.xp)
  {
  }

  lemma SavedPoints(p: Player)
    ensures var d := SaveState(p).fields;
      && "hp" in d && "max_hp" in d && "mp" in d && "max_mp" in d
      && d["hp"] == VInt(p.body.hp) && d["max_hp"] == VInt(p.body.maxHp)
      && d["mp"] == VInt(p.body.mp) && d["max_mp"] == VInt(p.body.maxMp)
  {
  }

  lemma SavedCombat(p: Player)
    ensures var d := SaveState(p).fields;
      && "atk" in d && "defense" in d
      && d["atk"] == VReal(p.body.atk) && d["defense"] == VReal(p.body.defense)
      && Get(d, "inventory", VList([])) == VList(ItemValues(p.inventory))
      && Get(d, "equipment", VNone) == if p.weapon.Some? then WeaponToDict(p.weapon.value) else VNone
  {
  }

  lemma SavedProgress(p: Player)
    ensures var d := SaveState(p).fields;
      && Get(d, "gold", VInt(0)) == VInt(p.gold) && Get(d, "death_count", VInt(0)) == VInt(p.deathCount)
      && Get(d, "inv_limit", VInt(DefaultInvLimit)) == VInt(p.invLimit)
      && PairOf(Get(d, "pos", PairValue((0, 0)))) == Some(p.pos)
  {
  }

  /** What a round trip asks of a player: items and the weapon need
      non-empty names, since a nameless saved item is read as a legacy
      triple and a nameless weapon dict is ignored; and the body carries no
      special and no experience value, which `save_state` does not write. */
  predicate Restorable(p: Player) {
    && (forall k :: 0 <= k < |p.inventory| ==> p.inventory[k].name != "")
    && (p.weapon.Some? ==> p.weapon.value.name != "")
    && p.body.special == None && p.body.xpValue == 0
  }

  /** `load_state(save_state(p))` gives back the player, with two changes
      the constructor makes: the last-hit flag is cleared, and an empty
      weapon slot is refilled with the class's starter. */
  lemma SaveLoadRoundTrip(p: Player)
    requires Restorable(p)
    ensures LoadState(SaveState(p).fields)
         == Ok(p.(lastHit := false, weapon := if p.weapon.Some? then p.weapon else Starter(p.pclass)))
  {
    SavedIdentity(p);
    SavedPoints(p);
    SavedCombat(p);
    SavedProgress(p);
    LoadsBack(SaveState(p).fields, p);
  }

  /** Every field `SaveState` writes for `p`, as `LoadState` reads it. */
  predicate HoldsFields(d: map<string, Value>, p: Player) {
    && "name" in d && "pclass" in d && "level" in d && "xp" in d
    && d["name"] == VStr(p.body.name) && d["pclass"] == VStr(p.pclass) && d["level"] == VInt(p.body.level)
    && d["xp"] == VInt(p.xp)
    && "hp" in d && "max_hp" in d && "mp" in d && "max_mp" in d
    && d["hp"] == VInt(p.body.hp) && d["max_hp"] == VInt(p.body.maxHp)
    && d["mp"] == VInt(p.body.mp) && d["max_mp"] == VInt(p.body.maxMp)
    && "atk" in d && "defense" in d
    && d["atk"] == VReal(p.body.atk) && d["defense"] == VReal(p.body.defense)
    && Get(d, "inventory", VList([])) == VList(ItemValues(p.inventory))
    && Get(d, "equipment", VNone) == (if p.weapon.Some? then WeaponToDict(p.weapon.value) else VNone)
    && Get(d, "gold", VInt(0)) == VInt(p.gold) && Get(d, "death_count", VInt(0)) == VInt(p.deathCount)
    && Get(d, "inv_limit", VInt(DefaultInvLimit)) == VInt(p.invLimit)
    && PairOf(Get(d, "pos", PairValue((0, 0)))) == Some(p.pos)
  }

  /** Any dict holding `p`'s fields loads back as `p`, up to the two
      changes the constructor makes. */
  lemma LoadsBack(d: map<string, Value>, p: Player)
    requires HoldsFields(d, p) && Restorable(p)
    ensures LoadState(d)
         == Ok(p.(lastHit := false, weapon := if p.weapon.Some? then p.weapon else Starter(p.pclass)))
  {
    LoadedOk(d, p);
    LoadedBody(d, p);
    LoadedRest(d, p);
  }

  lemma LoadedOk(d: map<string, Value>, p: Player)
    requires HoldsFields(d, p)
    ensures LoadState(d).Ok?
  {
    assert RequiredKeys <= d.Keys;
  }

  lemma LoadedBody(d: map<string, Value>, p: Player)
    requires HoldsFields(d, p) && Restorable(p) && LoadState(d).Ok?
    ensures LoadState(d).value.body == p.body
  {
  }

  lemma LoadedRest(d: map<string, Value>, p: Player)
    requires HoldsFields(d, p) && Restorable(p) && LoadState(d).Ok?
    ensures var q := LoadState(d).value;
      && q.pclass == p.pclass && q.xp == p.xp && q.inventory == p.inventory
      && q.weapon == (if p.weapon.Some? then p.weapon else Starter(p.pclass))
      && q.gold == p.gold && !q.lastHit && q.pos == p.pos && q.invLimit == p.invLimit
      && q.deathCount == p.deathCount
  {
    InventoryRoundTrip(p.inventory);
    EquipmentRoundTrip(p.weapon, Starter(p.pclass));
  }
}
