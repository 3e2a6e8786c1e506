/** Weapons, items, the static templates, the protection rules and the
    sell/resell prices. */
module Items {
  import opened Base
  import opened Values

  /** An inclusive damage range `(lo, hi)`; `dmg()` rolls `randint(lo, hi)`,
      which needs `lo <= hi`. */
  type DamageRange = r: (int, int) | r.0 <= r.1 witness (0, 0)

  /** A weapon template. `rarity` is the source's float, held as the exact
      decimal it is written as. */
  datatype Weapon = Weapon(
    name: string,
    levelReq: int,
    range: DamageRange,
    rarity: real,
    classReq: Option<string>,
    starter: bool,
    bound: bool)

  /** A value stored in an item's `effect` dict: a number (`hp`, `mp`,
      `sell`, `amount`) or an embedded weapon (`weapon`). */
  datatype Effect = EInt(n: int) | EWeapon(w: Weapon)

  datatype Item = Item(name: string, kind: string, effect: Option<map<string, Effect>>)

  /** `str(item)`. */
  function Show(it: Item): string {
    it.name + " (" + it.kind + ")"
  }

  function Template(name: string, levelReq: int, lo: int, hi: int, rarity: real, cls: string): Weapon
    requires lo <= hi
  {
    Weapon(name, levelReq, (lo, hi), rarity, Some(cls), false, false)
  }

  /** `WEAPONS`, five templates per class, the last one the rarest. */
  const WarriorWeapons: seq<Weapon> := [
    Template("Iron Longsword", 5, 6, 10, 0.9, "Warrior"),
    Template("Steel Cleaver", 7, 9, 14, 0.6, "Warrior"),
    Template("Berserker Axe", 10, 13, 20, 0.4, "Warrior"),
    Template("Guardian Blade", 12, 15, 22, 0.2, "Warrior"),
    Template("Heartseeker, Ancient", 18, 22, 35, 0.05, "Warrior")]

  const MageWeapons: seq<Weapon> := [
    Template("Oak Staff", 5, 4, 8, 0.9, "Mage"),
    Template("Crystal Wand", 7, 7, 12, 0.6, "Mage"),
    Template("Starlit Rod", 10, 10, 16, 0.4, "Mage"),
    Template("Rune Scepter", 13, 14, 20, 0.2, "Mage"),
    Template("Archmage Focus", 18, 20, 34, 0.05, "Mage")]

  const RangerWeapons: seq<Weapon> := [
    Template("Shortbow", 5, 5, 9, 0.9, "Ranger"),
    Template("Composite Bow", 8, 8, 13, 0.6, "Ranger"),
    Template("Windrunner", 11, 11, 17, 0.4, "Ranger"),
    Template("Hawkstrike", 14, 15, 21, 0.2, "Ranger"),
    Template("Eagle of Dathen", 18, 18, 32, 0.05, "Ranger")]

  /** The keys of `WEAPONS`, in dict order. */
  const WeaponClasses: seq<string> := ["Warrior", "Mage", "Ranger"]

  function Pool(cls: string): seq<Weapon> {
    if cls == "Warrior" then WarriorWeapons
    else if cls == "Mage" then MageWeapons
    else if cls == "Ranger" then RangerWeapons
    else []
  }

  /** Every template, in the order `get_weapon_by_name` visits them. */
  const AllWeapons: seq<Weapon> := WarriorWeapons + MageWeapons + RangerWeapons

  /** `STARTER_WEAPONS.get(cls)`. */
  function Starter(cls: string): (r: Option<Weapon>)
    ensures r.Some? <==> cls in WeaponClasses
  {
    if cls in WeaponClasses then
      var name := if cls == "Warrior" then "Rusty Sword" else if cls == "Mage" then "Basic Staff" else "Basic Bow";
      Some(Weapon(name, 1, (1, 3), 1.0, Some(cls), true, true))
    else None
  }

  const KeyItem: Item := Item("Ancient Ruins Key", "key", Some(map[]))

  /** A weapon as an inventory entry: `Item(w.name, 'weapon', {'weapon': w})`. */
  function WrapWeapon(w: Weapon): (it: Item)
    ensures it.name == w.name && it.kind == "weapon"
    ensures EmbeddedWeapon(it) == Some(w) && ResolveWeapon(it) == Some(w)
  {
    Item(w.name, "weapon", Some(map["weapon" := EWeapon(w)]))
  }

  // ---------------------------------------------------------------------------
  // Lookup and protection

  function FindByName(ws: seq<Weapon>, name: string): (r: Option<Weapon>)
    ensures r.Some? ==> r.value in ws && r.value.name == name
    ensures r.None? ==> forall k :: 0 <= k < |ws| ==> ws[k].name != name
  {
    if |ws| == 0 then None
    else if ws[0].name == name then Some(ws[0])
    else FindByName(ws[1..], name)
  }

  /** `get_weapon_by_name`: a template with exactly that name, or None for
      the empty or an unknown name. */
  function GetWeaponByName(name: string): (r: Option<Weapon>)
    ensures r.Some? ==> r.value in AllWeapons && r.value.name == name && name != ""
    ensures r.None? && name != "" ==> forall k :: 0 <= k < |AllWeapons| ==> AllWeapons[k].name != name
  {
    if name == "" then None else FindByName(AllWeapons, name)
  }

  /** `is_super_rare_weapon`: rarity at most 0.05; no weapon is not super-rare. */
  predicate IsSuperRare(w: Option<Weapon>) {
    w.Some? && w.value.rarity <= 0.05
  }

  /** Super-rare, bound and starter weapons may not be sold, given away or lost. */
  predicate ProtectedWeapon(w: Weapon) {
    IsSuperRare(Some(w)) || w.bound || w.starter
  }

  /** `item.effect.get('weapon') if item.effect else None`. */
  function EmbeddedWeapon(it: Item): Option<Weapon> {
    if it.effect.Some? && |it.effect.value| > 0 && "weapon" in it.effect.value
       && it.effect.value["weapon"].EWeapon? then Some(it.effect.value["weapon"].w)
    else None
  }

  /** The weapon an item stands for: the embedded one, else the template of
      the same name. */
  function ResolveWeapon(it: Item): (r: Option<Weapon>)
    ensures EmbeddedWeapon(it).Some? ==> r == EmbeddedWeapon(it)
    ensures EmbeddedWeapon(it).None? ==> r == GetWeaponByName(it.name)
  {
    if EmbeddedWeapon(it).Some? then EmbeddedWeapon(it) else GetWeaponByName(it.name)
  }

  /** Items no random loss may take: revive tokens and protected weapons. */
  predicate Protected(it: Item) {
    || it.kind == "revive"
    || (it.kind == "weapon" && ResolveWeapon(it).Some? && ProtectedWeapon(ResolveWeapon(it).value))
  }

  /** `effect.get(key, default)` on an integer entry. */
  function IntEntry(effect: map<string, Effect>, key: string, default: int): int {
    if key in effect && effect[key].EInt? then effect[key].n else default
  }

  /** The junk price: `int(effect.get('sell', 0)) if effect else 0`. */
  function JunkPrice(it: Item): int {
    if it.effect.Some? && |it.effect.value| > 0 then IntEntry(it.effect.value, "sell", 0) else 0
  }

  // ---------------------------------------------------------------------------
  // Prices

  /** `estimate_sell_price`. */
  function EstimateSellPrice(it: Item): (r: Option<int>)
    ensures it.kind == "junk" ==> r == Some(JunkPrice(it))
    ensures it.kind == "weapon" ==>
      r == (if ResolveWeapon(it).None? || ProtectedWeapon(ResolveWeapon(it).value) then None
            else Some(ResolveWeapon(it).value.levelReq * 10))
    ensures it.kind != "junk" && it.kind != "weapon" ==> r == None
  {
    if it.kind == "junk" then Some(JunkPrice(it))
    else if it.kind == "weapon" then
      var w := ResolveWeapon(it);
      if w.None? || ProtectedWeapon(w.value) then None else Some(w.value.levelReq * 10)
    else None
  }

  /** `estimate_resell_price`. */
  function EstimateResellPrice(it: Item): (r: Option<int>)
    ensures it.kind == "junk" ==> r == Some(JunkPrice(it))
    ensures it.kind == "weapon" && ResolveWeapon(it).Some? ==> r == Some(ResolveWeapon(it).value.levelReq * 12)
    ensures it.kind == "weapon" && ResolveWeapon(it).None? ==> r == None
    ensures it.kind != "junk" && it.kind != "weapon" ==> r == None
  {
    if it.kind == "junk" then Some(JunkPrice(it))
    else if it.kind == "weapon" && ResolveWeapon(it).Some? then Some(ResolveWeapon(it).value.levelReq * 12)
    else None
  }

  /** Nothing protected is ever priced for sale. */
  lemma SellableIsUnprotected(it: Item)
    requires EstimateSellPrice(it).Some?
    ensures !Protected(it)
  {
  }

  /** A merchant resells a weapon for at least what it paid, and junk for
      exactly what it paid. */
  lemma ResellCoversSell(it: Item)
    requires EstimateSellPrice(it).Some?
    requires it.kind == "weapon" ==> ResolveWeapon(it).value.levelReq >= 0
    ensures EstimateResellPrice(it).Some?
    ensures EstimateSellPrice(it).value <= EstimateResellPrice(it).value
    ensures it.kind == "junk" ==> EstimateSellPrice(it) == EstimateResellPrice(it)
  {
  }

  /** Starter weapons are bound starters: they are never sellable, never
      lost, and `get_weapon_by_name` does not find them. */
  lemma StartersAreProtected(cls: string)
    requires Starter(cls).Some?
    ensures var w := Starter(cls).value;
      && w.starter && w.bound
      && EstimateSellPrice(WrapWeapon(w)) == None
      && Protected(WrapWeapon(w))
      && GetWeaponByName(w.name) == None
  {
    var w := Starter(cls).value;
    assert EmbeddedWeapon(WrapWeapon(w)) == Some(w);
  }

  /** Exactly the last template of each class is super-rare. */
  lemma SuperRareTemplates(cls: string, k: nat)
    requires cls in WeaponClasses && k < |Pool(cls)|
    ensures IsSuperRare(Some(Pool(cls)[k])) <==> k == 4
  {
  }

  // ---------------------------------------------------------------------------
  // Dict mapping

  /** `Weapon.to_dict()`: every field under its own name. */
  function WeaponToDict(w: Weapon): (r: Value)
    ensures r.VDict? && "name" in r.fields && r.fields["name"] == VStr(w.name)
  {
    VDict(map[
      "name" := VStr(w.name),
      "level_req" := VInt(w.levelReq),
      "damage_range" := PairValue(w.range),
      "rarity" := VReal(w.rarity),
      "class_req" := OptStrValue(w.classReq),
      "starter" := VBool(w.starter),
      "bound" := VBool(w.bound)])
  }

  /** `Weapon.from_dict(v)`: None for a falsy value; `name`, `level_req` and
      `damage_range` are required, the rest defaulted. A reversed range is
      refused here, where the source would raise at the first roll. */
  function WeaponFromDict(v: Value): (r: Decoded<Weapon>)
    ensures !Truthy(v) <==> r == Null
  {
    if !Truthy(v) then Null
    else if !v.VDict? then Fail
    else
      var d := v.fields;
      var range := PairOf(Get(d, "damage_range", VNone));
      var level := if "level_req" in d then IntOf(d["level_req"]) else None;
      var rarity := RealOf(Get(d, "rarity", VReal(1.0)));
      var cls := OptStrOf(Get(d, "class_req", VNone));
      if "name" !in d || !d["name"].VStr? || level.None? || range.None? || rarity.None? || !cls.Ok? then Fail
      else if range.value.0 > range.value.1 then Fail
      else Ok(Weapon(d["name"].s, level.value, range.value, rarity.value,
                     cls.value, Truthy(Get(d, "starter", VBool(false))), Truthy(Get(d, "bound", VBool(false)))))
  }

  lemma WeaponRoundTrip(w: Weapon)
    ensures WeaponFromDict(WeaponToDict(w)) == Ok(w)
  {
    var d := WeaponToDict(w).fields;
    WeaponFields(w);
    assert PairOf(d["damage_range"]) == Some(w.range);
    assert OptStrOf(d["class_req"]) == Ok(w.classReq);
  }

  /** What `WeaponToDict` writes, key by key, and nothing else. */
  lemma WeaponFields(w: Weapon)
    ensures var d := WeaponToDict(w).fields;
      && d.Keys == {"name", "level_req", "damage_range", "rarity", "class_req", "starter", "bound"}
      && "name" in d && "level_req" in d && "damage_range" in d && "rarity" in d
      && "class_req" in d && "starter" in d && "bound" in d
      && d["name"] == VStr(w.name) && d["level_req"] == VInt(w.levelReq)
      && d["damage_range"] == PairValue(w.range) && d["rarity"] == VReal(w.rarity)
      && d["class_req"] == OptStrValue(w.classReq)
      && d["starter"] == VBool(w.starter) && d["bound"] == VBool(w.bound)
  {
  }

  function EffectToValue(e: Effect): Value {
    match e
    case EInt(n) => VInt(n)
    case EWeapon(w) => VDict(map["__weapon__" := WeaponToDict(w)])
  }

  /** One decoded effect entry: a `{'__weapon__': ...}` dict becomes the
      weapon, an int stays an int. */
  function EffectOf(v: Value): Decoded<Effect> {
    if v.VDict? && "__weapon__" in v.fields then
      match WeaponFromDict(v.fields["__weapon__"])
      case Ok(w) => Ok(EWeapon(w))
      case _ => Fail
    else if v.VInt? then Ok(EInt(v.i))
    else Fail
  }

  function EffectsToValue(m: map<string, Effect>): Value {
    VDict(map k | k in m :: EffectToValue(m[k]))
  }

  function EffectsOf(m: map<string, Value>): Decoded<map<string, Effect>> {
    if forall k :: k in m ==> EffectOf(m[k]).Ok? then Ok(map k | k in m :: EffectOf(m[k]).value)
    else Fail
  }

  /** `Item.to_dict()`: embedded weapons are wrapped as `{'__weapon__': ...}`. */
  function ItemToDict(it: Item): (r: Value)
    ensures r.VDict? && r.fields.Keys == {"name", "kind", "effect"}
    ensures r.fields["name"] == VStr(it.name) && r.fields["kind"] == VStr(it.kind)
    ensures r.fields["effect"].VNone? <==> it.effect.None?
  {
    VDict(map[
      "name" := VStr(it.name),
      "kind" := VStr(it.kind),
      "effect" := if it.effect.None? then VNone else EffectsToValue(it.effect.value)])
  }

  /** `Item.from_dict(v)`: None for a falsy value. */
  function ItemFromDict(v: Value): (r: Decoded<Item>)
    ensures !Truthy(v) <==> r == Null
  {
    if !Truthy(v) then Null
    else if !v.VDict? then Fail
    else
      var d := v.fields;
      var name := Get(d, "name", VNone);
      var kind := Get(d, "kind", VNone);
      var eff := Get(d, "effect", VNone);
      if !name.VStr? || !kind.VStr? then Fail
      else if eff.VNone? then Ok(Item(name.s, kind.s, None))
      else if !eff.VDict? then Fail
      else match EffectsOf(eff.fields)
        case Ok(m) => Ok(Item(name.s, kind.s, Some(m)))
        case _ => Fail
  }

  lemma EffectRoundTrip(e: Effect)
    ensures EffectOf(EffectToValue(e)) == Ok(e)
  {
    if e.EWeapon? {
      WeaponRoundTrip(e.w);
    }
  }

  /** `Item.from_dict(i.to_dict()) == i`, embedded weapons included. */
  lemma ItemRoundTrip(it: Item)
    ensures ItemFromDict(ItemToDict(it)) == Ok(it)
  {
    var d := ItemToDict(it).fields;
    assert Get(d, "name", VNone) == VStr(it.name);
    assert Get(d, "kind", VNone) == VStr(it.kind);
    if it.effect.Some? {
      assert Get(d, "effect", VNone) == EffectsToValue(it.effect.value);
      EffectsRoundTrip(it.effect.value);
    } else {
      assert Get(d, "effect", VNone) == VNone;
    }
  }

  /** An effect map reads back from its dict form. */
  lemma EffectsRoundTrip(m: map<string, Effect>)
    ensures EffectsOf(EffectsToValue(m).fields) == Ok(m)
  {
    var vm := EffectsToValue(m).fields;
    EffectsReadBack(m);
    var back := map k | k in vm :: EffectOf(vm[k]).value;
    assert back.Keys == m.Keys;
    assert back == m;
  }

  /** Each stored effect reads back as itself. */
  lemma EffectsReadBack(m: map<string, Effect>)
    ensures var vm := EffectsToValue(m).fields;
      && vm.Keys == m.Keys
      && forall k :: k in vm ==> EffectOf(vm[k]) == Ok(m[k])
  {
    var vm := EffectsToValue(m).fields;
    forall k | k in vm
      ensures EffectOf(vm[k]) == Ok(m[k])
    {
      EffectRoundTrip(m[k]);
    }
  }
}
