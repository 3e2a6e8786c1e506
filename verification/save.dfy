/** `GameState`: the party and the little of the dungeon that is saved (the
    boss lock and the merchant stock), as a plain dict and back. */
module Saves {
  import opened Base
  import opened Text
  import opened Values
  import opened Items
  import opened Players
  import opened PlayerSave
  import opened Dungeons

  /** `pos` is the attribute `from_dict` sets on the dungeon it builds; a
      dungeon made any other way has none. */
  datatype GameState = GameState(players: seq<Player>, dungeon: Option<Dungeon>, pos: Option<Pos>)

  /** What `GameState(players, ...)` may be given: nothing, a list (or
      tuple) of players, or one player. */
  datatype PartyArg = NoParty | Party(ps: seq<Player>) | OnePlayer(p: Player)

  /** `GameState.__init__`: the players always end up a list. */
  function NewGameState(arg: PartyArg, dungeon: Option<Dungeon>): (gs: GameState)
    ensures arg.NoParty? ==> gs.players == []
    ensures arg.OnePlayer? ==> gs.players == [arg.p]
    ensures arg.Party? ==> gs.players == arg.ps
    ensures gs.dungeon == dungeon && gs.pos.None?
  {
    match arg
    case NoParty => GameState([], dungeon, None)
    case Party(ps) => GameState(ps, dungeon, None)
    case OnePlayer(p) => GameState([p], dungeon, None)
  }

  // ---------------------------------------------------------------------------
  // Room keys

  /** `f"{x},{y}"`. `KeyRoundTrip` and `KeyInjective` state how it reads
      back. */
  function RoomKey(p: Pos): string {
    IntToString(p.0) + "," + IntToString(p.1)
  }

  /** `[int(z) for z in key.split(',')]` unpacked into `x, y`; `None` where
      Python raises. */
  function CoordOf(key: string): (r: Option<Pos>)
    ensures r.Some? ==> |SplitOn(key, ',')| == 2
  {
    var parts := SplitOn(key, ',');
    if |parts| != 2 then None
    else match (ParseInt(parts[0]), ParseInt(parts[1]))
      case (Some(x), Some(y)) => Some((x, y))
      case _ => None
  }

  /** Every room key reads back as its room. */
  lemma KeyRoundTrip(p: Pos)
    ensures CoordOf(RoomKey(p)) == Some(p)
  {
    IntToStringHasNoComma(p.0);
    IntToStringHasNoComma(p.1);
    SplitOnJoin(IntToString(p.0), IntToString(p.1), ',');
    ParseIntOfIntToString(p.0);
    ParseIntOfIntToString(p.1);
  }

  lemma KeyInjective(p: Pos, q: Pos)
    ensures RoomKey(p) == RoomKey(q) ==> p == q
  {
    KeyRoundTrip(p);
    KeyRoundTrip(q);
  }

  // ---------------------------------------------------------------------------
  // Saving

  /** A merchant's stock: `[(item.to_dict(), price), ...]`. */
  function StockValue(stock: seq<Offer>): (v: Value)
    ensures v.VList? && |v.items| == |stock|
  {
    VList(seq(|stock|, k requires 0 <= k < |stock| => VList([ItemToDict(stock[k].item), VInt(stock[k].price)])))
  }

  /** The merchant stock of every room that has a merchant, by room key. */
  function MerchantInventories(rooms: map<Pos, Room>): (m: map<string, Value>)
    ensures forall p :: p in rooms && rooms[p].merchant.Some? ==>
      RoomKey(p) in m && m[RoomKey(p)] == StockValue(rooms[p].merchant.value)
    ensures forall k :: k in m ==> exists p :: p in rooms && rooms[p].merchant.Some? && k == RoomKey(p)
  {
    forall p, q ensures RoomKey(p) == RoomKey(q) ==> p == q {
      KeyInjective(p, q);
    }
    map p | p in rooms && rooms[p].merchant.Some? :: RoomKey(p) := StockValue(rooms[p].merchant.value)
  }

  /** `GameState.to_dict()`: the saved players, the position (`(0, 0)`
      when the dungeon has none), the boss lock (`True` without a
      dungeon) and the merchant stocks. */
  function ToDict(gs: GameState): (v: map<string, Value>)
    ensures v.Keys == {"players", "pos", "dungeon"}
    ensures v["players"].VList? && |v["players"].items| == |gs.players|
    ensures v["dungeon"].VDict? && v["dungeon"].fields.Keys == {"boss_locked", "merchant_inventories"}
    ensures v["dungeon"].fields["boss_locked"] == VBool(gs.dungeon.None? || gs.dungeon.value.bossLocked)
  {
    var rooms := if gs.dungeon.Some? then gs.dungeon.value.rooms else map[];
    map[
      "players" := VList(SavedAll(gs.players)),
      "pos" := PairValue(if gs.dungeon.Some? && gs.pos.Some? then gs.pos.value else (0, 0)),
      "dungeon" := VDict(map[
        "boss_locked" := VBool(gs.dungeon.None? || gs.dungeon.value.bossLocked),
        "merchant_inventories" := VDict(MerchantInventories(rooms))])]
  }

  // ---------------------------------------------------------------------------
  // Loading

  /** `for d in data.get('players', [])`, each through
      `Player.load_state`. Iterating an empty dict or string gives no
      players; any other non-list raises, as does an entry that is not a
      dict. */
  function PlayersOf(v: Value): (r: Decoded<seq<Player>>)
    ensures r != Null
    ensures r.Ok? && v.VList? ==> |r.value| == |v.items|
    ensures r.Ok? && v.VList? ==> forall k :: 0 <= k < |v.items| ==>
      v.items[k].VDict? && LoadState(v.items[k].fields) == Ok(r.value[k])
  {
    match v
    case VList(vs) => LoadAll(vs)
    case VDict(m) => if |m| == 0 then Ok([]) else Fail
    case VStr(s) => if |s| == 0 then Ok([]) else Fail
    case _ => Fail
  }

  /** Each entry must be a dict that `load_state` accepts. */
  function LoadAll(vs: seq<Value>): (r: Decoded<seq<Player>>)
    ensures r != Null
    ensures r.Ok? ==> |r.value| == |vs|
    ensures r.Ok? ==> forall k :: 0 <= k < |vs| ==> vs[k].VDict? && LoadState(vs[k].fields) == Ok(r.value[k])
    ensures r.Fail? ==> exists k :: 0 <= k < |vs| && !(vs[k].VDict? && LoadState(vs[k].fields).Ok?)
  {
    if forall k :: 0 <= k < |vs| ==> vs[k].VDict? && LoadState(vs[k].fields).Ok? then
      Ok(seq(|vs|, k requires 0 <= k < |vs| && vs[k].VDict? && LoadState(vs[k].fields).Ok? =>
        LoadState(vs[k].fields).value))
    else Fail
  }

  /** One restored stock item: `Item.from_dict(d)`, or when that raises
      because `d` is not a dict, `Item(str(d), 'misc', None)`. A falsy `d`
      gives `None`, which a stock of items cannot hold. */
  function StockItemOf(v: Value): (r: Decoded<Item>)
    ensures r != Null
    ensures ItemFromDict(v).Ok? ==> r == ItemFromDict(v)
    ensures !Truthy(v) ==> r == Fail
  {
    match ItemFromDict(v)
    case Ok(it) => Ok(it)
    case Null => Fail
    case Fail =>
      match v
      case VStr(s) => Ok(Item(s, "misc", None))
      case VInt(i) => Ok(Item(IntToString(i), "misc", None))
      case VBool(b) => Ok(Item(if b then "True" else "False", "misc", None))
      case _ => Fail
  }

  /** `for item_dict, price in invlist`: each entry a pair. */
  function StockOf(v: Value): (r: Decoded<seq<Offer>>)
    ensures r != Null
    ensures r.Ok? ==> v.VList? && |r.value| == |v.items|
  {
    if !v.VList? then Fail else OffersOf(v.items)
  }

  function OffersOf(vs: seq<Value>): (r: Decoded<seq<Offer>>)
    ensures r != Null
    ensures r.Ok? ==> |r.value| == |vs|
    ensures r.Ok? ==> forall k :: 0 <= k < |vs| ==>
      && vs[k].VList? && |vs[k].items| == 2 && vs[k].items[1] == VInt(r.value[k].price)
      && StockItemOf(vs[k].items[0]) == Ok(r.value[k].item)
  {
    if |vs| == 0 then Ok([])
    else
      var n := |vs| - 1;
      var prev := OffersOf(vs[..n]);
      var e := vs[n];
      if prev.Fail? || !e.VList? || |e.items| != 2 || !e.items[1].VInt? then Fail
      else match StockItemOf(e.items[0])
        case Ok(it) => Ok(prev.value + [Offer(it, e.items[1].i)])
        case _ => Fail
  }

  /** The keys of `merchant_inventories` that name room `p`. */
  function KeysFor(m: map<string, Value>, p: Pos): set<string> {
    set k | k in m && CoordOf(k) == Some(p)
  }

  /** The one key naming `p`, when there is exactly one. */
  function OnlyKey(keys: set<string>): (k: string)
    requires |keys| == 1
    ensures keys == {k}
  {
    var k :| k in keys;
    assert keys == {k} by {
      assert |keys - {k}| == 0;
    }
    k
  }

  /** The merchant room's stock after loading: replaced by the saved list
      stored under its key, else kept. */
  function RestoredStock(m: map<string, Value>, p: Pos, current: seq<Offer>): (r: Decoded<seq<Offer>>)
    ensures r != Null
    ensures |KeysFor(m, p)| == 0 ==> r == Ok(current)
    ensures |KeysFor(m, p)| == 1 ==> r == StockOf(m[OnlyKey(KeysFor(m, p))])
  {
    var keys := KeysFor(m, p);
    if |keys| == 0 then Ok(current)
    else if |keys| == 1 then StockOf(m[OnlyKey(keys)])
    else Fail
  }

  /** The blank `Dungeon()` that loading starts from. */
  function DefaultDungeon(): (d: Dungeon)
    ensures d == NewDungeon(5, 5) && d.merchantAt in d.rooms && d.rooms[d.merchantAt].merchant == Some(MerchantStock)
  {
    NewDungeonLayout(5, 5);
    NewDungeon(5, 5)
  }

  /** A blank `Dungeon()` with the given boss lock and merchant stock. */
  function Restored(locked: bool, stock: seq<Offer>): (d: Dungeon)
    ensures var blank := DefaultDungeon();
      && d.rooms.Keys == blank.rooms.Keys && d.width == 5 && d.height == 5
      && d.start == blank.start && d.merchantAt == blank.merchantAt && d.bossLocked == locked
      && d.rooms[(1, 0)] == blank.rooms[(1, 0)].(merchant := Some(stock))
      && forall p :: p in blank.rooms && p != (1, 0) ==> d.rooms[p] == blank.rooms[p]
  {
    var blank := DefaultDungeon();
    SetRoom(blank, (1, 0), blank.rooms[(1, 0)].(merchant := Some(stock))).(bossLocked := locked)
  }

  /** Restoring the default lock and stock gives the blank dungeon back. */
  lemma RestoredBlank()
    ensures Restored(true, MerchantStock) == DefaultDungeon()
  {
    var blank := DefaultDungeon();
    var d := Restored(true, MerchantStock);
    assert d.rooms == blank.rooms;
  }

  /** What loading keeps of a saved dungeon: the boss lock and the stock
      of the merchant at (1, 0). */
  datatype SavedDungeon = SavedDungeon(locked: bool, stock: seq<Offer>)

  /** Reading `data['dungeon']`: the boss lock (default `True`) and the
      merchant's stock. Every key of `merchant_inventories` must parse as
      `x,y`; a key naming no room with a merchant is then skipped. */
  function DungeonOf(dv: Value): (r: Decoded<SavedDungeon>)
    ensures r != Null
    ensures r.Ok? ==> dv.VDict? && r.value.locked == Truthy(Get(dv.fields, "boss_locked", VBool(true)))
    ensures r.Ok? ==> var mv := Get(dv.fields, "merchant_inventories", VDict(map[]));
      && mv.VDict? && (forall k :: k in mv.fields ==> CoordOf(k).Some?)
      && RestoredStock(mv.fields, (1, 0), MerchantStock) == Ok(r.value.stock)
  {
    if !dv.VDict? then Fail
    else
      var locked := Truthy(Get(dv.fields, "boss_locked", VBool(true)));
      var mv := Get(dv.fields, "merchant_inventories", VDict(map[]));
      if !mv.VDict? || exists k :: k in mv.fields && CoordOf(k).None? then Fail
      else
        match RestoredStock(mv.fields, (1, 0), MerchantStock)
        case Ok(stock) => Ok(SavedDungeon(locked, stock))
        case _ => Fail
  }

  /** Without a saved dungeon, loading gives the blank one. */
  lemma NoDungeonSaved()
    ensures DungeonOf(VDict(map[])) == Ok(SavedDungeon(true, MerchantStock))
  {
    assert KeysFor(map[], (1, 0)) == {};
  }

  /** `GameState.from_dict(data)`: the players through `load_state`, the
      saved position, and the dungeon from `DungeonOf`; everything else
      about the dungeon, such as which rooms were visited, starts over. */
  function FromDict(data: map<string, Value>): (r: Decoded<GameState>)
    ensures r != Null
    ensures r.Ok? ==> r.value.dungeon.Some? && r.value.pos.Some?
    ensures r.Ok? ==> var d := r.value.dungeon.value; var blank := DefaultDungeon();
      && d.rooms.Keys == blank.rooms.Keys && d.width == 5 && d.height == 5
      && d.start == blank.start && d.merchantAt == blank.merchantAt
      && forall p :: p in blank.rooms && p != blank.merchantAt ==> d.rooms[p] == blank.rooms[p]
    ensures r.Ok? && "dungeon" in data ==>
      (data["dungeon"].VDict? &&
       r.value.dungeon.value.bossLocked == Truthy(Get(data["dungeon"].fields, "boss_locked", VBool(true))))
    ensures r.Ok? && "dungeon" !in data ==> r.value.dungeon == Some(DefaultDungeon())
    ensures r.Ok? && "pos" !in data ==> r.value.pos == Some((0, 0))
  {
    var players := PlayersOf(Get(data, "players", VList([])));
    var pos := PairOf(Get(data, "pos", PairValue((0, 0))));
    var dungeon := DungeonOf(Get(data, "dungeon", VDict(map[])));
    NoDungeonSaved();
    RestoredBlank();
    if players.Fail? || pos.None? || dungeon.Fail? then Fail
    else Ok(GameState(players.value, Some(Restored(dungeon.value.locked, dungeon.value.stock)), pos))
  }

  // ---------------------------------------------------------------------------
  // Round trip

  /** A dungeon laid out like `Dungeon()`: its only merchant is at (1, 0). */
  predicate MerchantOnlyAt(d: Dungeon) {
    && d.merchantAt in d.rooms && d.rooms[d.merchantAt].merchant.Some? && d.merchantAt == (1, 0)
    && forall p :: p in d.rooms && d.rooms[p].merchant.Some? ==> p == d.merchantAt
  }

  /** The saved merchant map has exactly one key for the merchant room,
      holding its stock. */
  lemma SavedStockKey(d: Dungeon)
    requires MerchantOnlyAt(d)
    ensures var m := MerchantInventories(d.rooms);
      && KeysFor(m, (1, 0)) == {RoomKey((1, 0))}
      && m[RoomKey((1, 0))] == StockValue(d.rooms[(1, 0)].merchant.value)
  {
    var m := MerchantInventories(d.rooms);
    var key := RoomKey((1, 0));
    KeyRoundTrip((1, 0));
    OnlyMerchantKey(d);
    assert key in KeysFor(m, (1, 0));
    assert KeysFor(m, (1, 0)) == {key} by {
      forall k | k in KeysFor(m, (1, 0)) ensures k == key {
        assert k in m;
      }
    }
  }

  /** Every key of the saved merchant map reads back as a room. */
  lemma SavedKeysRead(d: Dungeon)
    requires MerchantOnlyAt(d)
    ensures forall k :: k in MerchantInventories(d.rooms) ==> CoordOf(k).Some?
  {
    KeyRoundTrip((1, 0));
    OnlyMerchantKey(d);
  }

  /** The merchant room's key is the only key of the saved merchant map. */
  lemma OnlyMerchantKey(d: Dungeon)
    requires MerchantOnlyAt(d)
    ensures forall k :: k in MerchantInventories(d.rooms) ==> k == RoomKey((1, 0))
  {
    var m := MerchantInventories(d.rooms);
    forall k | k in m ensures k == RoomKey((1, 0)) {
      var p :| p in d.rooms && d.rooms[p].merchant.Some? && k == RoomKey(p);
      assert p == (1, 0);
    }
  }

  /** Reading a saved stock gives it back. */
  lemma {:induction false} StockRoundTrip(stock: seq<Offer>)
    ensures StockOf(StockValue(stock)) == Ok(stock)
  {
    var vs := StockValue(stock).items;
    if |stock| > 0 {
      var n := |stock| - 1;
      assert vs[..n] == StockValue(stock[..n]).items;
      StockRoundTrip(stock[..n]);
      ItemRoundTrip(stock[n].item);
      assert stock == stock[..n] + [stock[n]];
    }
  }

  /** Reading saved players gives back what `load_state` makes of each. */
  lemma PlayersRoundTrip(ps: seq<Player>)
    requires forall k :: 0 <= k < |ps| ==> Restorable(ps[k])
    ensures LoadAll(SavedAll(ps))
         == Ok(ReloadedAll(ps))
  {
    var vs := SavedAll(ps);
    forall k | 0 <= k < |ps| ensures vs[k].VDict? && LoadState(vs[k].fields) == Ok(Reloaded(ps[k])) {
      SaveLoadRoundTrip(ps[k]);
    }
    var r := LoadAll(vs);
    assert r.Ok?;
    assert r.value == ReloadedAll(ps);
  }

  /** `[p.save_state() for p in players]`. */
  function SavedAll(ps: seq<Player>): (r: seq<Value>)
    ensures |r| == |ps| && forall k :: 0 <= k < |ps| ==> r[k] == SaveState(ps[k])
  {
    seq(|ps|, k requires 0 <= k < |ps| => SaveState(ps[k]))
  }

  function ReloadedAll(ps: seq<Player>): (r: seq<Player>)
    ensures |r| == |ps| && forall k :: 0 <= k < |ps| ==> r[k] == Reloaded(ps[k])
  {
    seq(|ps|, k requires 0 <= k < |ps| => Reloaded(ps[k]))
  }

  /** `load_state(save_state(p))`. */
  function Reloaded(p: Player): Player {
    p.(lastHit := false, weapon := if p.weapon.Some? then p.weapon else Starter(p.pclass))
  }

  /** The saved merchant map restores the merchant's stock. */
  lemma SavedStockLoads(d: Dungeon)
    requires MerchantOnlyAt(d)
    ensures var m := MerchantInventories(d.rooms);
      && (forall k :: k in m ==> CoordOf(k).Some?)
      && RestoredStock(m, (1, 0), MerchantStock) == Ok(d.rooms[(1, 0)].merchant.value)
  {
    SavedStockKey(d);
    SavedKeysRead(d);
    StockUnderKey(MerchantInventories(d.rooms), d.rooms[(1, 0)].merchant.value);
  }

  /** A merchant map whose one key for the room at (1, 0) holds a saved
      stock restores that stock. */
  lemma StockUnderKey(m: map<string, Value>, stock: seq<Offer>)
    requires KeysFor(m, (1, 0)) == {RoomKey((1, 0))}
    requires m[RoomKey((1, 0))] == StockValue(stock)
    ensures RestoredStock(m, (1, 0), MerchantStock) == Ok(stock)
  {
    assert OnlyKey(KeysFor(m, (1, 0))) == RoomKey((1, 0));
    StockRoundTrip(stock);
  }

  /** The saved dungeon part reads back as a blank dungeon with the boss
      lock and the merchant's stock. */
  lemma DungeonRoundTrip(d: Dungeon)
    requires MerchantOnlyAt(d)
    ensures DungeonOf(VDict(map["boss_locked" := VBool(d.bossLocked),
                                "merchant_inventories" := VDict(MerchantInventories(d.rooms))]))
         == Ok(SavedDungeon(d.bossLocked, d.rooms[(1, 0)].merchant.value))
  {
    SavedStockLoads(d);
    SavedDungeonReads(d.bossLocked, MerchantInventories(d.rooms), d.rooms[(1, 0)].merchant.value);
  }

  /** A saved dungeon dict whose merchant map reads back reads back whole. */
  lemma SavedDungeonReads(locked: bool, m: map<string, Value>, stock: seq<Offer>)
    requires forall k :: k in m ==> CoordOf(k).Some?
    requires RestoredStock(m, (1, 0), MerchantStock) == Ok(stock)
    ensures DungeonOf(VDict(map["boss_locked" := VBool(locked), "merchant_inventories" := VDict(m)]))
         == Ok(SavedDungeon(locked, stock))
  {
    var dv := map["boss_locked" := VBool(locked), "merchant_inventories" := VDict(m)];
    assert Get(dv, "merchant_inventories", VDict(map[])) == VDict(m);
    assert Get(dv, "boss_locked", VBool(true)) == VBool(locked);
  }

  /** `GameState.from_dict(gs.to_dict())` for a game on a default-shaped
      dungeon: the players come back as `load_state` rebuilds them, and the
      dungeon comes back blank except for the position, the boss lock and
      the merchant's stock. */
  lemma SaveLoadGame(gs: GameState)
    requires gs.dungeon.Some? && MerchantOnlyAt(gs.dungeon.value)
    requires forall k :: 0 <= k < |gs.players| ==> Restorable(gs.players[k])
    ensures var d := gs.dungeon.value;
      FromDict(ToDict(gs))
      == Ok(GameState(ReloadedAll(gs.players),
                      Some(Restored(d.bossLocked, d.rooms[(1, 0)].merchant.value)),
                      Some(if gs.pos.Some? then gs.pos.value else (0, 0))))
  {
    var d := gs.dungeon.value;
    var v := ToDict(gs);
    var pos := if gs.pos.Some? then gs.pos.value else (0, 0);
    var players := ReloadedAll(gs.players);
    SavedParts(gs);
    PlayersRoundTrip(gs.players);
    assert PlayersOf(Get(v, "players", VList([]))) == Ok(players);
    DungeonRoundTrip(d);
    assert DungeonOf(Get(v, "dungeon", VDict(map[]))) == Ok(SavedDungeon(d.bossLocked, d.rooms[(1, 0)].merchant.value));
    ReadsAsGame(v, players, pos, d.bossLocked, d.rooms[(1, 0)].merchant.value);
  }

  /** What `to_dict` stores under each of its three keys. */
  lemma SavedParts(gs: GameState)
    requires gs.dungeon.Some?
    ensures var v := ToDict(gs);
      var d := gs.dungeon.value;
      && Get(v, "players", VList([])) == VList(SavedAll(gs.players))
      && PairOf(Get(v, "pos", PairValue((0, 0)))) == Some(if gs.pos.Some? then gs.pos.value else (0, 0))
      && Get(v, "dungeon", VDict(map[])) == VDict(map["boss_locked" := VBool(d.bossLocked),
                                                     "merchant_inventories" := VDict(MerchantInventories(d.rooms))])
  {
  }

  /** A dict whose three parts read back reads back as that game. */
  lemma ReadsAsGame(v: map<string, Value>, players: seq<Player>, pos: Pos, locked: bool, stock: seq<Offer>)
    requires PlayersOf(Get(v, "players", VList([]))) == Ok(players)
    requires PairOf(Get(v, "pos", PairValue((0, 0)))) == Some(pos)
    requires DungeonOf(Get(v, "dungeon", VDict(map[]))) == Ok(SavedDungeon(locked, stock))
    ensures FromDict(v) == Ok(GameState(players, Some(Restored(locked, stock)), Some(pos)))
  {
  }
}
