/** The dungeon grid and what happens when a player walks into a room:
    `Dungeon`, `Room`, `Merchant`, `move_player`, `enter_room_for_player`
    with its chest and merchant handlers, `generate_enemy_from_players` and
    `distribute_boss_loot`. */
module Dungeons {
  import opened Base
  import opened Text
  import opened Oracle
  import opened Creatures
  import opened Items
  import opened Utils
  import opened Players
  import opened Loot
  import opened Combat
  import opened Rewards

  // ---------------------------------------------------------------------------
  // Rooms and the grid

  /** One merchant offer: an item and its price. */
  datatype Offer = Offer(item: Item, price: int)

  /** `Merchant().inventory`. */
  const MerchantStock: seq<Offer> := [
    Offer(Item("Lesser Health Potion", "potion", Some(map["hp" := EInt(25)])), 30),
    Offer(GreaterPotion, 80),
    Offer(Item("Lesser Mana Potion", "mana", Some(map["mp" := EInt(25)])), 35),
    Offer(Item("Greater Mana Potion", "mana", Some(map["mp" := EInt(60)])), 90),
    Offer(Item("Revive Token", "revive", Some(map[])), 300)
  ]

  /** A room; its coordinates are its key in `Dungeon.rooms`. `elite` is
      the `special = 'elite'` marker. */
  datatype Room = Room(visited: bool, monsters: seq<Creature>, chest: Option<Prize>,
                       merchant: Option<seq<Offer>>, isBoss: bool, elite: bool)

  datatype Dungeon = Dungeon(width: int, height: int, rooms: map<Pos, Room>, bossLocked: bool,
                             merchantAt: Pos, start: Pos)

  /** The elite that carries the key to the boss room. */
  const Sentinel: Creature := New("Ruins Sentinel (Elite)", 23, 350, 80, 28.0, 12.0, Some("elite_key"), 1500)

  /** The boss. */
  const Dragon: Creature := New("Ancient Dragon", BossLevel, 600, 200, 40.0, 15.0, None, 2000)

  predicate InGrid(w: int, h: int, p: Pos) {
    0 <= p.0 < w && 0 <= p.1 < h
  }

  function FreshRoom(w: int, h: int, p: Pos): Room {
    Room(false, if p == (w - 2, h - 2) then [Sentinel] else [], None,
         if p == (1, 0) then Some(MerchantStock) else None,
         p == (w - 1, h - 1), p == (w - 2, h - 2))
  }

  /** `{(x, y): Room(x, y) for x in range(width) for y in range(height)}`
      with the special rooms marked. */
  function Grid(w: int, h: int): (rooms: map<Pos, Room>)
    ensures forall p :: p in rooms <==> InGrid(w, h, p)
    ensures forall p :: p in rooms ==> rooms[p] == FreshRoom(w, h, p)
  {
    var rooms := map x: int, y: int | 0 <= x < w && 0 <= y < h :: (x, y) := FreshRoom(w, h, (x, y));
    assert forall p :: p in rooms <==> InGrid(w, h, p) by {
      forall p ensures p in rooms <==> InGrid(w, h, p) {
        assert p == (p.0, p.1);
      }
    }
    assert forall p :: p in rooms ==> rooms[p] == FreshRoom(w, h, p) by {
      forall p | p in rooms ensures rooms[p] == FreshRoom(w, h, p) {
        assert p == (p.0, p.1);
      }
    }
    rooms
  }

  /** `Dungeon(width, height)`: a grid of unvisited rooms behind a locked
      boss door, entered at (0, 0). Python raises on a grid narrower or
      shorter than 2, where the elite's room does not exist. */
  function NewDungeon(w: int, h: int): (d: Dungeon)
    requires w >= 2 && h >= 2
    ensures forall p :: p in d.rooms <==> InGrid(w, h, p)
    ensures d.bossLocked && d.start == (0, 0) && d.merchantAt == (1, 0)
    ensures d.width == w && d.height == h
  {
    Dungeon(w, h, Grid(w, h), true, (1, 0), (0, 0))
  }

  /** The layout: the boss in the far corner, the key-carrying elite next
      to it on the diagonal, the merchant at (1, 0), every room unvisited
      and without a chest. */
  lemma NewDungeonLayout(w: int, h: int)
    requires w >= 2 && h >= 2
    ensures var d := NewDungeon(w, h);
      && (forall p :: p in d.rooms ==> !d.rooms[p].visited && d.rooms[p].chest.None?)
      && (forall p :: p in d.rooms ==> (d.rooms[p].isBoss <==> p == (w - 1, h - 1)))
      && (forall p :: p in d.rooms ==> (|d.rooms[p].monsters| > 0 <==> p == (w - 2, h - 2)))
      && (forall p :: p in d.rooms ==> (d.rooms[p].merchant.Some? <==> p == (1, 0)))
      && d.rooms[(w - 2, h - 2)].monsters == [Sentinel] && Sentinel.special == Some("elite_key")
      && d.rooms[(1, 0)].merchant == Some(MerchantStock)
  {
    var d := NewDungeon(w, h);
    assert InGrid(w, h, (w - 2, h - 2)) && InGrid(w, h, (1, 0));
  }

  // ---------------------------------------------------------------------------
  // Movement

  /** `move_player`: one step, clamped to the grid; any other word leaves
      the position alone. */
  function Move(d: Dungeon, p: Pos, direction: string): (r: Pos)
    ensures direction != "forward" && direction != "left" && direction != "right" && direction != "back" ==> r == p
    ensures InGrid(d.width, d.height, p) ==> InGrid(d.width, d.height, r)
    ensures InGrid(d.width, d.height, p) ==> Abs(r.0 - p.0) + Abs(r.1 - p.1) <= 1
  {
    if direction == "forward" then (p.0, Min(d.height - 1, p.1 + 1))
    else if direction == "left" then (Max(0, p.0 - 1), p.1)
    else if direction == "right" then (Min(d.width - 1, p.0 + 1), p.1)
    else if direction == "back" then (p.0, Max(0, p.1 - 1))
    else p
  }

  /** Away from the walls each step is undone by the opposite one; against
      a wall the step outwards goes nowhere. */
  lemma MoveUndo(d: Dungeon, p: Pos)
    requires InGrid(d.width, d.height, p)
    ensures p.1 < d.height - 1 ==> Move(d, Move(d, p, "forward"), "back") == p
    ensures p.1 > 0 ==> Move(d, Move(d, p, "back"), "forward") == p
    ensures p.0 > 0 ==> Move(d, Move(d, p, "left"), "right") == p
    ensures p.0 < d.width - 1 ==> Move(d, Move(d, p, "right"), "left") == p
    ensures p.1 == d.height - 1 ==> Move(d, p, "forward") == p
    ensures p.1 == 0 ==> Move(d, p, "back") == p
    ensures p.0 == 0 ==> Move(d, p, "left") == p
    ensures p.0 == d.width - 1 ==> Move(d, p, "right") == p
  {
  }

  // ---------------------------------------------------------------------------
  // Who takes part

  /** `players_here`: the living party members standing at `pos`, in party
      order. */
  function Here(ps: seq<Player>, pos: Pos): (r: seq<nat>)
    ensures forall k :: 0 <= k < |r| ==> r[k] < |ps| && ps[r[k]].pos == pos && Alive(ps[r[k]])
    ensures forall i :: 0 <= i < |ps| && ps[i].pos == pos && Alive(ps[i]) ==> i in r
    ensures forall a, b :: 0 <= a < b < |r| ==> r[a] < r[b]
  {
    if |ps| == 0 then []
    else
      var n := |ps| - 1;
      var prev := Here(ps[..n], pos);
      if ps[n].pos == pos && Alive(ps[n]) then prev + [n] else prev
  }

  function Distance(a: Pos, b: Pos): int {
    Abs(a.0 - b.0) + Abs(a.1 - b.1)
  }

  /** `adjacent_players`: living party members other than the initiator
      `i` within one step of `pos` (standing in the room counts). */
  function Adjacent(ps: seq<Player>, i: nat, pos: Pos): (r: seq<nat>)
    ensures forall k :: 0 <= k < |r| ==> r[k] < |ps| && r[k] != i && Alive(ps[r[k]]) && Distance(ps[r[k]].pos, pos) <= 1
    ensures forall k :: 0 <= k < |ps| && k != i && Alive(ps[k]) && Distance(ps[k].pos, pos) <= 1 ==> k in r
    ensures forall a, b :: 0 <= a < b < |r| ==> r[a] < r[b]
  {
    if |ps| == 0 then []
    else
      var n := |ps| - 1;
      var prev := Adjacent(ps[..n], i, pos);
      if n != i && Alive(ps[n]) && Distance(ps[n].pos, pos) <= 1 then prev + [n] else prev
  }

  datatype Joined = Joined(players: seq<Player>, here: seq<nat>, rest: Feed)

  datatype Picks = Picks(items: seq<nat>, rest: Feed)

  /** The candidates who answer yes, in the order they were asked: an
      answer counts when, stripped and lower-cased, it starts with `y`. */
  function Accepted(cands: seq<nat>, f: Feed): (r: Picks)
    ensures forall k :: 0 <= k < |r.items| ==> r.items[k] in cands
    ensures Distinct(cands) ==> Distinct(r.items)
    ensures r.rest.rolls == f.rolls
    decreases |cands|
  {
    if |cands| == 0 then Picks([], f)
    else
      var answer := ReadLine(f);
      var tail := Accepted(cands[1..], answer.rest);
      if SaysYes(answer.text) then
        YesFirst(cands, tail.items);
        Picks([cands[0]] + tail.items, tail.rest)
      else
        assert forall k :: 0 <= k < |tail.items| ==> tail.items[k] in cands[1..];
        tail
  }

  /** The first candidate's yes put in front of the others' answers. */
  lemma YesFirst(cands: seq<nat>, tail: seq<nat>)
    requires |cands| > 0
    requires forall k :: 0 <= k < |tail| ==> tail[k] in cands[1..]
    requires Distinct(cands[1..]) ==> Distinct(tail)
    ensures forall k :: 0 <= k < |[cands[0]] + tail| ==> ([cands[0]] + tail)[k] in cands
    ensures Distinct(cands) ==> Distinct([cands[0]] + tail)
  {
    if Distinct(cands) {
      DistinctFront(cands);
    }
  }

  lemma DistinctFront(s: seq<nat>)
    requires Distinct(s) && |s| > 0
    ensures Distinct(s[1..]) && s[0] !in s[1..]
  {
    assert forall k :: 0 <= k < |s[1..]| ==> s[1..][k] == s[k + 1];
  }

  /** Every player in `ks` moved to `pos`. */
  function MoveInto(ps: seq<Player>, ks: seq<nat>, pos: Pos): (r: seq<Player>)
    ensures |r| == |ps|
    ensures forall j :: 0 <= j < |ps| ==> r[j] == if j in ks then ps[j].(pos := pos) else ps[j]
  {
    seq(|ps|, j requires 0 <= j < |ps| => if j in ks then ps[j].(pos := pos) else ps[j])
  }

  /** The members of `ks` not yet in `here`, in order. */
  function Newcomers(here: seq<nat>, ks: seq<nat>): (r: seq<nat>)
    ensures forall k :: 0 <= k < |r| ==> r[k] in ks && r[k] !in here
    ensures forall k :: 0 <= k < |ks| && ks[k] !in here ==> ks[k] in r
    ensures Distinct(ks) ==> Distinct(r)
    decreases |ks|
  {
    if |ks| == 0 then []
    else
      var n := |ks| - 1;
      var prev := Newcomers(here, ks[..n]);
      assert forall x :: x in ks[..n] ==> x in ks;
      if ks[n] in here then prev
      else
        assert Distinct(ks) ==> ks[n] !in prev;
        prev + [ks[n]]
  }

  lemma DistinctAppend(a: seq<nat>, b: seq<nat>)
    requires Distinct(a) && Distinct(b)
    requires forall k :: 0 <= k < |b| ==> b[k] !in a
    ensures Distinct(a + b)
  {
    forall x, y | 0 <= x < y < |a + b| ensures (a + b)[x] != (a + b)[y] {
      if y >= |a| && x < |a| {
        assert (a + b)[y] == b[y - |a|];
      }
    }
  }

  /** `prompt_adjacent_join`: each candidate in turn answers; a yes moves
      them into the room and adds them to the fight unless they are already
      in it. */
  function Join(ps: seq<Player>, here: seq<nat>, cands: seq<nat>, pos: Pos, f: Feed): (r: Joined)
    ensures |r.players| == |ps| && r.rest.rolls == f.rolls
    ensures |here| <= |r.here| && r.here[..|here|] == here
    ensures forall k :: |here| <= k < |r.here| ==> r.here[k] in cands && r.here[k] !in here
    ensures Distinct(here) && Distinct(cands) ==> Distinct(r.here)
    ensures forall j :: 0 <= j < |ps| ==> r.players[j] == ps[j] || (j in cands && r.players[j] == ps[j].(pos := pos))
    ensures forall k :: |here| <= k < |r.here| && r.here[k] < |ps| ==> r.players[r.here[k]].pos == pos
  {
    var a := Accepted(cands, f);
    var joiners := Newcomers(here, a.items);
    assert Distinct(here) && Distinct(cands) ==> Distinct(here + joiners) by {
      if Distinct(here) && Distinct(cands) {
        DistinctAppend(here, joiners);
      }
    }
    assert (here + joiners)[..|here|] == here;
    Joined(MoveInto(ps, a.items, pos), here + joiners, a.rest)
  }

  // ---------------------------------------------------------------------------
  // Fights inside the party

  function Select(ps: seq<Player>, here: seq<nat>): (r: seq<Player>)
    requires forall k :: 0 <= k < |here| ==> here[k] < |ps|
    ensures |r| == |here| && forall k :: 0 <= k < |here| ==> r[k] == ps[here[k]]
  {
    seq(|here|, k requires 0 <= k < |here| => ps[here[k]])
  }

  function IndexOf(s: seq<nat>, x: nat): (r: nat)
    requires x in s
    ensures r < |s| && s[r] == x
  {
    if s[0] == x then 0 else 1 + IndexOf(s[1..], x)
  }

  /** The party after the participants `here` were replaced by `qs`. */
  function WriteBack(ps: seq<Player>, here: seq<nat>, qs: seq<Player>): (r: seq<Player>)
    requires |qs| == |here| && Distinct(here)
    ensures |r| == |ps|
    ensures forall k :: 0 <= k < |here| && here[k] < |ps| ==> r[here[k]] == qs[k]
    ensures forall j :: 0 <= j < |ps| && j !in here ==> r[j] == ps[j]
  {
    seq(|ps|, j requires 0 <= j < |ps| => if j in here then qs[IndexOf(here, j)] else ps[j])
  }

  datatype Clash = Clash(players: seq<Player>, monsters: seq<Creature>, fled: bool, rest: Feed) | Stalled

  /** `combat(players_here, monsters, distribute_xp_loot, handle_deaths)`
      on the party members `here`. */
  function Fight(ps: seq<Player>, here: seq<nat>, monsters: seq<Creature>, start: Pos,
                 mode: TargetMode, f: Feed, fuel: nat): (r: Clash)
    requires forall k :: 0 <= k < |here| ==> here[k] < |ps|
    requires Distinct(here)
    ensures r.Clash? ==> |r.players| == |ps| && |r.monsters| == |monsters|
    ensures r.Clash? ==> forall k :: 0 <= k < |here| ==> Alive(r.players[here[k]])
    ensures r.Clash? ==> forall j :: 0 <= j < |ps| && j !in here ==> r.players[j] == ps[j]
  {
    match Encounter(Select(ps, here), monsters, mode, start, f, fuel)
    case Unfinished => Stalled
    case Aftermath(qs, es, fled, _, rest) => Clash(WriteBack(ps, here, qs), es, fled, rest)
  }

  // ---------------------------------------------------------------------------
  // Monsters

  const MonsterNames: seq<string> := ["Skeleton", "Goblin", "Wight", "Cave Bat", "Giant Rat", "Cultist", "Dire Wolf"]

  /** `generate_enemy_from_players`: a monster within two levels of the
      party level (never below 1) with stats that grow with its level. */
  function GenerateEnemy(levels: seq<int>, f: Feed): (r: Spawn)
    requires |levels| > 0
    ensures var l := r.monster.level;
      && l >= 1 && l == Max(1, l) && PartyLevel(levels) - 2 <= l <= PartyLevel(levels) + 2
      && r.monster.name in MonsterNames
      && r.monster == New(r.monster.name, l, 20 + 8 * l, 5 + 2 * l, (4 + 2 * l) as real, (1 + l) as real, None, 10 + 5 * l)
  {
    var lvl := Max(1, PartyLevel(levels) + RandInt(f, -2, 2).value);
    var name := Below(RandInt(f, -2, 2).rest, |MonsterNames|);
    Spawn(New(MonsterNames[name.value], lvl, 20 + 8 * lvl, 5 + 2 * lvl, (4 + 2 * lvl) as real, (1 + lvl) as real,
              None, 10 + 5 * lvl), name.rest)
  }

  datatype Spawn = Spawn(monster: Creature, rest: Feed)
  datatype Group = Group(monsters: seq<Creature>, rest: Feed)

  /** `randint(1, 3)` monsters, drawn one after another. */
  function GenerateGroup(levels: seq<int>, f: Feed): (r: Group)
    requires |levels| > 0
    ensures 1 <= |r.monsters| <= 3
    ensures forall k :: 0 <= k < |r.monsters| ==> IsAlive(r.monsters[k]) && r.monsters[k].name in MonsterNames
  {
    var n := RandInt(f, 1, 3);
    Monsters(levels, n.value, n.rest)
  }

  function Monsters(levels: seq<int>, n: nat, f: Feed): (r: Group)
    requires |levels| > 0
    ensures |r.monsters| == n
    ensures forall k :: 0 <= k < n ==> IsAlive(r.monsters[k]) && r.monsters[k].name in MonsterNames
  {
    if n == 0 then Group([], f)
    else
      var first := GenerateEnemy(levels, f);
      var others := Monsters(levels, n - 1, first.rest);
      Group([first.monster] + others.monsters, others.rest)
  }

  function Levels(ps: seq<Player>, here: seq<nat>): (r: seq<int>)
    requires forall k :: 0 <= k < |here| ==> here[k] < |ps|
    ensures |r| == |here| && forall k :: 0 <= k < |here| ==> r[k] == ps[here[k]].body.level
  {
    seq(|here|, k requires 0 <= k < |here| => ps[here[k]].body.level)
  }

  // ---------------------------------------------------------------------------
  // Chests

  datatype Share = Share(players: seq<Player>, rest: Feed)

  function LivingHere(ps: seq<Player>, here: seq<nat>): (r: seq<nat>)
    requires forall k :: 0 <= k < |here| ==> here[k] < |ps|
    ensures forall k :: 0 <= k < |r| ==> r[k] in here && Alive(ps[r[k]])
    ensures forall k :: 0 <= k < |here| && Alive(ps[here[k]]) ==> here[k] in r
    ensures |r| <= |here|
    ensures Distinct(here) ==> Distinct(r)
  {
    if |here| == 0 then []
    else
      var n := |here| - 1;
      var prev := LivingHere(ps, here[..n]);
      assert forall x :: x in here[..n] ==> x in here;
      if Alive(ps[here[n]]) then
        assert Distinct(here) ==> here[n] !in prev;
        prev + [here[n]]
      else prev
  }

  /** The gold a pouch holds: `effect.get('amount', 0)`. */
  function PouchAmount(it: Item): int {
    if it.effect.Some? then IntEntry(it.effect.value, "amount", 0) else 0
  }

  /** `random.choice(alive_entities(players))`. */
  function PickLiving(ps: seq<Player>, here: seq<nat>, f: Feed): (r: Roll)
    requires forall k :: 0 <= k < |here| ==> here[k] < |ps|
    requires exists k :: 0 <= k < |here| && Alive(ps[here[k]])
    ensures r.value in here && Alive(ps[r.value])
  {
    var alive := LivingHere(ps, here);
    SomeoneHere(ps, here);
    var pick := Below(f, |alive|);
    Roll(alive[pick.value], pick.rest)
  }

  lemma SomeoneHere(ps: seq<Player>, here: seq<nat>)
    requires forall k :: 0 <= k < |here| ==> here[k] < |ps|
    requires exists k :: 0 <= k < |here| && Alive(ps[here[k]])
    ensures |LivingHere(ps, here)| > 0
  {
    var k :| 0 <= k < |here| && Alive(ps[here[k]]);
    assert here[k] in LivingHere(ps, here);
  }

  /** What a chest puts in a bag: a weapon wrapped as an item, or the item. */
  function PrizeEntry(prize: Prize): Item {
    if prize.PrizeWeapon? then WrapWeapon(prize.w) else prize.it
  }

  predicate IsGold(prize: Prize) {
    prize.PrizeItem? && prize.it.kind == "gold"
  }

  /** `handle_chest`: gold is split evenly among the living participants
      (the remainder is lost); anything else, a weapon wrapped as an item,
      goes to a random living participant. */
  function HandleChest(ps: seq<Player>, here: seq<nat>, prize: Prize, f: Feed): (r: Share)
    requires forall k :: 0 <= k < |here| ==> here[k] < |ps|
    requires exists k :: 0 <= k < |here| && Alive(ps[here[k]])
    ensures |r.players| == |ps|
    ensures IsGold(prize) ==> forall j :: 0 <= j < |ps| ==>
      r.players[j] == if j in LivingHere(ps, here)
                      then ps[j].(gold := ps[j].gold + PouchAmount(prize.it) / |LivingHere(ps, here)|)
                      else ps[j]
    ensures !IsGold(prize) ==> var w := PickLiving(ps, here, f).value;
      r.players == ps[w := ps[w].(inventory := ps[w].inventory + [PrizeEntry(prize)])]
  {
    if IsGold(prize) then
      var alive := LivingHere(ps, here);
      SomeoneHere(ps, here);
      var per := PouchAmount(prize.it) / |alive|;
      Share(seq(|ps|, j requires 0 <= j < |ps| => if j in alive then ps[j].(gold := ps[j].gold + per) else ps[j]), f)
    else
      var w := PickLiving(ps, here, f);
      Share(ps[w.value := ps[w.value].(inventory := ps[w.value].inventory + [PrizeEntry(prize)])], w.rest)
  }

  /** What a chest leaves: a gold pouch is split evenly among the living
      participants, anything else goes to one living participant's bag,
      and nobody else changes. */
  predicate Handed(ps: seq<Player>, here: seq<nat>, prize: Prize, qs: seq<Player>)
    requires forall k :: 0 <= k < |here| ==> here[k] < |ps|
  {
    && |qs| == |ps|
    && (IsGold(prize) ==>
          && |LivingHere(ps, here)| > 0
          && forall j :: 0 <= j < |ps| ==>
               qs[j] == if j in LivingHere(ps, here)
                        then ps[j].(gold := ps[j].gold + PouchAmount(prize.it) / |LivingHere(ps, here)|)
                        else ps[j])
    && (!IsGold(prize) ==>
          exists w :: w in here && Alive(ps[w]) && qs == ps[w := ps[w].(inventory := ps[w].inventory + [PrizeEntry(prize)])])
  }

  /** A gold split hands out at most the pouch, and at least all of it but
      less than one coin per living participant. */
  lemma ChestGoldSplit(ps: seq<Player>, here: seq<nat>, amount: int, f: Feed)
    requires forall k :: 0 <= k < |here| ==> here[k] < |ps|
    requires Distinct(here)
    requires exists k :: 0 <= k < |here| && Alive(ps[here[k]])
    ensures var n := |LivingHere(ps, here)|;
      var r := HandleChest(ps, here, PrizeItem(GoldPouch(amount)), f);
      && n > 0
      && Sum(Golds(r.players)) == Sum(Golds(ps)) + n * (amount / n)
      && amount - n < n * (amount / n) <= amount
  {
    var alive := LivingHere(ps, here);
    var n := |alive|;
    var r := HandleChest(ps, here, PrizeItem(GoldPouch(amount)), f);
    var per := amount / n;
    assert PouchAmount(GoldPouch(amount)) == amount;
    var bump := seq(|ps|, j requires 0 <= j < |ps| => if j in alive then per else 0);
    SumMembers(alive, |ps|, per, bump);
    SumPlus(Golds(ps), bump, Golds(r.players));
    FloorBounds(amount, n);
  }

  lemma FloorBounds(a: int, n: int)
    requires n > 0
    ensures a - n < n * (a / n) <= a
  {
  }

  function Golds(ps: seq<Player>): (r: seq<int>)
    ensures |r| == |ps| && forall k :: 0 <= k < |ps| ==> r[k] == ps[k].gold
  {
    seq(|ps|, k requires 0 <= k < |ps| => ps[k].gold)
  }

  /** Summing `v` that is `x` exactly at the distinct indices `ks`. */
  lemma {:induction false} SumMembers(ks: seq<nat>, n: nat, x: int, v: seq<int>)
    requires Distinct(ks) && |v| == n
    requires forall k :: 0 <= k < |ks| ==> ks[k] < n
    requires forall j :: 0 <= j < n ==> v[j] == if j in ks then x else 0
    ensures Sum(v) == |ks| * x
    decreases n
  {
    if n > 0 {
      var m := n - 1;
      assert Sum(v) == Sum(v[..m]) + v[m];
      if m in ks {
        var i := IndexOf(ks, m);
        var rest := RemoveAt(ks, i);
        DistinctRemoveAt(ks, i);
        SumMembers(rest, m, x, v[..m]);
        MulSucc(|rest|, x);
      } else {
        SumMembers(ks, m, x, v[..m]);
      }
    }
  }

  /** Taking entry `i` out of a list without repeats leaves a list without
      repeats holding exactly the other entries. */
  lemma DistinctRemoveAt(ks: seq<nat>, i: nat)
    requires Distinct(ks) && i < |ks|
    ensures var rest := RemoveAt(ks, i);
      && Distinct(rest)
      && forall y :: y in rest <==> y in ks && y != ks[i]
  {
    var rest := RemoveAt(ks, i);
    forall y | y in rest ensures y in ks && y != ks[i] {
      var k :| 0 <= k < |rest| && rest[k] == y;
      if k < i { assert rest[k] == ks[k]; } else { assert rest[k] == ks[k + 1]; }
    }
    forall y | y in ks && y != ks[i] ensures y in rest {
      var k :| 0 <= k < |ks| && ks[k] == y;
      if k < i { assert rest[k] == y; } else { assert rest[k - 1] == y; }
    }
    forall a, b | 0 <= a < b < |rest| ensures rest[a] != rest[b] {
      var a' := if a < i then a else a + 1;
      var b' := if b < i then b else b + 1;
      assert rest[a] == ks[a'] && rest[b] == ks[b'];
    }
  }

  // ---------------------------------------------------------------------------
  // The merchant

  datatype Shop = Shop(stock: seq<Offer>, player: Player, rest: Feed)

  /** `int(cmd.split()[1]) - 1`, or `None` where Python raises. */
  function CommandIndex(cmd: string): (r: Option<int>)
    ensures r.Some? <==> |SplitWs(cmd)| >= 2 && ParseInt(SplitWs(cmd)[1]).Some?
    ensures r.Some? ==> r.value + 1 == ParseInt(SplitWs(cmd)[1]).value
  {
    var words := SplitWs(cmd);
    if |words| < 2 then None
    else match ParseInt(words[1])
      case Some(n) => Some(n - 1)
      case None => None
  }

  /** The list position a `buy`/`sell` command names in a list of `n`
      entries, if Python would find one. */
  function SlotFor(n: nat, cmd: string): (r: Option<nat>)
    ensures r.Some? ==> r.value < n
    ensures r.Some? <==> CommandIndex(cmd).Some? && PyIndexOk(n, CommandIndex(cmd).value)
  {
    match CommandIndex(cmd)
    case None => None
    case Some(idx) => if PyIndexOk(n, idx) then Some(PyIndex(n, idx)) else None
  }

  /** `buy <n>`: the `n`-th offer (a Python index, so `buy 0` is the last),
      confirmed, affordable and with room in the bag; the stock is not
      reduced. */
  function Buy(stock: seq<Offer>, p: Player, cmd: string, f: Feed): (r: Shop)
    ensures r.stock == stock
    ensures r.player != p ==> SlotFor(|stock|, cmd).Some?
    ensures r.player != p ==>
      var o := stock[SlotFor(|stock|, cmd).value];
      && p.gold >= o.price && |p.inventory| < p.invLimit
      && r.player == p.(inventory := p.inventory + [o.item], gold := p.gold - o.price)
    ensures r.player != p ==> PromptConfirm(Some(ReadLine(f).text), false)
    ensures SlotFor(|stock|, cmd).Some? && PromptConfirm(Some(ReadLine(f).text), false) ==>
      var o := stock[SlotFor(|stock|, cmd).value];
      p.gold >= o.price && |p.inventory| < p.invLimit ==>
        r.player == p.(inventory := p.inventory + [o.item], gold := p.gold - o.price)
    ensures r.rest == if SlotFor(|stock|, cmd).Some? then ReadLine(f).rest else f
  {
    match SlotFor(|stock|, cmd)
    case None => Shop(stock, p, f)
    case Some(k) =>
      var offer := stock[k];
      var answer := ReadLine(f);
      if !PromptConfirm(Some(answer.text), false) || p.gold < offer.price then Shop(stock, p, answer.rest)
      else
        var added := AddItem(p, offer.item);
        if added.ok then Shop(stock, added.player.(gold := added.player.gold - offer.price), answer.rest)
        else Shop(stock, p, answer.rest)
  }

  /** The merchant's price for a sold item: `estimate_resell_price(item) or
      price_gained`. */
  function ResellPrice(it: Item, price: int): (r: int)
    ensures EstimateResellPrice(it).Some? && EstimateResellPrice(it).value != 0 ==> r == EstimateResellPrice(it).value
    ensures EstimateResellPrice(it).None? || EstimateResellPrice(it).value == 0 ==> r == price
    ensures r != 0 || price == 0
  {
    match EstimateResellPrice(it)
    case Some(n) => if n != 0 then n else price
    case None => price
  }

  /** `sell <n>`: an item with a sell price, confirmed, is sold through
      `sell_item`; the merchant restocks it unless it is a weapon. */
  function SellTo(stock: seq<Offer>, p: Player, cmd: string, f: Feed): (r: Shop)
    ensures r.player == p ==> r.stock == stock
    ensures r.player != p ==> SlotFor(|p.inventory|, cmd).Some?
    ensures r.player != p ==> Sold(stock, p, SlotFor(|p.inventory|, cmd).value, r)
    ensures r.player != p ==> PromptConfirm(Some(ReadLine(f).text), false)
    ensures SlotFor(|p.inventory|, cmd).Some? ==>
      var i := SlotFor(|p.inventory|, cmd).value;
      EstimateSellPrice(p.inventory[i]).Some? && PromptConfirm(Some(ReadLine(f).text), false) ==>
        Sold(stock, p, i, r)
  {
    match SlotFor(|p.inventory|, cmd)
    case None => Shop(stock, p, f)
    case Some(i) => SellSlot(stock, p, CommandIndex(cmd).value, i, f)
  }

  /** The outcome of selling bag entry `i`: it leaves the bag for its sell
      price, and the merchant restocks it unless it is a weapon. */
  predicate Sold(stock: seq<Offer>, p: Player, i: nat, r: Shop)
    requires i < |p.inventory|
  {
    var it := p.inventory[i];
    && EstimateSellPrice(it).Some? && !Protected(it)
    && r.player == p.(inventory := RemoveAt(p.inventory, i), gold := p.gold + EstimateSellPrice(it).value)
    && r.stock == if it.kind == "weapon" then stock else stock + [Offer(it, ResellPrice(it, EstimateSellPrice(it).value))]
  }

  /** `SellTo` once the command has named bag entry `i` by the Python
      index `idx`. */
  function SellSlot(stock: seq<Offer>, p: Player, idx: int, i: nat, f: Feed): (r: Shop)
    requires PyIndexOk(|p.inventory|, idx) && PyIndex(|p.inventory|, idx) == i
    ensures r.player == p ==> r.stock == stock
    ensures r.player != p ==> Sold(stock, p, i, r)
    ensures r.player != p ==> PromptConfirm(Some(ReadLine(f).text), false)
    ensures EstimateSellPrice(p.inventory[i]).None? ==> r == Shop(stock, p, f)
    ensures EstimateSellPrice(p.inventory[i]).Some? ==> r.rest == ReadLine(f).rest
    ensures EstimateSellPrice(p.inventory[i]).Some? && PromptConfirm(Some(ReadLine(f).text), false) ==>
      Sold(stock, p, i, r)
  {
    if EstimateSellPrice(p.inventory[i]).None? then Shop(stock, p, f)
    else
      var answer := ReadLine(f);
      if !PromptConfirm(Some(answer.text), false) then Shop(stock, p, answer.rest)
      else
        match SellItem(p, idx)
        case None => Shop(stock, p, answer.rest)
        case Some(sale) =>
          assert |sale.player.inventory| < |p.inventory|;
          var stock' := if sale.item.kind != "weapon" then stock + [Offer(sale.item, ResellPrice(sale.item, sale.price))] else stock;
          Shop(stock', sale.player, answer.rest)
  }

  /** One customer: a `buy…` or `sell…` command, anything else skips. */
  function Trade(stock: seq<Offer>, p: Player, f: Feed): (r: Shop)
    ensures r.player.body == p.body && r.player.pos == p.pos && r.player.weapon == p.weapon
    ensures var c := Strip(ReadLine(f).text);
      StartsWith(c, "buy") ==> r == Buy(stock, p, c, ReadLine(f).rest)
    ensures var c := Strip(ReadLine(f).text);
      !StartsWith(c, "buy") && StartsWith(c, "sell") ==> r == SellTo(stock, p, c, ReadLine(f).rest)
    ensures var c := Strip(ReadLine(f).text);
      !StartsWith(c, "buy") && !StartsWith(c, "sell") ==> r == Shop(stock, p, ReadLine(f).rest)
  {
    var cmd := ReadLine(f);
    var c := Strip(cmd.text);
    if StartsWith(c, "buy") then Buy(stock, p, c, cmd.rest)
    else if StartsWith(c, "sell") then
      var r := SellTo(stock, p, c, cmd.rest);
      if r.player == p then r
      else
        SoldKeepsSelf(stock, p, SlotFor(|p.inventory|, c).value, r);
        r
    else Shop(stock, p, cmd.rest)
  }

  /** A sale changes only the seller's bag and purse. */
  lemma SoldKeepsSelf(stock: seq<Offer>, p: Player, i: nat, r: Shop)
    requires i < |p.inventory| && Sold(stock, p, i, r)
    ensures r.player.body == p.body && r.player.pos == p.pos && r.player.weapon == p.weapon
  {
  }

  /** A purchase never leaves the buyer in debt or over the bag limit. */
  lemma BuyKeepsBounds(stock: seq<Offer>, p: Player, cmd: string, f: Feed)
    requires p.gold >= 0 && |p.inventory| <= p.invLimit
    ensures var q := Buy(stock, p, cmd, f).player;
      q.gold >= 0 && |q.inventory| <= q.invLimit
  {
  }

  /** Nothing protected is ever sold: every copy of a protected item
      stays in the bag. */
  lemma SellKeepsProtected(stock: seq<Offer>, p: Player, cmd: string, f: Feed)
    ensures var q := SellTo(stock, p, cmd, f).player;
      forall it :: it in p.inventory && Protected(it) ==> multiset(q.inventory)[it] == multiset(p.inventory)[it]
  {
    var q := SellTo(stock, p, cmd, f).player;
    if q != p {
      var i := SlotFor(|p.inventory|, cmd).value;
      assert multiset(q.inventory) + multiset{p.inventory[i]} == multiset(p.inventory);
    }
  }

  /** `handle_merchant`: each living participant trades once, in order. */
  function HandleMerchant(stock: seq<Offer>, ps: seq<Player>, here: seq<nat>, f: Feed): (r: Market)
    requires forall k :: 0 <= k < |here| ==> here[k] < |ps|
    ensures |r.players| == |ps|
    ensures forall j :: 0 <= j < |ps| && j !in here ==> r.players[j] == ps[j]
    ensures forall j :: 0 <= j < |ps| ==> r.players[j].body == ps[j].body && r.players[j].pos == ps[j].pos
    decreases |here|
  {
    if |here| == 0 then Market(stock, ps, f)
    else
      var k := here[0];
      if !Alive(ps[k]) then
        var r := HandleMerchant(stock, ps, here[1..], f);
        ServedInTurn(ps, ps, here, r);
        r
      else
        var t := Trade(stock, ps[k], f);
        var qs := ps[k := t.player];
        var r := HandleMerchant(t.stock, qs, here[1..], t.rest);
        ServedInTurn(ps, qs, here, r);
        r
  }

  /** The first customer's trade followed by the others'. */
  lemma ServedInTurn(ps: seq<Player>, qs: seq<Player>, here: seq<nat>, r: Market)
    requires |here| > 0 && here[0] < |ps| && |qs| == |ps|
    requires forall j :: 0 <= j < |ps| && j != here[0] ==> qs[j] == ps[j]
    requires qs[here[0]].body == ps[here[0]].body && qs[here[0]].pos == ps[here[0]].pos
    requires |r.players| == |qs|
    requires forall j :: 0 <= j < |qs| && j !in here[1..] ==> r.players[j] == qs[j]
    requires forall j :: 0 <= j < |qs| ==> r.players[j].body == qs[j].body && r.players[j].pos == qs[j].pos
    ensures |r.players| == |ps|
    ensures forall j :: 0 <= j < |ps| && j !in here ==> r.players[j] == ps[j]
    ensures forall j :: 0 <= j < |ps| ==> r.players[j].body == ps[j].body && r.players[j].pos == ps[j].pos
  {
    forall j | 0 <= j < |ps| && j !in here ensures r.players[j] == ps[j] {
      assert j != here[0] && j !in here[1..];
    }
    forall j | 0 <= j < |ps| ensures r.players[j].body == ps[j].body && r.players[j].pos == ps[j].pos {
      if j != here[0] {
        assert qs[j] == ps[j];
      }
    }
  }

  datatype Market = Market(stock: seq<Offer>, players: seq<Player>, rest: Feed)

  // ---------------------------------------------------------------------------
  // The boss

  /** The first participant holding a `key` item, and where it is. */
  function KeyHolder(ps: seq<Player>, here: seq<nat>): (r: Option<(nat, nat)>)
    requires forall k :: 0 <= k < |here| ==> here[k] < |ps|
    ensures r.Some? ==> r.value.0 in here && r.value.1 < |ps[r.value.0].inventory|
                        && ps[r.value.0].inventory[r.value.1].kind == "key"
    ensures r.None? ==> forall k, j :: 0 <= k < |here| && 0 <= j < |ps[here[k]].inventory| ==>
                          ps[here[k]].inventory[j].kind != "key"
    decreases |here|
  {
    if |here| == 0 then None
    else match FirstKey(ps[here[0]].inventory)
      case Some(j) => Some((here[0], j))
      case None =>
        var r := KeyHolder(ps, here[1..]);
        assert forall k :: 1 <= k < |here| ==> here[k] == here[1..][k - 1];
        r
  }

  function FirstKey(inv: seq<Item>): (r: Option<nat>)
    ensures r.Some? ==> r.value < |inv| && inv[r.value].kind == "key"
    ensures r.Some? ==> forall j :: 0 <= j < r.value ==> inv[j].kind != "key"
    ensures r.None? ==> forall j :: 0 <= j < |inv| ==> inv[j].kind != "key"
  {
    if |inv| == 0 then None
    else if inv[0].kind == "key" then Some(0)
    else match FirstKey(inv[1..])
      case Some(j) => Some(j + 1)
      case None => None
  }

  /** What the boss leaves when `generate_loot` finds nothing:
      `Item(str(None), 'misc', {})`. */
  const NoLoot: Item := Item("None", "misc", Some(map[]))

  /** `distribute_boss_loot`: the last participant holding the kill flag,
      else a random living one, gets the loot and 500 gold. */
  function DistributeBossLoot(ps: seq<Player>, here: seq<nat>, loot: Option<Weapon>, f: Feed): (r: Share)
    requires forall k :: 0 <= k < |here| ==> here[k] < |ps|
    requires exists k :: 0 <= k < |here| && Alive(ps[here[k]])
    ensures var w := BossWinner(ps, here, f).value;
      r.players == ps[w := ps[w].(inventory := ps[w].inventory + [if loot.Some? then WrapWeapon(loot.value) else NoLoot],
                                  gold := ps[w].gold + 500)]
  {
    var sub := Select(ps, here);
    var w := BossWinner(ps, here, f);
    var prize := if loot.Some? then WrapWeapon(loot.value) else NoLoot;
    Share(ps[w.value := ps[w.value].(inventory := ps[w.value].inventory + [prize], gold := ps[w.value].gold + 500)], w.rest)
  }

  function BossWinner(ps: seq<Player>, here: seq<nat>, f: Feed): (r: Roll)
    requires forall k :: 0 <= k < |here| ==> here[k] < |ps|
    requires exists k :: 0 <= k < |here| && Alive(ps[here[k]])
    ensures r.value in here
    ensures LastHitter(Select(ps, here)).Some? ==> r.value == here[LastHitter(Select(ps, here)).value]
    ensures LastHitter(Select(ps, here)).None? ==> Alive(ps[r.value])
  {
    match LastHitter(Select(ps, here))
    case Some(k) => Roll(here[k], f)
    case None =>
      PickLiving(ps, here, f)
  }

  /** `generate_loot(BOSS_LEVEL) or generate_loot(BOSS_LEVEL)`. */
  function BossLoot(f: Feed): (r: Drop)
    ensures r.weapon.Some? ==> r.weapon.value in AllWeapons && !r.weapon.value.starter && !r.weapon.value.bound
  {
    var first := GenerateLoot(BossLevel, f);
    if first.weapon.Some? then first else GenerateLoot(BossLevel, first.rest)
  }

  // ---------------------------------------------------------------------------
  // Entering a room

  datatype Visit = Visit(players: seq<Player>, dungeon: Dungeon, rest: Feed) | Stuck

  /** The three ways a room can react, decided before any roll. */
  datatype Branch = Occupied | Revisited | FirstEntry

  /** A room with any monster listed fights, dead or alive; an empty room
      seen before is a revisit; anything else is a first entry. */
  function BranchOf(room: Room): (r: Branch)
    ensures r == Occupied <==> |room.monsters| > 0
    ensures r == Revisited <==> |room.monsters| == 0 && room.visited
    ensures r == FirstEntry <==> |room.monsters| == 0 && !room.visited
  {
    if |room.monsters| > 0 then Occupied
    else if room.visited then Revisited
    else FirstEntry
  }

  function SetRoom(d: Dungeon, pos: Pos, room: Room): (r: Dungeon)
    ensures pos in r.rooms && r.rooms[pos] == room
    ensures pos in d.rooms ==> r.rooms.Keys == d.rooms.Keys
    ensures r.width == d.width && r.height == d.height && r.start == d.start && r.bossLocked == d.bossLocked
    ensures Apart(d, pos, r)
  {
    d.(rooms := d.rooms[pos := room])
  }

  /** Every room but the one at `pos` is as it was. */
  predicate Apart(d: Dungeon, pos: Pos, e: Dungeon) {
    forall q :: q in d.rooms && q != pos ==> q in e.rooms && e.rooms[q] == d.rooms[q]
  }

  /** A room keeps its boss flag and never forgets it was visited. */
  predicate Kept(a: Room, b: Room) {
    b.isBoss == a.isBoss && (a.visited ==> b.visited)
  }

  /** The participants: those `here`, then whoever accepts to join. */
  function Gather(ps: seq<Player>, i: nat, here: seq<nat>, pos: Pos, f: Feed): (r: Joined)
    requires i < |ps| && forall k :: 0 <= k < |here| ==> here[k] < |ps|
    ensures |r.players| == |ps| && r.rest.rolls == f.rolls
    ensures |here| <= |r.here| && r.here[..|here|] == here
    ensures forall k :: 0 <= k < |r.here| ==> r.here[k] < |ps|
    ensures Distinct(here) ==> Distinct(r.here)
    ensures (forall k :: 0 <= k < |here| ==> Alive(ps[here[k]])) ==> forall k :: 0 <= k < |r.here| ==> Alive(r.players[r.here[k]])
    ensures forall j :: 0 <= j < |ps| ==> r.players[j].body == ps[j].body
  {
    var cands := Adjacent(ps, i, pos);
    var r := Join(ps, here, cands, pos, f);
    JoinedAlive(ps, here, cands, pos, r);
    r
  }

  /** What `Gather` keeps: participants are in range, and stay alive when
      those already here were, since joiners are living neighbours and
      moving changes nobody's body. */
  lemma JoinedAlive(ps: seq<Player>, here: seq<nat>, cands: seq<nat>, pos: Pos, r: Joined)
    requires forall k :: 0 <= k < |here| ==> here[k] < |ps|
    requires forall k :: 0 <= k < |cands| ==> cands[k] < |ps| && Alive(ps[cands[k]])
    requires |r.players| == |ps| && |here| <= |r.here| && r.here[..|here|] == here
    requires forall k :: |here| <= k < |r.here| ==> r.here[k] in cands
    requires forall j :: 0 <= j < |ps| ==> r.players[j] == ps[j] || r.players[j] == ps[j].(pos := pos)
    ensures forall k :: 0 <= k < |r.here| ==> r.here[k] < |ps|
    ensures forall j :: 0 <= j < |ps| ==> r.players[j].body == ps[j].body
    ensures (forall k :: 0 <= k < |here| ==> Alive(ps[here[k]])) ==>
              forall k :: 0 <= k < |r.here| ==> Alive(r.players[r.here[k]])
  {
    forall k | 0 <= k < |r.here| ensures r.here[k] < |ps| && (k < |here| ==> r.here[k] == here[k]) {
      if k < |here| { assert r.here[..|here|][k] == here[k]; }
    }
    forall j | 0 <= j < |ps| ensures r.players[j].body == ps[j].body {
    }
  }

  datatype Draws = Draws(values: seq<int>, rest: Feed)

  /** `n` draws of `randint(2, 7)`. */
  function GoldDraws(f: Feed, n: nat): (r: Draws)
    ensures |r.values| == n && forall k :: 0 <= k < n ==> 2 <= r.values[k] <= 7
    decreases n
  {
    if n == 0 then Draws([], f)
    else
      var g := RandInt(f, 2, 7);
      var t := GoldDraws(g.rest, n - 1);
      Draws([g.value] + t.values, t.rest)
  }

  lemma IndexOfDistinct(s: seq<nat>, k: nat)
    requires Distinct(s) && k < |s|
    ensures IndexOf(s, s[k]) == k
  {
  }

  /** What a gold cache leaves: each participant has 2 to 7 more gold and
      is otherwise unchanged, and nobody else changes. */
  predicate Cached(ps: seq<Player>, here: seq<nat>, qs: seq<Player>)
    requires forall k :: 0 <= k < |here| ==> here[k] < |ps|
  {
    && |qs| == |ps|
    && (forall k :: 0 <= k < |here| ==>
          && qs[here[k]] == ps[here[k]].(gold := qs[here[k]].gold)
          && ps[here[k]].gold + 2 <= qs[here[k]].gold <= ps[here[k]].gold + 7)
    && (forall j :: 0 <= j < |ps| && j !in here ==> qs[j] == ps[j])
  }

  /** The empty room's cache: each participant, in order, picks up
      `randint(2, 7)` gold. */
  function Cache(ps: seq<Player>, here: seq<nat>, f: Feed): (r: Share)
    requires forall k :: 0 <= k < |here| ==> here[k] < |ps|
    requires Distinct(here)
    ensures Cached(ps, here, r.players)
  {
    var d := GoldDraws(f, |here|);
    var qs := seq(|ps|, j requires 0 <= j < |ps| =>
                    if j in here then ps[j].(gold := ps[j].gold + d.values[IndexOf(here, j)]) else ps[j]);
    forall k | 0 <= k < |here| ensures IndexOf(here, here[k]) == k {
      IndexOfDistinct(here, k);
    }
    Share(qs, d.rest)
  }

  /** The door: open already, or opened with the first key a participant
      carries, which is used up. */
  function OpenDoor(ps: seq<Player>, d: Dungeon, here: seq<nat>): (r: Option<seq<Player>>)
    requires forall k :: 0 <= k < |here| ==> here[k] < |ps|
    ensures !d.bossLocked ==> r == Some(ps)
    ensures d.bossLocked ==> (r.None? <==> KeyHolder(ps, here).None?)
    ensures d.bossLocked && r.Some? ==>
      var (k, j) := KeyHolder(ps, here).value;
      r.value == ps[k := ps[k].(inventory := RemoveAt(ps[k].inventory, j))]
    ensures r.Some? ==> |r.value| == |ps| && forall j :: 0 <= j < |ps| ==> r.value[j].body == ps[j].body
  {
    if !d.bossLocked then Some(ps)
    else match KeyHolder(ps, here)
      case None => None
      case Some((k, j)) => Some(ps[k := ps[k].(inventory := RemoveAt(ps[k].inventory, j))])
  }

  /** Participants stay alive when nobody's body changes. */
  lemma KeptAlive(ps: seq<Player>, qs: seq<Player>, here: seq<nat>)
    requires |qs| == |ps| && forall j :: 0 <= j < |ps| ==> qs[j].body == ps[j].body
    requires forall k :: 0 <= k < |here| ==> here[k] < |ps| && Alive(ps[here[k]])
    ensures forall k :: 0 <= k < |here| ==> here[k] < |qs| && Alive(qs[here[k]])
  {
    forall k | 0 <= k < |here| ensures Alive(qs[here[k]]) {
      assert qs[here[k]].body == ps[here[k]].body;
    }
  }

  /** `all(not p.is_alive() for p in players_here)`. */
  predicate AllFallen(ps: seq<Player>, here: seq<nat>)
    requires forall k :: 0 <= k < |here| ==> here[k] < |ps|
  {
    forall k :: 0 <= k < |here| ==> !Alive(ps[here[k]])
  }

  /** The boss loot after the fight: once the dragon is dead, one
      participant (the last to land a blow, else a random living one) gets
      the loot and 500 gold; while it lives nobody is paid (see
      `ClaimAsWritten` for the code's test). */
  function Claim(qs: seq<Player>, here: seq<nat>, dragon: Creature, f: Feed): (r: Share)
    requires |here| > 0 && forall k :: 0 <= k < |here| ==> here[k] < |qs| && Alive(qs[here[k]])
    ensures |r.players| == |qs|
    ensures IsAlive(dragon) ==> r == Share(qs, f)
    ensures !IsAlive(dragon) ==> (Alive(qs[here[0]]) &&
      var w := BossWinner(qs, here, BossLoot(f).rest).value;
      && |r.players| == |qs| && w in here
      && r.players[w].gold == qs[w].gold + 500
      && |r.players[w].inventory| == |qs[w].inventory| + 1
      && r.players[w].inventory[..|qs[w].inventory|] == qs[w].inventory
      && forall j :: 0 <= j < |qs| && j != w ==> r.players[j] == qs[j])
  {
    if IsAlive(dragon) then Share(qs, f)
    else
      var loot := BossLoot(f);
      assert Alive(qs[here[0]]);
      DistributeBossLoot(qs, here, loot.weapon, loot.rest)
  }

  /** What entering a room leaves in place: the size of the party, the
      grid, and an open boss door. */
  predicate Settled(n: nat, d: Dungeon, r: Visit) {
    r.Visit? ==>
      && |r.players| == n && r.dungeon.rooms.Keys == d.rooms.Keys
      && r.dungeon.width == d.width && r.dungeon.height == d.height && r.dungeon.start == d.start
      && (!d.bossLocked ==> !r.dungeon.bossLocked)
  }

  /** Fight the room's monsters with the participants, and keep what is
      left of them in the room. */
  function Battle(ps: seq<Player>, d: Dungeon, pos: Pos, room: Room, here: seq<nat>,
                  mode: TargetMode, f: Feed, fuel: nat): (r: Visit)
    requires pos in d.rooms
    requires forall k :: 0 <= k < |here| ==> here[k] < |ps|
    requires Distinct(here)
    ensures Settled(|ps|, d, r) && (r.Visit? ==> r.dungeon.bossLocked == d.bossLocked)
    ensures r.Visit? ==> Apart(d, pos, r.dungeon)
    ensures r.Visit? ==> pos in r.dungeon.rooms && |r.dungeon.rooms[pos].monsters| == |room.monsters|
    ensures r.Visit? ==> r.dungeon.rooms[pos] == room.(monsters := r.dungeon.rooms[pos].monsters)
  {
    match Fight(ps, here, room.monsters, d.start, mode, f, fuel)
    case Stalled => Stuck
    case Clash(qs, es, _, rest) => Visit(qs, SetRoom(d, pos, room.(monsters := es)), rest)
  }

  /** A visited room without monsters: a roll below 50 brings a fresh group
      that those here fight (nobody is asked to join); otherwise nothing
      happens. */
  function Revisit(ps: seq<Player>, d: Dungeon, pos: Pos, room: Room, here: seq<nat>,
                   mode: TargetMode, f: Feed, fuel: nat): (r: Visit)
    requires pos in d.rooms && |here| > 0 && Distinct(here)
    requires forall k :: 0 <= k < |here| ==> here[k] < |ps|
    ensures Settled(|ps|, d, r) && (r.Visit? ==> r.dungeon.bossLocked == d.bossLocked)
    ensures RandInt(f, 0, 100).value >= 50 ==> r == Visit(ps, d, RandInt(f, 0, 100).rest)
    ensures RandInt(f, 0, 100).value < 50 && r.Visit? ==>
      pos in r.dungeon.rooms && 1 <= |r.dungeon.rooms[pos].monsters| <= 3
    ensures RandInt(f, 0, 100).value < 50 && r.Visit? ==>
      Apart(d, pos, r.dungeon) && r.dungeon.rooms[pos] == room.(monsters := r.dungeon.rooms[pos].monsters)
  {
    var roll := RandInt(f, 0, 100);
    if roll.value < 50 then
      var group := GenerateGroup(Levels(ps, here), roll.rest);
      Battle(ps, d, pos, room.(monsters := group.monsters), here, mode, group.rest, fuel)
    else Visit(ps, d, roll.rest)
  }

  /** A first entry leaves the room visited and without a chest, and the
      boss door as it was. */
  predicate Explored(n: nat, d: Dungeon, pos: Pos, r: Visit) {
    && Settled(n, d, r)
    && (r.Visit? ==> && r.dungeon.bossLocked == d.bossLocked && pos in r.dungeon.rooms
                     && r.dungeon.rooms[pos].visited && r.dungeon.rooms[pos].chest.None?
                     && Apart(d, pos, r.dungeon))
  }

  /** A first entry into an ordinary room, after the `randint(0, 100)`
      roll: monsters below 45, a chest below 75, the merchant (if the room
      has one) below 90, and a gold cache otherwise. */
  function Explore(ps: seq<Player>, d: Dungeon, i: nat, pos: Pos, room: Room, here: seq<nat>,
                   roll: int, mode: TargetMode, f: Feed, fuel: nat): (r: Visit)
    requires i < |ps| && pos in d.rooms && |here| > 0 && Distinct(here)
    requires forall k :: 0 <= k < |here| ==> here[k] < |ps| && Alive(ps[here[k]])
    ensures Explored(|ps|, d, pos, r)
    ensures r.Visit? ==> r.dungeon.rooms[pos].isBoss == room.isBoss
    ensures roll < 45 && r.Visit? ==> 1 <= |r.dungeon.rooms[pos].monsters| <= 3
  {
    var seen := room.(visited := true, chest := None);
    if roll < 45 then Ambush(ps, d, i, pos, seen, here, mode, f, fuel)
    else if roll < 75 then ChestRoom(ps, d, pos, seen, here, f)
    else if roll < 90 then MerchantRoom(ps, d, pos, seen, here, f)
    else CacheRoom(ps, d, pos, seen, here, f)
  }

  /** Rolls 45 to 74: the room is left visited and empty, and the chest
      drawn for the party's levels is handed out. */
  lemma ExploreChest(ps: seq<Player>, d: Dungeon, i: nat, pos: Pos, room: Room, here: seq<nat>,
                     roll: int, mode: TargetMode, f: Feed, fuel: nat)
    requires i < |ps| && pos in d.rooms && |here| > 0 && Distinct(here)
    requires forall k :: 0 <= k < |here| ==> here[k] < |ps| && Alive(ps[here[k]])
    ensures var r := Explore(ps, d, i, pos, room, here, roll, mode, f, fuel);
      45 <= roll < 75 ==>
        && r.Visit? && r.dungeon == SetRoom(d, pos, room.(visited := true, chest := None))
        && Handed(ps, here, GenerateChest(Levels(ps, here), f).prize, r.players)
  {
  }

  /** Rolls 75 to 89: without a merchant nothing happens but the visit;
      with one, the participants trade and the merchant keeps the stock
      that is left. */
  lemma ExploreMerchant(ps: seq<Player>, d: Dungeon, i: nat, pos: Pos, room: Room, here: seq<nat>,
                        roll: int, mode: TargetMode, f: Feed, fuel: nat)
    requires i < |ps| && pos in d.rooms && |here| > 0 && Distinct(here)
    requires forall k :: 0 <= k < |here| ==> here[k] < |ps| && Alive(ps[here[k]])
    ensures var r := Explore(ps, d, i, pos, room, here, roll, mode, f, fuel);
      75 <= roll < 90 && room.merchant.None? ==>
        r == Visit(ps, SetRoom(d, pos, room.(visited := true, chest := None)), f)
    ensures var r := Explore(ps, d, i, pos, room, here, roll, mode, f, fuel);
      75 <= roll < 90 && room.merchant.Some? ==>
        var m := HandleMerchant(room.merchant.value, ps, here, f);
        && r.Visit? && r.players == m.players
        && r.dungeon == SetRoom(d, pos, room.(visited := true, chest := None, merchant := Some(m.stock)))
  {
  }

  /** Rolls of 90 and above: the room is left visited and empty, and each
      participant picks up 2 to 7 gold. */
  lemma ExploreCache(ps: seq<Player>, d: Dungeon, i: nat, pos: Pos, room: Room, here: seq<nat>,
                     roll: int, mode: TargetMode, f: Feed, fuel: nat)
    requires i < |ps| && pos in d.rooms && |here| > 0 && Distinct(here)
    requires forall k :: 0 <= k < |here| ==> here[k] < |ps| && Alive(ps[here[k]])
    ensures var r := Explore(ps, d, i, pos, room, here, roll, mode, f, fuel);
      90 <= roll ==>
        && r.Visit? && r.dungeon == SetRoom(d, pos, room.(visited := true, chest := None))
        && Cached(ps, here, r.players)
  {
  }

  /** 1 to 3 monsters appear; neighbours are asked to join the fight. */
  function Ambush(ps: seq<Player>, d: Dungeon, i: nat, pos: Pos, seen: Room, here: seq<nat>,
                  mode: TargetMode, f: Feed, fuel: nat): (r: Visit)
    requires i < |ps| && pos in d.rooms && |here| > 0 && Distinct(here)
    requires forall k :: 0 <= k < |here| ==> here[k] < |ps|
    requires seen.visited && seen.chest.None?
    ensures Explored(|ps|, d, pos, r)
    ensures r.Visit? ==> 1 <= |r.dungeon.rooms[pos].monsters| <= 3
    ensures r.Visit? ==> r.dungeon.rooms[pos].isBoss == seen.isBoss
  {
    var group := GenerateGroup(Levels(ps, here), f);
    var g := Gather(ps, i, here, pos, group.rest);
    var r := Battle(g.players, d, pos, seen.(monsters := group.monsters), g.here, mode, g.rest, fuel);
    assert Settled(|ps|, d, r) by { assert |g.players| == |ps|; }
    r
  }

  /** A chest is generated for the party level and handed out. */
  function ChestRoom(ps: seq<Player>, d: Dungeon, pos: Pos, seen: Room, here: seq<nat>, f: Feed): (r: Visit)
    requires pos in d.rooms && |here| > 0
    requires forall k :: 0 <= k < |here| ==> here[k] < |ps| && Alive(ps[here[k]])
    requires seen.visited && seen.chest.None?
    ensures Explored(|ps|, d, pos, r) && r.Visit?
    ensures r.dungeon.rooms[pos].isBoss == seen.isBoss
    ensures r.dungeon == SetRoom(d, pos, seen)
    ensures Handed(ps, here, GenerateChest(Levels(ps, here), f).prize, r.players)
  {
    var chest := GenerateChest(Levels(ps, here), f);
    assert Alive(ps[here[0]]);
    var s := HandleChest(ps, here, chest.prize, chest.rest);
    SomeoneHere(ps, here);
    Visit(s.players, SetRoom(d, pos, seen), s.rest)
  }

  /** The room's merchant, if it has one, trades with each participant;
      without one nothing happens. */
  function MerchantRoom(ps: seq<Player>, d: Dungeon, pos: Pos, seen: Room, here: seq<nat>, f: Feed): (r: Visit)
    requires pos in d.rooms
    requires forall k :: 0 <= k < |here| ==> here[k] < |ps|
    requires seen.visited && seen.chest.None?
    ensures Explored(|ps|, d, pos, r) && r.Visit?
    ensures r.dungeon.rooms[pos].isBoss == seen.isBoss
    ensures seen.merchant.None? ==> r == Visit(ps, SetRoom(d, pos, seen), f)
    ensures seen.merchant.Some? ==>
      var m := HandleMerchant(seen.merchant.value, ps, here, f);
      r.players == m.players && r.dungeon == SetRoom(d, pos, seen.(merchant := Some(m.stock)))
    ensures forall j :: 0 <= j < |ps| && j !in here ==> r.players[j] == ps[j]
    ensures forall j :: 0 <= j < |ps| ==> r.players[j].body == ps[j].body && r.players[j].pos == ps[j].pos
  {
    match seen.merchant
    case None => Visit(ps, SetRoom(d, pos, seen), f)
    case Some(stock) =>
      var m := HandleMerchant(stock, ps, here, f);
      Visit(m.players, SetRoom(d, pos, seen.(merchant := Some(m.stock))), m.rest)
  }

  /** Each participant picks up a little gold. */
  function CacheRoom(ps: seq<Player>, d: Dungeon, pos: Pos, seen: Room, here: seq<nat>, f: Feed): (r: Visit)
    requires pos in d.rooms && Distinct(here)
    requires forall k :: 0 <= k < |here| ==> here[k] < |ps|
    requires seen.visited && seen.chest.None?
    ensures Explored(|ps|, d, pos, r) && r.Visit?
    ensures r.dungeon.rooms[pos].isBoss == seen.isBoss
    ensures r.dungeon == SetRoom(d, pos, seen)
    ensures Cached(ps, here, r.players)
  {
    var c := Cache(ps, here, f);
    Visit(c.players, SetRoom(d, pos, seen), c.rest)
  }

  /** The boss room on first entry: the door opens with the first key a
      participant carries; behind it the dragon is fought, and once it is
      dead its loot goes out. Without a key nothing changes: the room stays
      unvisited (see `BlockedEntryAsWritten` for what the code does). */
  function BossRoom(ps: seq<Player>, d: Dungeon, i: nat, pos: Pos, room: Room, here: seq<nat>,
                    mode: TargetMode, f: Feed, fuel: nat): (r: Visit)
    requires i < |ps| && pos in d.rooms && |here| > 0 && Distinct(here)
    requires forall k :: 0 <= k < |here| ==> here[k] < |ps| && Alive(ps[here[k]])
    ensures Settled(|ps|, d, r)
    ensures d.bossLocked && KeyHolder(ps, here).None? ==> r == Visit(ps, d, f)
    ensures r.Visit? ==> (r.dungeon.bossLocked <==> d.bossLocked && KeyHolder(ps, here).None?)
    ensures r.Visit? && !r.dungeon.bossLocked ==>
      pos in r.dungeon.rooms && r.dungeon.rooms[pos].visited && |r.dungeon.rooms[pos].monsters| == 1
    ensures r.Visit? ==> Apart(d, pos, r.dungeon)
    ensures r.Visit? && !r.dungeon.bossLocked ==> r.dungeon.rooms[pos].isBoss == room.isBoss
  {
    match OpenDoor(ps, d, here)
    case None => Visit(ps, d, f)
    case Some(ps1) =>
      KeptAlive(ps, ps1, here);
      BossFight(ps1, d, i, pos, room, here, mode, f, fuel)
  }

  /** Behind the open door: the participants fight the dragon, and the
      room is left visited with the dragon in it, dead or alive. */
  function BossFight(ps: seq<Player>, d: Dungeon, i: nat, pos: Pos, room: Room, here: seq<nat>,
                     mode: TargetMode, f: Feed, fuel: nat): (r: Visit)
    requires i < |ps| && pos in d.rooms && |here| > 0 && Distinct(here)
    requires forall k :: 0 <= k < |here| ==> here[k] < |ps| && Alive(ps[here[k]])
    ensures Settled(|ps|, d, r)
    ensures r.Visit? ==>
      && !r.dungeon.bossLocked && pos in r.dungeon.rooms
      && r.dungeon.rooms[pos].visited && |r.dungeon.rooms[pos].monsters| == 1
    ensures r.Visit? ==> Apart(d, pos, r.dungeon) && r.dungeon.rooms[pos].isBoss == room.isBoss
  {
    var g := Gather(ps, i, here, pos, f);
    match Fight(g.players, g.here, [Dragon], d.start, mode, g.rest, fuel)
    case Stalled => Stuck
    case Clash(qs, es, _, rest) =>
      assert |g.here| > 0 && |es| == 1;
      var c := Claim(qs, g.here, es[0], rest);
      Visit(c.players, SetRoom(d.(bossLocked := false), pos, room.(visited := true, monsters := es)), c.rest)
  }

  /** `enter_room_for_player(room, player, ...)` for party member `i` in
      the room at their position. The combat rounds are bounded by `fuel`;
      `Stuck` when they run out. Only a first entry into the boss room can
      open its door. */
  function EnterRoom(ps: seq<Player>, d: Dungeon, i: nat, mode: TargetMode, f: Feed, fuel: nat): (r: Visit)
    requires i < |ps| && Alive(ps[i]) && ps[i].pos in d.rooms
    ensures Settled(|ps|, d, r)
    ensures r.Visit? && !(BranchOf(d.rooms[ps[i].pos]) == FirstEntry && d.rooms[ps[i].pos].isBoss) ==>
      r.dungeon.bossLocked == d.bossLocked
    ensures r.Visit? ==>
      && Apart(d, ps[i].pos, r.dungeon) && ps[i].pos in r.dungeon.rooms
      && Kept(d.rooms[ps[i].pos], r.dungeon.rooms[ps[i].pos])
  {
    var pos := ps[i].pos;
    var room := d.rooms[pos];
    var here := Here(ps, pos);
    assert i in here;
    HereDistinct(ps, pos);
    match BranchOf(room)
    case Occupied =>
      var g := Gather(ps, i, here, pos, f);
      Battle(g.players, d, pos, room, g.here, mode, g.rest, fuel)
    case Revisited => Revisit(ps, d, pos, room, here, mode, f, fuel)
    case FirstEntry =>
      var roll := RandInt(f, 0, 100);
      if room.isBoss then BossRoom(ps, d, i, pos, room, here, mode, roll.rest, fuel)
      else Explore(ps, d, i, pos, room, here, roll.value, mode, roll.rest, fuel)
  }

  lemma HereDistinct(ps: seq<Player>, pos: Pos)
    ensures Distinct(Here(ps, pos))
  {
  }
}
