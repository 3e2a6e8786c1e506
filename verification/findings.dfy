/** Three places where the code does something other than what it evidently
    means, each modelled as written next to the corrected behaviour that
    the rest of the model uses. */
module Findings {
  import opened Base
  import opened Oracle
  import opened Creatures
  import opened Items
  import opened Players
  import opened Combat
  import opened Rewards
  import opened Dungeons

  // ---------------------------------------------------------------------------
  // 1. Weapon loot is appended bare

  /** An inventory entry as the code can leave it: an `Item`, or the bare
      `Weapon` that `winner.inventory.append(loot)` puts there. */
  datatype Entry = Wrapped(it: Item) | Bare(w: Weapon)

  /** `winner.inventory.append(loot)` in `distribute_xp_loot` and
      `distribute_boss_loot`, as written: the weapon itself. */
  function AppendLootAsWritten(inv: seq<Entry>, loot: Weapon): (r: seq<Entry>)
    ensures |r| == |inv| + 1 && r[..|inv|] == inv && r[|inv|].Bare?
  {
    inv + [Bare(loot)]
  }

  function ItemsOf(inv: seq<Entry>): (r: seq<Item>)
    requires forall k :: 0 <= k < |inv| ==> inv[k].Wrapped?
    ensures |r| == |inv| && forall k :: 0 <= k < |inv| ==> r[k] == inv[k].it
  {
    seq(|inv|, k requires 0 <= k < |inv| => inv[k].it)
  }

  /** The candidate scan of `lose_random_items` as written: it reads
      `it.kind` on every entry, which a bare weapon does not have. `None`
      is the `AttributeError`. */
  function CandidatesAsWritten(inv: seq<Entry>): (r: Option<seq<nat>>)
    ensures r.None? <==> exists k :: 0 <= k < |inv| && inv[k].Bare?
    ensures r.Some? ==> r.value == LossCandidates(ItemsOf(inv))
  {
    if |inv| == 0 then Some([])
    else
      var n := |inv| - 1;
      match CandidatesAsWritten(inv[..n])
      case None => BareBefore(inv, inv[..n]); None
      case Some(prev) =>
        if inv[n].Bare? then None
        else
          WrappedSoFar(inv, inv[..n]);
          Some(if Protected(inv[n].it) then prev else prev + [n])
  }

  lemma BareBefore(inv: seq<Entry>, pre: seq<Entry>)
    requires |inv| > 0 && pre == inv[..|inv| - 1]
    requires exists k :: 0 <= k < |pre| && pre[k].Bare?
    ensures exists k :: 0 <= k < |inv| && inv[k].Bare?
  {
    var k :| 0 <= k < |pre| && pre[k].Bare?;
    assert inv[k] == pre[k];
  }

  /** An inventory of wrapped entries scanned up to its last one. */
  lemma WrappedSoFar(inv: seq<Entry>, pre: seq<Entry>)
    requires |inv| > 0 && pre == inv[..|inv| - 1] && inv[|inv| - 1].Wrapped?
    requires !exists k :: 0 <= k < |pre| && pre[k].Bare?
    ensures forall k :: 0 <= k < |inv| ==> inv[k].Wrapped?
    ensures var n := |inv| - 1;
      LossCandidates(ItemsOf(inv)) ==
        if Protected(inv[n].it) then LossCandidates(ItemsOf(inv[..n])) else LossCandidates(ItemsOf(inv[..n])) + [n]
  {
    var n := |inv| - 1;
    forall k | 0 <= k < |inv| ensures inv[k].Wrapped? {
      if k < n {
        assert inv[k] == pre[k];
      }
    }
    assert ItemsOf(inv[..n]) == ItemsOf(inv)[..n];
  }

  /** Once a weapon drop has been appended, the next death of its owner
      raises instead of taking items. */
  lemma BareLootBreaksLoss(inv: seq<Entry>, loot: Weapon)
    ensures CandidatesAsWritten(AppendLootAsWritten(inv, loot)).None?
  {
    var r := AppendLootAsWritten(inv, loot);
    assert r[|inv|].Bare?;
  }

  /** The correction, used by `Rewards.Spoils` and
      `Dungeons.DistributeBossLoot`: the drop goes in wrapped as
      `Item(w.name, 'weapon', {'weapon': w})`, which the loss rules see as
      that very weapon, protected exactly when the weapon is. */
  lemma WrappedLootResolves(w: Weapon)
    ensures ResolveWeapon(WrapWeapon(w)) == Some(w)
    ensures Protected(WrapWeapon(w)) <==> ProtectedWeapon(w)
    ensures LossCandidates([WrapWeapon(w)]) == if ProtectedWeapon(w) then [] else [0]
  {
    assert EmbeddedWeapon(WrapWeapon(w)) == Some(w);
  }

  // ---------------------------------------------------------------------------
  // 2. Boss loot after a flight

  /** The end of the boss branch as written: the loot is skipped only when
      `all(not p.is_alive() for p in players_here)`, evaluated after
      `handle_deaths` has revived everybody. */
  function ClaimAsWritten(qs: seq<Player>, here: seq<nat>, f: Feed): (r: Share)
    requires |here| > 0 && forall k :: 0 <= k < |here| ==> here[k] < |qs|
    ensures AllFallen(qs, here) ==> r == Share(qs, f)
    ensures !AllFallen(qs, here) ==> (
      var w := BossWinner(qs, here, BossLoot(f).rest).value;
      && |r.players| == |qs| && r.players[w].gold == qs[w].gold + 500
      && forall j :: 0 <= j < |qs| && j != w ==> r.players[j] == qs[j])
  {
    if AllFallen(qs, here) then Share(qs, f)
    else
      var loot := BossLoot(f);
      DistributeBossLoot(qs, here, loot.weapon, loot.rest)
  }

  /** A lone hero who flees from the dragon on the first turn: the order
      keeps them first (roll 1), they choose 5 and the flee draw is 0. */
  lemma FleeFromDragon(p: Player, mode: TargetMode, fuel: nat)
    requires Alive(p) && fuel >= 1
    ensures var b := Battle([p], [Dragon]);
      Run(b, mode, Feed([1, 0], ["5"]), fuel) == Finished(b, true, InitiativeOrder(b, Feed([], [])).rest)
  {
    var b := Battle([p], [Dragon]);
    var line := [P(0), E(0)];
    HeroFirst(p);
    FirstTurnFlight(b, line, mode);
    RoundsAfterFlight(b, line, mode, Feed([0], ["5"]), fuel, Feed([], []));
  }

  lemma HeroFirst(p: Player)
    requires Alive(p)
    ensures InitiativeOrder(Battle([p], [Dragon]), Feed([1, 0], ["5"])) == Draw([P(0), E(0)], Feed([0], ["5"]))
  {
    var b := Battle([p], [Dragon]);
    var f := Feed([1, 0], ["5"]);
    assert Bodies([p]) == [p.body];
    assert AliveIndices(Bodies(b.players)) == [0];
    assert AliveIndices(b.enemies) == [0];
    var line := [P(0), E(0)];
    assert Lineup(b) == line;
    assert Below(f, 2) == Roll(1, Feed([0], ["5"]));
    assert line[1 := line[1]][1 := line[1]] == line;
  }

  lemma FirstTurnFlight(b: Battle, order: seq<Slot>, mode: TargetMode)
    requires |b.players| == 1 && Alive(b.players[0]) && AnyAlive(b.enemies)
    requires Fits(b, order) && |order| > 0 && order[0] == P(0)
    ensures PlayRound(b, order, mode, Feed([0], ["5"])) == Turn(b, true, Feed([], []))
  {
    var f1 := Feed([0] + [], ["5"] + []);
    assert f1 == Feed([0], ["5"]);
    FleeChance(b, 0, 0, [], []);
    var t := PlayerTurn(b, 0, f1);
    assert t == Turn(b, true, Feed([], []));
    assert BothSidesStand(b);
  }

  /** The discrepancy: after a flight the dragon is still standing and a
      lone hero, revived by `handle_deaths` if need be, is alive, so the
      code's test lets the boss loot and its 500 gold through. The
      corrected `Dungeons.Claim` pays nothing while the dragon lives.
      `DragonFlight` shows such a clash happens. */
  lemma FleeingPartyIsPaid(c: Clash)
    requires c.Clash? && c.fled && |c.players| == 1 && Alive(c.players[0])
    requires |c.monsters| == 1 && IsAlive(c.monsters[0])
    ensures ClaimAsWritten(c.players, [0], c.rest).players[0].gold == c.players[0].gold + 500
    ensures Claim(c.players, [0], c.monsters[0], c.rest) == Share(c.players, c.rest)
  {
    LoneSurvivorPaid(c.players, c.rest);
  }

  /** A lone party member left standing collects the boss loot as written. */
  lemma LoneSurvivorPaid(qs: seq<Player>, f: Feed)
    requires |qs| == 1 && Alive(qs[0])
    ensures ClaimAsWritten(qs, [0], f).players[0].gold == qs[0].gold + 500
  {
    var here: seq<nat> := [0];
    assert Alive(qs[here[0]]);
  }

  /** The fight of that flight: a lone hero meets the dragon, the order
      keeps them first (roll 1), they choose 5 and the flee draw is 0. The
      clash ends in flight with the hero alive and the dragon untouched. */
  lemma DragonFlight(p: Player, start: Pos, mode: TargetMode, fuel: nat)
    requires Alive(p) && fuel >= 1
    ensures var c := Fight([p], [0], [Dragon], start, mode, Feed([1, 0], ["5"]), fuel);
      c.Clash? && c.fled && c.monsters == [Dragon] && |c.players| == 1 && Alive(c.players[0])
  {
    assert Select([p], [0]) == [p];
    EncounterFlight(p, start, mode, fuel);
  }

  lemma EncounterFlight(p: Player, start: Pos, mode: TargetMode, fuel: nat)
    requires Alive(p) && fuel >= 1
    ensures var a := Encounter([p], [Dragon], mode, start, Feed([1, 0], ["5"]), fuel);
      a.Aftermath? && a.fled && a.enemies == [Dragon]
  {
    FleeFromDragon(p, mode, fuel);
    var b := Battle([p], [Dragon]);
    EncounterOfRun([p], [Dragon], mode, start, Feed([1, 0], ["5"]), fuel, b, true, InitiativeOrder(b, Feed([], [])).rest);
  }

  // ---------------------------------------------------------------------------
  // 3. A shut boss door marks the room visited

  /** The boss room as written when the door stays shut: the roll is
      drawn and `room.visited = True` is set before the lock is checked, so
      the room is left visited although nobody got in. */
  function BlockedEntryAsWritten(ps: seq<Player>, d: Dungeon, i: nat, f: Feed): (r: Visit)
    requires i < |ps| && ps[i].pos in d.rooms
    requires var room := d.rooms[ps[i].pos];
      && BranchOf(room) == FirstEntry && room.isBoss && d.bossLocked
      && KeyHolder(ps, Here(ps, ps[i].pos)).None?
    ensures r.Visit? && r.players == ps && r.dungeon.bossLocked
    ensures ps[i].pos in r.dungeon.rooms && BranchOf(r.dungeon.rooms[ps[i].pos]) == Revisited
  {
    var pos := ps[i].pos;
    Visit(ps, SetRoom(d, pos, d.rooms[pos].(visited := true)), RandInt(f, 0, 100).rest)
  }

  /** After such an entry the boss room takes the revisit branch: whoever
      comes back next, with the key or without, finds the door still
      locked. `ShutDoorNeverOpens` extends this to every later run of
      entries. */
  lemma ShutDoorStaysShut(ps: seq<Player>, d: Dungeon, i: nat, f: Feed,
                          qs: seq<Player>, j: nat, mode: TargetMode, g: Feed, fuel: nat)
    requires i < |ps| && ps[i].pos in d.rooms
    requires var room := d.rooms[ps[i].pos];
      && BranchOf(room) == FirstEntry && room.isBoss && d.bossLocked
      && KeyHolder(ps, Here(ps, ps[i].pos)).None?
    requires j < |qs| && Alive(qs[j]) && qs[j].pos == ps[i].pos
    ensures var d' := BlockedEntryAsWritten(ps, d, i, f).dungeon;
      var r := EnterRoom(qs, d', j, mode, g, fuel);
      r.Visit? ==> r.dungeon.bossLocked
  {
  }

  /** The door is locked and every boss room has been entered. */
  predicate Shut(d: Dungeon) {
    d.bossLocked && forall q :: q in d.rooms && d.rooms[q].isBoss ==> d.rooms[q].visited
  }

  /** One entry into a room: who enters, among which party, with what
      targeting, rolls and replies. */
  datatype Arrival = Arrival(party: seq<Player>, who: nat, mode: TargetMode, feed: Feed, fuel: nat)

  /** The dungeon after one entry; an entry that cannot be made, or whose
      fight runs out of rounds, leaves it as it was. */
  function Step(d: Dungeon, a: Arrival): (r: Dungeon)
    ensures r.rooms.Keys == d.rooms.Keys
  {
    if a.who < |a.party| && Alive(a.party[a.who]) && a.party[a.who].pos in d.rooms then
      match EnterRoom(a.party, d, a.who, a.mode, a.feed, a.fuel)
      case Visit(_, e, _) => e
      case Stuck => d
    else d
  }

  /** The dungeon after a run of entries, each by any party at all. */
  function Replay(d: Dungeon, arrivals: seq<Arrival>): (r: Dungeon)
    decreases |arrivals|
  {
    if |arrivals| == 0 then d else Replay(Step(d, arrivals[0]), arrivals[1..])
  }

  /** Entering any room keeps a shut door shut: a boss room already
      entered never takes the first-entry branch again, and no other room
      changes. */
  lemma StepKeepsShut(d: Dungeon, a: Arrival)
    requires Shut(d)
    ensures Shut(Step(d, a))
  {
    if a.who < |a.party| && Alive(a.party[a.who]) && a.party[a.who].pos in d.rooms {
      var pos := a.party[a.who].pos;
      var r := EnterRoom(a.party, d, a.who, a.mode, a.feed, a.fuel);
      if r.Visit? {
        assert !(BranchOf(d.rooms[pos]) == FirstEntry && d.rooms[pos].isBoss);
        forall q | q in r.dungeon.rooms && r.dungeon.rooms[q].isBoss
          ensures r.dungeon.rooms[q].visited
        {
          assert q in d.rooms;
          if q != pos {
            assert r.dungeon.rooms[q] == d.rooms[q];
          }
        }
      }
    }
  }

  /** However many entries follow, by whichever parties: a shut door is
      never opened. */
  lemma {:induction false} ReplayKeepsShut(d: Dungeon, arrivals: seq<Arrival>)
    requires Shut(d)
    ensures Shut(Replay(d, arrivals))
    decreases |arrivals|
  {
    if |arrivals| > 0 {
      StepKeepsShut(d, arrivals[0]);
      ReplayKeepsShut(Step(d, arrivals[0]), arrivals[1..]);
    }
  }

  /** With the door shut as written on a dungeon whose only boss room is
      this one (as in every new dungeon, see `NewDungeonLayout`), no run of
      later entries ever opens it, key or no key. */
  lemma ShutDoorNeverOpens(ps: seq<Player>, d: Dungeon, i: nat, f: Feed, arrivals: seq<Arrival>)
    requires i < |ps| && ps[i].pos in d.rooms
    requires var room := d.rooms[ps[i].pos];
      && BranchOf(room) == FirstEntry && room.isBoss && d.bossLocked
      && KeyHolder(ps, Here(ps, ps[i].pos)).None?
    requires forall q :: q in d.rooms && d.rooms[q].isBoss ==> q == ps[i].pos
    ensures Replay(BlockedEntryAsWritten(ps, d, i, f).dungeon, arrivals).bossLocked
  {
    BlockedEntryShuts(ps, d, i, f);
    ReplayKeepsShut(BlockedEntryAsWritten(ps, d, i, f).dungeon, arrivals);
  }

  /** The entry as written leaves the only boss room visited behind a
      locked door. */
  lemma BlockedEntryShuts(ps: seq<Player>, d: Dungeon, i: nat, f: Feed)
    requires i < |ps| && ps[i].pos in d.rooms
    requires var room := d.rooms[ps[i].pos];
      && BranchOf(room) == FirstEntry && room.isBoss && d.bossLocked
      && KeyHolder(ps, Here(ps, ps[i].pos)).None?
    requires forall q :: q in d.rooms && d.rooms[q].isBoss ==> q == ps[i].pos
    ensures Shut(BlockedEntryAsWritten(ps, d, i, f).dungeon)
  {
    var e := BlockedEntryAsWritten(ps, d, i, f).dungeon;
    forall q | q in e.rooms && e.rooms[q].isBoss
      ensures e.rooms[q].visited
    {
      assert q in d.rooms;
    }
  }

  /** The correction, used by `Dungeons.BossRoom`: a shut door changes
      nothing but the roll, so the room is still a first entry, and a
      later party holding a key gets through. */
  lemma ShutDoorOpensLater(ps: seq<Player>, d: Dungeon, i: nat, f: Feed,
                           qs: seq<Player>, j: nat, mode: TargetMode, g: Feed, fuel: nat)
    requires i < |ps| && Alive(ps[i]) && ps[i].pos in d.rooms
    requires var room := d.rooms[ps[i].pos];
      && BranchOf(room) == FirstEntry && room.isBoss && d.bossLocked
      && KeyHolder(ps, Here(ps, ps[i].pos)).None?
    requires j < |qs| && Alive(qs[j]) && qs[j].pos == ps[i].pos
    requires KeyHolder(qs, Here(qs, qs[j].pos)).Some?
    ensures EnterRoom(ps, d, i, mode, f, fuel) == Visit(ps, d, RandInt(f, 0, 100).rest)
    ensures var r := EnterRoom(qs, d, j, mode, g, fuel);
      r.Visit? ==> !r.dungeon.bossLocked
  {
    var pos := ps[i].pos;
    assert i in Here(ps, pos);
    assert j in Here(qs, pos);
    HereDistinct(ps, pos);
    HereDistinct(qs, pos);
  }
}
