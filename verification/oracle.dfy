/** Random draws and typed replies as explicit input.

    The source draws from Python's global `random` module and reads replies
    through an injected `input_handler`. Here both arrive as one `Feed`: a
    script of raw rolls and a script of reply lines, consumed front to back
    and handed on to the next step. A roll stands for CPython's
    `randbelow(n)`, reduced modulo `n`, so any integer script is a legal
    sequence of draws and every legal draw is reachable. A script that runs
    out reads as roll 0 and as the empty line. */
module Oracle {
  import opened Base

  datatype Feed = Feed(rolls: seq<int>, lines: seq<string>)

  /** 2^53: `random.random()` returns `k / 2^53` for such a `k`. */
  const FloatSteps: int := 0x20_0000_0000_0000

  datatype Roll = Roll(value: int, rest: Feed)
  datatype Line = Line(text: string, rest: Feed)

  function NextRoll(f: Feed): (r: Roll)
    ensures r.rest.lines == f.lines
    ensures |f.rolls| > 0 ==> r.value == f.rolls[0] && r.rest.rolls == f.rolls[1..]
    ensures |f.rolls| == 0 ==> r.value == 0 && r.rest == f
  {
    if |f.rolls| == 0 then Roll(0, f) else Roll(f.rolls[0], f.(rolls := f.rolls[1..]))
  }

  /** `randbelow(n)`: an index in `[0, n)`. Also `random.choice` of an
      `n`-element list. */
  function Below(f: Feed, n: int): (r: Roll)
    requires n > 0
    ensures 0 <= r.value < n
    ensures r.rest == NextRoll(f).rest
  {
    var raw := NextRoll(f);
    Roll(raw.value % n, raw.rest)
  }

  /** `random.randint(lo, hi)`: an integer in the inclusive range. */
  function RandInt(f: Feed, lo: int, hi: int): (r: Roll)
    requires lo <= hi
    ensures lo <= r.value <= hi
    ensures r.rest == NextRoll(f).rest
  {
    var b := Below(f, hi - lo + 1);
    Roll(lo + b.value, b.rest)
  }

  /** `random.random()` as the integer numerator over 2^53. */
  function RandomFloat(f: Feed): (r: Roll)
    ensures 0 <= r.value < FloatSteps
    ensures r.rest == NextRoll(f).rest
  {
    Below(f, FloatSteps)
  }

  /** The next reply typed at a prompt. */
  function ReadLine(f: Feed): (r: Line)
    ensures r.rest.rolls == f.rolls
    ensures |f.lines| > 0 ==> r.text == f.lines[0] && r.rest.lines == f.lines[1..]
    ensures |f.lines| == 0 ==> r.text == "" && r.rest == f
  {
    if |f.lines| == 0 then Line("", f) else Line(f.lines[0], f.(lines := f.lines[1..]))
  }

  /** A scripted reply is read back as typed, and a roll already in range
      is read as itself, by `randbelow(n)` and by `randint(lo, hi)`. */
  lemma ReadLineHead(text: string, lines: seq<string>, rolls: seq<int>)
    ensures ReadLine(Feed(rolls, [text] + lines)) == Line(text, Feed(rolls, lines))
  {
    assert ([text] + lines)[1..] == lines;
  }

  lemma BelowHead(f: Feed, n: int)
    requires |f.rolls| > 0 && 0 <= f.rolls[0] < n
    ensures Below(f, n) == Roll(f.rolls[0], f.(rolls := f.rolls[1..]))
  {
  }

  lemma RandIntHead(f: Feed, lo: int, hi: int)
    requires |f.rolls| > 0 && 0 <= f.rolls[0] <= hi - lo
    ensures RandInt(f, lo, hi) == Roll(lo + f.rolls[0], f.(rolls := f.rolls[1..]))
  {
    BelowHead(f, hi - lo + 1);
  }

  /** Every value the source's `randint(lo, hi)` can return is produced by
      some script: the roll `v - lo` yields exactly `v`. */
  lemma RandIntReaches(lo: int, hi: int, v: int, rest: seq<int>, lines: seq<string>)
    requires lo <= v <= hi
    ensures RandInt(Feed([v - lo] + rest, lines), lo, hi) == Roll(v, Feed(rest, lines))
  {
    var f := Feed([v - lo] + rest, lines);
    assert f.rolls[1..] == rest;
    assert (v - lo) % (hi - lo + 1) == v - lo;
  }

  // ---------------------------------------------------------------------------
  // Sequences drawn at random

  datatype Draw<T> = Draw(items: seq<T>, rest: Feed)

  /** No element occurs twice. */
  predicate Distinct<T(==)>(s: seq<T>) {
    forall a, b :: 0 <= a < b < |s| ==> s[a] != s[b]
  }

  /** One step of the pool method: the element at `j` leaves and the last
      element takes its place. */
  function PoolWithout<T>(pool: seq<T>, j: nat): (r: seq<T>)
    requires j < |pool|
    ensures |r| == |pool| - 1
    ensures multiset(r) + multiset{pool[j]} == multiset(pool)
    ensures forall k :: 0 <= k < |r| && k != j ==> r[k] == pool[k]
    ensures j < |r| ==> r[j] == pool[|pool| - 1]
  {
    var n := |pool|;
    var t := pool[j := pool[n - 1]];
    assert t == t[..n - 1] + [t[n - 1]];
    assert pool == pool[..n - 1] + [pool[n - 1]];
    t[..n - 1]
  }

  /** `random.sample(pool, k)` for the pools the game draws from: CPython's
      pool method, which draws `randbelow(n - i)` for the `i`-th pick and
      moves the last remaining element into the hole. */
  function Sample<T>(f: Feed, pool: seq<T>, k: nat): (r: Draw<T>)
    requires k <= |pool|
    ensures |r.items| == k
    ensures multiset(r.items) <= multiset(pool)
    ensures Distinct(pool) ==> Distinct(r.items)
    decreases k
  {
    if k == 0 then Draw([], f)
    else
      var j := Below(f, |pool|);
      var x := pool[j.value];
      var pool' := PoolWithout(pool, j.value);
      var tail := Sample(j.rest, pool', k - 1);
      SampleStepDistinct(pool, j.value, tail.items);
      Draw([x] + tail.items, tail.rest)
  }

  lemma SampleStepDistinct<T>(pool: seq<T>, j: nat, tail: seq<T>)
    requires j < |pool|
    requires multiset(tail) <= multiset(PoolWithout(pool, j))
    requires Distinct(pool) ==> Distinct(PoolWithout(pool, j)) ==> Distinct(tail)
    ensures Distinct(pool) ==> Distinct([pool[j]] + tail)
  {
    if Distinct(pool) {
      var rest := PoolWithout(pool, j);
      var n := |pool|;
      assert Distinct(rest) by {
        forall a, b | 0 <= a < b < |rest|
          ensures rest[a] != rest[b]
        {
          var ia := if a == j then n - 1 else a;
          var ib := if b == j then n - 1 else b;
          assert rest[a] == pool[ia] && rest[b] == pool[ib];
        }
      }
      assert pool[j] !in rest by {
        forall k | 0 <= k < |rest|
          ensures rest[k] != pool[j]
        {
          var ik := if k == j then n - 1 else k;
          assert rest[k] == pool[ik];
        }
      }
      var s := [pool[j]] + tail;
      forall a, b | 0 <= a < b < |s|
        ensures s[a] != s[b]
      {
        if a == 0 {
          assert s[b] in multiset(tail);
        } else {
          assert s[a] == tail[a - 1] && s[b] == tail[b - 1];
        }
      }
    }
  }

  /** `random.shuffle(s)`: CPython's Fisher-Yates pass, swapping position
      `i` with `randbelow(i + 1)` for `i` from the last index down to 1. */
  function Shuffle<T>(f: Feed, s: seq<T>): (r: Draw<T>)
    ensures multiset(r.items) == multiset(s)
    ensures |r.items| == |s|
  {
    if |s| <= 1 then Draw(s, f) else ShuffleDown(f, s, |s| - 1)
  }

  function ShuffleDown<T>(f: Feed, s: seq<T>, i: nat): (r: Draw<T>)
    requires i < |s|
    ensures multiset(r.items) == multiset(s)
    ensures |r.items| == |s|
    decreases i
  {
    if i == 0 then Draw(s, f)
    else
      var j := Below(f, i + 1);
      var swapped := s[i := s[j.value]][j.value := s[i]];
      assert multiset(swapped) == multiset(s);
      ShuffleDown(j.rest, swapped, i - 1)
  }

  /** A script that always draws the current position leaves the order as
      it was. */
  lemma {:induction false} ShuffleDownStill<T>(s: seq<T>, i: nat, rest: seq<int>, lines: seq<string>)
    requires i < |s|
    ensures ShuffleDown(Feed(Countdown(i) + rest, lines), s, i) == Draw(s, Feed(rest, lines))
    decreases i
  {
    if i > 0 {
      var f := Feed(Countdown(i) + rest, lines);
      var f' := Feed(Countdown(i - 1) + rest, lines);
      assert f.rolls == [i] + (Countdown(i - 1) + rest);
      assert NextRoll(f) == Roll(i, f');
      var j := Below(f, i + 1);
      assert j == Roll(i, f');
      assert s[i := s[i]][i := s[i]] == s;
      ShuffleDownStill(s, i - 1, rest, lines);
    }
  }

  /** The rolls `i, i - 1, ..., 1`. */
  function Countdown(i: nat): (r: seq<int>)
    ensures |r| == i
    ensures forall k :: 0 <= k < i ==> r[k] == i - k
  {
    if i == 0 then [] else [i] + Countdown(i - 1)
  }

  // ---------------------------------------------------------------------------
  // Removing picked positions

  /** How many of the positions below `n` are picked. */
  function PickedBelow(n: nat, picks: seq<nat>): nat {
    if n == 0 then 0 else PickedBelow(n - 1, picks) + (if n - 1 in picks then 1 else 0)
  }

  lemma {:induction false} PickedBelowCons(n: nat, x: nat, rest: seq<nat>)
    requires x !in rest
    ensures PickedBelow(n, [x] + rest) == PickedBelow(n, rest) + (if x < n then 1 else 0)
  {
    if n > 0 {
      PickedBelowCons(n - 1, x, rest);
    }
  }

  /** Distinct picks below `n` are all counted. */
  lemma {:induction false} PickedBelowAll(n: nat, picks: seq<nat>)
    requires Distinct(picks)
    requires forall k :: 0 <= k < |picks| ==> picks[k] < n
    ensures PickedBelow(n, picks) == |picks|
  {
    if |picks| == 0 {
      PickedBelowNone(n, picks);
    } else {
      var rest := picks[1..];
      assert picks == [picks[0]] + rest;
      assert picks[0] !in rest;
      assert Distinct(rest);
      PickedBelowAll(n, rest);
      PickedBelowCons(n, picks[0], rest);
    }
  }

  lemma {:induction false} PickedBelowNone(n: nat, picks: seq<nat>)
    requires |picks| == 0
    ensures PickedBelow(n, picks) == 0
  {
    if n > 0 {
      PickedBelowNone(n - 1, picks);
    }
  }

  /** The kept entries in order, the removed ones from the highest position
      to the lowest, and where each removed one stood. */
  datatype Split<T> = Split(kept: seq<T>, removed: seq<T>, removedAt: seq<nat>)

  /** The entries of `inv` whose positions, counted from `at`, are not in
      `picks`, in their original order. */
  function Unpicked<T>(inv: seq<T>, picks: seq<nat>, at: nat): (r: seq<T>)
    ensures |r| <= |inv|
    decreases |inv|
  {
    if |inv| == 0 then []
    else (if at in picks then [] else [inv[0]]) + Unpicked(inv[1..], picks, at + 1)
  }

  /** `Unpicked` of a sequence with one more entry at the end. */
  lemma {:induction false} UnpickedSnoc<T>(inv: seq<T>, x: T, picks: seq<nat>, at: nat)
    ensures Unpicked(inv + [x], picks, at)
         == Unpicked(inv, picks, at) + (if at + |inv| in picks then [] else [x])
    decreases |inv|
  {
    if |inv| > 0 {
      assert (inv + [x])[1..] == inv[1..] + [x];
      UnpickedSnoc(inv[1..], x, picks, at + 1);
    }
  }

  /** Popping the picked positions from the highest down. */
  function PopPicked<T>(inv: seq<T>, picks: seq<nat>): (r: Split<T>)
    ensures |r.removed| == |r.removedAt| == PickedBelow(|inv|, picks)
    ensures forall k :: 0 <= k < |r.removed| ==>
              r.removedAt[k] < |inv| && r.removedAt[k] in picks && r.removed[k] == inv[r.removedAt[k]]
    ensures forall i :: 0 <= i < |inv| && i !in picks ==> inv[i] in r.kept
  {
    if |inv| == 0 then Split([], [], [])
    else
      var last := |inv| - 1;
      var prev := PopPicked(inv[..last], picks);
      if last in picks then Split(prev.kept, [inv[last]] + prev.removed, [last] + prev.removedAt)
      else Split(prev.kept + [inv[last]], prev.removed, prev.removedAt)
  }

  /** The entries popping keeps are exactly the unpicked ones, still in
      their original order. */
  lemma {:induction false} PopPickedKeepsOrder<T>(inv: seq<T>, picks: seq<nat>)
    ensures PopPicked(inv, picks).kept == Unpicked(inv, picks, 0)
  {
    if |inv| > 0 {
      var last := |inv| - 1;
      PopPickedKeepsOrder(inv[..last], picks);
      UnpickedSnoc(inv[..last], inv[last], picks, 0);
      assert inv[..last] + [inv[last]] == inv;
    }
  }

  /** Popping loses nothing: kept and removed together are the original entries. */
  lemma {:induction false} PopPickedPermutes<T>(inv: seq<T>, picks: seq<nat>)
    ensures var r := PopPicked(inv, picks); multiset(r.kept) + multiset(r.removed) == multiset(inv)
  {
    if |inv| > 0 {
      var last := |inv| - 1;
      PopPickedPermutes(inv[..last], picks);
      assert inv == inv[..last] + [inv[last]];
    }
  }
}
