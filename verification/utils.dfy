/** Game-wide constants and the small helpers shared by every layer. */
module Utils {
  import opened Base
  import opened Text

  const MaxLevel: int := 25
  const BossLevel: int := 25

  /** Cumulative experience needed to reach `level`: `30 * level ** 2`. */
  function XpForLevel(level: int): (r: int)
    ensures r >= 0
    ensures r == 0 <==> level == 0
  {
    SquareIs(level);
    30 * Square(level)
  }

  /** `n ** 2`, built up by odd numbers so that the curve stays linear
      arithmetic wherever it is only compared. */
  function Square(n: int): (r: nat)
    decreases if n < 0 then -n else n
  {
    if n == 0 then 0
    else if n < 0 then Square(n + 1) - 2 * n - 1
    else Square(n - 1) + 2 * n - 1
  }

  lemma {:induction false} SquareIs(n: int)
    ensures Square(n) == n * n
    decreases if n < 0 then -n else n
  {
    if n < 0 {
      SquareIs(n + 1);
      assert (n + 1) * (n + 1) == n * n + 2 * n + 1;
    } else if n > 0 {
      SquareIs(n - 1);
      assert (n - 1) * (n - 1) == n * n - 2 * n + 1;
    }
  }

  /** The experience curve is strictly increasing over non-negative levels. */
  lemma {:induction false} XpForLevelIncreasing(a: int, b: int)
    requires 0 <= a < b
    ensures XpForLevel(a) < XpForLevel(b)
    decreases b
  {
    if a < b - 1 {
      XpForLevelIncreasing(a, b - 1);
    }
  }

  /** `prompt_confirm`: `answer` is the handler's reply, `None` when the
      handler raised. An empty (after stripping) or failed reply yields the
      default; otherwise the answer is yes exactly when it starts with `y`
      in either case. */
  function PromptConfirm(answer: Option<string>, default: bool): (r: bool)
    ensures answer.None? ==> r == default
    ensures answer.Some? && |Strip(answer.value)| == 0 ==> r == default
    ensures answer.Some? && |Strip(answer.value)| > 0 ==>
              (r <==> (Strip(answer.value)[0] == 'y' || Strip(answer.value)[0] == 'Y'))
  {
    match answer
    case None => default
    case Some(s) =>
      SaysYesFirstChar(s);
      if |Lower(Strip(s))| == 0 then default else SaysYes(s)
  }

  /** `inventory_to_lines`: one line per entry, numbered from 1 when asked. */
  function InventoryLines(shown: seq<string>, includeIndex: bool): (r: seq<string>)
    ensures |r| == |shown|
  {
    seq(|shown|, i requires 0 <= i < |shown| =>
      if includeIndex then NatToString(i + 1) + ") " + shown[i] else shown[i])
  }

  /** Line `i` of a numbered listing starts with the number `i + 1`, which
      `int()` reads back; without numbering the line is the entry itself. */
  lemma InventoryLineNumbers(shown: seq<string>, includeIndex: bool, i: nat)
    requires i < |shown|
    ensures var line := InventoryLines(shown, includeIndex)[i];
      && (includeIndex ==>
            && StartsWith(line, NatToString(i + 1) + ") ")
            && StartsWith(line[|NatToString(i + 1) + ") "|..], shown[i])
            && ParseInt(NatToString(i + 1)) == Some(i + 1))
      && (!includeIndex ==> line == shown[i])
  {
    ParseIntOfIntToString(i + 1);
    if includeIndex {
      var p := NatToString(i + 1) + ") ";
      var line := InventoryLines(shown, includeIndex)[i];
      assert line == p + shown[i];
      assert line[..|p|] == p;
      assert line[|p|..] == shown[i];
    }
  }
}
