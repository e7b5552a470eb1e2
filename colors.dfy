/** Colour names, the custom colour list of the config command, and the colour
    sequence that generateSequence builds (src/nback_task.cpp). */
module Colors {
  import opened Text

  /** COLOR_COUNT and the colour enum RED = 0 .. WHITE = 5. */
  const COLOR_COUNT: nat := 6
  const RED: nat := 0
  const COLOR_NAMES: seq<string> := ["red", "green", "blue", "yellow", "purple", "white"]

  /** parseColorName: the colour whose name equals the lower-cased text; RED for any other text. */
  function ParseColorName(name: string): (c: nat)
    ensures c < COLOR_COUNT
    ensures ToLowerString(name) in COLOR_NAMES ==> COLOR_NAMES[c] == ToLowerString(name)
    ensures ToLowerString(name) !in COLOR_NAMES ==> c == RED
  {
    var lower := ToLowerString(name);
    if lower == "red" then 0
    else if lower == "green" then 1
    else if lower == "blue" then 2
    else if lower == "yellow" then 3
    else if lower == "purple" then 4
    else if lower == "white" then 5
    else RED
  }

  /** Colour names are matched without regard to case. */
  lemma ParseColorNameIgnoresCase(name: string)
    ensures ParseColorName(ToLowerString(name)) == ParseColorName(name)
  {
    ToLowerStringIdempotent(name);
  }

  /** Each colour's own name parses to that colour. */
  lemma ParseColorNameOfName(c: nat)
    requires c < COLOR_COUNT
    ensures ParseColorName(COLOR_NAMES[c]) == c
  {
    var name := COLOR_NAMES[c];
    assert ToLowerString(name) == name;
  }

  // ---------------------------------------------------------------------------
  // The custom colour list
  // ---------------------------------------------------------------------------

  /** The names parseAndSetColorSequence reads from s for at most `limit`
      positions: every comma-terminated piece, then the remainder after the
      last comma if it is not empty. */
  function ColorTokens(s: string, limit: nat): (t: seq<string>)
    ensures |t| <= limit
    decreases |s|
  {
    if limit == 0 then []
    else
      var c := IndexOf(s, ',', 0);
      if c < 0 then (if |s| > 0 then [s] else [])
      else [s[..c]] + ColorTokens(s[c + 1..], limit - 1)
  }

  /** The first name of a joined list is read as one token and the rest after it. */
  lemma ColorTokensOfJoinStep(names: seq<string>, limit: nat)
    requires |names| >= 2 && limit >= 1 && ',' !in names[0]
    ensures ColorTokens(Join(names, ','), limit) == [names[0]] + ColorTokens(Join(names[1..], ','), limit - 1)
  {
    JoinHead(names, ',');
  }

  /** A list entry the host can write: not empty and free of commas. */
  predicate ListName(name: string)
  {
    name != "" && ',' !in name
  }

  /** Every entry of the list is a ListName. */
  predicate ListNames(names: seq<string>)
  {
    |names| == 0 || (ListName(names[0]) && ListNames(names[1..]))
  }

  lemma {:induction false} ColorTokensOfJoin(names: seq<string>, limit: nat)
    requires ListNames(names)
    ensures ColorTokens(Join(names, ','), limit) == if |names| <= limit then names else names[..limit]
    decreases |names|, 1
  {
    if limit == 0 || |names| == 0 {
      ColorTokensOfNothing(names, limit);
    } else if |names| == 1 {
      ColorTokensOfOne(names[0], limit);
    } else {
      ColorTokensOfJoinCons(names, limit);
    }
  }

  lemma {:induction false} ColorTokensOfJoinCons(names: seq<string>, limit: nat)
    requires ListNames(names)
    requires |names| >= 2 && limit >= 1
    ensures ColorTokens(Join(names, ','), limit) == if |names| <= limit then names else names[..limit]
    decreases |names|, 0
  {
    ColorTokensOfJoinStep(names, limit);
    ColorTokensOfJoin(names[1..], limit - 1);
    ConsPrefix(names, limit, ColorTokens(Join(names[1..], ','), limit - 1));
  }

  /** No tokens are read with a zero limit or from an empty list. */
  lemma ColorTokensOfNothing(names: seq<string>, limit: nat)
    requires limit == 0 || |names| == 0
    ensures ColorTokens(Join(names, ','), limit) == if |names| <= limit then names else names[..limit]
  {
    if limit > 0 {
      assert Join(names, ',') == "";
    }
  }

  /** A single name is read as one token. */
  lemma ColorTokensOfOne(name: string, limit: nat)
    requires ListName(name) && limit >= 1
    ensures ColorTokens(name, limit) == [name]
  {
    IndexOfNone(name, ',', 0);
  }

  /** Putting back the first name in front of the rest's bounded prefix gives the bounded prefix. */
  lemma ConsPrefix(names: seq<string>, limit: nat, rest: seq<string>)
    requires |names| >= 1 && limit >= 1
    requires rest == if |names| - 1 <= limit - 1 then names[1..] else names[1..][..limit - 1]
    ensures [names[0]] + rest == if |names| <= limit then names else names[..limit]
  {
    if |names| <= limit {
      assert names == [names[0]] + names[1..];
    } else {
      assert names[..limit] == [names[0]] + names[1..][..limit - 1];
    }
  }

  /** The sequence after the tokens' colours are written over positions 0, 1, ...;
      the positions past the last token keep their values. */
  function Overlay(old_: seq<int>, tokens: seq<string>): (s: seq<int>)
    requires |tokens| <= |old_|
    ensures |s| == |old_|
    ensures forall i :: 0 <= i < |tokens| ==> s[i] == ParseColorName(tokens[i])
    ensures forall i :: |tokens| <= i < |old_| ==> s[i] == old_[i]
  {
    seq(|old_|, i requires 0 <= i < |old_| => if i < |tokens| then ParseColorName(tokens[i]) as int else old_[i])
  }

  /** Writing one more token's colour at the next position. */
  lemma OverlayStep(old_: seq<int>, tokens: seq<string>, name: string)
    requires |tokens| < |old_|
    ensures Overlay(old_, tokens + [name]) == Overlay(old_, tokens)[|tokens| := ParseColorName(name)]
  {
    var l := Overlay(old_, tokens + [name]);
    var r := Overlay(old_, tokens)[|tokens| := ParseColorName(name)];
    assert forall i :: 0 <= i < |old_| ==> l[i] == r[i];
  }

  /** With no tokens nothing is overwritten. */
  lemma OverlayNone(old_: seq<int>)
    ensures Overlay(old_, []) == old_
  {
  }

  // ---------------------------------------------------------------------------
  // Targets and the generated sequence
  // ---------------------------------------------------------------------------

  /** Trial i is a target when it repeats the colour shown n trials earlier. */
  predicate IsTarget(s: seq<int>, i: nat, n: nat)
    requires i < |s|
  {
    i >= n && s[i] == s[i - n]
  }

  /** Arduino's random(howbig), given the raw value r of the generator's next draw. */
  function RandomBelow(r: nat, howbig: nat): (x: nat)
    ensures howbig > 0 ==> x < howbig
    ensures howbig == 0 ==> x == 0
  {
    if howbig == 0 then 0 else r % howbig
  }

  /** Arduino's random(howsmall, howbig): a value in [howsmall, howbig), or howsmall when the range is empty. */
  function RandomBetween(r: nat, howsmall: nat, howbig: nat): (x: nat)
    ensures howsmall < howbig ==> howsmall <= x < howbig
    ensures howsmall >= howbig ==> x == howsmall
  {
    if howsmall >= howbig then howsmall else howsmall + RandomBelow(r, howbig - howsmall)
  }

  /** The first loop of generateSequence: entry i is random(colorsUsed) of the i-th draw. */
  function Filled(m: nat, colorsUsed: nat, draw: nat -> nat): (s: seq<int>)
    ensures |s| == m
  {
    seq(m, i requires 0 <= i < m => RandomBelow(draw(i), colorsUsed) as int)
  }

  /** The position of the t-th planted target: random(n, m) of draw m + t. */
  function PlantPos(m: nat, n: nat, draw: nat -> nat, t: nat): (p: nat)
    requires n < m
    ensures n <= p < m
  {
    RandomBetween(draw(m + t), n, m)
  }

  /** The sequence after the first t targets have been planted. */
  function Planted(m: nat, n: nat, colorsUsed: nat, draw: nat -> nat, t: nat): (s: seq<int>)
    requires 1 <= n < m
    ensures |s| == m
  {
    if t == 0 then Filled(m, colorsUsed, draw)
    else
      var prev := Planted(m, n, colorsUsed, draw, t - 1);
      var pos := PlantPos(m, n, draw, t - 1);
      prev[pos := prev[pos - n]]
  }

  /** Planting target t at the position its draw gives, with the sequence
      before it in hand. */
  lemma PlantedStep(m: nat, n: nat, colorsUsed: nat, draw: nat -> nat, t: nat, prev: seq<int>, pos: nat)
    requires 1 <= n < m && prev == Planted(m, n, colorsUsed, draw, t)
    requires pos == RandomBetween(draw(m + t), n, m)
    ensures n <= pos < m && Planted(m, n, colorsUsed, draw, t + 1) == prev[pos := prev[pos - n]]
  {
  }

  /** How many targets generateSequence plants: a quarter of the trials, rounded down. */
  function TargetCount(m: nat): nat { m / 4 }

  /** generateSequence's result for m trials, n-back level n and the given draws. */
  function Generated(m: nat, n: nat, colorsUsed: nat, draw: nat -> nat): (s: seq<int>)
    requires 1 <= n < m
    ensures |s| == m
  {
    Planted(m, n, colorsUsed, draw, TargetCount(m))
  }

  predicate InColorRange(s: seq<int>, colorsUsed: nat)
  {
    forall i :: 0 <= i < |s| ==> 0 <= s[i] < colorsUsed
  }

  /** Every generated entry is a colour below colorsUsed. */
  lemma {:induction false} PlantedInRange(m: nat, n: nat, colorsUsed: nat, draw: nat -> nat, t: nat)
    requires 1 <= n < m && colorsUsed >= 1
    ensures InColorRange(Planted(m, n, colorsUsed, draw, t), colorsUsed)
    decreases t
  {
    if t == 0 {
      var s := Filled(m, colorsUsed, draw);
      assert forall i :: 0 <= i < m ==> s[i] == RandomBelow(draw(i), colorsUsed) as int;
    } else {
      PlantedInRange(m, n, colorsUsed, draw, t - 1);
    }
  }

  /** Planting the t-th target makes its position repeat the colour n places before. */
  lemma PlantMakesTarget(m: nat, n: nat, colorsUsed: nat, draw: nat -> nat, t: nat)
    requires 1 <= n < m
    ensures IsTarget(Planted(m, n, colorsUsed, draw, t + 1), PlantPos(m, n, draw, t), n)
  {
  }

  /** The last target planted is a target of the generated sequence. */
  lemma LastPlantIsTarget(m: nat, n: nat, colorsUsed: nat, draw: nat -> nat)
    requires 1 <= n < m && TargetCount(m) > 0
    ensures IsTarget(Generated(m, n, colorsUsed, draw), PlantPos(m, n, draw, TargetCount(m) - 1), n)
  {
    PlantMakesTarget(m, n, colorsUsed, draw, TargetCount(m) - 1);
  }

  /** Positions below n, and positions no plant chose, keep their first-loop colour. */
  lemma {:induction false} UnplantedKeepFill(m: nat, n: nat, colorsUsed: nat, draw: nat -> nat, t: nat, i: nat)
    requires 1 <= n < m && i < m
    requires forall u :: 0 <= u < t ==> PlantPos(m, n, draw, u) != i
    ensures Planted(m, n, colorsUsed, draw, t)[i] == Filled(m, colorsUsed, draw)[i]
    decreases t
  {
    if t > 0 {
      UnplantedKeepFill(m, n, colorsUsed, draw, t - 1, i);
    }
  }

  /** No trial before position n is ever overwritten. */
  lemma PrefixKeepsFill(m: nat, n: nat, colorsUsed: nat, draw: nat -> nat, i: nat)
    requires 1 <= n < m && i < n
    ensures Generated(m, n, colorsUsed, draw)[i] == Filled(m, colorsUsed, draw)[i]
  {
    UnplantedKeepFill(m, n, colorsUsed, draw, TargetCount(m), i);
  }
}
