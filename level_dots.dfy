/**
 * `LevelDots` (src/components/tabs/uiParts.tsx): a row of five dots of which
 * the first `level` are filled.  SkillsPage, HoverSkillsPanel and
 * ResumeHoverPanels each carry an identical local copy; all of them use this one.
 */
module LevelDots {

  /** The row length, `Array.from({ length: 5 })`. */
  const DotCount: nat := 5

  /** The dots, `true` for a filled one: dot `i` is filled iff `i < level`. */
  function Dots(level: int): seq<bool> {
    seq(DotCount, i => i < level)
  }

  /** Number of filled dots in a row. */
  function Filled(dots: seq<bool>): nat
    decreases |dots|
  {
    if dots == [] then 0
    else Filled(dots[..|dots| - 1]) + (if dots[|dots| - 1] then 1 else 0)
  }

  /** `level` clamped to `0..n`. */
  function Clamp(level: int, n: nat): nat {
    if level < 0 then 0 else if level > n then n else level
  }

  /** Every level gives exactly five dots, dot `i` filled iff `i < level`. */
  lemma DotsShape(level: int)
    ensures |Dots(level)| == 5
    ensures forall i :: 0 <= i < 5 ==> (Dots(level)[i] <==> i < level)
  {
  }

  /** The filled dots form a prefix of the row. */
  lemma FilledPrefix(level: int, i: nat, j: nat)
    requires j < i < DotCount && Dots(level)[i]
    ensures Dots(level)[j]
  {
  }

  /** A row of `n` dots whose first `level` are filled has `Clamp(level, n)` filled. */
  lemma {:induction false} FilledRow(n: nat, level: int)
    ensures Filled(seq(n, i => i < level)) == Clamp(level, n)
  {
    if n > 0 {
      var row := seq(n, i => i < level);
      assert row[..n - 1] == seq(n - 1, i => i < level);
      FilledRow(n - 1, level);
    }
  }

  /** The number of filled dots is `max(0, min(5, level))`. */
  lemma FilledCount(level: int)
    ensures Filled(Dots(level)) == Clamp(level, 5)
  {
    FilledRow(DotCount, level);
  }
}
