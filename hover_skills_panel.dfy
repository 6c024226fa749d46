/**
 * The skills hover panel (src/components/tabs/TabPanels/HoverSkillsPanel.tsx):
 * one card per already-grouped category, in the order given, each with its
 * skills' names and a row of level dots for the rounded mean level.  The skills
 * page (SkillsPage.tsx, lines 187-219) renders its sorted groups the same way.
 */
module HoverSkillsPanel {
  import SkillsPage
  import LevelDots

  /** A rendered category card. */
  datatype Card = Card(category: string, chips: seq<string>, level: int, dots: seq<bool>)

  /** The card of one `[category, list]` entry. */
  function CardOf(g: SkillsPage.Group): Card {
    var avg := SkillsPage.Average(g.1);
    Card(g.0, seq(|g.1|, k requires 0 <= k < |g.1| => g.1[k].name), avg, LevelDots.Dots(avg))
  }

  /**
   * `groupedSkillsAll.map(...)` (lines 59-92): cards in exactly the input order,
   * chips in the skills' input order, five dots filled up to the average.
   */
  function Cards(grouped: seq<SkillsPage.Group>): (r: seq<Card>)
    ensures |r| == |grouped|
    ensures forall i :: 0 <= i < |r| ==> r[i].category == grouped[i].0
    ensures forall i :: 0 <= i < |r| ==>
              |r[i].chips| == |grouped[i].1| &&
              forall k :: 0 <= k < |r[i].chips| ==> r[i].chips[k] == grouped[i].1[k].name
    ensures forall i :: 0 <= i < |r| ==> r[i].level == SkillsPage.Average(grouped[i].1)
    ensures forall i :: 0 <= i < |r| ==>
              |r[i].dots| == 5 && forall k :: 0 <= k < 5 ==> (r[i].dots[k] <==> k < r[i].level)
  {
    seq(|grouped|, i requires 0 <= i < |grouped| => CardOf(grouped[i]))
  }

  /** An empty category shows level 0, i.e. five hollow dots. */
  lemma EmptyCategoryCard(category: string)
    ensures CardOf((category, [])) == Card(category, [], 0, [false, false, false, false, false])
  {
  }

  /** The level a card shows lies between its category's lowest and highest skill level. */
  lemma CardLevelWithin(grouped: seq<SkillsPage.Group>, i: nat, lo: int, hi: int)
    requires i < |grouped| && |grouped[i].1| > 0
    requires forall k :: 0 <= k < |grouped[i].1| ==> lo <= grouped[i].1[k].level <= hi
    ensures lo <= Cards(grouped)[i].level <= hi
  {
    SkillsPage.AverageWithin(grouped[i].1, lo, hi);
  }
}
