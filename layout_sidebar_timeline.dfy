/**
 * The layout sidebar (src/components/layout/SidebarTimeline.tsx): one button
 * per context entry, its title cut to 26 characters, the selected one active.
 */
module LayoutSidebarTimeline {
  import opened Wrappers
  import TimelineContext

  /** Longest title shown whole (line 17). */
  const MaxTitle: nat := 26

  /** The ellipsis `…` the cut is evidently meant to end with. */
  const Ellipsis: string := "\U{2026}"

  /** The three characters line 17 actually holds: `…` read as Windows-1252. */
  const EllipsisAsWritten: string := "\U{E2}\U{20AC}\U{A6}"

  /** Line 17 as written. */
  function ShortTitleAsWritten(title: string): (r: string)
    ensures |title| <= MaxTitle ==> r == title
    ensures |title| > MaxTitle ==> |r| == MaxTitle + 3 && r[..MaxTitle] == title[..MaxTitle]
    ensures |title| > MaxTitle ==> r[MaxTitle..] == EllipsisAsWritten
  {
    if |title| > MaxTitle then title[..MaxTitle] + EllipsisAsWritten else title
  }

  /** Line 17 with the intended ellipsis: never more than 27 characters. */
  function ShortTitle(title: string): (r: string)
    ensures |r| <= MaxTitle + 1
    ensures |title| <= MaxTitle ==> r == title
    ensures |title| > MaxTitle ==> |r| == MaxTitle + 1 && r[..MaxTitle] == title[..MaxTitle]
    ensures |title| > MaxTitle ==> r[MaxTitle] == '\U{2026}'
  {
    if |title| > MaxTitle then title[..MaxTitle] + Ellipsis else title
  }

  /** Shortening a shortened title changes nothing. */
  lemma ShortTitleIdempotent(title: string)
    ensures ShortTitle(ShortTitle(title)) == ShortTitle(title)
  {
    if |title| > MaxTitle {
      var r := ShortTitle(title);
      assert r[..MaxTitle] == title[..MaxTitle];
    }
  }

  /** A long title as written ends in three stray characters and runs two past the intended length. */
  lemma ShortTitleAsWrittenGarbled(title: string)
    requires |title| > MaxTitle
    ensures |ShortTitleAsWritten(title)| == |ShortTitle(title)| + 2
    ensures ShortTitleAsWritten(title)[MaxTitle] == '\U{E2}' != ShortTitle(title)[MaxTitle]
  {
  }

  /** One sidebar button (lines 11-18). */
  datatype Button = Button(id: string, text: string, active: bool)

  function Buttons(items: seq<TimelineContext.TimelineEntry>, selectedId: string): (r: seq<Button>)
    ensures |r| == |items|
    ensures forall i :: 0 <= i < |r| ==> r[i].id == items[i].id && r[i].text == ShortTitle(items[i].title)
    ensures forall i :: 0 <= i < |r| ==> (r[i].active <==> items[i].id == selectedId)
  {
    seq(|items|, i requires 0 <= i < |items| =>
      Button(items[i].id, ShortTitle(items[i].title), items[i].id == selectedId))
  }

  /** With unique ids at most one button is active. */
  lemma AtMostOneActive(items: seq<TimelineContext.TimelineEntry>, selectedId: string, i: nat, j: nat)
    requires TimelineContext.UniqueIds(items)
    requires i < |items| && j < |items|
    requires Buttons(items, selectedId)[i].active && Buttons(items, selectedId)[j].active
    ensures i == j
  {
  }

  /** A click on button `i` (line 13) selects that entry and makes its button the active one. */
  method Click(p: TimelineContext.TimelineProvider, i: nat)
    requires p.Valid() && i < |p.items|
    modifies p
    ensures p.Valid()
    ensures p.selectedId == p.items[i].id
    ensures Buttons(p.items, p.selectedId)[i].active
    ensures p.Selected() == Some(p.items[i])
  {
    p.SetSelectedId(p.items[i].id);
    TimelineContext.ExperienceUniqueIds();
    TimelineContext.SelectOwnId(p.items, i);
  }
}
