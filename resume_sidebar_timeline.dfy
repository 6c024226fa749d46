/**
 * The resume timeline (src/components/resumeTimeline/SidebarTimeline.tsx):
 * a list of items, one `active` id chosen first by the `current` flag and then
 * by clicks, and a details pane for the item with that id.
 */
module ResumeSidebarTimeline {
  import opened Wrappers
  import opened JsText
  import JsArray

  /** `TimelineItem` (lines 3-11); an absent `current` reads as false. */
  datatype TimelineItem = TimelineItem(
    id: string,
    title: string,
    range: string,
    org: string,
    summary: Option<string>,
    bullets: Option<seq<string>>,
    current: bool)

  predicate IsCurrent(it: TimelineItem) {
    it.current
  }

  /** Item `i` is the first one marked current. */
  predicate FirstCurrent(items: seq<TimelineItem>, i: int) {
    0 <= i < |items| && items[i].current && forall j :: 0 <= j < i ==> !items[j].current
  }

  /** The ids are pairwise distinct (`key={item.id}` asks for this). */
  predicate UniqueIds(items: seq<TimelineItem>) {
    forall i, j :: 0 <= i < j < |items| ==> items[i].id != items[j].id
  }

  /** `defaultItem?.id ?? ""` with `defaultItem = items.find((i) => i.current) ?? items[0]` (lines 22-23). */
  function DefaultActiveId(items: seq<TimelineItem>): (r: string)
    ensures forall i :: FirstCurrent(items, i) ==> r == items[i].id
    ensures (forall i :: 0 <= i < |items| ==> !items[i].current) && items != [] ==> r == items[0].id
    ensures items == [] ==> r == ""
    ensures items != [] ==> exists i :: 0 <= i < |items| && r == items[i].id
  {
    match JsArray.Find(items, IsCurrent)
    case Some(it) => it.id
    case None => if items == [] then "" else items[0].id
  }

  /** The separator of the details header, `•`. */
  const Bullet: string := "\U{2022}"

  /** The characters line 97 actually holds between org and range: `•` read as Windows-1252. */
  const BulletAsWritten: string := "\U{E2}\U{20AC}\U{A2}"

  /** The details header as line 97 writes it. */
  function HeaderAsWritten(org: string, range: string): (r: string)
    ensures |r| == |org| + |range| + 5
    ensures r[..|org|] == org && r[|r| - |range|..] == range
    ensures r[|org|..|org| + 5] == " " + BulletAsWritten + " "
  {
    org + " " + BulletAsWritten + " " + range
  }

  /** The header as evidently intended: org, a spaced bullet, range. */
  function Header(org: string, range: string): (r: string)
    ensures |r| == |org| + |range| + 3
    ensures r[..|org|] == org && r[|r| - |range|..] == range
    ensures r[|org|..|org| + 3] == " " + Bullet + " "
  {
    org + " " + Bullet + " " + range
  }

  /** The written header is two characters longer and carries no bullet between its parts. */
  lemma HeaderGarbled(org: string, range: string)
    ensures |HeaderAsWritten(org, range)| == |Header(org, range)| + 2
    ensures HeaderAsWritten(org, range)[|org| + 1] == '\U{E2}' != Bullet[0]
  {
  }

  /** One details card (lines 88-112). */
  datatype DetailPanel = DetailPanel(title: string, header: string, summary: Option<string>, bullets: seq<string>)

  function PanelOf(it: TimelineItem): (p: DetailPanel)
    ensures p.title == it.title && p.header == Header(it.org, it.range)
    ensures p.summary.Some? <==> Truthy(it.summary)
    ensures p.summary.Some? ==> p.summary == it.summary
    ensures p.bullets != [] <==> it.bullets.Some? && it.bullets.value != []
    ensures p.bullets != [] ==> p.bullets == it.bullets.value
  {
    DetailPanel(
      it.title,
      Header(it.org, it.range),
      if Truthy(it.summary) then it.summary else None,
      if it.bullets.Some? then it.bullets.value else [])
  }

  /** The component's `active` state over its `items` prop. */
  class Sidebar {
    const items: seq<TimelineItem>
    var active: string

    constructor (items: seq<TimelineItem>)
      ensures this.items == items
      ensures active == DefaultActiveId(items)
    {
      this.items := items;
      active := DefaultActiveId(items);
    }

    /** The button's `onClick` (line 53). */
    method Click(i: nat)
      requires i < |items|
      modifies this
      ensures active == items[i].id
    {
      active := items[i].id;
    }

    /** `isActive` (line 37). */
    predicate IsActive(i: nat)
      reads this
      requires i < |items|
    {
      active == items[i].id
    }

    /** The items the details pane renders (lines 85-88), in list order. */
    function Shown(): (r: seq<TimelineItem>)
      reads this
      ensures forall k :: 0 <= k < |r| ==> r[k] in items && r[k].id == active
      ensures forall i :: 0 <= i < |items| && IsActive(i) ==> items[i] in r
      ensures JsArray.IsSubsequence(r, items)
    {
      var a := active;
      JsArray.Filter(items, (it: TimelineItem) => it.id == a)
    }

    /** With unique ids the details pane shows at most one item. */
    lemma AtMostOneShown()
      requires UniqueIds(items)
      ensures |Shown()| <= 1
    {
      var a := active;
      JsArray.FilterAtMostOne(items, (it: TimelineItem) => it.id == a);
    }

    /** After a click on item `i` of a list with unique ids, the details pane shows exactly that item. */
    lemma ShownAfterClick(i: nat)
      requires i < |items| && UniqueIds(items) && IsActive(i)
      ensures Shown() == [items[i]]
    {
      AtMostOneShown();
      var r := Shown();
      assert items[i] in r;
    }
  }
}
