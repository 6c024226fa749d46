/**
 * The timeline context (src/context/TimelineContext.tsx): the fixed
 * `experience` list (src/data/experience.ts), the selected id and the entry
 * it selects.
 */
module TimelineContext {
  import opened Wrappers
  import JsArray

  datatype TimelineCategory = Work | Education

  /** `TimelineEntry` (src/data/experience.ts:3-11). */
  datatype TimelineEntry = TimelineEntry(
    id: string,
    title: string,
    subtitle: Option<string>,
    period: string,
    category: TimelineCategory,
    summary: string,
    bullets: Option<seq<string>>)

  /** `experience` (src/data/experience.ts:13-58). */
  const Experience: seq<TimelineEntry> := [
    TimelineEntry(
      "current", "NBCUniversal", Some("POST Software Engineer (Internal candidate)"),
      "2024 \U{2014} Present", Work,
      "Working with GitHub/GitHub Actions; building automation and tooling; collaborating across teams.",
      Some(["Implemented CI workflows using GitHub Actions.",
            "Helped QA with WebdriverIO/Appium mobile testing setup."])),
    TimelineEntry(
      "prev-1", "Previous Workplace", Some("QA/Automation Engineer"),
      "2019 \U{2014} 2024", Work,
      "Worked with Jenkins, Docker, TFS, SSIS, and SSRS; established pipelines and reporting.",
      Some(["Built Jenkins pipelines with Dockerized test suites.",
            "Owned reporting pipelines with SSIS/SSRS."])),
    TimelineEntry(
      "prev-2", "Earlier Role", Some("Software/QA Engineer"),
      "2016 \U{2014} 2019", Work,
      "Full-stack and QA contributions across web apps and data workflows.",
      None),
    TimelineEntry(
      "edu-1", "College Attended", Some("B.S. \U{2014} (Your Major)"),
      "\U{2014}", Education,
      "Add a short line about your focus, honors, or standout project/coursework.",
      None)
  ]

  predicate UniqueIds(items: seq<TimelineEntry>) {
    forall i, j :: 0 <= i < j < |items| ==> items[i].id != items[j].id
  }

  predicate HasId(items: seq<TimelineEntry>, id: string) {
    exists i :: 0 <= i < |items| && items[i].id == id
  }

  /** The four entries have distinct ids. */
  lemma ExperienceUniqueIds()
    ensures UniqueIds(Experience)
  {
  }

  /** `items.find((e) => e.id === id)`: the first entry with that id, or `None` for `undefined`. */
  function SelectedIn(items: seq<TimelineEntry>, id: string): (r: Option<TimelineEntry>)
    ensures r.Some? <==> HasId(items, id)
    ensures r.Some? ==> r.value.id == id && r.value in items
    ensures r.Some? ==> exists i :: 0 <= i < |items| && items[i] == r.value
                                    && forall j :: 0 <= j < i ==> items[j].id != id
  {
    JsArray.Find(items, (e: TimelineEntry) => e.id == id)
  }

  /** With unique ids, the entry selected by an entry's own id is that entry. */
  lemma SelectOwnId(items: seq<TimelineEntry>, i: nat)
    requires i < |items| && UniqueIds(items)
    ensures SelectedIn(items, items[i].id) == Some(items[i])
  {
    var r := SelectedIn(items, items[i].id);
    assert HasId(items, items[i].id);
    var k :| 0 <= k < |items| && items[k] == r.value && forall j :: 0 <= j < k ==> items[j].id != items[i].id;
    assert !(k > i) && !(k < i);
  }

  /** `TimelineProvider`'s state (lines 13-21). */
  class TimelineProvider {
    const items: seq<TimelineEntry>
    var selectedId: string

    /** The context hands out the `experience` list itself. */
    ghost predicate Valid()
      reads this
    {
      items == Experience
    }

    /** `useState(experience[0].id)` (line 14). */
    constructor ()
      ensures Valid()
      ensures selectedId == Experience[0].id
      ensures Selected() == Some(Experience[0])
    {
      items := Experience;
      selectedId := Experience[0].id;
      new;
      ExperienceUniqueIds();
      SelectOwnId(Experience, 0);
    }

    /** `selected` (lines 15-18). */
    function Selected(): (r: Option<TimelineEntry>)
      reads this
      ensures r.Some? <==> HasId(items, selectedId)
      ensures r.Some? ==> r.value.id == selectedId && r.value in items
    {
      SelectedIn(items, selectedId)
    }

    /** `setSelectedId` (line 20). */
    method SetSelectedId(id: string)
      requires Valid()
      modifies this
      ensures Valid()
      ensures selectedId == id
      ensures HasId(items, id) ==> Selected().Some? && Selected().value.id == id
      ensures !HasId(items, id) ==> Selected().None?
    {
      selectedId := id;
    }
  }
}
