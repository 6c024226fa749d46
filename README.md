# Portfolio site client logic, modelled in Dafny

The site is a React portfolio with skills, projects, a resume timeline and a
PIN-gated contact panel. Nearly all of it is presentation. This project models
the parts that decide something, and proves what they promise:

- **Skills page.** Grouping the fetched skill rows by category in input order.
  Ordering the groups by a fixed preference list, with unknown categories last
  and in string order. The per-category rounded average level.
- **Level dots.** A level becomes five dots, the first `level` of them filled.
- **Projects page.** Classifying a media URL as video or image. The YouTube
  check that turns a video into an external link. The three-field lightbox
  opened and closed by the page.
- **Projects hover panel.** `canPlay`, `isExternal`, the media block and what a
  click on it does.
- **Contact panel.** The `pin`/`loading`/`error`/`contact`/`verified` state
  machine behind the PIN form, and the view chosen from it.
- **Resume hover menu.** The single `open` key rewritten by hover and focus
  events, and the one panel shown for it.
- **Timelines.**
  - The resume sidebar's default and clicked `active` id, and its details pane.
  - The layout sidebar's truncated titles and active flag.
  - The timeline context's `selectedId` and the entry it selects.

Modules follow the source files:

| module | file |
|---|---|
| `SkillsPage` | `skills_page.dfy` |
| `LevelDots` | `level_dots.dfy` |
| `HoverSkillsPanel` | `hover_skills_panel.dfy` |
| `ProjectsPage` | `projects_page.dfy` |
| `HoverProjectsPanel` | `hover_projects_panel.dfy` |
| `ContactPanel` | `contact_panel.dfy` |
| `ResumeHoverPanels` | `resume_hover_panels.dfy` |
| `ResumeSidebarTimeline` | `resume_sidebar_timeline.dfy` |
| `LayoutSidebarTimeline` | `layout_sidebar_timeline.dfy` |
| `TimelineContext` | `timeline_context.dfy` |

Three shared modules hold the JavaScript built-ins the code relies on:
- `JsText`: `trim`, `toLowerCase`, `includes`, `endsWith` and truthiness.
- `JsArray`: `find`, `findIndex`, `indexOf` and `filter`.
- `Wrappers`: `Option`, with `GetOr` for `??`.

The site holds four identical copies of `LevelDots`, in `uiParts.tsx`,
`SkillsPage.tsx`, `HoverSkillsPanel.tsx` and `ResumeHoverPanels.tsx`. All of
them use the single `LevelDots.Dots`.

Remote data is an input:
- The Supabase skill and project lists are parameters.
- The contact lookup is an oracle from the trimmed PIN to its outcome.
  `ContactPanel.SingleMatch` says what that outcome is against a given table.

State that a component changes in place is a class:
- `ProjectsPage.Lightbox`
- `ContactPanel.Panel`
- `ResumeHoverPanels.HoverMenu`
- `ResumeSidebarTimeline.Sidebar`
- `TimelineContext.TimelineProvider`

The skill grouping, which mutates an accumulator in a loop, is a method with
loop invariants.

## Model

| member | source | states |
|---|---|---|
| `JsText.LowerChar` | src/components/tabs/ProjectsPage.tsx:46 | the lower-cased character is never an upper-case letter |
| `JsText.ToLower` | src/components/tabs/ProjectsPage.tsx:46 | `toLowerCase` keeps the length, maps each character independently and leaves no upper-case letter |
| `JsText.ToLowerIdempotent` | src/components/tabs/ProjectsPage.tsx:46 | lower-casing twice is lower-casing once |
| `JsText.Includes` | src/components/tabs/ProjectsPage.tsx:51-53 | `includes(p)` holds exactly when `p` occurs at some position |
| `JsText.OccursAfterFirst` | src/components/tabs/ProjectsPage.tsx:51-53 | occurrences past position 0 are exactly the occurrences in the tail, shifted by one |
| `JsText.LeadingSpaces` | src/components/tabs/TabPanels/ContactPanel.tsx:37 | the returned count covers exactly the leading run of whitespace |
| `JsText.EndOfText` | src/components/tabs/TabPanels/ContactPanel.tsx:37 | everything from the returned index on is whitespace, and the character before it is not |
| `JsText.Trim` | src/components/tabs/TabPanels/ContactPanel.tsx:37 | `trim()` is empty iff the text is all whitespace; otherwise it is a slice of the text that starts and ends with non-whitespace, with whitespace only outside it |
| `JsText.TrimOfTrimmed` | src/components/tabs/TabPanels/ContactPanel.tsx:46 | a text with no whitespace at either end trims to itself, so trimming is idempotent |
| `JsText.TrimPadded` | src/components/tabs/TabPanels/ContactPanel.tsx:46 | whitespace padding around a code is removed exactly, leaving the code |
| `JsArray.FindIndex` | src/components/resumeTimeline/SidebarTimeline.tsx:22 | the result is the first index satisfying the test, or none when no element does |
| `JsArray.Find` | src/context/TimelineContext.tsx:16 | `find` returns an element exactly when one satisfies the test, and then the first such element |
| `JsArray.IndexOf` | src/components/tabs/TabPages/SkillsPage.tsx:102-103 | `indexOf` is -1 exactly for an absent value, else the first position holding it |
| `JsArray.Filter` | src/components/resumeTimeline/SidebarTimeline.tsx:85-88 | `filter` keeps every element that passes the test and only those, in their original order (the result is a subsequence of the input), and nothing when none passes |
| `JsArray.FilterMultiplicity` | src/components/resumeTimeline/SidebarTimeline.tsx:85-88 | each passing value is kept as often as it occurs in the input, and every failing value is dropped |
| `JsArray.FilterAppend` | src/components/resumeTimeline/SidebarTimeline.tsx:85-88 | filtering a concatenation filters each part and keeps the parts in order |
| `JsArray.FilterOne` | src/components/resumeTimeline/SidebarTimeline.tsx:85-88 | when exactly one element passes, the filter is that element alone |
| `JsArray.FilterTwo` | src/components/resumeTimeline/SidebarTimeline.tsx:85-88 | when two elements pass, the filter keeps at least two |
| `JsArray.FilterAtMostOne` | src/components/resumeTimeline/SidebarTimeline.tsx:85-88 | when no two elements pass the test, the filter keeps at most one |
| `SkillsPage.Categories` | src/components/tabs/TabPages/SkillsPage.tsx:95-99 | the grouping's keys are distinct and are exactly the categories of the input |
| `SkillsPage.FirstIndex` | src/components/tabs/TabPages/SkillsPage.tsx:96 | the position of a category's first skill: that skill has the category and no earlier one does, or the length when no skill has it |
| `SkillsPage.CategoriesInFirstOrder` | src/components/tabs/TabPages/SkillsPage.tsx:95-99 | the keys are listed in the order in which their first skills appear |
| `SkillsPage.Members` | src/components/tabs/TabPages/SkillsPage.tsx:96-97 | a category's list holds only input skills of that category |
| `SkillsPage.GroupByCategory` | src/components/tabs/TabPages/SkillsPage.tsx:95-99 | the reduce yields one group per distinct category, in first-appearance order, each holding exactly that category's skills in input order |
| `SkillsPage.MembersOfAbsent` | src/components/tabs/TabPages/SkillsPage.tsx:96 | a category absent from the input has no members |
| `SkillsPage.MembersCount` | src/components/tabs/TabPages/SkillsPage.tsx:95-99 | each input skill occurs in its own category's list exactly as often as in the input, and in no other list |
| `SkillsPage.MembersAppend` | src/components/tabs/TabPages/SkillsPage.tsx:97 | appending skills appends to each category's list, so input order is kept |
| `SkillsPage.LocaleCompare` | src/components/tabs/TabPages/SkillsPage.tsx:104 | the comparison is zero iff the strings are equal, negative iff the first precedes, positive iff the second precedes |
| `SkillsPage.StrLessIrreflexive` | src/components/tabs/TabPages/SkillsPage.tsx:104 | the string order standing for `localeCompare` is irreflexive |
| `SkillsPage.StrLessAsymmetric` | src/components/tabs/TabPages/SkillsPage.tsx:104 | the string order is asymmetric |
| `SkillsPage.StrLessTransitive` | src/components/tabs/TabPages/SkillsPage.tsx:104 | the string order is transitive |
| `SkillsPage.StrLessTotal` | src/components/tabs/TabPages/SkillsPage.tsx:104 | any two distinct strings are ordered one way or the other |
| `SkillsPage.Compare` | src/components/tabs/TabPages/SkillsPage.tsx:101-108 | the comparator: two unknown categories by `localeCompare`, an unknown one after a known one, two known ones by the difference of their `categoryOrder` indices |
| `SkillsPage.Before` | src/components/tabs/TabPages/SkillsPage.tsx:101-108 | `a` is placed before `b` iff the comparator is negative; its order properties are the `Before...` lemmas |
| `SkillsPage.KnownBeforeUnknown` | src/components/tabs/TabPages/SkillsPage.tsx:105-106 | a category in `categoryOrder` sorts before any category not in it |
| `SkillsPage.KnownByPosition` | src/components/tabs/TabPages/SkillsPage.tsx:22-32 | two known categories are ordered by their index in `categoryOrder` (line 107) |
| `SkillsPage.UnknownByName` | src/components/tabs/TabPages/SkillsPage.tsx:104 | two unknown categories are ordered by string comparison |
| `SkillsPage.BeforeIrreflexive` | src/components/tabs/TabPages/SkillsPage.tsx:101-108 | the comparator never puts a category before itself |
| `SkillsPage.BeforeAsymmetric` | src/components/tabs/TabPages/SkillsPage.tsx:101-108 | the comparator is asymmetric |
| `SkillsPage.BeforeTransitive` | src/components/tabs/TabPages/SkillsPage.tsx:101-108 | the comparator is transitive |
| `SkillsPage.BeforeTotal` | src/components/tabs/TabPages/SkillsPage.tsx:101-108 | the comparator orders any two distinct categories |
| `SkillsPage.BeforeStrictTotal` | src/components/tabs/TabPages/SkillsPage.tsx:101-108 | the comparator is a strict total order, so the sorted result does not depend on the sort algorithm |
| `SkillsPage.Insert` | src/components/tabs/TabPages/SkillsPage.tsx:101 | inserting a group adds exactly that group |
| `SkillsPage.SortGroups` | src/components/tabs/TabPages/SkillsPage.tsx:101 | sorting is a permutation of the entries |
| `SkillsPage.OrderedCons` | src/components/tabs/TabPages/SkillsPage.tsx:101-108 | a group that precedes every group of an ordered list can be put in front of it |
| `SkillsPage.InsertOrdered` | src/components/tabs/TabPages/SkillsPage.tsx:101-108 | inserting a new key into an ordered list keeps it ordered |
| `SkillsPage.SortGroupsOrdered` | src/components/tabs/TabPages/SkillsPage.tsx:101-108 | sorting entries with distinct keys yields an ordered list |
| `SkillsPage.GroupedSkills` | src/components/tabs/TabPages/SkillsPage.tsx:94-111 | one group per distinct category; every skill is in the group of its own category, in input order; the groups are ordered by the comparator; no groups iff no skills (the empty message, line 171) |
| `SkillsPage.RearrangedGroups` | src/components/tabs/TabPages/SkillsPage.tsx:101-110 | any rearrangement of the grouped entries still pairs each category with exactly its skills |
| `SkillsPage.OrderedByPreference` | src/components/tabs/TabPages/SkillsPage.tsx:102-107 | in the result, known categories precede unknown ones, known ones follow `categoryOrder`, and unknown ones follow string order |
| `SkillsPage.Average` | src/components/tabs/TabPages/SkillsPage.tsx:188-193 | `avg` is 0 for an empty group, otherwise the mean rounded half up, `Math.round(sum / n)` |
| `SkillsPage.DivBounds` | src/components/tabs/TabPages/SkillsPage.tsx:190-192 | floor division brackets its dividend, the step behind the rounding formula |
| `SkillsPage.LevelSum` | src/components/tabs/TabPages/SkillsPage.tsx:191 | `reduce((a, b) => a + b.level, 0)`: the levels added from left to right, 0 for no skills |
| `SkillsPage.LevelSumBounds` | src/components/tabs/TabPages/SkillsPage.tsx:191 | the level sum lies between `n` times the smallest and `n` times the largest level |
| `SkillsPage.AverageWithin` | src/components/tabs/TabPages/SkillsPage.tsx:188-193 | the average of a non-empty group lies between its smallest and largest level |
| `SkillsPage.MulCancel` | src/components/tabs/TabPages/SkillsPage.tsx:190-192 | a positive factor can be cancelled from a strict inequality, used for the rounding bounds |
| `SkillsPage.AverageRoundsHalfUp` | src/components/tabs/TabPages/SkillsPage.tsx:190-192 | levels 5 and 4 average to 5: a half rounds up |
| `SkillsPage.AverageOfThree` | src/components/tabs/TabPages/SkillsPage.tsx:190-192 | levels 3, 4 and 4 average to 4 |
| `LevelDots.Dots` | src/components/tabs/uiParts.tsx:21-35 | five dots, dot `i` filled iff `i < level`; its shape is stated by `DotsShape` |
| `LevelDots.DotsShape` | src/components/tabs/uiParts.tsx:21-35 | every level renders exactly five dots, dot `i` filled iff `i < level` |
| `LevelDots.FilledPrefix` | src/components/tabs/uiParts.tsx:29 | the filled dots form a prefix |
| `LevelDots.FilledRow` | src/components/tabs/uiParts.tsx:23-30 | a row of `n` dots under the `i < level` rule has `level` clamped to `0..n` filled |
| `LevelDots.FilledCount` | src/components/tabs/uiParts.tsx:23-30 | the number of filled dots is `max(0, min(5, level))` |
| `HoverSkillsPanel.CardOf` | src/components/tabs/TabPanels/HoverSkillsPanel.tsx:59-92 | the card of one entry: its category, its skills' names as chips, the rounded mean level and its dots; what it shows is stated by `Cards` |
| `HoverSkillsPanel.Cards` | src/components/tabs/TabPanels/HoverSkillsPanel.tsx:59-92 | one card per category in input order, chips in input order, level the rounded mean, five dots filled iff `i < avg` (local `LevelDots`, lines 35-50) |
| `HoverSkillsPanel.EmptyCategoryCard` | src/components/tabs/TabPanels/HoverSkillsPanel.tsx:60-65 | an empty category gets level 0 and five empty dots |
| `HoverSkillsPanel.CardLevelWithin` | src/components/tabs/TabPanels/HoverSkillsPanel.tsx:60-65 | a card's level lies between its smallest and largest skill level |
| `ProjectsPage.IsVideoUrl` | src/components/tabs/ProjectsPage.tsx:45-55 | the lower-cased URL ends in `.mp4`, `.webm` or `.mov`, or contains `youtube.com`, `youtu.be` or `vimeo.com` |
| `ProjectsPage.IsYouTube` | src/components/tabs/ProjectsPage.tsx:246-247 | the URL itself, not lower-cased, contains `youtube.com` or `youtu.be` |
| `ProjectsPage.IncludesAfterLower` | src/components/tabs/ProjectsPage.tsx:46-53 | a lower-case pattern found in a URL is still found after lower-casing it |
| `ProjectsPage.IsVideoUrlIgnoresCase` | src/components/tabs/ProjectsPage.tsx:45-55 | `isVideoUrl` gives the same answer for URLs that differ only in letter case |
| `ProjectsPage.IsVideoUrlOfLower` | src/components/tabs/ProjectsPage.tsx:45-55 | `isVideoUrl` of the lower-cased URL equals `isVideoUrl` of the URL |
| `ProjectsPage.YouTubeIsVideo` | src/components/tabs/ProjectsPage.tsx:246-247 | a URL passing the case-sensitive YouTube check is a video URL |
| `ProjectsPage.MediaBlockOf` | src/components/tabs/ProjectsPage.tsx:243-272 | no block iff the URL is falsy; a link or thumbnail always carries the project's own, non-empty URL |
| `ProjectsPage.NonVideoIsImage` | src/components/tabs/ProjectsPage.tsx:264-270 | a non-video URL becomes an image thumbnail titled `title ?? "screenshot"` |
| `ProjectsPage.YouTubeIsLink` | src/components/tabs/ProjectsPage.tsx:245-256 | a URL containing `youtube.com` or `youtu.be` becomes an external "Watch video" link |
| `ProjectsPage.OtherVideoIsInline` | src/components/tabs/ProjectsPage.tsx:257-263 | every other video URL becomes an inline `VideoThumb` titled `title ?? "video"` |
| `ProjectsPage.UpperCaseYouTubeIsInline` | src/components/tabs/ProjectsPage.tsx:245-263 | `YOUTU.BE` is a video but fails the case-sensitive check, so it renders inline |
| `ProjectsPage.Mp4IsInline` | src/components/tabs/ProjectsPage.tsx:257-263 | an `.mp4` file renders an inline thumbnail with the project title |
| `ProjectsPage.NoUrlNoMedia` | src/components/tabs/ProjectsPage.tsx:243-272 | a null or empty `media_url` renders no media block |
| `ProjectsPage.Lightbox.constructor` | src/components/tabs/ProjectsPage.tsx:63-65 | the lightbox starts closed, with no media and an empty alt |
| `ProjectsPage.Lightbox.OpenWithMedia` | src/components/tabs/ProjectsPage.tsx:67-72 | a falsy source changes nothing; otherwise the lightbox opens on that source and alt; an open lightbox always has media |
| `ProjectsPage.Lightbox.Close` | src/components/tabs/ProjectsPage.tsx:74-78 | closing resets open to false, media to null and alt to `""` |
| `ProjectsPage.Lightbox.Activate` | src/components/tabs/ProjectsPage.tsx:365-384 | clicking a thumbnail opens the lightbox on its source and title; a link leaves the lightbox alone |
| `ProjectsPage.Lightbox.Shown` | src/components/tabs/ProjectsPage.tsx:279-327 | the modal renders iff open with truthy media, showing that media and caption, as a `<video>` exactly when `isVideoUrl` accepts the media (line 300) |
| `ProjectsPage.Lightbox.ShownIffOpen` | src/components/tabs/ProjectsPage.tsx:279 | under the lightbox invariant the modal renders exactly when it is open |
| `HoverProjectsPanel.CanPlay` | src/components/tabs/TabPanels/HoverProjectsPanel.tsx:23 | `canPlay`: the media URL is truthy and the parent's video test accepts it |
| `HoverProjectsPanel.IsExternal` | src/components/tabs/TabPanels/HoverProjectsPanel.tsx:24-26 | `isExternal`: false without a truthy media URL, otherwise the parent's external-host test on it |
| `HoverProjectsPanel.MediaOf` | src/components/tabs/TabPanels/HoverProjectsPanel.tsx:76-142 | no block iff `media_url` is falsy; a play tile iff `canPlay` (line 23); otherwise a screenshot with alt `title ?? "project screenshot"` |
| `HoverProjectsPanel.ClickOutcome` | src/components/tabs/TabPanels/HoverProjectsPanel.tsx:85-131 | something to click iff there is a media block; a window or modal always gets the project's non-empty URL |
| `HoverProjectsPanel.NoUrlNoBlock` | src/components/tabs/TabPanels/HoverProjectsPanel.tsx:23-26 | without a media URL there is no block, no click, and neither `canPlay` nor `isExternal` holds |
| `HoverProjectsPanel.ExternalVideoOpensWindow` | src/components/tabs/TabPanels/HoverProjectsPanel.tsx:85-92 | a playable external video opens a new window and not the modal |
| `HoverProjectsPanel.InlineVideoOpensModal` | src/components/tabs/TabPanels/HoverProjectsPanel.tsx:93-96 | a playable non-external video opens the modal with alt `title ?? "video"` |
| `HoverProjectsPanel.ImageOpensModal` | src/components/tabs/TabPanels/HoverProjectsPanel.tsx:119-131 | a non-video URL shows a screenshot and its click opens the modal with alt `title ?? "screenshot"`, whatever the host test says |
| `ContactPanel.Matches` | src/components/tabs/TabPanels/ContactPanel.tsx:46 | the rows selected by `.eq("access_code", code)` are the rows carrying that code, in table order, each as often as in the table |
| `ContactPanel.MatchesOfCarriers` | src/components/tabs/TabPanels/ContactPanel.tsx:43-47 | the selection is one row exactly when one row of the table carries the code, and then it is that row |
| `ContactPanel.SingleMatch` | src/components/tabs/TabPanels/ContactPanel.tsx:43-47 | `.single()` returns a row iff exactly one row of the table carries the code, and then it returns that row; it never throws |
| `ContactPanel.UnknownCodeNoMatch` | src/components/tabs/TabPanels/ContactPanel.tsx:43-53 | a code no row carries finds nothing |
| `ContactPanel.SharedCodeNoMatch` | src/components/tabs/TabPanels/ContactPanel.tsx:43-53 | a code that two rows carry finds nothing |
| `ContactPanel.SoleRowFound` | src/components/tabs/TabPanels/ContactPanel.tsx:43-47 | a table whose one row carries the code returns that row |
| `ContactPanel.OrElse` | src/components/tabs/TabPanels/ContactPanel.tsx:182 | the value-or-fallback text is blank only when the value is falsy and the fallback is blank; a truthy value wins |
| `ContactPanel.DetailsOf` | src/components/tabs/TabPanels/ContactPanel.tsx:172-231 | phone, location and LinkedIn link are never blank; the email link always starts with `mailto:`; email and LinkedIn texts are the row's own |
| `ContactPanel.StoredFieldsShown` | src/components/tabs/TabPanels/ContactPanel.tsx:182-228 | a non-empty phone, location or LinkedIn URL is shown exactly as stored; the email link targets the stored address, and a null email gives `mailto:null` |
| `ContactPanel.BlankFieldsFallBack` | src/components/tabs/TabPanels/ContactPanel.tsx:182-228 | each field on its own: a missing phone or location shows a dash, a missing LinkedIn URL links to `#` |
| `ContactPanel.Panel.constructor` | src/components/tabs/TabPanels/ContactPanel.tsx:29-33 | the panel starts locked: empty PIN, not loading, no contact, no error |
| `ContactPanel.Panel.SetPin` | src/components/tabs/TabPanels/ContactPanel.tsx:139 | typing replaces the PIN and nothing else |
| `ContactPanel.Panel.BeginCheck` | src/components/tabs/TabPanels/ContactPanel.tsx:37-41 | a blank PIN changes nothing and queries nothing; otherwise the error is cleared, loading starts, and the query is the trimmed PIN |
| `ContactPanel.Panel.FinishCheck` | src/components/tabs/TabPanels/ContactPanel.tsx:49-62 | a row unlocks the panel with that contact; no row sets "Invalid PIN." and an exception sets "Something went wrong.", both leaving `verified` as it was; loading ends in every case |
| `ContactPanel.Panel.HandleCheckPin` | src/components/tabs/TabPanels/ContactPanel.tsx:35-63 | the whole submission: a blank PIN does nothing; otherwise the oracle is asked for the trimmed PIN and the outcome is applied; an unlocked panel stays unlocked |
| `ContactPanel.Panel.ViewOf` | src/components/tabs/TabPanels/ContactPanel.tsx:65-232 | nothing when closed; the form iff not verified, with the "Checking..."/"Unlock" label, disabled while loading and an error line iff the error is truthy, showing that error's text; the PIN field shows `pin`; the details iff verified with a contact |
| `ContactPanel.Panel.FormOrDetails` | src/components/tabs/TabPanels/ContactPanel.tsx:127-172 | an open valid panel shows exactly one of the form and the details |
| `ContactPanel.PaddedPinUnlocks` | src/components/tabs/TabPanels/ContactPanel.tsx:37-56 | a PIN typed with surrounding whitespace unlocks the contact whose code it is |
| `ResumeHoverPanels.ItemsCoverKeys` | src/components/tabs/ResumeHoverPanels.tsx:4-20 | each of the four keys has exactly one menu item, so `open` is always null or a menu key |
| `ResumeHoverPanels.PanelsOf` | src/components/tabs/ResumeHoverPanels.tsx:89 | a key's panel renders iff it is the open key and has a menu item |
| `ResumeHoverPanels.AtMostOnePanel` | src/components/tabs/ResumeHoverPanels.tsx:89 | with distinct menu keys at most one panel renders |
| `ResumeHoverPanels.HoverMenu.constructor` | src/components/tabs/ResumeHoverPanels.tsx:55 | the menu starts with nothing open |
| `ResumeHoverPanels.HoverMenu.Enter` | src/components/tabs/ResumeHoverPanels.tsx:70-82 | mouse-enter or focus on a key opens that key, whatever was open |
| `ResumeHoverPanels.HoverMenu.Leave` | src/components/tabs/ResumeHoverPanels.tsx:71-83 | mouse-leave or blur on a key closes it if it is open, and otherwise changes nothing |
| `ResumeHoverPanels.HoverMenu.Highlighted` | src/components/tabs/ResumeHoverPanels.tsx:78-80 | a key's trigger is highlighted iff it is the open key |
| `ResumeHoverPanels.HoverMenu.Panels` | src/components/tabs/ResumeHoverPanels.tsx:78-89 | at most one panel renders; it is the open key's, and that key's trigger is the highlighted one |
| `ResumeHoverPanels.EnterThenLeaveOther` | src/components/tabs/ResumeHoverPanels.tsx:70-71 | leaving an earlier item after entering a new one keeps the new one open |
| `ResumeHoverPanels.SkillCardDots` | src/components/tabs/ResumeHoverPanels.tsx:39-52 | the skills cards with levels 5, 4, 3 and 4 (lines 119-185) fill exactly that many dots |
| `ResumeSidebarTimeline.DefaultActiveId` | src/components/resumeTimeline/SidebarTimeline.tsx:22-23 | the first `current` item's id; else the first item's id; `""` for an empty list; always some item's id when there are items |
| `ResumeSidebarTimeline.HeaderAsWritten` | src/components/resumeTimeline/SidebarTimeline.tsx:97 | the details header as written: org, a space, the three characters `â€¢` on that line, a space, range |
| `ResumeSidebarTimeline.Header` | src/components/resumeTimeline/SidebarTimeline.tsx:97 | the intended header: org, a spaced bullet, range |
| `ResumeSidebarTimeline.HeaderGarbled` | src/components/resumeTimeline/SidebarTimeline.tsx:97 | the written header is two characters longer and has `â` where the bullet belongs |
| `ResumeSidebarTimeline.PanelOf` | src/components/resumeTimeline/SidebarTimeline.tsx:88-112 | a details card shows the title, the intended header `Header` (not the as-written separator), the summary iff truthy, and the bullet list iff present and non-empty |
| `ResumeSidebarTimeline.Sidebar.constructor` | src/components/resumeTimeline/SidebarTimeline.tsx:22-23 | the active id starts as the default |
| `ResumeSidebarTimeline.Sidebar.Click` | src/components/resumeTimeline/SidebarTimeline.tsx:53 | clicking an item makes its id active |
| `ResumeSidebarTimeline.Sidebar.IsActive` | src/components/resumeTimeline/SidebarTimeline.tsx:37 | `isActive`: the item's id is the active id |
| `ResumeSidebarTimeline.Sidebar.Shown` | src/components/resumeTimeline/SidebarTimeline.tsx:85-88 | the details pane renders exactly the items whose id is active, in list order (a subsequence of the items) |
| `ResumeSidebarTimeline.Sidebar.AtMostOneShown` | src/components/resumeTimeline/SidebarTimeline.tsx:85-88 | with unique ids the details pane renders at most one item |
| `ResumeSidebarTimeline.Sidebar.ShownAfterClick` | src/components/resumeTimeline/SidebarTimeline.tsx:37-88 | with unique ids, once an item is active the details pane renders exactly that item |
| `LayoutSidebarTimeline.ShortTitleAsWritten` | src/components/layout/SidebarTimeline.tsx:17 | as written: titles up to 26 characters unchanged, longer ones cut to 26 plus the three characters on that line |
| `LayoutSidebarTimeline.ShortTitle` | src/components/layout/SidebarTimeline.tsx:17 | as intended: titles up to 26 characters unchanged, longer ones cut to 26 plus `…`, never more than 27 |
| `LayoutSidebarTimeline.ShortTitleIdempotent` | src/components/layout/SidebarTimeline.tsx:17 | shortening a shortened title changes nothing |
| `LayoutSidebarTimeline.ShortTitleAsWrittenGarbled` | src/components/layout/SidebarTimeline.tsx:17 | a long title as written is two characters longer than intended and has `â` where `…` belongs |
| `LayoutSidebarTimeline.Buttons` | src/components/layout/SidebarTimeline.tsx:8-18 | one button per entry, in order, with the intended `ShortTitle` (not the as-written suffix), active iff its id is `selectedId` |
| `LayoutSidebarTimeline.AtMostOneActive` | src/components/layout/SidebarTimeline.tsx:9 | with unique ids at most one button is active |
| `LayoutSidebarTimeline.Click` | src/components/layout/SidebarTimeline.tsx:13 | a click selects that entry's id; its button becomes active and the context's `selected` is that entry |
| `TimelineContext.ExperienceUniqueIds` | src/data/experience.ts:13-58 | the four experience entries have distinct ids |
| `TimelineContext.SelectedIn` | src/context/TimelineContext.tsx:15-18 | `find` by id yields an entry iff some entry has the id, and then the first such entry |
| `TimelineContext.SelectOwnId` | src/context/TimelineContext.tsx:15-18 | with unique ids, selecting an entry's own id yields that entry |
| `TimelineContext.TimelineProvider.constructor` | src/context/TimelineContext.tsx:14-20 | the provider serves `experience` with the first entry's id selected, so `selected` is the first entry |
| `TimelineContext.TimelineProvider.Selected` | src/context/TimelineContext.tsx:15-18 | `selected` is defined iff some item has `selectedId`, and then carries that id |
| `TimelineContext.TimelineProvider.SetSelectedId` | src/context/TimelineContext.tsx:14-20 | the setter replaces the id; a present id is then the selected entry's id, and an absent one selects nothing; `items` stays `experience` |

## Left out

- Supabase queries (the skill and project fetches, the `private_contact` lookup): network I/O through a client library. Their results are inputs, and the lookup is an oracle. The server-side `order(...)` clauses are not modelled.
- The asynchronous gap inside `handleCheckPin`. `ContactPanel.Panel.HandleCheckPin` runs the submission to completion, so a second submission cannot interleave with a pending one.
- `console.error`, `window.open`, `onError` image hiding, video autoplay and styling. These have no result the model could state. `window.open` is the `OpenWindow` click outcome.
- React mechanics: `useMemo`, `useEffect`, context plumbing, and the `useTimeline` throw outside a provider (src/context/TimelineContext.tsx:24-27).
- JsText.ToLower: lower-cases ASCII `A`-`Z` only. JavaScript's `toLowerCase` also folds non-ASCII letters. The video patterns are ASCII, so this does not affect `isVideoUrl`.
- String lengths and slices count Unicode scalar values. JavaScript's `length` and `slice` count UTF-16 code units, so the 26-character cut differs for titles with characters outside the Basic Multilingual Plane.
- SkillsPage.LocaleCompare: `localeCompare` is modelled as lexicographic code-point order, standing in for locale collation.
- SkillsPage.SortGroups: the sort is modelled by its result (a permutation ordered by the comparator), not by the engine's algorithm. The comparator is a strict total order on distinct keys, so every correct sort gives the same result.
- The grouping's accumulator is modelled as a map with entries in first-appearance order. It leaves out two behaviours of the plain object:
  - `Object.entries` lists integer-like keys first. Sorting removes that difference.
  - Keys inherited from `Object.prototype`, such as a category named `constructor`, make `acc[s.category]` truthy before any push. The `push` then finds a function where it expects an array, so the reduce throws a `TypeError` and the page fails to render. The model groups such a category like any other.
- Floating point: `Math.round(sum / n)` is the exact integer `(2*sum + n) / (2*n)`. The two agree for integer levels.
- Fields the core logic never reads are omitted: skill `sort_order`, project description, technologies, website, timestamps, the panel's `inline`/`hideBackdrop` styling props and `onClose`.
- `HoverProject.title` (src/components/tabs/types.ts) and the projects page's `Project.title` (src/components/tabs/ProjectsPage.tsx:17) are typed `string`, but the model keeps both nullable, as the `??` fallbacks assume.
- The contact panel's messages follow the code: "Invalid PIN." for no row or a query error, and "Something went wrong." for an exception.
- ResumeSidebarTimeline.PanelOf: renders the intended header `Header`, with `•`. The source renders the three characters `â€¢` written at src/components/resumeTimeline/SidebarTimeline.tsx:97, which `HeaderAsWritten` models; see the Findings.
- LayoutSidebarTimeline.Buttons: renders the intended `ShortTitle`, with `…`. The source renders the three characters `â€¦` written at src/components/layout/SidebarTimeline.tsx:17, which `ShortTitleAsWritten` models, so a long title there is 29 characters, not 27; see the Findings.
- No file classifies timeline entries into education, current and past, so no such classification is modelled.

## Findings

| source | as written | input that shows it | evidently intended | confidence | as-written member | corrected member |
|---|---|---|---|---|---|---|
| src/components/layout/SidebarTimeline.tsx:17 | the suffix literal holds the three characters `â€¦`, the UTF-8 bytes of `…` read as Windows-1252 | any title longer than 26 characters: it shows 26 characters, then `â€¦`, 29 in all | an ellipsis `…`, 27 characters in all | not executed | `LayoutSidebarTimeline.ShortTitleAsWrittenGarbled` | `LayoutSidebarTimeline.ShortTitle` |
| src/components/resumeTimeline/SidebarTimeline.tsx:97 | the separator between org and range is `â€¢`, the UTF-8 bytes of `•` read as Windows-1252 | any item: org `A`, range `B` gives `A â€¢ B` | `A • B` | not executed | `ResumeSidebarTimeline.HeaderGarbled` | `ResumeSidebarTimeline.Header` |
