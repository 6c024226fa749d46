/**
 * The skills page (src/components/tabs/TabPages/SkillsPage.tsx): the fetched
 * skill rows are grouped by category in input order, the groups are sorted by
 * a fixed preference list of categories (unknown categories last, in string
 * order), and each group shows the rounded mean of its levels.
 */
module SkillsPage {
  import JsArray

  /** A row of the `skills` table; `sort_order` only matters to the server-side query. */
  datatype Skill = Skill(id: int, category: string, name: string, level: int)

  /** An entry of `Object.entries(groups)`: a category and its skills. */
  type Group = (string, seq<Skill>)

  /** `categoryOrder`: the preferred order of the known categories. */
  const CategoryOrder: seq<string> := [
    "Frontend",
    "Backend & APIs",
    "DevOps & CI/CD",
    "Testing & Automation",
    "Data & Analytics",
    "AI & ML",
    "Programming Languages",
    "Other Tools",
    "General"
  ]

  // ---------------------------------------------------------------------------
  // Grouping
  // ---------------------------------------------------------------------------

  /** The position of the first skill of category `c`, or `|skills|` when there is none. */
  function FirstIndex(skills: seq<Skill>, c: string): (k: nat)
    ensures k <= |skills|
    ensures k < |skills| ==> skills[k].category == c
    ensures forall j :: 0 <= j < k ==> skills[j].category != c
    decreases |skills|
  {
    if skills == [] then 0
    else if skills[0].category == c then 0
    else 1 + FirstIndex(skills[1..], c)
  }

  /** Appending a skill does not move the first occurrence of a category already present. */
  lemma FirstIndexOfPrefix(skills: seq<Skill>, n: nat, c: string)
    requires n <= |skills| && FirstIndex(skills[..n], c) < n
    ensures FirstIndex(skills, c) == FirstIndex(skills[..n], c)
  {
    var k, k' := FirstIndex(skills[..n], c), FirstIndex(skills, c);
    assert skills[..n][k] == skills[k];
  }

  /** The distinct categories of `skills`, in order of first occurrence. */
  function Categories(skills: seq<Skill>): (r: seq<string>)
    ensures JsArray.Distinct(r)
    ensures forall c :: c in r <==> exists j :: 0 <= j < |skills| && skills[j].category == c
    decreases |skills|
  {
    if skills == [] then []
    else
      var init, last := skills[..|skills| - 1], skills[|skills| - 1];
      var cs := Categories(init);
      assert forall j :: 0 <= j < |init| ==> init[j] == skills[j];
      if last.category in cs then cs else cs + [last.category]
  }

  /** The categories `r` are listed in the order of their first skill. */
  predicate InFirstOrder(skills: seq<Skill>, r: seq<string>) {
    forall i, j :: 0 <= i < j < |r| ==> FirstIndex(skills, r[i]) < FirstIndex(skills, r[j])
  }

  /** A category of all but the last skill keeps its first position, which is before the last. */
  lemma FirstIndexKept(skills: seq<Skill>, c: string)
    requires skills != [] && c in Categories(skills[..|skills| - 1])
    ensures FirstIndex(skills, c) == FirstIndex(skills[..|skills| - 1], c) < |skills| - 1
  {
    var n := |skills| - 1;
    var j :| 0 <= j < n && skills[..n][j].category == c;
    FirstIndexOfPrefix(skills, n, c);
  }

  /** A category first seen at the last skill has its first position there. */
  lemma FirstIndexNew(skills: seq<Skill>)
    requires skills != []
    requires skills[|skills| - 1].category !in Categories(skills[..|skills| - 1])
    ensures FirstIndex(skills, skills[|skills| - 1].category) == |skills| - 1
  {
    var n := |skills| - 1;
    assert forall j :: 0 <= j < n ==> skills[..n][j] == skills[j];
  }

  /** The categories are listed in the order of their first skill. */
  lemma {:induction false} CategoriesInFirstOrder(skills: seq<Skill>)
    ensures InFirstOrder(skills, Categories(skills))
    decreases |skills|
  {
    if skills != [] {
      var n := |skills| - 1;
      var init, last := skills[..n], skills[n];
      var cs := Categories(init);
      CategoriesInFirstOrder(init);
      var r := Categories(skills);
      assert r == if last.category in cs then cs else cs + [last.category];
      forall i, j | 0 <= i < j < |r|
        ensures FirstIndex(skills, r[i]) < FirstIndex(skills, r[j])
      {
        assert r[i] == cs[i];
        FirstIndexKept(skills, cs[i]);
        if j == |cs| {
          FirstIndexNew(skills);
        } else {
          FirstIndexKept(skills, cs[j]);
          assert FirstIndex(init, cs[i]) < FirstIndex(init, cs[j]);
        }
      }
    }
  }

  /** The skills of category `c`, in input order. */
  function Members(skills: seq<Skill>, c: string): (r: seq<Skill>)
    ensures forall i :: 0 <= i < |r| ==> r[i].category == c && r[i] in skills
    decreases |skills|
  {
    if skills == [] then []
    else
      var init, last := skills[..|skills| - 1], skills[|skills| - 1];
      Members(init, c) + (if last.category == c then [last] else [])
  }

  /**
   * The `skills.reduce` of lines 95-99: an accumulator object keyed by category,
   * extended with `acc[s.category] = []` on a new category and `push` otherwise,
   * followed by `Object.entries`.
   */
  method GroupByCategory(skills: seq<Skill>) returns (groups: seq<Group>)
    ensures |groups| == |Categories(skills)|
    ensures forall i :: 0 <= i < |groups| ==> groups[i].0 == Categories(skills)[i]
    ensures forall i :: 0 <= i < |groups| ==> groups[i].1 == Members(skills, groups[i].0)
  {
    var acc: map<string, seq<Skill>> := map[];
    var keys: seq<string> := [];
    var n := 0;
    while n < |skills|
      invariant 0 <= n <= |skills|
      invariant keys == Categories(skills[..n])
      invariant forall k :: k in acc <==> k in keys
      invariant forall k :: k in acc ==> acc[k] == Members(skills[..n], k)
    {
      var s := skills[n];
      GroupingStep(skills, n);
      if s.category !in acc {
        MembersOfAbsent(skills[..n], s.category);
        acc := acc[s.category := []];
        keys := keys + [s.category];
      }
      acc := acc[s.category := acc[s.category] + [s]];
      n := n + 1;
    }
    assert skills[..n] == skills;
    groups := seq(|keys|, i requires 0 <= i < |keys| => (keys[i], acc[keys[i]]));
  }

  /** One more skill extends the categories by its own if new, and its own category's members by itself. */
  lemma GroupingStep(skills: seq<Skill>, n: nat)
    requires n < |skills|
    ensures Categories(skills[..n + 1])
         == if skills[n].category in Categories(skills[..n]) then Categories(skills[..n])
            else Categories(skills[..n]) + [skills[n].category]
    ensures forall k ::
              Members(skills[..n + 1], k) == Members(skills[..n], k) + (if skills[n].category == k then [skills[n]] else [])
  {
    assert skills[..n + 1][..n] == skills[..n];
  }

  /** A category that does not occur has no members. */
  lemma {:induction false} MembersOfAbsent(skills: seq<Skill>, c: string)
    requires c !in Categories(skills)
    ensures Members(skills, c) == []
    decreases |skills|
  {
    if skills != [] {
      var init := skills[..|skills| - 1];
      assert forall j :: 0 <= j < |init| ==> init[j] == skills[j];
      MembersOfAbsent(init, c);
    }
  }

  /** Grouping keeps every copy of a skill in its own category's group and nowhere else. */
  lemma {:induction false} MembersCount(skills: seq<Skill>, c: string, x: Skill)
    ensures multiset(Members(skills, c))[x] == if x.category == c then multiset(skills)[x] else 0
    decreases |skills|
  {
    if skills != [] {
      var init, last := skills[..|skills| - 1], skills[|skills| - 1];
      MembersCount(init, c, x);
      assert skills == init + [last];
    }
  }

  /** Skills of one group keep their relative input order: grouping distributes over `+`. */
  lemma {:induction false} MembersAppend(s: seq<Skill>, t: seq<Skill>, c: string)
    ensures Members(s + t, c) == Members(s, c) + Members(t, c)
    decreases |t|
  {
    if t == [] {
      assert s + t == s;
    } else {
      var init, last := t[..|t| - 1], t[|t| - 1];
      assert (s + t)[..|s + t| - 1] == s + init;
      MembersAppend(s, init, c);
    }
  }

  // ---------------------------------------------------------------------------
  // Ordering of categories
  // ---------------------------------------------------------------------------

  /** `localeCompare` modelled as lexicographic order on code points: `a` sorts before `b`. */
  predicate StrLess(a: string, b: string)
    decreases |a|
  {
    b != [] && (a == [] || a[0] < b[0] || (a[0] == b[0] && StrLess(a[1..], b[1..])))
  }

  lemma {:induction false} StrLessIrreflexive(a: string)
    ensures !StrLess(a, a)
    decreases |a|
  {
    if a != [] { StrLessIrreflexive(a[1..]); }
  }

  lemma {:induction false} StrLessAsymmetric(a: string, b: string)
    requires StrLess(a, b)
    ensures !StrLess(b, a)
    decreases |a|
  {
    if a != [] && a[0] == b[0] { StrLessAsymmetric(a[1..], b[1..]); }
  }

  lemma {:induction false} StrLessTransitive(a: string, b: string, c: string)
    requires StrLess(a, b) && StrLess(b, c)
    ensures StrLess(a, c)
    decreases |a|
  {
    if a != [] && a[0] == b[0] && b[0] == c[0] {
      StrLessTransitive(a[1..], b[1..], c[1..]);
    }
  }

  lemma {:induction false} StrLessTotal(a: string, b: string)
    requires a != b
    ensures StrLess(a, b) || StrLess(b, a)
    decreases |a|
  {
    if a != [] && b != [] && a[0] == b[0] {
      assert a == [a[0]] + a[1..] && b == [b[0]] + b[1..];
      StrLessTotal(a[1..], b[1..]);
    }
  }

  /**
   * `a.localeCompare(b)`: zero for equal strings, negative when `a` comes
   * first, positive when `b` does.
   */
  function LocaleCompare(a: string, b: string): (r: int)
    ensures r == 0 <==> a == b
    ensures r < 0 <==> StrLess(a, b)
    ensures r > 0 <==> StrLess(b, a)
  {
    StrLessIrreflexive(a);
    if a == b then 0
    else
      StrLessTotal(a, b);
      if StrLess(a, b) then
        StrLessAsymmetric(a, b);
        -1
      else 1
  }

  /** The comparator of lines 101-108 on two category names. */
  function Compare(a: string, b: string): int {
    var ai := JsArray.IndexOf(CategoryOrder, a);
    var bi := JsArray.IndexOf(CategoryOrder, b);
    if ai == -1 && bi == -1 then LocaleCompare(a, b)
    else if ai == -1 then 1
    else if bi == -1 then -1
    else ai - bi
  }

  /** Category `a` is placed before category `b`. */
  predicate Before(a: string, b: string) {
    Compare(a, b) < 0
  }

  /** Every category of the preference list comes before every category outside it. */
  lemma KnownBeforeUnknown(a: string, b: string)
    requires a in CategoryOrder && b !in CategoryOrder
    ensures Before(a, b) && !Before(b, a)
  {
  }

  /** Two known categories are ordered by their position in the preference list. */
  lemma KnownByPosition(a: string, b: string)
    requires a in CategoryOrder && b in CategoryOrder
    ensures Before(a, b) <==> JsArray.IndexOf(CategoryOrder, a) < JsArray.IndexOf(CategoryOrder, b)
  {
  }

  /** Two unknown categories are ordered by string comparison. */
  lemma UnknownByName(a: string, b: string)
    requires a !in CategoryOrder && b !in CategoryOrder
    ensures Before(a, b) <==> StrLess(a, b)
  {
    if StrLess(a, b) { StrLessIrreflexive(a); }
  }

  /** The comparator is a strict total order on category names. */
  lemma BeforeIrreflexive(a: string)
    ensures !Before(a, a)
  {
  }

  lemma BeforeAsymmetric(a: string, b: string)
    requires Before(a, b)
    ensures !Before(b, a)
  {
    var ai, bi := JsArray.IndexOf(CategoryOrder, a), JsArray.IndexOf(CategoryOrder, b);
    if ai == -1 && bi == -1 {
      assert a != b && StrLess(a, b);
      StrLessAsymmetric(a, b);
    }
  }

  lemma BeforeTransitive(a: string, b: string, c: string)
    requires Before(a, b) && Before(b, c)
    ensures Before(a, c)
  {
    var ai := JsArray.IndexOf(CategoryOrder, a);
    var bi := JsArray.IndexOf(CategoryOrder, b);
    var ci := JsArray.IndexOf(CategoryOrder, c);
    if ai == -1 && bi == -1 && ci == -1 {
      StrLessTransitive(a, b, c);
      if a == c { StrLessAsymmetric(a, b); }
    }
  }

  lemma BeforeTotal(a: string, b: string)
    requires a != b
    ensures Before(a, b) || Before(b, a)
  {
    var ai, bi := JsArray.IndexOf(CategoryOrder, a), JsArray.IndexOf(CategoryOrder, b);
    if ai == -1 && bi == -1 {
      StrLessTotal(a, b);
    } else if ai != -1 && bi != -1 {
      JsArray.IndexOfDistinct(CategoryOrder, a, b);
    }
  }

  /** `less` is a strict total order on category names. */
  ghost predicate StrictTotal(less: (string, string) -> bool) {
    && (forall a :: !less(a, a))
    && (forall a, b, c :: less(a, b) && less(b, c) ==> less(a, c))
    && (forall a, b :: a != b ==> less(a, b) || less(b, a))
  }

  /** The comparator of lines 101-108 is a strict total order. */
  lemma BeforeStrictTotal()
    ensures StrictTotal(Before)
  {
    forall a ensures !Before(a, a) { BeforeIrreflexive(a); }
    forall a, b, c | Before(a, b) && Before(b, c) ensures Before(a, c) {
      BeforeTransitive(a, b, c);
    }
    forall a, b | a != b ensures Before(a, b) || Before(b, a) { BeforeTotal(a, b); }
  }

  /** Groups in strictly increasing order of their categories under `less`. */
  ghost predicate Ordered(gs: seq<Group>, less: (string, string) -> bool) {
    forall i, j :: 0 <= i < j < |gs| ==> less(gs[i].0, gs[j].0)
  }

  /** No two groups share a category. */
  predicate DistinctKeys(gs: seq<Group>) {
    forall i, j :: 0 <= i < j < |gs| ==> gs[i].0 != gs[j].0
  }

  /** Inserts `g` after the groups that sort before it. */
  function Insert(g: Group, sorted: seq<Group>, less: (string, string) -> bool): (r: seq<Group>)
    ensures multiset(r) == multiset(sorted) + multiset{g}
    ensures |r| == |sorted| + 1
    ensures forall x :: x in r <==> x in sorted || x == g
    decreases |sorted|
  {
    if sorted == [] then [g]
    else if less(sorted[0].0, g.0) then
      assert sorted == [sorted[0]] + sorted[1..];
      [sorted[0]] + Insert(g, sorted[1..], less)
    else
      [g] + sorted
  }

  /** `Array.prototype.sort` with the comparator `less`, by its result. */
  function SortGroups(gs: seq<Group>, less: (string, string) -> bool): (r: seq<Group>)
    ensures multiset(r) == multiset(gs)
    ensures |r| == |gs|
    ensures forall x :: x in r <==> x in gs
    decreases |gs|
  {
    if gs == [] then []
    else
      assert gs == [gs[0]] + gs[1..];
      Insert(gs[0], SortGroups(gs[1..], less), less)
  }

  /** A group placed before an ordered run of groups that all sort after it. */
  lemma OrderedCons(g: Group, rest: seq<Group>, less: (string, string) -> bool)
    requires Ordered(rest, less)
    requires forall x :: x in rest ==> less(g.0, x.0)
    ensures Ordered([g] + rest, less)
  {
    var r := [g] + rest;
    forall i, j | 0 <= i < j < |r| ensures less(r[i].0, r[j].0) {
      assert r[j] == rest[j - 1];
      if i > 0 { assert r[i] == rest[i - 1]; }
    }
  }

  lemma {:induction false} InsertOrdered(g: Group, sorted: seq<Group>, less: (string, string) -> bool)
    requires StrictTotal(less)
    requires Ordered(sorted, less)
    requires forall x :: x in sorted ==> x.0 != g.0
    ensures Ordered(Insert(g, sorted, less), less)
    decreases |sorted|
  {
    if sorted == [] {
    } else if less(sorted[0].0, g.0) {
      var tail := sorted[1..];
      assert Ordered(tail, less) by {
        forall i, j | 0 <= i < j < |tail| ensures less(tail[i].0, tail[j].0) {
          assert tail[i] == sorted[i + 1] && tail[j] == sorted[j + 1];
        }
      }
      InsertOrdered(g, tail, less);
      forall x | x in tail ensures less(sorted[0].0, x.0) {
        var k :| 0 <= k < |tail| && tail[k] == x;
        assert sorted[k + 1] == x;
      }
      OrderedCons(sorted[0], Insert(g, tail, less), less);
    } else {
      assert less(g.0, sorted[0].0);
      forall x | x in sorted ensures less(g.0, x.0) {
        var k :| 0 <= k < |sorted| && sorted[k] == x;
      }
      OrderedCons(g, sorted, less);
    }
  }

  lemma {:induction false} SortGroupsOrdered(gs: seq<Group>, less: (string, string) -> bool)
    requires StrictTotal(less)
    requires DistinctKeys(gs)
    ensures Ordered(SortGroups(gs, less), less)
    decreases |gs|
  {
    if gs != [] {
      var tail := gs[1..];
      SortGroupsOrdered(tail, less);
      var sortedTail := SortGroups(tail, less);
      forall x | x in sortedTail ensures x.0 != gs[0].0 {
        var k :| 0 <= k < |tail| && tail[k] == x;
        assert gs[k + 1] == x;
      }
      InsertOrdered(gs[0], sortedTail, less);
    }
  }

  /**
   * `groupedSkills` (lines 94-111): the groups, one per distinct category,
   * each holding exactly that category's skills in input order, sorted by the
   * comparator.
   */
  method GroupedSkills(skills: seq<Skill>) returns (r: seq<Group>)
    ensures |r| == |Categories(skills)|
    ensures forall i :: 0 <= i < |r| ==> r[i].0 in Categories(skills)
    ensures forall j :: 0 <= j < |skills| ==> exists i :: 0 <= i < |r| && r[i].0 == skills[j].category
    ensures forall i :: 0 <= i < |r| ==> r[i].1 == Members(skills, r[i].0)
    ensures Ordered(r, Before)
    ensures r == [] <==> skills == []
  {
    var groups := GroupByCategory(skills);
    assert DistinctKeys(groups);
    BeforeStrictTotal();
    SortGroupsOrdered(groups, Before);
    r := SortGroups(groups, Before);
    RearrangedGroups(skills, groups, r);
  }

  /** Any rearrangement of the grouped entries still has one group per category. */
  lemma RearrangedGroups(skills: seq<Skill>, groups: seq<Group>, r: seq<Group>)
    requires |groups| == |Categories(skills)|
    requires forall i :: 0 <= i < |groups| ==> groups[i].0 == Categories(skills)[i]
    requires forall i :: 0 <= i < |groups| ==> groups[i].1 == Members(skills, groups[i].0)
    requires |r| == |groups| && forall x :: x in r <==> x in groups
    ensures forall i :: 0 <= i < |r| ==> r[i].0 in Categories(skills)
    ensures forall j :: 0 <= j < |skills| ==> exists i :: 0 <= i < |r| && r[i].0 == skills[j].category
    ensures forall i :: 0 <= i < |r| ==> r[i].1 == Members(skills, r[i].0)
  {
    var cs := Categories(skills);
    forall i | 0 <= i < |r| ensures r[i].0 in cs && r[i].1 == Members(skills, r[i].0) {
      assert r[i] in groups;
      var k :| 0 <= k < |groups| && groups[k] == r[i];
    }
    forall j | 0 <= j < |skills| ensures exists i :: 0 <= i < |r| && r[i].0 == skills[j].category {
      var c := skills[j].category;
      assert c in cs;
      var k :| 0 <= k < |cs| && cs[k] == c;
      assert groups[k] in r;
    }
  }

  /**
   * In sorted output, a known category never follows an unknown one, known
   * categories follow the preference list and unknown ones follow string order.
   */
  lemma OrderedByPreference(r: seq<Group>, i: nat, j: nat)
    requires Ordered(r, Before) && i < j < |r|
    ensures r[j].0 in CategoryOrder ==> r[i].0 in CategoryOrder
    ensures r[i].0 in CategoryOrder && r[j].0 in CategoryOrder ==>
              JsArray.IndexOf(CategoryOrder, r[i].0) < JsArray.IndexOf(CategoryOrder, r[j].0)
    ensures r[i].0 !in CategoryOrder && r[j].0 !in CategoryOrder ==> StrLess(r[i].0, r[j].0)
  {
    var a, b := r[i].0, r[j].0;
    assert Before(a, b);
    if a !in CategoryOrder && b !in CategoryOrder {
      UnknownByName(a, b);
    }
  }

  // ---------------------------------------------------------------------------
  // Average level
  // ---------------------------------------------------------------------------

  /** `items.reduce((a, b) => a + b.level, 0)`. */
  function LevelSum(items: seq<Skill>): int
    decreases |items|
  {
    if items == [] then 0 else LevelSum(items[..|items| - 1]) + items[|items| - 1].level
  }

  /**
   * `avg` (lines 188-193): 0 for an empty group, otherwise
   * `Math.round(sum / length)`, the mean rounded half up, computed exactly as
   * `floor((2 * sum + n) / (2 * n))`.
   */
  function Average(items: seq<Skill>): (r: int)
    ensures |items| == 0 ==> r == 0
    ensures |items| > 0 ==>
              2 * |items| * r <= 2 * LevelSum(items) + |items| < 2 * |items| * (r + 1)
  {
    if |items| > 0 then
      var d := 2 * |items|;
      var q := (2 * LevelSum(items) + |items|) / d;
      assert d * q <= 2 * LevelSum(items) + |items| < d * (q + 1) by {
        DivBounds(2 * LevelSum(items) + |items|, d);
      }
      q
    else 0
  }

  /** Floor division puts `a` between `d * (a / d)` and the next multiple of `d`. */
  lemma DivBounds(a: int, d: int)
    requires d > 0
    ensures d * (a / d) <= a < d * (a / d + 1)
  {
    assert a == d * (a / d) + a % d;
  }

  lemma {:induction false} LevelSumBounds(items: seq<Skill>, lo: int, hi: int)
    requires forall i :: 0 <= i < |items| ==> lo <= items[i].level <= hi
    ensures |items| * lo <= LevelSum(items) <= |items| * hi
    decreases |items|
  {
    if items != [] {
      LevelSumBounds(items[..|items| - 1], lo, hi);
    }
  }

  /** A non-empty group's average lies between its smallest and largest level. */
  lemma AverageWithin(items: seq<Skill>, lo: int, hi: int)
    requires |items| > 0
    requires forall i :: 0 <= i < |items| ==> lo <= items[i].level <= hi
    ensures lo <= Average(items) <= hi
  {
    LevelSumBounds(items, lo, hi);
    RoundedMeanWithin(|items|, LevelSum(items), Average(items), lo, hi);
  }

  /** A sum of `n` values in `lo..hi`, divided by `n` and rounded half up, stays in `lo..hi`. */
  lemma RoundedMeanWithin(n: int, s: int, r: int, lo: int, hi: int)
    requires n > 0 && n * lo <= s <= n * hi
    requires 2 * n * r <= 2 * s + n < 2 * n * (r + 1)
    ensures lo <= r <= hi
  {
    var k := 2 * n;
    var kr, khi, klo := k * r, k * hi, k * lo;
    assert khi == 2 * (n * hi) && klo == 2 * (n * lo);
    assert k * (hi + 1) == khi + k && k * (r + 1) == kr + k;
    assert kr < k * (hi + 1);
    assert klo < k * (r + 1);
    MulCancel(k, r, hi + 1);
    MulCancel(k, lo, r + 1);
  }

  lemma MulCancel(k: int, a: int, b: int)
    requires k > 0 && k * a < k * b
    ensures a < b
  {
  }

  /** A half is rounded up: levels 5 and 4 average to 5. */
  lemma AverageRoundsHalfUp()
    ensures Average([Skill(1, "Frontend", "React", 5), Skill(2, "Frontend", "Vue", 4)]) == 5
  {
    var items := [Skill(1, "Frontend", "React", 5), Skill(2, "Frontend", "Vue", 4)];
    assert items[..1][..0] == [] && items[..1] == [items[0]];
    assert LevelSum(items) == 9;
  }

  /** Levels 3, 4 and 4 average to 4. */
  lemma AverageOfThree()
    ensures Average([Skill(1, "AI & ML", "a", 3), Skill(2, "AI & ML", "b", 4),
                     Skill(3, "AI & ML", "c", 4)]) == 4
  {
    var items := [Skill(1, "AI & ML", "a", 3), Skill(2, "AI & ML", "b", 4), Skill(3, "AI & ML", "c", 4)];
    assert items[..2] == [items[0], items[1]] && items[..2][..1] == [items[0]] && items[..2][..1][..0] == [];
    assert LevelSum(items[..1]) == 3;
    assert LevelSum(items[..2]) == 7;
    assert LevelSum(items) == 11;
  }
}
