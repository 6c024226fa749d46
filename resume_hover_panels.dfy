/**
 * The resume quick-section menu (src/components/tabs/ResumeHoverPanels.tsx):
 * four menu items, a single `open` key rewritten by hover and focus events,
 * and the one panel shown for it.
 */
module ResumeHoverPanels {
  import opened Wrappers
  import LevelDots

  /** The `Key` union of line 4. */
  datatype Key = Skills | Education | Projects | Ecs

  /** A menu entry of lines 15-20; `labelText` is the source's `label`, a reserved word in Dafny. */
  datatype MenuItem = MenuItem(key: Key, labelText: string)

  /** `items` (lines 15-20), in menu order. */
  const Items: seq<MenuItem> := [
    MenuItem(Skills, "Skills"),
    MenuItem(Education, "Education"),
    MenuItem(Projects, "Projects"),
    MenuItem(Ecs, "ECS")
  ]

  predicate DistinctKeys(items: seq<MenuItem>) {
    forall i, j :: 0 <= i < j < |items| ==> items[i].key != items[j].key
  }

  predicate HasItem(items: seq<MenuItem>, k: Key) {
    exists i :: 0 <= i < |items| && items[i].key == k
  }

  /** Every key has exactly one menu item. */
  lemma ItemsCoverKeys()
    ensures DistinctKeys(Items)
    ensures forall k: Key :: HasItem(Items, k)
  {
    forall k: Key ensures HasItem(Items, k) {
      match k
      case Skills => assert Items[0].key == k;
      case Education => assert Items[1].key == k;
      case Projects => assert Items[2].key == k;
      case Ecs => assert Items[3].key == k;
    }
  }

  /** The keys whose panel `open === key && ...` (line 89) renders, in menu order. */
  function PanelsOf(items: seq<MenuItem>, open: Option<Key>): (r: seq<Key>)
    ensures forall k :: k in r <==> open == Some(k) && HasItem(items, k)
    ensures |r| <= |items|
    ensures !(open.Some? && HasItem(items, open.value)) ==> r == []
  {
    if items == [] then []
    else
      var rest := PanelsOf(items[1..], open);
      assert forall i :: 1 <= i < |items| ==> items[i] == items[1..][i - 1];
      assert forall i :: 0 <= i < |items| - 1 ==> items[1..][i] == items[i + 1];
      if open == Some(items[0].key) then [items[0].key] + rest else rest
  }

  /** With distinct keys at most one panel is rendered. */
  lemma {:induction false} AtMostOnePanel(items: seq<MenuItem>, open: Option<Key>)
    requires DistinctKeys(items)
    ensures |PanelsOf(items, open)| <= 1
  {
    if items != [] {
      var tail := items[1..];
      assert DistinctKeys(tail) by {
        forall i, j | 0 <= i < j < |tail| ensures tail[i].key != tail[j].key {
          assert tail[i] == items[i + 1] && tail[j] == items[j + 1];
        }
      }
      AtMostOnePanel(tail, open);
      if open == Some(items[0].key) {
        assert forall i :: 0 <= i < |tail| ==> tail[i] == items[i + 1];
        assert !HasItem(tail, items[0].key);
      }
    }
  }

  /** The menu's `open` state (line 55). */
  class HoverMenu {
    var open: Option<Key>

    constructor ()
      ensures open == None
    {
      open := None;
    }

    /** `onMouseEnter` and `onFocus` on `key` (lines 70, 82): that key opens, whatever was open. */
    method Enter(key: Key)
      modifies this
      ensures open == Some(key)
    {
      open := Some(key);
    }

    /** `onMouseLeave` and `onBlur` on `key` (lines 71, 83): closes only the key that is open. */
    method Leave(key: Key)
      modifies this
      ensures old(open) == Some(key) ==> open == None
      ensures old(open) != Some(key) ==> open == old(open)
    {
      open := if open == Some(key) then None else open;
    }

    /** The trigger button's highlight (lines 78-80). */
    predicate Highlighted(key: Key)
      reads this
    {
      open == Some(key)
    }

    /** The rendered panels: exactly the open key's, and so at most one. */
    function Panels(): (r: seq<Key>)
      reads this
      ensures |r| <= 1
      ensures forall k :: k in r <==> open == Some(k)
      ensures forall k :: k in r <==> Highlighted(k)
    {
      ItemsCoverKeys();
      AtMostOnePanel(Items, open);
      PanelsOf(Items, open)
    }
  }

  /** Leaving one item after entering another keeps the newer one open. */
  method EnterThenLeaveOther(a: Key, b: Key) returns (m: HoverMenu)
    requires a != b
    ensures m.open == Some(b)
  {
    m := new HoverMenu();
    m.Enter(a);
    m.Enter(b);
    m.Leave(a);
  }

  /** The skills panel's four cards and the levels they pass to `LevelDots` (lines 97-189). */
  const SkillCards: seq<(string, int)> := [
    ("Frontend", 5),
    ("Backend & APIs", 4),
    ("DevOps & CI/CD", 3),
    ("Testing & Automation", 4)
  ]

  /** Each card fills exactly as many of its five dots as its level. */
  lemma SkillCardDots()
    ensures forall i :: 0 <= i < |SkillCards| ==>
              LevelDots.Filled(LevelDots.Dots(SkillCards[i].1)) == SkillCards[i].1
  {
    forall i | 0 <= i < |SkillCards|
      ensures LevelDots.Filled(LevelDots.Dots(SkillCards[i].1)) == SkillCards[i].1
    {
      LevelDots.FilledCount(SkillCards[i].1);
    }
  }
}
