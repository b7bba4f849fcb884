/**
 * The overflow menu button (`MoreButton`): the children that are not hidden
 * and whose code, if any, is granted become the dropdown's items.
 */
module MoreButton {
  import opened Wrappers
  import opened Strings
  import opened Seqs
  import opened Permissions

  /** A child element, with the props the button reads: its React `key`, `code` and `hidden`. */
  datatype Child<T> = Child(key: Option<string>, code: Option<string>, hidden: bool, element: T)

  /** A dropdown item key: the child's own key, or its position among the survivors. */
  datatype ItemKey = ElementKey(key: string) | IndexKey(index: nat)

  /** A dropdown item `{key, label: child}`: the survivor is the label. */
  datatype DropdownItem<T> = DropdownItem(key: ItemKey, child: Child<T>)

  /** The first filter: not hidden, and granted when it carries a non-empty code. */
  predicate Visible<T>(perms: seq<string>, child: Child<T>)
  {
    if child.hidden then false
    else if TruthyString(child.code) then Granted(perms, child.code.value)
    else true
  }

  /** `child?.key || index`. */
  function KeyFor<T>(child: Child<T>, index: nat): ItemKey
  {
    if TruthyString(child.key) then ElementKey(child.key.value) else IndexKey(index)
  }

  /** The surviving children, in order. */
  function Survivors<T>(perms: seq<string>, children: seq<Child<T>>): seq<Child<T>>
  {
    Filter(children, (c: Child<T>) => Visible(perms, c))
  }

  /** The `.map` step: each survivor keyed by its own key or its index in the filtered list. */
  function Keyed<T>(survivors: seq<Child<T>>): (items: seq<DropdownItem<T>>)
    ensures |items| == |survivors|
    ensures forall i :: 0 <= i < |items| ==> items[i] == DropdownItem(KeyFor(survivors[i], i), survivors[i])
  {
    seq(|survivors|, i requires 0 <= i < |survivors| => DropdownItem(KeyFor(survivors[i], i), survivors[i]))
  }

  /** `MoreButton`: `None` (React's `null`) without survivors, else the dropdown items. */
  function MoreButton<T>(perms: seq<string>, children: seq<Child<T>>): Option<seq<DropdownItem<T>>>
  {
    var items := Keyed(Survivors(perms, children));
    if |items| == 0 then None else Some(items)
  }

  /** Hidden children are excluded; a coded child needs its code; an uncoded one is always shown. */
  lemma VisibleCases<T>(perms: seq<string>, child: Child<T>)
    ensures child.hidden ==> !Visible(perms, child)
    ensures !child.hidden && TruthyString(child.code) ==> (Visible(perms, child) <==> Granted(perms, child.code.value))
    ensures !child.hidden && !TruthyString(child.code) ==> Visible(perms, child)
  {
  }

  /**
   * The dropdown holds exactly the visible children in their order, keyed as
   * the source keys them, and the button renders nothing when none is visible.
   */
  lemma MoreButtonItems<T>(perms: seq<string>, children: seq<Child<T>>)
    ensures MoreButton(perms, children).None? <==>
      forall i :: 0 <= i < |children| ==> !Visible(perms, children[i])
    ensures var r := MoreButton(perms, children);
      r.Some? ==>
        && |r.value| == |Survivors(perms, children)|
        && (forall i :: 0 <= i < |r.value| ==>
              r.value[i].child == Survivors(perms, children)[i] &&
              r.value[i].key == KeyFor(Survivors(perms, children)[i], i))
    ensures forall i :: 0 <= i < |children| && Visible(perms, children[i]) ==>
      children[i] in Survivors(perms, children)
    ensures forall c :: c in Survivors(perms, children) ==> c in children && Visible(perms, c)
  {
    var s := Survivors(perms, children);
    forall c | c in s
      ensures c in children && Visible(perms, c)
    {
      var i :| 0 <= i < |s| && s[i] == c;
    }
    if |s| > 0 {
      assert s[0] in children && Visible(perms, s[0]);
      var i :| 0 <= i < |children| && children[i] == s[0];
      assert Visible(perms, children[i]);
    }
  }

  /** Survivors keep their relative order: the filter of a concatenation is the concatenation of the filters. */
  lemma SurvivorsAppend<T>(perms: seq<string>, a: seq<Child<T>>, b: seq<Child<T>>)
    ensures Survivors(perms, a + b) == Survivors(perms, a) + Survivors(perms, b)
  {
    FilterAppend(a, b, (c: Child<T>) => Visible(perms, c));
  }
}
