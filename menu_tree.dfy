/**
 * The menu service's client-side logic: `buildMenuTree`, which rebuilds the
 * menu tree from the flat list by `parentId`, the table adapter that puts the
 * tree in place of the list, and the parent options with the Root entry.
 */
module MenuTree {
  import opened Seqs
  import Api

  /** `Menu.Item`: one row of the flat menu list. */
  datatype MenuItem = MenuItem(
    id: int, parentId: int, name: string, code: string, menuType: int,
    sortOrder: int, status: int, isSystem: bool, createdAt: string, updatedAt: string)

  /** A tree node: the item's fields, spread, plus `children`. */
  datatype MenuNode = MenuNode(item: MenuItem, children: SubMenu)

  /** `children`: `null` when the item has none, else the non-empty list of subtrees. */
  datatype SubMenu = Null | Nodes(nodes: seq<MenuNode>)

  /** The root of the tree is parent id 0. */
  const RootId: int := 0

  /** `list.filter(item => item.parentId === parentId)`. */
  function ChildrenOf(list: seq<MenuItem>, parentId: int): seq<MenuItem>
  {
    Filter(list, (m: MenuItem) => m.parentId == parentId)
  }

  /**
   * Ids are distinct and none is the root id, as the server's primary keys
   * are. The source itself diverges only when an item reachable from the
   * root has the root id or repeats the id of one of its ancestors.
   */
  predicate DistinctNonzeroIds(list: seq<MenuItem>)
  {
    && (forall i, j :: 0 <= i < j < |list| ==> list[i].id != list[j].id)
    && (forall i :: 0 <= i < |list| ==> list[i].id != RootId)
  }

  // ---------------------------------------------------------------------
  // Specification of the tree
  // ---------------------------------------------------------------------

  /**
   * `nodes` is the menu forest below `parentId`: one node per item whose
   * parent is `parentId`, in list order, each holding its item unchanged.
   */
  predicate ForestOf(list: seq<MenuItem>, parentId: int, nodes: seq<MenuNode>)
    decreases nodes
  {
    && |nodes| == |ChildrenOf(list, parentId)|
    && (forall i :: 0 <= i < |nodes| ==>
          nodes[i].item == ChildrenOf(list, parentId)[i] && NodeOk(list, nodes[i]))
  }

  /** A node's `children` is `null` when its item has no children, else the forest below it. */
  predicate NodeOk(list: seq<MenuItem>, node: MenuNode)
    decreases node
  {
    match node.children
    case Null => ChildrenOf(list, node.item.id) == []
    case Nodes(kids) => |kids| > 0 && ForestOf(list, node.item.id, kids)
  }

  /** The specification determines the tree: two forests below the same parent are equal. */
  lemma {:induction false} ForestUnique(list: seq<MenuItem>, parentId: int, a: seq<MenuNode>, b: seq<MenuNode>)
    requires ForestOf(list, parentId, a) && ForestOf(list, parentId, b)
    ensures a == b
    decreases a
  {
    forall i | 0 <= i < |a|
      ensures a[i] == b[i]
    {
      NodeUnique(list, a[i], b[i]);
    }
  }

  lemma {:induction false} NodeUnique(list: seq<MenuItem>, x: MenuNode, y: MenuNode)
    requires x.item == y.item && NodeOk(list, x) && NodeOk(list, y)
    ensures x == y
    decreases x
  {
    match x.children
    case Null =>
    case Nodes(kids) =>
      ForestUnique(list, x.item.id, kids, y.children.nodes);
  }

  // ---------------------------------------------------------------------
  // The ancestry path that bounds the recursion
  // ---------------------------------------------------------------------

  /** The ids of the list. */
  function Ids(list: seq<MenuItem>): set<int>
  {
    set i | 0 <= i < |list| :: list[i].id
  }

  /** The ids on a path. */
  function PathIds(path: seq<int>): set<int>
  {
    set x | x in path
  }

  /** The ids of the list the recursion has not yet descended into. */
  function Unvisited(list: seq<MenuItem>, path: seq<int>): set<int>
  {
    Ids(list) - PathIds(path)
  }

  /** The parent id of the current call: the root for an empty path, else its last id. */
  function Tip(path: seq<int>): int
  {
    if |path| == 0 then RootId else path[|path| - 1]
  }

  /** The parent the chain demands of its `j`-th id: the root for the first, else the id before. */
  function Above(path: seq<int>, j: int): int
    requires 0 <= j < |path|
  {
    if j == 0 then RootId else path[j - 1]
  }

  /** Some item of the list has id `id` and parent `parent`. */
  predicate Linked(list: seq<MenuItem>, id: int, parent: int)
  {
    exists k :: 0 <= k < |list| && list[k].id == id && list[k].parentId == parent
  }

  /** `path` is a chain of distinct ids of the list, each the child of the one before, the first a root item. */
  predicate Chain(list: seq<MenuItem>, path: seq<int>)
  {
    && (forall i, j :: 0 <= i < j < |path| ==> path[i] != path[j])
    && (forall j :: 0 <= j < |path| ==> Linked(list, path[j], Above(path, j)))
  }

  /** With distinct ids, the item carrying the `j`-th id of a chain is the one the chain names. */
  lemma ChainParent(list: seq<MenuItem>, path: seq<int>, j: int, k: int)
    requires DistinctNonzeroIds(list) && Chain(list, path)
    requires 0 <= j < |path| && 0 <= k < |list|
    ensures list[k].id == path[j] ==> list[k].parentId == Above(path, j)
  {
    assert Linked(list, path[j], Above(path, j));
    var k0 :| 0 <= k0 < |list| && list[k0].id == path[j] && list[k0].parentId == Above(path, j);
    if k < k0 {
      assert list[k].id != list[k0].id;
    } else if k0 < k {
      assert list[k0].id != list[k].id;
    }
  }

  /** The tip of a non-empty chain is an id of the list, hence not the root id. */
  lemma ChainTipNonzero(list: seq<MenuItem>, path: seq<int>)
    requires DistinctNonzeroIds(list) && Chain(list, path) && |path| > 0
    ensures Tip(path) != RootId
  {
    var last := |path| - 1;
    assert Linked(list, path[last], Above(path, last));
    var k :| 0 <= k < |list| && list[k].id == path[last] && list[k].parentId == Above(path, last);
  }

  /** A child of the current tip is not already on the path: the recursion never revisits an item. */
  lemma ChildOffPath(list: seq<MenuItem>, path: seq<int>, c: MenuItem)
    requires DistinctNonzeroIds(list) && Chain(list, path)
    requires c in list && c.parentId == Tip(path)
    ensures c.id !in path
  {
    var kc :| 0 <= kc < |list| && list[kc] == c;
    if |path| > 0 {
      ChainTipNonzero(list, path);
    }
    forall j | 0 <= j < |path|
      ensures path[j] != c.id
    {
      ChainParent(list, path, j, kc);
    }
  }

  /** Extending the path by a child of its tip keeps it a chain. */
  lemma ExtendChain(list: seq<MenuItem>, path: seq<int>, c: MenuItem)
    requires DistinctNonzeroIds(list) && Chain(list, path)
    requires c in list && c.parentId == Tip(path)
    ensures Chain(list, path + [c.id])
    ensures Tip(path + [c.id]) == c.id
  {
    ChildOffPath(list, path, c);
    var p := path + [c.id];
    var k :| 0 <= k < |list| && list[k] == c;
    forall j | 0 <= j < |p|
      ensures Linked(list, p[j], Above(p, j))
    {
      if j < |path| {
        assert p[j] == path[j];
        if j > 0 { assert p[j - 1] == path[j - 1]; }
        assert Above(p, j) == Above(path, j);
        assert Linked(list, path[j], Above(path, j));
      } else {
        assert list[k].id == p[j] && list[k].parentId == Above(p, j);
      }
    }
    forall i, j | 0 <= i < j < |p|
      ensures p[i] != p[j]
    {
      if j < |path| { assert p[i] == path[i] && p[j] == path[j]; }
      else { assert p[j] == c.id && p[i] == path[i]; }
    }
  }

  /** Descending into a child of the tip leaves one fewer unvisited id: the recursion terminates. */
  lemma ExtendShrinks(list: seq<MenuItem>, path: seq<int>, c: MenuItem)
    requires DistinctNonzeroIds(list) && Chain(list, path)
    requires c in list && c.parentId == Tip(path)
    ensures |Unvisited(list, path + [c.id])| < |Unvisited(list, path)|
  {
    ChildOffPath(list, path, c);
    var k :| 0 <= k < |list| && list[k] == c;
    assert c.id in Ids(list);
    assert PathIds(path + [c.id]) == PathIds(path) + {c.id};
    var before, after := Unvisited(list, path), Unvisited(list, path + [c.id]);
    assert before == after + {c.id};
    assert c.id !in after;
  }

  // ---------------------------------------------------------------------
  // The builder
  // ---------------------------------------------------------------------

  /**
   * `buildMenuTree(list, parentId)`; the ghost `path` is the chain of
   * ancestor ids from the root to `parentId`.
   */
  function BuildTree(list: seq<MenuItem>, parentId: int, ghost path: seq<int>): (r: seq<MenuNode>)
    requires DistinctNonzeroIds(list) && Chain(list, path) && parentId == Tip(path)
    ensures ForestOf(list, parentId, r)
    decreases |Unvisited(list, path)|, 1, 0
  {
    BuildNodes(list, parentId, ChildrenOf(list, parentId), path)
  }

  /** The `.map` step over the children `items` of `parentId`. */
  function BuildNodes(list: seq<MenuItem>, parentId: int, items: seq<MenuItem>, ghost path: seq<int>)
    : (r: seq<MenuNode>)
    requires DistinctNonzeroIds(list) && Chain(list, path) && parentId == Tip(path)
    requires forall i :: 0 <= i < |items| ==> items[i] in list && items[i].parentId == parentId
    ensures |r| == |items|
    ensures forall i :: 0 <= i < |r| ==> r[i].item == items[i] && NodeOk(list, r[i])
    decreases |Unvisited(list, path)|, 0, |items|
  {
    if |items| == 0 then []
    else
      assert items[0] in list && items[0].parentId == parentId;
      var node := BuildNode(list, items[0], path);
      var rest := BuildNodes(list, parentId, items[1..], path);
      ConsNodes(list, items, node, rest);
      [node] + rest
  }

  /** One element of the `.map`: the item spread, with `children` `null` for an empty forest. */
  function BuildNode(list: seq<MenuItem>, item: MenuItem, ghost path: seq<int>): (node: MenuNode)
    requires DistinctNonzeroIds(list) && Chain(list, path)
    requires item in list && item.parentId == Tip(path)
    ensures node.item == item && NodeOk(list, node)
    decreases |Unvisited(list, path)|, 0, 0
  {
    ExtendChain(list, path, item);
    ExtendShrinks(list, path, item);
    var child := BuildTree(list, item.id, path + [item.id]);
    MenuNode(item, if |child| > 0 then Nodes(child) else Null)
  }

  /** Prepending the node of the first item to the nodes of the others gives the nodes of all. */
  lemma ConsNodes(list: seq<MenuItem>, items: seq<MenuItem>, node: MenuNode, rest: seq<MenuNode>)
    requires |items| > 0 && node.item == items[0] && NodeOk(list, node)
    requires |rest| == |items| - 1
    requires forall i :: 0 <= i < |rest| ==> rest[i].item == items[1..][i] && NodeOk(list, rest[i])
    ensures forall i :: 0 <= i < |[node] + rest| ==> ([node] + rest)[i].item == items[i] && NodeOk(list, ([node] + rest)[i])
  {
    var r := [node] + rest;
    forall i | 0 <= i < |r|
      ensures r[i].item == items[i] && NodeOk(list, r[i])
    {
      if i > 0 {
        assert r[i] == rest[i - 1];
        assert items[1..][i - 1] == items[i];
      }
    }
  }

  /** `buildMenuTree(list)`: the forest below the root. */
  function BuildMenuTree(list: seq<MenuItem>): (r: seq<MenuNode>)
    requires DistinctNonzeroIds(list)
    ensures ForestOf(list, RootId, r)
  {
    BuildTree(list, RootId, [])
  }

  // ---------------------------------------------------------------------
  // Reachability
  // ---------------------------------------------------------------------

  /** `item` occurs somewhere in the forest, at any depth. */
  predicate Appears(nodes: seq<MenuNode>, item: MenuItem)
    decreases nodes
  {
    exists i :: 0 <= i < |nodes| && AppearsIn(nodes[i], item)
  }

  predicate AppearsIn(node: MenuNode, item: MenuItem)
    decreases node
  {
    node.item == item || (node.children.Nodes? && Appears(node.children.nodes, item))
  }

  /** `q` is a chain of list items from a root item down, each the child of the one before. */
  predicate Ancestry(list: seq<MenuItem>, q: seq<MenuItem>)
  {
    && (forall j :: 0 <= j < |q| ==> q[j] in list)
    && (forall j :: 0 < j < |q| ==> q[j].parentId == q[j - 1].id)
    && (|q| > 0 ==> q[0].parentId == RootId)
  }

  /** The item is reachable from the root by parent links. */
  ghost predicate Rooted(list: seq<MenuItem>, item: MenuItem)
  {
    exists q :: Ancestry(list, q + [item])
  }

  /**
   * Only reachable items appear: every item in the forest below the end of
   * an ancestry `q` has an ancestry through `q`.
   */
  lemma {:induction false} ForestRooted(list: seq<MenuItem>, q: seq<MenuItem>, nodes: seq<MenuNode>, item: MenuItem)
    requires Ancestry(list, q)
    requires ForestOf(list, if |q| == 0 then RootId else q[|q| - 1].id, nodes)
    requires Appears(nodes, item)
    ensures Rooted(list, item)
    decreases nodes
  {
    var v := if |q| == 0 then RootId else q[|q| - 1].id;
    var i :| 0 <= i < |nodes| && AppearsIn(nodes[i], item);
    var n := nodes[i];
    assert n.item in ChildrenOf(list, v);
    var q' := q + [n.item];
    assert Ancestry(list, q') by {
      forall j | 0 < j < |q'|
        ensures q'[j].parentId == q'[j - 1].id
      {
        if j < |q| { assert q'[j] == q[j] && q'[j - 1] == q[j - 1]; }
      }
    }
    if n.item == item {
    } else {
      NodeRooted(list, q', n, item);
    }
  }

  lemma {:induction false} NodeRooted(list: seq<MenuItem>, q: seq<MenuItem>, n: MenuNode, item: MenuItem)
    requires |q| > 0 && Ancestry(list, q) && q[|q| - 1] == n.item
    requires NodeOk(list, n) && n.children.Nodes? && Appears(n.children.nodes, item)
    ensures Rooted(list, item)
    decreases n
  {
    ForestRooted(list, q, n.children.nodes, item);
  }

  /** Items not reachable from the root, such as orphans and cycles, never appear in the tree. */
  lemma UnreachableNeverAppears(list: seq<MenuItem>, item: MenuItem)
    requires DistinctNonzeroIds(list)
    requires !Rooted(list, item)
    ensures !Appears(BuildMenuTree(list), item)
  {
    if Appears(BuildMenuTree(list), item) {
      ForestRooted(list, [], BuildMenuTree(list), item);
    }
  }

  /** The top level is exactly the root items, in list order, and no node has an empty children list. */
  lemma BuildMenuTreeTopLevel(list: seq<MenuItem>)
    requires DistinctNonzeroIds(list)
    ensures var r := BuildMenuTree(list);
      && |r| == |ChildrenOf(list, RootId)|
      && (forall i :: 0 <= i < |r| ==> r[i].item == ChildrenOf(list, RootId)[i] && r[i].item.parentId == RootId)
      && (forall i :: 0 <= i < |r| ==> (r[i].children.Null? <==> ChildrenOf(list, r[i].item.id) == []))
  {
    var r := BuildMenuTree(list);
    forall i | 0 <= i < |r|
      ensures r[i].item.parentId == RootId
      ensures r[i].children.Null? <==> ChildrenOf(list, r[i].item.id) == []
    {
      assert r[i].item in ChildrenOf(list, RootId);
      assert NodeOk(list, r[i]);
      if r[i].children.Nodes? {
        assert ForestOf(list, r[i].item.id, r[i].children.nodes);
        assert |ChildrenOf(list, r[i].item.id)| == |r[i].children.nodes| > 0;
      }
    }
  }

  // ---------------------------------------------------------------------
  // The service adapters
  // ---------------------------------------------------------------------

  /** `getTableData`'s mapping: `{...res, data: buildMenuTree(res.data)}`. */
  function GetTableData(res: Api.PageResponse<seq<MenuItem>>): (page: Api.PageResponse<seq<MenuNode>>)
    requires DistinctNonzeroIds(res.data)
    ensures page.total == res.total && page.success == res.success
    ensures ForestOf(res.data, RootId, page.data)
  {
    Api.PageResponse(BuildMenuTree(res.data), res.total, res.success)
  }

  /** `Api.OptionItem`'s `value`: a string or a number. */
  datatype OptionValue = NumberValue(n: int) | StringValue(s: string)

  /** `Api.OptionItem`: its `label` (here `text`) and `value`. */
  datatype OptionItem = OptionItem(text: string, value: OptionValue)

  /** `getOptions`' mapping: the Root entry, then the fetched options unchanged. */
  function GetOptions(fetched: seq<OptionItem>): (options: seq<OptionItem>)
    ensures |options| == |fetched| + 1
    ensures options[0] == OptionItem("Root", NumberValue(RootId))
    ensures options[1..] == fetched
  {
    [OptionItem("Root", NumberValue(RootId))] + fetched
  }
}
