/**
 * The browser router's loaders and the permission filter of the side menu
 * (`getMenuData` / `getMenuList`).
 */
module Router {
  import opened Wrappers
  import opened Strings
  import opened Permissions
  import AuthStore

  // ---------------------------------------------------------------------
  // Loaders
  // ---------------------------------------------------------------------

  /** The `/login` loader: redirect home when signed in, else render the page (`null`). */
  function LoginLoader(token: Option<string>): (redirectTo: Option<string>)
    ensures redirectTo.Some? <==> AuthStore.HasToken(token)
    ensures redirectTo.Some? ==> redirectTo.value == "/"
  {
    if AuthStore.HasToken(token) then Some("/") else None
  }

  /** The catch-all loader: always a redirect, home or to the login page. */
  function CatchAllLoader(token: Option<string>): (redirectTo: string)
    ensures redirectTo == "/" <==> AuthStore.HasToken(token)
    ensures redirectTo == "/login" <==> !AuthStore.HasToken(token)
  {
    if AuthStore.HasToken(token) then "/" else "/login"
  }

  /** An unknown URL without a session lands on the login page, which the login loader then renders. */
  lemma CatchAllThenLogin(token: Option<string>)
    ensures CatchAllLoader(token) == "/login" ==> LoginLoader(token) == None
    ensures LoginLoader(token) == None ==> CatchAllLoader(token) == "/login"
  {
  }

  // ---------------------------------------------------------------------
  // Menu filter
  // ---------------------------------------------------------------------

  /** A route of the menu tree: `path`, `name` and the optional `children`. */
  datatype AppRoute = AppRoute(path: Option<string>, name: Option<string>, children: Children)

  /** The `children` field: absent (`undefined`), or present, possibly as an empty list. */
  datatype Children = Absent | Present(routes: seq<AppRoute>)

  /** JavaScript truthiness of the path: absent and `''` are both falsy. */
  predicate HasPath(item: AppRoute)
  {
    TruthyString(item.path)
  }

  /** The first filter: a path is required; a node with children passes, a leaf needs its permission. */
  predicate PassesFirstFilter(perms: seq<string>, item: AppRoute)
  {
    HasPath(item) && (item.children.Present? || Granted(perms, FormatPathCode(item.path.value)))
  }

  /** `getMenuList`: filter, map (recursing into children), filter (dropping emptied nodes). */
  function MenuList(perms: seq<string>, items: seq<AppRoute>): seq<AppRoute>
    decreases items
  {
    if |items| == 0 then [] else MenuEntry(perms, items[0]) + MenuList(perms, items[1..])
  }

  /** What one input item contributes to `getMenuList`'s result: nothing, or the item with filtered children. */
  function MenuEntry(perms: seq<string>, item: AppRoute): seq<AppRoute>
    decreases item
  {
    if !PassesFirstFilter(perms, item) then []
    else if item.children.Absent? then [item]
    else
      var kids := MenuList(perms, item.children.routes);
      if |kids| == 0 then [] else [item.(children := Present(kids))]
  }

  /**
   * What the filter guarantees of its result: every item has a path, every
   * leaf is a granted page, and every node has a non-empty list of children
   * that satisfies the same.
   */
  predicate WellFiltered(perms: seq<string>, items: seq<AppRoute>)
    decreases items
  {
    forall i :: 0 <= i < |items| ==> WellFilteredItem(perms, items[i])
  }

  predicate WellFilteredItem(perms: seq<string>, item: AppRoute)
    decreases item
  {
    && HasPath(item)
    && (item.children.Absent? ==> Granted(perms, FormatPathCode(item.path.value)))
    && (item.children.Present? ==>
          |item.children.routes| > 0 &&
          forall j :: 0 <= j < |item.children.routes| ==> WellFilteredItem(perms, item.children.routes[j]))
  }

  /** An item contributes at most itself, keeping its path and name. */
  lemma {:induction false} MenuEntryShape(perms: seq<string>, item: AppRoute)
    ensures |MenuEntry(perms, item)| <= 1
    ensures |MenuEntry(perms, item)| == 1 ==>
      MenuEntry(perms, item)[0].path == item.path && MenuEntry(perms, item)[0].name == item.name
    ensures |MenuEntry(perms, item)| == 1 ==>
      (MenuEntry(perms, item)[0].children.Absent? <==> item.children.Absent?)
  {
  }

  /** Items without a path are always dropped. */
  lemma PathlessDropped(perms: seq<string>, item: AppRoute)
    requires !HasPath(item)
    ensures MenuEntry(perms, item) == []
  {
  }

  /** A leaf is kept, unchanged, exactly when it has a path whose code is granted. */
  lemma LeafKeptIff(perms: seq<string>, item: AppRoute)
    requires item.children.Absent?
    ensures MenuEntry(perms, item) == [item] <==>
      HasPath(item) && Granted(perms, FormatPathCode(item.path.value))
    ensures MenuEntry(perms, item) != [item] ==> MenuEntry(perms, item) == []
  {
  }

  /** A node is kept exactly when it has a path and some child survives, and then with the survivors. */
  lemma NodeKeptIff(perms: seq<string>, item: AppRoute)
    requires item.children.Present?
    ensures MenuEntry(perms, item) != [] <==>
      HasPath(item) && MenuList(perms, item.children.routes) != []
    ensures MenuEntry(perms, item) != [] ==>
      MenuEntry(perms, item) == [item.(children := Present(MenuList(perms, item.children.routes)))]
  {
  }

  /** Filtering a concatenation filters each part: the survivors keep their relative order. */
  lemma {:induction false} MenuListAppend(perms: seq<string>, a: seq<AppRoute>, b: seq<AppRoute>)
    ensures MenuList(perms, a + b) == MenuList(perms, a) + MenuList(perms, b)
    decreases a
  {
    if |a| == 0 {
      assert a + b == b;
    } else {
      assert (a + b)[0] == a[0];
      assert (a + b)[1..] == a[1..] + b;
      MenuListAppend(perms, a[1..], b);
    }
  }

  /** The result never has more items than the input. */
  lemma {:induction false} MenuListShorter(perms: seq<string>, items: seq<AppRoute>)
    ensures |MenuList(perms, items)| <= |items|
    decreases items
  {
    if |items| > 0 {
      MenuEntryShape(perms, items[0]);
      MenuListShorter(perms, items[1..]);
    }
  }

  /** Soundness: whatever survives satisfies `WellFiltered`, at every depth. */
  lemma {:induction false} MenuListWellFiltered(perms: seq<string>, items: seq<AppRoute>)
    ensures WellFiltered(perms, MenuList(perms, items))
    decreases items
  {
    if |items| > 0 {
      MenuEntryWellFiltered(perms, items[0]);
      MenuListWellFiltered(perms, items[1..]);
      WellFilteredAppend(perms, MenuEntry(perms, items[0]), MenuList(perms, items[1..]));
    }
  }

  lemma WellFilteredAppend(perms: seq<string>, e: seq<AppRoute>, r: seq<AppRoute>)
    requires WellFiltered(perms, e) && WellFiltered(perms, r)
    ensures WellFiltered(perms, e + r)
  {
    forall i | 0 <= i < |e + r|
      ensures WellFilteredItem(perms, (e + r)[i])
    {
      if i < |e| { assert (e + r)[i] == e[i]; } else { assert (e + r)[i] == r[i - |e|]; }
    }
  }

  lemma {:induction false} MenuEntryWellFiltered(perms: seq<string>, item: AppRoute)
    ensures WellFiltered(perms, MenuEntry(perms, item))
    decreases item
  {
    if PassesFirstFilter(perms, item) && item.children.Present? {
      MenuListWellFiltered(perms, item.children.routes);
    }
  }

  /** A list that is already well filtered passes through unchanged. */
  lemma {:induction false} WellFilteredFixed(perms: seq<string>, items: seq<AppRoute>)
    requires WellFiltered(perms, items)
    ensures MenuList(perms, items) == items
    decreases items
  {
    if |items| > 0 {
      WellFilteredItemFixed(perms, items[0]);
      WellFilteredFixed(perms, items[1..]);
      assert items == [items[0]] + items[1..];
    }
  }

  lemma {:induction false} WellFilteredItemFixed(perms: seq<string>, item: AppRoute)
    requires WellFilteredItem(perms, item)
    ensures MenuEntry(perms, item) == [item]
    decreases item
  {
    if item.children.Present? {
      WellFilteredFixed(perms, item.children.routes);
      assert item.(children := Present(item.children.routes)) == item;
    }
  }

  /** The filter is idempotent: filtering the menu again changes nothing. */
  lemma MenuListIdempotent(perms: seq<string>, items: seq<AppRoute>)
    ensures MenuList(perms, MenuList(perms, items)) == MenuList(perms, items)
  {
    MenuListWellFiltered(perms, items);
    WellFilteredFixed(perms, MenuList(perms, items));
  }

  /** With no granted codes the menu is empty. */
  lemma {:induction false} EmptyPermissionsHideAll(items: seq<AppRoute>)
    ensures MenuList([], items) == []
    decreases items
  {
    if |items| > 0 {
      EmptyPermissionsHideEntry(items[0]);
      EmptyPermissionsHideAll(items[1..]);
    }
  }

  lemma {:induction false} EmptyPermissionsHideEntry(item: AppRoute)
    ensures MenuEntry([], item) == []
    decreases item
  {
    if HasPath(item) && item.children.Present? {
      EmptyPermissionsHideAll(item.children.routes);
    } else if HasPath(item) {
      EmptyDenies(FormatPathCode(item.path.value));
    }
  }

  /** The system section of the menu (`systemRoutes`). */
  const SystemRoutes: AppRoute := AppRoute(Some("/system"), Some("System"), Present([
    AppRoute(Some("/system/user"), Some("User"), Absent),
    AppRoute(Some("/system/role"), Some("Role"), Absent),
    AppRoute(Some("/system/menu"), Some("Menu"), Absent),
    AppRoute(Some("/system/dict"), Some("Dictionary"), Absent),
    AppRoute(Some("/system/log"), Some("Log"), Absent)
  ]))

  /** `getMenuData`: the filter applied to the page routes. */
  function GetMenuData(perms: seq<string>): seq<AppRoute>
  {
    MenuList(perms, [SystemRoutes])
  }

  /** A user holding `*` sees the whole menu; a user with no codes sees none of it. */
  lemma GetMenuDataExtremes(perms: seq<string>)
    requires "*" in perms
    ensures GetMenuData(perms) == [SystemRoutes]
    ensures GetMenuData([]) == []
  {
    var kids := SystemRoutes.children.routes;
    forall j | 0 <= j < |kids|
      ensures WellFilteredItem(perms, kids[j])
    {
      StarGrantsAll(perms, FormatPathCode(kids[j].path.value));
    }
    assert WellFilteredItem(perms, SystemRoutes);
    WellFilteredFixed(perms, [SystemRoutes]);
    EmptyPermissionsHideAll([SystemRoutes]);
  }
}
