/**
 * The permission evaluator and the path-to-code translator of the client's
 * auth store (`checkPermissions` and `formatPathCode`).
 *
 * A permission code is a colon-delimited string such as `system:user:list`.
 * A granted list may hold exact codes, the bare wildcard `*`, and prefix
 * wildcards `p:*`.
 */
module Permissions {
  import opened Strings
  import opened Seqs

  /** The candidate `codeArr.slice(0, i).join(':') + ':*'` tried by the evaluator's loop. */
  function WildcardAt(segs: seq<string>, i: nat): string
    requires i <= |segs|
  {
    Join(segs[..i], ':') + ":*"
  }

  /** Some prefix wildcard built from the first `i` segments, 1 <= i < |segs|, is granted. */
  predicate PrefixWildcardGranted(perms: seq<string>, segs: seq<string>)
  {
    exists i | 1 <= i < |segs| :: WildcardAt(segs, i) in perms
  }

  /**
   * The decision of `checkPermissions`: an empty list denies; otherwise the
   * bare `*`, the code itself, or a prefix wildcard grants.
   */
  predicate Granted(perms: seq<string>, code: string)
  {
    && |perms| > 0
    && ("*" in perms || code in perms || PrefixWildcardGranted(perms, Split(code, ':')))
  }

  /** A wildcard entry `p:*` whose `p:` is a prefix of the code. */
  predicate CoversByWildcard(w: string, code: string)
  {
    |w| >= 2 && w[|w| - 2..] == ":*" && w[..|w| - 1] <= code
  }

  // ---------------------------------------------------------------------
  // Properties of the evaluator
  // ---------------------------------------------------------------------

  /** An empty permission list denies every code. */
  lemma EmptyDenies(code: string)
    ensures !Granted([], code)
  {
  }

  /** A list containing `*` grants every code. */
  lemma StarGrantsAll(perms: seq<string>, code: string)
    requires "*" in perms
    ensures Granted(perms, code)
  {
  }

  /** A code present verbatim in the list is granted. */
  lemma ExactGrants(perms: seq<string>, code: string)
    requires code in perms
    ensures Granted(perms, code)
  {
  }

  /**
   * The candidates of the loop are exactly the wildcards that cover the code:
   * the loop finds a granted candidate iff some granted entry `p:*` has `p:`
   * as a prefix of the code.
   */
  lemma {:induction false} PrefixWildcardIff(perms: seq<string>, code: string)
    ensures PrefixWildcardGranted(perms, Split(code, ':')) <==>
            exists w :: w in perms && CoversByWildcard(w, code)
  {
    var segs := Split(code, ':');
    if PrefixWildcardGranted(perms, segs) {
      var i :| 1 <= i < |segs| && WildcardAt(segs, i) in perms;
      CandidateCovers(code, i);
      assert CoversByWildcard(WildcardAt(segs, i), code);
    }
    if w :| w in perms && CoversByWildcard(w, code) {
      var i := CoveringIndex(w, code);
      assert WildcardAt(segs, i) in perms;
    }
  }

  /** The i-th candidate of the loop covers the code. */
  lemma {:induction false} CandidateCovers(code: string, i: nat)
    requires 1 <= i < |Split(code, ':')|
    ensures CoversByWildcard(WildcardAt(Split(code, ':'), i), code)
  {
    var segs := Split(code, ':');
    var w := WildcardAt(segs, i);
    var head := Join(segs[..i], ':');
    assert segs == segs[..i] + segs[i..];
    JoinAppend(segs[..i], segs[i..], ':');
    JoinSplit(code, ':');
    assert code == head + [':'] + Join(segs[i..], ':');
    assert w[..|w| - 1] == head + [':'];
  }

  /** A wildcard that covers the code is one of the loop's candidates. */
  lemma {:induction false} CoveringIndex(w: string, code: string) returns (i: nat)
    requires CoversByWildcard(w, code)
    ensures 1 <= i < |Split(code, ':')| && WildcardAt(Split(code, ':'), i) == w
  {
    var p := w[..|w| - 2];
    var rest := code[|w| - 1..];
    assert w[..|w| - 1] == p + [':'];
    assert code == p + [':'] + rest;
    SplitAround(p, rest, ':');
    var segs := Split(code, ':');
    i := |Split(p, ':')|;
    assert segs[..i] == Split(p, ':');
    JoinSplit(p, ':');
    assert w == p + ":*";
  }

  /**
   * The whole decision, stated without the loop: `p:*` grants a code exactly
   * when `p` is a strict segment-prefix of it (`p:` is a prefix of the code).
   */
  lemma GrantedIff(perms: seq<string>, code: string)
    ensures Granted(perms, code) <==>
            |perms| > 0 &&
            ("*" in perms || code in perms || exists w :: w in perms && CoversByWildcard(w, code))
  {
    PrefixWildcardIff(perms, code);
  }

  /** A granted `p:*` grants every code that continues `p` with a colon. */
  lemma WildcardGrants(perms: seq<string>, p: string, rest: string)
    requires p + ":*" in perms
    ensures Granted(perms, p + ":" + rest)
  {
    var w := p + ":*";
    assert w[..|w| - 1] == p + ":";
    assert CoversByWildcard(w, p + ":" + rest);
    GrantedIff(perms, p + ":" + rest);
  }

  /** Granting is monotone: more granted codes never turn a grant into a denial. */
  lemma GrantedMonotone(perms: seq<string>, more: seq<string>, code: string)
    requires forall i :: 0 <= i < |perms| ==> perms[i] in more
    requires Granted(perms, code)
    ensures Granted(more, code)
  {
    assert perms[0] in more;
    if !("*" in perms || code in perms) {
      var segs := Split(code, ':');
      var i :| 1 <= i < |segs| && WildcardAt(segs, i) in perms;
      assert WildcardAt(segs, i) in more;
    }
  }

  /** `system:user:*` grants the codes below `system:user`. */
  lemma SystemUserWildcardGrants()
    ensures Granted(["system:user:*"], "system:user:list")
    ensures Granted(["system:user:*"], "system:user:a:b")
  {
    assert "system:user" + ":*" == "system:user:*";
    WildcardGrants(["system:user:*"], "system:user", "list");
    assert "system:user" + ":" + "list" == "system:user:list";
    WildcardGrants(["system:user:*"], "system:user", "a:b");
    assert "system:user" + ":" + "a:b" == "system:user:a:b";
  }

  /** `system:user:*` grants neither a sibling resource nor `system:user` itself. */
  lemma SystemUserWildcardDenies()
    ensures !Granted(["system:user:*"], "system:role:list")
    ensures !Granted(["system:user:*"], "system:user")
  {
    var w := "system:user:*";
    assert w[..|w| - 1] == "system:user:";
    GrantedIff([w], "system:role:list");
    assert !("system:user:" <= "system:role:list") by {
      assert "system:user:"[7] != "system:role:list"[7];
    }
    GrantedIff([w], "system:user");
  }

  // ---------------------------------------------------------------------
  // The path-to-code translator
  // ---------------------------------------------------------------------

  /** `pathname.replace(/\//g, ':').slice(1)`. */
  function PathToColons(path: string): (r: string)
  {
    var c := ReplaceChar(path, '/', ':');
    if |c| == 0 then c else c[1..]
  }

  predicate NotAllDigits(s: string)
  {
    !AllDigits(s)
  }

  /**
   * `formatPathCode`: a create page keeps its code, an edit or detail page
   * loses its numeric (entity id) segments, any other page is a list page.
   */
  function FormatPathCode(path: string): string
  {
    var code := PathToColons(path);
    if EndsWith(code, ":create") then code
    else if EndsWith(code, ":edit") || EndsWith(code, ":detail") then
      Join(Filter(Split(code, ':'), NotAllDigits), ':')
    else code + ":list"
  }

  /** The translator maps every `/` to `:` and drops the first character. */
  lemma PathToColonsChars(path: string)
    requires |path| > 0
    ensures |PathToColons(path)| == |path| - 1
    ensures forall i :: 1 <= i < |path| ==>
      PathToColons(path)[i - 1] == (if path[i] == '/' then ':' else path[i])
  {
  }

  /** A create page's code is the colon form of its path. */
  lemma FormatCreate(path: string)
    requires EndsWith(PathToColons(path), ":create")
    ensures FormatPathCode(path) == PathToColons(path)
  {
  }

  /** A list page: neither create, edit nor detail, so `:list` is appended. */
  lemma FormatList(path: string)
    requires !EndsWith(PathToColons(path), ":create")
    requires !EndsWith(PathToColons(path), ":edit") && !EndsWith(PathToColons(path), ":detail")
    ensures FormatPathCode(path) == PathToColons(path) + ":list"
  {
  }

  /**
   * An edit or detail page's code has the segments of its colon form minus
   * the all-digit ones, in order; so no segment of it is an entity id.
   */
  lemma {:induction false} FormatEditSegments(path: string)
    requires !EndsWith(PathToColons(path), ":create")
    requires EndsWith(PathToColons(path), ":edit") || EndsWith(PathToColons(path), ":detail")
    ensures Split(FormatPathCode(path), ':') == Filter(Split(PathToColons(path), ':'), NotAllDigits)
    ensures forall i :: 0 <= i < |Split(FormatPathCode(path), ':')| ==>
      !AllDigits(Split(FormatPathCode(path), ':')[i])
  {
    var code := PathToColons(path);
    var segs := Split(code, ':');
    var kept := Filter(segs, NotAllDigits);
    assert FormatPathCode(path) == Join(kept, ':');
    EditSegmentsKept(code);
    forall i | 0 <= i < |kept|
      ensures ':' !in kept[i]
    {
      assert kept[i] in segs;
    }
    SplitJoin(kept, ':');
  }

  /** The final `edit` or `detail` segment survives the filter, so something is always kept. */
  lemma {:induction false} EditSegmentsKept(code: string)
    requires EndsWith(code, ":edit") || EndsWith(code, ":detail")
    ensures |Filter(Split(code, ':'), NotAllDigits)| >= 1
  {
    var last := if EndsWith(code, ":edit") then "edit" else "detail";
    var before := code[..|code| - |last| - 1];
    assert code == before + [':'] + last;
    SplitAround(before, last, ':');
    SplitPlain(last, ':');
    FilterAppend(Split(before, ':'), [last], NotAllDigits);
    assert !AllDigits(last) by { assert !IsDigit(last[0]); }
    assert Filter([last], NotAllDigits) == [last];
  }

  /** `/system/user` is the list page `system:user:list`. */
  lemma FormatListExample(path: string)
    requires path == "/system/user"
    ensures FormatPathCode(path) == "system:user:list"
  {
    assert PathToColons(path) == "system:user";
    assert !EndsWith("system:user", ":create");
    assert !EndsWith("system:user", ":edit");
    assert !EndsWith("system:user", ":detail");
    FormatList(path);
  }

  /** `/system/user/create` is the create page `system:user:create`. */
  lemma FormatCreateExample(path: string)
    requires path == "/system/user/create"
    ensures FormatPathCode(path) == "system:user:create"
  {
    assert PathToColons(path) == "system:user:create";
    assert EndsWith("system:user:create", ":create");
    FormatCreate(path);
  }

  /** A one-segment page `/seg` is the list page `seg:list`. */
  lemma FormatTopLevelPage(seg: string)
    requires '/' !in seg && ':' !in seg
    ensures FormatPathCode("/" + seg) == seg + ":list"
  {
    var path := "/" + seg;
    PathToColonsChars(path);
    assert PathToColons(path) == seg;
    assert !EndsWith(seg, ":create") && !EndsWith(seg, ":detail") by {
      if |seg| >= 7 { assert seg[|seg| - 7] != ':'; }
    }
    assert !EndsWith(seg, ":edit") by {
      if |seg| >= 5 { assert seg[|seg| - 5] != ':'; }
    }
    FormatList(path);
  }

  /** The list code of a one-segment resource is granted only by `*`, by itself or by `seg:*`. */
  lemma SingleSegmentListGrantedIff(perms: seq<string>, seg: string)
    requires ':' !in seg
    ensures Granted(perms, seg + ":list") <==>
      |perms| > 0 && ("*" in perms || seg + ":list" in perms || seg + ":*" in perms)
  {
    var code := seg + ":list";
    SplitAround(seg, "list", ':');
    assert seg + [':'] + "list" == code;
    SplitPlain(seg, ':');
    SplitPlain("list", ':');
    assert Split(code, ':') == [seg, "list"];
    assert [seg, "list"][..1] == [seg];
    assert WildcardAt([seg, "list"], 1) == seg + ":*";
  }

  /** The colon form of `/a/b/n/edit` when no segment holds a slash. */
  lemma {:induction false} ColonsOfEditPath(a: string, b: string, n: string)
    requires '/' !in a && '/' !in b && '/' !in n
    ensures PathToColons("/" + a + "/" + b + "/" + n + "/edit") == a + ":" + b + ":" + n + ":edit"
  {
    var path := "/" + a + "/" + b + "/" + n + "/edit";
    var c := a + ":" + b + ":" + n + ":edit";
    forall k | 0 <= k < |path|
      ensures ReplaceChar(path, '/', ':')[k] == (":" + c)[k]
    {
      if path[k] == '/' {
        assert (":" + c)[k] == ':';
      } else {
        assert (":" + c)[k] == path[k];
      }
    }
    assert ReplaceChar(path, '/', ':') == ":" + c;
  }

  /** The segments of `a:b:n:edit` when no segment holds a colon. */
  lemma {:induction false} SplitEditCode(a: string, b: string, n: string)
    requires ':' !in a && ':' !in b && ':' !in n
    ensures Split(a + ":" + b + ":" + n + ":edit", ':') == [a, b, n, "edit"]
  {
    var t2 := n + [':'] + "edit";
    var t1 := b + [':'] + t2;
    var t0 := a + [':'] + t1;
    assert a + ":" + b + ":" + n + ":edit" == t0;
    SplitPlain("edit", ':');
    SplitPlain(n, ':');
    SplitAround(n, "edit", ':');
    assert Split(t2, ':') == [n, "edit"];
    SplitPlain(b, ':');
    SplitAround(b, t2, ':');
    assert Split(t1, ':') == [b, n, "edit"];
    SplitPlain(a, ':');
    SplitAround(a, t1, ':');
  }

  /** Dropping the numeric segment of `[a, b, n, "edit"]`. */
  lemma {:induction false} FilterEditSegments(a: string, b: string, n: string)
    requires !AllDigits(a) && !AllDigits(b) && AllDigits(n)
    ensures Filter([a, b, n, "edit"], NotAllDigits) == [a, b, "edit"]
  {
    assert !AllDigits("edit") by { assert !IsDigit("edit"[0]); }
    assert [a, b, n, "edit"] == [a] + [b] + [n] + ["edit"];
    FilterAppend([a] + [b] + [n], ["edit"], NotAllDigits);
    FilterAppend([a] + [b], [n], NotAllDigits);
    FilterAppend([a], [b], NotAllDigits);
  }

  /**
   * An edit page below an entity id: `/a/b/<digits>/edit` becomes `a:b:edit`
   * when `a` and `b` are plain, non-numeric segments (so `/system/user/5/edit`
   * becomes `system:user:edit`).
   */
  lemma {:induction false} FormatEditOfIdPath(a: string, b: string, n: string)
    requires '/' !in a && ':' !in a && !AllDigits(a)
    requires '/' !in b && ':' !in b && !AllDigits(b)
    requires '/' !in n && AllDigits(n)
    ensures FormatPathCode("/" + a + "/" + b + "/" + n + "/edit") == a + ":" + b + ":edit"
  {
    var path := "/" + a + "/" + b + "/" + n + "/edit";
    var c := a + ":" + b + ":" + n + ":edit";
    assert ':' !in n;
    ColonsOfEditPath(a, b, n);
    assert !EndsWith(c, ":create") by {
      assert c[|c| - 1] == 't';
    }
    assert EndsWith(c, ":edit") by {
      assert c[|c| - 5..] == ":edit";
    }
    assert FormatPathCode(path) == Join(Filter(Split(c, ':'), NotAllDigits), ':');
    SplitEditCode(a, b, n);
    FilterEditSegments(a, b, n);
    JoinThree(a, b, "edit");
  }

  lemma {:induction false} JoinThree(a: string, b: string, e: string)
    ensures Join([a, b, e], ':') == a + ":" + b + ":" + e
  {
    assert [a, b, e][1..] == [b, e];
    assert [b, e][1..] == [e];
    assert Join([b, e], ':') == b + [':'] + e;
    assert Join([a, b, e], ':') == a + [':'] + (b + [':'] + e);
  }
}
