/** The logic of the dashboard shell in app/components/dashboard-layout.tsx: the avatar
    initials, the breadcrumbs of the current path, which navigation item is active, and the
    layout's open/closed flags with the keyboard shortcuts that change them. */
module DashboardLayout {
  import opened Wrappers
  import opened Text
  import Auth

  // ---------------------------------------------------------------- initials

  /** `words.map(w => w[0]).join('')`: the first character of every word, where an empty word
      contributes nothing (its `w[0]` is undefined and joins as ""). */
  function FirstChars(words: seq<string>): string
  {
    if words == [] then ""
    else (if words[0] == "" then "" else [words[0][0]]) + FirstChars(words[1..])
  }

  /** The first characters of the words are exactly the first characters of the non-empty
      words, in order. */
  lemma {:induction false} FirstCharsOfNonEmpty(words: seq<string>)
    ensures |FirstChars(words)| == |NonEmpty(words)|
    ensures forall i :: 0 <= i < |NonEmpty(words)| ==> FirstChars(words)[i] == NonEmpty(words)[i][0]
  {
    if words != [] {
      FirstCharsOfNonEmpty(words[1..]);
    }
  }

  function Min(a: int, b: int): int
  {
    if a < b then a else b
  }

  /** The avatar initials: "U" without a user or a name; otherwise the upper-cased first
      characters of the first two non-empty space-separated words of the name. */
  function GetInitials(user: Option<Auth.User>): (r: string)
    ensures user.None? || user.value.name == "" ==> r == "U"
    ensures user.Some? && user.value.name != "" ==>
      var words := NonEmpty(Split(user.value.name, ' '));
      && |r| == Min(2, |words|)
      && forall i :: 0 <= i < |r| ==> r[i] == UpperChar(words[i][0])
  {
    if user.None? || user.value.name == "" then "U"
    else
      var initials := Upper(FirstChars(Split(user.value.name, ' ')));
      FirstCharsOfNonEmpty(Split(user.value.name, ' '));
      initials[..Min(2, |initials|)]
  }

  /** A name made only of spaces has no words, so the initials are empty rather than "U". */
  lemma BlankNameHasNoInitials(u: Auth.User)
    requires |u.name| > 0 && forall i :: 0 <= i < |u.name| ==> u.name[i] == ' '
    ensures GetInitials(Some(u)) == ""
  {
    var parts := Split(u.name, ' ');
    SplitOnlySeparators(u.name, ' ');
    NonEmptyOfEmpties(parts);
  }

  // ---------------------------------------------------------------- breadcrumbs

  /** A breadcrumb: its label (`title`, since `label` is a Dafny keyword) and its link. */
  datatype Breadcrumb = Breadcrumb(title: string, href: string)

  /** `pathname.split('/').filter(Boolean)`. */
  function Segments(pathname: string): (segs: seq<string>)
    ensures forall i :: 0 <= i < |segs| ==> segs[i] != "" && '/' !in segs[i]
  {
    var parts := Split(pathname, '/');
    var segs := NonEmpty(parts);
    assert forall i :: 0 <= i < |segs| ==> segs[i] in parts;
    segs
  }

  /** The path made of the segments: "/" before each. */
  function PathOf(segs: seq<string>): string
  {
    if segs == [] then "" else PathOf(segs[..|segs| - 1]) + "/" + segs[|segs| - 1]
  }

  /** A breadcrumb's label: "Dashboard" for the dashboard segment, else the segment with its
      first character upper-cased. */
  function Label(segment: string): (title: string)
    requires segment != ""
    ensures |title| == |segment|
  {
    if segment == "dashboard" then "Dashboard" else [UpperChar(segment[0])] + segment[1..]
  }

  /** The path up to one more segment is the path up to the one before, then that segment. */
  lemma PathOfStep(segs: seq<string>, i: int)
    requires 0 <= i < |segs|
    ensures PathOf(segs[..i + 1]) == PathOf(segs[..i]) + "/" + segs[i]
  {
    assert segs[..i + 1][..i] == segs[..i];
  }

  /** The crumb of the `i`-th segment: its label, linking to the path up to that segment. */
  function CrumbAt(segs: seq<string>, i: int): Breadcrumb
    requires 0 <= i < |segs| && segs[i] != ""
  {
    Breadcrumb(Label(segs[i]), PathOf(segs[..i + 1]))
  }

  /** `crumbs` are the crumbs of the first `n` segments. */
  ghost predicate CrumbsUpTo(crumbs: seq<Breadcrumb>, segs: seq<string>, n: int)
    requires 0 <= n <= |segs|
    requires forall k :: 0 <= k < |segs| ==> segs[k] != ""
  {
    |crumbs| == n && forall k :: 0 <= k < n ==> crumbs[k] == CrumbAt(segs, k)
  }

  /** Pushing the next segment's crumb extends the crumbs by one segment. */
  lemma CrumbsUpToPush(crumbs: seq<Breadcrumb>, segs: seq<string>, n: int)
    requires 0 <= n < |segs|
    requires forall k :: 0 <= k < |segs| ==> segs[k] != ""
    requires CrumbsUpTo(crumbs, segs, n)
    ensures CrumbsUpTo(crumbs + [CrumbAt(segs, n)], segs, n + 1)
  {
    var next := crumbs + [CrumbAt(segs, n)];
    forall k | 0 <= k < n + 1
      ensures next[k] == CrumbAt(segs, k)
    {
      if k < n {
        assert next[k] == crumbs[k];
      }
    }
  }

  /** One crumb per segment, in order, each linking to the path up to its segment. */
  method CrumbsOf(pathSegments: seq<string>) returns (crumbs: seq<Breadcrumb>)
    requires forall k :: 0 <= k < |pathSegments| ==> pathSegments[k] != ""
    ensures |crumbs| == |pathSegments|
    ensures forall i :: 0 <= i < |pathSegments| ==>
      crumbs[i] == Breadcrumb(Label(pathSegments[i]), PathOf(pathSegments[..i + 1]))
  {
    crumbs := [];
    var currentPath := "";
    for i := 0 to |pathSegments|
      invariant currentPath == PathOf(pathSegments[..i])
      invariant CrumbsUpTo(crumbs, pathSegments, i)
    {
      var segment := pathSegments[i];
      PathOfStep(pathSegments, i);
      CrumbsUpToPush(crumbs, pathSegments, i);
      currentPath := currentPath + "/" + segment;
      if segment == "dashboard" {
        crumbs := crumbs + [Breadcrumb("Dashboard", currentPath)];
      } else {
        var title := [UpperChar(segment[0])] + segment[1..];
        crumbs := crumbs + [Breadcrumb(title, currentPath)];
      }
    }
    assert CrumbsUpTo(crumbs, pathSegments, |pathSegments|);
  }

  /** The breadcrumbs of a path: a single "Overview" crumb on the dashboard itself; otherwise
      one crumb per non-empty segment, in order, each linking to the path up to its segment. */
  method GetBreadcrumbs(pathname: string) returns (crumbs: seq<Breadcrumb>)
    ensures Segments(pathname) == ["dashboard"] ==> crumbs == [Breadcrumb("Overview", "/dashboard")]
    ensures Segments(pathname) != ["dashboard"] ==>
      var segs := Segments(pathname);
      && |crumbs| == |segs|
      && forall i :: 0 <= i < |segs| ==>
           crumbs[i] == Breadcrumb(Label(segs[i]), PathOf(segs[..i + 1]))
  {
    var pathSegments := Segments(pathname);
    if |pathSegments| == 1 && pathSegments[0] == "dashboard" {
      assert pathSegments == ["dashboard"];
      return [Breadcrumb("Overview", "/dashboard")];
    }
    crumbs := CrumbsOf(pathSegments);
  }

  /** The path of two runs of segments is the path of the first followed by that of the second. */
  lemma {:induction false} PathOfAppend(a: seq<string>, b: seq<string>)
    ensures PathOf(a + b) == PathOf(a) + PathOf(b)
    decreases |b|
  {
    if b != [] {
      var b' := b[..|b| - 1];
      PathOfAppend(a, b');
      assert (a + b)[..|a + b| - 1] == a + b';
      assert (a + b)[|a + b| - 1] == b[|b| - 1];
    } else {
      assert a + b == a;
    }
  }

  /** Each breadcrumb links to a proper prefix of the link of every later breadcrumb. */
  lemma HrefsArePrefixes(segs: seq<string>, i: int, j: int)
    requires 0 <= i < j < |segs|
    requires forall k :: 0 <= k < |segs| ==> segs[k] != ""
    ensures |PathOf(segs[..i + 1])| < |PathOf(segs[..j + 1])|
    ensures PathOf(segs[..i + 1]) == PathOf(segs[..j + 1])[..|PathOf(segs[..i + 1])|]
  {
    var a := segs[..i + 1];
    var b := segs[i + 1..j + 1];
    assert segs[..j + 1] == a + b;
    PathOfAppend(a, b);
    assert PathOf(b) == PathOf(b[..|b| - 1]) + "/" + b[|b| - 1];
  }

  /** Building a path and splitting it again gives the segments back. */
  lemma {:induction false} SplitPathOf(segs: seq<string>)
    requires forall k :: 0 <= k < |segs| ==> segs[k] != "" && '/' !in segs[k]
    ensures Split(PathOf(segs), '/') == [""] + segs
    ensures Segments(PathOf(segs)) == segs
    decreases |segs|
  {
    if segs == [] {
      assert Split("", '/') == [""];
    } else {
      var init := segs[..|segs| - 1];
      var last := segs[|segs| - 1];
      SplitPathOf(init);
      // Split(PathOf(init) + "/" + last) by the split of PathOf(init), piece by piece.
      SplitAppendPiece(PathOf(init), last, [""] + init);
      assert PathOf(segs) == PathOf(init) + "/" + last;
      assert [""] + init + [last] == [""] + segs;
    }
    NonEmptyAfterEmpty(segs);
    assert Segments(PathOf(segs)) == NonEmpty([""] + segs);
  }

  /** Appending a separator and a separator-free piece to a string adds that piece to its split. */
  lemma {:induction false} SplitAppendPiece(s: string, piece: string, parts: seq<string>)
    requires Split(s, '/') == parts
    requires '/' !in piece
    ensures Split(s + "/" + piece, '/') == parts + [piece]
    decreases |s|
  {
    if s == [] {
      assert s + "/" + piece == ['/'] + piece;
      SplitLeadingSeparator(piece, '/');
      SplitWithoutSeparator(piece, '/');
    } else {
      var rest := Split(s[1..], '/');
      SplitAppendPiece(s[1..], piece, rest);
      assert (s + "/" + piece)[1..] == s[1..] + "/" + piece;
      assert (s + "/" + piece)[0] == s[0];
      if s[0] != '/' {
        assert Split(s, '/') == [[s[0]] + rest[0]] + rest[1..];
        assert (rest + [piece])[0] == rest[0];
        assert (rest + [piece])[1..] == rest[1..] + [piece];
      }
    }
  }

  /** Filtering the empty pieces out of a leading empty piece and non-empty segments leaves the
      segments. */
  lemma {:induction false} NonEmptyAfterEmpty(segs: seq<string>)
    requires forall k :: 0 <= k < |segs| ==> segs[k] != ""
    ensures NonEmpty([""] + segs) == segs
    ensures NonEmpty(segs) == segs
    decreases |segs|
  {
    assert ([""] + segs)[1..] == segs;
    if segs != [] {
      NonEmptyAfterEmpty(segs[1..]);
      assert segs == [segs[0]] + segs[1..];
    }
  }

  /** The last breadcrumb links to the page being shown: its link has the same segments as the
      current path. */
  lemma LastCrumbNamesThePage(pathname: string)
    requires Segments(pathname) != []
    ensures var segs := Segments(pathname);
      Segments(PathOf(segs[..|segs|])) == segs
  {
    var segs := Segments(pathname);
    assert segs[..|segs|] == segs;
    SplitPathOf(segs);
  }

  // ---------------------------------------------------------------- navigation

  const OverviewHref: string := "/dashboard"

  /** The links of the main navigation, in order. */
  const NavHrefs: seq<string> := [
    "/dashboard", "/dashboard/conversations", "/dashboard/channels", "/dashboard/agents",
    "/dashboard/personas", "/dashboard/knowledge", "/dashboard/voice", "/dashboard/analytics"]

  predicate StartsWith(s: string, prefix: string)
  {
    |prefix| <= |s| && s[..|prefix|] == prefix
  }

  /** The overview item is active only on the dashboard itself; any other item is active on
      every path that starts with its link. */
  function IsActive(href: string, pathname: string): (r: bool)
    ensures href == OverviewHref ==> (r <==> pathname == OverviewHref)
    ensures href != OverviewHref ==> (r <==> |href| <= |pathname| && pathname[..|href|] == href)
  {
    if href == OverviewHref then pathname == OverviewHref else StartsWith(pathname, href)
  }

  /** Two prefixes of one string: the shorter is a prefix of the longer. */
  lemma PrefixesNest(s: string, p: string, q: string)
    requires StartsWith(s, p) && StartsWith(s, q) && |p| <= |q|
    ensures StartsWith(q, p)
  {
    assert q[..|p|] == s[..|q|][..|p|];
  }

  /** The items after the overview differ within the two characters after "/dashboard/". */
  lemma NavKeysDistinct(i: int, j: int)
    requires 1 <= i < |NavHrefs| && 1 <= j < |NavHrefs| && i != j
    ensures |NavHrefs[i]| >= 13 && |NavHrefs[j]| >= 13
    ensures NavHrefs[i][11] != NavHrefs[j][11] || NavHrefs[i][12] != NavHrefs[j][12]
  {
    assert i == 1 || i == 2 || i == 3 || i == 4 || i == 5 || i == 6 || i == 7;
    assert j == 1 || j == 2 || j == 3 || j == 4 || j == 5 || j == 6 || j == 7;
  }

  /** A link that starts with another shares its characters. */
  lemma PrefixSharesKey(p: string, q: string)
    requires |p| >= 13 && StartsWith(q, p)
    ensures q[11] == p[11] && q[12] == p[12]
  {
    assert q[..|p|][11] == q[11] && q[..|p|][12] == q[12];
  }

  /** At most one item of the main navigation is highlighted, whatever the path. */
  lemma AtMostOneNavItemActive(pathname: string, i: int, j: int)
    requires 0 <= i < |NavHrefs| && 0 <= j < |NavHrefs| && i != j
    ensures !(IsActive(NavHrefs[i], pathname) && IsActive(NavHrefs[j], pathname))
  {
    if IsActive(NavHrefs[i], pathname) && IsActive(NavHrefs[j], pathname) {
      assert i != 0 && j != 0;
      var p, q := NavHrefs[i], NavHrefs[j];
      NavKeysDistinct(i, j);
      if |p| <= |q| {
        PrefixesNest(pathname, p, q);
        PrefixSharesKey(p, q);
      } else {
        PrefixesNest(pathname, q, p);
        PrefixSharesKey(q, p);
      }
    }
  }

  // ---------------------------------------------------------------- layout state

  /** The layout's flags, and `listenerCollapsed`: the value of `collapsed` that the registered
      keydown listener closed over. The effect that registers the listener depends only on
      `searchFocused`, so the listener is replaced only when the focus of the search box changes,
      and `listenerCollapsed` is `collapsed` as of the last such change (or of mounting). */
  class LayoutState {
    var mobileMenuOpen: bool
    var collapsed: bool
    var searchFocused: bool
    var userDropdownOpen: bool
    var listenerCollapsed: bool

    constructor ()
      ensures !mobileMenuOpen && !collapsed && !searchFocused && !userDropdownOpen
      ensures !listenerCollapsed
    {
      mobileMenuOpen, collapsed, searchFocused, userDropdownOpen := false, false, false, false;
      listenerCollapsed := false;
    }

    method ToggleMobileMenu()
      modifies this
      ensures mobileMenuOpen == !old(mobileMenuOpen)
      ensures collapsed == old(collapsed) && searchFocused == old(searchFocused)
      ensures userDropdownOpen == old(userDropdownOpen) && listenerCollapsed == old(listenerCollapsed)
    {
      mobileMenuOpen := !mobileMenuOpen;
    }

    /** The sidebar button, whose `toggleSidebar` belongs to the current render. */
    method ToggleSidebar()
      modifies this
      ensures collapsed == !old(collapsed)
      ensures mobileMenuOpen == old(mobileMenuOpen) && searchFocused == old(searchFocused)
      ensures userDropdownOpen == old(userDropdownOpen) && listenerCollapsed == old(listenerCollapsed)
    {
      collapsed := !collapsed;
    }

    method ToggleUserDropdown()
      modifies this
      ensures userDropdownOpen == !old(userDropdownOpen)
      ensures mobileMenuOpen == old(mobileMenuOpen) && collapsed == old(collapsed)
      ensures searchFocused == old(searchFocused) && listenerCollapsed == old(listenerCollapsed)
    {
      userDropdownOpen := !userDropdownOpen;
    }

    /** The search box's focus and blur handlers. A change of focus registers the keydown
        listener again, and the new listener sees the current `collapsed`. */
    method SetSearchFocused(focused: bool)
      modifies this
      ensures searchFocused == focused
      ensures listenerCollapsed == if focused == old(searchFocused) then old(listenerCollapsed) else collapsed
      ensures mobileMenuOpen == old(mobileMenuOpen) && collapsed == old(collapsed)
      ensures userDropdownOpen == old(userDropdownOpen)
    {
      if focused != searchFocused {
        listenerCollapsed := collapsed;
      }
      searchFocused := focused;
    }

    /** The keyboard shortcuts as registered. Ctrl-B or Cmd-B calls the `toggleSidebar` of the
        render that registered the listener, so it sets `collapsed` to the negation of
        `listenerCollapsed`, not of the current value. `/` focuses an unfocused search box and
        Escape blurs a focused one, but both act through `searchRef`, which is attached only
        while the sidebar is expanded: while it is collapsed they do nothing. */
    method HandleKeyDown(key: string, metaOrCtrl: bool)
      modifies this
      ensures collapsed == if metaOrCtrl && key == "b" then !old(listenerCollapsed) else old(collapsed)
      ensures key == "/" && !old(collapsed) ==> searchFocused
      ensures key == "Escape" && !old(collapsed) ==> !searchFocused
      ensures (key != "/" && key != "Escape") || old(collapsed) ==> searchFocused == old(searchFocused)
      ensures listenerCollapsed == if searchFocused == old(searchFocused) then old(listenerCollapsed) else collapsed
      ensures mobileMenuOpen == old(mobileMenuOpen) && userDropdownOpen == old(userDropdownOpen)
    {
      if metaOrCtrl && key == "b" {
        collapsed := !listenerCollapsed;
      }
      if key == "/" && !searchFocused && !collapsed {
        SetSearchFocused(true);
      }
      if key == "Escape" && searchFocused && !collapsed {
        SetSearchFocused(false);
      }
    }

    /** The shortcuts as evidently intended: Ctrl-B or Cmd-B toggles the sidebar as it is now,
        as the sidebar button does. */
    method HandleKeyDownIntended(key: string, metaOrCtrl: bool)
      modifies this
      ensures collapsed == if metaOrCtrl && key == "b" then !old(collapsed) else old(collapsed)
      ensures key == "/" && !old(collapsed) ==> searchFocused
      ensures key == "Escape" && !old(collapsed) ==> !searchFocused
      ensures (key != "/" && key != "Escape") || old(collapsed) ==> searchFocused == old(searchFocused)
      ensures mobileMenuOpen == old(mobileMenuOpen) && userDropdownOpen == old(userDropdownOpen)
    {
      if metaOrCtrl && key == "b" {
        ToggleSidebar();
      }
      if key == "/" && !searchFocused && !collapsed {
        SetSearchFocused(true);
      }
      if key == "Escape" && searchFocused && !collapsed {
        SetSearchFocused(false);
      }
    }

    /** A mouse press anywhere closes the user menu. */
    method HandleClickOutside()
      modifies this
      ensures !userDropdownOpen
      ensures mobileMenuOpen == old(mobileMenuOpen) && collapsed == old(collapsed)
      ensures searchFocused == old(searchFocused) && listenerCollapsed == old(listenerCollapsed)
    {
      if userDropdownOpen {
        userDropdownOpen := false;
      }
    }
  }

  /** Without a change of focus in between, a second Ctrl-B does not undo the first: both set
      `collapsed` to the negation of the same snapshot. So from a state the listener saw, two
      presses leave the sidebar toggled instead of restored. */
  method ShortcutTwice(l: LayoutState)
    modifies l
    ensures l.collapsed == !old(l.listenerCollapsed)
    ensures old(l.collapsed) == old(l.listenerCollapsed) ==> l.collapsed != old(l.collapsed)
  {
    l.HandleKeyDown("b", true);
    l.HandleKeyDown("b", true);
  }

  /** On a freshly mounted layout, Ctrl-B pressed twice leaves the sidebar collapsed. */
  method ShortcutTwiceOnMount() returns (collapsed: bool)
    ensures collapsed
  {
    var l := new LayoutState();
    l.HandleKeyDown("b", true);
    l.HandleKeyDown("b", true);
    collapsed := l.collapsed;
  }

  /** With the intended shortcut, a second Ctrl-B always restores the sidebar. */
  method ShortcutTwiceIntended(l: LayoutState)
    modifies l
    ensures l.collapsed == old(l.collapsed)
  {
    l.HandleKeyDownIntended("b", true);
    l.HandleKeyDownIntended("b", true);
  }

  /** On a freshly mounted layout, the intended shortcut pressed twice leaves the sidebar expanded. */
  method ShortcutTwiceOnMountIntended() returns (collapsed: bool)
    ensures !collapsed
  {
    var l := new LayoutState();
    l.HandleKeyDownIntended("b", true);
    l.HandleKeyDownIntended("b", true);
    collapsed := l.collapsed;
  }
}
