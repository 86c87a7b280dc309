/**
 * The breadcrumb trail: deriving crumbs from the current path, capitalising
 * segment names, the collapsed/expanded rendering rule, the one-way
 * "show full path" flag and the Back control's decision.
 */
module Breadcrumbs {
  import opened Wrappers
  import opened Strings

  // ---------------------------------------------------------------------
  // Labels

  /** Fixed labels for well-known top-level segments. */
  const MenuTags: map<string, string> := map[
    "facility" := "Facilities",
    "patients" := "Patients",
    "assets" := "Assets",
    "sample" := "Sample Tests",
    "shifting" := "Shiftings",
    "resource" := "Resources",
    "users" := "Users",
    "notice_board" := "Notice Board"
  ]

  /** `MENU_TAGS[key]`: the label, or undefined. */
  function MenuTag(key: string): (r: Option<string>)
    ensures r.Some? <==> key in MenuTags
    ensures r.Some? ==> r.value == MenuTags[key] && r.value != []
  {
    if key in MenuTags then Some(MenuTags[key]) else None
  }

  /** JavaScript's `a || b` where `a` is a string or undefined: "" falls through. */
  function OrElse(a: Option<string>, b: string): (r: string)
    ensures a.Some? && a.value != [] ==> r == a.value
    ensures a.None? || a.value == [] ==> r == b
  {
    if a.Some? && a.value != [] then a.value else b
  }

  /** Upper-casing one character, restricted to ASCII letters. */
  function Upper(c: char): (r: char)
    ensures 'a' <= c <= 'z' ==> r as int == c as int - 32 && 'A' <= r <= 'Z'
    ensures !('a' <= c <= 'z') ==> r == c
  {
    if 'a' <= c <= 'z' then (c as int - 32) as char else c
  }

  /** `replace(/[_-]/g, " ")`: every underscore and hyphen becomes a space. */
  function SpaceSeparators(s: string): (r: string)
    ensures |r| == |s|
    ensures forall i :: 0 <= i < |s| ==> r[i] == if s[i] == '_' || s[i] == '-' then ' ' else s[i]
  {
    seq(|s|, i requires 0 <= i < |s| => if s[i] == '_' || s[i] == '-' then ' ' else s[i])
  }

  /** `word.charAt(0).toUpperCase() + word.slice(1)`. */
  function CapitalizeWord(w: string): string
  {
    if w == [] then [] else [Upper(w[0])] + w[1..]
  }

  function CapitalizeWords(ws: seq<string>): (r: seq<string>)
    ensures |r| == |ws|
    ensures forall k :: 0 <= k < |ws| ==> r[k] == CapitalizeWord(ws[k])
  {
    seq(|ws|, k requires 0 <= k < |ws| => CapitalizeWord(ws[k]))
  }

  /**
   * `capitalize`: underscores and hyphens become spaces, then the first
   * character of every space-separated word is upper-cased.
   */
  function Capitalize(s: string): string
  {
    Join(CapitalizeWords(Split(SpaceSeparators(s), ' ')), ' ')
  }

  /**
   * Reference definition of capitalisation, one character at a time:
   * a character is upper-cased exactly when it starts a word, that is, when
   * it is first (and `atStart` holds) or follows a space.
   */
  function UpperAtWordStarts(t: string, atStart: bool): string
  {
    if t == [] then []
    else [if atStart then Upper(t[0]) else t[0]] + UpperAtWordStarts(t[1..], t[0] == ' ')
  }

  lemma {:induction false} UpperAtWordStartsAt(t: string, atStart: bool)
    ensures |UpperAtWordStarts(t, atStart)| == |t|
    ensures forall i :: 0 <= i < |t| ==>
      UpperAtWordStarts(t, atStart)[i] ==
        if (if i == 0 then atStart else t[i - 1] == ' ') then Upper(t[i]) else t[i]
    decreases |t|
  {
    if t != [] {
      UpperAtWordStartsAt(t[1..], t[0] == ' ');
      var r := UpperAtWordStarts(t, atStart);
      forall i | 0 < i < |t|
        ensures r[i] == if t[i - 1] == ' ' then Upper(t[i]) else t[i]
      {
        assert r[i] == UpperAtWordStarts(t[1..], t[0] == ' ')[i - 1];
        assert t[1..][i - 1] == t[i];
        if i > 1 { assert t[1..][i - 2] == t[i - 1]; }
      }
    }
  }

  /** The words with the first one capitalised only when `atStart` holds. */
  function CapitalizeFrom(ws: seq<string>, atStart: bool): seq<string>
    requires |ws| >= 1
  {
    if atStart then CapitalizeWords(ws) else [ws[0]] + CapitalizeWords(ws[1..])
  }

  lemma CapitalizeWordsCons(w: string, ws: seq<string>)
    ensures CapitalizeWords([w] + ws) == [CapitalizeWord(w)] + CapitalizeWords(ws)
  {
  }

  /** A leading space is an empty first word; what follows starts a word. */
  lemma SplitCapitalizeJoinSpace(t: string, atStart: bool)
    requires t != [] && t[0] == ' '
    requires UpperAtWordStarts(t[1..], true) == Join(CapitalizeFrom(Split(t[1..], ' '), true), ' ')
    ensures UpperAtWordStarts(t, atStart) == Join(CapitalizeFrom(Split(t, ' '), atStart), ' ')
  {
    var rest := Split(t[1..], ' ');
    var cw := CapitalizeWords(rest);
    assert Split(t, ' ') == [[]] + rest;
    CapitalizeWordsCons([], rest);
    assert ([[]] + rest)[1..] == rest;
    var both: seq<string> := [[]] + cw;
    assert CapitalizeFrom(Split(t, ' '), atStart) == both;
    assert both[1..] == cw;
    assert Join(both, ' ') == [' '] + Join(cw, ' ');
  }

  /** A leading letter joins the first word, which is capitalised only at a word start. */
  lemma SplitCapitalizeJoinLetter(t: string, atStart: bool)
    requires t != [] && t[0] != ' '
    requires UpperAtWordStarts(t[1..], false) == Join(CapitalizeFrom(Split(t[1..], ' '), false), ' ')
    ensures UpperAtWordStarts(t, atStart) == Join(CapitalizeFrom(Split(t, ' '), atStart), ' ')
  {
    var rest := Split(t[1..], ' ');
    var tail := CapitalizeWords(rest[1..]);
    var ws := Split(t, ' ');
    var x := if atStart then Upper(t[0]) else t[0];
    assert ws == [[t[0]] + rest[0]] + rest[1..];
    assert ws[1..] == rest[1..];
    assert CapitalizeFrom(ws, atStart) == [[x] + rest[0]] + tail by {
      if atStart {
        CapitalizeWordsCons(ws[0], ws[1..]);
        assert [ws[0]] + ws[1..] == ws;
      }
    }
    assert CapitalizeFrom(rest, false) == [rest[0]] + tail;
    JoinConsFirst(x, rest[0], tail, ' ');
  }

  /**
   * The split/map/join pipeline agrees with the reference definition; when
   * `atStart` is false the first word is left as it is.
   */
  lemma {:induction false} SplitCapitalizeJoin(t: string, atStart: bool)
    ensures UpperAtWordStarts(t, atStart) == Join(CapitalizeFrom(Split(t, ' '), atStart), ' ')
    decreases |t|
  {
    if t == [] {
    } else if t[0] == ' ' {
      SplitCapitalizeJoin(t[1..], true);
      SplitCapitalizeJoinSpace(t, atStart);
    } else {
      SplitCapitalizeJoin(t[1..], false);
      SplitCapitalizeJoinLetter(t, atStart);
    }
  }

  /** Capitalisation, character by character: upper-case at word starts only. */
  lemma CapitalizeAt(s: string)
    ensures var t := SpaceSeparators(s);
      |Capitalize(s)| == |s| &&
      forall i :: 0 <= i < |s| ==>
        Capitalize(s)[i] == if i == 0 || t[i - 1] == ' ' then Upper(t[i]) else t[i]
  {
    var t := SpaceSeparators(s);
    SplitCapitalizeJoin(t, true);
    UpperAtWordStartsAt(t, true);
  }

  /** The result of `capitalize` has the input's length. */
  lemma CapitalizeLength(s: string)
    ensures |Capitalize(s)| == |s|
  {
    CapitalizeAt(s);
  }

  /** The result of `capitalize` holds no underscore and no hyphen. */
  lemma CapitalizeNoSeparators(s: string)
    ensures '_' !in Capitalize(s) && '-' !in Capitalize(s)
  {
    var c := Capitalize(s);
    var t := SpaceSeparators(s);
    CapitalizeAt(s);
    forall i | 0 <= i < |c| ensures c[i] != '_' && c[i] != '-' {
      assert t[i] != '_' && t[i] != '-';
      assert c[i] == if i == 0 || t[i - 1] == ' ' then Upper(t[i]) else t[i];
    }
  }

  /** `capitalize` is idempotent. */
  lemma CapitalizeIdempotent(s: string)
    ensures Capitalize(Capitalize(s)) == Capitalize(s)
  {
    var c := Capitalize(s);
    var t := SpaceSeparators(s);
    CapitalizeAt(s);
    CapitalizeNoSeparators(s);
    CapitalizeAt(c);
    var u := SpaceSeparators(c);
    forall i | 0 <= i < |c| ensures u[i] == c[i] {
      assert c[i] in c;
    }
    assert u == c;
    forall i | 0 <= i < |c|
      ensures Capitalize(c)[i] == c[i]
    {
      if i > 0 {
        assert c[i - 1] == if i - 1 == 0 || t[i - 2] == ' ' then Upper(t[i - 1]) else t[i - 1];
        assert (c[i - 1] == ' ') == (t[i - 1] == ' ');
      }
    }
  }

  lemma CapitalizeExample()
    ensures Capitalize("a-b_c") == "A B C"
  {
    CapitalizeAt("a-b_c");
    var t := SpaceSeparators("a-b_c");
    assert t == "a b c";
  }

  // ---------------------------------------------------------------------
  // Crumbs

  /** Per-segment overrides; each field may be absent. */
  datatype Replacement = Replacement(name: Option<string>, uri: Option<string>, style: Option<string>)

  datatype Crumb = Crumb(name: string, uri: string, style: string)

  /** `replacements[field]`, with a missing key read as all-undefined. */
  function ReplacementFor(replacements: map<string, Replacement>, field: string): (r: Replacement)
    ensures field !in replacements ==> r == Replacement(None, None, None)
    ensures field in replacements ==> r == replacements[field]
  {
    if field in replacements then replacements[field] else Replacement(None, None, None)
  }

  /** The segments of a path, each becoming one crumb: `path.slice(1).split("/")`. */
  function Segments(path: string): (r: seq<string>)
    ensures |r| >= 1
  {
    Split(Drop1(path), '/')
  }

  /** The crumb for the segment at index i of `path`. */
  function CrumbAt(path: string, replacements: map<string, Replacement>, i: nat): Crumb
    requires i < |Segments(path)|
  {
    var field := Segments(path)[i];
    var r := ReplacementFor(replacements, field);
    Crumb(
      OrElse(r.name, OrElse(MenuTag(field), Capitalize(field))),
      OrElse(r.uri, Join(Take(Split(path, '/'), i + 2), '/')),
      OrElse(r.style, ""))
  }

  /** The crumbs for the current path, undefined when the path is. */
  function Crumbs(path: Option<string>, replacements: map<string, Replacement>): (r: Option<seq<Crumb>>)
    ensures r.Some? <==> path.Some?
    ensures r.Some? ==> |r.value| == |Segments(path.value)| >= 1
    ensures r.Some? ==> forall i :: 0 <= i < |r.value| ==> r.value[i] == CrumbAt(path.value, replacements, i)
  {
    match path
    case None => None
    case Some(p) =>
      Some(seq(|Segments(p)|, i requires 0 <= i < |Segments(p)| => CrumbAt(p, replacements, i)))
  }

  /**
   * There is one crumb per "/"-separated piece of the path after its first
   * character, empty pieces included.
   */
  lemma CrumbCount(path: string, replacements: map<string, Replacement>)
    ensures |Crumbs(Some(path), replacements).value| == Count(Drop1(path), '/') + 1
  {
    SplitCount(Drop1(path), '/');
  }

  /** Name precedence: a non-empty replacement name, else the menu label, else `capitalize`. */
  lemma CrumbName(path: string, replacements: map<string, Replacement>, i: nat)
    requires i < |Segments(path)|
    ensures var field := Segments(path)[i];
      CrumbAt(path, replacements, i).name ==
        if field in replacements && replacements[field].name.Some? && replacements[field].name.value != []
        then replacements[field].name.value
        else if field in MenuTags then MenuTags[field]
        else Capitalize(field)
  {
  }

  /** Style: a non-empty replacement style, else the empty style. */
  lemma CrumbStyle(path: string, replacements: map<string, Replacement>, i: nat)
    requires i < |Segments(path)|
    ensures var field := Segments(path)[i];
      CrumbAt(path, replacements, i).style ==
        if field in replacements && replacements[field].style.Some? && replacements[field].style.value != []
        then replacements[field].style.value
        else []
  {
  }

  /** Whether the segment at index i carries a non-empty replacement uri. */
  predicate HasUriReplacement(path: string, replacements: map<string, Replacement>, i: nat)
    requires i < |Segments(path)|
  {
    var field := Segments(path)[i];
    field in replacements && replacements[field].uri.Some? && replacements[field].uri.value != []
  }

  /**
   * Without a replacement uri, a crumb links to a prefix of the path, and the
   * last crumb links to the whole path.
   */
  lemma {:induction false} CrumbUriIsPrefix(path: string, replacements: map<string, Replacement>, i: nat)
    requires i < |Segments(path)|
    requires !HasUriReplacement(path, replacements, i)
    ensures CrumbAt(path, replacements, i).uri <= path
    ensures i == |Segments(path)| - 1 ==> CrumbAt(path, replacements, i).uri == path
  {
    var pieces := Split(path, '/');
    var taken := Take(pieces, i + 2);
    JoinSplit(path, '/');
    SplitCount(path, '/');
    SplitCount(Drop1(path), '/');
    if |path| > 0 {
      assert Count(path, '/') == (if path[0] == '/' then 1 else 0) + Count(Drop1(path), '/') by {
        assert path[1..] == Drop1(path);
      }
    }
    if i + 2 <= |pieces| {
      JoinPrefix(pieces, i + 2, '/');
      assert taken == pieces[..i + 2];
      if i == |Segments(path)| - 1 {
        assert i + 2 == |pieces|;
        assert pieces[..i + 2] == pieces;
      }
    } else {
      assert taken == pieces;
    }
  }

  /** For a path starting with "/", the split of the path is the split of its tail after an empty piece. */
  lemma SplitRooted(path: string)
    requires |path| > 0 && path[0] == '/'
    ensures Split(path, '/') == [[]] + Segments(path)
  {
    assert path[1..] == Drop1(path);
  }

  /**
   * For a path starting with "/" and no replacement uri, crumb i links to "/"
   * followed by the first i+1 segments re-joined, so "/a/b/c" gives "/a",
   * "/a/b" and "/a/b/c".
   */
  lemma CrumbUriRooted(path: string, replacements: map<string, Replacement>, i: nat)
    requires |path| > 0 && path[0] == '/'
    requires i < |Segments(path)|
    requires !HasUriReplacement(path, replacements, i)
    ensures CrumbAt(path, replacements, i).uri == ['/'] + Join(Segments(path)[..i + 1], '/')
  {
    var segs := Segments(path);
    SplitRooted(path);
    var taken := ([[]] + segs)[..i + 2];
    assert taken == [[]] + segs[..i + 1];
    assert taken[1..] == segs[..i + 1];
  }

  /** Along a path starting with "/", crumb uris strictly lengthen. */
  lemma CrumbUrisLengthen(path: string, replacements: map<string, Replacement>, i: nat)
    requires |path| > 0 && path[0] == '/'
    requires i + 1 < |Segments(path)|
    requires !HasUriReplacement(path, replacements, i)
    requires !HasUriReplacement(path, replacements, i + 1)
    ensures |CrumbAt(path, replacements, i).uri| < |CrumbAt(path, replacements, i + 1).uri|
  {
    CrumbUriRooted(path, replacements, i);
    CrumbUriRooted(path, replacements, i + 1);
    JoinPrefix(Segments(path), i + 1, '/');
  }

  /**
   * A replacement applies wherever its segment occurs: two crumbs for the
   * same segment agree on name and style, and on uri when the replacement
   * gives one.
   */
  lemma ReplacementIgnoresPosition(path: string, replacements: map<string, Replacement>, i: nat, j: nat)
    requires i < |Segments(path)| && j < |Segments(path)|
    requires Segments(path)[i] == Segments(path)[j]
    ensures CrumbAt(path, replacements, i).name == CrumbAt(path, replacements, j).name
    ensures CrumbAt(path, replacements, i).style == CrumbAt(path, replacements, j).style
    ensures HasUriReplacement(path, replacements, i) ==>
      CrumbAt(path, replacements, i).uri == CrumbAt(path, replacements, j).uri
        == replacements[Segments(path)[i]].uri.value
  {
  }

  /** The root path gives one crumb with an empty name, linking to "/". */
  lemma RootPathExample()
    ensures Crumbs(Some("/"), map[]) == Some([Crumb("", "/", "")])
  {
    assert Drop1("/") == [];
    assert Segments("/") == [[]];
    CapitalizeLength([]);
    CrumbUriIsPrefix("/", map[], 0);
    var c := CrumbAt("/", map[], 0);
    assert c.name == [] && c.uri == "/" && c.style == [];
    assert Crumbs(Some("/"), map[]).value == [c];
  }

  /** A trailing slash keeps its empty last piece: "/a/" gives two crumbs. */
  lemma TrailingSlashExample()
    ensures |Crumbs(Some("/a/"), map[]).value| == 2
  {
    assert Drop1("/a/") == "a/";
    assert Segments("/a/") == Split("a/", '/');
    assert "a/"[1..] == "/" && "/"[1..] == "" && "a/"[0] == 'a';
    var rest := Split("/", '/');
    assert rest == [[], []];
    assert Split("a/", '/') == [['a'] + rest[0]] + rest[1..];
  }

  /** A `facility` segment without a replacement is labelled "Facilities", wherever it occurs. */
  lemma FacilityLabelExample(path: string, replacements: map<string, Replacement>, i: nat)
    requires i < |Segments(path)| && Segments(path)[i] == "facility"
    requires "facility" !in replacements
    ensures CrumbAt(path, replacements, i).name == "Facilities"
  {
    CrumbName(path, replacements, i);
  }

  // ---------------------------------------------------------------------
  // Rendering

  /** One element of the breadcrumb list, left to right. */
  datatype Item =
    | BackButton
    | HomeLink
    | Ellipsis
    | CrumbLink(name: string, uri: string, style: string)
    | CrumbText(name: string, style: string)

  /** A crumb rendered as a link to its uri. */
  function LinkTo(c: Crumb): Item { CrumbLink(c.name, c.uri, c.style) }

  /** A crumb rendered as plain text. */
  function TextOf(c: Crumb): Item { CrumbText(c.name, c.style) }

  /** `renderCrumb`: the last crumb is plain text, any other a link to its uri. */
  function RenderCrumb(c: Crumb, index: int, count: int): (r: Item)
    ensures r.CrumbText? <==> index == count - 1
    ensures r.CrumbText? ==> r == TextOf(c)
    ensures r.CrumbLink? ==> r == LinkTo(c)
  {
    if index == count - 1 then TextOf(c) else LinkTo(c)
  }

  /** `crumbs.slice(0, -1).map(renderCrumb)`. */
  function RenderLeading(crumbs: seq<Crumb>): (r: seq<Item>)
    requires |crumbs| >= 1
    ensures |r| == |crumbs| - 1
    ensures forall j :: 0 <= j < |r| ==> r[j] == RenderCrumb(crumbs[j], j, |crumbs|)
  {
    seq(|crumbs| - 1, j requires 0 <= j < |crumbs| - 1 => RenderCrumb(crumbs[j], j, |crumbs|))
  }

  /** The items after Home: collapsed or expanded middle, then the last crumb. */
  function Trail(crumbs: seq<Crumb>, showFullPath: bool): seq<Item>
    requires |crumbs| >= 1
  {
    var n := |crumbs|;
    (if n > 1 then
       (if !showFullPath then [Ellipsis] else []) + (if showFullPath then RenderLeading(crumbs) else [])
     else [])
    + [RenderCrumb(crumbs[n - 1], n - 1, n)]
  }

  /** The items before the crumbs: Back unless hidden, then Home. */
  function Head(hideBack: bool): seq<Item>
  {
    (if !hideBack then [BackButton] else []) + [HomeLink]
  }

  /**
   * The whole `ol` body for the derived crumbs (undefined when the path is);
   * derived crumbs are never an empty list.
   */
  function View(crumbs: Option<seq<Crumb>>, hideBack: bool, showFullPath: bool): seq<Item>
    requires crumbs.Some? ==> |crumbs.value| >= 1
  {
    Head(hideBack) +
    match crumbs
    case None => []
    case Some(cs) => Trail(cs, showFullPath)
  }

  /** Back is shown exactly when not hidden, and Home always comes first among the rest. */
  lemma ViewStartsWithHome(crumbs: Option<seq<Crumb>>, hideBack: bool, showFullPath: bool)
    requires crumbs.Some? ==> |crumbs.value| >= 1
    ensures var v := View(crumbs, hideBack, showFullPath);
      var h := if hideBack then 0 else 1;
      |v| > h && v[h] == HomeLink &&
      (BackButton in v <==> !hideBack) &&
      (!hideBack ==> v[0] == BackButton) &&
      (forall k :: h < k < |v| ==> v[k] != HomeLink)
  {
    var v := View(crumbs, hideBack, showFullPath);
    var h := if hideBack then 0 else 1;
    var hd := Head(hideBack);
    assert |hd| == h + 1 && hd[h] == HomeLink;
    if crumbs.Some? {
      var cs := crumbs.value;
      var t := Trail(cs, showFullPath);
      assert v == hd + t;
      forall k | h < k < |v| ensures v[k] != HomeLink && v[k] != BackButton {
        var j := k - h - 1;
        assert v[k] == t[j];
        if |cs| > 1 && showFullPath && j < |cs| - 1 {
          assert t[j] == RenderLeading(cs)[j];
        }
      }
    }
  }

  /** Without a path only Back (unless hidden) and Home are shown. */
  lemma ViewWithoutPath(hideBack: bool, showFullPath: bool)
    ensures View(None, hideBack, showFullPath) == Head(hideBack)
  {
  }

  /** A single crumb is shown on its own, as plain text. */
  lemma ViewSingleCrumb(c: Crumb, hideBack: bool, showFullPath: bool)
    ensures View(Some([c]), hideBack, showFullPath) == Head(hideBack) + [TextOf(c)]
  {
  }

  /** Several crumbs, not expanded: the ellipsis, then only the last crumb as text. */
  lemma ViewCollapsed(crumbs: seq<Crumb>, hideBack: bool)
    requires |crumbs| > 1
    ensures View(Some(crumbs), hideBack, false) == Head(hideBack) + [Ellipsis, TextOf(crumbs[|crumbs| - 1])]
  {
  }

  /**
   * Expanded: every crumb in order, each a link to its uri except the last,
   * which is plain text; no ellipsis.
   */
  lemma ViewExpanded(crumbs: seq<Crumb>, hideBack: bool)
    requires |crumbs| > 1
    ensures var n := |crumbs|;
      var v := View(Some(crumbs), hideBack, true);
      var h := |Head(hideBack)|;
      |v| == h + n && Ellipsis !in v &&
      (forall j :: 0 <= j < n - 1 ==> v[h + j] == LinkTo(crumbs[j])) &&
      v[h + n - 1] == TextOf(crumbs[n - 1])
  {
    var n := |crumbs|;
    var v := View(Some(crumbs), hideBack, true);
    var hd := Head(hideBack);
    var lead := RenderLeading(crumbs);
    var t := Trail(crumbs, true);
    assert t == lead + [TextOf(crumbs[n - 1])];
    assert v == hd + t;
    forall j | 0 <= j < n - 1 ensures v[|hd| + j] == LinkTo(crumbs[j]) {
      assert v[|hd| + j] == lead[j];
    }
    forall k | 0 <= k < |v| ensures v[k] != Ellipsis {
      if |hd| <= k < |hd| + n - 1 { assert v[k] == lead[k - |hd|]; }
    }
  }

  /** In every rendering, plain text appears only as the very last item, for the last crumb. */
  lemma ViewTextOnlyLast(crumbs: seq<Crumb>, hideBack: bool, showFullPath: bool)
    requires |crumbs| >= 1
    ensures var v := View(Some(crumbs), hideBack, showFullPath);
      v[|v| - 1] == TextOf(crumbs[|crumbs| - 1]) &&
      forall k :: 0 <= k < |v| - 1 ==> !v[k].CrumbText?
  {
    if |crumbs| > 1 && showFullPath {
      ViewExpanded(crumbs, hideBack);
    }
  }

  /** In every rendering, each crumb link is the link of a crumb other than the last, in crumb order. */
  lemma ViewLinksAreLeading(crumbs: seq<Crumb>, hideBack: bool, showFullPath: bool)
    requires |crumbs| >= 1
    ensures var v := View(Some(crumbs), hideBack, showFullPath);
      var h := |Head(hideBack)|;
      forall k :: 0 <= k < |v| && v[k].CrumbLink? ==>
        h <= k < h + |crumbs| - 1 && v[k] == LinkTo(crumbs[k - h])
  {
    if |crumbs| > 1 && showFullPath {
      ViewExpanded(crumbs, hideBack);
    }
  }

  // ---------------------------------------------------------------------
  // Back control

  /** What `onBackClick()` returned: `true`, `false` or nothing (`undefined`). */
  datatype BackVerdict = ReturnedTrue | ReturnedFalse | ReturnedNothing

  /**
   * Whether a Back click goes on to navigate: only an interceptor that is
   * present and returns exactly `false` cancels. `interceptor` is None when
   * no `onBackClick` was given.
   */
  function BackProceeds(interceptor: Option<BackVerdict>): (r: bool)
    ensures !r <==> interceptor == Some(ReturnedFalse)
  {
    !(interceptor.Some? && interceptor.value == ReturnedFalse)
  }

  // ---------------------------------------------------------------------
  // Component state

  /**
   * One mounted breadcrumb widget: its props, the `showFullPath` flag and the
   * record of `goBack` requests it has made.
   */
  class BreadcrumbsWidget {
    const replacements: map<string, Replacement>
    const hideBack: bool
    const backUrl: Option<string>
    var showFullPath: bool
    var backRequests: seq<Option<string>>

    constructor (replacements: map<string, Replacement>, hideBack: bool, backUrl: Option<string>)
      ensures this.replacements == replacements && this.hideBack == hideBack && this.backUrl == backUrl
      ensures !showFullPath && backRequests == []
    {
      this.replacements := replacements;
      this.hideBack := hideBack;
      this.backUrl := backUrl;
      showFullPath := false;
      backRequests := [];
    }

    /** What the widget shows for the current path. */
    function Render(path: Option<string>): seq<Item>
      reads this
    {
      View(Crumbs(path, replacements), hideBack, showFullPath)
    }

    /** The ellipsis click: the full path is shown from now on. */
    method ExpandPath()
      modifies this`showFullPath
      ensures showFullPath
      ensures forall path :: Render(path) == View(Crumbs(path, replacements), hideBack, true)
    {
      showFullPath := true;
    }

    /**
     * A click on Back (shown only when not hidden): `goBack(backUrl)` is
     * requested unless the interceptor cancels; the flag is untouched.
     */
    method BackClick(interceptor: Option<BackVerdict>)
      requires !hideBack
      modifies this`backRequests
      ensures backRequests == old(backRequests) + (if interceptor == Some(ReturnedFalse) then [] else [backUrl])
      ensures showFullPath == old(showFullPath)
    {
      if BackProceeds(interceptor) {
        backRequests := backRequests + [backUrl];
      }
    }
  }

  /** Once expanded, the widget stays expanded through any later events. */
  method ExpandIsPermanent(w: BreadcrumbsWidget, interceptor: Option<BackVerdict>)
    requires !w.hideBack
    modifies w
  {
    w.ExpandPath();
    w.BackClick(interceptor);
    assert w.showFullPath;
  }
}
