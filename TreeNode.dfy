/**
 * The group tree: one TreeNode component per group. Each keeps its own
 * `expanded` state, chosen when the component is created and flipped by a
 * click on the expand control; its children get the next level and are
 * shown only while every ancestor is expanded.
 */
module TreeView {
  import opened Wrappers
  import opened Text

  /** An icon number or name as it comes with a group. */
  datatype IconId = Number(n: nat) | Name(s: string)

  /** A group as the tree receives it; an absent property is `None`. */
  datatype Node = Node(
    name: string,
    expanded: Option<bool>,
    children: ChildList,
    icon: Option<IconId>,
    customIconUuid: Option<string>)

  /** A group's `children` property: absent, or a list (which is truthy even when empty). */
  datatype ChildList = NoChildren | ChildList(nodes: seq<Node>)

  /** The tree's options (the viewer's props); an absent property is `None`. */
  datatype Options = Options(
    levels: Option<int>,
    showBorder: Option<bool>,
    borderColor: Option<string>,
    expandIcon: Option<string>,
    collapseIcon: Option<string>,
    emptyIcon: Option<string>,
    nodeIcon: Option<IconId>,
    nodeClick: bool)

  /** `a || b` on an optional string: the empty string is falsy. */
  function Or(a: Option<string>, b: string): (r: string)
    ensures a.Some? && a.value != "" ==> r == a.value
    ensures a.None? || a.value == "" ==> r == b
  {
    if a.Some? && a.value != "" then a.value else b
  }

  predicate IconTruthy(i: Option<IconId>) {
    match i
    case None => false
    case Some(Number(n)) => n != 0
    case Some(Name(s)) => s != ""
  }

  /** The string an icon id becomes when it is passed on. */
  function IconText(i: IconId): string {
    match i
    case Number(n) => NatToString(n)
    case Name(s) => s
  }

  // ---------------------------------------------------------------------------
  // The expansion default
  // ---------------------------------------------------------------------------

  /** `options.levels || 3`: an absent or zero depth counts as 3. */
  function Levels(options: Options): (r: int)
    ensures options.levels.None? || options.levels == Some(0) ==> r == 3
    ensures options.levels.Some? && options.levels.value != 0 ==> r == options.levels.value
  {
    if options.levels.Some? && options.levels.value != 0 then options.levels.value else 3
  }

  /**
   * The constructor's `expanded`: the node's own property when it has one,
   * otherwise whether the node's level is below the configured depth.
   */
  function InitialExpanded(node: Node, level: int, options: Options): (r: bool)
    ensures node.expanded.Some? ==> r == node.expanded.value
    ensures node.expanded.None? && (options.levels.None? || options.levels == Some(0)) ==> (r <==> level < 3)
    ensures node.expanded.None? && options.levels.Some? && options.levels.value != 0 ==>
              (r <==> level < options.levels.value)
  {
    if node.expanded.Some? then node.expanded.value else level < Levels(options)
  }

  /** With the default depth, the first two levels open expanded and deeper ones collapsed. */
  lemma DefaultDepth(node: Node, options: Options)
    requires node.expanded.None? && options.levels.None?
    ensures InitialExpanded(node, 1, options) && InitialExpanded(node, 2, options)
    ensures forall level :: level >= 3 ==> !InitialExpanded(node, level, options)
  {
  }

  // ---------------------------------------------------------------------------
  // Parts of one row
  // ---------------------------------------------------------------------------

  /** The number of indent spans: one fewer than the level, and none at level 1 or below. */
  function IndentCount(level: int): (r: nat)
    ensures level >= 1 ==> r + 1 == level
    ensures level < 1 ==> r == 0
  {
    if level > 1 then level - 1 else 0
  }

  /** The expand control: a clickable toggle for a node with a children list, a placeholder otherwise. */
  datatype Control = Toggle(className: string) | Placeholder(className: string)

  function ExpandControl(node: Node, expanded: bool, options: Options): (r: Control)
    ensures r.Toggle? <==> node.children.ChildList?
    ensures r.Toggle? && !expanded ==> r.className == Or(options.expandIcon, "glyphicon glyphicon-plus")
    ensures r.Toggle? && expanded ==> r.className == Or(options.collapseIcon, "glyphicon glyphicon-minus")
    ensures r.Placeholder? ==> r.className == Or(options.emptyIcon, "glyphicon glyphicon-none")
  {
    if node.children.ChildList? then
      if !expanded then Toggle(Or(options.expandIcon, "glyphicon glyphicon-plus"))
      else Toggle(Or(options.collapseIcon, "glyphicon glyphicon-minus"))
    else Placeholder(Or(options.emptyIcon, "glyphicon glyphicon-none"))
  }

  /**
   * With the default icons, a node with a children list shows plus when
   * collapsed and minus when expanded, even when the list is empty, and a
   * click swaps the two; a node without one never gets a toggle.
   */
  lemma ControlFlips(node: Node, expanded: bool, options: Options)
    requires options.expandIcon.None? && options.collapseIcon.None?
    ensures node.children.ChildList? ==>
      ExpandControl(node, expanded, options) ==
        Toggle(if expanded then "glyphicon glyphicon-minus" else "glyphicon glyphicon-plus") &&
      ExpandControl(node, !expanded, options) != ExpandControl(node, expanded, options)
    ensures node.children.NoChildren? ==>
      ExpandControl(node, !expanded, options) == ExpandControl(node, expanded, options)
  {
  }

  /** Where a node's icon comes from: an uploaded icon by its uuid, or a built-in icon. */
  datatype IconRef = Custom(file: string) | Builtin(id: string)

  /**
   * A node's icon: its custom icon when it has a non-empty uuid, with every
   * `/` turned into `_`; otherwise the first truthy of its own icon, the
   * tree's default icon, and icon 48.
   */
  function Icon(node: Node, options: Options): (r: IconRef)
    ensures r.Custom? <==> node.customIconUuid.Some? && node.customIconUuid.value != ""
    ensures r.Custom? ==> '/' !in r.file && |r.file| == |node.customIconUuid.value|
    ensures r.Custom? ==> forall i :: 0 <= i < |r.file| ==>
      r.file[i] == if node.customIconUuid.value[i] == '/' then '_' else node.customIconUuid.value[i]
    ensures r.Builtin? && IconTruthy(node.icon) ==> r.id == IconText(node.icon.value)
    ensures r.Builtin? && !IconTruthy(node.icon) && IconTruthy(options.nodeIcon) ==> r.id == IconText(options.nodeIcon.value)
    ensures r.Builtin? && !IconTruthy(node.icon) && !IconTruthy(options.nodeIcon) ==> r.id == "48"
  {
    if node.customIconUuid.Some? && node.customIconUuid.value != "" then
      var file := ReplaceChar(node.customIconUuid.value, '/', '_');
      assert '/' !in file by {
        forall i | 0 <= i < |file| ensures file[i] != '/' {
        }
      }
      Custom(file)
    else if IconTruthy(node.icon) then Builtin(IconText(node.icon.value))
    else if IconTruthy(options.nodeIcon) then Builtin(IconText(options.nodeIcon.value))
    else Builtin("48")
  }

  /**
   * The icon's address; `encode` is the browser's URI component encoding.
   * Custom icons live under `img/icon/`, built-in ones under `img/icons/`
   * with a `.png` suffix.
   */
  function IconUrl(r: IconRef, encode: string -> string): (url: string)
    ensures r.Custom? ==> url == "img/icon/" + encode(r.file)
    ensures r.Builtin? ==> url == "img/icons/" + encode(r.id) + ".png"
  {
    match r
    case Custom(file) => "img/icon/" + encode(file)
    case Builtin(id) => "img/icons/" + encode(id) + ".png"
  }

  /** The two kinds of icon address never coincide: the directory names differ. */
  lemma IconUrlKinds(a: IconRef, b: IconRef, encode: string -> string)
    requires a.Custom? && b.Builtin?
    ensures IconUrl(a, encode) != IconUrl(b, encode)
  {
    var u := IconUrl(a, encode);
    var v := IconUrl(b, encode);
    assert u[8] == '/' && v[8] == 's';
  }

  /** An inline style: `display: none`, a border value, or no style at all. */
  datatype Style = Hidden | Border(border: string) | NoStyle

  /** The result of `render` as written: a style, or the TypeError the source raises. */
  datatype Rendered = Styled(style: Style) | TypeError

  /** `showBorder`: on when the option is absent, and otherwise the option's value. */
  function ShowBorder(options: Options): (r: bool)
    ensures options.showBorder.None? ==> r
    ensures options.showBorder.Some? ==> r == options.showBorder.value
  {
    if options.showBorder.None? then true else options.showBorder.value
  }

  /**
   * The row style as written: a visible row assigns to a property of the
   * still undefined `style`, which raises a TypeError as soon as the border
   * is switched off or a colour is given.
   */
  function StyleAsWritten(visible: bool, options: Options): (r: Rendered)
    ensures r == TypeError <==>
      visible && (!ShowBorder(options) || (options.borderColor.Some? && options.borderColor.value != ""))
    ensures r.Styled? ==> r.style == if visible then NoStyle else Hidden
  {
    if !visible then Styled(Hidden)
    else if !ShowBorder(options) then TypeError
    else if options.borderColor.Some? && options.borderColor.value != "" then TypeError
    else Styled(NoStyle)
  }

  /** A visible row of a tree whose border is switched off cannot be rendered as written. */
  lemma BorderlessTreeFails(options: Options)
    requires options.showBorder == Some(false)
    ensures StyleAsWritten(true, options) == TypeError && RowStyle(true, options) == Border("none")
  {
  }

  /**
   * The row style the component evidently means: hidden rows get
   * `display: none`; visible ones get no border when it is switched off, a
   * one-pixel border in the given colour, or no style.
   */
  function RowStyle(visible: bool, options: Options): (r: Style)
    ensures r == Hidden <==> !visible
    ensures visible && !ShowBorder(options) ==> r == Border("none")
    ensures visible && ShowBorder(options) && options.borderColor.Some? && options.borderColor.value != "" ==>
              r == Border("1px solid " + options.borderColor.value)
    ensures visible && ShowBorder(options) && (options.borderColor.None? || options.borderColor.value == "") ==>
              r == NoStyle
  {
    if !visible then Hidden
    else if !ShowBorder(options) then Border("none")
    else if options.borderColor.Some? && options.borderColor.value != "" then
      Border("1px solid " + options.borderColor.value)
    else NoStyle
  }

  /** Wherever the code as written renders at all, it renders the intended style. */
  lemma StyleAgrees(visible: bool, options: Options)
    ensures StyleAsWritten(visible, options).Styled? ==> StyleAsWritten(visible, options).style == RowStyle(visible, options)
  {
  }

  /** What a click on a row passes to the tree's `nodeClick` handler, if there is one. */
  function Selected(node: Node, options: Options): (r: Option<Node>)
    ensures r.Some? <==> options.nodeClick
    ensures r.Some? ==> r.value == node
  {
    if options.nodeClick then Some(node) else None
  }

  // ---------------------------------------------------------------------------
  // The mounted tree
  // ---------------------------------------------------------------------------

  /** A mounted TreeNode component: its node, its `expanded` state and its child components. */
  datatype Comp = Comp(node: Node, expanded: bool, kids: seq<Comp>)

  function Children(node: Node): seq<Node> {
    if node.children.ChildList? then node.children.nodes else []
  }

  /** Mounting a node at `level` creates its component and, one level deeper, its children's (hidden or not). */
  function Mount(node: Node, level: int, options: Options): (c: Comp)
    ensures c.node == node && c.expanded == InitialExpanded(node, level, options)
    ensures |c.kids| == |Children(node)|
    decreases node, 1
  {
    Comp(node, InitialExpanded(node, level, options), MountAll(node, level + 1, options))
  }

  function MountAll(parent: Node, level: int, options: Options): (cs: seq<Comp>)
    ensures |cs| == |Children(parent)|
    ensures forall i :: 0 <= i < |cs| ==> cs[i] == Mount(Children(parent)[i], level, options)
    decreases parent, 0
  {
    match parent.children
    case NoChildren => []
    case ChildList(kids) =>
      seq(|kids|, i requires 0 <= i < |kids| => assert kids[i] in kids; Mount(kids[i], level, options))
  }

  /** Every mounted component picked its default `expanded` for its own depth below the mounting level. */
  lemma {:induction false} MountLevels(node: Node, level: int, options: Options, path: seq<nat>)
    requires ValidPath(Mount(node, level, options), path)
    ensures At(Mount(node, level, options), path).expanded ==
      InitialExpanded(At(Mount(node, level, options), path).node, level + |path|, options)
    decreases |path|
  {
    if path != [] {
      var kid := Children(node)[path[0]];
      assert Mount(node, level, options).kids[path[0]] == Mount(kid, level + 1, options);
      MountLevels(kid, level + 1, options, path[1..]);
    }
  }

  /** A path of child indices from a component to one of its descendants. */
  predicate ValidPath(c: Comp, path: seq<nat>)
    decreases |path|
  {
    path == [] || (path[0] < |c.kids| && ValidPath(c.kids[path[0]], path[1..]))
  }

  function At(c: Comp, path: seq<nat>): Comp
    requires ValidPath(c, path)
    decreases |path|
  {
    if path == [] then c else At(c.kids[path[0]], path[1..])
  }

  /** Every component strictly above the end of `path` is expanded. */
  predicate AncestorsExpanded(c: Comp, path: seq<nat>)
    requires ValidPath(c, path)
    decreases |path|
  {
    path == [] || (c.expanded && AncestorsExpanded(c.kids[path[0]], path[1..]))
  }

  /** `toggleExpanded` on the component at `path`. */
  function ToggleAt(c: Comp, path: seq<nat>): (r: Comp)
    requires ValidPath(c, path)
    ensures r.node == c.node && |r.kids| == |c.kids|
    ensures path != [] ==> r.expanded == c.expanded
    ensures path == [] ==> r.expanded == !c.expanded && r.kids == c.kids
    decreases |path|
  {
    if path == [] then c.(expanded := !c.expanded)
    else c.(kids := c.kids[path[0] := ToggleAt(c.kids[path[0]], path[1..])])
  }

  /** Toggling flips the chosen component and leaves every other one, and the shape of the tree, as it was. */
  lemma {:induction false} ToggleOnlyThat(c: Comp, p: seq<nat>, q: seq<nat>)
    requires ValidPath(c, p)
    ensures ValidPath(ToggleAt(c, p), q) == ValidPath(c, q)
    ensures ValidPath(c, q) ==>
      At(ToggleAt(c, p), q).node == At(c, q).node &&
      At(ToggleAt(c, p), q).expanded == (if q == p then !At(c, q).expanded else At(c, q).expanded)
    decreases |q|
  {
    if q != [] && p != [] && q[0] < |c.kids| {
      if q[0] == p[0] {
        ToggleOnlyThat(c.kids[p[0]], p[1..], q[1..]);
        assert q == p <==> q[1..] == p[1..];
      } else {
        assert q != p;
      }
    }
  }

  /**
   * Toggling a component changes whether another is shown only when the
   * other lies strictly below it.
   */
  lemma {:induction false} ToggleShowsOnlyBelow(c: Comp, p: seq<nat>, q: seq<nat>)
    requires ValidPath(c, p) && ValidPath(c, q)
    requires !(|p| < |q| && q[..|p|] == p)
    ensures ValidPath(ToggleAt(c, p), q)
    ensures AncestorsExpanded(ToggleAt(c, p), q) == AncestorsExpanded(c, q)
    decreases |q|
  {
    ToggleOnlyThat(c, p, q);
    if q != [] {
      var r := ToggleAt(c, p);
      if p != [] && q[0] == p[0] {
        if |p| < |q| {
          assert q[..|p|] == [q[0]] + q[1..][..|p[1..]|];
          assert p == [p[0]] + p[1..];
        }
        ToggleShowsOnlyBelow(c.kids[p[0]], p[1..], q[1..]);
      } else {
        assert p != [];
        assert r.kids[q[0]] == c.kids[q[0]];
      }
    }
  }

  // ---------------------------------------------------------------------------
  // The rows
  // ---------------------------------------------------------------------------

  /** One rendered `li`: where it sits in the component tree, its level, and whether it is shown. */
  datatype Row = Row(path: seq<nat>, level: int, visible: bool, expanded: bool, name: string)

  /** Rows of `c` rendered at `level`, with the parent's `visible`, in document order. */
  function Render(c: Comp, level: int, visible: bool): (r: seq<Row>)
    ensures |r| >= 1 && r[0] == Row([], level, visible, c.expanded, c.node.name)
    ensures forall k :: 1 <= k < |r| ==> r[k].path != [] && r[k].path[0] < |c.kids|
    decreases c, |c.kids| + 1
  {
    [Row([], level, visible, c.expanded, c.node.name)] + RenderKids(c, 0, level + 1, c.expanded && visible)
  }

  /** The rows of the children of `c` from index `i` on, each with `level` and `visible`; paths start at the child's index. */
  function RenderKids(c: Comp, i: nat, level: int, visible: bool): (r: seq<Row>)
    requires i <= |c.kids|
    ensures forall k :: 0 <= k < |r| ==> r[k].path != [] && i <= r[k].path[0] < |c.kids|
    decreases c, |c.kids| - i
  {
    if i == |c.kids| then []
    else Under(i, Render(c.kids[i], level, visible)) + RenderKids(c, i + 1, level, visible)
  }

  /** The rows of a child, with their paths taken from the parent. */
  function Under(i: nat, rows: seq<Row>): (r: seq<Row>)
    ensures |r| == |rows|
    ensures forall k :: 0 <= k < |r| ==> r[k] == rows[k].(path := [i] + rows[k].path)
  {
    seq(|rows|, k requires 0 <= k < |rows| => rows[k].(path := [i] + rows[k].path))
  }

  /** What every row of a rendering says about the component it stands for. */
  predicate RowFits(c: Comp, level: int, visible: bool, row: Row) {
    ValidPath(c, row.path) &&
    row.level == level + |row.path| &&
    row.expanded == At(c, row.path).expanded &&
    row.name == At(c, row.path).node.name &&
    (row.visible <==> visible && AncestorsExpanded(c, row.path))
  }

  /**
   * Each row stands for a component of the tree, one level deeper per step
   * down, and is shown exactly when the rendering was shown and every
   * ancestor is expanded.
   */
  lemma {:induction false} RenderFits(c: Comp, level: int, visible: bool)
    ensures forall row :: row in Render(c, level, visible) ==> RowFits(c, level, visible, row)
    decreases c, |c.kids| + 1
  {
    var head := Row([], level, visible, c.expanded, c.node.name);
    var kids := RenderKids(c, 0, level + 1, c.expanded && visible);
    KidsFit(c, 0, level, visible);
    assert RowFits(c, level, visible, head);
    assert Render(c, level, visible) == [head] + kids;
  }

  /** The rows of the children of `c` from index `i` on fit `c`, one level below it. */
  lemma {:induction false} KidsFit(c: Comp, i: nat, level: int, visible: bool)
    requires i <= |c.kids|
    ensures forall row :: row in RenderKids(c, i, level + 1, c.expanded && visible) ==> RowFits(c, level, visible, row)
    decreases c, |c.kids| - i
  {
    if i < |c.kids| {
      var kid := c.kids[i];
      var sub := Render(kid, level + 1, c.expanded && visible);
      RenderFits(kid, level + 1, c.expanded && visible);
      KidsFit(c, i + 1, level, visible);
      forall row | row in Under(i, sub) ensures RowFits(c, level, visible, row) {
        var k :| 0 <= k < |sub| && Under(i, sub)[k] == row;
        var p := sub[k].path;
        assert RowFits(kid, level + 1, c.expanded && visible, sub[k]);
        assert row.path == [i] + p;
        assert ([i] + p)[0] == i && ([i] + p)[1..] == p;
      }
    }
  }

  /** Every component of the tree has a row in its rendering. */
  lemma {:induction false} RenderCovers(c: Comp, level: int, visible: bool, path: seq<nat>)
    requires ValidPath(c, path)
    ensures exists row :: row in Render(c, level, visible) && row.path == path
    decreases c, |c.kids| + 1
  {
    var rows := Render(c, level, visible);
    if path == [] {
      assert rows[0] in rows && rows[0].path == [];
    } else {
      KidsCover(c, 0, level + 1, c.expanded && visible, path);
    }
  }

  lemma {:induction false} KidsCover(c: Comp, i: nat, level: int, visible: bool, path: seq<nat>)
    requires path != [] && i <= path[0] < |c.kids| && ValidPath(c, path)
    ensures exists row :: row in RenderKids(c, i, level, visible) && row.path == path
    decreases c, |c.kids| - i
  {
    var rest := RenderKids(c, i + 1, level, visible);
    var here := Under(i, Render(c.kids[i], level, visible));
    assert RenderKids(c, i, level, visible) == here + rest;
    if i == path[0] {
      var rows := Render(c.kids[i], level, visible);
      RenderCovers(c.kids[i], level, visible, path[1..]);
      var k :| 0 <= k < |rows| && rows[k].path == path[1..];
      assert here[k].path == [i] + path[1..] == path;
      assert (here + rest)[k] == here[k];
    } else {
      KidsCover(c, i + 1, level, visible, path);
      var row :| row in rest && row.path == path;
      assert row in here + rest;
    }
  }

  /** What the viewer shows: the root's children as TreeNodes at level 1, all visible. */
  function ViewerRoot(tree: Option<Node>, options: Options): (root: Comp)
    ensures root.expanded
    ensures tree.None? ==> root.kids == []
    ensures tree.Some? ==> |root.kids| == |Children(tree.value)|
    ensures tree.Some? ==> forall i :: 0 <= i < |root.kids| ==> root.kids[i] == Mount(Children(tree.value)[i], 1, options)
  {
    var root := tree.GetOr(Node("", None, NoChildren, None, None));
    Comp(root, true, MountAll(root, 1, options))
  }

  function ViewerRows(tree: Option<Node>, options: Options): (rows: seq<Row>)
    ensures tree.None? ==> rows == []
  {
    var root := ViewerRoot(tree, options);
    RenderKids(root, 0, 1, true)
  }

  /**
   * In the viewer, a row at path `p` sits at level |p| and is shown exactly
   * when every TreeNode above it is expanded; every TreeNode has a row.
   */
  lemma ViewerShowsExpanded(tree: Option<Node>, options: Options)
    ensures forall row :: row in ViewerRows(tree, options) ==>
      |row.path| >= 1 && row.level == |row.path| && ValidPath(ViewerRoot(tree, options), row.path) &&
      (row.visible <==> AncestorsExpanded(ViewerRoot(tree, options).kids[row.path[0]], row.path[1..]))
    ensures forall p :: p != [] && ValidPath(ViewerRoot(tree, options), p) ==>
      exists row :: row in ViewerRows(tree, options) && row.path == p
  {
    var root := ViewerRoot(tree, options);
    KidsFit(root, 0, 0, true);
    forall p | p != [] && ValidPath(root, p) ensures exists row :: row in ViewerRows(tree, options) && row.path == p {
      KidsCover(root, 0, 1, true, p);
    }
    forall row | row in ViewerRows(tree, options)
      ensures |row.path| >= 1 && row.level == |row.path| && ValidPath(root, row.path) &&
        (row.visible <==> AncestorsExpanded(root.kids[row.path[0]], row.path[1..]))
    {
      assert RowFits(root, 0, true, row);
    }
  }

  // ---------------------------------------------------------------------------
  // The component
  // ---------------------------------------------------------------------------

  /** The props a child TreeNode receives. */
  datatype Props = Props(node: Node, level: int, visible: bool)

  /** The parts of one `li`. */
  datatype RowView = RowView(style: Style, indents: seq<nat>, control: Control, icon: IconRef, name: string)

  /** A TreeNode component: its props and its `expanded` state. */
  class TreeNode {
    const node: Node
    const level: int
    const visible: bool
    const options: Options
    var expanded: bool

    constructor (node: Node, level: int, visible: bool, options: Options)
      ensures this.node == node && this.level == level && this.visible == visible && this.options == options
      ensures expanded == InitialExpanded(node, level, options)
    {
      this.node := node;
      this.level := level;
      this.visible := visible;
      this.options := options;
      expanded := InitialExpanded(node, level, options);
    }

    method ToggleExpanded()
      modifies this
      ensures expanded == !old(expanded)
    {
      expanded := !expanded;
    }

    /** The indent spans, by key: one per level above the first. */
    method Indents() returns (keys: seq<nat>)
      ensures |keys| == IndentCount(level)
      ensures forall k :: 0 <= k < |keys| ==> keys[k] == k
    {
      keys := [];
      var i := 0;
      while i < level - 1
        invariant i == |keys| && i <= IndentCount(level)
        invariant forall k :: 0 <= k < |keys| ==> keys[k] == k
      {
        keys := keys + [i];
        i := i + 1;
      }
    }

    /** The props of the child components, in order: one level deeper, shown only while this one is shown and expanded. */
    method ChildProps() returns (props: seq<Props>)
      ensures |props| == |Children(node)|
      ensures forall k :: 0 <= k < |props| ==> props[k] == Props(Children(node)[k], level + 1, expanded && visible)
    {
      props := [];
      if node.children.ChildList? {
        var nodes := node.children.nodes;
        var i := 0;
        while i < |nodes|
          invariant i <= |nodes| && |props| == i
          invariant forall k :: 0 <= k < i ==> props[k] == Props(nodes[k], level + 1, expanded && visible)
        {
          props := props + [Props(nodes[i], level + 1, expanded && visible)];
          i := i + 1;
        }
      }
    }

    /** `render` with the intended style: the row's parts and the children's props. */
    method Render() returns (row: RowView, children: seq<Props>)
      ensures row.style == RowStyle(visible, options) && |row.indents| == IndentCount(level)
      ensures row.control == ExpandControl(node, expanded, options) && row.icon == Icon(node, options)
      ensures row.name == node.name
      ensures |children| == |Children(node)|
      ensures forall k :: 0 <= k < |children| ==> children[k] == Props(Children(node)[k], level + 1, expanded && visible)
    {
      var indents := Indents();
      row := RowView(RowStyle(visible, options), indents, ExpandControl(node, expanded, options), Icon(node, options), node.name);
      children := ChildProps();
    }
  }
}
