/**
 * One node of the menu tree (admin/src/components/TreeMenuItem/index.js): its
 * expanded/collapsed state, the toolbar's action list with each action's
 * `hidden` flag, the box colours, and what the node renders.
 */
module TreeMenuItem {
  import opened Wrappers

  /** The flags the tree container passes to a node. */
  datatype Props = Props(hasErrors: bool, isActive: bool, isFirst: bool, isLast: bool, isMaxDepth: bool)

  /** `TreeMenuItem.defaultProps`: every flag is false. */
  const DefaultProps := Props(false, false, false, false, false)

  /**
   * What clicking an action does: the four container callbacks, whose effect
   * belongs to the container, or setting the node's own `isOpen`.
   */
  datatype Effect = OnAddSubmenu | OnMoveDown | OnMoveUp | OnDelete | SetIsOpen(open: bool)

  /** One toolbar entry `{ hidden, label, onClick }`; `defaultMessage` is the label before translation. */
  datatype Action = Action(hidden: bool, defaultMessage: string, onClick: Effect)

  /** The `actions` array, in the order the node builds it. */
  function Actions(props: Props, isOpen: bool): (r: seq<Action>)
    ensures |r| == 6
  {
    [
      Action(props.isMaxDepth, "Add submenu", OnAddSubmenu),
      Action(props.isLast, "Move item down", OnMoveDown),
      Action(props.isFirst, "Move item up", OnMoveUp),
      Action(false, "Delete menu item", OnDelete),
      Action(isOpen, "Show children", SetIsOpen(true)),
      Action(!isOpen, "Hide children", SetIsOpen(false))
    ]
  }

  /** The effects of the actions that are not hidden, in toolbar order. */
  function VisibleEffects(actions: seq<Action>): (r: seq<Effect>)
    ensures |r| <= |actions|
    ensures forall e :: e in r <==> exists i :: 0 <= i < |actions| && !actions[i].hidden && actions[i].onClick == e
  {
    if |actions| == 0 then []
    else (if actions[0].hidden then [] else [actions[0].onClick]) + VisibleEffects(actions[1..])
  }

  /**
   * The visible actions are: add submenu unless at maximum depth, move down
   * unless last, move up unless first, delete always, and exactly one of the
   * two toggles, the one that flips `isOpen`.
   */
  lemma VisibleActionsAre(props: Props, isOpen: bool)
    ensures VisibleEffects(Actions(props, isOpen)) ==
      (if props.isMaxDepth then [] else [OnAddSubmenu])
      + ((if props.isLast then [] else [OnMoveDown])
      + ((if props.isFirst then [] else [OnMoveUp])
      + [OnDelete, SetIsOpen(!isOpen)]))
  {
    var r := Actions(props, isOpen);
    VisibleTail(props, isOpen);
    assert r[2..][1..] == r[3..];
    assert VisibleEffects(r[2..]) == (if props.isFirst then [] else [OnMoveUp]) + [OnDelete, SetIsOpen(!isOpen)];
    assert r[1..][1..] == r[2..];
  }

  /** Delete and the one visible toggle close the list. */
  lemma VisibleTail(props: Props, isOpen: bool)
    ensures VisibleEffects(Actions(props, isOpen)[3..]) == [OnDelete, SetIsOpen(!isOpen)]
  {
    var r := Actions(props, isOpen);
    assert r[5..][1..] == [];
    assert VisibleEffects(r[5..]) == if isOpen then [SetIsOpen(false)] else [];
    assert r[4..][1..] == r[5..];
    assert VisibleEffects(r[4..]) == [SetIsOpen(!isOpen)];
    assert r[3..][1..] == r[4..];
  }

  /** Toggles are never both visible nor both hidden, and the visible one flips `isOpen`. */
  lemma ExactlyOneToggleVisible(props: Props, isOpen: bool)
    ensures forall i :: 0 <= i < 6 && !Actions(props, isOpen)[i].hidden && Actions(props, isOpen)[i].onClick.SetIsOpen? ==>
      i == (if isOpen then 5 else 4) && Actions(props, isOpen)[i].onClick.open == !isOpen
    ensures !Actions(props, isOpen)[if isOpen then 5 else 4].hidden
  {
  }

  /** The state of `isOpen` after the effect `e` runs; the container's callbacks leave it alone. */
  function AfterEffect(e: Effect, isOpen: bool): bool
  {
    match e
    case SetIsOpen(open) => open
    case _ => isOpen
  }

  /** The box colours `{ background, borderColor }`. */
  datatype Colors = Colors(background: string, borderColor: string)

  /** `bgColor ?? 'neutral0'` and `borderColor ?? 'transparent'`, where both are set only for a node with errors. */
  function BoxColors(hasErrors: bool): (c: Colors)
    ensures hasErrors ==> c == Colors("danger100", "danger600")
    ensures !hasErrors ==> c == Colors("neutral0", "transparent")
  {
    var bgColor: Option<string> := if hasErrors then Some("danger100") else None;
    var borderColor: Option<string> := if hasErrors then Some("danger600") else None;
    Colors(Coalesce(bgColor, "neutral0"), Coalesce(borderColor, "transparent"))
  }

  /** What the node renders: its colours, the toolbar's actions when shown, and whether its children are shown. */
  datatype NodeView = NodeView(colors: Colors, toolbar: Option<seq<Action>>, childrenShown: bool)

  /** A node in the tree, with its local `isOpen` state. */
  class TreeNode {
    /** Whether the node's children are shown. */
    var isOpen: bool

    /** `useState(true)`: a node starts expanded. */
    constructor ()
      ensures isOpen
    {
      isOpen := true;
    }

    /** `setIsOpen(true)`, the click handler of "Show children". */
    method Expand()
      modifies this
      ensures isOpen
    {
      isOpen := true;
    }

    /** `setIsOpen(false)`, the click handler of "Hide children". */
    method Collapse()
      modifies this
      ensures !isOpen
    {
      isOpen := false;
    }

    /** Clicking the `i`-th action: its effect on `isOpen`; the container's callbacks are not modelled here. */
    method Click(props: Props, i: nat)
      requires i < 6
      modifies this
      ensures isOpen == AfterEffect(Actions(props, old(isOpen))[i].onClick, old(isOpen))
    {
      var action := Actions(props, isOpen)[i];
      match action.onClick {
        case SetIsOpen(open) =>
          if open { Expand(); } else { Collapse(); }
        case _ =>
      }
    }

    /** The rendered node: the toolbar only while active, the children only while open. */
    function View(props: Props): (v: NodeView)
      reads this
      ensures v.toolbar.Some? <==> props.isActive
      ensures v.toolbar.Some? ==> v.toolbar.value == Actions(props, isOpen)
      ensures v.childrenShown <==> isOpen
      ensures v.colors == BoxColors(props.hasErrors)
    {
      NodeView(BoxColors(props.hasErrors), if props.isActive then Some(Actions(props, isOpen)) else None, isOpen)
    }
  }

  /**
   * An open node with the default props renders no toolbar, since `isActive`
   * defaults to false, although every entry but "Show children" is unhidden;
   * it shows its children in the default colours.
   */
  lemma DefaultOpenNode(node: TreeNode)
    requires node.isOpen
    ensures node.View(DefaultProps).toolbar.None?
    ensures node.View(DefaultProps).childrenShown
    ensures node.View(DefaultProps).colors == Colors("neutral0", "transparent")
    ensures VisibleEffects(Actions(DefaultProps, node.isOpen)) == [OnAddSubmenu, OnMoveDown, OnMoveUp, OnDelete, SetIsOpen(false)]
  {
    VisibleActionsAre(DefaultProps, true);
  }

  /** Clicking whichever toggle is visible flips `isOpen`, and so flips whether the children are shown. */
  lemma VisibleToggleFlips(props: Props, isOpen: bool, i: nat)
    requires i < 6 && !Actions(props, isOpen)[i].hidden && Actions(props, isOpen)[i].onClick.SetIsOpen?
    ensures AfterEffect(Actions(props, isOpen)[i].onClick, isOpen) == !isOpen
  {
    ExactlyOneToggleVisible(props, isOpen);
  }

  /** Children are shown exactly while "Hide children" is the visible toggle. */
  lemma ChildrenShownIffHideVisible(props: Props, isOpen: bool)
    ensures isOpen <==> !Actions(props, isOpen)[5].hidden
    ensures isOpen <==> Actions(props, isOpen)[4].hidden
  {
  }

  /** Expanding and collapsing are idempotent: running a toggle twice is running it once. */
  lemma ToggleIdempotent(e: Effect, isOpen: bool)
    requires e.SetIsOpen?
    ensures AfterEffect(e, AfterEffect(e, isOpen)) == AfterEffect(e, isOpen)
    ensures AfterEffect(e, isOpen) == e.open
  {
  }

  /**
   * A node's life on screen: an active node starts open, the user clicks
   * "Hide children" in its toolbar, then "Show children", and it is open again.
   */
  method ToggleTwice(props: Props) returns (node: TreeNode)
    requires props.isActive
    ensures node.isOpen && node.View(props).childrenShown
    ensures node.View(props).toolbar == Some(Actions(props, true))
  {
    node := new TreeNode();
    assert node.View(props).toolbar == Some(Actions(props, true));
    assert !Actions(props, node.isOpen)[5].hidden;
    node.Click(props, 5);
    assert !node.isOpen && !node.View(props).childrenShown;
    assert node.View(props).toolbar == Some(Actions(props, false));
    assert !Actions(props, node.isOpen)[4].hidden;
    node.Click(props, 4);
  }
}
