/**
 * The positional helpers over a parsed MSBuild expression tree
 * (src/LanguageServer.SemanticModel.MSBuild/ExpressionExtensions.cs).
 *
 * A tree is an arena: node `i` is `t[i]`, and parent and child links are
 * node ids. A parent always has a smaller id than its children, which is
 * what makes the tree acyclic and every walk over it finite.
 */
module ExpressionExtensions {
  import opened Wrappers

  type NodeId = nat

  /** The node kinds the helpers tell apart. */
  datatype NodeKind =
    | SimpleList
    | SimpleListItem
    | SimpleListSeparator(separatorOffset: int)  // offset of ';' within the separator's span
    | OtherContainer                             // any other ExpressionContainerNode
    | OtherLeaf                                  // any other node without children

  datatype ExpressionNode = ExpressionNode(
    kind: NodeKind,
    absoluteStart: int,
    absoluteEnd: int,
    parent: Option<NodeId>,
    children: seq<NodeId>)

  type Tree = seq<ExpressionNode>

  /** Only container nodes (`ExpressionContainerNode`) have children. */
  predicate IsContainer(kind: NodeKind) {
    kind.SimpleList? || kind.OtherContainer?
  }

  /** The links of a finite, acyclic tree that the parser builds. */
  ghost predicate WellFormed(t: Tree) {
    && (forall i :: 0 <= i < |t| && t[i].parent.Some? ==>
          t[i].parent.value < i && i in t[t[i].parent.value].children)
    && (forall i, k :: 0 <= i < |t| && 0 <= k < |t[i].children| ==>
          i < t[i].children[k] < |t| && t[t[i].children[k]].parent == Some(i))
    && (forall i, j, k :: 0 <= i < |t| && 0 <= j < k < |t[i].children| ==>
          t[i].children[j] != t[i].children[k])
    && (forall i :: 0 <= i < |t| && !IsContainer(t[i].kind) ==> t[i].children == [])
  }

  // ---------------------------------------------------------------------
  // AncestorNodes
  // ---------------------------------------------------------------------

  /**
   * The ancestors of `n`, nearest first: its parent, that node's parent,
   * and so on up to the root.
   */
  function Ancestors(t: Tree, n: NodeId): (r: seq<NodeId>)
    requires WellFormed(t) && n < |t|
    ensures |r| == 0 <==> t[n].parent.None?
    ensures |r| > 0 ==> Some(r[0]) == t[n].parent
    ensures forall k :: 0 <= k < |r| - 1 ==> r[k] < |t| && t[r[k]].parent == Some(r[k + 1])
    ensures |r| > 0 ==> r[|r| - 1] < |t| && t[r[|r| - 1]].parent.None?
    ensures forall k :: 0 <= k < |r| ==> r[k] < n
    ensures forall i, j :: 0 <= i < j < |r| ==> r[j] < r[i]
    decreases n
  {
    match t[n].parent
    case None => []
    case Some(p) => [p] + Ancestors(t, p)
  }

  /** A node is in the subtree of `n` when it is `n` or `n` is among its ancestors. */
  ghost predicate InSubtree(t: Tree, n: NodeId, m: NodeId)
    requires WellFormed(t) && m < |t|
  {
    m == n || n in Ancestors(t, m)
  }

  /** Walks the parent links from `node`, collecting every ancestor in order. */
  method AncestorNodes(t: Tree, node: NodeId) returns (ancestors: seq<NodeId>)
    requires WellFormed(t) && node < |t|
    ensures ancestors == Ancestors(t, node)
  {
    ghost var all := Ancestors(t, node);
    ancestors := [];
    var parent := t[node].parent;
    while parent.Some?
      invariant |ancestors| <= |all| && ancestors == all[..|ancestors|]
      invariant parent.Some? <==> |ancestors| < |all|
      invariant parent.Some? ==> parent.value == all[|ancestors|] && parent.value < |t|
      decreases if parent.Some? then parent.value + 1 else 0
    {
      assert |ancestors| + 1 < |all| ==> t[all[|ancestors|]].parent == Some(all[|ancestors| + 1]);
      ancestors := ancestors + [parent.value];
      parent := t[parent.value].parent;
    }
  }

  /** Every ancestor of an ancestor `a` of `m` is an ancestor of `m`. */
  lemma {:induction false} AncestorsTransitive(t: Tree, m: NodeId, a: NodeId)
    requires WellFormed(t) && m < |t| && a < |t|
    requires a in Ancestors(t, m)
    ensures forall x :: x in Ancestors(t, a) ==> x in Ancestors(t, m)
    decreases m
  {
    var p := t[m].parent.value;
    if a != p {
      AncestorsTransitive(t, p, a);
    }
  }

  /**
   * On the path from `m` up to the root, at most one node has `n` as its
   * parent: a node has a single chain of ancestors.
   */
  lemma {:induction false} PathChildUnique(t: Tree, m: NodeId, a: NodeId, b: NodeId, n: NodeId)
    requires WellFormed(t) && m < |t| && a < |t| && b < |t|
    requires InSubtree(t, a, m) && InSubtree(t, b, m)
    requires t[a].parent == Some(n) && t[b].parent == Some(n)
    ensures a == b
    decreases m
  {
    if a != b {
      if a == m || b == m {
        // the other one is a strict ancestor of m, so it lies above n
        assert false;
      }
      PathChildUnique(t, t[m].parent.value, a, b, n);
    }
  }

  /** If `n` is an ancestor of `m`, the path from `m` up passes through a child of `n`. */
  lemma {:induction false} PathThroughChild(t: Tree, m: NodeId, n: NodeId) returns (c: NodeId)
    requires WellFormed(t) && m < |t|
    requires n in Ancestors(t, m)
    ensures c < |t| && InSubtree(t, c, m) && t[c].parent == Some(n) && c in t[n].children
    decreases m
  {
    var p := t[m].parent.value;
    if p == n {
      c := m;
    } else {
      c := PathThroughChild(t, p, n);
      if c != p {
        AncestorsTransitive(t, m, p);
      }
    }
  }

  // ---------------------------------------------------------------------
  // DescendantNodes
  // ---------------------------------------------------------------------

  /**
   * The sequence DescendantNodes yields: nothing for a node that is not a
   * container; for a container, for each child in order, the container
   * itself followed by that child's own sequence.
   */
  function DescendantNodes(t: Tree, n: NodeId): (r: seq<NodeId>)
    requires WellFormed(t) && n < |t|
    ensures !IsContainer(t[n].kind) ==> r == []
    ensures forall m :: m in r ==> n <= m < |t|
    decreases |t| - n, 1
  {
    if IsContainer(t[n].kind) then ChildDescendants(t, n, t[n].children) else []
  }

  /** The part of DescendantNodes(t, n) contributed by the children `cs` of `n`. */
  function ChildDescendants(t: Tree, n: NodeId, cs: seq<NodeId>): (r: seq<NodeId>)
    requires WellFormed(t) && n < |t|
    requires forall c :: c in cs ==> c in t[n].children
    ensures forall m :: m in r ==> n <= m < |t|
    decreases |t| - n, 0, |cs|
  {
    if cs == [] then []
    else
      assert cs[0] in t[n].children;
      [n] + DescendantNodes(t, cs[0]) + ChildDescendants(t, n, cs[1..])
  }

  /** The nodes that have `n` among their ancestors. */
  ghost function ProperDescendants(t: Tree, n: NodeId): set<NodeId>
    requires WellFormed(t)
  {
    set m | 0 <= m < |t| && n in Ancestors(t, m)
  }

  /** `c` and the nodes below it. */
  ghost function Subtree(t: Tree, c: NodeId): set<NodeId>
    requires WellFormed(t)
  {
    set m | 0 <= m < |t| && InSubtree(t, c, m)
  }

  /** The union of the subtrees of the nodes `cs`. */
  ghost function Subtrees(t: Tree, cs: seq<NodeId>): set<NodeId>
    requires WellFormed(t)
  {
    if cs == [] then {} else Subtree(t, cs[0]) + Subtrees(t, cs[1..])
  }

  /** Every node DescendantNodes(t, n) yields is a container inside the subtree of `n`. */
  lemma {:induction false} DescendantsAreSubtreeContainers(t: Tree, n: NodeId)
    requires WellFormed(t) && n < |t|
    ensures forall m :: m in DescendantNodes(t, n) ==> m < |t| && IsContainer(t[m].kind) && InSubtree(t, n, m)
    decreases |t| - n, 1
  {
    if IsContainer(t[n].kind) {
      ChildDescendantsAreSubtreeContainers(t, n, t[n].children);
    }
  }

  lemma {:induction false} ChildDescendantsAreSubtreeContainers(t: Tree, n: NodeId, cs: seq<NodeId>)
    requires WellFormed(t) && n < |t| && IsContainer(t[n].kind)
    requires forall c :: c in cs ==> c in t[n].children
    ensures forall m :: m in ChildDescendants(t, n, cs) ==> m < |t| && IsContainer(t[m].kind) && InSubtree(t, n, m)
    decreases |t| - n, 0, |cs|
  {
    if cs != [] {
      var c := cs[0];
      assert c in t[n].children;
      DescendantsAreSubtreeContainers(t, c);
      ChildDescendantsAreSubtreeContainers(t, n, cs[1..]);
      forall m | m in DescendantNodes(t, c)
        ensures InSubtree(t, n, m)
      {
        assert Ancestors(t, c) == [n] + Ancestors(t, n);
        if m != c {
          AncestorsTransitive(t, m, c);
        }
      }
    }
  }

  lemma {:induction false} SubtreesMember(t: Tree, cs: seq<NodeId>, m: NodeId)
    requires WellFormed(t)
    ensures m in Subtrees(t, cs) <==> exists c :: c in cs && m in Subtree(t, c)
    decreases |cs|
  {
    if cs != [] {
      SubtreesMember(t, cs[1..], m);
      assert forall c :: c in cs <==> c == cs[0] || c in cs[1..];
    }
  }

  /** The proper descendants of `n` are exactly the subtrees of its children. */
  lemma ProperDescendantsByChildren(t: Tree, n: NodeId)
    requires WellFormed(t) && n < |t|
    ensures ProperDescendants(t, n) == Subtrees(t, t[n].children)
  {
    forall m | m in ProperDescendants(t, n)
      ensures m in Subtrees(t, t[n].children)
    {
      var c := PathThroughChild(t, m, n);
      SubtreesMember(t, t[n].children, m);
    }
    forall m | m in Subtrees(t, t[n].children)
      ensures m in ProperDescendants(t, n)
    {
      SubtreesMember(t, t[n].children, m);
      var c :| c in t[n].children && m in Subtree(t, c);
      assert Ancestors(t, c) == [n] + Ancestors(t, n);
      if m != c {
        AncestorsTransitive(t, m, c);
      }
    }
  }

  /** A subtree holds its root and the root's proper descendants, which exclude the root. */
  lemma SubtreeSize(t: Tree, c: NodeId)
    requires WellFormed(t) && c < |t|
    ensures |Subtree(t, c)| == 1 + |ProperDescendants(t, c)|
  {
    assert c !in ProperDescendants(t, c);
    assert Subtree(t, c) == {c} + ProperDescendants(t, c);
  }

  /**
   * DescendantNodes(t, n) has one entry per proper descendant of `n`: the
   * container is yielded once for each child, and the rest recursively.
   */
  lemma {:induction false} DescendantCount(t: Tree, n: NodeId)
    requires WellFormed(t) && n < |t|
    ensures |DescendantNodes(t, n)| == |ProperDescendants(t, n)|
    decreases |t| - n, 1
  {
    ProperDescendantsByChildren(t, n);
    if IsContainer(t[n].kind) {
      ChildDescendantCount(t, n, t[n].children);
    } else {
      assert Subtrees(t, t[n].children) == {};
    }
  }

  lemma {:induction false} ChildDescendantCount(t: Tree, n: NodeId, cs: seq<NodeId>)
    requires WellFormed(t) && n < |t|
    requires forall c :: c in cs ==> c in t[n].children
    requires forall i, j :: 0 <= i < j < |cs| ==> cs[i] != cs[j]
    ensures |ChildDescendants(t, n, cs)| == |Subtrees(t, cs)|
    decreases |t| - n, 0, |cs|
  {
    if cs != [] {
      var c := cs[0];
      assert c in t[n].children;
      DescendantCount(t, c);
      SubtreeSize(t, c);
      ChildDescendantCount(t, n, cs[1..]);
      forall m | m in Subtree(t, c) && m in Subtrees(t, cs[1..])
        ensures false
      {
        SubtreesMember(t, cs[1..], m);
        var c' :| c' in cs[1..] && m in Subtree(t, c');
        assert c' in t[n].children;
        PathChildUnique(t, m, c, c', n);
      }
      assert Subtree(t, c) !! Subtrees(t, cs[1..]);
    }
  }

  /**
   * The container itself is what DescendantNodes yields before each child's
   * sequence: it occurs once per child, first of all, and nowhere else.
   */
  lemma ContainerRepeatedPerChild(t: Tree, n: NodeId)
    requires WellFormed(t) && n < |t| && IsContainer(t[n].kind)
    ensures multiset(DescendantNodes(t, n))[n] == |t[n].children|
    ensures t[n].children != [] ==> DescendantNodes(t, n)[0] == n
  {
    ChildOccurrences(t, n, t[n].children);
  }

  lemma {:induction false} ChildOccurrences(t: Tree, n: NodeId, cs: seq<NodeId>)
    requires WellFormed(t) && n < |t|
    requires forall c :: c in cs ==> c in t[n].children
    ensures multiset(ChildDescendants(t, n, cs))[n] == |cs|
    decreases |cs|
  {
    if cs != [] {
      var c := cs[0];
      assert c in t[n].children;
      DescendantsAreSubtreeContainers(t, c);
      assert n !in DescendantNodes(t, c);
      ChildOccurrences(t, n, cs[1..]);
    }
  }

  // ---------------------------------------------------------------------
  // FindItemAt
  // ---------------------------------------------------------------------

  /** What FindItemAt returns: no item (null), an item, or the exception it throws. */
  datatype FindResult = NoItem | Item(node: NodeId) | Failed(error: Failure)

  /**
   * The index in `cs` of the last node that starts at or before `at`
   * (List.FindLast), if there is one.
   */
  function FindLast(t: Tree, cs: seq<NodeId>, at: int): (k: Option<nat>)
    requires forall i :: 0 <= i < |cs| ==> cs[i] < |t|
    ensures k.Some? ==> k.value < |cs| && t[cs[k.value]].absoluteStart <= at
    ensures k.Some? ==> forall j :: k.value < j < |cs| ==> t[cs[j]].absoluteStart > at
    ensures k.None? ==> forall j :: 0 <= j < |cs| ==> t[cs[j]].absoluteStart > at
    decreases |cs|
  {
    if cs == [] then None
    else if t[cs[|cs| - 1]].absoluteStart <= at then Some(|cs| - 1)
    else FindLast(t, cs[..|cs| - 1], at)
  }

  /** The sibling before `cs[k]`, if any. */
  function PreviousSibling(cs: seq<NodeId>, k: nat): Option<NodeId> {
    if 0 < k <= |cs| then Some(cs[k - 1]) else None
  }

  /** The sibling after `cs[k]`, if any. */
  function NextSibling(cs: seq<NodeId>, k: nat): Option<NodeId> {
    if k + 1 < |cs| then Some(cs[k + 1]) else None
  }

  /** The cast `node as SimpleListItem`: null unless the node is a list item. */
  function AsItem(t: Tree, node: Option<NodeId>): FindResult
    requires node.Some? ==> node.value < |t|
  {
    if node.Some? && t[node.value].kind.SimpleListItem? then Item(node.value) else NoItem
  }

  /**
   * The list item at (or next to) absolute position `atPosition` in the
   * list `list`. A position on or before a separator's ';' selects the
   * item before it; a position after the ';' selects the item after it.
   */
  function FindItemAt(t: Tree, list: Option<NodeId>, atPosition: int): (r: FindResult)
    requires WellFormed(t)
    requires list.Some? ==> list.value < |t| && t[list.value].kind.SimpleList?
    ensures r == Failed(ArgumentNull) <==> list.None?
    ensures list.Some? && (atPosition < t[list.value].absoluteStart || atPosition > t[list.value].absoluteEnd) ==>
              r == NoItem
    ensures r.Item? ==> list.Some? && r.node in t[list.value].children && t[r.node].kind.SimpleListItem?
    ensures r == Failed(NullReference) <==>
              && list.Some?
              && t[list.value].absoluteStart <= atPosition <= t[list.value].absoluteEnd
              && forall c :: c in t[list.value].children ==> t[c].absoluteStart > atPosition
  {
    if list.None? then Failed(ArgumentNull)
    else
      var l := t[list.value];
      if atPosition < l.absoluteStart || atPosition > l.absoluteEnd then NoItem
      else
        match FindLast(t, l.children, atPosition)
        case None =>
          // FindItemAt goes on to report the node's type, dereferencing null
          Failed(NullReference)
        case Some(k) =>
          var node := l.children[k];
          match t[node].kind
          case SimpleListItem => Item(node)
          case SimpleListSeparator(separatorOffset) =>
            if atPosition <= t[node].absoluteStart + separatorOffset
            then AsItem(t, PreviousSibling(l.children, k))
            else AsItem(t, NextSibling(l.children, k))
          case _ => Failed(InvalidOperation)
  }

  /**
   * FindItemAt inside the list's bounds, in terms of the last child `cs[k]`
   * starting at or before the position: an item is returned as is; a
   * separator defers to its previous sibling when the position is on or
   * before the ';' and to its next sibling otherwise; any other kind of
   * node is an error.
   */
  lemma FindItemAtSelects(t: Tree, list: NodeId, atPosition: int, k: nat)
    requires WellFormed(t) && list < |t| && t[list].kind.SimpleList?
    requires t[list].absoluteStart <= atPosition <= t[list].absoluteEnd
    requires k < |t[list].children| && t[t[list].children[k]].absoluteStart <= atPosition
    requires forall j :: k < j < |t[list].children| ==> t[t[list].children[j]].absoluteStart > atPosition
    ensures var cs := t[list].children;
            var node := t[cs[k]];
            FindItemAt(t, Some(list), atPosition) ==
              match node.kind
              case SimpleListItem => Item(cs[k])
              case SimpleListSeparator(offset) =>
                if atPosition <= node.absoluteStart + offset
                then AsItem(t, PreviousSibling(cs, k))
                else AsItem(t, NextSibling(cs, k))
              case _ => Failed(InvalidOperation)
  {
    var found := FindLast(t, t[list].children, atPosition);
    assert found == Some(k);
  }

  /**
   * The separator tie-break in every list: when the last child at or
   * before the position is a separator, a position on or before its ';'
   * selects the item just before it, and a later position the item just
   * after it; when that neighbour is missing or not an item, there is no
   * item.
   */
  lemma SeparatorTieBreak(t: Tree, list: NodeId, atPosition: int, k: nat)
    requires WellFormed(t) && list < |t| && t[list].kind.SimpleList?
    requires t[list].absoluteStart <= atPosition <= t[list].absoluteEnd
    requires k < |t[list].children| && t[t[list].children[k]].absoluteStart <= atPosition
    requires forall j :: k < j < |t[list].children| ==> t[t[list].children[j]].absoluteStart > atPosition
    requires t[t[list].children[k]].kind.SimpleListSeparator?
    ensures var cs := t[list].children;
            var separator := t[cs[k]];
            var onOrBefore := atPosition <= separator.absoluteStart + separator.kind.separatorOffset;
            && (onOrBefore && 0 < k && t[cs[k - 1]].kind.SimpleListItem? ==>
                  FindItemAt(t, Some(list), atPosition) == Item(cs[k - 1]))
            && (onOrBefore && (k == 0 || !t[cs[k - 1]].kind.SimpleListItem?) ==>
                  FindItemAt(t, Some(list), atPosition) == NoItem)
            && (!onOrBefore && k + 1 < |cs| && t[cs[k + 1]].kind.SimpleListItem? ==>
                  FindItemAt(t, Some(list), atPosition) == Item(cs[k + 1]))
            && (!onOrBefore && (k + 1 == |cs| || !t[cs[k + 1]].kind.SimpleListItem?) ==>
                  FindItemAt(t, Some(list), atPosition) == NoItem)
  {
    FindItemAtSelects(t, list, atPosition, k);
  }

  /**
   * The list parsed from text "A;B" (optionally with spaces around the
   * ';'), starting at offset 0: item A at [0, 1), then a separator
   * starting at 1 whose ';' is `semicolon` characters in, spanning
   * `separatorLength` characters, then item B up to the list's end.
   */
  function TwoItemList(semicolon: nat, separatorLength: nat): Tree
  {
    var b := 1 + separatorLength;
    [ ExpressionNode(SimpleList, 0, b + 1, None, [1, 2, 3]),
      ExpressionNode(SimpleListItem, 0, 1, Some(0), []),
      ExpressionNode(SimpleListSeparator(semicolon), 1, b, Some(0), []),
      ExpressionNode(SimpleListItem, b, b + 1, Some(0), []) ]
  }

  lemma TwoItemListWellFormed(semicolon: nat, separatorLength: nat)
    ensures WellFormed(TwoItemList(semicolon, separatorLength))
  {
    TwoItemListParents(semicolon, separatorLength);
    TwoItemListChildren(semicolon, separatorLength);
    TwoItemListDistinct(semicolon, separatorLength);
  }

  lemma TwoItemListParents(semicolon: nat, separatorLength: nat)
    ensures var t := TwoItemList(semicolon, separatorLength);
            forall i :: 0 <= i < |t| && t[i].parent.Some? ==>
              t[i].parent.value < i && i in t[t[i].parent.value].children
  {
    assert TwoItemList(semicolon, separatorLength)[0].children == [1, 2, 3];
  }

  lemma TwoItemListChildren(semicolon: nat, separatorLength: nat)
    ensures var t := TwoItemList(semicolon, separatorLength);
            forall i, k :: 0 <= i < |t| && 0 <= k < |t[i].children| ==>
              i < t[i].children[k] < |t| && t[t[i].children[k]].parent == Some(i)
  {
    assert TwoItemList(semicolon, separatorLength)[0].children == [1, 2, 3];
  }

  lemma TwoItemListDistinct(semicolon: nat, separatorLength: nat)
    ensures var t := TwoItemList(semicolon, separatorLength);
            forall i, j, k :: 0 <= i < |t| && 0 <= j < k < |t[i].children| ==>
              t[i].children[j] != t[i].children[k]
  {
    assert TwoItemList(semicolon, separatorLength)[0].children == [1, 2, 3];
  }

  /**
   * Inside the separator of "A;B", "A ;B", "A; B", ...: up to and including
   * the ';' the item before it is chosen, after the ';' the item after it.
   */
  lemma TieBreakInSeparator(semicolon: nat, separatorLength: nat, atPosition: int)
    requires semicolon < separatorLength
    requires 1 <= atPosition <= separatorLength
    ensures var t := TwoItemList(semicolon, separatorLength);
            && WellFormed(t)
            && FindItemAt(t, Some(0), atPosition) == if atPosition <= 1 + semicolon then Item(1) else Item(3)
  {
    var t := TwoItemList(semicolon, separatorLength);
    TwoItemListWellFormed(semicolon, separatorLength);
    assert t[0].children == [1, 2, 3];
    FindItemAtSelects(t, 0, atPosition, 1);
  }

  /** "A;B": on the ';' (offset 1) the item before it; just past it (offset 2), item B. */
  lemma TieBreakExample()
    ensures var t := TwoItemList(0, 1);
            && WellFormed(t)
            && FindItemAt(t, Some(0), 1) == Item(1)
            && FindItemAt(t, Some(0), 2) == Item(3)
            && FindItemAt(t, Some(0), 4) == NoItem
  {
    var t := TwoItemList(0, 1);
    TieBreakInSeparator(0, 1, 1);
    assert t[0].children == [1, 2, 3];
    FindItemAtSelects(t, 0, 2, 2);
  }
}
