/** The walk of conf_write over the menu tree, by pointers and without a stack. */
module MenuWalk {
  import opened Options
  import opened MenuForest
  import opened MenuDeps
  import opened MenuFinalization

  /** Where the walk is: inside the list of `id`, whose following entries are still to come. */
  datatype Context = AtRoot | Inside(id: Id, next: Forest, up: Context)

  function Owner(c: Context, root: Id): Id {
    if c.AtRoot? then root else c.id
  }

  /** The entries still to come after the present list. */
  function Later(c: Context): seq<Id> {
    if c.AtRoot? then [] else PreOrder(c.next) + Later(c.up)
  }

  ghost predicate ContextOk(h: Links, c: Context, root: Id) {
    if c.AtRoot? then root in h.next && root in h.parent && h.next[root].None? && h.parent[root].None?
    else
      c.id in h.next && c.id in h.parent && h.parent[c.id] == Some(Owner(c.up, root)) &&
      Chain(h, h.next[c.id], c.next, Some(Owner(c.up, root)), None) && ContextOk(h, c.up, root)
  }

  /** The entries below the root, each once and in order. */
  method Walk(tree: MenuTree, root: Id, ghost l: Forest) returns (order: seq<Id>)
    requires root in tree.list && ContextOk(tree.Pointers(), AtRoot, root)
    requires Chain(tree.Pointers(), tree.list[root], l, Some(root), None)
    ensures order == PreOrder(l)
  {
    hide Chain, ContextOk, PreOrder;
    ghost var h := tree.Pointers();
    var menu := tree.list[root];
    order := [];
    ghost var c, b := AtRoot, l;
    assert Later(AtRoot) == [];
    NothingLeft(h, menu, b, Some(root));
    hide Later;
    while menu.Some?
      invariant Chain(h, menu, b, Some(Owner(c, root)), None) && ContextOk(h, c, root)
      invariant order + (PreOrder(b) + Later(c)) == PreOrder(l)
      invariant menu.None? ==> PreOrder(b) + Later(c) == []
      decreases |PreOrder(b)| + |Later(c)|
    {
      var m := menu.value;
      AtEntry(h, m, b, c, root);
      Visit(order, b, c);
      order := order + [m];
      if tree.list[m].Some? {
        menu := tree.list[m];
        c, b := Inside(m, b.next, c), b.list;
      } else if tree.next[m].Some? {
        menu := tree.next[m];
        b := b.next;
      } else {
        menu, b, c := Climb(tree, root, m, b, c);
      }
    }
  }

  lemma NothingLeft(h: Links, menu: Option<Id>, b: Forest, up: Option<Id>)
    requires Chain(h, menu, b, up, None)
    ensures menu.None? ==> PreOrder(b) == []
  {
  }

  lemma AtEntry(h: Links, m: Id, b: Forest, c: Context, root: Id)
    requires Chain(h, Some(m), b, Some(Owner(c, root)), None) && ContextOk(h, c, root)
    ensures b.Node? && b.id == m && m in h.next && m in h.list && m in h.parent && h.parent[m] == Some(Owner(c, root))
    ensures Chain(h, h.list[m], b.list, Some(m), None) && Chain(h, h.next[m], b.next, Some(Owner(c, root)), None)
    ensures ContextOk(h, Inside(m, b.next, c), root)
    ensures (h.list[m].None? ==> b.list.Nil?) && (h.next[m].None? ==> b.next.Nil?)
  {
    assert Chain(h, h.list[m], b.list, Some(m), None) && Chain(h, h.next[m], b.next, Some(Owner(c, root)), None);
  }

  /** One entry is in the order; its list, the entries after it and those after the present list are to come. */
  lemma Visit(order: seq<Id>, b: Forest, c: Context)
    requires b.Node?
    ensures order + (PreOrder(b) + Later(c)) == (order + [b.id]) + (PreOrder(b.list) + Later(Inside(b.id, b.next, c)))
    ensures b.list.Nil? ==> PreOrder(b.list) + Later(Inside(b.id, b.next, c)) == PreOrder(b.next) + Later(c)
    ensures b.list.Nil? && b.next.Nil? ==> PreOrder(b.next) + Later(c) == Later(c)
    ensures |PreOrder(b)| + |Later(c)| == 1 + |PreOrder(b.list)| + |Later(Inside(b.id, b.next, c))|
  {
  }

  /** Up to the first entry that has one after it. */
  method Climb(tree: MenuTree, root: Id, m: Id, ghost b0: Forest, ghost c0: Context)
    returns (menu: Option<Id>, ghost b: Forest, ghost c: Context)
    requires b0.Node? && b0.id == m && b0.next.Nil?
    requires ContextOk(tree.Pointers(), c0, root)
    requires m in tree.parent && tree.parent[m] == Some(Owner(c0, root))
    ensures Chain(tree.Pointers(), menu, b, Some(Owner(c, root)), None) && ContextOk(tree.Pointers(), c, root)
    ensures PreOrder(b) + Later(c) == Later(c0)
    ensures menu.None? ==> PreOrder(b) + Later(c) == []
  {
    var up := tree.parent[m];
    menu, b, c := None, Nil, c0;
    while up.Some?
      invariant menu.None? && b.Nil? && ContextOk(tree.Pointers(), c, root) && Later(c) == Later(c0)
      invariant if up.Some? then up == Some(Owner(c, root)) else c.AtRoot?
      decreases c, up.Some?
    {
      var u := up.value;
      if tree.next[u].Some? {
        menu := tree.next[u];
        b, c := c.next, c.up;
        break;
      }
      up := tree.parent[u];
      if c.Inside? {
        c := c.up;
      }
    }
  }
}
