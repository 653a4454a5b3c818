/** Building the menu tree while the files are parsed: menu_add_entry, menu_add_menu and menu_end_menu. */
module MenuBuild {
  import opened Options
  import opened Tristate
  import opened Symbols
  import opened Expressions
  import opened ExprComparison
  import opened MenuForest
  import opened MenuDeps
  import opened MenuSteps

  /** What last_entry_ptr points to. */
  datatype Slot = ListOf(id: Id) | NextOf(id: Id)

  /** There are `d` open menus at the right edge of `f`. */
  predicate OpenOk(f: Forest, d: nat)
    decreases f
  {
    d == 0 || (f.Node? && if f.next.Nil? then OpenOk(f.list, d - 1) else OpenOk(f.next, d))
  }

  /** The entry that the innermost open menu belongs to. */
  function OwnerAt(f: Forest, d: nat, up: Id): Id
    requires OpenOk(f, d)
    decreases f
  {
    if d == 0 then up else if f.next.Nil? then OwnerAt(f.list, d - 1, f.id) else OwnerAt(f.next, d, up)
  }

  /** The list of the innermost open menu. */
  function OpenList(f: Forest, d: nat): Forest
    requires OpenOk(f, d)
    decreases f
  {
    if d == 0 then f else if f.next.Nil? then OpenList(f.list, d - 1) else OpenList(f.next, d)
  }

  /** Where the next entry goes. */
  function SlotAt(f: Forest, d: nat, up: Id): Slot
    requires OpenOk(f, d)
  {
    var l := OpenList(f, d);
    if l.Nil? then ListOf(OwnerAt(f, d, up)) else NextOf(Last(l))
  }

  /** `f` with a new last entry in the innermost open menu. */
  function Add(f: Forest, d: nat, id: Id): Forest
    requires OpenOk(f, d)
    decreases f
  {
    if d == 0 then Append(f, Node(id, Nil, Nil))
    else if f.next.Nil? then Node(f.id, Add(f.list, d - 1, id), Nil)
    else Node(f.id, f.list, Add(f.next, d, id))
  }

  /** A new entry without list and successor, put into the slot. */
  function Attached(h: Links, slot: Slot, id: Id, owner: Id): Links {
    var (n, l) := (h.next[id := None], h.list[id := None]);
    Links(if slot.NextOf? then n[slot.id := Some(id)] else n, if slot.ListOf? then l[slot.id := Some(id)] else l,
          h.parent[id := Some(owner)])
  }

  lemma {:induction false} SlotInside(f: Forest, d: nat, up: Id)
    requires OpenOk(f, d)
    ensures if f.Nil? then SlotAt(f, d, up) == ListOf(up) else SlotAt(f, d, up).id in PreOrder(f)
    ensures OwnerAt(f, d, up) == up || OwnerAt(f, d, up) in PreOrder(f)
    decreases f
  {
    if d == 0 {
      if f.Node? {
        LastIsTop(f);
      }
    } else {
      InPreOrder(f);
      if f.next.Nil? {
        SlotInside(f.list, d - 1, f.id);
      } else {
        SlotInside(f.next, d, up);
      }
    }
  }

  /** The new entry comes last in the order of all entries. */
  lemma {:induction false} AddOrder(f: Forest, d: nat, id: Id)
    requires OpenOk(f, d)
    ensures PreOrder(Add(f, d, id)) == PreOrder(f) + [id]
    ensures OpenOk(Add(f, d, id), d)
    decreases f
  {
    if d == 0 {
      AppendPreOrder(f, Node(id, Nil, Nil));
    } else if f.next.Nil? {
      AddOrder(f.list, d - 1, id);
    } else {
      AddOrder(f.next, d, id);
    }
  }

  /** It is a child of the open menu, and nothing else changes. */
  lemma {:induction false} AddChild(f: Forest, d: nat, id: Id, up: Id, c: Id, p: Id)
    requires OpenOk(f, d)
    ensures ChildOf(Add(f, d, id), up, c, p) <==> ChildOf(f, up, c, p) || (c == id && p == OwnerAt(f, d, up))
    decreases f
  {
    if d == 0 {
      if f.Node? {
        AddChild(f.next, 0, id, up, c, p);
      }
    } else if f.next.Nil? {
      AddChild(f.list, d - 1, id, f.id, c, p);
    } else {
      AddChild(f.next, d, id, up, c, p);
    }
  }

  lemma {:induction false} AddPlace(f: Forest, d: nat, id: Id, up: Id)
    requires OpenOk(f, d) && OpenOk(Add(f, d, id), d)
    ensures OwnerAt(Add(f, d, id), d, up) == OwnerAt(f, d, up)
    ensures OpenList(Add(f, d, id), d) == Append(OpenList(f, d), Node(id, Nil, Nil))
    decreases f
  {
    if d > 0 {
      if f.next.Nil? {
        AddPlace(f.list, d - 1, id, f.id);
      } else {
        AddPlace(f.next, d, id, up);
      }
    }
  }

  /** The pointers after the entry has been added represent the new tree. */
  lemma {:induction false} AddChain(h: Links, p: Option<Id>, f: Forest, d: nat, id: Id, up: Id)
    requires Chain(h, p, f, Some(up), None) && OpenOk(f, d) && Distinct(PreOrder(f))
    requires up !in PreOrder(f) && id !in PreOrder(f) && id != up
    ensures Chain(Attached(h, SlotAt(f, d, up), id, OwnerAt(f, d, up)), if f.Nil? then Some(id) else p, Add(f, d, id), Some(up), None)
    decreases f
  {
    if d == 0 {
      if f.Node? {
        AddBehind(h, p, f, id, up);
      }
    } else {
      DistinctNode(f);
      InPreOrder(f);
      hide Distinct, PreOrder, Attached;
      if f.next.Nil? {
        AddChain(h, h.list[f.id], f.list, d - 1, id, f.id);
        AddedInside(h, p, f, d, id, up);
      } else {
        AddChain(h, h.next[f.id], f.next, d, id, up);
        AddedAfter(h, p, f, d, id, up);
      }
    }
  }

  lemma AddedInside(h: Links, p: Option<Id>, f: Forest, d: nat, id: Id, up: Id)
    requires Chain(h, p, f, Some(up), None) && d > 0 && OpenOk(f, d) && f.next.Nil?
    requires f.id !in PreOrder(f.list) && id != f.id
    requires var h' := Attached(h, SlotAt(f.list, d - 1, f.id), id, OwnerAt(f.list, d - 1, f.id));
             Chain(h', if f.list.Nil? then Some(id) else h.list[f.id], Add(f.list, d - 1, id), Some(f.id), None)
    ensures Chain(Attached(h, SlotAt(f, d, up), id, OwnerAt(f, d, up)), p, Add(f, d, id), Some(up), None)
  {
    SlotInside(f.list, d - 1, f.id);
    hide PreOrder;
    assert SlotAt(f, d, up) == SlotAt(f.list, d - 1, f.id) && OwnerAt(f, d, up) == OwnerAt(f.list, d - 1, f.id);
    hide SlotAt, OwnerAt;
  }

  lemma AddedAfter(h: Links, p: Option<Id>, f: Forest, d: nat, id: Id, up: Id)
    requires Chain(h, p, f, Some(up), None) && d > 0 && OpenOk(f, d) && f.next.Node?
    requires f.id !in PreOrder(f.next) && id != f.id && id !in PreOrder(f.list) && f.id != up
    requires forall x :: x in PreOrder(f.list) ==> x !in PreOrder(f.next)
    requires var h' := Attached(h, SlotAt(f.next, d, up), id, OwnerAt(f.next, d, up));
             Chain(h', h.next[f.id], Add(f.next, d, id), Some(up), None)
    ensures Chain(Attached(h, SlotAt(f, d, up), id, OwnerAt(f, d, up)), p, Add(f, d, id), Some(up), None)
  {
    SlotInside(f.next, d, up);
    hide PreOrder;
    assert SlotAt(f, d, up) == SlotAt(f.next, d, up) && OwnerAt(f, d, up) == OwnerAt(f.next, d, up);
    hide SlotAt, OwnerAt;
    ChainFrame(h, Attached(h, SlotAt(f, d, up), id, OwnerAt(f, d, up)), h.list[f.id], f.list, Some(f.id), None);
  }

  lemma AddBehind(h: Links, p: Option<Id>, f: Forest, id: Id, up: Id)
    requires Chain(h, p, f, Some(up), None) && f.Node? && Distinct(PreOrder(f)) && id !in PreOrder(f)
    ensures Chain(Attached(h, NextOf(Last(f)), id, up), p, Append(f, Node(id, Nil, Nil)), Some(up), None)
  {
    LastIsTop(f);
    ChainRedirect(h, p, f, Some(up), None, Some(id));
    hide Distinct, PreOrder, Last;
    var h' := Attached(h, NextOf(Last(f)), id, up);
    ChainFrame(h.(next := h.next[Last(f) := Some(id)]), h', p, f, Some(up), Some(id));
    assert Chain(h', Some(id), Node(id, Nil, Nil), Some(up), None);
    ChainJoin(h', p, f, Some(id), Node(id, Nil, Nil), Some(up), None);
  }

  lemma {:induction false} LastAdded(f: Forest, id: Id)
    ensures Append(f, Node(id, Nil, Nil)).Node? && Last(Append(f, Node(id, Nil, Nil))) == id
  {
    if f.Node? {
      LastAdded(f.next, id);
    }
  }

  /** The list of the last entry. */
  function LastList(f: Forest): Forest
    requires f.Node?
  {
    if f.next.Nil? then f.list else LastList(f.next)
  }

  /** The last entry of the open menu can be opened itself. */
  lemma {:induction false} OpenLast(f: Forest, d: nat, up: Id)
    requires OpenOk(f, d) && OpenList(f, d).Node?
    ensures OpenOk(f, d + 1) && OwnerAt(f, d + 1, up) == Last(OpenList(f, d))
    ensures OpenList(f, d + 1) == LastList(OpenList(f, d))
    decreases f
  {
    if f.next.Nil? {
      if d > 0 {
        OpenLast(f.list, d - 1, f.id);
      }
    } else {
      OpenLast(f.next, d, up);
    }
  }

  /** An open menu is the last entry of the menu around it. */
  lemma {:induction false} CloseLast(f: Forest, d: nat, up: Id)
    requires OpenOk(f, d) && d > 0
    ensures OpenOk(f, d - 1) && OpenList(f, d - 1).Node? && Last(OpenList(f, d - 1)) == OwnerAt(f, d, up)
    decreases f
  {
    if f.next.Nil? {
      if d > 1 {
        CloseLast(f.list, d - 1, f.id);
      }
    } else {
      CloseLast(f.next, d, up);
    }
  }

  /** The pointers of the last entry of the open menu. */
  lemma {:induction false} LastPointers(h: Links, p: Option<Id>, f: Forest, d: nat, up: Id)
    requires Chain(h, p, f, Some(up), None) && OpenOk(f, d) && OpenList(f, d).Node?
    ensures var m := Last(OpenList(f, d));
            m in h.list && m in h.parent && h.parent[m] == Some(OwnerAt(f, d, up)) &&
            (h.list[m].None? ==> LastList(OpenList(f, d)).Nil?)
    decreases f
  {
    if d > 0 && f.next.Nil? {
      LastPointers(h, h.list[f.id], f.list, d - 1, f.id);
    } else if f.next.Node? {
      LastPointers(h, h.next[f.id], f.next, d, up);
    }
  }

  lemma CreatedParts(created: seq<Id>, root: Id, s: seq<Id>, id: Id)
    requires created == [root] + s && Distinct(created) && id !in created
    ensures Distinct(s) && root !in s && id !in s && id != root && Distinct(created + [id])
    ensures created + [id] == [root] + (s + [id])
  {
    DistinctParts([root], s);
    DistinctJoin(created, [id]);
    assert root in [root] && root == created[0];
    assert forall i :: i in s ==> i in created;
  }

  /** The pointers hold the tree `f`, in which `d` menus are open; the innermost is that of `menu`. */
  ghost predicate Holds(h: Links, root: Id, f: Forest, d: nat, created: seq<Id>, menu: Id, last: Slot) {
    root in h.next && root in h.list && root in h.parent && h.next[root].None? && h.parent[root].None? &&
    Chain(h, h.list[root], f, Some(root), None) && created == [root] + PreOrder(f) && Distinct(created) &&
    OpenOk(f, d) && menu == OwnerAt(f, d, root) && last == SlotAt(f, d, root)
  }

  ghost predicate AllListed(created: seq<Id>, entries: Entries) {
    (forall i :: i in created <==> i in entries) && forall i :: i in entries ==> EntryOk(entries[i])
  }

  lemma ListedMore(created: seq<Id>, entries: Entries, id: Id, e: MenuEntry)
    requires AllListed(created, entries) && EntryOk(e)
    ensures AllListed(created + [id], entries[id := e])
  {
  }

  /** Adding an entry to the innermost open menu. */
  lemma HoldsMore(h: Links, root: Id, f: Forest, d: nat, created: seq<Id>, menu: Id, last: Slot, id: Id)
    requires Holds(h, root, f, d, created, menu, last) && id !in created
    ensures Holds(Attached(h, last, id, menu), root, Add(f, d, id), d, created + [id], menu, NextOf(id))
    ensures ChildOf(Add(f, d, id), root, id, menu)
  {
    CreatedParts(created, root, PreOrder(f), id);
    hide Distinct, PreOrder;
    SlotInside(f, d, root);
    AddOrder(f, d, id);
    AddPlace(f, d, id, root);
    LastAdded(OpenList(f, d), id);
    AddChild(f, d, id, root, id, menu);
    AddChain(h, h.list[root], f, d, id, root);
  }

  /** What has been built is what menu_finalize of the root menu starts from. */
  lemma BuiltStarts(h: Links, root: Id, f: Forest, d: nat, created: seq<Id>, menu: Id, last: Slot, entries: Entries, values: map<Id, seq<Symbol>>)
    requires Holds(h, root, f, d, created, menu, last) && AllListed(created, entries)
    requires forall i :: i in created ==> i in values && values[i] == []
    ensures Started(State(h, entries, values, [], {}), Node(root, f, Nil), None)
  {
    assert PreOrder(Node(root, f, Nil)) == created;
    assert Chain(h, Some(root), Node(root, f, Nil), None, None) by {
      hide PreOrder, Distinct, OwnerAt, SlotAt, OpenOk;
      assert Chain(h, h.next[root], Nil, None, None);
    }
    hide PreOrder, Distinct, Chain;
  }

  class MenuBuilder {
    const root: Id
    var next: map<Id, Option<Id>>
    var list: map<Id, Option<Id>>
    var parent: map<Id, Option<Id>>
    var entries: Entries
    var currentMenu: Id
    var currentEntry: Id
    var last: Slot
    /** The entries allocated so far, the root menu first. */
    var created: seq<Id>

    ghost function Pointers(): Links
      reads `next, `list, `parent
    {
      Links(next, list, parent)
    }

    ghost predicate Valid(f: Forest, d: nat)
      reads this
    {
      Holds(Pointers(), root, f, d, created, currentMenu, last) && currentEntry in created && AllListed(created, entries)
    }

    /** menu_init. */
    constructor (root: Id)
      ensures Valid(Nil, 0) && this.root == root && created == [root] && currentEntry == root
    {
      this.root := root;
      next, list, parent := map[root := None], map[root := None], map[root := None];
      entries := map[root := MenuEntry(None, None, [], None)];
      currentMenu, currentEntry := root, root;
      last := ListOf(root);
      created := [root];
    }

    /** menu_add_entry; `id` is the address malloc returns. */
    method AddEntry(sym: Option<Symbol>, id: Id, ghost f: Forest, ghost d: nat)
      requires Valid(f, d) && id !in created
      modifies this
      ensures Valid(Add(f, d, id), d) && created == old(created) + [id] && currentEntry == id
      ensures currentMenu == old(currentMenu) && ChildOf(Add(f, d, id), root, id, currentMenu)
      ensures entries == old(entries)[id := MenuEntry(sym, None, [], None)]
    {
      hide Holds, AllListed, ChildOf, Attached, Add;
      HoldsMore(Pointers(), root, f, d, created, currentMenu, last, id);
      ListedMore(created, entries, id, MenuEntry(sym, None, [], None));
      Attach(id);
      entries := entries[id := MenuEntry(sym, None, [], None)];
      created := created + [id];
      assert created[|created| - 1] == id;
      last := NextOf(id);
      currentEntry := id;
    }

    /** The pointer that last_entry_ptr points to is set. */
    method Attach(id: Id)
      modifies `next, `list, `parent
      ensures Pointers() == Attached(old(Pointers()), last, id, currentMenu)
    {
      next, list, parent := next[id := None], list[id := None], parent[id := Some(currentMenu)];
      match last {
        case ListOf(m) => list := list[m := Some(id)];
        case NextOf(m) => next := next[m := Some(id)];
      }
    }

    /** menu_add_menu: the entry just added gets a list. */
    method AddMenu(ghost f: Forest, ghost d: nat)
      requires Valid(f, d) && last == NextOf(currentEntry) && currentEntry in list && list[currentEntry].None?
      modifies `currentMenu, `last
      ensures Valid(f, d + 1) && currentMenu == currentEntry
    {
      OpenLast(f, d, root);
      LastPointers(Pointers(), list[root], f, d, root);
      currentMenu := currentEntry;
      last := ListOf(currentEntry);
    }

    /** menu_end_menu. */
    method EndMenu(ghost f: Forest, ghost d: nat)
      requires Valid(f, d) && d > 0
      modifies `currentMenu, `last
      ensures Valid(f, d - 1) && last == NextOf(old(currentMenu))
    {
      CloseLast(f, d, root);
      LastPointers(Pointers(), list[root], f, d - 1, root);
      last := NextOf(currentMenu);
      currentMenu := parent[currentMenu].value;
    }

    /** menu_add_dep. */
    method AddDep(dep: Expr, ghost f: Forest, ghost d: nat)
      requires Valid(f, d)
      modifies `entries
      ensures Valid(f, d) && entries.Keys == old(entries.Keys)
      ensures forall i :: i in entries && i != currentEntry ==> entries[i] == old(entries[i])
      ensures var (e, e') := (old(entries[currentEntry]), entries[currentEntry]);
              e'.sym == e.sym && e'.props == e.props && e'.prompt == e.prompt &&
              forall env :: EvalOpt(e'.dep, env) == Combine(And, EvalOpt(e.dep, env), Eval(dep, env))
    {
      var e := entries[currentEntry];
      forall env ensures EvalOpt(AllocAnd(e.dep, Some(dep)), env) == Combine(And, EvalOpt(e.dep, env), Eval(dep, env)) {
        AllocAndExact(e.dep, Some(dep), env);
      }
      entries := entries[currentEntry := e.(dep := AllocAnd(e.dep, Some(dep)))];
    }

    /** menu_add_prop: a property with a text becomes the prompt of the entry. */
    method AddProp(text: Option<string>, def: Option<Symbol>, dep: Option<Expr>, ghost f: Forest, ghost d: nat)
      requires Valid(f, d)
      modifies `entries
      ensures Valid(f, d)
      ensures var e := old(entries[currentEntry]);
              entries == old(entries)[currentEntry :=
                e.(props := e.props + [Property(text, def, dep)], prompt := if text.Some? then Some(|e.props|) else e.prompt)]
    {
      var e := entries[currentEntry];
      var props := e.props + [Property(text, def, dep)];
      entries := entries[currentEntry := e.(props := props, prompt := if text.Some? then Some(|e.props|) else e.prompt)];
    }
  }
}
