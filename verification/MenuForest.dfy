/** The shape of the menu tree: what the next, list and parent pointers hold together. */
module MenuForest {
  import opened Options

  type Id = nat

  /** A first-child, next-sibling tree. */
  datatype Forest = Nil | Node(id: Id, list: Forest, next: Forest)

  /** The pointers of all menu structures. */
  datatype Links = Links(next: map<Id, Option<Id>>, list: map<Id, Option<Id>>, parent: map<Id, Option<Id>>)

  /** The entries in the order a reader meets them. */
  function PreOrder(f: Forest): seq<Id> {
    match f
    case Nil => []
    case Node(id, l, n) => [id] + PreOrder(l) + PreOrder(n)
  }

  function Append(f: Forest, g: Forest): Forest {
    match f
    case Nil => g
    case Node(id, l, n) => Node(id, l, Append(n, g))
  }

  /** Following the pointers from `p` up to `end` one finds `f`, with `up` as the parent of the top entries. */
  ghost predicate Chain(h: Links, p: Option<Id>, f: Forest, up: Option<Id>, end: Option<Id>)
    decreases f
  {
    match f
    case Nil => p == end
    case Node(id, l, n) =>
      p == Some(id) && id in h.next && id in h.list && id in h.parent && h.parent[id] == up &&
      Chain(h, h.list[id], l, Some(id), None) && Chain(h, h.next[id], n, up, end)
  }

  ghost predicate Distinct(s: seq<Id>) {
    forall i, j :: 0 <= i < j < |s| ==> s[i] != s[j]
  }

  lemma DistinctParts(a: seq<Id>, b: seq<Id>)
    requires Distinct(a + b)
    ensures Distinct(a) && Distinct(b) && forall x :: x in a ==> x !in b
  {
    forall i, j | 0 <= i < j < |a| ensures a[i] != a[j] {
      assert (a + b)[i] != (a + b)[j];
    }
    forall i, j | 0 <= i < j < |b| ensures b[i] != b[j] {
      assert (a + b)[|a| + i] != (a + b)[|a| + j];
    }
    forall i, j | 0 <= i < |a| && 0 <= j < |b| ensures a[i] != b[j] {
      assert (a + b)[i] != (a + b)[|a| + j];
    }
  }

  lemma DistinctJoin(a: seq<Id>, b: seq<Id>)
    requires Distinct(a) && Distinct(b) && forall x :: x in a ==> x !in b
    ensures Distinct(a + b)
  {
    forall i, j | 0 <= i < j < |a + b| ensures (a + b)[i] != (a + b)[j] {
      if i < |a| <= j {
        assert a[i] in a && b[j - |a|] in b;
      }
    }
  }

  /** The parts of a node's pre-order are distinct. */
  lemma DistinctNode(f: Forest)
    requires f.Node? && Distinct(PreOrder(f))
    ensures Distinct(PreOrder(f.list)) && Distinct(PreOrder(f.next))
    ensures f.id !in PreOrder(f.list) && f.id !in PreOrder(f.next)
    ensures forall x :: x in PreOrder(f.list) ==> x !in PreOrder(f.next)
  {
    DistinctParts([f.id] + PreOrder(f.list), PreOrder(f.next));
    DistinctParts([f.id], PreOrder(f.list));
    assert f.id in [f.id] + PreOrder(f.list);
    assert forall x :: x in PreOrder(f.list) ==> x in [f.id] + PreOrder(f.list);
  }

  lemma InPreOrder(f: Forest)
    requires f.Node?
    ensures f.id in PreOrder(f)
    ensures forall i :: i in PreOrder(f) <==> i == f.id || i in PreOrder(f.list) || i in PreOrder(f.next)
  {
    var (a, b) := (PreOrder(f.list), PreOrder(f.next));
    assert PreOrder(f) == [f.id] + a + b;
    assert f.id in [f.id];
  }

  lemma {:induction false} AppendPreOrder(f: Forest, g: Forest)
    ensures PreOrder(Append(f, g)) == PreOrder(f) + PreOrder(g)
  {
    match f
    case Nil =>
    case Node(id, l, n) =>
      AppendPreOrder(n, g);
      assert PreOrder(Append(f, g)) == [id] + PreOrder(l) + (PreOrder(n) + PreOrder(g));
  }

  lemma {:induction false} AppendTwice(f: Forest, g: Forest, k: Forest)
    ensures Append(Append(f, g), k) == Append(f, Append(g, k))
    ensures Append(f, Nil) == f
  {
    match f
    case Nil =>
    case Node(_, _, n) => AppendTwice(n, g, k);
  }

  /** Two sets of pointers agree on the entries of `s`. */
  ghost predicate Agree(h: Links, h': Links, s: seq<Id>) {
    forall i {:trigger i in s} :: i in s ==>
      (i in h.next && i in h.list && i in h.parent ==>
        i in h'.next && i in h'.list && i in h'.parent &&
        h'.next[i] == h.next[i] && h'.list[i] == h.list[i] && h'.parent[i] == h.parent[i])
  }

  lemma AgreeParts(h: Links, h': Links, f: Forest)
    requires f.Node? && Agree(h, h', PreOrder(f))
    ensures Agree(h, h', PreOrder(f.list)) && Agree(h, h', PreOrder(f.next)) && Agree(h, h', [f.id])
  {
    var s := PreOrder(f);
    assert s[0] == f.id && f.id in s;
    assert forall x :: x in PreOrder(f.list) ==> x in s;
    assert forall x :: x in PreOrder(f.next) ==> x in s;
  }

  /** Pointers elsewhere do not matter. */
  lemma {:induction false} ChainFrame(h: Links, h': Links, p: Option<Id>, f: Forest, up: Option<Id>, end: Option<Id>)
    requires Chain(h, p, f, up, end) && Agree(h, h', PreOrder(f))
    ensures Chain(h', p, f, up, end)
    decreases f
  {
    match f
    case Nil =>
    case Node(id, l, n) =>
      AgreeParts(h, h', f);
      assert id in [id];
      ChainFrame(h, h', h.list[id], l, Some(id), None);
      ChainFrame(h, h', h.next[id], n, up, end);
  }

  /** Two chains, the second taking up where the first ends. */
  lemma {:induction false} ChainJoin(h: Links, p: Option<Id>, f: Forest, m: Option<Id>, g: Forest, up: Option<Id>, end: Option<Id>)
    requires Chain(h, p, f, up, m) && Chain(h, m, g, up, end)
    ensures Chain(h, p, Append(f, g), up, end)
    decreases f
  {
    match f
    case Nil =>
    case Node(id, _, n) => ChainJoin(h, h.next[id], n, m, g, up, end);
  }

  /** The last entry of the top level. */
  function Last(f: Forest): Id
    requires f.Node?
  {
    if f.next.Nil? then f.id else Last(f.next)
  }

  lemma {:induction false} LastIsTop(f: Forest)
    requires f.Node?
    ensures Last(f) in PreOrder(f)
  {
    if f.next.Node? {
      LastIsTop(f.next);
    }
  }

  /** Redirecting the next pointer of the last entry. */
  lemma {:induction false} ChainRedirect(h: Links, p: Option<Id>, f: Forest, up: Option<Id>, end: Option<Id>, end': Option<Id>)
    requires Chain(h, p, f, up, end) && f.Node? && Distinct(PreOrder(f))
    ensures Last(f) in h.next && h.next[Last(f)] == end
    ensures Chain(h.(next := h.next[Last(f) := end']), p, f, up, end')
    decreases f
  {
    DistinctNode(f);
    LastIsTop(f);
    var h' := h.(next := h.next[Last(f) := end']);
    if f.next.Nil? {
      ChainFrame(h, h', h.list[f.id], f.list, Some(f.id), None);
    } else {
      LastIsTop(f.next);
      ChainRedirect(h, h.next[f.id], f.next, up, end, end');
      ChainFrame(h, h', h.list[f.id], f.list, Some(f.id), None);
    }
  }

  /** `c` is in the list of `p` somewhere in `f`; the owner of the top level is `up`. */
  predicate ChildOf(f: Forest, up: Id, c: Id, p: Id) {
    match f
    case Nil => false
    case Node(id, l, n) => (id == c && up == p) || ChildOf(l, id, c, p) || ChildOf(n, up, c, p)
  }

  /** The parent pointer of every entry is the entry whose list holds it. */
  lemma {:induction false} ParentHoldsChild(h: Links, q: Option<Id>, f: Forest, up: Id, c: Id, p: Id)
    requires Chain(h, q, f, Some(up), None) && ChildOf(f, up, c, p)
    ensures c in h.parent && h.parent[c] == Some(p)
    decreases f
  {
    var Node(id, l, n) := f;
    if !(id == c && up == p) {
      if ChildOf(l, id, c, p) {
        ParentHoldsChild(h, h.list[id], l, id, c, p);
      } else {
        ParentHoldsChild(h, h.next[id], n, up, c, p);
      }
    }
  }
}
