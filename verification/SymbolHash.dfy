/** sym_lookup and sym_find: one object for every name, found through bucket chains. */
module SymbolHash {
  import opened Options

  const BUCKETS := 257

  /** The part of struct symbol that lookup uses; choices have no name. */
  class SymbolObject {
    const name: Option<string>
    const isConst: bool
    const next: SymbolObject?

    constructor (name: Option<string>, isConst: bool, next: SymbolObject?)
      ensures this.name == name && this.isConst == isConst && this.next == next
    {
      this.name, this.isConst, this.next := name, isConst, next;
    }
  }

  datatype Found = FixedYes | FixedMod | FixedNo | Object(symbol: SymbolObject) | NotFound

  predicate IsFixed(name: string) {
    name == "y" || name == "m" || name == "n"
  }

  function FixedFor(name: string): Found
    requires IsFixed(name)
  {
    if name == "y" then FixedYes else if name == "m" then FixedMod else FixedNo
  }

  function Sum(name: string): nat {
    if name == "" then 0 else Sum(name[..|name| - 1]) + name[|name| - 1] as int
  }

  function Hash(name: string): (h: nat)
    ensures h < 256
  {
    Sum(name) % 256
  }

  method ComputeHash(name: string) returns (h: nat)
    ensures h == Hash(name)
  {
    h := 0;
    for i := 0 to |name|
      invariant h == Sum(name[..i])
    {
      assert name[..i + 1][..i] == name[..i];
      h := h + name[i] as int;
    }
    assert name[..|name|] == name;
    h := h % 256;
  }

  /** Following `next` from `p` one meets the objects `s`. */
  ghost predicate Linked(p: SymbolObject?, s: seq<SymbolObject>) {
    if s == [] then p == null else p != null && p == s[0] && Linked(s[0].next, s[1..])
  }

  predicate Matches(o: SymbolObject, name: string, isConst: bool) {
    o.name == Some(name) && o.isConst == isConst
  }

  /** The objects of bucket `b`: named ones belong there, and no two answer to the same lookup. */
  ghost predicate BucketOk(b: nat, s: seq<SymbolObject>) {
    (forall i :: 0 <= i < |s| ==>
      if s[i].name.None? then b == 256 else !IsFixed(s[i].name.value) && Hash(s[i].name.value) == b) &&
    forall i, j :: 0 <= i < j < |s| && s[i].name.Some? && s[i].name == s[j].name ==> s[i].isConst != s[j].isConst
  }

  class HashTable {
    var buckets: array<SymbolObject?>
    ghost var chains: seq<seq<SymbolObject>>

    ghost predicate Valid()
      reads this, buckets
    {
      buckets.Length == |chains| == BUCKETS &&
      (forall b :: 0 <= b < BUCKETS ==> Linked(buckets[b], chains[b])) &&
      forall b :: 0 <= b < BUCKETS ==> BucketOk(b, chains[b])
    }

    /** All symbols. */
    ghost function All(): set<SymbolObject>
      reads this
    {
      set b, o | 0 <= b < |chains| && o in chains[b] :: o
    }

    constructor ()
      ensures Valid() && fresh(buckets) && All() == {}
    {
      buckets := new SymbolObject?[BUCKETS](_ => null);
      chains := seq(BUCKETS, _ => []);
    }

    /** A lookup can be answered by one object only. */
    lemma OneObject(o: SymbolObject, p: SymbolObject)
      requires Valid() && o in All() && p in All() && o.name.Some? && o.name == p.name && o.isConst == p.isConst
      ensures o == p
    {
      var b :| 0 <= b < |chains| && o in chains[b];
      var c :| 0 <= c < |chains| && p in chains[c];
      var i :| 0 <= i < |chains[b]| && chains[b][i] == o;
      var j :| 0 <= j < |chains[c]| && chains[c][j] == p;
      assert BucketOk(b, chains[b]) && BucketOk(c, chains[c]);
    }

    /** The loop over one bucket chain. */
    method Search(name: string, isConst: bool, b: nat) returns (o: SymbolObject?)
      requires Valid() && b < BUCKETS
      ensures if o == null then forall k :: 0 <= k < |chains[b]| ==> !Matches(chains[b][k], name, isConst)
              else o in chains[b] && Matches(o, name, isConst)
    {
      o := buckets[b];
      ghost var (seen, rest) := ([], chains[b]);
      while o != null
        invariant chains[b] == seen + rest && Linked(o, rest)
        invariant forall k :: 0 <= k < |seen| ==> !Matches(seen[k], name, isConst)
        decreases |rest|
      {
        if Matches(o, name, isConst) {
          return;
        }
        seen, rest := seen + [rest[0]], rest[1..];
        o := o.next;
      }
      assert rest == [];
    }

    /** sym_find: the symbol of that name, if there is one; never a quoted constant. */
    method Find(name: string) returns (r: Found)
      requires Valid()
      ensures if IsFixed(name) then r == FixedFor(name)
              else if r.Object? then r.symbol in All() && Matches(r.symbol, name, false)
              else r == NotFound && forall o :: o in All() ==> !Matches(o, name, false)
    {
      if IsFixed(name) {
        return FixedFor(name);
      }
      var h := ComputeHash(name);
      var o := Search(name, false, h);
      if o == null {
        r := NotFound;
        OnlyInBucket(name, false, h);
      } else {
        r := Object(o);
      }
    }

    lemma OnlyInBucket(name: string, isConst: bool, h: nat)
      requires Valid() && h == Hash(name) && !IsFixed(name)
      requires forall k :: 0 <= k < |chains[h]| ==> !Matches(chains[h][k], name, isConst)
      ensures forall o :: o in All() ==> !Matches(o, name, isConst)
    {
      forall o | o in All() ensures !Matches(o, name, isConst) {
        var b :| 0 <= b < |chains| && o in chains[b];
        assert BucketOk(b, chains[b]);
      }
    }

    /** sym_lookup: the object for a name, made on the first request; without a name a new one. */
    method Lookup(name: Option<string>, isConst: bool) returns (r: Found)
      requires Valid()
      modifies this, buckets
      ensures Valid() && buckets == old(buckets)
      ensures name.Some? && IsFixed(name.value) ==> r == FixedFor(name.value) && All() == old(All())
      ensures !(name.Some? && IsFixed(name.value)) ==>
                r.Object? && All() == old(All()) + {r.symbol} && r.symbol.name == name && r.symbol.isConst == isConst &&
                (r.symbol in old(All()) || fresh(r.symbol)) && (name.None? ==> fresh(r.symbol)) &&
                ((exists o :: o in old(All()) && name.Some? && Matches(o, name.value, isConst)) ==> r.symbol in old(All()))
    {
      if name.None? {
        r := Insert(None, isConst, 256);
        return;
      }
      if IsFixed(name.value) {
        return FixedFor(name.value);
      }
      var h := ComputeHash(name.value);
      var o := Search(name.value, isConst, h);
      if o == null {
        OnlyInBucket(name.value, isConst, h);
        r := Insert(name, isConst, h);
      } else {
        r := Object(o);
        assert o in All();
      }
    }

    /** A new object at the front of its chain. */
    method Insert(name: Option<string>, isConst: bool, b: nat) returns (r: Found)
      requires Valid() && b < BUCKETS
      requires if name.None? then b == 256
               else b == Hash(name.value) && !IsFixed(name.value) &&
                    forall k :: 0 <= k < |chains[b]| ==> !Matches(chains[b][k], name.value, isConst)
      modifies this`chains, buckets
      ensures Valid() && r.Object? && fresh(r.symbol) && r.symbol.name == name && r.symbol.isConst == isConst
      ensures All() == old(All()) + {r.symbol}
    {
      var o := new SymbolObject(name, isConst, buckets[b]);
      buckets[b] := o;
      ghost var c := chains[b];
      chains := chains[b := [o] + c];
      assert ([o] + c)[1..] == c;
      assert o in chains[b];
      r := Object(o);
      forall p | p in old(All()) ensures p in All() {
        var k :| 0 <= k < |old(chains)| && p in old(chains)[k];
        assert p in chains[k];
      }
      forall p | p in All() ensures p in old(All()) + {o} {
        var k :| 0 <= k < |chains| && p in chains[k];
        assert p in old(chains)[k] || p == o;
      }
    }
  }
}
