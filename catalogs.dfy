/**
  A Python dict keyed by string, as the game's catalogs use it: lookups go
  through `entries`, iteration (`items()`, `values()`) follows `order`, the
  keys in first-insertion order. Assigning to a key that is already present
  replaces its value and keeps its position.
 */
module Catalogs {
  import opened Seqs

  datatype RawCatalog<T> = RawCatalog(order: seq<string>, entries: map<string, T>)

  ghost predicate WellFormed<T>(c: RawCatalog<T>) {
    && NoDuplicates(c.order)
    && (forall k :: k in c.order ==> k in c.entries)
    && (forall k :: k in c.entries ==> k in c.order)
  }

  type Catalog<T> = c: RawCatalog<T> | WellFormed(c) witness RawCatalog([], map[])

  function Empty<T>(): (c: Catalog<T>)
    ensures c.order == [] && c.entries == map[]
  {
    RawCatalog([], map[])
  }

  /** `d[key] = value`. */
  function Insert<T>(c: Catalog<T>, key: string, value: T): (r: Catalog<T>)
    ensures r.entries == c.entries[key := value]
    ensures key in c.entries ==> r.order == c.order
    ensures key !in c.entries ==> r.order == c.order + [key]
  {
    if key in c.entries then RawCatalog(c.order, c.entries[key := value])
    else
      var order := c.order + [key];
      assert NoDuplicates(order) by {
        forall i, j | 0 <= i < j < |order| ensures order[i] != order[j] {
          if j == |c.order| { assert order[i] in c.order; }
        }
      }
      RawCatalog(order, c.entries[key := value])
  }

  /** `list(d.values())`. */
  function Values<T>(c: Catalog<T>): (vs: seq<T>)
    ensures |vs| == |c.order|
    ensures forall i :: 0 <= i < |c.order| ==> vs[i] == c.entries[c.order[i]]
  {
    seq(|c.order|, i requires 0 <= i < |c.order| => c.entries[c.order[i]])
  }

  /** `d.values()` holds exactly the stored values. */
  lemma ValuesAreEntries<T>(c: Catalog<T>)
    ensures forall v :: v in Values(c) <==> v in c.entries.Values
  {
    var vs := Values(c);
    forall v | v in vs ensures v in c.entries.Values {
      var i :| 0 <= i < |vs| && vs[i] == v;
      assert c.entries[c.order[i]] == v;
    }
    forall v | v in c.entries.Values ensures v in vs {
      var k :| k in c.entries && c.entries[k] == v;
      assert k in c.order;
      var i :| 0 <= i < |c.order| && c.order[i] == k;
      assert vs[i] == v;
    }
  }

  /** `for x in xs: d[id(x)] = x`. */
  function InsertAll<T>(c: Catalog<T>, xs: seq<T>, id: T -> string): Catalog<T>
    decreases |xs|
  {
    if xs == [] then c else InsertAll(Insert(c, id(xs[0]), xs[0]), xs[1..], id)
  }

  /** Storing records under other keys leaves a key's presence and value alone. */
  lemma {:induction false} InsertAllKeeps<T>(c: Catalog<T>, xs: seq<T>, id: T -> string, key: string)
    requires forall i :: 0 <= i < |xs| ==> id(xs[i]) != key
    ensures key in InsertAll(c, xs, id).entries <==> key in c.entries
    ensures key in c.entries ==> InsertAll(c, xs, id).entries[key] == c.entries[key]
    decreases |xs|
  {
    if xs != [] {
      InsertAllKeeps(Insert(c, id(xs[0]), xs[0]), xs[1..], id, key);
    }
  }

  /** When no two records share a key, each one is found under its own key. */
  lemma {:induction false} InsertAllFinds<T>(c: Catalog<T>, xs: seq<T>, id: T -> string)
    requires forall i, j :: 0 <= i < j < |xs| ==> id(xs[i]) != id(xs[j])
    ensures forall i :: 0 <= i < |xs| ==>
      id(xs[i]) in InsertAll(c, xs, id).entries && InsertAll(c, xs, id).entries[id(xs[i])] == xs[i]
    decreases |xs|
  {
    if xs != [] {
      var next := Insert(c, id(xs[0]), xs[0]);
      InsertAllFinds(next, xs[1..], id);
      InsertAllKeeps(next, xs[1..], id, id(xs[0]));
    }
  }

  /** A later assignment to the same key wins, and the key keeps its first position. */
  lemma InsertOverwrites<T>(c: Catalog<T>, key: string, first: T, second: T)
    ensures Insert(Insert(c, key, first), key, second) == Insert(c, key, second)
  {
  }
}
