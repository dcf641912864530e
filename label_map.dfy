/**
 * The `Dict[str, float]` the suite runners fill: a Python dict keeps its keys
 * in insertion order, and assigning to an existing key replaces the value in
 * place. It is modelled as the list of its entries in that order.
 */
module LabelMap {
  import opened Seqs

  datatype Entry = Entry(name: string, value: real)

  type Dict = seq<Entry>

  function Name(e: Entry): string
  {
    e.name
  }

  function Labels(d: seq<Entry>): seq<string>
  {
    MapSeq(d, Name)
  }

  predicate Distinct(xs: seq<string>)
  {
    forall i, j :: 0 <= i < j < |xs| ==> xs[i] != xs[j]
  }

  /** `d[k]`, with `None` where Python raises `KeyError`. */
  function Get(d: Dict, k: string): (r: Option<real>)
    ensures r.Some? <==> k in Labels(d)
  {
    if d == [] then None
    else if d[0].name == k then Some(d[0].value)
    else
      assert Labels(d) == [d[0].name] + Labels(d[1..]);
      Get(d[1..], k)
  }

  /** `d[k] = v`: replace the value of an existing key where it stands, or add the key at the end. */
  function Put(d: Dict, k: string, v: real): Dict
  {
    if d == [] then [Entry(k, v)]
    else if d[0].name == k then [Entry(k, v)] + d[1..]
    else [d[0]] + Put(d[1..], k, v)
  }

  /** After `d[k] = v`, `d[k]` is `v` and every other key keeps its value. */
  lemma {:induction false} PutGet(d: Dict, k: string, v: real, k': string)
    ensures Get(Put(d, k, v), k') == if k' == k then Some(v) else Get(d, k')
  {
    if d != [] && d[0].name != k {
      PutGet(d[1..], k, v, k');
    }
  }

  /** Assigning a key that is not yet present appends it: nothing is overwritten. */
  lemma {:induction false} PutFresh(d: Dict, k: string, v: real)
    requires k !in Labels(d)
    ensures Put(d, k, v) == d + [Entry(k, v)]
  {
    if d != [] {
      assert Labels(d) == [d[0].name] + Labels(d[1..]);
      PutFresh(d[1..], k, v);
      assert d == [d[0]] + d[1..];
    }
  }

  /** Assigning an existing key keeps the keys and their order. */
  lemma {:induction false} PutExisting(d: Dict, k: string, v: real)
    requires k in Labels(d)
    ensures Labels(Put(d, k, v)) == Labels(d)
  {
    assert Labels(d) == [d[0].name] + Labels(d[1..]);
    if d[0].name != k {
      PutExisting(d[1..], k, v);
      assert Labels(Put(d, k, v)) == [d[0].name] + Labels(Put(d[1..], k, v));
    } else {
      assert Labels(Put(d, k, v)) == [k] + Labels(d[1..]);
    }
  }

  /** The dict obtained by assigning the entries one after another, from first to last. */
  function FromPairs(ps: seq<Entry>): Dict
  {
    if ps == [] then []
    else Put(FromPairs(ps[..|ps| - 1]), ps[|ps| - 1].name, ps[|ps| - 1].value)
  }

  /** With distinct labels no assignment overwrites another: the dict is the entries, in order. */
  lemma {:induction false} FromPairsDistinct(ps: seq<Entry>)
    requires Distinct(Labels(ps))
    ensures FromPairs(ps) == ps
  {
    if ps != [] {
      var init := ps[..|ps| - 1];
      var last := ps[|ps| - 1];
      assert Labels(init) == Labels(ps)[..|ps| - 1];
      FromPairsDistinct(init);
      PutFresh(init, last.name, last.value);
      assert init + [last] == ps;
    }
  }

  /** The keys of the dict are exactly the labels assigned, whatever the values. */
  lemma {:induction false} FromPairsKeys(ps: seq<Entry>, k: string)
    ensures k in Labels(FromPairs(ps)) <==> k in Labels(ps)
  {
    if ps != [] {
      var init := ps[..|ps| - 1];
      var last := ps[|ps| - 1];
      FromPairsKeys(init, k);
      PutGet(FromPairs(init), last.name, last.value, k);
      assert ps == init + [last];
      MapSnoc(init, last, Name);
    }
  }
}
