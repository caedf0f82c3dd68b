/** Small helpers shared by the model: an optional value and sequence flattening. */
module Common {

  /** A value that may be missing; `None` also stands for a run that an exception aborted. */
  datatype Option<+T> = None | Some(value: T)

  /** The groups of `groups` concatenated in order. */
  function Flatten<V>(groups: seq<seq<V>>): seq<V>
  {
    if groups == [] then [] else Flatten(groups[..|groups| - 1]) + groups[|groups| - 1]
  }

  /** Appending one group appends its elements. */
  lemma FlattenSnoc<V>(groups: seq<seq<V>>, g: seq<V>)
    ensures Flatten(groups + [g]) == Flatten(groups) + g
  {
    assert (groups + [g])[..|groups|] == groups;
  }

  /** Flattening distributes over concatenation. */
  lemma {:induction false} FlattenAppend<V>(a: seq<seq<V>>, b: seq<seq<V>>)
    ensures Flatten(a + b) == Flatten(a) + Flatten(b)
    decreases |b|
  {
    if b == [] {
      assert a + b == a;
    } else {
      var init := b[..|b| - 1];
      assert a + b == (a + init) + [b[|b| - 1]];
      FlattenSnoc(a + init, b[|b| - 1]);
      FlattenAppend(a, init);
    }
  }

  /** Prepending one group prepends its elements. */
  lemma FlattenCons<V>(g: seq<V>, groups: seq<seq<V>>)
    ensures Flatten([g] + groups) == g + Flatten(groups)
  {
    FlattenAppend([g], groups);
    assert [g][..0] == [];
  }

  /** Every element of every group is in the flattening. */
  lemma {:induction false} FlattenContains<V>(groups: seq<seq<V>>, g: seq<V>, x: V)
    requires g in groups && x in g
    ensures x in Flatten(groups)
    decreases |groups|
  {
    var init := groups[..|groups| - 1];
    if g == groups[|groups| - 1] {
      assert x in Flatten(init) + g;
    } else {
      assert g in init;
      FlattenContains(init, g, x);
      assert x in Flatten(init) + groups[|groups| - 1];
    }
  }
}
