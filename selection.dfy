/**
 * The filter selection as the dashboard reads it: each checkbox group of
 * the selection store (traffic type, access type, domain) is an object from
 * option label to a boolean, and `selectedTypes` keeps the ticked labels.
 */
module Selection {

  /** One checkbox group: (option label, ticked) pairs in the object's entry order. */
  type Flags = seq<(string, bool)>

  predicate Distinct<T(==)>(s: seq<T>)
  {
    forall i, j :: 0 <= i < j < |s| ==> s[i] != s[j]
  }

  /** The labels of an object's entries are its keys, so they are distinct. */
  predicate DistinctLabels(flags: Flags)
  {
    forall i, j :: 0 <= i < j < |flags| ==> flags[i].0 != flags[j].0
  }

  /** `Object.entries(group).filter(kv => kv[1]).map(kv => kv[0])`. */
  function SelectedTypes(flags: Flags): (r: seq<string>)
    ensures |r| <= |flags|
    ensures forall x :: x in r <==> (x, true) in flags
  {
    if flags == [] then []
    else (if flags[0].1 then [flags[0].0] else []) + SelectedTypes(flags[1..])
  }

  /** Selection keeps entry order: it distributes over concatenation of entry lists. */
  lemma {:induction false} SelectedTypesAppend(a: Flags, b: Flags)
    ensures SelectedTypes(a + b) == SelectedTypes(a) + SelectedTypes(b)
  {
    if a != [] {
      assert (a + b)[1..] == a[1..] + b;
      SelectedTypesAppend(a[1..], b);
    } else {
      assert a + b == b;
    }
  }

  /** No label is selected twice. */
  lemma {:induction false} SelectedTypesDistinct(flags: Flags)
    requires DistinctLabels(flags)
    ensures Distinct(SelectedTypes(flags))
  {
    if flags != [] {
      SelectedTypesDistinct(flags[1..]);
      var rest := SelectedTypes(flags[1..]);
      if flags[0].1 {
        assert flags[0].0 !in rest;
        assert SelectedTypes(flags) == [flags[0].0] + rest;
      } else {
        assert SelectedTypes(flags) == rest;
      }
    }
  }

  /** Nothing ticked, nothing selected: an empty selection is not an error. */
  lemma {:induction false} NothingTicked(flags: Flags)
    requires forall i :: 0 <= i < |flags| ==> !flags[i].1
    ensures SelectedTypes(flags) == []
  {
    if flags != [] {
      NothingTicked(flags[1..]);
    }
  }
}
