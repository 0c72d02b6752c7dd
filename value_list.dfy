/** The list transforms behind save and delete: the spread append
    `[...clipboardValues, value]` and the filter
    `clipboardValues.filter((v) => v !== value)`. */
module ValueList {

  /** `values.filter((v) => v !== value)`: every occurrence of `value` is dropped;
      every other element keeps its multiplicity (and, by RemoveAllAppend, its
      order). */
  function RemoveAll(values: seq<string>, value: string): (r: seq<string>)
    ensures value !in r
    ensures forall x :: x in r <==> x in values && x != value
    ensures multiset(r) == multiset(values)[value := 0]
    ensures |r| <= |values|
  {
    if values == [] then []
    else
      assert values == [values[0]] + values[1..];
      if values[0] == value then RemoveAll(values[1..], value)
      else [values[0]] + RemoveAll(values[1..], value)
  }

  /** The filter distributes over concatenation, so the kept elements stay in
      their original order. */
  lemma {:induction false} RemoveAllAppend(a: seq<string>, b: seq<string>, value: string)
    ensures RemoveAll(a + b, value) == RemoveAll(a, value) + RemoveAll(b, value)
  {
    if a == [] {
      assert a + b == b;
    } else {
      assert (a + b)[1..] == a[1..] + b;
      RemoveAllAppend(a[1..], b, value);
    }
  }

  /** Deleting a value that is not in the list rewrites the list unchanged. */
  lemma {:induction false} RemoveAllAbsent(values: seq<string>, value: string)
    requires value !in values
    ensures RemoveAll(values, value) == values
  {
    if values != [] {
      RemoveAllAbsent(values[1..], value);
    }
  }

  /** Deleting the same value twice stores the same list as deleting it once. */
  lemma {:induction false} RemoveAllIdempotent(values: seq<string>, value: string)
    ensures RemoveAll(RemoveAll(values, value), value) == RemoveAll(values, value)
  {
    RemoveAllAbsent(RemoveAll(values, value), value);
  }

  /** Appending `value` and then deleting it gives back the list before the
      append exactly when `value` was not already in it: the delete removes the
      earlier copies as well. */
  lemma {:induction false} AppendThenRemoveAll(values: seq<string>, value: string)
    ensures RemoveAll(values + [value], value) == values <==> value !in values
  {
    RemoveAllAppend(values, [value], value);
    if value !in values {
      RemoveAllAbsent(values, value);
    }
  }
}
