/** Sorted collections of integers without duplicates. */
module SortedSeqs {

  ghost predicate Ascending(values: seq<int>) {
    forall i, j :: 0 <= i < j < |values| ==> values[i] < values[j]
  }

  lemma Prepended(first: int, rest: seq<int>)
    requires Ascending(rest) && forall u :: u in rest ==> first < u
    ensures Ascending([first] + rest)
  {
    var all := [first] + rest;
    forall i, j | 0 <= i < j < |all|
      ensures all[i] < all[j]
    {
      assert all[j] == rest[j - 1] && rest[j - 1] in rest;
    }
  }

  lemma TailIsAbove(values: seq<int>)
    requires Ascending(values) && values != []
    ensures Ascending(values[1..]) && forall u :: u in values[1..] ==> values[0] < u
    ensures forall u :: u in values <==> u == values[0] || u in values[1..]
  {
    assert values == [values[0]] + values[1..];
    assert forall k :: 0 <= k < |values[1..]| ==> values[1..][k] == values[k + 1];
  }

  /** The collection with one more value. */
  function Collect(values: seq<int>, value: int): (r: seq<int>)
    requires Ascending(values)
    ensures Ascending(r)
    ensures forall u :: u in r <==> u == value || u in values
  {
    if values == [] then [value]
    else
      TailIsAbove(values);
      if value < values[0] then
        Prepended(value, values);
        [value] + values
      else if value == values[0] then values
      else
        var rest := Collect(values[1..], value);
        Prepended(values[0], rest);
        [values[0]] + rest
  }
}
