/**
 * The Cartesian combinator of the product form (`cartesianProduct` in
 * Products.tsx) and the joining of one combination into a SKU model string.
 *
 * `Combinations` is the specification: a left fold that starts from one empty
 * tuple and, for every value list in turn, extends each tuple built so far by
 * each value of that list (tuples outer, values inner). `CartesianProduct` is
 * the method that does the same with the source's nested loops.
 */
module Combinator {

  /** Every tuple of `acc` paired with one value: the body of the inner `forEach` for one tuple `a`. */
  function ExtendOne(a: seq<string>, values: seq<string>): seq<seq<string>>
  {
    seq(|values|, k requires 0 <= k < |values| => a + [values[k]])
  }

  /** One reduction step: the tuples of `acc` in order, each followed by every value of `values`. */
  function ExtendAll(acc: seq<seq<string>>, values: seq<string>): seq<seq<string>>
  {
    if |acc| == 0 then [] else ExtendAll(acc[..|acc| - 1], values) + ExtendOne(acc[|acc| - 1], values)
  }

  /** `lists.reduce(step, [[]])`: all combinations, in the order the source produces them. */
  function Combinations(lists: seq<seq<string>>): seq<seq<string>>
  {
    if |lists| == 0 then [[]] else ExtendAll(Combinations(lists[..|lists| - 1]), lists[|lists| - 1])
  }

  /** The product of the lengths of the value lists (1 for no lists). */
  function LengthProduct(lists: seq<seq<string>>): nat
  {
    if |lists| == 0 then 1 else LengthProduct(lists[..|lists| - 1]) * |lists[|lists| - 1]|
  }

  /** `c` picks exactly one value from each list, element i from list i. */
  predicate IsCombination(c: seq<string>, lists: seq<seq<string>>)
  {
    |c| == |lists| && forall i :: 0 <= i < |lists| ==> c[i] in lists[i]
  }

  /** The nested loops of `cartesianProduct`: the accumulator starts as one empty tuple and is replaced once per list. */
  method CartesianProduct(arrays: seq<seq<string>>) returns (acc: seq<seq<string>>)
    ensures acc == Combinations(arrays)
  {
    acc := [[]];
    var i := 0;
    while i < |arrays|
      invariant 0 <= i <= |arrays|
      invariant acc == Combinations(arrays[..i])
    {
      var arr := arrays[i];
      var result: seq<seq<string>> := [];
      var j := 0;
      while j < |acc|
        invariant 0 <= j <= |acc|
        invariant result == ExtendAll(acc[..j], arr)
      {
        var a := acc[j];
        var k := 0;
        while k < |arr|
          invariant 0 <= k <= |arr|
          invariant result == ExtendAll(acc[..j], arr) + ExtendOne(a, arr[..k])
        {
          result := result + [a + [arr[k]]];
          ExtendOneStep(a, arr, k);
          k := k + 1;
        }
        assert arr[..k] == arr;
        ExtendAllStep(acc, arr, j);
        j := j + 1;
      }
      assert acc[..j] == acc;
      CombinationsStep(arrays, i);
      acc := result;
      i := i + 1;
    }
    assert arrays[..i] == arrays;
  }

  /** The innermost loop, one value further. */
  lemma ExtendOneStep(a: seq<string>, values: seq<string>, k: nat)
    requires k < |values|
    ensures ExtendOne(a, values[..k + 1]) == ExtendOne(a, values[..k]) + [a + [values[k]]]
  {
    assert values[..k + 1][..k] == values[..k];
  }

  /** The middle loop, one tuple further. */
  lemma ExtendAllStep(acc: seq<seq<string>>, values: seq<string>, j: nat)
    requires j < |acc|
    ensures ExtendAll(acc[..j + 1], values) == ExtendAll(acc[..j], values) + ExtendOne(acc[j], values)
  {
    assert acc[..j + 1][..j] == acc[..j];
  }

  /** The outer loop, one list further. */
  lemma CombinationsStep(lists: seq<seq<string>>, i: nat)
    requires i < |lists|
    ensures Combinations(lists[..i + 1]) == ExtendAll(Combinations(lists[..i]), lists[i])
  {
    assert lists[..i + 1][..i] == lists[..i];
  }

  /** Position q * |values| + r of one reduction step holds tuple q extended by value r: values vary fastest. */
  lemma {:induction false} ExtendAllAt(acc: seq<seq<string>>, values: seq<string>, q: nat, r: nat)
    requires q < |acc| && r < |values|
    ensures |ExtendAll(acc, values)| == |acc| * |values|
    ensures q * |values| + r < |acc| * |values|
    ensures ExtendAll(acc, values)[q * |values| + r] == acc[q] + [values[r]]
  {
    var n, m := |acc|, |values|;
    var init := acc[..n - 1];
    ExtendAllLength(init, values);
    assert (n - 1) * m + m == n * m;
    if q < n - 1 {
      ExtendAllAt(init, values, q, r);
    } else {
      assert q * m == (n - 1) * m;
    }
  }

  /** A reduction step has one entry per (tuple, value) pair. */
  lemma {:induction false} ExtendAllLength(acc: seq<seq<string>>, values: seq<string>)
    ensures |ExtendAll(acc, values)| == |acc| * |values|
  {
    if |acc| > 0 {
      ExtendAllLength(acc[..|acc| - 1], values);
      assert (|acc| - 1) * |values| + |values| == |acc| * |values|;
    }
  }

  /** A tuple comes out of a reduction step exactly when it is a tuple of `acc` followed by a value of `values`. */
  lemma {:induction false} ExtendAllMember(acc: seq<seq<string>>, values: seq<string>, c: seq<string>)
    ensures c in ExtendAll(acc, values) <==> |c| > 0 && c[..|c| - 1] in acc && c[|c| - 1] in values
  {
    if |acc| > 0 {
      var init, a := acc[..|acc| - 1], acc[|acc| - 1];
      ExtendAllMember(init, values, c);
      assert acc == init + [a];
      if c in ExtendOne(a, values) {
        var k :| 0 <= k < |values| && ExtendOne(a, values)[k] == c;
        assert c[..|c| - 1] == a;
      }
      if |c| > 0 && c[..|c| - 1] == a && c[|c| - 1] in values {
        var k :| 0 <= k < |values| && values[k] == c[|c| - 1];
        assert c == a + [values[k]];
        assert ExtendOne(a, values)[k] == c;
      }
    }
  }

  /** The number of combinations is the product of the value-list lengths. */
  lemma {:induction false} CombinationsLength(lists: seq<seq<string>>)
    ensures |Combinations(lists)| == LengthProduct(lists)
  {
    if |lists| > 0 {
      CombinationsLength(lists[..|lists| - 1]);
      ExtendAllLength(Combinations(lists[..|lists| - 1]), lists[|lists| - 1]);
    }
  }

  /** A tuple is produced exactly when element i of it comes from list i, for every i. */
  lemma {:induction false} CombinationsMember(lists: seq<seq<string>>, c: seq<string>)
    ensures c in Combinations(lists) <==> IsCombination(c, lists)
  {
    if |lists| == 0 {
      assert IsCombination(c, lists) <==> c == [];
    } else {
      var init, last := lists[..|lists| - 1], lists[|lists| - 1];
      ExtendAllMember(Combinations(init), last, c);
      if |c| > 0 {
        var p := c[..|c| - 1];
        CombinationsMember(init, p);
        if IsCombination(c, lists) {
          assert forall i :: 0 <= i < |init| ==> p[i] == c[i] && init[i] == lists[i];
        }
        if IsCombination(p, init) && c[|c| - 1] in last {
          assert forall i :: 0 <= i < |lists| - 1 ==> c[i] == p[i] && lists[i] == init[i];
        }
      }
    }
  }

  /**
   * Adding one more list multiplies the combinations: entry q * |values| + r is
   * combination q of the earlier lists followed by value r, so the last list varies fastest.
   */
  lemma CombinationsOrder(lists: seq<seq<string>>, values: seq<string>, q: nat, r: nat)
    requires q < |Combinations(lists)| && r < |values|
    ensures q * |values| + r < |Combinations(lists + [values])|
    ensures Combinations(lists + [values])[q * |values| + r] == Combinations(lists)[q] + [values[r]]
  {
    assert (lists + [values])[..|lists|] == lists;
    ExtendAllAt(Combinations(lists), values, q, r);
  }

  /** The total length of the parts. */
  function PartsLength(parts: seq<string>): nat
  {
    if |parts| == 0 then 0 else PartsLength(parts[..|parts| - 1]) + |parts[|parts| - 1]|
  }

  /**
   * `parts.join(sep)`: the parts in order with the separator between
   * neighbours, one separator per pair of neighbours.
   */
  function Join(parts: seq<string>, sep: string): (r: string)
    ensures |parts| == 0 ==> r == ""
    ensures |parts| == 1 ==> r == parts[0]
    ensures |parts| > 0 ==> |r| == PartsLength(parts) + (|parts| - 1) * |sep|
  {
    if |parts| == 0 then "" else if |parts| == 1 then parts[0]
    else Join(parts[..|parts| - 1], sep) + sep + parts[|parts| - 1]
  }

  /** A joined string starts with the first part and ends with the last one. */
  lemma {:induction false} JoinEnds(parts: seq<string>, sep: string)
    requires |parts| > 0
    ensures |parts[0]| <= |Join(parts, sep)| && Join(parts, sep)[..|parts[0]|] == parts[0]
    ensures |parts[|parts| - 1]| <= |Join(parts, sep)|
    ensures Join(parts, sep)[|Join(parts, sep)| - |parts[|parts| - 1]|..] == parts[|parts| - 1]
  {
    if |parts| > 1 {
      var init := parts[..|parts| - 1];
      JoinEnds(init, sep);
      assert init[0] == parts[0];
      var prefix := Join(init, sep);
      assert Join(parts, sep) == prefix + sep + parts[|parts| - 1];
      assert (prefix + sep + parts[|parts| - 1])[..|parts[0]|] == prefix[..|parts[0]|];
    }
  }

  const Separator: string := " / "

  /** The SKU model of one combination: a single value is its own model; otherwise three characters per separator. */
  function ModelOf(combination: seq<string>): (model: string)
    ensures |combination| == 1 ==> model == combination[0]
    ensures |combination| > 0 ==> |model| == PartsLength(combination) + 3 * (|combination| - 1)
  {
    Join(combination, Separator)
  }
}
