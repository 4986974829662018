/**
 * The SKU table of the product form: rows keyed by their joined `model`
 * string, the reconciliation that rebuilds the table from freshly computed combinations
 * (the `map` + `find` in `generateSKUs`), and the per-row edits.
 */
module SkuTable {
  import opened Wrappers
  import opened Combinator

  /**
   * One SKU row. Every row the form holds is built by `Reconcile`, which
   * always sets `tempId`, `price` and `inStock`, so they are not optional here.
   */
  datatype Sku = Sku(tempId: string, model: string, price: real, inStock: int)

  /** Index `j` is where `table.find(sku => sku.model === model)` stops. */
  predicate FirstWithModel(table: seq<Sku>, j: int, model: string)
  {
    0 <= j < |table| && table[j].model == model && forall k :: 0 <= k < j ==> table[k].model != model
  }

  predicate HasModel(table: seq<Sku>, model: string)
  {
    exists j :: 0 <= j < |table| && table[j].model == model
  }

  /** The index of the first row whose model is `model`, if any. */
  function FindByModel(table: seq<Sku>, model: string): (r: Option<nat>)
    ensures r.Some? ==> FirstWithModel(table, r.value, model)
    ensures r.None? ==> !HasModel(table, model)
  {
    if |table| == 0 then None
    else if table[0].model == model then Some(0)
    else match FindByModel(table[1..], model)
      case None => None
      case Some(j) => Some(j + 1)
  }

  /**
   * The row built for one combination: the first previous row with the same
   * model lends its `tempId` (unless it is empty, the JavaScript `||`),
   * `price` and `inStock`; otherwise the row is new with the fresh id and zeros.
   */
  function NewRow(combination: seq<string>, previous: seq<Sku>, freshId: string): Sku
  {
    var model := ModelOf(combination);
    match FindByModel(previous, model)
    case None => Sku(freshId, model, 0.0, 0)
    case Some(j) =>
      Sku(if previous[j].tempId != "" then previous[j].tempId else freshId,
          model, previous[j].price, previous[j].inStock)
  }

  /**
   * The next SKU table: one row per combination, in combination order.
   * `newIds[i]` is the id the generator hands out if row i needs one.
   */
  function Reconcile(combos: seq<seq<string>>, previous: seq<Sku>, newIds: seq<string>): (table: seq<Sku>)
    requires |newIds| >= |combos|
    ensures |table| == |combos|
    ensures forall i :: 0 <= i < |combos| ==> table[i].model == ModelOf(combos[i])
    ensures forall i, j :: 0 <= i < |combos| && FirstWithModel(previous, j, ModelOf(combos[i])) ==>
              && table[i].price == previous[j].price
              && table[i].inStock == previous[j].inStock
              && table[i].tempId == (if previous[j].tempId != "" then previous[j].tempId else newIds[i])
    ensures forall i :: 0 <= i < |combos| && !HasModel(previous, ModelOf(combos[i])) ==>
              table[i] == Sku(newIds[i], ModelOf(combos[i]), 0.0, 0)
  {
    seq(|combos|, i requires 0 <= i < |combos| => NewRow(combos[i], previous, newIds[i]))
  }

  /** No two combinations join to the same model string. */
  predicate DistinctModels(combos: seq<seq<string>>)
  {
    forall i, j :: 0 <= i < j < |combos| ==> ModelOf(combos[i]) != ModelOf(combos[j])
  }

  /** No two rows share a `tempId`. */
  predicate DistinctIds(table: seq<Sku>)
  {
    forall i, j :: 0 <= i < j < |table| ==> table[i].tempId != table[j].tempId
  }

  predicate HasId(table: seq<Sku>, id: string)
  {
    exists j :: 0 <= j < |table| && table[j].tempId == id
  }

  /** Ids handed out by the generator for the first `n` rows: non-empty, distinct and unused in `table`. */
  predicate FreshFor(newIds: seq<string>, n: nat, table: seq<Sku>)
  {
    && |newIds| >= n
    && (forall i :: 0 <= i < n ==> newIds[i] != "" && !HasId(table, newIds[i]))
    && (forall i, j :: 0 <= i < j < n ==> newIds[i] != newIds[j])
  }

  /**
   * Reconciling again with the same combinations changes nothing, provided
   * the combinations have distinct models and the generator never returns "".
   */
  lemma ReconcileIdempotent(combos: seq<seq<string>>, previous: seq<Sku>, newIds1: seq<string>, newIds2: seq<string>)
    requires |newIds1| >= |combos| && |newIds2| >= |combos|
    requires DistinctModels(combos)
    requires forall i :: 0 <= i < |combos| ==> newIds1[i] != ""
    ensures Reconcile(combos, Reconcile(combos, previous, newIds1), newIds2) == Reconcile(combos, previous, newIds1)
  {
    var once := Reconcile(combos, previous, newIds1);
    var twice := Reconcile(combos, once, newIds2);
    forall i | 0 <= i < |combos|
      ensures twice[i] == once[i]
    {
      assert FirstWithModel(once, i, ModelOf(combos[i]));
      if HasModel(previous, ModelOf(combos[i])) {
        var j := FindByModel(previous, ModelOf(combos[i])).value;
        assert FirstWithModel(previous, j, ModelOf(combos[i]));
      }
    }
  }

  /**
   * Ids stay unique: each row keeps the id of the previous row with its model
   * or takes its newIds id, and distinct models never share a previous row.
   */
  lemma ReconcileIdsDistinct(combos: seq<seq<string>>, previous: seq<Sku>, newIds: seq<string>)
    requires FreshFor(newIds, |combos|, previous)
    requires DistinctModels(combos)
    requires DistinctIds(previous)
    ensures DistinctIds(Reconcile(combos, previous, newIds))
    ensures forall i :: 0 <= i < |combos| ==>
              var id := Reconcile(combos, previous, newIds)[i].tempId;
              id == newIds[i] || exists j :: FirstWithModel(previous, j, ModelOf(combos[i])) && previous[j].tempId == id
  {
    var table := Reconcile(combos, previous, newIds);
    forall i | 0 <= i < |combos|
      ensures table[i].tempId == newIds[i] ||
              exists j :: FirstWithModel(previous, j, ModelOf(combos[i])) && previous[j].tempId == table[i].tempId
    {
      if HasModel(previous, ModelOf(combos[i])) {
        var j := FindByModel(previous, ModelOf(combos[i])).value;
        assert FirstWithModel(previous, j, ModelOf(combos[i]));
      }
    }
    forall a, b | 0 <= a < b < |combos|
      ensures table[a].tempId != table[b].tempId
    {
      var ma, mb := ModelOf(combos[a]), ModelOf(combos[b]);
      var fa, fb := FindByModel(previous, ma), FindByModel(previous, mb);
      if fa.Some? && previous[fa.value].tempId != "" {
        assert FirstWithModel(previous, fa.value, ma);
        if fb.Some? && previous[fb.value].tempId != "" {
          assert FirstWithModel(previous, fb.value, mb);
          assert fa.value != fb.value;
        } else {
          assert table[b].tempId == newIds[b];
          assert !HasId(previous, newIds[b]);
        }
      } else {
        assert table[a].tempId == newIds[a] by {
          if fa.Some? { assert FirstWithModel(previous, fa.value, ma); }
        }
        if fb.Some? && previous[fb.value].tempId != "" {
          assert FirstWithModel(previous, fb.value, mb);
          assert !HasId(previous, newIds[a]);
        } else {
          assert table[b].tempId == newIds[b] by {
            if fb.Some? { assert FirstWithModel(previous, fb.value, mb); }
          }
        }
      }
    }
  }

  /** Two different combinations can join to the same model when a value contains the separator. */
  lemma SeparatorCollision()
    ensures ["a / b", "c"] != ["a", "b / c"]
    ensures ModelOf(["a / b", "c"]) == ModelOf(["a", "b / c"])
  {
    assert ["a / b", "c"][..1] == ["a / b"];
    assert ["a", "b / c"][..1] == ["a"];
  }

  /** With a repeated model, a second reconciliation hands the second row the first row's id. */
  lemma ReconcileRepeatedModel()
    ensures var once := Reconcile([["a"], ["a"]], [], ["x", "y"]);
            Reconcile([["a"], ["a"]], once, ["z", "w"]) != once
  {
    var once := Reconcile([["a"], ["a"]], [], ["x", "y"]);
    assert !HasModel([], ModelOf(["a"]));
    assert once[0].tempId == "x" && once[1].tempId == "y";
    var twice := Reconcile([["a"], ["a"]], once, ["z", "w"]);
    assert FirstWithModel(once, 0, ModelOf(["a"]));
    assert twice[1].tempId == "x";
  }

  /** `parseFloat(text) || 0`, with `None` standing for NaN. */
  function ParsedPrice(parsed: Option<real>): (price: real)
    ensures parsed.Some? ==> price == parsed.value
    ensures parsed.None? ==> price == 0.0
  {
    if parsed.Some? then parsed.value else 0.0
  }

  /** `parseInt(text, 10) || 0`, with `None` standing for NaN. */
  function ParsedStock(parsed: Option<int>): (stock: int)
    ensures parsed.Some? ==> stock == parsed.value
    ensures parsed.None? ==> stock == 0
  {
    if parsed.Some? then parsed.value else 0
  }

  /** `handleSkuPriceChange`: the rows with id `tempId` get the new price; nothing else changes. */
  function WithPrice(table: seq<Sku>, tempId: string, parsed: Option<real>): (r: seq<Sku>)
    ensures |r| == |table|
    ensures forall i :: 0 <= i < |table| ==>
              r[i].tempId == table[i].tempId && r[i].model == table[i].model && r[i].inStock == table[i].inStock
    ensures forall i :: 0 <= i < |table| && table[i].tempId != tempId ==> r[i] == table[i]
    ensures forall i :: 0 <= i < |table| && table[i].tempId == tempId ==> r[i].price == ParsedPrice(parsed)
  {
    seq(|table|, i requires 0 <= i < |table| =>
      if table[i].tempId == tempId then table[i].(price := ParsedPrice(parsed)) else table[i])
  }

  /** `handleSkuInStockChange`: the rows with id `tempId` get the new stock; nothing else changes. */
  function WithStock(table: seq<Sku>, tempId: string, parsed: Option<int>): (r: seq<Sku>)
    ensures |r| == |table|
    ensures forall i :: 0 <= i < |table| ==>
              r[i].tempId == table[i].tempId && r[i].model == table[i].model && r[i].price == table[i].price
    ensures forall i :: 0 <= i < |table| && table[i].tempId != tempId ==> r[i] == table[i]
    ensures forall i :: 0 <= i < |table| && table[i].tempId == tempId ==> r[i].inStock == ParsedStock(parsed)
  {
    seq(|table|, i requires 0 <= i < |table| =>
      if table[i].tempId == tempId then table[i].(inStock := ParsedStock(parsed)) else table[i])
  }

  /** `handleRemoveSku`: keep, in order, the rows whose id is not `tempId`. */
  function WithoutSku(table: seq<Sku>, tempId: string): (r: seq<Sku>)
    ensures |r| <= |table|
    ensures forall i :: 0 <= i < |r| ==> r[i].tempId != tempId
    ensures !HasId(table, tempId) ==> r == table
  {
    if |table| == 0 then []
    else (if table[0].tempId == tempId then [] else [table[0]]) + WithoutSku(table[1..], tempId)
  }

  /** The rows kept are exactly the rows whose id differs. */
  lemma {:induction false} WithoutSkuMember(table: seq<Sku>, tempId: string, row: Sku)
    ensures row in WithoutSku(table, tempId) <==> row in table && row.tempId != tempId
  {
    if |table| > 0 {
      WithoutSkuMember(table[1..], tempId, row);
      assert table == [table[0]] + table[1..];
    }
  }

  /** Removing by id distributes over concatenation: the rows kept keep their order and multiplicity. */
  lemma {:induction false} WithoutSkuAppend(a: seq<Sku>, b: seq<Sku>, tempId: string)
    ensures WithoutSku(a + b, tempId) == WithoutSku(a, tempId) + WithoutSku(b, tempId)
  {
    if |a| > 0 {
      var head := if a[0].tempId == tempId then [] else [a[0]];
      assert (a + b)[0] == a[0] && (a + b)[1..] == a[1..] + b;
      assert WithoutSku(a + b, tempId) == head + WithoutSku(a[1..] + b, tempId);
      WithoutSkuAppend(a[1..], b, tempId);
      assert WithoutSku(a, tempId) == head + WithoutSku(a[1..], tempId);
    } else {
      assert a + b == b;
    }
  }

  /** With unique ids, removing by id removes exactly the one row that has it and keeps the others in order. */
  lemma {:induction false} WithoutSkuAt(table: seq<Sku>, k: nat)
    requires k < |table| && DistinctIds(table)
    ensures WithoutSku(table, table[k].tempId) == table[..k] + table[k + 1..]
  {
    var id := table[k].tempId;
    if k == 0 {
      assert !HasId(table[1..], id);
    } else {
      WithoutSkuAt(table[1..], k - 1);
      assert table[1..][..k - 1] == table[1..k];
      assert table[..k] == [table[0]] + table[1..k];
    }
  }
}
