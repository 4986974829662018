/**
 * Walk-throughs of the product form, driving `ProductEditor` the way a user
 * does: pick an attribute, choose values, add it, and let the SKU table be
 * regenerated after each change of the selection.
 */
module Scenarios {
  import opened Wrappers
  import opened Combinator
  import opened SkuTable
  import opened ProductForm

  const Color := AvailableAttribute("c1", "Color", ["Red", "Green", "Blue"])
  const Size := AvailableAttribute("s1", "Size", ["S", "M", "L"])

  /** Adds the attribute `id` of `available` with the values `chosen`. */
  method Pick(editor: ProductEditor, available: seq<AvailableAttribute>, id: string, chosen: seq<string>)
      returns (outcome: AddOutcome)
    requires editor.Valid()
    modifies editor
    ensures editor.Valid()
    ensures editor.skusIds == old(editor.skusIds)
    ensures FindAvailable(available, id).Some? && id != "" && chosen != [] &&
            !NameTaken(old(editor.selectedAttributes), FindAvailable(available, id).value.name) ==>
              outcome == Added &&
              editor.selectedAttributes == old(editor.selectedAttributes) +
                [SelectedAttribute(id, FindAvailable(available, id).value.name, chosen)]
  {
    editor.SelectAttributeName(available, id);
    editor.SelectValues(chosen);
    outcome := editor.AddSelectedAttribute();
  }

  /** The combinations of Color [Red, Blue] alone. */
  lemma ColorCombinations()
    ensures Combinations([["Red", "Blue"]]) == [["Red"], ["Blue"]]
  {
    var colors: seq<seq<string>> := [["Red", "Blue"]];
    var empty: seq<seq<string>> := [];
    assert colors[..0] == empty;
    assert [[]][..0] == empty;
    assert [] + ["Red"] == ["Red"] && [] + ["Blue"] == ["Blue"];
    assert ExtendOne([], ["Red", "Blue"]) == [["Red"], ["Blue"]];
  }

  /** The combinations of Color [Red, Blue] and Size [S, M], the last attribute varying fastest. */
  lemma ColorSizeCombinations()
    ensures Combinations([["Red", "Blue"], ["S", "M"]]) == [["Red", "S"], ["Red", "M"], ["Blue", "S"], ["Blue", "M"]]
  {
    ColorCombinations();
    var empty: seq<seq<string>> := [];
    var lists := [["Red", "Blue"], ["S", "M"]];
    assert lists[..1] == [["Red", "Blue"]];
    var acc := [["Red"], ["Blue"]];
    assert acc[..1] == [["Red"]] && [["Red"]][..0] == empty;
    assert ["Red"] + ["S"] == ["Red", "S"] && ["Red"] + ["M"] == ["Red", "M"];
    assert ["Blue"] + ["S"] == ["Blue", "S"] && ["Blue"] + ["M"] == ["Blue", "M"];
    assert ExtendOne(["Red"], ["S", "M"]) == [["Red", "S"], ["Red", "M"]];
    assert ExtendOne(["Blue"], ["S", "M"]) == [["Blue", "S"], ["Blue", "M"]];
  }

  /** The models of the combinations above, joined with " / ". */
  lemma ColorSizeModels()
    ensures ModelOf(["Red"]) == "Red" && ModelOf(["Blue"]) == "Blue"
    ensures ModelOf(["Red", "S"]) == "Red / S" && ModelOf(["Red", "M"]) == "Red / M"
    ensures ModelOf(["Blue", "S"]) == "Blue / S" && ModelOf(["Blue", "M"]) == "Blue / M"
  {
    assert ["Red", "S"][..1] == ["Red"] && ["Red", "M"][..1] == ["Red"];
    assert ["Blue", "S"][..1] == ["Blue"] && ["Blue", "M"][..1] == ["Blue"];
  }

  /** Colors against a table without the models "Red" and "Blue": two fresh rows. */
  lemma ColorRows(previous: seq<Sku>, newIds: seq<string>)
    requires |newIds| >= 2
    requires !HasModel(previous, "Red") && !HasModel(previous, "Blue")
    ensures Reconcile([["Red"], ["Blue"]], previous, newIds) ==
              [Sku(newIds[0], "Red", 0.0, 0), Sku(newIds[1], "Blue", 0.0, 0)]
  {
    ColorSizeModels();
  }

  /** Color and size against a table without any of the four models: four fresh rows. */
  lemma ColorSizeRows(previous: seq<Sku>, newIds: seq<string>)
    requires |newIds| >= 4
    requires !HasModel(previous, "Red / S") && !HasModel(previous, "Red / M")
    requires !HasModel(previous, "Blue / S") && !HasModel(previous, "Blue / M")
    ensures Reconcile([["Red", "S"], ["Red", "M"], ["Blue", "S"], ["Blue", "M"]], previous, newIds) ==
              [Sku(newIds[0], "Red / S", 0.0, 0), Sku(newIds[1], "Red / M", 0.0, 0),
               Sku(newIds[2], "Blue / S", 0.0, 0), Sku(newIds[3], "Blue / M", 0.0, 0)]
  {
    ColorSizeModels();
  }

  /** Color [Red, Blue] on an empty form: two fresh rows at zero. */
  method ColorOnly() returns (editor: ProductEditor)
    ensures fresh(editor)
    ensures editor.Valid()
    ensures editor.selectedAttributes == [SelectedAttribute("c1", "Color", ["Red", "Blue"])]
    ensures editor.skusIds == [Sku("id_1", "Red", 0.0, 0), Sku("id_2", "Blue", 0.0, 0)]
  {
    editor := new ProductEditor();
    var added := Pick(editor, [Color, Size], "c1", ["Red", "Blue"]);
    assert ValueLists(editor.selectedAttributes) == [["Red", "Blue"]];
    ColorCombinations();
    ColorRows([], ["id_1", "id_2"]);
    editor.GenerateSkus(["id_1", "id_2"]);
  }

  /** Color [Red, Blue] then Size [S, M]: four fresh rows, the last attribute varying fastest, all at zero. */
  method ColorThenSize() returns (editor: ProductEditor)
    ensures fresh(editor)
    ensures editor.Valid()
    ensures editor.selectedAttributes ==
              [SelectedAttribute("c1", "Color", ["Red", "Blue"]), SelectedAttribute("s1", "Size", ["S", "M"])]
    ensures editor.skusIds == [Sku("id_3", "Red / S", 0.0, 0), Sku("id_4", "Red / M", 0.0, 0),
                               Sku("id_5", "Blue / S", 0.0, 0), Sku("id_6", "Blue / M", 0.0, 0)]
  {
    editor := ColorOnly();
    var added := Pick(editor, [Color, Size], "s1", ["S", "M"]);
    assert ValueLists(editor.selectedAttributes) == [["Red", "Blue"], ["S", "M"]];
    ColorSizeCombinations();
    ghost var previous := editor.skusIds;
    assert !HasModel(previous, "Red / S") && !HasModel(previous, "Red / M") &&
           !HasModel(previous, "Blue / S") && !HasModel(previous, "Blue / M") by {
      // "Red" and "Blue" are shorter than every color/size model
      assert forall j :: 0 <= j < |previous| ==> |previous[j].model| < 5;
    }
    ColorSizeRows(previous, ["id_3", "id_4", "id_5", "id_6"]);
    editor.GenerateSkus(["id_3", "id_4", "id_5", "id_6"]);
  }

  /** From the four rows above, price "Red / S" at 9.99: only that row changes. */
  method PriceRedS() returns (editor: ProductEditor)
    ensures fresh(editor)
    ensures editor.Valid()
    ensures editor.selectedAttributes ==
              [SelectedAttribute("c1", "Color", ["Red", "Blue"]), SelectedAttribute("s1", "Size", ["S", "M"])]
    ensures editor.skusIds == [Sku("id_3", "Red / S", 9.99, 0), Sku("id_4", "Red / M", 0.0, 0),
                               Sku("id_5", "Blue / S", 0.0, 0), Sku("id_6", "Blue / M", 0.0, 0)]
  {
    editor := ColorThenSize();
    editor.SkuPriceChange("id_3", Some(9.99));
  }

  /** Then remove Size: the selection is Color alone, and the table is untouched until it is regenerated. */
  method DropSize() returns (editor: ProductEditor)
    ensures fresh(editor)
    ensures editor.Valid()
    ensures editor.selectedAttributes == [SelectedAttribute("c1", "Color", ["Red", "Blue"])]
    ensures editor.skusIds == [Sku("id_3", "Red / S", 9.99, 0), Sku("id_4", "Red / M", 0.0, 0),
                               Sku("id_5", "Blue / S", 0.0, 0), Sku("id_6", "Blue / M", 0.0, 0)]
  {
    editor := PriceRedS();
    editor.RemoveProductAttribute(1);
    assert editor.selectedAttributes == [SelectedAttribute("c1", "Color", ["Red", "Blue"])];
  }

  /**
   * Regenerating after the removal gives Red and Blue back, both fresh and at
   * zero, since no part of a model is carried over.
   */
  method EditThenRemoveSize() returns (editor: ProductEditor)
    ensures editor.selectedAttributes == [SelectedAttribute("c1", "Color", ["Red", "Blue"])]
    ensures editor.skusIds == [Sku("id_7", "Red", 0.0, 0), Sku("id_8", "Blue", 0.0, 0)]
  {
    editor := DropSize();
    assert ValueLists(editor.selectedAttributes) == [["Red", "Blue"]];
    ColorCombinations();
    ghost var previous := editor.skusIds;
    assert !HasModel(previous, "Red") && !HasModel(previous, "Blue") by {
      // every color/size model is longer than "Red" and "Blue"
      assert forall j :: 0 <= j < |previous| ==> |previous[j].model| > 4;
    }
    ColorRows(previous, ["id_7", "id_8"]);
    editor.GenerateSkus(["id_7", "id_8"]);
  }

  /**
   * Removing the only attribute leaves the selection empty, and the SKU table
   * keeps its rows: the empty list is written to `skus`, not `skusIds`.
   */
  method RemoveOnlyAttribute() returns (editor: ProductEditor)
    ensures editor.selectedAttributes == []
    ensures editor.skusIds == [Sku("id_1", "Red", 0.0, 0), Sku("id_2", "Blue", 0.0, 0)]
  {
    editor := ColorOnly();
    editor.RemoveProductAttribute(0);
    assert Combinations(ValueLists(editor.selectedAttributes)) == [[]];
    // with no attribute selected the generator is not consulted; one placeholder id meets the precondition
    editor.GenerateSkus(["id_unused"]);
  }
}
