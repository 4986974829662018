/**
 * The product form of Products.tsx as a state machine: the attribute
 * selection being assembled, the SKU table generated from it, the pending
 * attribute pick, and the list's page number. Each handler of the component
 * is a method that replaces part of that state.
 */
module ProductForm {
  import opened Wrappers
  import opened JsText
  import opened Combinator
  import opened SkuTable

  /** An attribute as offered by the server: id, name and all of its values. */
  datatype AvailableAttribute = AvailableAttribute(id: string, name: string, values: seq<string>)

  /** One entry of the selection: the chosen values of one attribute. */
  datatype SelectedAttribute = SelectedAttribute(attributeId: string, name: string, values: seq<string>)

  /** `newAttributeSelection`: the attribute picked in the drop-down and the values chosen for it so far. */
  datatype PendingPick = PendingPick(id: string, name: string, values: seq<string>, chosen: seq<string>)

  const NoPick := PendingPick("", "", [], [])

  /** What `handleAddSelectedAttribute` does with the pending pick. */
  datatype AddOutcome = Added | NothingPicked | AlreadyAdded(name: string)

  /** The body posted when a product is saved. */
  datatype AttributeValues = AttributeValues(name: string, values: seq<string>)
  datatype ProductPayload = ProductPayload(name: string, attributes: seq<AttributeValues>, skusIds: seq<string>)

  /** The server's answer to the save request: accepted, or rejected with an optional message. */
  datatype SaveReply = SaveAccepted | SaveRejected(message: Option<string>)

  /**
   * The answer to the product-list request: a page whose body may lack
   * `totalItems`, or no usable body (network failure, an error status other
   * than 401, a body that does not parse).
   */
  datatype ProductsReply = ProductsPage(totalItems: Option<nat>) | ProductsUnavailable

  /** What the user sees after pressing save. */
  datatype SaveResult = NameRequired | Saved(payload: ProductPayload) | SaveFailed(payload: ProductPayload, alert: string)

  const ItemsPerPage: nat := 10

  /** `Math.ceil(totalItems / itemsPerPage)`. */
  function TotalPages(totalItems: nat): (pages: nat)
    ensures pages * ItemsPerPage >= totalItems
    ensures pages > 0 ==> (pages - 1) * ItemsPerPage < totalItems
    ensures pages == 0 <==> totalItems == 0
  {
    (totalItems + ItemsPerPage - 1) / ItemsPerPage
  }

  /** `Math.max(1, page - 1)`. */
  function PreviousPage(page: int): (r: int)
    ensures r >= 1
    ensures page > 1 ==> r == page - 1
    ensures page <= 1 ==> r == 1
  {
    if page - 1 > 1 then page - 1 else 1
  }

  /** `Math.min(totalPages, page + 1)`. */
  function NextPage(page: int, totalPages: nat): (r: int)
    ensures r <= totalPages
    ensures page < totalPages ==> r == page + 1
    ensures page >= totalPages ==> r == totalPages
  {
    if page + 1 < totalPages then page + 1 else totalPages
  }

  /** Starting on a page that exists, "previous" and "next" land on a page that exists. */
  lemma PagingStaysInRange(page: int, totalItems: nat)
    requires 1 <= page <= TotalPages(totalItems)
    ensures 1 <= PreviousPage(page) <= TotalPages(totalItems)
    ensures 1 <= NextPage(page, TotalPages(totalItems)) <= TotalPages(totalItems)
    ensures PreviousPage(page) <= page <= NextPage(page, TotalPages(totalItems))
  {
  }

  /** `s.filter((_, i) => i !== index)`: drops the entry at `index`, if there is one, keeping the rest in order. */
  function WithoutIndex<T>(s: seq<T>, index: int): (r: seq<T>)
    ensures r == if 0 <= index < |s| then s[..index] + s[index + 1..] else s
  {
    if |s| == 0 then []
    else
      var init := s[..|s| - 1];
      assert 0 <= index < |init| ==> init[..index] == s[..index] && init[index + 1..] + [s[|s| - 1]] == s[index + 1..];
      WithoutIndex(init, index) + (if index == |s| - 1 then [] else [s[|s| - 1]])
  }

  /** `selectedAttributes.some(attr => attr.name === name)`. */
  predicate NameTaken(selected: seq<SelectedAttribute>, name: string)
  {
    exists i :: 0 <= i < |selected| && selected[i].name == name
  }

  /** Appending an entry takes exactly its name in addition to the names already taken. */
  lemma NameTakenAppend(selected: seq<SelectedAttribute>, entry: SelectedAttribute, name: string)
    ensures NameTaken(selected + [entry], name) <==> NameTaken(selected, name) || entry.name == name
  {
    var s := selected + [entry];
    if NameTaken(selected, name) {
      var i :| 0 <= i < |selected| && selected[i].name == name;
      assert s[i].name == name;
    }
    if entry.name == name {
      assert s[|selected|].name == name;
    }
  }

  /** Names are unique within the selection and every entry has at least one value. */
  predicate WellFormedSelection(selected: seq<SelectedAttribute>)
  {
    && (forall i, j :: 0 <= i < j < |selected| ==> selected[i].name != selected[j].name)
    && (forall i :: 0 <= i < |selected| ==> |selected[i].values| > 0)
  }

  /** Entry `i` of what is left after dropping entry `index` is entry `i` or `i + 1` of the original. */
  lemma {:induction false} WithoutIndexAt<T>(s: seq<T>, index: int, i: int)
    requires 0 <= index < |s| && 0 <= i < |s| - 1
    ensures |WithoutIndex(s, index)| == |s| - 1
    ensures WithoutIndex(s, index)[i] == s[if i < index then i else i + 1]
  {
    if i >= index {
      assert WithoutIndex(s, index)[i] == s[index + 1..][i - index];
    }
  }

  /** Removing an entry keeps the selection well formed. */
  lemma {:induction false} WithoutIndexWellFormed(selected: seq<SelectedAttribute>, index: int)
    requires WellFormedSelection(selected)
    ensures WellFormedSelection(WithoutIndex(selected, index))
  {
    var r := WithoutIndex(selected, index);
    if 0 <= index < |selected| {
      forall i | 0 <= i < |r| ensures |r[i].values| > 0 {
        WithoutIndexAt(selected, index, i);
      }
      forall i, j | 0 <= i < j < |r| ensures r[i].name != r[j].name {
        WithoutIndexAt(selected, index, i);
        WithoutIndexAt(selected, index, j);
      }
    }
  }

  /** The value lists handed to the combinator, in selection order. */
  function ValueLists(selected: seq<SelectedAttribute>): (lists: seq<seq<string>>)
    ensures |lists| == |selected|
    ensures forall i :: 0 <= i < |selected| ==> lists[i] == selected[i].values
  {
    seq(|selected|, i requires 0 <= i < |selected| => selected[i].values)
  }

  /**
   * After a change to a non-empty selection, the table has one row per
   * combination of the selected values, and every row's model joins one value
   * of each selected attribute, in selection order.
   */
  lemma GeneratedTableFollowsSelection(selected: seq<SelectedAttribute>, previous: seq<Sku>, newIds: seq<string>)
    requires |newIds| >= |Combinations(ValueLists(selected))|
    ensures var table := Reconcile(Combinations(ValueLists(selected)), previous, newIds);
            && |table| == LengthProduct(ValueLists(selected))
            && forall row :: row in table ==>
                 exists c :: IsCombination(c, ValueLists(selected)) && row.model == ModelOf(c)
  {
    var lists := ValueLists(selected);
    var combos := Combinations(lists);
    var table := Reconcile(combos, previous, newIds);
    CombinationsLength(lists);
    forall row | row in table
      ensures exists c :: IsCombination(c, lists) && row.model == ModelOf(c)
    {
      var i :| 0 <= i < |table| && table[i] == row;
      CombinationsMember(lists, combos[i]);
    }
  }

  /** `k` is the position of the first available attribute with id `id`. */
  predicate FirstWithId(available: seq<AvailableAttribute>, k: int, id: string)
  {
    0 <= k < |available| && available[k].id == id && forall m :: 0 <= m < k ==> available[m].id != id
  }

  /** The first available attribute with id `id`, as `availableAttributes.find`. */
  function FindAvailable(available: seq<AvailableAttribute>, id: string): (r: Option<AvailableAttribute>)
    ensures r.Some? ==> exists k :: FirstWithId(available, k, id) && r.value == available[k]
    ensures r.None? ==> forall a :: a in available ==> a.id != id
  {
    if |available| == 0 then None
    else if available[0].id == id then assert FirstWithId(available, 0, id); Some(available[0])
    else
      assert forall k :: FirstWithId(available[1..], k, id) ==> FirstWithId(available, k + 1, id);
      FindAvailable(available[1..], id)
  }

  /**
   * The save body and the name check of `handleSaveProduct`: the trimmed name,
   * the selection as name and values, and the SKU models in table order.
   */
  function SavePayload(name: string, selected: seq<SelectedAttribute>, skus: seq<Sku>): (r: Result<ProductPayload, ()>)
    ensures r.Failure? <==> IsBlank(name)
    ensures r.Success? ==> r.value.name == Trim(name) && r.value.name != ""
    ensures r.Success? ==> |r.value.attributes| == |selected|
    ensures r.Success? ==> forall i :: 0 <= i < |selected| ==>
              r.value.attributes[i] == AttributeValues(selected[i].name, selected[i].values)
    ensures r.Success? ==> |r.value.skusIds| == |skus|
    ensures r.Success? ==> forall i :: 0 <= i < |skus| ==> r.value.skusIds[i] == skus[i].model
  {
    TrimEmptyIffBlank(name);
    if Trim(name) == "" then Failure(()) else Success(ProductPayload(Trim(name), AttributesOf(selected), ModelsOf(skus)))
  }

  /** The selection as sent: name and values of each entry, in order. */
  function AttributesOf(selected: seq<SelectedAttribute>): (r: seq<AttributeValues>)
    ensures |r| == |selected|
    ensures forall i :: 0 <= i < |selected| ==> r[i] == AttributeValues(selected[i].name, selected[i].values)
  {
    seq(|selected|, i requires 0 <= i < |selected| => AttributeValues(selected[i].name, selected[i].values))
  }

  /** The SKU table as sent: the model of each row, in order. */
  function ModelsOf(skus: seq<Sku>): (r: seq<string>)
    ensures |r| == |skus|
    ensures forall i :: 0 <= i < |skus| ==> r[i] == skus[i].model
  {
    seq(|skus|, i requires 0 <= i < |skus| => skus[i].model)
  }

  /** The state of the Products component that the form handlers change. */
  class ProductEditor {
    var name: string
    var selectedAttributes: seq<SelectedAttribute>
    var skusIds: seq<Sku>
    var pick: PendingPick
    var showForm: bool
    var currentPage: int
    var totalItems: nat

    ghost predicate Valid()
      reads this
    {
      WellFormedSelection(selectedAttributes)
    }

    constructor ()
      ensures Valid()
      ensures name == "" && selectedAttributes == [] && skusIds == [] && pick == NoPick
      ensures !showForm && currentPage == 1 && totalItems == 0
    {
      name, selectedAttributes, skusIds, pick := "", [], [], NoPick;
      showForm, currentPage, totalItems := false, 1, 0;
    }

    /** `handleAddProductClick`: a logged-in user gets an empty form; otherwise nothing changes. */
    method AddProductClick(isLoggedIn: bool)
      modifies this`showForm, this`name, this`selectedAttributes, this`skusIds, this`pick
      ensures Valid()
      ensures isLoggedIn ==> showForm && name == "" && selectedAttributes == [] && skusIds == [] && pick == NoPick
      ensures !isLoggedIn ==> showForm == old(showForm) && name == old(name) && pick == old(pick) &&
                              selectedAttributes == old(selectedAttributes) && skusIds == old(skusIds)
      requires Valid()
    {
      if isLoggedIn {
        showForm := true;
        name, selectedAttributes, skusIds := "", [], [];
        pick := NoPick;
      }
    }

    /** `handleCancelProductForm`: hide the form and go back to page 1. */
    method CancelProductForm()
      modifies this`showForm, this`currentPage
      ensures !showForm && currentPage == 1
    {
      showForm, currentPage := false, 1;
    }

    /** `handleProductNameChange`. */
    method ChangeName(text: string)
      modifies this`name
      ensures name == text
    {
      name := text;
    }

    /** `handleSelectNewAttributeName`: pick the attribute with that id, or clear the pick if there is none. */
    method SelectAttributeName(available: seq<AvailableAttribute>, id: string)
      modifies this`pick
      ensures FindAvailable(available, id).Some? ==>
                var a := FindAvailable(available, id).value;
                pick == PendingPick(a.id, a.name, a.values, [])
      ensures FindAvailable(available, id).None? ==> pick == NoPick
    {
      var found := FindAvailable(available, id);
      if found.Some? {
        pick := PendingPick(found.value.id, found.value.name, found.value.values, []);
      } else {
        pick := NoPick;
      }
    }

    /** `handleSelectNewAttributeValues`: the chosen values replace the earlier choice. */
    method SelectValues(chosen: seq<string>)
      modifies this`pick
      ensures pick == old(pick).(chosen := chosen)
    {
      pick := pick.(chosen := chosen);
    }

    /**
     * `handleAddSelectedAttribute`: a pick without an id or without values, or
     * whose name is already selected, is refused and nothing changes; otherwise
     * it becomes the last entry of the selection and the pick is cleared.
     */
    method AddSelectedAttribute() returns (outcome: AddOutcome)
      requires Valid()
      modifies this`selectedAttributes, this`pick
      ensures Valid()
      ensures outcome == (if old(pick).id == "" || |old(pick).chosen| == 0 then NothingPicked
                          else if NameTaken(old(selectedAttributes), old(pick).name) then AlreadyAdded(old(pick).name)
                          else Added)
      ensures outcome.Added? ==>
                && selectedAttributes == old(selectedAttributes) + [SelectedAttribute(old(pick).id, old(pick).name, old(pick).chosen)]
                && pick == NoPick
      ensures !outcome.Added? ==> selectedAttributes == old(selectedAttributes) && pick == old(pick)
    {
      if pick.id == "" || |pick.chosen| == 0 {
        return NothingPicked;
      }
      if NameTaken(selectedAttributes, pick.name) {
        return AlreadyAdded(pick.name);
      }
      selectedAttributes := selectedAttributes + [SelectedAttribute(pick.id, pick.name, pick.chosen)];
      pick := NoPick;
      outcome := Added;
    }

    /** `handleRemoveProductAttribute`: the entry at `index` goes, the others keep their order. */
    method RemoveProductAttribute(index: int)
      requires Valid()
      modifies this`selectedAttributes
      ensures Valid()
      ensures selectedAttributes == WithoutIndex(old(selectedAttributes), index)
    {
      WithoutIndexWellFormed(selectedAttributes, index);
      selectedAttributes := WithoutIndex(selectedAttributes, index);
    }

    /**
     * `generateSKUs`, run whenever the selection changes. With no attribute
     * selected the source writes the empty list to a field named `skus`, which
     * nothing reads, so the SKU table stays as it was. Otherwise the table is
     * rebuilt from the combinations of the selected values; `newIds` are the
     * ids the generator would hand out, one per combination.
     */
    method GenerateSkus(newIds: seq<string>)
      requires |newIds| >= |Combinations(ValueLists(selectedAttributes))|
      modifies this`skusIds
      ensures selectedAttributes == [] ==> skusIds == old(skusIds)
      ensures selectedAttributes != [] ==>
                skusIds == Reconcile(Combinations(ValueLists(selectedAttributes)), old(skusIds), newIds)
    {
      if |selectedAttributes| == 0 {
        return;
      }
      var arrays := ValueLists(selectedAttributes);
      var combos := CartesianProduct(arrays);
      skusIds := Reconcile(combos, skusIds, newIds);
    }

    /** `handleSkuPriceChange`; `parsed` is `parseFloat` of the input, `None` for NaN. */
    method SkuPriceChange(tempId: string, parsed: Option<real>)
      modifies this`skusIds
      ensures skusIds == WithPrice(old(skusIds), tempId, parsed)
    {
      skusIds := WithPrice(skusIds, tempId, parsed);
    }

    /** `handleSkuInStockChange`; `parsed` is `parseInt` of the input, `None` for NaN. */
    method SkuInStockChange(tempId: string, parsed: Option<int>)
      modifies this`skusIds
      ensures skusIds == WithStock(old(skusIds), tempId, parsed)
    {
      skusIds := WithStock(skusIds, tempId, parsed);
    }

    /** `handleRemoveSku`. */
    method RemoveSku(tempId: string)
      modifies this`skusIds
      ensures skusIds == WithoutSku(old(skusIds), tempId)
    {
      skusIds := WithoutSku(skusIds, tempId);
    }

    /**
     * `handleSaveProduct`: a blank name is refused before any request; an
     * accepted save closes the form and returns to page 1; a rejected one
     * alerts the server's message or "Failed to save product".
     */
    method SaveProduct(reply: SaveReply) returns (result: SaveResult)
      modifies this`showForm, this`currentPage
      ensures SavePayload(old(name), old(selectedAttributes), old(skusIds)).Failure? ==> result == NameRequired
      ensures SavePayload(old(name), old(selectedAttributes), old(skusIds)).Success? && reply.SaveAccepted? ==>
                result == Saved(SavePayload(old(name), old(selectedAttributes), old(skusIds)).value) && !showForm && currentPage == 1
      ensures SavePayload(old(name), old(selectedAttributes), old(skusIds)).Success? && reply.SaveRejected? ==>
                result == SaveFailed(SavePayload(old(name), old(selectedAttributes), old(skusIds)).value,
                                     OrElse(reply.message, "Failed to save product"))
      ensures !(SavePayload(old(name), old(selectedAttributes), old(skusIds)).Success? && reply.SaveAccepted?) ==>
                showForm == old(showForm) && currentPage == old(currentPage)
    {
      var payload := SavePayload(name, selectedAttributes, skusIds);
      if payload.Failure? {
        return NameRequired;
      }
      match reply
      case SaveAccepted =>
        showForm, currentPage := false, 1;
        result := Saved(payload.value);
      case SaveRejected(message) =>
        result := SaveFailed(payload.value, OrElse(message, "Failed to save product"));
    }

    /**
     * The product-list effect receiving its answer (the request is sent while
     * the form is hidden): `setTotalItems(data.totalItems || 0)` on a page;
     * a failed request leaves the count as it was.
     */
    method ProductsLoaded(reply: ProductsReply)
      modifies this`totalItems
      ensures reply.ProductsPage? && reply.totalItems.Some? ==> totalItems == reply.totalItems.value
      ensures reply.ProductsPage? && reply.totalItems.None? ==> totalItems == 0
      ensures reply.ProductsUnavailable? ==> totalItems == old(totalItems)
    {
      match reply
      case ProductsPage(total) =>
        totalItems := if total.Some? then total.value else 0;
      case ProductsUnavailable =>
    }

    /** `handlePreviousPage`. */
    method GoToPreviousPage()
      modifies this`currentPage
      ensures currentPage == PreviousPage(old(currentPage))
    {
      currentPage := PreviousPage(currentPage);
    }

    /** `handleNextPage`. */
    method GoToNextPage()
      modifies this`currentPage
      ensures currentPage == NextPage(old(currentPage), TotalPages(totalItems))
    {
      currentPage := NextPage(currentPage, TotalPages(totalItems));
    }
  }
}
