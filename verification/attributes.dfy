/**
 * The attribute-creation form of Attribiuttes.tsx: the draft being edited
 * (a name and a list of value fields), the validation and filtering done on
 * save, and the list of attributes that a successful save appends to.
 */
module AttributeForm {
  import opened Wrappers
  import opened JsText

  /** An attribute as returned by the server. */
  datatype Attribute = Attribute(id: int, name: string, values: seq<string>)

  /** The form's contents, and the body that is posted. */
  datatype Draft = Draft(name: string, values: seq<string>)

  /** The form as `handleAddClick` leaves it: no name and one empty value field. */
  const EmptyDraft := Draft("", [""])

  /** Why a save is refused before any request is made. */
  datatype Rejection = NameRequired | ValueRequired

  /** The server's answer to the save request. */
  datatype SaveReply = Created(attribute: Attribute) | Refused(message: Option<string>)

  /** What the user sees after pressing save. */
  datatype SaveResult = Invalid(reason: Rejection) | Stored(attribute: Attribute) | Failed(alert: string)

  /**
   * `values.filter(v => v.trim() !== "")`: the values that are not blank,
   * untrimmed and in order (`v.trim()` is empty exactly when `v` is blank, by
   * `TrimEmptyIffBlank`).
   */
  function NonBlankValues(values: seq<string>): (r: seq<string>)
    ensures |r| <= |values|
  {
    if |values| == 0 then []
    else
      var last := values[|values| - 1];
      NonBlankValues(values[..|values| - 1]) + (if !IsBlank(last) then [last] else [])
  }

  /** A value is kept exactly when it occurs in the input and is not blank. */
  lemma {:induction false} NonBlankValuesMember(values: seq<string>, v: string)
    ensures v in NonBlankValues(values) <==> v in values && !IsBlank(v)
  {
    if |values| > 0 {
      var init := values[..|values| - 1];
      NonBlankValuesMember(init, v);
      assert values == init + [values[|values| - 1]];
    }
  }

  /** Filtering keeps the order: the result for a concatenation is the concatenation of the results. */
  lemma {:induction false} NonBlankValuesAppend(a: seq<string>, b: seq<string>)
    ensures NonBlankValues(a + b) == NonBlankValues(a) + NonBlankValues(b)
  {
    if |b| > 0 {
      var init, last := b[..|b| - 1], b[|b| - 1];
      NonBlankValuesAppend(a, init);
      var ab := a + b;
      assert ab[..|ab| - 1] == a + init && ab[|ab| - 1] == last;
      var tail := if !IsBlank(last) then [last] else [];
      assert NonBlankValues(ab) == NonBlankValues(a + init) + tail;
      assert NonBlankValues(b) == NonBlankValues(init) + tail;
    } else {
      assert a + b == a;
    }
  }

  /** Filtering twice is filtering once. */
  lemma {:induction false} NonBlankValuesIdempotent(values: seq<string>)
    ensures NonBlankValues(NonBlankValues(values)) == NonBlankValues(values)
  {
    if |values| > 0 {
      var init, last := values[..|values| - 1], values[|values| - 1];
      NonBlankValuesIdempotent(init);
      if !IsBlank(last) {
        NonBlankValuesAppend(NonBlankValues(init), [last]);
        assert [last][..0] == [];
        assert NonBlankValues([last]) == [last];
        assert NonBlankValues(values) == NonBlankValues(init) + [last];
      } else {
        assert NonBlankValues(values) == NonBlankValues(init);
      }
    }
  }

  /**
   * The checks of `handleSave`: the blank values are dropped, a blank name is
   * refused first, then an empty list of values; the name is sent untrimmed.
   */
  function ValidateDraft(form: Draft): (r: Result<Draft, Rejection>)
    ensures r == Failure(NameRequired) <==> IsBlank(form.name)
    ensures r == Failure(ValueRequired) <==> !IsBlank(form.name) && forall v :: v in form.values ==> IsBlank(v)
    ensures r.Success? ==> r.value.name == form.name && r.value.values == NonBlankValues(form.values)
    ensures r.Success? ==> |r.value.values| > 0
  {
    var dataToSend := Draft(form.name, NonBlankValues(form.values));
    TrimEmptyIffBlank(dataToSend.name);
    if Trim(dataToSend.name) == "" then Failure(NameRequired)
    else if |dataToSend.values| == 0 then
      assert forall v :: v in form.values ==> IsBlank(v) by {
        forall v | v in form.values ensures IsBlank(v) {
          NonBlankValuesMember(form.values, v);
        }
      }
      Failure(ValueRequired)
    else
      assert !forall v :: v in form.values ==> IsBlank(v) by {
        var v := dataToSend.values[0];
        NonBlankValuesMember(form.values, v);
      }
      Success(dataToSend)
  }

  /** The state of the Attributes component that its handlers change. */
  class AttributesPage {
    var attributes: seq<Attribute>
    var showForm: bool
    var form: Draft

    constructor ()
      ensures attributes == [] && !showForm && form == EmptyDraft
    {
      attributes, showForm, form := [], false, EmptyDraft;
    }

    /**
     * The attribute-list effect receiving its answer: the parsed list replaces
     * the attributes shown; a failed request (`None`) leaves them as they were.
     */
    method AttributesLoaded(reply: Option<seq<Attribute>>)
      modifies this`attributes
      ensures reply.Some? ==> attributes == reply.value
      ensures reply.None? ==> attributes == old(attributes)
    {
      if reply.Some? {
        attributes := reply.value;
      }
    }

    /** `handleAddClick`: open the form, reset to no name and one empty value field. */
    method AddClick()
      modifies this`showForm, this`form
      ensures showForm && form == EmptyDraft
    {
      showForm, form := true, EmptyDraft;
    }

    /** `handleCancel`. */
    method Cancel()
      modifies this`showForm
      ensures !showForm
    {
      showForm := false;
    }

    /** `handleChangeName`. */
    method ChangeName(text: string)
      modifies this`form
      ensures form == old(form).(name := text)
    {
      form := form.(name := text);
    }

    /**
     * `handleChangeValue`: copy the value fields, overwrite the one at `index`
     * (a field the form renders, so it exists) and store the copy.
     */
    method ChangeValue(index: nat, text: string)
      requires index < |form.values|
      modifies this`form
      ensures |form.values| == |old(form).values|
      ensures form.values[index] == text
      ensures forall k :: 0 <= k < |form.values| && k != index ==> form.values[k] == old(form).values[k]
      ensures form.name == old(form).name
    {
      var f := form;
      var values := f.values;
      var newValues := new string[|values|];
      var i := 0;
      while i < |values|
        invariant 0 <= i <= |values|
        invariant forall k :: 0 <= k < i ==> newValues[k] == values[k]
      {
        newValues[i] := values[i];
        i := i + 1;
      }
      newValues[index] := text;
      form := f.(values := newValues[..]);
    }

    /** `handleAddValueField`: one more, empty, value field at the end. */
    method AddValueField()
      modifies this`form
      ensures form == old(form).(values := old(form).values + [""])
    {
      form := form.(values := form.values + [""]);
    }

    /**
     * `handleSave`: an invalid draft is refused without a request; a created
     * attribute is appended to the list and the form closes; a refused save
     * alerts the server's message or "Failed to save attribute".
     */
    method Save(reply: SaveReply) returns (result: SaveResult)
      modifies this`attributes, this`showForm
      ensures ValidateDraft(old(form)).Failure? ==> result == Invalid(ValidateDraft(old(form)).error)
      ensures ValidateDraft(old(form)).Success? && reply.Created? ==> result == Stored(reply.attribute)
      ensures ValidateDraft(old(form)).Success? && reply.Refused? ==>
                result == Failed(OrElse(reply.message, "Failed to save attribute"))
      ensures result.Stored? ==> attributes == old(attributes) + [result.attribute] && !showForm
      ensures !result.Stored? ==> attributes == old(attributes) && showForm == old(showForm)
    {
      var checked := ValidateDraft(form);
      if checked.Failure? {
        return Invalid(checked.error);
      }
      match reply
      case Created(attribute) =>
        attributes := attributes + [attribute];
        showForm := false;
        result := Stored(attribute);
      case Refused(message) =>
        result := Failed(OrElse(message, "Failed to save attribute"));
    }
  }
}
