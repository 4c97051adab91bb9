/** The activity type page: the form check (a name and a six-digit hex
    colour) and the edit/cancel/submit/delete transitions of its form. */
module ActivityTypesPage {
  import opened Common
  import opened Text
  import opened Records
  import opened AppState

  // ---- Colour codes ----------------------------------------------------------------

  predicate IsHexDigit(c: char)
  {
    ('0' <= c <= '9') || ('A' <= c <= 'F') || ('a' <= c <= 'f')
  }

  /** `/^#[0-9A-Fa-f]{6}$/.test(s)`. */
  predicate IsHexColor(s: string)
  {
    |s| == 7 && s[0] == '#' && forall i :: 1 <= i < 7 ==> IsHexDigit(s[i])
  }

  /** The form's reset colour and the six default types' colours are accepted. */
  lemma DefaultColorsAccepted()
    ensures IsHexColor(ResetColor)
    ensures forall k :: 0 <= k < |DefaultTypes| ==> IsHexColor(DefaultTypes[k].1)
  {
  }

  /** Case does not matter, a seventh digit or a missing '#' is refused. */
  lemma HexColorExamples()
    ensures IsHexColor("#ff5722") && IsHexColor("#FF5722")
    ensures !IsHexColor("#FF57223") && !IsHexColor("FF5722") && !IsHexColor("#FF572G")
  {
    assert "#FF572G"[6] == 'G' && !IsHexDigit('G');
  }

  // ---- The form check ---------------------------------------------------------------

  datatype TypeFormError = MissingName | BadColor

  function Message(e: TypeFormError): string
  {
    match e
    case MissingName => "请输入类型名称"
    case BadColor => "请输入有效的颜色代码（例如：#FF0000）"
  }

  /** `validateForm`: the name is checked before the colour. */
  function Validate(name: string, colorCode: string): (r: Option<TypeFormError>)
    ensures r.None? <==> Trim(name) != [] && IsHexColor(colorCode)
    ensures r == Some(MissingName) <==> Trim(name) == []
    ensures r == Some(BadColor) <==> Trim(name) != [] && !IsHexColor(colorCode)
  {
    if Trim(name) == [] then Some(MissingName)
    else if !IsHexColor(colorCode) then Some(BadColor)
    else None
  }

  /** A name of white space only is refused whatever the colour. */
  lemma BlankNameRejected(name: string, colorCode: string)
    requires forall i :: 0 <= i < |name| ==> IsWhite(name[i])
    ensures Validate(name, colorCode) == Some(MissingName)
  {
    TrimEmpty(name);
  }

  // ---- The form state ---------------------------------------------------------------

  const ResetColor: string := "#000000"
  const UpdatedMessage: string := "活动类型已更新"
  const AddedMessage: string := "活动类型已添加"
  const DeletedMessage: string := "活动类型已删除"

  /** What the page asks the store to do. */
  datatype TypeRequest = AddType(name: string, colorCode: string) | UpdateType(activityType: ActivityType) | DeleteType(id: int)

  class TypeEditor {
    var name: string
    var colorCode: string
    var editing: Option<ActivityType>
    var error: string
    var success: string

    constructor ()
      ensures name == "" && colorCode == ResetColor && editing.None? && error == "" && success == ""
    {
      name, colorCode, editing := "", ResetColor, None;
      error, success := "", "";
    }

    /** `handleEdit`: the form takes the type's name and colour and edits that type. */
    method Edit(t: ActivityType)
      modifies this
      ensures name == t.name && colorCode == t.colorCode && editing == Some(t)
      ensures error == old(error) && success == old(success)
    {
      name, colorCode := t.name, t.colorCode;
      editing := Some(t);
    }

    /** `handleCancel`: back to an empty form, editing nothing. */
    method Cancel()
      modifies this
      ensures name == "" && colorCode == ResetColor && editing.None?
      ensures error == old(error) && success == old(success)
    {
      name, colorCode := "", ResetColor;
      editing := None;
    }

    /** `handleSubmit`. A failed check shows its message and sends nothing.
        Otherwise an edit becomes an update keeping the edited type's id, and
        anything else an add; `storeError` is the store's rejection, if any.
        A request the store accepts resets the form and clears the error. */
    method Submit(storeError: Option<string>) returns (request: Option<TypeRequest>)
      modifies this
      ensures old(Validate(name, colorCode)).Some? ==>
        (request.None? && error == Message(old(Validate(name, colorCode)).value)
         && name == old(name) && colorCode == old(colorCode) && editing == old(editing) && success == old(success))
      ensures old(Validate(name, colorCode)).None? && old(editing).Some? ==>
        request == Some(UpdateType(ActivityType(old(editing).value.id, old(name), old(colorCode))))
      ensures old(Validate(name, colorCode)).None? && old(editing).None? ==>
        request == Some(AddType(old(name), old(colorCode)))
      ensures old(Validate(name, colorCode)).None? && storeError.Some? ==>
        (error == storeError.value && name == old(name) && colorCode == old(colorCode)
         && editing == old(editing) && success == old(success))
      ensures old(Validate(name, colorCode)).None? && storeError.None? ==>
        (name == "" && colorCode == ResetColor && editing.None? && error == ""
         && success == if old(editing).Some? then UpdatedMessage else AddedMessage)
    {
      var check := Validate(name, colorCode);
      if check.Some? {
        error := Message(check.value);
        request := None;
        return;
      }
      if editing.Some? {
        request := Some(UpdateType(ActivityType(editing.value.id, name, colorCode)));
      } else {
        request := Some(AddType(name, colorCode));
      }
      if storeError.Some? {
        error := storeError.value;
        return;
      }
      success := if editing.Some? then UpdatedMessage else AddedMessage;
      name, colorCode := "", ResetColor;
      editing := None;
      error := "";
    }

    /** `handleDelete`: asks the store to delete; reports success or the store's rejection. */
    method Delete(id: int, storeError: Option<string>) returns (request: TypeRequest)
      modifies this
      ensures request == DeleteType(id)
      ensures storeError.None? ==> success == DeletedMessage && error == old(error)
      ensures storeError.Some? ==> error == storeError.value && success == old(success)
      ensures name == old(name) && colorCode == old(colorCode) && editing == old(editing)
    {
      request := DeleteType(id);
      if storeError.Some? {
        error := storeError.value;
      } else {
        success := DeletedMessage;
      }
    }
  }

  /** The store applies an accepted request through the reducer: an update
      replaces exactly the edited type's entries, an add appends, a delete removes. */
  function Apply(s: AppState, request: TypeRequest, newId: int): (r: AppState)
    ensures request.AddType? ==> r.activityTypes == s.activityTypes + [ActivityType(newId, request.name, request.colorCode)]
    ensures r.activities == s.activities && r.settings == s.settings
  {
    match request
    case AddType(n, c) => Reduce(s, AddActivityType(ActivityType(newId, n, c)))
    case UpdateType(t) => Reduce(s, UpdateActivityType(t))
    case DeleteType(id) => Reduce(s, DeleteActivityType(id))
  }

  /** Editing a type and submitting it unchanged leaves the stored types as they were. */
  lemma EditSubmitUnchanged(s: AppState, t: ActivityType, newId: int)
    requires t in s.activityTypes
    requires forall u :: u in s.activityTypes && u.id == t.id ==> u == t
    ensures Apply(s, UpdateType(ActivityType(t.id, t.name, t.colorCode)), newId).activityTypes == s.activityTypes
  {
    var r := Reduce(s, UpdateActivityType(t)).activityTypes;
    UpdateReplaces(s, Activity(0, 0, 0, 0, "", 0), t);
    assert forall i :: 0 <= i < |r| ==> r[i] == s.activityTypes[i] by {
      forall i | 0 <= i < |r| ensures r[i] == s.activityTypes[i] {
        if s.activityTypes[i].id == t.id {
          assert s.activityTypes[i] in s.activityTypes;
        }
      }
    }
  }
}
