/** The edit-or-create logic shared by the tutor form
    (src/app/modules/tutores/pages/tutor-form/tutor-form.component.ts) and the
    pet form (src/app/modules/pets/pages/pet-form/pet-form.component.ts). The
    route's `id` arrives through `numberAttribute`, so it may be `NaN`. */
module FormMode {
  import opened Wrappers
  import opened Models

  /** What `ngOnInit` does with the facade. */
  datatype InitAction = LoadRecord(id: JsNumber) | ClearSelection | NoAction

  /** `ngOnInit`: edit mode is a finite id; it loads the record through
      `loadXData`, which gives up on a falsy id; otherwise the facade's
      selection is cleared. */
  function OnInit(id: JsNumber): (r: (bool, InitAction))
    ensures r.0 <==> IsFinite(id)
    ensures r.1.LoadRecord? <==> IsFinite(id) && Truthy(id)
    ensures r.1.LoadRecord? ==> r.1.id == id
    ensures r.1 == ClearSelection <==> !IsFinite(id)
  {
    var isEditMode := id.Finite?;
    if isEditMode then
      (isEditMode, if Truthy(id) then LoadRecord(id) else NoAction)
    else
      (isEditMode, ClearSelection)
  }

  /** `isEditMode && this.id`: whether a submit updates rather than creates. */
  predicate SavesAsUpdate(isEditMode: bool, id: JsNumber) {
    isEditMode && Truthy(id)
  }

  /** A form opened on id 0 is in edit mode but neither loads nor clears,
      and its submit creates. */
  lemma IdZeroIsEditModeThatCreates()
    ensures OnInit(Finite(0)) == (true, NoAction)
    ensures !SavesAsUpdate(OnInit(Finite(0)).0, Finite(0))
  {
  }

  /** After `ngOnInit`, a submit updates exactly the record that was loaded. */
  lemma UpdateIffLoaded(id: JsNumber)
    ensures SavesAsUpdate(OnInit(id).0, id) <==> OnInit(id).1 == LoadRecord(id)
  {
  }

  /** `record.foto?.url || null`. */
  function PreviewOf(foto: Option<Foto>): (url: Option<string>)
    ensures url.Some? <==> foto.Some? && |foto.value.url| > 0
    ensures url.Some? ==> url.value == foto.value.url
  {
    if foto.Some? && |foto.value.url| > 0 then Some(foto.value.url) else None
  }

  /** Whether the photo is uploaded after a save: a file is selected and
      the saved record's id is truthy. */
  predicate UploadsPhoto(selectedFile: Option<string>, savedId: int) {
    selectedFile.Some? && savedId != 0
  }
}
