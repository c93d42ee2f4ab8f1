/** `PetFormComponent` (src/app/modules/pets/pages/pet-form/pet-form.component.ts):
    creating or editing a pet. Its save calls go to pet facade operations
    that `PetFacade` does not define, so they are modelled only as the
    calls the page makes. */
module PetForm {
  import opened Wrappers
  import opened Models
  import opened FormMode

  const PetsRoute: string := "/pets"
  const SaveFailedMessage: string := "Erro ao salvar pet. Tente novamente."
  const MinAge: int := 0
  const MaxAge: int := 30

  /** The form's controls; an empty `idade` is `None`. */
  datatype FormValue = FormValue(nome: string, raca: string, idade: Option<int>)

  datatype CreatePetDto = CreatePetDto(nome: string, raca: string, idade: int)

  datatype Page = Page(
    id: JsNumber,
    isEditMode: bool,
    form: FormValue,
    touched: bool,
    selectedFile: Option<string>,
    previewUrl: Option<string>,
    errorMessage: Option<string>)

  /** What the page asks of the facade and the router. */
  datatype Effect =
    | Init(action: InitAction)
    | Create(dto: CreatePetDto)
    | Update(id: JsNumber, dto: CreatePetDto)
    | Upload(petId: int, file: string)
    | Navigate(path: string)

  /** `nome` of at least two characters, a non-empty `raca`, and an `idade`
      between 0 and 30. */
  predicate FormValid(form: FormValue) {
    && |form.nome| >= 2
    && |form.raca| > 0
    && form.idade.Some? && MinAge <= form.idade.value <= MaxAge
  }

  function ToDto(form: FormValue): (dto: CreatePetDto)
    requires form.idade.Some?
    ensures dto.nome == form.nome && dto.raca == form.raca && Some(dto.idade) == form.idade
    ensures FormValid(form) ==> |dto.nome| >= 2 && |dto.raca| > 0 && MinAge <= dto.idade <= MaxAge
  {
    CreatePetDto(form.nome, form.raca, form.idade.value)
  }

  /** Construction followed by `ngOnInit`. */
  function Open(id: JsNumber): (r: (Page, seq<Effect>))
    ensures r.0.isEditMode <==> IsFinite(id)
    ensures r.0.id == id && r.0.errorMessage.None? && r.0.selectedFile.None?
    ensures r.1 == [Init(OnInit(id).1)]
  {
    var (isEditMode, action) := OnInit(id);
    (Page(id, isEditMode, FormValue("", "", None), false, None, None, None), [Init(action)])
  }

  /** The `selectedPet$` subscription of `loadPetData`. */
  function OnSelectedPet(p: Page, pet: Option<Pet>): (q: Page)
    ensures pet.None? ==> q == p
    ensures pet.Some? ==>
      && q.form == FormValue(pet.value.nome, pet.value.raca, Some(pet.value.idade))
      && q.previewUrl == PreviewOf(pet.value.foto)
      && q.(form := p.form, previewUrl := p.previewUrl) == p
  {
    match pet
    case None => p
    case Some(pet) => p.(form := FormValue(pet.nome, pet.raca, Some(pet.idade)), previewUrl := PreviewOf(pet.foto))
  }

  /** `onSubmit` up to the save: an invalid form is only marked touched and
      keeps its error text; a valid one clears the error first. */
  function OnSubmit(p: Page): (r: (Page, seq<Effect>))
    ensures !FormValid(p.form) ==> r == (p.(touched := true), [])
    ensures FormValid(p.form) ==> r.0 == p.(errorMessage := None)
    ensures FormValid(p.form) && SavesAsUpdate(p.isEditMode, p.id) ==> r.1 == [Update(p.id, ToDto(p.form))]
    ensures FormValid(p.form) && !SavesAsUpdate(p.isEditMode, p.id) ==> r.1 == [Create(ToDto(p.form))]
  {
    if !FormValid(p.form) then (p.(touched := true), [])
    else
      var dto := CreatePetDto(p.form.nome, p.form.raca, p.form.idade.value);
      var q := p.(errorMessage := None);
      if p.isEditMode && Truthy(p.id) then (q, [Update(p.id, dto)]) else (q, [Create(dto)])
  }

  /** `err?.error?.message || err?.message || ...`. */
  function SaveErrorText(err: HttpError): (m: string)
    ensures TruthyText(err.apiMessage) ==> m == err.apiMessage.value
    ensures !TruthyText(err.apiMessage) && TruthyText(err.message) ==> m == err.message.value
    ensures !TruthyText(err.apiMessage) && !TruthyText(err.message) ==> m == SaveFailedMessage
    ensures |m| > 0
  {
    if TruthyText(err.apiMessage) then err.apiMessage.value
    else if TruthyText(err.message) then err.message.value
    else SaveFailedMessage
  }

  /** The answer to the create or update. */
  function OnSaved(p: Page, outcome: Result<Pet, HttpError>): (r: (Page, seq<Effect>))
    ensures outcome.Failure? ==> r == (p.(errorMessage := Some(SaveErrorText(outcome.error))), [])
    ensures outcome.Success? && UploadsPhoto(p.selectedFile, outcome.value.id) ==>
      r == (p, [Upload(outcome.value.id, p.selectedFile.value)])
    ensures outcome.Success? && !UploadsPhoto(p.selectedFile, outcome.value.id) ==>
      r == (p, [Navigate(PetsRoute)])
  {
    match outcome
    case Failure(err) => (p.(errorMessage := Some(SaveErrorText(err))), [])
    case Success(pet) =>
      if p.selectedFile.Some? && pet.id != 0 then (p, [Upload(pet.id, p.selectedFile.value)])
      else (p, [Navigate(PetsRoute)])
  }

  /** The answer to the photo upload. */
  function OnUploaded(p: Page, outcome: Result<(), HttpError>): (r: (Page, seq<Effect>))
    ensures outcome.Success? ==> r == (p, [Navigate(PetsRoute)])
    ensures outcome.Failure? ==> r == (p.(errorMessage := Some(SaveErrorText(outcome.error))), [])
  {
    match outcome
    case Success(_) => (p, [Navigate(PetsRoute)])
    case Failure(err) => (p.(errorMessage := Some(SaveErrorText(err))), [])
  }

  /** Editing a pet without touching the form sends the pet's own name, breed
      and age back, provided they pass the validators. */
  lemma UnchangedEditSendsPetBack(id: int, pet: Pet)
    requires id != 0
    requires |pet.nome| >= 2 && |pet.raca| > 0 && MinAge <= pet.idade <= MaxAge
    ensures Open(Finite(id)).1 == [Init(LoadRecord(Finite(id)))]
    ensures
      var p := OnSelectedPet(Open(Finite(id)).0, Some(pet));
      OnSubmit(p).1 == [Update(Finite(id), CreatePetDto(pet.nome, pet.raca, pet.idade))]
  {
  }

  /** A failed save followed by a valid resubmit clears the error shown. */
  lemma ResubmitClearsError(p: Page, err: HttpError)
    requires FormValid(p.form)
    ensures OnSaved(p, Failure(err)).0.errorMessage.Some?
    ensures OnSubmit(OnSaved(p, Failure(err)).0).0.errorMessage.None?
  {
  }
}
