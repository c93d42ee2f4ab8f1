/** `TutorFormComponent` (src/app/modules/tutores/pages/tutor-form/tutor-form.component.ts):
    creating or editing a tutor. The `Validators.email` check lives in the
    Angular library and is a parameter here. */
module TutorForm {
  import opened Wrappers
  import opened Models
  import opened JsText
  import opened FormMode
  import TutorFacade

  const TutorsRoute: string := "/tutores"
  const SaveFailedMessage: string := "Erro ao salvar tutor. Tente novamente."

  datatype FormValue = FormValue(nome: string, email: string, telefone: string, endereco: string, cpf: string)

  datatype Page = Page(
    id: JsNumber,
    isEditMode: bool,
    form: FormValue,
    touched: bool,
    selectedFile: Option<string>,
    previewUrl: Option<string>)

  /** What the page asks of the facade, the router and the browser. */
  datatype Effect =
    | Init(action: InitAction)
    | Create(dto: TutorFacade.CreateTutorDto)
    | Update(id: JsNumber, dto: TutorFacade.CreateTutorDto)
    | Upload(tutorId: int, file: string)
    | Navigate(path: string)
    | Alert(message: string)

  function EmptyForm(): FormValue {
    FormValue("", "", "", "", "")
  }

  /** `Validators.pattern(/^\d{11}$/)`. */
  predicate CpfPattern(cpf: string) {
    |cpf| == 11 && AllDigits(cpf)
  }

  /** The form's validators: every field required, `nome` of at least three
      characters, an e-mail accepted by `isEmail`, and an eleven-digit cpf. */
  predicate FormValid(form: FormValue, isEmail: string -> bool) {
    && |form.nome| >= 3
    && |form.email| > 0 && isEmail(form.email)
    && |form.telefone| > 0
    && |form.endereco| > 0
    && CpfPattern(form.cpf)
  }

  /** The DTO: the form's value with the cpf reduced to its digits. */
  function ToDto(form: FormValue): (dto: TutorFacade.CreateTutorDto)
    ensures dto.nome == form.nome && dto.email == form.email
    ensures dto.telefone == form.telefone && dto.endereco == form.endereco
    ensures dto.cpf == Digits(form.cpf)
    ensures AllDigits(dto.cpf) && |dto.cpf| <= |form.cpf|
    ensures AllDigits(form.cpf) ==> dto.cpf == form.cpf
  {
    TutorFacade.CreateTutorDto(form.nome, form.email, form.telefone, form.endereco, Digits(form.cpf))
  }

  /** Construction followed by `ngOnInit`. */
  function Open(id: JsNumber): (r: (Page, seq<Effect>))
    ensures r.0.isEditMode <==> IsFinite(id)
    ensures r.0.id == id && r.0.form == EmptyForm() && r.0.selectedFile.None?
    ensures r.1 == [Init(OnInit(id).1)]
  {
    var (isEditMode, action) := OnInit(id);
    (Page(id, isEditMode, EmptyForm(), false, None, None), [Init(action)])
  }

  /** The `selectedTutor$` subscription of `loadTutorData`: a tutor fills
      the form (its numeric cpf as its decimal string) and the preview. */
  function OnSelectedTutor(p: Page, tutor: Option<Tutor>): (q: Page)
    ensures tutor.None? ==> q == p
    ensures tutor.Some? ==>
      && q.form == FormValue(tutor.value.nome, tutor.value.email, tutor.value.telefone,
                             tutor.value.endereco, IntToString(tutor.value.cpf))
      && q.previewUrl == PreviewOf(tutor.value.foto)
      && q.(form := p.form, previewUrl := p.previewUrl) == p
  {
    match tutor
    case None => p
    case Some(t) =>
      p.(form := FormValue(t.nome, t.email, t.telefone, t.endereco, IntToString(t.cpf)),
         previewUrl := PreviewOf(t.foto))
  }

  /** `onSubmit` up to the save: an invalid form is only marked touched. */
  function OnSubmit(p: Page, isEmail: string -> bool): (r: (Page, seq<Effect>))
    ensures !FormValid(p.form, isEmail) ==> r == (p.(touched := true), [])
    ensures FormValid(p.form, isEmail) && SavesAsUpdate(p.isEditMode, p.id) ==>
      r == (p, [Update(p.id, ToDto(p.form))])
    ensures FormValid(p.form, isEmail) && !SavesAsUpdate(p.isEditMode, p.id) ==>
      r == (p, [Create(ToDto(p.form))])
  {
    if !FormValid(p.form, isEmail) then (p.(touched := true), [])
    else if p.isEditMode && Truthy(p.id) then (p, [Update(p.id, ToDto(p.form))])
    else (p, [Create(ToDto(p.form))])
  }

  /** `err?.error?.message || ...`. */
  function SaveErrorText(err: HttpError): (m: string)
    ensures TruthyText(err.apiMessage) ==> m == err.apiMessage.value
    ensures !TruthyText(err.apiMessage) ==> m == SaveFailedMessage
  {
    if TruthyText(err.apiMessage) then err.apiMessage.value else SaveFailedMessage
  }

  /** The answer to the create or update: upload the photo when a file is
      selected and the saved tutor has a truthy id, otherwise go back to the
      list; a failure is shown in an alert. */
  function OnSaved(p: Page, outcome: Result<Tutor, HttpError>): (effects: seq<Effect>)
    ensures outcome.Failure? ==> effects == [Alert(SaveErrorText(outcome.error))]
    ensures outcome.Success? && UploadsPhoto(p.selectedFile, outcome.value.id) ==>
      effects == [Upload(outcome.value.id, p.selectedFile.value)]
    ensures outcome.Success? && !UploadsPhoto(p.selectedFile, outcome.value.id) ==>
      effects == [Navigate(TutorsRoute)]
  {
    match outcome
    case Failure(err) => [Alert(SaveErrorText(err))]
    case Success(tutor) =>
      if p.selectedFile.Some? && tutor.id != 0 then [Upload(tutor.id, p.selectedFile.value)]
      else [Navigate(TutorsRoute)]
  }

  /** The answer to the photo upload. */
  function OnUploaded(outcome: Result<(), HttpError>): (effects: seq<Effect>)
    ensures outcome.Success? ==> effects == [Navigate(TutorsRoute)]
    ensures outcome.Failure? ==> effects == [Alert(SaveErrorText(outcome.error))]
  {
    match outcome
    case Success(_) => [Navigate(TutorsRoute)]
    case Failure(err) => [Alert(SaveErrorText(err))]
  }

  /** A tutor loaded into the form passes the cpf validator exactly when
      its cpf has eleven digits: a cpf starting with 0, stored as a number,
      loses that digit and makes the form invalid. */
  lemma LoadedCpfValidIff(cpf: int)
    ensures CpfPattern(IntToString(cpf)) <==> Pow10(10) <= cpf < Pow10(11)
  {
    if cpf < 0 {
      assert !IsDigit(IntToString(cpf)[0]);
    } else {
      NatToStringLength(cpf, 10);
      NatToStringLength(cpf, 11);
    }
  }

  /** Editing a tutor without touching the form sends the tutor's own data
      back, and the cpf sent reads back as the stored number. */
  lemma UnchangedEditSendsTutorBack(id: int, tutor: Tutor, isEmail: string -> bool)
    requires id != 0
    requires FormValid(OnSelectedTutor(Open(Finite(id)).0, Some(tutor)).form, isEmail)
    ensures Open(Finite(id)).1 == [Init(LoadRecord(Finite(id)))]
    ensures
      var p := OnSelectedTutor(Open(Finite(id)).0, Some(tutor));
      var dto := ToDto(p.form);
      && OnSubmit(p, isEmail).1 == [Update(Finite(id), dto)]
      && dto.nome == tutor.nome && dto.email == tutor.email
      && dto.telefone == tutor.telefone && dto.endereco == tutor.endereco
      && ParseInt(dto.cpf) == Some(tutor.cpf)
  {
    ParseIntOfIntToString(tutor.cpf);
  }
}
