/** `TutorFacade` (src/app/core/facades/tutor.facade.ts): the tutor list,
    the selected tutor and their pets, held as one state record. Every
    call into the tutor service is returned as a `ServiceCall`; its
    outcome comes back as an argument of the matching `...Done` function.
    The `currentPage` and `totalPages` getters are the fields of that name. */
module TutorFacade {
  import opened Wrappers
  import opened Models

  /** The body of a create or update. The interface types `cpf` as a number,
      but the tutor form fills it with the digit string of its cpf field,
      so that is what is sent. */
  datatype CreateTutorDto = CreateTutorDto(nome: string, email: string, telefone: string, endereco: string, cpf: string)

  /** A request made on the tutor service. */
  datatype ServiceCall =
    | GetTutores(page: int, nome: string)
    | GetTutorById(tutorKey: int)
    | CreateTutor(dto: CreateTutorDto)
    | UpdateTutor(id: JsNumber, dto: CreateTutorDto)
    | UploadPhoto(tutorId: JsNumber, file: string)
    | LinkPet(tutorId: JsNumber, petId: int)
    | UnlinkPet(tutorId: JsNumber, petId: int)

  datatype Facade = Facade(
    tutores: seq<Tutor>,
    selectedTutor: Option<Tutor>,
    tutorPets: seq<Pet>,
    loading: bool,
    totalPages: int,
    currentPage: int)

  /** `tutor.pets ?? []`. */
  function PetsOf(tutor: Option<Tutor>): (pets: seq<Pet>)
    ensures tutor.Some? && tutor.value.pets.Some? ==> pets == tutor.value.pets.value
    ensures tutor.None? || tutor.value.pets.None? ==> pets == []
  {
    if tutor.Some? && tutor.value.pets.Some? then tutor.value.pets.value else []
  }

  /** The pets shown for the selected tutor are that tutor's pets. */
  ghost predicate Consistent(f: Facade) {
    f.tutorPets == PetsOf(f.selectedTutor)
  }

  /** The state of a freshly created facade. */
  function Initial(): (f: Facade)
    ensures Consistent(f)
    ensures f.tutores == [] && f.selectedTutor.None? && !f.loading
    ensures f.totalPages == 0 && f.currentPage == 0
  {
    Facade([], None, [], false, 0, 0)
  }

  /** `loadTutores(page, nome)` up to the request. */
  function LoadTutores(f: Facade, page: int, nome: string): (r: (Facade, seq<ServiceCall>))
    ensures r.0.loading && r.0.currentPage == page
    ensures r.0.(loading := f.loading, currentPage := f.currentPage) == f
    ensures r.1 == [GetTutores(page, nome)]
  {
    (f.(loading := true, currentPage := page), [GetTutores(page, nome)])
  }

  /** The answer to `GetTutores`: on failure only `loading` changes. */
  function LoadTutoresDone(f: Facade, outcome: Result<TutorListResponse, HttpError>): (g: Facade)
    ensures !g.loading && g.selectedTutor == f.selectedTutor && g.tutorPets == f.tutorPets
    ensures g.currentPage == f.currentPage
    ensures outcome.Success? ==> g.tutores == outcome.value.content && g.totalPages == outcome.value.pageCount
    ensures outcome.Failure? ==> g == f.(loading := false)
  {
    match outcome
    case Success(res) => f.(tutores := res.content, totalPages := res.pageCount, loading := false)
    case Failure(_) => f.(loading := false)
  }

  /** `loadTutorById(id)` up to the request. A non-finite id clears the
      selection without a request and without touching `loading`. */
  function LoadTutorById(f: Facade, id: JsNumber): (r: (Facade, seq<ServiceCall>))
    ensures !IsFinite(id) ==> r.0 == f.(selectedTutor := None) && r.1 == []
    ensures IsFinite(id) ==> r.0 == f.(loading := true) && r.1 == [GetTutorById(id.n)]
  {
    if !id.Finite? then (f.(selectedTutor := None), [])
    else (f.(loading := true), [GetTutorById(id.n)])
  }

  /** The answer to `GetTutorById`. */
  function LoadTutorByIdDone(f: Facade, outcome: Result<Tutor, HttpError>): (g: Facade)
    ensures Consistent(g) && !g.loading
    ensures outcome.Success? ==> g.selectedTutor == Some(outcome.value)
    ensures outcome.Failure? ==> g.selectedTutor.None? && g.tutorPets == []
    ensures g.tutores == f.tutores && g.totalPages == f.totalPages && g.currentPage == f.currentPage
  {
    match outcome
    case Success(tutor) => f.(selectedTutor := Some(tutor), tutorPets := PetsOf(Some(tutor)), loading := false)
    case Failure(_) => f.(selectedTutor := None, tutorPets := [], loading := false)
  }

  /** `createTutor(dto)` up to the request: `loading` is raised at call
      time, and the list, the selection and its pets are left as they were. */
  function CreateTutorStart(f: Facade, dto: CreateTutorDto): (r: (Facade, seq<ServiceCall>))
    ensures r.0.loading && r.0.(loading := f.loading) == f
    ensures Consistent(f) ==> Consistent(r.0)
    ensures |r.1| == 1 && r.1[0].CreateTutor? && r.1[0].dto == dto
  {
    (f.(loading := true), [CreateTutor(dto)])
  }

  /** `updateTutor(id, dto)` up to the request: as for a create, only
      `loading` changes; the id is sent as given, with no finiteness test. */
  function UpdateTutorStart(f: Facade, id: JsNumber, dto: CreateTutorDto): (r: (Facade, seq<ServiceCall>))
    ensures r.0.loading && r.0.(loading := f.loading) == f
    ensures Consistent(f) ==> Consistent(r.0)
    ensures |r.1| == 1 && r.1[0].UpdateTutor? && r.1[0].id == id && r.1[0].dto == dto
  {
    (f.(loading := true), [UpdateTutor(id, dto)])
  }

  /** The answer to `CreateTutor` or `UpdateTutor`: `loading` is cleared and
      the outcome, an error included, is passed on to the caller unchanged. */
  function SaveDone(f: Facade, outcome: Result<Tutor, HttpError>): (r: (Facade, Result<Tutor, HttpError>))
    ensures !r.0.loading && r.0.(loading := f.loading) == f
    ensures Consistent(f) ==> Consistent(r.0)
    ensures r.1 == outcome
  {
    (f.(loading := false), outcome)
  }

  /** `uploadPhoto`: a plain pass-through to the service. Unlike the other
      writes it does not raise `loading`, and the facade state is untouched. */
  function UploadPhotoStart(f: Facade, tutorId: JsNumber, file: string): (r: (Facade, seq<ServiceCall>))
    ensures r.0.loading == f.loading && Consistent(r.0) == Consistent(f)
    ensures r.0.tutores == f.tutores && r.0.selectedTutor == f.selectedTutor && r.0.tutorPets == f.tutorPets
    ensures r.0.totalPages == f.totalPages && r.0.currentPage == f.currentPage
    ensures |r.1| == 1 && r.1[0].UploadPhoto? && r.1[0].tutorId == tutorId && r.1[0].file == file
  {
    (f, [UploadPhoto(tutorId, file)])
  }

  /** `linkPet(tutorId, petId)` up to the request: only `loading` changes,
      and the shown pets stay those of the selection until the reload. */
  function LinkPetStart(f: Facade, tutorId: JsNumber, petId: int): (r: (Facade, seq<ServiceCall>))
    ensures r.0.loading && r.0.(loading := f.loading) == f
    ensures Consistent(f) ==> Consistent(r.0)
    ensures |r.1| == 1 && r.1[0].LinkPet? && r.1[0].tutorId == tutorId && r.1[0].petId == petId
  {
    (f.(loading := true), [LinkPet(tutorId, petId)])
  }

  /** `unlinkPet(tutorId, petId)` up to the request: only `loading` changes,
      and the shown pets stay those of the selection until the reload. */
  function UnlinkPetStart(f: Facade, tutorId: JsNumber, petId: int): (r: (Facade, seq<ServiceCall>))
    ensures r.0.loading && r.0.(loading := f.loading) == f
    ensures Consistent(f) ==> Consistent(r.0)
    ensures |r.1| == 1 && r.1[0].UnlinkPet? && r.1[0].tutorId == tutorId && r.1[0].petId == petId
  {
    (f.(loading := true), [UnlinkPet(tutorId, petId)])
  }

  /** The answer to `LinkPet` or `UnlinkPet`. On success the same tutor is
      reloaded and then `loading` is cleared, so it is false while that
      reload is still in flight; either outcome is passed on unchanged. */
  function LinkChangeDone(f: Facade, tutorId: JsNumber, outcome: Result<(), HttpError>): (r: (Facade, seq<ServiceCall>, Result<(), HttpError>))
    ensures !r.0.loading && r.2 == outcome
    ensures outcome.Failure? ==> r.0 == f.(loading := false) && r.1 == []
    ensures outcome.Success? && IsFinite(tutorId) ==> r.0 == f.(loading := false) && r.1 == [GetTutorById(tutorId.n)]
    ensures outcome.Success? && !IsFinite(tutorId) ==> r.0 == f.(selectedTutor := None, loading := false) && r.1 == []
  {
    if outcome.Failure? then (f.(loading := false), [], outcome)
    else
      var (g, calls) := LoadTutorById(f, tutorId);
      (g.(loading := false), calls, outcome)
  }

  /** `clearSelectedTutor`. */
  function ClearSelectedTutor(f: Facade): (g: Facade)
    ensures Consistent(g) && g.selectedTutor.None? && g.tutorPets == []
    ensures g.(selectedTutor := f.selectedTutor, tutorPets := f.tutorPets) == f
  {
    f.(selectedTutor := None, tutorPets := [])
  }

  /** Every operation except a `loadTutorById` with a non-finite id keeps
      the shown pets equal to the selected tutor's pets. */
  lemma ConsistencyPreserved(f: Facade, page: int, nome: string, id: JsNumber, dto: CreateTutorDto,
                             list: Result<TutorListResponse, HttpError>, saved: Result<Tutor, HttpError>,
                             linked: Result<(), HttpError>)
    requires Consistent(f)
    ensures Consistent(LoadTutores(f, page, nome).0)
    ensures Consistent(LoadTutoresDone(f, list))
    ensures IsFinite(id) ==> Consistent(LoadTutorById(f, id).0)
    ensures Consistent(CreateTutorStart(f, dto).0) && Consistent(UpdateTutorStart(f, id, dto).0)
    ensures Consistent(SaveDone(f, saved).0)
    ensures Consistent(LinkPetStart(f, id, page).0) && Consistent(UnlinkPetStart(f, id, page).0)
    ensures IsFinite(id) ==> Consistent(LinkChangeDone(f, id, linked).0)
  {
  }

  /** A save round trip: the state after the answer is the state before the
      call with `loading` cleared, whichever way the save went, and the
      caller sees the service's answer. */
  lemma SaveRoundTrip(f: Facade, id: JsNumber, dto: CreateTutorDto, outcome: Result<Tutor, HttpError>)
    ensures SaveDone(CreateTutorStart(f, dto).0, outcome) == (f.(loading := false), outcome)
    ensures SaveDone(UpdateTutorStart(f, id, dto).0, outcome) == (f.(loading := false), outcome)
  {
  }

  /** With a non-finite id, `loadTutorById` clears the selection but keeps
      the previous tutor's pets in `tutorPets`. */
  lemma NonFiniteIdKeepsStalePets(f: Facade, pet: Pet)
    requires f.selectedTutor.Some? && f.selectedTutor.value.pets == Some([pet])
    requires Consistent(f)
    ensures !Consistent(LoadTutorById(f, NaN).0)
    ensures LoadTutorById(f, NaN).0.tutorPets == [pet]
  {
  }

  /** A successful link followed by the answer to the reload it made leaves
      the reloaded tutor selected, with its pets shown. */
  lemma LinkThenReload(f: Facade, tutorId: int, tutor: Tutor)
    ensures
      var r := LinkChangeDone(f, Finite(tutorId), Success(()));
      && r.1 == [GetTutorById(tutorId)]
      && var g := LoadTutorByIdDone(r.0, Success(tutor));
      && g.selectedTutor == Some(tutor) && g.tutorPets == PetsOf(Some(tutor)) && !g.loading
  {
  }
}
