/** `PetFacade` (src/app/core/facades/pet.facade.ts): the pet listing and
    the selected pet. The `currentPets`, `isLoading` and `currentPage`
    getters are the fields `pets`, `loading` and `currentPage`. */
module PetFacade {
  import opened Wrappers
  import opened Models

  /** The page size of every listing request. */
  const PageSize: int := 10

  /** A request made on the pet service. */
  datatype ServiceCall =
    | List(page: int, size: int, nome: Option<string>)
    | GetPetById(id: JsNumber)

  datatype Facade = Facade(
    pets: seq<Pet>,
    loading: bool,
    totalElements: int,
    totalPages: int,
    currentPage: int,
    selectedPet: Option<Pet>)

  /** The listing fields of a state: what `loadPets` replaces. */
  function Listing(f: Facade): (seq<Pet>, int, int) {
    (f.pets, f.totalElements, f.totalPages)
  }

  /** The state of a freshly created facade. */
  function Initial(): (f: Facade)
    ensures f.pets == [] && !f.loading && f.selectedPet.None?
    ensures f.totalElements == 0 && f.totalPages == 0 && f.currentPage == 0
  {
    Facade([], false, 0, 0, 0, None)
  }

  /** `loadPets(page, nome)` up to the request. */
  function LoadPets(f: Facade, page: int, nome: Option<string>): (r: (Facade, seq<ServiceCall>))
    ensures r.0.loading && r.0.currentPage == page
    ensures r.0.(loading := f.loading, currentPage := f.currentPage) == f
    ensures r.1 == [List(page, PageSize, nome)]
  {
    (f.(loading := true, currentPage := page), [List(page, PageSize, nome)])
  }

  /** The answer to `List`. A failure empties the listing; `loading` is
      cleared either way. */
  function LoadPetsDone(f: Facade, outcome: Result<PetListResponse, HttpError>): (g: Facade)
    ensures !g.loading && g.currentPage == f.currentPage && g.selectedPet == f.selectedPet
    ensures outcome.Success? ==>
      Listing(g) == (outcome.value.content, outcome.value.total, outcome.value.pageCount)
    ensures outcome.Failure? ==> Listing(g) == ([], 0, 0)
  {
    match outcome
    case Success(res) => f.(pets := res.content, totalElements := res.total, totalPages := res.pageCount, loading := false)
    case Failure(_) => f.(pets := [], totalElements := 0, totalPages := 0, loading := false)
  }

  /** `loadPetById(id)` up to the request; unlike the tutor facade there is
      no finiteness test, so even `NaN` is requested. Only `loading` changes. */
  function LoadPetById(f: Facade, id: JsNumber): (r: (Facade, seq<ServiceCall>))
    ensures r.0.loading && r.0.(loading := f.loading) == f
    ensures Listing(r.0) == Listing(f) && r.0.selectedPet == f.selectedPet
    ensures |r.1| == 1 && r.1[0].GetPetById? && r.1[0].id == id
  {
    (f.(loading := true), [GetPetById(id)])
  }

  /** The answer to `GetPetById`. */
  function LoadPetByIdDone(f: Facade, outcome: Result<Pet, HttpError>): (g: Facade)
    ensures !g.loading && Listing(g) == Listing(f) && g.currentPage == f.currentPage
    ensures outcome.Success? ==> g.selectedPet == Some(outcome.value)
    ensures outcome.Failure? ==> g.selectedPet.None?
  {
    match outcome
    case Success(pet) => f.(selectedPet := Some(pet), loading := false)
    case Failure(_) => f.(loading := false, selectedPet := None)
  }

  /** A lookup round trip: the answer decides the selection alone, and the
      listing and page shown before the lookup are kept. */
  lemma LoadPetByIdRoundTrip(f: Facade, id: JsNumber, outcome: Result<Pet, HttpError>)
    ensures
      var g := LoadPetByIdDone(LoadPetById(f, id).0, outcome);
      && g == f.(loading := false, selectedPet := if outcome.Success? then Some(outcome.value) else None)
  {
  }

  /** A failed listing puts the listing back to the initial one. */
  lemma FailedLoadIsInitialListing(f: Facade, page: int, nome: Option<string>, e: HttpError)
    ensures Listing(LoadPetsDone(LoadPets(f, page, nome).0, Failure(e))) == Listing(Initial())
  {
  }

  /** A listing round trip: the requested page becomes current, and the
      answer's content and totals become the listing. */
  lemma LoadPetsRoundTrip(f: Facade, page: int, nome: Option<string>, res: PetListResponse)
    ensures
      var g := LoadPetsDone(LoadPets(f, page, nome).0, Success(res));
      && g.currentPage == page && !g.loading
      && g.pets == res.content && g.totalElements == res.total && g.totalPages == res.pageCount
  {
  }
}
