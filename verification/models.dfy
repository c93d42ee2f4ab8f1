/** Record shapes of the REST backend (the interfaces under src/app/core/models) and the
    JavaScript number values that the components branch on. */
module Models {
  import opened Wrappers

  /** A JavaScript `number` as the components see it. Ids, pages and ages are
      integers here; `NaN` also stands for `undefined`, which behaves the same
      way under both tests below. */
  datatype JsNumber = Finite(n: int) | NaN | Infinite

  /** `!!x` on a number: false for 0 and NaN, true otherwise (Infinity too). */
  predicate Truthy(x: JsNumber) {
    match x
    case Finite(n) => n != 0
    case NaN => false
    case Infinite => true
  }

  /** `Number.isFinite(x)`. */
  predicate IsFinite(x: JsNumber) {
    x.Finite?
  }

  /** `!!s` on a `string | null`: present and non-empty. */
  predicate TruthyText(s: Option<string>) {
    s.Some? && |s.value| > 0
  }

  datatype Foto = Foto(id: int, nome: string, contentType: string, url: string)

  datatype Pet = Pet(
    id: int,
    nome: string,
    raca: string,
    especie: Option<string>,
    idade: int,
    tutorId: Option<int>,
    foto: Option<Foto>,
    tutores: Option<seq<Tutor>>)

  datatype Tutor = Tutor(
    id: int,
    nome: string,
    email: string,
    telefone: string,
    endereco: string,
    cpf: int,
    foto: Option<Foto>,
    pets: Option<seq<Pet>>)

  datatype PetListResponse = PetListResponse(page: int, size: int, total: int, pageCount: int, content: seq<Pet>)

  datatype TutorListResponse = TutorListResponse(page: int, size: int, total: int, pageCount: int, content: seq<Tutor>)

  datatype LoginRequest = LoginRequest(username: string, password: string)

  /** Both the login and the refresh endpoint answer with this shape. */
  datatype LoginResponse = LoginResponse(
    access_token: string,
    refresh_token: string,
    expires_in: int,
    refresh_expires_in: int)

  /** An `HttpErrorResponse` as far as the components look into it: the HTTP
      status (0 for a network failure), its `message` and the backend body's
      `error.message` when that is a string. */
  datatype HttpError = HttpError(status: int, message: Option<string>, apiMessage: Option<string>)
}
