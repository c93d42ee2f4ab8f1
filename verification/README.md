# Pets and tutors front end — a Dafny model of its logic

This project models the logic underneath an Angular front end that talks to a
REST backend for pets (`Pet`) and their tutors (`Tutor`). The model covers:

- **The session layer.** `AuthFacade` holds the access and refresh tokens,
  their `localStorage` copies, and the refresh timer. `authInterceptor`
  attaches the bearer header. `authGuard` admits or redirects.
- **Two pure widgets.** The pagination window and the Brazilian phone mask.
- **The pet–tutor link protocol.** The link modal encodes the change of
  selection as one list: added ids, then negated removed ids. The tutor
  detail page decodes that list into `linkPet`/`unlinkPet` calls.
- **The facades.** `TutorFacade`, `PetFacade` and `HealthFacade`, plus the
  status classification of `HealthService`.
- **The forms and list pages.** The login page, the tutor and pet forms, and
  the view settings of the tutor list.

## How the model is built

Every stateful class becomes an immutable record, and every method becomes a
function from the record before to the record after.

- **Backend answers are inputs.** An HTTP call is split in two. A start
  function returns the request it makes, as a list. A `...Done` (or
  `...Answered`) function takes the backend's answer as a `Result`.
  `AuthFacade.Login` and `AuthFacade.RefreshToken` are the exception: each
  takes the answer directly and runs the call and the answer as one step.
  Their answer halves (`LoginAnswered`, `RefreshAnswered`) are also
  separate functions, so a logout while a call is in flight can be stated
  (`AuthFacade.LateAnswerUndoesLogout`).
- **Side effects are outputs.** Navigations, emitted events, facade calls
  and alerts are returned as lists.
- **Browser state is explicit.** `localStorage` is a `map<string, string>`.
  `confirm` is a boolean argument. The timestamp of a health probe is a
  string argument.
- **Timers are data.** Every `setTimeout` the auth facade starts is kept as
  a `Timer` that is armed, fired or cancelled.
- **JavaScript values that matter are modelled exactly.** Truthiness and
  `Number.isFinite` on numbers use `JsNumber` (finite, `NaN`, `Infinity`).
  The text helpers follow JavaScript: `\D` stripping, `trim`, `includes`,
  `toString` and `parseInt`. A JavaScript `Set` iterates in insertion order,
  so it is a duplicate-free sequence; this makes the order of the confirm
  payload part of the model.

Shared modules:

- `Wrappers`: `Option` and `Result`.
- `Models`: the record shapes of `src/app/core/models`, and `JsNumber`.
- `JsText`: the string and number functions listed above.
- `FormMode`: the edit-or-create decision common to both forms.

Three behaviours of the code are worth knowing.

- **Retry on 401.** The interceptor's test file expects a refresh and retry
  after a 401, but the interceptor has none. The model follows the code:
  `AuthInterceptor.Run` calls `next` once and returns its answer.
- **Delete timers.** Deleting two tutors in quick succession lets the first
  delete's timer clear the second one's "deleting" mark early
  (`TutorList.EarlyTimerClearsLaterMark`).
- **Stale pets.** `TutorFacade.loadTutorById` with a non-finite id clears
  the selected tutor but keeps the previous tutor's pets
  (`TutorFacade.NonFiniteIdKeepsStalePets`). Every other operation keeps the
  two consistent.

## Model

| member | source | states |
|---|---|---|
| `AuthFacade.Create` | src/app/core/facades/auth.facade.ts:9-10 | The session keeps the given storage, and its in-memory tokens are the stored `access_token` and `refresh_token` (null when absent). No timer is armed and no call or navigation has been made. |
| `AuthFacade.AtMostOneTimer` | src/app/core/facades/auth.facade.ts:103-118 | In every reachable session at most one refresh timer is pending. One is pending exactly when the session reports a refresh delay. |
| `AuthFacade.SetTokens` | src/app/core/facades/auth.facade.ts:81-86 | Both tokens are written to storage and to memory. Other storage keys, the timers and the logs are untouched. |
| `AuthFacade.ClearTokens` | src/app/core/facades/auth.facade.ts:88-93 | Both keys are removed and both tokens nulled, so the session is unauthenticated. Nothing else changes. |
| `AuthFacade.ClearTimer` | src/app/core/facades/auth.facade.ts:114-118 | Afterwards no timer is armed. Every timer other than the held one keeps its state, and the only change possible is Armed to Cancelled, so a timer that already ran is left alone. The handle is kept. |
| `AuthFacade.ScheduleRefresh` | src/app/core/facades/auth.facade.ts:103-112 | Afterwards exactly one timer is armed: a new one with delay `(expiresIn - 30) * 1000` ms. The previous timer was cancelled. |
| `AuthFacade.LoginAnswered` | src/app/core/facades/auth.facade.ts:40-44 | On a successful answer the tokens are stored, the refresh is armed and `/pets` is navigated to, whatever the session was when the answer arrived. A failure changes nothing. |
| `AuthFacade.Login` | src/app/core/facades/auth.facade.ts:38-46 | Success stores both tokens, arms the refresh at `expires_in`, and navigates to `/pets`. Failure changes nothing but the service-call log. |
| `AuthFacade.Logout` | src/app/core/facades/auth.facade.ts:48-52 | Both tokens are gone from memory and storage, no timer is armed, and one navigation to `/auth/login` is appended. |
| `AuthFacade.LogoutIdempotent` | src/app/core/facades/auth.facade.ts:48-52 | Logging out twice gives the state of one logout; only the navigation is repeated. |
| `AuthFacade.RefreshToken` | src/app/core/facades/auth.facade.ts:54-67 | Without a refresh token: logout, then a synchronous throw, with no service call. Otherwise it sends that token; success replaces both tokens and re-arms the timer without navigating, and failure changes nothing else. |
| `AuthFacade.RefreshAnswered` | src/app/core/facades/auth.facade.ts:61-65 | On a successful answer the new pair is stored and the timer re-armed, without navigating. A failure changes nothing. |
| `AuthFacade.LateAnswerUndoesLogout` | src/app/core/facades/auth.facade.ts:38-65 | A logout while a login or refresh is in flight does not stick: the late successful answer leaves the session authenticated with a timer armed. |
| `AuthFacade.InitializeOnAppStart` | src/app/core/facades/auth.facade.ts:23-36 | Unauthenticated: no-op. Authenticated: an asynchronous refresh failure keeps the session, but a missing refresh token still logs out and throws. |
| `AuthFacade.TimerFires` | src/app/core/facades/auth.facade.ts:107-111 | When the timer's refresh fails or throws, the session ends logged out with one navigation to the login page. The refresh emits exactly when a refresh token was held and the refresh succeeded. In that case the new pair is held, the timer is re-armed at the new `expires_in`, and nothing is navigated. |
| `AuthInterceptor.Intercept` | src/app/core/interceptors/auth.interceptor.ts:9-18 | With a truthy token and a URL not containing `/autenticacao/login`, the copy carries `Authorization: Bearer <token>`. Otherwise the request is forwarded unchanged. URL, verb, body and the other headers are always preserved. |
| `AuthInterceptor.Run` | src/app/core/interceptors/auth.interceptor.ts:5-19 | `next` is called exactly once, with the intercepted request, and its answer (errors included) is the result. |
| `AuthInterceptor.AttachesIffAuthenticated` | src/app/core/interceptors/auth.interceptor.ts:7-9 | The header is attached exactly when the facade's `isAuthenticated` holds and the URL is not the login URL. |
| `AuthInterceptor.RefreshUrlNotExempt` | src/app/core/interceptors/auth.interceptor.ts:9 | The exemption is a substring test on the login path only. The refresh URL does not contain it, for any API base that does not. |
| `AuthInterceptor.RefreshRequestGetsAccessToken` | src/app/core/services/auth.service.ts:18-23 | While an access token is held, the refresh request's bearer header (the refresh token) is overwritten with the access token. |
| `AuthInterceptor.LoginUrlIsExempt` | src/app/core/interceptors/auth.interceptor.ts:9 | A login URL is forwarded unchanged whatever the token. |
| `AuthGuard.Guard` | src/app/core/guards/auth.guard.ts:5-16 | Allows exactly when the token is present and non-empty. Otherwise it redirects to `['/auth/login']`. It reads only the token. |
| `AuthGuard.GuardMatchesFacade` | src/app/core/guards/auth.guard.ts:9 | The guard allows exactly the sessions for which `isAuthenticated` holds. |
| `AuthGuard.GuardAfterLogoutAndLogin` | src/app/core/guards/auth.guard.ts:9-15 | After a logout the guard redirects. After a successful login with a non-empty token it allows. |
| `Pagination.Pages` | src/app/shared/components/pagination/pagination.component.ts:19-31 | The pages are consecutive and all in `[0, totalPages)`. There are `min(5, totalPages)` of them. They contain the current page when it is valid, start at `currentPage - 2` when there is room, and end at the last page near the end. |
| `Pagination.PagesIsClampedWindow` | src/app/shared/components/pagination/pagination.component.ts:20-30 | Reference definition: the window starts at `currentPage - 2`, clamped to `[0, totalPages - 5]`, and has length `min(5, totalPages)`. |
| `Pagination.ChangePage` | src/app/shared/components/pagination/pagination.component.ts:33-37 | Emits `[page]` exactly when `0 <= page < totalPages`, and nothing otherwise. |
| `Pagination.ListedPagesAreAccepted` | src/app/shared/components/pagination/pagination.component.ts:30-35 | Every page shown in the window is accepted by `changePage`. |
| `PhoneMask.Truncate` | src/app/shared/directives/phone-mask.component.ts:17 | Keeps the first 11 characters: a prefix of at most 11. |
| `PhoneMask.Mask` | src/app/shared/directives/phone-mask.component.ts:20-28 | The greedy regex groups give `(dd`, `(dd) ddddd`, `(dd) dddd-dddd` and `(dd) ddddd-dddd` for 1–2, 3–6, 7–10 and 11 digits. |
| `PhoneMask.MaskKeepsDigits` | src/app/shared/directives/phone-mask.component.ts:19-28 | Masking only adds punctuation: the digits of the mask are the masked digits. |
| `PhoneMask.OnInput` | src/app/shared/directives/phone-mask.component.ts:11-31 | The output's digits are the first 11 digits of the input. The output is empty exactly when the input has no digit. |
| `PhoneMask.OnBlur` | src/app/shared/directives/phone-mask.component.ts:33-41 | Stripping to digits and re-running the input handler gives the same value as the input handler on the raw text. |
| `PhoneMask.OnlyFirstElevenDigitsMatter` | src/app/shared/directives/phone-mask.component.ts:14-17 | Two inputs with the same first 11 digits mask alike; non-digits are irrelevant. |
| `PhoneMask.OnInputIdempotent` | src/app/shared/directives/phone-mask.component.ts:11-31 | Masking a masked value changes nothing. |
| `PhoneMask.BlurKeepsMaskedValue` | src/app/shared/directives/phone-mask.component.ts:33-41 | Strip-and-remask on blur reproduces the masked value. |
| `JsText.Digits` | src/app/shared/directives/phone-mask.component.ts:14 | `replace(/\D/g, '')` keeps only digits, never lengthens, and is the identity on digit strings. |
| `JsText.TrimNonEmptyIff` | src/app/modules/auth/pages/login/login.component.ts:46 | `s.trim().length > 0` exactly when `s` has a non-whitespace character. |
| `JsText.ParseIntOfIntToString` | src/app/modules/tutores/pages/tutor-list/tutor-list.component.ts:53 | `parseInt` reads back every integer that `toString` wrote. |
| `LinkPetModal.Dedup` | src/app/shared/components/link-pet-modal/link-pet-modal.component.ts:56-57 | `new Set(list)` has no duplicates and the same elements as the list. |
| `LinkPetModal.DedupKeepsFirstSeenOrder` | src/app/shared/components/link-pet-modal/link-pet-modal.component.ts:56-57 | Insertion order: the set built from a prefix of the list is a prefix of the set built from the whole list. |
| `LinkPetModal.Minus` | src/app/shared/components/link-pet-modal/link-pet-modal.component.ts:139-140 | The filter keeps exactly the elements not in the other set, in order, and keeps a duplicate-free list duplicate-free. |
| `LinkPetModal.Open` | src/app/shared/components/link-pet-modal/link-pet-modal.component.ts:55-58 | Initial and selected both equal the set of linked ids, and page 0 is requested with an empty term. The pet facade's replayed values then set the page to 0, the page count to the facade's current count, and clear `isLoadingMore`. |
| `LinkPetModal.OnCurrentPage` | src/app/shared/components/link-pet-modal/link-pet-modal.component.ts:60-64 | `currentPage` becomes `page ?? 0`; nothing else changes. |
| `LinkPetModal.OnTotalPages` | src/app/shared/components/link-pet-modal/link-pet-modal.component.ts:66-70 | `totalPages` becomes `tp ?? 1`; nothing else changes. |
| `LinkPetModal.OnPets` | src/app/shared/components/link-pet-modal/link-pet-modal.component.ts:72-76 | Any pets emission clears `isLoadingMore` and only that. |
| `LinkPetModal.OnSearch` | src/app/shared/components/link-pet-modal/link-pet-modal.component.ts:107-111 | The typed term is kept; nothing else changes. |
| `LinkPetModal.OnSearchSettled` | src/app/shared/components/link-pet-modal/link-pet-modal.component.ts:101-104 | A settled term resets to page 0 and requests page 0 with that term. |
| `LinkPetModal.LoadMore` | src/app/shared/components/link-pet-modal/link-pet-modal.component.ts:113-120 | Does nothing while loading or with no next page. Otherwise it sets `isLoadingMore` and requests `currentPage + 1` in append mode. |
| `LinkPetModal.LoadMoreBeforeFirstAnswer` | src/app/shared/components/link-pet-modal/link-pet-modal.component.ts:55-120 | Before the first answer, `loadMore` trusts the replayed page count: with an earlier listing's count above 1 it asks for page 1 at once, and with a count of 1 or less, as on a fresh facade, it asks for nothing. |
| `LinkPetModal.OnTogglePet` | src/app/shared/components/link-pet-modal/link-pet-modal.component.ts:122-128 | Flips the membership of `id` only, and keeps the selection a set. |
| `LinkPetModal.ToggleTwice` | src/app/shared/components/link-pet-modal/link-pet-modal.component.ts:122-128 | Toggling the same id twice restores the selected set. |
| `LinkPetModal.Payload` | src/app/shared/components/link-pet-modal/link-pet-modal.component.ts:139-142 | The payload is `selected \ initial`, then the negated ids of `initial \ selected`: negating the tail gives back exactly the removed ids, so every removed id appears negated and nothing else does. |
| `LinkPetModal.PayloadEmptyIffUnchanged` | src/app/shared/components/link-pet-modal/link-pet-modal.component.ts:142-146 | The payload is empty exactly when the selected set equals the initial set. |
| `LinkPetModal.OnConfirm` | src/app/shared/components/link-pet-modal/link-pet-modal.component.ts:138-148 | The payload is emitted only when the selection changed, and `close` is always emitted last. |
| `LinkPetModal.OnBackdropClick` | src/app/shared/components/link-pet-modal/link-pet-modal.component.ts:154-158 | Never emits a link payload and emits at most one event: `close`, exactly when the click hit the backdrop itself. |
| `LinkPetModal.SelectedCount` | src/app/shared/components/link-pet-modal/link-pet-modal.component.ts:160-162 | The size of the selected set. |
| `LinkPetModal.NewSelectionCount` | src/app/shared/components/link-pet-modal/link-pet-modal.component.ts:164-168 | The number of selected ids not among the linked ones. |
| `LinkPetModal.HasChanges` | src/app/shared/components/link-pet-modal/link-pet-modal.component.ts:174-180 | The size test plus the scan for an unlinked selected id is true exactly when selected ≠ initial as sets. |
| `LinkPetModal.AddedCount` | src/app/shared/components/link-pet-modal/link-pet-modal.component.ts:182-184 | Equals `|selected \ initial|`. |
| `LinkPetModal.RemovedCount` | src/app/shared/components/link-pet-modal/link-pet-modal.component.ts:186-188 | Equals `|initial \ selected|`. |
| `LinkPetModal.PayloadLength` | src/app/shared/components/link-pet-modal/link-pet-modal.component.ts:139-142 | The payload length is `addedCount + removedCount`. |
| `TutorDetail.Pets` | src/app/modules/tutores/pages/tutor-detail/tutor-detail.component.ts:28-30 | `tutor.pets`, or `[]` when there is no tutor or no pet list; the same as the facade's `tutorPets`. |
| `TutorDetail.LinkedPetIds` | src/app/modules/tutores/pages/tutor-detail/tutor-detail.component.ts:32-34 | The ids of those pets, in list order. |
| `TutorDetail.NgOnInit` | src/app/modules/tutores/pages/tutor-detail/tutor-detail.component.ts:38-42 | Loads the tutor only when the id is truthy. |
| `TutorDetail.NgOnDestroy` | src/app/modules/tutores/pages/tutor-detail/tutor-detail.component.ts:44-46 | Dispatched on the tutor facade, the destroy calls leave no tutor selected and no pets shown, keep the list and its paging, and leave the facade consistent. |
| `TutorDetail.OpenLinkPetModal` | src/app/modules/tutores/pages/tutor-detail/tutor-detail.component.ts:48-50 | Sets `showLinkPetModal` to true. |
| `TutorDetail.CloseLinkPetModal` | src/app/modules/tutores/pages/tutor-detail/tutor-detail.component.ts:52-54 | Sets `showLinkPetModal` to false. |
| `TutorDetail.Positives` | src/app/modules/tutores/pages/tutor-detail/tutor-detail.component.ts:57 | Exactly the positive entries. |
| `TutorDetail.AbsOfNegatives` | src/app/modules/tutores/pages/tutor-detail/tutor-detail.component.ts:58 | Exactly the absolute values of the negative entries. |
| `TutorDetail.OnLinkPets` | src/app/modules/tutores/pages/tutor-detail/tutor-detail.component.ts:56-71 | One `linkPet(id, x)` per positive `x`, then one `unlinkPet(id, -x)` per negative `x`, in list order. Zero is skipped. |
| `TutorDetail.OnLinkChangeAnswered` | src/app/modules/tutores/pages/tutor-detail/tutor-detail.component.ts:61-63 | Each successful link or unlink reloads the tutor; an error triggers nothing. |
| `TutorDetail.OnUnlinkPet` | src/app/modules/tutores/pages/tutor-detail/tutor-detail.component.ts:73-76 | `unlinkPet` is called only when the user confirmed. |
| `TutorDetail.OnUnlinkAnswered` | src/app/modules/tutores/pages/tutor-detail/tutor-detail.component.ts:76-79 | The tutor is reloaded exactly when the unlink succeeded. |
| `TutorDetail.ZerosAreIgnored` | src/app/modules/tutores/pages/tutor-detail/tutor-detail.component.ts:56-71 | A list with no non-zero entry (the empty list included) makes no call. |
| `TutorDetail.DecodeOfPayload` | src/app/modules/tutores/pages/tutor-detail/tutor-detail.component.ts:56-58 | Round trip: for positive ids, decoding the modal's payload gives exactly `selected \ initial` to link and `initial \ selected` to unlink. |
| `TutorDetail.ConfirmedModalCalls` | src/app/modules/tutores/pages/tutor-detail/tutor-detail.component.ts:60-70 | The calls made for a confirmed modal link the added pets and then unlink the removed ones. |
| `TutorFacade.PetsOf` | src/app/core/facades/tutor.facade.ts:55 | `tutor.pets ?? []`. |
| `TutorFacade.Initial` | src/app/core/facades/tutor.facade.ts:12-28 | Empty lists, no selection, not loading, zero pages; shown pets match the selection. |
| `TutorFacade.LoadTutores` | src/app/core/facades/tutor.facade.ts:30-34 | Sets `loading` and `currentPage` before requesting that page and name. |
| `TutorFacade.LoadTutoresDone` | src/app/core/facades/tutor.facade.ts:35-41 | Success sets the list and `totalPages`. Failure changes only `loading`, which ends false either way. |
| `TutorFacade.LoadTutorById` | src/app/core/facades/tutor.facade.ts:44-51 | A non-finite id clears the selection with no request and without touching `loading`. A finite id sets `loading` and requests that id. |
| `TutorFacade.LoadTutorByIdDone` | src/app/core/facades/tutor.facade.ts:52-64 | Success selects the tutor and shows its pets. Failure clears both. `loading` ends false. |
| `TutorFacade.CreateTutorStart` | src/app/core/facades/tutor.facade.ts:67-69 | Only `loading` changes, and it is raised at call time; the shown pets stay consistent with the selection. One create request carries the DTO. |
| `TutorFacade.UpdateTutorStart` | src/app/core/facades/tutor.facade.ts:78-80 | Only `loading` changes, and it is raised at call time; the shown pets stay consistent. One update request carries the id as given and the DTO. |
| `TutorFacade.SaveDone` | src/app/core/facades/tutor.facade.ts:69-75 | Only `loading` changes and it ends false after success or failure; the shown pets stay consistent; the answer, a failure included, is passed on unchanged. |
| `TutorFacade.UploadPhotoStart` | src/app/core/facades/tutor.facade.ts:89-91 | Unlike the other writes it does not raise `loading`: list, selection, pets and paging are untouched. One upload request carries the id and file. |
| `TutorFacade.LinkPetStart` | src/app/core/facades/tutor.facade.ts:93-95 | Only `loading` changes, and it is raised; the shown pets stay consistent until the reload. One link request carries both ids. |
| `TutorFacade.UnlinkPetStart` | src/app/core/facades/tutor.facade.ts:107-109 | Only `loading` changes, and it is raised; the shown pets stay consistent until the reload. One unlink request carries both ids. |
| `TutorFacade.SaveRoundTrip` | src/app/core/facades/tutor.facade.ts:67-81 | A create or update followed by its answer leaves the state as before the call with `loading` cleared, and hands the answer to the caller. |
| `TutorFacade.LinkChangeDone` | src/app/core/facades/tutor.facade.ts:95-104 | Success reloads the same tutor and clears `loading`, even while that reload is in flight. Failure only clears `loading` and is rethrown. |
| `TutorFacade.ClearSelectedTutor` | src/app/core/facades/tutor.facade.ts:121-124 | Clears the selection and the shown pets, nothing else. |
| `TutorFacade.ConsistencyPreserved` | src/app/core/facades/tutor.facade.ts:30-119 | Every operation except `loadTutorById` with a non-finite id keeps `tutorPets` equal to the selected tutor's pets. |
| `TutorFacade.NonFiniteIdKeepsStalePets` | src/app/core/facades/tutor.facade.ts:45-48 | A non-finite id clears the selection but leaves the old tutor's pets in `tutorPets`. |
| `TutorFacade.LinkThenReload` | src/app/core/facades/tutor.facade.ts:93-105 | A successful link followed by the reload's answer leaves the reloaded tutor selected with its pets. |
| `PetFacade.Initial` | src/app/core/facades/pet.facade.ts:8-21 | Pets `[]`, not loading, totals and page 0, no selected pet. |
| `PetFacade.LoadPets` | src/app/core/facades/pet.facade.ts:26-30 | Sets `loading` and `currentPage` and always requests page size 10. |
| `PetFacade.LoadPetsDone` | src/app/core/facades/pet.facade.ts:31-44 | Success sets pets, `totalElements` and `totalPages`. Failure resets them to `[]`, 0 and 0. `loading` ends false either way. |
| `PetFacade.LoadPetById` | src/app/core/facades/pet.facade.ts:59-61 | Only `loading` changes, and it is raised; listing and selection are kept. Exactly one request is made, even for `NaN`, because there is no finiteness test. |
| `PetFacade.LoadPetByIdDone` | src/app/core/facades/pet.facade.ts:62-70 | Success selects the pet, failure clears the selection, and `loading` ends false. The listing is kept. |
| `PetFacade.LoadPetByIdRoundTrip` | src/app/core/facades/pet.facade.ts:59-70 | A lookup and its answer change only the selection, to the pet or to none; `loading` ends false and the listing is kept. |
| `PetFacade.FailedLoadIsInitialListing` | src/app/core/facades/pet.facade.ts:38-43 | A failed load puts the listing back to the initial one. |
| `PetFacade.LoadPetsRoundTrip` | src/app/core/facades/pet.facade.ts:26-37 | After a successful load, the requested page is current and the answer is the listing. |
| `HealthService.CheckFullHealth` | src/app/core/services/health.service.ts:20-45 | Success: live, and ready exactly on status 200. Error: not ready, and live exactly for `400 <= status < 600`. The probe URL is always the endpoint, and the result is never an error. |
| `HealthService.ReadyImpliesLive` | src/app/core/services/health.service.ts:24-42 | A ready backend is always reported live. |
| `HealthService.NetworkFailureIsDown` | src/app/core/services/health.service.ts:33-35 | Status 0 is reported down on both probes. |
| `HealthFacade.Initial` | src/app/core/facades/health.facade.ts:9-11 | No health, not loading, empty history. |
| `HealthFacade.CheckHealth` | src/app/core/facades/health.facade.ts:17-18 | Raises `loading` and nothing else. |
| `HealthFacade.Push` | src/app/core/facades/health.facade.ts:24-26 | The new status comes first, the older entries follow in order, and the result is cut at 10. |
| `HealthFacade.CheckHealthDone` | src/app/core/facades/health.facade.ts:19-39 | Success records the status and pushes it. Failure shows DOWN/DOWN at `unknown` with the error message and keeps the history. `loading` ends false and the history stays within 10. |
| `HealthFacade.CheckSeveral` | src/app/core/facades/health.facade.ts:17-41 | `|history| <= 10` holds after any number of checks. |
| `HealthFacade.HistoryAfterSeveral` | src/app/core/facades/health.facade.ts:24-26 | After several checks the history is the latest statuses, newest first, then the old history, cut at 10. |
| `HealthFacade.ServiceAnswersAreRecorded` | src/app/core/facades/health.facade.ts:20-26 | With the service behind it, every probe's status is recorded first in the history. |
| `LoginPage.Initial` | src/app/modules/auth/pages/login/login.component.ts:18-27 | Not loading, no error, and the empty form is invalid. |
| `LoginPage.ErrorMessage` | src/app/modules/auth/pages/login/login.component.ts:41-48 | A 401, or an API message matching `invalid credentials`/`incorrect credentials` ignoring case, gives the wrong-credentials text. Otherwise a non-blank API message is shown verbatim. Otherwise the connection-failure text. |
| `LoginPage.ErrorMessageNotBlank` | src/app/modules/auth/pages/login/login.component.ts:41-50 | The text shown is never blank. |
| `LoginPage.OnSubmit` | src/app/modules/auth/pages/login/login.component.ts:29-34 | An invalid form only marks the controls touched and makes no call. A valid one raises `loading`, clears the error and logs in with the form value. |
| `LoginPage.OnLoginDone` | src/app/modules/auth/pages/login/login.component.ts:35-51 | `loading` ends false; a failure sets the chosen error text. |
| `LoginPage.SubmitOutcomes` | src/app/modules/auth/pages/login/login.component.ts:29-56 | A submit through the auth facade: an accepted login navigates to `/pets` with no error. A rejected one shows the chosen text and does not navigate. An invalid form leaves the session alone. |
| `FormMode.OnInit` | src/app/modules/tutores/pages/tutor-form/tutor-form.component.ts:43-54 | Edit mode exactly for a finite id, and the record is loaded exactly for a finite truthy id. A non-finite id clears the selection. |
| `FormMode.IdZeroIsEditModeThatCreates` | src/app/modules/pets/pages/pet-form/pet-form.component.ts:39-50 | Id 0 is edit mode that neither loads nor clears, and its submit creates. |
| `FormMode.UpdateIffLoaded` | src/app/modules/tutores/pages/tutor-form/tutor-form.component.ts:94-96 | A submit updates exactly when `ngOnInit` loaded that record. |
| `FormMode.PreviewOf` | src/app/modules/tutores/pages/tutor-form/tutor-form.component.ts:68 | The preview is the photo URL when it is non-empty, else null. |
| `TutorForm.ToDto` | src/app/modules/tutores/pages/tutor-form/tutor-form.component.ts:89-92 | The DTO is the form value with the cpf reduced to its digits (`replace(/\D/g, '')`), never longer than the typed cpf and unchanged on a valid form. |
| `TutorForm.Open` | src/app/modules/tutores/pages/tutor-form/tutor-form.component.ts:43-51 | `isEditMode` holds exactly for a finite id, and the init action is the shared one. |
| `TutorForm.OnSelectedTutor` | src/app/modules/tutores/pages/tutor-form/tutor-form.component.ts:57-70 | A selected tutor fills the form, with its numeric cpf as decimal text, and sets the preview. A null tutor changes nothing. |
| `TutorForm.OnSubmit` | src/app/modules/tutores/pages/tutor-form/tutor-form.component.ts:83-96 | An invalid form saves nothing. A valid one updates when `isEditMode && id`, and creates otherwise. |
| `TutorForm.SaveErrorText` | src/app/modules/tutores/pages/tutor-form/tutor-form.component.ts:111 | The API message when it is truthy, else the fixed retry text. |
| `TutorForm.OnSaved` | src/app/modules/tutores/pages/tutor-form/tutor-form.component.ts:98-113 | Uploads only with a selected file and a truthy saved id; otherwise navigates to `/tutores`. A failure alerts. |
| `TutorForm.OnUploaded` | src/app/modules/tutores/pages/tutor-form/tutor-form.component.ts:100-113 | A successful upload navigates to `/tutores`; a failure alerts. |
| `TutorForm.LoadedCpfValidIff` | src/app/modules/tutores/pages/tutor-form/tutor-form.component.ts:40 | A loaded cpf passes `^\d{11}$` exactly when `10^10 <= cpf < 10^11`, so a cpf with a leading zero loads invalid. |
| `TutorForm.UnchangedEditSendsTutorBack` | src/app/modules/tutores/pages/tutor-form/tutor-form.component.ts:43-96 | Editing a loaded tutor without changes updates it with its own data, and the cpf sent reads back as the stored number. |
| `PetForm.Open` | src/app/modules/pets/pages/pet-form/pet-form.component.ts:39-47 | `isEditMode` holds exactly for a finite id, and the init action is the shared one. |
| `PetForm.ToDto` | src/app/modules/pets/pages/pet-form/pet-form.component.ts:85-89 | Name, breed and age are the form's; a valid form gives a DTO within the validators' bounds (name of 2 or more, breed non-empty, age 0 to 30). |
| `PetForm.OnSelectedPet` | src/app/modules/pets/pages/pet-form/pet-form.component.ts:53-64 | A selected pet fills the form and the preview; a null pet changes nothing. |
| `PetForm.OnSubmit` | src/app/modules/pets/pages/pet-form/pet-form.component.ts:77-93 | An invalid form saves nothing and keeps its error. A valid one clears the error and updates exactly when `isEditMode && id`. |
| `PetForm.SaveErrorText` | src/app/modules/pets/pages/pet-form/pet-form.component.ts:109-111 | `err.error.message`, then `err.message`, then the fixed text; never empty. |
| `PetForm.OnSaved` | src/app/modules/pets/pages/pet-form/pet-form.component.ts:95-112 | Uploads only with a file and a truthy saved id; otherwise navigates to `/pets`. A failure sets the error text. |
| `PetForm.OnUploaded` | src/app/modules/pets/pages/pet-form/pet-form.component.ts:103-112 | A successful upload navigates to `/pets`; a failure sets the error text. |
| `PetForm.UnchangedEditSendsPetBack` | src/app/modules/pets/pages/pet-form/pet-form.component.ts:39-93 | Editing a loaded valid pet without changes updates it with its own name, breed and age. |
| `PetForm.ResubmitClearsError` | src/app/modules/pets/pages/pet-form/pet-form.component.ts:83 | After a failed save, a valid resubmit clears the error shown. |
| `TutorList.ParseIntNumber` | src/app/modules/tutores/pages/tutor-list/tutor-list.component.ts:53 | `parseInt` as a number: its integer, or `NaN`. |
| `TutorList.Open` | src/app/modules/tutores/pages/tutor-list/tutor-list.component.ts:48-55 | A non-empty stored view mode and cards-per-row replace the defaults `grid` and 3, and the first page is loaded. |
| `TutorList.SetViewMode` | src/app/modules/tutores/pages/tutor-list/tutor-list.component.ts:68-71 | Sets the mode and stores it under `tutorViewMode`; other keys are unchanged. |
| `TutorList.SetCardsPerRow` | src/app/modules/tutores/pages/tutor-list/tutor-list.component.ts:73-76 | Sets the count and stores its decimal text (`toString`) under `tutorCardsPerRow`; other keys are unchanged. |
| `TutorList.SettingsSurviveReopen` | src/app/modules/tutores/pages/tutor-list/tutor-list.component.ts:48-76 | A reopened page restores the view mode and cards-per-row last set. |
| `TutorList.GridClasses` | src/app/modules/tutores/pages/tutor-list/tutor-list.component.ts:78-92 | Fixed classes for `list` and `compact`. Any other mode has classes exactly for 2–5 cards per row, and `undefined` otherwise. |
| `TutorList.WidestColumnsMatchCardsPerRow` | src/app/modules/tutores/pages/tutor-list/tutor-list.component.ts:85-91 | In grid mode each count from 2 to 5 selects its own table entry. |
| `TutorList.DefaultGrid` | src/app/modules/tutores/pages/tutor-list/tutor-list.component.ts:45-46 | With nothing stored, the grid shows three per row. |
| `TutorList.OnSearch` | src/app/modules/tutores/pages/tutor-list/tutor-list.component.ts:94-97 | Keeps the term and changes nothing else. |
| `TutorList.OnSearchSettled` | src/app/modules/tutores/pages/tutor-list/tutor-list.component.ts:63-65 | A settled search makes the same request as searching and then paging to page 0. |
| `TutorList.PagingKeepsSearch` | src/app/modules/tutores/pages/tutor-list/tutor-list.component.ts:94-101 | `onPageChange` requests the page asked for, filtered by the term last searched. |
| `TutorList.OnDelete` | src/app/modules/tutores/pages/tutor-list/tutor-list.component.ts:111-117 | Marks the id as being deleted, requests its deletion, and starts one more clearing timer. |
| `TutorList.OnDeleteTimer` | src/app/modules/tutores/pages/tutor-list/tutor-list.component.ts:115-117 | A firing timer clears the mark whichever id it holds. |
| `TutorList.EarlyTimerClearsLaterMark` | src/app/modules/tutores/pages/tutor-list/tutor-list.component.ts:111-118 | After two quick deletes, the first timer clears the second mark while a timer is still pending. |

## Left out

- The HTTP services (`auth.service.ts`, `pet.service.ts`, `tutor.service.ts`, `HttpClient`) are thin wrappers. Each backend call is a returned request plus a `Result` argument. The health probe's success is a response the client delivered as successful.
- The test file of the interceptor expects a refresh-and-retry on 401 and a logout when that refresh fails. `auth.interceptor.ts` implements neither, so neither is modelled. Concurrent refreshes are out of scope too.
- Time: `setTimeout` delays are recorded, not elapsed, and firing is an explicit step (`AuthFacade.TimerFires`, `TutorList.OnDeleteTimer`). `new Date().toISOString()` is a string argument.
- RxJS plumbing: debounce, throttle and `distinctUntilChanged` are not modelled. A search reaches the model as an already settled term (`OnSearchSettled`). The modal's scroll-position test before `loadMore` is DOM geometry and is left out.
- Browser side effects: `console` logging, `URL.createObjectURL`/`revokeObjectURL` and `handleFileSelected` are left out. A selected file is its name. `alert` and navigation are returned effects.
- The third argument that the link modal passes to `PetFacade.loadPets` is ignored by that method. `LinkPetModal` records it in its request log only.
- `pet-form.component.ts` calls `clearSelectedPet`, `createPet`, `updatePet` and `uploadPhoto`, and `tutor-list.component.ts` calls `deleteTutor`. None of these is defined on the facades shown. The model records them only as calls the page makes.
- `Validators.email` is library code and is a parameter of `TutorForm.FormValid`.
- Non-string backend error messages are not modelled. `err.error.message` counts only when it is a string (`HttpError.apiMessage`), so a truthy non-string message that `||` would pass on is out of scope.
- Text length: Dafny strings count Unicode code points, while `Validators.minLength` counts UTF-16 code units. So `LoginPage.FormValid`, `TutorForm.FormValid` and `PetForm.FormValid` reject short texts made of characters outside the Basic Multilingual Plane (an emoji counts 1 here, 2 in the browser) that the source accepts. Ordinary text is unaffected.
- A logout during a login or refresh is represented only through `AuthFacade.LateAnswerUndoesLogout`. `AuthFacade.Login` and `AuthFacade.RefreshToken` themselves take the answer in the same step as the call, so no other event can fall in between in them.
- Request headers are a case-sensitive `map<string, string>`. Angular's `HttpHeaders` ignores case, so a request that already carries `authorization` in lower case gets two keys in `AuthInterceptor.Intercept` where the browser would have one.
- Numbers are integers or `NaN`/`Infinity`. A fractional `idade` or page number is not modelled, and `parseInt` stops at the first non-digit as for integers.
- `PetForm.FormValid`: `idade` is an optional integer. The `min`/`max` validators' parsing of non-numeric text is not modelled, because the field is a number input.
- The navigation handlers of the tutor list (`onViewDetails`, `onEdit`), `isPetSelected` and `isPetAlreadyLinked` are one-line lookups and are not modelled.
- Presentational components, route tables and `app.config.ts` carry no logic and are left out. The cpf mask directive is not part of this model.
