/** `TutorListComponent` (src/app/modules/tutores/pages/tutor-list/tutor-list.component.ts):
    the view settings kept in `localStorage`, the grid classes they select,
    searching, paging and the deletion flag. */
module TutorList {
  import opened Wrappers
  import opened Models
  import opened JsText

  const ViewModeKey: string := "tutorViewMode"
  const CardsPerRowKey: string := "tutorCardsPerRow"
  const DeleteFlagDelayMs: int := 2000

  const ListClasses: string := "grid grid-cols-1 gap-3"
  const CompactClasses: string := "grid grid-cols-1 sm:grid-cols-2 lg:grid-cols-3 xl:grid-cols-4 2xl:grid-cols-5 gap-3"
  const TwoPerRowClasses: string := "grid grid-cols-1 sm:grid-cols-2 gap-6"
  const ThreePerRowClasses: string := "grid grid-cols-1 sm:grid-cols-2 lg:grid-cols-3 gap-5"
  const FourPerRowClasses: string := "grid grid-cols-1 sm:grid-cols-2 lg:grid-cols-3 xl:grid-cols-4 gap-5"
  const FivePerRowClasses: string := "grid grid-cols-1 sm:grid-cols-2 lg:grid-cols-3 xl:grid-cols-4 2xl:grid-cols-5 gap-4"

  /** A call the page makes on the tutor facade. */
  datatype FacadeCall = LoadTutores(page: int, nome: string) | DeleteTutor(id: int)

  /** The view mode is whatever string was stored (the type cast checks
      nothing); `cardsPerRow` is what `parseInt` read, `NaN` included. */
  datatype Page = Page(
    viewMode: string,
    cardsPerRow: JsNumber,
    searchTerm: string,
    deletingTutorId: Option<int>,
    pendingDeleteTimers: nat,
    storage: map<string, string>)

  function StorageGet(storage: map<string, string>, key: string): Option<string> {
    if key in storage then Some(storage[key]) else None
  }

  /** `parseInt` as a JavaScript number. */
  function ParseIntNumber(s: string): (x: JsNumber)
    ensures ParseInt(s).Some? ==> x == Finite(ParseInt(s).value)
    ensures ParseInt(s).None? ==> x == NaN
  {
    match ParseInt(s)
    case Some(n) => Finite(n)
    case None => NaN
  }

  /** Construction followed by `ngOnInit`: a non-empty stored value replaces
      each default (`grid`, 3), and the first page is loaded. */
  function Open(storage: map<string, string>): (r: (Page, seq<FacadeCall>))
    ensures r.0.storage == storage && r.0.searchTerm == "" && r.0.deletingTutorId.None?
    ensures TruthyText(StorageGet(storage, ViewModeKey)) ==> r.0.viewMode == storage[ViewModeKey]
    ensures !TruthyText(StorageGet(storage, ViewModeKey)) ==> r.0.viewMode == "grid"
    ensures TruthyText(StorageGet(storage, CardsPerRowKey)) ==>
      r.0.cardsPerRow == ParseIntNumber(storage[CardsPerRowKey])
    ensures !TruthyText(StorageGet(storage, CardsPerRowKey)) ==> r.0.cardsPerRow == Finite(3)
    ensures r.1 == [LoadTutores(0, "")]
  {
    var savedViewMode := StorageGet(storage, ViewModeKey);
    var savedCardsPerRow := StorageGet(storage, CardsPerRowKey);
    var viewMode := if TruthyText(savedViewMode) then savedViewMode.value else "grid";
    var cardsPerRow := if TruthyText(savedCardsPerRow) then ParseIntNumber(savedCardsPerRow.value) else Finite(3);
    (Page(viewMode, cardsPerRow, "", None, 0, storage), [LoadTutores(0, "")])
  }

  /** `setViewMode`. */
  function SetViewMode(p: Page, mode: string): (q: Page)
    ensures q.viewMode == mode && StorageGet(q.storage, ViewModeKey) == Some(mode)
    ensures forall k :: k != ViewModeKey ==> StorageGet(q.storage, k) == StorageGet(p.storage, k)
    ensures q.(viewMode := p.viewMode, storage := p.storage) == p
  {
    p.(viewMode := mode, storage := p.storage[ViewModeKey := mode])
  }

  /** `setCardsPerRow`: the count is stored as its decimal text. */
  function SetCardsPerRow(p: Page, count: int): (q: Page)
    ensures q.cardsPerRow == Finite(count)
    ensures q.storage.Keys == p.storage.Keys + {CardsPerRowKey}
    ensures StorageGet(q.storage, CardsPerRowKey) == Some(IntToString(count))
    ensures forall k :: k != CardsPerRowKey ==> StorageGet(q.storage, k) == StorageGet(p.storage, k)
    ensures q.(cardsPerRow := p.cardsPerRow, storage := p.storage) == p
  {
    p.(cardsPerRow := Finite(count), storage := p.storage[CardsPerRowKey := IntToString(count)])
  }

  /** A reopened page shows the settings that were last set: what
      `setCardsPerRow` writes, `parseInt` reads back. */
  lemma SettingsSurviveReopen(p: Page, mode: string, count: int)
    requires |mode| > 0
    ensures
      var q := SetCardsPerRow(SetViewMode(p, mode), count);
      && Open(q.storage).0.viewMode == mode
      && Open(q.storage).0.cardsPerRow == Finite(count)
  {
    ParseIntOfIntToString(count);
    assert IntToString(count)[0] == '-' || IsDigit(IntToString(count)[0]);
  }

  /** `getGridClasses`: fixed classes for `list` and `compact`; any other
      mode looks `cardsPerRow` up in the table for 2 to 5 per row, which has
      no entry (`undefined`) for any other count. */
  function GridClasses(p: Page): (c: Option<string>)
    ensures p.viewMode == "list" ==> c == Some(ListClasses)
    ensures p.viewMode == "compact" ==> c == Some(CompactClasses)
    ensures p.viewMode != "list" && p.viewMode != "compact" ==>
      (c.Some? <==> p.cardsPerRow in {Finite(2), Finite(3), Finite(4), Finite(5)})
  {
    if p.viewMode == "list" then Some(ListClasses)
    else if p.viewMode == "compact" then Some(CompactClasses)
    else match p.cardsPerRow
      case Finite(2) => Some(TwoPerRowClasses)
      case Finite(3) => Some(ThreePerRowClasses)
      case Finite(4) => Some(FourPerRowClasses)
      case Finite(5) => Some(FivePerRowClasses)
      case _ => None
  }

  /** The grid shows as many columns at its widest as there are cards per
      row. */
  lemma WidestColumnsMatchCardsPerRow(p: Page, n: int)
    requires p.viewMode == "grid" && 2 <= n <= 5 && p.cardsPerRow == Finite(n)
    ensures GridClasses(p).Some?
    ensures n == 2 ==> GridClasses(p).value == TwoPerRowClasses
    ensures n == 3 ==> GridClasses(p).value == ThreePerRowClasses
    ensures n == 4 ==> GridClasses(p).value == FourPerRowClasses
    ensures n == 5 ==> GridClasses(p).value == FivePerRowClasses
  {
  }

  /** A page opened with nothing stored has a grid of three per row. */
  lemma DefaultGrid()
    ensures GridClasses(Open(map[]).0) == Some(ThreePerRowClasses)
  {
  }

  /** `onSearch`: the term is kept for paging. */
  function OnSearch(p: Page, term: string): (q: Page)
    ensures q.searchTerm == term && q.(searchTerm := p.searchTerm) == p
  {
    p.(searchTerm := term)
  }

  /** A term that survived the debounce reloads the first page with it. */
  function OnSearchSettled(term: string): (calls: seq<FacadeCall>)
    ensures forall p :: calls == OnPageChange(OnSearch(p, term), 0)
  {
    [LoadTutores(0, term)]
  }

  /** `onPageChange`: the requested page with the current search term. */
  function OnPageChange(p: Page, page: int): (calls: seq<FacadeCall>)
    ensures |calls| == 1 && calls[0].LoadTutores?
    ensures calls[0].page == page && calls[0].nome == p.searchTerm
  {
    [LoadTutores(page, p.searchTerm)]
  }

  /** Paging after a search keeps filtering by the searched term. */
  lemma PagingKeepsSearch(p: Page, term: string, page: int)
    ensures OnPageChange(OnSearch(p, term), page) == [LoadTutores(page, term)]
  {
  }

  /** `onDelete`: marks the tutor as being deleted, asks for the deletion
      and starts one more timer that clears the mark. Earlier timers are
      not cancelled. */
  function OnDelete(p: Page, id: int): (r: (Page, seq<FacadeCall>))
    ensures r.0.deletingTutorId == Some(id) && r.0.pendingDeleteTimers == p.pendingDeleteTimers + 1
    ensures r.0.(deletingTutorId := p.deletingTutorId, pendingDeleteTimers := p.pendingDeleteTimers) == p
    ensures r.1 == [DeleteTutor(id)]
  {
    (p.(deletingTutorId := Some(id), pendingDeleteTimers := p.pendingDeleteTimers + 1), [DeleteTutor(id)])
  }

  /** One of the timers of `onDelete` fires, `DeleteFlagDelayMs` after its
      delete, and clears the mark whichever tutor it names. */
  function OnDeleteTimer(p: Page): (q: Page)
    requires p.pendingDeleteTimers > 0
    ensures q.deletingTutorId.None? && q.pendingDeleteTimers == p.pendingDeleteTimers - 1
    ensures q.(deletingTutorId := p.deletingTutorId, pendingDeleteTimers := p.pendingDeleteTimers) == p
  {
    p.(deletingTutorId := None, pendingDeleteTimers := p.pendingDeleteTimers - 1)
  }

  /** Two deletes in quick succession: the first delete's timer clears the
      mark of the second tutor before its own two seconds are up. */
  lemma EarlyTimerClearsLaterMark(p: Page, first: int, second: int)
    ensures
      var q := OnDelete(OnDelete(p, first).0, second).0;
      && q.deletingTutorId == Some(second) && q.pendingDeleteTimers == p.pendingDeleteTimers + 2
      && OnDeleteTimer(q).deletingTutorId.None? && OnDeleteTimer(q).pendingDeleteTimers > 0
  {
  }
}
