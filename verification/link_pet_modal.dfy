/** `LinkPetModalComponent` (src/app/shared/components/link-pet-modal/link-pet-modal.component.ts):
    the selection of pets to link to a tutor. The component's `Set<number>`
    fields iterate in insertion order, so they are modelled as sequences
    without duplicates; `Elements` forgets the order. */
module LinkPetModal {
  import opened Wrappers

  predicate NoDuplicates(s: seq<int>) {
    forall i, j :: 0 <= i < j < |s| ==> s[i] != s[j]
  }

  function Elements(s: seq<int>): set<int> {
    set x | x in s
  }

  /** A duplicate-free sequence has as many elements as its set. */
  lemma {:induction false} CardinalityOfDistinct(s: seq<int>)
    requires NoDuplicates(s)
    ensures |Elements(s)| == |s|
  {
    if s != [] {
      var t := s[..|s| - 1];
      assert NoDuplicates(t);
      CardinalityOfDistinct(t);
      assert s[|s| - 1] !in Elements(t);
      assert Elements(s) == Elements(t) + {s[|s| - 1]};
    }
  }

  /** The elements of `s` that are not in `t`, in the order of `s`
      (`Array.from(s).filter(id => !t.has(id))`). */
  function Minus(s: seq<int>, t: set<int>): (r: seq<int>)
    ensures Elements(r) == Elements(s) - t
    ensures NoDuplicates(s) ==> NoDuplicates(r)
    ensures |r| <= |s|
    ensures Elements(s) !! t ==> r == s
  {
    if s == [] then []
    else
      var rest := Minus(s[..|s| - 1], t);
      var last := s[|s| - 1];
      assert s == s[..|s| - 1] + [last];
      assert Elements(s) == Elements(s[..|s| - 1]) + {last};
      assert NoDuplicates(s) ==> last !in s[..|s| - 1];
      assert Elements(rest + [last]) == Elements(rest) + {last};
      if last in t then rest else rest + [last]
  }

  /** `new Set(xs)`: the first occurrence of each value, in order. */
  function Dedup(xs: seq<int>): (r: seq<int>)
    ensures NoDuplicates(r) && Elements(r) == Elements(xs)
  {
    if xs == [] then []
    else
      var init := Dedup(xs[..|xs| - 1]);
      var last := xs[|xs| - 1];
      assert Elements(xs) == Elements(xs[..|xs| - 1]) + {last};
      if last in init then init else init + [last]
  }

  /** Insertion order: the set built from a prefix of `xs` is a prefix of the
      set built from `xs`, so a value first seen earlier comes earlier. */
  lemma {:induction false} DedupKeepsFirstSeenOrder(xs: seq<int>, k: nat)
    requires k <= |xs|
    ensures Dedup(xs[..k]) <= Dedup(xs)
  {
    if k < |xs| {
      var front := xs[..|xs| - 1];
      assert front[..k] == xs[..k];
      DedupKeepsFirstSeenOrder(front, k);
      assert Dedup(front) <= Dedup(xs);
    } else {
      assert xs[..k] == xs;
    }
  }

  /** A `loadPets(page, term, append)` call made on the pet facade. */
  datatype PetRequest = PetRequest(page: int, term: string, append: bool)

  /** What the component emits on its `linkPets` and `close` outputs. */
  datatype Event = LinkPets(ids: seq<int>) | Close

  datatype Modal = Modal(
    linkedPetIds: seq<int>,
    initial: seq<int>,
    selected: seq<int>,
    searchTerm: string,
    currentPage: int,
    totalPages: int,
    isLoadingMore: bool)

  /** The two selections behave as sets. */
  ghost predicate Valid(m: Modal) {
    NoDuplicates(m.initial) && NoDuplicates(m.selected)
  }

  /** Construction followed by `ngOnInit`: both selections start as the
      linked pets and the first page is requested with an empty term. The
      pet facade's subjects then replay at once: its current page, which
      that request has just set to 0, its page count `facadeTotalPages`,
      which is still the count of whatever was listed before (0 on a fresh
      facade), and its pets. */
  function Open(linkedPetIds: seq<int>, facadeTotalPages: int): (r: (Modal, seq<PetRequest>))
    ensures Valid(r.0)
    ensures Elements(r.0.initial) == Elements(r.0.selected) == Elements(linkedPetIds)
    ensures r.1 == [PetRequest(0, "", false)]
    ensures r.0.currentPage == 0 && r.0.totalPages == facadeTotalPages
    ensures !r.0.isLoadingMore && r.0.searchTerm == ""
  {
    var ids := Dedup(linkedPetIds);
    var constructed := Modal(linkedPetIds, ids, ids, "", 0, 1, false);
    (OnPets(OnTotalPages(OnCurrentPage(constructed, Some(0)), Some(facadeTotalPages))), [PetRequest(0, "", false)])
  }

  /** Before the first answer arrives, `loadMore` trusts the replayed page
      count: with the count of an earlier listing it already asks for page
      1, while a fresh facade's count of 0 lets it ask for nothing. */
  lemma LoadMoreBeforeFirstAnswer(linkedPetIds: seq<int>, facadeTotalPages: int)
    ensures
      var m := Open(linkedPetIds, facadeTotalPages).0;
      && (facadeTotalPages > 1 ==> LoadMore(m).1 == [PetRequest(1, "", true)])
      && (facadeTotalPages <= 1 ==> LoadMore(m).1 == [])
  {
  }

  /** `currentPage$` emitted `page` (`null` as `None`). */
  function OnCurrentPage(m: Modal, page: Option<int>): (r: Modal)
    ensures r.currentPage == (if page.Some? then page.value else 0)
    ensures r.(currentPage := m.currentPage) == m
  {
    m.(currentPage := page.GetOr(0))
  }

  /** `totalPages$` emitted `tp`. */
  function OnTotalPages(m: Modal, tp: Option<int>): (r: Modal)
    ensures r.totalPages == (if tp.Some? then tp.value else 1)
    ensures r.(totalPages := m.totalPages) == m
  {
    m.(totalPages := tp.GetOr(1))
  }

  /** `pets$` emitted, whatever the list. */
  function OnPets(m: Modal): (r: Modal)
    ensures !r.isLoadingMore && r.(isLoadingMore := m.isLoadingMore) == m
  {
    m.(isLoadingMore := false)
  }

  /** `onSearch`: the typed term is kept. */
  function OnSearch(m: Modal, value: string): (r: Modal)
    ensures r.searchTerm == value && r.(searchTerm := m.searchTerm) == m
  {
    m.(searchTerm := value)
  }

  /** A term that survived the debounce: back to page 0 with that term. */
  function OnSearchSettled(m: Modal, term: string): (r: (Modal, seq<PetRequest>))
    ensures r.0.currentPage == 0 && r.0.(currentPage := m.currentPage) == m
    ensures r.1 == [PetRequest(0, term, false)]
  {
    (m.(currentPage := 0), [PetRequest(0, term, false)])
  }

  predicate HasMorePages(m: Modal) {
    m.currentPage + 1 < m.totalPages
  }

  /** `loadMore`: requests the next page in append mode unless a page is
      already loading or there is none left. */
  function LoadMore(m: Modal): (r: (Modal, seq<PetRequest>))
    ensures m.isLoadingMore || !HasMorePages(m) ==> r == (m, [])
    ensures !m.isLoadingMore && HasMorePages(m) ==>
      && r.0 == m.(isLoadingMore := true)
      && r.1 == [PetRequest(m.currentPage + 1, m.searchTerm, true)]
  {
    if m.isLoadingMore || m.currentPage + 1 >= m.totalPages then (m, [])
    else (m.(isLoadingMore := true), [PetRequest(m.currentPage + 1, m.searchTerm, true)])
  }

  /** `onTogglePet`: removes `id` from the selection if present, else adds
      it at the end. */
  function OnTogglePet(m: Modal, id: int): (r: Modal)
    ensures Valid(m) ==> Valid(r)
    ensures id in Elements(r.selected) <==> id !in Elements(m.selected)
    ensures forall x :: x != id ==> (x in Elements(r.selected) <==> x in Elements(m.selected))
    ensures r.(selected := m.selected) == m
  {
    if id in m.selected then m.(selected := Minus(m.selected, {id}))
    else m.(selected := m.selected + [id])
  }

  /** Toggling the same pet twice gives back the same selection, as a set. */
  lemma ToggleTwice(m: Modal, id: int)
    ensures Elements(OnTogglePet(OnTogglePet(m, id), id).selected) == Elements(m.selected)
  {
  }

  /** The pets selected now that were not linked when the modal opened. */
  function Added(m: Modal): seq<int> {
    Minus(m.selected, Elements(m.initial))
  }

  /** The pets linked when the modal opened that are no longer selected. */
  function Removed(m: Modal): seq<int> {
    Minus(m.initial, Elements(m.selected))
  }

  function Negate(s: seq<int>): (r: seq<int>)
    ensures |r| == |s| && forall i :: 0 <= i < |s| ==> r[i] == -s[i]
  {
    seq(|s|, i requires 0 <= i < |s| => -s[i])
  }

  /** The list emitted on confirm: added ids, then negated removed ids. */
  function Payload(m: Modal): (p: seq<int>)
    ensures |p| == |Added(m)| + |Removed(m)|
    ensures Elements(p[..|Added(m)|]) == Elements(m.selected) - Elements(m.initial)
    ensures Negate(p[|Added(m)|..]) == Removed(m)
    ensures Elements(Negate(p[|Added(m)|..])) == Elements(m.initial) - Elements(m.selected)
  {
    var p := Added(m) + Negate(Removed(m));
    assert p[..|Added(m)|] == Added(m);
    assert p[|Added(m)|..] == Negate(Removed(m));
    NegateTwice(Removed(m));
    p
  }

  lemma NegateTwice(s: seq<int>)
    ensures Negate(Negate(s)) == s
  {
  }

  /** The payload is empty exactly when the selection has not changed. */
  lemma PayloadEmptyIffUnchanged(m: Modal)
    ensures Payload(m) == [] <==> Elements(m.selected) == Elements(m.initial)
  {
    if Payload(m) == [] {
      assert Elements(Added(m)) == {} && Elements(Removed(m)) == {};
    } else if |Added(m)| > 0 {
      assert Added(m)[0] in Elements(Added(m));
    } else {
      assert Removed(m)[0] in Elements(Removed(m));
    }
  }

  /** `onConfirm`: the payload when it is not empty, then `close`. */
  function OnConfirm(m: Modal): (events: seq<Event>)
    ensures |events| > 0 && events[|events| - 1] == Close
    ensures Elements(m.selected) == Elements(m.initial) ==> events == [Close]
    ensures Elements(m.selected) != Elements(m.initial) ==> events == [LinkPets(Payload(m)), Close]
  {
    PayloadEmptyIffUnchanged(m);
    var payload := Payload(m);
    if |payload| > 0 then [LinkPets(payload), Close] else [Close]
  }

  /** `onBackdropClick`: closes only when the click hit the backdrop itself. */
  function OnBackdropClick(targetIsBackdrop: bool): (events: seq<Event>)
    ensures forall e :: e in events ==> e == Close
    ensures Close in events <==> targetIsBackdrop
    ensures |events| <= 1
  {
    if targetIsBackdrop then [Close] else []
  }

  /** `selectedCount`. */
  function SelectedCount(m: Modal): (n: nat)
    requires Valid(m)
    ensures n == |Elements(m.selected)|
  {
    CardinalityOfDistinct(m.selected);
    |m.selected|
  }

  /** `addedCount`. */
  function AddedCount(m: Modal): (n: nat)
    requires Valid(m)
    ensures n == |Elements(m.selected) - Elements(m.initial)|
  {
    CardinalityOfDistinct(Added(m));
    |Added(m)|
  }

  /** `removedCount`. */
  function RemovedCount(m: Modal): (n: nat)
    requires Valid(m)
    ensures n == |Elements(m.initial) - Elements(m.selected)|
  {
    CardinalityOfDistinct(Removed(m));
    |Removed(m)|
  }

  /** `newSelectionCount`: selected pets that are not among the linked ones. */
  function NewSelectionCount(m: Modal): (n: nat)
    requires Valid(m)
    ensures n == |Elements(m.selected) - Elements(m.linkedPetIds)|
  {
    var newOnes := Minus(m.selected, Elements(m.linkedPetIds));
    CardinalityOfDistinct(newOnes);
    |newOnes|
  }

  /** The payload has one entry per added and per removed pet. */
  lemma PayloadLength(m: Modal)
    requires Valid(m)
    ensures |Payload(m)| == AddedCount(m) + RemovedCount(m)
  {
  }

  /** `hasChanges`, as the component computes it: different sizes, or a
      selected pet that was not linked. */
  method HasChanges(m: Modal) returns (changed: bool)
    requires Valid(m)
    ensures changed <==> Elements(m.selected) != Elements(m.initial)
  {
    CardinalityOfDistinct(m.initial);
    CardinalityOfDistinct(m.selected);
    if |m.initial| != |m.selected| {
      return true;
    }
    var k := 0;
    while k < |m.selected|
      invariant 0 <= k <= |m.selected|
      invariant Elements(m.selected[..k]) <= Elements(m.initial)
    {
      if m.selected[k] !in m.initial {
        assert m.selected[k] in Elements(m.selected) - Elements(m.initial);
        return true;
      }
      assert m.selected[..k + 1] == m.selected[..k] + [m.selected[k]];
      k := k + 1;
    }
    assert m.selected[..k] == m.selected;
    SubsetOfEqualSize(Elements(m.selected), Elements(m.initial));
    return false;
  }

  /** A subset as large as its superset is the whole superset. */
  lemma SubsetOfEqualSize(a: set<int>, b: set<int>)
    requires a <= b && |a| == |b|
    ensures a == b
  {
    assert b * a == a;
    assert |b - a| == 0;
  }
}
