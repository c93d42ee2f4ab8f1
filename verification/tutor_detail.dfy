/** `TutorDetailComponent` (src/app/modules/tutores/pages/tutor-detail/tutor-detail.component.ts):
    shows one tutor and turns the link modal's confirm list back into
    `linkPet` and `unlinkPet` calls on the tutor facade. */
module TutorDetail {
  import opened Wrappers
  import opened Models
  import opened LinkPetModal
  import TutorFacade

  /** A call the page makes on the tutor facade. */
  datatype FacadeCall =
    | LoadTutorById(id: JsNumber)
    | LinkPet(tutorId: JsNumber, petId: int)
    | UnlinkPet(tutorId: JsNumber, petId: int)
    | ClearSelectedTutor

  datatype Page = Page(id: JsNumber, showLinkPetModal: bool)

  /** `pets$`. */
  function Pets(tutor: Option<Tutor>): (pets: seq<Pet>)
    ensures pets == TutorFacade.PetsOf(tutor)
  {
    if tutor.Some? && tutor.value.pets.Some? then tutor.value.pets.value else []
  }

  /** `linkedPetIds$`: the ids of the tutor's pets, in list order. */
  function LinkedPetIds(tutor: Option<Tutor>): (ids: seq<int>)
    ensures |ids| == |Pets(tutor)|
    ensures forall i :: 0 <= i < |ids| ==> ids[i] == Pets(tutor)[i].id
  {
    var pets := Pets(tutor);
    seq(|pets|, i requires 0 <= i < |pets| => pets[i].id)
  }

  /** `ngOnInit`: the tutor is loaded only for a truthy id. */
  function NgOnInit(p: Page): (calls: seq<FacadeCall>)
    ensures Truthy(p.id) ==> calls == [LoadTutorById(p.id)]
    ensures !Truthy(p.id) ==> calls == []
  {
    if Truthy(p.id) then [LoadTutorById(p.id)] else []
  }

  /** The synchronous effect of one page call on the tutor facade's state. */
  function Step(f: TutorFacade.Facade, c: FacadeCall): TutorFacade.Facade {
    match c
    case LoadTutorById(id) => TutorFacade.LoadTutorById(f, id).0
    case LinkPet(tutorId, petId) => TutorFacade.LinkPetStart(f, tutorId, petId).0
    case UnlinkPet(tutorId, petId) => TutorFacade.UnlinkPetStart(f, tutorId, petId).0
    case ClearSelectedTutor => TutorFacade.ClearSelectedTutor(f)
  }

  /** The facade's state after the page's calls, in order. */
  function Dispatch(f: TutorFacade.Facade, calls: seq<FacadeCall>): TutorFacade.Facade
    decreases |calls|
  {
    if calls == [] then f else Dispatch(Step(f, calls[0]), calls[1..])
  }

  /** `ngOnDestroy`: leaving the page leaves the facade with no tutor and no
      pets shown, while the tutor list and its paging are kept. */
  function NgOnDestroy(p: Page): (calls: seq<FacadeCall>)
    ensures forall f :: Dispatch(f, calls).selectedTutor.None? && Dispatch(f, calls).tutorPets == []
    ensures forall f :: Dispatch(f, calls).tutores == f.tutores && Dispatch(f, calls).currentPage == f.currentPage
    ensures forall f :: TutorFacade.Consistent(Dispatch(f, calls))
  {
    [ClearSelectedTutor]
  }

  function OpenLinkPetModal(p: Page): (q: Page)
    ensures q.showLinkPetModal && q.id == p.id
  {
    p.(showLinkPetModal := true)
  }

  function CloseLinkPetModal(p: Page): (q: Page)
    ensures !q.showLinkPetModal && q.id == p.id
  {
    p.(showLinkPetModal := false)
  }

  /** `events.filter(x => x > 0)`. */
  function Positives(events: seq<int>): (r: seq<int>)
    ensures forall x :: x in r <==> x in events && x > 0
    ensures |r| <= |events|
  {
    if events == [] then []
    else if events[0] > 0 then [events[0]] + Positives(events[1..])
    else Positives(events[1..])
  }

  /** `events.filter(x => x < 0).map(x => Math.abs(x))`. */
  function AbsOfNegatives(events: seq<int>): (r: seq<int>)
    ensures forall x :: x in r <==> -x in events && x > 0
    ensures |r| <= |events|
  {
    if events == [] then []
    else if events[0] < 0 then [-events[0]] + AbsOfNegatives(events[1..])
    else AbsOfNegatives(events[1..])
  }

  /** `onLinkPets(events)`: a `linkPet` per positive entry, then an
      `unlinkPet` per negative entry with its sign dropped; zeros are
      skipped. */
  function OnLinkPets(p: Page, events: seq<int>): (calls: seq<FacadeCall>)
    ensures |calls| == |Positives(events)| + |AbsOfNegatives(events)|
    ensures forall i :: 0 <= i < |Positives(events)| ==> calls[i] == LinkPet(p.id, Positives(events)[i])
    ensures forall i :: 0 <= i < |AbsOfNegatives(events)| ==>
      calls[|Positives(events)| + i] == UnlinkPet(p.id, AbsOfNegatives(events)[i])
  {
    LinkEach(p.id, Positives(events)) + UnlinkEach(p.id, AbsOfNegatives(events))
  }

  function LinkEach(tutorId: JsNumber, petIds: seq<int>): seq<FacadeCall> {
    seq(|petIds|, i requires 0 <= i < |petIds| => LinkPet(tutorId, petIds[i]))
  }

  function UnlinkEach(tutorId: JsNumber, petIds: seq<int>): seq<FacadeCall> {
    seq(|petIds|, i requires 0 <= i < |petIds| => UnlinkPet(tutorId, petIds[i]))
  }

  /** The subscription callback of each `linkPet`/`unlinkPet` made by
      `onLinkPets`: a success reloads the tutor, an error is not handled. */
  function OnLinkChangeAnswered(p: Page, outcome: Result<(), HttpError>): (calls: seq<FacadeCall>)
    ensures outcome.Success? ==> calls == [LoadTutorById(p.id)]
    ensures outcome.Failure? ==> calls == []
  {
    if outcome.Success? then [LoadTutorById(p.id)] else []
  }

  /** `onUnlinkPet(petId)` with the user's answer to the confirmation. */
  function OnUnlinkPet(p: Page, petId: int, confirmed: bool): (calls: seq<FacadeCall>)
    ensures confirmed ==> calls == [UnlinkPet(p.id, petId)]
    ensures !confirmed ==> calls == []
  {
    if confirmed then [UnlinkPet(p.id, petId)] else []
  }

  /** The answer to the `unlinkPet` of `onUnlinkPet`: a success reloads the
      tutor, an error is only logged. */
  function OnUnlinkAnswered(p: Page, outcome: Result<(), HttpError>): (calls: seq<FacadeCall>)
    ensures outcome.Success? <==> calls == [LoadTutorById(p.id)]
    ensures outcome.Failure? <==> calls == []
  {
    if outcome.Success? then [LoadTutorById(p.id)] else []
  }

  /** Lists with no non-zero entry cause no call at all. */
  lemma {:induction false} ZerosAreIgnored(p: Page, events: seq<int>)
    requires forall i :: 0 <= i < |events| ==> events[i] == 0
    ensures Positives(events) == [] && AbsOfNegatives(events) == []
    ensures OnLinkPets(p, events) == []
  {
    if events != [] {
      ZerosAreIgnored(p, events[1..]);
    }
  }

  lemma {:induction false} PositivesAppend(a: seq<int>, b: seq<int>)
    ensures Positives(a + b) == Positives(a) + Positives(b)
  {
    if a == [] {
      assert a + b == b;
    } else {
      assert (a + b)[0] == a[0];
      assert (a + b)[1..] == a[1..] + b;
      PositivesAppend(a[1..], b);
    }
  }

  lemma {:induction false} AbsOfNegativesAppend(a: seq<int>, b: seq<int>)
    ensures AbsOfNegatives(a + b) == AbsOfNegatives(a) + AbsOfNegatives(b)
  {
    if a == [] {
      assert a + b == b;
    } else {
      assert (a + b)[0] == a[0];
      assert (a + b)[1..] == a[1..] + b;
      AbsOfNegativesAppend(a[1..], b);
    }
  }

  lemma {:induction false} PositivesOfPositives(s: seq<int>)
    requires forall i :: 0 <= i < |s| ==> s[i] > 0
    ensures Positives(s) == s && AbsOfNegatives(s) == []
  {
    if s != [] {
      PositivesOfPositives(s[1..]);
    }
  }

  lemma {:induction false} DecodeNegated(s: seq<int>)
    requires forall i :: 0 <= i < |s| ==> s[i] > 0
    ensures Positives(Negate(s)) == [] && AbsOfNegatives(Negate(s)) == s
  {
    if s != [] {
      assert Negate(s)[1..] == Negate(s[1..]);
      DecodeNegated(s[1..]);
    }
  }

  /** For strictly positive pet ids, the page decodes the modal's confirm
      list into exactly the pets selected but not linked before (to link)
      and the pets linked before but no longer selected (to unlink). */
  lemma DecodeOfPayload(m: Modal)
    requires forall x :: x in m.initial ==> x > 0
    requires forall x :: x in m.selected ==> x > 0
    ensures Positives(Payload(m)) == Added(m)
    ensures AbsOfNegatives(Payload(m)) == Removed(m)
    ensures Elements(Positives(Payload(m))) == Elements(m.selected) - Elements(m.initial)
    ensures Elements(AbsOfNegatives(Payload(m))) == Elements(m.initial) - Elements(m.selected)
  {
    var added, removed := Added(m), Removed(m);
    assert forall i :: 0 <= i < |added| ==> added[i] in Elements(added);
    assert forall i :: 0 <= i < |removed| ==> removed[i] in Elements(removed);
    PositivesAppend(added, Negate(removed));
    AbsOfNegativesAppend(added, Negate(removed));
    PositivesOfPositives(added);
    DecodeNegated(removed);
  }

  /** So the calls made for a confirmed modal link exactly the added pets
      and then unlink exactly the removed ones, in the modal's order. */
  lemma ConfirmedModalCalls(p: Page, m: Modal)
    requires forall x :: x in m.initial ==> x > 0
    requires forall x :: x in m.selected ==> x > 0
    ensures OnLinkPets(p, Payload(m)) == LinkEach(p.id, Added(m)) + UnlinkEach(p.id, Removed(m))
  {
    DecodeOfPayload(m);
  }
}
