/**
  The doctor directory store: three seed collections held in one immutable
  state value, and the four selectors the pages read it through.  The seed
  arrays are arbitrary sequences here; the selectors are pure functions of
  the state, so no selector can change it.
*/
module Directory {
  import opened Seqs

  datatype Doctor = Doctor(
    id: int,
    name: string,
    specialty: string,
    hospital: string,
    experience: string,
    rating: real,
    reviewCount: int,
    location: string,
    image: string,
    fees: string,
    about: string,
    education: seq<string>,
    certifications: seq<string>,
    languages: seq<string>,
    availability: string)

  datatype AvailableSlot = AvailableSlot(doctorId: int, date: string, times: seq<string>)

  datatype Review = Review(doctorId: int, patient: string, rating: int, comment: string, date: string)

  /** The store's state: the seed doctors, slots and reviews, in seed order. */
  datatype DoctorsState = DoctorsState(doctors: seq<Doctor>, slots: seq<AvailableSlot>, reviews: seq<Review>)

  /** The store as created: it holds exactly the seed arrays it was given. */
  function InitialState(doctors: seq<Doctor>, slots: seq<AvailableSlot>, reviews: seq<Review>): (st: DoctorsState)
    ensures st.doctors == doctors && st.slots == slots && st.reviews == reviews
  {
    DoctorsState(doctors, slots, reviews)
  }

  function HasId(id: int): Doctor -> bool { (d: Doctor) => d.id == id }

  function SlotOf(id: int): AvailableSlot -> bool { (s: AvailableSlot) => s.doctorId == id }

  function ReviewOf(id: int): Review -> bool { (r: Review) => r.doctorId == id }

  /** `useDoctors()`: the whole doctor list, unchanged and in seed order. */
  function UseDoctors(st: DoctorsState): (r: seq<Doctor>)
    ensures r == st.doctors
  {
    st.doctors
  }

  /** `useDoctor(id)`: the first doctor whose id is `id`, or absent. */
  function UseDoctor(st: DoctorsState, id: int): (r: Option<Doctor>)
    ensures r.Some? ==> r.value.id == id && r.value in st.doctors
    ensures r.None? <==> forall i :: 0 <= i < |st.doctors| ==> st.doctors[i].id != id
    ensures r.Some? ==> exists k :: 0 <= k < |st.doctors| && st.doctors[k] == r.value
                                    && forall j :: 0 <= j < k ==> st.doctors[j].id != id
  {
    var r := Find(st.doctors, HasId(id));
    assert r.Some? ==> var k := FindIndex(st.doctors, HasId(id)).value; st.doctors[k] == r.value;
    r
  }

  /** `useSlots(id)`: the slots of doctor `id`, in seed order; empty when there are none. */
  function UseSlots(st: DoctorsState, id: int): (r: seq<AvailableSlot>)
    ensures forall s :: s in r <==> s in st.slots && s.doctorId == id
    ensures IsSubsequence(r, st.slots)
    ensures |r| == CountWhere(st.slots, SlotOf(id))
    ensures forall s :: multiset(r)[s] == if s.doctorId == id then multiset(st.slots)[s] else 0
  {
    var r := Filter(st.slots, SlotOf(id));
    FilterIsSubsequence(st.slots, SlotOf(id));
    FilterLength(st.slots, SlotOf(id));
    assert forall s :: s in r <==> s in st.slots && s.doctorId == id by {
      forall s ensures s in r <==> s in st.slots && s.doctorId == id {
        FilterMembership(st.slots, SlotOf(id), s);
      }
    }
    assert forall s :: multiset(r)[s] == if s.doctorId == id then multiset(st.slots)[s] else 0 by {
      forall s ensures multiset(r)[s] == if s.doctorId == id then multiset(st.slots)[s] else 0 {
        FilterMultiplicity(st.slots, SlotOf(id), s);
      }
    }
    r
  }

  /** `useReviews(id)`: the reviews of doctor `id`, in seed order; empty when there are none. */
  function UseReviews(st: DoctorsState, id: int): (r: seq<Review>)
    ensures forall v :: v in r <==> v in st.reviews && v.doctorId == id
    ensures IsSubsequence(r, st.reviews)
    ensures |r| == CountWhere(st.reviews, ReviewOf(id))
    ensures forall v :: multiset(r)[v] == if v.doctorId == id then multiset(st.reviews)[v] else 0
  {
    var r := Filter(st.reviews, ReviewOf(id));
    FilterIsSubsequence(st.reviews, ReviewOf(id));
    FilterLength(st.reviews, ReviewOf(id));
    assert forall v :: v in r <==> v in st.reviews && v.doctorId == id by {
      forall v ensures v in r <==> v in st.reviews && v.doctorId == id {
        FilterMembership(st.reviews, ReviewOf(id), v);
      }
    }
    assert forall v :: multiset(r)[v] == if v.doctorId == id then multiset(st.reviews)[v] else 0 by {
      forall v ensures multiset(r)[v] == if v.doctorId == id then multiset(st.reviews)[v] else 0 {
        FilterMultiplicity(st.reviews, ReviewOf(id), v);
      }
    }
    r
  }

  /** Doctor ids are meant to be unique in the seed data; the store does not check it. */
  predicate UniqueIds(doctors: seq<Doctor>)
  {
    forall i, j :: 0 <= i < j < |doctors| ==> doctors[i].id != doctors[j].id
  }

  /** With unique ids, looking up a listed doctor's id gives back exactly that doctor. */
  lemma UseDoctorOfListed(st: DoctorsState, k: nat)
    requires UniqueIds(st.doctors) && k < |st.doctors|
    ensures UseDoctor(st, st.doctors[k].id) == Some(st.doctors[k])
  {
    var r := UseDoctor(st, st.doctors[k].id);
    assert r.Some?;
    var k' :| 0 <= k' < |st.doctors| && st.doctors[k'] == r.value
              && forall j :: 0 <= j < k' ==> st.doctors[j].id != st.doctors[k].id;
    assert k' == k;
  }

  /** An id that no slot names gets the empty list, not an error. */
  lemma NoSlotsForUnknownDoctor(st: DoctorsState, id: int)
    requires forall i :: 0 <= i < |st.slots| ==> st.slots[i].doctorId != id
    ensures UseSlots(st, id) == []
  {
    FilterEmpty(st.slots, SlotOf(id));
  }
}
