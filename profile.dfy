/**
  The doctor profile page: how the `:id` route parameter resolves to a
  not-found view or to a profile, and what the profile derives from the
  doctor (review count, the name token in the "About Dr. ..." heading, the
  star rows of the reviews and the booking path).
*/
module Profile {
  import opened Seqs
  import opened Strings
  import opened Directory
  import Listing

  /** `Number(id)`; a missing parameter is `Number(undefined)`, which is `NaN` (absent). */
  function ParsedId(routeId: Option<string>): (r: Option<int>)
    ensures routeId.None? ==> r.None?
    ensures routeId.Some? ==> r == JsNumber(routeId.value)
  {
    match routeId
    case None => None
    case Some(s) => JsNumber(s)
  }

  /** `name.split(" ")[1]`: the second space-separated piece, `undefined` (absent) when the name has no space. */
  function AboutName(name: string): (t: Option<string>)
    ensures t.Some? <==> ' ' in name
    ensures t.Some? ==> ' ' !in t.value
    ensures t.Some? ==> exists w :: ' ' !in w && (name == w + " " + t.value || w + " " + t.value + " " <= name)
  {
    var parts := Split(name, ' ');
    SplitCount(name, ' ');
    if |parts| > 1 then
      SecondPieceShape(name);
      Some(parts[1])
    else
      None
  }

  /** The first piece is a space-free word, and the second follows it after one space, up to the next space or the end. */
  lemma SecondPieceShape(name: string)
    requires |Split(name, ' ')| > 1
    ensures var parts := Split(name, ' ');
            && ' ' !in parts[0] && ' ' !in parts[1]
            && (name == parts[0] + " " + parts[1] || parts[0] + " " + parts[1] + " " <= name)
  {
    var parts := Split(name, ' ');
    JoinSplit(name, ' ');
    var rest := parts[1..];
    assert name == parts[0] + [' '] + Join(rest, ' ');
    if |rest| > 1 {
      assert Join(rest, ' ') == rest[0] + [' '] + Join(rest[1..], ' ');
      assert name == (parts[0] + " " + parts[1] + " ") + Join(rest[1..], ' ');
    } else {
      assert Join(rest, ' ') == parts[1];
    }
  }

  datatype Star = Star

  /** `[...Array(rating)]`: one star per rating point; `Array` throws a RangeError (absent) for a negative or too large length. */
  function StarRow(rating: int): (r: Option<seq<Star>>)
    ensures r.Some? <==> 0 <= rating < 0x1_0000_0000
    ensures r.Some? ==> |r.value| == rating
  {
    if 0 <= rating < 0x1_0000_0000 then Some(seq(rating, _ => Star)) else None
  }

  datatype ProfileView =
    | InvalidId
    | DoctorNotFound
    | Shown(doctor: Doctor, reviewCount: nat, aboutName: Option<string>,
            slots: seq<AvailableSlot>, reviews: seq<Review>, bookPath: string)

  /** The page for route parameter `routeId`: the `isNaN` check first, then the missing-doctor check, then the profile. */
  function Resolve(st: DoctorsState, routeId: Option<string>): (v: ProfileView)
    ensures ParsedId(routeId).None? ==> v == InvalidId
    ensures ParsedId(routeId).Some? && UseDoctor(st, ParsedId(routeId).value).None? ==> v == DoctorNotFound
    ensures v.Shown? <==> ParsedId(routeId).Some? && UseDoctor(st, ParsedId(routeId).value).Some?
    ensures v.Shown? ==>
              var n := ParsedId(routeId).value;
              && v.doctor == UseDoctor(st, n).value
              && v.doctor.id == n
              && v.reviews == UseReviews(st, n)
              && v.reviewCount == |UseReviews(st, n)| == CountWhere(st.reviews, ReviewOf(n))
              && v.slots == UseSlots(st, n)
              && v.aboutName == AboutName(v.doctor.name)
              && v.bookPath == Listing.BookPath(n)
  {
    match ParsedId(routeId)
    case None => InvalidId
    case Some(n) =>
      match UseDoctor(st, n)
      case None => DoctorNotFound
      case Some(d) =>
        var reviews := UseReviews(st, n);
        Shown(d, |reviews|, AboutName(d.name), UseSlots(st, n), reviews, Listing.BookPath(d.id))
  }

  /** A parameter that is not a number gives the not-found view, whatever the store holds. */
  lemma NonNumericIdNotFound(st: DoctorsState, s: string)
    requires s != [] && (SignLength(s) == |s| || !AllDigits(s[SignLength(s)..]))
    ensures Resolve(st, Some(s)) == InvalidId
  {
  }

  /** Following a listing card's "View Profile" link shows that very doctor, when ids are unique. */
  lemma ProfileLinkShowsDoctor(st: DoctorsState, k: nat)
    requires UniqueIds(st.doctors) && k < |st.doctors|
    ensures var path := Listing.ProfilePath(st.doctors[k].id);
            Resolve(st, Some(path[8..])).Shown? && Resolve(st, Some(path[8..])).doctor == st.doctors[k]
  {
    UseDoctorOfListed(st, k);
  }

  /** Every review of a shown profile gets exactly `rating` stars when its rating is a valid length. */
  lemma ShownReviewStars(st: DoctorsState, routeId: Option<string>, i: nat)
    requires Resolve(st, routeId).Shown? && i < |Resolve(st, routeId).reviews|
    requires 0 <= Resolve(st, routeId).reviews[i].rating < 0x1_0000_0000
    ensures Resolve(st, routeId).reviews[i] in st.reviews
    ensures Resolve(st, routeId).reviews[i].doctorId == Resolve(st, routeId).doctor.id
    ensures |StarRow(Resolve(st, routeId).reviews[i].rating).value| == Resolve(st, routeId).reviews[i].rating
  {
    var v := Resolve(st, routeId);
    assert v.reviews[i] in v.reviews;
  }
}
