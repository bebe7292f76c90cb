/**
  The doctor listing page: the specialty and location option lists, the
  three-way filter (search term, specialty, location), the result count and
  the availability badge of each card.
*/
module Listing {
  import opened Seqs
  import opened Strings
  import opened Directory

  /** The option value that switches a select filter off. */
  const All: string := "all"

  /** `["all", ...Array.from(new Set(values))]`. */
  function OptionsOf(values: seq<string>): (r: seq<string>)
    ensures |r| >= 1 && r[0] == All
    ensures forall i :: 0 <= i < |values| ==> values[i] in r[1..]
    ensures forall k :: 1 <= k < |r| ==> r[k] in values
    ensures NoDuplicates(r[1..])
  {
    var r := [All] + Distinct(values);
    assert r[1..] == Distinct(values);
    r
  }

  /** After `"all"`, the options come in the order in which the values first occur. */
  lemma OptionsFirstSeenOrder(values: seq<string>)
    ensures forall a, b :: 1 <= a < b < |OptionsOf(values)| ==>
              OptionsOf(values)[a] in values && OptionsOf(values)[b] in values &&
              IndexOf(values, OptionsOf(values)[a]) < IndexOf(values, OptionsOf(values)[b])
  {
    var r := OptionsOf(values);
    DistinctFirstSeenOrder(values);
    assert forall k :: 1 <= k < |r| ==> r[k] == Distinct(values)[k - 1];
  }

  /** `doctors.map(d => d.specialty)`. */
  function SpecialtiesOf(doctors: seq<Doctor>): (r: seq<string>)
    ensures |r| == |doctors| && forall i :: 0 <= i < |doctors| ==> r[i] == doctors[i].specialty
  {
    seq(|doctors|, i requires 0 <= i < |doctors| => doctors[i].specialty)
  }

  /** `doctors.map(d => d.location)`. */
  function LocationsOf(doctors: seq<Doctor>): (r: seq<string>)
    ensures |r| == |doctors| && forall i :: 0 <= i < |doctors| ==> r[i] == doctors[i].location
  {
    seq(|doctors|, i requires 0 <= i < |doctors| => doctors[i].location)
  }

  /** The specialty select: `"all"`, then every doctor's specialty exactly once. */
  function Specialties(doctors: seq<Doctor>): (r: seq<string>)
    ensures |r| >= 1 && r[0] == All
    ensures forall i :: 0 <= i < |doctors| ==> doctors[i].specialty in r[1..]
    ensures forall k :: 1 <= k < |r| ==> exists i :: 0 <= i < |doctors| && doctors[i].specialty == r[k]
    ensures NoDuplicates(r[1..])
  {
    var values := SpecialtiesOf(doctors);
    var r := OptionsOf(values);
    assert forall k :: 1 <= k < |r| ==> exists i :: 0 <= i < |doctors| && doctors[i].specialty == r[k] by {
      forall k | 1 <= k < |r| ensures exists i :: 0 <= i < |doctors| && doctors[i].specialty == r[k] {
        var i := IndexOf(values, r[k]);
        assert doctors[i].specialty == r[k];
      }
    }
    r
  }

  /** The location select: `"all"`, then every doctor's location exactly once. */
  function Locations(doctors: seq<Doctor>): (r: seq<string>)
    ensures |r| >= 1 && r[0] == All
    ensures forall i :: 0 <= i < |doctors| ==> doctors[i].location in r[1..]
    ensures forall k :: 1 <= k < |r| ==> exists i :: 0 <= i < |doctors| && doctors[i].location == r[k]
    ensures NoDuplicates(r[1..])
  {
    var values := LocationsOf(doctors);
    var r := OptionsOf(values);
    assert forall k :: 1 <= k < |r| ==> exists i :: 0 <= i < |doctors| && doctors[i].location == r[k] by {
      forall k | 1 <= k < |r| ensures exists i :: 0 <= i < |doctors| && doctors[i].location == r[k] {
        var i := IndexOf(values, r[k]);
        assert doctors[i].location == r[k];
      }
    }
    r
  }

  /** Specialty options appear in the order of the first doctor having each. */
  lemma SpecialtiesFirstSeenOrder(doctors: seq<Doctor>)
    ensures forall a, b :: 1 <= a < b < |Specialties(doctors)| ==>
              Specialties(doctors)[a] in SpecialtiesOf(doctors) && Specialties(doctors)[b] in SpecialtiesOf(doctors) &&
              IndexOf(SpecialtiesOf(doctors), Specialties(doctors)[a]) < IndexOf(SpecialtiesOf(doctors), Specialties(doctors)[b])
  {
    var values := SpecialtiesOf(doctors);
    assert Specialties(doctors) == OptionsOf(values);
    OptionsFirstSeenOrder(values);
  }

  /** Location options appear in the order of the first doctor having each. */
  lemma LocationsFirstSeenOrder(doctors: seq<Doctor>)
    ensures forall a, b :: 1 <= a < b < |Locations(doctors)| ==>
              Locations(doctors)[a] in LocationsOf(doctors) && Locations(doctors)[b] in LocationsOf(doctors) &&
              IndexOf(LocationsOf(doctors), Locations(doctors)[a]) < IndexOf(LocationsOf(doctors), Locations(doctors)[b])
  {
    var values := LocationsOf(doctors);
    assert Locations(doctors) == OptionsOf(values);
    OptionsFirstSeenOrder(values);
  }

  // ---------------------------------------------------------------------------
  // the filter

  /** Reference meaning of the search: `needle` occurs in `hay` once both are lower-cased. */
  ghost predicate ContainsIgnoringCase(hay: string, needle: string)
  {
    exists i :: OccursAt(Lower(hay), Lower(needle), i)
  }

  /** `matchesSearch`: a term longer than both the name and the specialty never matches. */
  function MatchesSearch(d: Doctor, term: string): (ok: bool)
    ensures ok ==> |term| <= |d.name| || |term| <= |d.specialty|
  {
    Includes(Lower(d.name), Lower(term)) || Includes(Lower(d.specialty), Lower(term))
  }

  /** `matchesSpecialty`: "all" keeps every doctor, any other value only the doctors of that specialty. */
  function MatchesSpecialty(d: Doctor, selected: string): (ok: bool)
    ensures selected == All ==> ok
    ensures selected != All ==> (ok <==> d.specialty == selected)
  {
    selected == All || d.specialty == selected
  }

  /** `matchesLocation`: "all" keeps every doctor, any other value only the doctors at that location. */
  function MatchesLocation(d: Doctor, selected: string): (ok: bool)
    ensures selected == All ==> ok
    ensures selected != All ==> (ok <==> d.location == selected)
  {
    selected == All || d.location == selected
  }

  /** The filter's callback: the term occurs, ignoring case, in the name or the specialty, and both selects agree. */
  function Kept(d: Doctor, term: string, specialty: string, location: string): (ok: bool)
    ensures ok <==> && (ContainsIgnoringCase(d.name, term) || ContainsIgnoringCase(d.specialty, term))
                    && MatchesSpecialty(d, specialty) && MatchesLocation(d, location)
  {
    MatchesSearchMeaning(d, term);
    MatchesSearch(d, term) && MatchesSpecialty(d, specialty) && MatchesLocation(d, location)
  }

  function KeepFilter(term: string, specialty: string, location: string): Doctor -> bool
  {
    d => Kept(d, term, specialty, location)
  }

  lemma MatchesSearchMeaning(d: Doctor, term: string)
    ensures MatchesSearch(d, term) <==> ContainsIgnoringCase(d.name, term) || ContainsIgnoringCase(d.specialty, term)
  {
    IncludesIffOccurs(Lower(d.name), Lower(term));
    IncludesIffOccurs(Lower(d.specialty), Lower(term));
  }

  /** `filteredDoctors`: the doctors that pass all three filters, in list order. */
  function FilteredDoctors(doctors: seq<Doctor>, term: string, specialty: string, location: string): (r: seq<Doctor>)
    ensures IsSubsequence(r, doctors)
    ensures forall d :: d in r <==>
              && d in doctors
              && (ContainsIgnoringCase(d.name, term) || ContainsIgnoringCase(d.specialty, term))
              && (specialty == All || d.specialty == specialty)
              && (location == All || d.location == location)
    ensures forall d :: multiset(r)[d] == if Kept(d, term, specialty, location) then multiset(doctors)[d] else 0
  {
    var p := KeepFilter(term, specialty, location);
    var r := Filter(doctors, p);
    FilterIsSubsequence(doctors, p);
    assert forall d :: d in r <==>
              && d in doctors
              && (ContainsIgnoringCase(d.name, term) || ContainsIgnoringCase(d.specialty, term))
              && (specialty == All || d.specialty == specialty)
              && (location == All || d.location == location) by {
      forall d ensures d in r <==>
              && d in doctors
              && (ContainsIgnoringCase(d.name, term) || ContainsIgnoringCase(d.specialty, term))
              && (specialty == All || d.specialty == specialty)
              && (location == All || d.location == location) {
        FilterMembership(doctors, p, d);
        MatchesSearchMeaning(d, term);
      }
    }
    assert forall d :: multiset(r)[d] == if Kept(d, term, specialty, location) then multiset(doctors)[d] else 0 by {
      forall d ensures multiset(r)[d] == if Kept(d, term, specialty, location) then multiset(doctors)[d] else 0 {
        FilterMultiplicity(doctors, p, d);
      }
    }
    r
  }

  /** The page's initial state (empty search, both selects on `"all"`) lists every doctor, in order. */
  lemma InitialFilterKeepsAll(doctors: seq<Doctor>)
    ensures FilteredDoctors(doctors, "", All, All) == doctors
  {
    assert Lower("") == "";
    forall i | 0 <= i < |doctors| ensures KeepFilter("", All, All)(doctors[i]) {
      IncludesEmpty(Lower(doctors[i].name));
    }
    FilterKeepsAll(doctors, KeepFilter("", All, All));
  }

  /** An empty search term matches every doctor. */
  lemma EmptySearchMatches(d: Doctor)
    ensures MatchesSearch(d, "")
  {
    assert Lower("") == "";
    IncludesEmpty(Lower(d.name));
  }

  /** Choosing any offered specialty, with no search and all locations, lists exactly that specialty's doctors and at least one. */
  lemma SpecialtyOptionSelects(doctors: seq<Doctor>, k: nat)
    requires 1 <= k < |Specialties(doctors)|
    ensures FilteredDoctors(doctors, "", Specialties(doctors)[k], All) != []
    ensures forall d :: d in FilteredDoctors(doctors, "", Specialties(doctors)[k], All) <==>
              d in doctors && (Specialties(doctors)[k] == All || d.specialty == Specialties(doctors)[k])
  {
    var x := Specialties(doctors)[k];
    var r := FilteredDoctors(doctors, "", x, All);
    forall d: Doctor ensures ContainsIgnoringCase(d.name, "") {
      assert OccursAt(Lower(d.name), Lower(""), 0);
    }
    var i :| 0 <= i < |doctors| && doctors[i].specialty == x;
    assert doctors[i] in r;
  }

  // ---------------------------------------------------------------------------
  // result count and badge

  datatype ResultSummary = ResultSummary(count: nat, noResults: bool)

  /** The "Found N doctors" line and the "No doctors found" block. */
  function Summary(doctors: seq<Doctor>, term: string, specialty: string, location: string): (s: ResultSummary)
    ensures s.count == |FilteredDoctors(doctors, term, specialty, location)|
    ensures s.noResults <==> s.count == 0
    ensures s.noResults <==> forall i :: 0 <= i < |doctors| ==> !Kept(doctors[i], term, specialty, location)
  {
    var filtered := FilteredDoctors(doctors, term, specialty, location);
    FilterEmpty(doctors, KeepFilter(term, specialty, location));
    ResultSummary(|filtered|, |filtered| == 0)
  }

  datatype Badge = Available | Busy

  /** The card badge: "Available" exactly when the availability text contains "today" (case-sensitive). */
  function AvailabilityBadge(availability: string): (b: Badge)
    ensures b == Available <==> exists i :: OccursAt(availability, "today", i)
  {
    IncludesIffOccurs(availability, "today");
    if Includes(availability, "today") then Available else Busy
  }

  /** The badge's text; the two badges read differently. */
  function BadgeLabel(b: Badge): (text: string)
    ensures text == "Available" <==> b == Available
    ensures text == "Busy" <==> b == Busy
  {
    match b
    case Available => "Available"
    case Busy => "Busy"
  }

  /** A card reads "Available" when its availability text contains "today", and "Busy" otherwise. */
  lemma BadgeText(availability: string)
    ensures BadgeLabel(AvailabilityBadge(availability)) == "Available" <==> exists i :: OccursAt(availability, "today", i)
    ensures BadgeLabel(AvailabilityBadge(availability)) == "Busy" <==> !exists i :: OccursAt(availability, "today", i)
  {
  }

  // ---------------------------------------------------------------------------
  // card links

  /** The "View Profile" link of a card: the profile route, whose `:id` reads back with `Number` as the doctor's id. */
  function ProfilePath(id: int): (p: string)
    ensures |p| > 8 && p[..8] == "/doctor/"
    ensures JsNumber(p[8..]) == Some(id)
  {
    var p := "/doctor/" + ShowInt(id);
    assert p[8..] == ShowInt(id);
    NumberShowInt(id);
    p
  }

  /** The "Book Now" link of a card: the booking route, whose `:doctorId` reads back with `parseInt` as the doctor's id. */
  function BookPath(id: int): (p: string)
    ensures |p| > 6 && p[..6] == "/book/"
    ensures ParseInt(p[6..]) == Some(id)
  {
    var p := "/book/" + ShowInt(id);
    assert p[6..] == ShowInt(id) + "";
    ParseIntShowInt(id, "");
    p
  }
}
