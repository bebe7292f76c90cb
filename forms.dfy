/**
  Pieces the form pages share: form-data objects keyed by field name, the
  truthiness tests the pages apply to their fields, zod validation issues and
  the error a field shows, and the calendar's rule for disabled days.
*/
module Forms {
  import opened Seqs

  /** A form-data object such as `{ name: "", email: "", ... }`: field name to value. */
  type FormData = map<string, string>

  /** Reading `formData[field]`: absent (`undefined`) for a field the object lacks. */
  function Lookup(m: FormData, field: string): (r: Option<string>)
    ensures r.Some? <==> field in m
    ensures r.Some? ==> r.value == m[field]
  {
    if field in m then Some(m[field]) else None
  }

  /** JavaScript truthiness of a string-or-undefined value: a non-empty string. */
  predicate Filled(v: Option<string>)
  {
    v.Some? && v.value != ""
  }

  /** `{ ...prev, [field]: value }`: that one field set, every other field as it was. */
  function WithField(m: FormData, field: string, value: string): (r: FormData)
    ensures r.Keys == m.Keys + {field}
    ensures Lookup(r, field) == Some(value)
    ensures forall k :: k != field ==> Lookup(r, k) == Lookup(m, k)
  {
    m[field := value]
  }

  /** The object literal with each of `fields` set to the empty string. */
  function EmptyForm(fields: seq<string>): (r: FormData)
    ensures forall k :: k in r <==> k in fields
    ensures forall k :: k in fields ==> Lookup(r, k) == Some("")
  {
    map f | f in fields :: ""
  }

  /** `formData.name && formData.email && formData.phone`: the booking pages' required text fields are all non-empty. */
  predicate ContactDetailsFilled(m: FormData)
  {
    Filled(Lookup(m, "name")) && Filled(Lookup(m, "email")) && Filled(Lookup(m, "phone"))
  }

  /** Setting any other field leaves that test as it was. */
  lemma ContactDetailsOtherField(m: FormData, field: string, value: string)
    requires field != "name" && field != "email" && field != "phone"
    ensures ContactDetailsFilled(WithField(m, field, value)) == ContactDetailsFilled(m)
  {
  }

  // ---------------------------------------------------------------------------
  // zod issues

  /** One zod issue: the path of the field it concerns and its message. */
  datatype Issue = Issue(path: string, message: string)

  /** A rule's issue list: empty when the rule holds, one issue otherwise. */
  function Check(holds: bool, path: string, message: string): (r: seq<Issue>)
    ensures r == [] <==> holds
    ensures r != [] ==> r == [Issue(path, message)]
    ensures OnlyOn(r, path)
  {
    if holds then [] else [Issue(path, message)]
  }

  /** Every issue of the list concerns `path`. */
  predicate OnlyOn(issues: seq<Issue>, path: string)
  {
    forall i :: 0 <= i < |issues| ==> issues[i].path == path
  }

  function OnPath(path: string): Issue -> bool
  {
    (i: Issue) => i.path == path
  }

  /** The message shown under a field: that of the first issue on its path, absent when there is none. */
  function FieldError(issues: seq<Issue>, path: string): (r: Option<string>)
    ensures r.None? <==> forall i :: 0 <= i < |issues| ==> issues[i].path != path
    ensures r.Some? ==> exists k :: 0 <= k < |issues| && issues[k] == Issue(path, r.value)
                                    && forall j :: 0 <= j < k ==> issues[j].path != path
  {
    match FindIndex(issues, OnPath(path))
    case None => None
    case Some(k) =>
      assert issues[k] == Issue(path, issues[k].message);
      Some(issues[k].message)
  }

  /** Issues on other paths in front do not change the error a field shows. */
  lemma FieldErrorAfterOthers(a: seq<Issue>, b: seq<Issue>, path: string)
    requires forall i :: 0 <= i < |a| ==> a[i].path != path
    ensures FieldError(a + b, path) == FieldError(b, path)
  {
    var ab := a + b;
    var r := FieldError(ab, path);
    var q := FieldError(b, path);
    if q.Some? {
      var k :| 0 <= k < |b| && b[k] == Issue(path, q.value) && forall j :: 0 <= j < k ==> b[j].path != path;
      assert ab[|a| + k] == b[k];
      var k' :| 0 <= k' < |ab| && ab[k'] == Issue(path, r.value) && forall j :: 0 <= j < k' ==> ab[j].path != path;
      assert k' == |a| + k;
    } else {
      assert forall i :: 0 <= i < |ab| ==> ab[i].path != path by {
        forall i | 0 <= i < |ab| ensures ab[i].path != path {
          if i >= |a| { assert ab[i] == b[i - |a|]; }
        }
      }
    }
  }

  /** An issue outside `path` is in no list that only reports on `path`. */
  lemma OnlyOnMember(issues: seq<Issue>, path: string, x: Issue)
    requires OnlyOn(issues, path)
    ensures x in issues ==> x.path == path
  {
  }

  /** Removing issues that are all on another path does not change the error `f` shows. */
  lemma SkipOtherPath(a: seq<Issue>, mid: seq<Issue>, b: seq<Issue>, f: string)
    requires forall i :: 0 <= i < |mid| ==> mid[i].path != f
    ensures FieldError(a + mid + b, f) == FieldError(a + b, f)
  {
    var r := FieldError(a + mid + b, f);
    var q := FieldError(a + b, f);
    var amb := a + mid + b;
    var ab := a + b;
    if q.Some? {
      var k :| 0 <= k < |ab| && ab[k] == Issue(f, q.value) && forall j :: 0 <= j < k ==> ab[j].path != f;
      var k' := if k < |a| then k else k + |mid|;
      assert amb[k'] == ab[k];
      assert forall j :: 0 <= j < k' ==> amb[j].path != f by {
        forall j | 0 <= j < k' ensures amb[j].path != f {
          if j < |a| { assert amb[j] == ab[j]; }
          else if j < |a| + |mid| { assert amb[j] == mid[j - |a|]; }
          else { assert amb[j] == ab[j - |mid|]; }
        }
      }
      var k2 :| 0 <= k2 < |amb| && amb[k2] == Issue(f, r.value) && forall j :: 0 <= j < k2 ==> amb[j].path != f;
      assert k2 == k';
    } else {
      assert forall j :: 0 <= j < |amb| ==> amb[j].path != f by {
        forall j | 0 <= j < |amb| ensures amb[j].path != f {
          if j < |a| { assert amb[j] == ab[j]; }
          else if j < |a| + |mid| { assert amb[j] == mid[j - |a|]; }
          else { assert amb[j] == ab[j - |mid|]; }
        }
      }
    }
  }

  // ---------------------------------------------------------------------------
  // the calendar's disabled days
  //
  // Instants are milliseconds in local time; the calendar offers each day as
  // the instant of its local midnight, a multiple of `DayMs`.

  const DayMs: int := 86_400_000

  /** The local midnight that starts the day containing `t`. */
  function StartOfDay(t: int): (m: int)
    ensures m % DayMs == 0 && m <= t < m + DayMs
  {
    t - t % DayMs
  }

  /** As written: `disabled={(date) => date < new Date()}`. */
  function DisabledAsWritten(day: int, now: int): (disabled: bool)
    ensures day < StartOfDay(now) ==> disabled
    ensures now <= day ==> !disabled
  {
    day < now
  }

  /** As evidently intended: the days before today are disabled, today and later days are not. */
  function DisabledDay(day: int, now: int): (disabled: bool)
    ensures disabled ==> DisabledAsWritten(day, now)
    ensures StartOfDay(now) <= day ==> !disabled
  {
    day < StartOfDay(now)
  }

  /** The written rule disables today itself at every moment except exactly midnight. */
  lemma TodayDisabledAsWritten(now: int)
    requires now % DayMs != 0
    ensures DisabledAsWritten(StartOfDay(now), now)
  {
  }

  /** A concrete case: at 10:00 on a day, that day's midnight is disabled as written and selectable as intended. */
  lemma TodayDisabledExample()
    ensures DisabledAsWritten(2 * DayMs, 2 * DayMs + 36_000_000)
    ensures !DisabledDay(2 * DayMs, 2 * DayMs + 36_000_000)
  {
    assert StartOfDay(2 * DayMs + 36_000_000) == 2 * DayMs;
  }

  /** Under the intended rule a calendar day is disabled exactly when it ends no later than today begins. */
  lemma DisabledDayMeansPast(day: int, now: int)
    requires day % DayMs == 0
    ensures DisabledDay(day, now) <==> day + DayMs <= StartOfDay(now)
    ensures !DisabledDay(StartOfDay(now), now)
  {
    var m := StartOfDay(now);
    if day < m {
      assert (m - day) % DayMs == 0;
      DivisibleGap(m - day);
    }
  }

  /** Helper: a positive multiple of a day spans at least one day. */
  lemma DivisibleGap(g: int)
    requires g > 0 && g % DayMs == 0
    ensures g >= DayMs
  {
  }
}
