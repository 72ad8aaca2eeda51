/** The resume sections a user keeps in the profile and the list operations
    every section editor performs on them: flip `includeInResume` by id,
    replace the editable fields by id, delete by id, find by id, keep the
    included entries. Server replies arrive as values of `Reply`. */
module ResumeData {

  import opened Wrappers
  import ListOps

  /** A `{ month, year }` pair as the forms store it (both free text). */
  datatype MonthYear = MonthYear(month: string, year: string)

  const NoDate := MonthYear("", "")

  /** One entry of a resume section: its database `_id`, whether it goes on
      the resume, and the section's own fields. */
  datatype Entry<D> = Entry(id: string, includeInResume: bool, details: D)

  /** `isPresent` is optional on stored entries and absent reads as false. */
  datatype ExperienceDetails = ExperienceDetails(
    jobTitle: string, company: string, location: string,
    startDate: MonthYear, endDate: MonthYear, description: string, isPresent: Option<bool>)

  datatype ProjectDetails = ProjectDetails(
    name: string, startDate: MonthYear, endDate: MonthYear,
    skills: string, description: string, isPresent: Option<bool>)

  datatype InvolvementDetails = InvolvementDetails(
    organization: string, role: string, startDate: MonthYear, endDate: MonthYear,
    description: string, isPresent: Option<bool>)

  datatype EducationDetails = EducationDetails(
    university: string, cgpa: string, degree: string, major: string,
    startDate: MonthYear, endDate: MonthYear, isPresent: Option<bool>)

  datatype CertificationDetails = CertificationDetails(
    name: string, issuedBy: string, issuedDate: MonthYear, expirationDate: MonthYear, url: string)

  datatype SkillDetails = SkillDetails(domain: string, name: string)

  type Experience = Entry<ExperienceDetails>
  type Project = Entry<ProjectDetails>
  type Involvement = Entry<InvolvementDetails>
  type Education = Entry<EducationDetails>
  type Certification = Entry<CertificationDetails>
  type Skill = Entry<SkillDetails>

  /** JavaScript `!flag` on an optional boolean: `!undefined` is `true`. */
  function NotFlag(flag: Option<bool>): (r: Option<bool>)
    ensures r.Some? && r.value == !flag.GetOr(false)
  {
    Some(!flag.GetOr(false))
  }

  /** `isPresent ?? false`: an absent flag is stored as false, a present
      one is kept. */
  function PresentOrFalse(flag: Option<bool>): (r: Option<bool>)
    ensures r.Some? && (r.value <==> flag == Some(true))
    ensures flag.Some? ==> r == flag
  {
    Some(flag.GetOr(false))
  }

  /** The date shown for an entry: `Present` when `isPresent` is set, else
      `month/year` of the end date. */
  function DateText(isPresent: Option<bool>, endDate: MonthYear): (r: string)
    ensures isPresent == Some(true) ==> r == "Present"
    ensures isPresent != Some(true) ==> r == endDate.month + "/" + endDate.year
  {
    if isPresent.GetOr(false) then "Present" else endDate.month + "/" + endDate.year
  }

  /** The reply to one HTTP request: the request failed before any response,
      or a response with its status code and decoded body arrived. */
  datatype Reply<B> = NoResponse | Response(status: int, body: B)

  /** `response.ok`, and the statuses for which an axios promise resolves. */
  predicate IsOk(status: int) {
    200 <= status <= 299
  }

  predicate Succeeded<B>(reply: Reply<B>) {
    reply.Response? && IsOk(reply.status)
  }

  /** Every entry whose id is `id` has its flag flipped; nothing else changes. */
  function ToggleInclude<D>(s: seq<Entry<D>>, id: string): (r: seq<Entry<D>>)
    ensures |r| == |s|
    ensures forall k :: 0 <= k < |s| ==> r[k].id == s[k].id && r[k].details == s[k].details
    ensures forall k :: 0 <= k < |s| ==> (r[k].includeInResume != s[k].includeInResume <==> s[k].id == id)
  {
    seq(|s|, k requires 0 <= k < |s| =>
      if s[k].id == id then s[k].(includeInResume := !s[k].includeInResume) else s[k])
  }

  /** Toggling the same id twice restores the list. */
  lemma ToggleIncludeTwice<D>(s: seq<Entry<D>>, id: string)
    ensures ToggleInclude(ToggleInclude(s, id), id) == s
  {
    var t := ToggleInclude(ToggleInclude(s, id), id);
    forall k | 0 <= k < |s| ensures t[k] == s[k] {
    }
  }

  /** Toggling an id no entry has changes nothing. */
  lemma ToggleIncludeAbsent<D>(s: seq<Entry<D>>, id: string)
    requires forall k :: 0 <= k < |s| ==> s[k].id != id
    ensures ToggleInclude(s, id) == s
  {
  }

  /** The entries with id `id` take the edited flag and fields and keep their
      id; every other entry is unchanged. */
  function UpdateById<D>(s: seq<Entry<D>>, id: string, includeInResume: bool, details: D): (r: seq<Entry<D>>)
    ensures |r| == |s|
    ensures forall k :: 0 <= k < |s| ==> r[k].id == s[k].id
    ensures forall k :: 0 <= k < |s| && s[k].id == id ==>
      r[k].includeInResume == includeInResume && r[k].details == details
    ensures forall k :: 0 <= k < |s| && s[k].id != id ==> r[k] == s[k]
  {
    seq(|s|, k requires 0 <= k < |s| =>
      if s[k].id == id then Entry(s[k].id, includeInResume, details) else s[k])
  }

  /** Saving the same edit twice is saving it once, and a later edit of the
      same entry overrides an earlier one. */
  lemma UpdateByIdOverrides<D>(s: seq<Entry<D>>, id: string, inc1: bool, d1: D, inc2: bool, d2: D)
    ensures UpdateById(UpdateById(s, id, inc1, d1), id, inc2, d2) == UpdateById(s, id, inc2, d2)
  {
    var a := UpdateById(UpdateById(s, id, inc1, d1), id, inc2, d2);
    var b := UpdateById(s, id, inc2, d2);
    forall k | 0 <= k < |s| ensures a[k] == b[k] {
    }
  }

  /** Test for the entries `filter(e => e._id !== id)` keeps. */
  predicate IdIsNot<D>(id: string, e: Entry<D>) {
    e.id != id
  }

  /** Delete by id: exactly the entries with another id, in their order. */
  function RemoveById<D>(s: seq<Entry<D>>, id: string): (r: seq<Entry<D>>)
    ensures forall k :: 0 <= k < |r| ==> r[k].id != id && r[k] in s
    ensures forall k :: 0 <= k < |s| && s[k].id != id ==> s[k] in r
    ensures |r| == |s| - ListOps.CountWhere(s, (e: Entry<D>) => e.id == id)
  {
    CountComplement(s, id);
    ListOps.Filter(s, e => IdIsNot(id, e))
  }

  lemma {:induction false} CountComplement<D>(s: seq<Entry<D>>, id: string)
    ensures |ListOps.Filter(s, e => IdIsNot(id, e))| == |s| - ListOps.CountWhere(s, (e: Entry<D>) => e.id == id)
    decreases |s|
  {
    if s != [] {
      CountComplement(s[1..], id);
    }
  }

  /** Deleting distributes over concatenation: the survivors keep their order. */
  lemma RemoveByIdAppend<D>(a: seq<Entry<D>>, b: seq<Entry<D>>, id: string)
    ensures RemoveById(a + b, id) == RemoveById(a, id) + RemoveById(b, id)
  {
    ListOps.FilterAppend(a, b, e => IdIsNot(id, e));
  }

  /** Deleting an id no entry has changes nothing; deleting twice is deleting once. */
  lemma RemoveByIdAbsent<D>(s: seq<Entry<D>>, id: string)
    ensures (forall k :: 0 <= k < |s| ==> s[k].id != id) ==> RemoveById(s, id) == s
    ensures RemoveById(RemoveById(s, id), id) == RemoveById(s, id)
  {
    ListOps.FilterAll(s, e => IdIsNot(id, e));
    ListOps.FilterIdempotent(s, e => IdIsNot(id, e));
  }

  /** `list.find(e => e._id === id)`. */
  function FindById<D>(s: seq<Entry<D>>, id: string): (r: Option<Entry<D>>)
    ensures r.None? <==> forall k :: 0 <= k < |s| ==> s[k].id != id
    ensures r.Some? ==> r.value.id == id && r.value in s
  {
    ListOps.Find(s, (e: Entry<D>) => e.id == id)
  }

  /** After a toggle, finding the id gives the first entry with that id, flipped. */
  lemma FindAfterToggle<D>(s: seq<Entry<D>>, id: string, k: nat)
    requires k < |s| && s[k].id == id
    requires forall m :: 0 <= m < k ==> s[m].id != id
    ensures FindById(ToggleInclude(s, id), id) == Some(s[k].(includeInResume := !s[k].includeInResume))
  {
    var t := ToggleInclude(s, id);
    assert t[k] == s[k].(includeInResume := !s[k].includeInResume);
    ListOps.FindFirst(t, (e: Entry<D>) => e.id == id, k);
  }

  /** The entries marked for the resume, in their order. */
  function Included<D>(s: seq<Entry<D>>): (r: seq<Entry<D>>)
    ensures forall k :: 0 <= k < |r| ==> r[k].includeInResume && r[k] in s
    ensures forall k :: 0 <= k < |s| && s[k].includeInResume ==> s[k] in r
  {
    ListOps.Filter(s, (e: Entry<D>) => e.includeInResume)
  }

  /** The year choices of the date pickers: 57 years counting down from seven
      years after the current one. */
  function GraduationYears(currentYear: int): (r: seq<int>)
    ensures |r| == 57
  {
    seq(57, index requires 0 <= index < 57 => currentYear + 7 - index)
  }

  /** The choices run from `currentYear + 7` down to `currentYear - 49`, one
      year apart, so each year in that range appears exactly once. */
  lemma GraduationYearsRange(currentYear: int)
    ensures GraduationYears(currentYear)[0] == currentYear + 7
    ensures GraduationYears(currentYear)[56] == currentYear - 49
    ensures forall k :: 0 < k < 57 ==> GraduationYears(currentYear)[k] == GraduationYears(currentYear)[k - 1] - 1
    ensures forall y :: currentYear - 49 <= y <= currentYear + 7 <==> y in GraduationYears(currentYear)
  {
    var r := GraduationYears(currentYear);
    forall y | currentYear - 49 <= y <= currentYear + 7 ensures y in r {
      assert r[currentYear + 7 - y] == y;
    }
  }

  /** No entry is marked, so nothing is included. */
  lemma {:induction false} NothingIncluded<D>(s: seq<Entry<D>>)
    requires forall k :: 0 <= k < |s| ==> !s[k].includeInResume
    ensures Included(s) == []
    decreases |s|
  {
    if s != [] {
      NothingIncluded(s[1..]);
    }
  }

  /** The list after a successful save: the server answers with the whole
      stored list and the last element of it is appended locally. */
  function AppendSaved<D>(s: seq<Entry<D>>, stored: seq<Entry<D>>): (r: seq<Entry<D>>)
    requires stored != []
    ensures |r| == |s| + 1 && r[..|s|] == s && r[|s|] == stored[|stored| - 1]
  {
    s + [ListOps.Last(stored)]
  }
}
