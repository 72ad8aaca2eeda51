/** The profile-completion percentage shown beside the profile photo
    (profile-photo/ProfilePhoto.tsx): one point for each of six sections that
    is present and non-empty, out of six, rounded to a whole percent. */
module ProfileCompletion {

  import opened Wrappers

  /** The lengths of the stored sections (`?.length`); a section the profile
      lacks is `None`. Involvements and contacts are stored but not scored. */
  datatype ProfileDetails = ProfileDetails(
    education: Option<nat>, experience: Option<nat>, project: Option<nat>,
    skills: Option<nat>, certification: Option<nat>, summary: Option<nat>,
    involvement: Option<nat>, contact: Option<nat>)

  const TotalSections := 6

  /** `section?.length > 0`: `undefined > 0` is false. */
  predicate Filled(length: Option<nat>) {
    length.Some? && length.value > 0
  }

  function Scored(d: ProfileDetails): seq<Option<nat>> {
    [d.education, d.experience, d.project, d.skills, d.certification, d.summary]
  }

  /** The number of completed sections. */
  function Completed(d: ProfileDetails): (k: nat)
    ensures k <= TotalSections
  {
    Count(Scored(d))
  }

  function Count(lengths: seq<Option<nat>>): (k: nat)
    ensures k <= |lengths|
  {
    if lengths == [] then 0 else Point(lengths[0]) + Count(lengths[1..])
  }

  /** `Math.round(k / 6 * 100)`: the integer nearest to `100k/6`, halves
      rounded up. */
  function Percent(k: nat): (r: int)
    requires k <= TotalSections
    ensures 0 <= r <= 100
    ensures -3 <= 6 * r - 100 * k < 3
  {
    (100 * k + 3) / 6
  }

  /** The score of the profile; no profile scores 0. */
  function Completion(details: Option<ProfileDetails>): (r: int)
    ensures details.None? ==> r == 0
    ensures 0 <= r <= 100
  {
    if details.None? then 0 else Percent(Completed(details.value))
  }

  /** `calculateProfileCompletion`: a counter bumped once per completed
      section, then rounded. */
  method CalculateProfileCompletion(details: Option<ProfileDetails>) returns (percent: int)
    ensures percent == Completion(details)
  {
    if details.None? {
      return 0;
    }
    var d := details.value;
    var completed := 0;
    if Filled(d.education) { completed := completed + 1; }
    assert completed == Point(d.education);
    if Filled(d.experience) { completed := completed + 1; }
    assert completed == Point(d.education) + Point(d.experience);
    if Filled(d.project) { completed := completed + 1; }
    assert completed == Point(d.education) + Point(d.experience) + Point(d.project);
    if Filled(d.skills) { completed := completed + 1; }
    assert completed == Point(d.education) + Point(d.experience) + Point(d.project) + Point(d.skills);
    if Filled(d.certification) { completed := completed + 1; }
    assert completed == Point(d.education) + Point(d.experience) + Point(d.project) + Point(d.skills)
      + Point(d.certification);
    if Filled(d.summary) { completed := completed + 1; }
    CountScored(d);
    percent := Percent(completed);
  }

  /** The score takes only the seven values `0, 17, 33, 50, 67, 83, 100`. */
  lemma PercentValues(k: nat)
    requires k <= TotalSections
    ensures Percent(k) in {0, 17, 33, 50, 67, 83, 100}
  {
    assert k in {0, 1, 2, 3, 4, 5, 6};
  }

  /** More completed sections never lower the score. */
  lemma PercentMonotone(k: nat, m: nat)
    requires k <= m <= TotalSections
    ensures Percent(k) <= Percent(m)
  {
    assert 6 * Percent(k) < 100 * k + 3 <= 100 * m + 3 <= 6 * Percent(m) + 6;
  }

  /** Counting is monotone in which sections are filled. */
  lemma {:induction false} CountMonotone(a: seq<Option<nat>>, b: seq<Option<nat>>)
    requires |a| == |b|
    requires forall i :: 0 <= i < |a| && Filled(a[i]) ==> Filled(b[i])
    ensures Count(a) <= Count(b)
    decreases |a|
  {
    if a != [] {
      CountMonotone(a[1..], b[1..]);
    }
  }

  /** Filling in more of the scored sections never lowers the score. */
  lemma CompletionMonotone(d: ProfileDetails, e: ProfileDetails)
    requires forall i :: 0 <= i < 6 && Filled(Scored(d)[i]) ==> Filled(Scored(e)[i])
    ensures Completion(Some(d)) <= Completion(Some(e))
  {
    CountMonotone(Scored(d), Scored(e));
    PercentMonotone(Completed(d), Completed(e));
  }

  /** Involvements and contacts never change the score. */
  lemma InvolvementAndContactIgnored(d: ProfileDetails, involvement: Option<nat>, contact: Option<nat>)
    ensures Completion(Some(d.(involvement := involvement, contact := contact))) == Completion(Some(d))
  {
    assert Scored(d.(involvement := involvement, contact := contact)) == Scored(d);
  }

  /** A profile with every scored section filled scores 100, one with none
      filled (or missing) scores 0. */
  lemma {:induction false} CompletionExtremes(d: ProfileDetails)
    ensures (forall i :: 0 <= i < 6 ==> Filled(Scored(d)[i])) ==> Completion(Some(d)) == 100
    ensures (forall i :: 0 <= i < 6 ==> !Filled(Scored(d)[i])) ==> Completion(Some(d)) == 0
  {
    CountScored(d);
    var s := Scored(d);
    assert s[0] == d.education && s[1] == d.experience && s[2] == d.project;
    assert s[3] == d.skills && s[4] == d.certification && s[5] == d.summary;
  }

  function Point(length: Option<nat>): nat {
    if Filled(length) then 1 else 0
  }

  /** The count, section by section. */
  lemma CountScored(d: ProfileDetails)
    ensures Completed(d) == Point(d.education) + Point(d.experience) + Point(d.project)
      + Point(d.skills) + Point(d.certification) + Point(d.summary)
  {
    var s := Scored(d);
    var s1 := s[1..];
    var s2 := s1[1..];
    var s3 := s2[1..];
    var s4 := s3[1..];
    var s5 := s4[1..];
    assert s5[1..] == [];
    assert Count(s5) == Point(d.summary);
    assert Count(s4) == Point(d.certification) + Count(s5);
    assert Count(s3) == Point(d.skills) + Count(s4);
    assert Count(s2) == Point(d.project) + Count(s3);
    assert Count(s1) == Point(d.experience) + Count(s2);
  }
}
