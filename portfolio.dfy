/** The public portfolio page (Portfolio/portfolio.tsx): date text, the
    timeline items built from the included experiences and educations, the
    project cards, the skill circles grouped by domain, and the active skill
    circle. Icons are known by their names. */
module Portfolio {

  import opened Wrappers
  import opened Text
  import opened ResumeData
  import ListOps

  /** `formatDate`: `Present` for a current entry, else `month year`. */
  function FormatDate(date: MonthYear, isPresent: Option<bool>): (r: string)
    ensures r == "Present" <==> isPresent == Some(true)
  {
    if isPresent.GetOr(false) then "Present"
    else
      var text := date.month + " " + date.year;
      assert text[|date.month|] == ' ';
      assert ' ' !in "Present";
      text
  }

  /** `${formatDate(start)} – ${formatDate(end, isPresent)}`. */
  function DateSpan(start: MonthYear, end: MonthYear, isPresent: Option<bool>): string {
    FormatDate(start, None) + " – " + FormatDate(end, isPresent)
  }

  /** A start date, formatted without the flag, is never `Present`. */
  lemma StartNeverPresent(start: MonthYear, end: MonthYear, isPresent: Option<bool>)
    ensures FormatDate(start, None) != "Present"
    ensures DateSpan(start, end, isPresent) == start.month + " " + start.year + " – " + FormatDate(end, isPresent)
  {
  }

  /** `s.replace` of every `**` (a global pattern) by `''`: each `**`, found left to right without
      overlap, is deleted. */
  function StripBold(s: string): (r: string)
    ensures |r| <= |s|
    ensures forall c :: c in r ==> c in s
    decreases |s|
  {
    if |s| >= 2 && s[0] == '*' && s[1] == '*' then StripBold(s[2..])
    else if s == [] then []
    else
      var rest := StripBold(s[1..]);
      assert forall c :: c in rest ==> c in s;
      [s[0]] + rest
  }

  /** Text with no `**` is left as it is. */
  lemma {:induction false} StripBoldPlain(s: string)
    requires forall k :: 0 <= k < |s| - 1 ==> !(s[k] == '*' && s[k + 1] == '*')
    ensures StripBold(s) == s
    decreases |s|
  {
    if s != [] {
      StripBoldPlain(s[1..]);
      assert [s[0]] + s[1..] == s;
    }
  }

  /** The item description: the trimmed text between the first and the
      second `*` once every `**` is gone; `split('*')[1]` is undefined when
      no `*` remains, and calling `trim` on it throws. */
  function ExtractDescription(description: string): (r: Result<string, string>)
    ensures r.Failure? <==> '*' !in StripBold(description)
  {
    var parts := Split(StripBold(description), '*');
    SplitCount(StripBold(description), '*');
    CountCharPositive(StripBold(description), '*');
    if |parts| < 2 then Failure("TypeError: cannot read properties of undefined (reading 'trim')")
    else Success(Trim(parts[1]))
  }

  /** A description without any `*` cannot be shown. */
  lemma NoBulletThrows(description: string)
    requires '*' !in description
    ensures ExtractDescription(description).Failure?
  {
  }

  /** `*a*b`: the first bullet `a`, trimmed. */
  lemma {:induction false} FirstBullet(a: string, b: string)
    requires '*' !in a && '*' !in b && a != []
    ensures ExtractDescription("*" + a + "*" + b) == Success(Trim(a))
  {
    var text := "*" + a + "*" + b;
    forall k | 0 <= k < |text| - 1 ensures !(text[k] == '*' && text[k + 1] == '*') {
      if k == 0 {
        assert text[1] == a[0] && a[0] in a;
      } else if k <= |a| {
        assert text[k] == a[k - 1] && a[k - 1] in a;
      } else {
        assert text[k + 1] == b[k - |a| - 1] && b[k - |a| - 1] in b;
      }
    }
    StripBoldPlain(text);
    assert text == [] + ['*'] + (a + ['*'] + b);
    SplitCons([], '*', a + ['*'] + b);
    SplitCons(a, '*', b);
  }

  /** An empty first bullet is read as a bold marker: `**b` loses both stars
      and, with no `*` left in `b`, throws. */
  lemma EmptyFirstBulletThrows(b: string)
    requires '*' !in b
    ensures ExtractDescription("**" + b).Failure?
  {
    var text := "**" + b;
    assert text[2..] == b;
    assert StripBold(text) == StripBold(b);
  }

  /** Timeline cards alternate sides, starting on the right. */
  datatype Side = Right | Left

  function SideAt(index: nat): (side: Side)
    ensures side == Right <==> index % 2 == 0
  {
    if index % 2 == 0 then Right else Left
  }

  datatype TimelineItem = TimelineItem(
    side: Side, date: string, title: string, subtitle: string, description: string,
    location: Option<string>, logo: string, logoAlt: string)

  const ExperienceLogo := "https://logo.clearbit.com/havenofgracestl.org"
  const EducationLogo := "https://logo.clearbit.com/slu.edu"

  /** The card of the experience shown at position `index`. */
  function ExperienceItem(exp: Experience, index: nat): (r: Result<TimelineItem, string>)
    ensures r.Success? ==> (r.value.side == SideAt(index) && r.value.title == exp.details.company
      && r.value.subtitle == exp.details.jobTitle
      && Success(r.value.description) == ExtractDescription(exp.details.description))
    ensures r.Failure? <==> ExtractDescription(exp.details.description).Failure?
  {
    var e := exp.details;
    var description := ExtractDescription(e.description);
    if description.Failure? then Failure(description.error)
    else Success(TimelineItem(
      SideAt(index), DateSpan(e.startDate, e.endDate, e.isPresent), e.company, e.jobTitle,
      description.value, Some(e.location), ExperienceLogo, e.company + " Logo"))
  }

  /** `xs.map((x, index) => f(x, start + index))`, where a call that throws
      ends the whole map. */
  function MapIndexed<A, B>(xs: seq<A>, start: nat, f: (A, nat) -> Result<B, string>): (r: Result<seq<B>, string>)
    ensures r.Success? ==> (|r.value| == |xs| && forall k :: 0 <= k < |xs| ==> f(xs[k], start + k) == Success(r.value[k]))
    ensures r.Failure? <==> exists k :: 0 <= k < |xs| && f(xs[k], start + k).Failure?
    decreases |xs|
  {
    if xs == [] then Success([])
    else
      var head := f(xs[0], start);
      var rest := MapIndexed(xs[1..], start + 1, f);
      assert forall k :: 1 <= k < |xs| ==> xs[k] == xs[1..][k - 1];
      if head.Failure? then Failure(head.error)
      else if rest.Failure? then Failure(rest.error)
      else Success([head.value] + rest.value)
  }

  /** `formatExperienceItems`: one card per included experience, in order,
      sides alternating over the included ones only; it throws when any
      included description has no `*`. */
  function FormatExperienceItems(exps: seq<Experience>): (r: Result<seq<TimelineItem>, string>)
    ensures r.Success? ==> (|r.value| == |Included(exps)|
      && forall k :: 0 <= k < |r.value| ==>
        r.value[k].side == SideAt(k) && r.value[k].title == Included(exps)[k].details.company)
    ensures r.Failure? <==> exists k :: (0 <= k < |Included(exps)| &&
      '*' !in StripBold(Included(exps)[k].details.description))
  {
    MapIndexed(Included(exps), 0, ExperienceItem)
  }

  /** The card of the education shown at position `index`. */
  function EducationItem(edu: Education, index: nat): (r: TimelineItem)
    ensures r.side == SideAt(index) && r.title == edu.details.university && r.location.None?
  {
    var e := edu.details;
    TimelineItem(
      SideAt(index), DateSpan(e.startDate, e.endDate, e.isPresent), e.university,
      e.degree + " in " + e.major, "CGPA: " + e.cgpa, None, EducationLogo, e.university + " Logo")
  }

  /** `formatEducationItems`: one card per included education, in order;
      it never throws. */
  function FormatEducationItems(edus: seq<Education>): (r: seq<TimelineItem>)
    ensures |r| == |Included(edus)|
    ensures forall k :: 0 <= k < |r| ==> r[k] == EducationItem(Included(edus)[k], k) && r[k].side == SideAt(k)
  {
    var shown := Included(edus);
    seq(|shown|, k requires 0 <= k < |shown| => EducationItem(shown[k], k))
  }

  datatype ProjectCard = ProjectCard(image: string, title: string, description: string, skills: string, date: string, link: string)

  function ProjectItem(proj: Project): (r: Result<ProjectCard, string>)
    ensures r.Success? ==> (r.value.title == proj.details.name && r.value.link == "#"
      && Success(r.value.description) == ExtractDescription(proj.details.description))
    ensures r.Failure? <==> ExtractDescription(proj.details.description).Failure?
  {
    var p := proj.details;
    var description := ExtractDescription(p.description);
    if description.Failure? then Failure(description.error)
    else Success(ProjectCard(
      "https://picsum.photos/seed/" + p.name + "/400/300", p.name, description.value, p.skills,
      DateSpan(p.startDate, p.endDate, p.isPresent), "#"))
  }

  /** `formatProjects`: one card per included project, in order. */
  function FormatProjects(projs: seq<Project>): (r: Result<seq<ProjectCard>, string>)
    ensures r.Success? ==> (|r.value| == |Included(projs)|
      && forall k :: 0 <= k < |r.value| ==> r.value[k].title == Included(projs)[k].details.name)
    ensures r.Failure? <==> exists k :: (0 <= k < |Included(projs)| &&
      '*' !in StripBold(Included(projs)[k].details.description))
  {
    MapIndexed(Included(projs), 0, (p: Project, index: nat) => ProjectItem(p))
  }

  /** The skills of one domain, in input order. */
  datatype SkillGroup = SkillGroup(domain: string, skills: seq<Skill>)

  function DomainOf(s: Skill): string {
    s.details.domain
  }

  /** The distinct domains, in order of first appearance. */
  function Domains(xs: seq<Skill>): (r: seq<string>)
    ensures forall i, j :: 0 <= i < j < |r| ==> r[i] != r[j]
    ensures forall d :: d in r <==> exists k :: 0 <= k < |xs| && DomainOf(xs[k]) == d
    decreases |xs|
  {
    if xs == [] then []
    else
      var init := xs[..|xs| - 1];
      var ds := Domains(init);
      assert forall k :: 0 <= k < |init| ==> init[k] == xs[k];
      var d := DomainOf(xs[|xs| - 1]);
      if d in ds then ds else ds + [d]
  }

  /** The skills of domain `d`, in order; none when no skill has it. */
  function Members(xs: seq<Skill>, d: string): (r: seq<Skill>)
    ensures r == [] <==> forall k :: 0 <= k < |xs| ==> DomainOf(xs[k]) != d
  {
    var keep := (s: Skill) => DomainOf(s) == d;
    ListOps.FilterNone(xs, keep);
    ListOps.Filter(xs, keep)
  }

  /** The grouping `formatSkills` is meant to produce: for each distinct
      domain, in order of first appearance, the skills of that domain in
      input order. */
  function Grouping(xs: seq<Skill>): (r: seq<SkillGroup>)
    ensures |r| == |Domains(xs)|
  {
    var ds := Domains(xs);
    seq(|ds|, i requires 0 <= i < |ds| => SkillGroup(ds[i], Members(xs, ds[i])))
  }

  /** The first group of domain `d`. */
  function GroupOf(groups: seq<SkillGroup>, d: string): (r: Option<nat>)
    ensures r.Some? ==> (r.value < |groups| && groups[r.value].domain == d
      && forall j :: 0 <= j < r.value ==> groups[j].domain != d)
    ensures r.None? ==> forall j :: 0 <= j < |groups| ==> groups[j].domain != d
    decreases |groups|
  {
    if groups == [] then None
    else if groups[0].domain == d then Some(0)
    else
      var rest := GroupOf(groups[1..], d);
      assert forall j :: 1 <= j < |groups| ==> groups[j] == groups[1..][j - 1];
      if rest.None? then None else Some(rest.value + 1)
  }

  /** One step of the `reduce`: push the skill onto its domain's group,
      opening the group when the domain is new. */
  function Push(groups: seq<SkillGroup>, x: Skill): seq<SkillGroup> {
    match GroupOf(groups, DomainOf(x))
    case Some(i) => groups[i := SkillGroup(groups[i].domain, groups[i].skills + [x])]
    case None => groups + [SkillGroup(DomainOf(x), [x])]
  }

  lemma MembersAppend(xs: seq<Skill>, x: Skill, d: string)
    ensures Members(xs + [x], d) == Members(xs, d) + (if DomainOf(x) == d then [x] else [])
  {
    ListOps.FilterAppend(xs, [x], (s: Skill) => DomainOf(s) == d);
    assert [x][1..] == [];
  }

  lemma MembersOfAbsentDomain(xs: seq<Skill>, d: string)
    requires d !in Domains(xs)
    ensures Members(xs, d) == []
  {
  }

  /** Pushing a skill whose domain already has a group extends that group. */
  lemma PushExisting(xs: seq<Skill>, x: Skill, i: nat)
    requires GroupOf(Grouping(xs), DomainOf(x)) == Some(i)
    ensures Push(Grouping(xs), x) == Grouping(xs + [x])
  {
    var ys := xs + [x];
    assert ys[..|ys| - 1] == xs;
    var g := Grouping(xs);
    assert g[i].domain == Domains(xs)[i];
    assert Domains(ys) == Domains(xs);
    forall j | 0 <= j < |g| ensures Push(g, x)[j] == Grouping(ys)[j] {
      MembersAppend(xs, x, g[j].domain);
    }
  }

  /** Pushing a skill of a new domain opens a group for it at the end. */
  lemma PushNew(xs: seq<Skill>, x: Skill)
    requires GroupOf(Grouping(xs), DomainOf(x)).None?
    ensures Push(Grouping(xs), x) == Grouping(xs + [x])
  {
    var ys := xs + [x];
    assert ys[..|ys| - 1] == xs;
    var ds := Domains(xs);
    var d := DomainOf(x);
    var g := Grouping(xs);
    assert d !in ds by {
      forall j | 0 <= j < |ds| ensures ds[j] != d {
        assert g[j].domain == ds[j];
      }
    }
    assert Domains(ys) == ds + [d];
    var h := Grouping(ys);
    forall j | 0 <= j < |h| ensures Push(g, x)[j] == h[j] {
      if j < |g| {
        MembersAppend(xs, x, ds[j]);
      } else {
        MembersAppend(xs, x, d);
        MembersOfAbsentDomain(xs, d);
      }
    }
  }

  /** Pushing a skill onto the grouping of a list groups the longer list. */
  lemma PushGrouping(xs: seq<Skill>, x: Skill)
    ensures Push(Grouping(xs), x) == Grouping(xs + [x])
  {
    match GroupOf(Grouping(xs), DomainOf(x))
    case Some(i) => PushExisting(xs, x, i);
    case None => PushNew(xs, x);
  }

  /** The properties every `{}` inherits from `Object.prototype`. Looked
      up on a plain object, each gives a truthy value that is not an
      array. */
  const InheritedNames: set<string> := {
    "constructor", "hasOwnProperty", "isPrototypeOf", "propertyIsEnumerable", "toLocaleString",
    "toString", "valueOf", "__proto__", "__defineGetter__", "__defineSetter__",
    "__lookupGetter__", "__lookupSetter__"}

  const PushOnInherited := "TypeError: acc[skill.domain].push is not a function"

  /** No skill of the list has a domain named after an inherited property. */
  predicate OwnDomains(xs: seq<Skill>)
  {
    forall k :: 0 <= k < |xs| ==> DomainOf(xs[k]) !in InheritedNames
  }

  lemma OwnDomainsPrefix(xs: seq<Skill>, n: nat)
    requires n <= |xs|
    ensures OwnDomains(xs) ==> OwnDomains(xs[..n])
  {
    if OwnDomains(xs) {
      assert forall k :: 0 <= k < n ==> xs[..n][k] == xs[k];
    }
  }

  lemma OwnDomainsAppend(xs: seq<Skill>, x: Skill)
    ensures OwnDomains(xs + [x]) <==> OwnDomains(xs) && DomainOf(x) !in InheritedNames
  {
    if OwnDomains(xs + [x]) {
      assert forall k :: 0 <= k < |xs| ==> xs[k] == (xs + [x])[k];
      assert (xs + [x])[|xs|] == x;
    }
  }

  /** `formatSkills`' `reduce` over the included skills. A domain named
      after an inherited property finds `acc[domain]` already truthy, so no
      array is made and the `push` throws; otherwise the accumulator ends
      as the grouping of the included skills. */
  method GroupSkills(skills: seq<Skill>) returns (groups: Result<seq<SkillGroup>, string>)
    ensures groups.Success? <==> OwnDomains(Included(skills))
    ensures groups.Success? ==> groups.value == Grouping(Included(skills))
    ensures groups.Failure? ==> groups.error == PushOnInherited
  {
    var shown := Included(skills);
    var acc := [];
    var i := 0;
    while i < |shown|
      invariant 0 <= i <= |shown|
      invariant acc == Grouping(shown[..i])
      invariant OwnDomains(shown[..i])
    {
      assert shown[..i + 1] == shown[..i] + [shown[i]];
      OwnDomainsAppend(shown[..i], shown[i]);
      if DomainOf(shown[i]) in InheritedNames {
        assert shown == shown[..i + 1] + shown[i + 1..];
        OwnDomainsPrefix(shown, i + 1);
        return Failure(PushOnInherited);
      }
      PushGrouping(shown[..i], shown[i]);
      acc := Push(acc, shown[i]);
      i := i + 1;
    }
    assert shown[..i] == shown;
    groups := Success(acc);
  }

  /** Each skill of the list is in exactly the group of its domain, there is
      such a group, and groups hold only skills of the list. */
  lemma GroupingPartition(xs: seq<Skill>)
    ensures forall i, j :: 0 <= i < j < |Grouping(xs)| ==> Grouping(xs)[i].domain != Grouping(xs)[j].domain
    ensures forall i, x :: 0 <= i < |Grouping(xs)| && x in xs ==>
      (x in Grouping(xs)[i].skills <==> Grouping(xs)[i].domain == DomainOf(x))
    ensures forall x :: x in xs ==> exists i :: 0 <= i < |Grouping(xs)| && Grouping(xs)[i].domain == DomainOf(x)
    ensures forall i, x :: 0 <= i < |Grouping(xs)| && x in Grouping(xs)[i].skills ==> x in xs
  {
    var g := Grouping(xs);
    var ds := Domains(xs);
    forall x | x in xs ensures exists i :: 0 <= i < |g| && g[i].domain == DomainOf(x) {
      var k :| 0 <= k < |xs| && xs[k] == x;
      assert DomainOf(x) in ds;
      var i :| 0 <= i < |ds| && ds[i] == DomainOf(x);
      assert g[i].domain == DomainOf(x);
    }
    forall i, x | 0 <= i < |g| && x in xs ensures x in g[i].skills <==> g[i].domain == DomainOf(x) {
      var k :| 0 <= k < |xs| && xs[k] == x;
      if x in g[i].skills {
        var m :| 0 <= m < |g[i].skills| && g[i].skills[m] == x;
      }
    }
    forall i, x | 0 <= i < |g| && x in g[i].skills ensures x in xs {
      var m :| 0 <= m < |g[i].skills| && g[i].skills[m] == x;
    }
  }

  /** The total size of the groups. */
  function Size(groups: seq<SkillGroup>): nat {
    if groups == [] then 0 else |groups[0].skills| + Size(groups[1..])
  }

  lemma {:induction false} SizeUpdate(groups: seq<SkillGroup>, i: nat, g: SkillGroup)
    requires i < |groups|
    ensures Size(groups[i := g]) + |groups[i].skills| == Size(groups) + |g.skills|
    decreases |groups|
  {
    if i > 0 {
      assert groups[i := g][1..] == groups[1..][i - 1 := g];
      SizeUpdate(groups[1..], i - 1, g);
    } else {
      assert groups[i := g][1..] == groups[1..];
    }
  }

  lemma {:induction false} SizeAppend(groups: seq<SkillGroup>, g: SkillGroup)
    ensures Size(groups + [g]) == Size(groups) + |g.skills|
    decreases |groups|
  {
    if groups == [] {
      assert [g][1..] == [];
    } else {
      assert (groups + [g])[1..] == groups[1..] + [g];
      SizeAppend(groups[1..], g);
    }
  }

  /** Every skill is counted once: the groups together are as long as the
      list. */
  lemma {:induction false} GroupingSize(xs: seq<Skill>)
    ensures Size(Grouping(xs)) == |xs|
    decreases |xs|
  {
    if xs != [] {
      var init := xs[..|xs| - 1];
      var x := xs[|xs| - 1];
      GroupingSize(init);
      PushGrouping(init, x);
      assert init + [x] == xs;
      var g := Grouping(init);
      match GroupOf(g, DomainOf(x))
      case Some(i) =>
        SizeUpdate(g, i, SkillGroup(g[i].domain, g[i].skills + [x]));
      case None =>
        SizeAppend(g, SkillGroup(DomainOf(x), [x]));
    }
  }

  /** A skill that is not included appears in no group. */
  lemma ExcludedNowhere(skills: seq<Skill>, x: Skill)
    requires !x.includeInResume
    ensures forall i :: 0 <= i < |Grouping(Included(skills))| ==> x !in Grouping(Included(skills))[i].skills
  {
    GroupingPartition(Included(skills));
  }

  const DomainIcons: map<string, string> := map[
    "Web Development" := "faLaptopCode",
    "Programming Languages" := "faCode",
    "Data Analysis" := "faChartLine",
    "Database Management" := "faDatabase",
    "Data Science" := "faBrain",
    "Machine Learning" := "faRobot",
    "Data Visualization" := "faChartPie",
    "Quantitative Analysis" := "faCalculator"]

  const SkillIcons: map<string, string> := map[
    "React" := "faReact", "Node.js" := "faNodeJs", "HTML" := "faHtml5", "CSS" := "faCss3Alt",
    "Express" := "faServer", "Flask" := "faFlask",
    "Python" := "faPython", "JavaScript" := "faCode", "SQL" := "faDatabase", "R" := "faSuperscript",
    "TensorFlow" := "faBrain", "Keras" := "faBrain", "PyTorch" := "faBrain", "NLTK" := "faLanguage",
    "Pandas" := "faDatabase", "NumPy" := "faCalculator",
    "Docker" := "faDocker", "Git" := "faCode"]

  /** What `map[key]` gives on an icon map: a mapped icon, an inherited
      property of `Object.prototype`, or `undefined`. */
  datatype IconValue = Undefined | FaIcon(icon: string) | InheritedMember(name: string)

  function Lookup(icons: map<string, string>, key: string): (r: IconValue)
    ensures key in icons ==> r == FaIcon(icons[key])
    ensures key !in icons ==> (r.InheritedMember? <==> key in InheritedNames) && (r.InheritedMember? ==> r.name == key)
    ensures r.Undefined? <==> key !in icons && key !in InheritedNames
  {
    if key in icons then FaIcon(icons[key])
    else if key in InheritedNames then InheritedMember(key)
    else Undefined
  }

  datatype RelatedSkill = RelatedSkill(icon: IconValue, name: string)
  datatype SkillCircle = SkillCircle(icon: IconValue, mainSkill: string, relatedSkills: seq<RelatedSkill>)

  /** A group's circle: the domain's icon, `faCode` when the lookup is
      `undefined`, and each skill with whatever its lookup gives. */
  function Circle(g: SkillGroup): (r: SkillCircle)
    ensures r.mainSkill == g.domain && |r.relatedSkills| == |g.skills|
    ensures g.domain in DomainIcons ==> r.icon == FaIcon(DomainIcons[g.domain])
    ensures g.domain !in DomainIcons && g.domain !in InheritedNames ==> r.icon == FaIcon("faCode")
    ensures g.domain !in DomainIcons && g.domain in InheritedNames ==> r.icon == InheritedMember(g.domain)
    ensures forall k :: 0 <= k < |g.skills| ==> (r.relatedSkills[k].name == g.skills[k].details.name
      && (r.relatedSkills[k].icon.Undefined? <==> g.skills[k].details.name !in SkillIcons && g.skills[k].details.name !in InheritedNames)
      && (r.relatedSkills[k].icon.InheritedMember? <==> g.skills[k].details.name !in SkillIcons && g.skills[k].details.name in InheritedNames))
  {
    var domainIcon := Lookup(DomainIcons, g.domain);
    SkillCircle(
      if domainIcon.Undefined? then FaIcon("faCode") else domainIcon,
      g.domain,
      seq(|g.skills|, k requires 0 <= k < |g.skills| =>
        var name := g.skills[k].details.name;
        RelatedSkill(Lookup(SkillIcons, name), name)))
  }

  /** `formatSkills`: one circle per group, or the `reduce`'s error. */
  method FormatSkills(skills: seq<Skill>) returns (circles: Result<seq<SkillCircle>, string>)
    ensures circles.Success? <==> OwnDomains(Included(skills))
    ensures circles.Success? ==> |circles.value| == |Grouping(Included(skills))|
    ensures circles.Success? ==> forall i :: 0 <= i < |circles.value| ==> circles.value[i] == Circle(Grouping(Included(skills))[i])
    ensures circles.Failure? ==> circles.error == PushOnInherited
  {
    var groups := GroupSkills(skills);
    if groups.Failure? {
      return Failure(groups.error);
    }
    var gs := groups.value;
    circles := Success(seq(|gs|, i requires 0 <= i < |gs| => Circle(gs[i])));
  }

  /** A skill named `constructor` shows the inherited `Object` function as
      its icon, not `undefined`; one whose domain is `constructor` makes
      the whole section fail. */
  lemma InheritedSkillName(g: SkillGroup, k: nat)
    requires k < |g.skills| && g.skills[k].details.name == "constructor"
    ensures Circle(g).relatedSkills[k].icon == InheritedMember("constructor")
  {
    assert "constructor" !in SkillIcons;
  }

  /** `handleSkillClick`: clicking the open circle closes it, clicking any
      other opens that one. */
  function Clicked(active: Option<int>, index: int): (r: Option<int>)
    ensures r == Some(index) <==> active != Some(index)
    ensures r.Some? ==> r == Some(index)
  {
    if active == Some(index) then None else Some(index)
  }

  /** Two clicks on the same circle restore the state when it started
      closed or open on that circle. */
  lemma ClickTwice(active: Option<int>, index: int)
    requires active.None? || active == Some(index)
    ensures Clicked(Clicked(active, index), index) == active
  {
  }

  class SkillsSection {
    var activeSkill: Option<int>

    constructor()
      ensures activeSkill.None?
    {
      activeSkill := None;
    }

    method HandleSkillClick(index: int)
      modifies this
      ensures activeSkill == Clicked(old(activeSkill), index)
    {
      activeSkill := if activeSkill == Some(index) then None else Some(index);
    }
  }
}
