/** The older jsPDF export (components/PDFHTML.tsx, `generatePDF`): the
    cursor starts 50 points from the top; headers, sub-headers and bullet
    lists are drawn where the cursor stands and move it down; after each
    entry `addPageIfNeeded` opens a new page once the cursor has passed 750.
    Nothing is skipped: the entry that crosses the line is drawn in full on
    the old page. Line wrapping (`splitTextToSize`) is a parameter. */
module LegacyPdf {

  import opened Wrappers
  import opened Text
  import opened ResumeData
  import ResumePdf
  import ListOps

  type Doc = ResumePdf.Doc
  type Wrap = ResumePdf.Wrap

  const PageWidth := ResumePdf.PageWidth
  const MarginTop := 50
  const BreakBelow := 750
  const SectionSpacing := 30
  const BulletWidth := 170

  /** `addPageIfNeeded()`: a new page when the cursor is past 750. */
  function AddPageIfNeeded(d: Doc): (r: Doc)
    ensures r.texts == d.texts && r.y <= BreakBelow
    ensures d.y > BreakBelow <==> r != d
    ensures d.y > BreakBelow ==> r.y == MarginTop && r.page == d.page + 1
  {
    if d.y > BreakBelow then ResumePdf.Doc(MarginTop, d.page + 1, d.texts) else d
  }

  /** `drawHeader(text)`: the upper-case title, then 20 points down. */
  function DrawHeader(d: Doc, title: string): Doc {
    ResumePdf.Down(ResumePdf.Put(d, 40, Upper(title)), 20)
  }

  /** `drawSubHeader(text, details)`: the text on the left, the details (when
      not empty) on the right, then 15 points down. */
  function DrawSubHeader(d: Doc, text: string, details: string): Doc {
    var d1 := ResumePdf.Put(d, 40, text);
    var d2 := if details != [] then ResumePdf.Put(d1, PageWidth - 200, details) else d1;
    ResumePdf.Down(d2, 15)
  }

  /** The wrapped lines of one bullet, 12 points apart from `y` down. */
  function PlaceLines(page: nat, y: int, lines: seq<string>): (r: seq<ResumePdf.Placed>)
    ensures |r| == |lines|
  {
    seq(|lines|, k requires 0 <= k < |lines| => ResumePdf.Placed(page, 60, y + 12 * k, lines[k]))
  }

  /** The text of one bullet before wrapping. */
  function Bullet(item: string): string {
    "• " + item
  }

  /** One item of `drawBulletList`: its wrapped lines, then 12 points per line. */
  function BulletItem(d: Doc, item: string, wrap: Wrap): Doc {
    var lines := wrap(Bullet(item), BulletWidth);
    ResumePdf.Doc(d.y + 12 * |lines|, d.page, d.texts + PlaceLines(d.page, d.y, lines))
  }

  /** `drawBulletList(items)`: every item, then 10 points of space. */
  function DrawBulletList(d: Doc, items: seq<string>, wrap: Wrap): Doc {
    ResumePdf.Down(ResumePdf.Fold(d, items, (d: Doc, item: string) => BulletItem(d, item, wrap)), 10)
  }

  /** The number of lines the items wrap into. */
  function LineCount(items: seq<string>, wrap: Wrap): (n: nat)
    decreases |items|
  {
    if items == [] then 0 else LineCount(items[..|items| - 1], wrap) + |wrap(Bullet(items[|items| - 1]), BulletWidth)|
  }

  /** A bullet list moves the cursor 12 points per wrapped line plus 10,
      stays on its page, and adds exactly one text per wrapped line, keeping
      what was drawn before. */
  lemma {:induction false} BulletListAdvance(d: Doc, items: seq<string>, wrap: Wrap)
    ensures var r := DrawBulletList(d, items, wrap);
      r.y == d.y + 12 * LineCount(items, wrap) + 10 && r.page == d.page
      && |r.texts| == |d.texts| + LineCount(items, wrap) && r.texts[..|d.texts|] == d.texts
    decreases |items|
  {
    var step := (d: Doc, item: string) => BulletItem(d, item, wrap);
    if items != [] {
      var init := items[..|items| - 1];
      BulletListAdvance(d, init, wrap);
      var m := ResumePdf.Fold(d, init, step);
      assert ResumePdf.Fold(d, items, step) == BulletItem(m, items[|items| - 1], wrap);
      assert BulletItem(m, items[|items| - 1], wrap).texts[..|m.texts|] == m.texts;
    }
  }

  /** `value || "N/A"`. */
  function OrNA(value: string): (r: string)
    ensures r != []
    ensures value != [] ==> r == value
  {
    if value != [] then value else "N/A"
  }

  /** The contact line: phone, e-mail and LinkedIn, each `N/A` when missing
      or empty; the phone and LinkedIn come from the first contact record. */
  function ContactText(contacts: seq<ResumePdf.ContactDetails>, email: string): string {
    var phone := if contacts == [] then "" else contacts[0].phoneNumber;
    var linkedIn := if contacts == [] then "" else contacts[0].linkedIn;
    Join(["Phone: " + OrNA(phone), "Email: " + OrNA(email), "LinkedIn: " + OrNA(linkedIn)], " | ")
  }

  /** Missing contact fields read `N/A`; the three labelled fields always
      appear, in the order phone, e-mail, LinkedIn. */
  lemma ContactTextCases(contacts: seq<ResumePdf.ContactDetails>, email: string)
    ensures contacts == [] ==>
      ContactText(contacts, email) == "Phone: " + "N/A" + " | " + "Email: " + OrNA(email) + " | " + "LinkedIn: " + "N/A"
    ensures contacts != [] ==> (ContactText(contacts, email)
      == "Phone: " + OrNA(contacts[0].phoneNumber) + " | " + "Email: " + OrNA(email) + " | " + "LinkedIn: " + OrNA(contacts[0].linkedIn))
  {
    var phone := if contacts == [] then "" else contacts[0].phoneNumber;
    var linkedIn := if contacts == [] then "" else contacts[0].linkedIn;
    JoinThree("Phone: " + OrNA(phone), "Email: " + OrNA(email), "LinkedIn: " + OrNA(linkedIn), " | ");
  }

  /** The name, centred, and the contact line under it. */
  function Title(d: Doc, user: ResumePdf.UserDetails, contacts: seq<ResumePdf.ContactDetails>): Doc {
    var d1 := ResumePdf.Down(ResumePdf.Put(d, PageWidth / 2, user.firstName + " " + user.lastName), 20);
    ResumePdf.Down(ResumePdf.Put(d1, PageWidth / 2, ContactText(contacts, user.email)), SectionSpacing)
  }

  function EducationStep(d: Doc, e: Education, wrap: Wrap): Doc {
    var d1 := DrawSubHeader(d, e.details.university, DateText(e.details.isPresent, e.details.endDate));
    AddPageIfNeeded(DrawBulletList(d1, [e.details.degree + ", " + e.details.major + " - GPA: " + e.details.cgpa], wrap))
  }

  function ExperienceStep(d: Doc, e: Experience, wrap: Wrap): Doc {
    var d1 := DrawSubHeader(d, e.details.jobTitle + " at " + e.details.company, DateText(e.details.isPresent, e.details.endDate));
    AddPageIfNeeded(DrawBulletList(d1, Split(e.details.description, '\n'), wrap))
  }

  function ProjectStep(d: Doc, p: Project, wrap: Wrap): Doc {
    var d1 := DrawSubHeader(d, p.details.name, DateText(p.details.isPresent, p.details.endDate));
    AddPageIfNeeded(DrawBulletList(d1, Split(p.details.description, '\n'), wrap))
  }

  /** A fixed skill group: its title and its skills. */
  datatype SkillGroup = SkillGroup(title: string, skills: seq<string>)

  /** The skill groups every export prints, whatever the user's skills. */
  const FixedSkills: seq<SkillGroup> := [
    SkillGroup("Web Development", ["React", "Node.js", "Express", "HTML", "CSS", "Flask", "MongoDB"]),
    SkillGroup("Programming Languages", ["Python", "R Programming", "SQL", "JavaScript"]),
    SkillGroup("Data Analysis", ["Pandas", "NumPy"]),
    SkillGroup("Data Science", ["TensorFlow", "Keras", "OpenCV", "NLTK", "PyTorch"]),
    SkillGroup("Machine Learning", ["Regression", "Classification", "Clustering", "Decision Trees", "Random Forest", "SVM"]),
    SkillGroup("Data Visualization", ["Mat plotlib", "Seaborn", "Tableau", "Plotly", "Power BI"]),
    SkillGroup("Quantitative Analysis", ["SPSS", "Factor Analysis", "Regression Modeling", "Predictive Analytics"]),
    SkillGroup("Microsoft Office Suite Skills", ["Microsoft Excel", "Microsoft Word", "Microsoft PowerPoint", "Microsoft Outlook"])]

  function SkillGroupLine(g: SkillGroup): string {
    g.title + ": " + Join(g.skills, ", ")
  }

  function SkillGroupStep(d: Doc, g: SkillGroup): Doc {
    AddPageIfNeeded(ResumePdf.Down(DrawSubHeader(d, SkillGroupLine(g), ""), 15))
  }

  /** Each section: its header, always, then one step per included entry. */
  function EducationSection(d: Doc, educations: seq<Education>, wrap: Wrap): Doc {
    ResumePdf.Fold(DrawHeader(d, "Education"), Included(educations), (d: Doc, e: Education) => EducationStep(d, e, wrap))
  }

  function ExperienceSection(d: Doc, experiences: seq<Experience>, wrap: Wrap): Doc {
    ResumePdf.Fold(DrawHeader(d, "Experience"), Included(experiences), (d: Doc, e: Experience) => ExperienceStep(d, e, wrap))
  }

  /** The skills section drawn from the given groups; the export always
      passes `FixedSkills`. */
  function SkillsSection(d: Doc, groups: seq<SkillGroup>): Doc {
    ResumePdf.Fold(DrawHeader(d, "Skills"), groups, SkillGroupStep)
  }

  function ProjectsSection(d: Doc, projects: seq<Project>, wrap: Wrap): Doc {
    ResumePdf.Fold(DrawHeader(d, "Projects"), Included(projects), (d: Doc, p: Project) => ProjectStep(d, p, wrap))
  }

  /** The whole document. The user's own skills take no part in it. */
  function Layout(user: ResumePdf.UserDetails, contacts: seq<ResumePdf.ContactDetails>, educations: seq<Education>,
                  experiences: seq<Experience>, projects: seq<Project>, wrap: Wrap): Doc
  {
    var d := Title(ResumePdf.Doc(MarginTop, 0, []), user, contacts);
    ProjectsSection(SkillsSection(ExperienceSection(EducationSection(d, educations, wrap), experiences, wrap), FixedSkills), projects, wrap)
  }

  /** `${username || "Resume"}.pdf`. */
  function FileName(username: string): (r: string)
    ensures username != [] ==> r == username + ".pdf"
    ensures username == [] ==> r == "Resume.pdf"
  {
    (if username != [] then username else "Resume") + ".pdf"
  }

  /** Every entry is drawn in full wherever the cursor stands (its sub-header
      is always the first new text, on the current page), and afterwards the
      cursor is back above the break line. */
  lemma EntryNeverSkipped(d: Doc, e: Experience, wrap: Wrap)
    ensures var r := ExperienceStep(d, e, wrap);
      |r.texts| > |d.texts| && r.texts[..|d.texts|] == d.texts
      && r.texts[|d.texts|] == ResumePdf.Placed(d.page, 40, d.y, e.details.jobTitle + " at " + e.details.company)
      && r.y <= BreakBelow
  {
    var d1 := DrawSubHeader(d, e.details.jobTitle + " at " + e.details.company, DateText(e.details.isPresent, e.details.endDate));
    BulletListAdvance(d1, Split(e.details.description, '\n'), wrap);
    var d2 := DrawBulletList(d1, Split(e.details.description, '\n'), wrap);
    assert d2.texts[..|d1.texts|] == d1.texts;
    assert d1.texts[..|d.texts|] == d.texts;
    assert d2.texts[..|d.texts|] == d1.texts[..|d.texts|];
  }

  /** A section's entries left off the resume take no part: the section is
      the same as the one drawn from the included entries alone, and with
      none included only the header is drawn. */
  lemma ExcludedEntriesIgnored(d: Doc, educations: seq<Education>, wrap: Wrap)
    ensures EducationSection(d, educations, wrap) == EducationSection(d, Included(educations), wrap)
    ensures (forall k :: 0 <= k < |educations| ==> !educations[k].includeInResume) ==>
      EducationSection(d, educations, wrap) == DrawHeader(d, "Education")
  {
    ListOps.FilterIdempotent(educations, (e: Education) => e.includeInResume);
    if forall k :: 0 <= k < |educations| ==> !educations[k].includeInResume {
      NothingIncluded(educations);
    }
  }

  /** The skills section is the header, then one line per group in the
      listed order; since the export passes the fixed groups, it is the same
      for every user. */
  lemma SkillsFixed(d: Doc, groups: seq<SkillGroup>)
    ensures var r := SkillsSection(d, groups);
      |r.texts| == |d.texts| + 1 + |groups| && r.texts[..|d.texts|] == d.texts
      && r.texts[|d.texts|] == ResumePdf.Placed(d.page, 40, d.y, Upper("Skills"))
      && forall k :: 0 <= k < |groups| ==> r.texts[|d.texts| + 1 + k].text == SkillGroupLine(groups[k])
  {
    var h := DrawHeader(d, "Skills");
    GroupsAddOneEach(h, groups);
    assert h.texts[..|d.texts|] == d.texts;
    assert ResumePdf.Fold(h, groups, SkillGroupStep).texts[..|d.texts|] == h.texts[..|d.texts|];
  }

  /** Each skill group adds exactly one text, in group order. */
  lemma {:induction false} GroupsAddOneEach(d: Doc, groups: seq<SkillGroup>)
    ensures var r := ResumePdf.Fold(d, groups, SkillGroupStep);
      |r.texts| == |d.texts| + |groups| && r.texts[..|d.texts|] == d.texts
      && forall k :: 0 <= k < |groups| ==> r.texts[|d.texts| + k].text == SkillGroupLine(groups[k])
    decreases |groups|
  {
    if groups != [] {
      var init := groups[..|groups| - 1];
      GroupsAddOneEach(d, init);
      var m := ResumePdf.Fold(d, init, SkillGroupStep);
      var r := SkillGroupStep(m, groups[|groups| - 1]);
      assert r.texts == m.texts + [ResumePdf.Placed(m.page, 40, m.y, SkillGroupLine(groups[|groups| - 1]))];
      assert r.texts[..|d.texts|] == m.texts[..|d.texts|];
      forall k | 0 <= k < |groups| ensures r.texts[|d.texts| + k].text == SkillGroupLine(groups[k]) {
        if k < |init| {
          assert r.texts[|d.texts| + k] == m.texts[|d.texts| + k];
        }
      }
    }
  }

  /** `generatePDF` with its mutable cursor, page and drawn texts. */
  class LegacyPdfWriter {
    var cursorY: int
    var page: nat
    var texts: seq<ResumePdf.Placed>

    function State(): Doc
      reads this
    {
      ResumePdf.Doc(cursorY, page, texts)
    }

    constructor()
      ensures State() == ResumePdf.Doc(MarginTop, 0, [])
    {
      cursorY := MarginTop;
      page := 0;
      texts := [];
    }

    method AddPage()
      modifies this
      ensures State() == AddPageIfNeeded(old(State()))
    {
      if cursorY > BreakBelow {
        page := page + 1;
        cursorY := MarginTop;
      }
    }

    method Text(x: int, y: int, text: string)
      modifies this
      ensures State() == old(State()).(texts := old(texts) + [ResumePdf.Placed(page, x, y, text)])
    {
      texts := texts + [ResumePdf.Placed(page, x, y, text)];
    }

    method Header(title: string)
      modifies this
      ensures State() == DrawHeader(old(State()), title)
    {
      Text(40, cursorY, Upper(title));
      cursorY := cursorY + 20;
    }

    method SubHeader(text: string, details: string)
      modifies this
      ensures State() == DrawSubHeader(old(State()), text, details)
    {
      Text(40, cursorY, text);
      if details != [] {
        Text(PageWidth - 200, cursorY, details);
      }
      cursorY := cursorY + 15;
    }

    method BulletList(items: seq<string>, wrap: Wrap)
      modifies this
      ensures State() == DrawBulletList(old(State()), items, wrap)
    {
      var step := (d: Doc, item: string) => BulletItem(d, item, wrap);
      var i := 0;
      while i < |items|
        invariant 0 <= i <= |items|
        invariant State() == ResumePdf.Fold(old(State()), items[..i], step)
      {
        assert items[..i + 1][..i] == items[..i];
        var lines := wrap(Bullet(items[i]), BulletWidth);
        var start, y0, p0 := texts, cursorY, page;
        var j := 0;
        while j < |lines|
          invariant 0 <= j <= |lines|
          invariant cursorY == y0 && page == p0
          invariant texts == start + PlaceLines(page, cursorY, lines[..j])
        {
          assert PlaceLines(page, cursorY, lines[..j + 1])
            == PlaceLines(page, cursorY, lines[..j]) + [ResumePdf.Placed(page, 60, cursorY + 12 * j, lines[j])];
          Text(60, cursorY + 12 * j, lines[j]);
          j := j + 1;
        }
        assert lines[..j] == lines;
        cursorY := cursorY + 12 * |lines|;
        i := i + 1;
      }
      assert items[..i] == items;
      cursorY := cursorY + 10;
    }

    /** One education entry: its sub-header, one bullet, the page check. */
    method EducationEntry(entry: Education, wrap: Wrap)
      modifies this
      ensures State() == EducationStep(old(State()), entry, wrap)
    {
      var e := entry.details;
      SubHeader(e.university, DateText(e.isPresent, e.endDate));
      BulletList([e.degree + ", " + e.major + " - GPA: " + e.cgpa], wrap);
      AddPage();
    }

    method Education(educations: seq<Education>, wrap: Wrap)
      modifies this
      ensures State() == EducationSection(old(State()), educations, wrap)
    {
      Header("Education");
      var included := Included(educations);
      var step := (d: Doc, e: Education) => EducationStep(d, e, wrap);
      ghost var start := State();
      var i := 0;
      while i < |included|
        invariant 0 <= i <= |included|
        invariant State() == ResumePdf.Fold(start, included[..i], step)
      {
        ghost var before := State();
        EducationEntry(included[i], wrap);
        assert State() == step(before, included[i]);
        ResumePdf.FoldStep(start, included, i, step);
        i := i + 1;
      }
      assert included[..i] == included;
    }

    /** One experience entry: its sub-header, one bullet per line, the page check. */
    method ExperienceEntry(entry: Experience, wrap: Wrap)
      modifies this
      ensures State() == ExperienceStep(old(State()), entry, wrap)
    {
      var e := entry.details;
      SubHeader(e.jobTitle + " at " + e.company, DateText(e.isPresent, e.endDate));
      BulletList(Split(e.description, '\n'), wrap);
      AddPage();
    }

    method Experience(experiences: seq<Experience>, wrap: Wrap)
      modifies this
      ensures State() == ExperienceSection(old(State()), experiences, wrap)
    {
      Header("Experience");
      var included := Included(experiences);
      var step := (d: Doc, e: Experience) => ExperienceStep(d, e, wrap);
      ghost var start := State();
      var i := 0;
      while i < |included|
        invariant 0 <= i <= |included|
        invariant State() == ResumePdf.Fold(start, included[..i], step)
      {
        ghost var before := State();
        ExperienceEntry(included[i], wrap);
        assert State() == step(before, included[i]);
        ResumePdf.FoldStep(start, included, i, step);
        i := i + 1;
      }
      assert included[..i] == included;
    }

    method Skills(groups: seq<SkillGroup>)
      modifies this
      ensures State() == SkillsSection(old(State()), groups)
    {
      Header("Skills");
      ghost var start := State();
      var i := 0;
      while i < |groups|
        invariant 0 <= i <= |groups|
        invariant State() == ResumePdf.Fold(start, groups[..i], SkillGroupStep)
      {
        assert groups[..i + 1][..i] == groups[..i];
        SubHeader(SkillGroupLine(groups[i]), "");
        cursorY := cursorY + 15;
        AddPage();
        i := i + 1;
      }
      assert groups[..i] == groups;
    }

    /** One project entry: its sub-header, one bullet per line, the page check. */
    method ProjectEntry(entry: Project, wrap: Wrap)
      modifies this
      ensures State() == ProjectStep(old(State()), entry, wrap)
    {
      var p := entry.details;
      SubHeader(p.name, DateText(p.isPresent, p.endDate));
      BulletList(Split(p.description, '\n'), wrap);
      AddPage();
    }

    method Projects(projects: seq<Project>, wrap: Wrap)
      modifies this
      ensures State() == ProjectsSection(old(State()), projects, wrap)
    {
      Header("Projects");
      var included := Included(projects);
      var step := (d: Doc, p: Project) => ProjectStep(d, p, wrap);
      ghost var start := State();
      var i := 0;
      while i < |included|
        invariant 0 <= i <= |included|
        invariant State() == ResumePdf.Fold(start, included[..i], step)
      {
        ghost var before := State();
        ProjectEntry(included[i], wrap);
        assert State() == step(before, included[i]);
        ResumePdf.FoldStep(start, included, i, step);
        i := i + 1;
      }
      assert included[..i] == included;
    }

    /** `generatePDF`: draws the document and returns the file name. */
    method Generate(user: ResumePdf.UserDetails, contacts: seq<ResumePdf.ContactDetails>, educations: seq<Education>,
                    experiences: seq<Experience>, projects: seq<Project>, wrap: Wrap) returns (fileName: string)
      requires State() == ResumePdf.Doc(MarginTop, 0, [])
      modifies this
      ensures State() == Layout(user, contacts, educations, experiences, projects, wrap)
      ensures fileName == FileName(user.username)
    {
      Text(PageWidth / 2, cursorY, user.firstName + " " + user.lastName);
      cursorY := cursorY + 20;
      Text(PageWidth / 2, cursorY, ContactText(contacts, user.email));
      cursorY := cursorY + SectionSpacing;
      Education(educations, wrap);
      Experience(experiences, wrap);
      Skills(FixedSkills);
      Projects(projects, wrap);
      fileName := FileName(user.username);
    }
  }
}
