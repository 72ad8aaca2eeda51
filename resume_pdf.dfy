/** The jsPDF export of the resume page (resume/PDFHTML.tsx, `generatePDF`):
    a cursor moves down an A4 page in points; before a block is drawn the
    page-break check `addPageIfNeeded(h)` opens a new page when fewer than
    `h` points remain above the bottom margin, and the block whose check
    opened the page is then skipped. Line wrapping (`splitTextToSize`) is a
    parameter. The pure layer (`Doc` and the step functions) says what each
    drawing step does; the class `PdfWriter` runs the same steps in loops. */
module ResumePdf {

  import opened Wrappers
  import opened Text
  import opened ResumeData
  import ListOps

  /** A4 in points, rounded to integers (595.28 by 841.89). */
  const PageWidth := 595
  const PageHeight := 842
  const Margin := 40

  /** The lowest cursor position a block of height `h` may start at is
      `Bottom - h`. */
  const Bottom := PageHeight - Margin

  /** One `doc.text` call: the page it lands on, its position, its text. */
  datatype Placed = Placed(page: nat, x: int, y: int, text: string)

  /** The drawing state: the cursor, the current page (0 is the first) and
      the text drawn so far. */
  datatype Doc = Doc(y: int, page: nat, texts: seq<Placed>)

  /** `splitTextToSize(text, maxWidth)`. */
  type Wrap = (string, int) -> seq<string>

  datatype UserDetails = UserDetails(firstName: string, lastName: string, email: string, username: string)
  datatype ContactDetails = ContactDetails(phoneNumber: string, linkedIn: string)

  predicate Fits(y: int, height: int) {
    y + height <= Bottom
  }

  /** `addPageIfNeeded(height)` on the pure state. */
  function PageBreak(d: Doc, height: int): (r: Doc)
    ensures r.texts == d.texts
    ensures Fits(d.y, height) ==> r == d
    ensures !Fits(d.y, height) ==> r.y == Margin && r.page == d.page + 1
  {
    if Fits(d.y, height) then d else Doc(Margin, d.page + 1, d.texts)
  }

  function Put(d: Doc, x: int, text: string): Doc {
    d.(texts := d.texts + [Placed(d.page, x, d.y, text)])
  }

  function Down(d: Doc, dy: int): Doc {
    d.(y := d.y + dy)
  }

  /** Runs `step` on each item in order. */
  function Fold<T>(d: Doc, items: seq<T>, step: (Doc, T) -> Doc): Doc
    decreases |items|
  {
    if items == [] then d else step(Fold(d, items[..|items| - 1], step), items[|items| - 1])
  }

  /** One more item folds one more step. */
  lemma FoldStep<T>(d: Doc, items: seq<T>, i: nat, step: (Doc, T) -> Doc)
    requires i < |items|
    ensures Fold(d, items[..i + 1], step) == step(Fold(d, items[..i], step), items[i])
  {
    assert items[..i + 1][..i] == items[..i];
  }

  /** `[phone, email, linkedIn].filter(Boolean)`: the contact fields that are
      present and not empty, in that order; the phone and LinkedIn come from
      the first contact record when there is one. */
  function ContactFields(contacts: seq<ContactDetails>, email: string): (r: seq<string>)
    ensures forall k :: 0 <= k < |r| ==> r[k] != []
    ensures |r| <= 3
  {
    var all := if contacts == [] then [email] else [contacts[0].phoneNumber, email, contacts[0].linkedIn];
    ListOps.Filter(all, (f: string) => f != [])
  }

  /** The contact line under the name. */
  function ContactLine(contacts: seq<ContactDetails>, email: string): string {
    Join(ContactFields(contacts, email), " | ")
  }

  /** The contact line keeps the order phone, email, LinkedIn and drops each
      missing or empty field. */
  lemma ContactLineCases(contacts: seq<ContactDetails>, email: string)
    ensures contacts == [] ==> ContactLine(contacts, email) == email
    ensures contacts != [] && contacts[0].phoneNumber != [] && email != [] && contacts[0].linkedIn != [] ==>
      ContactLine(contacts, email) == contacts[0].phoneNumber + " | " + email + " | " + contacts[0].linkedIn
    ensures contacts != [] && contacts[0].phoneNumber == [] && contacts[0].linkedIn == [] ==>
      ContactLine(contacts, email) == email
    ensures contacts != [] && contacts[0].phoneNumber != [] && email == [] && contacts[0].linkedIn != [] ==>
      ContactLine(contacts, email) == contacts[0].phoneNumber + " | " + contacts[0].linkedIn
  {
    if contacts == [] {
      var keep := (f: string) => f != [];
      if email == [] {
        assert ListOps.Filter([email], keep) == ListOps.Filter([], keep);
      } else {
        assert ListOps.Filter([email], keep) == [email] + ListOps.Filter([], keep);
      }
    } else {
      var p, l := contacts[0].phoneNumber, contacts[0].linkedIn;
      RecordFields(contacts, email);
      if p != [] && email != [] && l != [] {
        assert ContactFields(contacts, email) == [p, email, l];
        JoinThree(p, email, l, " | ");
      } else if p == [] && l == [] {
        assert ContactFields(contacts, email) == if email != [] then [email] else [];
      } else if p != [] && email == [] && l != [] {
        assert ContactFields(contacts, email) == [p, l];
        assert [p, l][1..] == [l];
        assert Join([p, l], " | ") == p + " | " + Join([l], " | ");
      }
    }
  }

  /** With a contact record, the fields kept from `[phone, email, linkedIn]`. */
  lemma RecordFields(contacts: seq<ContactDetails>, email: string)
    requires contacts != []
    ensures var p, l := contacts[0].phoneNumber, contacts[0].linkedIn;
      ContactFields(contacts, email)
        == (if p != [] then [p] else []) + (if email != [] then [email] else []) + (if l != [] then [l] else [])
  {
    var keep := (f: string) => f != [];
    var p, l := contacts[0].phoneNumber, contacts[0].linkedIn;
    assert [p, email, l][1..] == [email, l] && [email, l][1..] == [l] && [l][1..] == [];
    var tail: seq<string> := if l != [] then [l] else [];
    assert ListOps.Filter([l], keep) == tail;
    var mid := if email != [] then [email] + tail else tail;
    assert ListOps.Filter([email, l], keep) == mid;
    assert ListOps.Filter([p, email, l], keep) == if p != [] then [p] + mid else mid;
  }

  /** A description line as drawn: prefixed with `• ` unless its trimmed form
      already starts with the bullet. */
  function BulletLine(line: string): string {
    if StartsWith(Trim(line), "•") then line else "• " + line
  }

  /** `description.split('\n').map(...)`. */
  function BulletLines(description: string): (r: seq<string>)
    ensures |r| == |Split(description, '\n')|
  {
    var lines := Split(description, '\n');
    seq(|lines|, k requires 0 <= k < |lines| => BulletLine(lines[k]))
  }

  /** Every drawn description line starts with the bullet once trimmed, a
      line that already did is kept as it is, and prefixing is idempotent. */
  lemma BulletLineRule(line: string)
    ensures StartsWith(Trim(BulletLine(line)), "•")
    ensures StartsWith(Trim(line), "•") ==> BulletLine(line) == line
    ensures BulletLine(BulletLine(line)) == BulletLine(line)
  {
    if !StartsWith(Trim(line), "•") {
      var b := "• " + line;
      assert !IsJsSpace(b[0]);
      TrimKeepsHead(b, IsJsSpace);
      assert Trim(b)[..1] == "•";
    }
  }

  /** The name at the top, then the contact line. */
  function Header(d: Doc, user: UserDetails, contacts: seq<ContactDetails>): Doc {
    var d1 := Down(Put(d, PageWidth / 2, user.firstName + " " + user.lastName), 25);
    Down(Put(d1, PageWidth / 2, ContactLine(contacts, user.email)), 30)
  }

  /** `addSection` before its content: a page-break check whose result is
      ignored, the upper-case title, the rule under it. */
  function SectionStart(d: Doc, title: string): Doc {
    Down(Down(Put(PageBreak(d, 60), Margin, Upper(title)), 5), 20)
  }

  /** `addSection` after its content. */
  function SectionEnd(d: Doc): Doc {
    Down(d, 20)
  }

  /** One summary line: skipped when its check opens a page, else drawn. */
  function SummaryStep(d: Doc, line: string): Doc {
    if !Fits(d.y, 20) then PageBreak(d, 20) else Down(Put(d, Margin, line), 15)
  }

  /** One education entry: skipped when its check opens a page, else the
      university and the date on one line and the degree line under them. */
  function EducationStep(d: Doc, e: Education): Doc {
    if !Fits(d.y, 60) then PageBreak(d, 60)
    else
      var d1 := Put(Put(d, Margin, e.details.university), PageWidth - Margin,
        DateText(e.details.isPresent, e.details.endDate));
      var d2 := Down(d1, 15);
      Down(Put(d2, Margin + 10, e.details.degree + " in " + e.details.major + " - GPA: " + e.details.cgpa), 25)
  }

  /** One wrapped piece of a description line; no check precedes it. */
  function PieceStep(d: Doc, piece: string): Doc {
    Down(Put(d, Margin + 10, piece), 15)
  }

  /** One description line: skipped when its check opens a page, else all of
      its wrapped pieces, one under the other. */
  function DescriptionStep(d: Doc, line: string, wrap: Wrap): Doc {
    if !Fits(d.y, 20) then PageBreak(d, 20)
    else Fold(d, wrap(line, PageWidth - Margin * 2 - 20), PieceStep)
  }

  /** The block shared by experiences and projects: a title and the date,
      then the bulleted description lines, then 10 points of space. */
  function DatedBlock(d: Doc, title: string, date: string, description: string, wrap: Wrap): Doc
    requires Fits(d.y, 60)
  {
    var d1 := Down(Put(Put(d, Margin, title), PageWidth - Margin, date), 15);
    Down(DescriptionLines(d1, BulletLines(description), wrap), 10)
  }

  function DescriptionLines(d: Doc, lines: seq<string>, wrap: Wrap): Doc {
    Fold(d, lines, (d: Doc, line: string) => DescriptionStep(d, line, wrap))
  }

  function ExperienceStep(d: Doc, e: Experience, wrap: Wrap): Doc {
    if !Fits(d.y, 60) then PageBreak(d, 60)
    else DatedBlock(d, e.details.jobTitle + " - " + e.details.company,
      DateText(e.details.isPresent, e.details.endDate), e.details.description, wrap)
  }

  function ProjectStep(d: Doc, p: Project, wrap: Wrap): Doc {
    if !Fits(d.y, 60) then PageBreak(d, 60)
    else DatedBlock(d, p.details.name, DateText(p.details.isPresent, p.details.endDate), p.details.description, wrap)
  }

  /** One skill: skipped when its check opens a page, else the domain and the
      wrapped names (drawn by one call, one line each), then their height. */
  function SkillStep(d: Doc, s: Skill, wrap: Wrap): Doc {
    if !Fits(d.y, 20) then PageBreak(d, 20)
    else
      var names := wrap(s.details.name, PageWidth - Margin * 2 - 100);
      Down(Put(Put(d, Margin, s.details.domain + ":"), Margin + 80, Join(names, "\n")), |names| * 15 + 5)
  }

  function ExperienceEntries(d: Doc, entries: seq<Experience>, wrap: Wrap): Doc {
    Fold(d, entries, (d: Doc, e: Experience) => ExperienceStep(d, e, wrap))
  }

  function ProjectEntries(d: Doc, entries: seq<Project>, wrap: Wrap): Doc {
    Fold(d, entries, (d: Doc, p: Project) => ProjectStep(d, p, wrap))
  }

  function SkillEntries(d: Doc, entries: seq<Skill>, wrap: Wrap): Doc {
    Fold(d, entries, (d: Doc, s: Skill) => SkillStep(d, s, wrap))
  }

  /** The summary section exists when the first summary has content. */
  predicate HasSummary(summaries: seq<string>) {
    summaries != [] && summaries[0] != []
  }

  function SummarySection(d: Doc, summaries: seq<string>, wrap: Wrap): Doc {
    if HasSummary(summaries) then
      SectionEnd(Fold(SectionStart(d, "Summary"), wrap(summaries[0], PageWidth - Margin * 2), SummaryStep))
    else d
  }

  function EducationSection(d: Doc, educations: seq<Education>): Doc {
    var included := Included(educations);
    if included != [] then SectionEnd(Fold(SectionStart(d, "Education"), included, EducationStep)) else d
  }

  function ExperienceSection(d: Doc, experiences: seq<Experience>, wrap: Wrap): Doc {
    var included := Included(experiences);
    if included != [] then
      SectionEnd(ExperienceEntries(SectionStart(d, "Experience"), included, wrap))
    else d
  }

  function SkillsSection(d: Doc, skills: seq<Skill>, wrap: Wrap): Doc {
    var included := Included(skills);
    if included != [] then
      SectionEnd(SkillEntries(SectionStart(d, "Skills"), included, wrap))
    else d
  }

  function ProjectsSection(d: Doc, projects: seq<Project>, wrap: Wrap): Doc {
    var included := Included(projects);
    if included != [] then
      SectionEnd(ProjectEntries(SectionStart(d, "Projects"), included, wrap))
    else d
  }

  /** The file name: the user name, or `resume` when it is empty. */
  function FileName(username: string): (r: string)
    ensures username != [] ==> r == username + ".pdf"
    ensures username == [] ==> r == "resume.pdf"
  {
    (if username != [] then username else "resume") + ".pdf"
  }

  /** `addPageIfNeeded` opens a page exactly when the block would reach the
      bottom margin, and a block whose check fits can be drawn without
      crossing it. */
  lemma PageBreakRule(d: Doc, height: int)
    ensures PageBreak(d, height) != d <==> d.y + height > PageHeight - Margin
    ensures Fits(PageBreak(d, height).y, height) <== Fits(d.y, height) || height <= Bottom - Margin
  {
  }

  /** Summary lines: each line is either drawn or spent on a page break,
      never both; every drawn line starts inside the printable area with
      room for its height, and the texts drawn before are kept. */
  lemma {:induction false} SummaryPlacement(d: Doc, lines: seq<string>)
    requires Margin <= d.y
    ensures var r := Fold(d, lines, SummaryStep);
      Margin <= r.y && d.page <= r.page
      && |d.texts| <= |r.texts| && r.texts[..|d.texts|] == d.texts
      && (|r.texts| - |d.texts|) + (r.page - d.page) == |lines|
      && forall k :: |d.texts| <= k < |r.texts| ==>
           Margin <= r.texts[k].y && Fits(r.texts[k].y, 20) && r.texts[k].text in lines
    decreases |lines|
  {
    if lines != [] {
      var init := lines[..|lines| - 1];
      SummaryPlacement(d, init);
      var m := Fold(d, init, SummaryStep);
      var r := SummaryStep(m, lines[|lines| - 1]);
      assert r == Fold(d, lines, SummaryStep);
      assert forall x :: x in init ==> x in lines;
      if Fits(m.y, 20) {
        assert r.texts == m.texts + [Placed(m.page, Margin, m.y, lines[|lines| - 1])];
        assert r.texts[..|m.texts|] == m.texts;
        assert r.texts[..|d.texts|] == m.texts[..|d.texts|];
      }
    }
  }

  /** Education entries: each included entry is either drawn as three texts
      or spent on a page break; a drawn entry starts with at least 60 points
      left above the bottom margin. */
  lemma {:induction false} EducationPlacement(d: Doc, entries: seq<Education>)
    requires Margin <= d.y
    ensures var r := Fold(d, entries, EducationStep);
      Margin <= r.y && d.page <= r.page
      && |d.texts| <= |r.texts| && r.texts[..|d.texts|] == d.texts
      && (|r.texts| - |d.texts|) + 3 * (r.page - d.page) == 3 * |entries|
      && forall k :: |d.texts| <= k < |r.texts| ==> Margin <= r.texts[k].y && r.texts[k].y + 45 <= Bottom
    decreases |entries|
  {
    if entries != [] {
      var init := entries[..|entries| - 1];
      EducationPlacement(d, init);
      var m := Fold(d, init, EducationStep);
      var r := EducationStep(m, entries[|entries| - 1]);
      assert r == Fold(d, entries, EducationStep);
      EducationStepPlacement(m, entries[|entries| - 1]);
      assert r.texts[..|d.texts|] == r.texts[..|m.texts|][..|d.texts|];
      forall k | |d.texts| <= k < |m.texts| ensures r.texts[k] == m.texts[k] {
        assert r.texts[..|m.texts|][k] == r.texts[k];
      }
    }
  }

  /** One education block keeps the earlier texts and draws three texts
      inside the page, or opens a page and draws nothing. */
  lemma EducationStepPlacement(m: Doc, e: Education)
    requires Margin <= m.y
    ensures var r := EducationStep(m, e);
      Margin <= r.y && m.page <= r.page
      && |m.texts| <= |r.texts| && r.texts[..|m.texts|] == m.texts
      && (|r.texts| - |m.texts|) + 3 * (r.page - m.page) == 3
      && forall k :: |m.texts| <= k < |r.texts| ==> Margin <= r.texts[k].y && r.texts[k].y + 45 <= Bottom
  {
    var r := EducationStep(m, e);
    if Fits(m.y, 60) {
      assert |r.texts| == |m.texts| + 3;
      assert r.texts[..|m.texts|] == m.texts;
      assert forall k :: |m.texts| <= k < |r.texts| ==> m.y <= r.texts[k].y <= m.y + 15;
    }
  }

  /** The skip rule: a block whose check opens a page draws nothing and
      leaves the cursor at the top of the new page. */
  lemma SkippedOnBreak(d: Doc, line: string, e: Education, x: Experience, p: Project, s: Skill, wrap: Wrap)
    ensures !Fits(d.y, 20) ==> SummaryStep(d, line) == Doc(Margin, d.page + 1, d.texts)
    ensures !Fits(d.y, 20) ==> DescriptionStep(d, line, wrap) == Doc(Margin, d.page + 1, d.texts)
    ensures !Fits(d.y, 20) ==> SkillStep(d, s, wrap) == Doc(Margin, d.page + 1, d.texts)
    ensures !Fits(d.y, 60) ==> EducationStep(d, e) == Doc(Margin, d.page + 1, d.texts)
    ensures !Fits(d.y, 60) ==> ExperienceStep(d, x, wrap) == Doc(Margin, d.page + 1, d.texts)
    ensures !Fits(d.y, 60) ==> ProjectStep(d, p, wrap) == Doc(Margin, d.page + 1, d.texts)
  {
  }

  /** Wrapped pieces are drawn 15 points apart from the cursor down, with no
      check between them. */
  lemma {:induction false} PiecesPlacement(d: Doc, pieces: seq<string>)
    ensures var r := Fold(d, pieces, PieceStep);
      r.page == d.page && r.y == d.y + 15 * |pieces| && |r.texts| == |d.texts| + |pieces|
      && r.texts[..|d.texts|] == d.texts
      && forall k :: 0 <= k < |pieces| ==> r.texts[|d.texts| + k] == Placed(d.page, Margin + 10, d.y + 15 * k, pieces[k])
    decreases |pieces|
  {
    if pieces != [] {
      var init := pieces[..|pieces| - 1];
      PiecesPlacement(d, init);
      var m := Fold(d, init, PieceStep);
      var r := PieceStep(m, pieces[|pieces| - 1]);
      assert r == Fold(d, pieces, PieceStep);
      assert r.texts[..|m.texts|] == m.texts;
      assert r.texts[..|d.texts|] == m.texts[..|d.texts|];
      forall k | 0 <= k < |pieces| ensures r.texts[|d.texts| + k] == Placed(d.page, Margin + 10, d.y + 15 * k, pieces[k]) {
        if k < |init| {
          assert r.texts[|d.texts| + k] == m.texts[|d.texts| + k];
        }
      }
    }
  }

  /** Only the first piece of a description line is covered by its check: a
      line wrapped into six pieces from the lowest cursor that passes the
      check ends its last piece below the page. */
  lemma LongLineLeavesPage(d: Doc, line: string, wrap: Wrap)
    requires d.y == Bottom - 20
    requires |wrap(line, PageWidth - Margin * 2 - 20)| == 6
    ensures var r := DescriptionStep(d, line, wrap);
      r.page == d.page && |r.texts| == |d.texts| + 6 && r.texts[|d.texts| + 5].y > PageHeight
  {
    PiecesPlacement(d, wrap(line, PageWidth - Margin * 2 - 20));
  }

  /** A section whose entries are all left off the resume draws nothing. */
  lemma EmptySectionsOmitted(d: Doc, summaries: seq<string>, educations: seq<Education>, experiences: seq<Experience>,
                              skills: seq<Skill>, projects: seq<Project>, wrap: Wrap)
    ensures !HasSummary(summaries) ==> SummarySection(d, summaries, wrap) == d
    ensures (forall k :: 0 <= k < |educations| ==> !educations[k].includeInResume) ==> EducationSection(d, educations) == d
    ensures (forall k :: 0 <= k < |experiences| ==> !experiences[k].includeInResume) ==> ExperienceSection(d, experiences, wrap) == d
    ensures (forall k :: 0 <= k < |skills| ==> !skills[k].includeInResume) ==> SkillsSection(d, skills, wrap) == d
    ensures (forall k :: 0 <= k < |projects| ==> !projects[k].includeInResume) ==> ProjectsSection(d, projects, wrap) == d
  {
    if forall k :: 0 <= k < |educations| ==> !educations[k].includeInResume {
      NothingIncluded(educations);
    }
    if forall k :: 0 <= k < |experiences| ==> !experiences[k].includeInResume {
      NothingIncluded(experiences);
    }
    if forall k :: 0 <= k < |skills| ==> !skills[k].includeInResume {
      NothingIncluded(skills);
    }
    if forall k :: 0 <= k < |projects| ==> !projects[k].includeInResume {
      NothingIncluded(projects);
    }
  }

  /** The whole document, section by section. */
  function Layout(user: UserDetails, contacts: seq<ContactDetails>, summaries: seq<string>,
                  educations: seq<Education>, experiences: seq<Experience>, skills: seq<Skill>,
                  projects: seq<Project>, wrap: Wrap): Doc
  {
    var d := Header(Doc(Margin, 0, []), user, contacts);
    var d1 := SummarySection(d, summaries, wrap);
    var d2 := EducationSection(d1, educations);
    var d3 := ExperienceSection(d2, experiences, wrap);
    var d4 := SkillsSection(d3, skills, wrap);
    ProjectsSection(d4, projects, wrap)
  }

  /** `generatePDF`: the mutable cursor, page and drawn text, advanced by the
      same steps as the pure layer, loop by loop. */
  class PdfWriter {
    var cursorY: int
    var page: nat
    var texts: seq<Placed>

    function State(): Doc
      reads this
    {
      Doc(cursorY, page, texts)
    }

    constructor()
      ensures State() == Doc(Margin, 0, [])
    {
      cursorY := Margin;
      page := 0;
      texts := [];
    }

    /** `addPageIfNeeded(height)`. */
    method AddPageIfNeeded(height: int) returns (added: bool)
      modifies this
      ensures added <==> old(cursorY) + height > PageHeight - Margin
      ensures State() == PageBreak(old(State()), height)
    {
      if cursorY + height > PageHeight - Margin {
        page := page + 1;
        cursorY := Margin;
        return true;
      }
      return false;
    }

    /** `doc.text(text, x, cursorY)`. */
    method Text(x: int, text: string)
      modifies this
      ensures State() == Put(old(State()), x, text)
    {
      texts := texts + [Placed(page, x, cursorY, text)];
    }

    method Summary(lines: seq<string>)
      modifies this
      ensures State() == Fold(old(State()), lines, SummaryStep)
    {
      var i := 0;
      while i < |lines|
        invariant 0 <= i <= |lines|
        invariant State() == Fold(old(State()), lines[..i], SummaryStep)
      {
        assert lines[..i + 1][..i] == lines[..i];
        var added := AddPageIfNeeded(20);
        if !added {
          Text(Margin, lines[i]);
          cursorY := cursorY + 15;
        }
        i := i + 1;
      }
      assert lines[..i] == lines;
    }

    /** One education entry: the check, then the school, the date, the
        degree line. */
    method EducationEntry(entry: Education)
      modifies this
      ensures State() == EducationStep(old(State()), entry)
    {
      var e := entry.details;
      var added := AddPageIfNeeded(60);
      if !added {
        Text(Margin, e.university);
        var dateText := DateText(e.isPresent, e.endDate);
        Text(PageWidth - Margin, dateText);
        cursorY := cursorY + 15;
        Text(Margin + 10, e.degree + " in " + e.major + " - GPA: " + e.cgpa);
        cursorY := cursorY + 25;
      }
    }

    method Education(entries: seq<Education>)
      modifies this
      ensures State() == Fold(old(State()), entries, EducationStep)
    {
      var i := 0;
      while i < |entries|
        invariant 0 <= i <= |entries|
        invariant State() == Fold(old(State()), entries[..i], EducationStep)
      {
        ghost var before := State();
        EducationEntry(entries[i]);
        assert State() == EducationStep(before, entries[i]);
        FoldStep(old(State()), entries, i, EducationStep);
        i := i + 1;
      }
      assert entries[..i] == entries;
    }

    /** The wrapped pieces of one description line. */
    method Pieces(pieces: seq<string>)
      modifies this
      ensures State() == Fold(old(State()), pieces, PieceStep)
    {
      var i := 0;
      while i < |pieces|
        invariant 0 <= i <= |pieces|
        invariant State() == Fold(old(State()), pieces[..i], PieceStep)
      {
        assert pieces[..i + 1][..i] == pieces[..i];
        Text(Margin + 10, pieces[i]);
        cursorY := cursorY + 15;
        i := i + 1;
      }
      assert pieces[..i] == pieces;
    }

    method DrawDescriptionLines(lines: seq<string>, wrap: Wrap)
      modifies this
      ensures State() == DescriptionLines(old(State()), lines, wrap)
    {
      var i := 0;
      while i < |lines|
        invariant 0 <= i <= |lines|
        invariant State() == DescriptionLines(old(State()), lines[..i], wrap)
      {
        assert lines[..i + 1][..i] == lines[..i];
        var added := AddPageIfNeeded(20);
        if !added {
          Pieces(wrap(lines[i], PageWidth - Margin * 2 - 20));
        }
        i := i + 1;
      }
      assert lines[..i] == lines;
    }

    /** The title, the date and the description of an experience or project. */
    method DrawDatedBlock(title: string, date: string, description: string, wrap: Wrap)
      requires Fits(cursorY, 60)
      modifies this
      ensures State() == DatedBlock(old(State()), title, date, description, wrap)
    {
      Text(Margin, title);
      Text(PageWidth - Margin, date);
      cursorY := cursorY + 15;
      DrawDescriptionLines(BulletLines(description), wrap);
      cursorY := cursorY + 10;
    }

    method Experience(entries: seq<Experience>, wrap: Wrap)
      modifies this
      ensures State() == ExperienceEntries(old(State()), entries, wrap)
    {
      var i := 0;
      while i < |entries|
        invariant 0 <= i <= |entries|
        invariant State() == ExperienceEntries(old(State()), entries[..i], wrap)
      {
        ghost var before := State();
        var e := entries[i].details;
        var added := AddPageIfNeeded(60);
        if !added {
          DrawDatedBlock(e.jobTitle + " - " + e.company, DateText(e.isPresent, e.endDate), e.description, wrap);
        }
        assert State() == ExperienceStep(before, entries[i], wrap);
        FoldStep(old(State()), entries, i, (d: Doc, e: Experience) => ExperienceStep(d, e, wrap));
        i := i + 1;
      }
      assert entries[..i] == entries;
    }

    method Projects(entries: seq<Project>, wrap: Wrap)
      modifies this
      ensures State() == ProjectEntries(old(State()), entries, wrap)
    {
      var i := 0;
      while i < |entries|
        invariant 0 <= i <= |entries|
        invariant State() == ProjectEntries(old(State()), entries[..i], wrap)
      {
        ghost var before := State();
        var p := entries[i].details;
        var added := AddPageIfNeeded(60);
        if !added {
          DrawDatedBlock(p.name, DateText(p.isPresent, p.endDate), p.description, wrap);
        }
        assert State() == ProjectStep(before, entries[i], wrap);
        FoldStep(old(State()), entries, i, (d: Doc, p: Project) => ProjectStep(d, p, wrap));
        i := i + 1;
      }
      assert entries[..i] == entries;
    }

    method Skills(entries: seq<Skill>, wrap: Wrap)
      modifies this
      ensures State() == SkillEntries(old(State()), entries, wrap)
    {
      var i := 0;
      while i < |entries|
        invariant 0 <= i <= |entries|
        invariant State() == SkillEntries(old(State()), entries[..i], wrap)
      {
        assert entries[..i + 1][..i] == entries[..i];
        var s := entries[i].details;
        var added := AddPageIfNeeded(20);
        if !added {
          Text(Margin, s.domain + ":");
          var names := wrap(s.name, PageWidth - Margin * 2 - 100);
          Text(Margin + 80, Join(names, "\n"));
          cursorY := cursorY + |names| * 15 + 5;
        }
        i := i + 1;
      }
      assert entries[..i] == entries;
    }

    /** `addSection` up to its content. */
    method AddSectionStart(title: string)
      modifies this
      ensures State() == SectionStart(old(State()), title)
    {
      var _ := AddPageIfNeeded(60);
      Text(Margin, Upper(title));
      cursorY := cursorY + 5;
      cursorY := cursorY + 20;
    }

    method DrawHeader(user: UserDetails, contacts: seq<ContactDetails>)
      modifies this
      ensures State() == Header(old(State()), user, contacts)
    {
      Text(PageWidth / 2, user.firstName + " " + user.lastName);
      cursorY := cursorY + 25;
      Text(PageWidth / 2, ContactLine(contacts, user.email));
      cursorY := cursorY + 30;
    }

    method DrawSummary(summaries: seq<string>, wrap: Wrap)
      modifies this
      ensures State() == SummarySection(old(State()), summaries, wrap)
    {
      if HasSummary(summaries) {
        AddSectionStart("Summary");
        Summary(wrap(summaries[0], PageWidth - Margin * 2));
        cursorY := cursorY + 20;
      }
    }

    method DrawEducation(educations: seq<Education>)
      modifies this
      ensures State() == EducationSection(old(State()), educations)
    {
      var included := Included(educations);
      if included != [] {
        AddSectionStart("Education");
        Education(included);
        cursorY := cursorY + 20;
      }
    }

    method DrawExperience(experiences: seq<Experience>, wrap: Wrap)
      modifies this
      ensures State() == ExperienceSection(old(State()), experiences, wrap)
    {
      var included := Included(experiences);
      if included != [] {
        AddSectionStart("Experience");
        Experience(included, wrap);
        cursorY := cursorY + 20;
      }
    }

    method DrawSkills(skills: seq<Skill>, wrap: Wrap)
      modifies this
      ensures State() == SkillsSection(old(State()), skills, wrap)
    {
      var included := Included(skills);
      if included != [] {
        AddSectionStart("Skills");
        Skills(included, wrap);
        cursorY := cursorY + 20;
      }
    }

    method DrawProjects(projects: seq<Project>, wrap: Wrap)
      modifies this
      ensures State() == ProjectsSection(old(State()), projects, wrap)
    {
      var included := Included(projects);
      if included != [] {
        AddSectionStart("Projects");
        Projects(included, wrap);
        cursorY := cursorY + 20;
      }
    }

    /** `generatePDF`: draws every section and returns the file name. */
    method Generate(user: UserDetails, contacts: seq<ContactDetails>, summaries: seq<string>,
                    educations: seq<Education>, experiences: seq<Experience>, skills: seq<Skill>,
                    projects: seq<Project>, wrap: Wrap) returns (fileName: string)
      requires State() == Doc(Margin, 0, [])
      modifies this
      ensures State() == Layout(user, contacts, summaries, educations, experiences, skills, projects, wrap)
      ensures fileName == FileName(user.username)
    {
      DrawHeader(user, contacts);
      DrawSummary(summaries, wrap);
      DrawEducation(educations);
      DrawExperience(experiences, wrap);
      DrawSkills(skills, wrap);
      DrawProjects(projects, wrap);
      fileName := FileName(user.username);
    }
  }
}
