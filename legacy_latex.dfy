/** The older LaTeX export (components/MyPdfViewer.tsx). `previewPdf` emits
    one block per entry of every section, with no regard to
    `includeInResume` and with the user's text inserted as it is, without
    LaTeX escaping; `generatePdf` emits only education and experience, in a
    shorter form, and names the download after the user. The indentation
    inside the template literals is not kept. */
module LegacyLatex {

  import opened Wrappers
  import opened Text
  import opened ResumeData
  import LatexResume
  import Markup

  type LatexUser = LatexResume.LatexUser

  /** `${userDetails?.field}`: `undefined` before the user is loaded. */
  function UserField(user: Option<LatexUser>, field: LatexUser -> string): string {
    LatexResume.Shown(if user.Some? then Some(field(user.value)) else None)
  }

  /** One `\item` per `*`-separated segment after the first, trimmed. */
  function Items(description: string): (r: seq<string>)
    ensures |r| == CountChar(description, '*')
  {
    LatexResume.Items(description)
  }

  function BulletListMinor(description: string): string {
    "\\begin{bullet-list-minor}\n" + Join(Items(description), "\n") + "\n\\end{bullet-list-minor}"
  }

  function SummaryBlock(content: string): string {
    "\\textit{" + content + "}"
  }

  function EducationBlock(e: Education): string {
    var d := e.details;
    "\\school{" + d.university + "}{" + d.degree + "}{Graduation: " + d.endDate.year
      + "}{\\textit{" + d.major + " \\labelitemi " + d.cgpa + "}}"
  }

  function ExperienceBlock(e: Experience): string {
    var d := e.details;
    "\\employer{" + d.jobTitle + "}{--" + d.company + "}{" + d.startDate.year + " -- " + d.endDate.year
      + "}{" + d.location + "}\n" + BulletListMinor(d.description)
  }

  function ProjectBlock(p: Project): string {
    var d := p.details;
    "\\project{" + d.name + "}{" + d.skills + "}{" + d.startDate.year + " -- " + d.endDate.year
      + "}{\n" + BulletListMinor(d.description) + "\n}"
  }

  /** The segments after the first `*` of an involvement, each as
      `\newline -{part}`, untrimmed, with nothing between them. */
  function InvolvementLines(description: string): (r: string)
  {
    var parts := Split(description, '*');
    LatexResume.ConcatAll(seq(|parts| - 1, k requires 0 <= k < |parts| - 1 => "\\newline -{" + parts[k + 1] + "}"))
  }

  function InvolvementBlock(i: Involvement): string {
    var d := i.details;
    "\\begin{bullet-list-major}\n\\item \\textbf{" + d.role + "} \\labelitemi " + d.organization + " \\hfill "
      + d.startDate.year + " -- " + d.endDate.year + "\n" + InvolvementLines(d.description) + "\n\\end{bullet-list-major}"
  }

  function CertificationBlock(c: Certification): string {
    var d := c.details;
    "\\begin{bullet-list-major}\n\\item \\textbf{" + d.name + "} \\labelitemi " + d.issuedBy + " \\hfill "
      + d.issuedDate.year + " -- " + d.expirationDate.year + "\n\\end{bullet-list-major}"
  }

  function SkillBlock(s: Skill): string {
    "\\begin{bullet-list-major}\n\\item \\textbf{" + s.details.domain + ":} " + s.details.name + "\n\\end{bullet-list-major}"
  }

  /** `items.map(block).join(sep)`: every entry, marked for the resume or not. */
  function Blocks<T>(items: seq<T>, block: T -> string, sep: string): (r: string)
    ensures items == [] ==> r == []
    ensures |items| == 1 ==> r == block(items[0])
  {
    Join(LatexResume.MapBlocks(items, block), sep)
  }

  // ---------------------------------------------------------------------
  // The document bodies. Each is the sequence of its lines from
  // `\begin{document}` to `\end{document}`, trimmed, with blank lines
  // dropped; a section's blocks stand on one line in braces.

  /** A line of a document body: a fixed command or heading line, a
      section header, or a section's blocks in braces. */
  datatype Line = Command(text: string) | Header(title: Title) | Content(blocks: string)

  /** The titles of the `\header{...}` sections. */
  datatype Title = SummaryTitle | EducationTitle | ExperienceTitle | SkillsTitle | ProjectsTitle | CertificationsTitle | InvolvementsTitle

  function TitleText(title: Title): string {
    match title
    case SummaryTitle => "Summary"
    case EducationTitle => "Education"
    case ExperienceTitle => "Experience"
    case SkillsTitle => "Skills"
    case ProjectsTitle => "Projects"
    case CertificationsTitle => "Certifications"
    case InvolvementsTitle => "Involvements"
  }

  /** The text of a line. */
  function Render(line: Line): string {
    match line
    case Command(text) => text
    case Header(title) => "\\header{" + TitleText(title) + "}"
    case Content(blocks) => "{" + blocks + "}"
  }

  /** The LaTeX text of a body: its lines, one per line. */
  function LatexText(lines: seq<Line>): string {
    Join(seq(|lines|, k requires 0 <= k < |lines| => Render(lines[k])), "\n")
  }

  /** One `\header{...}` section: the spacing command before it, its title
      and, when the template fills it, its blocks. */
  datatype Section = Section(spacing: string, title: Title, content: Option<string>)

  const Opening: seq<Line> := [Command("\\begin{document}"), Command("\\small"), Command("\\smallskip"), Command("\\vspace*{-44pt}")]
  const EndDocument: Line := Command("\\end{document}")

  /** The section titles, in the order both templates give them. */
  const Titles: seq<Title> := [SummaryTitle, EducationTitle, ExperienceTitle, SkillsTitle, ProjectsTitle, CertificationsTitle, InvolvementsTitle]

  /** The spacing before each section: `\vspace{15pt}` before Education,
      `\vspace*{4pt}%` before every other. */
  function Spacing(i: nat): string {
    if i == 1 then "\\vspace{15pt}" else "\\vspace*{4pt}%"
  }

  /** Seven sections, titled in the order of `Titles`, each after its
      spacing command. */
  predicate Outlined(sections: seq<Section>) {
    |sections| == |Titles|
    && forall i :: 0 <= i < |sections| ==> sections[i].title == Titles[i] && sections[i].spacing == Spacing(i)
  }

  /** The seven sections in order, holding the given contents. */
  function Outline(contents: seq<Option<string>>): (r: seq<Section>)
    requires |contents| == |Titles|
    ensures Outlined(r) && Contents(r) == contents
  {
    var r := seq(|Titles|, i requires 0 <= i < |Titles| => Section(Spacing(i), Titles[i], contents[i]));
    assert Contents(r) == contents;
    r
  }

  /** What each section holds, in order. */
  function Contents(sections: seq<Section>): (r: seq<Option<string>>)
    ensures |r| == |sections| && forall i :: 0 <= i < |r| ==> r[i] == sections[i].content
  {
    seq(|sections|, i requires 0 <= i < |sections| => sections[i].content)
  }

  function SectionLines(section: Section): (r: seq<Line>)
    ensures |r| == if section.content.Some? then 3 else 2
  {
    [Command(section.spacing), Header(section.title)]
      + (if section.content.Some? then [Content(section.content.value)] else [])
  }

  function SectionsLines(sections: seq<Section>): seq<Line>
    decreases |sections|
  {
    if sections == [] then [] else SectionLines(sections[0]) + SectionsLines(sections[1..])
  }

  function BodyLines(heading: seq<string>, sections: seq<Section>): (r: seq<Line>)
    ensures |Opening| < |r| && r[..|Opening|] == Opening && r[|r| - 1] == EndDocument
  {
    var r := Opening + Commands(heading) + SectionsLines(sections) + [EndDocument];
    assert r[..|Opening|] == Opening;
    r
  }

  function Commands(texts: seq<string>): (r: seq<Line>)
    ensures |r| == |texts| && forall k :: 0 <= k < |r| ==> r[k] == Command(texts[k])
  {
    seq(|texts|, k requires 0 <= k < |texts| => Command(texts[k]))
  }

  predicate IsHeader(line: Line) {
    line.Header?
  }

  /** The titles of the header lines of a body, in order. */
  function HeaderTitles(lines: seq<Line>): (r: seq<Title>)
    ensures |r| <= |lines|
  {
    var headers := ListOps.Filter(lines, IsHeader);
    seq(|headers|, k requires 0 <= k < |headers| => headers[k].title)
  }

  /** The header lines of a body are those of its sections, in order. */
  lemma HeaderLinesInOrder(heading: seq<string>, sections: seq<Section>)
    ensures ListOps.Filter(BodyLines(heading, sections), IsHeader)
      == seq(|sections|, i requires 0 <= i < |sections| => Header(sections[i].title))
  {
    var front := Opening + Commands(heading);
    var middle := SectionsLines(sections);
    ListOps.FilterNone(Opening, IsHeader);
    ListOps.FilterNone(Commands(heading), IsHeader);
    ListOps.FilterNone([EndDocument], IsHeader);
    ListOps.FilterAppend(Opening, Commands(heading), IsHeader);
    ListOps.FilterAppend(front, middle, IsHeader);
    ListOps.FilterAppend(front + middle, [EndDocument], IsHeader);
    SectionHeaders(sections);
    assert BodyLines(heading, sections) == front + middle + [EndDocument];
  }

  lemma {:induction false} SectionHeaders(sections: seq<Section>)
    ensures ListOps.Filter(SectionsLines(sections), IsHeader)
      == seq(|sections|, i requires 0 <= i < |sections| => Header(sections[i].title))
    decreases |sections|
  {
    if sections != [] {
      var first := sections[0];
      SectionHeaders(sections[1..]);
      ListOps.FilterAppend(SectionLines(first), SectionsLines(sections[1..]), IsHeader);
      var lines := SectionLines(first);
      var rest := lines[2..];
      assert lines == [Command(first.spacing), Header(first.title)] + rest;
      ListOps.FilterNone(rest, IsHeader);
      ListOps.FilterAppend([Command(first.spacing), Header(first.title)], rest, IsHeader);
      assert [Command(first.spacing), Header(first.title)][1..] == [Header(first.title)];
      assert [Header(first.title)][1..] == [];
    }
  }

  /** Seven sections in the order of `Titles` give the seven titles as
      the body's headers. */
  lemma TitledHeaders(heading: seq<string>, sections: seq<Section>)
    requires Outlined(sections)
    ensures HeaderTitles(BodyLines(heading, sections)) == Titles
  {
    HeaderLinesInOrder(heading, sections);
  }

  /** The centred heading of `previewPdf`: the user's name and e-mail, with
      the phone number and LinkedIn address fixed in the template. */
  function PreviewHeading(user: Option<LatexUser>): seq<string> {
    var email := UserField(user, (u: LatexUser) => u.email);
    ["\\begin{center}",
     "{\\LARGE \\textbf{" + UserField(user, (u: LatexUser) => u.firstName) + " "
       + UserField(user, (u: LatexUser) => u.lastName) + "}} \\\\",
     "\\faPhone\\ 551-755-1991 \\quad",
     "\\faEnvelope\\ \\href{mailto:" + email + "}{" + email + "} \\quad",
     "\\faLinkedin\\ \\url{https://www.linkedin.com/in/tarun-janapati/}",
     "\\end{center}"]
  }

  /** The sections of `previewPdf`: all seven, each holding every entry's
      block. */
  function PreviewSections(summaries: seq<string>, educations: seq<Education>, experiences: seq<Experience>,
                           skills: seq<Skill>, projects: seq<Project>, certifications: seq<Certification>,
                           involvements: seq<Involvement>): (r: seq<Section>)
    ensures Outlined(r)
    ensures Contents(r) == [Some(Blocks(summaries, SummaryBlock, "\n")), Some(Blocks(educations, EducationBlock, "\n")),
      Some(Blocks(experiences, ExperienceBlock, "\n\n")), Some(Blocks(skills, SkillBlock, "\n")),
      Some(Blocks(projects, ProjectBlock, "\n")), Some(Blocks(certifications, CertificationBlock, "\n")),
      Some(Blocks(involvements, InvolvementBlock, "\n"))]
  {
    Outline([Some(Blocks(summaries, SummaryBlock, "\n")), Some(Blocks(educations, EducationBlock, "\n")),
      Some(Blocks(experiences, ExperienceBlock, "\n\n")), Some(Blocks(skills, SkillBlock, "\n")),
      Some(Blocks(projects, ProjectBlock, "\n")), Some(Blocks(certifications, CertificationBlock, "\n")),
      Some(Blocks(involvements, InvolvementBlock, "\n"))])
  }

  /** The document body of `previewPdf`: every header is there, in order,
      whatever the lists hold, and each is followed by its blocks. */
  function PreviewBody(user: Option<LatexUser>, summaries: seq<string>, educations: seq<Education>,
                       experiences: seq<Experience>, skills: seq<Skill>, projects: seq<Project>,
                       certifications: seq<Certification>, involvements: seq<Involvement>): (r: seq<Line>)
    ensures |Opening| < |r| && r[..|Opening|] == Opening && r[|r| - 1] == EndDocument
    ensures HeaderTitles(r) == Titles
  {
    var sections := PreviewSections(summaries, educations, experiences, skills, projects, certifications, involvements);
    TitledHeaders(PreviewHeading(user), sections);
    BodyLines(PreviewHeading(user), sections)
  }

  /** The shorter education block of `generatePdf`: the start year stands
      where the grade point average is in the preview. */
  function GenerateEducationBlock(e: Education): string {
    var d := e.details;
    "\\school{" + d.university + "}{" + d.degree + "}{Graduation: " + d.endDate.year
      + "}{\\textit{" + d.major + " \\labelitemi " + d.startDate.year + "}}"
  }

  function GenerateExperienceBlock(e: Experience): string {
    var d := e.details;
    "\\subsection*{" + d.jobTitle + " - " + d.company + "}\n" + d.location + " -- " + d.startDate.year + " to " + d.endDate.year
  }

  /** The heading of `generatePdf`: a fixed name, phone number, e-mail and
      LinkedIn address, whoever is signed in. */
  const GenerateHeading: seq<string> := [
    "\\begin{center}",
    "{\\LARGE \\textbf{Tarun Sai Janapati}} \\\\",
    "\\faPhone\\ 551-755-1991 \\quad",
    "\\faEnvelope\\ \\href{mailto:tarunsai.janapati@slu.edu}{tarunsai.janapati@slu.edu} \\quad",
    "\\faLinkedin\\ \\url{https://www.linkedin.com/in/tarun-janapati/}",
    "\\end{center}"]

  /** The sections of `generatePdf`: the same seven headers, but only
      Education and Experience are filled. */
  function GenerateSections(educations: seq<Education>, experiences: seq<Experience>): (r: seq<Section>)
    ensures Outlined(r)
    ensures Contents(r) == [None, Some(Blocks(educations, GenerateEducationBlock, "\n")),
      Some(Blocks(experiences, GenerateExperienceBlock, "\n")), None, None, None, None]
  {
    Outline([None, Some(Blocks(educations, GenerateEducationBlock, "\n")),
      Some(Blocks(experiences, GenerateExperienceBlock, "\n")), None, None, None, None])
  }

  /** The two headings differ only in the name and e-mail lines: the
      centring, the phone number and the LinkedIn address are the same
      fixed text in both, and the preview names whoever is signed in. */
  lemma SameContactLines(user: Option<LatexUser>)
    ensures var h := PreviewHeading(user);
      |h| == |GenerateHeading| && h[0] == GenerateHeading[0] && h[2] == GenerateHeading[2]
      && h[4] == GenerateHeading[4] && h[5] == GenerateHeading[5]
    ensures user.Some? ==> PreviewHeading(user)[1] == "{\\LARGE \\textbf{" + user.value.firstName + " " + user.value.lastName + "}} \\\\"
  {
  }

  /** The document body of `generatePdf`: all seven headers in order, with
      only the education and experience blocks under them. */
  function GenerateBody(educations: seq<Education>, experiences: seq<Experience>): (r: seq<Line>)
    ensures |Opening| < |r| && r[..|Opening|] == Opening && r[|r| - 1] == EndDocument
    ensures HeaderTitles(r) == Titles
  {
    var sections := GenerateSections(educations, experiences);
    TitledHeaders(GenerateHeading, sections);
    BodyLines(GenerateHeading, sections)
  }

  /** The two templates share their outline: the same spacing commands and
      headers in the same order; the shorter one fills only Education and
      Experience, with its own shorter blocks, where the longer one fills
      every section. */
  lemma SameOutline(user: Option<LatexUser>, summaries: seq<string>, educations: seq<Education>,
                    experiences: seq<Experience>, skills: seq<Skill>, projects: seq<Project>,
                    certifications: seq<Certification>, involvements: seq<Involvement>)
    ensures var p := PreviewSections(summaries, educations, experiences, skills, projects, certifications, involvements);
      var g := GenerateSections(educations, experiences);
      |p| == |g| && forall i :: 0 <= i < |p| ==> p[i].spacing == g[i].spacing && p[i].title == g[i].title
    ensures None !in Contents(PreviewSections(summaries, educations, experiences, skills, projects, certifications, involvements))
    ensures var g := Contents(GenerateSections(educations, experiences));
      forall i :: 0 <= i < |g| ==> (g[i].Some? <==> i == 1 || i == 2)
  {
    var p := PreviewSections(summaries, educations, experiences, skills, projects, certifications, involvements);
    var g := GenerateSections(educations, experiences);
    assert Outlined(p) && Outlined(g);
    AllFilled(Blocks(summaries, SummaryBlock, "\n"), Blocks(educations, EducationBlock, "\n"),
      Blocks(experiences, ExperienceBlock, "\n\n"), Blocks(skills, SkillBlock, "\n"),
      Blocks(projects, ProjectBlock, "\n"), Blocks(certifications, CertificationBlock, "\n"),
      Blocks(involvements, InvolvementBlock, "\n"));
    SecondAndThirdFilled(Blocks(educations, GenerateEducationBlock, "\n"), Blocks(experiences, GenerateExperienceBlock, "\n"));
  }

  lemma AllFilled(a: string, b: string, c: string, d: string, e: string, f: string, g: string)
    ensures None !in [Some(a), Some(b), Some(c), Some(d), Some(e), Some(f), Some(g)]
  {
  }

  lemma SecondAndThirdFilled(b: string, c: string)
    ensures var s := [None, Some(b), Some(c), None, None, None, None];
      forall i :: 0 <= i < |s| ==> (s[i].Some? <==> i == 1 || i == 2)
  {
  }

  /** The name of the downloaded file. */
  function DownloadName(user: Option<LatexUser>): (r: string)
    ensures user.Some? ==> r == user.value.firstName + "_" + user.value.lastName + "_resume.pdf"
    ensures user.None? ==> r == "undefined_undefined_resume.pdf"
  {
    UserField(user, (u: LatexUser) => u.firstName) + "_" + UserField(user, (u: LatexUser) => u.lastName) + "_resume.pdf"
  }

  /** The preview takes no notice of `includeInResume`: flipping any entry's
      flag leaves every section as it was, and each entry has its block. */
  lemma NoIncludeFiltering(experiences: seq<Experience>, id: string)
    ensures Blocks(ToggleInclude(experiences, id), ExperienceBlock, "\n\n") == Blocks(experiences, ExperienceBlock, "\n\n")
    ensures |LatexResume.MapBlocks(experiences, ExperienceBlock)| == |experiences|
  {
    var t := ToggleInclude(experiences, id);
    assert forall k :: 0 <= k < |t| ==> ExperienceBlock(t[k]) == ExperienceBlock(experiences[k]);
    assert LatexResume.MapBlocks(t, ExperienceBlock) == LatexResume.MapBlocks(experiences, ExperienceBlock);
  }

  /** `*a*b` gives the trimmed items `a` and `b` for experiences and
      projects. */
  lemma StarredItems(a: string, b: string)
    requires '*' !in a && '*' !in b
    ensures Items("*" + a + "*" + b) == ["\\item " + Trim(a), "\\item " + Trim(b)]
  {
    var s := "*" + a + "*" + b;
    Markup.StarredListSplit(a, b);
    var parts := Split(s, '*');
    assert parts == [[], a, b];
    var r := Items(s);
    assert |r| == 2 by {
      SplitCount(s, '*');
    }
    assert r[0] == "\\item " + Trim(parts[1]) && r[1] == "\\item " + Trim(parts[2]);
  }

  /** An involvement keeps both segments of `*a*b` as typed, untrimmed. */
  lemma StarredInvolvement(a: string, b: string)
    requires '*' !in a && '*' !in b
    ensures InvolvementLines("*" + a + "*" + b) == "\\newline -{" + a + "}" + "\\newline -{" + b + "}"
  {
    var s := "*" + a + "*" + b;
    Markup.StarredListSplit(a, b);
    var parts := Split(s, '*');
    assert parts == [[], a, b];
    var x, y := "\\newline -{" + a + "}", "\\newline -{" + b + "}";
    var lines := seq(|parts| - 1, k requires 0 <= k < |parts| - 1 => "\\newline -{" + parts[k + 1] + "}");
    assert lines == [x, y];
    assert lines[1..] == [y] && lines[1..][1..] == [];
    assert LatexResume.ConcatAll(lines) == x + (y + LatexResume.ConcatAll([]));
  }

  /** A description without `*` gives no items and no involvement lines. */
  lemma NoStarNoItems(description: string)
    requires '*' !in description
    ensures Items(description) == []
    ensures InvolvementLines(description) == []
  {
    SplitFree(description, '*');
    CountCharPositive(description, '*');
  }

  /** The user's text goes in without escaping: a project named `%` keeps
      the bare `%` in the older export, where the newer one writes `\%`. */
  lemma NotEscaped(p: Project)
    requires p.details.name == "%"
    ensures ProjectBlock(p)[9..11] == "%}"
    ensures LatexResume.ProjectBlock(p)[9..12] == "\\%}"
  {
    BarePercent(p);
    EscapedPercent(p);
  }

  lemma BarePercent(p: Project)
    requires p.details.name == "%"
    ensures ProjectBlock(p)[9..11] == "%}"
  {
    PlainProjectName(p);
    SliceOfPrefix(ProjectBlock(p), "\\project{%}", 9, 11);
  }

  lemma EscapedPercent(p: Project)
    requires p.details.name == "%"
    ensures LatexResume.ProjectBlock(p)[9..12] == "\\%}"
  {
    PercentEscaped();
    EscapedProjectName(p);
    SliceOfPrefix(LatexResume.ProjectBlock(p), "\\project{\\%}", 9, 12);
  }

  lemma SliceOfPrefix(s: string, prefix: string, i: nat, j: nat)
    requires |prefix| <= |s| && s[..|prefix|] == prefix && i <= j <= |prefix|
    ensures s[i..j] == prefix[i..j]
  {
    forall k | 0 <= k < j - i ensures s[i..j][k] == prefix[i..j][k] {
      assert s[i + k] == s[..|prefix|][i + k];
    }
  }

  /** The older export's project block opens with the name as typed. */
  lemma PlainProjectName(p: Project)
    ensures ProjectBlock(p)[..10 + |p.details.name|] == "\\project{" + p.details.name + "}"
  {
  }

  /** The newer export's project block opens with the converted name. */
  lemma EscapedProjectName(p: Project)
    ensures var n := LatexResume.ToLatex(p.details.name);
      LatexResume.ProjectBlock(p)[..10 + |n|] == "\\project{" + n + "}"
  {
  }

  /** The newer export's conversion of `%`. */
  lemma PercentEscaped()
    ensures LatexResume.ToLatex("%") == "\\%"
  {
    assert LatexResume.Symbols[0] == '%';
    LatexResume.EscapedSingle('%');
    LatexResume.EscapeCharFirst(0);
    Markup.NoMarkerUnchanged("\\%", "\\textbf{", "}");
  }
}
