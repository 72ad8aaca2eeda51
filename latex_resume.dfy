/** The LaTeX export of the profile page (profile-photo/MyPdfViewer.tsx):
    `convertToLatex`, which escapes the LaTeX special characters of a text
    one symbol at a time and then turns `**w**` into `\textbf{w}`, and the
    section builders of `previewPdf`, which keep the entries marked for the
    resume and emit one block per entry. The indentation inside the template
    literals is not kept: blocks are separated by single line breaks. */
module LatexResume {

  import opened Wrappers
  import opened Text
  import opened ResumeData
  import Markup

  /** The keys of `symbolMap`, in the order `for...in` visits them. */
  const Symbols: seq<char> := ['%', '&', '#', '_', '{', '}', '$', '^', '~']

  /** `symbolMap[Symbols[i]]`. */
  const Escapes: seq<string> := ["\\%", "\\&", "\\#", "\\_", "\\{", "\\}", "\\$",
    "\\textasciicircum{}", "\\textasciitilde{}"]

  /** What character `c` has become once the first `n` symbols are replaced. */
  function EscapeChar(c: char, n: nat): string
    requires n <= |Symbols|
    decreases n
  {
    if n == 0 then [c]
    else if Symbols[n - 1] == c then Escapes[n - 1]
    else EscapeChar(c, n - 1)
  }

  /** The text once the first `n` symbols are replaced: each character on its own. */
  function EscapeWith(s: string, n: nat): string
    requires n <= |Symbols|
    decreases |s|
  {
    if s == [] then [] else EscapeChar(s[0], n) + EscapeWith(s[1..], n)
  }

  /** The text with every special character escaped. */
  function Escaped(s: string): string {
    EscapeWith(s, |Symbols|)
  }

  /** `convertToLatex(description)` as a value: escaped, then bold converted. */
  function ToLatex(s: string): string {
    Markup.ReplaceBold(Escaped(s), "\\textbf{", "}")
  }

  /** No replacement text holds a symbol that is handled after it, so a
      later pass never rewrites what an earlier pass produced. */
  lemma EscapesHoldNoLaterSymbol(i: nat, n: nat)
    requires i < n < |Symbols|
    ensures Symbols[n] !in Escapes[i]
  {
  }

  lemma EscapeCharStep(c: char, n: nat)
    requires n < |Symbols|
    ensures ReplaceChar(EscapeChar(c, n), Symbols[n], Escapes[n]) == EscapeChar(c, n + 1)
  {
    if exists i :: 0 <= i < n && Symbols[i] == c {
      EscapeCharIsEscape(c, n);
      var i :| 0 <= i < n && EscapeChar(c, n) == Escapes[i];
      EscapesHoldNoLaterSymbol(i, n);
      assert Symbols[n] != c by {
        var j :| 0 <= j < n && Symbols[j] == c;
        assert Symbols[j] != Symbols[n];
      }
    } else {
      EscapeCharPlain(c, n);
      assert [c][1..] == [];
    }
  }

  lemma {:induction false} EscapeCharIsEscape(c: char, n: nat)
    requires n <= |Symbols|
    requires exists i :: 0 <= i < n && Symbols[i] == c
    ensures exists i :: 0 <= i < n && EscapeChar(c, n) == Escapes[i]
    decreases n
  {
    if Symbols[n - 1] == c {
      assert EscapeChar(c, n) == Escapes[n - 1];
    } else {
      var j :| 0 <= j < n && Symbols[j] == c;
      assert j < n - 1;
      EscapeCharIsEscape(c, n - 1);
      var i :| 0 <= i < n - 1 && EscapeChar(c, n - 1) == Escapes[i];
      assert EscapeChar(c, n) == Escapes[i];
    }
  }

  lemma {:induction false} EscapeCharPlain(c: char, n: nat)
    requires n <= |Symbols|
    requires forall i :: 0 <= i < n ==> Symbols[i] != c
    ensures EscapeChar(c, n) == [c]
    decreases n
  {
    if n > 0 {
      EscapeCharPlain(c, n - 1);
    }
  }

  /** One pass of the loop: replacing symbol `n` everywhere in the text with
      the first `n` symbols escaped gives the text with `n + 1` escaped. */
  lemma {:induction false} EscapeStep(s: string, n: nat)
    requires n < |Symbols|
    ensures ReplaceChar(EscapeWith(s, n), Symbols[n], Escapes[n]) == EscapeWith(s, n + 1)
    decreases |s|
  {
    if s != [] {
      EscapeStep(s[1..], n);
      ReplaceCharAppend(EscapeChar(s[0], n), EscapeWith(s[1..], n), Symbols[n], Escapes[n]);
      EscapeCharStep(s[0], n);
    }
  }

  /** `convertToLatex`: one global replacement per symbol, in key order,
      then the bold conversion. */
  method ConvertToLatex(description: string) returns (converted: string)
    ensures converted == ToLatex(description)
  {
    converted := description;
    assert converted == EscapeWith(description, 0) by {
      EscapeNone(description);
    }
    var i := 0;
    while i < |Symbols|
      invariant 0 <= i <= |Symbols|
      invariant converted == EscapeWith(description, i)
    {
      EscapeStep(description, i);
      converted := ReplaceChar(converted, Symbols[i], Escapes[i]);
      i := i + 1;
    }
    converted := Markup.ReplaceBold(converted, "\\textbf{", "}");
  }

  lemma {:induction false} EscapeNone(s: string)
    ensures EscapeWith(s, 0) == s
    decreases |s|
  {
    if s != [] {
      EscapeNone(s[1..]);
      assert [s[0]] + s[1..] == s;
    }
  }

  /** Each special character becomes its escape, and only those change:
      `Escaped` works character by character. */
  lemma EscapedChars(c: char, s: string, t: string)
    ensures Escaped(s + t) == Escaped(s) + Escaped(t)
    ensures forall i :: 0 <= i < |Symbols| ==> Escaped([Symbols[i]]) == Escapes[i]
    ensures c !in Symbols ==> Escaped([c]) == [c]
  {
    EscapedAppend(s, t);
    forall i | 0 <= i < |Symbols| ensures Escaped([Symbols[i]]) == Escapes[i] {
      EscapeCharFirst(i);
      EscapedSingle(Symbols[i]);
    }
    if c !in Symbols {
      EscapeCharPlain(c, |Symbols|);
      EscapedSingle(c);
    }
  }

  lemma EscapedSingle(c: char)
    ensures Escaped([c]) == EscapeChar(c, |Symbols|)
  {
    assert [c][1..] == [];
    assert EscapeWith([c], |Symbols|) == EscapeChar(c, |Symbols|) + EscapeWith([], |Symbols|);
  }

  /** The symbols are distinct, so each one's own escape is chosen. */
  lemma EscapeCharFirst(i: nat)
    requires i < |Symbols|
    ensures EscapeChar(Symbols[i], |Symbols|) == Escapes[i]
  {
    assert forall j :: i < j < |Symbols| ==> Symbols[j] != Symbols[i];
    var n := |Symbols|;
    while n > i + 1
      invariant i + 1 <= n <= |Symbols|
      invariant EscapeChar(Symbols[i], |Symbols|) == EscapeChar(Symbols[i], n)
    {
      n := n - 1;
    }
  }

  lemma {:induction false} EscapedAppend(s: string, t: string)
    ensures Escaped(s + t) == Escaped(s) + Escaped(t)
    decreases |s|
  {
    if s == [] {
      assert s + t == t;
    } else {
      assert (s + t)[0] == s[0] && (s + t)[1..] == s[1..] + t;
      EscapedAppend(s[1..], t);
    }
  }

  /** Text with no special character and no `**` is returned unchanged. */
  lemma PlainTextUnchanged(s: string)
    requires forall k :: 0 <= k < |s| ==> s[k] !in Symbols
    requires forall k :: 0 <= k < |s| - 1 ==> !(s[k] == '*' && s[k + 1] == '*')
    ensures ToLatex(s) == s
  {
    EscapedPlain(s);
    Markup.NoMarkerUnchanged(s, "\\textbf{", "}");
  }

  lemma {:induction false} EscapedPlain(s: string)
    requires forall k :: 0 <= k < |s| ==> s[k] !in Symbols
    ensures Escaped(s) == s
    decreases |s|
  {
    if s != [] {
      EscapedPlain(s[1..]);
      EscapeCharPlain(s[0], |Symbols|);
      assert [s[0]] + s[1..] == s;
    }
  }

  /** `**w**` becomes `\textbf{w}`, and the braces that replacement and the
      caret's escape introduce are not escaped themselves. */
  lemma BoldAndCaret(w: string)
    requires forall k :: 0 <= k < |w| ==> w[k] !in Symbols && w[k] != '*' && !IsLineTerminator(w[k])
    ensures ToLatex("**" + w + "**") == "\\textbf{" + w + "}"
    ensures ToLatex("^") == "\\textasciicircum{}"
    ensures ToLatex("{") == "\\{"
  {
    var s := "**" + w + "**";
    assert ToLatex(s) == "\\textbf{" + w + "}" by {
      assert forall k :: 0 <= k < |s| ==> s[k] !in Symbols;
      EscapedPlain(s);
      assert '*' !in w;
      Markup.WrappedWord(w, [], "\\textbf{", "}");
      assert s + [] == s;
    }
    assert ToLatex("^") == "\\textasciicircum{}" by {
      EscapedChars('^', [], []);
      assert Symbols[7] == '^';
      Markup.NoMarkerUnchanged("\\textasciicircum{}", "\\textbf{", "}");
    }
    assert ToLatex("{") == "\\{" by {
      EscapedChars('{', [], []);
      assert Symbols[4] == '{';
      Markup.NoMarkerUnchanged("\\{", "\\textbf{", "}");
    }
  }

  // ---------------------------------------------------------------------
  // The section builders of `previewPdf`.

  datatype LatexUser = LatexUser(firstName: string, lastName: string, email: string, username: string)
  datatype LatexContact = LatexContact(name: string, email: string, phoneNumber: string, linkedIn: string)

  /** A value interpolated into a template literal: an absent one prints as
      `undefined`. */
  function Shown(v: Option<string>): string {
    if v.Some? then v.value else "undefined"
  }

  /** `\header{title}` followed by the blocks, or nothing without blocks. */
  function Section(title: string, blocks: seq<string>): (r: string)
    ensures blocks == [] <==> r == []
  {
    if blocks == [] then [] else "\\header{" + title + "}\n" + Join(blocks, "\n")
  }

  function SummaryBlock(content: string): string {
    "\\textit{" + content + "}"
  }

  function EducationBlock(e: Education): string {
    var d := e.details;
    "\\school{" + d.university + "}{" + d.degree + "}{Graduation: " + DateText(d.isPresent, d.endDate)
      + "}{\\textit{" + d.major + " \\labelitemi GPA: " + d.cgpa + "}}"
  }

  /** The bullets of a converted description: one `\item` per
      `*`-separated segment after the first, trimmed. */
  function Items(latexDescription: string): (r: seq<string>)
    ensures |r| == CountChar(latexDescription, '*')
  {
    var parts := Split(latexDescription, '*');
    SplitCount(latexDescription, '*');
    seq(|parts| - 1, k requires 0 <= k < |parts| - 1 => "\\item " + Trim(parts[k + 1]))
  }

  function BulletList(latexDescription: string): string {
    "\\begin{bullet-list-minor}\n" + Join(Items(latexDescription), "\n") + "\n\\end{bullet-list-minor}"
  }

  function Period(start: MonthYear, isPresent: Option<bool>, endDate: MonthYear): string {
    start.month + "/" + start.year + " -- " + DateText(isPresent, endDate)
  }

  /** An experience: escaped title, company and location; the bullet list
      only for a description that is not blank. */
  function ExperienceBlock(e: Experience): string {
    var d := e.details;
    "\\employer{" + ToLatex(d.jobTitle) + "}{--" + ToLatex(d.company) + "}{" + Period(d.startDate, d.isPresent, d.endDate)
      + "}{" + ToLatex(d.location) + "}"
      + (if Trim(d.description) != [] then "\n" + BulletList(ToLatex(d.description)) else "")
  }

  /** A project: escaped name and skills; the bullet list is always there. */
  function ProjectBlock(p: Project): string {
    var d := p.details;
    "\\project{" + ToLatex(d.name) + "}{" + ToLatex(d.skills) + "}{" + Period(d.startDate, d.isPresent, d.endDate)
      + "}{\n" + BulletList(ToLatex(d.description)) + "\n}"
  }

  function CertificationBlock(c: Certification): string {
    var d := c.details;
    "\\begin{bullet-list-major}\n\\item \\textbf{" + d.name + "} \\labelitemi " + d.issuedBy + " \\hfill "
      + d.issuedDate.month + "/" + d.issuedDate.year + " -- " + d.expirationDate.month + "/" + d.expirationDate.year
      + "\n\\end{bullet-list-major}"
  }

  /** The segments after the first `*` of an involvement, unescaped. */
  function InvolvementLines(description: string): string {
    var parts := Split(description, '*');
    ConcatAll(seq(|parts| - 1, k requires 0 <= k < |parts| - 1 => "\\newline -{" + Trim(parts[k + 1]) + "}"))
  }

  function ConcatAll(pieces: seq<string>): string
    decreases |pieces|
  {
    if pieces == [] then [] else pieces[0] + ConcatAll(pieces[1..])
  }

  function InvolvementBlock(i: Involvement): string {
    var d := i.details;
    "\\begin{bullet-list-major}\n\\item \\textbf{" + d.role + "} \\labelitemi " + d.organization + " \\hfill "
      + Period(d.startDate, d.isPresent, d.endDate) + "\n" + InvolvementLines(d.description) + "\n\\end{bullet-list-major}"
  }

  function SkillBlock(s: Skill): string {
    "\\begin{bullet-list-major}\n\\item \\textbf{" + s.details.domain + ":} " + s.details.name + "\n\\end{bullet-list-major}"
  }

  function MapBlocks<T>(items: seq<T>, block: T -> string): (r: seq<string>)
    ensures |r| == |items|
    ensures forall k :: 0 <= k < |items| ==> r[k] == block(items[k])
  {
    seq(|items|, k requires 0 <= k < |items| => block(items[k]))
  }

  function SummarySection(summaries: seq<string>): string {
    Section("Summary", MapBlocks(summaries, SummaryBlock))
  }

  function EducationSection(educations: seq<Education>): string {
    Section("Education", MapBlocks(Included(educations), EducationBlock))
  }

  function ExperienceSection(experiences: seq<Experience>): string {
    Section("Experience", MapBlocks(Included(experiences), ExperienceBlock))
  }

  function ProjectSection(projects: seq<Project>): string {
    Section("Projects", MapBlocks(Included(projects), ProjectBlock))
  }

  function CertificationSection(certifications: seq<Certification>): string {
    Section("Certifications", MapBlocks(Included(certifications), CertificationBlock))
  }

  function InvolvementSection(involvements: seq<Involvement>): string {
    Section("Involvements", MapBlocks(Included(involvements), InvolvementBlock))
  }

  function SkillSection(skills: seq<Skill>): string {
    Section("Skills", MapBlocks(Included(skills), SkillBlock))
  }

  /** The name in the heading: the first contact's name when it is set, else
      the account's first and last name. */
  function HeaderName(contacts: seq<LatexContact>, user: Option<LatexUser>): (r: string)
    ensures contacts != [] && contacts[0].name != [] ==> r == contacts[0].name
    ensures (contacts == [] || contacts[0].name == []) && user.Some? ==> r == user.value.firstName + " " + user.value.lastName
  {
    if contacts != [] && contacts[0].name != [] then contacts[0].name
    else (Shown(if user.Some? then Some(user.value.firstName) else None) + " "
      + Shown(if user.Some? then Some(user.value.lastName) else None))
  }

  /** The e-mail in the heading, with the same fallback to the account. */
  function HeaderEmail(contacts: seq<LatexContact>, user: Option<LatexUser>): (r: string)
    ensures contacts != [] && contacts[0].email != [] ==> r == contacts[0].email
    ensures (contacts == [] || contacts[0].email == []) && user.Some? ==> r == user.value.email
  {
    if contacts != [] && contacts[0].email != [] then contacts[0].email
    else Shown(if user.Some? then Some(user.value.email) else None)
  }

  /** Only the entries marked for the resume produce blocks, one each, in
      order, and a section with none of them is the empty string. */
  lemma SectionsUseIncluded(experiences: seq<Experience>)
    ensures ExperienceSection(experiences) == [] <==> forall k :: 0 <= k < |experiences| ==> !experiences[k].includeInResume
  {
    if forall k :: 0 <= k < |experiences| ==> !experiences[k].includeInResume {
      NothingIncluded(experiences);
    } else {
      var k :| 0 <= k < |experiences| && experiences[k].includeInResume;
      assert experiences[k] in Included(experiences);
    }
  }

  /** A blank description gives no bullet list. */
  lemma BlankDescriptionNoList(e: Experience)
    requires Trim(e.details.description) == []
    ensures ExperienceBlock(e) == "\\employer{" + ToLatex(e.details.jobTitle) + "}{--" + ToLatex(e.details.company) + "}{"
        + Period(e.details.startDate, e.details.isPresent, e.details.endDate) + "}{" + ToLatex(e.details.location) + "}"
  {
  }

  /** A description `*a*b` without special characters gives the items `a`
      and `b`, trimmed. */
  lemma StarredItems(a: string, b: string)
    requires '*' !in a && '*' !in b
    requires forall k :: 0 <= k < |a| ==> a[k] !in Symbols
    requires forall k :: 0 <= k < |b| ==> b[k] !in Symbols
    ensures Items(ToLatex("*" + a + "*" + b)) == ["\\item " + Trim(a), "\\item " + Trim(b)]
  {
    var s := "*" + a + "*" + b;
    StarredTextUnchanged(a, b);
    Markup.StarredListSplit(a, b);
    var parts := Split(s, '*');
    var r := Items(s);
    assert |r| == 2 by {
      SplitCount(s, '*');
    }
    assert r[0] == "\\item " + Trim(parts[1]) && r[1] == "\\item " + Trim(parts[2]);
  }

  /** `*a*b` without special characters passes through the converter. */
  lemma StarredTextUnchanged(a: string, b: string)
    requires '*' !in a && '*' !in b
    requires forall k :: 0 <= k < |a| ==> a[k] !in Symbols
    requires forall k :: 0 <= k < |b| ==> b[k] !in Symbols
    ensures ToLatex("*" + a + "*" + b) == "*" + a + "*" + b
  {
    var s := "*" + a + "*" + b;
    assert forall k :: 0 <= k < |s| ==> s[k] !in Symbols by {
      forall k | 0 <= k < |s| ensures s[k] !in Symbols {
        if k == 0 || k == |a| + 1 {
        } else if k <= |a| {
          assert s[k] == a[k - 1];
        } else {
          assert s[k] == b[k - |a| - 2];
        }
      }
    }
    EscapedPlain(s);
    if a == [] {
      assert s == "**" + b;
      AfterOpeningStar(b);
    } else {
      Markup.StarredListPlain(a, b);
      Markup.NoMarkerUnchanged(s, "\\textbf{", "}");
    }
  }

  /** With an empty first item, `**b` has no closing marker and is kept. */
  lemma AfterOpeningStar(b: string)
    requires '*' !in b
    ensures Markup.ReplaceBold("**" + b, "\\textbf{", "}") == "**" + b
  {
    var s := "**" + b;
    forall j: nat ensures !Markup.Closes(s, 2, j) {
      if 2 <= j && j + 1 < |s| {
        assert s[j] == b[j - 2];
      }
    }
    assert Markup.CloseAt(s, 2) == None;
    assert s[1..] == "*" + b;
    assert Markup.CloseAt(s[1..], 2) == None by {
      forall j: nat ensures !Markup.Closes(s[1..], 2, j) {
        if 2 <= j && j < |s[1..]| {
          assert s[1..][j] == b[j - 1];
        }
      }
    }
    Markup.NoMarkerUnchanged(b, "\\textbf{", "}");
    assert s[1..][1..] == b;
  }

  /** The LaTeX document's variable part: heading, then the sections in the
      order summary, education, experience, skills, projects, certifications,
      involvements. */
  function Body(user: Option<LatexUser>, contacts: seq<LatexContact>, summaries: seq<string>,
                educations: seq<Education>, experiences: seq<Experience>, skills: seq<Skill>,
                projects: seq<Project>, certifications: seq<Certification>, involvements: seq<Involvement>): string
  {
    var phone := Shown(if contacts != [] then Some(contacts[0].phoneNumber) else None);
    var linkedIn := Shown(if contacts != [] then Some(contacts[0].linkedIn) else None);
    "{\\LARGE \\textbf{" + HeaderName(contacts, user) + "}} \\\\\n"
      + "\\faPhone\\ " + phone + " \\quad\n"
      + "\\faEnvelope\\ \\href{mailto:" + HeaderEmail(contacts, user) + "}{" + HeaderEmail(contacts, user) + "} \\quad\n"
      + "\\faLinkedin\\ \\url{" + linkedIn + "}\n"
      + SummarySection(summaries) + "\n" + EducationSection(educations) + "\n" + ExperienceSection(experiences) + "\n"
      + SkillSection(skills) + "\n" + ProjectSection(projects) + "\n" + CertificationSection(certifications) + "\n"
      + InvolvementSection(involvements)
  }

  /** The address the stored LaTeX file is served from. */
  function TexFileName(user: Option<LatexUser>): string {
    Shown(if user.Some? then Some(user.value.username) else None) + "_Resume"
  }
}
