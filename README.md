# Resume builder core in Dafny

ResumeCraft is a resume builder. Its React front end keeps one list editor
per resume section (education, experience, projects, skills, certifications,
involvements). It also shapes the stored resume into a portfolio page, a
jsPDF document and LaTeX source, and checks passwords, e-mail addresses and
one-time-password sessions. A small FastAPI service answers chat requests.

This project models the deterministic rules inside those components, with
one Dafny module per component:

- `ResumeData`: the shared entries `Entry<D>` (an `_id`, an
  `includeInResume` flag and the section's fields), with the list operations
  toggle-by-id, update-by-id, remove-by-id and included-only.
- `ListOps`: adjacent swaps, drag moves and filtering on sequences.
- `Text`: trimming, splitting, joining and ASCII case folding, as JavaScript
  and Python do them.
- `Description`, `Markup`, `LatexResume`: description formatting, the
  bold-selection toggle, `**x**` markup and LaTeX escaping.
- `ExperienceEditor`, `ProjectsEditor`, `InvolvementEditor`, `SkillsEditor`,
  `EducationEditor`, `CertificationEditor`: the `resume/*` section editors.
  Each is a class whose fields are the component's state and whose methods
  are its handlers.
- `LegacyEntries`: the older top-level editors. Its `CardEditor` covers
  Certification, Involvement and Projects; its `RecordEditor` covers
  Experience and Education.
- `ResumePdf`, `LegacyPdf`: the jsPDF cursor and page-break logic of the two
  `PDFHTML.tsx` files. Each has a pure layer of step functions and a writer
  class that runs the same steps in loops.
- `LegacyLatex`: the LaTeX builders of the older `MyPdfViewer.tsx`.
- `Portfolio`: the portfolio page's date text, item shaping, timeline sides
  and skill grouping.
- `ProfileCompletion`: the profile-completion percentage.
- `ProfilePage`: merge-by-id and delete-by-id on the profile page.
- `UploadResume`: the date rewriting of a parsed resume, and the upload and
  save handlers.
- Forms and pages:
  - `PasswordCriteria`;
  - `AuthRegister`, `LegacyRegister`, `ResetPassword`, `VerifyOtp`,
    `BrowserStorage`;
  - `UniversityDropdown`, `TemplatesPage`, `SkillsList`.
- `ChatService`: the `/chat` and `/health` endpoints.

The network is not modelled. A request's outcome is a parameter: a
`Reply<B>` is either `NoResponse` (the request failed) or
`Response(status, body)`, and `Succeeded` means a status in 200..299. The
clock is an integer parameter in milliseconds. `localStorage` is a map.
Text wrapping (`splitTextToSize`) and the chat language model are function
parameters.

Several behaviours of the code are modelled as written and shown by lemmas:

- The empty `/chat` input ends in a 500, not a 400 (`ChatService.Chat`).
- The older editors give every added entry id 0 (`LegacyEntries.AddedCardsShareId`).
- The skills box deletes by the filtered row index (`SkillsList.DeleteUsesListedIndex`).
- The portfolio's description extraction fails on text without `*`
  (`Portfolio.NoBulletThrows`).
- `transformDates` leaves `projects`/`certifications` alone (`UploadResume.OtherKeysKept`).
- The older registration form registers despite an invalid address
  (`LegacyRegister.InvalidEmailStillRegisters`).
- The jsPDF export skips the block whose check opened a new page
  (`ResumePdf.SkippedOnBreak`).

Source paths in the table are relative to the repository root.

## Model

| member | source | states |
|---|---|---|
| ResumeData.DateText | my-react-ts-app/src/components/resume/PDFHTML.tsx:194 | "Present" exactly when `isPresent` is true, otherwise `month/year` of the end date |
| ResumeData.PresentOrFalse | my-react-ts-app/src/components/resume/ExperienceSection.tsx:284 | `isPresent ?? false` is always defined, true exactly when the flag was true, and keeps a defined flag unchanged |
| ResumeData.NotFlag | my-react-ts-app/src/components/resume/Projects.tsx:337-343 | the toggled `isPresent` is always defined and is the negation of the old flag, a missing flag counting as false |
| ResumeData.ToggleInclude | my-react-ts-app/src/components/resume/ExperienceSection.tsx:268-287 | same length, ids and fields; `includeInResume` differs exactly on the entries whose id matches |
| ResumeData.ToggleIncludeTwice | my-react-ts-app/src/components/resume/InvolvementSection.tsx:169-173 | toggling the same id twice restores the list |
| ResumeData.ToggleIncludeAbsent | my-react-ts-app/src/components/resume/Skills.tsx:110-114 | toggling an id no entry has changes nothing |
| ResumeData.UpdateById | my-react-ts-app/src/components/resume/ExperienceSection.tsx:179-201 | same length and ids; matching entries take the edited flag and fields; every other entry is unchanged |
| ResumeData.UpdateByIdOverrides | my-react-ts-app/src/components/resume/CertificationSection.tsx:82-110 | a second update of the same id overrides the first |
| ResumeData.RemoveById | my-react-ts-app/src/components/resume/ExperienceSection.tsx:241-251 | keeps exactly the entries with another id, and the length drops by the number of matches |
| ResumeData.RemoveByIdAppend | my-react-ts-app/src/components/resume/CertificationSection.tsx:149-160 | removal works piecewise over a concatenation, so the order of the kept entries is preserved |
| ResumeData.RemoveByIdAbsent | my-react-ts-app/src/components/resume/Skills.tsx:96-108 | removing an absent id changes nothing; removing twice equals removing once |
| ResumeData.FindById | my-react-ts-app/src/components/resume/ExperienceSection.tsx:268-287 | `find` by id: none exactly when no entry has the id, otherwise an entry of the list with that id |
| ResumeData.FindAfterToggle | my-react-ts-app/src/components/resume/ExperienceSection.tsx:268-287 | after a toggle, the entry found for the id is the first match with its flag flipped |
| ResumeData.Included | my-react-ts-app/src/components/resume/PDFHTML.tsx:185-186 | keeps exactly the entries marked `includeInResume` |
| ResumeData.NothingIncluded | my-react-ts-app/src/components/profile-photo/MyPdfViewer.tsx:173-179 | a list with nothing marked for the resume filters to empty |
| ResumeData.GraduationYears | my-react-ts-app/src/components/resume/Education.tsx:70 | the year list has 57 entries |
| ResumeData.GraduationYearsRange | my-react-ts-app/src/components/resume/Education.tsx:70 | years run from currentYear+7 down by one to currentYear-49, and contain exactly that range |
| ResumeData.AppendSaved | my-react-ts-app/src/components/resume/Skills.tsx:85-89 | the list grows by one: the old list followed by the last element of the server's list |
| ListOps.Swapped | my-react-ts-app/src/components/resume/Projects.tsx:293-317 | positions i and j exchange contents; the length and every other position are kept |
| ListOps.SwappedPermutes | my-react-ts-app/src/components/resume/Projects.tsx:293-317 | a swap is a permutation |
| ListOps.SwappedTwice | my-react-ts-app/src/components/resume/Projects.tsx:293-317 | swapping twice restores the list |
| ListOps.SwapCopy | my-react-ts-app/src/components/resume/Projects.tsx:293-304 | the copy-and-swap through a temporary computes `Swapped` |
| ListOps.MoveUpEffect | my-react-ts-app/src/components/resume/ExperienceSection.tsx:99-107 | at i>0 positions i-1 and i swap and the rest is kept; at 0 nothing changes; always a permutation of the same length |
| ListOps.MoveDownEffect | my-react-ts-app/src/components/resume/ExperienceSection.tsx:109-117 | below the last index positions i and i+1 swap and the rest is kept; at the last index nothing changes |
| ListOps.MoveUpThenDown | my-react-ts-app/src/components/resume/ExperienceSection.tsx:99-117 | moving up at i then down at i-1 restores the list, and the other way round |
| ListOps.RemovedAt | my-react-ts-app/src/components/resume/Skills.tsx:193 | `splice(i, 1)`: one shorter, the prefix kept, the suffix shifted down |
| ListOps.InsertedAt | my-react-ts-app/src/components/resume/Skills.tsx:194 | `splice(i, 0, x)`: one longer, x at i, the prefix kept, the suffix shifted up |
| ListOps.MovedAt | my-react-ts-app/src/components/resume/Skills.tsx:188-199 | after a drag from src to dst, the element at each position, case by case |
| ListOps.MovedProperties | my-react-ts-app/src/components/resume/Skills.tsx:193-195 | same length; the dragged element lands at dst; src = dst is the identity; the others keep their relative order |
| ListOps.MovedPermutes | my-react-ts-app/src/components/resume/Skills.tsx:193-195 | a drag is a permutation |
| ListOps.MovedBack | my-react-ts-app/src/components/resume/Skills.tsx:193-195 | dragging back from dst to src restores the list |
| ListOps.MoveCopy | my-react-ts-app/src/components/resume/Skills.tsx:193-195 | the splice-out, splice-in on a copy computes `Moved` |
| Description.NewItemLines | my-react-ts-app/src/components/resume/ExperienceSection.tsx:289-305 | the new-item formatter keeps the number of lines |
| Description.FormatNewItemDescription | my-react-ts-app/src/components/resume/ExperienceSection.tsx:289-305 | the line loop computes the new-item description |
| Description.NewItemLinesRule | my-react-ts-app/src/components/resume/InvolvementSection.tsx:189-205 | same line count; a line gains `* ` exactly when it does not start with `*` and is line 0 or non-empty, else it is kept; the first line always starts with `*`; an empty first line becomes `* ` |
| Description.NewItemIdempotent | my-react-ts-app/src/components/resume/Projects.tsx:209-225 | formatting a new-item description twice equals formatting it once |
| Description.EditLines | my-react-ts-app/src/components/resume/ExperienceSection.tsx:307-327 | the edit formatter keeps the number of lines |
| Description.EditLinesRule | my-react-ts-app/src/components/resume/InvolvementSection.tsx:207-227 | same line count; blank lines and lines whose trimmed form starts with `*` are kept, every other line gains `* ` |
| Description.EditIdempotent | my-react-ts-app/src/components/resume/Projects.tsx:227-247 | formatting an edited description twice equals formatting it once |
| Description.BlankIffTrimEmpty | my-react-ts-app/src/components/resume/ExperienceSection.tsx:365-403 | a selection counts as blank exactly when its trimmed form is empty |
| Description.ApplyBoldBlank | my-react-ts-app/src/components/resume/Projects.tsx:381-420 | a blank selection leaves the text unchanged |
| Description.ApplyBoldInRange | my-react-ts-app/src/components/resume/ExperienceSection.tsx:365-403 | a non-blank selection is replaced by its toggled form, with the text around it kept |
| Description.ToggleWrapped | my-react-ts-app/src/components/resume/ExperienceSection.tsx:365-403 | a selection wrapped in `**` is never blank, looks bold and toggles back to its inside |
| Description.UnwrapRange | my-react-ts-app/src/components/resume/ExperienceSection.tsx:365-403 | selecting a wrapped range, markers included, and toggling gives the text without the markers |
| Description.WrapRange | my-react-ts-app/src/components/resume/Projects.tsx:381-420 | a non-blank selection that is not bold is wrapped in `**` in place |
| Description.WrapThenUnwrap | my-react-ts-app/src/components/resume/ExperienceSection.tsx:365-403 | wrapping a range, then toggling the wrapped range, restores the original text |
| Description.UnwrapStep | my-react-ts-app/src/components/resume/Projects.tsx:381-420 | a bold selection with non-blank inside is replaced by its inside |
| Description.RewrapStep | my-react-ts-app/src/components/resume/Projects.tsx:381-420 | toggling the unwrapped inside wraps it again and restores the text |
| Description.UnwrapThenWrap | my-react-ts-app/src/components/resume/ExperienceSection.tsx:365-403 | unwrapping then wrapping the inside restores the text |
| Description.ShortMarker | my-react-ts-app/src/components/resume/ExperienceSection.tsx:365-403 | a selection of `**` or `***` is not blank and toggles to the empty string |
| Description.ShortMarkerDeleted | my-react-ts-app/src/components/resume/Projects.tsx:381-420 | toggling a `**` or `***` selection deletes it from the text |
| ExperienceEditor.BlankExperience | my-react-ts-app/src/components/resume/ExperienceSection.tsx:253-266 | the reset form has an empty id, is included, and is not present |
| ExperienceEditor.Reported | my-react-ts-app/src/components/resume/ExperienceSection.tsx:161-173 | the reported entry keeps id and flag and has `isPresent ?? false` |
| ExperienceEditor.ExperienceSection.constructor | my-react-ts-app/src/components/resume/ExperienceSection.tsx:48 | the list starts as the props' list, with no edit and a blank form |
| ExperienceEditor.ExperienceSection.MoveUp | my-react-ts-app/src/components/resume/ExperienceSection.tsx:99-107 | the list becomes `MoveUp`; the new list is sent exactly when i>0; nothing else changes |
| ExperienceEditor.ExperienceSection.MoveDown | my-react-ts-app/src/components/resume/ExperienceSection.tsx:109-117 | the list becomes `MoveDown`; the new list is sent exactly when i is not last |
| ExperienceEditor.ExperienceSection.EditClick | my-react-ts-app/src/components/resume/ExperienceSection.tsx:161-173 | the edit buffer holds the entry with `isPresent ?? false`; the list is kept |
| ExperienceEditor.ExperienceSection.CancelEdit | my-react-ts-app/src/components/resume/ExperienceSection.tsx:175-177 | the edit buffer is cleared; nothing else changes |
| ExperienceEditor.ExperienceSection.Update | my-react-ts-app/src/components/resume/ExperienceSection.tsx:179-201 | with an edit, the matching entries take its fields and the buffer is cleared; without one the list is kept |
| ExperienceEditor.ExperienceSection.SaveClick | my-react-ts-app/src/components/resume/ExperienceSection.tsx:203-239 | on success the server's last entry is appended and the form resets; otherwise nothing changes |
| ExperienceEditor.ExperienceSection.Delete | my-react-ts-app/src/components/resume/ExperienceSection.tsx:241-251 | on a 2xx reply the id's entries are removed and the buffer cleared; otherwise nothing changes |
| ExperienceEditor.ExperienceSection.AddClick | my-react-ts-app/src/components/resume/ExperienceSection.tsx:253-266 | the form is blank and adding starts; the list is kept |
| ExperienceEditor.ExperienceSection.ToggleInclude | my-react-ts-app/src/components/resume/ExperienceSection.tsx:268-287 | the list becomes `ToggleInclude`; the toggled entry is reported exactly when the id exists |
| ExperienceEditor.ExperienceSection.DescriptionChange | my-react-ts-app/src/components/resume/ExperienceSection.tsx:289-305 | the form's description becomes the new-item formatting of the typed text |
| ExperienceEditor.ExperienceSection.EditDescriptionChange | my-react-ts-app/src/components/resume/ExperienceSection.tsx:307-327 | the edit buffer's description becomes the edit formatting of the typed text; no buffer, no change |
| ExperienceEditor.ExperienceSection.TogglePresent | my-react-ts-app/src/components/resume/ExperienceSection.tsx:329-335 | flips `isPresent` on the edit buffer when there is one, else on the form; exactly one of them changes |
| ExperienceEditor.ExperienceSection.ApplyBold | my-react-ts-app/src/components/resume/ExperienceSection.tsx:365-403 | toggles bold in the edit buffer's description when editing, in the form's when adding, else nothing |
| ProjectsEditor.BlankProject | my-react-ts-app/src/components/resume/Projects.tsx:175-187 | the reset form has an empty id, is included, and is not present |
| ProjectsEditor.Reported | my-react-ts-app/src/components/resume/Projects.tsx:189-207 | the reported entry keeps id and flag and has `isPresent ?? false` |
| ProjectsEditor.ProjectsSection.constructor | my-react-ts-app/src/components/resume/Projects.tsx:36 | the list starts as the props' list, with no edit and a blank form |
| ProjectsEditor.ProjectsSection.MoveUp | my-react-ts-app/src/components/resume/Projects.tsx:293-304 | the list becomes `MoveUp`; the new list is sent exactly when i>0 |
| ProjectsEditor.ProjectsSection.MoveDown | my-react-ts-app/src/components/resume/Projects.tsx:306-317 | the list becomes `MoveDown`; the new list is sent exactly when i is not last |
| ProjectsEditor.ProjectsSection.EditClick | my-react-ts-app/src/components/resume/Projects.tsx:85-91 | the edit buffer holds the entry with `isPresent ?? false` |
| ProjectsEditor.ProjectsSection.CancelEdit | my-react-ts-app/src/components/resume/Projects.tsx:93-95 | the edit buffer is cleared; nothing else changes |
| ProjectsEditor.ProjectsSection.Update | my-react-ts-app/src/components/resume/Projects.tsx:97-118 | matching entries take the buffer's fields, others and the length are kept, the buffer is cleared |
| ProjectsEditor.ProjectsSection.SaveClick | my-react-ts-app/src/components/resume/Projects.tsx:120-158 | on success the server's last project is appended and the form resets; otherwise nothing changes |
| ProjectsEditor.ProjectsSection.Delete | my-react-ts-app/src/components/resume/Projects.tsx:160-173 | on a 2xx reply the id's entries are removed; otherwise nothing changes |
| ProjectsEditor.ProjectsSection.AddClick | my-react-ts-app/src/components/resume/Projects.tsx:175-187 | the form is blank and adding starts |
| ProjectsEditor.ProjectsSection.ToggleInclude | my-react-ts-app/src/components/resume/Projects.tsx:189-207 | only the matching entry's flag flips, and it is reported with `isPresent ?? false` |
| ProjectsEditor.ProjectsSection.DescriptionChange | my-react-ts-app/src/components/resume/Projects.tsx:209-225 | the form's description becomes the new-item formatting |
| ProjectsEditor.ProjectsSection.EditDescriptionChange | my-react-ts-app/src/components/resume/Projects.tsx:227-247 | the edit buffer's description becomes the edit formatting |
| ProjectsEditor.ProjectsSection.TogglePresent | my-react-ts-app/src/components/resume/Projects.tsx:337-343 | flips `isPresent` on the edit buffer when editing, else on the form; exactly one changes |
| ProjectsEditor.ProjectsSection.ApplyBold | my-react-ts-app/src/components/resume/Projects.tsx:381-420 | toggles bold in the description being edited or added |
| InvolvementEditor.BlankInvolvement | my-react-ts-app/src/components/resume/InvolvementSection.tsx:155-167 | the reset form has an empty id, is included, and is not present |
| InvolvementEditor.Reported | my-react-ts-app/src/components/resume/InvolvementSection.tsx:169-187 | the reported entry keeps id and flag and has `isPresent ?? false` |
| InvolvementEditor.InvolvementSection.constructor | my-react-ts-app/src/components/resume/InvolvementSection.tsx:29 | the list starts as the props' list, with no edit and a blank form |
| InvolvementEditor.InvolvementSection.EditClick | my-react-ts-app/src/components/resume/InvolvementSection.tsx:70-73 | the edit buffer holds the entry |
| InvolvementEditor.InvolvementSection.CancelEdit | my-react-ts-app/src/components/resume/InvolvementSection.tsx:75-77 | the edit buffer is cleared |
| InvolvementEditor.InvolvementSection.Update | my-react-ts-app/src/components/resume/InvolvementSection.tsx:79-100 | matching entries take the buffer's fields, the rest and the length are kept, the buffer is cleared |
| InvolvementEditor.InvolvementSection.SaveClick | my-react-ts-app/src/components/resume/InvolvementSection.tsx:102-138 | on success the server's last entry is appended and the form resets |
| InvolvementEditor.InvolvementSection.Delete | my-react-ts-app/src/components/resume/InvolvementSection.tsx:140-153 | any HTTP response, error statuses included, removes the id's entries; only a network failure keeps the list |
| InvolvementEditor.InvolvementSection.AddClick | my-react-ts-app/src/components/resume/InvolvementSection.tsx:155-167 | the form is blank and adding starts |
| InvolvementEditor.InvolvementSection.ToggleInclude | my-react-ts-app/src/components/resume/InvolvementSection.tsx:169-187 | only the matching entry's flag flips, and it is reported |
| InvolvementEditor.InvolvementSection.DescriptionChange | my-react-ts-app/src/components/resume/InvolvementSection.tsx:189-205 | the form's description becomes the new-item formatting |
| InvolvementEditor.InvolvementSection.EditDescriptionChange | my-react-ts-app/src/components/resume/InvolvementSection.tsx:207-227 | the edit buffer's description becomes the edit formatting |
| InvolvementEditor.InvolvementSection.TogglePresent | my-react-ts-app/src/components/resume/InvolvementSection.tsx:268-274 | flips `isPresent` on the edit buffer when editing, else on the form |
| SkillsEditor.BlankSkill | my-react-ts-app/src/components/resume/Skills.tsx:85-89 | the reset skill is empty and included |
| SkillsEditor.SkillsSection.constructor | my-react-ts-app/src/components/resume/Skills.tsx:28 | the list starts as the props' list, with no edit and a blank form |
| SkillsEditor.SkillsSection.MoveUp | my-react-ts-app/src/components/resume/Skills.tsx:164-171 | swaps with the previous skill only when the index is above 0, and sends the list then |
| SkillsEditor.SkillsSection.MoveDown | my-react-ts-app/src/components/resume/Skills.tsx:173-180 | swaps with the next skill only when the index is not last |
| SkillsEditor.SkillsSection.DragEnd | my-react-ts-app/src/components/resume/Skills.tsx:188-199 | no destination leaves the list unchanged and sends nothing; otherwise the list becomes `Moved` and is sent |
| SkillsEditor.SkillsSection.EditClick | my-react-ts-app/src/components/resume/Skills.tsx:61-63 | the edit buffer holds the skill |
| SkillsEditor.SkillsSection.CancelEdit | my-react-ts-app/src/components/resume/Skills.tsx:65-67 | the edit buffer is cleared |
| SkillsEditor.SkillsSection.Update | my-react-ts-app/src/components/resume/Skills.tsx:69-80 | matching skills take the buffer's fields and the buffer is cleared |
| SkillsEditor.SkillsSection.SaveClick | my-react-ts-app/src/components/resume/Skills.tsx:82-94 | on success exactly the last returned skill is appended and the form resets to an empty included skill |
| SkillsEditor.SkillsSection.Delete | my-react-ts-app/src/components/resume/Skills.tsx:96-108 | any response removes only the id's skills and clears the buffer |
| SkillsEditor.SkillsSection.AddClick | my-react-ts-app/src/components/resume/Skills.tsx:126-134 | the form is blank and adding starts |
| SkillsEditor.SkillsSection.ToggleInclude | my-react-ts-app/src/components/resume/Skills.tsx:110-124 | only the matching skill's flag flips, and it is reported |
| EducationEditor.BlankEducation | my-react-ts-app/src/components/resume/Education.tsx:255-268 | the reset form has an empty id, is included, and is not present |
| EducationEditor.Reported | my-react-ts-app/src/components/resume/Education.tsx:190-209 | the reported entry keeps id and flag and has `isPresent ?? false` |
| EducationEditor.EducationSection.constructor | my-react-ts-app/src/components/resume/Education.tsx:48 | the list starts empty, with no edit and a blank form |
| EducationEditor.EducationSection.EditClick | my-react-ts-app/src/components/resume/Education.tsx:103-115 | the edit buffer holds the entry with `isPresent ?? false` |
| EducationEditor.EducationSection.CancelEdit | my-react-ts-app/src/components/resume/Education.tsx:117-119 | the edit buffer is cleared |
| EducationEditor.EducationSection.Update | my-react-ts-app/src/components/resume/Education.tsx:121-153 | matching entries take all the buffer's fields and keep `_id`; the others are kept |
| EducationEditor.EducationSection.SaveClick | my-react-ts-app/src/components/resume/Education.tsx:212-253 | on success the server's last entry is appended and the form resets |
| EducationEditor.EducationSection.Delete | my-react-ts-app/src/components/resume/Education.tsx:155-176 | only an ok response removes the entry; a non-ok status leaves the list unchanged |
| EducationEditor.EducationSection.AddClick | my-react-ts-app/src/components/resume/Education.tsx:255-268 | the form is blank and adding starts |
| EducationEditor.EducationSection.ToggleInclude | my-react-ts-app/src/components/resume/Education.tsx:190-209 | only the matching entry's flag flips, and it is reported with `isPresent ?? false` |
| EducationEditor.EducationSection.TogglePresent | my-react-ts-app/src/components/resume/Education.tsx:270-276 | flips `isPresent` on the edit buffer when there is one, else on the form |
| CertificationEditor.BlankCertification | my-react-ts-app/src/components/resume/CertificationSection.tsx:162-173 | the reset form is empty and included |
| CertificationEditor.CertificationSection.constructor | my-react-ts-app/src/components/resume/CertificationSection.tsx:26 | the list starts as the props' list, with no edit and a blank form |
| CertificationEditor.CertificationSection.EditClick | my-react-ts-app/src/components/resume/CertificationSection.tsx:66-76 | the edit buffer holds the certification |
| CertificationEditor.CertificationSection.CancelEdit | my-react-ts-app/src/components/resume/CertificationSection.tsx:78-80 | the edit buffer is cleared |
| CertificationEditor.CertificationSection.Update | my-react-ts-app/src/components/resume/CertificationSection.tsx:82-110 | matching entries take the buffer's fields, the length and the rest are kept, the buffer is cleared |
| CertificationEditor.CertificationSection.SaveClick | my-react-ts-app/src/components/resume/CertificationSection.tsx:112-147 | on success the server's last certification is appended, then the form and `isAdding` reset |
| CertificationEditor.CertificationSection.Delete | my-react-ts-app/src/components/resume/CertificationSection.tsx:149-160 | on a 2xx reply exactly the id's entries are removed |
| CertificationEditor.CertificationSection.AddClick | my-react-ts-app/src/components/resume/CertificationSection.tsx:162-173 | always an empty, included form, and adding starts |
| CertificationEditor.CertificationSection.ToggleInclude | my-react-ts-app/src/components/resume/CertificationSection.tsx:175-192 | only the matching certification's flag flips; other fields are kept |
| Markup.NoMarkerUnchanged | my-react-ts-app/src/components/resume/PDFHTML.tsx:289-293 | text without `**` is unchanged by the bold replacement |
| Markup.PlainPrefix | my-react-ts-app/src/components/resume/PDFHTML.tsx:289-293 | a star-free prefix passes through the replacement untouched |
| Markup.WrappedWord | my-react-ts-app/src/components/resume/PDFHTML.tsx:289-293 | `**w**` at the front becomes open + w + close, the rest is replaced independently |
| Markup.MarkedInPlainText | my-react-ts-app/src/components/profile-photo/MyPdfViewer.tsx:149 | `p**w**q` with star-free parts becomes p + open + w + close + q |
| Markup.NoMatchAcrossLines | my-react-ts-app/src/components/resume/PDFHTML.tsx:289-293 | the non-greedy `.*?` does not cross a line break, so `**a\nb**` stays as it is |
| Markup.Segments | my-react-ts-app/src/components/resume/PDFHTML.tsx:289-293 | the `*`-separated pieces contain no `*` |
| Markup.TrimAll | my-react-ts-app/src/components/resume/PDFHTML.tsx:289-293 | each piece trimmed, same count |
| Markup.DescriptionItems | my-react-ts-app/src/components/resume/PDFHTML.tsx:289-293 | one item per non-blank segment; no item is empty or contains `*` |
| Markup.Concat | my-react-ts-app/src/components/resume/PDFHTML.tsx:289-293 | no items give the empty string |
| Markup.PlainDescription | my-react-ts-app/src/components/PDFHTML.tsx:249-253 | star-free text gives one `<li>` of its trimmed form, or nothing when blank |
| Markup.StarredList | my-react-ts-app/src/components/resume/PDFHTML.tsx:289-293 | `*a*b` gives the two trimmed items in order |
| Markup.StarredListPlain | my-react-ts-app/src/components/resume/PDFHTML.tsx:289-293 | `*a*b` with non-empty a holds no `**`, so the bold pass leaves it |
| Markup.StarredListSplit | my-react-ts-app/src/components/resume/PDFHTML.tsx:289-293 | `*a*b` splits into an empty first piece, a and b |
| LatexResume.ConvertToLatex | my-react-ts-app/src/components/profile-photo/MyPdfViewer.tsx:127-152 | the loop over the symbol map, then the bold pass, computes `ToLatex` |
| LatexResume.EscapedChars | my-react-ts-app/src/components/profile-photo/MyPdfViewer.tsx:129-146 | escaping works character by character: each of `% & # _ { } $ ^ ~` becomes its replacement, any other character is kept |
| LatexResume.EscapeCharFirst | my-react-ts-app/src/components/profile-photo/MyPdfViewer.tsx:135-146 | a special character becomes exactly its own replacement, so braces introduced by `^`/`~` are not escaped again |
| LatexResume.EscapesHoldNoLaterSymbol | my-react-ts-app/src/components/profile-photo/MyPdfViewer.tsx:129-139 | no replacement contains a symbol handled after it in key order |
| LatexResume.PlainTextUnchanged | my-react-ts-app/src/components/profile-photo/MyPdfViewer.tsx:142-151 | text without special characters and without `**` is returned unchanged |
| LatexResume.BoldAndCaret | my-react-ts-app/src/components/profile-photo/MyPdfViewer.tsx:137-149 | `**w**` becomes `\textbf{w}`, `^` becomes `\textasciicircum{}` and `{` becomes `\{` |
| LatexResume.Section | my-react-ts-app/src/components/profile-photo/MyPdfViewer.tsx:187-194 | a section is empty exactly when it has no blocks |
| LatexResume.Items | my-react-ts-app/src/components/profile-photo/MyPdfViewer.tsx:207-216 | one `\item` per `*` in the converted description |
| LatexResume.MapBlocks | my-react-ts-app/src/components/profile-photo/MyPdfViewer.tsx:189-193 | one block per entry, in order |
| LatexResume.HeaderName | my-react-ts-app/src/components/profile-photo/MyPdfViewer.tsx:354-359 | the first contact's name when present, else "first last" of the user |
| LatexResume.HeaderEmail | my-react-ts-app/src/components/profile-photo/MyPdfViewer.tsx:354-359 | the first contact's e-mail when present, else the user's |
| LatexResume.SectionsUseIncluded | my-react-ts-app/src/components/profile-photo/MyPdfViewer.tsx:173-179 | the experience section is empty exactly when no experience is included |
| LatexResume.BlankDescriptionNoList | my-react-ts-app/src/components/profile-photo/MyPdfViewer.tsx:207-216 | a blank description adds no bullet list to the block |
| LatexResume.StarredItems | my-react-ts-app/src/components/profile-photo/MyPdfViewer.tsx:207-216 | `*a*b` gives `\item a` and `\item b`, trimmed, after the first segment |
| LatexResume.AfterOpeningStar | my-react-ts-app/src/components/profile-photo/MyPdfViewer.tsx:149 | an unclosed `**` is left as it is |
| LegacyLatex.Items | my-react-ts-app/src/components/MyPdfViewer.tsx:305 | one `\item` per `*` in the description |
| LegacyLatex.Blocks | my-react-ts-app/src/components/MyPdfViewer.tsx:296-352 | no entries give the empty string; one entry gives its block |
| LegacyLatex.Outline | my-react-ts-app/src/components/MyPdfViewer.tsx:458-486 | the seven sections come in the order Summary, Education, Experience, Skills, Projects, Certifications, Involvements, each after its spacing command (`\vspace{15pt}` before Education, `\vspace*{4pt}%` before the rest), holding the given contents |
| LegacyLatex.TitledHeaders | my-react-ts-app/src/components/MyPdfViewer.tsx:458-486 | a body built from sections in that order has exactly those seven `\header` lines, in that order |
| LegacyLatex.PreviewSections | my-react-ts-app/src/components/MyPdfViewer.tsx:458-486 | the preview fills every section, in order, with the summary, education, experience (blank-line separated), skill, project, certification and involvement blocks |
| LegacyLatex.SameContactLines | my-react-ts-app/src/components/MyPdfViewer.tsx:452-457 | the preview heading shows the signed-in user's name and e-mail; its centring, phone number and LinkedIn lines are the same fixed text as the download heading's |
| LegacyLatex.PreviewBody | my-react-ts-app/src/components/MyPdfViewer.tsx:446-487 | the preview body opens with `\begin{document}`, `\small`, `\smallskip`, `\vspace*{-44pt}`, ends with `\end{document}` and has the seven headers in order |
| LegacyLatex.GenerateSections | my-react-ts-app/src/components/MyPdfViewer.tsx:213-240 | the download template has the same seven sections but fills only Education and Experience, with its shorter blocks |
| LegacyLatex.GenerateBody | my-react-ts-app/src/components/MyPdfViewer.tsx:200-243 | the download body opens and ends like the preview and has the seven headers in order |
| LegacyLatex.SameOutline | my-react-ts-app/src/components/MyPdfViewer.tsx:213-240 | both templates give the same spacing and titles section by section; the preview leaves no section empty, the download fills exactly Education and Experience |
| LegacyLatex.DownloadName | my-react-ts-app/src/components/MyPdfViewer.tsx:255 | `first_last_resume.pdf`, with `undefined` for a missing user |
| LegacyLatex.NoIncludeFiltering | my-react-ts-app/src/components/MyPdfViewer.tsx:317-322 | the include flag does not change the output; every experience yields one block |
| LegacyLatex.StarredItems | my-react-ts-app/src/components/MyPdfViewer.tsx:305 | `*a*b` gives two trimmed `\item` lines |
| LegacyLatex.StarredInvolvement | my-react-ts-app/src/components/MyPdfViewer.tsx:330 | involvement segments become `\newline -{part}` untrimmed |
| LegacyLatex.NoStarNoItems | my-react-ts-app/src/components/MyPdfViewer.tsx:305 | star-free descriptions give no items and no involvement lines |
| LegacyLatex.NotEscaped | my-react-ts-app/src/components/MyPdfViewer.tsx:302-303 | a project named `%` is inserted raw, while the newer builder escapes it to `\%` |
| LegacyLatex.EscapedProjectName | my-react-ts-app/src/components/profile-photo/MyPdfViewer.tsx:224-245 | the newer builder opens a project block with `\project{` and the converted name |
| LegacyLatex.PercentEscaped | my-react-ts-app/src/components/profile-photo/MyPdfViewer.tsx:129-139 | the converter turns `%` into `\%` |
| ResumePdf.PageBreak | my-react-ts-app/src/components/resume/PDFHTML.tsx:116-123 | keeps the drawn text; when the block fits nothing changes, else a page is added and the cursor returns to the margin |
| ResumePdf.PageBreakRule | my-react-ts-app/src/components/resume/PDFHTML.tsx:116-123 | a page is added exactly when cursorY + h > pageHeight - margin; afterwards the block fits when it already did or when it is no taller than a page |
| ResumePdf.ContactFields | my-react-ts-app/src/components/resume/PDFHTML.tsx:138-142 | at most three fields, none empty |
| ResumePdf.ContactLineCases | my-react-ts-app/src/components/resume/PDFHTML.tsx:138-144 | phone, e-mail and LinkedIn in that order, joined by " \| ", each missing or empty one dropped |
| ResumePdf.BulletLines | my-react-ts-app/src/components/resume/PDFHTML.tsx:220-222 | one drawn line per description line |
| ResumePdf.BulletLineRule | my-react-ts-app/src/components/resume/PDFHTML.tsx:220-222 | every drawn line starts with `•` once trimmed; a line that already did is kept |
| ResumePdf.FileName | my-react-ts-app/src/components/resume/PDFHTML.tsx:285 | `username.pdf`, or `resume.pdf` for an empty user name |
| ResumePdf.SummaryPlacement | my-react-ts-app/src/components/resume/PDFHTML.tsx:169-182 | each summary line is drawn or spent on a page break, never both; drawn lines lie inside the page with room for their height |
| ResumePdf.EducationPlacement | my-react-ts-app/src/components/resume/PDFHTML.tsx:184-203 | each entry is drawn as three texts or spent on a page break; drawn texts stay above the bottom margin |
| ResumePdf.SkippedOnBreak | my-react-ts-app/src/components/resume/PDFHTML.tsx:169-283 | a summary line, entry, description line, skill or project whose check opens a page is skipped, not drawn on the new page |
| ResumePdf.PiecesPlacement | my-react-ts-app/src/components/resume/PDFHTML.tsx:223-231 | wrapped pieces of a line are drawn 15 points apart with no check between them |
| ResumePdf.LongLineLeavesPage | my-react-ts-app/src/components/resume/PDFHTML.tsx:223-231 | a long wrapped line that passes its check can still run past the page bottom |
| ResumePdf.EmptySectionsOmitted | my-react-ts-app/src/components/resume/PDFHTML.tsx:184-283 | a section with no included entries, or an empty first summary, draws nothing |
| ResumePdf.PdfWriter.constructor | my-react-ts-app/src/components/resume/PDFHTML.tsx:95-115 | the cursor starts at the margin of the first page, nothing drawn |
| ResumePdf.PdfWriter.AddPageIfNeeded | my-react-ts-app/src/components/resume/PDFHTML.tsx:116-123 | returns true exactly when the block does not fit; the state becomes `PageBreak` |
| ResumePdf.PdfWriter.Text | my-react-ts-app/src/components/resume/PDFHTML.tsx:128-133 | a `doc.text` call records the text at the cursor on the current page |
| ResumePdf.PdfWriter.Summary | my-react-ts-app/src/components/resume/PDFHTML.tsx:176-181 | the summary loop does what the summary steps do |
| ResumePdf.PdfWriter.Education | my-react-ts-app/src/components/resume/PDFHTML.tsx:188-201 | the education loop does what the education steps do |
| ResumePdf.PdfWriter.Pieces | my-react-ts-app/src/components/resume/PDFHTML.tsx:226-229 | the wrapped pieces loop does what the piece steps do |
| ResumePdf.PdfWriter.DrawDescriptionLines | my-react-ts-app/src/components/resume/PDFHTML.tsx:219-231 | the description loop does what the description steps do |
| ResumePdf.PdfWriter.DrawDatedBlock | my-react-ts-app/src/components/resume/PDFHTML.tsx:211-233 | title, date and bullets as the pure block |
| ResumePdf.PdfWriter.Experience | my-react-ts-app/src/components/resume/PDFHTML.tsx:209-234 | the experience loop does what the experience steps do |
| ResumePdf.PdfWriter.Projects | my-react-ts-app/src/components/resume/PDFHTML.tsx:257-282 | the project loop does what the project steps do |
| ResumePdf.PdfWriter.Skills | my-react-ts-app/src/components/resume/PDFHTML.tsx:241-250 | the skill loop does what the skill steps do |
| ResumePdf.PdfWriter.AddSectionStart | my-react-ts-app/src/components/resume/PDFHTML.tsx:147-167 | the section title and rule as `SectionStart` |
| ResumePdf.PdfWriter.DrawHeader | my-react-ts-app/src/components/resume/PDFHTML.tsx:128-144 | the name and contact line as `Header` |
| ResumePdf.PdfWriter.DrawSummary | my-react-ts-app/src/components/resume/PDFHTML.tsx:169-182 | the summary section as `SummarySection` |
| ResumePdf.PdfWriter.DrawEducation | my-react-ts-app/src/components/resume/PDFHTML.tsx:184-203 | the education section as `EducationSection` |
| ResumePdf.PdfWriter.DrawExperience | my-react-ts-app/src/components/resume/PDFHTML.tsx:205-235 | the experience section as `ExperienceSection` |
| ResumePdf.PdfWriter.DrawSkills | my-react-ts-app/src/components/resume/PDFHTML.tsx:237-251 | the skills section as `SkillsSection` |
| ResumePdf.PdfWriter.DrawProjects | my-react-ts-app/src/components/resume/PDFHTML.tsx:253-283 | the projects section as `ProjectsSection` |
| ResumePdf.PdfWriter.Generate | my-react-ts-app/src/components/resume/PDFHTML.tsx:95-286 | the whole document equals `Layout`, and the file name is `FileName` |
| LegacyPdf.AddPageIfNeeded | my-react-ts-app/src/components/PDFHTML.tsx:137-142 | afterwards cursorY ≤ 750: it was already, or a page was added and the cursor reset to 50 |
| LegacyPdf.PlaceLines | my-react-ts-app/src/components/PDFHTML.tsx:123-135 | one placed text per wrapped line |
| LegacyPdf.BulletListAdvance | my-react-ts-app/src/components/PDFHTML.tsx:123-135 | a bullet list advances the cursor by 12 per wrapped line plus 10, on the same page, adding one text per line |
| LegacyPdf.OrNA | my-react-ts-app/src/components/PDFHTML.tsx:152-157 | never empty; a present value is kept |
| LegacyPdf.ContactTextCases | my-react-ts-app/src/components/PDFHTML.tsx:152-157 | phone, e-mail and LinkedIn each shown, with "N/A" for a missing one |
| LegacyPdf.FileName | my-react-ts-app/src/components/PDFHTML.tsx:223 | `username.pdf`, or `Resume.pdf` for an empty user name |
| LegacyPdf.EntryNeverSkipped | my-react-ts-app/src/components/PDFHTML.tsx:113-122 | an entry's title is always drawn, at the cursor on the current page with no check before it, and afterwards the cursor is above the break line |
| LegacyPdf.ExcludedEntriesIgnored | my-react-ts-app/src/components/PDFHTML.tsx:165-178 | only included entries are listed, and the header is drawn even when none is |
| LegacyPdf.SkillsFixed | my-react-ts-app/src/components/PDFHTML.tsx:192-207 | the skills section is its header plus one line per fixed group |
| LegacyPdf.GroupsAddOneEach | my-react-ts-app/src/components/PDFHTML.tsx:192-207 | each group adds exactly one line of its text |
| LegacyPdf.LegacyPdfWriter.constructor | my-react-ts-app/src/components/PDFHTML.tsx:95-103 | the cursor starts at the top margin of the first page |
| LegacyPdf.LegacyPdfWriter.AddPage | my-react-ts-app/src/components/PDFHTML.tsx:137-142 | the state becomes `AddPageIfNeeded` |
| LegacyPdf.LegacyPdfWriter.Text | my-react-ts-app/src/components/PDFHTML.tsx:104-111 | a `doc.text` call records the text on the current page |
| LegacyPdf.LegacyPdfWriter.Header | my-react-ts-app/src/components/PDFHTML.tsx:104-111 | the state becomes `DrawHeader` |
| LegacyPdf.LegacyPdfWriter.SubHeader | my-react-ts-app/src/components/PDFHTML.tsx:113-122 | the state becomes `DrawSubHeader` |
| LegacyPdf.LegacyPdfWriter.BulletList | my-react-ts-app/src/components/PDFHTML.tsx:123-135 | the bullet loop does what `DrawBulletList` does |
| LegacyPdf.LegacyPdfWriter.Education | my-react-ts-app/src/components/PDFHTML.tsx:165-178 | the education loop as `EducationSection` |
| LegacyPdf.LegacyPdfWriter.Experience | my-react-ts-app/src/components/PDFHTML.tsx:179-191 | the experience loop as `ExperienceSection` |
| LegacyPdf.LegacyPdfWriter.Skills | my-react-ts-app/src/components/PDFHTML.tsx:192-207 | the skills loop as `SkillsSection` |
| LegacyPdf.LegacyPdfWriter.Projects | my-react-ts-app/src/components/PDFHTML.tsx:208-220 | the project loop as `ProjectsSection` |
| LegacyPdf.LegacyPdfWriter.Generate | my-react-ts-app/src/components/PDFHTML.tsx:95-224 | the whole document equals `Layout`, and the file name is `FileName` |
| Portfolio.FormatDate | my-react-ts-app/src/components/Portfolio/portfolio.tsx:557-560 | "Present" exactly when `isPresent` is true |
| Portfolio.StartNeverPresent | my-react-ts-app/src/components/Portfolio/portfolio.tsx:977 | a start date, formatted without the flag, is never "Present"; the span is "start – end" |
| Portfolio.StripBold | my-react-ts-app/src/components/Portfolio/portfolio.tsx:980 | deleting `**` never lengthens the text nor adds characters |
| Portfolio.StripBoldPlain | my-react-ts-app/src/components/Portfolio/portfolio.tsx:980 | text without `**` is kept |
| Portfolio.ExtractDescription | my-react-ts-app/src/components/Portfolio/portfolio.tsx:980 | fails (the `trim` of `undefined` throws) exactly when no `*` remains after deleting `**` |
| Portfolio.NoBulletThrows | my-react-ts-app/src/components/Portfolio/portfolio.tsx:1007 | a description without `*` throws |
| Portfolio.FirstBullet | my-react-ts-app/src/components/Portfolio/portfolio.tsx:980 | `*a*b` gives the trimmed first bullet a |
| Portfolio.EmptyFirstBulletThrows | my-react-ts-app/src/components/Portfolio/portfolio.tsx:980 | a description starting `**` loses its only stars and throws |
| Portfolio.SideAt | my-react-ts-app/src/components/Portfolio/portfolio.tsx:974-976 | "right" exactly at even positions |
| Portfolio.ExperienceItem | my-react-ts-app/src/components/Portfolio/portfolio.tsx:972-985 | side by position, company as title, job as subtitle, the extracted description; fails exactly when extraction does |
| Portfolio.FormatExperienceItems | my-react-ts-app/src/components/Portfolio/portfolio.tsx:972-985 | one item per included experience, in order, sides counted over included items; fails exactly when one included description has no bullet |
| Portfolio.EducationItem | my-react-ts-app/src/components/Portfolio/portfolio.tsx:987-999 | side by position, university as title |
| Portfolio.FormatEducationItems | my-react-ts-app/src/components/Portfolio/portfolio.tsx:987-999 | one item per included education, in order, sides counted over included items |
| Portfolio.ProjectItem | my-react-ts-app/src/components/Portfolio/portfolio.tsx:1001-1012 | name as title, link "#", the extracted description; fails exactly when extraction does |
| Portfolio.FormatProjects | my-react-ts-app/src/components/Portfolio/portfolio.tsx:1001-1012 | one card per included project, in order; fails exactly when one description has no bullet |
| Portfolio.Domains | my-react-ts-app/src/components/Portfolio/portfolio.tsx:852-870 | the distinct domains of the skills, each once |
| Portfolio.Members | my-react-ts-app/src/components/Portfolio/portfolio.tsx:852-870 | a domain's skill list is empty exactly when no skill has that domain |
| Portfolio.Grouping | my-react-ts-app/src/components/Portfolio/portfolio.tsx:852-860 | the grouping the `reduce` builds when no domain is an inherited property name: one group per distinct domain |
| Portfolio.GroupOf | my-react-ts-app/src/components/Portfolio/portfolio.tsx:852-870 | the index of the first group with the domain, or none exactly when no group has it |
| Portfolio.PushGrouping | my-react-ts-app/src/components/Portfolio/portfolio.tsx:852-870 | adding one skill to the object being built equals grouping the longer list |
| Portfolio.PushExisting | my-react-ts-app/src/components/Portfolio/portfolio.tsx:852-870 | a skill whose domain already has a group is appended to that group, and the result is the grouping of the longer list |
| Portfolio.PushNew | my-react-ts-app/src/components/Portfolio/portfolio.tsx:852-870 | a skill with a new domain opens a new last group, and the result is the grouping of the longer list |
| Portfolio.GroupSkills | my-react-ts-app/src/components/Portfolio/portfolio.tsx:852-860 | the `reduce` over included skills fails with the `push` TypeError exactly when an included skill's domain is a property every object inherits (`constructor`, `toString`, `__proto__`, …); otherwise it yields `Grouping` of the included skills |
| Portfolio.GroupingPartition | my-react-ts-app/src/components/Portfolio/portfolio.tsx:852-870 | groups have distinct domains; every skill is in its domain's group and no other; groups hold only input skills |
| Portfolio.GroupingSize | my-react-ts-app/src/components/Portfolio/portfolio.tsx:852-870 | the groups together hold exactly as many skills as the input, so each appears once |
| Portfolio.ExcludedNowhere | my-react-ts-app/src/components/Portfolio/portfolio.tsx:852-870 | an excluded skill appears in no group |
| Portfolio.Circle | my-react-ts-app/src/components/Portfolio/portfolio.tsx:863-870 | mapped domains get their icon, an inherited property name keeps the inherited member (it is truthy, so the default does not apply), and any other domain gets the default `faCode`; a skill's icon is its mapped icon, the inherited member for an inherited property name, and `undefined` otherwise; names kept in order |
| Portfolio.FormatSkills | my-react-ts-app/src/components/Portfolio/portfolio.tsx:850-871 | fails exactly when the grouping does; otherwise one circle per group of included skills, in group order |
| Portfolio.Lookup | my-react-ts-app/src/components/Portfolio/portfolio.tsx:864-867 | indexing an icon map gives the mapped icon, else the inherited member for an inherited property name, else `undefined` |
| Portfolio.OwnDomainsAppend | my-react-ts-app/src/components/Portfolio/portfolio.tsx:852-860 | a list has no inherited-name domain exactly when its prefix has none and the appended skill's domain is not one |
| Portfolio.InheritedSkillName | my-react-ts-app/src/components/Portfolio/portfolio.tsx:867 | a skill named `constructor` gets the inherited member as its icon, not `undefined` |
| Portfolio.Clicked | my-react-ts-app/src/components/Portfolio/portfolio.tsx:882-884 | the clicked index becomes active unless it already was, then none |
| Portfolio.ClickTwice | my-react-ts-app/src/components/Portfolio/portfolio.tsx:882-884 | from no selection or from that index, clicking the same index twice restores the state |
| Portfolio.SkillsSection.constructor | my-react-ts-app/src/components/Portfolio/portfolio.tsx:880 | no skill is active at first |
| Portfolio.SkillsSection.HandleSkillClick | my-react-ts-app/src/components/Portfolio/portfolio.tsx:882-884 | the active skill becomes `Clicked` |
| ProfileCompletion.Completed | my-react-ts-app/src/components/profile-photo/ProfilePhoto.tsx:121-130 | at most six sections count |
| ProfileCompletion.Count | my-react-ts-app/src/components/profile-photo/ProfilePhoto.tsx:124-129 | the count never exceeds the number of sections |
| ProfileCompletion.Percent | my-react-ts-app/src/components/profile-photo/ProfilePhoto.tsx:131 | 0..100 and within rounding of 100·k/6 |
| ProfileCompletion.Completion | my-react-ts-app/src/components/profile-photo/ProfilePhoto.tsx:118-132 | no details give 0; always 0..100 |
| ProfileCompletion.CalculateProfileCompletion | my-react-ts-app/src/components/profile-photo/ProfilePhoto.tsx:118-132 | the counting loop computes `Completion` |
| ProfileCompletion.PercentValues | my-react-ts-app/src/components/profile-photo/ProfilePhoto.tsx:131 | only 0, 17, 33, 50, 67, 83, 100 occur |
| ProfileCompletion.PercentMonotone | my-react-ts-app/src/components/profile-photo/ProfilePhoto.tsx:131 | more completed sections never give a lower percentage |
| ProfileCompletion.CountMonotone | my-react-ts-app/src/components/profile-photo/ProfilePhoto.tsx:124-129 | filling more sections never lowers the count |
| ProfileCompletion.CompletionMonotone | my-react-ts-app/src/components/profile-photo/ProfilePhoto.tsx:124-131 | making counted sections non-empty never lowers the score |
| ProfileCompletion.InvolvementAndContactIgnored | my-react-ts-app/src/components/profile-photo/ProfilePhoto.tsx:124-129 | involvement and contact never affect the score |
| ProfileCompletion.CompletionExtremes | my-react-ts-app/src/components/profile-photo/ProfilePhoto.tsx:121-131 | all six filled give 100; none filled gives 0 |
| ProfileCompletion.CountScored | my-react-ts-app/src/components/profile-photo/ProfilePhoto.tsx:124-129 | the count is one point per non-empty section among the six, missing ones scoring nothing |
| ProfilePage.Spread | my-react-ts-app/src/components/profile/Profile.tsx:412-414 | `{...entry, ...data}`: keys of both; data's values win; others kept |
| ProfilePage.MergeById | my-react-ts-app/src/components/profile/Profile.tsx:412-414 | same length; matching entries merged with the data, others unchanged |
| ProfilePage.MergeKeepsIds | my-react-ts-app/src/components/profile/Profile.tsx:476-478 | data without `_id` leaves every entry's id as it was |
| ProfilePage.MergeIdempotent | my-react-ts-app/src/components/profile/Profile.tsx:412-414 | merging the same data twice equals merging once |
| ProfilePage.DeleteById | my-react-ts-app/src/components/profile/Profile.tsx:547-623 | keeps exactly the entries without the id |
| ProfilePage.DeleteAppend | my-react-ts-app/src/components/profile/Profile.tsx:547-623 | deletion works piecewise, so order is kept |
| ProfilePage.DeleteAbsentAndTwice | my-react-ts-app/src/components/profile/Profile.tsx:547-623 | deleting an absent id changes nothing; deleting twice equals once |
| ProfilePage.EmptyListUnaffected | my-react-ts-app/src/components/profile/Profile.tsx:203-209 | edits and deletes on a list that starts empty leave it empty |
| ProfilePage.ResumeCraft.constructor | my-react-ts-app/src/components/profile/Profile.tsx:203-209 | every section list starts empty |
| ProfilePage.ResumeCraft.SetList | my-react-ts-app/src/components/profile/Profile.tsx:304-322 | one section's list is replaced, the others kept |
| ProfilePage.ResumeCraft.LoadEducations | my-react-ts-app/src/components/profile/Profile.tsx:304-322 | the education list becomes what was fetched, possibly undefined |
| ProfilePage.ResumeCraft.Edit | my-react-ts-app/src/components/profile/Profile.tsx:390-544 | only after a parsed reply, and only for a defined list, the section becomes `MergeById`; other sections kept |
| ProfilePage.ResumeCraft.Delete | my-react-ts-app/src/components/profile/Profile.tsx:547-623 | only after a parsed reply the section becomes `DeleteById`; other sections kept |
| UploadResume.DateParts | my-react-ts-app/src/components/profile-photo/UploadResume.tsx:150-153 | a missing or null date gives empty month and year; it throws exactly when the date is present and neither null nor a string |
| UploadResume.DatePartsRoundTrip | my-react-ts-app/src/components/profile-photo/UploadResume.tsx:150-153 | with exactly one `/`, month + "/" + year rebuilds the input |
| UploadResume.DatePartsNoSlash | my-react-ts-app/src/components/profile-photo/UploadResume.tsx:151-152 | no `/` gives the whole string as month and an empty year |
| UploadResume.TransformDated | my-react-ts-app/src/components/profile-photo/UploadResume.tsx:148-202 | succeeds exactly when the entry is not null, its start date does not throw, and it is current or its end date does not throw (a date property present and neither null nor a string throws); the start date is the split start string, the end date empty for a current entry and the split end string otherwise; the other spread properties are kept; a string, array, number or boolean entry gets its spread properties and empty dates |
| UploadResume.TransformCertification | my-react-ts-app/src/components/profile-photo/UploadResume.tsx:207-218 | succeeds exactly when the entry is not null and neither date throws (a date property present and neither null nor a string throws); the issued and expiration dates are the split strings, written over the spread properties, the others kept; a non-object entry gets empty dates |
| UploadResume.NumericDateThrows | my-react-ts-app/src/components/profile-photo/UploadResume.tsx:150-153 | an object entry whose start or expiration date is a number throws |
| UploadResume.StringEntrySpread | my-react-ts-app/src/components/profile-photo/UploadResume.tsx:147-159 | an education list holding the string `"x"` is saved as `[{"0": "x", startDate: {"", ""}, endDate: {"", ""}}]` rather than throwing |
| JsonValue.Spread | my-react-ts-app/src/components/profile-photo/UploadResume.tsx:149 | `{...v}`: an object's own fields; only index keys for a string or an array; no keys for null, a number or a boolean |
| JsonValue.IndexFields | my-react-ts-app/src/components/profile-photo/UploadResume.tsx:149 | every key is a decimal index, and every position of the array has its key |
| JsonValue.Property | my-react-ts-app/src/components/profile-photo/UploadResume.tsx:151-157 | an object's field; `undefined` on any other value that is not null |
| UploadResume.MapAll | my-react-ts-app/src/components/profile-photo/UploadResume.tsx:146-218 | `map` over a section fails exactly when some entry's transform throws; otherwise one result per entry, each the entry's transform, in order |
| UploadResume.TransformSection | my-react-ts-app/src/components/profile-photo/UploadResume.tsx:144-221 | the keys stay the same and every key other than the given one is kept; a missing or falsy section leaves the data unchanged; a truthy section succeeds exactly when it is an array whose every entry transforms, and then becomes the array of the transformed entries |
| UploadResume.TransformEachKeeps | my-react-ts-app/src/components/profile-photo/UploadResume.tsx:144-205 | rewriting the dated sections one after another keeps the key set and copies every key outside them |
| UploadResume.TransformEachSection | my-react-ts-app/src/components/profile-photo/UploadResume.tsx:147-205 | with distinct section keys, each set section ends as the array of its entries' transforms: it is rewritten once and later sections leave it alone |
| UploadResume.DatedSectionTransformed | my-react-ts-app/src/components/profile-photo/UploadResume.tsx:147-205 | after `transformDates`, a set education, experience, project or involvement list has as many entries as before, each `TransformDated` of the old entry at the same position |
| UploadResume.CertificationSectionTransformed | my-react-ts-app/src/components/profile-photo/UploadResume.tsx:207-218 | after `transformDates`, a set certification list has as many entries as before, each `TransformCertification` of the old entry at the same position |
| UploadResume.OtherKeysKept | my-react-ts-app/src/components/profile-photo/UploadResume.tsx:144-221 | the same keys, and every key other than the five sections, `projects`/`certifications` included, is copied unchanged |
| UploadResume.PresentClearsEndDate | my-react-ts-app/src/components/profile-photo/UploadResume.tsx:154-157 | with `isPresent`, the end date is empty whatever it was |
| UploadResume.CertificationIgnoresPresent | my-react-ts-app/src/components/profile-photo/UploadResume.tsx:207-218 | certification dates are split with no `isPresent` check |
| UploadResume.UploadDialog.constructor | my-react-ts-app/src/components/profile-photo/UploadResume.tsx:85-89 | nothing selected, parsed or shown |
| UploadResume.UploadDialog.FileChange | my-react-ts-app/src/components/profile-photo/UploadResume.tsx:102-108 | a chosen file replaces the selection and clears the parsed data |
| UploadResume.UploadDialog.Upload | my-react-ts-app/src/components/profile-photo/UploadResume.tsx:110-141 | no file: "Please select a file" and nothing sent; else parsed data on success or the failure message |
| UploadResume.UploadDialog.SaveToProfile | my-react-ts-app/src/components/profile-photo/UploadResume.tsx:224-257 | no data or no user id: "No parsed data to save." and nothing sent; otherwise the transformed data is sent, a 2xx reply clears the data and file and closes the dialog, and any failure shows the save-failed message |
| PasswordCriteria.Marks | my-react-ts-app/src/components/PasswordCriteria.tsx:22 | one mark per criterion; a check exactly when its predicate holds |
| PasswordCriteria.CriteriaMatchPattern | my-react-ts-app/src/components/PasswordCriteria.tsx:9-15 | for passwords without line breaks, all five criteria hold exactly when the registration pattern matches |
| PasswordCriteria.LineBreakDefeatsPattern | my-react-ts-app/src/components/auth/RegisterForm.tsx:32 | a line break makes the pattern fail where the criteria pass |
| PasswordCriteria.CriteriaIndependent | my-react-ts-app/src/components/PasswordCriteria.tsx:9-15 | any combination of upper, lower and digit occurs in a password of any sufficient length |
| PasswordCriteria.Utf16Length | my-react-ts-app/src/components/PasswordCriteria.tsx:10-11 | `pw.length` counts UTF-16 code units: between one and two per character, exactly one each when no character lies outside the Basic Multilingual Plane |
| PasswordCriteria.Utf16LengthAppend | my-react-ts-app/src/components/PasswordCriteria.tsx:10-11 | the code-unit length of a concatenation is the sum of the lengths |
| PasswordCriteria.AstralCountsTwice | my-react-ts-app/src/components/auth/RegisterForm.tsx:32 | seven characters ending in U+1F600 are eight code units, so they meet both the check list and the `{8,15}` pattern |
| AuthRegister.NameFilter | my-react-ts-app/src/components/auth/RegisterForm.tsx:150 | keeps exactly the ASCII letters and spaces of the input |
| AuthRegister.NameFilterProperties | my-react-ts-app/src/components/auth/RegisterForm.tsx:165 | idempotent; identity exactly on names of letters and spaces; works piecewise, so order is kept |
| AuthRegister.OrDefault | my-react-ts-app/src/components/auth/RegisterForm.tsx:55-66 | never empty; a non-empty server message is used |
| AuthRegister.RegisterOutcome | my-react-ts-app/src/components/auth/RegisterForm.tsx:45-68 | the id is stored and the page navigates exactly on a successful registration; otherwise there is an error |
| AuthRegister.RegisterForm.constructor | my-react-ts-app/src/components/auth/RegisterForm.tsx:21-22 | no error, not loading |
| AuthRegister.RegisterForm.HandleRegister | my-react-ts-app/src/components/auth/RegisterForm.tsx:26-68 | pattern first, then confirmation; sent exactly when both pass; a successful reply stores the plain user id and navigates; every path ends not loading |
| LegacyRegister.EmailPatternShape | my-react-ts-app/src/components/RegisterForm.tsx:32-41 | the pattern matches exactly one `@`, not first, no white space, and a `.` after the `@` with a character on each side |
| LegacyRegister.AxiosMessage | my-react-ts-app/src/components/RegisterForm.tsx:110-114 | a failed request always gives a non-empty message |
| LegacyRegister.LegacyRegisterForm.constructor | my-react-ts-app/src/components/RegisterForm.tsx:11-19 | empty names, no error |
| LegacyRegister.LegacyRegisterForm.HandleFirstNameChange | my-react-ts-app/src/components/RegisterForm.tsx:44-49 | the first name keeps only ASCII letters and spaces |
| LegacyRegister.LegacyRegisterForm.HandleLastNameChange | my-react-ts-app/src/components/RegisterForm.tsx:52-56 | the last name keeps only ASCII letters and spaces |
| LegacyRegister.LegacyRegisterForm.ValidateEmail | my-react-ts-app/src/components/RegisterForm.tsx:32-41 | the error is set exactly when the address fails the pattern |
| LegacyRegister.LegacyRegisterForm.HandleSubmit | my-react-ts-app/src/components/RegisterForm.tsx:58-125 | registers whatever the address check says; sent exactly when the password passes; success stores `{userId, timestamp}` under `userId`, clears the error and navigates |
| LegacyRegister.InvalidEmailStillRegisters | my-react-ts-app/src/components/RegisterForm.tsx:117-125 | for every address, valid or not, the request goes out exactly when the password meets the criteria and equals its confirmation (`Sends`, which `HandleSubmit`'s result equals); `no-at-sign` fails the address pattern and still registers with `Abcdefg1` |
| ResetPassword.ResetOutcome | my-react-ts-app/src/components/auth/ResetPassword.tsx:56-65 | success exactly when the message is exactly "Password reset successfully"; another message becomes the error |
| ResetPassword.ResetPasswordForm.constructor | my-react-ts-app/src/components/auth/ResetPassword.tsx:18-21 | empty messages, not loading |
| ResetPassword.ResetPasswordForm.HandleUpdateClick | my-react-ts-app/src/components/auth/ResetPassword.tsx:36-72 | token checked before the match; sent exactly when both pass; loading false on every path |
| VerifyOtp.CheckResult | my-react-ts-app/src/components/VerifyOTP.tsx:13-35 | no stored entry gives null; a stored entry gives null exactly when older than 180000 ms |
| VerifyOtp.ItemsAfterCheck | my-react-ts-app/src/components/VerifyOTP.tsx:22-28 | only an expired entry is removed; otherwise storage is kept |
| VerifyOtp.ExpiryBoundary | my-react-ts-app/src/components/VerifyOTP.tsx:24 | an entry exactly 180000 ms old is kept; one millisecond later it is removed |
| VerifyOtp.CheckTwice | my-react-ts-app/src/components/VerifyOTP.tsx:13-35 | checking twice at the same time gives the same answer and storage |
| VerifyOtp.VerifyOtpPage.constructor | my-react-ts-app/src/components/VerifyOTP.tsx:6-8 | no error, not verified |
| VerifyOtp.VerifyOtpPage.CheckAndClearLocalStorage | my-react-ts-app/src/components/VerifyOTP.tsx:13-35 | returns `CheckResult` and leaves storage as `ItemsAfterCheck` |
| VerifyOtp.VerifyOtpPage.HandleVerification | my-react-ts-app/src/components/VerifyOTP.tsx:39-60 | navigates to login exactly on the message "User email verified successfully."; another message becomes the error |
| BrowserStorage.LocalStorage.constructor | my-react-ts-app/src/components/VerifyOTP.tsx:14 | storage starts empty |
| BrowserStorage.LocalStorage.GetItem | my-react-ts-app/src/components/VerifyOTP.tsx:14 | null exactly for a missing key, else the stored value |
| BrowserStorage.LocalStorage.SetItem | my-react-ts-app/src/components/RegisterForm.tsx:63 | the key now maps to the value; other keys kept |
| BrowserStorage.LocalStorage.RemoveItem | my-react-ts-app/src/components/VerifyOTP.tsx:26 | the key is gone; other keys kept |
| UniversityDropdown.Suggestions | my-react-ts-app/src/components/CustomUniversityDropdown.tsx:22-24 | at most 5, each a university containing the term case-insensitively |
| UniversityDropdown.SuggestionsAreFirstMatches | my-react-ts-app/src/components/CustomUniversityDropdown.tsx:22-24 | the suggestions are the first matches in order; fewer than 5 means all matches |
| UniversityDropdown.EmptyTermShowsFirst | my-react-ts-app/src/components/CustomUniversityDropdown.tsx:23 | the empty term gives the first min(5, n) universities |
| UniversityDropdown.TypingNarrows | my-react-ts-app/src/components/CustomUniversityDropdown.tsx:22-23 | extending the term never adds matches |
| UniversityDropdown.SelectedStillMatches | my-react-ts-app/src/components/CustomUniversityDropdown.tsx:46-50 | a selected university still matches its own name |
| UniversityDropdown.UniversityDropdown.constructor | my-react-ts-app/src/components/CustomUniversityDropdown.tsx:17-19 | closed, the term is the given value, nothing hovered |
| UniversityDropdown.UniversityDropdown.HandleInputChange | my-react-ts-app/src/components/CustomUniversityDropdown.tsx:39-44 | sets the term, forwards it and opens the list |
| UniversityDropdown.UniversityDropdown.HandleUniversitySelect | my-react-ts-app/src/components/CustomUniversityDropdown.tsx:46-50 | sets the term to the choice, forwards it and closes, so no list is shown |
| UniversityDropdown.UniversityDropdown.HandleInputClick | my-react-ts-app/src/components/CustomUniversityDropdown.tsx:59 | opens the list |
| UniversityDropdown.UniversityDropdown.HandleMouseDown | my-react-ts-app/src/components/CustomUniversityDropdown.tsx:27-31 | a press outside closes the list |
| UniversityDropdown.UniversityDropdown.HandleMouseEnter | my-react-ts-app/src/components/CustomUniversityDropdown.tsx:80 | the row becomes hovered |
| UniversityDropdown.UniversityDropdown.HandleMouseLeave | my-react-ts-app/src/components/CustomUniversityDropdown.tsx:81 | nothing is hovered |
| TemplatesPage.FilteredTemplates | my-react-ts-app/src/components/Temp/TemplatesPage.tsx:65-70 | each result matches the query case-insensitively, the category unless "All", and premium when asked; every match is kept |
| TemplatesPage.NoResultsIff | my-react-ts-app/src/components/Temp/TemplatesPage.tsx:181 | the "no templates" message shows exactly when nothing matches |
| TemplatesPage.FilterKeepsOrder | my-react-ts-app/src/components/Temp/TemplatesPage.tsx:65-70 | filtering works piecewise, so results keep the catalogue order |
| TemplatesPage.PremiumOnlyNarrows | my-react-ts-app/src/components/Temp/TemplatesPage.tsx:68 | premium-only never adds results |
| TemplatesPage.DefaultShowsAll | my-react-ts-app/src/components/Temp/TemplatesPage.tsx:65-70 | empty query, "All", premium off: all templates |
| TemplatesPage.CatalogueFacts | my-react-ts-app/src/components/Temp/TemplatesPage.tsx:19-48 | in the shipped catalogue two templates are premium and no template is "Modern" |
| SkillsList.FilteredSkills | my-react-ts-app/src/components/Skills.tsx:23-25 | exactly the skills containing the input case-insensitively |
| SkillsList.PlusIconIff | my-react-ts-app/src/components/Skills.tsx:51 | the plus icon shows exactly when no skill matches |
| SkillsList.EmptyInputListsAll | my-react-ts-app/src/components/Skills.tsx:23-25 | an empty input lists every skill |
| SkillsList.Spliced | my-react-ts-app/src/components/Skills.tsx:17-21 | removes exactly the element at the index; an index past the end changes nothing |
| SkillsList.SkillsBox.constructor | my-react-ts-app/src/components/Skills.tsx:7-8 | no skills, empty input |
| SkillsList.SkillsBox.HandleInputChange | my-react-ts-app/src/components/Skills.tsx:44 | the input takes the typed value |
| SkillsList.SkillsBox.HandleAction | my-react-ts-app/src/components/Skills.tsx:10-15 | a blank input adds nothing; otherwise the trimmed input is appended and the input cleared |
| SkillsList.SkillsBox.HandleDeleteSkill | my-react-ts-app/src/components/Skills.tsx:17-21 | the skill at the index of the full list is removed |
| SkillsList.SkillsBox.DeleteListedRow | my-react-ts-app/src/components/Skills.tsx:60-67 | the delete button passes the filtered row index to the full list |
| SkillsList.AddedSkillListed | my-react-ts-app/src/components/Skills.tsx:10-15 | after an add the input is empty, so the new skill is listed |
| SkillsList.BlankInput | my-react-ts-app/src/components/Skills.tsx:11 | an input is blank exactly when it is all white space |
| SkillsList.DeleteUsesListedIndex | my-react-ts-app/src/components/Skills.tsx:60-67 | filtering "java" shows only "Java", yet its delete button removes "Go" |
| LegacyEntries.SetEditing | my-react-ts-app/src/components/CertificationSection.tsx:30-36 | same length; only cards with the id change their editing flag |
| LegacyEntries.RemoveCards | my-react-ts-app/src/components/InvolvementSection.tsx:56-59 | keeps exactly the cards with another id |
| LegacyEntries.EditThenSave | my-react-ts-app/src/components/InvolvementSection.tsx:39-43 | edit then save on an id clears its flag and leaves every other card unchanged |
| LegacyEntries.AddedCardsShareId | my-react-ts-app/src/components/CertificationSection.tsx:44-59 | two added cards both have id 0, so editing one edits both and deleting one deletes both |
| LegacyEntries.CardEditor.constructor | my-react-ts-app/src/components/CertificationSection.tsx:15-26 | one sample card with id 1, a blank form with id 0 |
| LegacyEntries.CardEditor.ChangeNew | my-react-ts-app/src/components/Projects.tsx:20-24 | the form's fields change, its id stays 0 |
| LegacyEntries.CardEditor.HandleEditClick | my-react-ts-app/src/components/Projects.tsx:26-32 | only cards with the id become editing |
| LegacyEntries.CardEditor.HandleSaveClick | my-react-ts-app/src/components/CertificationSection.tsx:38-54 | with an id, its cards stop editing; without, the form as captured, id 0, is appended and the form resets |
| LegacyEntries.CardEditor.HandleDeleteClick | my-react-ts-app/src/components/Projects.tsx:52-55 | removes all cards with the id, order kept |
| LegacyEntries.CardEditor.HandleAddClick | my-react-ts-app/src/components/InvolvementSection.tsx:61-64 | a blank form and adding starts |
| LegacyEntries.CardEditor.HandleKeyPress | my-react-ts-app/src/components/Projects.tsx:61-65 | Enter saves; any other key changes nothing |
| LegacyEntries.ReplaceFields | my-react-ts-app/src/components/ExperienceSection.tsx:43-58 | same length; only the record with the id takes the new fields |
| LegacyEntries.RemoveRecords | my-react-ts-app/src/components/Education.tsx:62-78 | keeps exactly the records with another id |
| LegacyEntries.ReplaceFieldsLaws | my-react-ts-app/src/components/Education.tsx:46-60 | a second edit overrides the first; an absent id changes nothing |
| LegacyEntries.RemoveRecordsLaws | my-react-ts-app/src/components/ExperienceSection.tsx:91-107 | removing twice equals once; the length is kept exactly when no record has the id |
| LegacyEntries.RecordEditor.constructor | my-react-ts-app/src/components/ExperienceSection.tsx:24 | the list starts empty, whatever the props |
| LegacyEntries.RecordEditor.HandleEditClick | my-react-ts-app/src/components/ExperienceSection.tsx:35-37 | the edit buffer holds the record |
| LegacyEntries.RecordEditor.HandleCancelEdit | my-react-ts-app/src/components/Education.tsx:42-44 | the edit buffer is cleared |
| LegacyEntries.RecordEditor.HandleUpdate | my-react-ts-app/src/components/ExperienceSection.tsx:43-58 | the matching record takes the edited fields and the buffer is cleared |
| LegacyEntries.RecordEditor.HandleSaveClick | my-react-ts-app/src/components/ExperienceSection.tsx:60-88 | only an ok reply with a body appends the server's object and resets the form |
| LegacyEntries.RecordEditor.HandleDelete | my-react-ts-app/src/components/Education.tsx:62-78 | a reply whose body says success removes the id, whatever the status |
| LegacyEntries.RecordEditor.HandleAddClick | my-react-ts-app/src/components/Education.tsx:138-142 | a blank form and adding starts |
| LegacyEntries.RecordEditor.LoadRecords | my-react-ts-app/src/components/Education.tsx:97-101 | a loaded list replaces the records; a failed load keeps them |
| ChatService.ExceptionText | my-node-backend/app.py:57-59 | `str(e)` of an HTTP exception ends with its detail |
| ChatService.GenerateResponse | my-node-backend/app.py:31-45 | the prompt is the input plus the end-of-sequence token; a generation failure is a 500 "Failed to generate response" |
| ChatService.Chat | my-node-backend/app.py:49-59 | a response exactly when the stripped input is non-empty and generation succeeds, with conversation id "default"; every error is a 500 carrying the inner error's text |
| ChatService.ChatRefusesBlank | my-node-backend/app.py:52-54 | the empty-input 500 happens exactly for all-white-space input |
| ChatService.StripIdempotent | my-node-backend/app.py:52 | stripping twice equals stripping once |
| ChatService.ChatStrippedAgain | my-node-backend/app.py:52 | a pre-stripped input gets the same answer |
| ChatService.Health | my-node-backend/app.py:61-63 | exactly the keys status and model, "healthy" and "DialoGPT-medium" |

## Left out

- Network requests, Mongo and the Express routes: each request's outcome is a `Reply` parameter.
- React rendering, effects, timers, selection geometry and the bold-button position; `setTimeout` redirects are a flag.
- The language model and tokenizer of `app.py`: generation is a function parameter that may fail, and the end-of-sequence token is a parameter.
- `ChatbotManager.__init__`: model loading and its `RuntimeError`, and the `conversations` dictionary, which nothing reads or writes, are not modelled.
- `splitTextToSize`: a function parameter; its widths are not checked.
- Page sizes are integers: A4 is 595 by 842 points instead of 595.28 by 841.89.
- JSON key order and `Object.entries` ordering: skill groups are in order of first appearance.
- Inherited properties of plain objects are the twelve names `Object.prototype` has in current engines; an engine with other names, or a page that adds to `Object.prototype`, is not modelled.
- Outside the password rules, strings are indexed and measured by character, while JavaScript counts UTF-16 code units; the two agree on text with no character outside the Basic Multilingual Plane.
- Unicode case folding: `toLowerCase` is modelled on ASCII letters only.
- The LaTeX bodies are modelled as their lines from `\begin{document}` to `\end{document}`, trimmed, with blank lines and template indentation dropped and each section's blocks on one line in braces; the preamble before `\begin{document}` (package loading and macro definitions, the same for every user) is not modelled. `LatexText` joins the lines back into one text.
- Values stored by the newer registration form are plain strings and are not parsed back.
- The ids from `Date.now()` in the older editors are not kept, because the captured form value overwrites them.
- ExperienceEditor.ExperienceSection.SaveClick: requires the server's list to be non-empty on success; an empty list in the source would append `undefined`. The same holds for the other editors' `SaveClick`.
- ProjectsEditor.ProjectsSection.SaveClick: requires a non-empty server list on success, as above.
- InvolvementEditor.InvolvementSection.SaveClick: requires a non-empty server list on success, as above.
- SkillsEditor.SkillsSection.SaveClick: requires a non-empty server list on success, as above.
- EducationEditor.EducationSection.SaveClick: requires a non-empty server list on success, as above.
- CertificationEditor.CertificationSection.SaveClick: requires a non-empty server list on success, as above.
- SkillsList.SkillsBox.DeleteListedRow: requires the row to be on screen, as the button exists only for listed rows.
- LatexResume: the section builders are stated through lemmas about the experience section; the other sections use the same `Section` and `MapBlocks` shape and are not given separate lemmas.
