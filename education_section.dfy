/** The education editor of the resume page (resume/Education.tsx): the
    list of educations, the entry being edited, the new-entry form and
    the adding flag, with one method per handler. Every handler's new state is
    computed from the state it starts from; the replies of the requests it
    sends are parameters. */
module EducationEditor {

  import opened Wrappers
  import opened ResumeData

  /** The empty form `handleAddClick` and a successful save install. */
  function BlankEducation(): (e: Education)
    ensures e.id == "" && e.includeInResume && e.details.isPresent == Some(false)
  {
    Entry("", true, EducationDetails("", "", "", "", NoDate, NoDate, Some(false)))
  }

  /** The entry as handed to `onEdit`: an absent `isPresent` becomes false.
      Each section keeps its own copy because each has its own detail
      record; the flag rule itself is `PresentOrFalse`. */
  function Reported(e: Education): (r: Education)
    ensures r.id == e.id && r.includeInResume == e.includeInResume
    ensures r.details.isPresent == PresentOrFalse(e.details.isPresent)
  {
    e.(details := e.details.(isPresent := PresentOrFalse(e.details.isPresent)))
  }

  class EducationSection {
    var educations: seq<Education>
    var editData: Option<Education>
    var newEducation: Education
    var isAdding: bool

    /** The local list starts empty whatever the props hold; it is filled by
        the fetch on mount. */
    constructor()
      ensures educations == [] && editData == None
      ensures newEducation == BlankEducation() && !isAdding
    {
      educations := [];
      editData := None;
      newEducation := BlankEducation();
      isAdding := false;
    }

    /** `handleEditClick`: the entry is copied into the edit form. */
    method EditClick(e: Education)
      modifies this
      ensures editData == Some(Reported(e))
      ensures educations == old(educations) && newEducation == old(newEducation) && isAdding == old(isAdding)
    {
      editData := Some(Reported(e));
    }

    /** `handleCancelEdit`. */
    method CancelEdit()
      modifies this
      ensures editData == None
      ensures educations == old(educations) && newEducation == old(newEducation) && isAdding == old(isAdding)
    {
      editData := None;
    }

    /** `handleUpdate`: with an edit in progress, the entries with its id take
        the edited fields, the edit is reported to `onEdit` and closed;
        without one nothing happens. */
    method Update() returns (reported: Option<Education>)
      modifies this
      ensures reported == old(editData)
      ensures old(editData).Some? ==>
        educations == UpdateById(old(educations), old(editData).value.id,
          old(editData).value.includeInResume, old(editData).value.details)
        && editData == None
      ensures old(editData).None? ==> educations == old(educations) && editData == None
      ensures newEducation == old(newEducation) && isAdding == old(isAdding)
    {
      reported := editData;
      if editData.Some? {
        var e := editData.value;
        educations := UpdateById(educations, e.id, e.includeInResume, e.details);
        editData := None;
      }
    }

    /** `handleSaveClick`: the form is posted; on success the last element of
        the stored list the server answers with is appended, and the form is
        reset and closed. A failed request changes nothing. */
    method SaveClick(reply: Reply<seq<Education>>) returns (posted: Education)
      requires Succeeded(reply) ==> reply.body != []
      modifies this
      ensures posted == old(newEducation)
      ensures Succeeded(reply) ==>
        educations == AppendSaved(old(educations), reply.body)
        && newEducation == BlankEducation() && !isAdding
      ensures !Succeeded(reply) ==>
        educations == old(educations) && newEducation == old(newEducation) && isAdding == old(isAdding)
      ensures editData == old(editData)
    {
      posted := newEducation;
      if Succeeded(reply) {
        educations := AppendSaved(educations, reply.body);
        newEducation := BlankEducation();
        isAdding := false;
      }
    }

    /** `handleDelete`: a response that is not ok throws before the state is
        touched, so the entries with the id are removed and the edit closed
        only on an ok response. */
    method Delete(id: string, reply: Reply<()>)
      modifies this
      ensures Succeeded(reply) ==> educations == RemoveById(old(educations), id) && editData == None
      ensures !Succeeded(reply) ==> educations == old(educations) && editData == old(editData)
      ensures newEducation == old(newEducation) && isAdding == old(isAdding)
    {
      if Succeeded(reply) {
        educations := RemoveById(educations, id);
        editData := None;
      }
    }

    /** `handleAddClick`: an empty form is opened. */
    method AddClick()
      modifies this
      ensures newEducation == BlankEducation() && isAdding
      ensures educations == old(educations) && editData == old(editData)
    {
      newEducation := BlankEducation();
      isAdding := true;
    }

    /** `handleToggleInclude`: the flag of the entries with the id flips and
        the first of them is reported to `onEdit`. */
    method ToggleInclude(id: string) returns (reported: Option<Education>)
      modifies this
      ensures educations == ResumeData.ToggleInclude(old(educations), id)
      ensures reported.None? <==> forall k :: 0 <= k < |old(educations)| ==> old(educations)[k].id != id
      ensures reported.Some? ==> reported == Some(Reported(FindById(educations, id).value))
      ensures editData == old(editData) && newEducation == old(newEducation) && isAdding == old(isAdding)
    {
      educations := ResumeData.ToggleInclude(educations, id);
      var found := FindById(educations, id);
      reported := if found.Some? then Some(Reported(found.value)) else None;
    }

    /** `handleTogglePresent`: flips `isPresent` of the edit when there is
        one, otherwise of the new-entry form; exactly one of them changes. */
    method TogglePresent()
      modifies this
      ensures old(editData).Some? ==>
        editData.Some? && editData.value.details.isPresent == Some(!old(editData).value.details.isPresent.GetOr(false))
        && editData.value == old(editData).value.(details := editData.value.details)
        && editData.value.details == old(editData).value.details.(isPresent := editData.value.details.isPresent)
        && newEducation == old(newEducation)
      ensures old(editData).None? ==>
        editData == None
        && newEducation.details.isPresent == Some(!old(newEducation).details.isPresent.GetOr(false))
        && newEducation.details == old(newEducation).details.(isPresent := newEducation.details.isPresent)
        && newEducation.id == old(newEducation).id && newEducation.includeInResume == old(newEducation).includeInResume
      ensures educations == old(educations) && isAdding == old(isAdding)
    {
      if editData.Some? {
        var e := editData.value;
        editData := Some(e.(details := e.details.(isPresent := NotFlag(e.details.isPresent))));
      } else {
        newEducation := newEducation.(details := newEducation.details.(isPresent := NotFlag(newEducation.details.isPresent)));
      }
    }
  }
}
