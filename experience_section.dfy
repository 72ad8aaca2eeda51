/** The experience editor of the resume page (resume/ExperienceSection.tsx):
    the list of experiences, the entry being edited, the new-entry form and
    the adding flag, with one method per handler. Every handler's new state is
    computed from the state it starts from; the replies of the requests it
    sends are parameters. */
module ExperienceEditor {

  import opened Wrappers
  import opened ResumeData
  import ListOps
  import Description

  /** The empty form `handleAddClick` and a successful save install. */
  function BlankExperience(): (e: Experience)
    ensures e.id == "" && e.includeInResume && e.details.isPresent == Some(false)
  {
    Entry("", true, ExperienceDetails("", "", "", NoDate, NoDate, "", Some(false)))
  }

  /** The entry as handed to `onEdit`: an absent `isPresent` becomes false.
      Each section keeps its own copy because each has its own detail
      record; the flag rule itself is `PresentOrFalse`. */
  function Reported(e: Experience): (r: Experience)
    ensures r.id == e.id && r.includeInResume == e.includeInResume
    ensures r.details.isPresent == PresentOrFalse(e.details.isPresent)
  {
    e.(details := e.details.(isPresent := PresentOrFalse(e.details.isPresent)))
  }

  function WithDescription(e: Experience, description: string): Experience {
    e.(details := e.details.(description := description))
  }

  class ExperienceSection {
    var experiences: seq<Experience>
    var editData: Option<Experience>
    var newExperience: Experience
    var isAdding: bool

    constructor(initial: seq<Experience>)
      ensures experiences == initial && editData == None
      ensures newExperience == BlankExperience() && !isAdding
    {
      experiences := initial;
      editData := None;
      newExperience := BlankExperience();
      isAdding := false;
    }

    /** `moveExperienceUp`: swaps the entry with its predecessor on a copy of
        the list; the new order is what is sent to the server. */
    method MoveUp(index: nat) returns (sent: Option<seq<Experience>>)
      requires index < |experiences|
      modifies this
      ensures experiences == ListOps.MoveUp(old(experiences), index)
      ensures sent == if index > 0 then Some(experiences) else None
      ensures editData == old(editData) && newExperience == old(newExperience) && isAdding == old(isAdding)
    {
      if index > 0 {
        var updated := ListOps.SwapCopy(experiences, index - 1, index);
        experiences := updated;
        sent := Some(updated);
      } else {
        sent := None;
      }
    }

    /** `moveExperienceDown`: swaps the entry with its successor on a copy. */
    method MoveDown(index: nat) returns (sent: Option<seq<Experience>>)
      requires index < |experiences|
      modifies this
      ensures experiences == ListOps.MoveDown(old(experiences), index)
      ensures sent == if index < |old(experiences)| - 1 then Some(experiences) else None
      ensures editData == old(editData) && newExperience == old(newExperience) && isAdding == old(isAdding)
    {
      if index < |experiences| - 1 {
        var updated := ListOps.SwapCopy(experiences, index + 1, index);
        experiences := updated;
        sent := Some(updated);
      } else {
        sent := None;
      }
    }

    /** `handleEditClick`: the entry is copied into the edit form. */
    method EditClick(e: Experience)
      modifies this
      ensures editData == Some(Reported(e))
      ensures experiences == old(experiences) && newExperience == old(newExperience) && isAdding == old(isAdding)
    {
      editData := Some(Reported(e));
    }

    /** `handleCancelEdit`. */
    method CancelEdit()
      modifies this
      ensures editData == None
      ensures experiences == old(experiences) && newExperience == old(newExperience) && isAdding == old(isAdding)
    {
      editData := None;
    }

    /** `handleUpdate`: with an edit in progress, the entries with its id take
        the edited fields, the edit is reported to `onEdit` and closed;
        without one nothing happens. */
    method Update() returns (reported: Option<Experience>)
      modifies this
      ensures reported == old(editData)
      ensures old(editData).Some? ==>
        experiences == UpdateById(old(experiences), old(editData).value.id,
          old(editData).value.includeInResume, old(editData).value.details)
        && editData == None
      ensures old(editData).None? ==> experiences == old(experiences) && editData == None
      ensures newExperience == old(newExperience) && isAdding == old(isAdding)
    {
      reported := editData;
      if editData.Some? {
        var e := editData.value;
        experiences := UpdateById(experiences, e.id, e.includeInResume, e.details);
        editData := None;
      }
    }

    /** `handleSaveClick`: the form is posted; on success the last element of
        the stored list the server answers with is appended, and the form is
        reset and closed. A failed request changes nothing. */
    method SaveClick(reply: Reply<seq<Experience>>) returns (posted: Experience)
      requires Succeeded(reply) ==> reply.body != []
      modifies this
      ensures posted == old(newExperience)
      ensures Succeeded(reply) ==>
        experiences == AppendSaved(old(experiences), reply.body)
        && newExperience == BlankExperience() && !isAdding
      ensures !Succeeded(reply) ==>
        experiences == old(experiences) && newExperience == old(newExperience) && isAdding == old(isAdding)
      ensures editData == old(editData)
    {
      posted := newExperience;
      if Succeeded(reply) {
        experiences := AppendSaved(experiences, reply.body);
        newExperience := BlankExperience();
        isAdding := false;
      }
    }

    /** `handleDelete`: only after the request succeeds are the entries with
        the id removed and the edit closed. */
    method Delete(id: string, reply: Reply<()>)
      modifies this
      ensures Succeeded(reply) ==> experiences == RemoveById(old(experiences), id) && editData == None
      ensures !Succeeded(reply) ==> experiences == old(experiences) && editData == old(editData)
      ensures newExperience == old(newExperience) && isAdding == old(isAdding)
    {
      if Succeeded(reply) {
        experiences := RemoveById(experiences, id);
        editData := None;
      }
    }

    /** `handleAddClick`: an empty form is opened. */
    method AddClick()
      modifies this
      ensures newExperience == BlankExperience() && isAdding
      ensures experiences == old(experiences) && editData == old(editData)
    {
      newExperience := BlankExperience();
      isAdding := true;
    }

    /** `handleToggleInclude`: the flag of the entries with the id flips and
        the first of them is reported to `onEdit`. */
    method ToggleInclude(id: string) returns (reported: Option<Experience>)
      modifies this
      ensures experiences == ResumeData.ToggleInclude(old(experiences), id)
      ensures reported.None? <==> forall k :: 0 <= k < |old(experiences)| ==> old(experiences)[k].id != id
      ensures reported.Some? ==> reported == Some(Reported(FindById(experiences, id).value))
      ensures editData == old(editData) && newExperience == old(newExperience) && isAdding == old(isAdding)
    {
      experiences := ResumeData.ToggleInclude(experiences, id);
      var found := FindById(experiences, id);
      reported := if found.Some? then Some(Reported(found.value)) else None;
    }

    /** `handleDescriptionChange`: the new-entry description is the typed
        text with the new-item bullet rule applied. */
    method DescriptionChange(value: string)
      modifies this
      ensures newExperience == WithDescription(old(newExperience), Description.NewItemDescription(value))
      ensures experiences == old(experiences) && editData == old(editData) && isAdding == old(isAdding)
    {
      var formatted := Description.FormatNewItemDescription(value);
      newExperience := WithDescription(newExperience, formatted);
    }

    /** `handleEditDescriptionChange`: with an edit in progress, its
        description is the typed text with the edit bullet rule applied. */
    method EditDescriptionChange(value: string)
      modifies this
      ensures old(editData).Some? ==>
        editData == Some(WithDescription(old(editData).value, Description.EditDescription(value)))
      ensures old(editData).None? ==> editData == None
      ensures experiences == old(experiences) && newExperience == old(newExperience) && isAdding == old(isAdding)
    {
      if editData.Some? {
        editData := Some(WithDescription(editData.value, Description.EditDescription(value)));
      }
    }

    /** `handleTogglePresent`: flips `isPresent` of the edit when there is
        one, otherwise of the new-entry form; exactly one of them changes. */
    method TogglePresent()
      modifies this
      ensures old(editData).Some? ==>
        editData.Some? && editData.value.details.isPresent == Some(!old(editData).value.details.isPresent.GetOr(false))
        && editData.value == old(editData).value.(details := editData.value.details)
        && editData.value.details == old(editData).value.details.(isPresent := editData.value.details.isPresent)
        && newExperience == old(newExperience)
      ensures old(editData).None? ==>
        editData == None
        && newExperience.details.isPresent == Some(!old(newExperience).details.isPresent.GetOr(false))
        && newExperience.details == old(newExperience).details.(isPresent := newExperience.details.isPresent)
        && newExperience.id == old(newExperience).id && newExperience.includeInResume == old(newExperience).includeInResume
      ensures experiences == old(experiences) && isAdding == old(isAdding)
    {
      if editData.Some? {
        var e := editData.value;
        editData := Some(e.(details := e.details.(isPresent := NotFlag(e.details.isPresent))));
      } else {
        newExperience := newExperience.(details := newExperience.details.(isPresent := NotFlag(newExperience.details.isPresent)));
      }
    }

    /** `applyBold`: the Bold button over the selection `start..end` of the
        edit box (shown while an edit is in progress) or of the new-entry box
        (shown while adding); with the box not shown nothing happens. */
    method ApplyBold(isEditing: bool, start: nat, end: nat)
      modifies this
      ensures isEditing && old(editData).Some? ==>
        editData == Some(WithDescription(old(editData).value,
          Description.ApplyBold(old(editData).value.details.description, start, end)))
        && newExperience == old(newExperience)
      ensures !isEditing && old(isAdding) ==>
        newExperience == WithDescription(old(newExperience),
          Description.ApplyBold(old(newExperience).details.description, start, end))
        && editData == old(editData)
      ensures (if isEditing then old(editData).None? else !old(isAdding)) ==>
        editData == old(editData) && newExperience == old(newExperience)
      ensures experiences == old(experiences) && isAdding == old(isAdding)
    {
      if isEditing && editData.Some? {
        var e := editData.value;
        editData := Some(WithDescription(e, Description.ApplyBold(e.details.description, start, end)));
      } else if !isEditing && isAdding {
        newExperience := WithDescription(newExperience,
          Description.ApplyBold(newExperience.details.description, start, end));
      }
    }
  }
}
