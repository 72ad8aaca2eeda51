/** The project editor of the resume page (resume/Projects.tsx): the list of
    projects, the entry being edited, the new-entry form and
    the adding flag, with one method per handler. Every handler's new state is
    computed from the state it starts from; the replies of the requests it
    sends are parameters. */
module ProjectsEditor {

  import opened Wrappers
  import opened ResumeData
  import ListOps
  import Description

  /** The empty form `handleAddClick` and a successful save install. */
  function BlankProject(): (e: Project)
    ensures e.id == "" && e.includeInResume && e.details.isPresent == Some(false)
  {
    Entry("", true, ProjectDetails("", NoDate, NoDate, "", "", Some(false)))
  }

  /** The entry as handed to `onEdit`: an absent `isPresent` becomes false.
      Each section keeps its own copy because each has its own detail
      record; the flag rule itself is `PresentOrFalse`. */
  function Reported(e: Project): (r: Project)
    ensures r.id == e.id && r.includeInResume == e.includeInResume
    ensures r.details.isPresent == PresentOrFalse(e.details.isPresent)
  {
    e.(details := e.details.(isPresent := PresentOrFalse(e.details.isPresent)))
  }

  function WithDescription(e: Project, description: string): Project {
    e.(details := e.details.(description := description))
  }

  class ProjectsSection {
    var projects: seq<Project>
    var editData: Option<Project>
    var newProject: Project
    var isAdding: bool

    constructor(initial: seq<Project>)
      ensures projects == initial && editData == None
      ensures newProject == BlankProject() && !isAdding
    {
      projects := initial;
      editData := None;
      newProject := BlankProject();
      isAdding := false;
    }

    /** `moveProjectUp`: swaps the entry with its predecessor through a
        temporary on a copy of the list; the new order is what is sent to the server. */
    method MoveUp(index: nat) returns (sent: Option<seq<Project>>)
      requires index < |projects|
      modifies this
      ensures projects == ListOps.MoveUp(old(projects), index)
      ensures sent == if index > 0 then Some(projects) else None
      ensures editData == old(editData) && newProject == old(newProject) && isAdding == old(isAdding)
    {
      if index > 0 {
        var updated := ListOps.SwapCopy(projects, index - 1, index);
        projects := updated;
        sent := Some(updated);
      } else {
        sent := None;
      }
    }

    /** `moveProjectDown`: swaps the entry with its successor on a copy. */
    method MoveDown(index: nat) returns (sent: Option<seq<Project>>)
      requires index < |projects|
      modifies this
      ensures projects == ListOps.MoveDown(old(projects), index)
      ensures sent == if index < |old(projects)| - 1 then Some(projects) else None
      ensures editData == old(editData) && newProject == old(newProject) && isAdding == old(isAdding)
    {
      if index < |projects| - 1 {
        var updated := ListOps.SwapCopy(projects, index + 1, index);
        projects := updated;
        sent := Some(updated);
      } else {
        sent := None;
      }
    }

    /** `handleEditClick`: the entry is copied into the edit form. */
    method EditClick(e: Project)
      modifies this
      ensures editData == Some(Reported(e))
      ensures projects == old(projects) && newProject == old(newProject) && isAdding == old(isAdding)
    {
      editData := Some(Reported(e));
    }

    /** `handleCancelEdit`. */
    method CancelEdit()
      modifies this
      ensures editData == None
      ensures projects == old(projects) && newProject == old(newProject) && isAdding == old(isAdding)
    {
      editData := None;
    }

    /** `handleUpdate`: with an edit in progress, the entries with its id take
        the edited fields, the edit is reported to `onEdit` and closed;
        without one nothing happens. */
    method Update() returns (reported: Option<Project>)
      modifies this
      ensures reported == old(editData)
      ensures old(editData).Some? ==>
        projects == UpdateById(old(projects), old(editData).value.id,
          old(editData).value.includeInResume, old(editData).value.details)
        && editData == None
      ensures old(editData).None? ==> projects == old(projects) && editData == None
      ensures newProject == old(newProject) && isAdding == old(isAdding)
    {
      reported := editData;
      if editData.Some? {
        var e := editData.value;
        projects := UpdateById(projects, e.id, e.includeInResume, e.details);
        editData := None;
      }
    }

    /** `handleSaveClick`: the form is posted; on success the last element of
        the stored list the server answers with is appended, and the form is
        reset and closed. A failed request changes nothing. */
    method SaveClick(reply: Reply<seq<Project>>) returns (posted: Project)
      requires Succeeded(reply) ==> reply.body != []
      modifies this
      ensures posted == old(newProject)
      ensures Succeeded(reply) ==>
        projects == AppendSaved(old(projects), reply.body)
        && newProject == BlankProject() && !isAdding
      ensures !Succeeded(reply) ==>
        projects == old(projects) && newProject == old(newProject) && isAdding == old(isAdding)
      ensures editData == old(editData)
    {
      posted := newProject;
      if Succeeded(reply) {
        projects := AppendSaved(projects, reply.body);
        newProject := BlankProject();
        isAdding := false;
      }
    }

    /** `handleDelete`: only after the request succeeds are the entries with
        the id removed and the edit closed. */
    method Delete(id: string, reply: Reply<()>)
      modifies this
      ensures Succeeded(reply) ==> projects == RemoveById(old(projects), id) && editData == None
      ensures !Succeeded(reply) ==> projects == old(projects) && editData == old(editData)
      ensures newProject == old(newProject) && isAdding == old(isAdding)
    {
      if Succeeded(reply) {
        projects := RemoveById(projects, id);
        editData := None;
      }
    }

    /** `handleAddClick`: an empty form is opened. */
    method AddClick()
      modifies this
      ensures newProject == BlankProject() && isAdding
      ensures projects == old(projects) && editData == old(editData)
    {
      newProject := BlankProject();
      isAdding := true;
    }

    /** `handleToggleInclude`: the flag of the entries with the id flips and
        the first of them is reported to `onEdit`. */
    method ToggleInclude(id: string) returns (reported: Option<Project>)
      modifies this
      ensures projects == ResumeData.ToggleInclude(old(projects), id)
      ensures reported.None? <==> forall k :: 0 <= k < |old(projects)| ==> old(projects)[k].id != id
      ensures reported.Some? ==> reported == Some(Reported(FindById(projects, id).value))
      ensures editData == old(editData) && newProject == old(newProject) && isAdding == old(isAdding)
    {
      projects := ResumeData.ToggleInclude(projects, id);
      var found := FindById(projects, id);
      reported := if found.Some? then Some(Reported(found.value)) else None;
    }

    /** `handleDescriptionChange`: the new-entry description is the typed
        text with the new-item bullet rule applied. */
    method DescriptionChange(value: string)
      modifies this
      ensures newProject == WithDescription(old(newProject), Description.NewItemDescription(value))
      ensures projects == old(projects) && editData == old(editData) && isAdding == old(isAdding)
    {
      var formatted := Description.FormatNewItemDescription(value);
      newProject := WithDescription(newProject, formatted);
    }

    /** `handleEditDescriptionChange`: with an edit in progress, its
        description is the typed text with the edit bullet rule applied. */
    method EditDescriptionChange(value: string)
      modifies this
      ensures old(editData).Some? ==>
        editData == Some(WithDescription(old(editData).value, Description.EditDescription(value)))
      ensures old(editData).None? ==> editData == None
      ensures projects == old(projects) && newProject == old(newProject) && isAdding == old(isAdding)
    {
      if editData.Some? {
        editData := Some(WithDescription(editData.value, Description.EditDescription(value)));
      }
    }

    /** `handleTogglePresent`: flips `isPresent` of the edit when there is
        one, otherwise of the new-entry form; exactly one of them changes. */
    method TogglePresent()
      modifies this
      ensures old(editData).Some? ==>
        editData.Some? && editData.value.details.isPresent == Some(!old(editData).value.details.isPresent.GetOr(false))
        && editData.value == old(editData).value.(details := editData.value.details)
        && editData.value.details == old(editData).value.details.(isPresent := editData.value.details.isPresent)
        && newProject == old(newProject)
      ensures old(editData).None? ==>
        editData == None
        && newProject.details.isPresent == Some(!old(newProject).details.isPresent.GetOr(false))
        && newProject.details == old(newProject).details.(isPresent := newProject.details.isPresent)
        && newProject.id == old(newProject).id && newProject.includeInResume == old(newProject).includeInResume
      ensures projects == old(projects) && isAdding == old(isAdding)
    {
      if editData.Some? {
        var e := editData.value;
        editData := Some(e.(details := e.details.(isPresent := NotFlag(e.details.isPresent))));
      } else {
        newProject := newProject.(details := newProject.details.(isPresent := NotFlag(newProject.details.isPresent)));
      }
    }

    /** `applyBold`: the Bold button over the selection `start..end` of the
        edit box (shown while an edit is in progress) or of the new-entry box
        (shown while adding); with the box not shown nothing happens. */
    method ApplyBold(isEditing: bool, start: nat, end: nat)
      modifies this
      ensures isEditing && old(editData).Some? ==>
        editData == Some(WithDescription(old(editData).value,
          Description.ApplyBold(old(editData).value.details.description, start, end)))
        && newProject == old(newProject)
      ensures !isEditing && old(isAdding) ==>
        newProject == WithDescription(old(newProject),
          Description.ApplyBold(old(newProject).details.description, start, end))
        && editData == old(editData)
      ensures (if isEditing then old(editData).None? else !old(isAdding)) ==>
        editData == old(editData) && newProject == old(newProject)
      ensures projects == old(projects) && isAdding == old(isAdding)
    {
      if isEditing && editData.Some? {
        var e := editData.value;
        editData := Some(WithDescription(e, Description.ApplyBold(e.details.description, start, end)));
      } else if !isEditing && isAdding {
        newProject := WithDescription(newProject,
          Description.ApplyBold(newProject.details.description, start, end));
      }
    }
  }
}
