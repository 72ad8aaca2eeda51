/** The skill editor of the resume page (resume/Skills.tsx): the list of
    skills, the entry being edited, the new-entry form and
    the adding flag, with one method per handler. Every handler's new state is
    computed from the state it starts from; the replies of the requests it
    sends are parameters. */
module SkillsEditor {

  import opened Wrappers
  import opened ResumeData
  import ListOps

  /** The empty form `handleAddClick` and a successful save install. */
  function BlankSkill(): (e: Skill)
    ensures e.id == "" && e.includeInResume && e.details == SkillDetails("", "")
  {
    Entry("", true, SkillDetails("", ""))
  }

  class SkillsSection {
    var skills: seq<Skill>
    var editData: Option<Skill>
    var newSkill: Skill
    var isAdding: bool

    constructor(initial: seq<Skill>)
      ensures skills == initial && editData == None
      ensures newSkill == BlankSkill() && !isAdding
    {
      skills := initial;
      editData := None;
      newSkill := BlankSkill();
      isAdding := false;
    }

    /** `moveSkillUp`: swaps the entry with its predecessor on a copy of
        the list; the new order is what is sent to the server. */
    method MoveUp(index: nat) returns (sent: Option<seq<Skill>>)
      requires index < |skills|
      modifies this
      ensures skills == ListOps.MoveUp(old(skills), index)
      ensures sent == if index > 0 then Some(skills) else None
      ensures editData == old(editData) && newSkill == old(newSkill) && isAdding == old(isAdding)
    {
      if index > 0 {
        var updated := ListOps.SwapCopy(skills, index - 1, index);
        skills := updated;
        sent := Some(updated);
      } else {
        sent := None;
      }
    }

    /** `moveSkillDown`: swaps the entry with its successor on a copy. */
    method MoveDown(index: nat) returns (sent: Option<seq<Skill>>)
      requires index < |skills|
      modifies this
      ensures skills == ListOps.MoveDown(old(skills), index)
      ensures sent == if index < |old(skills)| - 1 then Some(skills) else None
      ensures editData == old(editData) && newSkill == old(newSkill) && isAdding == old(isAdding)
    {
      if index < |skills| - 1 {
        var updated := ListOps.SwapCopy(skills, index + 1, index);
        skills := updated;
        sent := Some(updated);
      } else {
        sent := None;
      }
    }

    /** `handleDragEnd`: without a destination nothing happens; otherwise the
        skill at `source` is spliced out of a copy and spliced back in at
        `destination`, and the new order is sent to the server. */
    method DragEnd(source: nat, destination: Option<nat>) returns (sent: Option<seq<Skill>>)
      requires source < |skills|
      requires destination.Some? ==> destination.value < |skills|
      modifies this
      ensures destination.None? ==> skills == old(skills) && sent == None
      ensures destination.Some? ==>
        skills == ListOps.Moved(old(skills), source, destination.value) && sent == Some(skills)
      ensures editData == old(editData) && newSkill == old(newSkill) && isAdding == old(isAdding)
    {
      if destination.None? {
        sent := None;
        return;
      }
      var reordered := ListOps.MoveCopy(skills, source, destination.value);
      skills := reordered;
      sent := Some(reordered);
    }

    /** `handleEditClick`: the entry is copied into the edit form. */
    method EditClick(e: Skill)
      modifies this
      ensures editData == Some(e)
      ensures skills == old(skills) && newSkill == old(newSkill) && isAdding == old(isAdding)
    {
      editData := Some(e);
    }

    /** `handleCancelEdit`. */
    method CancelEdit()
      modifies this
      ensures editData == None
      ensures skills == old(skills) && newSkill == old(newSkill) && isAdding == old(isAdding)
    {
      editData := None;
    }

    /** `handleUpdate`: with an edit in progress, the entries with its id take
        the edited fields, the edit is reported to `onEdit` and closed;
        without one nothing happens. */
    method Update() returns (reported: Option<Skill>)
      modifies this
      ensures reported == old(editData)
      ensures old(editData).Some? ==>
        skills == UpdateById(old(skills), old(editData).value.id,
          old(editData).value.includeInResume, old(editData).value.details)
        && editData == None
      ensures old(editData).None? ==> skills == old(skills) && editData == None
      ensures newSkill == old(newSkill) && isAdding == old(isAdding)
    {
      reported := editData;
      if editData.Some? {
        var e := editData.value;
        skills := UpdateById(skills, e.id, e.includeInResume, e.details);
        editData := None;
      }
    }

    /** `handleSaveClick`: the form is posted; on success the last element of
        the stored list the server answers with is appended, and the form is
        reset and closed. A failed request changes nothing. */
    method SaveClick(reply: Reply<seq<Skill>>) returns (posted: Skill)
      requires Succeeded(reply) ==> reply.body != []
      modifies this
      ensures posted == old(newSkill)
      ensures Succeeded(reply) ==>
        skills == AppendSaved(old(skills), reply.body)
        && newSkill == BlankSkill() && !isAdding
      ensures !Succeeded(reply) ==>
        skills == old(skills) && newSkill == old(newSkill) && isAdding == old(isAdding)
      ensures editData == old(editData)
    {
      posted := newSkill;
      if Succeeded(reply) {
        skills := AppendSaved(skills, reply.body);
        newSkill := BlankSkill();
        isAdding := false;
      }
    }

    /** `handleDelete`: the status of the response is not looked at, so the
        entries with the id are removed and the edit closed whenever any
        response arrives; only a request that gets no response changes nothing. */
    method Delete(id: string, reply: Reply<()>)
      modifies this
      ensures reply.Response? ==> skills == RemoveById(old(skills), id) && editData == None
      ensures reply.NoResponse? ==> skills == old(skills) && editData == old(editData)
      ensures newSkill == old(newSkill) && isAdding == old(isAdding)
    {
      if reply.Response? {
        skills := RemoveById(skills, id);
        editData := None;
      }
    }

    /** `handleAddClick`: an empty form is opened. */
    method AddClick()
      modifies this
      ensures newSkill == BlankSkill() && isAdding
      ensures skills == old(skills) && editData == old(editData)
    {
      newSkill := BlankSkill();
      isAdding := true;
    }

    /** `handleToggleInclude`: the flag of the entries with the id flips and
        the first of them is reported to `onEdit`. */
    method ToggleInclude(id: string) returns (reported: Option<Skill>)
      modifies this
      ensures skills == ResumeData.ToggleInclude(old(skills), id)
      ensures reported.None? <==> forall k :: 0 <= k < |old(skills)| ==> old(skills)[k].id != id
      ensures reported.Some? ==> reported == FindById(skills, id)
      ensures editData == old(editData) && newSkill == old(newSkill) && isAdding == old(isAdding)
    {
      skills := ResumeData.ToggleInclude(skills, id);
      var found := FindById(skills, id);
      reported := found;
    }
  }
}
