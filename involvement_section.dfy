/** The involvement editor of the resume page (resume/InvolvementSection.tsx):
    the list of involvements, the entry being edited, the new-entry form and
    the adding flag, with one method per handler. Every handler's new state is
    computed from the state it starts from; the replies of the requests it
    sends are parameters. */
module InvolvementEditor {

  import opened Wrappers
  import opened ResumeData
  import Description

  /** The empty form `handleAddClick` and a successful save install. */
  function BlankInvolvement(): (e: Involvement)
    ensures e.id == "" && e.includeInResume && e.details.isPresent == Some(false)
  {
    Entry("", true, InvolvementDetails("", "", NoDate, NoDate, "", Some(false)))
  }

  /** The entry as handed to `onEdit`: an absent `isPresent` becomes false.
      Each section keeps its own copy because each has its own detail
      record; the flag rule itself is `PresentOrFalse`. */
  function Reported(e: Involvement): (r: Involvement)
    ensures r.id == e.id && r.includeInResume == e.includeInResume
    ensures r.details.isPresent == PresentOrFalse(e.details.isPresent)
  {
    e.(details := e.details.(isPresent := PresentOrFalse(e.details.isPresent)))
  }

  function WithDescription(e: Involvement, description: string): Involvement {
    e.(details := e.details.(description := description))
  }

  class InvolvementSection {
    var involvements: seq<Involvement>
    var editData: Option<Involvement>
    var newInvolvement: Involvement
    var isAdding: bool

    constructor(initial: seq<Involvement>)
      ensures involvements == initial && editData == None
      ensures newInvolvement == BlankInvolvement() && !isAdding
    {
      involvements := initial;
      editData := None;
      newInvolvement := BlankInvolvement();
      isAdding := false;
    }

    /** `handleEditClick`: the entry is copied into the edit form. */
    method EditClick(e: Involvement)
      modifies this
      ensures editData == Some(Reported(e))
      ensures involvements == old(involvements) && newInvolvement == old(newInvolvement) && isAdding == old(isAdding)
    {
      editData := Some(Reported(e));
    }

    /** `handleCancelEdit`. */
    method CancelEdit()
      modifies this
      ensures editData == None
      ensures involvements == old(involvements) && newInvolvement == old(newInvolvement) && isAdding == old(isAdding)
    {
      editData := None;
    }

    /** `handleUpdate`: with an edit in progress, the entries with its id take
        the edited fields, the edit is reported to `onEdit` and closed;
        without one nothing happens. */
    method Update() returns (reported: Option<Involvement>)
      modifies this
      ensures reported == old(editData)
      ensures old(editData).Some? ==>
        involvements == UpdateById(old(involvements), old(editData).value.id,
          old(editData).value.includeInResume, old(editData).value.details)
        && editData == None
      ensures old(editData).None? ==> involvements == old(involvements) && editData == None
      ensures newInvolvement == old(newInvolvement) && isAdding == old(isAdding)
    {
      reported := editData;
      if editData.Some? {
        var e := editData.value;
        involvements := UpdateById(involvements, e.id, e.includeInResume, e.details);
        editData := None;
      }
    }

    /** `handleSaveClick`: the form is posted; on success the last element of
        the stored list the server answers with is appended, and the form is
        reset and closed. A failed request changes nothing. */
    method SaveClick(reply: Reply<seq<Involvement>>) returns (posted: Involvement)
      requires Succeeded(reply) ==> reply.body != []
      modifies this
      ensures posted == old(newInvolvement)
      ensures Succeeded(reply) ==>
        involvements == AppendSaved(old(involvements), reply.body)
        && newInvolvement == BlankInvolvement() && !isAdding
      ensures !Succeeded(reply) ==>
        involvements == old(involvements) && newInvolvement == old(newInvolvement) && isAdding == old(isAdding)
      ensures editData == old(editData)
    {
      posted := newInvolvement;
      if Succeeded(reply) {
        involvements := AppendSaved(involvements, reply.body);
        newInvolvement := BlankInvolvement();
        isAdding := false;
      }
    }

    /** `handleDelete`: the status of the response is not looked at, so the
        entries with the id are removed and the edit closed whenever any
        response arrives, an error status included; only a request that gets
        no response changes nothing. */
    method Delete(id: string, reply: Reply<()>)
      modifies this
      ensures reply.Response? ==> involvements == RemoveById(old(involvements), id) && editData == None
      ensures reply.NoResponse? ==> involvements == old(involvements) && editData == old(editData)
      ensures newInvolvement == old(newInvolvement) && isAdding == old(isAdding)
    {
      if reply.Response? {
        involvements := RemoveById(involvements, id);
        editData := None;
      }
    }

    /** `handleAddClick`: an empty form is opened. */
    method AddClick()
      modifies this
      ensures newInvolvement == BlankInvolvement() && isAdding
      ensures involvements == old(involvements) && editData == old(editData)
    {
      newInvolvement := BlankInvolvement();
      isAdding := true;
    }

    /** `handleToggleInclude`: the flag of the entries with the id flips and
        the first of them is reported to `onEdit`. */
    method ToggleInclude(id: string) returns (reported: Option<Involvement>)
      modifies this
      ensures involvements == ResumeData.ToggleInclude(old(involvements), id)
      ensures reported.None? <==> forall k :: 0 <= k < |old(involvements)| ==> old(involvements)[k].id != id
      ensures reported.Some? ==> reported == Some(Reported(FindById(involvements, id).value))
      ensures editData == old(editData) && newInvolvement == old(newInvolvement) && isAdding == old(isAdding)
    {
      involvements := ResumeData.ToggleInclude(involvements, id);
      var found := FindById(involvements, id);
      reported := if found.Some? then Some(Reported(found.value)) else None;
    }

    /** `handleDescriptionChange`: the new-entry description is the typed
        text with the new-item bullet rule applied. */
    method DescriptionChange(value: string)
      modifies this
      ensures newInvolvement == WithDescription(old(newInvolvement), Description.NewItemDescription(value))
      ensures involvements == old(involvements) && editData == old(editData) && isAdding == old(isAdding)
    {
      var formatted := Description.FormatNewItemDescription(value);
      newInvolvement := WithDescription(newInvolvement, formatted);
    }

    /** `handleEditDescriptionChange`: with an edit in progress, its
        description is the typed text with the edit bullet rule applied. */
    method EditDescriptionChange(value: string)
      modifies this
      ensures old(editData).Some? ==>
        editData == Some(WithDescription(old(editData).value, Description.EditDescription(value)))
      ensures old(editData).None? ==> editData == None
      ensures involvements == old(involvements) && newInvolvement == old(newInvolvement) && isAdding == old(isAdding)
    {
      if editData.Some? {
        editData := Some(WithDescription(editData.value, Description.EditDescription(value)));
      }
    }

    /** `handleTogglePresent`: flips `isPresent` of the edit when there is
        one, otherwise of the new-entry form; exactly one of them changes. */
    method TogglePresent()
      modifies this
      ensures old(editData).Some? ==>
        editData.Some? && editData.value.details.isPresent == Some(!old(editData).value.details.isPresent.GetOr(false))
        && editData.value == old(editData).value.(details := editData.value.details)
        && editData.value.details == old(editData).value.details.(isPresent := editData.value.details.isPresent)
        && newInvolvement == old(newInvolvement)
      ensures old(editData).None? ==>
        editData == None
        && newInvolvement.details.isPresent == Some(!old(newInvolvement).details.isPresent.GetOr(false))
        && newInvolvement.details == old(newInvolvement).details.(isPresent := newInvolvement.details.isPresent)
        && newInvolvement.id == old(newInvolvement).id && newInvolvement.includeInResume == old(newInvolvement).includeInResume
      ensures involvements == old(involvements) && isAdding == old(isAdding)
    {
      if editData.Some? {
        var e := editData.value;
        editData := Some(e.(details := e.details.(isPresent := NotFlag(e.details.isPresent))));
      } else {
        newInvolvement := newInvolvement.(details := newInvolvement.details.(isPresent := NotFlag(newInvolvement.details.isPresent)));
      }
    }
  }
}
