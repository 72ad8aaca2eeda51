/** The certification editor of the resume page
    (resume/CertificationSection.tsx): the list of certifications, the entry being edited, the new-entry form and
    the adding flag, with one method per handler. Every handler's new state is
    computed from the state it starts from; the replies of the requests it
    sends are parameters. */
module CertificationEditor {

  import opened Wrappers
  import opened ResumeData

  /** The empty form `handleAddClick` and a successful save install. */
  function BlankCertification(): (e: Certification)
    ensures e.id == "" && e.includeInResume
    ensures e.details == CertificationDetails("", "", NoDate, NoDate, "")
  {
    Entry("", true, CertificationDetails("", "", NoDate, NoDate, ""))
  }

  class CertificationSection {
    var certifications: seq<Certification>
    var editData: Option<Certification>
    var newCertification: Certification
    var isAdding: bool

    constructor(initial: seq<Certification>)
      ensures certifications == initial && editData == None
      ensures newCertification == BlankCertification() && !isAdding
    {
      certifications := initial;
      editData := None;
      newCertification := BlankCertification();
      isAdding := false;
    }

    /** `handleEditClick`: the entry is copied into the edit form. */
    method EditClick(e: Certification)
      modifies this
      ensures editData == Some(e)
      ensures certifications == old(certifications) && newCertification == old(newCertification) && isAdding == old(isAdding)
    {
      editData := Some(e);
    }

    /** `handleCancelEdit`. */
    method CancelEdit()
      modifies this
      ensures editData == None
      ensures certifications == old(certifications) && newCertification == old(newCertification) && isAdding == old(isAdding)
    {
      editData := None;
    }

    /** `handleUpdate`: with an edit in progress, the entries with its id take
        the edited fields, the edit is reported to `onEdit` and closed;
        without one nothing happens. */
    method Update() returns (reported: Option<Certification>)
      modifies this
      ensures reported == old(editData)
      ensures old(editData).Some? ==>
        certifications == UpdateById(old(certifications), old(editData).value.id,
          old(editData).value.includeInResume, old(editData).value.details)
        && editData == None
      ensures old(editData).None? ==> certifications == old(certifications) && editData == None
      ensures newCertification == old(newCertification) && isAdding == old(isAdding)
    {
      reported := editData;
      if editData.Some? {
        var e := editData.value;
        certifications := UpdateById(certifications, e.id, e.includeInResume, e.details);
        editData := None;
      }
    }

    /** `handleSaveClick`: the form is posted; on success the last element of
        the stored list the server answers with is appended, and the form is
        reset and closed. A failed request changes nothing. */
    method SaveClick(reply: Reply<seq<Certification>>) returns (posted: Certification)
      requires Succeeded(reply) ==> reply.body != []
      modifies this
      ensures posted == old(newCertification)
      ensures Succeeded(reply) ==>
        certifications == AppendSaved(old(certifications), reply.body)
        && newCertification == BlankCertification() && !isAdding
      ensures !Succeeded(reply) ==>
        certifications == old(certifications) && newCertification == old(newCertification) && isAdding == old(isAdding)
      ensures editData == old(editData)
    {
      posted := newCertification;
      if Succeeded(reply) {
        certifications := AppendSaved(certifications, reply.body);
        newCertification := BlankCertification();
        isAdding := false;
      }
    }

    /** `handleDelete`: only after the request succeeds are the entries with
        the id removed and the edit closed. */
    method Delete(id: string, reply: Reply<()>)
      modifies this
      ensures Succeeded(reply) ==> certifications == RemoveById(old(certifications), id) && editData == None
      ensures !Succeeded(reply) ==> certifications == old(certifications) && editData == old(editData)
      ensures newCertification == old(newCertification) && isAdding == old(isAdding)
    {
      if Succeeded(reply) {
        certifications := RemoveById(certifications, id);
        editData := None;
      }
    }

    /** `handleAddClick`: an empty form is opened. */
    method AddClick()
      modifies this
      ensures newCertification == BlankCertification() && isAdding
      ensures certifications == old(certifications) && editData == old(editData)
    {
      newCertification := BlankCertification();
      isAdding := true;
    }

    /** `handleToggleInclude`: the flag of the entries with the id flips and
        the first of them is reported to `onEdit`. */
    method ToggleInclude(id: string) returns (reported: Option<Certification>)
      modifies this
      ensures certifications == ResumeData.ToggleInclude(old(certifications), id)
      ensures reported.None? <==> forall k :: 0 <= k < |old(certifications)| ==> old(certifications)[k].id != id
      ensures reported.Some? ==> reported == FindById(certifications, id)
      ensures editData == old(editData) && newCertification == old(newCertification) && isAdding == old(isAdding)
    {
      certifications := ResumeData.ToggleInclude(certifications, id);
      var found := FindById(certifications, id);
      reported := found;
    }
  }
}
