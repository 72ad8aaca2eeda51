/** The older section editors. Certifications, involvements and projects
    (components/CertificationSection.tsx, InvolvementSection.tsx,
    Projects.tsx) keep a local list of cards with numeric ids and an editing
    flag; experiences and education (components/ExperienceSection.tsx,
    Education.tsx) keep a list of server records, start empty and change it
    only after the server answers. */
module LegacyEntries {

  import opened Wrappers
  import opened ResumeData
  import ListOps

  // ---------------------------------------------------------------------
  // Local cards.

  /** A card: its numeric id, whether it is open for editing (an absent flag
      reads as false), and the section's own fields. */
  datatype Card<D> = Card(id: int, isEditing: bool, fields: D)

  datatype CertificationFields = CertificationFields(name: string, issuedBy: string, issuedDate: string, expirationDate: string)
  datatype InvolvementFields = InvolvementFields(organization: string, role: string, duration: string, description: string)
  datatype ProjectFields = ProjectFields(name: string, description: string)

  const BlankCertification := CertificationFields("", "", "", "")
  const BlankInvolvement := InvolvementFields("", "", "", "")
  const BlankProject := ProjectFields("", "")

  const SampleCertification := CertificationFields("Certification Name", "Certification Authority", "January 2021", "January 2023 (if applicable)")
  const SampleInvolvement := InvolvementFields("Community Organization", "Volunteer Coordinator", "January 2020 - Present",
    "Describe your involvement and contributions.")
  const SampleProject := ProjectFields("Project 1", "Description of Project 1")

  /** The editing flag set to `flag` on every card with the id. */
  function SetEditing<D>(cards: seq<Card<D>>, id: int, flag: bool): (r: seq<Card<D>>)
    ensures |r| == |cards|
    ensures forall k :: 0 <= k < |cards| ==>
      r[k] == if cards[k].id == id then cards[k].(isEditing := flag) else cards[k]
  {
    seq(|cards|, k requires 0 <= k < |cards| => if cards[k].id == id then cards[k].(isEditing := flag) else cards[k])
  }

  predicate IdIsNot<D>(id: int, c: Card<D>) {
    c.id != id
  }

  /** `cards.filter(c => c.id !== id)`. */
  function RemoveCards<D>(cards: seq<Card<D>>, id: int): (r: seq<Card<D>>)
    ensures forall k :: 0 <= k < |r| ==> r[k] in cards && r[k].id != id
    ensures forall k :: 0 <= k < |cards| && cards[k].id != id ==> cards[k] in r
  {
    ListOps.Filter(cards, c => IdIsNot(id, c))
  }

  /** Opening and then saving a card leaves it closed, whatever it was; the
      other cards are untouched throughout. */
  lemma EditThenSave<D>(cards: seq<Card<D>>, id: int)
    ensures SetEditing(SetEditing(cards, id, true), id, false) == SetEditing(cards, id, false)
    ensures forall k :: 0 <= k < |cards| && cards[k].id != id ==> SetEditing(SetEditing(cards, id, true), id, false)[k] == cards[k]
  {
  }

  /** Every added card keeps the id 0 of the form, so two added cards share
      their id: opening one opens both, and deleting one deletes both. */
  lemma AddedCardsShareId<D>(cards: seq<Card<D>>, a: D, b: D)
    ensures var s := cards + [Card(0, false, a), Card(0, false, b)];
      SetEditing(s, 0, true)[|cards|].isEditing && SetEditing(s, 0, true)[|cards| + 1].isEditing
      && RemoveCards(s, 0) == RemoveCards(cards, 0)
  {
    var keep := (c: Card<D>) => IdIsNot(0, c);
    var added := [Card(0, false, a), Card(0, false, b)];
    ListOps.FilterAppend(cards, added, keep);
    ListOps.FilterNone(added, keep);
  }

  /** The editor of one card section: `blank` is the empty form and `sample`
      the entry the list starts with. */
  class CardEditor<D> {
    var cards: seq<Card<D>>
    var newCard: Card<D>
    var isAdding: bool
    const blank: D

    /** The form is always reset with the id 0. */
    predicate Valid()
      reads this
    {
      newCard.id == 0
    }

    constructor(blank: D, sample: D)
      ensures Valid()
      ensures cards == [Card(1, false, sample)] && newCard == Card(0, false, blank) && !isAdding && this.blank == blank
    {
      this.blank := blank;
      cards := [Card(1, false, sample)];
      newCard := Card(0, false, blank);
      isAdding := false;
    }

    /** The form's fields as typed. */
    method ChangeNew(fields: D)
      requires Valid()
      modifies this
      ensures Valid()
      ensures newCard == old(newCard).(fields := fields) && cards == old(cards) && isAdding == old(isAdding)
    {
      newCard := newCard.(fields := fields);
    }

    /** `handleEditClick(id)`. */
    method HandleEditClick(id: int)
      modifies this
      ensures cards == SetEditing(old(cards), id, true)
      ensures newCard == old(newCard) && isAdding == old(isAdding)
    {
      cards := SetEditing(cards, id, true);
    }

    /** `handleSaveClick(id)`: with an id it closes that card; without one it
        appends the form as it was when the handler ran, then resets the
        form. The time stamp it writes into the form's id is overwritten by
        the reset that follows in the same update, so the stored id stays 0. */
    method HandleSaveClick(id: Option<int>, now: int)
      requires Valid()
      modifies this
      ensures Valid()
      ensures id.Some? ==> cards == SetEditing(old(cards), id.value, false) && newCard == old(newCard) && isAdding == old(isAdding)
      ensures id.None? ==> cards == old(cards) + [old(newCard)] && newCard == Card(0, false, blank) && !isAdding
      ensures id.None? ==> cards[|cards| - 1].id == 0
    {
      if id.Some? {
        cards := SetEditing(cards, id.value, false);
      } else {
        var added := newCard;
        newCard := newCard.(id := now);
        cards := cards + [added];
        newCard := Card(0, false, blank);
        isAdding := false;
      }
    }

    /** `handleDeleteClick(id)`. */
    method HandleDeleteClick(id: int)
      modifies this
      ensures cards == RemoveCards(old(cards), id)
      ensures newCard == old(newCard) && isAdding == old(isAdding)
    {
      cards := RemoveCards(cards, id);
    }

    /** `handleAddClick`. */
    method HandleAddClick()
      modifies this
      ensures Valid()
      ensures newCard == Card(0, false, blank) && isAdding && cards == old(cards)
    {
      newCard := Card(0, false, blank);
      isAdding := true;
    }

    /** `handleKeyPress` of the project inputs: Enter saves, any other key
        does nothing. */
    method HandleKeyPress(key: string, id: Option<int>, now: int)
      requires Valid()
      modifies this
      ensures Valid()
      ensures key != "Enter" ==> cards == old(cards) && newCard == old(newCard) && isAdding == old(isAdding)
      ensures key == "Enter" && id.Some? ==> cards == SetEditing(old(cards), id.value, false)
      ensures key == "Enter" && id.None? ==> cards == old(cards) + [old(newCard)] && newCard == Card(0, false, blank) && !isAdding
    {
      if key == "Enter" {
        HandleSaveClick(id, now);
      }
    }
  }

  // ---------------------------------------------------------------------
  // Server records.

  /** A record from the server: its `_id` and the editable fields. */
  datatype Record<D> = Record(id: string, fields: D)

  datatype ExperienceFields = ExperienceFields(jobTitle: string, company: string, location: string, duration: string, description: string)
  datatype EducationFields = EducationFields(university: string, degree: string, graduationyear: string)

  const BlankExperience := ExperienceFields("", "", "", "", "")
  const BlankEducation := EducationFields("", "", "")

  /** `handleUpdate`'s map: the fields of every record with the id replaced. */
  function ReplaceFields<D>(records: seq<Record<D>>, id: string, fields: D): (r: seq<Record<D>>)
    ensures |r| == |records|
    ensures forall k :: 0 <= k < |records| ==>
      r[k] == if records[k].id == id then Record(id, fields) else records[k]
  {
    seq(|records|, k requires 0 <= k < |records| => if records[k].id == id then Record(id, fields) else records[k])
  }

  predicate RecordIdIsNot<D>(id: string, r: Record<D>) {
    r.id != id
  }

  function RemoveRecords<D>(records: seq<Record<D>>, id: string): (r: seq<Record<D>>)
    ensures forall k :: 0 <= k < |r| ==> r[k] in records && r[k].id != id
    ensures forall k :: 0 <= k < |records| && records[k].id != id ==> records[k] in r
  {
    ListOps.Filter(records, r => RecordIdIsNot(id, r))
  }

  /** A second update of the same record wins, and an update of an id that
      is not in the list changes nothing. */
  lemma ReplaceFieldsLaws<D>(records: seq<Record<D>>, id: string, first: D, second: D)
    ensures ReplaceFields(ReplaceFields(records, id, first), id, second) == ReplaceFields(records, id, second)
    ensures (forall k :: 0 <= k < |records| ==> records[k].id != id) ==> ReplaceFields(records, id, first) == records
  {
  }

  /** Deleting an id removes no record with another id and is final: a
      second delete of the same id changes nothing. */
  lemma RemoveRecordsLaws<D>(records: seq<Record<D>>, id: string)
    ensures RemoveRecords(RemoveRecords(records, id), id) == RemoveRecords(records, id)
    ensures |RemoveRecords(records, id)| == |records| <==> forall k :: 0 <= k < |records| ==> records[k].id != id
  {
    var keep := (r: Record<D>) => RecordIdIsNot(id, r);
    ListOps.FilterIdempotent(records, keep);
    ListOps.FilterAll(records, keep);
    if |RemoveRecords(records, id)| == |records| && RemoveRecords(records, id) != records {
      ListOps.FilterStronger(records, _ => true, keep);
      ListOps.FilterAll(records, _ => true);
      FilterShorter(records, keep);
    }
  }

  /** A filter that drops something is shorter than its input. */
  lemma {:induction false} FilterShorter<T>(s: seq<T>, keep: T -> bool)
    requires ListOps.Filter(s, keep) != s
    ensures |ListOps.Filter(s, keep)| < |s|
    decreases |s|
  {
    if s != [] && keep(s[0]) {
      FilterShorter(s[1..], keep);
    }
  }

  /** The editor of experiences or education: `blank` is the empty form. */
  class RecordEditor<D> {
    var records: seq<Record<D>>
    var editData: Option<Record<D>>
    var newRecord: D
    var isAdding: bool
    /** The last `onEdit(id, data)` call made to the parent. */
    var reported: Option<Record<D>>
    const blank: D

    /** The local list starts empty, whatever the parent passes in. */
    constructor(blank: D)
      ensures records == [] && editData.None? && newRecord == blank && !isAdding && reported.None? && this.blank == blank
    {
      this.blank := blank;
      records := [];
      editData := None;
      newRecord := blank;
      isAdding := false;
      reported := None;
    }

    /** `handleEditClick`: the values of the row go into the edit form. */
    method HandleEditClick(id: string, fields: D)
      modifies this
      ensures editData == Some(Record(id, fields))
      ensures records == old(records) && newRecord == old(newRecord) && isAdding == old(isAdding) && reported == old(reported)
    {
      editData := Some(Record(id, fields));
    }

    method HandleCancelEdit()
      modifies this
      ensures editData.None?
      ensures records == old(records) && newRecord == old(newRecord) && isAdding == old(isAdding) && reported == old(reported)
    {
      editData := None;
    }

    /** `handleUpdate`: reports the edit, writes its fields into the matching
        record and closes the form; nothing happens without an open form. */
    method HandleUpdate()
      modifies this
      ensures old(editData).None? ==> records == old(records) && editData.None? && reported == old(reported)
      ensures old(editData).Some? ==> (
        records == ReplaceFields(old(records), old(editData).value.id, old(editData).value.fields)
        && editData.None? && reported == old(editData))
      ensures newRecord == old(newRecord) && isAdding == old(isAdding)
    {
      if editData.Some? {
        reported := editData;
        records := ReplaceFields(records, editData.value.id, editData.value.fields);
        editData := None;
      }
    }

    /** `handleSaveClick`; `reply` answers the POST, its body the decoded
        record (`None` when it is not JSON). Only an ok status with a record
        appends it and resets the form. */
    method HandleSaveClick(reply: Reply<Option<Record<D>>>)
      modifies this
      ensures Succeeded(reply) && reply.body.Some? ==>
        records == old(records) + [reply.body.value] && newRecord == blank && !isAdding
      ensures !(Succeeded(reply) && reply.body.Some?) ==>
        records == old(records) && newRecord == old(newRecord) && isAdding == old(isAdding)
      ensures editData == old(editData) && reported == old(reported)
    {
      if Succeeded(reply) && reply.body.Some? {
        records := records + [reply.body.value];
        newRecord := blank;
        isAdding := false;
      }
    }

    /** `handleDelete(id)`: once any reply with a JSON body arrives, whatever
        its status, the records with the id go and the edit form closes. */
    method HandleDelete(id: string, reply: Reply<bool>)
      modifies this
      ensures reply.Response? && reply.body ==> records == RemoveRecords(old(records), id) && editData.None?
      ensures !(reply.Response? && reply.body) ==> records == old(records) && editData == old(editData)
      ensures newRecord == old(newRecord) && isAdding == old(isAdding) && reported == old(reported)
    {
      if reply.Response? && reply.body {
        records := RemoveRecords(records, id);
        editData := None;
      }
    }

    method HandleAddClick()
      modifies this
      ensures newRecord == blank && isAdding
      ensures records == old(records) && editData == old(editData) && reported == old(reported)
    {
      newRecord := blank;
      isAdding := true;
    }

    /** The education editor's load on mount: the list becomes whatever the
        server sends, when it is JSON. */
    method LoadRecords(reply: Reply<Option<seq<Record<D>>>>)
      modifies this
      ensures reply.Response? && reply.body.Some? ==> records == reply.body.value
      ensures !(reply.Response? && reply.body.Some?) ==> records == old(records)
      ensures editData == old(editData) && newRecord == old(newRecord) && isAdding == old(isAdding) && reported == old(reported)
    {
      if reply.Response? && reply.body.Some? {
        records := reply.body.value;
      }
    }
  }
}
