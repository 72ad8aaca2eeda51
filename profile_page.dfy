/** The profile page (profile/Profile.tsx): seven section lists of stored
    records, edited by merging the submitted fields into the record with the
    given `_id` and deleted by filtering that `_id` out, each once the
    server's reply has been read as JSON. */
module ProfilePage {

  import opened Wrappers
  import opened ResumeData
  import opened JsonValue
  import ListOps

  /** A stored record: the fields of one section entry, `_id` among them. */
  type Record = map<string, Json>

  /** `record._id === id`. */
  predicate HasId(record: Record, id: string) {
    Get(record, "_id") == Some(JStr(id))
  }

  /** `{ ...record, ...data }`: the submitted fields win, the others stay. */
  function Spread(record: Record, data: Record): (r: Record)
    ensures r.Keys == record.Keys + data.Keys
    ensures forall k :: k in data ==> r[k] == data[k]
    ensures forall k :: k in record && k !in data ==> r[k] == record[k]
  {
    record + data
  }

  /** `items.map(x => x._id === id ? { ...x, ...data } : x)`. */
  function MergeById(items: seq<Record>, id: string, data: Record): (r: seq<Record>)
    ensures |r| == |items|
    ensures forall k :: 0 <= k < |items| ==> r[k] == if HasId(items[k], id) then Spread(items[k], data) else items[k]
  {
    seq(|items|, k requires 0 <= k < |items| => if HasId(items[k], id) then Spread(items[k], data) else items[k])
  }

  /** An edit that does not submit `_id` keeps every record's `_id`, so the
      same records match the id afterwards. */
  lemma MergeKeepsIds(items: seq<Record>, id: string, data: Record, other: string)
    requires "_id" !in data
    ensures forall k :: 0 <= k < |items| ==> (HasId(MergeById(items, id, data)[k], other) <==> HasId(items[k], other))
  {
  }

  /** Merging the same fields twice is merging them once. */
  lemma MergeIdempotent(items: seq<Record>, id: string, data: Record)
    requires "_id" !in data
    ensures MergeById(MergeById(items, id, data), id, data) == MergeById(items, id, data)
  {
    var once := MergeById(items, id, data);
    forall k | 0 <= k < |items| ensures MergeById(once, id, data)[k] == once[k] {
      if HasId(items[k], id) {
        assert Spread(Spread(items[k], data), data) == Spread(items[k], data);
      }
    }
  }

  /** `items.filter(x => x._id !== id)`. */
  function DeleteById(items: seq<Record>, id: string): (r: seq<Record>)
    ensures forall k :: 0 <= k < |r| ==> !HasId(r[k], id) && r[k] in items
    ensures forall k :: 0 <= k < |items| && !HasId(items[k], id) ==> items[k] in r
  {
    ListOps.Filter(items, (x: Record) => !HasId(x, id))
  }

  /** Deleting works piecewise, so the survivors keep their order. */
  lemma DeleteAppend(a: seq<Record>, b: seq<Record>, id: string)
    ensures DeleteById(a + b, id) == DeleteById(a, id) + DeleteById(b, id)
  {
    ListOps.FilterAppend(a, b, (x: Record) => !HasId(x, id));
  }

  /** Deleting an id nobody has changes nothing, and deleting twice is
      deleting once. */
  lemma DeleteAbsentAndTwice(items: seq<Record>, id: string)
    ensures (forall k :: 0 <= k < |items| ==> !HasId(items[k], id)) ==> DeleteById(items, id) == items
    ensures DeleteById(DeleteById(items, id), id) == DeleteById(items, id)
  {
    ListOps.FilterAll(items, (x: Record) => !HasId(x, id));
    ListOps.FilterIdempotent(items, (x: Record) => !HasId(x, id));
  }

  datatype Section = Education | Summary | Experience | Certification | Involvement | Skill | Project

  /** A `fetch` whose reply was read as JSON (`res.json()` resolved),
      whatever its status. */
  predicate Parsed(reply: Reply<bool>) {
    reply.Response? && reply.body
  }

  /** The page's lists. Educations are replaced by whatever the server
      sends, so they may be undefined; the others start empty and are only
      changed here. */
  class ResumeCraft {
    var educations: Option<seq<Record>>
    var summarys: seq<Record>
    var experiences: seq<Record>
    var certifications: seq<Record>
    var involvements: seq<Record>
    var skills: seq<Record>
    var projects: seq<Record>

    /** The list of a section; undefined educations read as `None`. */
    function List(section: Section): Option<seq<Record>>
      reads this
    {
      match section
      case Education => educations
      case Summary => Some(summarys)
      case Experience => Some(experiences)
      case Certification => Some(certifications)
      case Involvement => Some(involvements)
      case Skill => Some(skills)
      case Project => Some(projects)
    }

    constructor()
      ensures forall s :: List(s) == Some([])
    {
      educations := Some([]);
      summarys := [];
      experiences := [];
      certifications := [];
      involvements := [];
      skills := [];
      projects := [];
    }

    method SetList(section: Section, items: seq<Record>)
      modifies this
      ensures List(section) == Some(items)
      ensures forall s :: s != section ==> List(s) == old(List(s))
    {
      match section
      case Education => educations := Some(items);
      case Summary => summarys := items;
      case Experience => experiences := items;
      case Certification => certifications := items;
      case Involvement => involvements := items;
      case Skill => skills := items;
      case Project => projects := items;
    }

    /** `setEducations(fetchedEducations)`: the server's list, possibly
        undefined. */
    method LoadEducations(fetched: Option<seq<Record>>)
      modifies this
      ensures List(Education) == fetched
      ensures forall s :: s != Education ==> List(s) == old(List(s))
    {
      educations := fetched;
    }

    /** `handleEdit*`: after a parsed reply, the record with the id gets the
        submitted fields; an undefined list is left alone. */
    method Edit(section: Section, id: string, data: Record, reply: Reply<bool>)
      modifies this
      ensures Parsed(reply) && old(List(section)).Some? ==>
        List(section) == Some(MergeById(old(List(section)).value, id, data))
      ensures !Parsed(reply) || old(List(section)).None? ==> List(section) == old(List(section))
      ensures forall s :: s != section ==> List(s) == old(List(s))
    {
      var current := List(section);
      if Parsed(reply) && current.Some? {
        SetList(section, MergeById(current.value, id, data));
      }
    }

    /** `handleDelete*`: after a parsed reply, every record with the id is
        dropped; filtering an undefined list throws and changes nothing. */
    method Delete(section: Section, id: string, reply: Reply<bool>)
      modifies this
      ensures Parsed(reply) && old(List(section)).Some? ==>
        List(section) == Some(DeleteById(old(List(section)).value, id))
      ensures !Parsed(reply) || old(List(section)).None? ==> List(section) == old(List(section))
      ensures forall s :: s != section ==> List(s) == old(List(s))
    {
      var current := List(section);
      if Parsed(reply) && current.Some? {
        SetList(section, DeleteById(current.value, id));
      }
    }
  }

  /** On a list that was never loaded, edits and deletes find nothing. */
  lemma EmptyListUnaffected(id: string, data: Record)
    ensures MergeById([], id, data) == [] && DeleteById([], id) == []
  {
  }
}
