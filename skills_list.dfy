/** The older skills box (components/Skills.tsx): one input both searches
    the list and adds to it, and each shown row has a delete button. */
module SkillsList {

  import opened Text
  import ListOps

  /** `filteredSkills`: the skills containing the input, ignoring case, in
      list order. */
  function FilteredSkills(skills: seq<string>, inputValue: string): (r: seq<string>)
    ensures forall k :: 0 <= k < |r| ==> r[k] in skills && ContainsIgnoreCase(r[k], inputValue)
    ensures forall k :: 0 <= k < |skills| && ContainsIgnoreCase(skills[k], inputValue) ==> skills[k] in r
  {
    ListOps.Filter(skills, skill => ContainsIgnoreCase(skill, inputValue))
  }

  /** The button shows a plus when nothing matches, a magnifier otherwise. */
  predicate PlusIconShown(skills: seq<string>, inputValue: string) {
    FilteredSkills(skills, inputValue) == []
  }

  lemma PlusIconIff(skills: seq<string>, inputValue: string)
    ensures PlusIconShown(skills, inputValue)
      <==> forall k :: 0 <= k < |skills| ==> !ContainsIgnoreCase(skills[k], inputValue)
  {
    ListOps.FilterNone(skills, skill => ContainsIgnoreCase(skill, inputValue));
  }

  /** With the input cleared every skill is listed. */
  lemma EmptyInputListsAll(skills: seq<string>)
    ensures FilteredSkills(skills, "") == skills
  {
    forall k | 0 <= k < |skills| ensures ContainsIgnoreCase(skills[k], "") {
      ContainsIgnoreCaseBasics(skills[k]);
    }
    ListOps.FilterAll(skills, skill => ContainsIgnoreCase(skill, ""));
  }

  /** `splice(index, 1)` on a copy: one element out when the index is in
      range, nothing otherwise. */
  function Spliced(skills: seq<string>, index: nat): (r: seq<string>)
    ensures index < |skills| ==> (|r| == |skills| - 1
      && (forall k :: 0 <= k < index ==> r[k] == skills[k])
      && (forall k :: index <= k < |r| ==> r[k] == skills[k + 1]))
    ensures index >= |skills| ==> r == skills
  {
    if index < |skills| then ListOps.RemovedAt(skills, index) else skills
  }

  class SkillsBox {
    var skills: seq<string>
    var inputValue: string

    constructor()
      ensures skills == [] && inputValue == ""
    {
      skills := [];
      inputValue := "";
    }

    method HandleInputChange(value: string)
      modifies this
      ensures inputValue == value && skills == old(skills)
    {
      inputValue := value;
    }

    /** `handleAction`: a blank input adds nothing; otherwise its trimmed
        form is appended and the input is cleared. */
    method HandleAction()
      modifies this
      ensures Trim(old(inputValue)) == [] ==> skills == old(skills) && inputValue == old(inputValue)
      ensures Trim(old(inputValue)) != [] ==> skills == old(skills) + [Trim(old(inputValue))] && inputValue == ""
    {
      var trimmed := Trim(inputValue);
      if trimmed != [] {
        skills := skills + [trimmed];
        inputValue := "";
      }
    }

    /** `handleDeleteSkill(index)`: the index is a position in the full list. */
    method HandleDeleteSkill(index: nat)
      modifies this
      ensures skills == Spliced(old(skills), index) && inputValue == old(inputValue)
    {
      if index < |skills| {
        skills := skills[..index] + skills[index + 1..];
      }
    }

    /** The delete button of the `row`-th listed skill passes `row` itself. */
    method DeleteListedRow(row: nat)
      requires row < |FilteredSkills(skills, inputValue)|
      modifies this
      ensures skills == Spliced(old(skills), row) && |skills| == |old(skills)| - 1
      ensures inputValue == old(inputValue)
    {
      HandleDeleteSkill(row);
    }
  }

  /** After a successful add the input is empty, so the whole list, new
      skill included, is shown again. */
  lemma AddedSkillListed(skills: seq<string>, inputValue: string)
    requires Trim(inputValue) != []
    ensures FilteredSkills(skills + [Trim(inputValue)], "") == skills + [Trim(inputValue)]
  {
    EmptyInputListsAll(skills + [Trim(inputValue)]);
  }

  /** A blank input cannot be added, and only white space is blank. */
  lemma BlankInput(inputValue: string)
    ensures Trim(inputValue) == [] <==> forall i :: 0 <= i < |inputValue| ==> IsJsSpace(inputValue[i])
  {
    TrimEmptyIff(inputValue, IsJsSpace);
  }

  /** With a search in the box, the delete button of a listed skill can
      remove a different skill: with `Go` and `Java` stored and `java`
      typed, the only row shows `Java`, yet its button removes `Go`. */
  lemma DeleteUsesListedIndex()
    ensures FilteredSkills(["Go", "Java"], "java") == ["Java"]
    ensures Spliced(["Go", "Java"], 0) == ["Java"]
  {
    var skills: seq<string> := ["Go", "Java"];
    var keep := skill => ContainsIgnoreCase(skill, "java");
    assert Lower("java") == "java";
    assert Lower("Java") == "java";
    assert OccursAt(Lower("Java"), Lower("java"), 0);
    assert Lower("Go") == "go";
    assert !ContainsIgnoreCase("Go", "java");
    assert skills[1..] == ["Java"];
    assert ListOps.Filter(["Java"], keep) == ["Java"];
  }
}
