/** The university search box (CustomUniversityDropdown.tsx): typing opens
    a list of at most five universities whose names contain the typed text,
    ignoring case, in the order they were given; choosing one fills the box
    and closes the list. */
module UniversityDropdown {

  import opened Wrappers
  import opened Text
  import ListOps

  const MaxShown := 5

  /** `universities.filter(uni => uni.toLowerCase().includes(term.toLowerCase())).slice(0, 5)`. */
  function Suggestions(universities: seq<string>, term: string): (r: seq<string>)
    ensures |r| <= MaxShown
    ensures forall k :: 0 <= k < |r| ==> r[k] in universities && ContainsIgnoreCase(r[k], term)
  {
    ListOps.Take(ListOps.Filter(universities, uni => ContainsIgnoreCase(uni, term)), MaxShown)
  }

  /** The suggestions are the first matches in the given order: they are a
      prefix of all matches, and when fewer than five are shown, every
      matching university is among them. */
  lemma SuggestionsAreFirstMatches(universities: seq<string>, term: string)
    ensures var all := ListOps.Filter(universities, uni => ContainsIgnoreCase(uni, term));
      Suggestions(universities, term) == all[..|Suggestions(universities, term)|]
      && (|Suggestions(universities, term)| < MaxShown ==>
            forall k :: 0 <= k < |universities| && ContainsIgnoreCase(universities[k], term)
              ==> universities[k] in Suggestions(universities, term))
  {
  }

  /** The lower-case form of a concatenation is the concatenation of the
      lower-case forms. */
  lemma LowerAppend(a: string, b: string)
    ensures Lower(a + b) == Lower(a) + Lower(b)
  {
    assert forall k :: 0 <= k < |a + b| ==> Lower(a + b)[k] == (Lower(a) + Lower(b))[k];
  }

  /** A name that contains a longer search text contains the shorter text
      it starts with. */
  lemma ContainsPrefix(name: string, term: string, more: string)
    requires ContainsIgnoreCase(name, term + more)
    ensures ContainsIgnoreCase(name, term)
  {
    LowerAppend(term, more);
    var i :| 0 <= i <= |Lower(name)| && OccursAt(Lower(name), Lower(term + more), i);
    assert Lower(name)[i..i + |Lower(term)|] == Lower(term + more)[..|Lower(term)|];
    assert OccursAt(Lower(name), Lower(term), i);
  }

  /** With an empty search box the list shows the first five universities. */
  lemma EmptyTermShowsFirst(universities: seq<string>)
    ensures Suggestions(universities, "") == ListOps.Take(universities, MaxShown)
  {
    forall k | 0 <= k < |universities| ensures ContainsIgnoreCase(universities[k], "") {
      ContainsIgnoreCaseBasics(universities[k]);
    }
    ListOps.FilterAll(universities, uni => ContainsIgnoreCase(uni, ""));
  }

  /** Typing more narrows the search: every university that matches the
      longer text matched the shorter one, so there are no more matches. */
  lemma TypingNarrows(universities: seq<string>, term: string, more: string)
    ensures var longer := ListOps.Filter(universities, uni => ContainsIgnoreCase(uni, term + more));
      var shorter := ListOps.Filter(universities, uni => ContainsIgnoreCase(uni, term));
      |longer| <= |shorter| && forall k :: 0 <= k < |longer| ==> longer[k] in shorter
  {
    forall uni | ContainsIgnoreCase(uni, term + more) ensures ContainsIgnoreCase(uni, term) {
      ContainsPrefix(uni, term, more);
    }
    ListOps.FilterStronger(universities, uni => ContainsIgnoreCase(uni, term), uni => ContainsIgnoreCase(uni, term + more));
  }

  class UniversityDropdown {
    const universities: seq<string>
    var isOpen: bool
    var searchTerm: string
    var hoveredIndex: Option<nat>
    /** The last value handed to the `onChange` callback. */
    var reported: Option<string>

    constructor(universities: seq<string>, value: string)
      ensures this.universities == universities && searchTerm == value
      ensures !isOpen && hoveredIndex.None? && reported.None?
    {
      this.universities := universities;
      searchTerm := value;
      isOpen := false;
      hoveredIndex := None;
      reported := None;
    }

    /** The list is drawn when it is open and something matches. */
    predicate ListShown()
      reads this
    {
      isOpen && Suggestions(universities, searchTerm) != []
    }

    /** `handleInputChange`. */
    method HandleInputChange(value: string)
      modifies this
      ensures searchTerm == value && reported == Some(value) && isOpen
      ensures hoveredIndex == old(hoveredIndex)
    {
      searchTerm := value;
      reported := Some(value);
      isOpen := true;
    }

    /** `handleUniversitySelect`. */
    method HandleUniversitySelect(uni: string)
      modifies this
      ensures searchTerm == uni && reported == Some(uni) && !isOpen && !ListShown()
      ensures hoveredIndex == old(hoveredIndex)
    {
      searchTerm := uni;
      reported := Some(uni);
      isOpen := false;
    }

    /** A click on the search box opens the list. */
    method HandleInputClick()
      modifies this
      ensures isOpen
      ensures searchTerm == old(searchTerm) && reported == old(reported) && hoveredIndex == old(hoveredIndex)
    {
      isOpen := true;
    }

    /** A mouse press anywhere: outside the dropdown it closes the list,
        inside it changes nothing. */
    method HandleMouseDown(inside: bool)
      modifies this
      ensures isOpen == (old(isOpen) && inside)
      ensures searchTerm == old(searchTerm) && reported == old(reported) && hoveredIndex == old(hoveredIndex)
    {
      if !inside {
        isOpen := false;
      }
    }

    method HandleMouseEnter(index: nat)
      modifies this
      ensures hoveredIndex == Some(index)
      ensures isOpen == old(isOpen) && searchTerm == old(searchTerm) && reported == old(reported)
    {
      hoveredIndex := Some(index);
    }

    method HandleMouseLeave()
      modifies this
      ensures hoveredIndex.None?
      ensures isOpen == old(isOpen) && searchTerm == old(searchTerm) && reported == old(reported)
    {
      hoveredIndex := None;
    }
  }

  /** Reopening the list after choosing a listed university shows at least
      that university's entry. */
  lemma SelectedStillMatches(universities: seq<string>, uni: string)
    requires uni in universities
    ensures Suggestions(universities, uni) != []
  {
    ContainsIgnoreCaseBasics(uni);
    var k :| 0 <= k < |universities| && universities[k] == uni;
    var keep := (u: string) => ContainsIgnoreCase(u, uni);
    assert keep(universities[k]);
    ListOps.FilterNone(universities, keep);
  }
}
