/** The template gallery (Temp/TemplatesPage.tsx): a fixed catalogue
    narrowed by a name search, a category and a premium switch. */
module TemplatesPage {

  import opened Text
  import ListOps

  /** A catalogue entry; `rating` is kept in tenths (4.8 is 48). */
  datatype Template = Template(id: string, name: string, category: string, thumbnail: string,
                               isPremium: bool, rating: nat, downloads: nat)

  const Catalogue: seq<Template> := [
    Template("1", "Professional Modern", "Professional", "/templates/professional-modern.png", false, 48, 12500),
    Template("2", "Creative Design", "Creative", "/templates/creative-design.png", true, 49, 8300),
    Template("3", "Executive Clean", "Professional", "/templates/executive-clean.png", true, 47, 15200)]

  const Categories: seq<string> := ["All", "Professional", "Creative", "Modern", "Simple", "Academic", "Technical"]

  /** The three tests of the filter, joined by `&&`. */
  predicate Matches(template: Template, searchQuery: string, selectedCategory: string, showPremiumOnly: bool) {
    ContainsIgnoreCase(template.name, searchQuery)
    && (selectedCategory == "All" || template.category == selectedCategory)
    && (!showPremiumOnly || template.isPremium)
  }

  /** `filteredTemplates`: exactly the matching templates, in catalogue order. */
  function FilteredTemplates(templates: seq<Template>, searchQuery: string, selectedCategory: string, showPremiumOnly: bool)
    : (r: seq<Template>)
    ensures forall k :: 0 <= k < |r| ==> r[k] in templates
    ensures forall k :: 0 <= k < |r| ==> ContainsIgnoreCase(r[k].name, searchQuery)
    ensures forall k :: 0 <= k < |r| ==> selectedCategory == "All" || r[k].category == selectedCategory
    ensures forall k :: 0 <= k < |r| ==> !showPremiumOnly || r[k].isPremium
    ensures forall k :: (0 <= k < |templates| && Matches(templates[k], searchQuery, selectedCategory, showPremiumOnly)
      ==> templates[k] in r)
  {
    ListOps.Filter(templates, t => Matches(t, searchQuery, selectedCategory, showPremiumOnly))
  }

  /** "No templates found matching your criteria" is shown exactly when no
      template passes all three tests. */
  predicate NoResultsShown(templates: seq<Template>, searchQuery: string, selectedCategory: string, showPremiumOnly: bool) {
    FilteredTemplates(templates, searchQuery, selectedCategory, showPremiumOnly) == []
  }

  lemma NoResultsIff(templates: seq<Template>, searchQuery: string, selectedCategory: string, showPremiumOnly: bool)
    ensures NoResultsShown(templates, searchQuery, selectedCategory, showPremiumOnly)
      <==> forall k :: 0 <= k < |templates| ==> !Matches(templates[k], searchQuery, selectedCategory, showPremiumOnly)
  {
    ListOps.FilterNone(templates, t => Matches(t, searchQuery, selectedCategory, showPremiumOnly));
  }

  /** The filter keeps the catalogue's order: filtering two parts of a list
      and putting the results side by side is filtering the whole. */
  lemma FilterKeepsOrder(a: seq<Template>, b: seq<Template>, searchQuery: string, selectedCategory: string, showPremiumOnly: bool)
    ensures FilteredTemplates(a + b, searchQuery, selectedCategory, showPremiumOnly)
      == FilteredTemplates(a, searchQuery, selectedCategory, showPremiumOnly)
         + FilteredTemplates(b, searchQuery, selectedCategory, showPremiumOnly)
  {
    ListOps.FilterAppend(a, b, t => Matches(t, searchQuery, selectedCategory, showPremiumOnly));
  }

  /** Turning premium-only on never adds a result. */
  lemma PremiumOnlyNarrows(templates: seq<Template>, searchQuery: string, selectedCategory: string)
    ensures var on := FilteredTemplates(templates, searchQuery, selectedCategory, true);
      var off := FilteredTemplates(templates, searchQuery, selectedCategory, false);
      |on| <= |off| && forall k :: 0 <= k < |on| ==> on[k] in off
  {
    ListOps.FilterStronger(templates, t => Matches(t, searchQuery, selectedCategory, false),
      t => Matches(t, searchQuery, selectedCategory, true));
  }

  /** With an empty search, the category `All` and premium-only off, every
      template is shown. */
  lemma DefaultShowsAll(templates: seq<Template>)
    ensures FilteredTemplates(templates, "", "All", false) == templates
  {
    forall k | 0 <= k < |templates| ensures Matches(templates[k], "", "All", false) {
      ContainsIgnoreCaseBasics(templates[k].name);
    }
    ListOps.FilterAll(templates, t => Matches(t, "", "All", false));
  }

  /** In the shipped catalogue the premium switch leaves the two premium
      templates, and the category `Modern` matches none. */
  lemma CatalogueFacts()
    ensures FilteredTemplates(Catalogue, "", "All", true) == [Catalogue[1], Catalogue[2]]
    ensures NoResultsShown(Catalogue, "", "Modern", false)
  {
    var keep := t => Matches(t, "", "All", true);
    var c := Catalogue;
    ContainsIgnoreCaseBasics(c[1].name);
    ContainsIgnoreCaseBasics(c[2].name);
    assert !keep(c[0]) && keep(c[1]) && keep(c[2]);
    var tail := c[1..];
    assert tail[1..] == [c[2]];
    assert ListOps.Filter([c[2]], keep) == [c[2]];
    assert ListOps.Filter(tail, keep) == [c[1], c[2]];
    assert ListOps.Filter(c, keep) == [c[1], c[2]];
    NoResultsIff(Catalogue, "", "Modern", false);
  }
}
