/**
 * The effect that recomputes `filteredCategories` whenever the category
 * list, the search box or the organization drop-down changes.
 */
module CategoryFilter {
  import opened Seqs
  import opened Text
  import opened Categories

  /** The drop-down value that means "no organization filter". */
  const AllOrganizationsId: string := "all"

  /** The search test: the term, lower-cased, occurs in one of three lower-cased fields. */
  predicate MatchesSearch(c: Category, term: string)
    ensures term == "" ==> MatchesSearch(c, term)
    ensures MatchesSearch(c, term) ==>
      |term| <= |c.categoryName| || |term| <= |c.organizationName| || |term| <= |c.industry|
  {
    var t := Lower(term);
    Contains(Lower(c.categoryName), t)
      || Contains(Lower(c.organizationName), t)
      || Contains(Lower(c.industry), t)
  }

  /** A JavaScript string is truthy exactly when it is not empty. */
  predicate SearchActive(term: string) {
    term != ""
  }

  predicate OrganizationActive(selected: string) {
    selected != "" && selected != AllOrganizationsId
  }

  /**
   * The effect body: start from a copy of the list, narrow it by the search
   * term when one is typed, then by the selected organization when one other
   * than 'all' is chosen. With no term and no organization (or 'all'),
   * the whole list is shown as it is.
   */
  function FilterCategories(categories: seq<Category>, searchTerm: string, selectedOrganization: string): (r: seq<Category>)
    ensures |r| <= |categories|
    ensures forall c :: c in r ==> c in categories
    ensures searchTerm == "" && (selectedOrganization == "" || selectedOrganization == AllOrganizationsId) ==> r == categories
  {
    var filtered := if SearchActive(searchTerm)
      then Keep(categories, c => MatchesSearch(c, searchTerm))
      else categories;
    if OrganizationActive(selectedOrganization)
    then Keep(filtered, (c: Category) => c.organizationId == selectedOrganization)
    else filtered
  }

  /** Reference definition: a single test that ANDs the two conditions. */
  predicate Visible(c: Category, searchTerm: string, selectedOrganization: string) {
    && (!SearchActive(searchTerm) || MatchesSearch(c, searchTerm))
    && (!OrganizationActive(selectedOrganization) || c.organizationId == selectedOrganization)
  }

  /** The two chained filters are one stable filter by the conjunction. */
  lemma FilterIsSinglePass(categories: seq<Category>, searchTerm: string, selectedOrganization: string)
    ensures FilterCategories(categories, searchTerm, selectedOrganization)
         == Keep(categories, c => Visible(c, searchTerm, selectedOrganization))
  {
    var search := c => MatchesSearch(c, searchTerm);
    var org := (c: Category) => c.organizationId == selectedOrganization;
    var both := c => Visible(c, searchTerm, selectedOrganization);
    if SearchActive(searchTerm) && OrganizationActive(selectedOrganization) {
      KeepKeep(categories, search, org, both);
    } else if SearchActive(searchTerm) {
      KeepExtensional(categories, search, both);
    } else if OrganizationActive(selectedOrganization) {
      KeepExtensional(categories, org, both);
    } else {
      KeepAll(categories, both);
    }
  }

  /** The result keeps the input order and adds or repeats nothing. */
  lemma FilterIsSubsequence(categories: seq<Category>, searchTerm: string, selectedOrganization: string)
    ensures IsSubsequence(FilterCategories(categories, searchTerm, selectedOrganization), categories)
  {
    FilterIsSinglePass(categories, searchTerm, selectedOrganization);
    KeepIsSubsequence(categories, c => Visible(c, searchTerm, selectedOrganization));
  }

  /** A category is shown if and only if it is in the list and passes both conditions. */
  lemma FilterMembership(categories: seq<Category>, searchTerm: string, selectedOrganization: string, c: Category)
    ensures c in FilterCategories(categories, searchTerm, selectedOrganization)
        <==> c in categories
             && (searchTerm == "" || MatchesSearch(c, searchTerm))
             && (selectedOrganization == "" || selectedOrganization == AllOrganizationsId || c.organizationId == selectedOrganization)
  {
    FilterIsSinglePass(categories, searchTerm, selectedOrganization);
    KeepMember(categories, c => Visible(c, searchTerm, selectedOrganization), c);
  }

  /** Each shown category appears as many times as in the list; hidden ones not at all. */
  lemma FilterCount(categories: seq<Category>, searchTerm: string, selectedOrganization: string, c: Category)
    ensures multiset(FilterCategories(categories, searchTerm, selectedOrganization))[c]
         == if Visible(c, searchTerm, selectedOrganization) then multiset(categories)[c] else 0
  {
    FilterIsSinglePass(categories, searchTerm, selectedOrganization);
    KeepCount(categories, c => Visible(c, searchTerm, selectedOrganization), c);
  }

  /** Running the effect on its own output with the same inputs changes nothing. */
  lemma FilterIdempotent(categories: seq<Category>, searchTerm: string, selectedOrganization: string)
    ensures var once := FilterCategories(categories, searchTerm, selectedOrganization);
            FilterCategories(once, searchTerm, selectedOrganization) == once
  {
    var both := c => Visible(c, searchTerm, selectedOrganization);
    var once := FilterCategories(categories, searchTerm, selectedOrganization);
    FilterIsSinglePass(categories, searchTerm, selectedOrganization);
    FilterIsSinglePass(once, searchTerm, selectedOrganization);
    KeepIdempotent(categories, both);
  }

  /** Search terms that lower-case to the same string show the same categories. */
  lemma FilterIgnoresCase(categories: seq<Category>, term1: string, term2: string, selectedOrganization: string)
    requires Lower(term1) == Lower(term2)
    ensures FilterCategories(categories, term1, selectedOrganization)
         == FilterCategories(categories, term2, selectedOrganization)
  {
    assert |term1| == |Lower(term1)| == |Lower(term2)| == |term2|;
    FilterIsSinglePass(categories, term1, selectedOrganization);
    FilterIsSinglePass(categories, term2, selectedOrganization);
    KeepExtensional(categories,
      c => Visible(c, term1, selectedOrganization),
      c => Visible(c, term2, selectedOrganization));
  }

  /** In particular, typing the term in capitals or in lower case makes no difference. */
  lemma FilterLowerCasedTerm(categories: seq<Category>, searchTerm: string, selectedOrganization: string)
    ensures FilterCategories(categories, Lower(searchTerm), selectedOrganization)
         == FilterCategories(categories, searchTerm, selectedOrganization)
  {
    LowerIdempotent(searchTerm);
    FilterIgnoresCase(categories, Lower(searchTerm), searchTerm, selectedOrganization);
  }
}
