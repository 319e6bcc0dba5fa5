/** How the organization drop-down and the category filter work together on the page. */
module CategoriesPage {
  import opened Categories
  import opened CategoryFilter
  import opened OrganizationDropdown

  /**
   * Whatever entry of the drop-down is picked, with the search box empty the
   * table of a non-empty category list is not empty: every entry either
   * switches the organization filter off or names an organization that some
   * category carries.
   */
  lemma EveryOptionShowsSomething(categories: seq<Category>, choice: OrgOption)
    requires categories != []
    requires choice in OrganizationOptions(categories)
    ensures FilterCategories(categories, "", choice.id) != []
  {
    if OrganizationActive(choice.id) {
      assert choice != AllOrganizations;
      assert choice in OrgsOf(categories);
      OrgsOfIds(categories);
      var k :| 0 <= k < |OrgsOf(categories)| && OrgsOf(categories)[k] == choice;
      assert HasOrg(OrgsOf(categories), choice.id);
      var c :| c in categories && c.organizationId == choice.id;
      FilterMembership(categories, "", choice.id, c);
    }
  }
}
