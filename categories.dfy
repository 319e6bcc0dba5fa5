/** The record shown on the super-admin organization-categories page. */
module Categories {

  /**
   * One category an organization created. `status` is typed as
   * 'pending' | 'approved' | 'rejected' in the page, but nothing checks
   * this at run time, so it is an arbitrary string here.
   */
  datatype Category = Category(
    id: string,
    categoryName: string,
    organizationName: string,
    organizationId: string,
    industry: string,
    description: string,
    status: string,
    createdAt: string,
    updatedAt: string)
}
