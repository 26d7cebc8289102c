/**
 * Records shared by the booking view, the actions and the dashboard: the
 * signed-in identity the auth service reports, and a row of the `users` table.
 */
module Accounts {
  import opened Wrappers

  /** The auth service's user: its id, e-mail and the metadata stored at sign-up. */
  datatype AuthUser = AuthUser(
    id: string,
    email: Option<string>,
    metadataFullName: Option<string>,
    metadataRole: Option<string>)

  /**
   * A row of the `users` table, with the columns the modelled code writes or
   * reads; a column left `None` is one the writer did not set.
   */
  datatype UserRow = UserRow(
    id: string,
    fullName: string,
    email: Option<string>,
    role: Option<string>,
    approved: Option<bool>)
}
