/**
 * The `profiles` table, as far as the settings action and the ban check in the
 * middleware use it: a map from user id to the row.
 */
module Profiles {
  import opened Wrappers

  datatype Profile = Profile(
    username: Option<string>,
    fullName: Option<string>,
    dailyGoal: Option<int>,
    defaultFocusDuration: Option<int>,
    defaultBreakDuration: Option<int>,
    updatedAt: Option<int>,
    isBanned: bool,
    banReason: Option<string>,
    bannedUntil: Option<int>,
    bannedBy: Option<string>)

  class ProfileTable {
    var rows: map<string, Profile>

    constructor (rows: map<string, Profile>)
      ensures this.rows == rows
    {
      this.rows := rows;
    }
  }
}
