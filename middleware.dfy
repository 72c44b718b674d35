/**
 * The ban check the edge middleware runs on every matched request
 * (middleware.ts): pass through, lift an expired temporary ban and pass, or
 * sign the user out and redirect to the banned page. Times are milliseconds.
 */
module Middleware {
  import opened Wrappers
  import opened Profiles

  datatype BanDecision = PassThrough | LiftExpiredBan | SignOutAndRedirect

  datatype Response = Continue | RedirectTo(path: string)

  const BannedPath := "/banned"

  /** The decision for a request, given the user and their profile row (if it was found). */
  function Decide(user: Option<string>, profile: Option<Profile>, now: int): (d: BanDecision)
    ensures d == SignOutAndRedirect <==>
      user.Some? && profile.Some? && profile.value.isBanned
      && (profile.value.bannedUntil.None? || now < profile.value.bannedUntil.value)
    ensures d == LiftExpiredBan <==>
      user.Some? && profile.Some? && profile.value.isBanned
      && profile.value.bannedUntil.Some? && now >= profile.value.bannedUntil.value
  {
    if user.None? || profile.None? || !profile.value.isBanned then PassThrough
    else if profile.value.bannedUntil.Some? && now >= profile.value.bannedUntil.value then LiftExpiredBan
    else SignOutAndRedirect
  }

  /** A request with no user, or with a user who is not banned, passes. */
  lemma NotBannedPasses(user: Option<string>, profile: Option<Profile>, now: int)
    requires user.None? || profile.None? || !profile.value.isBanned
    ensures Decide(user, profile, now) == PassThrough
  {
  }

  /** The expiry instant itself already counts as expired. */
  lemma ExpiryInstantIsExpired(user: string, p: Profile)
    requires p.isBanned && p.bannedUntil.Some?
    ensures Decide(Some(user), Some(p), p.bannedUntil.value) == LiftExpiredBan
    ensures Decide(Some(user), Some(p), p.bannedUntil.value - 1) == SignOutAndRedirect
  {
  }

  /** The row after the automatic unban: the four ban columns cleared, nothing else touched. */
  function Unbanned(p: Profile): (q: Profile)
    ensures !q.isBanned && q.banReason.None? && q.bannedUntil.None? && q.bannedBy.None?
    ensures q.(isBanned := p.isBanned, banReason := p.banReason, bannedUntil := p.bannedUntil, bannedBy := p.bannedBy) == p
  {
    p.(isBanned := false, banReason := None, bannedUntil := None, bannedBy := None)
  }

  /** An unbanned row passes the next request. */
  lemma UnbannedPasses(user: string, p: Profile, now: int)
    ensures Decide(Some(user), Some(Unbanned(p)), now) == PassThrough
  {
  }

  /**
   * The middleware for one request. `unbanFails` says whether the unban write
   * fails; its error is not inspected, so the request passes either way.
   */
  method CheckBan(table: ProfileTable, user: Option<string>, now: int, unbanFails: bool)
    returns (response: Response, signedOut: bool)
    modifies table
    ensures var profile := if user.Some? && user.value in old(table.rows) then Some(old(table.rows)[user.value]) else None;
      var d := Decide(user, profile, now);
      && (d == PassThrough ==> response == Continue && !signedOut && table.rows == old(table.rows))
      && (d == SignOutAndRedirect ==> response == RedirectTo(BannedPath) && signedOut && table.rows == old(table.rows))
      && (d == LiftExpiredBan ==>
            response == Continue && !signedOut
            && table.rows == (if unbanFails then old(table.rows)
                              else old(table.rows)[user.value := Unbanned(old(table.rows)[user.value])]))
  {
    response, signedOut := Continue, false;
    if user.Some? {
      var uid := user.value;
      var profile := if uid in table.rows then Some(table.rows[uid]) else None;
      if profile.Some? && profile.value.isBanned {
        if profile.value.bannedUntil.Some? {
          if now >= profile.value.bannedUntil.value {
            if !unbanFails {
              table.rows := table.rows[uid := Unbanned(profile.value)];
            }
            return Continue, false;
          }
        }
        return RedirectTo(BannedPath), true;
      }
    }
  }
}
