/** A marketplace user (freemarket-app/src/domain/entities/user.ts): the mutable
    `UserEntity` around a `User` record, whose only mutator edits the profile. */
module UserEntities {
  import opened Common

  /** The `User` record; `avatar` is the optional `avatar?: string`. */
  datatype User = User(
    id: UserId,
    username: string,
    email: string,
    displayName: string,
    avatar: Option<string>,
    rating: int,
    createdAt: Time,
    updatedAt: Time)
  {
    /** The record after `updateProfile(displayName, avatar)` at `now`: the display
        name is always replaced, the avatar only by a truthy (given, non-empty) one,
        and the update time is `now`; nothing else moves. */
    function WithProfile(newDisplayName: string, newAvatar: Option<string>, now: Time): (u: User)
      ensures u.displayName == newDisplayName && u.updatedAt == now
      ensures newAvatar.Some? && Truthy(newAvatar.value) ==> u.avatar == newAvatar
      ensures !(newAvatar.Some? && Truthy(newAvatar.value)) ==> u.avatar == avatar
      ensures SameAccount(this, u)
    {
      var avatar' := if newAvatar.Some? && Truthy(newAvatar.value) then newAvatar else avatar;
      this.(displayName := newDisplayName, avatar := avatar', updatedAt := now)
    }
  }

  /** The two records are the same account: `id`, `username`, `email`, `rating` and
      `createdAt` agree. */
  predicate SameAccount(u: User, v: User) {
    u.id == v.id && u.username == v.username && u.email == v.email
    && u.rating == v.rating && u.createdAt == v.createdAt
  }

  /** One `updateProfile(displayName, avatar)` call at a given time. */
  datatype ProfileUpdate = ProfileUpdate(displayName: string, avatar: Option<string>, now: Time)

  function ApplyProfileUpdates(u: User, updates: seq<ProfileUpdate>): User
    decreases |updates|
  {
    if updates == [] then u
    else
      var p := updates[0];
      ApplyProfileUpdates(u.WithProfile(p.displayName, p.avatar, p.now), updates[1..])
  }

  /** However the profile is edited, the account stays the same, and an avatar once
      set is never removed (an absent or empty one leaves it). */
  lemma {:induction false} ProfileUpdatesKeepAccount(u: User, updates: seq<ProfileUpdate>)
    ensures SameAccount(u, ApplyProfileUpdates(u, updates))
    ensures u.avatar.Some? ==> ApplyProfileUpdates(u, updates).avatar.Some?
    decreases |updates|
  {
    if updates != [] {
      var p := updates[0];
      ProfileUpdatesKeepAccount(u.WithProfile(p.displayName, p.avatar, p.now), updates[1..]);
    }
  }

  /** Repeating an update changes nothing but the update time. */
  lemma ProfileUpdateIdempotent(u: User, displayName: string, avatar: Option<string>, t1: Time, t2: Time)
    ensures u.WithProfile(displayName, avatar, t1).WithProfile(displayName, avatar, t2)
              == u.WithProfile(displayName, avatar, t2)
  {
  }

  /** `UserEntity`. */
  class UserEntity {
    var user: User

    constructor (user: User)
      ensures this.user == user
    {
      this.user := user;
    }

    /** `updateProfile(displayName, avatar?)` at `now` (the `new Date()` of the code). */
    method UpdateProfile(displayName: string, avatar: Option<string>, now: Time)
      modifies this
      ensures user == old(user).WithProfile(displayName, avatar, now)
    {
      user := user.(displayName := displayName);
      if avatar.Some? && Truthy(avatar.value) {
        user := user.(avatar := avatar);
      }
      user := user.(updatedAt := now);
    }

    /** `toPlainObject()`: a copy of the current record. */
    method ToPlainObject() returns (r: User)
      ensures r == user
    {
      r := user;
    }
  }
}
