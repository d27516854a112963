/** The five permission classes of the API, each a boolean function of the
    request method, the requester and (for the object-level ones) the object
    being accessed. */
module Permissions {
  import opened Common
  import opened Models

  datatype HttpMethod = Get | Head | Options | Post | Put | Patch | Delete

  /** `SAFE_METHODS`: GET, HEAD and OPTIONS. */
  predicate IsSafe(m: HttpMethod)
  {
    m == Get || m == Head || m == Options
  }

  /** The requester: anonymous, or a logged-in user with the type recorded in
      their profile (every user has one, by the store's invariant). */
  datatype Principal = Anonymous | Authenticated(id: UserId, userType: UserType)

  /** `x == request.user` for a user id `x`: never true for an anonymous requester. */
  predicate IsRequester(p: Principal, u: UserId)
  {
    p.Authenticated? && p.id == u
  }

  /** The object an object-level permission inspects.  A place has an `owner`
      attribute (possibly null); reviews and profiles have a `user` attribute
      and no `owner`. */
  datatype Subject = PlaceSubject(owner: Option<UserId>) | ReviewSubject(author: UserId) | ProfileSubject(user: UserId)

  predicate HasOwnerAttribute(s: Subject)
  {
    s.PlaceSubject?
  }

  /** IsOwnerOrReadOnly.has_object_permission */
  predicate IsOwnerOrReadOnly(m: HttpMethod, p: Principal, s: Subject)
  {
    if IsSafe(m) then true
    else if !HasOwnerAttribute(s) then false
    else s.owner.Some? && IsRequester(p, s.owner.value)
  }

  /** IsReviewOwnerOrReadOnly.has_object_permission, given the review's `user`. */
  predicate IsReviewOwnerOrReadOnly(m: HttpMethod, p: Principal, author: UserId)
  {
    IsSafe(m) || IsRequester(p, author)
  }

  /** IsProfileOwner.has_object_permission, given the profile's `user`; the
      method plays no part. */
  predicate IsProfileOwner(m: HttpMethod, p: Principal, user: UserId)
  {
    IsRequester(p, user)
  }

  /** IsProviderUser.has_permission */
  predicate IsProviderUser(p: Principal)
  {
    p.Authenticated? && p.userType == Provider
  }

  /** IsSeekerUser.has_permission */
  predicate IsSeekerUser(p: Principal)
  {
    p.Authenticated? && p.userType == Seeker
  }

  /** Reading is open to everyone under both owner-or-read-only permissions. */
  lemma SafeMethodsAlwaysAllowed(m: HttpMethod, p: Principal, s: Subject, author: UserId)
    requires IsSafe(m)
    ensures IsOwnerOrReadOnly(m, p, s)
    ensures IsReviewOwnerOrReadOnly(m, p, author)
  {
  }

  /** For a write, IsOwnerOrReadOnly holds exactly when the object has an
      owner and that owner is the requester. */
  lemma OwnerWriteIff(m: HttpMethod, p: Principal, s: Subject)
    requires !IsSafe(m)
    ensures IsOwnerOrReadOnly(m, p, s) <==>
            HasOwnerAttribute(s) && p.Authenticated? && s.owner == Some(p.id)
  {
  }

  /** An object without an `owner` attribute cannot be written through IsOwnerOrReadOnly. */
  lemma NoOwnerAttributeDenied(m: HttpMethod, p: Principal, s: Subject)
    requires !IsSafe(m) && !HasOwnerAttribute(s)
    ensures !IsOwnerOrReadOnly(m, p, s)
  {
  }

  /** A place whose owner was deleted (owner null) is writable by nobody. */
  lemma OrphanedPlaceWritableByNobody(m: HttpMethod, p: Principal)
    requires !IsSafe(m)
    ensures !IsOwnerOrReadOnly(m, p, PlaceSubject(None))
  {
  }

  /** At most one user may write a given object. */
  lemma OneWriterPerObject(m: HttpMethod, p: Principal, q: Principal, s: Subject)
    requires !IsSafe(m) && IsOwnerOrReadOnly(m, p, s) && IsOwnerOrReadOnly(m, q, s)
    ensures p.Authenticated? && q.Authenticated? && p.id == q.id
  {
  }

  /** For a write, IsReviewOwnerOrReadOnly holds exactly for the review's author. */
  lemma ReviewWriteIff(m: HttpMethod, p: Principal, author: UserId)
    requires !IsSafe(m)
    ensures IsReviewOwnerOrReadOnly(m, p, author) <==> p.Authenticated? && p.id == author
  {
  }

  /** IsProfileOwner has no read-only carve-out: its verdict is the same for
      every method, and it holds only for the profile's own user. */
  lemma ProfileOwnerIgnoresMethod(m: HttpMethod, n: HttpMethod, p: Principal, user: UserId)
    ensures IsProfileOwner(m, p, user) == IsProfileOwner(n, p, user)
    ensures IsProfileOwner(m, p, user) <==> p.Authenticated? && p.id == user
  {
  }

  /** The two role checks exclude each other and both refuse anonymous requests. */
  lemma RolesExclusive(p: Principal)
    ensures !(IsProviderUser(p) && IsSeekerUser(p))
    ensures p.Anonymous? ==> !IsProviderUser(p) && !IsSeekerUser(p)
    ensures IsProviderUser(p) <==> p.Authenticated? && UserTypeCode(p.userType) == "provider"
    ensures IsSeekerUser(p) <==> p.Authenticated? && UserTypeCode(p.userType) == "seeker"
  {
  }
}
