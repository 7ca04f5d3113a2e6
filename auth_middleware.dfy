/** The access guard wrapped around protected routes: it accepts a request only with a
    `Bearer` token that verifies, whose user still exists, and whose stored role is high
    enough in the hierarchy user < admin < superadmin. Token verification and the user
    lookup are parameters (`verify`, `findById`); accepting attaches the loaded user, which
    here is the `Admit` value. */
module AuthMiddleware {
  import opened Common
  import opened Records

  const BearerPrefix := "Bearer "

  /** `roleHierarchy[r] || 0`. */
  function RoleLevel(role: string): (level: nat)
    ensures level <= 3
    ensures level == 0 <==> role != UserRole && role != AdminRole && role != SuperAdminRole
    ensures role == UserRole ==> level == 1
    ensures role == AdminRole ==> level == 2
    ensures role == SuperAdminRole ==> level == 3
  {
    if role == SuperAdminRole then 3
    else if role == AdminRole then 2
    else if role == UserRole then 1
    else 0
  }

  /** The argument of `authMiddleware`: one role name or a list of them. */
  datatype RoleSpec = OneRole(role: string) | RoleList(roles: seq<string>)

  /** The argument used when `authMiddleware()` is called with none. */
  const NoRoles := RoleList([])

  function Normalize(spec: RoleSpec): (roles: seq<string>)
    ensures spec.OneRole? ==> roles == [spec.role]
    ensures spec.RoleList? ==> roles == spec.roles
  {
    match spec
    case OneRole(r) => [r]
    case RoleList(rs) => rs
  }

  /** `Math.min(...roles.map(level))`: the least level among the listed roles. */
  function MinLevel(roles: seq<string>): (m: nat)
    requires roles != []
    ensures forall i :: 0 <= i < |roles| ==> m <= RoleLevel(roles[i])
    ensures exists i :: 0 <= i < |roles| && m == RoleLevel(roles[i])
  {
    if |roles| == 1 then RoleLevel(roles[0])
    else
      var rest := MinLevel(roles[1..]);
      if RoleLevel(roles[0]) <= rest then RoleLevel(roles[0]) else rest
  }

  /** The role check: an empty list admits everyone, otherwise the user's level must reach the
      least required level. */
  predicate RoleAdmits(roles: seq<string>, userRole: string) {
    roles == [] || RoleLevel(userRole) >= MinLevel(roles)
  }

  datatype Claims = Claims(userId: UserId, role: string)

  /** What `jwt.verify` does with a token. */
  datatype Verification = Verified(claims: Claims) | Expired | Invalid

  /** What `User.findById` does: a record, no record, or a thrown store error. */
  datatype Lookup = Found(user: User) | NotFound | StoreError

  /** Accept with the loaded user (`req.user`, then `next()`), or answer with a status. */
  datatype GuardResult = Admit(user: User) | Deny(status: nat, message: string)

  predicate WellFormedHeader(header: Option<string>) {
    header.Some? && StartsWith(header.value, BearerPrefix)
  }

  /** The closure returned by `authMiddleware(required)`, applied to a request's
      `Authorization` header. */
  function Guard(required: RoleSpec, header: Option<string>, verify: string -> Verification,
                 findById: UserId -> Lookup): (r: GuardResult)
    // A missing or non-Bearer header is refused before anything else is consulted.
    ensures !WellFormedHeader(header) ==> r == Deny(401, "Missing or malformed token")
    // The token verified is the header without its leading "Bearer ".
    ensures WellFormedHeader(header) && verify(header.value[|BearerPrefix|..]).Expired? ==>
              r == Deny(401, "Token expired")
    ensures WellFormedHeader(header) && verify(header.value[|BearerPrefix|..]).Invalid? ==>
              r == Deny(401, "Invalid token")
    ensures WellFormedHeader(header) && verify(header.value[|BearerPrefix|..]).Verified? ==>
              var id := verify(header.value[|BearerPrefix|..]).claims.userId;
              && (findById(id).NotFound? ==> r == Deny(401, "User not found"))
              && (findById(id).StoreError? ==> r == Deny(401, "Invalid token"))
              // The role checked is the stored user's, whatever the token claims.
              && (findById(id).Found? ==>
                    (r == Admit(findById(id).user) <==> RoleAdmits(Normalize(required), findById(id).user.role)))
    // A refusal for lack of privilege is a 403, and every other refusal a 401.
    ensures r.Deny? ==> r.status == 401 || r.status == 403
    ensures r.Deny? && r.status == 403 <==>
              && WellFormedHeader(header)
              && verify(header.value[|BearerPrefix|..]).Verified?
              && findById(verify(header.value[|BearerPrefix|..]).claims.userId).Found?
              && !RoleAdmits(Normalize(required), findById(verify(header.value[|BearerPrefix|..]).claims.userId).user.role)
  {
    if header.None? || !StartsWith(header.value, BearerPrefix) then
      Deny(401, "Missing or malformed token")
    else
      var token := ReplaceFirst(header.value, BearerPrefix);
      ReplaceFirstOfPrefix(header.value, BearerPrefix);
      match verify(token)
      case Expired => Deny(401, "Token expired")
      case Invalid => Deny(401, "Invalid token")
      case Verified(claims) =>
        match findById(claims.userId)
        case StoreError => Deny(401, "Invalid token")
        case NotFound => Deny(401, "User not found")
        case Found(user) =>
          var roles := Normalize(required);
          if |roles| > 0 && RoleLevel(user.role) < MinLevel(roles) then
            Deny(403, "Insufficient role level: " + user.role)
          else
            Admit(user)
  }

  /** Privilege is monotone: whatever admits a role admits every role at least as high. */
  lemma RoleAdmitsMonotone(roles: seq<string>, lower: string, higher: string)
    requires RoleLevel(lower) <= RoleLevel(higher)
    requires RoleAdmits(roles, lower)
    ensures RoleAdmits(roles, higher)
  {
  }

  /** One unknown role name in the list brings the requirement down to 0, so every
      authenticated user passes. */
  lemma UnknownRoleAdmitsAll(roles: seq<string>, i: nat, userRole: string)
    requires i < |roles| && RoleLevel(roles[i]) == 0
    ensures RoleAdmits(roles, userRole)
  {
  }

  /** The requirement is the LEAST listed level: listing a lower role widens access. */
  lemma MinLevelOfList(roles: seq<string>, role: string)
    requires roles != [] && role in roles
    ensures RoleAdmits(roles, role)
  {
  }

  /** The hierarchy as the route guards use it: an admin token passes an admin guard but not a
      superadmin guard; a superadmin passes both; a plain user passes neither. */
  lemma HierarchyExamples()
    ensures RoleAdmits(Normalize(OneRole(AdminRole)), AdminRole)
    ensures !RoleAdmits(Normalize(OneRole(SuperAdminRole)), AdminRole)
    ensures RoleAdmits(Normalize(OneRole(AdminRole)), SuperAdminRole)
    ensures RoleAdmits(Normalize(OneRole(SuperAdminRole)), SuperAdminRole)
    ensures !RoleAdmits(Normalize(RoleList([AdminRole, SuperAdminRole])), UserRole)
    ensures RoleAdmits(Normalize(RoleList([AdminRole, SuperAdminRole])), AdminRole)
  {
    assert MinLevel([AdminRole, SuperAdminRole]) == 2;
  }

  /** Two tokens that name the same user get the same answer, whatever roles they claim. */
  lemma ClaimedRoleIgnored(required: RoleSpec, header: Option<string>, verify1: string -> Verification,
                           verify2: string -> Verification, findById: UserId -> Lookup)
    requires WellFormedHeader(header)
    requires verify1(header.value[|BearerPrefix|..]).Verified?
    requires verify2(header.value[|BearerPrefix|..]).Verified?
    requires verify1(header.value[|BearerPrefix|..]).claims.userId == verify2(header.value[|BearerPrefix|..]).claims.userId
    ensures Guard(required, header, verify1, findById) == Guard(required, header, verify2, findById)
  {
    ReplaceFirstOfPrefix(header.value, BearerPrefix);
  }

  /** The guard never looks at `blocked`: a blocked account whose token still verifies is
      admitted wherever its role suffices. */
  lemma BlockedUserAdmitted(required: RoleSpec, header: Option<string>, verify: string -> Verification,
                            findById: UserId -> Lookup)
    requires WellFormedHeader(header)
    requires verify(header.value[|BearerPrefix|..]).Verified?
    requires findById(verify(header.value[|BearerPrefix|..]).claims.userId).Found?
    requires findById(verify(header.value[|BearerPrefix|..]).claims.userId).user.blocked
    requires RoleAdmits(Normalize(required), findById(verify(header.value[|BearerPrefix|..]).claims.userId).user.role)
    ensures Guard(required, header, verify, findById) == Admit(findById(verify(header.value[|BearerPrefix|..]).claims.userId).user)
  {
  }
}
