/** The user table operations of UserService. The user repository is a map
    from id to user record owned by the service object; the role repository is
    the set of roles present in the role table; the password encoder is a
    function parameter; file writes and deletions are reported as out-values. */
module Users {
  import opened Common
  import Errors

  datatype ERole = RoleUser | RoleModerator | RoleAdmin

  datatype User = User(id: int, email: string, password: string, firstName: string, lastName: string,
                       username: string, imageUrl: Option<string>, role: Option<ERole>)

  datatype SignupRequest = SignupRequest(email: string, password: string, firstName: string, lastName: string,
                                         username: string, role: Option<string>, image: Option<Upload>)

  datatype UserUpdateRequest = UserUpdateRequest(username: string, email: string, firstName: string, lastName: string,
                                                 image: Option<Upload>)

  const DefaultImageUrl := "/images/users/default-image.png"
  const UserImagesUrl := "/images/users/"
  const DefaultImageName := "default-image.png"
  const OnlyImagesMessage := "Only image files are allowed"

  /** `image != null && !image.isEmpty()` */
  predicate HasImage(image: Option<Upload>)
  {
    image.Some? && !image.value.isEmpty
  }

  /** The role resolveRole selects: "admin" and "moderator" ignoring case,
      anything else (null included) the user role. */
  function LenientRole(roleName: Option<string>): ERole
  {
    if roleName.Some? && EqualsIgnoreCase("admin", roleName.value) then RoleAdmin
    else if roleName.Some? && EqualsIgnoreCase("moderator", roleName.value) then RoleModerator
    else RoleUser
  }

  /** The role changeRole's switch on `role.toLowerCase()` selects, if any. */
  function StrictRole(role: string): Option<ERole>
  {
    var lower := ToLower(role);
    if lower == "admin" then Some(RoleAdmin)
    else if lower == "moderator" then Some(RoleModerator)
    else if lower == "user" then Some(RoleUser)
    else None
  }

  /** resolveRole, including the role-table lookup and its messages. */
  function ResolveRole(roles: set<ERole>, roleName: Option<string>): (r: Result<ERole, Errors.Thrown>)
    ensures r.Ok? <==> LenientRole(roleName) in roles
    ensures r.Ok? ==> r.value == LenientRole(roleName)
    ensures r.Err? ==> r.error.cls == Errors.ResourceNotFoundException
  {
    var role := LenientRole(roleName);
    if role in roles then Ok(role)
    else Err(Errors.NotFound(match role
                             case RoleAdmin => "Role admin not found"
                             case RoleModerator => "Role moderator not found"
                             case RoleUser => "Role user not found"))
  }

  /** The target role of changeRole, including the role-table lookup. */
  function RoleForChange(roles: set<ERole>, role: string): (r: Result<ERole, Errors.Thrown>)
    ensures r.Ok? <==> StrictRole(role).Some? && StrictRole(role).value in roles
    ensures r.Ok? ==> Some(r.value) == StrictRole(role)
    ensures StrictRole(role).None? ==> r == Err(Errors.NotFound("Invalid role: " + role))
  {
    match StrictRole(role)
    case None => Err(Errors.NotFound("Invalid role: " + role))
    case Some(target) =>
      if target in roles then Ok(target)
      else Err(Errors.NotFound(match target
                               case RoleAdmin => "admin role not found"
                               case RoleModerator => "moderator role not found"
                               case RoleUser => "user role not found"))
  }

  /** The lenient selection falls back to the user role exactly when the name
      is null or is neither "admin" nor "moderator" once lower-cased. */
  lemma LenientRoleDefault(roleName: Option<string>)
    ensures LenientRole(roleName) == RoleAdmin <==> roleName.Some? && ToLower(roleName.value) == "admin"
    ensures LenientRole(roleName) == RoleModerator <==> roleName.Some? && ToLower(roleName.value) == "moderator"
    ensures LenientRole(roleName) == RoleUser <==>
            roleName.None? || (ToLower(roleName.value) != "admin" && ToLower(roleName.value) != "moderator")
  {
    if roleName.Some? {
      EqualsIgnoreCaseIsLowerEquality("admin", roleName.value);
      EqualsIgnoreCaseIsLowerEquality("moderator", roleName.value);
    }
  }

  /** Whatever changeRole accepts, signup resolves to the same role; what
      changeRole rejects, signup silently turns into the user role. */
  lemma StrictAgreesWithLenient(role: string)
    ensures StrictRole(role).Some? ==> LenientRole(Some(role)) == StrictRole(role).value
    ensures StrictRole(role).None? <==> LenientRole(Some(role)) == RoleUser && ToLower(role) != "user"
  {
    LenientRoleDefault(Some(role));
  }

  /** deleteOldUserImageIfNeeded's guard: a missing URL or the default image is never deleted. */
  predicate ShouldDeleteOldImage(imageUrl: Option<string>)
  {
    imageUrl.Some? && !Contains(imageUrl.value, DefaultImageName)
  }

  /** The default image a user gets at signup is never deleted. */
  lemma DefaultImageKept()
    ensures !ShouldDeleteOldImage(Some(DefaultImageUrl)) && !ShouldDeleteOldImage(None)
  {
    assert DefaultImageUrl[14..14 + |DefaultImageName|] == DefaultImageName;
    ContainsAt(DefaultImageUrl, DefaultImageName, 14);
  }

  /** For every stored URL: the old image is deleted exactly when the URL holds
      no occurrence of the default image's file name. */
  lemma OldImageDeletedIff(imageUrl: string)
    ensures ShouldDeleteOldImage(Some(imageUrl)) <==> forall i: nat :: !OccursAt(imageUrl, DefaultImageName, i)
  {
    if Contains(imageUrl, DefaultImageName) {
      var i := ContainsWitness(imageUrl, DefaultImageName);
    } else {
      forall i: nat ensures !OccursAt(imageUrl, DefaultImageName, i) {
        if OccursAt(imageUrl, DefaultImageName, i) {
          ContainsAt(imageUrl, DefaultImageName, i);
        }
      }
    }
  }

  /** The image URL a new user gets. */
  function SignupImageUrl(image: Option<Upload>, fileName: string): string
  {
    if HasImage(image) then UserImagesUrl + fileName else DefaultImageUrl
  }

  /** existsByUsername */
  predicate UsernameTaken(users: map<int, User>, username: string)
  {
    exists id :: id in users && users[id].username == username
  }

  /** existsByEmail */
  predicate EmailTaken(users: map<int, User>, email: string)
  {
    exists id :: id in users && users[id].email == email
  }

  ghost predicate UniqueUsernames(users: map<int, User>)
  {
    forall a, b :: a in users && b in users && users[a].username == users[b].username ==> a == b
  }

  ghost predicate UniqueEmails(users: map<int, User>)
  {
    forall a, b :: a in users && b in users && users[a].email == users[b].email ==> a == b
  }

  class UserService {
    var users: map<int, User>
    /** The id the repository gives the next saved user. */
    var nextId: int
    const roles: set<ERole>
    const encode: string -> string

    ghost predicate Valid()
      reads this
    {
      forall id :: id in users ==> id < nextId && users[id].id == id
    }

    constructor (roles: set<ERole>, encode: string -> string)
      ensures Valid() && users == map[] && this.roles == roles && this.encode == encode
    {
      this.roles := roles;
      this.encode := encode;
      users := map[];
      nextId := 1;
    }

    method DeleteUser(userId: int) returns (result: Result<(), Errors.Thrown>)
      requires Valid()
      modifies this
      ensures Valid() && nextId == old(nextId)
      ensures userId in old(users) ==> result == Ok(()) && users == old(users) - {userId}
      ensures userId !in old(users) ==>
                result == Err(Errors.NotFound("There's no user with id:" + IntToString(userId))) && users == old(users)
    {
      if userId !in users {
        return Err(Errors.NotFound("There's no user with id:" + IntToString(userId)));
      }
      users := users - {userId};
      return Ok(());
    }

    /** updateUser. The transaction rolls back on the runtime exception for a
        non-image upload, so the field setters that ran before it leave no trace. */
    method UpdateUser(userId: int, request: UserUpdateRequest, fileName: string)
      returns (result: Result<User, Errors.Thrown>, deletedImage: Option<string>, savedFile: Option<string>)
      requires Valid()
      modifies this
      ensures Valid() && nextId == old(nextId)
      ensures result.Ok? <==> userId in old(users) && (!HasImage(request.image) || IsImageType(request.image.value))
      ensures userId !in old(users) ==>
                result == Err(Errors.NotFound("User with id " + IntToString(userId) + " doesn't exist"))
      ensures userId in old(users) && !result.Ok? ==> result == Err(Errors.InvalidArgument(OnlyImagesMessage))
      ensures result.Err? ==> users == old(users) && deletedImage.None? && savedFile.None?
      ensures result.Ok? ==>
                var old_ := old(users)[userId];
                && result.value == old_.(username := request.username, email := request.email,
                                         firstName := request.firstName, lastName := request.lastName,
                                         imageUrl := if HasImage(request.image) then Some(UserImagesUrl + fileName) else old_.imageUrl)
                && users == old(users)[userId := result.value]
                && savedFile == (if HasImage(request.image) then Some(fileName) else None)
                && deletedImage == (if HasImage(request.image) && ShouldDeleteOldImage(old_.imageUrl) then old_.imageUrl else None)
    {
      if userId !in users {
        return Err(Errors.NotFound("User with id " + IntToString(userId) + " doesn't exist")), None, None;
      }
      var user := users[userId];
      user := user.(username := request.username, email := request.email,
                    firstName := request.firstName, lastName := request.lastName);
      deletedImage, savedFile := None, None;
      if HasImage(request.image) {
        if !StartsWith(request.image.value.contentType, "image/") {
          return Err(Errors.InvalidArgument(OnlyImagesMessage)), None, None;
        }
        if ShouldDeleteOldImage(user.imageUrl) {
          deletedImage := user.imageUrl;
        }
        savedFile := Some(fileName);
        user := user.(imageUrl := Some(UserImagesUrl + fileName));
      }
      users := users[userId := user];
      result := Ok(user);
    }

    method ChangePassword(userId: int, newPassword: string) returns (result: Result<(), Errors.Thrown>)
      requires Valid()
      modifies this
      ensures Valid() && nextId == old(nextId)
      ensures userId !in old(users) ==>
                result == Err(Errors.NotFound(" User with id " + IntToString(userId) + " doesn't exist ")) && users == old(users)
      ensures userId in old(users) ==>
                result == Ok(()) && users == old(users)[userId := old(users)[userId].(password := newPassword)]
    {
      if userId !in users {
        return Err(Errors.NotFound(" User with id " + IntToString(userId) + " doesn't exist "));
      }
      var user := users[userId];
      users := users[userId := user.(password := newPassword)];
      return Ok(());
    }

    method ChangeRole(userId: int, role: string) returns (result: Result<(), Errors.Thrown>)
      requires Valid()
      modifies this
      ensures Valid() && nextId == old(nextId)
      ensures userId !in old(users) ==>
                result == Err(Errors.NotFound("user with id : " + IntToString(userId) + " not found"))
      ensures userId in old(users) && RoleForChange(roles, role).Err? ==> result == Err(RoleForChange(roles, role).error)
      ensures result.Err? ==> users == old(users)
      ensures result.Ok? <==> userId in old(users) && RoleForChange(roles, role).Ok?
      ensures result.Ok? ==>
                users == old(users)[userId := old(users)[userId].(role := Some(RoleForChange(roles, role).value))]
    {
      if userId !in users {
        return Err(Errors.NotFound("user with id : " + IntToString(userId) + " not found"));
      }
      var user := users[userId];
      var target := RoleForChange(roles, role);
      if target.Err? {
        return Err(target.error);
      }
      users := users[userId := user.(role := Some(target.value))];
      return Ok(());
    }

    method RegisterNewUser(request: SignupRequest, fileName: string)
      returns (result: Result<User, Errors.Thrown>, savedFile: Option<string>)
      requires Valid()
      modifies this
      ensures Valid()
      ensures UsernameTaken(old(users), request.username) ==> result == Err(Errors.Duplicate("Username already taken"))
      ensures !UsernameTaken(old(users), request.username) && EmailTaken(old(users), request.email) ==>
                result == Err(Errors.Duplicate("Email already taken"))
      ensures !UsernameTaken(old(users), request.username) && !EmailTaken(old(users), request.email)
              && HasImage(request.image) && !IsImageType(request.image.value) ==>
                result == Err(Errors.InvalidArgument(OnlyImagesMessage))
      ensures savedFile == if !UsernameTaken(old(users), request.username) && !EmailTaken(old(users), request.email)
                              && HasImage(request.image) && IsImageType(request.image.value)
                           then Some(fileName) else None
      ensures !UsernameTaken(old(users), request.username) && !EmailTaken(old(users), request.email)
              && (!HasImage(request.image) || IsImageType(request.image.value)) ==>
                result == match ResolveRole(roles, request.role)
                          case Err(e) => Err(e)
                          case Ok(r) => Ok(User(old(nextId), request.email, encode(request.password), request.firstName,
                                                request.lastName, request.username,
                                                Some(SignupImageUrl(request.image, fileName)), Some(r)))
      ensures result.Err? ==> users == old(users) && nextId == old(nextId)
      ensures result.Ok? ==> old(nextId) !in old(users) && users == old(users)[old(nextId) := result.value]
                             && nextId == old(nextId) + 1
      ensures UniqueUsernames(old(users)) ==> UniqueUsernames(users)
      ensures UniqueEmails(old(users)) ==> UniqueEmails(users)
    {
      savedFile := None;
      if UsernameTaken(users, request.username) {
        return Err(Errors.Duplicate("Username already taken")), None;
      }
      if EmailTaken(users, request.email) {
        return Err(Errors.Duplicate("Email already taken")), None;
      }
      var imageUrl := DefaultImageUrl;
      if HasImage(request.image) {
        if !StartsWith(request.image.value.contentType, "image/") {
          return Err(Errors.InvalidArgument(OnlyImagesMessage)), None;
        }
        savedFile := Some(fileName);
        imageUrl := UserImagesUrl + fileName;
      }
      var user := User(nextId, request.email, encode(request.password), request.firstName, request.lastName,
                       request.username, Some(imageUrl), None);
      var role := ResolveRole(roles, request.role);
      if role.Err? {
        return Err(role.error), savedFile;
      }
      user := user.(role := Some(role.value));
      users := users[nextId := user];
      nextId := nextId + 1;
      result := Ok(user);
    }
  }

  /** How the errors of this service reach the client: a missing user or an
      unknown role name is 404, a duplicate 409, and a rejected upload falls
      through to the catch-all 500 with its message hidden. */
  lemma UserErrorResponses(role: string, requestUri: string, now: int)
    ensures Errors.Handle(Errors.NotFound("Invalid role: " + role), requestUri, now).status == Errors.NotFoundStatus
    ensures Errors.Handle(Errors.Duplicate("Username already taken"), requestUri, now).status == Errors.Conflict
    ensures Errors.Handle(Errors.InvalidArgument(OnlyImagesMessage), requestUri, now)
            == Errors.BuildResponseEntity(requestUri, Errors.UnexpectedMessage, Errors.InternalServerError, now)
  {
    Errors.CatchAllClasses(Errors.IllegalArgumentException);
  }
}
