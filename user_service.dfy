/**
 * UserService.java: registration, the token response, and lookup by username. The password
 * encoder and the JWT service are outside the model; they enter as functions.
 */
module UserService {
  import opened Wrappers
  import opened Domain
  import opened Text
  import opened Repositories

  const UsernameTakenMessage := "Username already exists"
  const EmailTakenMessage := "Email already exists"
  const InvalidUserTypeMessage := "Invalid user type. Must be BIDDER or SELLER"
  const UserNotFoundMessage := "User not found"

  datatype RegisterRequest = RegisterRequest(username: string, email: string, password: string, userType: string)

  datatype AuthResponse = AuthResponse(token: string, refreshToken: string, username: string,
                                       email: string, role: string, userType: string)

  /** `Role.valueOf`: the role whose constant name is exactly `name`. */
  function RoleNamed(name: string): (r: Option<Role>)
    ensures r.Some? <==> name == "BIDDER" || name == "SELLER"
    ensures r.Some? ==> RoleName(r.value) == name
  {
    if name == "BIDDER" then Some(BIDDER)
    else if name == "SELLER" then Some(SELLER)
    else None
  }

  /** `valueOf` inverts `name()`. */
  lemma RoleNameRoundTrip(role: Role)
    ensures RoleNamed(RoleName(role)) == Some(role)
  {
  }

  /** `User.Role.valueOf(userType.toUpperCase())`, with the exception as `None`. */
  function ParseUserType(userType: string): Option<Role>
  {
    RoleNamed(ToUpper(userType))
  }

  /** The user type is read without regard to letter case; other words are refused. */
  lemma UserTypeIgnoresCase()
    ensures ParseUserType("seller") == Some(SELLER)
    ensures ParseUserType("Bidder") == Some(BIDDER)
    ensures ParseUserType("SELLER") == Some(SELLER)
    ensures ParseUserType("admin") == None
    ensures ParseUserType("") == None
  {
    assert ToUpper("seller") == "SELLER";
    assert ToUpper("Bidder") == "BIDDER";
    assert ToUpper("SELLER") == "SELLER";
  }

  /**
   * The checks `register` makes before saving, in order: the username, then the email, then the
   * user type. The first that fails decides the message.
   */
  function CheckRegistration(users: seq<User>, req: RegisterRequest): (r: Result<Role>)
    ensures r.Success? <==> !ExistsByUsername(users, req.username) && !ExistsByEmail(users, req.email)
                            && ParseUserType(req.userType).Some?
    ensures ExistsByUsername(users, req.username) ==> r == Failure(UsernameTakenMessage)
    ensures !ExistsByUsername(users, req.username) && ExistsByEmail(users, req.email) ==>
              r == Failure(EmailTakenMessage)
    ensures (!ExistsByUsername(users, req.username) && !ExistsByEmail(users, req.email)
             && ParseUserType(req.userType).None?) ==> r == Failure(InvalidUserTypeMessage)
    ensures r.Success? ==> ParseUserType(req.userType) == Some(r.value)
  {
    if ExistsByUsername(users, req.username) then Failure(UsernameTakenMessage)
    else if ExistsByEmail(users, req.email) then Failure(EmailTakenMessage)
    else match ParseUserType(req.userType)
      case None => Failure(InvalidUserTypeMessage)
      case Some(role) => Success(role)
  }

  /** The user `register` saves. */
  function NewUser(req: RegisterRequest, role: Role, encode: string -> string, id: int): User
  {
    User(id, req.username, req.email, encode(req.password), role)
  }

  /** `createAuthResponse`: both tokens for the user, its name and email, and its role name twice. */
  function CreateAuthResponse(user: User, token: User -> string, refreshToken: User -> string): (r: AuthResponse)
    ensures r.role == RoleName(user.role) && r.userType == r.role
    ensures RoleNamed(r.userType) == Some(user.role)
    ensures r.username == user.username && r.email == user.email
    ensures r.token == token(user) && r.refreshToken == refreshToken(user)
  {
    AuthResponse(token(user), refreshToken(user), user.username, user.email, RoleName(user.role), RoleName(user.role))
  }

  /** A registration that passes the checks keeps usernames and emails unique. */
  lemma {:induction false} RegistrationKeepsUsersUnique(users: seq<User>, req: RegisterRequest, role: Role,
                                                        encode: string -> string, id: int)
    requires UniqueUsers(users)
    requires CheckRegistration(users, req) == Success(role)
    ensures UniqueUsers(users + [NewUser(req, role, encode, id)])
  {
    var users' := users + [NewUser(req, role, encode, id)];
    forall i, j | 0 <= i < j < |users'|
      ensures users'[i].username != users'[j].username && users'[i].email != users'[j].email
    {
      if j == |users| {
        assert users'[i] == users[i];
      } else {
        assert users'[i] == users[i] && users'[j] == users[j];
      }
    }
  }

  /** A user who has just registered is found by name, and nothing else answers to that name. */
  lemma RegisteredUserIsFound(users: seq<User>, req: RegisterRequest, role: Role,
                              encode: string -> string, id: int)
    requires CheckRegistration(users, req) == Success(role)
    ensures FindByUsername(users + [NewUser(req, role, encode, id)], req.username)
            == Success(NewUser(req, role, encode, id))
  {
    var u := NewUser(req, role, encode, id);
    FindUserSkipsOthers(users, [u], req.username);
  }

  lemma {:induction false} FindUserSkipsOthers(users: seq<User>, more: seq<User>, username: string)
    requires !ExistsByUsername(users, username)
    ensures FindUser(users + more, username) == FindUser(more, username)
    decreases |users|
  {
    if users != [] {
      assert (users + more)[0] == users[0] && users[0].username != username;
      assert (users + more)[1..] == users[1..] + more;
      assert forall k :: 0 <= k < |users[1..]| ==> users[1..][k] == users[k + 1];
      FindUserSkipsOthers(users[1..], more, username);
    } else {
      assert users + more == more;
    }
  }

  /**
   * `register`. On success exactly one user is saved, with the request's username and email, the
   * parsed role and the encoded password, and the response describes that user. On a rejection
   * nothing is saved.
   */
  method Register(store: Store, req: RegisterRequest, encode: string -> string,
                  token: User -> string, refreshToken: User -> string) returns (r: Result<AuthResponse>)
    requires store.Valid()
    modifies store
    ensures store.Valid()
    ensures r.Failure? <==> CheckRegistration(old(store.users), req).Failure?
    ensures r.Failure? ==> r.error == CheckRegistration(old(store.users), req).error && unchanged(store)
    ensures r.Success? ==>
              var user := NewUser(req, CheckRegistration(old(store.users), req).value, encode, old(store.nextUserId));
              && store.users == old(store.users) + [user]
              && r.value == CreateAuthResponse(user, token, refreshToken)
              && store.nextUserId == old(store.nextUserId) + 1
    ensures store.items == old(store.items) && store.bids == old(store.bids)
    ensures store.nextItemId == old(store.nextItemId) && store.nextBidId == old(store.nextBidId)
    ensures store.broadcasts == old(store.broadcasts)
  {
    var check := CheckRegistration(store.users, req);
    if check.Failure? {
      return Failure(check.error);
    }
    var user := NewUser(req, check.value, encode, store.nextUserId);
    RegistrationKeepsUsersUnique(store.users, req, check.value, encode, store.nextUserId);
    store.users := store.users + [user];
    store.nextUserId := store.nextUserId + 1;
    r := Success(CreateAuthResponse(user, token, refreshToken));
  }

  /** `findByUsername`: the user with that name, or "User not found". */
  function FindByUsername(users: seq<User>, username: string): (r: Result<User>)
    ensures r.Success? <==> ExistsByUsername(users, username)
    ensures r.Success? ==> r.value in users && r.value.username == username
    ensures r.Failure? ==> r.error == UserNotFoundMessage
  {
    match FindUser(users, username)
    case None => Failure(UserNotFoundMessage)
    case Some(u) => Success(u)
  }
}
