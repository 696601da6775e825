/**
 * The user service: accounts kept in a repository (here a sequence in the
 * order `findAll` returns them) with unique ids and unique emails, account
 * creation on behalf of the authentication service, and lookups. The order
 * service's answer to `getOrdersByCustomerId` is an input.
 */
module Users {
  import opened Wrappers

  /**
   * An element of the order list `getOrdersByCustomerId` returns, in the
   * user service's own order DTO. The service only passes these lists
   * through, so their contents stay abstract here.
   */
  type OrderSummary(==)

  datatype User = User(
    id: int, fullName: string, username: string, email: string, phone: string,
    birthDate: Option<int>, passwordHash: string)

  /** What the authentication service posts to `/api/users/from-auth`; the password is already a hash. */
  datatype UserRegisterRequest = UserRegisterRequest(
    username: string, email: string, fullName: string, phone: string, password: string)

  datatype UserResponse = UserResponse(
    id: int, fullName: string, username: string, email: string, phone: string,
    birthDate: Option<int>, orders: Option<seq<OrderSummary>>, passwordHash: string)

  /**
   * The outcomes of `getOrdersByCustomerId`: a list (the fallback's empty
   * list when the order service is down included), or a thrown exception or
   * null body.
   */
  datatype OrdersFetch = Fetched(orders: seq<OrderSummary>) | FetchFailed

  datatype UserError = UserNotFound | DuplicateEmail

  /**
   * A derived repository query: the first stored user the condition holds
   * for, if any.
   */
  function FindFirst(users: seq<User>, matches: User -> bool): (r: Option<User>)
    ensures r.Some? ==> r.value in users && matches(r.value)
    ensures r.Some? ==> exists i | 0 <= i < |users| ::
      users[i] == r.value && forall k | 0 <= k < i :: !matches(users[k])
    ensures r.None? ==> forall u | u in users :: !matches(u)
    decreases |users|
  {
    if users == [] then None
    else if matches(users[0]) then
      Some(users[0])
    else
      var r := FindFirst(users[1..], matches);
      assert users == [users[0]] + users[1..];
      if r.Some? then
        var i :| 0 <= i < |users[1..]| && users[1..][i] == r.value
                 && forall k | 0 <= k < i :: !matches(users[1..][k]);
        assert users[i + 1] == r.value;
        assert forall k | 0 <= k < i + 1 :: !matches(users[k]) by {
          forall k | 0 <= k < i + 1 ensures !matches(users[k]) {
            if k > 0 { assert users[k] == users[1..][k - 1]; }
          }
        }
        r
      else r
  }

  /** `findById`. */
  function FindById(users: seq<User>, id: int): Option<User> {
    FindFirst(users, (u: User) => u.id == id)
  }

  /** `findByEmail`. */
  function FindByEmail(users: seq<User>, email: string): Option<User> {
    FindFirst(users, (u: User) => u.email == email)
  }

  /** `existsByEmail`. */
  predicate ExistsByEmail(users: seq<User>, email: string) {
    FindByEmail(users, email).Some?
  }

  predicate UniqueIds(users: seq<User>) {
    forall i, j | 0 <= i < j < |users| :: users[i].id != users[j].id
  }

  predicate UniqueEmails(users: seq<User>) {
    forall i, j | 0 <= i < j < |users| :: users[i].email != users[j].email
  }

  /** Reads a response back into the user it was built from. */
  function ResponseUser(r: UserResponse): User {
    User(r.id, r.fullName, r.username, r.email, r.phone, r.birthDate, r.passwordHash)
  }

  /**
   * `mapToResponse`: the response loses nothing of the user (password hash
   * included) and carries exactly the order list it was given.
   */
  function MapToResponse(user: User, orders: Option<seq<OrderSummary>>): (r: UserResponse)
    ensures ResponseUser(r) == user && r.orders == orders
  {
    UserResponse(user.id, user.fullName, user.username, user.email, user.phone, user.birthDate,
                 orders, user.passwordHash)
  }

  /** `getAllUsers`' stream: one response per user, in repository order, with no order list. */
  function MapAll(users: seq<User>): (r: seq<UserResponse>)
    ensures |r| == |users|
    ensures forall i | 0 <= i < |r| :: ResponseUser(r[i]) == users[i] && r[i].orders.None?
    decreases |users|
  {
    if users == [] then [] else [MapToResponse(users[0], None)] + MapAll(users[1..])
  }

  /**
   * The user `createUserFromAuth` builds: request fields copied, the
   * password stored verbatim as the hash (it is not hashed again), no birth date.
   */
  function NewUser(id: int, req: UserRegisterRequest): (u: User)
    ensures u.id == id && u.passwordHash == req.password && u.birthDate == None
    ensures u.fullName == req.fullName && u.username == req.username
    ensures u.email == req.email && u.phone == req.phone
  {
    User(id, req.fullName, req.username, req.email, req.phone, None, req.password)
  }

  /**
   * What the repository guarantees: ids and emails unique, every id one the
   * identity column has already handed out.
   */
  ghost predicate StoreInvariant(users: seq<User>, nextId: int) {
    && nextId >= 1
    && UniqueIds(users)
    && UniqueEmails(users)
    && forall u | u in users :: 0 < u.id < nextId
  }

  /** Appending a user whose email and id are new keeps the invariant. */
  lemma AppendKeepsInvariant(users: seq<User>, nextId: int, u: User)
    requires StoreInvariant(users, nextId)
    requires !ExistsByEmail(users, u.email) && u.id == nextId
    ensures StoreInvariant(users + [u], nextId + 1)
  {
    var users' := users + [u];
    forall i, j | 0 <= i < j < |users'|
      ensures users'[i].email != users'[j].email && users'[i].id != users'[j].id
    {
      if j == |users| {
        assert users'[i] in users;
      }
    }
  }

  /** With unique emails, the lookup by a user's email finds that user. */
  lemma {:induction false} FindByEmailFinds(users: seq<User>, i: nat)
    requires UniqueEmails(users) && i < |users|
    ensures FindByEmail(users, users[i].email) == Some(users[i])
    decreases |users|
  {
    if i > 0 {
      assert users[0].email != users[i].email;
      var tail := users[1..];
      assert UniqueEmails(tail) by {
        forall a, b | 0 <= a < b < |tail|
          ensures tail[a].email != tail[b].email
        {
          assert tail[a] == users[a + 1] && tail[b] == users[b + 1];
        }
      }
      assert tail[i - 1] == users[i];
      FindByEmailFinds(tail, i - 1);
    }
  }

  /**
   * After an account is created, the lookup by its email finds exactly it,
   * and a second creation with that email is refused as a duplicate.
   */
  lemma CreatedUserIsFoundByEmail(users: seq<User>, nextId: int, req: UserRegisterRequest)
    requires StoreInvariant(users, nextId) && !ExistsByEmail(users, req.email)
    ensures FindByEmail(users + [NewUser(nextId, req)], req.email) == Some(NewUser(nextId, req))
    ensures ExistsByEmail(users + [NewUser(nextId, req)], req.email)
  {
    var users' := users + [NewUser(nextId, req)];
    AppendKeepsInvariant(users, nextId, NewUser(nextId, req));
    FindByEmailFinds(users', |users|);
  }

  class UserService {
    var users: seq<User>
    var nextId: int

    ghost predicate Valid()
      reads this
    {
      StoreInvariant(users, nextId)
    }

    constructor ()
      ensures Valid() && users == [] && nextId == 1
    {
      users, nextId := [], 1;
    }

    /** `getUserById`: the stored user without orders, or "user not found". */
    function GetUserById(id: int): (r: Result<UserResponse, UserError>)
      reads this
      requires Valid()
      ensures r.Failure? <==> forall u | u in users :: u.id != id
      ensures r.Failure? ==> r.error == UserNotFound
      ensures r.Success? ==> ResponseUser(r.value) in users && r.value.id == id && r.value.orders.None?
    {
      match FindById(users, id)
      case None => Failure(UserNotFound)
      case Some(user) => Success(MapToResponse(user, None))
    }

    /** `getUserByEmail`: the stored user with that email, without orders, or "user not found". */
    function GetUserByEmail(email: string): (r: Result<UserResponse, UserError>)
      reads this
      requires Valid()
      ensures r.Failure? <==> forall u | u in users :: u.email != email
      ensures r.Failure? ==> r.error == UserNotFound
      ensures r.Success? ==> ResponseUser(r.value) in users && r.value.email == email && r.value.orders.None?
    {
      match FindByEmail(users, email)
      case None => Failure(UserNotFound)
      case Some(user) => Success(MapToResponse(user, None))
    }

    /**
     * `getUserWithOrders`: an unknown id is "user not found"; a failed order
     * fetch does not fail the call but yields an empty order list.
     */
    function GetUserWithOrders(id: int, fetch: OrdersFetch): (r: Result<UserResponse, UserError>)
      reads this
      requires Valid()
      ensures r.Failure? <==> forall u | u in users :: u.id != id
      ensures r.Failure? ==> r.error == UserNotFound
      ensures r.Success? ==>
        && ResponseUser(r.value) in users && r.value.id == id
        && r.value.orders == Some(if fetch.Fetched? then fetch.orders else [])
    {
      match FindById(users, id)
      case None => Failure(UserNotFound)
      case Some(user) =>
        match fetch
        case Fetched(orders) => Success(MapToResponse(user, Some(orders)))
        case FetchFailed => Success(MapToResponse(user, Some([])))
    }

    /** `getAllUsers`. */
    function GetAllUsers(): (r: seq<UserResponse>)
      reads this
      requires Valid()
      ensures |r| == |users|
      ensures forall i | 0 <= i < |r| :: ResponseUser(r[i]) == users[i] && r[i].orders.None?
    {
      MapAll(users)
    }

    /**
     * `createUserFromAuth`: a taken email throws and changes nothing;
     * otherwise exactly one user is appended, with the next id and the
     * request's password stored as the hash.
     */
    method CreateUserFromAuth(req: UserRegisterRequest) returns (r: Result<UserResponse, UserError>)
      requires Valid()
      modifies this
      ensures Valid()
      ensures ExistsByEmail(old(users), req.email) ==>
        r == Failure(DuplicateEmail) && users == old(users) && nextId == old(nextId)
      ensures !ExistsByEmail(old(users), req.email) ==>
        && users == old(users) + [NewUser(old(nextId), req)]
        && nextId == old(nextId) + 1
        && r == Success(MapToResponse(NewUser(old(nextId), req), None))
    {
      if ExistsByEmail(users, req.email) {
        return Failure(DuplicateEmail);
      }
      var user := NewUser(nextId, req);
      AppendKeepsInvariant(users, nextId, user);
      users := users + [user];
      nextId := nextId + 1;
      r := Success(MapToResponse(user, None));
    }
  }
}
