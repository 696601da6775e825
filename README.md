# Restaurant back end: registration handshake, order lifecycle, user store

A Dafny model of the business logic of three Spring services of a restaurant
back end:

- **Authentication service** (`Authentication`, `RegistrationProperties`,
  `DecimalText`): the registration coordinator. `register` checks the user
  directory for the email, stores a pending registration (the request, a
  six-digit one-time password and an expiry 300 seconds ahead) in a map keyed
  by email, and mails the code. `confirmRegistration` checks presence and
  expiry, then the code, hashes the password inside the stored request, asks
  the directory to create the user, and only then removes the entry. `login`
  looks the user up, checks the password with BCrypt and issues a JWT. The map
  is a field of the class `AuthenticationService`; each method is proved
  against a step function (`RegisterStep`, `ConfirmStep`) whose properties,
  alone and across several calls, are lemmas.
- **Order service** (`OrderStatusEnum`, `OrderEntity`, `OrderTransitions`,
  `Orders`): the eight order statuses; the `Order` entity with its
  `onCreate`/`onUpdate` hooks as a class; the status transition table with
  its consequences (no self-moves, final states, no cycles, at most six
  moves); and `OrderService`, a class over an in-memory repository (rows by
  id plus the ids in repository order) with create, partial update,
  status-guarded delete and the list queries.
- **User service** (`Users`): a repository of users with unique ids and
  emails, `createUserFromAuth`, the lookups and `getUserWithOrders`, which
  degrades to an empty order list when the order service fails.
- **Across services** (`AccountFlow`): a confirmed registration yields a
  stored user whose password hash is the one the authentication service
  computed, and that user can log in.

Everything outside the services' own code is an input: the clock (an
integer), the answer of a remote lookup (a datatype of its possible
outcomes), whether a remote create or the OTP mail succeeded (a boolean), the
random draw behind the OTP, and BCrypt and JWT (function-valued parameters).

Three behaviours of the code worth knowing:

- During `register`, a directory that is down makes registration fail (the
  fallback's `RuntimeException` propagates); only a 404 lets it proceed.
- `confirmRegistration` removes the pending entry only after `createUser`
  returns, so a failed create leaves the entry in place (with its password
  already hashed).
- `login` does not fold a directory 404 or outage into "account not found";
  those exceptions propagate as they are, and "account not found" answers
  only an empty reply.

## Model

| member | source | states |
|---|---|---|
| `DecimalText.Render` | AuthenticationService/src/main/java/com/example/authenticationservice/service/authentication/AuthenticationServiceImpl.java:118 | `String.valueOf` of a non-negative int: at least one character, all decimal digits, no leading zero |
| `DecimalText.ParseRender` | AuthenticationService/src/main/java/com/example/authenticationservice/service/authentication/AuthenticationServiceImpl.java:118 | parsing the rendered numeral gives back the number (rendering is lossless) |
| `DecimalText.RenderInjective` | AuthenticationService/src/main/java/com/example/authenticationservice/service/authentication/AuthenticationServiceImpl.java:118 | distinct numbers render to distinct strings |
| `DecimalText.RenderLength` | AuthenticationService/src/main/java/com/example/authenticationservice/service/authentication/AuthenticationServiceImpl.java:118 | a number with k decimal digits renders to exactly k characters |
| `Authentication.PendingUser.IsExpired` | AuthenticationService/src/main/java/com/example/authenticationservice/service/authentication/AuthenticationServiceImpl.java:128-130 | a pending registration is expired strictly after its expiry instant, so the instant itself is still valid |
| `Authentication.GenerateOtp` | AuthenticationService/src/main/java/com/example/authenticationservice/service/authentication/AuthenticationServiceImpl.java:117-119 | the OTP is exactly six decimal digits, denoting a number in 100000..999999 that is the draw plus 100000 |
| `Authentication.OtpInjective` | AuthenticationService/src/main/java/com/example/authenticationservice/service/authentication/AuthenticationServiceImpl.java:117-119 | different random draws give different codes |
| `Authentication.RegisterStep` | AuthenticationService/src/main/java/com/example/authenticationservice/service/authentication/AuthenticationServiceImpl.java:49-65 | only a directory 404 lets registration proceed; a returned user or empty reply fails with "email exists", an outage propagates, and in both failure cases the map is unchanged; past the check the email's entry is replaced by (request, fresh OTP, now + 300) with every other entry untouched; a failed mail fails the call but keeps the new entry; success iff 404 and mail sent |
| `Authentication.Hashed` | AuthenticationService/src/main/java/com/example/authenticationservice/service/authentication/AuthenticationServiceImpl.java:88 | the stored request with its password replaced by the encoder's hash of it, every other field kept |
| `Authentication.ConfirmStep` | AuthenticationService/src/main/java/com/example/authenticationservice/service/authentication/AuthenticationServiceImpl.java:70-93 | absent or strictly expired fails "not found or expired", then a wrong OTP fails "OTP incorrect", both with the map unchanged and no create call; otherwise exactly one create call carrying the request with its password hashed; success iff that call succeeds, and then only that email's entry is removed; a failed create leaves the entry with the already hashed password |
| `Authentication.RegisterKeepsWellFormed` | AuthenticationService/src/main/java/com/example/authenticationservice/service/authentication/AuthenticationServiceImpl.java:57-59 | `register` keeps every entry filed under its own request's email with a six-digit OTP |
| `Authentication.ConfirmKeepsWellFormed` | AuthenticationService/src/main/java/com/example/authenticationservice/service/authentication/AuthenticationServiceImpl.java:88-93 | `confirmRegistration` keeps that invariant too |
| `Authentication.AuthenticationService.constructor` | AuthenticationService/src/main/java/com/example/authenticationservice/service/authentication/AuthenticationServiceImpl.java:30 | the pending map starts empty |
| `Authentication.AuthenticationService.Register` | AuthenticationService/src/main/java/com/example/authenticationservice/service/authentication/AuthenticationServiceImpl.java:42-66 | the method's result and new map are those of `RegisterStep` on the old map; the invariant is kept |
| `Authentication.AuthenticationService.ConfirmRegistration` | AuthenticationService/src/main/java/com/example/authenticationservice/service/authentication/AuthenticationServiceImpl.java:69-94 | the method's result, create call and new map are those of `ConfirmStep` on the old map; the invariant is kept |
| `Authentication.AuthenticationService.Login` | AuthenticationService/src/main/java/com/example/authenticationservice/service/authentication/AuthenticationServiceImpl.java:96-115 | success iff the lookup found a user whose hash BCrypt matches; then the token is issued for that user's username and the response carries its id, username and email; an empty reply gives "account not found", a wrong password "unauthorized", lookup failures propagate |
| `RegistrationProperties.ExpiryBoundary` | AuthenticationService/src/main/java/com/example/authenticationservice/service/authentication/AuthenticationServiceImpl.java:71-73 | a confirm at exactly the expiry instant is accepted; one second later it fails as not found or expired with the map unchanged |
| `RegistrationProperties.WrongOtpThenCorrect` | AuthenticationService/src/main/java/com/example/authenticationservice/service/authentication/AuthenticationServiceImpl.java:74-75 | a wrong OTP fails "OTP incorrect" and leaves the entry, so the right OTP later, up to the expiry, succeeds |
| `RegistrationProperties.ConfirmSucceedsOnce` | AuthenticationService/src/main/java/com/example/authenticationservice/service/authentication/AuthenticationServiceImpl.java:88-93 | after a successful confirm, any repeat confirm for that email fails as absent |
| `RegistrationProperties.RegisterThenConfirmInTime` | AuthenticationService/src/main/java/com/example/authenticationservice/service/authentication/AuthenticationServiceImpl.java:57-93 | register, then confirm with the generated code within 300 s: success, the directory receives the request hashed once, and the map ends as before minus that email |
| `RegistrationProperties.RegisterThenConfirmTooLate` | AuthenticationService/src/main/java/com/example/authenticationservice/service/authentication/AuthenticationServiceImpl.java:57-73 | after more than 300 s the correct code is refused and nothing is sent to the directory |
| `RegistrationProperties.RegisterLastWriteWins` | AuthenticationService/src/main/java/com/example/authenticationservice/service/authentication/AuthenticationServiceImpl.java:58-59 | registering the same email twice leaves exactly what the second registration alone would |
| `RegistrationProperties.MailFailureLeavesConfirmableEntry` | AuthenticationService/src/main/java/com/example/authenticationservice/service/authentication/AuthenticationServiceImpl.java:58-65 | when the mail fails, registration fails, yet the generated code still confirms |
| `RegistrationProperties.RetryAfterFailedCreateRehashes` | AuthenticationService/src/main/java/com/example/authenticationservice/service/authentication/AuthenticationServiceImpl.java:88-93 | after a failed create the stored password is already the hash, so a retried confirm sends the hash of the hash |
| `OrderStatusEnum.ValueOf` | OrderService/src/main/java/com/supbo/restaurant/orderservice/enums/OrderStatus.java:7-14 | a status found by name has that name |
| `OrderStatusEnum.ValueOfName` | OrderService/src/main/java/com/supbo/restaurant/orderservice/enums/OrderStatus.java:7-14 | each status is recovered from its name, so the eight names are distinct |
| `OrderEntity.Order.Build` | OrderService/src/main/java/com/supbo/restaurant/orderservice/service/order/OrderServiceImpl.java:42-48 | the builder sets customer, amount, notes, address and phone; id, times and status stay null |
| `OrderEntity.Order.Load` | OrderService/src/main/java/com/supbo/restaurant/orderservice/model/Order.java:21-51 | the entity read from a row holds exactly that row |
| `OrderEntity.Order.OnCreate` | OrderService/src/main/java/com/supbo/restaurant/orderservice/model/Order.java:53-59 | sets order time, createdAt and updatedAt from the clock and the status to PENDING whatever it was; nothing else changes |
| `OrderEntity.Order.OnUpdate` | OrderService/src/main/java/com/supbo/restaurant/orderservice/model/Order.java:61-64 | sets updatedAt and changes nothing else |
| `OrderTransitions.CanTransition` | OrderService/src/main/java/com/supbo/restaurant/orderservice/service/order/OrderServiceImpl.java:235-253 | the accepted moves: PENDING to CONFIRMED or CANCELLED; CONFIRMED to PREPARING or CANCELLED; PREPARING to READY or CANCELLED; READY to OUT_FOR_DELIVERY; OUT_FOR_DELIVERY to DELIVERED; DELIVERED to REFUNDED; none from CANCELLED or REFUNDED |
| `OrderEntity.Storable` | OrderService/src/main/java/com/supbo/restaurant/orderservice/model/Order.java:25-39 | a row the table accepts: id, order time and status present, notes at most 500 characters, address and phone at most 255 |
| `OrderTransitions.TransitionRaisesRank` | OrderService/src/main/java/com/supbo/restaurant/orderservice/service/order/OrderServiceImpl.java:235-246 | every accepted move goes strictly forward in the lifecycle |
| `OrderTransitions.NoSelfTransition` | OrderService/src/main/java/com/supbo/restaurant/orderservice/service/order/OrderServiceImpl.java:235-246 | no status may move to itself |
| `OrderTransitions.FinalStatuses` | OrderService/src/main/java/com/supbo/restaurant/orderservice/service/order/OrderServiceImpl.java:244-245 | CANCELLED and REFUNDED have no outgoing move |
| `OrderTransitions.CancelOnlyBeforeReady` | OrderService/src/main/java/com/supbo/restaurant/orderservice/service/order/OrderServiceImpl.java:238-240 | CANCELLED is reachable exactly from PENDING, CONFIRMED and PREPARING |
| `OrderTransitions.RefundOnlyAfterDelivery` | OrderService/src/main/java/com/supbo/restaurant/orderservice/service/order/OrderServiceImpl.java:243 | REFUNDED is reachable exactly from DELIVERED |
| `OrderTransitions.ChainRaisesRank` | OrderService/src/main/java/com/supbo/restaurant/orderservice/service/order/OrderServiceImpl.java:235-246 | along a chain of accepted moves the lifecycle rank grows by at least one per move |
| `OrderTransitions.ChainAtMostSixMoves` | OrderService/src/main/java/com/supbo/restaurant/orderservice/service/order/OrderServiceImpl.java:235-246 | any chain of accepted status updates makes at most six moves |
| `OrderTransitions.NoCycles` | OrderService/src/main/java/com/supbo/restaurant/orderservice/service/order/OrderServiceImpl.java:235-246 | the transition relation is acyclic |
| `OrderTransitions.LongestLifecycle` | OrderService/src/main/java/com/supbo/restaurant/orderservice/service/order/OrderServiceImpl.java:238-243 | PENDING through REFUNDED is a six-move chain, so the bound is tight |
| `Orders.ValidateCustomerExists` | OrderService/src/main/java/com/supbo/restaurant/orderservice/service/order/OrderServiceImpl.java:215-224 | the customer when the lookup finds one; every lookup failure becomes "customer not found" |
| `Orders.GetCustomerInfo` | OrderService/src/main/java/com/supbo/restaurant/orderservice/service/order/OrderServiceImpl.java:226-233 | the customer when the lookup finds one; every lookup failure becomes null |
| `Orders.MapToResponse` | OrderService/src/main/java/com/supbo/restaurant/orderservice/service/order/OrderServiceImpl.java:255-270 | the response can be read back into exactly the row; status is the constant's name, statusDisplay its display name; the customer is the one given |
| `Orders.Select` | OrderService/src/main/java/com/supbo/restaurant/orderservice/repository/OrderRepository.java:18-28 | a query returns exactly the stored orders it matches, in repository order, without duplicates |
| `Orders.MapResponses` | OrderService/src/main/java/com/supbo/restaurant/orderservice/service/order/OrderServiceImpl.java:136-138 | one response per row, in the rows' order, each the mapping of that row |
| `Orders.MapWithLookups` | OrderService/src/main/java/com/supbo/restaurant/orderservice/service/order/OrderServiceImpl.java:209-211 | one response per row, in order, the k-th carrying the customer that the k-th directory answer yields (null on any failure) |
| `Orders.Responses` | OrderService/src/main/java/com/supbo/restaurant/orderservice/service/order/OrderServiceImpl.java:135-138 | a query followed by the mapping: one response per matching order, in repository order |
| `Orders.Patched` | OrderService/src/main/java/com/supbo/restaurant/orderservice/service/order/OrderServiceImpl.java:88-104 | each null request field keeps its column, each non-null one overwrites it; id, customer, order time and audit times never change |
| `Orders.Flushed` | OrderService/src/main/java/com/supbo/restaurant/orderservice/model/Order.java:61-64 | the flushed row is the entity itself, with updatedAt refreshed exactly when it differs from what was loaded |
| `Orders.NewRecord` | OrderService/src/main/java/com/supbo/restaurant/orderservice/service/order/OrderServiceImpl.java:42-50 | a created order has the new id, status PENDING, the clock in its three time columns, and the request's other fields |
| `Orders.Deletable` | OrderService/src/main/java/com/supbo/restaurant/orderservice/service/order/OrderServiceImpl.java:120-121 | an order may be deleted only while PENDING or CANCELLED |
| `Orders.InRange` | OrderService/src/main/java/com/supbo/restaurant/orderservice/repository/OrderRepository.java:26-28 | `BETWEEN`: the order time lies between the two bounds, both included |
| `Orders.Without` | OrderService/src/main/java/com/supbo/restaurant/orderservice/service/order/OrderServiceImpl.java:126 | after `deleteById` the repository order lists every other id, in the same order |
| `Orders.RewriteKeepsInvariant` | OrderService/src/main/java/com/supbo/restaurant/orderservice/service/order/OrderServiceImpl.java:106 | saving a storable row under its own id keeps the repository invariant |
| `Orders.SelectAll` | OrderService/src/main/java/com/supbo/restaurant/orderservice/service/order/OrderServiceImpl.java:199 | `findAll` returns every stored order in repository order |
| `Orders.OrderService.constructor` | OrderService/src/main/java/com/supbo/restaurant/orderservice/service/order/OrderServiceImpl.java:32 | the repository starts empty |
| `Orders.OrderService.CreateOrder` | OrderService/src/main/java/com/supbo/restaurant/orderservice/service/order/OrderServiceImpl.java:35-55 | a failed customer lookup throws "customer not found" and saves nothing; otherwise exactly one row is appended under the next id, status PENDING, unless it breaks a column constraint; the response carries the customer |
| `Orders.OrderService.GetOrderById` | OrderService/src/main/java/com/supbo/restaurant/orderservice/service/order/OrderServiceImpl.java:57-66 | the stored order's response without a customer iff the id is stored, else "order not found" |
| `Orders.OrderService.GetOrderByIdWithCustomer` | OrderService/src/main/java/com/supbo/restaurant/orderservice/service/order/OrderServiceImpl.java:68-78 | as above, with the looked-up customer or null |
| `Orders.OrderService.UpdateOrder` | OrderService/src/main/java/com/supbo/restaurant/orderservice/service/order/OrderServiceImpl.java:80-110 | an unknown id or a rejected transition throws with nothing written; otherwise the row becomes the patched, flushed row (rolled back if it breaks a column constraint) and nothing else in the repository changes |
| `Orders.OrderService.AssignFields` | OrderService/src/main/java/com/supbo/restaurant/orderservice/service/order/OrderServiceImpl.java:90-104 | the setter calls leave the entity equal to the patched row |
| `Orders.OrderService.DeleteOrder` | OrderService/src/main/java/com/supbo/restaurant/orderservice/service/order/OrderServiceImpl.java:112-128 | a missing id is "order not found"; a status other than PENDING or CANCELLED throws and the order stays; otherwise exactly that order is removed |
| `Orders.OrderService.GetOrdersByCustomerId` | OrderService/src/main/java/com/supbo/restaurant/orderservice/service/order/OrderServiceImpl.java:130-139 | one response per order of that customer, in repository order, without customer |
| `Orders.OrderService.GetOrdersByCustomerIdWithCustomer` | OrderService/src/main/java/com/supbo/restaurant/orderservice/service/order/OrderServiceImpl.java:150-161 | the same orders, each carrying the one lookup's customer or null |
| `Orders.OrderService.GetOrdersByStatus` | OrderService/src/main/java/com/supbo/restaurant/orderservice/service/order/OrderServiceImpl.java:163-172 | one response per order with that status, in repository order |
| `Orders.OrderService.GetOrdersByDateRange` | OrderService/src/main/java/com/supbo/restaurant/orderservice/service/order/OrderServiceImpl.java:183-192 | one response per order whose order time lies in the range, both ends included |
| `Orders.OrderService.GetAllOrders` | OrderService/src/main/java/com/supbo/restaurant/orderservice/service/order/OrderServiceImpl.java:194-201 | one response per stored order, in repository order |
| `Orders.OrderService.GetAllOrdersWithCustomers` | OrderService/src/main/java/com/supbo/restaurant/orderservice/service/order/OrderServiceImpl.java:203-213 | one response per stored order, in repository order, each carrying the customer from its own directory call (null when that call fails); calls for the same customer may answer differently |
| `Users.FindFirst` | UserService/src/main/java/supbo/restaurant/userservice/service/user/UserServiceImpl.java:37-38 | the derived queries `findById` and `findByEmail`: a stored user satisfying the condition if there is one; none iff no stored user satisfies it |
| `Users.MapToResponse` | UserService/src/main/java/supbo/restaurant/userservice/service/user/UserServiceImpl.java:121-132 | the response can be read back into exactly the user (hash included) and carries the order list given |
| `Users.MapAll` | UserService/src/main/java/supbo/restaurant/userservice/service/user/UserServiceImpl.java:90-92 | one response per user, in order, each reading back to that user, with a null order list |
| `Users.NewUser` | UserService/src/main/java/supbo/restaurant/userservice/service/user/UserServiceImpl.java:50-57 | the request password is stored verbatim as the hash, birth date is null, the other fields are copied |
| `Users.AppendKeepsInvariant` | UserService/src/main/java/supbo/restaurant/userservice/service/user/UserServiceImpl.java:46-59 | appending a user with a new email and the next id keeps ids and emails unique |
| `Users.FindByEmailFinds` | UserService/src/main/java/supbo/restaurant/userservice/service/user/UserServiceImpl.java:100-101 | with unique emails, looking up a stored user's email finds that very user |
| `Users.CreatedUserIsFoundByEmail` | UserService/src/main/java/supbo/restaurant/userservice/service/user/UserServiceImpl.java:46-59 | after creation the email lookup finds the new user, and a second creation with that email is a duplicate |
| `Users.UserService.constructor` | UserService/src/main/java/supbo/restaurant/userservice/service/user/UserServiceImpl.java:29 | the repository starts empty |
| `Users.UserService.GetUserById` | UserService/src/main/java/supbo/restaurant/userservice/service/user/UserServiceImpl.java:32-41 | fails with "user not found" iff no user has the id; otherwise a stored user's response with that id and a null order list |
| `Users.UserService.GetUserByEmail` | UserService/src/main/java/supbo/restaurant/userservice/service/user/UserServiceImpl.java:95-118 | fails with "user not found" iff no user has the email; otherwise a stored user's response with that email and a null order list |
| `Users.UserService.GetUserWithOrders` | UserService/src/main/java/supbo/restaurant/userservice/service/user/UserServiceImpl.java:64-82 | an unknown id is "user not found"; otherwise the user with the fetched orders, or an empty list when the fetch failed |
| `Users.UserService.GetAllUsers` | UserService/src/main/java/supbo/restaurant/userservice/service/user/UserServiceImpl.java:85-93 | exactly one response per stored user, in repository order, with a null order list |
| `Users.UserService.CreateUserFromAuth` | UserService/src/main/java/supbo/restaurant/userservice/service/user/UserServiceImpl.java:42-63 | a taken email throws "duplicate email" with the store unchanged; otherwise exactly one user is appended under the next id, and emails stay unique |
| `AccountFlow.ConfirmedAccountCanLogIn` | AuthenticationService/src/main/java/com/example/authenticationservice/service/authentication/AuthenticationServiceImpl.java:88-114 | after a successful confirm, the user service stores the BCrypt hash of the registered password, and logging in with that password issues the token for the registered username (given that BCrypt matches a password against its own hash) |

## Left out

- HTTP controllers, status-code mapping and JSON serialisation are not modelled. The hand-off of `phoneNumber` to the user service's `phone` is assumed. The request DTO classes are not part of this model.
- Feign transport is not modelled. Each remote call is an input holding its outcome. In the order service, an empty reply to `getUserById` is handled like a failure, so it is folded into `NotFound`.
- Paging is not modelled. The paged variants of `getOrdersByCustomerId`, `getOrdersByStatus`, `getAllOrders` and `getAllOrdersWithCustomers` are modelled as the whole list.
- Repository order is taken to be insertion order. Without an ORDER BY, JPA leaves it unspecified.
- Repository queries that the core never calls are left out: `findByCustomerIdAndStatus`, `findByCustomerIdAndStatusIn`, `countByCustomerId` and `getTotalSpentByCustomer`.
- BCrypt, JWT and the mail sender are left out as libraries and I/O. They are function parameters or a success flag, and BCrypt's salting and timing are not modelled.
- The uniform distribution of `Math.random()` is not modelled. Only its range is kept, as the draw 0..899999.
- Clocks are integers. An `Instant`'s sub-second part is not modelled. The three `LocalDateTime.now()` calls in `onCreate` are one reading.
- Concurrency is not modelled: the atomicity of the `ConcurrentHashMap` and the race between `get` and `remove` in `confirmRegistration`.
- Logging and debug printing are not modelled.
- Bean-validation annotations on requests are not modelled. The table's column constraints are: NOT NULL, notes at most 500 characters, address and phone at most 255. They are enforced when a row is written.
- `totalAmount` is integer cents. Its precision and scale are not modelled.
- Java nulls are modelled only where the code distinguishes them. Nullable columns and optional request fields are `Option`. A null email or OTP passed to `confirmRegistration` is not modelled.
- Rollback of a failed write is modelled as "nothing changes". An identity value a failed insert may consume is not modelled.
- Hibernate's dirty check before `@PreUpdate` is modelled as "the entity differs from the loaded row".
- The user service's own order DTO is not part of this model. Its order lists are passed through as values of an abstract type.
- The user entity class is not part of this model. Email uniqueness is kept as the store's invariant, which `createUserFromAuth` preserves. Birth date is an integer day.
