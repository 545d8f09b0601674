/**
 * auth.py: the document access check and the user table.
 * Password hashing and verification are library calls; the hash is passed in
 * already computed, and verification is a parameter `verify(plain, hashed)`.
 */
module Auth {
  import opened Wrappers
  import opened Models

  /** Whether a user holding `userRole` may read a document whose access list is `accessRoles`. */
  function HasAccessToDocument(userRole: Role, accessRoles: seq<Role>): (r: bool)
    // executives read every document, whatever its access list, even an empty one
    ensures userRole == Executive ==> r
    // everyone else reads exactly the documents that list their role
    ensures userRole != Executive ==> (r <==> userRole in accessRoles)
  {
    if userRole == Executive then true else userRole in accessRoles
  }

  /** Access depends only on which roles are listed: order and repetition do not matter, and listing more never revokes. */
  lemma AccessMonotone(userRole: Role, fewer: seq<Role>, more: seq<Role>)
    requires forall role :: role in fewer ==> role in more
    ensures HasAccessToDocument(userRole, fewer) ==> HasAccessToDocument(userRole, more)
  {
  }

  datatype AuthError = UserAlreadyExists(username: string)

  /** The outcome of `create_user` on the table `users`: the created user or the error, and the new table. */
  function Register(users: map<string, User>, username: string, hashedPassword: string, role: Role, department: string)
    : (r: (Result<User, AuthError>, map<string, User>))
    // an existing name is refused and the table is left as it was
    ensures username in users ==> r.0 == Err(UserAlreadyExists(username)) && r.1 == users
    // a fresh name adds exactly that key, carrying the given role and department, never logged in
    ensures username !in users ==>
      && r.0 == Ok(User(username, hashedPassword, role, department, None))
      && r.1.Keys == users.Keys + {username}
      && r.1[username] == r.0.value
      && forall name :: name in users ==> r.1[name] == users[name]
  {
    if username in users then
      (Err(UserAlreadyExists(username)), users)
    else
      var newUser := User(username, hashedPassword, role, department, None);
      (Ok(newUser), users[username := newUser])
  }

  /** The outcome of `authenticate_user` at time `now`: the logged-in user or None, and the new table. */
  function Login(users: map<string, User>, username: string, password: string, now: Timestamp,
                 verify: (string, string) -> bool)
    : (r: (Option<User>, map<string, User>))
    // refused exactly for an unknown name or a password that does not verify
    ensures r.0.None? <==> (username !in users || !verify(password, users[username].hashedPassword))
    ensures r.0.None? ==> r.1 == users
    // on success only that user's last login changes, and that updated user is returned
    ensures r.0.Some? ==>
      && r.0.value == users[username].(lastLogin := Some(now))
      && r.1.Keys == users.Keys
      && r.1[username] == r.0.value
      && forall name :: name in users && name != username ==> r.1[name] == users[name]
  {
    if username !in users then
      (None, users)
    else if !verify(password, users[username].hashedPassword) then
      (None, users)
    else
      var user := users[username].(lastLogin := Some(now));
      (Some(user), users[username := user])
  }

  /** A name that was just registered cannot be registered again. */
  lemma RegisterTwiceRefused(users: map<string, User>, username: string, hashedPassword: string, role: Role,
                             department: string, hashedPassword': string, role': Role, department': string)
    ensures var after := Register(users, username, hashedPassword, role, department).1;
      Register(after, username, hashedPassword', role', department') == (Err(UserAlreadyExists(username)), after)
  {
  }

  /** With a hash that verifies against the password, a freshly created user can log in and keeps role and department. */
  lemma RegisterThenLogin(users: map<string, User>, username: string, password: string, hashedPassword: string,
                          role: Role, department: string, now: Timestamp, verify: (string, string) -> bool)
    requires username !in users
    requires verify(password, hashedPassword)
    ensures var after := Register(users, username, hashedPassword, role, department).1;
      Login(after, username, password, now, verify).0 == Some(User(username, hashedPassword, role, department, Some(now)))
  {
  }

  /** Logging in never changes anyone's password hash, role or department, and never adds or removes a user. */
  lemma LoginKeepsCredentials(users: map<string, User>, username: string, password: string, now: Timestamp,
                              verify: (string, string) -> bool, name: string)
    requires name in users
    ensures var after := Login(users, username, password, now, verify).1;
      && after.Keys == users.Keys
      && after[name].hashedPassword == users[name].hashedPassword
      && after[name].role == users[name].role
      && after[name].department == users[name].department
  {
  }

  /** The user table that users.json persists (file reads and writes left out). */
  class UserTable {
    var users: map<string, User>

    constructor (initial: map<string, User>)
      ensures users == initial
    {
      users := initial;
    }

    /** `create_user`; `hashedPassword` is the library's hash of the chosen password. */
    method CreateUser(username: string, hashedPassword: string, role: Role, department: string)
      returns (r: Result<User, AuthError>)
      modifies this
      ensures (r, users) == Register(old(users), username, hashedPassword, role, department)
    {
      if username in users {
        return Err(UserAlreadyExists(username));
      }
      var newUser := User(username, hashedPassword, role, department, None);
      users := users[username := newUser];
      return Ok(newUser);
    }

    /** `authenticate_user` at time `now`; the login audit entry is left out. */
    method AuthenticateUser(username: string, password: string, now: Timestamp, verify: (string, string) -> bool)
      returns (r: Option<User>)
      modifies this
      ensures (r, users) == Login(old(users), username, password, now, verify)
    {
      if username !in users {
        return None;
      }
      var user := users[username];
      if !verify(password, user.hashedPassword) {
        return None;
      }
      user := user.(lastLogin := Some(now));
      users := users[username := user];
      return Some(user);
    }
  }
}
