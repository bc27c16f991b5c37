/** The credentials sign-in: `authorize` checks an e-mail and password against the users
    table; the `jwt` and `session` callbacks carry the user's fields into the token and
    from the token into the session. */
module AuthConfig {
  import opened Wrappers
  import opened Store
  import opened Text

  /** `password: z.string().min(6)`. */
  const MinPasswordLength: nat := 6

  /** The submitted form; a field can be missing. */
  datatype Credentials = Credentials(email: Option<string>, password: Option<string>)

  /** What `authorize` hands to next-auth: the user without the password hash. */
  datatype AuthUser = AuthUser(
    id: Id,
    email: string,
    name: string,
    role: Role,
    avatar: Option<string>,
    jobTitle: Option<string>,
    department: Option<string>)

  /** `loginSchema.parse` succeeds: both fields present, an e-mail, and a password at
      least six UTF-16 code units long (zod's `min` compares JavaScript's `length`). */
  predicate SchemaAccepts(c: Credentials, isEmail: string -> bool) {
    && c.email.Some? && isEmail(c.email.value)
    && c.password.Some? && Utf16Length(c.password.value) >= MinPasswordLength
  }

  /** `user.findUnique({ where: { email } })`. */
  function FindUserByEmail(users: seq<User>, email: string): (r: Option<User>)
    ensures r.Some? ==> r.value in users && r.value.email == email
    ensures r.None? ==> forall u :: u in users ==> u.email != email
  {
    if users == [] then None
    else if users[0].email == email then Some(users[0])
    else FindUserByEmail(users[1..], email)
  }

  /** A stored hash `!user.password` does not reject: present and not the empty string. */
  predicate HasPassword(u: User) {
    u.password.Some? && u.password.value != ""
  }

  function ToAuthUser(u: User): AuthUser {
    AuthUser(u.id, u.email, u.name, u.role, u.avatar, u.jobTitle, u.department)
  }

  /** `authorize(credentials)`: the signed-in user, or None (null) when any check fails.
      `passwordMatches(plain, hash)` stands for `bcrypt.compare`. */
  function Authorize(users: seq<User>, c: Credentials, isEmail: string -> bool,
                     passwordMatches: (string, string) -> bool): (r: Option<AuthUser>)
    ensures r.Some? <==>
      && SchemaAccepts(c, isEmail)
      && (exists u :: u in users && u.email == c.email.value && HasPassword(u)
                      && passwordMatches(c.password.value, u.password.value)
                      && FindUserByEmail(users, c.email.value) == Some(u))
    ensures r.Some? ==> r.value.email == c.email.value
    ensures r.Some? ==> exists u :: u in users && r.value == ToAuthUser(u) && HasPassword(u)
  {
    if !SchemaAccepts(c, isEmail) then None
    else
      match FindUserByEmail(users, c.email.value)
      case None => None
      case Some(u) =>
        if !HasPassword(u) then None
        else if !passwordMatches(c.password.value, u.password.value) then None
        else Some(ToAuthUser(u))
  }

  /** With e-mails unique, the user found is the one row carrying that e-mail. */
  lemma {:induction false} FindUserByEmailUnique(users: seq<User>, u: User)
    requires forall i, j :: 0 <= i < j < |users| ==> users[i].email != users[j].email
    requires u in users
    ensures FindUserByEmail(users, u.email) == Some(u)
  {
    if users[0] != u {
      assert users[0].email != u.email by {
        var k :| 0 <= k < |users| && users[k] == u;
        assert 0 < k;
      }
      assert u in users[1..];
      FindUserByEmailUnique(users[1..], u);
    }
  }

  /** On a consistent table, sign-in succeeds exactly for a user with that e-mail, a
      stored hash and a matching password, and yields that user's fields. */
  lemma AuthorizeSucceedsIff(st: Store, c: Credentials, isEmail: string -> bool,
                             passwordMatches: (string, string) -> bool, u: User)
    requires UniqueKeys(st)
    requires u in st.users && SchemaAccepts(c, isEmail) && c.email.value == u.email
    ensures Authorize(st.users, c, isEmail, passwordMatches).Some?
        <==> HasPassword(u) && passwordMatches(c.password.value, u.password.value)
    ensures Authorize(st.users, c, isEmail, passwordMatches).Some? ==>
              Authorize(st.users, c, isEmail, passwordMatches).value == ToAuthUser(u)
  {
    FindUserByEmailUnique(st.users, u);
  }

  /** A password shorter than six code units never signs in. */
  lemma ShortPasswordRejected(users: seq<User>, c: Credentials, isEmail: string -> bool,
                              passwordMatches: (string, string) -> bool)
    requires c.password.Some? && Utf16Length(c.password.value) < MinPasswordLength
    ensures Authorize(users, c, isEmail, passwordMatches) == None
  {
  }

  /** Three astral characters are long enough: the length the schema checks is JavaScript's. */
  lemma EmojiPasswordPassesSchema(email: string, isEmail: string -> bool)
    requires isEmail(email)
    ensures SchemaAccepts(Credentials(Some(email), Some("\U{1F600}\U{1F600}\U{1F600}")), isEmail)
  {
    Utf16LengthOfEmoji();
  }

  /** The JWT: the claims the callback sets (next-auth's own claims are not modelled). */
  class Token {
    var id: Option<Id>
    var role: Option<Role>
    var avatar: Option<string>
    var jobTitle: Option<string>
    var department: Option<string>

    /** A token before any sign-in: none of the custom claims set. */
    constructor ()
      ensures id == None && role == None && avatar == None && jobTitle == None && department == None
    {
      id := None;
      role := None;
      avatar := None;
      jobTitle := None;
      department := None;
    }
  }

  /** `session.user` as the callback sees it. */
  class SessionUser {
    var id: Option<Id>
    var role: Option<Role>
    var avatar: Option<string>
    var jobTitle: Option<string>
    var department: Option<string>

    constructor ()
      ensures id == None && role == None && avatar == None && jobTitle == None && department == None
    {
      id := None;
      role := None;
      avatar := None;
      jobTitle := None;
      department := None;
    }
  }

  class Session {
    var user: SessionUser?

    constructor (user: SessionUser?)
      ensures this.user == user
    {
      this.user := user;
    }
  }

  /** The `jwt` callback: on sign-in (a user given) copy the five fields onto the token;
      otherwise leave it as it is. */
  method Jwt(token: Token, user: Option<AuthUser>)
    modifies token
    ensures user.Some? ==>
      && token.id == Some(user.value.id)
      && token.role == Some(user.value.role)
      && token.avatar == user.value.avatar
      && token.jobTitle == user.value.jobTitle
      && token.department == user.value.department
    ensures user.None? ==> unchanged(token)
  {
    if user.Some? {
      token.id := Some(user.value.id);
      token.role := Some(user.value.role);
      token.avatar := user.value.avatar;
      token.jobTitle := user.value.jobTitle;
      token.department := user.value.department;
    }
  }

  /** The `session` callback: when the session has a user, copy the five claims from the
      token onto it; the token and the session's other state are not touched. */
  method SessionCallback(session: Session, token: Token)
    modifies session.user
    ensures session.user != null ==>
      && session.user.id == token.id
      && session.user.role == token.role
      && session.user.avatar == token.avatar
      && session.user.jobTitle == token.jobTitle
      && session.user.department == token.department
  {
    var u := session.user;
    if u != null {
      u.id := token.id;
      u.role := token.role;
      u.avatar := token.avatar;
      u.jobTitle := token.jobTitle;
      u.department := token.department;
    }
  }

  /** A sign-in followed by a session read: `authorize`, then `jwt` with its result,
      then `session`. The session then carries the signed-in user's id and role. */
  method SignIn(users: seq<User>, c: Credentials, isEmail: string -> bool,
                passwordMatches: (string, string) -> bool, token: Token, session: Session)
    returns (user: Option<AuthUser>)
    modifies token, session.user
    ensures user == Authorize(users, c, isEmail, passwordMatches)
    ensures user.Some? && session.user != null ==>
      && session.user.id == Some(user.value.id)
      && session.user.role == Some(user.value.role)
    ensures user.None? ==> unchanged(token)
  {
    user := Authorize(users, c, isEmail, passwordMatches);
    Jwt(token, user);
    SessionCallback(session, token);
  }
}
