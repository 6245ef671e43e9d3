// Accounts and login sessions: creating users, password login, session tokens that expire or are
// logged out, and the Google sign-in address. Password hashing and checking, token generation and
// the clock are inputs.

module Auth {
  import opened Wrappers
  import opened Models

  // ---------------------------------------------------------------- splitting and joining text

  /** Position of the first c in s. */
  function FirstIndex(s: string, c: char): (r: Option<nat>)
    ensures r.None? ==> c !in s
    ensures r.Some? ==> r.value < |s| && s[r.value] == c && c !in s[..r.value]
  {
    if |s| == 0 then None
    else if s[0] == c then Some(0)
    else
      match FirstIndex(s[1..], c)
      case None => None
      case Some(i) =>
        assert s[..i + 1] == [s[0]] + s[1..][..i];
        Some(i + 1)
  }

  /** The first c in p + [c] + rest is the one after p. */
  lemma FirstIndexAfter(p: string, c: char, rest: string)
    requires c !in p
    ensures FirstIndex(p + [c] + rest, c) == Some(|p|)
  {
    var s := p + [c] + rest;
    assert s[..|p|] == p && s[|p|] == c;
  }

  /** Python's str.split(sep) for a one-character separator: always at least one part. */
  function SplitOn(s: string, sep: char): (parts: seq<string>)
    ensures |parts| >= 1
    ensures forall i :: 0 <= i < |parts| ==> sep !in parts[i]
    decreases |s|
  {
    match FirstIndex(s, sep)
    case None => [s]
    case Some(i) => [s[..i]] + SplitOn(s[i + 1..], sep)
  }

  /** Python's sep.join(parts). */
  function JoinWith(parts: seq<string>, sep: char): string
  {
    if |parts| == 0 then ""
    else if |parts| == 1 then parts[0]
    else parts[0] + [sep] + JoinWith(parts[1..], sep)
  }

  /** Splitting undoes joining when no part contains the separator. */
  lemma {:induction false} SplitJoin(parts: seq<string>, sep: char)
    requires |parts| >= 1
    requires forall i :: 0 <= i < |parts| ==> sep !in parts[i]
    ensures SplitOn(JoinWith(parts, sep), sep) == parts
  {
    if |parts| > 1 {
      var rest := JoinWith(parts[1..], sep);
      var s := parts[0] + [sep] + rest;
      FirstIndexAfter(parts[0], sep, rest);
      assert s[..|parts[0]|] == parts[0];
      assert s[|parts[0]| + 1..] == rest;
      assert SplitOn(s, sep) == [parts[0]] + SplitOn(rest, sep);
      SplitJoin(parts[1..], sep);
      assert parts == [parts[0]] + parts[1..];
    }
  }

  // ---------------------------------------------------------------- users

  /** The text before the first '@' (email.split('@')[0]). */
  function EmailLocalPart(email: string): (local: string)
    ensures '@' !in local && local <= email
    ensures |local| < |email| ==> email[|local|] == '@'
  {
    SplitOn(email, '@')[0]
  }

  /** The local part of user@domain is user. */
  lemma EmailLocalPartOf(user: string, domain: string)
    requires '@' !in user
    ensures EmailLocalPart(user + "@" + domain) == user
  {
    FirstIndexAfter(user, '@', domain);
    assert (user + "@" + domain)[..|user|] == user;
  }

  /** Python's truth value of an optional text: present and not empty. */
  predicate Given(s: Option<string>)
  {
    s.Some? && s.value != ""
  }

  /** The user's id column: the row's position plus one. */
  function UserById(users: seq<User>, id: int): (u: Option<User>)
    ensures u.Some? <==> 1 <= id <= |users|
    ensures u.Some? ==> u.value == users[id - 1]
  {
    if 1 <= id <= |users| then Some(users[id - 1]) else None
  }

  /** Position of the first user with this email (User.query.filter_by(email=...).first()). */
  function FindByEmail(users: seq<User>, email: string): (r: Option<nat>)
    ensures r.None? ==> forall i :: 0 <= i < |users| ==> users[i].email != email
    ensures r.Some? ==>
      r.value < |users| && users[r.value].email == email && forall i :: 0 <= i < r.value ==> users[i].email != email
  {
    if |users| == 0 then None
    else
      match FindByEmail(users[..|users| - 1], email)
      case Some(i) => Some(i)
      case None => if users[|users| - 1].email == email then Some(|users| - 1) else None
  }

  /** A unique column would be violated: the email, or a Google id another user already has. */
  predicate Clashes(users: seq<User>, email: string, googleId: Option<string>)
  {
    exists i :: 0 <= i < |users| && (users[i].email == email || (googleId.Some? && users[i].googleId == googleId))
  }

  /**
   * create_user: a new row whose password hash is the hash of the password when one is given and
   * whose name defaults to the email's local part; the unique email and Google id columns make a
   * clashing insert fail and leave the table unchanged.
   */
  function CreatedUser(users: seq<User>, email: string, password: Option<string>, name: Option<string>,
                       googleId: Option<string>, profilePicture: Option<string>, now: int,
                       hash: string -> string): (r: Result<seq<User>, string>)
    ensures r.Failure? <==> Clashes(users, email, googleId)
    ensures r.Success? ==> |r.value| == |users| + 1 && r.value[..|users|] == users
    ensures r.Success? ==>
      var u := r.value[|users|];
      u.email == email && u.googleId == googleId && u.profilePicture == profilePicture &&
      u.createdAt == now && u.lastLogin == None && u.notificationsEnabled &&
      (Given(password) ==> u.passwordHash == Some(hash(password.value))) &&
      (!Given(password) ==> u.passwordHash == None) &&
      (Given(name) ==> u.name == name.value) &&
      (!Given(name) ==> u.name == EmailLocalPart(email))
  {
    if Clashes(users, email, googleId) then Failure("UNIQUE constraint failed")
    else
      var passwordHash := if Given(password) then Some(hash(password.value)) else None;
      var userName := if Given(name) then name.value else EmailLocalPart(email);
      var u := User(email, passwordHash, userName, googleId, profilePicture, now, None, true);
      assert (users + [u])[..|users|] == users;
      Success(users + [u])
  }

  /**
   * authenticate_user: the first user with the email, if it has a password hash that the
   * checker accepts for the password; on success its last login becomes now.
   */
  function Authenticated(users: seq<User>, email: string, password: string, now: int,
                         check: (string, string) -> bool): (r: (Option<User>, seq<User>))
    ensures r.0.None? ==> r.1 == users
    ensures r.0.Some? <==>
      FindByEmail(users, email).Some? && Given(users[FindByEmail(users, email).value].passwordHash) &&
      check(users[FindByEmail(users, email).value].passwordHash.value, password)
    ensures r.0.Some? ==>
      var i := FindByEmail(users, email).value;
      users[i].email == email && (forall j :: 0 <= j < i ==> users[j].email != email) &&
      r.0.value == users[i].(lastLogin := Some(now)) && r.1 == users[i := r.0.value]
  {
    match FindByEmail(users, email)
    case None => (None, users)
    case Some(i) =>
      var u := users[i];
      if Given(u.passwordHash) && check(u.passwordHash.value, password) then
        var logged := u.(lastLogin := Some(now));
        (Some(logged), users[i := logged])
      else (None, users)
  }

  /** A user created without a password can never log in with one. */
  lemma PasswordlessNeverAuthenticates(users: seq<User>, email: string, googleId: Option<string>,
                                       name: Option<string>, profilePicture: Option<string>, now: int,
                                       hash: string -> string, password: string, later: int,
                                       check: (string, string) -> bool)
    requires CreatedUser(users, email, None, name, googleId, profilePicture, now, hash).Success?
    ensures var created := CreatedUser(users, email, None, name, googleId, profilePicture, now, hash).value;
      Authenticated(created, email, password, later, check).0 == None
  {
    var created := CreatedUser(users, email, None, name, googleId, profilePicture, now, hash).value;
    var n := |users|;
    assert created[..n] == users;
    assert forall i :: 0 <= i < n ==> created[i].email != email by {
      forall i | 0 <= i < n ensures created[i].email != email {
        assert created[i] == users[i];
      }
    }
    var r := FindByEmail(created, email);
    assert r == Some(n);
  }

  /** A user created with a password logs in with it, when the checker accepts the password's hash. */
  lemma CreatedUserAuthenticates(users: seq<User>, email: string, password: string, name: Option<string>,
                                 googleId: Option<string>, profilePicture: Option<string>, now: int,
                                 hash: string -> string, later: int, check: (string, string) -> bool)
    requires password != "" && hash(password) != "" && check(hash(password), password)
    requires CreatedUser(users, email, Some(password), name, googleId, profilePicture, now, hash).Success?
    ensures var created := CreatedUser(users, email, Some(password), name, googleId, profilePicture, now, hash).value;
      var r := Authenticated(created, email, password, later, check);
      r.0 == Some(created[|users|].(lastLogin := Some(later))) && r.1 == created[|users| := r.0.value]
  {
    var created := CreatedUser(users, email, Some(password), name, googleId, profilePicture, now, hash).value;
    var n := |users|;
    assert created[..n] == users;
    assert forall i :: 0 <= i < n ==> created[i].email != email by {
      forall i | 0 <= i < n ensures created[i].email != email {
        assert created[i] == users[i];
      }
    }
    assert FindByEmail(created, email) == Some(n);
  }

  // ---------------------------------------------------------------- sessions

  /** Session lifetimes in seconds: 24 hours, or 30 days with remember-me. */
  const DaySeconds := 86400
  const RememberSeconds := 30 * 86400

  function SessionExpiry(now: int, rememberMe: bool): (t: int)
    ensures t > now
    ensures rememberMe ==> t == now + 2592000
    ensures !rememberMe ==> t == now + 86400
  {
    if rememberMe then now + RememberSeconds else now + DaySeconds
  }

  /**
   * create_session: a new active session row for the token, created now; the unique token column
   * makes an insert with a token already in use fail and change nothing.
   */
  function CreatedSession(sessions: map<string, UserSession>, userId: int, rememberMe: bool, token: string,
                          now: int): (r: Result<map<string, UserSession>, string>)
    ensures r.Failure? <==> token in sessions
    ensures r.Success? ==> r.value == sessions[token := NewUserSession(userId, token, now, SessionExpiry(now, rememberMe))]
  {
    if token in sessions then Failure("UNIQUE constraint failed")
    else Success(sessions[token := NewUserSession(userId, token, now, SessionExpiry(now, rememberMe))])
  }

  /**
   * validate_session: nothing for an unknown or inactive token; an expired one is deactivated and
   * gives nothing; otherwise the session's user, with nothing changed.
   */
  function Validated(users: seq<User>, sessions: map<string, UserSession>, token: string, now: int)
    : (r: (Option<User>, map<string, UserSession>))
    ensures r.0.Some? ==>
      token in sessions && sessions[token].isActive && now <= sessions[token].expiresAt &&
      r.0 == UserById(users, sessions[token].userId)
    ensures token in sessions && sessions[token].isActive && now > sessions[token].expiresAt ==>
      r.0.None? && r.1 == sessions[token := sessions[token].(isActive := false)]
    ensures !(token in sessions && sessions[token].isActive && now > sessions[token].expiresAt) ==> r.1 == sessions
    ensures token in sessions && sessions[token].isActive && now <= sessions[token].expiresAt ==>
      r == (UserById(users, sessions[token].userId), sessions)
  {
    if token !in sessions || !sessions[token].isActive then (None, sessions)
    else
      var s := sessions[token];
      if now > s.expiresAt then (None, sessions[token := s.(isActive := false)])
      else (UserById(users, s.userId), sessions)
  }

  /** logout_session: the token's session, if any, becomes inactive. */
  function LoggedOut(sessions: map<string, UserSession>, token: string): (r: map<string, UserSession>)
    ensures r.Keys == sessions.Keys
    ensures token in sessions ==> r[token] == sessions[token].(isActive := false)
    ensures forall t :: t in sessions && t != token ==> r[t] == sessions[t]
  {
    if token in sessions then sessions[token := sessions[token].(isActive := false)] else sessions
  }

  /** logout_all_sessions: every active session of the user becomes inactive. */
  function LoggedOutAll(sessions: map<string, UserSession>, userId: int): (r: map<string, UserSession>)
    ensures r.Keys == sessions.Keys
    ensures forall t :: t in sessions && sessions[t].userId == userId ==> r[t] == sessions[t].(isActive := false)
    ensures forall t :: t in sessions && sessions[t].userId != userId ==> r[t] == sessions[t]
  {
    map t | t in sessions ::
      if sessions[t].userId == userId && sessions[t].isActive then sessions[t].(isActive := false) else sessions[t]
  }

  /** A fresh session gives its user until it expires. */
  lemma CreatedSessionValidates(users: seq<User>, sessions: map<string, UserSession>, userId: int,
                                rememberMe: bool, token: string, now: int, later: int)
    requires token !in sessions && later <= SessionExpiry(now, rememberMe)
    ensures var created := CreatedSession(sessions, userId, rememberMe, token, now).value;
      Validated(users, created, token, later) == (UserById(users, userId), created)
  {
  }

  /** After its expiry a fresh session gives nothing and is deactivated. */
  lemma CreatedSessionExpires(users: seq<User>, sessions: map<string, UserSession>, userId: int,
                              rememberMe: bool, token: string, now: int, later: int)
    requires token !in sessions && later > SessionExpiry(now, rememberMe)
    ensures var created := CreatedSession(sessions, userId, rememberMe, token, now).value;
      var r := Validated(users, created, token, later);
      r.0 == None && !r.1[token].isActive
  {
  }

  /** A token that failed validation fails again, at any later or earlier time. */
  lemma FailedValidationIsFinal(users: seq<User>, sessions: map<string, UserSession>, token: string,
                                now: int, again: int)
    requires Validated(users, sessions, token, now).0 == None
    ensures Validated(users, Validated(users, sessions, token, now).1, token, again).0 == None
  {
  }

  /** A logged-out token never validates again. */
  lemma LoggedOutNeverValidates(users: seq<User>, sessions: map<string, UserSession>, token: string, now: int)
    ensures Validated(users, LoggedOut(sessions, token), token, now).0 == None
  {
  }

  /** Logging out twice is logging out once. */
  lemma LoggedOutIdempotent(sessions: map<string, UserSession>, token: string)
    ensures LoggedOut(LoggedOut(sessions, token), token) == LoggedOut(sessions, token)
  {
  }

  /** After logging a user out everywhere none of their tokens validates; other users keep theirs. */
  lemma LoggedOutAllNeverValidates(users: seq<User>, sessions: map<string, UserSession>, userId: int,
                                   token: string, now: int)
    requires token in sessions && sessions[token].userId == userId
    ensures Validated(users, LoggedOutAll(sessions, userId), token, now).0 == None
  {
  }

  // ---------------------------------------------------------------- Google sign-in address

  const GoogleAuthBase := "https://accounts.google.com/o/oauth2/v2/auth"
  const DefaultClientId := "your-google-client-id"

  /** The query parameters of the sign-in address, in order; the client id defaults when unset. */
  function AuthParams(clientId: Option<string>, redirectUri: string): (ps: seq<(string, string)>)
    ensures |ps| == 5
    ensures ps[0] == ("client_id", if clientId.Some? then clientId.value else DefaultClientId)
    ensures ps[1] == ("redirect_uri", redirectUri)
    ensures ps[2..] == [("scope", "openid email profile"), ("response_type", "code"), ("access_type", "offline")]
  {
    [("client_id", if clientId.Some? then clientId.value else DefaultClientId),
     ("redirect_uri", redirectUri),
     ("scope", "openid email profile"),
     ("response_type", "code"),
     ("access_type", "offline")]
  }

  /** key=value for each parameter, without percent-encoding. */
  function Pairs(ps: seq<(string, string)>): (parts: seq<string>)
    ensures |parts| == |ps|
    ensures forall i :: 0 <= i < |ps| ==> parts[i] == ps[i].0 + "=" + ps[i].1
  {
    seq(|ps|, i requires 0 <= i < |ps| => ps[i].0 + "=" + ps[i].1)
  }

  /** get_google_auth_url: the base address, '?', and the key=value pairs joined by '&'. */
  function GoogleAuthUrl(clientId: Option<string>, redirectUri: string): (url: string)
    ensures |url| > |GoogleAuthBase| && url[..|GoogleAuthBase| + 1] == GoogleAuthBase + "?"
  {
    var url := GoogleAuthBase + "?" + JoinWith(Pairs(AuthParams(clientId, redirectUri)), '&');
    assert url[..|GoogleAuthBase| + 1] == GoogleAuthBase + "?";
    url
  }

  /** Reading one key=value pair back: the key ends at the first '='. */
  function ParsePair(part: string): (string, string)
  {
    match FirstIndex(part, '=')
    case None => (part, "")
    case Some(i) => (part[..i], part[i + 1..])
  }

  /** Reading the query string back. */
  function ParseQuery(query: string): (ps: seq<(string, string)>)
  {
    var parts := SplitOn(query, '&');
    seq(|parts|, i requires 0 <= i < |parts| => ParsePair(parts[i]))
  }

  lemma ParsePairOf(key: string, value: string)
    requires '=' !in key
    ensures ParsePair(key + "=" + value) == (key, value)
  {
    FirstIndexAfter(key, '=', value);
    assert (key + "=" + value)[..|key|] == key;
    assert (key + "=" + value)[|key| + 1..] == value;
  }

  /** Parameters that survive the join: no '&' anywhere and no '=' in a key. */
  predicate Separable(ps: seq<(string, string)>)
  {
    forall i :: 0 <= i < |ps| ==> '&' !in ps[i].0 && '=' !in ps[i].0 && '&' !in ps[i].1
  }

  /** Reading a joined query string back gives its parameters, when they are separable. */
  lemma QueryRoundTrip(ps: seq<(string, string)>)
    requires |ps| >= 1 && Separable(ps)
    ensures ParseQuery(JoinWith(Pairs(ps), '&')) == ps
  {
    var parts := Pairs(ps);
    forall i | 0 <= i < |parts|
      ensures '&' !in parts[i]
    {
      assert parts[i] == ps[i].0 + "=" + ps[i].1;
    }
    SplitJoin(parts, '&');
    forall i | 0 <= i < |ps|
      ensures ParsePair(parts[i]) == ps[i]
    {
      ParsePairOf(ps[i].0, ps[i].1);
    }
  }

  /** The fixed parameter names and values contain neither separator. */
  lemma AuthParamsSeparable(clientId: Option<string>, redirectUri: string)
    requires clientId.Some? ==> '&' !in clientId.value
    requires '&' !in redirectUri
    ensures Separable(AuthParams(clientId, redirectUri))
  {
    FixedKeysSeparable();
    FixedValuesSeparable();
  }

  /** The parameter names contain neither separator. */
  lemma FixedKeysSeparable()
    ensures '&' !in "client_id" && '=' !in "client_id"
    ensures '&' !in "redirect_uri" && '=' !in "redirect_uri"
    ensures '&' !in "scope" && '=' !in "scope"
    ensures '&' !in "response_type" && '=' !in "response_type"
    ensures '&' !in "access_type" && '=' !in "access_type"
  {
  }

  /** The fixed parameter values contain no '&'. */
  lemma FixedValuesSeparable()
    ensures '&' !in DefaultClientId && '&' !in "openid email profile" && '&' !in "code" && '&' !in "offline"
  {
  }

  /**
   * The parameters read back from the address are the ones it was built from, as long as the
   * client id and the redirect address contain no '&'.
   */
  lemma GoogleAuthUrlRoundTrip(clientId: Option<string>, redirectUri: string)
    requires clientId.Some? ==> '&' !in clientId.value
    requires '&' !in redirectUri
    ensures ParseQuery(GoogleAuthUrl(clientId, redirectUri)[|GoogleAuthBase| + 1..]) == AuthParams(clientId, redirectUri)
  {
    var ps := AuthParams(clientId, redirectUri);
    var query := JoinWith(Pairs(ps), '&');
    assert GoogleAuthUrl(clientId, redirectUri)[|GoogleAuthBase| + 1..] == query;
    AuthParamsSeparable(clientId, redirectUri);
    QueryRoundTrip(ps);
  }

  // ---------------------------------------------------------------- the manager

  /** The users table (id = position + 1) and the sessions table keyed by token. */
  class AuthManager {
    var users: seq<User>
    var sessions: map<string, UserSession>

    constructor ()
      ensures users == [] && sessions == map[]
    {
      users := [];
      sessions := map[];
    }

    /** create_user; the password hash comes from the given hash function. */
    method CreateUser(email: string, password: Option<string>, name: Option<string>, googleId: Option<string>,
                      profilePicture: Option<string>, now: int, hash: string -> string)
      returns (r: Result<User, string>)
      modifies this`users
      ensures var c := CreatedUser(old(users), email, password, name, googleId, profilePicture, now, hash);
        (c.Failure? ==> r.Failure? && users == old(users)) &&
        (c.Success? ==> r.Success? && users == c.value && r.value == users[|users| - 1])
    {
      if Clashes(users, email, googleId) {
        return Failure("UNIQUE constraint failed");
      }
      var passwordHash := if Given(password) then Some(hash(password.value)) else None;
      var userName := if Given(name) then name.value else EmailLocalPart(email);
      var user := User(email, passwordHash, userName, googleId, profilePicture, now, None, true);
      users := users + [user];
      r := Success(user);
    }

    /** authenticate_user; the password check comes from the given checker. */
    method AuthenticateUser(email: string, password: string, now: int, check: (string, string) -> bool)
      returns (r: Option<User>)
      modifies this`users
      ensures (r, users) == Authenticated(old(users), email, password, now, check)
    {
      var found := FindByEmail(users, email);
      if found.Some? {
        var user := users[found.value];
        if Given(user.passwordHash) && check(user.passwordHash.value, password) {
          user := user.(lastLogin := Some(now));
          users := users[found.value := user];
          return Some(user);
        }
      }
      return None;
    }

    /** create_session; the token is the freshly generated one. */
    method CreateSession(userId: int, rememberMe: bool, token: string, now: int)
      returns (r: Result<string, string>)
      modifies this`sessions
      ensures var c := CreatedSession(old(sessions), userId, rememberMe, token, now);
        (c.Failure? ==> r.Failure? && sessions == old(sessions)) &&
        (c.Success? ==> r == Success(token) && sessions == c.value)
    {
      if token in sessions {
        return Failure("UNIQUE constraint failed");
      }
      var expiresAt := if rememberMe then now + RememberSeconds else now + DaySeconds;
      sessions := sessions[token := NewUserSession(userId, token, now, expiresAt)];
      r := Success(token);
    }

    /** validate_session. */
    method ValidateSession(token: string, now: int) returns (r: Option<User>)
      modifies this`sessions
      ensures (r, sessions) == Validated(users, old(sessions), token, now)
    {
      if token !in sessions || !sessions[token].isActive {
        return None;
      }
      var session := sessions[token];
      if now > session.expiresAt {
        sessions := sessions[token := session.(isActive := false)];
        return None;
      }
      r := UserById(users, session.userId);
    }

    /** logout_session. */
    method LogoutSession(token: string)
      modifies this`sessions
      ensures sessions == LoggedOut(old(sessions), token)
    {
      if token in sessions {
        sessions := sessions[token := sessions[token].(isActive := false)];
      }
    }

    /** logout_all_sessions: one bulk update of the user's active sessions. */
    method LogoutAllSessions(userId: int)
      modifies this`sessions
      ensures sessions == LoggedOutAll(old(sessions), userId)
    {
      sessions := map t | t in sessions ::
        if sessions[t].userId == userId && sessions[t].isActive then sessions[t].(isActive := false) else sessions[t];
    }
  }
}
