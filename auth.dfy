/**
 * The session authenticator (`AuthManager` in auth.py): a user table and a session table,
 * both dictionaries updated in place. Time is an explicit `now` (seconds); the salt of the
 * password hash and the random session token are parameters supplied by the caller.
 */
module Auth {

  import opened Wrappers

  /** Session lifetime: 24 hours, in seconds. */
  const SESSION_DURATION: int := 24 * 60 * 60

  const DUPLICATE_USER: string := "Username already exists"
  const INVALID_CREDENTIALS: string := "Invalid username or password"

  /**
   * A salted password hash. The model identifies a hash with the salt and the password it was
   * made from, so a password checks against a hash exactly when it is the hashed password.
   */
  datatype PasswordHash = Bcrypt(salt: nat, password: string)

  function HashPassword(password: string, salt: nat): PasswordHash
  {
    Bcrypt(salt, password)
  }

  predicate CheckPassword(password: string, hash: PasswordHash)
  {
    hash.password == password
  }

  datatype User = User(id: nat, username: string, passwordHash: PasswordHash, createdAt: int)

  datatype Session = Session(userId: nat, username: string, expiry: int)

  /** A session has expired once the clock is strictly past its expiry; the expiry instant itself is still valid. */
  predicate Expired(s: Session, now: int)
  {
    now > s.expiry
  }

  /** The set of user ids in a user table. */
  function Ids(users: map<string, User>): set<nat>
  {
    set u | u in users :: users[u].id
  }

  /** The ids 1..n. */
  function IdRange(n: nat): (r: set<nat>)
    ensures forall i :: i in r <==> 1 <= i <= n
  {
    if n == 0 then {} else IdRange(n - 1) + {n}
  }

  /** Every user is stored under its own name. */
  ghost predicate KeyedByName(users: map<string, User>)
  {
    forall u :: u in users ==> users[u].username == u
  }

  /** No two users share an id. */
  ghost predicate DistinctIds(users: map<string, User>)
  {
    forall u, v :: u in users && v in users && u != v ==> users[u].id != users[v].id
  }

  /**
   * Users are keyed by their own name, their ids are pairwise distinct, and the ids are
   * exactly 1..n for n users.
   */
  ghost predicate WellNumbered(users: map<string, User>)
  {
    KeyedByName(users) && DistinctIds(users) && Ids(users) == IdRange(|users|)
  }

  /** Inserting a user under a new name adds exactly its id to the id set. */
  lemma IdsOfInsert(users: map<string, User>, user: User)
    requires user.username !in users
    ensures Ids(users[user.username := user]) == Ids(users) + {user.id}
  {
    var users' := users[user.username := user];
    forall i | i in Ids(users') ensures i in Ids(users) + {user.id} {
      var u :| u in users' && users'[u].id == i;
      if u != user.username {
        assert u in users && users[u].id == i;
      }
    }
    forall i | i in Ids(users) ensures i in Ids(users') {
      var u :| u in users && users[u].id == i;
      assert u in users' && users'[u].id == i;
    }
    assert users'[user.username].id == user.id;
  }

  /** A user with an unused id, under a new name, keeps the ids distinct. */
  lemma InsertKeepsDistinct(users: map<string, User>, user: User)
    requires DistinctIds(users)
    requires user.username !in users && user.id !in Ids(users)
    ensures DistinctIds(users[user.username := user])
  {
    var users' := users[user.username := user];
    forall u, v | u in users' && v in users' && u != v ensures users'[u].id != users'[v].id {
      if u == user.username {
        assert users'[v] == users[v] && users[v].id in Ids(users);
      } else if v == user.username {
        assert users'[u] == users[u] && users[u].id in Ids(users);
      }
    }
  }

  /** Adding a user under a new name with id n + 1 keeps the numbering 1..n+1 and distinct. */
  lemma RegisterKeepsNumbering(users: map<string, User>, user: User)
    requires WellNumbered(users)
    requires user.username !in users && user.id == |users| + 1
    ensures WellNumbered(users[user.username := user])
  {
    var users' := users[user.username := user];
    var n := |users|;
    assert |users'| == n + 1;
    assert user.id !in IdRange(n);
    InsertKeepsDistinct(users, user);
    IdsOfInsert(users, user);
    assert IdRange(n + 1) == IdRange(n) + {n + 1};
  }

  class AuthManager {
    var users: map<string, User>
    var sessions: map<string, Session>
    const sessionDuration: int

    /** Every session belongs to a registered user and carries that user's id. */
    ghost predicate Valid()
      reads this
    {
      && sessionDuration == SESSION_DURATION
      && WellNumbered(users)
      && (forall t :: t in sessions ==>
            sessions[t].username in users && users[sessions[t].username].id == sessions[t].userId)
    }

    constructor ()
      ensures Valid()
      ensures users == map[] && sessions == map[]
    {
      users := map[];
      sessions := map[];
      sessionDuration := SESSION_DURATION;
      new;
      assert Ids(users) == {};
    }

    /**
     * Registers a new user with id |users| + 1 and a salted hash of the password.
     * A name already taken raises and leaves both tables unchanged.
     */
    method RegisterUser(username: string, password: string, salt: nat, now: int) returns (r: Result<nat, string>)
      requires Valid()
      modifies this
      ensures Valid()
      ensures sessions == old(sessions)
      ensures username in old(users) ==> r == Failure(DUPLICATE_USER) && users == old(users)
      ensures username !in old(users) ==>
        && r == Success(|old(users)| + 1)
        && users == old(users)[username := User(|old(users)| + 1, username, HashPassword(password, salt), now)]
        && |users| == |old(users)| + 1
    {
      if username in users {
        return Failure(DUPLICATE_USER);
      }
      var hashed := HashPassword(password, salt);
      var userId := |users| + 1;
      var user := User(userId, username, hashed, now);
      RegisterKeepsNumbering(users, user);
      users := users[username := user];
      r := Success(userId);
    }

    /**
     * Logs a user in: on success the given token is mapped to a session for that user that
     * expires SESSION_DURATION after `now`. An unknown name and a wrong password raise the
     * same error and change nothing. A token already present would be overwritten.
     */
    method LoginUser(username: string, password: string, token: string, now: int) returns (r: Result<string, string>)
      requires Valid()
      modifies this
      ensures Valid()
      ensures users == old(users)
      ensures r.Success? <==> username in users && CheckPassword(password, users[username].passwordHash)
      ensures r.Failure? ==> r.error == INVALID_CREDENTIALS && sessions == old(sessions)
      ensures r.Success? ==>
        && r.value == token
        && sessions == old(sessions)[token := Session(users[username].id, username, now + SESSION_DURATION)]
      ensures r.Success? && token !in old(sessions) ==> |sessions| == |old(sessions)| + 1
    {
      if username !in users {
        return Failure(INVALID_CREDENTIALS);
      }
      var user := users[username];
      if !CheckPassword(password, user.passwordHash) {
        return Failure(INVALID_CREDENTIALS);
      }
      var expiry := now + sessionDuration;
      sessions := sessions[token := Session(user.id, username, expiry)];
      r := Success(token);
    }

    /**
     * A token is valid when it names a session that has not expired. An expired session is
     * deleted on the spot (lazy expiry); an unknown token changes nothing.
     */
    method ValidateSession(token: string, now: int) returns (valid: bool)
      requires Valid()
      modifies this
      ensures Valid()
      ensures users == old(users)
      ensures valid <==> token in old(sessions) && !Expired(old(sessions)[token], now)
      ensures sessions ==
        if token in old(sessions) && Expired(old(sessions)[token], now)
        then old(sessions) - {token}
        else old(sessions)
    {
      if token !in sessions {
        return false;
      }
      var session := sessions[token];
      if now > session.expiry {
        sessions := sessions - {token};
        return false;
      }
      valid := true;
    }

    /** The id of a registered user (between 1 and the number of users), or None. */
    function GetUserId(username: string): (id: Option<nat>)
      reads this
      ensures id.Some? <==> username in users
      ensures id.Some? ==> id.value == users[username].id
      ensures Valid() && id.Some? ==> 1 <= id.value <= |users|
    {
      if username in users then
        assert Valid() ==> users[username].id in Ids(users);
        Some(users[username].id)
      else None
    }

    /**
     * Deletes every expired session: what remains is exactly the sessions that had not expired,
     * each with its record unchanged, so no session left is expired.
     */
    method CleanupExpiredSessions(now: int)
      requires Valid()
      modifies this
      ensures Valid()
      ensures users == old(users)
      ensures sessions == map t | t in old(sessions) && !Expired(old(sessions)[t], now) :: old(sessions)[t]
      ensures forall t :: t in sessions ==> !Expired(sessions[t], now)
    {
      var expired := set t | t in sessions && now > sessions[t].expiry;
      ghost var allExpired := expired;
      while expired != {}
        invariant Valid()
        invariant users == old(users)
        invariant expired <= allExpired
        invariant sessions == old(sessions) - (allExpired - expired)
        decreases expired
      {
        var t :| t in expired;
        sessions := sessions - {t};
        expired := expired - {t};
      }
      assert sessions.Keys == set t | t in old(sessions) && !Expired(old(sessions)[t], now);
    }
  }
}
