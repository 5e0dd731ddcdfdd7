/** The account handlers: registration, login (with the helper that issues a
    token pair and stores the refresh token) and logout. */
module Users {
  import opened Common
  import opened Crypto
  import opened Strings
  import opened UserModel
  import opened Store

  datatype TokenPair = TokenPair(accessToken: string, refreshToken: string)

  /** The body of a successful login: the account without its secrets and both tokens. */
  datatype LoginData = LoginData(user: PublicUser, accessToken: string, refreshToken: string)

  /** The users collection after `user.refreshToken = token; user.save()` on
      account `id`: only that account changes, and only its refresh token,
      since the pre-save hook leaves an unmodified password alone. */
  function SaveRefreshToken(users: map<Id, Account>, id: Id, token: string, prims: Primitives, salt: nat): (r: map<Id, Account>)
    requires id in users
    ensures r.Keys == users.Keys
    ensures r[id].refreshToken == Some(token)
    ensures r[id].(refreshToken := users[id].refreshToken) == users[id]
    ensures forall k :: k in users && k != id ==> r[k] == users[k]
  {
    users[id := PreSave(users[id].(refreshToken := Some(token)), false, prims, salt)]
  }

  /** The users collection after logout's `$set: {refreshToken: undefined}`
      on account `id`; an id that names no account matches nothing. */
  function ClearRefreshToken(users: map<Id, Account>, id: Id): (r: map<Id, Account>)
    ensures r.Keys == users.Keys
    ensures id in users ==> r[id].refreshToken.None?
    ensures id in users ==> r[id].(refreshToken := users[id].refreshToken) == users[id]
    ensures forall k :: k in users && k != id ==> r[k] == users[k]
  {
    if id in users then users[id := users[id].(refreshToken := None)] else users
  }

  /** `generateAccessAndRefreshToken`: mints both tokens for account `id` and
      stores the refresh token in it; the refresh token returned is the one
      stored. For an unknown id, `user` is null and the TypeError is rethrown
      as a 500. */
  method GenerateAccessAndRefreshToken(db: Db, id: Id, cfg: Config, prims: Primitives, now: int, salt: nat)
    returns (r: Result<TokenPair>)
    requires db.Valid()
    modifies db
    ensures db.Valid()
    ensures db.videos == old(db.videos) && db.comments == old(db.comments) && db.nextId == old(db.nextId)
    ensures id !in old(db.users) ==>
      && r == Err(500, NullUserRead)
      && db.users == old(db.users)
    ensures id in old(db.users) ==>
      && r == Ok(TokenPair(GenerateAccessToken(id, old(db.users)[id], cfg, prims, now),
                           GenerateRefreshToken(id, cfg, prims, now)))
      && db.users == SaveRefreshToken(old(db.users), id, r.value.refreshToken, prims, salt)
  {
    if id !in db.users {
      return Err(500, NullUserRead);
    }
    var user := db.users[id];
    var accessToken := GenerateAccessToken(id, user, cfg, prims, now);
    var refreshToken := GenerateRefreshToken(id, cfg, prims, now);
    user := user.(refreshToken := Some(refreshToken));
    db.users := db.users[id := PreSave(user, false, prims, salt)];
    r := Ok(TokenPair(accessToken, refreshToken));
  }

  /** How `[username, email, fullName, password].some(f => f.trim() === '')` ends. */
  datatype FieldCheck = Filled | Blank | Undefined

  /** A present field that is not blank after trimming. */
  predicate IsFilled(field: Option<string>)
  {
    field.Some? && !AllWhitespace(field.value)
  }

  /** The field check, left to right: the first field that is not filled
      decides; a blank one makes the check answer true, an undefined one makes
      `trim` throw. */
  function ScanFields(fields: seq<Option<string>>): (r: FieldCheck)
    ensures r == Filled <==> forall i :: 0 <= i < |fields| ==> IsFilled(fields[i])
    ensures r != Filled ==>
      exists i :: && 0 <= i < |fields| && !IsFilled(fields[i])
                  && (forall j :: 0 <= j < i ==> IsFilled(fields[j]))
                  && (r == Undefined <==> fields[i].None?)
    decreases |fields|
  {
    if fields == [] then Filled
    else
      match fields[0]
      case None => Undefined
      case Some(f) =>
        TrimEmptyIff(f);
        if Trim(f) == "" then Blank
        else
          var rest := ScanFields(fields[1..]);
          ScanPastFilled(fields, rest);
          rest
  }

  /** Past a filled first field, what the scan of the rest establishes holds of the whole list. */
  lemma ScanPastFilled(fields: seq<Option<string>>, rest: FieldCheck)
    requires fields != [] && IsFilled(fields[0])
    requires rest == Filled <==> forall i :: 0 <= i < |fields[1..]| ==> IsFilled(fields[1..][i])
    requires rest != Filled ==>
      exists i :: && 0 <= i < |fields[1..]| && !IsFilled(fields[1..][i])
                  && (forall j :: 0 <= j < i ==> IsFilled(fields[1..][j]))
                  && (rest == Undefined <==> fields[1..][i].None?)
    ensures rest == Filled <==> forall i :: 0 <= i < |fields| ==> IsFilled(fields[i])
    ensures rest != Filled ==>
      exists i :: && 0 <= i < |fields| && !IsFilled(fields[i])
                  && (forall j :: 0 <= j < i ==> IsFilled(fields[j]))
                  && (rest == Undefined <==> fields[i].None?)
  {
    assert forall i :: 1 <= i < |fields| ==> fields[i] == fields[1..][i - 1];
    if rest != Filled {
      var k :| && 0 <= k < |fields[1..]| && !IsFilled(fields[1..][k])
               && (forall j :: 0 <= j < k ==> IsFilled(fields[1..][j]))
               && (rest == Undefined <==> fields[1..][k].None?);
      assert !IsFilled(fields[k + 1]);
      assert forall j :: 0 <= j < k + 1 ==> IsFilled(fields[j]);
    }
  }

  /** For the four registration fields the scan succeeds exactly when each is present and not blank. */
  lemma ScanRegistrationFields(username: Option<string>, email: Option<string>, fullName: Option<string>, password: Option<string>)
    ensures ScanFields([username, email, fullName, password]) == Filled
        <==> IsFilled(username) && IsFilled(email) && IsFilled(fullName) && IsFilled(password)
  {
    var fields := [username, email, fullName, password];
    assert fields[0] == username && fields[1] == email && fields[2] == fullName && fields[3] == password;
  }

  /** `User.find({$or: [{username}, {email}]})` finds a record: the values are
      compared as submitted, before lower-casing. */
  predicate AlreadyRegistered(users: map<Id, Account>, username: string, email: string)
  {
    exists k :: k in users && (users[k].username == username || users[k].email == email)
  }

  /** The document `User.create` stores for a registration that passed every
      check: user name and email lower-cased, no capital letter left in them,
      the cover image "" when none was uploaded, the password digested by the
      pre-save hook, and no refresh token. */
  function NewAccount(username: string, email: string, fullName: string, password: string,
                      avatar: Upload, coverImage: Option<Upload>, prims: Primitives, salt: nat): (a: Account)
    ensures a.username == ToLower(username) && a.email == ToLower(email)
    ensures forall i :: 0 <= i < |a.username| ==> !IsUpperAscii(a.username[i])
    ensures forall i :: 0 <= i < |a.email| ==> !IsUpperAscii(a.email[i])
    ensures a.password == prims.hash(password, salt)
    ensures a.coverImage == (if coverImage.Some? then coverImage.value.url else "")
    ensures a.avatar == avatar.url && a.fullName == fullName && a.refreshToken.None?
  {
    var created := Account(
      ToLower(username), ToLower(email), fullName, password, avatar.url,
      if coverImage.Some? && coverImage.value.url != "" then coverImage.value.url else "",
      None);
    PreSave(created, true, prims, salt)
  }

  /** The checks `registerUser` makes before it writes anything, in order:
      the field scan, the duplicate lookup, the avatar upload. `Ok(())` when
      all pass. */
  function CheckRegistration(users: map<Id, Account>, username: Option<string>, email: Option<string>,
                             fullName: Option<string>, password: Option<string>, avatar: Option<Upload>): (r: Result<()>)
    ensures ScanFields([username, email, fullName, password]) == Undefined ==> r.Crash?
    ensures ScanFields([username, email, fullName, password]) == Blank ==> r == Err(400, FieldsRequired)
    ensures IsFilled(username) && IsFilled(email) && IsFilled(fullName) && IsFilled(password)
              && AlreadyRegistered(users, username.value, email.value)
            ==> r == Err(400, UserExists)
    ensures IsFilled(username) && IsFilled(email) && IsFilled(fullName) && IsFilled(password)
              && !AlreadyRegistered(users, username.value, email.value) && avatar.None?
            ==> r == Err(400, AvatarRequired)
    ensures r.Ok? <==>
      && IsFilled(username) && IsFilled(email) && IsFilled(fullName) && IsFilled(password)
      && !AlreadyRegistered(users, username.value, email.value) && avatar.Some?
  {
    ScanRegistrationFields(username, email, fullName, password);
    match ScanFields([username, email, fullName, password])
    case Undefined => Crash("Cannot read properties of undefined (reading 'trim')")
    case Blank => Err(400, FieldsRequired)
    case Filled =>
      if AlreadyRegistered(users, username.value, email.value) then Err(400, UserExists)
      else if avatar.None? then Err(400, AvatarRequired)
      else Ok(())
  }

  /** `registerUser`. The uploads to the media host are its answers, passed in
      (None where no file was sent or the upload failed). A registration that
      fails a check writes nothing; one that passes them stores exactly the new
      account, under a fresh id, and answers with it minus its secrets. */
  method RegisterUser(db: Db, username: Option<string>, email: Option<string>, fullName: Option<string>,
                      password: Option<string>, avatar: Option<Upload>, coverImage: Option<Upload>,
                      prims: Primitives, salt: nat)
    returns (r: Result<PublicUser>)
    requires db.Valid()
    modifies db
    ensures db.Valid()
    ensures db.videos == old(db.videos) && db.comments == old(db.comments)
    ensures var check := CheckRegistration(old(db.users), username, email, fullName, password, avatar);
      && (!check.Ok? ==> r == check.Propagate() && db.users == old(db.users))
      && (check.Ok? ==>
            && r.Ok? && r.value.id !in old(db.users)
            && db.users == old(db.users)[r.value.id :=
                 NewAccount(username.value, email.value, fullName.value, password.value, avatar.value, coverImage, prims, salt)]
            && r.value == Project(r.value.id, db.users[r.value.id]))
  {
    var check := CheckRegistration(db.users, username, email, fullName, password, avatar);
    if !check.Ok? {
      return check.Propagate();
    }
    var created := NewAccount(username.value, email.value, fullName.value, password.value, avatar.value, coverImage, prims, salt);
    var id := db.InsertUser(created);
    r := Ok(Project(id, created));
  }

  /** `findOne({$or: [{username}, {email}]})` matches this account; a key
      that was not sent matches nothing. */
  predicate MatchesLogin(acc: Account, username: Option<string>, email: Option<string>)
  {
    || (username.Some? && acc.username == username.value)
    || (email.Some? && acc.email == email.value)
  }

  predicate SomeMatch(users: map<Id, Account>, username: Option<string>, email: Option<string>)
  {
    exists k :: k in users && MatchesLogin(users[k], username, email)
  }

  /** `loginUser`. `findOne` returns some matching account, whichever the
      database picks; the password is checked against that one. On success
      the stored refresh token is overwritten with the one returned. */
  method LoginUser(db: Db, username: Option<string>, email: Option<string>, password: Option<string>,
                   cfg: Config, prims: Primitives, now: int, salt: nat)
    returns (r: Result<LoginData>)
    requires db.Valid()
    modifies db
    ensures db.Valid()
    ensures db.videos == old(db.videos) && db.comments == old(db.comments)
    ensures db.nextId == old(db.nextId)
    ensures !r.Ok? ==> db.users == old(db.users)
    ensures !Truthy(username) && !Truthy(email) ==> r == Err(500, IdentifierMissing)
    ensures (Truthy(username) || Truthy(email)) && !SomeMatch(old(db.users), username, email)
            ==> r == Err(400, UserNotFound)
    ensures (Truthy(username) || Truthy(email)) && SomeMatch(old(db.users), username, email)
            ==> r.Ok? || r == Err(400, WrongPassword) || r.Crash?
    ensures r.Crash? ==> password.None?
    ensures r == Err(400, WrongPassword) ==>
      && password.Some?
      && exists k :: k in old(db.users) && MatchesLogin(old(db.users)[k], username, email)
                     && !IsPasswordCorrect(old(db.users)[k], password.value, prims)
    ensures r.Ok? ==>
      var id := r.value.user.id;
      && id in old(db.users)
      && MatchesLogin(old(db.users)[id], username, email)
      && password.Some? && IsPasswordCorrect(old(db.users)[id], password.value, prims)
      && r.value.accessToken == GenerateAccessToken(id, old(db.users)[id], cfg, prims, now)
      && r.value.refreshToken == GenerateRefreshToken(id, cfg, prims, now)
      && db.users == SaveRefreshToken(old(db.users), id, r.value.refreshToken, prims, salt)
      && db.users[id].refreshToken == Some(r.value.refreshToken)
      && r.value.user == Project(id, old(db.users)[id])
  {
    if !(Truthy(username) || Truthy(email)) {
      return Err(500, IdentifierMissing);
    }
    if !SomeMatch(db.users, username, email) {
      return Err(400, UserNotFound);
    }
    var id :| id in db.users && MatchesLogin(db.users[id], username, email);
    var user := db.users[id];
    if password.None? {
      return Crash("bcrypt.compare rejects a missing password");
    }
    if !IsPasswordCorrect(user, password.value, prims) {
      return Err(400, WrongPassword);
    }
    var tokens := GenerateAccessAndRefreshToken(db, id, cfg, prims, now, salt);
    var loggedIn := Project(id, db.users[id]);
    ProjectHidesSecrets(id, db.users[id], user);
    r := Ok(LoginData(loggedIn, tokens.value.accessToken, tokens.value.refreshToken));
  }

  /** `logoutUser`: clears the refresh token of the authenticated account and
      of no other. */
  method LogoutUser(db: Db, user: Id) returns (r: Result<()>)
    requires db.Valid()
    modifies db
    ensures db.Valid()
    ensures db.videos == old(db.videos) && db.comments == old(db.comments)
    ensures db.nextId == old(db.nextId)
    ensures r == Ok(())
    ensures db.users == ClearRefreshToken(old(db.users), user)
  {
    db.users := ClearRefreshToken(db.users, user);
    r := Ok(());
  }

  /** A second login overwrites the refresh token stored by the first: after
      it, the account holds the newest token and only that one. */
  lemma LatestLoginWins(users: map<Id, Account>, id: Id, first: string, second: string, prims: Primitives, s1: nat, s2: nat)
    requires id in users
    ensures var after := SaveRefreshToken(SaveRefreshToken(users, id, first, prims, s1), id, second, prims, s2);
            after == SaveRefreshToken(users, id, second, prims, s2)
  {
  }

  /** Logging out after a login leaves the account as it was before the login,
      except that it holds no refresh token at all. */
  lemma LogoutUndoesLogin(users: map<Id, Account>, id: Id, token: string, prims: Primitives, salt: nat)
    requires id in users
    ensures ClearRefreshToken(SaveRefreshToken(users, id, token, prims, salt), id)
         == users[id := users[id].(refreshToken := None)]
  {
  }
}
