/** The user document: its fields, the hook that runs before every `save`,
    and the methods that check a password and mint the two kinds of token. */
module UserModel {
  import opened Common
  import opened Crypto

  /** A stored account. `password` holds what the pre-save hook stored in
      place of the plain password; `refreshToken` is absent until a login. */
  datatype Account = Account(
    username: string,
    email: string,
    fullName: string,
    password: string,
    avatar: string,
    coverImage: string,
    refreshToken: Option<string>)

  /** An account as `.select('-password -refreshToken')` returns it. */
  datatype PublicUser = PublicUser(
    id: Id,
    username: string,
    email: string,
    fullName: string,
    avatar: string,
    coverImage: string)

  function Project(id: Id, acc: Account): PublicUser
  {
    PublicUser(id, acc.username, acc.email, acc.fullName, acc.avatar, acc.coverImage)
  }

  /** The projection hides exactly the password and the refresh token: two
      accounts look the same through it iff they agree on every other field. */
  lemma ProjectHidesSecrets(id: Id, a: Account, b: Account)
    ensures Project(id, a) == Project(id, b)
        <==> a.(password := b.password, refreshToken := b.refreshToken) == b
  {
    if Project(id, a) == Project(id, b) {
      assert a.username == Project(id, a).username == b.username;
      assert a.email == Project(id, a).email == b.email;
      assert a.fullName == Project(id, a).fullName == b.fullName;
      assert a.avatar == Project(id, a).avatar == b.avatar;
      assert a.coverImage == Project(id, a).coverImage == b.coverImage;
    }
  }

  /** The pre-save hook: when the save modified `password`, the stored value is
      replaced by its digest; otherwise the document is saved as it is. */
  function PreSave(acc: Account, passwordModified: bool, prims: Primitives, salt: nat): (r: Account)
    ensures r.(password := acc.password) == acc
    ensures !passwordModified ==> r == acc
    ensures passwordModified ==> r.password == prims.hash(acc.password, salt)
  {
    if !passwordModified then acc
    else acc.(password := prims.hash(acc.password, salt))
  }

  /** `isPasswordCorrect`: bcrypt's comparison of the plain text with the stored digest. */
  function IsPasswordCorrect(acc: Account, plain: string, prims: Primitives): bool
  {
    prims.compare(plain, acc.password)
  }

  /** A save that does not touch the password (as after storing a refresh
      token) leaves every password check answering as before. */
  lemma PasswordCheckSurvivesTokenSave(acc: Account, token: Option<string>, plain: string, prims: Primitives, salt: nat)
    ensures IsPasswordCorrect(PreSave(acc.(refreshToken := token), false, prims, salt), plain, prims)
         == IsPasswordCorrect(acc, plain, prims)
  {
  }

  /** The access token's payload: the id and the three profile fields. */
  function AccessClaims(id: Id, acc: Account): Claims
  {
    Claims(Some(id), Some(acc.username), Some(acc.email), Some(acc.fullName))
  }

  /** The refresh token's payload: the id only. */
  function RefreshClaims(id: Id): Claims
  {
    Claims(Some(id), None, None, None)
  }

  /** `generateAccessToken`: signed with the access secret and the access expiry. */
  function GenerateAccessToken(id: Id, acc: Account, cfg: Config, prims: Primitives, now: int): string
  {
    prims.sign(AccessClaims(id, acc), cfg.accessSecret, cfg.accessExpiry, now)
  }

  /** `generateRefreshToken`: signed with the refresh secret and the refresh expiry. */
  function GenerateRefreshToken(id: Id, cfg: Config, prims: Primitives, now: int): string
  {
    prims.sign(RefreshClaims(id), cfg.refreshSecret, cfg.refreshExpiry, now)
  }

  /** Each kind of token uses its own key: the access token does not depend
      on the refresh secret or expiry, and the refresh token depends neither on
      the access secret or expiry nor on any field of the account. */
  lemma TokenKeysAreSeparate(id: Id, acc: Account, cfg: Config, prims: Primitives, now: int, secret: string, expiry: string)
    ensures GenerateAccessToken(id, acc, cfg.(refreshSecret := secret, refreshExpiry := expiry), prims, now)
         == GenerateAccessToken(id, acc, cfg, prims, now)
    ensures GenerateRefreshToken(id, cfg.(accessSecret := secret, accessExpiry := expiry), prims, now)
         == GenerateRefreshToken(id, cfg, prims, now)
  {
  }

  /** The two payloads differ: the refresh payload carries the id and no
      profile field, the access payload carries the account's profile. */
  lemma RefreshPayloadCarriesOnlyId(id: Id, acc: Account)
    ensures RefreshClaims(id).id == AccessClaims(id, acc).id == Some(id)
    ensures RefreshClaims(id).username.None? && RefreshClaims(id).email.None? && RefreshClaims(id).fullName.None?
    ensures AccessClaims(id, acc).username == Some(acc.username)
    ensures AccessClaims(id, acc).email == Some(acc.email)
    ensures AccessClaims(id, acc).fullName == Some(acc.fullName)
  {
  }
}
