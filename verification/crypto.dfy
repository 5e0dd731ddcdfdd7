/** The password hasher (bcrypt) and the token codec (JSON Web Tokens), kept
    abstract: the model never looks inside a digest or a token, so each
    primitive is a parameter that the handlers receive and pass along. */
module Crypto {
  import opened Common

  /** A token payload as `jwt.verify` decodes it; a claim the payload lacks is None. */
  datatype Claims = Claims(
    id: Option<Id>,
    username: Option<string>,
    email: Option<string>,
    fullName: Option<string>)

  /** The four primitives, as functions chosen once for a run of the server.
      - `hash(password, salt)`: the digest `bcrypt.hash(password, 10)` stores,
        `salt` standing for the randomness bcrypt draws;
      - `compare(plain, digest)`: `bcrypt.compare`;
      - `sign(claims, secret, expiresIn, now)`: `jwt.sign` at clock time `now`;
      - `verify(token, secret, now)`: `jwt.verify` at clock time `now`, None
        when it throws (bad signature, malformed or expired token). */
  datatype Primitives = Primitives(
    hash: (string, nat) -> string,
    compare: (string, string) -> bool,
    sign: (Claims, string, string, int) -> string,
    verify: (string, string, int) -> Option<Claims>)

  /** The values read from `process.env` when tokens are signed and checked. */
  datatype Config = Config(
    accessSecret: string,
    accessExpiry: string,
    refreshSecret: string,
    refreshExpiry: string)
}
