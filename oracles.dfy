/** The collaborators the core calls but this model does not implement:
    token signing and verification with the server's secret key, password
    hashing and comparison, the store's id generator and the clock. Each is
    a parameter, so every property holds whatever they do. */
module Oracles {
  import opened Values

  datatype Env = Env(
    /** `jwt.verify(token, key)._id`: `None` for a bad signature, a malformed
        or expired token, or one that carries no id. */
    verify: string -> Option<string>,
    /** `jwt.sign({ _id }, key)`: `None` when signing throws. */
    sign: string -> Option<string>,
    /** `bcrypt.compare(plain, stored)`: `None` when it throws. */
    compare: (string, string) -> Option<bool>,
    /** The save hook's `bcrypt.hash` of a new password. */
    hash: string -> string,
    /** The id the store assigns to the next created document. */
    newId: string,
    /** The current time, for the store's timestamps. */
    now: int)
}
