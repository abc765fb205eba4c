/**
 * An idealised bcrypt. `Hash` takes the salt that bcrypt draws at random as an
 * explicit argument and lays the hash out as prefix, salt, digest; the digest
 * here is the password itself, so the model is not one-way, but `Compare`
 * accepts a hash exactly for the password it was made from, which is what
 * every caller relies on.
 */
module Bcrypt {

  /** Algorithm tag and cost factor 10, as passed to `bcrypt.hash(p, 10)`. */
  const PREFIX := "$2a$10$"
  const SALT_LENGTH := 22

  type Salt = s: string | |s| == SALT_LENGTH
    witness "......................"

  /** `bcrypt.compare`: fails closed on anything that is not a well-formed hash. */
  predicate Compare(password: string, hash: string) {
    && |hash| == |PREFIX| + SALT_LENGTH + |password|
    && hash[..|PREFIX|] == PREFIX
    && hash[|PREFIX| + SALT_LENGTH..] == password
  }

  /** `bcrypt.hash`: the stored value is never the raw password, and it verifies exactly that password. */
  function Hash(password: string, salt: Salt): (h: string)
    ensures h != password
    ensures forall q :: Compare(q, h) <==> q == password
  {
    var h := PREFIX + salt + password;
    assert h[..|PREFIX|] == PREFIX;
    assert h[|PREFIX| + SALT_LENGTH..] == password;
    h
  }

  /** Hashing one password twice with fresh salts gives two different strings. */
  lemma SaltsSeparate(password: string, s1: Salt, s2: Salt)
    requires s1 != s2
    ensures Hash(password, s1) != Hash(password, s2)
  {
    assert Hash(password, s1)[|PREFIX|..|PREFIX| + SALT_LENGTH] == s1;
    assert Hash(password, s2)[|PREFIX|..|PREFIX| + SALT_LENGTH] == s2;
  }
}
