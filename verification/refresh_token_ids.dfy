/**
 * The refresh-token id store: one Redis entry per user, under the key
 * `user-<id>`, holding the id of the only refresh token that may still be
 * exchanged for a new token pair.
 *
 * `getKey` is declared over a string, but every caller hands it a numeric
 * user id (a database id or the numeric `sub` claim), so the key is the
 * template-literal rendering of a number. The model takes the id as a
 * `nat` and renders it in decimal.
 */
module RefreshTokenIds {
  import opened Outcomes

  /** The character of one decimal digit. */
  function Digit(d: nat): (c: char)
    requires d < 10
    ensures '0' <= c <= '9'
  {
    ('0' as int + d) as char
  }

  /** `${n}` for a non-negative integer id: its decimal digits, most significant first. */
  function DecimalString(n: nat): (s: string)
    ensures 1 <= |s|
    ensures n < 10 <==> |s| == 1
    ensures s[|s| - 1] == Digit(n % 10)
  {
    if n < 10 then [Digit(n)] else DecimalString(n / 10) + [Digit(n % 10)]
  }

  /** Distinct ids are rendered as distinct strings. */
  lemma {:induction false} DecimalStringInjective(a: nat, b: nat)
    requires DecimalString(a) == DecimalString(b)
    ensures a == b
  {
    var sa, sb := DecimalString(a), DecimalString(b);
    assert Digit(a % 10) == Digit(b % 10);
    assert a % 10 == b % 10;
    if 10 <= a {
      assert 10 <= b;
      assert DecimalString(a / 10) == sa[..|sa| - 1];
      assert DecimalString(b / 10) == sb[..|sb| - 1];
      DecimalStringInjective(a / 10, b / 10);
    }
  }

  const KEY_PREFIX: string := "user-"

  /** getKey: the Redis key of a user's entry. */
  function Key(userId: nat): (k: string)
    ensures |KEY_PREFIX| < |k| && k[..|KEY_PREFIX|] == KEY_PREFIX
  {
    KEY_PREFIX + DecimalString(userId)
  }

  /** Different users never share an entry. */
  lemma KeyInjective(a: nat, b: nat)
    requires Key(a) == Key(b)
    ensures a == b
  {
    assert DecimalString(a) == Key(a)[|KEY_PREFIX|..];
    assert DecimalString(b) == Key(b)[|KEY_PREFIX|..];
    DecimalStringInjective(a, b);
  }

  /** The part of the Redis keyspace that the store uses. */
  type Entries = map<string, string>

  /** What `GET user-<id>` answers: the stored id, or null. */
  function Lookup(m: Entries, userId: nat): Option<string>
  {
    if Key(userId) in m then Some(m[Key(userId)]) else None
  }

  /** The keyspace after `SET user-<id> tokenId`. */
  function Inserted(m: Entries, userId: nat, tokenId: string): Entries
  {
    m[Key(userId) := tokenId]
  }

  /** The keyspace after `DEL user-<id>`. */
  function Invalidated(m: Entries, userId: nat): Entries
  {
    m - {Key(userId)}
  }

  /**
   * Whether `validate` returns rather than throws. It compares the GET reply
   * with `!==`: a null reply (no entry) differs from every presented value,
   * including an undefined one (a token without a `refreshTokenId` claim,
   * written None here).
   */
  predicate Validates(m: Entries, userId: nat, presented: Option<string>)
  {
    Lookup(m, userId).Some? && Lookup(m, userId) == presented
  }

  lemma InsertThenValidate(m: Entries, userId: nat, tokenId: string)
    ensures Lookup(Inserted(m, userId, tokenId), userId) == Some(tokenId)
    ensures Validates(Inserted(m, userId, tokenId), userId, Some(tokenId))
  {
  }

  /** A second insert supersedes the first: the earlier id no longer validates. */
  lemma InsertOverwrites(m: Entries, userId: nat, t1: string, t2: string)
    requires t1 != t2
    ensures !Validates(Inserted(Inserted(m, userId, t1), userId, t2), userId, Some(t1))
    ensures Validates(Inserted(Inserted(m, userId, t1), userId, t2), userId, Some(t2))
  {
  }

  /** Without an entry, nothing validates. */
  lemma AbsentNeverValidates(m: Entries, userId: nat, presented: Option<string>)
    requires Lookup(m, userId) == None
    ensures !Validates(m, userId, presented)
  {
  }

  /** After `invalidate`, no token id validates for that user. */
  lemma InvalidateThenValidateFails(m: Entries, userId: nat, presented: Option<string>)
    ensures Lookup(Invalidated(m, userId), userId) == None
    ensures !Validates(Invalidated(m, userId), userId, presented)
  {
  }

  lemma InvalidateIdempotent(m: Entries, userId: nat)
    ensures Invalidated(Invalidated(m, userId), userId) == Invalidated(m, userId)
  {
  }

  /** Writing or deleting user `u`'s entry leaves every other user's entry as it was. */
  lemma OtherUsersUnaffected(m: Entries, u: nat, v: nat, tokenId: string)
    requires u != v
    ensures Lookup(Inserted(m, u, tokenId), v) == Lookup(m, v)
    ensures Lookup(Invalidated(m, u), v) == Lookup(m, v)
  {
    if Key(u) == Key(v) {
      KeyInjective(u, v);
    }
  }

  /** The error `validate` throws on a mismatch. */
  datatype StorageError = InvalidatedRefreshTokenError

  /** RefreshTokenIdsStorage: the store, over its Redis entries. */
  class RefreshTokenIdsStorage {
    var entries: Entries

    constructor ()
      ensures entries == map[]
    {
      entries := map[];
    }

    /** insert: overwrite the user's entry with `tokenId`. */
    method Insert(userId: nat, tokenId: string)
      modifies this
      ensures entries == Inserted(old(entries), userId, tokenId)
    {
      entries := entries[Key(userId) := tokenId];
    }

    /** validate: true when the stored id is the presented one; throws otherwise. Reads only. */
    method Validate(userId: nat, tokenId: Option<string>) returns (r: Result<bool, StorageError>)
      ensures r.Ok? <==> Validates(entries, userId, tokenId)
      ensures r == Ok(true) || r == Err(InvalidatedRefreshTokenError)
    {
      var storedId := if Key(userId) in entries then Some(entries[Key(userId)]) else None;
      if storedId.None? || storedId != tokenId {
        return Err(InvalidatedRefreshTokenError);
      }
      return Ok(true);
    }

    /** invalidate: delete the user's entry, present or not. */
    method Invalidate(userId: nat)
      modifies this
      ensures entries == Invalidated(old(entries), userId)
    {
      entries := entries - {Key(userId)};
    }
  }
}
