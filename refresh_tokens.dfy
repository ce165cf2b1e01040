/**
 * `RefreshTokenService`: refresh tokens kept in a Redis string store, rotated on every use,
 * and revoked all at once by raising a per-user version counter.
 *
 * The store holds two families of keys: `refresh:<token>` maps to `"<userId>:<version>"`, and
 * `refreshver:<userId>` holds the user's current version. A token is good only while its
 * recorded version equals the user's current one.
 */
module RefreshTokens {
  import opened Wrappers
  import opened JavaText
  import opened Users

  const KEY_PREFIX: string := "refresh:"
  const USER_VERSION_PREFIX: string := "refreshver:"
  const DEFAULT_REFRESH_VALIDITY_SECONDS: int := 604800

  /** The Redis string store: key to value. */
  type Store = map<string, string>

  /** What string concatenation writes for a `Long` that may be null. */
  function IdText(userId: Option<Long>): (s: string)
    ensures userId.None? ==> s == "null"
    ensures userId.Some? ==> ParseLong(s) == userId
  {
    match userId
    case None => "null"
    case Some(id) => ParseLongText(id); LongText(id)
  }

  /** `key`: where a refresh token is stored. */
  function TokenKey(token: string): (k: string)
    ensures StartsWith(k, KEY_PREFIX) && k[|KEY_PREFIX|..] == token
  {
    KEY_PREFIX + token
  }

  /** `userVersionKey`: where a user's version counter is stored (a null id gives `refreshver:null`). */
  function UserVersionKey(userId: Option<Long>): (k: string)
    ensures StartsWith(k, USER_VERSION_PREFIX) && k[|USER_VERSION_PREFIX|..] == IdText(userId)
  {
    USER_VERSION_PREFIX + IdText(userId)
  }

  /** Token keys and version keys never collide, and each family is one-to-one. */
  lemma KeysDistinct(token: string, other: string, a: Option<Long>, b: Option<Long>)
    ensures TokenKey(token) != UserVersionKey(a)
    ensures TokenKey(token) == TokenKey(other) ==> token == other
    ensures UserVersionKey(a) == UserVersionKey(b) ==> a == b
  {
    assert TokenKey(token)[7] == ':' && UserVersionKey(a)[7] == 'v';
    if UserVersionKey(a) == UserVersionKey(b) {
      assert IdText(a) == IdText(b);
      if a.Some? && b.Some? {
        LongTextInjective(a.value, b.value);
      }
    }
  }

  /** `value`: the stored form of a token's owner and version. */
  function Value(userId: Option<Long>, version: Long): string {
    IdText(userId) + ":" + LongText(version)
  }

  /** The owner and version read back from a stored value. */
  datatype ParsedValue = ParsedValue(userId: Long, version: Long)

  /**
   * `parseValue`: `"<userId>:<version>"`, or the legacy form `"<userId>"` read as version 0.
   * `None` is the `NumberFormatException` either number can raise.
   */
  function ParseValue(stored: string): (r: Option<ParsedValue>)
    ensures ':' !in stored ==>
      r == (if ParseLong(stored).Some? then Some(ParsedValue(ParseLong(stored).value, 0)) else None)
  {
    var idx := IndexOf(stored, ':');
    if idx < 0 then
      match ParseLong(stored)
      case Some(userId) => Some(ParsedValue(userId, 0))
      case None => None
    else
      match (ParseLong(stored[..idx]), ParseLong(stored[idx + 1..]))
      case (Some(userId), Some(version)) => Some(ParsedValue(userId, version))
      case _ => None
  }

  /** Every value written for a user reads back as that user and version. */
  lemma ValueRoundTrip(userId: Long, version: Long)
    ensures ParseValue(Value(Some(userId), version)) == Some(ParsedValue(userId, version))
  {
    var head := LongText(userId);
    var s := Value(Some(userId), version);
    LongTextIsPlain(userId);
    assert s == head + [':'] + LongText(version);
    assert s[..|head|] == head && s[|head|] == ':';
    assert IndexOf(s, ':') == |head|;
    assert s[|head| + 1..] == LongText(version);
    ParseLongText(userId);
    ParseLongText(version);
  }

  /** A value written for a user with no id cannot be read back. */
  lemma NullOwnerUnreadable(version: Long)
    ensures ParseValue(Value(None, version)) == None
  {
    var s := Value(None, version);
    assert s[..4] == "null" && s[4] == ':';
    assert IndexOf(s, ':') == 4;
  }

  /** `currentUserTokenVersion`: the counter's value; 0 when it is absent or not a number. */
  function CurrentVersion(store: Store, userId: Option<Long>): (v: Long)
    ensures UserVersionKey(userId) !in store ==> v == 0
    ensures UserVersionKey(userId) in store && ParseLong(store[UserVersionKey(userId)]).None? ==> v == 0
  {
    var key := UserVersionKey(userId);
    if key !in store then 0
    else match ParseLong(store[key])
      case Some(v) => v
      case None => 0
  }

  /** `issue`: the token's key now holds its owner and the owner's current version; no other key changes. */
  function Issued(store: Store, userId: Option<Long>, token: string): (r: Store)
    ensures r.Keys == store.Keys + {TokenKey(token)}
    ensures forall k | k in store && k != TokenKey(token) :: r[k] == store[k]
  {
    store[TokenKey(token) := Value(userId, CurrentVersion(store, userId))]
  }

  /** What `consumeAndRotate` finds under a token. */
  datatype Redemption =
    | Absent              // no such key
    | Corrupt             // the value does not parse
    | Stale               // the recorded version is not the owner's current one
    | Current(userId: Long)

  /**
   * The token is absent exactly when its key is; it is current for a user exactly when its
   * value parses to that user and the user's current version.
   */
  function Redeem(store: Store, token: string): (r: Redemption)
    ensures r == Absent <==> TokenKey(token) !in store
    ensures r == Corrupt <==> TokenKey(token) in store && ParseValue(store[TokenKey(token)]).None?
    ensures r.Current? <==>
      && TokenKey(token) in store && ParseValue(store[TokenKey(token)]).Some?
      && var p := ParseValue(store[TokenKey(token)]).value;
        p.version == CurrentVersion(store, Some(p.userId)) && r == Current(p.userId)
  {
    var key := TokenKey(token);
    if key !in store then Absent
    else match ParseValue(store[key])
      case None => Corrupt
      case Some(p) => if p.version != CurrentVersion(store, Some(p.userId)) then Stale else Current(p.userId)
  }

  /** The store after `consumeAndRotate`: the key is deleted only when the token is current. */
  function Consumed(store: Store, token: string): (r: Store)
    ensures Redeem(store, token).Current? ==> r == store - {TokenKey(token)}
    ensures !Redeem(store, token).Current? ==> r == store
  {
    if Redeem(store, token).Current? then store - {TokenKey(token)} else store
  }

  /** Redis `INCR` failures. */
  datatype RedisError = NotAnInteger | Overflow

  /**
   * Redis reads a counter only in its canonical decimal form: no sign other than `-`, no
   * leading zeros, no `-0`.
   */
  function RedisInteger(s: string): (r: Option<Long>)
    ensures r.Some? ==> LongText(r.value) == s && ParseLong(s) == r
    ensures r.None? ==> forall n: Long :: LongText(n) != s
  {
    match ParseLong(s)
    case Some(n) =>
      if LongText(n) == s then Some(n)
      else
        assert forall m: Long :: LongText(m) != s by {
          forall m: Long ensures LongText(m) != s {
            ParseLongText(m);
          }
        }
        None
    case None =>
      assert forall m: Long :: LongText(m) != s by {
        forall m: Long ensures LongText(m) != s {
          ParseLongText(m);
        }
      }
      None
  }

  /** Every counter `INCR` itself writes is one it reads back. */
  lemma RedisIntegerOfLongText(n: Long)
    ensures RedisInteger(LongText(n)) == Some(n)
  {
    ParseLongText(n);
  }

  /**
   * `INCR refreshver:<userId>`: an absent counter becomes 1; a number goes up by one. It fails
   * exactly when the counter is not a canonical integer or is already the largest `long`.
   */
  function Incremented(store: Store, userId: Long): (r: Result<Store, RedisError>)
    ensures var key := UserVersionKey(Some(userId));
      r.Ok? <==> key !in store || (RedisInteger(store[key]).Some? && RedisInteger(store[key]).value < LONG_MAX)
  {
    var key := UserVersionKey(Some(userId));
    if key !in store then Ok(store[key := LongText(1)])
    else match RedisInteger(store[key])
      case None => Err(NotAnInteger)
      case Some(n) => if n == LONG_MAX then Err(Overflow) else Ok(store[key := LongText(n + 1)])
  }

  /** `INCR` succeeds on an absent counter and on any counter below the largest `long`, as written. */
  lemma IncrementedSucceeds(store: Store, userId: Long, n: Long)
    requires var key := UserVersionKey(Some(userId)); key !in store || (store[key] == LongText(n) && n < LONG_MAX)
    ensures Incremented(store, userId).Ok?
  {
    RedisIntegerOfLongText(n);
  }

  /** An issued token is current for its owner, and issuing changes no version. */
  lemma IssueThenRedeem(store: Store, userId: Long, token: string)
    ensures Redeem(Issued(store, Some(userId), token), token) == Current(userId)
    ensures forall u :: CurrentVersion(Issued(store, Some(userId), token), u) == CurrentVersion(store, u)
  {
    var after := Issued(store, Some(userId), token);
    var v := CurrentVersion(store, Some(userId));
    assert TokenKey(token) in after && after[TokenKey(token)] == Value(Some(userId), v);
    ValueRoundTrip(userId, v);
    forall u ensures CurrentVersion(after, u) == CurrentVersion(store, u) {
      IssuedKeepsVersion(store, Some(userId), token, u);
    }
  }

  /** Issuing a token writes no version counter. */
  lemma IssuedKeepsVersion(store: Store, owner: Option<Long>, token: string, u: Option<Long>)
    ensures CurrentVersion(Issued(store, owner, token), u) == CurrentVersion(store, u)
  {
    KeysDistinct(token, token, u, u);
  }

  /** A token issued to a user with no id can never be redeemed: its value does not parse. */
  lemma IssueNullOwner(store: Store, token: string)
    ensures Redeem(Issued(store, None, token), token) == Corrupt
  {
    NullOwnerUnreadable(CurrentVersion(store, None));
  }

  /** A consumed token is gone: redeeming it again finds nothing. */
  lemma RedeemOnce(store: Store, token: string)
    requires Redeem(store, token).Current?
    ensures Redeem(Consumed(store, token), token) == Absent
  {
  }

  /** The counter after `INCR` is one more than the version the service read before it. */
  lemma IncrementedRaises(store: Store, userId: Long)
    requires Incremented(store, userId).Ok?
    ensures CurrentVersion(Incremented(store, userId).value, Some(userId)) == CurrentVersion(store, Some(userId)) + 1
  {
    var key := UserVersionKey(Some(userId));
    if key !in store {
      ParseLongText(1);
    } else {
      var n := RedisInteger(store[key]).value;
      ParseLongText(n + 1);
    }
  }

  /** `INCR` touches only the user's own counter. */
  lemma IncrementedTouchesOneKey(store: Store, userId: Long)
    requires Incremented(store, userId).Ok?
    ensures var after := Incremented(store, userId).value;
      && after.Keys == store.Keys + {UserVersionKey(Some(userId))}
      && forall k | k in store && k != UserVersionKey(Some(userId)) :: after[k] == store[k]
  {
  }

  /** Every stored token records a version no greater than its owner's current one. */
  ghost predicate VersionsBounded(store: Store) {
    forall token | TokenKey(token) in store ::
      var p := ParseValue(store[TokenKey(token)]);
      p.Some? ==> p.value.version <= CurrentVersion(store, Some(p.value.userId))
  }

  /** An empty store, where every service starts, keeps the bound. */
  lemma EmptyStoreBounded()
    ensures VersionsBounded(map[])
  {
  }

  lemma IssuedKeepsBound(store: Store, userId: Option<Long>, token: string)
    requires VersionsBounded(store)
    ensures VersionsBounded(Issued(store, userId, token))
  {
    var after := Issued(store, userId, token);
    forall t | TokenKey(t) in after
      ensures var p := ParseValue(after[TokenKey(t)]);
        p.Some? ==> p.value.version <= CurrentVersion(after, Some(p.value.userId))
    {
      var p := ParseValue(after[TokenKey(t)]);
      if p.Some? {
        IssuedKeepsVersion(store, userId, token, Some(p.value.userId));
        if t == token {
          assert after[TokenKey(t)] == Value(userId, CurrentVersion(store, userId));
          match userId
          case None => NullOwnerUnreadable(CurrentVersion(store, None));
          case Some(u) => ValueRoundTrip(u, CurrentVersion(store, userId));
        } else {
          KeysDistinct(token, t, None, None);
          assert TokenKey(t) in store && after[TokenKey(t)] == store[TokenKey(t)];
        }
      }
    }
  }

  lemma ConsumedKeepsBound(store: Store, token: string)
    requires VersionsBounded(store)
    ensures VersionsBounded(Consumed(store, token))
  {
    var after := Consumed(store, token);
    forall t | TokenKey(t) in after
      ensures var p := ParseValue(after[TokenKey(t)]);
        p.Some? ==> p.value.version <= CurrentVersion(after, Some(p.value.userId))
    {
      assert TokenKey(t) in store && after[TokenKey(t)] == store[TokenKey(t)];
      var p := ParseValue(after[TokenKey(t)]);
      if p.Some? {
        ConsumedKeepsVersion(store, token, Some(p.value.userId));
      }
    }
  }

  /** Consuming a token writes no version counter. */
  lemma ConsumedKeepsVersion(store: Store, token: string, u: Option<Long>)
    ensures CurrentVersion(Consumed(store, token), u) == CurrentVersion(store, u)
  {
    KeysDistinct(token, token, u, u);
  }

  /** The counter after `INCR` for one user, read for any user. */
  lemma IncrementedVersions(store: Store, userId: Long, other: Long)
    requires Incremented(store, userId).Ok?
    ensures CurrentVersion(Incremented(store, userId).value, Some(other)) ==
      if other == userId then CurrentVersion(store, Some(other)) + 1 else CurrentVersion(store, Some(other))
  {
    if other == userId {
      IncrementedRaises(store, userId);
    } else {
      KeysDistinct("", "", Some(userId), Some(other));
      IncrementedTouchesOneKey(store, userId);
    }
  }

  lemma IncrementedKeepsBound(store: Store, userId: Long)
    requires VersionsBounded(store) && Incremented(store, userId).Ok?
    ensures VersionsBounded(Incremented(store, userId).value)
  {
    var after := Incremented(store, userId).value;
    forall t | TokenKey(t) in after
      ensures var p := ParseValue(after[TokenKey(t)]);
        p.Some? ==> p.value.version <= CurrentVersion(after, Some(p.value.userId))
    {
      KeysDistinct(t, t, Some(userId), Some(userId));
      var p := ParseValue(after[TokenKey(t)]);
      if p.Some? {
        IncrementedVersions(store, userId, p.value.userId);
      }
    }
  }

  /**
   * `revokeAll`: once a user's counter is raised, no token stored for that user before
   * is current any more.
   */
  lemma RevokeInvalidates(store: Store, userId: Long, token: string)
    requires VersionsBounded(store) && Incremented(store, userId).Ok?
    requires TokenKey(token) in store && ParseValue(store[TokenKey(token)]).Some?
    requires ParseValue(store[TokenKey(token)]).value.userId == userId
    ensures Redeem(Incremented(store, userId).value, token) == Stale
  {
    var after := Incremented(store, userId).value;
    var key := TokenKey(token);
    var p := ParseValue(store[key]).value;
    assert p.version <= CurrentVersion(store, Some(userId));
    KeysDistinct(token, token, Some(userId), Some(userId));
    IncrementedTouchesOneKey(store, userId);
    assert key in after && after[key] == store[key];
    IncrementedVersions(store, userId, userId);
    assert CurrentVersion(after, Some(userId)) == CurrentVersion(store, Some(userId)) + 1;
  }

  /** Raising one user's counter leaves every other user's tokens as they were. */
  lemma RevokeSparesOthers(store: Store, userId: Long, token: string)
    requires Incremented(store, userId).Ok?
    requires !(TokenKey(token) in store && ParseValue(store[TokenKey(token)]).Some?
      && ParseValue(store[TokenKey(token)]).value.userId == userId)
    ensures Redeem(Incremented(store, userId).value, token) == Redeem(store, token)
  {
    KeysDistinct(token, token, Some(userId), Some(userId));
    var p := if TokenKey(token) in store then ParseValue(store[TokenKey(token)]) else None;
    if p.Some? {
      IncrementedVersions(store, userId, p.value.userId);
    }
  }

  /** The service: the Redis store it owns and the user repository it reads. */
  class RefreshTokenService {
    var store: Store
    const userRepository: UserRepository
    const refreshValiditySeconds: int

    constructor (store: Store, userRepository: UserRepository, refreshValiditySeconds: int)
      ensures this.store == store && this.userRepository == userRepository
      ensures this.refreshValiditySeconds == refreshValiditySeconds
    {
      this.store := store;
      this.userRepository := userRepository;
      this.refreshValiditySeconds := refreshValiditySeconds;
    }

    /**
     * `issue`: `token` stands for the random UUID. The token's key gets the user's id and
     * current version; nothing else in the store changes.
     */
    method Issue(user: User, token: string) returns (issued: string)
      modifies this`store
      ensures issued == token && store == Issued(old(store), user.id, token)
      ensures user.id.Some? ==> Redeem(store, token) == Current(user.id.value)
      ensures userRepository.Rows() == old(userRepository.Rows()) && userRepository.nextId == old(userRepository.nextId)
    {
      var version := CurrentVersion(store, user.id);
      if user.id.Some? {
        IssueThenRedeem(store, user.id.value, token);
      }
      store := store[TokenKey(token) := Value(user.id, version)];
      issued := token;
    }

    /**
     * `consumeAndRotate`: nothing when the key is missing or the version is stale, and then
     * the store is untouched; a value that does not parse raises. A current token's key is
     * deleted before the owner is looked up, so it stays deleted when no such user exists.
     */
    method ConsumeAndRotate(refreshToken: string) returns (r: Result<Option<User>, string>)
      modifies this`store
      ensures store == Consumed(old(store), refreshToken)
      ensures match Redeem(old(store), refreshToken)
        case Absent => r == Ok(None)
        case Stale => r == Ok(None)
        case Corrupt => r == Err("NumberFormatException")
        case Current(userId) => r == Ok(userRepository.FindById(userId))
    {
      var key := TokenKey(refreshToken);
      if key !in store {
        return Ok(None);
      }
      var parsed := ParseValue(store[key]);
      if parsed.None? {
        return Err("NumberFormatException");
      }
      var currentVersion := CurrentVersion(store, Some(parsed.value.userId));
      if parsed.value.version != currentVersion {
        return Ok(None);
      }
      store := store - {key};
      r := Ok(userRepository.FindById(parsed.value.userId));
    }

    /** `revokeAll`: a null id does nothing; otherwise the user's counter is incremented. */
    method RevokeAll(userId: Option<Long>) returns (outcome: Outcome<RedisError>)
      modifies this`store
      ensures userId.None? ==> outcome == Pass && store == old(store)
      ensures userId.Some? ==> match Incremented(old(store), userId.value)
        case Ok(after) => outcome == Pass && store == after
        case Err(e) => outcome == Fail(e) && store == old(store)
    {
      if userId.None? {
        return Pass;
      }
      match Incremented(store, userId.value)
      case Ok(after) =>
        store := after;
        outcome := Pass;
      case Err(e) =>
        outcome := Fail(e);
    }
  }
}
