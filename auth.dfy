/**
 * Access tokens: permission flags, the token cache the server checks
 * requests against, and the two authorization layers, one for user tokens
 * (any shared permission bit admits) and one for the super-user key (an
 * exact `Authorization` header).
 */
/**
 * `AuthFlags`: a `u32` permission mask, seen as the set of positions of its
 * one bits, with the bitwise operations the token code uses.
 */
module AuthFlags {
  /** A `u32` mask: the positions (0 to 31) of its one bits. */
  type Permissions = s: set<nat> | forall i :: i in s ==> i < 32

  /** May send search requests: bit 0. */
  const SEARCH: Permissions := {0}
  /** May add, remove and fetch documents: bit 1. */
  const MODIFY_DOCUMENTS: Permissions := {1}
  /** May create and remove indexes: bit 2. */
  const MODIFY_INDEXES: Permissions := {2}
  /** The mask `0`. */
  const NONE: Permissions := {}

  /** `a & b`. */
  function And(a: Permissions, b: Permissions): Permissions
  {
    a * b
  }

  /** `a | b`. */
  function Or(a: Permissions, b: Permissions): Permissions
  {
    a + b
  }

  /** `!a` on a `u32`: every bit below 32 that `a` does not have. */
  function Not(a: Permissions): Permissions
  {
    set i: nat | i < 32 && i !in a
  }

  function Pow2(n: nat): nat
  {
    if n == 0 then 1 else 2 * Pow2(n - 1)
  }

  lemma {:induction false} Pow2Add(a: nat, b: nat)
    ensures Pow2(a + b) == Pow2(a) * Pow2(b)
  {
    if a > 0 {
      Pow2Add(a - 1, b);
    }
  }

  lemma Pow2Of32()
    ensures Pow2(32) == 0x1_0000_0000
  {
    assert Pow2(2) == 4;
    Pow2Add(2, 2);
    Pow2Add(4, 4);
    Pow2Add(8, 8);
    Pow2Add(16, 16);
  }

  /** The integer the bits of `p` below position `n` stand for. */
  function ValueBelow(p: Permissions, n: nat): nat
  {
    if n == 0 then 0 else ValueBelow(p, n - 1) + (if n - 1 in p then Pow2(n - 1) else 0)
  }

  /** The `u32` a mask is. */
  function Value(p: Permissions): nat
  {
    ValueBelow(p, 32)
  }

  /** The bits below `n` are worth less than `2^n`. */
  lemma {:induction false} ValueBelowBound(p: Permissions, n: nat)
    ensures ValueBelow(p, n) < Pow2(n)
  {
    if n > 0 {
      ValueBelowBound(p, n - 1);
    }
  }

  /** The value of a union of masks with no bit in common is the sum of their values. */
  lemma {:induction false} ValueBelowDisjointUnion(a: Permissions, b: Permissions, n: nat)
    requires a * b == {}
    ensures ValueBelow(a + b, n) == ValueBelow(a, n) + ValueBelow(b, n)
  {
    if n > 0 {
      ValueBelowDisjointUnion(a, b, n - 1);
      assert n - 1 !in a * b;
    }
  }

  /** A mask with only bit `k` is worth `2^k`. */
  lemma {:induction false} ValueBelowSingle(k: nat, n: nat)
    requires k < 32
    ensures ValueBelow({k}, n) == if k < n then Pow2(k) else 0
  {
    if n > 0 {
      ValueBelowSingle(k, n - 1);
    }
  }

  /** Two masks with the same value are the same mask. */
  lemma {:induction false} ValueBelowInjective(a: Permissions, b: Permissions, n: nat)
    requires ValueBelow(a, n) == ValueBelow(b, n)
    ensures forall i :: 0 <= i < n ==> (i in a <==> i in b)
  {
    if n > 0 {
      ValueBelowBound(a, n - 1);
      ValueBelowBound(b, n - 1);
      assert (n - 1 in a) == (n - 1 in b);
      ValueBelowInjective(a, b, n - 1);
    }
  }

  /** Every mask is a `u32`, and the `u32` determines the mask. */
  lemma ValueIsU32(a: Permissions, b: Permissions)
    ensures Value(a) < 0x1_0000_0000
    ensures Value(a) == Value(b) ==> a == b
  {
    ValueBelowBound(a, 32);
    Pow2Of32();
    if Value(a) == Value(b) {
      ValueBelowInjective(a, b, 32);
    }
  }

  /** The three flags are the single bits 0, 1 and 2, so they are `1`, `2` and `4` and do not overlap. */
  lemma FlagsAreSingleBits()
    ensures Value(SEARCH) == 1 && Value(MODIFY_DOCUMENTS) == 2 && Value(MODIFY_INDEXES) == 4
    ensures And(SEARCH, MODIFY_DOCUMENTS) == NONE && And(SEARCH, MODIFY_INDEXES) == NONE
    ensures And(MODIFY_DOCUMENTS, MODIFY_INDEXES) == NONE
    ensures Value(Or(Or(SEARCH, MODIFY_DOCUMENTS), MODIFY_INDEXES)) == 7
  {
    ValueBelowSingle(0, 32);
    ValueBelowSingle(1, 32);
    ValueBelowSingle(2, 32);
    ValueBelowDisjointUnion(SEARCH, MODIFY_DOCUMENTS, 32);
    ValueBelowDisjointUnion(Or(SEARCH, MODIFY_DOCUMENTS), MODIFY_INDEXES, 32);
  }

  /** How `modify_permissions` combines the stored mask with the given one. */
  datatype Op = Set | Unset

  /**
   * The new mask `modify_permissions` stores: `Set` is `existing & !permissions`
   * and `Unset` is `existing | permissions`, the reverse of what the names say.
   */
  function ApplyOp(existing: Permissions, permissions: Permissions, op: Op): Permissions
  {
    match op
    case Set => And(existing, Not(permissions))
    case Unset => Or(existing, permissions)
  }

  /** `Set` removes exactly the given bits and `Unset` adds exactly the given bits. */
  lemma ApplyOpBits(existing: Permissions, permissions: Permissions)
    ensures ApplyOp(existing, permissions, Set) == existing - permissions
    ensures ApplyOp(existing, permissions, Unset) == existing + permissions
  {
  }

  /** Each operation is idempotent, and `Set` after `Unset` of the same bits is `Set` alone. */
  lemma ApplyOpIdempotent(existing: Permissions, permissions: Permissions)
    ensures ApplyOp(ApplyOp(existing, permissions, Set), permissions, Set) == ApplyOp(existing, permissions, Set)
    ensures ApplyOp(ApplyOp(existing, permissions, Unset), permissions, Unset) == ApplyOp(existing, permissions, Unset)
    ensures ApplyOp(ApplyOp(existing, permissions, Unset), permissions, Set) == ApplyOp(existing, permissions, Set)
  {
    ApplyOpBits(existing, permissions);
    ApplyOpBits(existing - permissions, permissions);
    ApplyOpBits(existing + permissions, permissions);
  }
}

module Auth {
  import opened Wrappers
  import opened AuthFlags

  /** A cached token's owner and mask. */
  datatype TokenInfo = TokenInfo(username: string, permissions: Permissions)

  /** One row of the `access_tokens` table. */
  datatype TokenRow = TokenRow(token: string, username: string, permissions: Permissions)

  /** The cache after inserting `rows` in order into an empty one. */
  function RowsToMap(rows: seq<TokenRow>): map<string, TokenInfo>
  {
    if rows == [] then map[]
    else
      var last := rows[|rows| - 1];
      RowsToMap(rows[..|rows| - 1])[last.token := TokenInfo(last.username, last.permissions)]
  }

  /** A token is cached exactly when some row holds it, and the last such row gives its entry. */
  lemma {:induction false} RowsToMapEntries(rows: seq<TokenRow>, t: string)
    ensures t in RowsToMap(rows) <==> exists i :: 0 <= i < |rows| && rows[i].token == t
    ensures forall i :: 0 <= i < |rows| && rows[i].token == t && (forall j :: i < j < |rows| ==> rows[j].token != t) ==>
      t in RowsToMap(rows) && RowsToMap(rows)[t] == TokenInfo(rows[i].username, rows[i].permissions)
  {
    if rows != [] {
      var init := rows[..|rows| - 1];
      RowsToMapEntries(init, t);
      assert forall i :: 0 <= i < |init| ==> init[i] == rows[i];
    }
  }

  /** Why `modify_permissions` failed. */
  datatype AuthError = NotRegistered

  /**
   * The token cache behind `AuthManager`: one entry per token. The database
   * write that accompanies each change is not modelled.
   */
  class AuthManager {
    var tokens: map<string, TokenInfo>

    /** `connect`: loads every stored row into an empty cache, in order. */
    constructor Connect(rows: seq<TokenRow>)
      ensures tokens == RowsToMap(rows)
    {
      var cache: map<string, TokenInfo> := map[];
      var i := 0;
      while i < |rows|
        invariant 0 <= i <= |rows|
        invariant cache == RowsToMap(rows[..i])
      {
        assert rows[..i + 1][..i] == rows[..i];
        cache := cache[rows[i].token := TokenInfo(rows[i].username, rows[i].permissions)];
        i := i + 1;
      }
      assert rows[..i] == rows;
      tokens := cache;
    }

    /**
     * `create_token`: caches `token` (in the source a fresh random string of
     * 64 alphanumeric characters, so not yet cached) for `user` with
     * `permissions` and returns it; no other entry changes.
     */
    method CreateToken(token: string, user: string, permissions: Permissions) returns (created: string)
      requires token !in tokens
      modifies this
      ensures created == token
      ensures tokens == old(tokens)[token := TokenInfo(user, permissions)]
      ensures forall t :: t != token ==> (t in tokens <==> t in old(tokens))
      ensures forall t :: t != token && t in tokens ==> tokens[t] == old(tokens)[t]
    {
      tokens := tokens[token := TokenInfo(user, permissions)];
      created := token;
    }

    /** `revoke_all`: the cache is emptied. */
    method RevokeAll()
      modifies this
      ensures tokens == map[]
    {
      tokens := map[];
    }

    /** `revoke_token`: only `token` leaves the cache. */
    method RevokeToken(token: string)
      modifies this
      ensures tokens == old(tokens) - {token}
      ensures token !in tokens
      ensures forall t :: t != token ==> (t in tokens <==> t in old(tokens))
      ensures forall t :: t != token && t in tokens ==> tokens[t] == old(tokens)[t]
    {
      tokens := tokens - {token};
    }

    /**
     * `modify_permissions`: an unknown token is an error and changes
     * nothing; a known one keeps its user and gets `ApplyOp` of its mask.
     */
    method ModifyPermissions(token: string, permissions: Permissions, op: Op) returns (r: Result<(), AuthError>)
      modifies this
      ensures token !in old(tokens) ==> r == Err(NotRegistered) && tokens == old(tokens)
      ensures token in old(tokens) ==> r == Ok(()) && tokens == old(tokens)[token :=
        TokenInfo(old(tokens)[token].username, ApplyOp(old(tokens)[token].permissions, permissions, op))]
    {
      if token !in tokens {
        return Err(NotRegistered);
      }
      var existing := tokens[token];
      var updated := ApplyOp(existing.permissions, permissions, op);
      tokens := tokens[token := TokenInfo(existing.username, updated)];
      return Ok(());
    }
  }

  /** What an authorization layer does with a request; `Panicked` is the slice past the end of a short header. */
  datatype Decision = Authorized | Unauthorized | Panicked

  /** The length of `"Bearer "`, which the user check skips without looking at it. */
  const SCHEME_LENGTH: nat := 7

  /**
   * The user check: when enabled, the `Authorization` header's characters
   * from index 7 on must be a cached token whose mask shares at least one
   * bit with the required mask.
   */
  function UserAuthorize(enabled: bool, header: Option<string>, tokens: map<string, TokenInfo>, required: Permissions): Decision
  {
    if !enabled then Authorized
    else match header
      case None => Unauthorized
      case Some(h) =>
        if |h| < SCHEME_LENGTH then Panicked
        else
          var token := h[SCHEME_LENGTH..];
          if token !in tokens then Unauthorized
          else if And(tokens[token].permissions, required) == NONE then Unauthorized
          else Authorized
  }

  /** The super-user check: when enabled, the header must be exactly `"Bearer "` followed by the key. */
  function SuperUserAuthorize(enabled: bool, header: Option<string>, key: string): Decision
  {
    if !enabled then Authorized
    else if header == Some("Bearer " + key) then Authorized
    else Unauthorized
  }

  /** A disabled layer admits every request. */
  lemma DisabledAdmitsAll(header: Option<string>, tokens: map<string, TokenInfo>, required: Permissions, key: string)
    ensures UserAuthorize(false, header, tokens, required) == Authorized
    ensures SuperUserAuthorize(false, header, key) == Authorized
  {
  }

  /** An enabled user check admits exactly a present header naming a cached token that shares a bit with the requirement. */
  lemma UserAuthorizeIff(header: Option<string>, tokens: map<string, TokenInfo>, required: Permissions)
    ensures UserAuthorize(true, header, tokens, required) == Authorized <==>
      && header.Some?
      && |header.value| >= SCHEME_LENGTH
      && header.value[SCHEME_LENGTH..] in tokens
      && And(tokens[header.value[SCHEME_LENGTH..]].permissions, required) != NONE
    ensures UserAuthorize(true, header, tokens, required) == Panicked <==> header.Some? && |header.value| < SCHEME_LENGTH
  {
  }

  /** One shared bit is enough: a token holding any one required bit is admitted. */
  lemma AnySharedBitAdmits(tokens: map<string, TokenInfo>, token: string, required: Permissions, i: nat)
    requires token in tokens
    requires i in tokens[token].permissions && i in required
    ensures UserAuthorize(true, Some("Bearer " + token), tokens, required) == Authorized
  {
    assert i in And(tokens[token].permissions, required);
    assert ("Bearer " + token)[SCHEME_LENGTH..] == token;
  }

  /** The scheme is never checked: any seven characters in front of the token do as well as `"Bearer "`. */
  lemma SchemeNotChecked(scheme: string, token: string, tokens: map<string, TokenInfo>, required: Permissions)
    requires |scheme| == SCHEME_LENGTH
    ensures UserAuthorize(true, Some(scheme + token), tokens, required) == UserAuthorize(true, Some("Bearer " + token), tokens, required)
  {
    assert (scheme + token)[SCHEME_LENGTH..] == token;
    assert ("Bearer " + token)[SCHEME_LENGTH..] == token;
  }

  /** The super-user check admits exactly the one header `"Bearer " + key`, so a scheme in lower case fails. */
  lemma SuperUserAuthorizeIff(header: Option<string>, key: string)
    ensures SuperUserAuthorize(true, header, key) == Authorized <==> header == Some("Bearer " + key)
    ensures SuperUserAuthorize(true, Some("bearer " + key), key) == Unauthorized
  {
    assert ("bearer " + key)[0] != ("Bearer " + key)[0];
  }

  /** A created token is admitted exactly for the requirements its mask overlaps. */
  lemma CreatedTokenAuthorization(tokens: map<string, TokenInfo>, token: string, user: string, permissions: Permissions, required: Permissions)
    ensures UserAuthorize(true, Some("Bearer " + token), tokens[token := TokenInfo(user, permissions)], required)
      == if And(permissions, required) != NONE then Authorized else Unauthorized
  {
    assert ("Bearer " + token)[SCHEME_LENGTH..] == token;
  }

  /** A revoked token is refused for every requirement, and after `revoke_all` every well-formed header is. */
  lemma RevokedTokenRefused(tokens: map<string, TokenInfo>, token: string, required: Permissions, header: string)
    requires |header| >= SCHEME_LENGTH
    ensures UserAuthorize(true, Some("Bearer " + token), tokens - {token}, required) == Unauthorized
    ensures UserAuthorize(true, Some(header), map[], required) == Unauthorized
  {
    assert ("Bearer " + token)[SCHEME_LENGTH..] == token;
  }

  /** `Set` with every required bit takes the token's access to that requirement away. */
  lemma SetRevokesAccess(tokens: map<string, TokenInfo>, token: string, permissions: Permissions, required: Permissions)
    requires token in tokens
    requires required <= permissions
    ensures var info := tokens[token];
      UserAuthorize(true, Some("Bearer " + token),
        tokens[token := TokenInfo(info.username, ApplyOp(info.permissions, permissions, Set))], required) == Unauthorized
  {
    assert ("Bearer " + token)[SCHEME_LENGTH..] == token;
  }

  /**
   * The cache through a session: load, create a token that may search,
   * `Set` its search bit (which takes it away), `Unset` it again (which
   * gives it back), then revoke it. It is admitted for searches exactly
   * while it holds the bit and is cached.
   */
  method TokenLifecycle(rows: seq<TokenRow>, token: string) returns (created: Decision, afterSet: Decision, afterUnset: Decision, revoked: Decision)
    requires forall i :: 0 <= i < |rows| ==> rows[i].token != token
    ensures created == Authorized && afterSet == Unauthorized
    ensures afterUnset == Authorized && revoked == Unauthorized
  {
    var manager := new AuthManager.Connect(rows);
    RowsToMapEntries(rows, token);
    var loaded := manager.tokens;
    var t := manager.CreateToken(token, "alice", SEARCH);
    CreatedTokenAuthorization(loaded, t, "alice", SEARCH, SEARCH);
    created := UserAuthorize(true, Some("Bearer " + t), manager.tokens, SEARCH);

    var cached := manager.tokens;
    var r1 := manager.ModifyPermissions(t, SEARCH, Set);
    SetRevokesAccess(cached, t, SEARCH, SEARCH);
    afterSet := UserAuthorize(true, Some("Bearer " + t), manager.tokens, SEARCH);

    ApplyOpBits(SEARCH, SEARCH);
    assert manager.tokens[t] == TokenInfo("alice", NONE);
    ApplyOpBits(NONE, SEARCH);
    assert ApplyOp(NONE, SEARCH, Unset) == SEARCH;
    var mid := manager.tokens;
    var r2 := manager.ModifyPermissions(t, SEARCH, Unset);
    assert manager.tokens == mid[t := TokenInfo("alice", SEARCH)];
    assert manager.tokens == cached[t := TokenInfo("alice", SEARCH)];
    CreatedTokenAuthorization(cached, t, "alice", SEARCH, SEARCH);
    afterUnset := UserAuthorize(true, Some("Bearer " + t), manager.tokens, SEARCH);

    var before := manager.tokens;
    manager.RevokeToken(t);
    RevokedTokenRefused(before, t, SEARCH, "Bearer " + t);
    revoked := UserAuthorize(true, Some("Bearer " + t), manager.tokens, SEARCH);
  }
}
