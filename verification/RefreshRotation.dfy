/** Refresh-token rotation: a redeemed or logged-out token is remembered in the token store for
    a minute longer than it has left to live, and that is long enough. */
module RefreshRotation {
  import opened TokenStore

  /** A request is served by several readings of the clock, one after the other. `exp` of a token
      is in whole seconds. */
  datatype Request =
    | Refresh(jti: string, decodedAt: real, checkedAt: real, computedAt: real, storedAt: real, userExists: bool)
    | Logout(jti: string, decodedAt: real, computedAt: real, storedAt: real)
    | Elsewhere(op: Op, at: real)                // any other use of the store

  function RevokedKey(jti: string): string {
    "revoked:" + jti
  }

  function Truncate(x: real): int {
    if x >= 0.0 then x.Floor else -((-x).Floor)
  }

  function TtlSeconds(exp: int, now: real): nat {
    var left := Truncate(exp as real - now);
    if left < 0 then 0 else left
  }

  /** The decoder compares whole seconds: a token is good through the second it expires in. */
  predicate Decodes(exp: int, now: real) {
    now.Floor <= exp
  }

  function Revoke(items: Items, jti: string, exp: int, computedAt: real, storedAt: real): Items {
    Lazy(items, SetEx(RevokedKey(jti), TtlSeconds(exp, computedAt) + 60, "1"), storedAt).0
  }

  /** The store after a request, and whether it handed out new tokens. */
  function Serve(items: Items, exp: string -> int, r: Request): (Items, bool) {
    match r
    case Refresh(jti, decodedAt, checkedAt, computedAt, storedAt, userExists) =>
      if !Decodes(exp(jti), decodedAt) || jti == "" then (items, false)
      else
        var (seen, reply) := Lazy(items, Exists(RevokedKey(jti)), checkedAt);
        if reply != Number(0) || !userExists then (seen, false)
        else (Revoke(seen, jti, exp(jti), computedAt, storedAt), true)
    case Logout(jti, decodedAt, computedAt, storedAt) =>
      if !Decodes(exp(jti), decodedAt) || jti == "" then (items, false)
      else (Revoke(items, jti, exp(jti), computedAt, storedAt), false)
    case Elsewhere(op, at) => (Lazy(items, op, at).0, false)
  }

  method RefreshToken(store: InMemoryTokenStore, exp: string -> int, r: Request) returns (redeemed: bool)
    requires r.Refresh?
    modifies store
    ensures (store.items, redeemed) == Serve(old(store.items), exp, r)
  {
    if !Decodes(exp(r.jti), r.decodedAt) || r.jti == "" {
      return false;
    }
    var revoked := store.Exists(RevokedKey(r.jti), r.checkedAt);
    if revoked != 0 || !r.userExists {
      return false;
    }
    var _ := store.SetEx(RevokedKey(r.jti), TtlSeconds(exp(r.jti), r.computedAt) + 60, "1", r.storedAt);
    return true;
  }

  // ----- One request -----

  /** A revocation entry of the token that has not lapsed. */
  predicate Remembered(items: Items, jti: string, now: real) {
    "revoked:" + jti in items && now < items["revoked:" + jti].expiresAt
  }

  /** The store with the token's revocation written: it lives for a minute and the whole seconds the
      token has left, none if it has expired. */
  ghost predicate Revoked(items: Items, after: Items, jti: string, exp: int, computedAt: real, storedAt: real) {
    && after.Keys == items.Keys + {"revoked:" + jti}
    && (forall k | k in items && k != "revoked:" + jti :: after[k] == items[k])
    && var life := after["revoked:" + jti].expiresAt - storedAt;
       if computedAt >= exp as real then life == 60.0
       else life <= exp as real - computedAt + 60.0 < life + 1.0 && life == life.Floor as real
  }

  /** A refresh hands out tokens exactly if the token is good, through the second it expires in, names
      itself, belongs to a user who still exists and is not remembered as spent; then it is remembered.
      One that does not decode leaves the store alone, and no request takes anything away but a
      revocation that has lapsed. */
  lemma RedeemedExactlyWhen(items: Items, exp: string -> int, r: Request)
    requires r.Refresh?
    ensures var (next, redeemed) := Serve(items, exp, r);
            var good := r.decodedAt < exp(r.jti) as real + 1.0 && r.jti != "";
            && (redeemed <==> good && r.userExists && !Remembered(items, r.jti, r.checkedAt))
            && (redeemed ==> Revoked(items, next, r.jti, exp(r.jti), r.computedAt, r.storedAt))
            && (!redeemed ==>
                  next == if good && !Remembered(items, r.jti, r.checkedAt) then items - {"revoked:" + r.jti} else items)
  {
    hide Lazy, Revoke, TtlSeconds, Revoked, Remembered;
    LookedUp(items, r.jti, r.checkedAt);
    RevocationIs(items, r.jti, exp(r.jti), r.computedAt, r.storedAt);
    assert r.decodedAt.Floor <= exp(r.jti) <==> r.decodedAt < exp(r.jti) as real + 1.0;
  }

  lemma LookedUp(items: Items, jti: string, now: real)
    ensures Lazy(items, Exists(RevokedKey(jti)), now)
         == if Remembered(items, jti, now) then (items, Number(1)) else (items - {"revoked:" + jti}, Number(0))
  {
    assert Without(items, RevokedKey(jti)) == items - {"revoked:" + jti};
    assert "revoked:" + jti !in items ==> items - {"revoked:" + jti} == items;
  }

  lemma RevocationIs(items: Items, jti: string, exp: int, computedAt: real, storedAt: real)
    ensures Revoked(items, Revoke(items, jti, exp, computedAt, storedAt), jti, exp, computedAt, storedAt)
    ensures Revoked(items, Revoke(items - {"revoked:" + jti}, jti, exp, computedAt, storedAt), jti, exp, computedAt, storedAt)
  {
    var left := exp as real - computedAt;
    var ttl := TtlSeconds(exp, computedAt);
    assert left >= 0.0 ==> ttl == left.Floor;
    assert left < 0.0 ==> ttl == 0;
  }

  /** A logout never hands out tokens, and remembers exactly the tokens that are good. */
  lemma LoggedOutExactlyWhen(items: Items, exp: string -> int, r: Request)
    requires r.Logout?
    ensures var (next, redeemed) := Serve(items, exp, r);
            var good := r.decodedAt < exp(r.jti) as real + 1.0 && r.jti != "";
            && !redeemed
            && if good then Revoked(items, next, r.jti, exp(r.jti), r.computedAt, r.storedAt) else next == items
  {
    RevocationIs(items, r.jti, exp(r.jti), r.computedAt, r.storedAt);
    assert r.decodedAt.Floor <= exp(r.jti) <==> r.decodedAt < exp(r.jti) as real + 1.0;
    hide Revoke, Revoked;
  }

  // ----- Sequential runs -----

  function Begins(r: Request): real {
    if r.Elsewhere? then r.at else r.decodedAt
  }

  function Ends(r: Request): real {
    if r.Elsewhere? then r.at else r.storedAt
  }

  predicate InOrder(r: Request) {
    match r
    case Refresh(_, decodedAt, checkedAt, computedAt, storedAt, _) => decodedAt <= checkedAt <= computedAt <= storedAt
    case Logout(_, decodedAt, computedAt, storedAt) => decodedAt <= computedAt <= storedAt
    case Elsewhere(_, _) => true
  }

  predicate Names(op: Op, name: string) {
    if op.Delete? then name in op.names else op.name == name
  }

  /** The revocation entries are not touched by other parts of the service, and a token is looked
      up at most `delay` seconds after it was decoded. */
  ghost predicate Orderly(r: Request, delay: real) {
    && InOrder(r)
    && (r.Elsewhere? ==> forall jti :: !Names(r.op, RevokedKey(jti)))
    && (r.Refresh? ==> r.checkedAt - r.decodedAt <= delay)
  }

  ghost predicate Sequential(from: real, requests: seq<Request>, delay: real)
    decreases |requests|
  {
    requests == []
    || (from <= Begins(requests[0]) && Orderly(requests[0], delay)
        && Sequential(Ends(requests[0]), requests[1..], delay))
  }

  /** How often the token is redeemed. */
  function Redemptions(items: Items, exp: string -> int, requests: seq<Request>, jti: string): nat
    decreases |requests|
  {
    if requests == [] then 0
    else
      var (next, redeemed) := Serve(items, exp, requests[0]);
      Redemptions(next, exp, requests[1..], jti)
      + if redeemed && requests[0].Refresh? && requests[0].jti == jti then 1 else 0
  }

  /** The token's revocation is remembered for as long as a lookup could matter. */
  predicate Spent(items: Items, jti: string, exp: int, now: real) {
    (RevokedKey(jti) in items && items[RevokedKey(jti)].expiresAt > exp as real + 59.0) || now > exp as real + 59.0
  }

  lemma RevocationOutlivesToken(items: Items, jti: string, exp: int, computedAt: real, storedAt: real)
    requires computedAt <= storedAt
    ensures Spent(Revoke(items, jti, exp, computedAt, storedAt), jti, exp, storedAt)
  {
    var left := exp as real - computedAt;
    assert TtlSeconds(exp, computedAt) as real > left - 1.0;
  }

  lemma OtherKeysDiffer(jti: string, other: string)
    requires jti != other
    ensures RevokedKey(jti) != RevokedKey(other)
  {
    var key, otherKey := RevokedKey(jti), RevokedKey(other);
    assert key[8..] == jti && otherKey[8..] == other;
  }

  lemma OthersSpare(items: Items, op: Op, name: string, now: real)
    requires !Names(op, name)
    ensures var next := Lazy(items, op, now).0;
            name in items <==> name in next
    ensures name in items ==> Lazy(items, op, now).0[name] == items[name]
  {
    if op.Delete? {
      RemovedIs(items, op.names);
    }
  }

  /** A spent token stays spent, and a decoded one that is looked up soon is refused. */
  lemma SpentStep(items: Items, exp: string -> int, r: Request, jti: string, from: real)
    requires Spent(items, jti, exp(jti), from) && from <= Begins(r) && Orderly(r, 58.0)
    ensures var (next, redeemed) := Serve(items, exp, r);
            Spent(next, jti, exp(jti), Ends(r)) && !(redeemed && r.Refresh? && r.jti == jti)
  {
    var key := RevokedKey(jti);
    match r {
      case Elsewhere(op, at) =>
        OthersSpare(items, op, key, at);
      case Logout(j, _, computedAt, storedAt) =>
        RevocationOutlivesToken(items, j, exp(j), computedAt, storedAt);
        if j != jti { OtherKeysDiffer(j, jti); }
      case Refresh(j, decodedAt, checkedAt, computedAt, storedAt, _) =>
        var seen := Lazy(items, Exists(RevokedKey(j)), checkedAt).0;
        RevocationOutlivesToken(seen, j, exp(j), computedAt, storedAt);
        if j != jti { OtherKeysDiffer(j, jti); }
    }
  }

  lemma {:induction false} SpentIsFinal(items: Items, exp: string -> int, requests: seq<Request>, jti: string, from: real)
    requires Spent(items, jti, exp(jti), from) && Sequential(from, requests, 58.0)
    ensures Redemptions(items, exp, requests, jti) == 0
    decreases |requests|
  {
    if requests != [] {
      SpentStep(items, exp, requests[0], jti, from);
      hide Serve, Spent;
      SpentIsFinal(Serve(items, exp, requests[0]).0, exp, requests[1..], jti, Ends(requests[0]));
    }
  }

  /** In any sequential run a refresh token is redeemed at most once. */
  lemma {:induction false} RedeemedAtMostOnce(items: Items, exp: string -> int, requests: seq<Request>, jti: string, from: real)
    requires Sequential(from, requests, 58.0)
    ensures Redemptions(items, exp, requests, jti) <= 1
    decreases |requests|
  {
    if requests != [] {
      var r := requests[0];
      var (next, redeemed) := Serve(items, exp, r);
      if redeemed && r.Refresh? && r.jti == jti {
        RevocationOutlivesToken(Lazy(items, Exists(RevokedKey(jti)), r.checkedAt).0, jti, exp(jti), r.computedAt, r.storedAt);
        SpentIsFinal(next, exp, requests[1..], jti, Ends(r));
      } else {
        RedeemedAtMostOnce(next, exp, requests[1..], jti, Ends(r));
      }
    }
  }

  /** After a logout that still decoded the token, it is never redeemed. */
  lemma LoggedOutIsNeverRedeemed(items: Items, exp: string -> int, logout: Request, requests: seq<Request>)
    requires logout.Logout? && logout.decodedAt <= logout.computedAt <= logout.storedAt && logout.jti != "" && Decodes(exp(logout.jti), logout.decodedAt)
    requires Sequential(Ends(logout), requests, 58.0)
    ensures Redemptions(Serve(items, exp, logout).0, exp, requests, logout.jti) == 0
  {
    RevocationOutlivesToken(items, logout.jti, exp(logout.jti), logout.computedAt, logout.storedAt);
    SpentIsFinal(Serve(items, exp, logout).0, exp, requests, logout.jti, Ends(logout));
  }

  /** A token redeemed in its last second, and decoded again in the second it expires in but
      looked up only when the revocation has lapsed. */
  function Replay(jti: string, exp: int, slack: real): seq<Request> {
    var first, decoded, checked := exp as real - 1.0 + slack, exp as real + 1.0 - slack, exp as real + 59.0 + slack;
    [Refresh(jti, first, first, first, first, true), Refresh(jti, decoded, checked, checked, checked, true)]
  }

  lemma LateLookupReplays(items: Items, exp: string -> int, jti: string, slack: real, delay: real)
    requires RevokedKey(jti) !in items
    requires jti != "" && 0.0 < slack < 1.0 && 58.0 + 2.0 * slack <= delay
    ensures var requests := Replay(jti, exp(jti), slack);
            Sequential(Begins(requests[0]), requests, delay) && Redemptions(items, exp, requests, jti) == 2
  {
    var requests := Replay(jti, exp(jti), slack);
    var r0, r1 := requests[0], requests[1];
    assert requests[1..] == [r1] && requests[1..][1..] == [];
    assert Sequential(Ends(r0), [r1], delay) by {
      assert [r1][1..] == [];
    }
    assert TtlSeconds(exp(jti), r0.computedAt) == 0;
    var once := Serve(items, exp, r0);
    assert once.1 && once.0 == items[RevokedKey(jti) := Item("1", r0.storedAt + 60.0)];
    assert Serve(once.0, exp, r1).1;
    assert Redemptions(Serve(once.0, exp, r1).0, exp, [], jti) == 0;
  }

  ghost predicate SingleUse(items: Items, exp: string -> int, requests: seq<Request>, jti: string, from: real, delay: real) {
    Sequential(from, requests, delay) ==> Redemptions(items, exp, requests, jti) <= 1
  }

  /** How long a lookup may trail the decoding is exact: with 58 seconds or less every run redeems
      each token at most once, with more some run redeems one twice. */
  lemma LookupDelayIsExact(exp: string -> int, delay: real)
    ensures delay <= 58.0 <==> forall items, requests, jti, from :: SingleUse(items, exp, requests, jti, from, delay)
  {
    if delay <= 58.0 {
      forall items, requests, jti, from ensures SingleUse(items, exp, requests, jti, from, delay) {
        if Sequential(from, requests, delay) {
          SequentialSooner(from, requests, delay);
          RedeemedAtMostOnce(items, exp, requests, jti, from);
        }
      }
    } else {
      var slack := if delay >= 59.0 then 0.5 else (delay - 58.0) / 2.0;
      var items: Items, jti := map[], "token";
      LateLookupReplays(items, exp, jti, slack, delay);
      var requests := Replay(jti, exp(jti), slack);
      assert !SingleUse(items, exp, requests, jti, Begins(requests[0]), delay);
    }
  }

  lemma {:induction false} SequentialSooner(from: real, requests: seq<Request>, delay: real)
    requires Sequential(from, requests, delay) && delay <= 58.0
    ensures Sequential(from, requests, 58.0)
    decreases |requests|
  {
    if requests != [] {
      SequentialSooner(Ends(requests[0]), requests[1..], delay);
    }
  }
}
