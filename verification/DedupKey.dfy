/** The key under which a webhook delivery is stored once. */
module DedupKey {
  import opened Common
  import opened CanonicalJson

  datatype Delivery = Delivery(
    provider: string, eventType: string, tenantId: Option<string>, subscriptionId: Option<string>, raw: Json)

  /** A missing or empty id is written as a dash. */
  function OrDash(id: Option<string>): string {
    if id.None? || id.value == "" then "-" else id.value
  }

  function Joined(a: string, b: string, c: string, d: string, e: string): string {
    a + (":" + (b + (":" + (c + (":" + (d + (":" + e)))))))
  }

  function Key(d: Delivery, digest: string -> string): string {
    Joined(d.provider, d.eventType, OrDash(d.tenantId), OrDash(d.subscriptionId), digest(Dump(d.raw)))
  }

  ghost predicate CollisionFree(digest: string -> string) {
    forall s, t :: digest(s) == digest(t) ==> s == t
  }

  predicate ColonFree(s: string) {
    ':' !in s
  }

  predicate Plain(d: Delivery) {
    && ColonFree(d.provider) && ColonFree(d.eventType)
    && ColonFree(OrDash(d.tenantId)) && ColonFree(OrDash(d.subscriptionId))
    && Proper(d.raw)
  }

  lemma NotAColon(s: string, x: string, y: string)
    requires s != "" && ColonFree(s)
    ensures s + (":" + x) != "" + (":" + y)
  {
    assert (s + (":" + x))[0] == s[0] && ("" + (":" + y))[0] == ':';
  }

  lemma {:induction false} FirstColon(s: string, t: string, x: string, y: string)
    requires ColonFree(s) && ColonFree(t) && s + (":" + x) == t + (":" + y)
    ensures s == t && x == y
    decreases |s|
  {
    var a, b := s + (":" + x), t + (":" + y);
    if s == "" && t == "" {
      assert a[1..] == x && b[1..] == y;
    } else if s == "" {
      NotAColon(t, y, x);
    } else if t == "" {
      NotAColon(s, x, y);
    } else {
      assert a[0] == s[0] && b[0] == t[0];
      assert a[1..] == s[1..] + (":" + x) && b[1..] == t[1..] + (":" + y);
      FirstColon(s[1..], t[1..], x, y);
      assert s == [s[0]] + s[1..] && t == [t[0]] + t[1..];
    }
  }

  lemma JoinedIsInjective(a: string, b: string, c: string, d: string, e: string,
                          a': string, b': string, c': string, d': string, e': string)
    requires ColonFree(a) && ColonFree(b) && ColonFree(c) && ColonFree(d)
    requires ColonFree(a') && ColonFree(b') && ColonFree(c') && ColonFree(d')
    requires Joined(a, b, c, d, e) == Joined(a', b', c', d', e')
    ensures a == a' && b == b' && c == c' && d == d' && e == e'
  {
    FirstColon(a, a', b + (":" + (c + (":" + (d + (":" + e))))), b' + (":" + (c' + (":" + (d' + (":" + e'))))));
    FirstColon(b, b', c + (":" + (d + (":" + e))), c' + (":" + (d' + (":" + e'))));
    FirstColon(c, c', d + (":" + e), d' + (":" + e'));
    FirstColon(d, d', e, e');
  }

  /** Deliveries without colons in their fields share a key exactly if their providers, event types
      and ids agree, a missing id counting as "-", and their payloads differ at most in the order
      of object members. */
  lemma KeyIdentifiesDelivery(d: Delivery, e: Delivery, digest: string -> string)
    requires CollisionFree(digest) && Plain(d) && Plain(e)
    ensures Key(d, digest) == Key(e, digest)
            <==> && d.provider == e.provider && d.eventType == e.eventType
                 && OrDash(d.tenantId) == OrDash(e.tenantId) && OrDash(d.subscriptionId) == OrDash(e.subscriptionId)
                 && Same(d.raw, e.raw)
  {
    DumpDetermines(d.raw, e.raw);
    hide Dump, Same;
    if Key(d, digest) == Key(e, digest) {
      JoinedIsInjective(d.provider, d.eventType, OrDash(d.tenantId), OrDash(d.subscriptionId), digest(Dump(d.raw)),
                        e.provider, e.eventType, OrDash(e.tenantId), OrDash(e.subscriptionId), digest(Dump(e.raw)));
    }
  }

  /** Ids that are present and are not a dash are identified themselves. */
  lemma KeyIdentifiesIds(d: Delivery, e: Delivery)
    requires OrDash(d.tenantId) == OrDash(e.tenantId) && d.tenantId != Some("-") && e.tenantId != Some("-")
    ensures d.tenantId == e.tenantId
            || (d.tenantId in {None, Some("")} && e.tenantId in {None, Some("")})
  {
  }

  /** With a colon in the provider's name the key is shared with another provider's event. */
  lemma ColonsCollide(p: string, q: string, d: Delivery, digest: string -> string)
    requires d.provider == p + ":" + q
    ensures var e := d.(provider := p, eventType := q + ":" + d.eventType);
            e.provider != d.provider && Key(e, digest) == Key(d, digest)
  {
    var rest := OrDash(d.tenantId) + (":" + (OrDash(d.subscriptionId) + (":" + digest(Dump(d.raw)))));
    assert (p + ":" + q) + (":" + (d.eventType + (":" + rest))) == p + (":" + ((q + ":" + d.eventType) + (":" + rest)));
  }
}
