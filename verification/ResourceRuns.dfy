/**
 Every interleaving of loads, replies and invalidations on the resource cache,
 with the history that says where a cached value came from.
 */
module ResourceRuns {
  import opened Wrappers
  import opened AdministrationResources

  datatype Request = Request(key: Key, issuedAt: nat, outcome: Option<Outcome>)

  // The cache, every request ever made, the request behind each cached value,
  // and when each resource was last thrown away by `invalidate` or a fresh load.
  datatype Desk = Desk(cache: Cache, requests: seq<Request>, origin: map<Key, nat>, purged: map<Key, nat>)

  function PurgedAt(d: Desk, key: Key): nat {
    if key in d.purged then d.purged[key] else 0
  }

  function EmptyDesk(): Desk { Desk(Cache(map[], map[]), [], map[], map[]) }

  const ALL_KEYS: set<Key> := {Admin, Tax, People, Products, Configuration}

  function Cleared(d: Desk, now: nat): Desk {
    d.(cache := Cache(map[], map[]), purged := map k | k in ALL_KEYS :: now)
  }

  function BeginKey(d: Desk, key: Key, refetch: bool, now: nat): (Desk, Start) {
    var (cache, start) := Begin(d.cache, key, refetch, |d.requests|);
    var asks := MustRequest(Dropped(d.cache, key, refetch), key);
    (Desk(cache,
          if asks then d.requests + [Request(key, now, None)] else d.requests,
          d.origin,
          if refetch then d.purged[key := now] else d.purged),
     start)
  }

  function BeginKeys(d: Desk, keys: seq<Key>, refetch: bool, now: nat): (Desk, map<Key, Start>) {
    if keys == [] then (d, map[])
    else
      var (before, starts) := BeginKeys(d, keys[..|keys| - 1], refetch, now);
      var key := keys[|keys| - 1];
      var (after, start) := BeginKey(before, key, refetch, now);
      (after, starts[key := start])
  }

  function Settled(d: Desk, request: nat, outcome: Outcome): Desk
    requires request < |d.requests|
  {
    d.(requests := d.requests[request := d.requests[request].(outcome := Some(outcome))])
  }

  function ResumedKey(d: Desk, key: Key, request: nat, outcome: Outcome): Desk {
    var owns := key in d.cache.pending && d.cache.pending[key] == request;
    d.(cache := Resumed(d.cache, key, request, outcome),
       origin := if owns && outcome.Ok? then d.origin[key := request] else d.origin)
  }

  // The history only adds to what the cache itself does.
  lemma {:induction false} DeskFollowsCache(d: Desk, keys: seq<Key>, refetch: bool, now: nat)
    ensures var (after, starts) := BeginKeys(d, keys, refetch, now);
            var o := BeginAll(d.cache, keys, refetch, |d.requests|);
            after.cache == o.cache && starts == o.starts && |after.requests| == o.next
  {
    if keys != [] {
      DeskFollowsCache(d, keys[..|keys| - 1], refetch, now);
    }
  }

  /* ---- What every step keeps ---- */

  // Made for this key, since the key was last thrown away.
  predicate Current(d: Desk, key: Key, request: nat) {
    request < |d.requests| && d.requests[request].key == key && PurgedAt(d, key) <= d.requests[request].issuedAt
  }

  predicate Failed(r: Request) { r.outcome.Some? && r.outcome.value.Err? }

  // A cached value is the reply to a current request; a registered request is
  // current; never both; and no other current request of the key is alive.
  ghost predicate KeyInv(d: Desk, key: Key) {
    && (key in d.cache.values ==>
          && key in d.origin && Current(d, key, d.origin[key])
          && d.requests[d.origin[key]].outcome == Some(Ok(d.cache.values[key]))
          && key !in d.cache.pending)
    && (key in d.cache.pending ==> Current(d, key, d.cache.pending[key]))
    && (forall r | 0 <= r < |d.requests| && Current(d, key, r) && !Failed(d.requests[r]) ::
          || (key in d.cache.pending && d.cache.pending[key] == r)
          || (key in d.cache.values && d.origin[key] == r))
  }

  ghost predicate DeskInv(d: Desk) { forall key: Key :: KeyInv(d, key) }

  // Nothing was requested in the future; for these keys, not even now.
  ghost predicate Before(d: Desk, key: Key, now: nat) {
    forall r | 0 <= r < |d.requests| && d.requests[r].key == key :: d.requests[r].issuedAt < now
  }

  // The history of requests only grows, and replies are final.
  ghost predicate Extends(a: seq<Request>, b: seq<Request>) {
    |a| <= |b| && forall r | 0 <= r < |a| ::
      && b[r].key == a[r].key && b[r].issuedAt == a[r].issuedAt
      && (a[r].outcome.Some? ==> b[r].outcome == a[r].outcome)
  }

  // What a start promises: a reply already cached, or a request to wait for,
  // and in both cases one made since the resource was last thrown away.
  ghost predicate StartInv(d: Desk, key: Key, start: Start) {
    match start
    case Hit(v) =>
      key in d.cache.values && d.cache.values[key] == v && key in d.origin && Current(d, key, d.origin[key])
    case Waiting(r) => Current(d, key, r)
  }

  lemma BeginKeepsOwnKey(d: Desk, key: Key, refetch: bool, now: nat)
    requires KeyInv(d, key) && Before(d, key, now) && PurgedAt(d, key) <= now
    ensures var (after, start) := BeginKey(d, key, refetch, now);
            && KeyInv(after, key) && StartInv(after, key, start) && Extends(d.requests, after.requests)
            && Before(after, key, now + 1)
            && PurgedAt(after, key) == if refetch then now else PurgedAt(d, key)
  {
    var (after, start) := BeginKey(d, key, refetch, now);
    forall r | 0 <= r < |after.requests| && Current(after, key, r) && !Failed(after.requests[r])
      ensures (key in after.cache.pending && after.cache.pending[key] == r)
              || (key in after.cache.values && after.origin[key] == r)
    {
      if r < |d.requests| {
        assert after.requests[r] == d.requests[r];
        assert !refetch && Current(d, key, r);
      }
    }
  }

  // Two desks that a given key cannot tell apart, except by other keys' new requests.
  ghost predicate AlikeFor(a: Desk, b: Desk, key: Key) {
    && (key in a.cache.values <==> key in b.cache.values)
    && (key in a.cache.values ==> a.cache.values[key] == b.cache.values[key])
    && (key in a.cache.pending <==> key in b.cache.pending)
    && (key in a.cache.pending ==> a.cache.pending[key] == b.cache.pending[key])
    && a.origin == b.origin
    && PurgedAt(a, key) == PurgedAt(b, key)
    && a.requests <= b.requests
    && (forall r | |a.requests| <= r < |b.requests| :: b.requests[r].key != key)
  }

  lemma BeginTouchesOnlyItsKey(d: Desk, key: Key, refetch: bool, now: nat, other: Key)
    requires other != key
    ensures AlikeFor(d, BeginKey(d, key, refetch, now).0, other)
  {}

  lemma AlikeKeepsInv(a: Desk, b: Desk, key: Key)
    requires AlikeFor(a, b, key) && KeyInv(a, key)
    ensures KeyInv(b, key)
  {
    assert forall r | 0 <= r < |a.requests| :: Current(b, key, r) <==> Current(a, key, r);
  }

  // What opening some resources leaves behind, for any one resource.
  ghost predicate KeyOpened(
    d: Desk, keys: seq<Key>, refetch: bool, now: nat, after: Desk, starts: map<Key, Start>, key: Key)
  {
    && KeyInv(after, key) && Before(after, key, now + 1)
    && (key in starts <==> key in keys)
    && (key in keys ==> StartInv(after, key, starts[key]))
    && (key !in keys ==> Before(after, key, now))
    && PurgedAt(after, key) == if refetch && key in keys then now else PurgedAt(d, key)
  }

  lemma OtherKeyStaysOpened(
      d: Desk, keys: seq<Key>, refetch: bool, now: nat, before: Desk, starts: map<Key, Start>, key: Key, other: Key)
    requires other != key && KeyOpened(d, keys, refetch, now, before, starts, other)
    ensures var (after, start) := BeginKey(before, key, refetch, now);
            KeyOpened(d, keys + [key], refetch, now, after, starts[key := start], other)
  {
    BeginTouchesOnlyItsKey(before, key, refetch, now, other);
    AlikeKeepsInv(before, BeginKey(before, key, refetch, now).0, other);
    assert other in keys + [key] <==> other in keys;
  }

  // A load starts every one of its resources soundly.
  lemma {:induction false} BeginKeysKeepsInv(d: Desk, keys: seq<Key>, refetch: bool, now: nat)
    requires DeskInv(d)
    requires forall i, j | 0 <= i < j < |keys| :: keys[i] != keys[j]
    requires forall key: Key :: Before(d, key, now) && PurgedAt(d, key) <= now
    ensures var (after, starts) := BeginKeys(d, keys, refetch, now);
            && Extends(d.requests, after.requests)
            && forall key: Key :: KeyOpened(d, keys, refetch, now, after, starts, key)
  {
    if keys == [] {
      forall key: Key
        ensures KeyOpened(d, keys, refetch, now, d, map[], key)
      {
        assert KeyInv(d, key) && Before(d, key, now);
      }
    } else {
      var front, key := keys[..|keys| - 1], keys[|keys| - 1];
      BeginKeysKeepsInv(d, front, refetch, now);
      var (before, starts) := BeginKeys(d, front, refetch, now);
      var (after, start) := BeginKey(before, key, refetch, now);
      assert key !in front && keys == front + [key];
      assert KeyOpened(d, front, refetch, now, before, starts, key);
      BeginKeepsOwnKey(before, key, refetch, now);
      var grown := starts[key := start];
      forall other: Key
        ensures KeyOpened(d, keys, refetch, now, after, grown, other)
      {
        if other != key {
          OtherKeyStaysOpened(d, front, refetch, now, before, starts, key, other);
        }
      }
    }
  }

  lemma ClearedKeepsInv(d: Desk, now: nat)
    requires forall key: Key :: Before(d, key, now)
    ensures DeskInv(Cleared(d, now)) && forall key: Key :: PurgedAt(Cleared(d, now), key) == now
  {
    forall key: Key
      ensures PurgedAt(Cleared(d, now), key) == now && KeyInv(Cleared(d, now), key)
    {
      assert key == Admin || key == Tax || key == People || key == Products || key == Configuration;
      assert Before(d, key, now);
    }
  }

  lemma SettledKeepsInv(d: Desk, request: nat, outcome: Outcome)
    requires DeskInv(d) && request < |d.requests| && d.requests[request].outcome.None?
    ensures DeskInv(Settled(d, request, outcome))
    ensures Extends(d.requests, Settled(d, request, outcome).requests)
  {
    var after := Settled(d, request, outcome);
    forall key: Key
      ensures KeyInv(after, key)
    {
      assert KeyInv(d, key);
      assert forall r | 0 <= r < |d.requests| :: Current(after, key, r) <==> Current(d, key, r);
    }
  }

  lemma ResumedKeepsInv(d: Desk, key: Key, request: nat, outcome: Outcome)
    requires DeskInv(d) && request < |d.requests|
    requires d.requests[request].outcome == Some(outcome)
    ensures DeskInv(ResumedKey(d, key, request, outcome))
  {
    var after := ResumedKey(d, key, request, outcome);
    forall other: Key
      ensures KeyInv(after, other)
    {
      assert KeyInv(d, other);
      assert forall r | 0 <= r < |d.requests| :: Current(after, other, r) <==> Current(d, other, r);
    }
  }

  // At most one request of a key is alive since it was last thrown away.
  lemma OneRequestAlive(d: Desk, key: Key, r: nat, s: nat)
    requires DeskInv(d) && Current(d, key, r) && Current(d, key, s)
    requires !Failed(d.requests[r]) && !Failed(d.requests[s])
    ensures r == s
  {
    assert KeyInv(d, key);
  }
}
