/**
 The browser's device store: one identity and one pairing, changed only by
 transactions that compare before they write, from any number of tabs.
 */
module DeviceStore {
  import opened Wrappers

  datatype Authorization = Unknown | Active | Revoked

  datatype Identity = Identity(
    deviceId: string,
    credential: string,
    kind: string,
    displayName: string,
    authorization: Option<Authorization>)

  // A property of a stored value: missing or null, a string, or something else.
  datatype Field = Absent | Text(value: string) | Other

  // What the pairing slot may hold, whoever wrote it.
  datatype Stored =
    | NotAnObject
    | Fields(pairingId: Field, requestToken: Field, pairingCode: Field, expiresAt: Field,
             deviceId: Field, nestedDeviceId: Field, currentStatus: Field)

  datatype Pairing = Pairing(
    pairingId: string,
    requestToken: string,
    pairingCode: string,
    expiresAt: string,
    deviceId: string,
    currentStatus: string)

  const STATUSES: set<string> := {"PENDING", "ACTIVE", "EXPIRED", "CANCELLED"}

  function Normalize(v: Stored): Option<Pairing> {
    match v
    case NotAnObject => None
    case Fields(pairingId, token, code, expires, direct, nested, currentStatus) =>
      var deviceId := if direct.Text? then direct else nested;
      var status := if currentStatus.Absent? then Text("PENDING") else currentStatus;
      if pairingId.Text? && token.Text? && code.Text? && expires.Text? && deviceId.Text?
         && status.Text? && status.value in STATUSES
      then Some(Pairing(pairingId.value, token.value, code.value, expires.value, deviceId.value, status.value))
      else None
  }

  function AsStored(p: Pairing): Stored {
    Fields(Text(p.pairingId), Text(p.requestToken), Text(p.pairingCode), Text(p.expiresAt),
           Text(p.deviceId), Absent, Text(p.currentStatus))
  }

  // What is written reads back as it was written.
  lemma NormalizedIsStable(v: Stored)
    requires Normalize(v).Some?
    ensures Normalize(AsStored(Normalize(v).value)) == Normalize(v)
  {
    assert "PENDING" in STATUSES;
  }

  datatype Store = Store(identity: Option<Identity>, pairing: Stored)

  function DeviceOf(s: Store): Option<string> {
    if s.identity.Some? then Some(s.identity.value.deviceId) else None
  }

  function PairingIdOf(s: Store): Option<string> {
    match Normalize(s.pairing) case Some(p) => Some(p.pairingId) case None => None
  }

  // An optional argument counts as given only when it is not empty.
  predicate Given(argument: Option<string>) { argument.Some? && argument.value != "" }

  datatype Transaction =
    | Mark(expected: string, authorization: Authorization)
    | SavePairing(value: Stored, expectedPairing: Option<string>)
    | ClearPairing(expectedPairing: Option<string>)
    | Rotate(expected: string, deviceId: string, credential: string)
    | SaveIdentity(identity: Identity)
    | ClearIdentity

  predicate Saves(s: Store, value: Stored, expectedPairing: Option<string>) {
    && Normalize(value).Some?
    && DeviceOf(s) == Some(Normalize(value).value.deviceId)
    && (Given(expectedPairing) ==> PairingIdOf(s) == expectedPairing)
  }

  function Replacement(previous: Identity, deviceId: string, credential: string): Identity {
    Identity(deviceId, credential, previous.kind, previous.displayName, Some(Unknown))
  }

  function Apply(s: Store, t: Transaction): Store {
    match t
    case Mark(expected, authorization) =>
      if DeviceOf(s) == Some(expected)
      then s.(identity := Some(s.identity.value.(authorization := Some(authorization)))) else s
    case SavePairing(value, expectedPairing) =>
      if Saves(s, value, expectedPairing) then s.(pairing := AsStored(Normalize(value).value)) else s
    case ClearPairing(expectedPairing) =>
      if Given(expectedPairing) && PairingIdOf(s) != expectedPairing then s else s.(pairing := NotAnObject)
    case Rotate(expected, deviceId, credential) =>
      if DeviceOf(s) != Some(expected) then s
      else
        var stored := Normalize(s.pairing);
        Store(Some(Replacement(s.identity.value, deviceId, credential)),
              if stored.Some? && stored.value.deviceId == expected then NotAnObject else s.pairing)
    case SaveIdentity(identity) => s.(identity := Some(identity))
    case ClearIdentity => s.(identity := None)
  }

  class DeviceDatabase {
    var identity: Option<Identity>
    var pairing: Stored

    function View(): Store
      reads this
    {
      Store(identity, pairing)
    }

    constructor ()
      ensures View() == Store(None, NotAnObject)
    {
      identity, pairing := None, NotAnObject;
    }

    method MarkAuthorization(expected: string, authorization: Authorization) returns (updated: Option<Identity>)
      modifies this`identity
      ensures View() == Apply(old(View()), Mark(expected, authorization))
      ensures updated == if DeviceOf(old(View())) == Some(expected) then identity else None
    {
      if identity.None? || identity.value.deviceId != expected { return None; }
      updated := Some(identity.value.(authorization := Some(authorization)));
      identity := updated;
    }

    method Save(value: Stored, expectedPairing: Option<string>) returns (saved: bool)
      modifies this`pairing
      ensures View() == Apply(old(View()), SavePairing(value, expectedPairing))
      ensures saved <==> Saves(old(View()), value, expectedPairing)
    {
      var normalized := Normalize(value);
      if normalized.None? { return false; }
      if identity.None? || identity.value.deviceId != normalized.value.deviceId { return false; }
      if expectedPairing.Some? && expectedPairing.value != "" {
        var current := Normalize(pairing);
        if current.None? || current.value.pairingId != expectedPairing.value { return false; }
      }
      pairing := AsStored(normalized.value);
      saved := true;
    }

    method Clear(expectedPairing: Option<string>)
      modifies this`pairing
      ensures View() == Apply(old(View()), ClearPairing(expectedPairing))
    {
      if expectedPairing.Some? && expectedPairing.value != "" {
        var current := Normalize(pairing);
        if current.None? || current.value.pairingId != expectedPairing.value { return; }
      }
      pairing := NotAnObject;
    }

    // `deviceId` and `credential` are the newly generated ones.
    method RotateIdentity(expected: string, deviceId: string, credential: string)
      returns (replacement: Option<Identity>)
      modifies this
      ensures View() == Apply(old(View()), Rotate(expected, deviceId, credential))
      ensures replacement == if DeviceOf(old(View())) == Some(expected) then identity else None
    {
      if identity.None? || identity.value.deviceId != expected { return None; }
      var current := Normalize(pairing);
      replacement := Some(Replacement(identity.value, deviceId, credential));
      identity := replacement;
      if current.Some? && current.value.deviceId == expected { pairing := NotAnObject; }
    }
  }

  /* ---- The pairing belongs to the identity ---- */

  predicate Belongs(s: Store) {
    Normalize(s.pairing).Some? ==> DeviceOf(s) == Some(Normalize(s.pairing).value.deviceId)
  }

  // A conditional save whose pairing is no longer there does nothing; one that
  // goes through replaces exactly the pairing it named, on the stored device.
  lemma ConditionalSave(s: Store, value: Stored, expected: string)
    requires expected != ""
    ensures var t := Apply(s, SavePairing(value, Some(expected)));
            && (PairingIdOf(s) != Some(expected) ==> t == s)
            && (t != s ==>
                  && PairingIdOf(s) == Some(expected) && t.identity == s.identity
                  && Normalize(t.pairing) == Normalize(value) && Belongs(t))
  {
    if Normalize(value).Some? { NormalizedIsStable(value); }
  }

  // An unconditional identity write keeps a pairing where it belongs exactly when
  // there is none or it is already on the written device; all others always do.
  predicate KeepsPairing(s: Store, t: Transaction) {
    match t
    case SaveIdentity(v) => Normalize(s.pairing).None? || DeviceOf(s) == Some(v.deviceId)
    case ClearIdentity => Normalize(s.pairing).None?
    case _ => true
  }

  lemma UncheckedIdentityWrites(s: Store, t: Transaction)
    requires Belongs(s)
    ensures Belongs(Apply(s, t)) <==> KeepsPairing(s, t)
  {
    match t
    case SavePairing(value, _) =>
      if Normalize(value).Some? { NormalizedIsStable(value); }
    case _ =>
  }

  /* ---- Every interleaving of the tabs, from an empty store ---- */

  // The store, every device id it has held, and those rotated away, in order.
  datatype History = History(store: Store, used: set<string>, rotated: seq<string>)

  predicate Rotates(s: Store, t: Transaction) { t.Rotate? && DeviceOf(s) == Some(t.expected) }

  function Advance(h: History, t: Transaction): History {
    var s := Apply(h.store, t);
    History(s,
            h.used + (if s.identity.Some? then {s.identity.value.deviceId} else {}),
            if Rotates(h.store, t) then h.rotated + [t.expected] else h.rotated)
  }

  function Run(ts: seq<Transaction>): History {
    if ts == [] then History(Store(None, NotAnObject), {}, [])
    else Advance(Run(ts[..|ts| - 1]), ts[|ts| - 1])
  }

  // A pairing was never orphaned.
  ghost predicate BelongsThroughout(ts: seq<Transaction>) {
    forall i | 0 <= i <= |ts| :: Belongs(Run(ts[..i]).store)
  }

  ghost predicate WritesKeepPairings(ts: seq<Transaction>) {
    forall i | 0 <= i < |ts| :: KeepsPairing(Run(ts[..i]).store, ts[i])
  }

  lemma {:induction false} BelongsLast(ts: seq<Transaction>)
    requires ts != []
    ensures BelongsThroughout(ts) <==> BelongsThroughout(ts[..|ts| - 1]) && Belongs(Run(ts).store)
  {
    var front := ts[..|ts| - 1];
    assert forall i | 0 <= i <= |front| :: front[..i] == ts[..i];
    assert ts[..|ts|] == ts;
  }

  lemma {:induction false} WritesLast(ts: seq<Transaction>)
    requires ts != []
    ensures var front := ts[..|ts| - 1];
            WritesKeepPairings(ts) <==>
              WritesKeepPairings(front) && KeepsPairing(Run(front).store, ts[|ts| - 1])
  {
    var front := ts[..|ts| - 1];
    assert forall i | 0 <= i <= |front| :: front[..i] == ts[..i];
  }

  lemma {:induction false} BelongsNow(ts: seq<Transaction>)
    requires BelongsThroughout(ts)
    ensures Belongs(Run(ts).store)
  {
    assert ts[..|ts|] == ts;
  }

  // Over every interleaving of marks, saves, clears, rotations and identity
  // writes: a stored pairing is on the stored device all along if and only if
  // each unconditional identity write met no pairing of another device.
  lemma {:induction false} PairingBelongsToIdentity(ts: seq<Transaction>)
    ensures BelongsThroughout(ts) <==> WritesKeepPairings(ts)
  {
    if ts != [] {
      var n := |ts| - 1;
      PairingBelongsToIdentity(ts[..n]);
      BelongsLast(ts);
      WritesLast(ts);
      if BelongsThroughout(ts[..n]) {
        BelongsNow(ts[..n]);
        UncheckedIdentityWrites(Run(ts[..n]).store, ts[n]);
      }
    } else {
      assert ts[..0] == [];
    }
  }

  // The ids that rotations generate were never stored before.
  ghost predicate GeneratedIdsAreNew(ts: seq<Transaction>) {
    forall i | 0 <= i < |ts| && Rotates(Run(ts[..i]).store, ts[i]) :: ts[i].deviceId !in Run(ts[..i]).used
  }

  // No tab saves an identity that was rotated away before.
  ghost predicate NoStaleIdentity(ts: seq<Transaction>) {
    forall i | 0 <= i < |ts| && ts[i].SaveIdentity? :: ts[i].identity.deviceId !in Run(ts[..i]).rotated
  }

  predicate StaysAway(h: History) {
    h.store.identity.Some? ==> h.store.identity.value.deviceId !in h.rotated
  }

  ghost predicate StaysAwayThroughout(ts: seq<Transaction>) {
    forall i | 0 <= i <= |ts| :: StaysAway(Run(ts[..i]))
  }

  ghost predicate UsedInv(h: History) {
    && (h.store.identity.Some? ==> h.store.identity.value.deviceId in h.used)
    && forall i | 0 <= i < |h.rotated| :: h.rotated[i] in h.used
  }

  lemma {:induction false} RunIsUsed(ts: seq<Transaction>)
    ensures UsedInv(Run(ts))
  {
    if ts != [] { RunIsUsed(ts[..|ts| - 1]); }
  }

  lemma OneStepAway(h: History, t: Transaction)
    requires UsedInv(h) && StaysAway(h) && (Rotates(h.store, t) ==> t.deviceId !in h.used)
    ensures StaysAway(Advance(h, t)) <==> (t.SaveIdentity? ==> t.identity.deviceId !in h.rotated)
  {}

  lemma {:induction false} AwayLast(ts: seq<Transaction>)
    requires ts != []
    ensures StaysAwayThroughout(ts) <==> StaysAwayThroughout(ts[..|ts| - 1]) && StaysAway(Run(ts))
  {
    var front := ts[..|ts| - 1];
    assert forall i | 0 <= i <= |front| :: front[..i] == ts[..i];
    assert ts[..|ts|] == ts;
  }

  lemma {:induction false} StaleLast(ts: seq<Transaction>)
    requires ts != []
    ensures var front, t := ts[..|ts| - 1], ts[|ts| - 1];
            && (NoStaleIdentity(ts) <==>
                  (NoStaleIdentity(front) && (t.SaveIdentity? ==> t.identity.deviceId !in Run(front).rotated)))
            && (GeneratedIdsAreNew(ts) ==>
                  GeneratedIdsAreNew(front) && (Rotates(Run(front).store, t) ==> t.deviceId !in Run(front).used))
  {
    var front := ts[..|ts| - 1];
    assert forall i | 0 <= i <= |front| :: front[..i] == ts[..i];
  }

  lemma {:induction false} AwayNow(ts: seq<Transaction>)
    requires StaysAwayThroughout(ts)
    ensures StaysAway(Run(ts))
  {
    assert ts[..|ts|] == ts;
  }

  // A device id that was rotated away never comes back if and only if no tab
  // that missed the rotation saves it again.
  lemma {:induction false} RotatedDeviceStaysAway(ts: seq<Transaction>)
    requires GeneratedIdsAreNew(ts)
    ensures StaysAwayThroughout(ts) <==> NoStaleIdentity(ts)
  {
    if ts != [] {
      var front := ts[..|ts| - 1];
      AwayLast(ts);
      StaleLast(ts);
      RotatedDeviceStaysAway(front);
      RunIsUsed(front);
      if StaysAwayThroughout(front) {
        AwayNow(front);
        OneStepAway(Run(front), ts[|ts| - 1]);
      }
    } else {
      assert ts[..0] == [];
    }
  }

  predicate AllDifferent(ids: seq<string>) {
    forall i, j | 0 <= i < j < |ids| :: ids[i] != ids[j]
  }

  lemma OneRotation(h: History, t: Transaction)
    requires StaysAway(h) && AllDifferent(h.rotated)
    ensures AllDifferent(Advance(h, t).rotated)
  {}

  // In such a run no device id is rotated away twice.
  lemma {:induction false} RotatedAwayOnce(ts: seq<Transaction>)
    requires GeneratedIdsAreNew(ts) && NoStaleIdentity(ts)
    ensures AllDifferent(Run(ts).rotated)
  {
    if ts != [] {
      var front := ts[..|ts| - 1];
      StaleLast(ts);
      RotatedAwayOnce(front);
      RotatedDeviceStaysAway(front);
      AwayNow(front);
      OneRotation(Run(front), ts[|ts| - 1]);
    }
  }

  // Nor does anything another tab still does for that id, now or later, change
  // anything: no mark, no second rotation, no pairing.
  lemma {:induction false} RotatedDeviceIsInert(ts: seq<Transaction>, i: nat, late: Transaction)
    requires GeneratedIdsAreNew(ts) && NoStaleIdentity(ts) && i < |Run(ts).rotated|
    requires
      var gone := Run(ts).rotated[i];
      match late
      case Mark(expected, _) => expected == gone
      case Rotate(expected, _, _) => expected == gone
      case SavePairing(value, _) => Normalize(value).Some? && Normalize(value).value.deviceId == gone
      case _ => false
    ensures Apply(Run(ts).store, late) == Run(ts).store
  {
    RotatedDeviceStaysAway(ts);
    AwayNow(ts);
  }

  /* ---- Two interleavings of the tabs that break it ---- */

  function After(ts: seq<Transaction>, t: Transaction): seq<Transaction> { ts + [t] }

  lemma {:induction false} RunAfter(ts: seq<Transaction>, t: Transaction)
    ensures Run(After(ts, t)) == Advance(Run(ts), t)
  {
    assert After(ts, t)[..|ts|] == ts;
  }

  // One tab rotates the identity and pairs the new device; another, which missed
  // that, renames the identity it still has.  The pairing is orphaned and the
  // rotated device is back.
  lemma {:induction false} StaleRenameOrphansPairing(
    v: Identity, renamed: Identity, fresher: string, credential: string, pairing: Stored)
    returns (ts: seq<Transaction>)
    requires renamed.deviceId == v.deviceId && fresher != v.deviceId
    requires Normalize(pairing).Some? && Normalize(pairing).value.deviceId == fresher
    ensures ts == After(After(After(After([], SaveIdentity(v)), Rotate(v.deviceId, fresher, credential)),
                              SavePairing(pairing, None)), SaveIdentity(renamed))
    ensures !Belongs(Run(ts).store) && !StaysAway(Run(ts))
  {
    var created := After([], SaveIdentity(v));
    var rotated := After(created, Rotate(v.deviceId, fresher, credential));
    var paired := After(rotated, SavePairing(pairing, None));
    ts := After(paired, SaveIdentity(renamed));
    RunAfter([], SaveIdentity(v));
    RunAfter(created, Rotate(v.deviceId, fresher, credential));
    RunAfter(rotated, SavePairing(pairing, None));
    RunAfter(paired, SaveIdentity(renamed));
    NormalizedIsStable(pairing);
    assert Run(rotated).rotated == [v.deviceId];
  }

  // Two tabs find no identity; the second creates its own after the first has
  // paired, and the pairing is orphaned.
  lemma {:induction false} RacingCreationsOrphanPairing(v: Identity, w: Identity, pairing: Stored)
    returns (ts: seq<Transaction>)
    requires v.deviceId != w.deviceId
    requires Normalize(pairing).Some? && Normalize(pairing).value.deviceId == v.deviceId
    ensures ts == After(After(After([], SaveIdentity(v)), SavePairing(pairing, None)), SaveIdentity(w))
    ensures !Belongs(Run(ts).store)
  {
    var created := After([], SaveIdentity(v));
    var paired := After(created, SavePairing(pairing, None));
    ts := After(paired, SaveIdentity(w));
    RunAfter([], SaveIdentity(v));
    RunAfter(created, SavePairing(pairing, None));
    RunAfter(paired, SaveIdentity(w));
    NormalizedIsStable(pairing);
  }
}
