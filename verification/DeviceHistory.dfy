/**
 Where everything in the device store comes from, over every interleaving of
 its transactions: the pairing, the device and its secret, its name, and its
 authorization.
 */
module DeviceHistory {
  import opened Wrappers
  import opened DeviceStore

  // The pairing a stored value stands for: every field a string, the device in
  // either of two places, a missing status pending.
  predicate Reads(v: Stored, p: Pairing) {
    && v.Fields?
    && v.pairingId == Text(p.pairingId) && v.requestToken == Text(p.requestToken)
    && v.pairingCode == Text(p.pairingCode) && v.expiresAt == Text(p.expiresAt)
    && (v.deviceId == Text(p.deviceId) || (!v.deviceId.Text? && v.nestedDeviceId == Text(p.deviceId)))
    && (v.currentStatus == Text(p.currentStatus) || (v.currentStatus.Absent? && p.currentStatus == "PENDING"))
    && (p.currentStatus == "PENDING" || p.currentStatus == "ACTIVE"
        || p.currentStatus == "EXPIRED" || p.currentStatus == "CANCELLED")
  }

  lemma NormalizeExactly(v: Stored, p: Pairing)
    ensures Normalize(v) == Some(p) <==> Reads(v, p)
  {
    assert forall x :: x in STATUSES <==> x == "PENDING" || x == "ACTIVE" || x == "EXPIRED" || x == "CANCELLED";
  }

  /* ---- What one transaction puts into the store ---- */

  datatype Part = PairingPart | SecretPart | NamePart | AuthorizationPart

  datatype Content =
    | Paired(pairing: Pairing)
    | Secret(deviceId: string, credential: string)
    | Named(kind: string, displayName: string)
    | Authorized(authorization: Option<Authorization>)

  function Holds(s: Store, part: Part): Option<Content> {
    if part.PairingPart? then match Normalize(s.pairing) case Some(p) => Some(Paired(p)) case None => None
    else if s.identity.None? then None
    else
      var v := s.identity.value;
      Some(match part
           case SecretPart => Secret(v.deviceId, v.credential)
           case NamePart => Named(v.kind, v.displayName)
           case _ => Authorized(v.authorization))
  }

  predicate IsDevice(s: Store, deviceId: string) { s.identity.Some? && s.identity.value.deviceId == deviceId }

  predicate IsPairing(s: Store, pairingId: string) {
    Normalize(s.pairing).Some? && Normalize(s.pairing).value.pairingId == pairingId
  }

  // The pairing an optional argument names: none or an empty one names any.
  predicate Names(s: Store, pairingId: Option<string>) {
    pairingId.None? || |pairingId.value| == 0 || IsPairing(s, pairingId.value)
  }

  predicate Sets(s: Store, t: Transaction, part: Part) {
    match t
    case Mark(expected, _) => part.AuthorizationPart? && IsDevice(s, expected)
    case SavePairing(value, expected) =>
      && part.PairingPart? && Normalize(value).Some? && IsDevice(s, Normalize(value).value.deviceId)
      && Names(s, expected)
    case ClearPairing(expected) => part.PairingPart? && Names(s, expected)
    case Rotate(expected, _, _) =>
      && IsDevice(s, expected) && !part.NamePart?
      && (part.PairingPart? ==> Normalize(s.pairing).Some? && Normalize(s.pairing).value.deviceId == expected)
    case SaveIdentity(_) => !part.PairingPart?
    case ClearIdentity => !part.PairingPart?
  }

  // What it puts there; nothing where it removes.
  function Put(t: Transaction, part: Part): Option<Content> {
    match t
    case Mark(_, authorization) => Some(Authorized(Some(authorization)))
    case SavePairing(value, _) => if Normalize(value).Some? then Some(Paired(Normalize(value).value)) else None
    case Rotate(_, deviceId, credential) =>
      (match part
       case SecretPart => Some(Secret(deviceId, credential))
       case AuthorizationPart => Some(Authorized(Some(Unknown)))
       case _ => None)
    case SaveIdentity(v) =>
      (match part
       case SecretPart => Some(Secret(v.deviceId, v.credential))
       case NamePart => Some(Named(v.kind, v.displayName))
       case _ => Some(Authorized(v.authorization)))
    case _ => None
  }

  lemma PartStep(s: Store, t: Transaction, part: Part)
    ensures Holds(Apply(s, t), part) == if Sets(s, t, part) then Put(t, part) else Holds(s, part)
  {
    if t.SavePairing? && Normalize(t.value).Some? { NormalizedIsStable(t.value); }
  }

  // A pairing is written as a plain record, whatever shape it came in.
  lemma SavedAsPlainRecord(s: Store, value: Stored, expected: Option<string>)
    requires Sets(s, SavePairing(value, expected), PairingPart)
    ensures var stored := Apply(s, SavePairing(value, expected)).pairing;
            && stored.Fields? && stored.deviceId == Text(Normalize(value).value.deviceId)
            && stored.nestedDeviceId == Absent && stored.currentStatus == Text(Normalize(value).value.currentStatus)
            && Normalize(stored) == Normalize(value)
  {
    NormalizedIsStable(value);
  }

  /* ---- Over every interleaving ---- */

  ghost predicate SetsAt(ts: seq<Transaction>, i: nat, part: Part) {
    i < |ts| && Sets(Run(ts[..i]).store, ts[i], part)
  }

  ghost predicate SetLast(ts: seq<Transaction>, i: nat, part: Part) {
    SetsAt(ts, i, part) && forall j: nat | i < j :: !SetsAt(ts, j, part)
  }

  lemma {:induction false} SetsEarlier(front: seq<Transaction>, t: Transaction, i: nat, part: Part)
    requires i < |front|
    ensures SetsAt(front + [t], i, part) <==> SetsAt(front, i, part)
  {
    assert (front + [t])[..i] == front[..i];
  }

  lemma {:induction false} OneMore(front: seq<Transaction>, t: Transaction, part: Part)
    ensures SetsAt(front + [t], |front|, part) <==> Sets(Run(front).store, t, part)
    ensures Run(front + [t]).store == Apply(Run(front).store, t)
    ensures forall i: nat | i < |front| :: SetsAt(front + [t], i, part) <==> SetsAt(front, i, part)
  {
    assert (front + [t])[..|front|] == front;
    forall i: nat | i < |front|
      ensures SetsAt(front + [t], i, part) <==> SetsAt(front, i, part)
    {
      SetsEarlier(front, t, i, part);
    }
  }

  // Over every interleaving: each part of the store is what the last transaction
  // that sets it put there, and missing if there is none.
  lemma {:induction false} LastSetterDecides(ts: seq<Transaction>, part: Part)
    ensures forall i: nat :: SetLast(ts, i, part) ==> Holds(Run(ts).store, part) == Put(ts[i], part)
    ensures (forall i: nat :: !SetsAt(ts, i, part)) ==> Holds(Run(ts).store, part) == None
  {
    if ts != [] {
      var n := |ts| - 1;
      var front, t := ts[..n], ts[n];
      assert ts == front + [t];
      LastSetterDecides(front, part);
      OneMore(front, t, part);
      PartStep(Run(front).store, t, part);
      forall i: nat | SetLast(ts, i, part)
        ensures Holds(Run(ts).store, part) == Put(ts[i], part)
      {
        if i < n { assert SetLast(front, i, part); }
      }
      if forall i: nat :: !SetsAt(ts, i, part) {
        assert forall i: nat :: !SetsAt(front, i, part);
      }
    }
  }
}
