/**
 The TCP printer adapter: one settle-once session per call, driven by the events
 of its socket and its timer. A destroyed socket sends nothing.
 */
module TcpPrinter {
  import opened Wrappers

  // What the adapter's promise settles with.
  datatype Reply =
    | Resolved(delivered: bool)
    | Rejected(uncertain: bool)
    | Thrown

  // A print target; a configuration entry of the wrong type reads as none.
  datatype Target = Target(active: bool, host: Option<string>, port: Option<int>)

  datatype Timer = NoTimer | ConnectTimer | WriteTimer

  // `handed` counts the payloads given to a connected, live socket.
  datatype Session = Session(connected: bool, timer: Timer, destroyed: bool, handed: nat, reply: Option<Reply>)

  // The end callback runs with or without an error; the adapter does not look.
  datatype Event = Connect | SocketError | Timeout | Ended(failed: bool)

  predicate ValidConfiguration(t: Target) {
    && t.host.Some? && t.host.value != ""
    && t.port.Some? && 1 <= t.port.value <= 65535
  }

  const OPENED: Session := Session(false, ConnectTimer, false, 0, None)

  function Refused(reply: Reply): Session { Session(false, NoTimer, true, 0, Some(reply)) }

  // A call before its first event: the target is read, the ticket rendered, and
  // only then is there a socket.
  function Open(t: Target, renders: bool): Session {
    if !ValidConfiguration(t) then Refused(Rejected(false))
    else if !renders then Refused(Thrown)
    else OPENED
  }

  function Finish(s: Session, reply: Reply): Session {
    if s.reply.Some? then s else s.(timer := NoTimer, destroyed := true, reply := Some(reply))
  }

  function Fail(s: Session): Session { Finish(s, Rejected(s.connected)) }

  function React(s: Session, e: Event): Session {
    match e
    case Connect =>
      if s.connected then s
      else s.(connected := true, timer := WriteTimer, handed := if s.destroyed then s.handed else s.handed + 1)
    case SocketError => Fail(s)
    case Timeout => if s.timer.NoTimer? then s else Fail(s.(timer := NoTimer))
    case Ended(_) => if s.connected then Finish(s, Resolved(true)) else s
  }

  function ReactAll(s: Session, es: seq<Event>): Session
    decreases |es|
  {
    if es == [] then s else ReactAll(React(s, es[0]), es[1..])
  }

  class PrintSession {
    var connected: bool
    var settled: bool
    var timer: Timer
    var destroyed: bool
    var handed: nat
    var reply: Reply

    function View(): Session
      reads this
    {
      Session(connected, timer, destroyed, handed, if settled then Some(reply) else None)
    }

    constructor ()
      ensures View() == OPENED
    {
      connected, settled, timer, destroyed, handed, reply := false, false, ConnectTimer, false, 0, Thrown;
    }

    method Settle(result: Reply)
      modifies this
      ensures View() == Finish(old(View()), result)
    {
      if settled { return; }
      settled := true;
      timer := NoTimer;
      destroyed := true;
      reply := result;
    }

    method OnConnect()
      modifies this
      ensures View() == React(old(View()), Connect)
    {
      if connected { return; }
      connected := true;
      timer := WriteTimer;
      if !destroyed { handed := handed + 1; }
    }

    method OnError()
      modifies this
      ensures View() == React(old(View()), SocketError)
    {
      Settle(Rejected(connected));
    }

    method OnTimeout()
      modifies this
      ensures View() == React(old(View()), Timeout)
    {
      if timer.NoTimer? { return; }
      timer := NoTimer;
      Settle(Rejected(connected));
    }

    method OnEnded(failed: bool)
      modifies this
      ensures View() == React(old(View()), Ended(failed))
    {
      if connected { Settle(Resolved(true)); }
    }
  }

  /* ---- What a reply says about the wire ---- */

  predicate SaysNothingSent(r: Reply) { r == Rejected(false) || r.Thrown? }

  // A reply of "not started" means no byte was handed over, and any other reply
  // that exactly one payload was; an unsettled session has a live socket.
  predicate Truthful(s: Session) {
    && s.destroyed == s.reply.Some?
    && (s.reply.None? ==>
          s.timer == (if s.connected then WriteTimer else ConnectTimer) && s.handed == if s.connected then 1 else 0)
    && (s.reply.Some? ==> s.handed == if SaysNothingSent(s.reply.value) then 0 else 1)
  }

  lemma OpenIsTruthful(t: Target, renders: bool)
    ensures Truthful(Open(t, renders)) && Open(t, renders).handed == 0
    ensures Open(t, renders).reply.None? <==> ValidConfiguration(t) && renders
  {}

  // An event keeps that, and once settled the reply and the wire are final.
  lemma ReactKeepsTruth(s: Session, e: Event)
    requires Truthful(s)
    ensures Truthful(React(s, e))
    ensures s.reply.Some? ==> React(s, e).reply == s.reply && React(s, e).handed == s.handed
    ensures s.reply.None? && React(s, e).reply.Some? ==> React(s, e).timer.NoTimer?
    ensures s.handed <= React(s, e).handed
  {}

  /* ---- Which event decides ---- */

  ghost predicate ConnectedBy(es: seq<Event>, i: nat) {
    exists j: nat :: j < i && j < |es| && es[j].Connect?
  }

  // An event that can end the call: any failure, or the end of a started write.
  ghost predicate CanSettle(es: seq<Event>, i: nat) {
    i < |es| && (es[i].SocketError? || es[i].Timeout? || (es[i].Ended? && ConnectedBy(es, i)))
  }

  ghost predicate Decides(es: seq<Event>, i: nat) {
    CanSettle(es, i) && forall j: nat :: j < i ==> !CanSettle(es, j)
  }

  function ReplyOf(e: Event, connected: bool): Reply {
    if e.Ended? then Resolved(true) else Rejected(connected)
  }

  ghost predicate Undecided(es: seq<Event>) {
    forall i: nat :: !CanSettle(es, i)
  }

  lemma ReactAllLast(s: Session, es: seq<Event>, e: Event)
    ensures ReactAll(s, es + [e]) == React(ReactAll(s, es), e)
    decreases |es|
  {
    if es == [] {
      assert [e][1..] == [];
      assert es + [e] == [e];
    } else {
      assert (es + [e])[1..] == es[1..] + [e];
      ReactAllLast(React(s, es[0]), es[1..], e);
    }
  }

  lemma EarlierEvents(es: seq<Event>, e: Event, i: nat)
    ensures i <= |es| ==> (ConnectedBy(es + [e], i) <==> ConnectedBy(es, i))
    ensures i < |es| ==> (CanSettle(es + [e], i) <==> CanSettle(es, i))
  {
    var all := es + [e];
    assert forall j: nat :: j < |es| ==> all[j] == es[j];
    if i <= |es| && ConnectedBy(all, i) {
      var j: nat :| j < i && j < |all| && all[j].Connect?;
      assert es[j].Connect?;
    }
    if i <= |es| && ConnectedBy(es, i) {
      var j: nat :| j < i && j < |es| && es[j].Connect?;
      assert all[j].Connect?;
    }
  }

  // Over every order of events: nothing is settled until some event decides, and
  // then the reply is that event's, whatever follows it.
  ghost predicate Explained(es: seq<Event>, s: Session) {
    && (s.reply.None? <==> Undecided(es))
    && (s.reply.None? ==> (s.connected <==> ConnectedBy(es, |es|)))
    && (forall i: nat :: Decides(es, i) ==> s.reply == Some(ReplyOf(es[i], ConnectedBy(es, i))))
  }

  lemma {:induction false} FirstEventDecides(es: seq<Event>)
    ensures Truthful(ReactAll(OPENED, es)) && Explained(es, ReactAll(OPENED, es))
    decreases |es|
  {
    if es != [] {
      var front, last := es[..|es| - 1], es[|es| - 1];
      assert es == front + [last];
      FirstEventDecides(front);
      ReactAllLast(OPENED, front, last);
      ReactKeepsTruth(ReactAll(OPENED, front), last);
      OneMoreEvent(front, last, ReactAll(OPENED, front));
    }
  }

  lemma OneMoreEvent(es: seq<Event>, e: Event, s: Session)
    requires Truthful(s) && Explained(es, s)
    ensures Explained(es + [e], React(s, e))
  {
    var all, t := es + [e], React(s, e);
    forall i: nat
      ensures i <= |es| ==> (ConnectedBy(all, i) <==> ConnectedBy(es, i))
      ensures i < |es| ==> (CanSettle(all, i) <==> CanSettle(es, i))
    {
      EarlierEvents(es, e, i);
    }
    LastConnects(es, e);
    if s.reply.None? {
      assert CanSettle(all, |es|) <==> t.reply.Some?;
    } else {
      var i: nat :| CanSettle(es, i);
      assert CanSettle(all, i);
      ReactKeepsTruth(s, e);
    }
    forall i: nat | Decides(all, i)
      ensures t.reply == Some(ReplyOf(all[i], ConnectedBy(all, i)))
    {
      if i < |es| { assert Decides(es, i) && all[i] == es[i]; }
      else { assert Undecided(es); }
    }
  }

  lemma LastConnects(es: seq<Event>, e: Event)
    ensures ConnectedBy(es + [e], |es| + 1) <==> ConnectedBy(es, |es|) || e.Connect?
  {
    var all := es + [e];
    EarlierEvents(es, e, |es|);
    assert all[|es|] == e;
    if ConnectedBy(all, |es| + 1) {
      var j: nat :| j < |es| + 1 && j < |all| && all[j].Connect?;
      if j < |es| { assert ConnectedBy(all, |es|); }
    }
    if ConnectedBy(all, |es|) {
      var j: nat :| j < |es| && j < |all| && all[j].Connect?;
    }
  }

  /* ---- What a delivery is worth ---- */

  lemma {:induction false} SomeEventDecides(es: seq<Event>, i: nat) returns (first: nat)
    requires CanSettle(es, i)
    ensures Decides(es, first)
  {
    if j: nat :| j < i && CanSettle(es, j) { first := SomeEventDecides(es, j); } else { first := i; }
  }

  // A call is delivered exactly when the end callback is what decides it.
  lemma {:induction false} DeliveredExactly(es: seq<Event>)
    ensures ReactAll(OPENED, es).reply == Some(Resolved(true)) <==>
              exists i: nat :: Decides(es, i) && es[i].Ended?
  {
    FirstEventDecides(es);
    if ReactAll(OPENED, es).reply.Some? {
      var i: nat :| CanSettle(es, i);
      var first := SomeEventDecides(es, i);
    }
  }

  // The same events for an adapter that looks at the error of the end callback
  // and takes it for an error of the socket.
  ghost function Heeded(es: seq<Event>): (h: seq<Event>)
    ensures |h| == |es|
  {
    seq(|es|, i requires 0 <= i < |es| => if es[i] == Ended(true) && ConnectedBy(es, i) then SocketError else es[i])
  }

  lemma HeededSettlesAlike(es: seq<Event>, i: nat)
    ensures ConnectedBy(Heeded(es), i) <==> ConnectedBy(es, i)
    ensures CanSettle(Heeded(es), i) <==> CanSettle(es, i)
  {
    if ConnectedBy(es, i) {
      var j: nat :| j < i && j < |es| && es[j].Connect?;
      assert Heeded(es)[j].Connect?;
    }
    if ConnectedBy(Heeded(es), i) {
      var j: nat :| j < i && j < |es| && Heeded(es)[j].Connect?;
      assert es[j].Connect?;
    }
  }

  // Looking at the error would make a difference exactly when the end callback
  // that decides the call carries one: a delivery would be in doubt.
  lemma {:induction false} ErrorsGoUnheeded(es: seq<Event>)
    ensures ReactAll(OPENED, es).reply != ReactAll(OPENED, Heeded(es)).reply <==>
              exists i: nat :: Decides(es, i) && es[i] == Ended(true)
    ensures ReactAll(OPENED, es).reply != ReactAll(OPENED, Heeded(es)).reply ==>
              ReactAll(OPENED, es).reply == Some(Resolved(true)) &&
              ReactAll(OPENED, Heeded(es)).reply == Some(Rejected(true))
  {
    FirstEventDecides(es);
    FirstEventDecides(Heeded(es));
    forall i: nat
      ensures ConnectedBy(Heeded(es), i) <==> ConnectedBy(es, i)
      ensures CanSettle(Heeded(es), i) <==> CanSettle(es, i)
    {
      HeededSettlesAlike(es, i);
    }
    if i: nat :| CanSettle(es, i) {
      var first := SomeEventDecides(es, i);
      assert Decides(Heeded(es), first);
      assert forall k: nat | Decides(es, k) :: k == first;
    } else {
      assert Undecided(es) && Undecided(Heeded(es));
    }
  }

  // Such a call: the printer is connected, and the write ends with an error.
  lemma FailedWriteCountsAsDelivered()
    ensures ReactAll(OPENED, [Connect, Ended(true)]).reply == Some(Resolved(true))
  {
    var es := [Connect, Ended(true)];
    assert es[1..] == [Ended(true)] && es[1..][1..] == [];
  }
}
