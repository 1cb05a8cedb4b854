/** The connection-finalization sequence (MS-RDPBCGR section 1.3.1.1) as a
    reference definition: twelve fallible steps run in a fixed order, each
    against what the client sent and what the socket accepts, stopping at
    the first step that fails. */
module Handshake {
  import opened Bytes
  import opened Wrappers
  import opened Protocol
  import opened ShareHeaders
  import opened Pdus
  import opened Transport

  datatype Step =
    | RecvClientInfo | SendLicenseError | SendDemandActive | RecvConfirmActive
    | RecvSynchronize | RecvControlCooperate | RecvControlRequest | RecvFontList
    | SendSynchronize | SendControlCooperate | SendControlGrant | SendFontMap
  {
    predicate IsReceive()
    {
      RecvClientInfo? || RecvConfirmActive? || RecvSynchronize? || RecvControlCooperate?
      || RecvControlRequest? || RecvFontList?
    }
  }

  /** The only order the client's state machine accepts, in four
      stretches: the client's info packet; the licensing and capability
      PDUs the server sends; the client's Confirm Active and finalization
      PDUs; the server's finalization PDUs. */
  const InfoSteps: seq<Step> := [RecvClientInfo]
  const LicensingSteps: seq<Step> := [SendLicenseError, SendDemandActive]
  const ClientFinalSteps: seq<Step> :=
    [RecvConfirmActive, RecvSynchronize, RecvControlCooperate, RecvControlRequest, RecvFontList]
  const ServerFinalSteps: seq<Step> :=
    [SendSynchronize, SendControlCooperate, SendControlGrant, SendFontMap]
  const Order: seq<Step> := InfoSteps + (LicensingSteps + (ClientFinalSteps + ServerFinalSteps))

  /** What the steps act on: the inbound script, the writes the socket
      still accepts, and the PDUs on the wire so far, in order. */
  datatype Env = Env(inbound: seq<Inbound>, sendsLeft: nat, sent: seq<Outbound>)

  /** What the steps depend on but do not change: the client's user
      channel, the capability catalog's output, and the packet's size. */
  datatype Config = Config(userChannelId: u16, numberCapabilities: u16, capabilitySets: seq<u8>, capacity: nat)

  datatype Outcome = Outcome(ok: bool, env: Env)

  /** A share PDU of control type `pduType` with an acceptable header. */
  predicate IsShare(s: seq<u8>, pduType: u4)
    requires DataHeaderPresent(s)
  {
    Decode(s).Some? && Decode(s).value.ctrl.pduType == pduType
  }

  /** A data PDU of subtype `pduType2` with an acceptable header. */
  predicate IsData(s: seq<u8>, pduType2: u8)
    requires DataHeaderPresent(s)
  {
    IsShare(s, PDUTYPE_DATAPDU) && Decode(s).value.pduType2 == pduType2
  }

  /** The action field of a Control PDU, right after the data header. */
  function ControlAction(s: seq<u8>): u16
    requires ControlActionPresent(s) && IsData(s, PDUTYPE2_CONTROL)
  {
    U16At(s, SHARE_DATA_HEADER_SIZE)
  }

  /** Which share-layer receive step takes `s`: a Confirm Active PDU, or a
      data PDU that is a Synchronize, a Font List, or a Control PDU with
      the cooperate or the request-control action; anything else, a PDU
      whose header is rejected, or one whose announced fields did not all
      arrive, is taken by none. */
  function Classify(s: seq<u8>): Option<Step>
  {
    if !ControlActionPresent(s) || Decode(s).None? then None
    else
      var h := Decode(s).value;
      if h.ctrl.pduType == PDUTYPE_CONFIRMACTIVEPDU then Some(RecvConfirmActive)
      else if h.ctrl.pduType != PDUTYPE_DATAPDU then None
      else if h.pduType2 == PDUTYPE2_SYNCHRONIZE then Some(RecvSynchronize)
      else if h.pduType2 == PDUTYPE2_FONTLIST then Some(RecvFontList)
      else if h.pduType2 != PDUTYPE2_CONTROL then None
      else if U16At(s, SHARE_DATA_HEADER_SIZE) == CTRLACTION_COOPERATE then Some(RecvControlCooperate)
      else if U16At(s, SHARE_DATA_HEADER_SIZE) == CTRLACTION_REQUEST_CONTROL then Some(RecvControlRequest)
      else None
  }

  /** The check a receive step applies to the PDU it received: the client
      info packet is judged by its security flags and channel, the others
      by their share header. */
  predicate Accepts(s: Step, x: Inbound)
    requires s.IsReceive() && x.Arrived?
  {
    if s.RecvClientInfo? then x.flags == SEC_INFO_PKT && x.channel == MCS_IO_CHANNEL_ID
    else Classify(x.body) == Some(s)
  }

  /** The checks of the share-layer receive steps, one by one: a Confirm
      Active must carry that type; a Synchronize or a Font List must be a
      data PDU of that subtype; the two control steps must get a Control
      data PDU with the cooperate or the request-control action. */
  lemma AcceptsChecks(x: Inbound)
    requires x.Arrived? && ControlActionPresent(x.body)
    ensures Accepts(RecvConfirmActive, x) <==> IsShare(x.body, PDUTYPE_CONFIRMACTIVEPDU)
    ensures Accepts(RecvSynchronize, x) <==> IsData(x.body, PDUTYPE2_SYNCHRONIZE)
    ensures Accepts(RecvControlCooperate, x) <==>
      IsData(x.body, PDUTYPE2_CONTROL) && ControlAction(x.body) == CTRLACTION_COOPERATE
    ensures Accepts(RecvControlRequest, x) <==>
      IsData(x.body, PDUTYPE2_CONTROL) && ControlAction(x.body) == CTRLACTION_REQUEST_CONTROL
    ensures Accepts(RecvFontList, x) <==> IsData(x.body, PDUTYPE2_FONTLIST)
  {
  }

  /** What step `s` reads from the entry it takes without checking that it
      arrived: the data header for the share-layer receive steps, and the
      action too for the two control steps; the client info packet and the
      send steps read nothing unchecked. */
  predicate Reads(s: Step, x: Inbound)
  {
    if s.RecvControlCooperate? || s.RecvControlRequest? then ActionArrives(x)
    else if s.IsReceive() && !s.RecvClientInfo? then HeaderArrives(x)
    else true
  }

  predicate ReadsNext(s: Step, q: seq<Inbound>)
  {
    q != [] ==> Reads(s, q[0])
  }

  /** Every entry the handshake may take carries what its step reads. */
  predicate Readable(q: seq<Inbound>)
  {
    forall i | 0 <= i < |ClientOrder| && i < |q| :: Reads(ClientOrder[i], q[i])
  }

  /** What a send step puts on the wire. */
  function Emits(s: Step, c: Config): Outbound
    requires !s.IsReceive()
  {
    match s
    case SendLicenseError => SecData(SEC_LICENSE_PKT, MCS_IO_CHANNEL_ID, LicenseErrorBody())
    case SendDemandActive =>
      McsData(MCS_IO_CHANNEL_ID, SharePdu(PDUTYPE_DEMANDACTIVEPDU, 0, c.userChannelId,
        DemandActiveBody(c.userChannelId, c.numberCapabilities, c.capabilitySets)))
    case SendSynchronize =>
      McsData(MCS_IO_CHANNEL_ID, SharePdu(PDUTYPE_DATAPDU, PDUTYPE2_SYNCHRONIZE, c.userChannelId,
        EncodeSynchronize(ServerSynchronize())))
    case SendControlCooperate =>
      McsData(MCS_IO_CHANNEL_ID, SharePdu(PDUTYPE_DATAPDU, PDUTYPE2_CONTROL, c.userChannelId,
        EncodeControlPdu(ServerCooperate())))
    case SendControlGrant =>
      McsData(MCS_IO_CHANNEL_ID, SharePdu(PDUTYPE_DATAPDU, PDUTYPE2_CONTROL, c.userChannelId,
        EncodeControlPdu(ServerGrantControl(c.userChannelId))))
    case SendFontMap =>
      McsData(MCS_IO_CHANNEL_ID, SharePdu(PDUTYPE_DATAPDU, PDUTYPE2_FONTMAP, c.userChannelId,
        EncodeFontMap(ServerFontMap())))
  }

  /** One step: a receive takes the next inbound entry and succeeds when it
      is a PDU that fits and passes the step's check; a send succeeds and
      puts its PDU on the wire when the socket accepts a write, and changes
      nothing otherwise. */
  function Apply(s: Step, e: Env, c: Config): (o: Outcome)
  {
    if s.IsReceive() then
      var next := Env(Rest(e.inbound), e.sendsLeft, e.sent);
      if Delivers(e.inbound, c.capacity) then Outcome(Accepts(s, e.inbound[0]), next)
      else Outcome(false, next)
    else if e.sendsLeft == 0 then Outcome(false, e)
    else Outcome(true, Env(e.inbound, e.sendsLeft - 1, e.sent + [Emits(s, c)]))
  }

  /** The steps in order, up to and including the first that fails. */
  function Run(steps: seq<Step>, e: Env, c: Config): (o: Outcome)
    decreases |steps|
  {
    if steps == [] then Outcome(true, e)
    else
      var o := Apply(steps[0], e, c);
      if o.ok then Run(steps[1..], o.env, c) else o
  }

  /** The bytes the send steps among `steps` put on the wire, in order. */
  function Wires(steps: seq<Step>, c: Config): seq<Outbound>
  {
    if steps == [] then []
    else (if steps[0].IsReceive() then [] else [Emits(steps[0], c)]) + Wires(steps[1..], c)
  }

  /** The client's side of a successful handshake, in order. */
  const ClientOrder: seq<Step> := InfoSteps + ClientFinalSteps

  /** The server's side of a successful handshake, in order. */
  const Transcript: seq<Step> := LicensingSteps + ServerFinalSteps

  lemma RunUnfold(steps: seq<Step>, k: nat, e: Env, c: Config)
    requires k < |steps|
    ensures Run(steps[k..], e, c)
         == (var o := Apply(steps[k], e, c); if o.ok then Run(steps[k + 1..], o.env, c) else o)
  {
    assert steps[k..][1..] == steps[k + 1..];
  }

  /** Running `a` then `b` is running `a + b`; `b` is not started when
      `a` fails. */
  lemma {:induction false} RunAppend(a: seq<Step>, b: seq<Step>, e: Env, c: Config)
    ensures Run(a + b, e, c) == (var o := Run(a, e, c); if o.ok then Run(b, o.env, c) else o)
    decreases |a|
  {
    if a == [] {
      assert a + b == b;
    } else {
      assert (a + b)[0] == a[0];
      assert (a + b)[1..] == a[1..] + b;
      var o := Apply(a[0], e, c);
      if o.ok {
        RunAppend(a[1..], b, o.env, c);
      }
    }
  }

  /** The run stops at the first failing step: once the steps before `k`
      have succeeded and step `k` fails, the outcome of the whole run is
      that step's outcome, and no later step acts. */
  lemma RunStopsAtFirstFailure(steps: seq<Step>, e: Env, c: Config, k: nat)
    requires k < |steps|
    requires Run(steps[..k], e, c).ok
    requires !Apply(steps[k], Run(steps[..k], e, c).env, c).ok
    ensures Run(steps, e, c) == Apply(steps[k], Run(steps[..k], e, c).env, c)
    ensures !Run(steps, e, c).ok
  {
    assert steps == steps[..k] + steps[k..];
    RunAppend(steps[..k], steps[k..], e, c);
    RunUnfold(steps, k, Run(steps[..k], e, c).env, c);
  }

  /** The server never sends out of order: whatever a run put on the wire
      is a prefix of the send steps' PDUs in order, and all of them when it
      succeeds. */
  lemma {:induction false} RunSentPrefix(steps: seq<Step>, e: Env, c: Config)
    ensures var s := Run(steps, e, c).env.sent;
      && |s| <= |e.sent + Wires(steps, c)|
      && s == (e.sent + Wires(steps, c))[..|s|]
    ensures Run(steps, e, c).ok ==> Run(steps, e, c).env.sent == e.sent + Wires(steps, c)
    decreases |steps|
  {
    if steps != [] {
      var o := Apply(steps[0], e, c);
      var head := if steps[0].IsReceive() then [] else [Emits(steps[0], c)];
      assert Wires(steps, c) == head + Wires(steps[1..], c);
      if o.ok {
        assert o.env.sent == e.sent + head;
        RunSentPrefix(steps[1..], o.env, c);
        AppendAssoc(e.sent, head, Wires(steps[1..], c));
      } else {
        assert o.env.sent == e.sent;
      }
    }
  }

  /** The inbound entry `x` satisfies receive step `s`: a PDU that
      arrived, fits a buffer of `capacity` bytes and passes the step's check. */
  predicate Admits(s: Step, x: Inbound, capacity: nat)
  {
    s.IsReceive() && x.Arrived? && |x.body| <= capacity && Accepts(s, x)
  }

  predicate AllReceive(steps: seq<Step>)
  {
    forall i | 0 <= i < |steps| :: steps[i].IsReceive()
  }

  predicate AllSend(steps: seq<Step>)
  {
    forall i | 0 <= i < |steps| :: !steps[i].IsReceive()
  }

  /** The inbound entries `q` satisfy the receive steps `rs` in order, one
      entry per step. */
  predicate AdmitsAll(rs: seq<Step>, q: seq<Inbound>, capacity: nat)
    decreases |rs|
  {
    rs == [] || (q != [] && Admits(rs[0], q[0], capacity) && AdmitsAll(rs[1..], q[1..], capacity))
  }

  /** AdmitsAll, stated position by position. */
  lemma {:induction false} AdmitsAllIndexed(rs: seq<Step>, q: seq<Inbound>, capacity: nat)
    ensures AdmitsAll(rs, q, capacity) <==>
      |q| >= |rs| && forall i | 0 <= i < |rs| :: Admits(rs[i], q[i], capacity)
    decreases |rs|
  {
    if rs != [] && q != [] {
      AdmitsAllIndexed(rs[1..], q[1..], capacity);
      if |q| >= |rs| {
        forall i | 1 <= i < |rs|
          ensures rs[1..][i - 1] == rs[i] && q[1..][i - 1] == q[i]
        {
        }
      }
    }
  }

  /** Satisfying `a + r` is satisfying `a`, then `r` with what follows. */
  lemma {:induction false} AdmitsAllAppend(a: seq<Step>, r: seq<Step>, q: seq<Inbound>, capacity: nat)
    ensures AdmitsAll(a + r, q, capacity) <==>
      |q| >= |a| && AdmitsAll(a, q, capacity) && AdmitsAll(r, q[|a|..], capacity)
    decreases |a|
  {
    if a == [] {
      assert a + r == r && q[0..] == q;
    } else if q != [] {
      assert (a + r)[0] == a[0] && (a + r)[1..] == a[1..] + r;
      AdmitsAllAppend(a[1..], r, q[1..], capacity);
      if |q| >= |a| {
        assert q[1..][|a| - 1..] == q[|a|..];
      }
    }
  }

  /** A run of receive steps succeeds exactly when the inbound entries
      satisfy them in order; it consumes one inbound entry per step and
      sends nothing. */
  lemma {:induction false} RunReceives(rs: seq<Step>, e: Env, c: Config)
    requires AllReceive(rs)
    ensures Run(rs, e, c).ok <==> AdmitsAll(rs, e.inbound, c.capacity)
    ensures Run(rs, e, c).ok ==>
      |e.inbound| >= |rs| && Run(rs, e, c).env == Env(e.inbound[|rs|..], e.sendsLeft, e.sent)
    decreases |rs|
  {
    if rs != [] {
      var q := e.inbound;
      var o := Apply(rs[0], e, c);
      if Delivers(q, c.capacity) && o.ok {
        RunReceives(rs[1..], o.env, c);
        assert o.env.inbound == q[1..];
        if |q[1..]| >= |rs| - 1 {
          assert q[1..][|rs| - 1..] == q[|rs|..];
        }
      }
    }
  }

  /** A run of send steps succeeds exactly when the socket accepts one
      write per step; it then puts their PDUs on the wire in order and
      consumes no inbound entry. */
  lemma {:induction false} RunSends(ss: seq<Step>, e: Env, c: Config)
    requires AllSend(ss)
    ensures Run(ss, e, c).ok <==> e.sendsLeft >= |ss|
    ensures Run(ss, e, c).ok ==> Run(ss, e, c).env == Env(e.inbound, e.sendsLeft - |ss|, e.sent + Wires(ss, c))
    decreases |ss|
  {
    if ss != [] && e.sendsLeft > 0 {
      var o := Apply(ss[0], e, c);
      RunSends(ss[1..], o.env, c);
      assert Wires(ss, c) == [Emits(ss[0], c)] + Wires(ss[1..], c);
      AppendAssoc(e.sent, [Emits(ss[0], c)], Wires(ss[1..], c));
    }
  }

  /** Running receive steps `a` and then `rest`: when the inbound entries
      satisfy `a`, the run goes on with `rest` from what follows them; when
      they do not, the run fails. */
  lemma RunReceivesThen(a: seq<Step>, rest: seq<Step>, e: Env, c: Config)
    requires AllReceive(a)
    ensures AdmitsAll(a, e.inbound, c.capacity) ==>
      |e.inbound| >= |a| && Run(a + rest, e, c) == Run(rest, Env(e.inbound[|a|..], e.sendsLeft, e.sent), c)
    ensures !AdmitsAll(a, e.inbound, c.capacity) ==> !Run(a + rest, e, c).ok
  {
    RunAppend(a, rest, e, c);
    RunReceives(a, e, c);
  }

  /** Running send steps `b` and then `rest`: when the socket accepts a
      write for each of `b`, the run goes on with `rest` after putting the
      PDUs of `b` on the wire; otherwise it fails. */
  lemma RunSendsThen(b: seq<Step>, rest: seq<Step>, e: Env, c: Config)
    requires AllSend(b)
    ensures e.sendsLeft >= |b| ==>
      Run(b + rest, e, c) == Run(rest, Env(e.inbound, e.sendsLeft - |b|, e.sent + Wires(b, c)), c)
    ensures e.sendsLeft < |b| ==> !Run(b + rest, e, c).ok
  {
    RunAppend(b, rest, e, c);
    RunSends(b, e, c);
  }

  /** Receiving `a` and then sending `b` before `rest`: when the inbound
      entries satisfy `a` and the socket accepts a write for each of `b`,
      the run goes on with `rest` after consuming one entry per receive and
      putting the PDUs of `b` on the wire; otherwise it fails. */
  lemma RunPhase(a: seq<Step>, b: seq<Step>, rest: seq<Step>, e: Env, c: Config)
    requires AllReceive(a) && AllSend(b)
    ensures !(AdmitsAll(a, e.inbound, c.capacity) && e.sendsLeft >= |b|) ==> !Run(a + (b + rest), e, c).ok
    ensures AdmitsAll(a, e.inbound, c.capacity) && e.sendsLeft >= |b| ==>
      && |e.inbound| >= |a|
      && Run(a + (b + rest), e, c) == Run(rest, Env(e.inbound[|a|..], e.sendsLeft - |b|, e.sent + Wires(b, c)), c)
  {
    RunReceivesThen(a, b + rest, e, c);
    if AdmitsAll(a, e.inbound, c.capacity) {
      var e1 := Env(e.inbound[|a|..], e.sendsLeft, e.sent);
      RunSendsThen(b, rest, e1, c);
      if e.sendsLeft >= |b| {
        calc {
          Run(a + (b + rest), e, c);
          Run(b + rest, e1, c);
          Run(rest, Env(e.inbound[|a|..], e.sendsLeft - |b|, e.sent + Wires(b, c)), c);
        }
      }
    }
  }

  /** Receives `a`, sends `b`, receives `r`, sends `d`: the run succeeds
      exactly when the inbound entries satisfy the receive steps `a + r` in
      order and the socket accepts a write for each send step; it then
      has put the PDUs of `b + d` on the wire and consumed one inbound entry
      per receive step. */
  lemma RunAlternating(a: seq<Step>, b: seq<Step>, r: seq<Step>, d: seq<Step>, e: Env, c: Config)
    requires AllReceive(a) && AllSend(b) && AllReceive(r) && AllSend(d)
    ensures Run(a + (b + (r + d)), e, c).ok <==>
      AdmitsAll(a + r, e.inbound, c.capacity) && e.sendsLeft >= |b| + |d|
    ensures Run(a + (b + (r + d)), e, c).ok ==> |e.inbound| >= |a| + |r|
    ensures Run(a + (b + (r + d)), e, c).ok ==>
      Run(a + (b + (r + d)), e, c).env
      == Env(e.inbound[|a| + |r|..], e.sendsLeft - |b| - |d|, e.sent + Wires(b + d, c))
  {
    var q, n := e.inbound, e.sendsLeft;
    AdmitsAllAppend(a, r, q, c.capacity);
    RunPhase(a, b, r + d, e, c);
    if AdmitsAll(a, q, c.capacity) && n >= |b| {
      var e2 := Env(q[|a|..], n - |b|, e.sent + Wires(b, c));
      AppendEmpty(d);
      RunPhase(r, d, [], e2, c);
      if AdmitsAll(r, q[|a|..], c.capacity) && n - |b| >= |d| {
        DropDrop(q, |a|, |r|);
        WiresAppend(b, d, c);
        AppendAssoc(e.sent, Wires(b, c), Wires(d, c));
      }
    }
  }

  lemma AppendEmpty<T>(s: seq<T>)
    ensures s + [] == s
  {
  }

  lemma DropDrop<T>(s: seq<T>, i: nat, j: nat)
    requires i + j <= |s|
    ensures s[i..][j..] == s[i + j..]
  {
  }

  lemma AppendAssoc<T>(s: seq<T>, t: seq<T>, u: seq<T>)
    ensures s + t + u == s + (t + u)
  {
  }

  /** The handshake succeeds exactly when the client sends, in this order,
      a security-layer info packet on the I/O channel, a Confirm Active, a
      Synchronize, a Control Cooperate, a Control Request, and a Font List,
      each fitting the buffer, and the socket accepts all six server PDUs;
      the server then has put the six PDUs of the transcript on the wire in
      order and consumed exactly six inbound PDUs. */
  lemma HandshakeSucceedsIff(e: Env, c: Config)
    ensures Run(Order, e, c).ok <==>
      && |e.inbound| >= 6 && e.sendsLeft >= 6
      && forall i | 0 <= i < 6 :: Admits(ClientOrder[i], e.inbound[i], c.capacity)
    ensures Run(Order, e, c).ok ==>
      Run(Order, e, c).env == Env(e.inbound[6..], e.sendsLeft - 6, e.sent + Wires(Transcript, c))
  {
    RunAlternating(InfoSteps, LicensingSteps, ClientFinalSteps, ServerFinalSteps, e, c);
    AdmitsAllIndexed(ClientOrder, e.inbound, c.capacity);
  }

  /** A run that has reached `e` after the first `k` steps reaches, after
      one more, whatever that step does to `e`. */
  lemma RunExtend(steps: seq<Step>, k: nat, e0: Env, e: Env, c: Config)
    requires k < |steps| && Run(steps[..k], e0, c) == Outcome(true, e)
    ensures Run(steps[..k + 1], e0, c) == Apply(steps[k], e, c)
  {
    assert steps[..k + 1] == steps[..k] + [steps[k]];
    RunAppend(steps[..k], [steps[k]], e0, c);
    assert [steps[k]][1..] == [];
  }

  /** Once the first `k` steps have failed, the run is over. */
  lemma RunStopped(steps: seq<Step>, k: nat, e0: Env, c: Config)
    requires k <= |steps| && !Run(steps[..k], e0, c).ok
    ensures Run(steps, e0, c) == Run(steps[..k], e0, c)
  {
    assert steps == steps[..k] + steps[k..];
    RunAppend(steps[..k], steps[k..], e0, c);
  }

  /** Once the first `k` steps have succeeded, with `k` in the client's
      finalization stretch, one entry has been taken for the client info
      packet and one for each client finalization step before `k`: the
      next entry is the one the client sent for step `k`. */
  lemma {:induction false} ClientFinalEntry(k: nat, e0: Env, c: Config)
    requires 3 <= k <= 8 && Run(Order[..k], e0, c).ok
    ensures |e0.inbound| >= k - 2 && Run(Order[..k], e0, c).env.inbound == e0.inbound[k - 2..]
    ensures k < 8 ==> ClientOrder[k - 2] == Order[k]
  {
    var r := ClientFinalSteps[..k - 3];
    OrderPrefix(k);
    RunPhase(InfoSteps, LicensingSteps, r, e0, c);
    var e1 := Env(e0.inbound[1..], e0.sendsLeft - 2, e0.sent + Wires(LicensingSteps, c));
    calc {
      Run(Order[..k], e0, c);
      Run(InfoSteps + (LicensingSteps + r), e0, c);
      Run(r, e1, c);
    }
    ClientFinalRun(k - 3, e1, c);
    DropDrop(e0.inbound, 1, k - 3);
  }

  lemma OrderPrefix(k: nat)
    requires 3 <= k <= 8
    ensures Order[..k] == InfoSteps + (LicensingSteps + ClientFinalSteps[..k - 3])
  {
    var t := ClientFinalSteps + ServerFinalSteps;
    assert Order == (InfoSteps + LicensingSteps) + t;
    assert Order[..k] == (InfoSteps + LicensingSteps) + t[..k - 3];
    assert t[..k - 3] == ClientFinalSteps[..k - 3];
  }

  /** The first `n` client finalization steps, when they succeed, take
      one entry each. */
  lemma ClientFinalRun(n: nat, e: Env, c: Config)
    requires n <= |ClientFinalSteps| && Run(ClientFinalSteps[..n], e, c).ok
    ensures |e.inbound| >= n && Run(ClientFinalSteps[..n], e, c).env.inbound == e.inbound[n..]
  {
    ClientFinalReceives(n);
    RunReceives(ClientFinalSteps[..n], e, c);
  }

  lemma ClientFinalReceives(n: nat)
    requires n <= |ClientFinalSteps|
    ensures AllReceive(ClientFinalSteps[..n])
  {
  }

  /** From a readable script, once the first `k` steps have succeeded, the
      next entry carries what step `k` reads. */
  lemma NextReads(k: nat, e0: Env, c: Config)
    requires k < |Order| && Readable(e0.inbound) && Run(Order[..k], e0, c).ok
    ensures ReadsNext(Order[k], Run(Order[..k], e0, c).env.inbound)
  {
    OrderSteps();
    if 3 <= k <= 7 {
      ClientFinalEntry(k, e0, c);
    }
  }

  /** The twelve steps, one by one. */
  lemma OrderSteps()
    ensures Order == [RecvClientInfo, SendLicenseError, SendDemandActive, RecvConfirmActive,
                      RecvSynchronize, RecvControlCooperate, RecvControlRequest, RecvFontList,
                      SendSynchronize, SendControlCooperate, SendControlGrant, SendFontMap]
  {
  }

  /** The PDUs of `a + b` are those of `a`, then those of `b`. */
  lemma {:induction false} WiresAppend(a: seq<Step>, b: seq<Step>, c: Config)
    ensures Wires(a + b, c) == Wires(a, c) + Wires(b, c)
    decreases |a|
  {
    if a == [] {
      assert a + b == b;
    } else {
      assert (a + b)[0] == a[0] && (a + b)[1..] == a[1..] + b;
      WiresAppend(a[1..], b, c);
    }
  }

  /** No PDU passes the checks of two different share-PDU receive steps, so
      a PDU sent out of order fails the step that expected another. */
  lemma ReceiveChecksExclusive(s1: Step, s2: Step, x: Inbound)
    requires s1.IsReceive() && s2.IsReceive() && s1 != s2
    requires !s1.RecvClientInfo? && !s2.RecvClientInfo?
    requires x.Arrived?
    ensures !(Accepts(s1, x) && Accepts(s2, x))
  {
  }
}
