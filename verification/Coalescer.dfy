/** Request coalescing (`crates/justapi-core/src/coalesce.rs`): many requests, one
    handler call per in-flight key. The protocol is a step relation over requests,
    keys and watch channels; looking a channel up and subscribing to it are two
    separate steps, and any request may be cancelled. */
module Coalescer {
  import opened Prelude

  // ------------------------------------------------------------------
  // Keys
  // ------------------------------------------------------------------

  datatype Header = Header(name: string, value: string)
  datatype Key = Key(verb: string, uri: string, headers: seq<Header>)
  datatype Call = Call(verb: string, uri: string, headers: map<string, string>)

  function Selected(names: seq<string>, headers: map<string, string>): seq<Header> {
    if names == [] then []
    else
      var name := names[|names| - 1];
      Selected(names[..|names| - 1], headers) +
      if name in headers then [Header(name, headers[name])] else []
  }

  /** `key_of`: method, URI and the selected headers that are present. */
  function KeyOf(names: seq<string>, call: Call): Key {
    Key(call.verb, call.uri, Selected(names, call.headers))
  }

  predicate SameHeader(a: Call, b: Call, name: string) {
    (name in a.headers <==> name in b.headers) && (name in a.headers ==> a.headers[name] == b.headers[name])
  }

  lemma {:induction false} SelectedMembers(names: seq<string>, headers: map<string, string>, h: Header)
    ensures h in Selected(names, headers) <==>
            h.name in names && h.name in headers && headers[h.name] == h.value
  {
    if names != [] {
      SelectedMembers(names[..|names| - 1], headers, h);
      assert names == names[..|names| - 1] + [names[|names| - 1]];
    }
  }

  lemma {:induction false} SelectedAgree(names: seq<string>, a: Call, b: Call)
    requires forall name :: name in names ==> SameHeader(a, b, name)
    ensures Selected(names, a.headers) == Selected(names, b.headers)
  {
    if names != [] {
      assert names[|names| - 1] in names;
      SelectedAgree(names[..|names| - 1], a, b);
    }
  }

  /** Two calls coalesce exactly when they agree on method, URI and every selected
      header, absence included. */
  lemma {:induction false} KeysCoincide(names: seq<string>, a: Call, b: Call)
    ensures KeyOf(names, a) == KeyOf(names, b) <==>
            && a.verb == b.verb && a.uri == b.uri
            && forall name :: name in names ==> SameHeader(a, b, name)
  {
    if KeyOf(names, a) == KeyOf(names, b) {
      forall name | name in names
        ensures SameHeader(a, b, name)
      {
        if name in a.headers {
          SelectedMembers(names, a.headers, Header(name, a.headers[name]));
          SelectedMembers(names, b.headers, Header(name, a.headers[name]));
        }
        if name in b.headers {
          SelectedMembers(names, a.headers, Header(name, b.headers[name]));
          SelectedMembers(names, b.headers, Header(name, b.headers[name]));
        }
      }
    } else if a.verb == b.verb && a.uri == b.uri && forall name :: name in names ==> SameHeader(a, b, name) {
      SelectedAgree(names, a, b);
      assert false;
    }
  }

  // ------------------------------------------------------------------
  // Responses and the fan-out body
  // ------------------------------------------------------------------

  type Bytes = seq<bv8>

  datatype Frame = Data(bytes: Bytes) | Trailers

  /** What the handler returned: head plus the frames its body will yield. */
  datatype Response = Response(status: nat, headers: seq<Header>, frames: seq<Frame>)

  datatype Snapshot = Snapshot(status: nat, headers: seq<Header>, body: Bytes)

  datatype Outcome = Pending | Ok(snapshot: Snapshot) | Err(message: string)

  /** The data of the first `n` frames. */
  function Delivered(frames: seq<Frame>, n: nat): Bytes
    requires n <= |frames|
  {
    if n == 0 then []
    else Delivered(frames, n - 1) + if frames[n - 1].Data? then frames[n - 1].bytes else []
  }

  /** State of a fan-out body: `pos` frames have reached the leader's client. */
  datatype Body = Body(resp: Response, pos: nat, acc: Bytes, finished: bool)

  datatype BodyStep = BodyStep(body: Body, publish: Option<Snapshot>)

  function Release(b: Body): BodyStep {
    if b.finished then BodyStep(b, None)
    else BodyStep(b.(acc := [], finished := true), Some(Snapshot(b.resp.status, b.resp.headers, b.acc)))
  }

  /** `poll_frame`: forward the next frame while copying its data, or publish at the end. */
  function PollBody(b: Body): BodyStep {
    if b.pos < |b.resp.frames| then
      var f := b.resp.frames[b.pos];
      BodyStep(b.(pos := b.pos + 1, acc := if f.Data? then b.acc + f.bytes else b.acc), None)
    else Release(b)
  }

  /** `Drop`: publish what was delivered so far unless already published. */
  function DropBody(b: Body): BodyStep { Release(b) }

  // ------------------------------------------------------------------
  // Protocol state
  // ------------------------------------------------------------------

  datatype Phase =
    | Joining(chan: nat)                       // found a leader, not yet subscribed
    | Waiting(chan: nat)                       // subscribed
    | Answered(chan: nat, reply: Outcome)      // waiter returned what it read
    | GivenUp(chan: nat)                       // waiter cancelled
    | Leading(chan: nat)                       // handler running
    | Streaming(chan: nat, body: Body)         // fan-out body alive
    | Closed(chan: nat, body: Body, ended: bool) // fan-out body dropped
    | Failed(chan: nat, message: string)       // handler error returned
    | Abandoned(chan: nat)                     // leader cancelled while its handler ran

  predicate LeaderKind(p: Phase) {
    p.Leading? || p.Streaming? || p.Closed? || p.Failed? || p.Abandoned?
  }

  datatype Request = Request(key: Key, phase: Phase)

  /** A watch channel. `leader` and `sends` are history: who created it and how
      often a value was sent to it. */
  datatype Channel = Channel(key: Key, value: Outcome, leader: nat, sends: nat)

  datatype State = State(reqs: map<nat, Request>, inFlight: map<Key, nat>, chans: seq<Channel>)

  const INIT := State(map[], map[], [])

  predicate HasReceiver(s: State, c: nat) {
    exists r :: r in s.reqs && s.reqs[r].phase == Waiting(c)
  }

  /** Somebody holds a sender of `c`: the map, a request frame or a fan-out body. */
  predicate HasSender(s: State, c: nat) {
    || (exists k :: k in s.inFlight && s.inFlight[k] == c)
    || (exists r :: r in s.reqs && s.reqs[r].phase.chan == c && HoldsSender(s.reqs[r].phase))
  }

  predicate HoldsSender(p: Phase) {
    p.Joining? || p.Waiting? || p.Leading? || p.Streaming?
  }

  /** `watch::Sender::send` stores nothing when nobody is subscribed. */
  function Send(s: State, c: nat, v: Outcome): State
    requires c < |s.chans|
  {
    var ch := s.chans[c];
    s.(chans := s.chans[c := ch.(sends := ch.sends + 1, value := if HasReceiver(s, c) then v else ch.value)])
  }

  function SendMaybe(s: State, c: nat, v: Option<Snapshot>): State
    requires c < |s.chans|
  {
    match v
    case None => s
    case Some(snapshot) => Send(s, c, Ok(snapshot))
  }

  function SetPhase(s: State, r: nat, p: Phase): State
    requires r in s.reqs
  {
    s.(reqs := s.reqs[r := s.reqs[r].(phase := p)])
  }

  datatype Step =
    | Arrive(r: nat, key: Key)
    | Subscribe(r: nat)
    | Observe(r: nat)
    | RerunAsLeader(r: nat)
    | HandlerOk(r: nat, resp: Response)
    | HandlerErr(r: nat, message: string)
    | Poll(r: nat)
    | DropResponse(r: nat)
    | Cancel(r: nat)

  predicate Present(s: State, r: nat) {
    r in s.reqs && s.reqs[r].phase.chan < |s.chans|
  }

  predicate Enabled(s: State, step: Step) {
    match step
    case Arrive(r, _) => r !in s.reqs
    case Subscribe(r) => Present(s, r) && s.reqs[r].phase.Joining?
    case Observe(r) =>
      Present(s, r) && s.reqs[r].phase.Waiting? && s.chans[s.reqs[r].phase.chan].value != Pending
    case RerunAsLeader(r) =>
      Present(s, r) && s.reqs[r].phase.Waiting? && !HasSender(s, s.reqs[r].phase.chan)
    case HandlerOk(r, _) => Present(s, r) && s.reqs[r].phase.Leading?
    case HandlerErr(r, _) => Present(s, r) && s.reqs[r].phase.Leading?
    case Poll(r) => Present(s, r) && s.reqs[r].phase.Streaming?
    case DropResponse(r) => Present(s, r) && s.reqs[r].phase.Streaming?
    case Cancel(r) =>
      Present(s, r) && (s.reqs[r].phase.Joining? || s.reqs[r].phase.Waiting? || s.reqs[r].phase.Leading?)
  }

  function Apply(s: State, step: Step): State
    requires Enabled(s, step)
  {
    match step
    case Arrive(r, key) =>
      if key in s.inFlight then s.(reqs := s.reqs[r := Request(key, Joining(s.inFlight[key]))])
      else
        var c := |s.chans|;
        State(s.reqs[r := Request(key, Leading(c))], s.inFlight[key := c],
              s.chans + [Channel(key, Pending, r, 0)])
    case Subscribe(r) => SetPhase(s, r, Waiting(s.reqs[r].phase.chan))
    case Observe(r) =>
      var c := s.reqs[r].phase.chan;
      SetPhase(s, r, Answered(c, s.chans[c].value))
    case RerunAsLeader(r) => SetPhase(s, r, Leading(s.reqs[r].phase.chan))
    case HandlerOk(r, resp) =>
      SetPhase(s, r, Streaming(s.reqs[r].phase.chan, Body(resp, 0, [], false)))
        .(inFlight := s.inFlight - {s.reqs[r].key})
    case HandlerErr(r, message) =>
      var c := s.reqs[r].phase.chan;
      var removed := s.(inFlight := s.inFlight - {s.reqs[r].key});
      SetPhase(Send(removed, c, Err(message)), r, Failed(c, message))
    case Poll(r) =>
      var c, next := s.reqs[r].phase.chan, PollBody(s.reqs[r].phase.body);
      SetPhase(SendMaybe(s, c, next.publish), r, Streaming(c, next.body))
    case DropResponse(r) =>
      var c, b := s.reqs[r].phase.chan, s.reqs[r].phase.body;
      SetPhase(SendMaybe(s, c, DropBody(b).publish), r, Closed(c, DropBody(b).body, b.finished))
    case Cancel(r) =>
      var p := s.reqs[r].phase;
      SetPhase(s, r, if p.Leading? then Abandoned(p.chan) else GivenUp(p.chan))
  }

  predicate Valid(s: State, steps: seq<Step>)
    decreases |steps|
  {
    steps == [] || (Enabled(s, steps[0]) && Valid(Apply(s, steps[0]), steps[1..]))
  }

  function After(s: State, steps: seq<Step>): State
    requires Valid(s, steps)
    decreases |steps|
  {
    if steps == [] then s else After(Apply(s, steps[0]), steps[1..])
  }

  // ------------------------------------------------------------------
  // The invariant
  // ------------------------------------------------------------------

  /** What the channel's value may be, given how its leader ended. */
  predicate ChannelAgrees(ch: Channel, p: Phase) {
    match p
    case Leading(_) => ch.sends == 0 && ch.value == Pending
    case Abandoned(_) => ch.sends == 0 && ch.value == Pending
    case Streaming(_, b) => BodyOk(b) && (if b.finished then Published(ch, b) && b.pos == |b.resp.frames|
                                          else ch.sends == 0 && ch.value == Pending)
    case Closed(_, b, ended) => BodyOk(b) && Published(ch, b) && (ended ==> b.pos == |b.resp.frames|)
    case Failed(_, message) => ch.sends == 1 && (ch.value == Pending || ch.value == Err(message))
    case _ => false
  }

  predicate BodyOk(b: Body) {
    b.pos <= |b.resp.frames| && (!b.finished ==> b.acc == Delivered(b.resp.frames, b.pos))
  }

  predicate Published(ch: Channel, b: Body)
    requires b.pos <= |b.resp.frames|
  {
    && ch.sends == 1
    && (ch.value == Pending ||
        ch.value == Ok(Snapshot(b.resp.status, b.resp.headers, Delivered(b.resp.frames, b.pos))))
  }

  predicate ChannelOk(s: State, c: nat)
    requires c < |s.chans|
  {
    var ch := s.chans[c];
    && ch.leader in s.reqs
    && s.reqs[ch.leader].key == ch.key
    && s.reqs[ch.leader].phase.chan == c
    && ChannelAgrees(ch, s.reqs[ch.leader].phase)
    && ((s.reqs[ch.leader].phase.Leading? || s.reqs[ch.leader].phase.Abandoned?) <==>
        (ch.key in s.inFlight && s.inFlight[ch.key] == c))
  }

  predicate RequestOk(s: State, r: nat)
    requires r in s.reqs
  {
    var q := s.reqs[r];
    && q.phase.chan < |s.chans|
    && s.chans[q.phase.chan].key == q.key
    && (LeaderKind(q.phase) ==> s.chans[q.phase.chan].leader == r)
    && (q.phase.Answered? ==> q.phase.reply == s.chans[q.phase.chan].value != Pending)
  }

  predicate FlightOk(s: State, k: Key)
    requires k in s.inFlight
  {
    s.inFlight[k] < |s.chans| && s.chans[s.inFlight[k]].key == k
  }

  predicate Inv(s: State) {
    && (forall c :: 0 <= c < |s.chans| ==> ChannelOk(s, c))
    && (forall r :: r in s.reqs ==> RequestOk(s, r))
    && (forall k :: k in s.inFlight ==> FlightOk(s, k))
  }

  /** A waiter always holds a sender itself, so the fallback never runs. */
  lemma {:induction false} RerunUnreachable(s: State, r: nat)
    ensures !Enabled(s, RerunAsLeader(r))
  {
    if r in s.reqs && s.reqs[r].phase.Waiting? {
      assert HoldsSender(s.reqs[r].phase);
    }
  }

  lemma {:induction false} InvJoin(s: State, r: nat, key: Key)
    requires Inv(s) && r !in s.reqs && key in s.inFlight
    ensures Inv(s.(reqs := s.reqs[r := Request(key, Joining(s.inFlight[key]))]))
  {
    var s' := s.(reqs := s.reqs[r := Request(key, Joining(s.inFlight[key]))]);
    assert FlightOk(s, key);
    forall c | 0 <= c < |s'.chans| ensures ChannelOk(s', c) { assert ChannelOk(s, c); }
    forall q | q in s'.reqs ensures RequestOk(s', q) { if q != r { assert RequestOk(s, q); } }
    forall k | k in s'.inFlight ensures FlightOk(s', k) { assert FlightOk(s, k); }
  }

  lemma {:induction false} InvLead(s: State, r: nat, key: Key)
    requires Inv(s) && r !in s.reqs && key !in s.inFlight
    ensures Inv(Apply(s, Arrive(r, key)))
  {
    var s' := Apply(s, Arrive(r, key));
    forall c | 0 <= c < |s'.chans|
      ensures ChannelOk(s', c)
    {
      if c < |s.chans| {
        assert ChannelOk(s, c);
        assert s'.chans[c] == s.chans[c];
      }
    }
    forall q | q in s'.reqs
      ensures RequestOk(s', q)
    {
      if q != r {
        assert RequestOk(s, q);
      }
    }
    forall k | k in s'.inFlight
      ensures FlightOk(s', k)
    {
      if k != key {
        assert FlightOk(s, k);
      }
    }
  }

  lemma {:induction false} InvWaiterMoves(s: State, r: nat, p: Phase)
    requires Inv(s) && r in s.reqs && !LeaderKind(s.reqs[r].phase) && !LeaderKind(p)
    requires p.chan == s.reqs[r].phase.chan
    requires p.Answered? ==> p.reply == s.chans[p.chan].value != Pending
    ensures Inv(SetPhase(s, r, p))
  {
    var s' := SetPhase(s, r, p);
    forall c | 0 <= c < |s.chans|
      ensures ChannelOk(s', c)
    {
      assert ChannelOk(s, c);
      assert s.chans[c].leader != r;
    }
    assert forall q :: q in s.reqs ==> RequestOk(s, q) && (q != r ==> s'.reqs[q] == s.reqs[q]);
    assert forall k :: k in s.inFlight ==> FlightOk(s, k);
  }

  predicate InFlightPhase(p: Phase) { p.Leading? || p.Abandoned? }

  /** A leader moves on: its channel keeps agreeing with it, a published value is
      never replaced, and the key leaves the map exactly when leadership ends. */
  lemma {:induction false} InvLeaderMoves(s: State, r: nat, p: Phase, ch: Channel, s': State)
    requires Inv(s) && r in s.reqs && LeaderKind(s.reqs[r].phase) && LeaderKind(p)
    requires p.chan == s.reqs[r].phase.chan
    requires var was := s.chans[p.chan];
             && ch.key == was.key && ch.leader == was.leader
             && (was.value != Pending ==> ch.value == was.value)
    requires ChannelAgrees(ch, p)
    requires InFlightPhase(p) ==> InFlightPhase(s.reqs[r].phase)
    requires s' == State(s.reqs[r := s.reqs[r].(phase := p)],
                         if InFlightPhase(s.reqs[r].phase) && !InFlightPhase(p)
                         then s.inFlight - {s.reqs[r].key} else s.inFlight,
                         s.chans[p.chan := ch])
    ensures Inv(s')
  {
    assert RequestOk(s, r);
    forall c | 0 <= c < |s'.chans|
      ensures ChannelOk(s', c)
    {
      assert ChannelOk(s, c) && ChannelOk(s, p.chan);
    }
    forall q | q in s'.reqs
      ensures RequestOk(s', q)
    {
      assert RequestOk(s, q);
    }
    forall k | k in s'.inFlight
      ensures FlightOk(s', k)
    {
      assert FlightOk(s, k);
    }
  }

  lemma {:induction false} InvStep(s: State, step: Step)
    requires Inv(s) && Enabled(s, step)
    ensures Inv(Apply(s, step))
  {
    RerunUnreachable(s, step.r);
    match step
    case Arrive(r, key) =>
      if key in s.inFlight {
        InvJoin(s, r, key);
      } else {
        InvLead(s, r, key);
      }
    case Subscribe(r) => InvWaiterMoves(s, r, Waiting(s.reqs[r].phase.chan));
    case Observe(r) =>
      var c := s.reqs[r].phase.chan;
      InvWaiterMoves(s, r, Answered(c, s.chans[c].value));
    case Cancel(r) =>
      var p := s.reqs[r].phase;
      if p.Leading? {
        assert RequestOk(s, r) && ChannelOk(s, p.chan);
        InvLeaderMoves(s, r, Abandoned(p.chan), s.chans[p.chan], Apply(s, step));
      } else {
        InvWaiterMoves(s, r, GivenUp(p.chan));
      }
    case Poll(r) => InvPoll(s, r);
    case DropResponse(r) => InvDrop(s, r);
    case _ => InvHandlerDone(s, step);
  }

  lemma {:induction false} InvHandlerDone(s: State, step: Step)
    requires Inv(s) && Enabled(s, step) && (step.HandlerOk? || step.HandlerErr?)
    ensures Inv(Apply(s, step))
  {
    var r, s' := step.r, Apply(s, step);
    var c := s.reqs[r].phase.chan;
    assert RequestOk(s, r) && ChannelOk(s, c);
    InvLeaderMoves(s, r, s'.reqs[r].phase, s'.chans[c], s');
  }

  lemma {:induction false} InvPoll(s: State, r: nat)
    requires Inv(s) && Enabled(s, Poll(r))
    ensures Inv(Apply(s, Poll(r)))
  {
    var s' := Apply(s, Poll(r));
    var c := s.reqs[r].phase.chan;
    assert RequestOk(s, r) && ChannelOk(s, c);
    InvLeaderMoves(s, r, s'.reqs[r].phase, s'.chans[c], s');
  }

  lemma {:induction false} InvDrop(s: State, r: nat)
    requires Inv(s) && Enabled(s, DropResponse(r))
    ensures Inv(Apply(s, DropResponse(r)))
  {
    var s' := Apply(s, DropResponse(r));
    var c := s.reqs[r].phase.chan;
    assert RequestOk(s, r) && ChannelOk(s, c);
    InvLeaderMoves(s, r, s'.reqs[r].phase, s'.chans[c], s');
  }

  lemma {:induction false} InvRun(s: State, steps: seq<Step>)
    requires Inv(s) && Valid(s, steps)
    ensures Inv(After(s, steps))
    decreases |steps|
  {
    if steps != [] {
      InvStep(s, steps[0]);
      InvRun(Apply(s, steps[0]), steps[1..]);
    }
  }

  // ------------------------------------------------------------------
  // Safety
  // ------------------------------------------------------------------

  /** In every reachable state a key has at most one running handler, and it is
      the one whose channel is in the map. */
  lemma {:induction false} OneHandlerPerKey(steps: seq<Step>, r: nat, q: nat)
    requires Valid(INIT, steps)
    requires var s := After(INIT, steps);
             && r in s.reqs && q in s.reqs
             && s.reqs[r].phase.Leading? && s.reqs[q].phase.Leading? && s.reqs[r].key == s.reqs[q].key
    ensures r == q
    ensures var s := After(INIT, steps);
            s.reqs[r].key in s.inFlight && s.inFlight[s.reqs[r].key] == s.reqs[r].phase.chan
  {
    var s := After(INIT, steps);
    InvRun(INIT, steps);
    assert RequestOk(s, r) && RequestOk(s, q);
    assert ChannelOk(s, s.reqs[r].phase.chan) && ChannelOk(s, s.reqs[q].phase.chan);
  }

  /** A key in the map has a running leader, unless that leader was cancelled. */
  lemma {:induction false} InFlightHasLeader(steps: seq<Step>, k: Key)
    requires Valid(INIT, steps)
    requires k in After(INIT, steps).inFlight
    ensures var s := After(INIT, steps);
            && s.inFlight[k] < |s.chans|
            && var r := s.chans[s.inFlight[k]].leader;
               && r in s.reqs && s.reqs[r].key == k
               && (s.reqs[r].phase == Leading(s.inFlight[k]) || s.reqs[r].phase == Abandoned(s.inFlight[k]))
  {
    var s := After(INIT, steps);
    InvRun(INIT, steps);
    assert FlightOk(s, k) && ChannelOk(s, s.inFlight[k]);
  }

  /** Published at most once, and what is published is the leader's outcome: its
      error, or its status, headers and exactly the data its client had received,
      which is the handler's whole body if the stream ended. */
  lemma {:induction false} PublishedIsDelivered(steps: seq<Step>, c: nat)
    requires Valid(INIT, steps) && c < |After(INIT, steps).chans|
    ensures var s := After(INIT, steps);
            var ch := s.chans[c];
            && ch.sends <= 1
            && ch.leader in s.reqs
            && var p := s.reqs[ch.leader].phase;
               && (ch.value.Err? ==> p == Failed(c, ch.value.message))
               && (ch.value.Ok? ==>
                     && (p.Streaming? || p.Closed?)
                     && p.body.pos <= |p.body.resp.frames|
                     && ch.value.snapshot == Snapshot(p.body.resp.status, p.body.resp.headers,
                                                      Delivered(p.body.resp.frames, p.body.pos))
                     && (p.Streaming? || p.ended ==> p.body.pos == |p.body.resp.frames|))
  {
    InvRun(INIT, steps);
    assert ChannelOk(After(INIT, steps), c);
  }

  predicate Silent(f: Frame) { f.Trailers? || f.bytes == [] }

  /** Delivering more frames adds to the data, unless they carry none. */
  lemma {:induction false} DeliveredGrows(frames: seq<Frame>, pos: nat, n: nat)
    requires pos <= n <= |frames|
    ensures |Delivered(frames, pos)| <= |Delivered(frames, n)|
    ensures Delivered(frames, pos) == Delivered(frames, n) <==> forall i :: pos <= i < n ==> Silent(frames[i])
    decreases n
  {
    if pos < n {
      DeliveredGrows(frames, pos, n - 1);
      var more := if frames[n - 1].Data? then frames[n - 1].bytes else [];
      assert Delivered(frames, n) == Delivered(frames, n - 1) + more;
      if Silent(frames[n - 1]) {
        assert Delivered(frames, n - 1) + more == Delivered(frames, n - 1);
      }
    }
  }

  /** A published body is the handler's whole body exactly when no frame the leader's
      client had not received carries data; it is published as a success either way. */
  lemma {:induction false} PublishedWholeExactly(steps: seq<Step>, c: nat)
    requires Valid(INIT, steps) && c < |After(INIT, steps).chans| && After(INIT, steps).chans[c].value.Ok?
    ensures var s := After(INIT, steps);
            && s.chans[c].leader in s.reqs
            && var p := s.reqs[s.chans[c].leader].phase;
               && (p.Streaming? || p.Closed?) && p.body.pos <= |p.body.resp.frames|
               && var frames := p.body.resp.frames;
                  s.chans[c].value.snapshot.body == Delivered(frames, |frames|) <==>
                  forall i :: p.body.pos <= i < |frames| ==> Silent(frames[i])
  {
    var s := After(INIT, steps);
    PublishedIsDelivered(steps, c);
    var b := s.reqs[s.chans[c].leader].phase.body;
    DeliveredGrows(b.resp.frames, b.pos, |b.resp.frames|);
  }

  /** Every waiter that returned from the same channel returned the same outcome,
      the one the channel holds. */
  lemma {:induction false} WaitersAgree(steps: seq<Step>, r: nat, q: nat)
    requires Valid(INIT, steps)
    requires var s := After(INIT, steps);
             && r in s.reqs && q in s.reqs
             && s.reqs[r].phase.Answered? && s.reqs[q].phase.Answered?
             && s.reqs[r].phase.chan == s.reqs[q].phase.chan
    ensures var s := After(INIT, steps);
            && s.reqs[r].phase.reply == s.reqs[q].phase.reply != Pending
            && s.reqs[r].key == s.reqs[q].key
  {
    var s := After(INIT, steps);
    InvRun(INIT, steps);
    assert RequestOk(s, r) && RequestOk(s, q);
  }

  /** What each request can do next, in every reachable state: whoever has not returned may
      be cancelled, and a leader's handler may return either way. */
  lemma {:induction false} CanAlways(steps: seq<Step>, r: nat, resp: Response, message: string)
    requires Valid(INIT, steps) && r in After(INIT, steps).reqs
    ensures var s := After(INIT, steps);
            var p := s.reqs[r].phase;
            && (p.Joining? ==> Enabled(s, Subscribe(r)))
            && (p.Joining? || p.Waiting? || p.Leading? ==> Enabled(s, Cancel(r)))
            && (p.Leading? ==> Enabled(s, HandlerOk(r, resp)) && Enabled(s, HandlerErr(r, message)))
            && (p.Streaming? ==> Enabled(s, Poll(r)) && Enabled(s, DropResponse(r)))
  {
    InvRun(INIT, steps);
    assert RequestOk(After(INIT, steps), r);
  }

  // ------------------------------------------------------------------
  // Where an outcome comes from
  // ------------------------------------------------------------------

  /** What a leader became is what its handler's step said. */
  predicate FromHandler(p: Phase, r: nat, hist: seq<Step>) {
    match p
    case Failed(_, message) => HandlerErr(r, message) in hist
    case Streaming(_, b) => HandlerOk(r, b.resp) in hist
    case Closed(_, b, _) => HandlerOk(r, b.resp) in hist
    case _ => true
  }

  predicate AllFromHandlers(s: State, hist: seq<Step>) {
    forall r :: r in s.reqs ==> FromHandler(s.reqs[r].phase, r, hist)
  }

  lemma {:induction false} FromHandlerStep(s: State, step: Step, hist: seq<Step>)
    requires Enabled(s, step) && AllFromHandlers(s, hist)
    ensures AllFromHandlers(Apply(s, step), hist + [step])
  {
    var s' := Apply(s, step);
    RequestFrame(s, step);
    forall r | r in s'.reqs
      ensures FromHandler(s'.reqs[r].phase, r, hist + [step])
    {
      if r in s.reqs {
        assert FromHandler(s.reqs[r].phase, r, hist);
      }
    }
  }

  lemma {:induction false} FromHandlerRun(s: State, steps: seq<Step>, hist: seq<Step>)
    requires Valid(s, steps) && AllFromHandlers(s, hist)
    ensures AllFromHandlers(After(s, steps), hist + steps)
    decreases |steps|
  {
    if steps == [] {
      assert hist + steps == hist;
    } else {
      FromHandlerStep(s, steps[0], hist);
      FromHandlerRun(Apply(s, steps[0]), steps[1..], hist + [steps[0]]);
      assert (hist + [steps[0]]) + steps[1..] == hist + steps;
    }
  }

  /** An answered waiter returned the error its leader's handler returned in the run, or a
      snapshot of the response it returned: its status, its headers, and the data of some
      of its frames from the first on. */
  lemma {:induction false} AnswerIsHandlers(steps: seq<Step>, r: nat)
    requires Valid(INIT, steps)
    requires r in After(INIT, steps).reqs && After(INIT, steps).reqs[r].phase.Answered?
    ensures var s := After(INIT, steps);
            var p := s.reqs[r].phase;
            && p.chan < |s.chans| && !p.reply.Pending? && s.chans[p.chan].key == s.reqs[r].key
            && var leader := s.chans[p.chan].leader;
               && (p.reply.Err? ==> HandlerErr(leader, p.reply.message) in steps)
               && (p.reply.Ok? ==>
                     exists resp, n: nat ::
                       && HandlerOk(leader, resp) in steps && n <= |resp.frames|
                       && p.reply.snapshot == Snapshot(resp.status, resp.headers, Delivered(resp.frames, n)))
  {
    var s := After(INIT, steps);
    InvRun(INIT, steps);
    FromHandlerRun(INIT, steps, []);
    assert [] + steps == steps;
    assert RequestOk(s, r);
    var c := s.reqs[r].phase.chan;
    assert ChannelOk(s, c);
    var leader := s.chans[c].leader;
    assert FromHandler(s.reqs[leader].phase, leader, steps);
    if s.reqs[r].phase.reply.Ok? {
      var b := s.reqs[leader].phase.body;
      assert HandlerOk(leader, b.resp) in steps && b.pos <= |b.resp.frames|;
    }
  }

  // ------------------------------------------------------------------
  // Progress
  // ------------------------------------------------------------------

  /** The leader was cancelled while its handler ran. */
  predicate IsAbandoned(s: State, c: nat)
    requires c < |s.chans|
  {
    s.chans[c].leader in s.reqs && s.reqs[s.chans[c].leader].phase.Abandoned?
  }

  /** A value was sent while nobody was subscribed, so it was not stored. */
  predicate IsLost(s: State, c: nat)
    requires c < |s.chans|
  {
    s.chans[c].sends > 0 && s.chans[c].value == Pending
  }

  predicate Doomed(s: State, c: nat)
    requires c < |s.chans|
  {
    IsAbandoned(s, c) || IsLost(s, c)
  }

  /** The request that can still resolve the channel: a running leader, or a
      fan-out body that has not published yet. */
  predicate Owns(p: Phase, c: nat) {
    p == Leading(c) || (p.Streaming? && p.chan == c && !p.body.finished)
  }

  /** A pending channel has a live owner exactly when it is not doomed. */
  lemma {:induction false} PendingHasOwner(s: State, c: nat)
    requires Inv(s) && c < |s.chans| && s.chans[c].value == Pending
    ensures Doomed(s, c) <==> !exists r :: r in s.reqs && Owns(s.reqs[r].phase, c)
  {
    assert ChannelOk(s, c);
    forall r | r in s.reqs && Owns(s.reqs[r].phase, c)
      ensures r == s.chans[c].leader
    {
      assert RequestOk(s, r);
    }
    if !Doomed(s, c) {
      assert Owns(s.reqs[s.chans[c].leader].phase, c);
    }
  }

  /** Every step leaves other requests alone and moves nobody to another channel. */
  lemma {:induction false} RequestFrame(s: State, step: Step)
    requires Enabled(s, step)
    ensures var s' := Apply(s, step);
            && (forall q :: q in s.reqs && q != step.r ==> q in s'.reqs && s'.reqs[q] == s.reqs[q])
            && (step.r in s.reqs ==> step.r in s'.reqs && s'.reqs[step.r].key == s.reqs[step.r].key &&
                                     s'.reqs[step.r].phase.chan == s.reqs[step.r].phase.chan)
            && (forall q :: q in s'.reqs ==> q in s.reqs || q == step.r)
  {
  }

  /** Every step touches no channel but its own request's. */
  lemma {:induction false} ChannelFrame(s: State, step: Step, c: nat)
    requires Enabled(s, step) && c < |s.chans|
    ensures var s' := Apply(s, step);
            && c < |s'.chans|
            && (step.Arrive? || s.reqs[step.r].phase.chan != c ==> s'.chans[c] == s.chans[c])
            && s'.chans[c].key == s.chans[c].key && s'.chans[c].leader == s.chans[c].leader
  {
  }

  /** On a doomed channel no step answers anyone, and it stays doomed. */
  lemma {:induction false} DoomedStep(s: State, step: Step, c: nat)
    requires Inv(s) && Enabled(s, step) && c < |s.chans| && Doomed(s, c)
    ensures var s' := Apply(s, step);
            && c < |s'.chans| && Doomed(s', c) && (IsAbandoned(s, c) ==> IsAbandoned(s', c))
            && forall r :: r in s.reqs && s.reqs[r].phase.chan == c && !s.reqs[r].phase.Answered? ==>
                 r in s'.reqs && !s'.reqs[r].phase.Answered?
  {
    RequestFrame(s, step);
    ChannelFrame(s, step, c);
    RerunUnreachable(s, step.r);
    assert ChannelOk(s, c);
    if !step.Arrive? && s.reqs[step.r].phase.chan == c {
      assert RequestOk(s, step.r);
    }
  }

  /** Nothing that can happen ever resolves a doomed channel: whoever waits on it
      is not answered in any continuation. */
  lemma {:induction false} DoomedForever(s: State, steps: seq<Step>, r: nat)
    requires Inv(s) && Valid(s, steps) && r in s.reqs
    requires s.reqs[r].phase.chan < |s.chans| && Doomed(s, s.reqs[r].phase.chan)
    requires !s.reqs[r].phase.Answered?
    ensures r in After(s, steps).reqs && !After(s, steps).reqs[r].phase.Answered?
    decreases |steps|
  {
    if steps != [] {
      DoomedStep(s, steps[0], s.reqs[r].phase.chan);
      RequestFrame(s, steps[0]);
      InvStep(s, steps[0]);
      DoomedForever(Apply(s, steps[0]), steps[1..], r);
    }
  }

  predicate NeverAnswered(p: Phase, c: nat) {
    p == Joining(c) || p == Waiting(c) || p == GivenUp(c)
  }

  /** `k` is stuck on channel `c`, and so is everyone who arrived on it since. */
  predicate StuckKey(s: State, known: set<nat>, k: Key, c: nat) {
    && k in s.inFlight && s.inFlight[k] == c < |s.chans| && IsAbandoned(s, c)
    && forall r :: r in s.reqs && r !in known && s.reqs[r].key == k ==> NeverAnswered(s.reqs[r].phase, c)
  }

  lemma {:induction false} StuckKeyStep(s: State, step: Step, known: set<nat>, k: Key, c: nat)
    requires Inv(s) && Enabled(s, step) && StuckKey(s, known, k, c)
    ensures StuckKey(Apply(s, step), known, k, c)
  {
    var s' := Apply(s, step);
    DoomedStep(s, step, c);
    EntryStays(s, step, k, c);
    forall r | r in s'.reqs && r !in known && s'.reqs[r].key == k
      ensures NeverAnswered(s'.reqs[r].phase, c)
    {
      RequestFrame(s, step);
      if r in s.reqs {
        StuckRequestStep(s, step, r, c);
      }
    }
  }

  lemma {:induction false} StuckRequestStep(s: State, step: Step, r: nat, c: nat)
    requires Inv(s) && Enabled(s, step) && c < |s.chans| && IsAbandoned(s, c)
    requires r in s.reqs && NeverAnswered(s.reqs[r].phase, c)
    ensures r in Apply(s, step).reqs && NeverAnswered(Apply(s, step).reqs[r].phase, c)
  {
    if step.r == r {
      RerunUnreachable(s, r);
      assert ChannelOk(s, c);
    } else {
      RequestFrame(s, step);
    }
  }

  /** Only the leader of an entry's own channel removes it, and that one is gone. */
  lemma {:induction false} EntryStays(s: State, step: Step, k: Key, c: nat)
    requires Inv(s) && Enabled(s, step)
    requires k in s.inFlight && s.inFlight[k] == c < |s.chans| && IsAbandoned(s, c)
    ensures k in Apply(s, step).inFlight && Apply(s, step).inFlight[k] == c
  {
    if step.HandlerOk? || step.HandlerErr? {
      assert RequestOk(s, step.r) && ChannelOk(s, s.reqs[step.r].phase.chan);
    }
  }

  lemma {:induction false} StuckKeyRun(s: State, steps: seq<Step>, known: set<nat>, k: Key, c: nat)
    requires Inv(s) && Valid(s, steps) && StuckKey(s, known, k, c)
    ensures StuckKey(After(s, steps), known, k, c)
    decreases |steps|
  {
    if steps != [] {
      StuckKeyStep(s, steps[0], known, k, c);
      InvStep(s, steps[0]);
      StuckKeyRun(Apply(s, steps[0]), steps[1..], known, k, c);
    }
  }

  lemma {:induction false} ValidConcat(s: State, a: seq<Step>, b: seq<Step>)
    requires Valid(s, a) && Valid(After(s, a), b)
    ensures Valid(s, a + b) && After(s, a + b) == After(After(s, a), b)
    decreases |a|
  {
    if a == [] {
      assert a + b == b;
    } else {
      assert (a + b)[0] == a[0] && (a + b)[1..] == a[1..] + b;
      ValidConcat(Apply(s, a[0]), a[1..], b);
    }
  }

  /** Cancelling a leader while its handler runs kills its key for good: the entry
      stays in the map and no request arriving on that key afterwards ever returns. */
  lemma {:induction false} CancelledLeaderKillsKey(before: seq<Step>, r: nat, later: seq<Step>)
    requires Valid(INIT, before)
    requires r in After(INIT, before).reqs && After(INIT, before).reqs[r].phase.Leading?
    requires Enabled(After(INIT, before), Cancel(r))
    requires Valid(Apply(After(INIT, before), Cancel(r)), later)
    ensures var s := After(INIT, before);
            var s' := After(Apply(s, Cancel(r)), later);
            var k := s.reqs[r].key;
            && k in s'.inFlight
            && forall q :: q in s'.reqs && q !in s.reqs && s'.reqs[q].key == k ==>
                 NeverAnswered(s'.reqs[q].phase, s.reqs[r].phase.chan)
  {
    var s := After(INIT, before);
    InvRun(INIT, before);
    InvStep(s, Cancel(r));
    assert RequestOk(s, r) && ChannelOk(s, s.reqs[r].phase.chan);
    StuckKeyRun(Apply(s, Cancel(r)), later, s.reqs.Keys, s.reqs[r].key, s.reqs[r].phase.chan);
  }

  // ------------------------------------------------------------------
  // Waiters that can be answered
  // ------------------------------------------------------------------

  lemma {:induction false} OneStep(s: State, step: Step)
    requires Enabled(s, step)
    ensures Valid(s, [step]) && After(s, [step]) == Apply(s, step)
  {
    assert [step][1..] == [];
    assert Valid(Apply(s, step), [step][1..]);
    assert After(Apply(s, step), [step][1..]) == Apply(s, step);
  }

  lemma {:induction false} TwoSteps(s: State, a: Step, b: Step)
    requires Enabled(s, a) && Enabled(Apply(s, a), b)
    ensures Valid(s, [a, b]) && After(s, [a, b]) == Apply(Apply(s, a), b)
  {
    OneStep(s, a);
    OneStep(Apply(s, a), b);
    ValidConcat(s, [a], [b]);
    assert [a] + [b] == [a, b];
  }

  /** Once a value is stored a waiter returns it in one step. */
  lemma {:induction false} AnswerStored(s: State, r: nat)
    requires Present(s, r) && s.reqs[r].phase.Waiting? && s.chans[s.reqs[r].phase.chan].value != Pending
    ensures Valid(s, [Observe(r)]) && Answers(s, [Observe(r)], r)
  {
    OneStep(s, Observe(r));
  }

  lemma {:induction false} AnswerStreaming(s: State, r: nat, q: nat) returns (steps: seq<Step>)
    requires Inv(s) && r in s.reqs && s.reqs[r].phase.Waiting? && q in s.reqs
    requires s.reqs[q].phase.Streaming? && s.reqs[q].phase.chan == s.reqs[r].phase.chan
    requires !s.reqs[q].phase.body.finished
    ensures |steps| == 2 && Valid(s, steps) && Answers(s, steps, r)
  {
    var c := s.reqs[r].phase.chan;
    assert RequestOk(s, r) && RequestOk(s, q);
    assert HasReceiver(s, c) by {
      assert s.reqs[r].phase == Waiting(c);
    }
    var drop := DropResponse(q);
    OneStep(s, drop);
    AnswerStored(Apply(s, drop), r);
    ValidConcat(s, [drop], [Observe(r)]);
    steps := [drop] + [Observe(r)];
  }

  lemma {:induction false} AnswerPending(s: State, r: nat) returns (steps: seq<Step>)
    requires Inv(s) && r in s.reqs && s.reqs[r].phase.Waiting? && s.reqs[r].phase.chan < |s.chans|
    requires !Doomed(s, s.reqs[r].phase.chan) && s.chans[s.reqs[r].phase.chan].value == Pending
    ensures |steps| <= 3 && Valid(s, steps) && Answers(s, steps, r)
  {
    var c := s.reqs[r].phase.chan;
    assert ChannelOk(s, c);
    var q := s.chans[c].leader;
    if s.reqs[q].phase.Streaming? {
      steps := AnswerStreaming(s, r, q);
    } else {
      var respond := HandlerOk(q, Response(200, [], []));
      InvStep(s, respond);
      var rest := AnswerStreaming(Apply(s, respond), r, q);
      OneStep(s, respond);
      ValidConcat(s, [respond], rest);
      steps := [respond] + rest;
    }
  }

  /** A waiter is answered in at most three further steps of some continuation,
      unless its channel is doomed, and then it is answered in none. */
  lemma {:induction false} WaiterDichotomy(s: State, r: nat)
    requires Inv(s) && r in s.reqs && s.reqs[r].phase.Waiting?
    ensures s.reqs[r].phase.chan < |s.chans|
    ensures !Doomed(s, s.reqs[r].phase.chan) ==>
              exists steps :: |steps| <= 3 && Valid(s, steps) && Answers(s, steps, r)
    ensures Doomed(s, s.reqs[r].phase.chan) ==> forall steps :: Valid(s, steps) ==> !Answers(s, steps, r)
  {
    var c := s.reqs[r].phase.chan;
    assert RequestOk(s, r);
    if Doomed(s, c) {
      forall steps | Valid(s, steps)
        ensures !Answers(s, steps, r)
      {
        DoomedForever(s, steps, r);
      }
    } else if s.chans[c].value != Pending {
      AnswerStored(s, r);
    } else {
      var steps := AnswerPending(s, r);
    }
  }

  predicate Answers(s: State, steps: seq<Step>, r: nat)
    requires Valid(s, steps)
  {
    r in After(s, steps).reqs && After(s, steps).reqs[r].phase.Answered?
  }

  // ------------------------------------------------------------------
  // Lost wake-ups
  // ------------------------------------------------------------------

  /** The step sends a value to `c`. */
  predicate Sends(s: State, step: Step, c: nat)
    requires Enabled(s, step)
  {
    && !step.Arrive?
    && s.reqs[step.r].phase.chan == c
    && match step
       case HandlerErr(_, _) => true
       case Poll(_) => PollBody(s.reqs[step.r].phase.body).publish.Some?
       case DropResponse(_) => DropBody(s.reqs[step.r].phase.body).publish.Some?
       case _ => false
  }

  /** Look-up and subscription behave as one step: nothing is sent to a channel
      some request has looked up but not subscribed to; and no leader is cancelled. */
  predicate Orderly(s: State, step: Step)
    requires Enabled(s, step)
  {
    && (forall r :: r in s.reqs && s.reqs[r].phase.Joining? ==> !Sends(s, step, s.reqs[r].phase.chan))
    && (step.Cancel? ==> !s.reqs[step.r].phase.Leading?)
  }

  predicate OrderlyRun(s: State, steps: seq<Step>)
    requires Valid(s, steps)
    decreases |steps|
  {
    steps == [] || (Orderly(s, steps[0]) && OrderlyRun(Apply(s, steps[0]), steps[1..]))
  }

  predicate NobodyDoomed(s: State) {
    forall r :: r in s.reqs && (s.reqs[r].phase.Joining? || s.reqs[r].phase.Waiting?) ==>
      s.reqs[r].phase.chan < |s.chans| && !Doomed(s, s.reqs[r].phase.chan)
  }

  predicate NoneAbandoned(s: State) {
    forall r :: r in s.reqs ==> !s.reqs[r].phase.Abandoned?
  }

  /** A step of a request on another channel leaves `c` as it was. */
  lemma {:induction false} OrderlyElsewhere(s: State, step: Step, c: nat)
    requires Inv(s) && Enabled(s, step) && c < |s.chans| && !Doomed(s, c)
    requires step.Arrive? || s.reqs[step.r].phase.chan != c
    ensures c < |Apply(s, step).chans| && !Doomed(Apply(s, step), c)
  {
    RequestFrame(s, step);
    ChannelFrame(s, step, c);
    assert ChannelOk(s, c);
  }

  /** Sending to a channel somebody is subscribed to stores the value. */
  lemma {:induction false} OrderlyHere(s: State, step: Step, c: nat, r: nat)
    requires Inv(s) && Enabled(s, step) && Orderly(s, step) && c < |s.chans| && !Doomed(s, c)
    requires !step.Arrive? && s.reqs[step.r].phase.chan == c
    requires r in s.reqs && (s.reqs[r].phase == Joining(c) || s.reqs[r].phase == Waiting(c))
    ensures c < |Apply(s, step).chans| && !Doomed(Apply(s, step), c)
  {
    RerunUnreachable(s, step.r);
    assert ChannelOk(s, c) && RequestOk(s, step.r);
    assert s.reqs[r].phase == Waiting(c) ==> HasReceiver(s, c);
    assert s.reqs[r].phase.Joining? ==> !Sends(s, step, c);
  }

  lemma {:induction false} OrderlyKeepsChannel(s: State, step: Step, c: nat, r: nat)
    requires Inv(s) && Enabled(s, step) && Orderly(s, step) && c < |s.chans| && !Doomed(s, c)
    requires r in s.reqs && (s.reqs[r].phase == Joining(c) || s.reqs[r].phase == Waiting(c))
    ensures c < |Apply(s, step).chans| && !Doomed(Apply(s, step), c)
  {
    if step.Arrive? || s.reqs[step.r].phase.chan != c {
      OrderlyElsewhere(s, step, c);
    } else {
      OrderlyHere(s, step, c, r);
    }
  }

  lemma {:induction false} OrderlyStep(s: State, step: Step)
    requires Inv(s) && NobodyDoomed(s) && NoneAbandoned(s) && Enabled(s, step) && Orderly(s, step)
    ensures NobodyDoomed(Apply(s, step)) && NoneAbandoned(Apply(s, step))
  {
    var s' := Apply(s, step);
    RerunUnreachable(s, step.r);
    RequestFrame(s, step);
    forall r | r in s'.reqs && (s'.reqs[r].phase.Joining? || s'.reqs[r].phase.Waiting?)
      ensures s'.reqs[r].phase.chan < |s'.chans| && !Doomed(s', s'.reqs[r].phase.chan)
    {
      if r in s.reqs {
        OrderlyKeepsChannel(s, step, s.reqs[r].phase.chan, r);
      } else {
        assert FlightOk(s, step.key) && ChannelOk(s, s.inFlight[step.key]);
      }
    }
  }

  /** In an orderly run nobody is ever left on a doomed channel and no leader goes missing. */
  lemma {:induction false} OrderlyRunsResolve(s: State, steps: seq<Step>)
    requires Inv(s) && NobodyDoomed(s) && NoneAbandoned(s) && Valid(s, steps) && OrderlyRun(s, steps)
    ensures NobodyDoomed(After(s, steps)) && NoneAbandoned(After(s, steps))
    decreases |steps|
  {
    if steps != [] {
      OrderlyStep(s, steps[0]);
      InvStep(s, steps[0]);
      OrderlyRunsResolve(Apply(s, steps[0]), steps[1..]);
    }
  }

  /** So every waiter on a pending channel has a live owner of it. */
  lemma {:induction false} OrderlyWaiterHasOwner(steps: seq<Step>, r: nat)
    requires Valid(INIT, steps) && OrderlyRun(INIT, steps)
    requires r in After(INIT, steps).reqs && After(INIT, steps).reqs[r].phase.Waiting?
    ensures var s := After(INIT, steps);
            && s.reqs[r].phase.chan < |s.chans|
            && (s.chans[s.reqs[r].phase.chan].value == Pending ==>
                  exists q :: q in s.reqs && Owns(s.reqs[q].phase, s.reqs[r].phase.chan))
  {
    var s := After(INIT, steps);
    InvRun(INIT, steps);
    OrderlyRunsResolve(INIT, steps);
    var c := s.reqs[r].phase.chan;
    if s.chans[c].value == Pending {
      PendingHasOwner(s, c);
    }
  }

  predicate LeadsFor(s: State, r: nat, k: Key) {
    r in s.reqs && s.reqs[r].key == k && s.reqs[r].phase.Leading?
  }

  /** And every key in the map has exactly one leader, whose handler is running. */
  lemma {:induction false} OrderlyFlightHasLeader(steps: seq<Step>, k: Key)
    requires Valid(INIT, steps) && OrderlyRun(INIT, steps) && k in After(INIT, steps).inFlight
    ensures var s := After(INIT, steps);
            && (exists r :: r in s.reqs && s.reqs[r] == Request(k, Leading(s.inFlight[k])))
            && (forall r, q :: LeadsFor(s, r, k) && LeadsFor(s, q, k) ==> r == q)
  {
    var s := After(INIT, steps);
    OrderlyRunsResolve(INIT, steps);
    InFlightHasLeader(steps, k);
    var leader := s.chans[s.inFlight[k]].leader;
    assert s.reqs[leader] == Request(k, Leading(s.inFlight[k]));
    forall r, q | LeadsFor(s, r, k) && LeadsFor(s, q, k)
      ensures r == q
    {
      OneHandlerPerKey(steps, r, q);
    }
  }

  /** Without that atomicity a wake-up can be lost: the leader fails between a
      second request's look-up and its subscription, and the second request then
      waits for ever although nobody was cancelled. */
  lemma {:induction false} LostWakeUp(k: Key) returns (steps: seq<Step>)
    ensures |steps| == 4 && forall i :: 0 <= i < |steps| ==> !steps[i].Cancel?
    ensures Valid(INIT, steps) && After(INIT, steps) == OneStranded(k)
    ensures forall more :: Valid(OneStranded(k), more) ==> !Answers(OneStranded(k), more, 1)
  {
    var arrivals, finish := [Arrive(0, k), Arrive(1, k)], [HandlerErr(0, "boom"), Subscribe(1)];
    LeaderThenJoiner(k);
    LeaderFailsEarly(k);
    ValidConcat(INIT, arrivals, finish);
    steps := arrivals + finish;
    InvRun(INIT, steps);
    WaiterDichotomy(OneStranded(k), 1);
  }

  function TwoArrived(k: Key): State {
    State(map[0 := Request(k, Leading(0)), 1 := Request(k, Joining(0))], map[k := 0],
          [Channel(k, Pending, 0, 0)])
  }

  function OneStranded(k: Key): State {
    State(map[0 := Request(k, Failed(0, "boom")), 1 := Request(k, Waiting(0))], map[],
          [Channel(k, Pending, 0, 1)])
  }

  lemma {:induction false} LeaderThenJoiner(k: Key)
    ensures var arrivals := [Arrive(0, k), Arrive(1, k)];
            Valid(INIT, arrivals) && After(INIT, arrivals) == TwoArrived(k)
  {
    TwoSteps(INIT, Arrive(0, k), Arrive(1, k));
    var s1 := Apply(INIT, Arrive(0, k));
    assert s1.chans == [Channel(k, Pending, 0, 0)] && s1.inFlight == map[k := 0];
    assert Apply(s1, Arrive(1, k)).reqs == TwoArrived(k).reqs;
  }

  lemma {:induction false} LeaderFailsEarly(k: Key)
    ensures var finish := [HandlerErr(0, "boom"), Subscribe(1)];
            Valid(TwoArrived(k), finish) && After(TwoArrived(k), finish) == OneStranded(k)
  {
    var s2 := TwoArrived(k);
    assert !HasReceiver(s2, 0);
    var s3 := Apply(s2, HandlerErr(0, "boom"));
    assert s3.chans == [Channel(k, Pending, 0, 1)];
    assert s3.reqs == map[0 := Request(k, Failed(0, "boom")), 1 := Request(k, Joining(0))];
    TwoSteps(s2, HandlerErr(0, "boom"), Subscribe(1));
    assert Apply(s3, Subscribe(1)).reqs == OneStranded(k).reqs;
  }

  // ------------------------------------------------------------------
  // A truncated body shared as a success
  // ------------------------------------------------------------------

  function Shared(k: Key, leader: Phase, waiter: Phase, flights: map<Key, nat>, value: Outcome, sends: nat): State {
    State(map[0 := Request(k, leader), 1 := Request(k, waiter)], flights, [Channel(k, value, 0, sends)])
  }

  lemma {:induction false} ThreeSteps(s: State, a: Step, b: Step, c: Step)
    requires Enabled(s, a) && Enabled(Apply(s, a), b) && Enabled(Apply(Apply(s, a), b), c)
    ensures Valid(s, [a, b, c]) && After(s, [a, b, c]) == Apply(Apply(Apply(s, a), b), c)
  {
    TwoSteps(s, a, b);
    OneStep(Apply(Apply(s, a), b), c);
    ValidConcat(s, [a, b], [c]);
    assert [a, b] + [c] == [a, b, c];
  }

  lemma {:induction false} SharedResponds(k: Key, resp: Response)
    ensures var s := Shared(k, Leading(0), Waiting(0), map[k := 0], Pending, 0);
            && Enabled(s, HandlerOk(0, resp))
            && Apply(s, HandlerOk(0, resp)) ==
               Shared(k, Streaming(0, Body(resp, 0, [], false)), Waiting(0), map[], Pending, 0)
  {
    var s := Shared(k, Leading(0), Waiting(0), map[k := 0], Pending, 0);
    var t := Shared(k, Streaming(0, Body(resp, 0, [], false)), Waiting(0), map[], Pending, 0);
    assert Apply(s, HandlerOk(0, resp)).reqs == t.reqs && Apply(s, HandlerOk(0, resp)).inFlight == t.inFlight;
  }

  lemma {:induction false} SharedPolls(k: Key, b: Body)
    requires b.pos < |b.resp.frames|
    ensures var s := Shared(k, Streaming(0, b), Waiting(0), map[], Pending, 0);
            && Enabled(s, Poll(0))
            && Apply(s, Poll(0)) == Shared(k, Streaming(0, PollBody(b).body), Waiting(0), map[], Pending, 0)
  {
    var s := Shared(k, Streaming(0, b), Waiting(0), map[], Pending, 0);
    var t := Shared(k, Streaming(0, PollBody(b).body), Waiting(0), map[], Pending, 0);
    assert Apply(s, Poll(0)).reqs == t.reqs;
  }

  lemma {:induction false} SharedDrops(k: Key, b: Body)
    requires !b.finished
    ensures var s := Shared(k, Streaming(0, b), Waiting(0), map[], Pending, 0);
            var cut := Snapshot(b.resp.status, b.resp.headers, b.acc);
            && Enabled(s, DropResponse(0))
            && Apply(s, DropResponse(0)) == Shared(k, Closed(0, DropBody(b).body, false), Waiting(0), map[], Ok(cut), 1)
  {
    var s := Shared(k, Streaming(0, b), Waiting(0), map[], Pending, 0);
    var t := Shared(k, Closed(0, DropBody(b).body, false), Waiting(0), map[],
                    Ok(Snapshot(b.resp.status, b.resp.headers, b.acc)), 1);
    assert HasReceiver(s, 0) by {
      assert s.reqs[1].phase == Waiting(0);
    }
    assert Apply(s, DropResponse(0)).reqs == t.reqs && Apply(s, DropResponse(0)).chans == t.chans;
  }

  /** The leader's client reads one frame of two and disconnects. */
  lemma {:induction false} ClientDisconnects(k: Key, resp: Response, a: Bytes, b: Bytes)
    requires resp.frames == [Data(a), Data(b)]
    ensures var before := Shared(k, Leading(0), Waiting(0), map[k := 0], Pending, 0);
            var steps := [HandlerOk(0, resp), Poll(0), DropResponse(0)];
            var cut := Snapshot(resp.status, resp.headers, a);
            && Valid(before, steps)
            && After(before, steps) ==
               Shared(k, Closed(0, Body(resp, 1, [], true), false), Waiting(0), map[], Ok(cut), 1)
  {
    var before := Shared(k, Leading(0), Waiting(0), map[k := 0], Pending, 0);
    var unread, read := Body(resp, 0, [], false), Body(resp, 1, a, false);
    assert [] + a == a && PollBody(unread).body == read;
    SharedResponds(k, resp);
    SharedPolls(k, unread);
    SharedDrops(k, read);
    ThreeSteps(before, HandlerOk(0, resp), Poll(0), DropResponse(0));
  }

  /** The waiter then returns the first frame alone, as an ordinary success. */
  lemma {:induction false} TruncatedSuccess(k: Key, resp: Response, a: Bytes, b: Bytes) returns (steps: seq<Step>)
    requires resp.frames == [Data(a), Data(b)]
    ensures Valid(INIT, steps) && 1 in After(INIT, steps).reqs
    ensures After(INIT, steps).reqs[1].phase == Answered(0, Ok(Snapshot(resp.status, resp.headers, a)))
  {
    LeaderThenJoiner(k);
    var arrivals, finish := [Arrive(0, k), Arrive(1, k)], [HandlerOk(0, resp), Poll(0), DropResponse(0)];
    var before := Shared(k, Leading(0), Waiting(0), map[k := 0], Pending, 0);
    OneStep(TwoArrived(k), Subscribe(1));
    assert Apply(TwoArrived(k), Subscribe(1)).reqs == before.reqs;
    ClientDisconnects(k, resp, a, b);
    var s := After(before, finish);
    OneStep(s, Observe(1));
    ValidConcat(before, finish, [Observe(1)]);
    ValidConcat(TwoArrived(k), [Subscribe(1)], finish + [Observe(1)]);
    ValidConcat(INIT, arrivals, [Subscribe(1)] + (finish + [Observe(1)]));
    steps := arrivals + ([Subscribe(1)] + (finish + [Observe(1)]));
  }

  // ------------------------------------------------------------------
  // The fan-out body as an object
  // ------------------------------------------------------------------

  class Watch {
    var value: Outcome
    var receivers: nat

    constructor (receivers: nat)
      ensures value == Pending && this.receivers == receivers
    {
      value := Pending;
      this.receivers := receivers;
    }

    method Send(v: Outcome)
      modifies this`value
      ensures value == if receivers > 0 then v else old(value)
    {
      if receivers > 0 {
        value := v;
      }
    }
  }

  class FanoutBody {
    const resp: Response
    const tx: Watch
    var pos: nat
    var acc: Bytes
    var finished: bool

    function View(): Body
      reads this
    {
      Body(resp, pos, acc, finished)
    }

    constructor (resp: Response, tx: Watch)
      ensures View() == Body(resp, 0, [], false) && this.tx == tx
    {
      this.resp := resp;
      this.tx := tx;
      pos, acc, finished := 0, [], false;
    }

    method PollFrame() returns (frame: Option<Frame>)
      modifies this, tx`value
      ensures View() == PollBody(old(View())).body
      ensures tx.value == match PollBody(old(View())).publish
                          case None => old(tx.value)
                          case Some(snapshot) => if tx.receivers > 0 then Ok(snapshot) else old(tx.value)
      ensures frame == if old(pos) < |resp.frames| then Some(resp.frames[old(pos)]) else None
    {
      if pos < |resp.frames| {
        frame := Some(resp.frames[pos]);
        if frame.value.Data? {
          acc := acc + frame.value.bytes;
        }
        pos := pos + 1;
      } else {
        frame := None;
        if !finished {
          finished := true;
          var full := acc;
          acc := [];
          tx.Send(Ok(Snapshot(resp.status, resp.headers, full)));
        }
      }
    }

    method Drop()
      modifies this, tx`value
      ensures View() == DropBody(old(View())).body
      ensures tx.value == match DropBody(old(View())).publish
                          case None => old(tx.value)
                          case Some(snapshot) => if tx.receivers > 0 then Ok(snapshot) else old(tx.value)
    {
      if !finished {
        finished := true;
        var full := acc;
        acc := [];
        tx.Send(Ok(Snapshot(resp.status, resp.headers, full)));
      }
    }
  }
}
