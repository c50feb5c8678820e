/** The adaptive batcher of `crates/justapi-core/src/batching.rs`: callers submit
    requests through a bounded channel, one task gathers them into batches, hands each
    batch to a processor and scatters the results back by position.

    A caller is named by its ticket, the position of its request in the order in which
    the channel accepted it. */
module Batcher {

  /** What a caller that waits for its response sees: a result, or its responder gone. */
  datatype Reply<Res> = Answer(value: Res) | Dropped

  const CHANNEL_CAPACITY: nat := 1024

  datatype Call<Req> = Call(ticket: nat, payload: Req)

  /** `Stopped` is the task ended, by a closed channel or by a panic of the processor. */
  datatype Phase<Req> =
    | Waiting
    | Filling(batch: seq<Req>, responders: seq<nat>)
    | Processing(batch: seq<Req>, responders: seq<nat>)
    | Stopped

  /** `accepted`, `batches`, `results` and `lost` are histories: the requests the channel
      took, the batches handed to the processor, what it returned for each (nothing if it
      panicked) and the requests still queued at a panic. */
  datatype State<Req, Res> = State(
    queue: seq<Call<Req>>, open: bool, phase: Phase<Req>, replies: map<nat, Reply<Res>>, refused: nat,
    accepted: seq<Req>, batches: seq<seq<Req>>, results: seq<seq<Res>>, lost: seq<Req>)

  datatype Event<Req, Res> =
    | Submit(payload: Req)
    | DropHandles
    | Receive
    | Expire
    | Return(results: seq<Res>)
    | Panic

  function Init<Req, Res>(): State<Req, Res> {
    State([], true, Waiting, map[], 0, [], [], [], [])
  }

  predicate Enabled<Req, Res>(s: State<Req, Res>, e: Event<Req, Res>) {
    match e
    case Submit(_) => s.open && (s.phase.Stopped? || |s.queue| < CHANNEL_CAPACITY)
    case DropHandles => s.open
    case Receive => (s.phase.Waiting? || s.phase.Filling?) && (s.queue != [] || !s.open)
    case Expire => s.phase.Filling?
    case Return(_) => s.phase.Processing?
    case Panic => s.phase.Processing?
  }

  function Cap(maxSize: nat): nat { if maxSize == 0 then 1 else maxSize }

  /** The requests gathered for the next batch, and their callers. */
  function Gathered<Req>(p: Phase<Req>): seq<Req> { if p.Filling? then p.batch else [] }

  function Gatherers<Req>(p: Phase<Req>): seq<nat> { if p.Filling? then p.responders else [] }

  function HandOver<Req, Res>(s: State<Req, Res>, batch: seq<Req>, responders: seq<nat>): State<Req, Res> {
    s.(phase := Processing(batch, responders), batches := s.batches + [batch])
  }

  function Step<Req, Res>(maxSize: nat, s: State<Req, Res>, e: Event<Req, Res>): State<Req, Res>
    requires Enabled(s, e)
  {
    match e
    case Submit(payload) =>
      if s.phase.Stopped? then s.(refused := s.refused + 1)
      else s.(accepted := s.accepted + [payload], queue := s.queue + [Call(|s.accepted|, payload)])
    case DropHandles => s.(open := false)
    case Receive =>
      if s.queue != [] then
        var batch := Gathered(s.phase) + [s.queue[0].payload];
        var responders := Gatherers(s.phase) + [s.queue[0].ticket];
        var rest := s.(queue := s.queue[1..]);
        if |batch| >= maxSize then HandOver(rest, batch, responders)
        else rest.(phase := Filling(batch, responders))
      else if s.phase.Waiting? then s.(phase := Stopped)
      else HandOver(s, s.phase.batch, s.phase.responders)
    case Expire => HandOver(s, s.phase.batch, s.phase.responders)
    case Return(results) =>
      s.(phase := Waiting, results := s.results + [results],
         replies := Scattered(s.phase.responders, results, s.replies))
    case Panic =>
      s.(phase := Stopped, results := s.results + [[]], queue := [], lost := Payloads(s.queue),
         replies := Scattered(s.phase.responders + TicketsOf(s.queue), [], s.replies))
  }

  /** Every interleaving: the events that are possible take effect, the others do not. */
  function Run<Req, Res>(maxSize: nat, s: State<Req, Res>, es: seq<Event<Req, Res>>): State<Req, Res>
    decreases |es|
  {
    if es == [] then s
    else Run(maxSize, if Enabled(s, es[0]) then Step(maxSize, s, es[0]) else s, es[1..])
  }

  // ------------------------------------------------------------------
  // Scattering a batch's results
  // ------------------------------------------------------------------

  /** Responders and results are paired in order; a responder without a result is dropped
      with the rest of its vector, a result without a responder is discarded. */
  function Scattered<Res>(responders: seq<nat>, results: seq<Res>, replies: map<nat, Reply<Res>>)
    : map<nat, Reply<Res>>
    decreases |responders|
  {
    if responders == [] then replies
    else if results == [] then Scattered(responders[1..], [], replies[responders[0] := Dropped])
    else Scattered(responders[1..], results[1..], replies[responders[0] := Answer(results[0])])
  }

  method Scatter<Res>(responders: seq<nat>, results: seq<Res>, before: map<nat, Reply<Res>>)
    returns (replies: map<nat, Reply<Res>>)
    ensures replies == Scattered(responders, results, before)
  {
    replies := before;
    var i := 0;
    while i < |responders| && i < |results|
      invariant i <= |responders| && i <= |results|
      invariant Scattered(responders[i..], results[i..], replies) == Scattered(responders, results, before)
    {
      replies := replies[responders[i] := Answer(results[i])];
      i := i + 1;
    }
    while i < |responders|
      invariant i <= |responders| && (i < |responders| ==> i >= |results|)
      invariant Scattered(responders[i..], if i <= |results| then results[i..] else [], replies)
             == Scattered(responders, results, before)
    {
      replies := replies[responders[i] := Dropped];
      i := i + 1;
    }
  }

  /** What the callers of a batch of `n` requests see. */
  function Answers<Res>(n: nat, results: seq<Res>): (r: seq<Reply<Res>>)
    ensures |r| == n
  {
    seq(n, i requires 0 <= i < n => if i < |results| then Answer(results[i]) else Dropped)
  }

  function Tickets(from: nat, n: nat): (r: seq<nat>)
    ensures |r| == n
  {
    seq(n, i requires 0 <= i < n => from + i)
  }

  /** The replies of tickets `0..|r|` are `r`, and there are no others. */
  ghost predicate Replied<Res>(replies: map<nat, Reply<Res>>, r: seq<Reply<Res>>) {
    && (forall t :: t in replies ==> t < |r|)
    && (forall t :: 0 <= t < |r| ==> t in replies && replies[t] == r[t])
  }

  lemma {:induction false} ScatterInOrder<Res>(n: nat, results: seq<Res>, replies: map<nat, Reply<Res>>, r: seq<Reply<Res>>)
    requires Replied(replies, r)
    ensures Replied(Scattered(Tickets(|r|, n), results, replies), r + Answers(n, results))
    decreases n
  {
    if n == 0 {
      assert r + Answers(n, results) == r;
    } else {
      var first: Reply<Res> := if results == [] then Dropped else Answer(results[0]);
      var later: seq<Res> := if results == [] then [] else results[1..];
      assert Tickets(|r|, n)[1..] == Tickets(|r| + 1, n - 1);
      assert r + Answers(n, results) == (r + [first]) + Answers(n - 1, later);
      ScatterInOrder(n - 1, later, replies[|r| := first], r + [first]);
    }
  }

  // ------------------------------------------------------------------
  // The invariant
  // ------------------------------------------------------------------

  function Concat<T>(xs: seq<seq<T>>): seq<T> {
    if xs == [] then [] else Concat(xs[..|xs| - 1]) + xs[|xs| - 1]
  }

  function Payloads<Req>(q: seq<Call<Req>>): (r: seq<Req>)
    ensures |r| == |q|
  {
    seq(|q|, i requires 0 <= i < |q| => q[i].payload)
  }

  function TicketsOf<Req>(q: seq<Call<Req>>): (r: seq<nat>)
    ensures |r| == |q|
  {
    seq(|q|, i requires 0 <= i < |q| => q[i].ticket)
  }

  /** What the callers of the finished batches see. */
  function Outcomes<Req, Res>(batches: seq<seq<Req>>, results: seq<seq<Res>>): seq<Reply<Res>>
    requires |results| <= |batches|
    decreases |results|
  {
    if results == [] then []
    else
      var k := |results| - 1;
      Outcomes(batches, results[..k]) + Answers(|batches[k]|, results[k])
  }

  /** Every accepted request is, once and in order, in a batch, in the batch being
      gathered, in the queue, or lost to a panic. */
  ghost predicate Conserved<Req, Res>(s: State<Req, Res>) {
    s.accepted == Concat(s.batches) + Gathered(s.phase) + Payloads(s.queue) + s.lost
  }

  ghost predicate SizesOk<Req, Res>(maxSize: nat, s: State<Req, Res>) {
    && (forall i :: 0 <= i < |s.batches| ==> 1 <= |s.batches[i]| <= Cap(maxSize))
    && (s.phase.Filling? ==> 1 <= |s.phase.batch| < maxSize)
  }

  /** The tickets held by the task and by the queue are the next ones, in order. */
  ghost predicate TicketsOk<Req, Res>(s: State<Req, Res>) {
    var n := |Finished(s)|;
    var held := if s.phase.Filling? || s.phase.Processing? then |s.phase.batch| else 0;
    && (s.phase.Filling? || s.phase.Processing? ==> s.phase.responders == Tickets(n, held))
    && TicketsOf(s.queue) == Tickets(n + held, |s.queue|)
    && n + held + |s.queue| == |s.accepted|
  }

  /** What the callers that have been replied to see. */
  ghost function Finished<Req, Res>(s: State<Req, Res>): seq<Reply<Res>> {
    if |s.results| <= |s.batches| then Outcomes(s.batches, s.results) + Answers(|s.lost|, []) else []
  }

  /** The processor has answered for every batch but the one it works on. */
  ghost predicate InStep<Req, Res>(s: State<Req, Res>) {
    && |s.batches| == |s.results| + (if s.phase.Processing? then 1 else 0)
    && (s.phase.Processing? ==> s.batches[|s.results|] == s.phase.batch)
  }

  /** A task that ended left nothing queued, and requests are lost to a panic only. */
  ghost predicate Ended<Req, Res>(s: State<Req, Res>) {
    && (s.phase.Stopped? ==> s.queue == [])
    && (s.lost != [] ==> s.phase.Stopped? && s.results != [] && s.results[|s.results| - 1] == [])
  }

  ghost predicate Inv<Req, Res>(maxSize: nat, s: State<Req, Res>) {
    && Conserved(s) && SizesOk(maxSize, s) && InStep(s) && Ended(s)
    && TicketsOk(s) && Replied(s.replies, Finished(s))
  }

  lemma {:induction false} OutcomesLocal<Req, Res>(batches: seq<seq<Req>>, b: seq<Req>, results: seq<seq<Res>>)
    requires |results| <= |batches|
    ensures Outcomes(batches + [b], results) == Outcomes(batches, results)
    decreases |results|
  {
    if results != [] {
      OutcomesLocal(batches, b, results[..|results| - 1]);
    }
  }

  lemma {:induction false} OutcomesSnoc<Req, Res>(batches: seq<seq<Req>>, results: seq<seq<Res>>, r: seq<Res>)
    requires |results| < |batches|
    ensures Outcomes(batches, results + [r]) == Outcomes(batches, results) + Answers(|batches[|results|]|, r)
  {
    assert (results + [r])[..|results|] == results;
  }

  lemma {:induction false} ConcatSnoc<T>(xs: seq<seq<T>>, x: seq<T>)
    ensures Concat(xs + [x]) == Concat(xs) + x
  {
    assert (xs + [x])[..|xs|] == xs;
  }

  /** Every accepted request is in a batch, in `batch`, or in the queue. */
  ghost predicate Holding<Req, Res>(s: State<Req, Res>, batch: seq<Req>) {
    s.accepted == Concat(s.batches) + batch + Payloads(s.queue)
  }

  /** The task is gathering `batch`. */
  ghost predicate Gathering<Req, Res>(maxSize: nat, s: State<Req, Res>, batch: seq<Req>) {
    && (s.phase.Waiting? || s.phase.Filling?) && s.lost == [] && |s.batches| == |s.results|
    && (forall i :: 0 <= i < |s.batches| ==> 1 <= |s.batches[i]| <= Cap(maxSize))
    && 1 <= |batch| <= Cap(maxSize)
  }

  /** The next tickets are those of `responders`, then those of the queue. */
  ghost predicate Queued<Req, Res>(s: State<Req, Res>, responders: seq<nat>, held: nat, n: nat) {
    && responders == Tickets(n, held) && TicketsOf(s.queue) == Tickets(n + held, |s.queue|)
    && n + held + |s.queue| == |s.accepted|
  }

  /** `batch` and its `responders` are what the task has gathered in front of the queue. */
  ghost predicate Ready<Req, Res>(maxSize: nat, s: State<Req, Res>, batch: seq<Req>, responders: seq<nat>) {
    && Gathering(maxSize, s, batch) && Holding(s, batch)
    && Replied(s.replies, Finished(s)) && Queued(s, responders, |batch|, |Finished(s)|)
  }

  lemma {:induction false} PutInBatch<T>(a: seq<T>, b: seq<T>, c: seq<T>)
    ensures a + b + c == (a + b) + [] + c + []
  {
  }

  lemma {:induction false} KeepGathered<T>(a: seq<T>, b: seq<T>, c: seq<T>)
    ensures a + b + c == a + b + c + []
  {
  }

  lemma {:induction false} HandOverConserves<Req, Res>(s: State<Req, Res>, batch: seq<Req>, responders: seq<nat>)
    requires s.lost == [] && Holding(s, batch)
    ensures Conserved(HandOver(s, batch, responders))
  {
    ConcatSnoc(s.batches, batch);
    PutInBatch(Concat(s.batches), batch, Payloads(s.queue));
  }

  lemma {:induction false} HandOverFinishes<Req, Res>(s: State<Req, Res>, batch: seq<Req>, responders: seq<nat>)
    requires s.lost == [] && |s.batches| == |s.results|
    ensures Finished(HandOver(s, batch, responders)) == Finished(s)
  {
    OutcomesLocal(s.batches, batch, s.results);
  }

  lemma {:induction false} HandOverRest<Req, Res>(maxSize: nat, s: State<Req, Res>, batch: seq<Req>, responders: seq<nat>)
    requires Gathering(maxSize, s, batch)
    ensures var t := HandOver(s, batch, responders);
            SizesOk(maxSize, t) && InStep(t) && Ended(t)
  {
  }

  lemma {:induction false} HandOverTickets<Req, Res>(
    s: State<Req, Res>, batch: seq<Req>, responders: seq<nat>, done: seq<Reply<Res>>)
    requires Finished(HandOver(s, batch, responders)) == done && Replied(s.replies, done)
    requires Queued(s, responders, |batch|, |done|)
    ensures var t := HandOver(s, batch, responders);
            TicketsOk(t) && Replied(t.replies, Finished(t))
  {
  }

  lemma {:induction false} HandOverOk<Req, Res>(maxSize: nat, s: State<Req, Res>, batch: seq<Req>, responders: seq<nat>)
    requires Ready(maxSize, s, batch, responders)
    ensures Inv(maxSize, HandOver(s, batch, responders))
  {
    HandOverFinishes(s, batch, responders);
    HandOverConserves(s, batch, responders);
    HandOverTickets(s, batch, responders, Finished(s));
    HandOverRest(maxSize, s, batch, responders);
  }

  lemma {:induction false} FillConserves<Req, Res>(s: State<Req, Res>, batch: seq<Req>, responders: seq<nat>)
    requires s.lost == [] && Holding(s, batch)
    ensures Conserved(s.(phase := Filling(batch, responders)))
  {
    KeepGathered(Concat(s.batches), batch, Payloads(s.queue));
  }

  lemma {:induction false} FillTickets<Req, Res>(
    s: State<Req, Res>, batch: seq<Req>, responders: seq<nat>, done: seq<Reply<Res>>)
    requires Finished(s) == done && Replied(s.replies, done) && Queued(s, responders, |batch|, |done|)
    ensures var t := s.(phase := Filling(batch, responders));
            TicketsOk(t) && Replied(t.replies, Finished(t))
  {
  }

  lemma {:induction false} FillRest<Req, Res>(maxSize: nat, s: State<Req, Res>, batch: seq<Req>, responders: seq<nat>)
    requires Gathering(maxSize, s, batch) && |batch| < maxSize
    ensures var t := s.(phase := Filling(batch, responders));
            SizesOk(maxSize, t) && InStep(t) && Ended(t)
  {
  }

  lemma {:induction false} FillOk<Req, Res>(maxSize: nat, s: State<Req, Res>, batch: seq<Req>, responders: seq<nat>)
    requires Ready(maxSize, s, batch, responders) && |batch| < maxSize
    ensures Inv(maxSize, s.(phase := Filling(batch, responders)))
  {
    FillConserves(s, batch, responders);
    FillTickets(s, batch, responders, Finished(s));
    FillRest(maxSize, s, batch, responders);
  }

  lemma {:induction false} FilledConserved<Req, Res>(s: State<Req, Res>)
    requires Conserved(s) && s.phase.Filling? && s.lost == []
    ensures s.accepted == Concat(s.batches) + s.phase.batch + Payloads(s.queue)
  {
    KeepGathered(Concat(s.batches), s.phase.batch, Payloads(s.queue));
  }

  lemma {:induction false} FilledReady<Req, Res>(maxSize: nat, s: State<Req, Res>)
    requires Inv(maxSize, s) && s.phase.Filling?
    ensures Ready(maxSize, s, s.phase.batch, s.phase.responders)
  {
    FilledConserved(s);
  }

  lemma {:induction false} Enqueue<Req>(q: seq<Call<Req>>, from: nat, c: Call<Req>)
    requires TicketsOf(q) == Tickets(from, |q|) && c.ticket == from + |q|
    ensures Payloads(q + [c]) == Payloads(q) + [c.payload]
    ensures TicketsOf(q + [c]) == Tickets(from, |q| + 1)
  {
    forall i | 0 <= i <= |q|
      ensures TicketsOf(q + [c])[i] == from + i
    {
      assert i < |q| ==> TicketsOf(q)[i] == q[i].ticket;
    }
  }

  lemma {:induction false} AppendLast<T>(a: seq<T>, b: seq<T>, c: seq<T>, x: T)
    ensures (a + b + c + []) + [x] == a + b + (c + [x]) + []
  {
  }

  lemma {:induction false} SubmitOk<Req, Res>(maxSize: nat, s: State<Req, Res>, x: Req)
    requires Inv(maxSize, s) && Enabled(s, Submit(x))
    ensures Inv(maxSize, Step(maxSize, s, Submit(x)))
  {
    if !s.phase.Stopped? {
      var t := Step(maxSize, s, Submit(x));
      Enqueue(s.queue, |s.accepted| - |s.queue|, Call(|s.accepted|, x));
      AppendLast(Concat(s.batches), Gathered(s.phase), Payloads(s.queue), x);
      assert Conserved(t);
      assert TicketsOk(t);
    }
  }

  /** Receiving from a queue moves its first call to the end of the gathered ones. */
  lemma {:induction false} Dequeue<Req>(q: seq<Call<Req>>, from: nat, held: seq<nat>)
    requires q != [] && TicketsOf(q) == Tickets(from + |held|, |q|) && held == Tickets(from, |held|)
    ensures Payloads(q) == [q[0].payload] + Payloads(q[1..])
    ensures held + [q[0].ticket] == Tickets(from, |held| + 1)
    ensures TicketsOf(q[1..]) == Tickets(from + |held| + 1, |q| - 1)
  {
    assert TicketsOf(q)[0] == q[0].ticket;
    forall i | 0 <= i < |q| - 1
      ensures TicketsOf(q[1..])[i] == from + |held| + 1 + i
    {
      assert TicketsOf(q)[i + 1] == q[i + 1].ticket;
    }
  }

  lemma {:induction false} MoveFirst<T>(a: seq<T>, b: seq<T>, x: T, c: seq<T>)
    ensures a + b + ([x] + c) + [] == a + (b + [x]) + c
  {
  }

  lemma {:induction false} ReceivedHolding<Req, Res>(s: State<Req, Res>)
    requires Conserved(s) && s.lost == [] && s.queue != []
    requires Payloads(s.queue) == [s.queue[0].payload] + Payloads(s.queue[1..])
    ensures Holding(s.(queue := s.queue[1..]), Gathered(s.phase) + [s.queue[0].payload])
  {
    MoveFirst(Concat(s.batches), Gathered(s.phase), s.queue[0].payload, Payloads(s.queue[1..]));
  }

  lemma {:induction false} ReceivedGathering<Req, Res>(maxSize: nat, s: State<Req, Res>)
    requires SizesOk(maxSize, s) && InStep(s) && Ended(s) && (s.phase.Waiting? || s.phase.Filling?) && s.queue != []
    ensures Gathering(maxSize, s.(queue := s.queue[1..]), Gathered(s.phase) + [s.queue[0].payload])
  {
  }

  lemma {:induction false} ReceivedQueued<Req, Res>(s: State<Req, Res>, n: nat)
    requires TicketsOk(s) && n == |Finished(s)| && (s.phase.Waiting? || s.phase.Filling?) && s.queue != []
    ensures Payloads(s.queue) == [s.queue[0].payload] + Payloads(s.queue[1..])
    ensures Queued(s.(queue := s.queue[1..]), Gatherers(s.phase) + [s.queue[0].ticket], |Gathered(s.phase)| + 1, n)
  {
    Dequeue(s.queue, n, Gatherers(s.phase));
  }

  lemma {:induction false} ReceivedReady<Req, Res>(maxSize: nat, s: State<Req, Res>)
    requires Inv(maxSize, s) && Enabled(s, Receive) && s.queue != []
    ensures Ready(maxSize, s.(queue := s.queue[1..]),
                  Gathered(s.phase) + [s.queue[0].payload], Gatherers(s.phase) + [s.queue[0].ticket])
  {
    assert Finished(s.(queue := s.queue[1..])) == Finished(s);
    ReceivedQueued(s, |Finished(s)|);
    ReceivedHolding(s);
    ReceivedGathering(maxSize, s);
  }

  lemma {:induction false} ReceiveItemOk<Req, Res>(maxSize: nat, s: State<Req, Res>)
    requires Inv(maxSize, s) && Enabled(s, Receive) && s.queue != []
    ensures Inv(maxSize, Step(maxSize, s, Receive))
  {
    ReceivedReady(maxSize, s);
    TakenOk(maxSize, s.(queue := s.queue[1..]),
            Gathered(s.phase) + [s.queue[0].payload], Gatherers(s.phase) + [s.queue[0].ticket]);
  }

  lemma {:induction false} TakenOk<Req, Res>(maxSize: nat, s: State<Req, Res>, batch: seq<Req>, responders: seq<nat>)
    requires Ready(maxSize, s, batch, responders)
    ensures Inv(maxSize, if |batch| >= maxSize then HandOver(s, batch, responders)
                         else s.(phase := Filling(batch, responders)))
  {
    if |batch| >= maxSize {
      HandOverOk(maxSize, s, batch, responders);
    } else {
      FillOk(maxSize, s, batch, responders);
    }
  }

  lemma {:induction false} ReceiveOk<Req, Res>(maxSize: nat, s: State<Req, Res>)
    requires Inv(maxSize, s) && Enabled(s, Receive)
    ensures Inv(maxSize, Step(maxSize, s, Receive))
  {
    if s.queue != [] {
      ReceiveItemOk(maxSize, s);
    } else if s.phase.Filling? {
      FilledReady(maxSize, s);
      HandOverOk(maxSize, s, s.phase.batch, s.phase.responders);
    } else {
      StopOk(maxSize, s);
    }
  }

  lemma {:induction false} StopOk<Req, Res>(maxSize: nat, s: State<Req, Res>)
    requires Inv(maxSize, s) && s.phase.Waiting? && s.queue == []
    ensures Inv(maxSize, s.(phase := Stopped))
  {
    assert Finished(s.(phase := Stopped)) == Finished(s);
  }

  lemma {:induction false} NothingLost<Req, Res>(s: State<Req, Res>)
    requires s.lost == [] && |s.results| <= |s.batches|
    ensures Finished(s) == Outcomes(s.batches, s.results)
  {
    assert Answers<Res>(0, []) == [];
  }

  lemma {:induction false} ReturnFinishes<Req, Res>(maxSize: nat, s: State<Req, Res>, r: seq<Res>)
    requires Inv(maxSize, s) && Enabled(s, Return(r))
    ensures Finished(Step(maxSize, s, Return(r))) == Finished(s) + Answers(|s.phase.batch|, r)
  {
    OutcomesSnoc(s.batches, s.results, r);
    NothingLost(s);
    NothingLost(Step(maxSize, s, Return(r)));
  }

  lemma {:induction false} ReturnOk<Req, Res>(maxSize: nat, s: State<Req, Res>, r: seq<Res>)
    requires Inv(maxSize, s) && Enabled(s, Return(r))
    ensures Inv(maxSize, Step(maxSize, s, Return(r)))
  {
    var t := Step(maxSize, s, Return(r));
    ReturnFinishes(maxSize, s, r);
    ScatterInOrder(|s.phase.batch|, r, s.replies, Finished(s));
    assert TicketsOk(t);
    assert SizesOk(maxSize, t);
  }

  lemma {:induction false} DropBoth<Res>(r: seq<Reply<Res>>, m: nat, n: nat)
    ensures r + Answers(m, []) + Answers(n, []) == r + Answers(m + n, [])
    ensures Tickets(|r|, m) + Tickets(|r| + m, n) == Tickets(|r|, m + n)
  {
  }

  lemma {:induction false} DroppedAfter<Req, Res>(
    batches: seq<seq<Req>>, results: seq<seq<Res>>, batch: seq<Req>, n: nat)
    requires |batches| == |results| + 1 && batches[|results|] == batch
    ensures Outcomes(batches, results + [[]]) + Answers(n, []) == Outcomes(batches, results) + Answers(|batch| + n, [])
  {
    OutcomesSnoc(batches, results, []);
    DropBoth(Outcomes(batches, results), |batch|, n);
  }

  lemma {:induction false} PanicFinishes<Req, Res>(maxSize: nat, s: State<Req, Res>)
    requires InStep(s) && Ended(s) && Enabled(s, Panic)
    ensures Finished(Step(maxSize, s, Panic)) == Finished(s) + Answers(|s.phase.batch| + |s.queue|, [])
  {
    NothingLost(s);
    DroppedAfter(s.batches, s.results, s.phase.batch, |s.queue|);
  }

  lemma {:induction false} PanicTickets<Req, Res>(maxSize: nat, s: State<Req, Res>)
    requires Inv(maxSize, s) && Enabled(s, Panic)
    ensures s.phase.responders + TicketsOf(s.queue) == Tickets(|Finished(s)|, |s.phase.batch| + |s.queue|)
  {
    DropBoth(Finished(s), |s.phase.batch|, |s.queue|);
  }

  lemma {:induction false} PanicOk<Req, Res>(maxSize: nat, s: State<Req, Res>)
    requires Inv(maxSize, s) && Enabled(s, Panic)
    ensures Inv(maxSize, Step(maxSize, s, Panic))
  {
    var t := Step(maxSize, s, Panic);
    PanicFinishes(maxSize, s);
    PanicTickets(maxSize, s);
    ScatterInOrder(|s.phase.batch| + |s.queue|, [], s.replies, Finished(s));
    assert TicketsOk(t);
    assert SizesOk(maxSize, t);
    assert Conserved(t);
  }

  lemma {:induction false} StepOk<Req, Res>(maxSize: nat, s: State<Req, Res>, e: Event<Req, Res>)
    requires Inv(maxSize, s) && Enabled(s, e)
    ensures Inv(maxSize, Step(maxSize, s, e))
  {
    match e
    case Submit(x) => SubmitOk(maxSize, s, x);
    case DropHandles =>
    case Receive => ReceiveOk(maxSize, s);
    case Expire =>
      FilledReady(maxSize, s);
      HandOverOk(maxSize, s, s.phase.batch, s.phase.responders);
    case Return(r) => ReturnOk(maxSize, s, r);
    case Panic => PanicOk(maxSize, s);
  }

  lemma {:induction false} InvRun<Req, Res>(maxSize: nat, s: State<Req, Res>, es: seq<Event<Req, Res>>)
    requires Inv(maxSize, s)
    ensures Inv(maxSize, Run(maxSize, s, es))
    decreases |es|
  {
    if es != [] {
      if Enabled(s, es[0]) {
        StepOk(maxSize, s, es[0]);
        InvRun(maxSize, Step(maxSize, s, es[0]), es[1..]);
      } else {
        InvRun(maxSize, s, es[1..]);
      }
    }
  }

  lemma {:induction false} InitOk<Req, Res>(maxSize: nat)
    ensures Inv(maxSize, Init<Req, Res>())
  {
    var s := Init<Req, Res>();
    assert Finished(s) == [];
    assert TicketsOf(s.queue) == Tickets(0, 0);
    assert Replied(s.replies, []);
  }

  // ------------------------------------------------------------------
  // The channel, and how batches end
  // ------------------------------------------------------------------

  /** The channel never holds more than its capacity. */
  lemma {:induction false} QueueBounded<Req, Res>(maxSize: nat, s: State<Req, Res>, es: seq<Event<Req, Res>>)
    requires |s.queue| <= 1024
    ensures |Run(maxSize, s, es).queue| <= 1024
    decreases |es|
  {
    if es != [] {
      QueueBounded(maxSize, if Enabled(s, es[0]) then Step(maxSize, s, es[0]) else s, es[1..]);
    }
  }

  /** While the task lives a submission waits exactly if the channel is full; once it has
      ended a submission is refused and accepted by nobody. */
  lemma {:induction false} SubmitOutcome<Req, Res>(maxSize: nat, s: State<Req, Res>, x: Req)
    requires s.open
    ensures Enabled(s, Submit(x)) <==> s.phase.Stopped? || |s.queue| < 1024
    ensures Enabled(s, Submit(x)) ==>
              var t := Step(maxSize, s, Submit(x));
              if s.phase.Stopped? then t.refused == s.refused + 1 && t.accepted == s.accepted && t.queue == s.queue
              else t.refused == s.refused && t.accepted == s.accepted + [x] && |t.queue| == |s.queue| + 1
  {
  }

  /** A batch is handed over when it is full, when the window expires, or when the channel
      is closed and empty, and in no other case; until then the task keeps gathering. */
  lemma {:induction false} BatchEnds<Req, Res>(maxSize: nat, s: State<Req, Res>, e: Event<Req, Res>)
    requires Inv(maxSize, s) && Enabled(s, e)
    ensures var t := Step(maxSize, s, e);
            && (t.batches != s.batches <==>
                || (e.Receive? && s.queue != [] && |Gathered(s.phase)| + 1 >= maxSize)
                || e.Expire?
                || (e.Receive? && s.queue == [] && s.phase.Filling?))
            && (e.Receive? && s.queue != [] && |Gathered(s.phase)| + 1 < maxSize ==>
                  t.phase.Filling? && t.phase.batch == Gathered(s.phase) + [s.queue[0].payload])
  {
    var t := Step(maxSize, s, e);
    if |t.batches| == |s.batches| + 1 {
      assert t.batches != s.batches;
    }
  }

  /** The task ends when the channel is closed and empty between batches, or by a panic. */
  lemma {:induction false} TaskEnds<Req, Res>(maxSize: nat, s: State<Req, Res>, e: Event<Req, Res>)
    requires Enabled(s, e) && !s.phase.Stopped?
    ensures Step(maxSize, s, e).phase.Stopped? <==>
            e.Panic? || (e.Receive? && s.phase.Waiting? && s.queue == [] && !s.open)
  {
  }

  // ------------------------------------------------------------------
  // What the callers get
  // ------------------------------------------------------------------

  /** For every interleaving: the batches, concatenated, are the accepted requests from
      the first one on, in order, and each holds between 1 and `max(1, max_size)` of them;
      a task that ended without losing its queue to a panic has batched and replied to
      every accepted request. */
  lemma {:induction false} BatchesInOrder<Req, Res>(maxSize: nat, es: seq<Event<Req, Res>>)
    ensures var s := Run(maxSize, Init<Req, Res>(), es);
            && Concat(s.batches) <= s.accepted
            && (forall i :: 0 <= i < |s.batches| ==> 1 <= |s.batches[i]| <= Cap(maxSize))
            && (forall t :: t in s.replies ==> t < |s.accepted|)
            && (s.phase.Stopped? ==> forall t :: 0 <= t < |s.accepted| ==> t in s.replies)
            && (s.phase.Stopped? && s.lost == [] ==> Concat(s.batches) == s.accepted)
  {
    InitOk<Req, Res>(maxSize);
    InvRun(maxSize, Init<Req, Res>(), es);
  }

  /** Ticket of position `j` of batch `k`. */
  function Ticket<Req>(batches: seq<seq<Req>>, k: nat, j: nat): nat
    requires k <= |batches|
  {
    |Concat(batches[..k])| + j
  }

  lemma {:induction false} ConcatAt<T>(xs: seq<seq<T>>, k: nat, j: nat)
    requires k < |xs| && j < |xs[k]|
    ensures Ticket(xs, k, j) < |Concat(xs)| && Concat(xs)[Ticket(xs, k, j)] == xs[k][j]
    decreases |xs|
  {
    var init := xs[..|xs| - 1];
    if k < |xs| - 1 {
      ConcatAt(init, k, j);
      assert init[..k] == xs[..k];
    }
  }

  lemma {:induction false} OutcomesAt<Req, Res>(batches: seq<seq<Req>>, results: seq<seq<Res>>, k: nat, j: nat)
    requires k < |results| <= |batches| && j < |batches[k]|
    ensures Ticket(batches, k, j) < |Outcomes(batches, results)|
    ensures Outcomes(batches, results)[Ticket(batches, k, j)]
         == if j < |results[k]| then Answer(results[k][j]) else Dropped
    decreases |results|
  {
    var last := |results| - 1;
    OutcomesLength(batches, results[..last]);
    if k < last {
      OutcomesAt(batches, results[..last], k, j);
    }
  }

  lemma {:induction false} OutcomesLength<Req, Res>(batches: seq<seq<Req>>, results: seq<seq<Res>>)
    requires |results| <= |batches|
    ensures |Outcomes(batches, results)| == |Concat(batches[..|results|])|
    decreases |results|
  {
    if results != [] {
      var k := |results| - 1;
      OutcomesLength(batches, results[..k]);
      assert batches[..|results|] == batches[..k] + [batches[k]];
      ConcatSnoc(batches[..k], batches[k]);
    }
  }

  /** For every interleaving and every processor: the caller whose request is at position
      `j` of batch `k` gets the result at position `j` of that batch, and finds its
      responder dropped exactly when the processor returned too few results to reach it. */
  lemma {:induction false} OwnPosition<Req, Res>(maxSize: nat, es: seq<Event<Req, Res>>, k: nat, j: nat)
    requires var s := Run(maxSize, Init<Req, Res>(), es); k < |s.results| && k < |s.batches| && j < |s.batches[k]|
    ensures var s := Run(maxSize, Init<Req, Res>(), es);
            var t := Ticket(s.batches, k, j);
            && t < |s.accepted| && s.accepted[t] == s.batches[k][j] && t in s.replies
            && s.replies[t] == if j < |s.results[k]| then Answer(s.results[k][j]) else Dropped
  {
    var s := Run(maxSize, Init<Req, Res>(), es);
    InitOk<Req, Res>(maxSize);
    InvRun(maxSize, Init<Req, Res>(), es);
    ConcatAt(s.batches, k, j);
    OutcomesAt(s.batches, s.results, k, j);
  }

  function Map<A, B>(f: A -> B, xs: seq<A>): (r: seq<B>)
    ensures |r| == |xs|
  {
    seq(|xs|, i requires 0 <= i < |xs| => f(xs[i]))
  }

  lemma {:induction false} OutcomesPointwise<Req, Res>(
      f: Req -> Res, batches: seq<seq<Req>>, results: seq<seq<Res>>, t: nat)
    requires |results| <= |batches| && forall k :: 0 <= k < |results| ==> results[k] == Map(f, batches[k])
    requires t < |Outcomes(batches, results)|
    ensures t < |Concat(batches[..|results|])|
    ensures Outcomes(batches, results)[t] == Answer(f(Concat(batches[..|results|])[t]))
    decreases |results|
  {
    var k := |results| - 1;
    OutcomesLength(batches, results);
    OutcomesLength(batches, results[..k]);
    assert batches[..|results|] == batches[..k] + [batches[k]];
    ConcatSnoc(batches[..k], batches[k]);
    if t < |Outcomes(batches, results[..k])| {
      OutcomesPointwise(f, batches, results[..k], t);
    }
  }

  lemma {:induction false} ConcatPrefix<T>(xs: seq<seq<T>>, n: nat)
    requires n <= |xs|
    ensures Concat(xs[..n]) <= Concat(xs)
    decreases |xs|
  {
    if n == |xs| {
      assert xs[..n] == xs;
    } else {
      var init := xs[..|xs| - 1];
      ConcatPrefix(init, n);
      assert init[..n] == xs[..n];
    }
  }

  /** Batching is invisible: if the processor maps `f` over each batch, every caller that
      is replied to gets `f` of its own request, however the requests were batched. */
  lemma {:induction false} BatchingIsInvisible<Req, Res>(maxSize: nat, es: seq<Event<Req, Res>>, f: Req -> Res, t: nat)
    requires var s := Run(maxSize, Init<Req, Res>(), es);
             && |s.results| <= |s.batches| && t in s.replies
             && forall k :: 0 <= k < |s.results| ==> s.results[k] == Map(f, s.batches[k])
    ensures var s := Run(maxSize, Init<Req, Res>(), es);
            t < |s.accepted| && s.replies[t] == Answer(f(s.accepted[t]))
  {
    var s := Run(maxSize, Init<Req, Res>(), es);
    InitOk<Req, Res>(maxSize);
    InvRun(maxSize, Init<Req, Res>(), es);
    assert s.lost == [] by {
      if s.results != [] {
        assert s.results[|s.results| - 1] == Map(f, s.batches[|s.results| - 1]);
      }
    }
    assert Finished(s) == Outcomes(s.batches, s.results);
    OutcomesPointwise(f, s.batches, s.results, t);
    ConcatPrefix(s.batches, |s.results|);
  }

  // ------------------------------------------------------------------
  // Every accepted request is replied to
  // ------------------------------------------------------------------

  /** A step of the task, as opposed to one of its callers. */
  predicate TaskEvent<Req, Res>(e: Event<Req, Res>) { !e.Submit? && !e.DropHandles? }

  function PhaseRank<Req>(p: Phase<Req>): nat {
    match p
    case Waiting => 1
    case Filling(_, _) => 3
    case Processing(_, _) => 2
    case Stopped => 0
  }

  /** A bound on the task steps until ticket `t` is replied to. It does not depend on what
      was accepted after `t`. */
  function Distance<Req, Res>(maxSize: nat, s: State<Req, Res>, t: nat): nat {
    if t in s.replies then 0
    else if s.queue == [] || t < s.queue[0].ticket then
      if s.phase.Filling? && |s.phase.batch| < maxSize then 2 + maxSize - |s.phase.batch| else 1
    else 3 * (t - s.queue[0].ticket + 1) + PhaseRank(s.phase) + maxSize + 2
  }

  /** While an accepted request is unanswered the task can take a step. */
  lemma {:induction false} TaskCanStep<Req, Res>(maxSize: nat, s: State<Req, Res>, t: nat)
    requires Inv(maxSize, s) && t < |s.accepted| && t !in s.replies
    ensures Enabled(s, Receive) || Enabled(s, Expire) || (forall r :: Enabled(s, Return(r)))
  {
  }

  /** An unanswered request is in the queue, or in the batch in front of it. */
  ghost predicate Located<Req, Res>(maxSize: nat, s: State<Req, Res>, t: nat) {
    && (s.queue != [] ==> s.queue[0].ticket + |s.queue| == |s.accepted|)
    && (s.queue == [] || t < s.queue[0].ticket ==> s.phase.Filling? || s.phase.Processing?)
    && (s.phase.Filling? ==> |s.phase.batch| < maxSize) && !s.phase.Stopped?
  }

  lemma {:induction false} WhereIs<Req, Res>(maxSize: nat, s: State<Req, Res>, t: nat)
    requires Inv(maxSize, s) && t < |s.accepted| && t !in s.replies
    ensures Located(maxSize, s, t)
  {
    assert s.queue != [] ==> TicketsOf(s.queue)[0] == s.queue[0].ticket;
  }

  /** Both states known, the distance is arithmetic. */
  lemma {:induction false} LocatedReceive<Req, Res>(maxSize: nat, s: State<Req, Res>, t: nat)
    requires Enabled(s, Receive) && t < |s.accepted| && t !in s.replies
    requires Located(maxSize, s, t) && Located(maxSize, Step(maxSize, s, Receive), t)
    ensures Distance(maxSize, Step(maxSize, s, Receive), t) < Distance(maxSize, s, t)
  {
  }

  lemma {:induction false} LocatedOther<Req, Res>(maxSize: nat, s: State<Req, Res>, e: Event<Req, Res>, t: nat)
    requires Enabled(s, e) && !e.Receive? && t < |s.accepted| && t !in s.replies && Located(maxSize, s, t)
    requires t !in Step(maxSize, s, e).replies ==> Located(maxSize, Step(maxSize, s, e), t)
    ensures Distance(maxSize, Step(maxSize, s, e), t) <= Distance(maxSize, s, t) - if TaskEvent(e) then 1 else 0
  {
  }

  lemma {:induction false} StillWaiting<Req, Res>(maxSize: nat, s: State<Req, Res>, e: Event<Req, Res>, t: nat)
    requires Enabled(s, e) && t < |s.accepted|
    ensures t < |Step(maxSize, s, e).accepted| && (e.Receive? ==> Step(maxSize, s, e).replies == s.replies)
  {
  }

  /** Every step of the task brings an unanswered request closer to its reply, and no
      step of a caller sets it back. */
  lemma {:induction false} DistanceStep<Req, Res>(maxSize: nat, s: State<Req, Res>, e: Event<Req, Res>, t: nat)
    requires Inv(maxSize, s) && Enabled(s, e) && t < |s.accepted| && t !in s.replies
    ensures Distance(maxSize, Step(maxSize, s, e), t) <= Distance(maxSize, s, t) - if TaskEvent(e) then 1 else 0
  {
    StillWaiting(maxSize, s, e, t);
    StepOk(maxSize, s, e);
    WhereIs(maxSize, s, t);
    if t !in Step(maxSize, s, e).replies {
      WhereIs(maxSize, Step(maxSize, s, e), t);
    }
    if e.Receive? {
      LocatedReceive(maxSize, s, t);
    } else {
      LocatedOther(maxSize, s, e, t);
    }
  }

  /** Steps the task takes in a run. */
  function TaskSteps<Req, Res>(maxSize: nat, s: State<Req, Res>, es: seq<Event<Req, Res>>): nat
    decreases |es|
  {
    if es == [] then 0
    else if Enabled(s, es[0]) then
      (if TaskEvent(es[0]) then 1 else 0) + TaskSteps(maxSize, Step(maxSize, s, es[0]), es[1..])
    else TaskSteps(maxSize, s, es[1..])
  }

  lemma {:induction false} RepliesStay<Req, Res>(maxSize: nat, s: State<Req, Res>, es: seq<Event<Req, Res>>, t: nat)
    requires Inv(maxSize, s) && t in s.replies
    ensures var u := Run(maxSize, s, es); t in u.replies && u.replies[t] == s.replies[t]
    decreases |es|
  {
    if es != [] {
      if Enabled(s, es[0]) {
        StepKeepsReply(maxSize, s, es[0], t);
        StepOk(maxSize, s, es[0]);
        RepliesStay(maxSize, Step(maxSize, s, es[0]), es[1..], t);
      } else {
        RepliesStay(maxSize, s, es[1..], t);
      }
    }
  }

  lemma {:induction false} StepKeepsReply<Req, Res>(maxSize: nat, s: State<Req, Res>, e: Event<Req, Res>, t: nat)
    requires Inv(maxSize, s) && Enabled(s, e) && t in s.replies
    ensures var u := Step(maxSize, s, e); t in u.replies && u.replies[t] == s.replies[t]
  {
    match e
    case Return(r) =>
      ReturnFinishes(maxSize, s, r);
      ReturnOk(maxSize, s, r);
      assert Finished(s)[t] == Finished(Step(maxSize, s, e))[t];
    case Panic =>
      PanicFinishes(maxSize, s);
      PanicOk(maxSize, s);
      assert Finished(s)[t] == Finished(Step(maxSize, s, e))[t];
    case _ =>
  }

  /** Every accepted request is replied to after a number of task steps that is fixed when
      it is accepted, whatever is submitted meanwhile; a reply is never changed. */
  lemma {:induction false} RepliedInTime<Req, Res>(maxSize: nat, s: State<Req, Res>, es: seq<Event<Req, Res>>, t: nat)
    requires Inv(maxSize, s) && t < |s.accepted|
    requires TaskSteps(maxSize, s, es) >= Distance(maxSize, s, t)
    ensures t in Run(maxSize, s, es).replies
    decreases |es|
  {
    if t in s.replies {
      RepliesStay(maxSize, s, es, t);
    } else if es == [] {
      WhereIs(maxSize, s, t);
      assert false;
    } else if Enabled(s, es[0]) {
      DistanceStep(maxSize, s, es[0], t);
      StepOk(maxSize, s, es[0]);
      RepliedInTime(maxSize, Step(maxSize, s, es[0]), es[1..], t);
    } else {
      RepliedInTime(maxSize, s, es[1..], t);
    }
  }

  /** Once the handles are dropped nothing more is submitted. */
  lemma {:induction false} ClosedForGood<Req, Res>(maxSize: nat, s: State<Req, Res>, e: Event<Req, Res>, x: Req)
    requires Enabled(s, e)
    ensures !s.open ==> !Step(maxSize, s, e).open && Step(maxSize, s, e).accepted == s.accepted
    ensures e.DropHandles? ==> !Enabled(Step(maxSize, s, e), Submit(x))
  {
  }

  /** A bound on the steps of a task whose channel is closed. */
  function Work<Req, Res>(s: State<Req, Res>): nat { 3 * |s.queue| + PhaseRank(s.phase) }

  lemma {:induction false} WorkStep<Req, Res>(maxSize: nat, s: State<Req, Res>, e: Event<Req, Res>)
    requires Enabled(s, e) && !s.open
    ensures !Step(maxSize, s, e).open && TaskEvent(e) && Work(Step(maxSize, s, e)) < Work(s)
  {
  }

  /** A task whose channel is closed takes at most `Work` more steps, whatever happens, and
      only a task that has ended can take none. */
  lemma {:induction false} ClosedTaskEnds<Req, Res>(
    maxSize: nat, s: State<Req, Res>, es: seq<Event<Req, Res>>, r: seq<Res>)
    requires !s.open
    ensures var u := Run(maxSize, s, es);
            && !u.open && u.accepted == s.accepted && TaskSteps(maxSize, s, es) + Work(u) <= Work(s)
            && (u.phase.Stopped? <==> !Enabled(u, Receive) && !Enabled(u, Return(r)))
    decreases |es|
  {
    if es != [] {
      if Enabled(s, es[0]) {
        WorkStep(maxSize, s, es[0]);
        ClosedTaskEnds(maxSize, Step(maxSize, s, es[0]), es[1..], r);
      } else {
        ClosedTaskEnds(maxSize, s, es[1..], r);
      }
    }
  }

  // ------------------------------------------------------------------
  // The loops of the task
  // ------------------------------------------------------------------

  /** What the task's waits return, in order; the end of the list is the closed channel.
      An expiry with no batch begun finds no timer armed. */
  datatype Signal<Req> = Item(payload: Req) | Expired

  function Items<Req>(signals: seq<Signal<Req>>): seq<Req> {
    if signals == [] then []
    else
      var n := |signals| - 1;
      Items(signals[..n]) + if signals[n].Item? then [signals[n].payload] else []
  }

  lemma {:induction false} ItemsTake<Req>(signals: seq<Signal<Req>>, pos: nat)
    requires pos < |signals|
    ensures Items(signals[..pos + 1]) ==
            Items(signals[..pos]) + if signals[pos].Item? then [signals[pos].payload] else []
  {
    assert signals[..pos + 1][..pos] == signals[..pos];
  }

  lemma {:induction false} TakeMore<T>(items: seq<T>, batch: seq<T>, x: T)
    ensures items + batch + [x] == items + (batch + [x]) && items + batch + [] == items + batch
  {
  }

  /** The inner loop: the batch begun by the item at `pos`, and where in the list it ended. */
  method Collect<Req>(maxSize: nat, signals: seq<Signal<Req>>, pos: nat)
    returns (batch: seq<Req>, next: nat)
    requires pos < |signals| && signals[pos].Item?
    ensures pos < next <= |signals| && 1 <= |batch| <= Cap(maxSize)
    ensures Items(signals[..next]) == Items(signals[..pos]) + batch
    ensures |batch| >= maxSize || next == |signals| || (next > pos + 1 && signals[next - 1].Expired?)
    ensures forall i :: pos < i < next - 1 ==> signals[i].Item?
  {
    ItemsTake(signals, pos);
    batch, next := [signals[pos].payload], pos + 1;
    while |batch| < maxSize && next < |signals|
      invariant pos < next <= |signals| && 1 <= |batch| <= Cap(maxSize)
      invariant Items(signals[..next]) == Items(signals[..pos]) + batch
      invariant forall i :: pos < i < next ==> signals[i].Item?
      decreases |signals| - next
    {
      ItemsTake(signals, next);
      match signals[next] {
        case Expired =>
          TakeMore(Items(signals[..pos]), batch, signals[pos].payload);
          next := next + 1;
          break;
        case Item(payload) =>
          TakeMore(Items(signals[..pos]), batch, payload);
          batch, next := batch + [payload], next + 1;
      }
    }
  }

  /** The batches so far hold `items`, each within bounds, and the callers of each have the
      results of it by position. */
  ghost predicate ServedSoFar<Req, Res>(
    maxSize: nat, processor: seq<Req> -> seq<Res>, items: seq<Req>, batches: seq<seq<Req>>,
    results: seq<seq<Res>>, replies: map<nat, Reply<Res>>, served: nat)
  {
    && Concat(batches) == items
    && (forall i :: 0 <= i < |batches| ==> 1 <= |batches[i]| <= Cap(maxSize))
    && results == Map(processor, batches)
    && Replied(replies, Outcomes(batches, results)) && served == |Outcomes(batches, results)|
  }

  lemma {:induction false} MapSnoc<A, B>(f: A -> B, xs: seq<A>, x: A)
    ensures Map(f, xs + [x]) == Map(f, xs) + [f(x)]
  {
  }

  lemma {:induction false} ServedNext<Req, Res>(
    batches: seq<seq<Req>>, results: seq<seq<Res>>, batch: seq<Req>, result: seq<Res>, replies: map<nat, Reply<Res>>)
    requires |results| == |batches| && Replied(replies, Outcomes(batches, results))
    ensures var r := Outcomes(batches, results);
            var r' := Outcomes(batches + [batch], results + [result]);
            && |r'| == |r| + |batch|
            && Replied(Scattered(Tickets(|r|, |batch|), result, replies), r')
  {
    ScatterInOrder(|batch|, result, replies, Outcomes(batches, results));
    OutcomesLocal(batches, batch, results);
    OutcomesSnoc(batches + [batch], results, result);
  }

  lemma {:induction false} ServedBatch<Req, Res>(
    maxSize: nat, processor: seq<Req> -> seq<Res>, items: seq<Req>, batches: seq<seq<Req>>,
    results: seq<seq<Res>>, replies: map<nat, Reply<Res>>, served: nat, batch: seq<Req>)
    requires ServedSoFar(maxSize, processor, items, batches, results, replies, served)
    requires 1 <= |batch| <= Cap(maxSize)
    ensures ServedSoFar(maxSize, processor, items + batch, batches + [batch], results + [processor(batch)],
                        Scattered(Tickets(served, |batch|), processor(batch), replies), served + |batch|)
  {
    ServedNext(batches, results, batch, processor(batch), replies);
    ConcatSnoc(batches, batch);
    MapSnoc(processor, batches, batch);
  }

  lemma {:induction false} ServedNothing<Req, Res>(maxSize: nat, processor: seq<Req> -> seq<Res>, signals: seq<Signal<Req>>)
    ensures ServedSoFar(maxSize, processor, Items(signals[..0]), [], [], map[], 0)
  {
    assert Map(processor, []) == [];
  }

  lemma {:induction false} ServedAll<Req, Res>(
    maxSize: nat, processor: seq<Req> -> seq<Res>, signals: seq<Signal<Req>>, batches: seq<seq<Req>>,
    results: seq<seq<Res>>, replies: map<nat, Reply<Res>>, served: nat)
    requires ServedSoFar(maxSize, processor, Items(signals[..|signals|]), batches, results, replies, served)
    ensures ServedSoFar(maxSize, processor, Items(signals), batches, results, replies, served)
  {
    assert signals[..|signals|] == signals;
  }

  /** One turn of the outer loop: collect a batch, process it, scatter the results. */
  method ServeBatch<Req, Res>(
    maxSize: nat, signals: seq<Signal<Req>>, pos: nat, processor: seq<Req> -> seq<Res>,
    ghost batches: seq<seq<Req>>, ghost results: seq<seq<Res>>, replies: map<nat, Reply<Res>>, served: nat)
    returns (batch: seq<Req>, next: nat, replies': map<nat, Reply<Res>>)
    requires pos < |signals| && signals[pos].Item?
    requires ServedSoFar(maxSize, processor, Items(signals[..pos]), batches, results, replies, served)
    ensures pos < next <= |signals|
    ensures ServedSoFar(maxSize, processor, Items(signals[..next]), batches + [batch], results + [processor(batch)],
                        replies', served + |batch|)
  {
    batch, next := Collect(maxSize, signals, pos);
    ServedBatch(maxSize, processor, Items(signals[..pos]), batches, results, replies, served, batch);
    replies' := Scatter(Tickets(served, |batch|), processor(batch), replies);
  }

  /** The outer loop: batches, processes and scatters until the channel is closed. Every
      item is in exactly one batch, in order, and the callers of each batch get the
      results of that batch by position. */
  method Serve<Req, Res>(maxSize: nat, signals: seq<Signal<Req>>, processor: seq<Req> -> seq<Res>)
    returns (batches: seq<seq<Req>>, ghost results: seq<seq<Res>>, replies: map<nat, Reply<Res>>)
    ensures Concat(batches) == Items(signals)
    ensures forall i :: 0 <= i < |batches| ==> 1 <= |batches[i]| <= Cap(maxSize)
    ensures results == Map(processor, batches) && Replied(replies, Outcomes(batches, results))
  {
    batches, results, replies := [], [], map[];
    var pos: nat, served: nat := 0, 0;
    ServedNothing<Req, Res>(maxSize, processor, signals);
    while pos < |signals|
      invariant pos <= |signals|
      invariant ServedSoFar(maxSize, processor, Items(signals[..pos]), batches, results, replies, served)
    {
      if signals[pos].Expired? {
        ItemsTake(signals, pos);
        assert Items(signals[..pos]) + [] == Items(signals[..pos]);
        pos := pos + 1;
      } else {
        var batch;
        batch, pos, replies := ServeBatch(maxSize, signals, pos, processor, batches, results, replies, served);
        batches, results, served := batches + [batch], results + [processor(batch)], served + |batch|;
      }
    }
    ServedAll(maxSize, processor, signals, batches, results, replies, served);
  }
}
