/** Cancelling the work of a request whose client has gone.  The application, the pump of incoming messages and the
    middleware itself are three tasks of one event loop, which switch only at an `await`. */
module CancelOnDisconnect {
  datatype Incoming = Chunk(data: string, more: bool) | Disconnect

  datatype Outgoing = Start(status: nat) | Body(data: string, more: bool) | OtherMessage

  /** What the tasks of one request share. */
  datatype Shared = Shared(queue: seq<Incoming>, disconnected: bool, started: bool, completed: bool)

  function Pumped(x: Shared, m: Incoming): Shared {
    x.(queue := x.queue + [m], disconnected := x.disconnected || m.Disconnect?)
  }

  function Tracked(x: Shared, m: Outgoing): Shared {
    match m
    case Start(_) => x.(started := true)
    case Body(_, more) => if more then x else x.(completed := true)
    case OtherMessage => x
  }

  datatype App = Running | Returned | Raised | Cancelled

  datatype Pump = Pumping | PumpDone | PumpFailed | PumpCancelled

  /** The middleware waits for either task, then waits for the app or cancels it, then may answer itself. */
  datatype Main = Waiting | Awaiting | Cancelling | Answering(bodyNext: bool) | Done(ok: bool)

  /** The middleware's choice when its wait is over. */
  function Woken(x: Shared, app: App): Main {
    if !app.Running? then Done(app.Returned?)
    else if !x.disconnected || x.completed then Awaiting
    else Cancelling
  }

  /** What it does once the app it waited for, or cancelled, has ended. */
  function Resumed(x: Shared, app: App, main: Main): Main {
    if !main.Cancelling? || app.Raised? then Done(app.Returned?)
    else if x.started then Done(true)
    else Answering(false)
  }

  /** The middleware's variables and local functions. */
  class Exchange {
    var queue: seq<Incoming>
    var disconnected: bool
    var started: bool
    var completed: bool
    ghost var client: seq<Outgoing>

    constructor ()
      ensures View() == Shared([], false, false, false) && client == []
    {
      queue, disconnected, started, completed, client := [], false, false, false, [];
    }

    function View(): Shared
      reads this
    {
      Shared(queue, disconnected, started, completed)
    }

    /** One turn of the pump's loop. */
    method PumpOne(message: Incoming) returns (goOn: bool)
      modifies `queue, `disconnected
      ensures View() == Pumped(old(View()), message)
      ensures goOn == !message.Disconnect?
    {
      queue := queue + [message];
      if message.Disconnect? {
        disconnected := true;
        return false;
      }
      return true;
    }

    method BufferedReceive() returns (message: Incoming)
      requires queue != []
      modifies `queue
      ensures old(queue) == [message] + queue
    {
      message := queue[0];
      queue := queue[1..];
    }

    /** Marks first and sends then, so what has reached the client is always marked. */
    method TrackingSend(message: Outgoing, reaches: bool)
      modifies `started, `completed, `client
      ensures View() == Tracked(old(View()), message)
      ensures client == if reaches then old(client) + [message] else old(client)
    {
      if message.Start? {
        started := true;
      } else if message.Body? && !message.more {
        completed := true;
      }
      if reaches {
        client := client + [message];
      }
    }

    method WakeUp(app: App) returns (next: Main)
      ensures next == Woken(View(), app)
    {
      if !app.Running? {
        return Done(app.Returned?);
      }
      if !disconnected {
        return Awaiting;
      }
      if completed {
        return Awaiting;
      }
      return Cancelling;
    }

    /** What follows `await app_task`, which returns, or raises what the app raised. */
    method AppEnded(app: App, main: Main) returns (next: Main)
      requires !app.Running? && (main.Awaiting? || main.Cancelling?)
      ensures next == Resumed(View(), app, main)
    {
      if main.Awaiting? {
        return Done(app.Returned?);
      }
      if app.Raised? {
        return Done(false);
      }
      if !started {
        return Answering(false);
      }
      return Done(true);
    }
  }

  // --- the three tasks -------------------------------------------------------------------------------------

  datatype Wire = FromApp(m: Outgoing) | FromMiddleware(m: Outgoing)

  /** `arrivals` and `sent` record all that the client sent and all that the app has passed to `send`; `client` is
      what reached the client. */
  datatype System = System(
    inbound: seq<Incoming>,
    arrivals: seq<Incoming>,
    received: seq<Incoming>,
    pump: Pump,
    shared: Shared,
    app: App,
    sent: seq<Outgoing>,
    client: seq<Wire>,
    main: Main)

  datatype Step =
    | Arrive(message: Incoming)
    | PumpStep
    | PumpFails
    | AppReceives
    | AppSends(response: Outgoing, reaches: bool)
    | AppEnds(how: App)
    | Wake
    | Resume
    | Answer(reaches: bool, raises: bool)
    | Abort

  function Init(): System {
    System([], [], [], Pumping, Shared([], false, false, false), Running, [], [], Waiting)
  }

  predicate Enabled(s: System, step: Step) {
    match step
    case Arrive(_) => true
    case PumpStep => s.pump.Pumping? && s.inbound != []
    case PumpFails => s.pump.Pumping?
    case AppReceives => s.app.Running? && s.shared.queue != []
    case AppSends(_, _) => s.app.Running?
    case AppEnds(how) => s.app.Running? && !how.Running?
    case Wake => s.main.Waiting? && (!s.app.Running? || !s.pump.Pumping?)
    case Resume => (s.main.Awaiting? || s.main.Cancelling?) && !s.app.Running?
    case Answer(_, _) => s.main.Answering?
    case Abort => s.main.Waiting? || s.main.Answering?
  }

  /** The middleware goes on; at its end it cancels a pump still at work. */
  function MainGoes(s: System, main: Main): System {
    s.(main := main, pump := if main.Done? && s.pump.Pumping? then PumpCancelled else s.pump)
  }

  function Apply(s: System, step: Step): System
    requires Enabled(s, step)
  {
    match step
    case Arrive(m) => s.(inbound := s.inbound + [m], arrivals := s.arrivals + [m])
    case PumpStep =>
      s.(inbound := s.inbound[1..], shared := Pumped(s.shared, s.inbound[0]),
         pump := if s.inbound[0].Disconnect? then PumpDone else Pumping)
    case PumpFails => s.(pump := PumpFailed)
    case AppReceives =>
      s.(received := s.received + [s.shared.queue[0]], shared := s.shared.(queue := s.shared.queue[1..]))
    case AppSends(m, reaches) =>
      s.(shared := Tracked(s.shared, m), sent := s.sent + [m],
         client := if reaches then s.client + [FromApp(m)] else s.client)
    case AppEnds(how) => s.(app := how)
    case Wake => MainGoes(s, Woken(s.shared, s.app))
    case Resume => MainGoes(s, Resumed(s.shared, s.app, s.main))
    case Answer(reaches, raises) =>
      var m := if s.main.bodyNext then Body("", false) else Start(499);
      MainGoes(s.(client := if reaches then s.client + [FromMiddleware(m)] else s.client),
               if raises || s.main.bodyNext then Done(true) else Answering(true))
    case Abort => MainGoes(s, Done(false))
  }

  ghost predicate IsRun(s: System, steps: seq<Step>)
    decreases |steps|
  {
    steps == [] || (Enabled(s, steps[0]) && IsRun(Apply(s, steps[0]), steps[1..]))
  }

  function After(s: System, steps: seq<Step>): System
    requires IsRun(s, steps)
    decreases |steps|
  {
    if steps == [] then s else After(Apply(s, steps[0]), steps[1..])
  }

  // --- the invariant ---------------------------------------------------------------------------------------

  function Starts(sent: seq<Outgoing>): nat {
    if sent == [] then 0 else Starts(sent[..|sent| - 1]) + if sent[|sent| - 1].Start? then 1 else 0
  }

  predicate IsFinal(m: Outgoing) {
    m.Body? && !m.more
  }

  predicate SentFinalBody(sent: seq<Outgoing>) {
    sent != [] && (SentFinalBody(sent[..|sent| - 1]) || IsFinal(sent[|sent| - 1]))
  }

  /** The response starts on the wire, from the app and from the middleware. */
  function AppStarts(client: seq<Wire>): nat {
    if client == [] then 0
    else
      var last := client[|client| - 1];
      AppStarts(client[..|client| - 1]) + if last.FromApp? && last.m.Start? then 1 else 0
  }

  function OwnStarts(client: seq<Wire>): nat {
    if client == [] then 0
    else
      var last := client[|client| - 1];
      OwnStarts(client[..|client| - 1]) + if last.FromMiddleware? && last.m.Start? then 1 else 0
  }

  ghost predicate InOrder(s: System) {
    s.received + s.shared.queue + s.inbound == s.arrivals
  }

  predicate Marked(s: System) {
    && (s.shared.started <==> Starts(s.sent) > 0)
    && (s.shared.completed <==> SentFinalBody(s.sent))
    && (s.shared.disconnected <==> s.pump.PumpDone?)
  }

  /** The disconnect, once noticed, stands among the messages passed on. */
  ghost predicate PassedOn(s: System) {
    s.shared.disconnected ==> Disconnect in s.received || Disconnect in s.shared.queue
  }

  predicate AnswersAlone(s: System) {
    && AppStarts(s.client) <= Starts(s.sent)
    && OwnStarts(s.client) <= (if s.main.Answering? && !s.main.bodyNext then 0 else 1)
    && (s.main.Answering? || OwnStarts(s.client) > 0 ==> !s.shared.started && !s.app.Running?)
    && (!s.main.Answering? && !s.main.Done? ==> OwnStarts(s.client) == 0)
  }

  /** The middleware ends well, or answers, only once the app has ended without an error. */
  predicate NothingSwallowed(s: System) {
    s.main.Answering? || s.main == Done(true) ==> s.app.Returned? || s.app.Cancelled?
  }

  /** The pump does not outlive the middleware. */
  predicate PumpEnds(s: System) {
    s.main.Done? ==> !s.pump.Pumping?
  }

  /** What the middleware itself has put on the wire. */
  function Own(client: seq<Wire>): seq<Outgoing> {
    if client == [] then []
    else
      var last := client[|client| - 1];
      Own(client[..|client| - 1]) + if last.FromMiddleware? then [last.m] else []
  }

  const CLOSED_START := Start(499)
  const CLOSED_BODY := Body("", false)

  predicate StartAtMost(own: seq<Outgoing>) {
    own == [] || own == [CLOSED_START]
  }

  predicate BodyLast(own: seq<Outgoing>) {
    own == [CLOSED_BODY] || own == [CLOSED_START, CLOSED_BODY]
  }

  /** Its answer is a 499 and an empty body, in this order; either may get lost on the way. */
  predicate AnswersInOrder(s: System) {
    match s.main
    case Done(_) => StartAtMost(Own(s.client)) || BodyLast(Own(s.client))
    case Answering(true) => StartAtMost(Own(s.client))
    case _ => Own(s.client) == []
  }

  ghost predicate Inv(s: System) {
    && InOrder(s) && Marked(s) && PassedOn(s) && AnswersAlone(s)
    && NothingSwallowed(s) && PumpEnds(s) && AnswersInOrder(s)
  }

  lemma InOrderKept(s: System, step: Step)
    requires InOrder(s) && Enabled(s, step)
    ensures InOrder(Apply(s, step))
  {
    match step
    case PumpStep => assert s.inbound == [s.inbound[0]] + s.inbound[1..];
    case AppReceives => assert s.shared.queue == [s.shared.queue[0]] + s.shared.queue[1..];
    case _ =>
  }

  lemma OneMoreSent(sent: seq<Outgoing>, m: Outgoing)
    ensures Starts(sent + [m]) == Starts(sent) + if m.Start? then 1 else 0
    ensures SentFinalBody(sent + [m]) <==> SentFinalBody(sent) || IsFinal(m)
  {
    assert (sent + [m])[..|sent|] == sent;
  }

  lemma MarkedKept(s: System, step: Step)
    requires Marked(s) && Enabled(s, step)
    ensures Marked(Apply(s, step))
  {
    match step
    case AppSends(m, _) => OneMoreSent(s.sent, m);
    case _ =>
  }

  lemma PassedOnKept(s: System, step: Step)
    requires PassedOn(s) && Enabled(s, step)
    ensures PassedOn(Apply(s, step))
  {
    match step
    case AppReceives => assert s.shared.queue == [s.shared.queue[0]] + s.shared.queue[1..];
    case _ =>
  }

  lemma OneMoreOnTheWire(client: seq<Wire>, w: Wire)
    ensures AppStarts(client + [w]) == AppStarts(client) + if w.FromApp? && w.m.Start? then 1 else 0
    ensures OwnStarts(client + [w]) == OwnStarts(client) + if w.FromMiddleware? && w.m.Start? then 1 else 0
  {
    assert (client + [w])[..|client|] == client;
  }

  lemma AnswersAloneKept(s: System, step: Step)
    requires AnswersAlone(s) && Enabled(s, step)
    ensures AnswersAlone(Apply(s, step))
  {
    match step
    case AppSends(m, _) =>
      OneMoreSent(s.sent, m);
      OneMoreOnTheWire(s.client, FromApp(m));
    case Answer(_, _) =>
      OneMoreOnTheWire(s.client, FromMiddleware(if s.main.bodyNext then Body("", false) else Start(499)));
    case _ =>
  }

  lemma OneMoreOwn(client: seq<Wire>, w: Wire)
    ensures Own(client + [w]) == if w.FromMiddleware? then Own(client) + [w.m] else Own(client)
  {
    assert (client + [w])[..|client|] == client;
    assert Own(client) + [] == Own(client);
  }

  lemma AnswersInOrderKept(s: System, step: Step)
    requires AnswersInOrder(s) && Enabled(s, step)
    ensures AnswersInOrder(Apply(s, step))
  {
    match step
    case AppSends(m, _) => OneMoreOwn(s.client, FromApp(m));
    case Answer(_, _) => OneMoreOwn(s.client, FromMiddleware(if s.main.bodyNext then CLOSED_BODY else CLOSED_START));
    case _ =>
  }

  lemma {:induction false} RunKeepsInv(s: System, steps: seq<Step>)
    requires Inv(s) && IsRun(s, steps)
    ensures Inv(After(s, steps))
    decreases |steps|
  {
    if steps != [] {
      InOrderKept(s, steps[0]);
      MarkedKept(s, steps[0]);
      PassedOnKept(s, steps[0]);
      AnswersAloneKept(s, steps[0]);
      AnswersInOrderKept(s, steps[0]);
      RunKeepsInv(Apply(s, steps[0]), steps[1..]);
    }
  }

  // --- what every interleaving promises --------------------------------------------------------------------

  ghost predicate Reachable(s: System) {
    exists steps :: IsRun(Init(), steps) && After(Init(), steps) == s
  }

  lemma ReachableInv(s: System)
    requires Reachable(s)
    ensures Inv(s)
  {
    var steps :| IsRun(Init(), steps) && After(Init(), steps) == s;
    RunKeepsInv(Init(), steps);
  }

  /** The app receives what the client sent, in the order it arrived. */
  lemma ReceivesInArrivalOrder(s: System)
    requires Reachable(s)
    ensures s.received + s.shared.queue + s.inbound == s.arrivals
    ensures s.received <= s.arrivals
  {
    ReachableInv(s);
  }

  /** No client sees more response starts than the app sent, or one where it sent none. */
  lemma OneStartAtMost(s: System)
    requires Reachable(s)
    ensures AppStarts(s.client) + OwnStarts(s.client) <= if Starts(s.sent) == 0 then 1 else Starts(s.sent)
  {
    ReachableInv(s);
  }

  /** The middleware answers only for an app that has ended without starting a response. */
  lemma AnswersOnlyTheUnstarted(s: System)
    requires Reachable(s) && (s.main.Answering? || OwnStarts(s.client) > 0)
    ensures Starts(s.sent) == 0 && !s.app.Running? && AppStarts(s.client) == 0
  {
    ReachableInv(s);
  }

  /** Exactly when the middleware cancels: the pump has passed on the disconnect, and the app is still running and has
      not sent its final body. */
  lemma CancelsIff(s: System)
    requires Reachable(s) && Enabled(s, Wake)
    ensures Apply(s, Wake).main.Cancelling? <==> s.app.Running? && s.pump.PumpDone? && !SentFinalBody(s.sent)
    ensures Apply(s, Wake).main.Cancelling? ==> Disconnect in s.arrivals
  {
    ReachableInv(s);
    assert s.arrivals == s.received + s.shared.queue + s.inbound;
  }

  /** Exactly when it goes on to answer 499: it cancelled, the app ended without an error of its own, and no response
      was started, not even while the app was winding up. */
  lemma AnswersIff(s: System)
    requires Reachable(s) && Enabled(s, Resume)
    ensures Apply(s, Resume).main.Answering? <==> s.main.Cancelling? && !s.app.Raised? && Starts(s.sent) == 0
  {
    ReachableInv(s);
  }

  /** No error of the app's is swallowed: a middleware that ends well leaves an app that returned or was cancelled, and
      one that ends badly did so over an error or a cancellation not its own, or was itself cut short. */
  lemma HowItEnds(s: System, step: Step)
    requires Reachable(s) && Enabled(s, step) && !s.main.Done? && Apply(s, step).main.Done?
    ensures Apply(s, step).main.ok <==>
      step.Answer? || (!step.Abort? && (s.app.Returned? || (s.app.Cancelled? && s.main.Cancelling?)))
  {
    ReachableInv(s);
  }

  /** In whatever order things went, when the middleware is done the pump has stopped, and it has not ended well over an
      app that raised or still runs. */
  lemma NothingIsLeftBehind(s: System)
    requires Reachable(s) && s.main.Done?
    ensures s.main.ok ==> s.app.Returned? || s.app.Cancelled?
    ensures !s.pump.Pumping?
  {
    ReachableInv(s);
  }

  /** Exactly when it ends: with the app, unless it cancelled one that started no response; then, after both messages
      of its answer or the first to fail; or cut short. */
  lemma EndsIff(s: System, step: Step)
    requires Reachable(s) && Enabled(s, step) && !s.main.Done?
    ensures Apply(s, step).main.Done? <==>
      || (step.Wake? && !s.app.Running?)
      || (step.Resume? && (s.main.Awaiting? || s.app.Raised? || Starts(s.sent) > 0))
      || (step.Answer? && (step.raises || s.main.bodyNext))
      || step.Abort?
  {
    ReachableInv(s);
  }

  /** Exactly when it waits for the app to end by itself: nothing was heard of a disconnect, or there is no more to
      save. */
  lemma AwaitsIff(s: System)
    requires Reachable(s) && Enabled(s, Wake)
    ensures Apply(s, Wake).main.Awaiting? <==> s.app.Running? && (!s.pump.PumpDone? || SentFinalBody(s.sent))
  {
    ReachableInv(s);
  }

  /** Of its own the middleware sends a 499 and an empty body, or less. */
  lemma OwnAnswerIs499(s: System)
    requires Reachable(s)
    ensures var own := Own(s.client);
      || own == [] || own == [Start(499)] || own == [Body("", false)] || own == [Start(499), Body("", false)]
  {
    ReachableInv(s);
  }
}
