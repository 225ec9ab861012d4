/**
 * The runtime thread that keeps a node connected: connect, announce, poll, and reconnect after a pause.
 * Its steps are given as a machine; the nested loops of the thread are proved to perform exactly such steps.
 */
module Supervisor {
  import opened Wrappers

  const MQTT_RECONNECT_DELAY_MS := 5000
  const SLEEP_STEP_MS := 100

  datatype RuntimeEvent =
    | Connected
    | Reconnecting(message: string)
    | Disconnected(message: string)
    | AuthFailed(message: string)
    | ResponsePublishFailed(method_: string, message: string)
    | RequestHandled(method_: string, ok: bool)

  /** The events after which the supervisor sends nothing more. */
  predicate IsTerminal(e: RuntimeEvent) {
    e.Disconnected? || e.AuthFailed?
  }

  /** The events that only the supervisor sends; the other two come from worker threads. */
  predicate FromSupervisor(e: RuntimeEvent) {
    e.Connected? || e.Reconnecting? || IsTerminal(e)
  }

  // ----- Errors -----

  /** An error text with its lower-case form. */
  datatype Failure = Failure(message: string, lowered: string)

  predicate Contains(s: string, part: string) {
    exists i :: 0 <= i <= |s| && part <= s[i..]
  }

  predicate IsAuthFailure(f: Failure) {
    || Contains(f.lowered, "not authorized")
    || Contains(f.lowered, "bad username or password")
    || Contains(f.lowered, "authentication")
    || Contains(f.lowered, "auth")
  }

  function ClassifyError(f: Failure): RuntimeEvent {
    if IsAuthFailure(f) then AuthFailed(f.message) else Disconnected(f.message)
  }

  // ----- The machine -----

  datatype Phase =
    | AtHead                     // about to check for a stop request
    | Connecting                 // about to build the connection options
    | Bootstrapping              // about to subscribe and announce
    | Polling(announced: bool)   // waiting for the next notification
    | Sleeping(slept: nat)       // between two connection attempts
    | Ended

  datatype Notification = ConnAck | Publish(onRequestTopic: bool) | OutgoingDisconnect | Other | Failed(failure: Failure)

  /** What one step meets: a reading of the stop flag where the step takes one, and what the library returns. */
  datatype Input =
    | Head(stop: bool)
    | BuildOptions(problem: Option<string>)
    | Bootstrap(failure: Option<Failure>)
    | Notify(stop: bool, notification: Notification)
    | StreamEnded(stop: bool)
    | SleepStep(stop: bool)

  predicate Accepts(p: Phase, input: Input) {
    match p
    case AtHead => input.Head?
    case Connecting => input.BuildOptions?
    case Bootstrapping => input.Bootstrap?
    case Polling(_) => input.Notify? || input.StreamEnded?
    case Sleeping(_) => input.SleepStep?
    case Ended => false
  }

  predicate SeesStop(input: Input) {
    match input
    case Head(stop) => stop
    case Notify(stop, _) => stop
    case StreamEnded(stop) => stop
    case SleepStep(stop) => stop
    case _ => false
  }

  const REQUESTED := Disconnected("requested disconnect")

  function Retry(message: string): RuntimeEvent {
    Reconnecting(message + ". Retrying in 5 seconds.")
  }

  /** How the thread goes on after a failure: it gives up on a refused login and pauses otherwise. */
  function OnFailure(f: Failure): (Phase, seq<RuntimeEvent>) {
    match ClassifyError(f)
    case AuthFailed(message) => (Ended, [AuthFailed(message)])
    case Disconnected(message) => (Sleeping(0), [Retry(message)])
    case Reconnecting(message) => (Sleeping(0), [Retry(message)])
    case other => (Ended, [other])
  }

  function SleepFor(slept: nat): nat {
    if MQTT_RECONNECT_DELAY_MS - slept < SLEEP_STEP_MS then
      if slept <= MQTT_RECONNECT_DELAY_MS then MQTT_RECONNECT_DELAY_MS - slept else 0
    else SLEEP_STEP_MS
  }

  function Step(p: Phase, input: Input): (Phase, seq<RuntimeEvent>)
    requires Accepts(p, input)
  {
    match p
    case AtHead => if input.stop then (Ended, []) else (Connecting, [])
    case Connecting =>
      if input.problem.Some? then (Ended, [Disconnected(input.problem.value)]) else (Bootstrapping, [])
    case Bootstrapping =>
      if input.failure.Some? then OnFailure(input.failure.value) else (Polling(false), [])
    case Polling(announced) =>
      if input.stop then (Ended, [REQUESTED])
      else if input.StreamEnded? then (Sleeping(0), [Retry("MQTT connection ended")])
      else
        (match input.notification
         case ConnAck => (Polling(true), [Connected])
         case OutgoingDisconnect => (Ended, [REQUESTED])
         case Failed(failure) => OnFailure(failure)
         case Publish(_) => (p, [])
         case Other => (p, []))
    case Sleeping(slept) =>
      if input.stop then (Ended, [])
      else if slept + SleepFor(slept) >= MQTT_RECONNECT_DELAY_MS then (AtHead, [])
      else (Sleeping(slept + SleepFor(slept)), [])
  }

  datatype Life = Life(phase: Phase, sent: seq<RuntimeEvent>)

  /** A finite piece of the thread's life: where it stands and what it has sent; nothing if an input does not fit. */
  function Live(p: Phase, inputs: seq<Input>): Option<Life> {
    if inputs == [] then Some(Life(p, []))
    else
      match Live(p, inputs[..|inputs| - 1])
      case None => None
      case Some(life) =>
        var last := inputs[|inputs| - 1];
        if !Accepts(life.phase, last) then None
        else Some(Life(Step(life.phase, last).0, life.sent + Step(life.phase, last).1))
  }

  lemma {:induction false} OneMore(p: Phase, inputs: seq<Input>, input: Input)
    requires Live(p, inputs).Some? && Accepts(Live(p, inputs).value.phase, input)
    ensures var life := Live(p, inputs).value;
            Live(p, inputs + [input]) == Some(Life(Step(life.phase, input).0, life.sent + Step(life.phase, input).1))
  {
    hide Accepts, Step;
    assert (inputs + [input])[..|inputs|] == inputs;
  }

  lemma {:induction false} Joined(p: Phase, a: seq<Input>, b: seq<Input>)
    requires Live(p, a).Some? && Live(Live(p, a).value.phase, b).Some?
    ensures var first := Live(p, a).value;
            var second := Live(first.phase, b).value;
            Live(p, a + b) == Some(Life(second.phase, first.sent + second.sent))
  {
    hide Accepts, Step;
    var first := Live(p, a).value;
    if b == [] {
      assert a + b == a && first.sent + [] == first.sent;
    } else {
      var front, last := b[..|b| - 1], b[|b| - 1];
      assert (a + b)[..|a + b| - 1] == a + front && (a + b)[|a + b| - 1] == last;
      Joined(p, a, front);
      var middle := Live(first.phase, front).value;
      assert (first.sent + middle.sent) + Step(middle.phase, last).1 == first.sent + (middle.sent + Step(middle.phase, last).1);
    }
  }

  // ----- What the supervisor sends -----

  lemma StepShape(p: Phase, input: Input)
    requires Accepts(p, input)
    ensures var (next, sent) := Step(p, input);
            && |sent| <= 1
            && (sent != [] ==> FromSupervisor(sent[0]) && (IsTerminal(sent[0]) <==> next.Ended?))
            && (next.Ended? && sent == [] ==> SeesStop(input))
  {}

  /** At most one terminal event, and if there is one, it comes last. */
  predicate TerminalLast(sent: seq<RuntimeEvent>) {
    && (forall i :: 0 <= i < |sent| ==> FromSupervisor(sent[i]))
    && (forall i :: 0 <= i < |sent| - 1 ==> !IsTerminal(sent[i]))
  }

  predicate EndsTerminally(sent: seq<RuntimeEvent>) {
    sent != [] && IsTerminal(sent[|sent| - 1])
  }

  /**
   * The supervisor sends at most one terminal event, as its last event. It ends only after sending it
   * or after seeing a stop request, and having sent it, it has ended.
   */
  lemma {:induction false} TerminalEventIsLast(inputs: seq<Input>)
    requires Live(AtHead, inputs).Some?
    ensures var life := Live(AtHead, inputs).value;
            && TerminalLast(life.sent)
            && (EndsTerminally(life.sent) ==> life.phase.Ended?)
            && (life.phase.Ended? ==> EndsTerminally(life.sent) || (inputs != [] && SeesStop(inputs[|inputs| - 1])))
  {
    hide Step, SeesStop;
    if inputs != [] {
      var front, last := inputs[..|inputs| - 1], inputs[|inputs| - 1];
      TerminalEventIsLast(front);
      var life := Live(AtHead, front).value;
      StepShape(life.phase, last);
      assert !EndsTerminally(life.sent);
    }
  }

  /** The last event sent is an announced connection exactly while the thread polls that connection. */
  lemma {:induction false} AnnouncedIffPolling(inputs: seq<Input>)
    requires Live(AtHead, inputs).Some?
    ensures var life := Live(AtHead, inputs).value;
            (life.sent != [] && life.sent[|life.sent| - 1].Connected?) <==> life.phase == Polling(true)
  {
    hide Accepts, Step;
    if inputs != [] {
      var front, last := inputs[..|inputs| - 1], inputs[|inputs| - 1];
      AnnouncedIffPolling(front);
      AnnouncedStep(Live(AtHead, front).value.phase, last);
    }
  }

  lemma AnnouncedStep(p: Phase, input: Input)
    requires Accepts(p, input)
    ensures var (next, sent) := Step(p, input);
            && |sent| <= 1
            && (sent != [] ==> (sent[0].Connected? <==> next == Polling(true)))
            && (sent == [] ==> (next == Polling(true) <==> p == Polling(true)))
  {}

  /** The milliseconds slept by the inputs from index i on. */
  function SleptFrom(p: Phase, inputs: seq<Input>, i: nat): nat
    requires Live(p, inputs).Some?
    decreases |inputs|
  {
    if |inputs| <= i then 0
    else
      var front, last := inputs[..|inputs| - 1], inputs[|inputs| - 1];
      var before := Live(p, front).value.phase;
      SleptFrom(p, front, i) + if before.Sleeping? && !SeesStop(last) then SleepFor(before.slept) else 0
  }

  /** Input i makes the thread announce a reconnect. */
  predicate Announces(inputs: seq<Input>, i: nat) {
    i < |inputs| &&
    match Live(AtHead, inputs[..i])
    case None => false
    case Some(life) =>
      Accepts(life.phase, inputs[i]) && Step(life.phase, inputs[i]).1 != [] && Step(life.phase, inputs[i]).1[0].Reconnecting?
  }

  lemma AnnouncementStartsPause(p: Phase, input: Input)
    requires Accepts(p, input) && Step(p, input).1 != [] && Step(p, input).1[0].Reconnecting?
    ensures Step(p, input).0 == Sleeping(0)
  {}

  /** What an input does after an announcement that no connection attempt has followed yet. */
  lemma PauseStep(p: Phase, input: Input, slept: nat)
    requires Accepts(p, input) && !input.BuildOptions?
    requires (p == Sleeping(slept) && slept < MQTT_RECONNECT_DELAY_MS) || ((p.AtHead? || p.Connecting?) && slept == MQTT_RECONNECT_DELAY_MS)
    ensures var next := Step(p, input).0;
            var after := slept + if p.Sleeping? && !SeesStop(input) then SleepFor(p.slept) else 0;
            || (next == Sleeping(after) && after < MQTT_RECONNECT_DELAY_MS)
            || ((next.AtHead? || next.Connecting?) && after == MQTT_RECONNECT_DELAY_MS)
            || (next.Ended? && SeesStop(input))
  {}

  /**
   * Between a reconnect announcement and the next connection attempt exactly five seconds are slept. As long as
   * no attempt has followed the announcement, the thread is pausing, or has paused for exactly five seconds and is
   * about to connect, or has ended on a stop request.
   */
  lemma {:induction false} ReconnectPauses(inputs: seq<Input>, i: nat)
    requires Live(AtHead, inputs).Some? && Announces(inputs, i)
    requires forall k :: i < k < |inputs| ==> !inputs[k].BuildOptions?
    ensures var p := Live(AtHead, inputs).value.phase;
            var slept := SleptFrom(AtHead, inputs, i + 1);
            || (p == Sleeping(slept) && slept < MQTT_RECONNECT_DELAY_MS)
            || ((p.AtHead? || p.Connecting?) && slept == MQTT_RECONNECT_DELAY_MS)
            || (p.Ended? && SeesStop(inputs[|inputs| - 1]))
  {
    hide Step, SeesStop;
    var front, last := inputs[..|inputs| - 1], inputs[|inputs| - 1];
    if |inputs| == i + 1 {
      AnnouncementStartsPause(Live(AtHead, inputs[..i]).value.phase, inputs[i]);
    } else {
      assert front[..i] == inputs[..i];
      ReconnectPauses(front, i);
      var life := Live(AtHead, front).value;
      if !life.phase.Ended? {
        PauseStep(life.phase, last, SleptFrom(AtHead, front, i + 1));
      }
    }
  }

  // ----- Which failures end the thread, and what each input sends -----

  predicate OccursAt(part: string, s: string, i: nat) {
    i + |part| <= |s| && s[i..i + |part|] == part
  }

  /** The error text, in lower case, of a login that was refused. */
  ghost predicate RefusedLogin(lowered: string) {
    || (exists i: nat :: OccursAt("auth", lowered, i))
    || (exists i: nat :: OccursAt("bad username or password", lowered, i))
  }

  lemma ContainsMeans(s: string, part: string)
    ensures Contains(s, part) <==> exists i: nat :: OccursAt(part, s, i)
  {
    if i :| 0 <= i <= |s| && part <= s[i..] {
      assert OccursAt(part, s, i);
    }
    if i: nat :| OccursAt(part, s, i) {
      assert part <= s[i..];
    }
  }

  lemma OccursWithin(part: string, whole: string, at: nat, s: string)
    requires OccursAt(part, whole, at) && exists i: nat :: OccursAt(whole, s, i)
    ensures exists i: nat :: OccursAt(part, s, i)
  {
    var i: nat :| OccursAt(whole, s, i);
    forall j | 0 <= j < |part| ensures s[i + at + j] == part[j] {
      assert s[i..i + |whole|][at + j] == whole[at + j];
      assert whole[at..at + |part|][j] == part[j];
    }
    assert OccursAt(part, s, i + at);
  }

  /** The four tests for a refused login are two: the longer words with "auth" in them add nothing. */
  lemma FourTestsAreTwo(f: Failure)
    ensures IsAuthFailure(f) <==> RefusedLogin(f.lowered)
  {
    hide Contains, OccursAt;
    ContainsMeans(f.lowered, "not authorized");
    ContainsMeans(f.lowered, "bad username or password");
    ContainsMeans(f.lowered, "authentication");
    ContainsMeans(f.lowered, "auth");
    WordsWithAuth();
    if exists i: nat :: OccursAt("not authorized", f.lowered, i) {
      OccursWithin("auth", "not authorized", 4, f.lowered);
    }
    if exists i: nat :: OccursAt("authentication", f.lowered, i) {
      OccursWithin("auth", "authentication", 0, f.lowered);
    }
  }

  lemma WordsWithAuth()
    ensures OccursAt("auth", "not authorized", 4) && OccursAt("auth", "authentication", 0)
  {}

  /** The failure that an input reports, if the thread gets to look at it. */
  function FailureOf(input: Input): Option<Failure> {
    match input
    case Bootstrap(failure) => failure
    case Notify(stop, Failed(failure)) => if stop then None else Some(failure)
    case _ => None
  }

  /** What a failure does to the thread: a refused login ends it, anything else makes it pause and try again. */
  lemma FailureDecides(p: Phase, input: Input)
    requires Accepts(p, input) && FailureOf(input).Some?
    ensures var f := FailureOf(input).value;
            Step(p, input) ==
              if RefusedLogin(f.lowered) then (Ended, [AuthFailed(f.message)])
              else (Sleeping(0), [Reconnecting(f.message + ". Retrying in 5 seconds.")])
  {
    hide RefusedLogin, IsAuthFailure;
    FourTestsAreTwo(FailureOf(input).value);
  }

  /** In a life of the thread, input k decides it as its failure demands, and a refused login is the last input. */
  ghost predicate FailureDecided(inputs: seq<Input>, k: nat)
    requires k < |inputs|
  {
    FailureOf(inputs[k]).Some? ==>
      var f := FailureOf(inputs[k]).value;
      && Live(AtHead, inputs[..k]).Some?
      && var before := Live(AtHead, inputs[..k]).value;
      if RefusedLogin(f.lowered) then
        k == |inputs| - 1 && Live(AtHead, inputs) == Some(Life(Ended, before.sent + [AuthFailed(f.message)]))
      else
        Live(AtHead, inputs[..k + 1]) ==
        Some(Life(Sleeping(0), before.sent + [Reconnecting(f.message + ". Retrying in 5 seconds.")]))
  }

  lemma {:induction false} PrefixLives(p: Phase, inputs: seq<Input>, k: nat)
    requires Live(p, inputs).Some? && k <= |inputs|
    ensures Live(p, inputs[..k]).Some?
  {
    hide Accepts, Step;
    if k == |inputs| {
      assert inputs[..k] == inputs;
    } else {
      var front := inputs[..|inputs| - 1];
      assert front[..k] == inputs[..k];
      PrefixLives(p, front, k);
    }
  }

  /** Once the thread has ended, it takes no further input. */
  lemma {:induction false} NothingAfterEnd(inputs: seq<Input>, k: nat)
    requires Live(AtHead, inputs).Some? && k <= |inputs| && Live(AtHead, inputs[..k]).Some?
    requires Live(AtHead, inputs[..k]).value.phase.Ended?
    ensures k == |inputs|
  {
    hide Step;
    if k < |inputs| {
      assert inputs[..k + 1][..k] == inputs[..k];
      PrefixLives(AtHead, inputs, k + 1);
    }
  }

  lemma {:induction false} FailuresAreDecided(inputs: seq<Input>)
    requires Live(AtHead, inputs).Some?
    ensures forall k :: 0 <= k < |inputs| ==> FailureDecided(inputs, k)
  {
    hide Accepts, Step, RefusedLogin, FailureOf;
    forall k | 0 <= k < |inputs| ensures FailureDecided(inputs, k) {
      PrefixLives(AtHead, inputs, k);
      PrefixLives(AtHead, inputs, k + 1);
      assert inputs[..k + 1][..k] == inputs[..k];
      if FailureOf(inputs[k]).Some? {
        FailureDecides(Live(AtHead, inputs[..k]).value.phase, inputs[k]);
        if RefusedLogin(FailureOf(inputs[k]).value.lowered) {
          NothingAfterEnd(inputs, k + 1);
          assert inputs[..k + 1] == inputs;
        }
      }
    }
  }

  /**
   * What is sent, by what it is sent for: an acknowledged connection is announced; the thread gives up for bad options,
   * a refused login, or a requested disconnect; it announces a retry for any other failure and for a stream that ends.
   * A stop request goes first, and everything else is silent.
   */
  lemma EventsHaveCauses(p: Phase, input: Input)
    requires Accepts(p, input)
    ensures var sent := Step(p, input).1;
            && (sent == [Connected] <==> input == Notify(false, ConnAck))
            && (forall m :: sent == [AuthFailed(m)] <==>
                  FailureOf(input).Some? && RefusedLogin(FailureOf(input).value.lowered) && m == FailureOf(input).value.message)
            && (forall m :: sent == [Disconnected(m)] <==>
                  || (input.BuildOptions? && input.problem == Some(m))
                  || (m == "requested disconnect"
                      && ((input.Notify? && (input.stop || input.notification.OutgoingDisconnect?)) || input == StreamEnded(true))))
            && (forall m :: sent == [Reconnecting(m)] <==>
                  || (FailureOf(input).Some? && !RefusedLogin(FailureOf(input).value.lowered)
                      && m == FailureOf(input).value.message + ". Retrying in 5 seconds.")
                  || (input == StreamEnded(false) && m == "MQTT connection ended. Retrying in 5 seconds."))
  {
    hide RefusedLogin, IsAuthFailure;
    if FailureOf(input).Some? {
      FourTestsAreTwo(FailureOf(input).value);
    }
    assert "MQTT connection ended" + ". Retrying in 5 seconds." == "MQTT connection ended. Retrying in 5 seconds.";
  }

  // ----- The thread's loops -----

  function SleepSteps(duration: nat): nat {
    (duration + SLEEP_STEP_MS - 1) / SLEEP_STEP_MS
  }

  /**
   * The interruptible sleep. `stops(k)` is what the k-th look at the stop flag sees. It completes exactly if none of
   * its looks sees a stop; then it has slept the whole duration, and otherwise only the full steps before the stop.
   */
  method SleepWithStopCheck(duration: nat, stops: nat -> bool) returns (completed: bool, elapsed: nat, steps: nat)
    ensures completed <==> forall k: nat :: k < SleepSteps(duration) ==> !stops(k)
    ensures completed ==> elapsed == duration && steps == SleepSteps(duration)
    ensures !completed ==> steps < SleepSteps(duration) && stops(steps) && elapsed == SLEEP_STEP_MS * steps < duration
    ensures forall k: nat :: k < steps ==> !stops(k)
  {
    elapsed, steps := 0, 0;
    while elapsed < duration
      invariant elapsed == if SLEEP_STEP_MS * steps <= duration then SLEEP_STEP_MS * steps else duration
      invariant steps <= SleepSteps(duration)
      invariant forall k: nat :: k < steps ==> !stops(k)
    {
      if stops(steps) {
        return false, elapsed, steps;
      }
      var sleepFor := if duration - elapsed < SLEEP_STEP_MS then duration - elapsed else SLEEP_STEP_MS;
      elapsed := elapsed + sleepFor;
      steps := steps + 1;
    }
    completed := true;
  }

  /** The inputs that a pause meets, up to the look that stops it. */
  function PauseInputs(stops: nat -> bool, n: nat): seq<Input> {
    if n == 0 then [] else PauseInputs(stops, n - 1) + [SleepStep(stops(n - 1))]
  }

  /** The first of the looks from k on that sees a stop, or 50 if none does. */
  function FirstStop(stops: nat -> bool, k: nat): (n: nat)
    requires k <= 50
    ensures k <= n <= 50 && (forall i: nat :: k <= i < n ==> !stops(i)) && (n < 50 ==> stops(n))
    decreases 50 - k
  {
    if k == 50 || stops(k) then k else FirstStop(stops, k + 1)
  }

  /** All inputs of one pause, and whether it is slept through. */
  function WholePause(stops: nat -> bool): (seq<Input>, bool) {
    var n := FirstStop(stops, 0);
    if n == 50 then (PauseInputs(stops, 50), true) else (PauseInputs(stops, n) + [SleepStep(true)], false)
  }

  lemma NothingLived(p: Phase)
    ensures Live(p, []) == Some(Life(p, []))
  {}

  lemma SilentStep(p: Phase, input: Input)
    requires p.Sleeping? && input.SleepStep?
    ensures Accepts(p, input) && forall sent: seq<RuntimeEvent> :: sent + Step(p, input).1 == sent
  {
    forall sent: seq<RuntimeEvent> ensures sent + Step(p, input).1 == sent {
      assert Step(p, input).1 == [];
    }
  }

  lemma {:induction false} PauseRuns(stops: nat -> bool, n: nat)
    requires n <= 50 && forall k: nat :: k < n ==> !stops(k)
    ensures Live(Sleeping(0), PauseInputs(stops, n)) == Some(Life(if n == 50 then AtHead else Sleeping(100 * n), []))
  {
    hide Live, Accepts;
    if n == 0 {
      NothingLived(Sleeping(0));
    } else {
      PauseRuns(stops, n - 1);
      SilentStep(Sleeping(100 * (n - 1)), SleepStep(false));
      OneMore(Sleeping(0), PauseInputs(stops, n - 1), SleepStep(stops(n - 1)));
    }
  }

  /** The pause between two attempts, as steps of the machine. */
  method Pause(stops: nat -> bool) returns (completed: bool, ghost inputs: seq<Input>)
    ensures (inputs, completed) == WholePause(stops)
    ensures Live(Sleeping(0), inputs) == Some(Life(if completed then AtHead else Ended, []))
  {
    hide Live;
    var elapsed, steps;
    completed, elapsed, steps := SleepWithStopCheck(MQTT_RECONNECT_DELAY_MS, stops);
    assert SleepSteps(MQTT_RECONNECT_DELAY_MS) == 50;
    PauseRuns(stops, steps);
    inputs := PauseInputs(stops, steps);
    if !completed {
      SilentStep(Sleeping(100 * steps), SleepStep(true));
      OneMore(Sleeping(0), inputs, SleepStep(true));
      inputs := inputs + [SleepStep(true)];
    }
    assert steps == FirstStop(stops, 0);
  }

  /** One connection attempt as the world presents it. */
  datatype Attempt = Attempt(
    stopAtHead: bool,
    optionsError: Option<string>,
    bootstrapError: Option<Failure>,
    notifications: seq<(bool, Notification)>,
    stopAtEnd: bool,
    pauseStops: nat -> bool)

  /** The inputs that polling meets from notification i on, and whether the thread then tries again. */
  function PollInputs(notifications: seq<(bool, Notification)>, i: nat, stopAtEnd: bool, pauseStops: nat -> bool): (seq<Input>, bool)
    requires i <= |notifications|
    decreases |notifications| - i
  {
    if i == |notifications| then
      if stopAtEnd then ([StreamEnded(true)], false)
      else ([StreamEnded(false)] + WholePause(pauseStops).0, WholePause(pauseStops).1)
    else
      var (stop, notification) := notifications[i];
      var input := Notify(stop, notification);
      if stop || notification.OutgoingDisconnect? then ([input], false)
      else if notification.Failed? then
        if IsAuthFailure(notification.failure) then ([input], false)
        else ([input] + WholePause(pauseStops).0, WholePause(pauseStops).1)
      else
        var (rest, again) := PollInputs(notifications, i + 1, stopAtEnd, pauseStops);
        ([input] + rest, again)
  }

  /** The inputs of one attempt, up to the one that ends the thread if there is one, and whether the thread goes on. */
  function AttemptInputs(a: Attempt): (seq<Input>, bool) {
    if a.stopAtHead then ([Head(true)], false)
    else if a.optionsError.Some? then ([Head(false), BuildOptions(a.optionsError)], false)
    else
      var start := [Head(false), BuildOptions(None), Bootstrap(a.bootstrapError)];
      if a.bootstrapError.None? then
        var (rest, again) := PollInputs(a.notifications, 0, a.stopAtEnd, a.pauseStops);
        (start + rest, again)
      else if IsAuthFailure(a.bootstrapError.value) then (start, false)
      else (start + WholePause(a.pauseStops).0, WholePause(a.pauseStops).1)
  }

  /** The inputs of one attempt after the other, up to the first that ends the thread, and whether one does. */
  function InputsOf(attempts: seq<Attempt>): (seq<Input>, bool) {
    if attempts == [] then ([], false)
    else
      var (before, ended) := InputsOf(attempts[..|attempts| - 1]);
      if ended then (before, true)
      else
        var (last, again) := AttemptInputs(attempts[|attempts| - 1]);
        (before + last, !again)
  }

  /** After a failed bootstrap the thread goes on exactly if the login was not refused and no stop cuts the pause. */
  lemma FailedBootstrapGoesOn(a: Attempt)
    requires !a.stopAtHead && a.optionsError.None? && a.bootstrapError.Some?
    ensures AttemptInputs(a).1 <==>
            !RefusedLogin(a.bootstrapError.value.lowered) && forall k: nat :: k < 50 ==> !a.pauseStops(k)
  {
    hide RefusedLogin, IsAuthFailure;
    FourTestsAreTwo(a.bootstrapError.value);
  }

  lemma {:induction false} EndedForGood(attempts: seq<Attempt>, k: nat)
    requires k <= |attempts| && InputsOf(attempts[..k]).1
    ensures InputsOf(attempts) == InputsOf(attempts[..k])
  {
    hide AttemptInputs;
    if k == |attempts| {
      assert attempts[..k] == attempts;
    } else {
      var front := attempts[..|attempts| - 1];
      assert front[..k] == attempts[..k];
      EndedForGood(front, k);
    }
  }

  class RuntimeThread {
    /** The events sent so far, and the machine steps that account for them. */
    var sent: seq<RuntimeEvent>
    ghost var inputs: seq<Input>

    constructor ()
      ensures At(AtHead) && sent == []
    {
      sent, inputs := [], [];
    }

    /** The thread's life so far is a run of the machine that now stands at p. */
    ghost predicate At(p: Phase)
      reads this
    {
      Live(AtHead, inputs) == Some(Life(p, sent))
    }

    method Take(ghost p: Phase, ghost input: Input, events: seq<RuntimeEvent>)
      requires At(p) && Accepts(p, input) && events == Step(p, input).1
      modifies this
      ensures At(Step(p, input).0) && inputs == old(inputs) + [input]
    {
      OneMore(AtHead, inputs, input);
      inputs := inputs + [input];
      sent := sent + events;
    }

    method TakePause(stops: nat -> bool) returns (completed: bool)
      requires At(Sleeping(0))
      modifies this
      ensures At(if completed then AtHead else Ended)
      ensures completed == WholePause(stops).1 && inputs == old(inputs) + WholePause(stops).0
    {
      hide Live;
      ghost var more;
      completed, more := Pause(stops);
      Joined(AtHead, inputs, more);
      assert sent + [] == sent;
      inputs := inputs + more;
    }

    /** Polls one connection; the result says whether to try again. */
    method RunConnectionLoop(notifications: seq<(bool, Notification)>, stopAtEnd: bool, pauseStops: nat -> bool)
      returns (retry: bool)
      requires At(Polling(false))
      modifies this
      ensures At(if retry then AtHead else Ended)
      ensures var met := PollInputs(notifications, 0, stopAtEnd, pauseStops);
              inputs == old(inputs) + met.0 && retry == met.1
    {
      hide Live, WholePause, IsAuthFailure, Retry;
      var announced := false;
      ghost var all := PollInputs(notifications, 0, stopAtEnd, pauseStops);
      for i := 0 to |notifications|
        invariant At(Polling(announced))
        invariant old(inputs) + all.0 == inputs + PollInputs(notifications, i, stopAtEnd, pauseStops).0
        invariant all.1 == PollInputs(notifications, i, stopAtEnd, pauseStops).1
      {
        var (stop, notification) := notifications[i];
        if stop || notification.OutgoingDisconnect? {
          Take(Polling(announced), Notify(stop, notification), [REQUESTED]);
          return false;
        }
        if notification.Failed? {
          retry := FailWhilePolling(announced, notification.failure, pauseStops);
          return;
        }
        announced := Noted(announced, notification);
      }
      if stopAtEnd {
        Take(Polling(announced), StreamEnded(true), [REQUESTED]);
        return false;
      }
      Take(Polling(announced), StreamEnded(false), [Retry("MQTT connection ended")]);
      retry := TakePause(pauseStops);
    }

    /** A notification that keeps the connection: a connect acknowledgement is announced, others are passed over. */
    method Noted(announced: bool, notification: Notification) returns (announced': bool)
      requires At(Polling(announced)) && !notification.OutgoingDisconnect? && !notification.Failed?
      modifies this
      ensures At(Polling(announced')) && inputs == old(inputs) + [Notify(false, notification)]
    {
      hide Live;
      if notification.ConnAck? {
        Take(Polling(announced), Notify(false, notification), [Connected]);
        announced' := true;
      } else {
        Take(Polling(announced), Notify(false, notification), []);
        announced' := announced;
      }
    }

    /** A failed poll: a refused login ends the thread, anything else is announced and slept over. */
    method FailWhilePolling(ghost announced: bool, failure: Failure, pauseStops: nat -> bool) returns (retry: bool)
      requires At(Polling(announced))
      modifies this
      ensures At(if retry then AtHead else Ended)
      ensures IsAuthFailure(failure) ==> !retry && inputs == old(inputs) + [Notify(false, Failed(failure))]
      ensures !IsAuthFailure(failure) ==>
                && retry == WholePause(pauseStops).1
                && inputs == old(inputs) + [Notify(false, Failed(failure))] + WholePause(pauseStops).0
    {
      hide Live, WholePause, IsAuthFailure, Retry;
      if IsAuthFailure(failure) {
        Take(Polling(announced), Notify(false, Failed(failure)), [AuthFailed(failure.message)]);
        return false;
      }
      Take(Polling(announced), Notify(false, Failed(failure)), [Retry(failure.message)]);
      retry := TakePause(pauseStops);
    }

    /** One attempt: options, bootstrap, polling, and the pause after a failure. */
    method RunAttempt(attempt: Attempt) returns (again: bool)
      requires At(AtHead)
      modifies this
      ensures At(if again then AtHead else Ended)
      ensures again == AttemptInputs(attempt).1 && inputs == old(inputs) + AttemptInputs(attempt).0
    {
      hide Live, WholePause, PollInputs, IsAuthFailure, Retry;
      Take(AtHead, Head(attempt.stopAtHead), []);
      if attempt.stopAtHead {
        return false;
      }
      match attempt.optionsError {
        case Some(error) =>
          Take(Connecting, BuildOptions(attempt.optionsError), [Disconnected(error)]);
          return false;
        case None =>
          Take(Connecting, BuildOptions(None), []);
      }
      match attempt.bootstrapError {
        case Some(failure) =>
          if IsAuthFailure(failure) {
            Take(Bootstrapping, Bootstrap(attempt.bootstrapError), [AuthFailed(failure.message)]);
            return false;
          }
          Take(Bootstrapping, Bootstrap(attempt.bootstrapError), [Retry(failure.message)]);
          again := TakePause(attempt.pauseStops);
        case None =>
          Take(Bootstrapping, Bootstrap(None), []);
          again := RunConnectionLoop(attempt.notifications, attempt.stopAtEnd, attempt.pauseStops);
      }
    }

    /** The thread over any finite number of attempts: it takes exactly the steps they call for, up to its end. */
    method Run(attempts: seq<Attempt>) returns (ended: bool)
      requires At(AtHead)
      modifies this
      ensures At(if ended then Ended else AtHead)
      ensures ended == InputsOf(attempts).1 && inputs == old(inputs) + InputsOf(attempts).0
      ensures forall k :: 0 <= k < |inputs| ==> FailureDecided(inputs, k)
    {
      hide Live, AttemptInputs, FailureDecided;
      for i := 0 to |attempts|
        invariant At(AtHead)
        invariant !InputsOf(attempts[..i]).1 && inputs == old(inputs) + InputsOf(attempts[..i]).0
      {
        assert attempts[..i + 1][..i] == attempts[..i];
        var again := RunAttempt(attempts[i]);
        if !again {
          EndedForGood(attempts, i + 1);
          FailuresAreDecided(inputs);
          return true;
        }
      }
      FailuresAreDecided(inputs);
      assert attempts[..|attempts|] == attempts;
      ended := false;
    }
  }
}
