/**
 * The window application around the lifecycle machine: its start, its messages, and the real window that carries
 * out the commands they issue, one after the other and possibly late.
 */
module GuiShell {
  import opened Wrappers
  import opened Lifecycle

  datatype TrayAction = ShowAction | HideAction | QuitAction
  datatype WindowCommand = CommandShow | CommandHide | CommandQuit
  datatype Message = Tick(actions: seq<TrayAction>) | WindowCloseRequested

  /** The fields of the application that matter here; `tray` says whether it has a tray controller. */
  datatype App = App(
    tray: bool,
    machine: Machine,
    shared: LifecycleRegistrationState,
    pending: Option<LifecycleCommand>,
    quitInProgress: bool)

  function Applied(a: App, command: LifecycleCommand): (App, seq<WindowCommand>) {
    var synced := a.(shared := a.machine.state);
    match command
    case NoCommand => (synced, [])
    case ShowWindow => (synced.(quitInProgress := false), [CommandShow])
    case HideWindow => (synced.(quitInProgress := false), [CommandHide])
    case QuitApp => (synced.(quitInProgress := true), [CommandQuit])
  }

  function OnAction(a: App, action: TrayAction): (App, seq<WindowCommand>) {
    var (machine, command) :=
      match action
      case ShowAction => Shown(a.machine)
      case HideAction => HiddenToTray(a.machine)
      case QuitAction => (a.machine, QuitApp);
    Applied(a.(machine := machine), command)
  }

  function OnActions(a: App, actions: seq<TrayAction>): (App, seq<WindowCommand>) {
    if actions == [] then (a, [])
    else
      var (before, issued) := OnActions(a, actions[..|actions| - 1]);
      var (after, more) := OnAction(before, actions[|actions| - 1]);
      (after, issued + more)
  }

  function OnPending(a: App): (App, seq<WindowCommand>) {
    match a.pending
    case None => (a, [])
    case Some(command) => Applied(a.(pending := None), command)
  }

  function OnMessage(a: App, message: Message): (App, seq<WindowCommand>) {
    match message
    case Tick(actions) =>
      var (ready, first) := OnPending(a);
      var (after, rest) := OnActions(ready, actions);
      (after, first + rest)
    case WindowCloseRequested =>
      if a.quitInProgress then (a, [CommandQuit])
      else
        var (machine, command) := Closed(a.machine);
        Applied(a.(machine := machine), command)
  }

  function Startup(policy: WindowLifecyclePolicy, tray: bool): App {
    var newborn := Machine(policy, InitialLifecycleState(policy, false));
    var (machine, pending) :=
      if tray then (Synced(newborn, true), None)
      else if policy.trayIconExpected && !policy.initialWindowMode.Visible? then
        (Foreground(newborn).0, Some(Foreground(newborn).1))
      else (newborn, None);
    App(tray, machine, machine.state, pending, false)
  }

  // ----- The real window -----

  datatype World = World(app: App, queue: seq<WindowCommand>, visible: bool, exited: bool)

  /** The world handles a message, or the window carries out the oldest command. */
  datatype Step = Handles(message: Message) | Carries

  predicate Enabled(w: World, s: Step) {
    && !w.exited
    && match s
       case Handles(Tick(actions)) => w.app.tray || actions == []
       case Handles(WindowCloseRequested) => true
       case Carries => w.queue != []
  }

  function Next(w: World, s: Step): World
    requires Enabled(w, s)
  {
    match s
    case Handles(message) =>
      var (app, issued) := OnMessage(w.app, message);
      w.(app := app, queue := w.queue + issued)
    case Carries =>
      World(w.app, w.queue[1..], Effect(w.visible, w.queue[0]), w.queue[0].CommandQuit?)
  }

  function Effect(visible: bool, command: WindowCommand): bool {
    match command
    case CommandShow => true
    case CommandHide => false
    case CommandQuit => visible
  }

  /** The visibility that is left once the queued commands are carried out. */
  function Settled(visible: bool, queue: seq<WindowCommand>): bool {
    if queue == [] then visible else Effect(Settled(visible, queue[..|queue| - 1]), queue[|queue| - 1])
  }

  /**
   * The world when the application starts. If the settings cannot be read, the window is created visible
   * whatever the policy says.
   */
  function Begin(profile: SupportProfileKind, source: StartupSource, loaded: bool, tray: bool): World {
    var policy := BuildWindowLifecyclePolicy(profile, source);
    World(Startup(policy, tray), [], !loaded || policy.initialWindowMode.Visible?, false)
  }

  function Reached(begin: World, run: seq<Step>): Option<World> {
    if run == [] then Some(begin)
    else
      match Reached(begin, run[..|run| - 1])
      case None => None
      case Some(w) => if Enabled(w, run[|run| - 1]) then Some(Next(w, run[|run| - 1])) else None
  }

  lemma {:induction false} SettledAppends(visible: bool, a: seq<WindowCommand>, b: seq<WindowCommand>)
    ensures Settled(visible, a + b) == Settled(Settled(visible, a), b)
  {
    if b == [] {
      assert a + b == a;
    } else {
      assert (a + b)[..|a + b| - 1] == a + b[..|b| - 1];
      SettledAppends(visible, a, b[..|b| - 1]);
    }
  }

  /** Carrying out the oldest command first does not change what the queue leads to. */
  lemma {:induction false} SettledFromFront(visible: bool, queue: seq<WindowCommand>)
    requires queue != []
    ensures Settled(visible, queue) == Settled(Effect(visible, queue[0]), queue[1..])
  {
    assert queue == [queue[0]] + queue[1..];
    assert Settled(visible, [queue[0]]) == Effect(visible, queue[0]);
    SettledAppends(visible, [queue[0]], queue[1..]);
  }

  // ----- What every message keeps -----

  predicate IsDesktop(profile: SupportProfileKind) {
    !profile.HeadlessManaged?
  }

  ghost predicate Sound(a: App) {
    && a.shared == a.machine.state
    && Recoverable(a.machine)
    && (a.machine.state.trayState.TrayVisible? <==> a.tray && a.machine.policy.trayIconExpected)
    && (a.pending.Some? ==> a.pending == Some(ShowWindow) && a.machine.state.windowMode.Visible? && !a.tray)
    && (a.machine.policy.closeBehavior.HideToTray? <==> a.machine.policy.trayIconExpected)
  }

  /** The visibility that the machine asks for. */
  predicate Wants(a: App) {
    a.machine.state.windowMode.Visible?
  }

  /** A message moved the application from a to b and issued these commands. */
  ghost predicate Follows(a: App, b: App, issued: seq<WindowCommand>) {
    && Sound(b)
    && b.machine.policy == a.machine.policy && b.tray == a.tray
    && (b.pending == a.pending || b.pending.None?)
    && (b.pending == a.pending ==> Settled(Wants(a), issued) == Wants(b))
    && (b.quitInProgress ==> a.quitInProgress || CommandQuit in issued)
  }

  lemma ActionFollows(a: App, action: TrayAction)
    requires Sound(a)
    ensures Follows(a, OnAction(a, action).0, OnAction(a, action).1)
    ensures OnAction(a, action).0.pending == a.pending
  {}

  lemma {:induction false} ActionsFollow(a: App, actions: seq<TrayAction>)
    requires Sound(a)
    ensures Follows(a, OnActions(a, actions).0, OnActions(a, actions).1)
    ensures OnActions(a, actions).0.pending == a.pending
  {
    hide OnAction, Wants, Sound;
    if actions != [] {
      var front := actions[..|actions| - 1];
      ActionsFollow(a, front);
      var (before, issued) := OnActions(a, front);
      ActionFollows(before, actions[|actions| - 1]);
      SettledAppends(Wants(a), issued, OnAction(before, actions[|actions| - 1]).1);
    }
  }

  lemma PendingFollows(a: App)
    requires Sound(a)
    ensures Follows(a, OnPending(a).0, OnPending(a).1) && OnPending(a).0.pending.None?
    ensures a.pending.Some? ==> OnPending(a).1 == [CommandShow]
    ensures Wants(OnPending(a).0) == Wants(a)
  {}

  /** Where the commands leave a window that started as `visible`, once the pending command has been issued. */
  lemma {:induction false} MessageFollows(a: App, message: Message, visible: bool)
    requires Sound(a) && (a.pending.None? ==> visible == Wants(a))
    ensures var (b, issued) := OnMessage(a, message);
            && Follows(a, b, issued)
            && (b.pending.None? ==> Settled(visible, issued) == Wants(b))
  {
    match message
    case WindowCloseRequested =>
    case Tick(actions) =>
      var (ready, first) := OnPending(a);
      PendingFollows(a);
      ActionsFollow(ready, actions);
      var (b, rest) := OnActions(ready, actions);
      SettledAppends(visible, first, rest);
      SettledAppends(Wants(a), first, rest);
      assert Settled(visible, first) == Wants(ready) by { PendingSettles(a, visible); }
  }

  lemma PendingSettles(a: App, visible: bool)
    requires Sound(a) && (a.pending.None? ==> visible == Wants(a))
    ensures Settled(visible, OnPending(a).1) == Wants(OnPending(a).0)
  {}

  // ----- Runs -----

  ghost predicate Consistent(w: World) {
    && Sound(w.app)
    && (w.app.pending.None? ==> Settled(w.visible, w.queue) == Wants(w.app))
    && (w.app.quitInProgress ==> w.exited || CommandQuit in w.queue)
  }

  /**
   * Whether the window starts out in step with the machine. It does unless the profile is the headless one, or
   * the settings could not be read although there is a tray to hide to.
   */
  predicate StartsInStep(profile: SupportProfileKind, loaded: bool, tray: bool) {
    IsDesktop(profile) && (loaded || !tray || !profile.DesktopInteractive?)
  }

  lemma StartsConsistentIff(profile: SupportProfileKind, source: StartupSource, loaded: bool, tray: bool)
    ensures Consistent(Begin(profile, source, loaded, tray)) <==> StartsInStep(profile, loaded, tray)
  {}

  lemma {:induction false} StepKeepsConsistent(w: World, s: Step)
    requires Consistent(w) && Enabled(w, s)
    ensures Consistent(Next(w, s))
    ensures Next(w, s).app.tray == w.app.tray && Next(w, s).app.machine.policy == w.app.machine.policy
    ensures Next(w, s).app.pending.None? || Next(w, s).app.pending == w.app.pending
  {
    hide Sound, Wants, OnMessage;
    match s
    case Handles(message) =>
      MessageFollows(w.app, message, Settled(w.visible, w.queue));
      SettledAppends(w.visible, w.queue, OnMessage(w.app, message).1);
    case Carries =>
      SettledFromFront(w.visible, w.queue);
      assert w.queue == [w.queue[0]] + w.queue[1..];
  }

  lemma {:induction false} RunsKeepConsistent(begin: World, run: seq<Step>)
    requires Consistent(begin) && Reached(begin, run).Some?
    ensures Consistent(Reached(begin, run).value)
    ensures Reached(begin, run).value.app.tray == begin.app.tray
    ensures Reached(begin, run).value.app.machine.policy == begin.app.machine.policy
  {
    hide Consistent, Enabled, Next;
    if run != [] {
      RunsKeepConsistent(begin, run[..|run| - 1]);
      StepKeepsConsistent(Reached(begin, run[..|run| - 1]).value, run[|run| - 1]);
    }
  }

  /**
   * In every reachable state a hidden machine has a visible tray, and the shared registration state is the
   * machine's. Once the startup command has been issued, the window is, as soon as it has carried out what was
   * issued, shown exactly if the machine says so. An application that is quitting has exited or is about to.
   */
  lemma {:induction false} WindowMachineAndRegistrationAgree(
    profile: SupportProfileKind, source: StartupSource, loaded: bool, tray: bool, run: seq<Step>)
    requires StartsInStep(profile, loaded, tray) && Reached(Begin(profile, source, loaded, tray), run).Some?
    ensures var w := Reached(Begin(profile, source, loaded, tray), run).value;
            && (w.app.machine.state.windowMode.Hidden? ==> w.app.machine.state.trayState.TrayVisible? && w.app.tray)
            && w.app.shared == w.app.machine.state
            && w.app.machine.state.startupMode == ModeOf(source)
            && (w.app.pending.None? ==> (Settled(w.visible, w.queue) <==> w.app.shared.windowMode.Visible?))
            && (w.app.pending.None? && w.queue == [] ==> (w.visible <==> w.app.shared.windowMode.Visible?))
            && (w.app.quitInProgress ==> w.exited || CommandQuit in w.queue)
  {
    hide Next, Begin;
    var begin := Begin(profile, source, loaded, tray);
    StartsConsistentIff(profile, source, loaded, tray);
    RunsKeepConsistent(begin, run);
    StartupModeKept(profile, source, loaded, tray, run);
    BeginsWithTray(profile, source, loaded, tray);
  }

  lemma BeginsWithTray(profile: SupportProfileKind, source: StartupSource, loaded: bool, tray: bool)
    ensures Begin(profile, source, loaded, tray).app.tray == tray
    ensures IsDesktop(profile) ==> Begin(profile, source, loaded, tray).app.machine.state.startupMode == ModeOf(source)
  {}

  lemma {:induction false} ActionsKeepStartupMode(a: App, actions: seq<TrayAction>)
    ensures OnActions(a, actions).0.machine.state.startupMode == a.machine.state.startupMode
  {
    if actions != [] {
      ActionsKeepStartupMode(a, actions[..|actions| - 1]);
    }
  }

  lemma {:induction false} StartupModeKept(
    profile: SupportProfileKind, source: StartupSource, loaded: bool, tray: bool, run: seq<Step>)
    requires IsDesktop(profile) && Reached(Begin(profile, source, loaded, tray), run).Some?
    ensures Reached(Begin(profile, source, loaded, tray), run).value.app.machine.state.startupMode == ModeOf(source)
  {
    hide Begin;
    BeginsWithTray(profile, source, loaded, tray);
    if run != [] {
      StartupModeKept(profile, source, loaded, tray, run[..|run| - 1]);
      var w := Reached(Begin(profile, source, loaded, tray), run[..|run| - 1]).value;
      match run[|run| - 1]
      case Carries =>
      case Handles(WindowCloseRequested) =>
      case Handles(Tick(actions)) => ActionsKeepStartupMode(OnPending(w.app).0, actions);
    }
  }

  function Carrying(n: nat): seq<Step> {
    if n == 0 then [] else Carrying(n - 1) + [Carries]
  }

  /** Carrying out commands up to a quit command takes them off the queue and leaves the window as they settle it. */
  lemma {:induction false} CarryingSettles(begin: World, run: seq<Step>, n: nat)
    requires Reached(begin, run).Some?
    requires var w := Reached(begin, run).value; !w.exited && n <= |w.queue| && CommandQuit !in w.queue[..n]
    ensures Reached(begin, run + Carrying(n)).Some?
    ensures var w := Reached(begin, run).value;
            Reached(begin, run + Carrying(n)).value == World(w.app, w.queue[n..], Settled(w.visible, w.queue[..n]), false)
  {
    hide OnMessage;
    var w := Reached(begin, run).value;
    if n == 0 {
      assert run + Carrying(0) == run;
      assert w.queue[0..] == w.queue;
    } else {
      assert w.queue[..n][..n - 1] == w.queue[..n - 1];
      assert w.queue[..n][n - 1] == w.queue[n - 1];
      CarryingSettles(begin, run, n - 1);
      assert (run + Carrying(n))[..|run + Carrying(n)| - 1] == run + Carrying(n - 1);
      assert w.queue[n - 1..][1..] == w.queue[n..];
    }
  }

  function FirstQuit(queue: seq<WindowCommand>): (n: nat)
    requires CommandQuit in queue
    ensures n < |queue| && queue[n] == CommandQuit && CommandQuit !in queue[..n]
  {
    if queue[0] == CommandQuit then 0 else
      assert queue == [queue[0]] + queue[1..];
      var n := FirstQuit(queue[1..]);
      assert queue[..n + 1] == [queue[0]] + queue[1..][..n];
      n + 1
  }

  /** A queued quit command is carried out: the application exits. */
  lemma {:induction false} CarryingExits(begin: World, run: seq<Step>) returns (rest: seq<Step>)
    requires Reached(begin, run).Some?
    requires var w := Reached(begin, run).value; !w.exited && CommandQuit in w.queue
    ensures Reached(begin, run + rest).Some? && Reached(begin, run + rest).value.exited
    ensures forall i :: 0 <= i < |rest| ==> rest[i] == Carries
  {
    hide OnMessage;
    var w := Reached(begin, run).value;
    var n := FirstQuit(w.queue);
    CarryingSettles(begin, run, n);
    rest := Carrying(n) + [Carries];
    CarryingCarries(n);
    assert (run + rest)[..|run + rest| - 1] == run + Carrying(n);
  }

  lemma {:induction false} CarryingCarries(n: nat)
    ensures forall i :: 0 <= i < |Carrying(n)| ==> Carrying(n)[i] == Carries
  {
    if n > 0 {
      CarryingCarries(n - 1);
    }
  }

  /**
   * Nobody is locked out: from every reachable state in which no quit has been issued, one tick, with a click on
   * the tray if there is one, brings the window up as soon as what was issued is carried out.
   */
  lemma {:induction false} WindowCanAlwaysBeShown(
    profile: SupportProfileKind, source: StartupSource, loaded: bool, tray: bool, run: seq<Step>)
    returns (rescue: seq<Step>)
    requires StartsInStep(profile, loaded, tray) && Reached(Begin(profile, source, loaded, tray), run).Some?
    requires var w := Reached(Begin(profile, source, loaded, tray), run).value; !w.exited && CommandQuit !in w.queue
    ensures Reached(Begin(profile, source, loaded, tray), run + rescue).Some?
    ensures var w := Reached(Begin(profile, source, loaded, tray), run + rescue).value;
            w.visible && !w.exited && w.queue == []
  {
    hide Begin, OnMessage, Next, Sound;
    var begin := Begin(profile, source, loaded, tray);
    StartsConsistentIff(profile, source, loaded, tray);
    RunsKeepConsistent(begin, run);
    var w := Reached(begin, run).value;
    var click := Handles(Tick(if w.app.tray then [ShowAction] else []));
    ClickShows(w.app);
    StepKeepsConsistent(w, click);
    assert (run + [click])[..|run|] == run;
    var after := Next(w, click);
    assert Reached(begin, run + [click]) == Some(after);
    AfterClick(w, click);
    CarryingSettles(begin, run + [click], |after.queue|);
    rescue := [click] + Carrying(|after.queue|);
    assert run + rescue == run + [click] + Carrying(|after.queue|);
    assert after.queue[..|after.queue|] == after.queue;
  }

  lemma ClickShows(a: App)
    requires Sound(a)
    ensures var (b, issued) := OnMessage(a, Tick(if a.tray then [ShowAction] else []));
            Wants(b) && b.pending.None? && CommandQuit !in issued
  {
    if a.tray {
      var ready := OnPending(a).0;
      assert [ShowAction][..0] == [];
      assert OnActions(ready, []) == (ready, []);
      assert OnActions(ready, [ShowAction]).0 == OnAction(ready, ShowAction).0;
      assert OnActions(ready, [ShowAction]).1 == [CommandShow];
    }
  }

  lemma AfterClick(w: World, click: Step)
    requires Enabled(w, click) && click == Handles(Tick(if w.app.tray then [ShowAction] else []))
    requires CommandQuit !in w.queue && Sound(w.app)
    ensures var after := Next(w, click);
            Wants(after.app) && after.app.pending.None? && CommandQuit !in after.queue && !after.exited
  {
    hide OnMessage, Sound, Wants;
    ClickShows(w.app);
  }

  // ----- What each action and each request is for -----

  lemma {:induction false} ActionsQuitIff(a: App, actions: seq<TrayAction>)
    ensures CommandQuit in OnActions(a, actions).1 <==> QuitAction in actions
  {
    if actions != [] {
      ActionsQuitIff(a, actions[..|actions| - 1]);
      assert actions == actions[..|actions| - 1] + [actions[|actions| - 1]];
    }
  }

  /** A tick issues a quit exactly if the quit entry of the tray was clicked. */
  lemma TickQuitsIff(a: App, actions: seq<TrayAction>)
    requires Sound(a)
    ensures CommandQuit in OnMessage(a, Tick(actions)).1 <==> QuitAction in actions
  {
    ActionsQuitIff(OnPending(a).0, actions);
    PendingFollows(a);
  }

  /** The last click that shows or hides, if there is one. */
  function LastShowOrHide(actions: seq<TrayAction>): Option<TrayAction> {
    if actions == [] then None
    else if actions[|actions| - 1] != QuitAction then Some(actions[|actions| - 1])
    else LastShowOrHide(actions[..|actions| - 1])
  }

  /** With a visible tray the last click that shows or hides decides; without one the window stays shown. */
  lemma {:induction false} LastActionWins(a: App, actions: seq<TrayAction>)
    requires Sound(a)
    ensures var b := OnActions(a, actions).0;
            && b.machine.state.trayState == a.machine.state.trayState
            && (if !a.machine.state.trayState.TrayVisible? then Wants(b)
                else Wants(b) <==> match LastShowOrHide(actions) case None => Wants(a) case Some(action) => action == ShowAction)
  {
    if actions != [] {
      LastActionWins(a, actions[..|actions| - 1]);
    }
  }

  /** The window after a tick, by its clicks. */
  lemma TickShowsOrHides(a: App, actions: seq<TrayAction>)
    requires Sound(a)
    ensures var b := OnMessage(a, Tick(actions)).0;
            && b.pending.None?
            && (if !a.machine.state.trayState.TrayVisible? then Wants(b)
                else Wants(b) <==> match LastShowOrHide(actions) case None => Wants(a) case Some(action) => action == ShowAction)
  {
    PendingFollows(a);
    LastActionWins(OnPending(a).0, actions);
    ActionsFollow(OnPending(a).0, actions);
  }

  /** A close request hides the window to a visible tray, and quits if there is none or if a quit is under way. */
  lemma CloseHidesOrQuits(a: App)
    requires Sound(a)
    ensures var (b, issued) := OnMessage(a, WindowCloseRequested);
            if a.quitInProgress then b == a && issued == [CommandQuit]
            else if a.machine.state.trayState.TrayVisible? then !Wants(b) && CommandQuit !in issued && !b.quitInProgress
            else b.machine == a.machine && issued == [CommandQuit] && b.quitInProgress
  {}

  /** Whether a quit is under way is what the last command said that was issued. */
  lemma {:induction false} QuitIsTheLastCommand(a: App, actions: seq<TrayAction>)
    ensures var (b, issued) := OnActions(a, actions);
            b.quitInProgress == if issued == [] then a.quitInProgress else issued[|issued| - 1] == CommandQuit
  {
    if actions != [] {
      QuitIsTheLastCommand(a, actions[..|actions| - 1]);
    }
  }

  /** The worlds that the window theorems speak of. */
  ghost predicate ReachedInStep(profile: SupportProfileKind, source: StartupSource, loaded: bool, tray: bool, run: seq<Step>) {
    StartsInStep(profile, loaded, tray) && Reached(Begin(profile, source, loaded, tray), run).Some?
  }

  lemma {:induction false} OneMoreStep(begin: World, run: seq<Step>, step: Step)
    requires Reached(begin, run).Some? && Consistent(Reached(begin, run).value) && Enabled(Reached(begin, run).value, step)
    ensures Reached(begin, run + [step]) == Some(Next(Reached(begin, run).value, step))
    ensures Consistent(Next(Reached(begin, run).value, step))
  {
    hide Next, Enabled, Consistent;
    StepKeepsConsistent(Reached(begin, run).value, step);
    assert (run + [step])[..|run|] == run;
  }

  /** Carrying out a whole queue without a quit brings the window in step with the machine. */
  lemma {:induction false} CarryAll(begin: World, run: seq<Step>) returns (rest: seq<Step>)
    requires Reached(begin, run).Some? && Consistent(Reached(begin, run).value)
    requires var w := Reached(begin, run).value; !w.exited && CommandQuit !in w.queue && w.app.pending.None?
    ensures Reached(begin, run + rest).Some?
    ensures var w := Reached(begin, run + rest).value;
            !w.exited && w.queue == [] && w.visible == Wants(Reached(begin, run).value.app)
    ensures forall i :: 0 <= i < |rest| ==> rest[i] == Carries
  {
    hide Sound, Wants, Next, Enabled;
    var w := Reached(begin, run).value;
    rest := Carrying(|w.queue|);
    assert w.queue[..|w.queue|] == w.queue;
    CarryingCarries(|w.queue|);
    CarryingSettles(begin, run, |w.queue|);
  }

  /** From every reachable state with a tray, a click on its quit entry, carried out, exits. */
  lemma {:induction false} QuitClickExits(
    profile: SupportProfileKind, source: StartupSource, loaded: bool, tray: bool, run: seq<Step>)
    returns (rest: seq<Step>)
    requires ReachedInStep(profile, source, loaded, tray, run)
    requires var w := Reached(Begin(profile, source, loaded, tray), run).value; !w.exited && w.app.tray
    ensures forall i :: 0 <= i < |rest| ==> rest[i] == Carries
    ensures var steps := run + [Handles(Tick([QuitAction]))] + rest;
            Reached(Begin(profile, source, loaded, tray), steps).Some? && Reached(Begin(profile, source, loaded, tray), steps).value.exited
  {
    hide Begin, OnMessage, Sound;
    var begin, click := Begin(profile, source, loaded, tray), Handles(Tick([QuitAction]));
    StartsConsistentIff(profile, source, loaded, tray);
    RunsKeepConsistent(begin, run);
    TickQuitsIff(Reached(begin, run).value.app, [QuitAction]);
    OneMoreStep(begin, run, click);
    rest := CarryingExits(begin, run + [click]);
  }

  /**
   * From every reachable state with a visible tray and no issued quit, a click on the tray's hide entry, carried out,
   * leaves the window hidden and the application running.
   */
  lemma {:induction false} HideClickHides(
    profile: SupportProfileKind, source: StartupSource, loaded: bool, tray: bool, run: seq<Step>)
    returns (rest: seq<Step>)
    requires ReachedInStep(profile, source, loaded, tray, run)
    requires var w := Reached(Begin(profile, source, loaded, tray), run).value;
             !w.exited && CommandQuit !in w.queue && w.app.machine.state.trayState.TrayVisible?
    ensures forall i :: 0 <= i < |rest| ==> rest[i] == Carries
    ensures var steps := run + [Handles(Tick([HideAction]))] + rest;
            && Reached(Begin(profile, source, loaded, tray), steps).Some?
            && var w := Reached(Begin(profile, source, loaded, tray), steps).value;
            !w.visible && !w.exited && w.queue == []
  {
    hide Begin, OnMessage;
    var begin, click := Begin(profile, source, loaded, tray), Handles(Tick([HideAction]));
    StartsConsistentIff(profile, source, loaded, tray);
    RunsKeepConsistent(begin, run);
    var app := Reached(begin, run).value.app;
    TickQuitsIff(app, [HideAction]);
    TickShowsOrHides(app, [HideAction]);
    OneMoreStep(begin, run, click);
    rest := CarryAll(begin, run + [click]);
  }

  /**
   * From every reachable state without an issued quit, a close request, carried out, leaves the window hidden and the
   * application running if the tray is visible, and exits otherwise.
   */
  lemma {:induction false} CloseRequestHidesOrExits(
    profile: SupportProfileKind, source: StartupSource, loaded: bool, tray: bool, run: seq<Step>)
    returns (rest: seq<Step>)
    requires ReachedInStep(profile, source, loaded, tray, run)
    requires var w := Reached(Begin(profile, source, loaded, tray), run).value; !w.exited && CommandQuit !in w.queue
    ensures forall i :: 0 <= i < |rest| ==> rest[i] == Carries
    ensures var steps := run + [Handles(WindowCloseRequested)] + rest;
            && Reached(Begin(profile, source, loaded, tray), steps).Some?
            && var w := Reached(Begin(profile, source, loaded, tray), steps).value;
            if Reached(Begin(profile, source, loaded, tray), run).value.app.machine.state.trayState.TrayVisible?
            then !w.visible && !w.exited && w.queue == [] else w.exited
  {
    hide Begin, OnMessage;
    var begin, close := Begin(profile, source, loaded, tray), Handles(WindowCloseRequested);
    StartsConsistentIff(profile, source, loaded, tray);
    RunsKeepConsistent(begin, run);
    var w := Reached(begin, run).value;
    CloseHidesOrQuits(w.app);
    MessageFollows(w.app, WindowCloseRequested, Settled(w.visible, w.queue));
    OneMoreStep(begin, run, close);
    if w.app.machine.state.trayState.TrayVisible? {
      rest := CarryAll(begin, run + [close]);
    } else {
      rest := CarryingExits(begin, run + [close]);
    }
  }

  /**
   * How the application starts: hidden in the tray on an interactive desktop, shown with a pending command to show
   * the window if there the tray fails, shown without a tray state on a limited desktop, and managed and hidden for
   * the headless profile. The start keeps whether it was made by hand or by the system.
   */
  lemma StartupStates(profile: SupportProfileKind, source: StartupSource, tray: bool)
    ensures var a := Startup(BuildWindowLifecyclePolicy(profile, source), tray);
            && a.tray == tray && a.shared == a.machine.state && !a.quitInProgress
            && (a.pending.Some? <==> profile.DesktopInteractive? && !tray)
            && (a.pending.Some? ==> a.pending.value.ShowWindow?)
            && a.machine.state.trayState == (if !profile.DesktopInteractive? then Unsupported else if tray then TrayVisible else Unavailable)
            && (a.machine.state.windowMode.Hidden? <==> profile.HeadlessManaged? || (profile.DesktopInteractive? && tray))
            && (a.machine.state.startupMode.Managed? <==> profile.HeadlessManaged?)
            && (!profile.HeadlessManaged? ==> (a.machine.state.startupMode.Autostart? <==> source.AutostartSource?))
  {}

  // ----- The application's methods -----

  class YeonjangGuiApp {
    var trayController: bool
    var lifecycle: LifecycleMachine
    var lifecycleState: LifecycleRegistrationState
    var pendingLifecycleCommand: Option<LifecycleCommand>
    var quitInProgress: bool

    ghost function Value(): App
      reads this, lifecycle
    {
      App(trayController, lifecycle.Value(), lifecycleState, pendingLifecycleCommand, quitInProgress)
    }

    constructor (policy: WindowLifecyclePolicy, trayStarts: bool)
      ensures Value() == Startup(policy, trayStarts)
      ensures fresh(lifecycle)
    {
      var machine := new LifecycleMachine(policy, false);
      var pending := None;
      if trayStarts {
        machine.SyncTrayAvailability(true);
      } else if policy.trayIconExpected && policy.initialWindowMode != Visible {
        var command := machine.ForceForegroundFallback();
        pending := Some(command);
      }
      trayController, lifecycle, lifecycleState := trayStarts, machine, machine.state;
      pendingLifecycleCommand, quitInProgress := pending, false;
    }

    method ApplyLifecycleCommand(command: LifecycleCommand) returns (tasks: seq<WindowCommand>)
      modifies this
      ensures lifecycle == old(lifecycle)
      ensures (Value(), tasks) == Applied(old(Value()), command)
    {
      lifecycleState := lifecycle.state;
      match command {
        case NoCommand =>
          tasks := [];
        case ShowWindow =>
          quitInProgress := false;
          tasks := [CommandShow];
        case HideWindow =>
          quitInProgress := false;
          tasks := [CommandHide];
        case QuitApp =>
          quitInProgress := true;
          tasks := [CommandQuit];
      }
    }

    method HandleAction(action: TrayAction) returns (tasks: seq<WindowCommand>)
      modifies this, lifecycle
      ensures lifecycle == old(lifecycle)
      ensures (Value(), tasks) == OnAction(old(Value()), action)
    {
      var command;
      match action {
        case ShowAction => command := lifecycle.Show();
        case HideAction => command := lifecycle.Hide();
        case QuitAction => command := QuitApp;
      }
      tasks := ApplyLifecycleCommand(command);
    }

    /** One tick; the tray has queued these actions. */
    method OnTick(actions: seq<TrayAction>) returns (tasks: seq<WindowCommand>)
      modifies this, lifecycle
      ensures lifecycle == old(lifecycle)
      ensures (Value(), tasks) == OnMessage(old(Value()), Tick(actions))
      ensures old(Sound(Value())) ==> (CommandQuit in tasks <==> QuitAction in actions)
    {
      tasks := [];
      var startup := pendingLifecycleCommand;
      if startup.Some? {
        pendingLifecycleCommand := None;
        tasks := ApplyLifecycleCommand(startup.value);
      }
      ghost var ready, first := Value(), tasks;
      assert (ready, first) == OnPending(old(Value()));
      for i := 0 to |actions|
        invariant lifecycle == old(lifecycle)
        invariant Value() == OnActions(ready, actions[..i]).0
        invariant tasks == first + OnActions(ready, actions[..i]).1
      {
        assert actions[..i + 1][..i] == actions[..i];
        var more := HandleAction(actions[i]);
        tasks := tasks + more;
      }
      assert actions[..|actions|] == actions;
      ghost var was := old(Value());
      if Sound(was) {
        TickQuitsIff(was, actions);
      }
    }

    method OnCloseRequested() returns (tasks: seq<WindowCommand>)
      modifies this, lifecycle
      ensures lifecycle == old(lifecycle)
      ensures (Value(), tasks) == OnMessage(old(Value()), WindowCloseRequested)
    {
      if quitInProgress {
        return [CommandQuit];
      }
      var command := lifecycle.HandleCloseRequest();
      tasks := ApplyLifecycleCommand(command);
    }
  }
}
