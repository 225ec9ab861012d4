/** The machine that decides whether the desktop window is shown, hidden to the tray, or closed for good. */
module Lifecycle {
  datatype SupportProfileKind = DesktopInteractive | DesktopLimited | HeadlessManaged
  datatype StartupSource = ManualSource | AutostartSource
  datatype StartupMode = Manual | Autostart | Managed
  datatype WindowModeState = Visible | Hidden
  datatype TrayState = TrayVisible | Unsupported | Unavailable
  datatype CloseBehavior = HideToTray | Quit
  datatype LifecycleCommand = NoCommand | ShowWindow | HideWindow | QuitApp

  datatype WindowLifecyclePolicy = WindowLifecyclePolicy(
    supportProfile: SupportProfileKind,
    startupMode: StartupMode,
    initialWindowMode: WindowModeState,
    trayIconExpected: bool,
    closeBehavior: CloseBehavior)

  datatype LifecycleRegistrationState = LifecycleRegistrationState(
    startupMode: StartupMode,
    windowMode: WindowModeState,
    trayState: TrayState)

  /** A machine's value: its fixed policy and its state. */
  datatype Machine = Machine(policy: WindowLifecyclePolicy, state: LifecycleRegistrationState)

  function ModeOf(source: StartupSource): StartupMode {
    match source
    case ManualSource => Manual
    case AutostartSource => Autostart
  }

  function BuildWindowLifecyclePolicy(profile: SupportProfileKind, source: StartupSource): WindowLifecyclePolicy {
    match profile
    case DesktopInteractive => WindowLifecyclePolicy(profile, ModeOf(source), Hidden, true, HideToTray)
    case DesktopLimited => WindowLifecyclePolicy(profile, ModeOf(source), Visible, false, Quit)
    case HeadlessManaged => WindowLifecyclePolicy(profile, Managed, Visible, false, Quit)
  }

  function InitialLifecycleState(policy: WindowLifecyclePolicy, trayAvailable: bool): LifecycleRegistrationState {
    var tray :=
      if policy.trayIconExpected then (if trayAvailable then TrayVisible else Unavailable) else Unsupported;
    var mode :=
      if policy.supportProfile.HeadlessManaged? then Hidden
      else if policy.initialWindowMode.Hidden? && trayAvailable then Hidden
      else Visible;
    LifecycleRegistrationState(policy.startupMode, mode, tray)
  }

  // ----- What the operations do, on values -----

  function Synced(m: Machine, trayAvailable: bool): Machine {
    m.(state := InitialLifecycleState(m.policy, trayAvailable))
  }

  function Shown(m: Machine): (Machine, LifecycleCommand) {
    (m.(state := m.state.(windowMode := Visible)), ShowWindow)
  }

  function HiddenToTray(m: Machine): (Machine, LifecycleCommand) {
    if !m.state.trayState.TrayVisible? || m.state.windowMode.Hidden? then (m, NoCommand)
    else (m.(state := m.state.(windowMode := Hidden)), HideWindow)
  }

  function Closed(m: Machine): (Machine, LifecycleCommand) {
    if m.policy.closeBehavior.HideToTray? && m.state.trayState.TrayVisible? then HiddenToTray(m) else (m, QuitApp)
  }

  function Foreground(m: Machine): (Machine, LifecycleCommand) {
    (m.(state := m.state.(windowMode := Visible, trayState := Unavailable)), ShowWindow)
  }

  /** Whoever hides the window needs a tray to bring it back. */
  predicate Recoverable(m: Machine) {
    m.state.windowMode.Hidden? ==> m.state.trayState.TrayVisible?
  }

  class LifecycleMachine {
    const policy: WindowLifecyclePolicy
    var state: LifecycleRegistrationState

    ghost function Value(): Machine
      reads this
    {
      Machine(policy, state)
    }

    constructor (policy: WindowLifecyclePolicy, trayAvailable: bool)
      ensures Value() == Machine(policy, InitialLifecycleState(policy, trayAvailable))
    {
      this.policy := policy;
      this.state := InitialLifecycleState(policy, trayAvailable);
    }

    predicate TrayAvailable()
      reads this
    {
      state.trayState == TrayVisible
    }

    method SyncTrayAvailability(trayAvailable: bool)
      modifies this
      ensures Value() == Synced(old(Value()), trayAvailable)
    {
      state := InitialLifecycleState(policy, trayAvailable);
    }

    method Show() returns (command: LifecycleCommand)
      modifies this
      ensures (Value(), command) == Shown(old(Value()))
    {
      state := state.(windowMode := Visible);
      command := ShowWindow;
    }

    method Hide() returns (command: LifecycleCommand)
      modifies this
      ensures (Value(), command) == HiddenToTray(old(Value()))
      ensures Recoverable(old(Value())) ==> Recoverable(Value())
      ensures command.HideWindow? <==> state.windowMode != old(state.windowMode)
      ensures command.HideWindow? ==> TrayAvailable() && state.windowMode.Hidden?
    {
      if !TrayAvailable() || state.windowMode == Hidden {
        return NoCommand;
      }
      state := state.(windowMode := Hidden);
      command := HideWindow;
    }

    method HandleCloseRequest() returns (command: LifecycleCommand)
      modifies this
      ensures (Value(), command) == Closed(old(Value()))
      ensures Recoverable(old(Value())) ==> Recoverable(Value())
      ensures command.HideWindow? <==> state.windowMode != old(state.windowMode)
      ensures command.QuitApp? <==> !(policy.closeBehavior.HideToTray? && TrayAvailable())
    {
      if policy.closeBehavior == HideToTray && TrayAvailable() {
        command := Hide();
      } else {
        command := QuitApp;
      }
    }

    method ForceForegroundFallback() returns (command: LifecycleCommand)
      modifies this
      ensures (Value(), command) == Foreground(old(Value()))
    {
      state := state.(windowMode := Visible, trayState := Unavailable);
      command := ShowWindow;
    }
  }
}
