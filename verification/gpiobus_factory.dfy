/**
 * GPIOBUS_Factory::Create: which bus object the programs get.  The platform
 * probe, the user id, the backend's Init result and a thrown
 * invalid_argument are inputs; the result says which bus was built and
 * whether it was reset.
 */
module GpioBusFactory {
  import opened Bus

  /** The mode Create is asked for; IN_PROCESS is the temporary extra mode the factory tests for. */
  datatype Request = HardwareMode(mode: Mode) | InProcessMode

  /** What the environment answers while the bus is being built. */
  datatype Environment = Environment(
    isRaspberryPi: bool,   // SBC_Version::IsRaspberryPi() after SBC_Version::Init()
    uid: nat,              // getuid()
    throws: bool,          // probing, building or initialising throws invalid_argument
    initOk: bool)          // the backend's Init(mode)

  datatype Backend = Raspberry | Virtual

  /** What Create returns: null, the in-process bus, or a GPIO backend that may or may not have been reset. */
  datatype Created =
    | Null
    | InProcessBus
    | Gpio(backend: Backend, mode: Mode, reset: bool)

  function Create(request: Request, env: Environment): (b: Created)
    // The in-process bus is returned as is, without probing the platform.
    ensures request.InProcessMode? ==> b == InProcessBus
    // Null exactly when an exception was caught or a Pi is used without root.
    ensures request.HardwareMode? ==>
      (b == Null <==> env.throws || (env.isRaspberryPi && env.uid != 0))
    // A Pi gets the Raspberry backend, anything else the virtual one, in the requested mode.
    ensures b.Gpio? ==>
      && request.HardwareMode? && b.mode == request.mode
      && (b.backend == Raspberry <==> env.isRaspberryPi)
    // Reset is called iff Init succeeded; the bus is returned either way.
    ensures b.Gpio? ==> (b.reset <==> env.initOk)
  {
    match request
    case InProcessMode => InProcessBus
    case HardwareMode(mode) =>
      if env.throws then Null
      else if env.isRaspberryPi && env.uid != 0 then Null
      else
        var backend := if env.isRaspberryPi then Raspberry else Virtual;
        Gpio(backend, mode, env.initOk)
  }

  /** Whatever the environment does, a hardware request never yields the in-process bus and an in-process request never yields null. */
  lemma CreateKeepsKind(request: Request, env: Environment)
    ensures request.HardwareMode? <==> Create(request, env) != InProcessBus
    ensures request.HardwareMode? && !env.throws && !env.isRaspberryPi ==> Create(request, env).Gpio?
  {
  }
}
