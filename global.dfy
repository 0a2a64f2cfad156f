/** The process-wide verbose switch. The source keeps one private instance
    in a static field; Dafny has no static mutable state, so that one
    instance is an object every reader is handed. */
module GlobalState {

  class Global {
    /** Whether diagnostics are printed. */
    var debug: bool

    /** The single instance starts quiet. */
    constructor ()
      ensures !debug
    {
      debug := false;
    }

    /** Reports the switch and changes nothing. */
    method IsVerbose() returns (verbose: bool)
      ensures verbose == debug
    {
      verbose := debug;
    }

    /** Turns diagnostics on. The switch is on afterwards whatever it was
        before, so a second call leaves the state a first call left:
        enabling is idempotent, and nothing turns the switch off. */
    method EnableVerboseMode()
      modifies this
      ensures debug
    {
      debug := true;
    }
  }
}
