/** Types shared by the four components: an optional value (Python's `None`),
    the state of a component's single background thread, and the calls the
    components make into the host (the Excel macro bridge and the exception hook). */
module Host {

  datatype Option<+T> = None | Some(value: T)

  /** The thread field of a component: never created (`None`), created and
      still alive, or created and no longer alive (`is_alive()` is false). */
  datatype Worker = NoWorker | Running | Finished

  /** One call from a component into the host. `Macro(name, arg)` is
      `callExcelMacro(name, arg)`; `ExceptionHook` is a call of the exception
      hook with the current exception's details. */
  datatype HostEvent = Macro(name: string, arg: string) | ExceptionHook

  /** `callExcelMacro("pythonError", code)`, the way every component reports a
      recoverable error by name. */
  function PythonError(code: string): HostEvent
  {
    Macro("pythonError", code)
  }
}
