/**
 * What a GLFW key event carries and what a key callback can do with it.
 * The constant values are those of GLFW 3 (glfw3.h).
 */
module Events {

  /** Key actions. */
  const Release := 0
  const Press := 1
  const Repeat := 2

  /** Key codes the console reacts to by code rather than by character. */
  const KeyEscape := 256
  const KeyEnter := 257
  const KeyBackspace := 259

  /** Modifier bits. */
  const ModShift := 1

  /** The Python exceptions that can escape from the callbacks and the frame push. */
  datatype PyError = ValueError | IndexError | AttributeError | AssertionError

  /**
   * The outcome of one key callback: nothing to report, a request that the
   * window close, or an exception raised out of the callback (the state then
   * keeps every change made before the raise).
   */
  datatype Reply = Done | CloseWindow | Raised(error: PyError)
}
