/** Fibers (vity/fiber.h, vity/fiber.cc).  `FiberRec` is what one fiber's
    `m_state` and `m_cb` hold; the class `Fiber` updates them in place. */
module FiberModel {
  import opened Wrappers

  type FiberId = nat

  /** A callback, numbered in the order in which callbacks enter the system. */
  type Job = nat

  datatype FiberState = INIT | HOLD | EXEC | TERM | READY | EXCEPT

  datatype FiberRec = FiberRec(state: FiberState, body: Option<Job>)

  predicate Dead(st: FiberState) {
    st == TERM || st == EXCEPT
  }

  /** The states in which `Fiber::reset` and `~Fiber` accept a fiber with a stack. */
  predicate Reusable(st: FiberState) {
    st == INIT || st == TERM || st == EXCEPT
  }

  function AfterRun(fr: FiberRec, threw: bool): FiberRec {
    if threw then fr.(state := EXCEPT) else FiberRec(TERM, None)
  }
}
