/**
 * Event masks reported by the event loop (include/monkey/mk_event.h).
 * Only the bits the worker loop tests are needed.
 */
module Event {

  const EventEmpty: bv32 := 0
  const EventRead: bv32 := 1
  const EventWrite: bv32 := 4
  const EventSleep: bv32 := 8
  const EventClose: bv32 := 16 | 8 | 8192

  /** One reported event: a file descriptor and the mask of what happened on it. */
  datatype Event = Event(fd: int, mask: bv32)

  predicate HasRead(mask: bv32) { mask & EventRead != 0 }
  predicate HasWrite(mask: bv32) { mask & EventWrite != 0 }
  predicate HasClose(mask: bv32) { mask & EventClose != 0 }
}
