/**
 * Durability of one stored value.
 *
 * A cell remembers every value that may still come back after a power loss:
 * the values written since the last filesystem barrier, oldest first, and the
 * value a reader sees now. A barrier forgets the older ones. Cells lose power
 * independently of each other, so nothing is assumed about the order in which
 * a filesystem persists unsynced writes to different objects.
 */
module Durable {

  datatype Option<+T> = None | Some(value: T) {
    function GetOr(default: T): T {
      if None? then default else value
    }
  }

  datatype Cell<T> = Cell(older: seq<T>, current: T) {

    /** A write makes v visible; every earlier possibility stays possible. */
    function Write(v: T): (c: Cell<T>) {
      Cell(older + [current], v)
    }

    /** The state after a filesystem barrier: only the visible value is left. */
    function Flushed(): (c: Cell<T>) {
      Cell([], current)
    }

    predicate Settled() {
      older == []
    }

    /** v is visible now or may become visible after a power loss. */
    ghost predicate Possible(v: T) {
      v == current || v in older
    }

    /** The value that is certainly on disk. */
    function Oldest(): (v: T) {
      if older == [] then current else older[0]
    }

    /** after is a state this cell may be in once power returns. */
    ghost predicate Survives(after: Cell<T>) {
      after.Settled() && Possible(after.current)
    }
  }

  lemma WritePossible<T>(c: Cell<T>, v: T, w: T)
    ensures c.Write(v).Possible(w) <==> c.Possible(w) || w == v
  {
  }
}
