/**
 * The two pieces of shared state the application keeps behind locks: the
 * slot holding the sidecar child process (`AppState.child_process`, a
 * `Mutex<Option<CommandChild>>`) and the setup latch (`InitState`, an
 * `RwLock<bool>`). A lock that a panicking thread poisoned stays poisoned;
 * each class carries that as a flag.
 */
module AppState {
  import opened Wrappers

  /** A spawned sidecar process, by identity. */
  type ChildId = nat

  /** The text of Rust's `PoisonError`. */
  const POISONED: string := "poisoned lock: another task failed inside"

  predicate NoDuplicates<T(==)>(s: seq<T>) {
    forall i, j :: 0 <= i < j < |s| ==> s[i] != s[j]
  }

  class ChildSlot {
    var child: Option<ChildId>
    var poisoned: bool
    /** Every child this slot's holders have killed, in order. */
    ghost var killed: seq<ChildId>

    /** No child is killed twice, and the child in the slot has not been killed yet. */
    ghost predicate Valid()
      reads this
    {
      NoDuplicates(killed) && (child.Some? ==> child.value !in killed)
    }

    /** `Arc::new(Mutex::default())`. */
    constructor ()
      ensures Valid() && child == None && !poisoned && killed == []
    {
      child := None;
      poisoned := false;
      killed := [];
    }

    /** `*lock = Some(child)` once the lock is obtained; a lock error leaves the slot as it was. */
    method Store(c: ChildId) returns (locked: bool)
      requires Valid() && c !in killed
      modifies this`child
      ensures Valid()
      ensures locked == !poisoned
      ensures child == (if locked then Some(c) else old(child))
    {
      locked := !poisoned;
      if locked {
        child := Some(c);
      }
    }

    /** `if let Some(child) = lock.take() { child.kill() }` once the lock is obtained. */
    method TakeAndKill() returns (locked: bool, victim: Option<ChildId>)
      requires Valid()
      modifies this`child, this`killed
      ensures Valid()
      ensures locked == !poisoned
      ensures victim == (if locked then old(child) else None)
      ensures child == (if locked then None else old(child))
      ensures killed == old(killed) + (if victim.Some? then [victim.value] else [])
      ensures !locked ==> unchanged(this)
    {
      locked := !poisoned;
      victim := None;
      if locked {
        victim := child;
        child := None;
        if victim.Some? {
          killed := killed + [victim.value];
        }
      }
    }
  }

  /** `InitState(RwLock<bool>)`: true once a server has been set up. */
  class InitState {
    var value: bool
    var poisoned: bool

    /** `InitState(RwLock::new(false))`. */
    constructor ()
      ensures !value && !poisoned
    {
      value := false;
      poisoned := false;
    }

    /** `state.0.read()`. */
    function Read(): (r: Result<bool, string>)
      reads this
    {
      if poisoned then Err(POISONED) else Ok(value)
    }

    /** `*state.0.write()? = true`: the only write the application makes. */
    method MarkInitialized() returns (r: Result<Unit, string>)
      modifies this`value
      ensures r == (if poisoned then Err(POISONED) else Ok(Unit))
      ensures value == (old(value) || r.Ok?)
    {
      if poisoned {
        return Err(POISONED);
      }
      value := true;
      return Ok(Unit);
    }
  }
}
