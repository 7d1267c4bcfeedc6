/** What the shared_library backends ask of the operating system's loader
    (dlopen/dlclose on Unix, LoadLibraryExA/FreeLibrary on Windows). The loader
    itself is not modelled: what it answers is given to each operation as a
    parameter. What the model keeps is the history of the open and close calls a
    shared_library object has made, so that ownership of the native handle can
    be stated: a library is opened only when none is held, and a close releases
    exactly the handle held. */
module Native {
  import opened Flags

  /** A raw pointer (void*, HMODULE); 0 is the null pointer. */
  type Address = nat

  const Null: Address := 0

  /** One call that acquires or releases a native library. */
  datatype LoaderEvent =
    | Opened(path: string, mode: Mask, handle: Address)   // the loader returned a handle
    | OpenFailed(path: string, mode: Mask)                // the loader returned null
    | Closed(handle: Address)

  /** The handle held after the given history: the last one opened and not yet
      closed, or Null. */
  function Held(log: seq<LoaderEvent>): Address
    decreases |log|
  {
    if log == [] then Null
    else match log[|log| - 1]
      case Opened(_, _, h) => h
      case OpenFailed(_, _) => Held(log[..|log| - 1])
      case Closed(_) => Null
  }

  /** The path of the last library opened, whether or not it was closed since;
      "" when none was ever opened. */
  function LastOpenedPath(log: seq<LoaderEvent>): string
    decreases |log|
  {
    if log == [] then ""
    else if log[|log| - 1].Opened? then log[|log| - 1].path
    else LastOpenedPath(log[..|log| - 1])
  }

  /** The path of the library held, "" when none is held. */
  function HeldPath(log: seq<LoaderEvent>): string {
    if Held(log) == Null then "" else LastOpenedPath(log)
  }

  /** Whether event e may follow a history that leaves `held` held: an open
      (successful or not) only when nothing is held, a successful open yields a
      non-null handle, and a close releases exactly the handle held. */
  predicate Permitted(held: Address, e: LoaderEvent) {
    match e
    case Opened(_, _, h) => held == Null && h != Null
    case OpenFailed(_, _) => held == Null
    case Closed(h) => held != Null && h == held
  }

  /** Every event of the history was permitted when it happened. */
  predicate Disciplined(log: seq<LoaderEvent>) {
    forall i :: 0 <= i < |log| ==> Permitted(Held(log[..i]), log[i])
  }

  /** A history stays disciplined under one more event exactly when that event
      is permitted after it. */
  lemma DisciplinedSnoc(log: seq<LoaderEvent>, e: LoaderEvent)
    ensures Disciplined(log + [e]) <==> Disciplined(log) && Permitted(Held(log), e)
  {
    var log' := log + [e];
    assert log'[..|log|] == log;
    assert forall i :: 0 <= i < |log| ==> log'[..i] == log[..i] && log'[i] == log[i];
  }

  /** In a disciplined history, between two successful opens there is a close:
      a handle never silently replaces another. */
  lemma {:induction false} NoOpenWhileHeld(log: seq<LoaderEvent>, i: nat, j: nat)
    requires Disciplined(log)
    requires i < j < |log| && log[i].Opened? && log[j].Opened?
    ensures exists k :: i < k < j && log[k].Closed?
  {
    assert Permitted(Held(log[..j]), log[j]);
    assert Held(log[..i + 1]) != Null by {
      assert log[..i + 1][..i] == log[..i];
      assert Permitted(Held(log[..i]), log[i]);
    }
    ReleasedOnlyByClose(log, i + 1, j);
  }

  /** In a disciplined history, between two closes there is a successful open:
      no handle is released twice. */
  lemma {:induction false} NoDoubleClose(log: seq<LoaderEvent>, i: nat, j: nat)
    requires Disciplined(log)
    requires i < j < |log| && log[i].Closed? && log[j].Closed?
    ensures exists k :: i < k < j && log[k].Opened?
  {
    assert Permitted(Held(log[..j]), log[j]);
    assert Held(log[..i + 1]) == Null by {
      assert log[..i + 1][..i] == log[..i];
    }
    AcquiredOnlyByOpen(log, i + 1, j);
  }

  /** If a handle is held after the first a events and none after the first b,
      one of the events in between is a close. */
  lemma {:induction false} ReleasedOnlyByClose(log: seq<LoaderEvent>, a: nat, b: nat)
    requires Disciplined(log)
    requires a <= b <= |log|
    requires Held(log[..a]) != Null && Held(log[..b]) == Null
    ensures exists k :: a <= k < b && log[k].Closed?
    decreases b - a
  {
    if a == b {
      assert false;
    } else {
      assert log[..b][..b - 1] == log[..b - 1];
      match log[b - 1]
      case Closed(_) =>
      case OpenFailed(_, _) => ReleasedOnlyByClose(log, a, b - 1);
      case Opened(_, _, _) =>
        // a successful open yields a non-null handle
        assert false;
    }
  }

  /** If no handle is held after the first a events and one is after the first
      b, one of the events in between is a successful open. */
  lemma {:induction false} AcquiredOnlyByOpen(log: seq<LoaderEvent>, a: nat, b: nat)
    requires a <= b <= |log|
    requires Held(log[..a]) == Null && Held(log[..b]) != Null
    ensures exists k :: a <= k < b && log[k].Opened?
    decreases b - a
  {
    if a == b {
      assert false;
    } else {
      assert log[..b][..b - 1] == log[..b - 1];
      match log[b - 1]
      case Opened(_, _, _) =>
      case OpenFailed(_, _) => AcquiredOnlyByOpen(log, a, b - 1);
      case Closed(_) => assert false;
    }
  }
}
