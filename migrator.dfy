/** The action migrator's connection scope: `usingConnection(name, callback)`
    remembers the default connection, makes `name` the default, runs the
    callback and, through `tap`, sets the default back and returns the
    callback's value. The `tap` call receives the callback's value as an
    argument, so a callback that throws never reaches the restoring closure:
    the default then stays where the failure left it. */
module ConnectionScope {

  /** A callback's completion: a value, or a thrown exception. */
  datatype Outcome<T, E> = Ok(value: T) | Err(error: E)

  /** A callback handed to `usingConnection`. `Query` is ordinary work, which
      sees the default connection active when it runs and does not touch the
      slot; `Using` is a callback whose work is itself a nested
      `usingConnection(name, body)` call; `Switch` is a callback that calls
      `setConnection(name)` itself and then goes on with `body`. */
  datatype Callback<T, E> =
    | Query(work: string -> Outcome<T, E>)
    | Using(name: string, body: Callback<T, E>)
    | Switch(name: string, body: Callback<T, E>)

  /** When the previous default is put back. `AfterReturn` is the source's
      `tap($callback(), restore)`: only once the callback has returned.
      `OnEveryExit` is a `try { … } finally { restore }` block. */
  datatype Restore = AfterReturn | OnEveryExit

  /** What running a callback amounts to: the default connection afterwards,
      the outcome, the default seen by each run of ordinary work, and every
      value written to the default slot, in order. */
  datatype Run<T, E> = Run(slot: string, result: Outcome<T, E>, seen: seq<string>, writes: seq<string>)

  /** The ordinary work a callback ends up running, however deeply nested. */
  function Work<T, E>(cb: Callback<T, E>): string -> Outcome<T, E> {
    match cb
    case Query(w) => w
    case Using(_, b) => Work(b)
    case Switch(_, b) => Work(b)
  }

  /** The default a callback's work runs under when the callback starts with
      `slot` as the default: the innermost `usingConnection` or
      `setConnection` name on its way to the work, or `slot` when there is
      none. */
  function Active<T, E>(slot: string, cb: Callback<T, E>): string
    decreases cb
  {
    match cb
    case Query(_) => slot
    case Using(n, b) => Active(n, b)
    case Switch(n, b) => Active(n, b)
  }

  /** The default a callback leaves behind when it returns: its own
      `setConnection` calls stick, nested scopes put back what they found. */
  function Leaves<T, E>(slot: string, cb: Callback<T, E>): string
    decreases cb
  {
    match cb
    case Query(_) => slot
    case Using(_, _) => slot
    case Switch(n, b) => Leaves(n, b)
  }

  /** The writes a callback makes on its way to failing work when no scope
      puts anything back: one per `usingConnection` or `setConnection` it
      passes through, outermost first. */
  function EntryWrites<T, E>(cb: Callback<T, E>): seq<string> {
    match cb
    case Query(_) => []
    case Using(n, b) => [n] + EntryWrites(b)
    case Switch(n, b) => [n] + EntryWrites(b)
  }

  /** Runs a callback with `slot` as the default connection. The work runs
      exactly once, under the connection `Active` names, and its outcome is passed on
      unchanged. A callback that returns leaves the default where its own
      `setConnection` calls put it; one that fails leaves it, under the
      source's ordering, at the connection the failing work ran under, and
      nothing was written back on the way out. */
  function Exec<T, E>(restore: Restore, slot: string, cb: Callback<T, E>): (r: Run<T, E>)
    ensures r.seen == [Active(slot, cb)] && r.result == Work(cb)(r.seen[0])
    ensures r.result.Ok? || restore == OnEveryExit ==> r.slot == Leaves(slot, cb)
    ensures restore == AfterReturn && r.result.Err? ==>
      r.slot == r.seen[0] && r.writes == EntryWrites(cb)
    decreases cb, 0
  {
    match cb
    case Query(w) => Run(slot, w(slot), [slot], [])
    case Using(n, b) => Scope(restore, slot, n, b)
    case Switch(n, b) =>
      var inner := Exec(restore, n, b);
      Run(inner.slot, inner.result, inner.seen, [n] + inner.writes)
  }

  /** `usingConnection(name, body)` entered while `slot` is the default.
      The first write makes `name` the default; the body then runs under it
      (directly, for ordinary work); when the previous default is put back it
      is the last write, and the default ends as it was at entry, whatever
      the body did to it. When a failure skips the restore, the writes are
      only those made on the way in. */
  function Scope<T, E>(restore: Restore, slot: string, name: string, body: Callback<T, E>): (r: Run<T, E>)
    ensures r.seen == [Active(name, body)] && r.result == Work(body)(r.seen[0])
    ensures body.Query? ==> r.seen == [name]
    ensures r.writes != [] && r.writes[0] == name
    ensures r.result.Ok? || restore == OnEveryExit ==>
      r.slot == slot && r.writes[|r.writes| - 1] == slot
    ensures restore == AfterReturn && r.result.Err? ==>
      r.slot == r.seen[0] && r.writes == [name] + EntryWrites(body)
    decreases body, 1
  {
    var inner := Exec(restore, name, body);
    if inner.result.Ok? || restore == OnEveryExit then
      Run(slot, inner.result, inner.seen, [name] + inner.writes + [slot])
    else
      Run(inner.slot, inner.result, inner.seen, [name] + inner.writes)
  }

  /** With ordinary work as the callback: the work sees `name`; on success
      the default is back to what it was, on failure it stays `name`, and
      the outcome is the work's own. */
  lemma ScopeOfQuery<T, E>(slot: string, name: string, work: string -> Outcome<T, E>)
    ensures var r := Scope(AfterReturn, slot, name, Query(work));
      r.seen == [name] && r.result == work(name) &&
      (work(name).Ok? ==> r.slot == slot && r.writes == [name, slot]) &&
      (work(name).Err? ==> r.slot == name && r.writes == [name])
  {
  }

  /** Nested scopes restore relative to the enclosing state: the inner call
      puts back the outer `name` (the default at its entry), then the outer
      call puts back the original. */
  lemma NestedScopesRestoreRelatively<T, E>(slot: string, outer: string, inner: string, body: Callback<T, E>)
    ensures var o := Scope(AfterReturn, slot, outer, Using(inner, body));
            var i := Scope(AfterReturn, outer, inner, body);
      o.result == i.result &&
      (o.result.Ok? ==>
        i.slot == outer && i.writes[|i.writes| - 1] == outer &&
        o.slot == slot && o.writes == [outer] + i.writes + [slot])
  {
    assert Exec(AfterReturn, outer, Using(inner, body)) == Scope(AfterReturn, outer, inner, body);
  }

  /** Two nested scopes around ordinary work that succeeds: the default goes
      outer, inner, back to outer, back to the original. */
  lemma NestedQueryWrites<T, E>(slot: string, outer: string, inner: string, work: string -> Outcome<T, E>)
    requires work(inner).Ok?
    ensures var o := Scope(AfterReturn, slot, outer, Using(inner, Query(work)));
      o.seen == [inner] && o.slot == slot && o.writes == [outer, inner, outer, slot]
  {
    NestedScopesRestoreRelatively(slot, outer, inner, Query(work));
  }

  /** Switching to the connection that is already the default never changes
      the slot: every write stores the same value, and it is still there
      afterwards, whether the work succeeds or fails. */
  lemma SameConnectionKeepsSlot<T, E>(restore: Restore, slot: string, work: string -> Outcome<T, E>)
    ensures var r := Scope(restore, slot, slot, Query(work));
      r.slot == slot && r.seen == [slot] &&
      forall i :: 0 <= i < |r.writes| ==> r.writes[i] == slot
  {
  }

  /** The source's ordering in one instance: work that fails under `name`
      leaves `name` as the default, not the connection active before. */
  lemma FailureLeavesSlotSwitched<T, E>(slot: string, name: string, work: string -> Outcome<T, E>)
    requires slot != name && work(name).Err?
    ensures Scope(AfterReturn, slot, name, Query(work)).slot != slot
  {
  }

  /** A callback that switches the default itself: `tap` still puts back the
      connection captured at entry when the callback returns, but after a
      failure the callback's own switch stays in force. */
  lemma CallbackSwitchUndoneOnlyOnReturn<T, E>(slot: string, name: string, other: string, work: string -> Outcome<T, E>)
    ensures var r := Scope(AfterReturn, slot, name, Switch(other, Query(work)));
      r.seen == [other] && r.result == work(other) &&
      (work(other).Ok? ==> r.slot == slot && r.writes == [name, other, slot]) &&
      (work(other).Err? ==> r.slot == other && r.writes == [name, other])
  {
    var leaf := Exec(AfterReturn, other, Query(work));
    assert leaf == Run(other, work(other), [other], []);
    var inner := Exec(AfterReturn, name, Switch(other, Query(work)));
    assert inner == Run(other, work(other), [other], [other]);
  }

  /** With the restore in a `finally` block, every callback, nested or not,
      successful or not, leaves the default as it found it. */
  lemma GuardedScopeAlwaysRestores<T, E>(slot: string, name: string, body: Callback<T, E>)
    ensures Scope(OnEveryExit, slot, name, body).slot == slot
    ensures Scope(OnEveryExit, slot, name, body).result == Scope(AfterReturn, slot, name, body).result
  {
    GuardedSameOutcome(name, body);
  }

  /** Moving the restore into a `finally` block changes where the default
      ends up after a failure, never what a callback returns or throws. */
  lemma {:induction false} GuardedSameOutcome<T, E>(slot: string, cb: Callback<T, E>)
    ensures Exec(OnEveryExit, slot, cb).result == Exec(AfterReturn, slot, cb).result
    decreases cb
  {
    match cb
    case Query(_) =>
    case Using(n, b) => GuardedSameOutcome(n, b);
    case Switch(n, b) => GuardedSameOutcome(n, b);
  }

  /** Appending in two steps is appending the joined pieces once. */
  lemma Regroup<X>(a: seq<X>, b: seq<X>, c: seq<X>)
    ensures a + b + c == a + (b + c)
  {
  }

  /** The migrator's state that `usingConnection` touches: the default
      connection slot. `seen` and `writes` are proof-only logs of what the
      callbacks observed and of every `setConnection` call. */
  class Migrator {
    var current: string
    ghost var seen: seq<string>
    ghost var writes: seq<string>

    constructor (default: string)
      ensures current == default && seen == [] && writes == []
    {
      current := default;
      seen := [];
      writes := [];
    }

    /** The framework's `setConnection`, as far as this model goes: assign
        the slot. */
    method SetConnection(name: string)
      modifies this
      ensures current == name && writes == old(writes) + [name]
      ensures seen == old(seen)
    {
      current := name;
      writes := writes + [name];
    }

    /** Runs a callback against the current default. */
    method Invoke<T, E>(cb: Callback<T, E>, restore: Restore) returns (r: Outcome<T, E>)
      modifies this
      ensures var run := Exec(restore, old(current), cb);
        r == run.result && current == run.slot &&
        seen == old(seen) + run.seen && writes == old(writes) + run.writes
      decreases cb, 0
    {
      match cb
      case Query(w) =>
        r := w(current);
        seen := seen + [current];
      case Using(n, b) =>
        if restore == AfterReturn {
          r := UsingConnection(n, b);
        } else {
          r := UsingConnectionGuarded(n, b);
        }
      case Switch(n, b) =>
        SetConnection(n);
        r := Invoke(b, restore);
    }

    /** `Migrator::usingConnection`: capture the default, switch to `name`,
        run the callback, and put the captured default back only when the
        callback has returned. */
    method UsingConnection<T, E>(name: string, callback: Callback<T, E>) returns (r: Outcome<T, E>)
      modifies this
      ensures var run := Scope(AfterReturn, old(current), name, callback);
        r == run.result && current == run.slot &&
        seen == old(seen) + run.seen && writes == old(writes) + run.writes
      ensures |seen| == |old(seen)| + 1 && r == Work(callback)(seen[|old(seen)|])
      ensures seen[|old(seen)|] == Active(name, callback)
      ensures callback.Query? ==> seen[|old(seen)|] == name
      ensures r.Ok? ==> current == old(current)
      ensures r.Err? ==> current == seen[|old(seen)|]
      decreases callback, 1
    {
      var prev := current;
      ghost var run := Scope(AfterReturn, prev, name, callback);
      ghost var inner := Exec(AfterReturn, name, callback);
      SetConnection(name);
      r := Invoke(callback, AfterReturn);
      Regroup(old(writes), [name], inner.writes);
      if r.Ok? {
        SetConnection(prev);
        Regroup(old(writes), [name] + inner.writes, [prev]);
      }
      assert seen[|old(seen)|] == run.seen[0];
    }

    /** The same scope with the restore in a `finally` block: the captured
        default is put back on every exit path. */
    method UsingConnectionGuarded<T, E>(name: string, callback: Callback<T, E>) returns (r: Outcome<T, E>)
      modifies this
      ensures var run := Scope(OnEveryExit, old(current), name, callback);
        r == run.result && current == run.slot &&
        seen == old(seen) + run.seen && writes == old(writes) + run.writes
      ensures |seen| == |old(seen)| + 1 && r == Work(callback)(seen[|old(seen)|])
      ensures current == old(current)
      decreases callback, 1
    {
      var prev := current;
      ghost var inner := Exec(OnEveryExit, name, callback);
      SetConnection(name);
      r := Invoke(callback, OnEveryExit);
      SetConnection(prev);
      Regroup(old(writes), [name], inner.writes);
      Regroup(old(writes), [name] + inner.writes, [prev]);
    }
  }
}
