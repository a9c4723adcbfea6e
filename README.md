# laravel-actions core: connection scope and argument name

This project models two pieces of the laravel-actions package, a runner for
one-off "action" scripts built on Laravel's migration machinery.

- **`Migrator::usingConnection`** (`migrator.dfy`, module `ConnectionScope`).
  The migrator holds one mutable slot, the default database connection. The
  method reads the slot, sets it to `$name`, runs the callback, and then, through
  `tap($callback(), fn () => setConnection($prev))`, puts the previous value back
  and returns the callback's value. The class `Migrator` has the slot as its
  `current` field. `UsingConnection` is a method with `modifies this`.
  - A callback is a `Callback` value. `Query(work)` is ordinary work: a
    function from the active connection to `Ok(value)` or `Err(error)`, where
    `Err` stands for a PHP exception. `Using(name, body)` is a callback whose
    work is a nested `usingConnection` call. `Switch(name, body)` is a
    callback that calls `setConnection(name)` itself and then goes on with
    `body`.
  - Two proof-only ghost logs record what happened. `seen` holds the default
    each piece of work ran under. `writes` holds every value stored into the
    slot.
  - `Invoke`, `UsingConnection` and `UsingConnectionGuarded` are proved
    against `Exec` and `Scope`; `SetConnection` states the new slot and logs
    directly. The properties are proved about `Exec` and `Scope`.
  - `tap` gets the callback's value as an argument, so `$callback()` runs
    before the restoring closure exists. When the callback throws, the
    closure is never called and the slot stays switched. The model keeps that
    behaviour (`Restore.AfterReturn`): when the callback throws, the code does
    not restore the previous default. This gap is recorded under "## Findings".
    A `finally`-style variant (`Restore.OnEveryExit`,
    `Migrator.UsingConnectionGuarded`) is modelled next to it.
  - The framework's `setConnection` is modelled as "assign the slot"
    (`Migrator.SetConnection`). The default that `resolver->getDefaultConnection()`
    reads and the value `setConnection` writes are treated as the same slot.
- **`Argumentable::argumentName`** (`argument_name.dfy`, module `ArgumentName`).
  The command's `name` argument is cast to a string, so `null` becomes `""`.
  It is then passed to PHP's `trim`, which strips space, tab, LF, CR, NUL and
  vertical tab from both ends. `Trim` scans forward for the first character
  to keep (`SkipLeading`), then backward, never below that point, for the
  last one (`SkipTrailing`), and returns the infix between them. The lemmas give a characterisation that does not depend on
  how `Trim` is computed (`TrimUnique`), and derive idempotence and the edge
  cases from it.

## Model

| member | source | states |
|---|---|---|
| `ConnectionScope.Migrator.UsingConnection` | src/Support/Migrator.php:12-21 | The callback's work runs exactly once, under `Active(name, callback)`: `name` for plain work. The return value is the work's own outcome. On success the slot is back to its value at entry. On failure it stays at the connection the failing work ran under. New state and result equal `Scope(AfterReturn, …)`. |
| `ConnectionScope.Migrator.SetConnection` | src/Support/Migrator.php:16 | The slot holds `name` afterwards. The write is appended to the write log. Nothing else changes. |
| `ConnectionScope.Migrator.Invoke` | src/Support/Migrator.php:18 | Running a callback (`$callback()`) changes the slot, the logs and the result exactly as `Exec` describes. |
| `ConnectionScope.Exec` | src/Support/Migrator.php:18 | For any callback, however nested: the work runs exactly once, under the innermost connection set on its way to the work (`Active`), and its outcome comes back unchanged. A normal return leaves the slot where the callback's own `setConnection` calls put it (`Leaves`); nested scopes leave it as they found it. Under the source's ordering, a failure leaves the slot at the connection the failing work saw, and the only writes are those made on the way in (`EntryWrites`). |
| `ConnectionScope.Scope` | src/Support/Migrator.php:14-20 | The first write is `name`. The work sees `Active(name, body)`: `name` itself for plain work, or the innermost connection the body sets. The outcome is the work's. On success the last write is the captured previous value and the slot ends there, even if the body switched it. On failure under `tap` ordering the slot stays where the failing work ran, and the writes are `name` followed by the body's entry writes only: nothing is restored. |
| `ConnectionScope.ScopeOfQuery` | src/Support/Migrator.php:14-20 | For plain work: it sees `name` and its outcome is returned. Success writes `[name, prev]` and ends at `prev`. Failure writes only `[name]` and ends at `name`. |
| `ConnectionScope.NestedScopesRestoreRelatively` | src/Support/Migrator.php:14-19 | An inner scope that succeeds restores to the outer `name`, the default at its own entry. The outer scope then restores to the original. The write log is outer's `name`, then the inner log, then the original. |
| `ConnectionScope.NestedQueryWrites` | src/Support/Migrator.php:14-19 | Two nested scopes around successful work write `outer, inner, outer, original`. The work sees `inner`. |
| `ConnectionScope.SameConnectionKeepsSlot` | src/Support/Migrator.php:14-19 | When `name` is already the default, every write stores that same value. The slot still holds it afterwards, on success or failure. |
| `ConnectionScope.FailureLeavesSlotSwitched` | src/Support/Migrator.php:18-20 | When the work fails under a `name` that differs from the previous default, the slot does not end at the previous default. |
| `ConnectionScope.CallbackSwitchUndoneOnlyOnReturn` | src/Support/Migrator.php:16-20 | A callback that itself switches to `other`: its work sees `other`. On success `tap` still puts back the previous default (writes `name, other, prev`). On failure the slot stays at `other` (writes `name, other`). |
| `ConnectionScope.GuardedSameOutcome` | src/Support/Migrator.php:18 | For every callback, moving the restore into a `finally` block leaves what the callback returns or throws unchanged. |
| `ConnectionScope.GuardedScopeAlwaysRestores` | src/Support/Migrator.php:18-20 | With the restore in a `finally` block, every callback leaves the slot as found, nested or not, on success or failure. Its outcome equals the as-written one. |
| `ConnectionScope.Migrator.UsingConnectionGuarded` | src/Support/Migrator.php:12-21 | The `finally` variant of `usingConnection`. The slot equals its value at entry on every exit path. The work runs once and its outcome is returned. |
| `ArgumentName.SkipLeading` | src/Traits/Argumentable.php:12 | The forward scan stops at the first non-trim character at or after its start, or at the end of the input. Everything it skipped is a trim character. |
| `ArgumentName.SkipTrailing` | src/Traits/Argumentable.php:12 | The backward scan stops just after the last non-trim character above its lower bound, or at that bound. Everything it stepped back over is a trim character. |
| `ArgumentName.Trim` | src/Traits/Argumentable.php:12 | The result has no trim character at either end. The input is a prefix of trim characters, then the result, then a suffix of trim characters. |
| `ArgumentName.ArgumentName` | src/Traits/Argumentable.php:8-13 | The returned name has no trim character at either end. The cast argument (`null` cast to `""`) is a trim-only prefix, then the name, then a trim-only suffix. An absent argument gives `""`. |
| `ArgumentName.TrimUnique` | src/Traits/Argumentable.php:12 | Any split of the input into trim-only prefix, middle and trim-only suffix, where the middle has no trim character at its ends, has `Trim` equal to that middle. |
| `ArgumentName.TrimIdempotent` | src/Traits/Argumentable.php:12 | Trimming the result again gives the same result. |
| `ArgumentName.TrimKeepsTrimmed` | src/Traits/Argumentable.php:12 | An input with no trim character at either end comes back unchanged. |
| `ArgumentName.TrimAllTrim` | src/Traits/Argumentable.php:12 | An input made only of trim characters gives `""`. |
| `ArgumentName.TrimKeepsInterior` | src/Traits/Argumentable.php:12 | The stretch between any two non-trim characters of the input occurs whole in the result, interior whitespace included, shifted left by the length of the cut prefix. |
| `ArgumentName.ArgumentNameCases` | src/Traits/Argumentable.php:10-12 | An absent argument gives `""`. An all-trim-character argument gives `""`. An already trimmed argument is returned as is. |

## Left out

- The `Infoable` trait (src/Support/Migrator.php:5,10) is not part of this model. Its code is not part of the sources modelled here.
- The console lookup `$this->argument('name')` is an input parameter (`Argument`). Its value is absent or a string.
- `AsString` models `null` and strings; other values (arrays, ints, floats, bools passed programmatically) and their casts are not modelled.
- PHP strings are byte strings, and the model works on `char`. All six trim characters are ASCII, so stripping them from the ends does the same thing on bytes.
- The inherited framework migrator is not part of this model: the resolver, the migration repository, batch numbering, and run and rollback. Only the slot assignment done by `setConnection` is modelled. So the ledger and runner behaviour (pending set, ordering, batches, rollback) has no model here.
- Callback: a callback is one chain of `setConnection` calls and nested `usingConnection` calls ending in a single piece of work. A callback that runs several pieces of work, or several nested scopes one after another, is not modelled. The "runs exactly once" and failure-path statements are about that one chain.
- PHP exceptions are `Err` outcomes, not control flow. The model covers one thread and one slot, with no concurrent access.
- The test harness (tests/TestCase.php) and the scaffolding test (tests/Commands/MakeTest.php) are left out. They are filesystem and clock I/O.

## Findings

| source | as written | input that shows it | evidently intended | confidence | as-written member | corrected member |
|---|---|---|---|---|---|---|
| src/Support/Migrator.php:18-20 | `tap($callback(), restore)` evaluates the callback before the restoring closure is handed over, so the default is put back only when the callback returns normally | default `"mysql"`, `usingConnection("pgsql", cb)` where `cb` throws: the default stays `"pgsql"` after the exception propagates | the previous default is restored on every exit path (`try { … } finally { setConnection($prev) }`) | medium; not executed | `ConnectionScope.FailureLeavesSlotSwitched` | `ConnectionScope.Migrator.UsingConnectionGuarded` |
