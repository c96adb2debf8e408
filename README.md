# SafeCounter, modelled in Dafny

SafeCounter is a small Soroban smart contract. Every user address owns one `u32`
counter, kept in the contract's persistent storage under the tagged key
`DataKey::Counter(user)`. The contract has three functions:

- `increment(user, value)` first needs the user's authorisation for this exact
  call. It rejects `value > MAX` (`MAX = 10`) with `Error::MaxValueExceeded`.
  Otherwise it reads the stored count (an absent key reads as 0) and adds `value`
  with `AdditionContract::add`. It stores the sum, publishes an `increment`
  event and returns the sum.
- `get_count(user)` needs the user's authorisation and returns the stored count,
  or 0.
- `get_max()` returns `MAX`.

The project has three modules:

- `Host` (`host.dfy`) holds what an invocation can produce. A call returns a
  value, or it aborts (a failed `require_auth`, or a panic). An abort undoes the
  whole invocation.
- `AdditionContract` (`addition_contract.dfy`) holds the `u32` newtype and `Add`.
- `SafeCounter` (`safe_counter.dfy`) holds the error, key, invocation and event
  types. It also holds two pure specifications:
  - `IncrementSpec` is a transition on a `Ledger`, which is storage plus events.
  - `GetCountSpec` reads a count.

  The class `Contract` holds the storage as a `map<DataKey, u32>` field and the
  published events as a ghost log. Its methods `Increment` and `GetCount` follow
  the Rust bodies step by step, and each one is proved against its
  specification. The lemmas state the contract's behaviour for one call and for
  a sequence of calls.

Authorisation is an explicit argument, `approved: set<Invocation>`. It holds the
invocations (function and arguments) that the host accepts the user's
authorisation for. `require_auth()` succeeds exactly when the current invocation
is in that set.

The addition `a + b` on `u32` has no overflow guard. The model treats an
overflow as a panic, which aborts the invocation with no state change.
`AdditionContract.Add` returns `Aborted(Overflow)` in that case. It has no
precondition.

## The bound and the stored count

The comment at `src/lib.rs:50` calls `MAX` "the upper limit for the counter".
The check at `src/lib.rs:88` only bounds the amount of each increment, not the
count it produces. The model follows the code:

- Stored counts grow past `MAX`. `BoundIsOnAmountNotTotal` shows 4 then 7
  giving 11.
- Every `u32` value can be reached as a stored count (`StoredCountUnbounded`).
- So the unguarded `u32` addition can overflow (`OverflowIsReachable`).

## Model

| member | source | states |
|---|---|---|
| `AdditionContract.AddIsExactSum` | src/addition_contract.rs:16-18 | `add(a, b)` returns exactly the mathematical sum `a + b` whenever it fits in `u32`, and aborts with an overflow exactly when it does not |
| `AdditionContract.Add` | src/addition_contract.rs:16-18 | `add` can fail only by overflow, and a sum it returns never wraps around: it is at least as large as each operand |
| `AdditionContract.AddZero` | src/addition_contract.rs:17 | `add(a, 0)` never overflows and returns `a` |
| `SafeCounter.IncrementSpec` | src/lib.rs:68-112 | the `increment` transition. Only a call that returns `Ok` changes storage or events. No stored key and no published event is ever removed, and at most one event is added. The call aborts for lack of authorisation exactly when the user did not authorise `increment(user, value)` |
| `SafeCounter.GetCountSpec` | src/lib.rs:113-125 | `get_count` returns exactly when the user authorised `get_count(user)`, and a missing authorisation is the only way it fails |
| `SafeCounter.GetMax` | src/lib.rs:126-129 | `get_max()` is the constant 10, with no authorisation and no storage access |
| `SafeCounter.Contract.constructor` | src/lib.rs:61-62 | a freshly deployed contract has empty storage and has published no events |
| `SafeCounter.Contract.Increment` | src/lib.rs:68-112 | the result, the new storage and the new event log are exactly those of the transition `IncrementSpec` on the old storage and log |
| `SafeCounter.Contract.GetCount` | src/lib.rs:113-125 | the result is exactly `GetCountSpec` on the current storage. It returns exactly when the user authorised `get_count(user)`, and then returns the stored count, which is 0 when no count is stored. Storage is not modified |
| `SafeCounter.IncrementRejectsAboveMax` | src/lib.rs:88-109 | an amount above `MAX` leaves storage and events unchanged, and an authorised call returns `Err(MaxValueExceeded)` |
| `SafeCounter.IncrementAccepts` | src/lib.rs:88-106 | an authorised amount `<= MAX` returns `Ok(old + value)`, where `old` is the stored count or 0. It stores that value under `Counter(user)` and appends one `("increment", user, value)` event with the new count. It aborts with no change exactly when the sum overflows `u32` |
| `SafeCounter.IncrementFrame` | src/lib.rs:91-100 | `increment` changes no key other than `Counter(user)` and never removes a key |
| `SafeCounter.UnauthorisedCallsObserveNothing` | src/lib.rs:78-121 | each call is judged on its own authorisation. An `increment` the user did not authorise aborts with storage and events unchanged, whatever else is authorised. A `get_count` the user did not authorise aborts too (`require_auth` at line 115). Neither outcome depends on what is stored |
| `SafeCounter.AuthorisationIsPerArguments` | src/lib.rs:69-78 | authorising `increment(user, v)` does not authorise an increment with a different user or amount |
| `SafeCounter.IncrementByZero` | src/lib.rs:94-106 | `increment(user, 0)` returns the current count, and the stored count stays the same |
| `SafeCounter.GetCountAfterIncrement` | src/lib.rs:100-124 | after a successful `increment`, `get_count` returns the value that `increment` returned |
| `SafeCounter.GetCountOfNewUser` | src/lib.rs:118-124 | `get_count` for a user with nothing stored returns 0, whatever other users have stored |
| `SafeCounter.GetMaxIsIncrementBound` | src/lib.rs:126-129 | `get_max()` is 10. An authorised `increment` is rejected with `MaxValueExceeded` exactly when its amount exceeds `get_max()` |
| `SafeCounter.Replay` | src/lib.rs:91-100 | a sequence of one user's increments leaves every other user's stored count unchanged |
| `SafeCounter.ReplayAccumulates` | src/lib.rs:94-106 | authorised increments of amounts `<= MAX` add up: the count grows by their sum while that fits in `u32`, and one event is published per call |
| `SafeCounter.RejectionsChangeNothing` | src/lib.rs:88-109 | any number of increments with amounts above `MAX` leave storage and events exactly as they were |
| `SafeCounter.BoundIsOnAmountNotTotal` | src/lib.rs:88-100 | from fresh storage, increments of 4 and then 7 both succeed and store 11, which is above `MAX` |
| `SafeCounter.StoredCountUnbounded` | src/lib.rs:88-100 | for every `u32` value `c`, some sequence of accepted increments, each at most `MAX`, takes fresh storage to exactly `c` |
| `SafeCounter.OverflowIsReachable` | src/lib.rs:94-97 | some sequence of accepted increments reaches `u32::MAX`. After it, `increment(user, 1)` aborts on overflow and changes nothing |
| `SafeCounter.Scenarios` | src/lib.rs:68-125 | a verified method makes example calls on a fresh contract. Alice gets 4 then 11. Bob's 11 is rejected and he reads 0. Alice's 0 returns 11. Carol reads 0. An increment of Alice's counter that she did not authorise aborts, and she still reads 11 |

## Left out

- The Soroban SDK machinery is not modelled: `Env`, the `#[contract]`, `#[contractimpl]`, `#[contracttype]` and `#[contracterror]` macros, and the `Val` conversions they generate. This is host serialisation, not contract logic.
- The internals of `require_auth` are not modelled: signature checks, replay prevention and account policies. They belong to the host. The model takes the host's verdict as the `approved` argument.
- Event delivery is host I/O. The model only appends `("increment", user, value, count)` to a ghost log.
- The commented-out `History(Address)` key and the commented-out `require_auth_for_args` alternatives are not live code.
- The `test` module of `src/lib.rs` is not part of this model.
- The import of a trait named `Sum` at `src/lib.rs:17` is not modelled, because no such trait exists (the trait is `AdditionTrait`). The call at `src/lib.rs:97` is modelled as `Add(count, value)`.
- Concurrency and storage atomicity are not modelled. The host runs each invocation on its own, and a whole invocation is treated as one step.
- The time-to-live of persistent entries is not modelled. It is host state that the contract never touches.
- `AdditionContract.Add`: wrap-around is not modelled. Builds without overflow checks would wrap instead of panicking; the model commits to the panic, which aborts the invocation.
