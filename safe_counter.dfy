/** The SafeCounter contract: every user address owns one `u32` counter in
    persistent storage, under the key `Counter(user)`. A user may add at most
    `MAX` per call, and each call must be authorised by that user. */
module SafeCounter {
  import opened Host
  import opened AdditionContract

  /** An opaque account or contract address, compared by value. */
  type Address(==, !new)

  /** `Error`: the contract's typed errors (`MaxValueExceeded` has code 0). */
  datatype Error = MaxValueExceeded

  /** `MAX`: the largest amount one `increment` may add. */
  const MAX: u32 := 10

  /** `DataKey`: the tagged keys of persistent storage. */
  datatype DataKey = Counter(user: Address)

  /** A contract invocation with its arguments. `require_auth` authorises the
      current invocation as a whole: the function and every argument. */
  datatype Invocation = IncrementCall(user: Address, value: u32) | GetCountCall(user: Address)

  /** The event `increment` publishes: topics ("increment", user, value), data count. */
  datatype Event = Event(name: string, user: Address, value: u32, count: u32)

  /** The persistent storage of the contract together with the events published so far. */
  datatype Ledger = Ledger(storage: map<DataKey, u32>, events: seq<Event>)

  /** `user.require_auth()` inside `invocation`: the host lets it through exactly
      when it holds the user's authorisation for this invocation. The set
      `approved` stands for the host's verdicts (signatures, replay protection
      and account policies are the host's). */
  predicate RequireAuth(approved: set<Invocation>, invocation: Invocation)
  {
    invocation in approved
  }

  /** The stored count of `user`, a missing key reading as 0. */
  function Stored(storage: map<DataKey, u32>, user: Address): (count: u32)
  {
    if Counter(user) in storage then storage[Counter(user)] else 0
  }

  /** `increment(user, value)` as a transition of the ledger: what the call
      returns and the ledger it leaves behind. Only a call that returns `Ok`
      changes the ledger; it then keeps every stored key and every published
      event and adds at most one event. The call aborts for lack of
      authorisation exactly when the user did not authorise it. */
  function IncrementSpec(l: Ledger, approved: set<Invocation>, user: Address, value: u32)
    : (res: (Call<Result<u32, Error>>, Ledger))
    ensures !(res.0.Returned? && res.0.value.Ok?) ==> res.1 == l
    ensures l.storage.Keys <= res.1.storage.Keys
    ensures l.events <= res.1.events && |res.1.events| <= |l.events| + 1
    ensures res.0 == Aborted(AuthFailed) <==> IncrementCall(user, value) !in approved
  {
    if !RequireAuth(approved, IncrementCall(user, value)) then
      (Aborted(AuthFailed), l)
    else if value <= MAX then
      match Add(Stored(l.storage, user), value)
      case Aborted(reason) => (Aborted(reason), l)
      case Returned(count) =>
        (Returned(Ok(count)),
         Ledger(l.storage[Counter(user) := count], l.events + [Event("increment", user, value, count)]))
    else
      (Returned(Err(MaxValueExceeded)), l)
  }

  /** `get_count(user)`: the stored count of `user`, once the user has
      authorised the call. A missing authorisation is the only way it fails. */
  function GetCountSpec(storage: map<DataKey, u32>, approved: set<Invocation>, user: Address): (r: Call<u32>)
    ensures r.Returned? <==> GetCountCall(user) in approved
    ensures r.Aborted? ==> r.reason == AuthFailed
  {
    if RequireAuth(approved, GetCountCall(user)) then Returned(Stored(storage, user))
    else Aborted(AuthFailed)
  }

  /** `get_max()`: the bound on one increment, the constant 10. It needs no
      authorisation and reads no storage. */
  function GetMax(): (max: u32)
    ensures max == 10
  {
    MAX
  }

  /** The deployed contract: its persistent storage and the log of the events it published. */
  class Contract {
    var persistent: map<DataKey, u32>
    ghost var events: seq<Event>

    /** A freshly deployed contract has stored nothing and published nothing. */
    constructor ()
      ensures persistent == map[] && events == []
    {
      persistent := map[];
      events := [];
    }

    /** `SafeCounter::increment`: authorise, check the amount, read the count,
        add, write the count back, publish, return the count. */
    method Increment(user: Address, value: u32, approved: set<Invocation>)
      returns (r: Call<Result<u32, Error>>)
      modifies this
      ensures (r, Ledger(persistent, events))
           == IncrementSpec(Ledger(old(persistent), old(events)), approved, user, value)
    {
      if !RequireAuth(approved, IncrementCall(user, value)) {
        return Aborted(AuthFailed);
      }
      if value <= MAX {
        var key := Counter(user);
        var count: u32 := if key in persistent then persistent[key] else 0;
        var sum := Add(count, value);
        if sum.Aborted? {
          return Aborted(sum.reason);
        }
        count := sum.value;
        persistent := persistent[key := count];
        events := events + [Event("increment", user, value, count)];
        r := Returned(Ok(count));
      } else {
        r := Returned(Err(MaxValueExceeded));
      }
    }

    /** `SafeCounter::get_count`: authorise, then read the count (0 when absent). */
    method GetCount(user: Address, approved: set<Invocation>) returns (r: Call<u32>)
      ensures r == GetCountSpec(persistent, approved, user)
      ensures r.Returned? <==> GetCountCall(user) in approved
      ensures r.Returned? ==> r.value == Stored(persistent, user)
    {
      if !RequireAuth(approved, GetCountCall(user)) {
        return Aborted(AuthFailed);
      }
      var key := Counter(user);
      var count: u32 := if key in persistent then persistent[key] else 0;
      r := Returned(count);
    }
  }

  // ---------------------------------------------------------------------------
  // Properties of one call

  /** An amount above `MAX` is rejected with `MaxValueExceeded` (once authorised)
      and leaves storage and events as they were. */
  lemma IncrementRejectsAboveMax(l: Ledger, approved: set<Invocation>, user: Address, value: u32)
    requires value > MAX
    ensures IncrementSpec(l, approved, user, value).1 == l
    ensures IncrementCall(user, value) in approved
        ==> IncrementSpec(l, approved, user, value).0 == Returned(Err(MaxValueExceeded))
  {
  }

  /** An authorised amount up to `MAX` returns the old count (0 when absent)
      plus the amount, stores it under `Counter(user)` and publishes one event;
      it aborts only when that sum does not fit in a `u32`. */
  lemma IncrementAccepts(l: Ledger, approved: set<Invocation>, user: Address, value: u32)
    requires IncrementCall(user, value) in approved && value <= MAX
    ensures var (r, l') := IncrementSpec(l, approved, user, value);
      if Stored(l.storage, user) as int + value as int <= U32_MAX then
        && r.Returned? && r.value.Ok?
        && r.value.value as int == Stored(l.storage, user) as int + value as int
        && Counter(user) in l'.storage && l'.storage[Counter(user)] == r.value.value
        && l'.events == l.events + [Event("increment", user, value, r.value.value)]
      else
        r == Aborted(Overflow) && l' == l
  {
    AddIsExactSum(Stored(l.storage, user), value);
  }

  /** `increment` touches only the entry `Counter(user)`: every other key keeps
      its value, and no key is ever removed. */
  lemma IncrementFrame(l: Ledger, approved: set<Invocation>, user: Address, value: u32, k: DataKey)
    requires k != Counter(user)
    ensures var l' := IncrementSpec(l, approved, user, value).1;
      && l.storage.Keys <= l'.storage.Keys
      && (k in l'.storage <==> k in l.storage)
      && (k in l.storage ==> l'.storage[k] == l.storage[k])
  {
  }

  /** Authorisation comes before any storage access: without it `increment`
      aborts, whatever is stored, and changes nothing; its outcome does not
      depend on the ledger, so an unauthorised caller learns nothing from it.
      The same holds for `get_count`. */
  lemma UnauthorisedCallsObserveNothing(l1: Ledger, l2: Ledger, approved: set<Invocation>, user: Address, value: u32)
    ensures IncrementCall(user, value) !in approved
        ==> IncrementSpec(l1, approved, user, value) == (Aborted(AuthFailed), l1)
    ensures IncrementCall(user, value) !in approved
        ==> IncrementSpec(l1, approved, user, value).0 == IncrementSpec(l2, approved, user, value).0
    ensures GetCountCall(user) !in approved
        ==> GetCountSpec(l1.storage, approved, user) == GetCountSpec(l2.storage, approved, user) == Aborted(AuthFailed)
  {
  }

  /** Authorisation is bound to the arguments: approving `increment(user, v)`
      does not authorise an increment by another amount or for another user. */
  lemma AuthorisationIsPerArguments(l: Ledger, user: Address, other: Address, v: u32, w: u32)
    requires (other, w) != (user, v)
    ensures IncrementSpec(l, {IncrementCall(user, v)}, other, w) == (Aborted(AuthFailed), l)
  {
  }

  /** `increment(user, 0)` returns the current count and leaves it unchanged
      (an absent key is written as an explicit 0). */
  lemma IncrementByZero(l: Ledger, approved: set<Invocation>, user: Address)
    requires IncrementCall(user, 0) in approved
    ensures var (r, l') := IncrementSpec(l, approved, user, 0);
      r == Returned(Ok(Stored(l.storage, user))) && Stored(l'.storage, user) == Stored(l.storage, user)
  {
    AddZero(Stored(l.storage, user));
  }

  /** `get_count` after a successful `increment` reads back what `increment` returned. */
  lemma GetCountAfterIncrement(l: Ledger, approved: set<Invocation>, user: Address, value: u32)
    requires GetCountCall(user) in approved
    requires IncrementSpec(l, approved, user, value).0.Returned?
    requires IncrementSpec(l, approved, user, value).0.value.Ok?
    ensures GetCountSpec(IncrementSpec(l, approved, user, value).1.storage, approved, user)
         == Returned(IncrementSpec(l, approved, user, value).0.value.value)
  {
  }

  /** A user with no stored count reads 0, whatever other users have stored. */
  lemma GetCountOfNewUser(storage: map<DataKey, u32>, approved: set<Invocation>, user: Address)
    requires GetCountCall(user) in approved
    requires Counter(user) !in storage
    ensures GetCountSpec(storage, approved, user) == Returned(0)
  {
  }

  /** `get_max` is the bound `increment` enforces: an authorised amount is
      rejected exactly when it exceeds `get_max()`. */
  lemma GetMaxIsIncrementBound(l: Ledger, approved: set<Invocation>, user: Address, value: u32)
    requires IncrementCall(user, value) in approved
    ensures GetMax() == 10
    ensures IncrementSpec(l, approved, user, value).0 == Returned(Err(MaxValueExceeded)) <==> value > GetMax()
  {
  }

  // ---------------------------------------------------------------------------
  // Properties of a sequence of calls

  /** The sum of a sequence of amounts. */
  function Sum(values: seq<u32>): (total: int)
    ensures total >= 0
  {
    if values == [] then 0 else values[0] as int + Sum(values[1..])
  }

  /** The ledger after `user` calls `increment` with each amount in `values`, in order. */
  function Replay(l: Ledger, approved: set<Invocation>, user: Address, values: seq<u32>): (l': Ledger)
    ensures forall u :: u != user ==> Stored(l'.storage, u) == Stored(l.storage, u)
    decreases |values|
  {
    if values == [] then l
    else Replay(IncrementSpec(l, approved, user, values[0]).1, approved, user, values[1..])
  }

  /** Repeated authorised increments of amounts up to `MAX` accumulate: the
      count grows by the sum of the amounts (while that fits in a `u32`) and
      one event is published per call. */
  lemma {:induction false} ReplayAccumulates(l: Ledger, approved: set<Invocation>, user: Address, values: seq<u32>)
    requires forall i :: 0 <= i < |values| ==> values[i] <= MAX && IncrementCall(user, values[i]) in approved
    requires Stored(l.storage, user) as int + Sum(values) <= U32_MAX
    ensures Stored(Replay(l, approved, user, values).storage, user) as int == Stored(l.storage, user) as int + Sum(values)
    ensures |Replay(l, approved, user, values).events| == |l.events| + |values|
    decreases |values|
  {
    if values != [] {
      var l1 := IncrementSpec(l, approved, user, values[0]).1;
      IncrementAccepts(l, approved, user, values[0]);
      ReplayAccumulates(l1, approved, user, values[1..]);
    }
  }

  /** Rejection is idempotent: any number of increments with amounts above
      `MAX` leave the ledger exactly as it was. */
  lemma {:induction false} RejectionsChangeNothing(l: Ledger, approved: set<Invocation>, user: Address, values: seq<u32>)
    requires forall i :: 0 <= i < |values| ==> values[i] > MAX
    ensures Replay(l, approved, user, values) == l
    decreases |values|
  {
    if values != [] {
      IncrementRejectsAboveMax(l, approved, user, values[0]);
      RejectionsChangeNothing(l, approved, user, values[1..]);
    }
  }

  /** The bound applies to each amount, not to the total: from a fresh
      contract, increments of 4 and then 7 both succeed and leave 11 > MAX. */
  lemma BoundIsOnAmountNotTotal(approved: set<Invocation>, user: Address)
    requires IncrementCall(user, 4) in approved && IncrementCall(user, 7) in approved
    ensures var (r1, l1) := IncrementSpec(Ledger(map[], []), approved, user, 4);
      var (r2, l2) := IncrementSpec(l1, approved, user, 7);
      && r1 == Returned(Ok(4)) && r2 == Returned(Ok(11))
      && Stored(l2.storage, user) == 11 > MAX
  {
  }

  /** `n` amounts of 10 each. */
  function Tens(n: nat): (s: seq<u32>)
    ensures |s| == n && forall i :: 0 <= i < n ==> s[i] == 10
  {
    if n == 0 then [] else [10] + Tens(n - 1)
  }

  lemma {:induction false} SumOfTens(n: nat)
    ensures Sum(Tens(n)) == 10 * n
  {
    if n > 0 {
      SumOfTens(n - 1);
    }
  }

  /** No stored count is out of reach: for every `u32` value `c` there is a
      sequence of accepted increments, each at most `MAX`, that takes a fresh
      contract to exactly `c`. */
  lemma StoredCountUnbounded(approved: set<Invocation>, user: Address, c: u32) returns (values: seq<u32>)
    requires forall v: u32 :: v <= MAX ==> IncrementCall(user, v) in approved
    ensures forall i :: 0 <= i < |values| ==> values[i] <= MAX
    ensures Stored(Replay(Ledger(map[], []), approved, user, values).storage, user) == c
  {
    values := [(c as int % 10) as u32] + Tens(c as int / 10);
    SumOfTens(c as int / 10);
    assert values[1..] == Tens(c as int / 10);
    ReplayAccumulates(Ledger(map[], []), approved, user, values);
  }

  /** Overflow is reachable: after enough accepted increments the stored count
      is `u32::MAX`, and one more increment of 1 aborts and changes nothing. */
  lemma OverflowIsReachable(approved: set<Invocation>, user: Address) returns (values: seq<u32>)
    requires forall v: u32 :: v <= MAX ==> IncrementCall(user, v) in approved
    ensures forall i :: 0 <= i < |values| ==> values[i] <= MAX
    ensures var l := Replay(Ledger(map[], []), approved, user, values);
      IncrementSpec(l, approved, user, 1) == (Aborted(Overflow), l)
  {
    values := StoredCountUnbounded(approved, user, U32_MAX as u32);
  }

  // ---------------------------------------------------------------------------
  // Example calls against the class

  /** A sequence of example calls on a fresh contract: Alice adds 4 and then 7
      (both accepted, 11 in total), Bob's 11 is rejected and leaves him at 0,
      Alice's 0 changes nothing, Carol reads 0, and an increment of Alice's
      counter that she did not authorise aborts. */
  method Scenarios(alice: Address, bob: Address, carol: Address)
    returns (first: Call<Result<u32, Error>>, second: Call<Result<u32, Error>>,
             rejected: Call<Result<u32, Error>>, bobCount: Call<u32>,
             zero: Call<Result<u32, Error>>, carolCount: Call<u32>,
             forged: Call<Result<u32, Error>>, aliceCount: Call<u32>)
    requires alice != bob && alice != carol && bob != carol
    ensures first == Returned(Ok(4)) && second == Returned(Ok(11))
    ensures rejected == Returned(Err(MaxValueExceeded)) && bobCount == Returned(0)
    ensures zero == Returned(Ok(11)) && carolCount == Returned(0)
    ensures forged == Aborted(AuthFailed) && aliceCount == Returned(11)
  {
    var c := new Contract();
    var approved := {IncrementCall(alice, 4), IncrementCall(alice, 7), IncrementCall(bob, 11),
                     IncrementCall(alice, 0), GetCountCall(alice), GetCountCall(bob), GetCountCall(carol)};
    first := c.Increment(alice, 4, approved);
    second := c.Increment(alice, 7, approved);
    rejected := c.Increment(bob, 11, approved);
    bobCount := c.GetCount(bob, approved);
    zero := c.Increment(alice, 0, approved);
    carolCount := c.GetCount(carol, approved);
    forged := c.Increment(alice, 5, approved);
    aliceCount := c.GetCount(alice, approved);
  }
}
