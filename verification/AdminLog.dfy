/** The bounded log of recent admin actions: a ring of slots standing for an append-only log. */
module AdminLog {
  import opened MachineInts
  import opened Outcomes

  type Address = nat

  const CAPACITY: nat := 50

  datatype Entry = Entry(number: nat, action: string, admin: Address, ledger: nat, timestamp: nat)

  /** The last `n` entries of `log`, newest first. */
  function Newest(log: seq<Entry>, n: nat): seq<Entry>
    requires n <= |log|
  {
    seq(n, i requires 0 <= i < n => log[|log| - 1 - i])
  }

  /** The slots hold the last CAPACITY entries of the log, each at its number modulo CAPACITY. */
  ghost predicate Holds(slots: map<nat, Entry>, log: seq<Entry>) {
    && (forall i :: 0 <= i < |log| ==> log[i].number == i)
    && (forall i :: 0 <= i < |log| && |log| <= i + CAPACITY ==>
          i % CAPACITY in slots && slots[i % CAPACITY] == log[i])
    && (forall k :: k in slots ==> k < CAPACITY)
  }

  lemma OverwriteHolds(slots: map<nat, Entry>, log: seq<Entry>, e: Entry)
    requires Holds(slots, log) && e.number == |log|
    ensures Holds(slots[|log| % CAPACITY := e], log + [e])
  {
    // A live number is less than a full turn behind, so it is not in the slot written.
    assert forall i :: 0 <= i < |log| && |log| < i + CAPACITY ==> i % CAPACITY != |log| % CAPACITY;
  }

  class ActionLog {
    var admin: Option<Address>
    var count: nat
    var slots: map<nat, Entry>
    /** Every action ever recorded, oldest first. */
    ghost var log: seq<Entry>

    ghost predicate Valid()
      reads this
    {
      count == |log| && count <= U64_MAX && Holds(slots, log)
    }

    constructor (owner: Option<Address>)
      ensures Valid() && log == [] && admin == owner
    {
      admin, count, slots, log := owner, 0, map[], [];
    }

    method RecordAdminAction(action: string, ledger: nat, timestamp: nat) returns (r: Outcome)
      requires Valid()
      modifies this`count, this`slots, this`log
      ensures Valid()
      ensures r == if admin.Some? && old(count) == U64_MAX then Trapped else Done
      ensures log == old(log) + if admin.Some? && r.Done?
                                then [Entry(|old(log)|, action, admin.value, ledger, timestamp)] else []
    {
      if admin.None? {
        return Done;
      }
      if count == U64_MAX {
        return Trapped;
      }
      var entry := Entry(count, action, admin.value, ledger, timestamp);
      OverwriteHolds(slots, log, entry);
      slots := slots[count % CAPACITY := entry];
      log := log + [entry];
      count := count + 1;
      r := Done;
    }

    /** Reads from the ring what the append-only log would answer. */
    method GetRecentAdminActions(limit: nat) returns (out: seq<Entry>)
      requires Valid()
      ensures var n := Min(Min(limit, CAPACITY), |log|);
              out == Newest(log, n) && forall i :: 0 <= i < n ==> out[i].number == |log| - 1 - i
    {
      var n := Min(Min(limit, CAPACITY), count);
      out := [];
      for i := 0 to n
        invariant |out| == i && forall k :: 0 <= k < i ==> out[k] == log[|log| - 1 - k]
      {
        var number := count - 1 - i;
        var slot := number % CAPACITY;
        if slot in slots {
          out := out + [slots[slot]];
        }
      }
      assert out == Newest(log, n);
    }
  }
}
