/** The waiters for the terminal transition of a job. */
module Completion {
  import opened Wrappers

  type JobId = string

  datatype Outcome = Done | Dead | Cancelled

  /** The keys of a list without one. */
  function Without(keys: seq<nat>, key: nat): (rest: seq<nat>)
    ensures forall k :: k in rest <==> k in keys && k != key
  {
    if keys == [] then []
    else if keys[0] == key then Without(keys[1..], key)
    else
      var rest := Without(keys[1..], key);
      assert forall k :: k in [keys[0]] + rest <==> k == keys[0] || k in rest;
      [keys[0]] + rest
  }

  /** The registry: the keys waiting on each job, and the outcomes sent on their channels. */
  class CompletionWaiters {
    var nextKey: nat
    var waiters: map<JobId, seq<nat>>
    var sent: map<nat, Outcome>

    /** A job has an entry only while it has waiters, every key is of one job and unsent, and new
        keys are larger. */
    ghost predicate Valid()
      reads this
    {
      && (forall id :: id in waiters ==> waiters[id] != [])
      && (forall id, k: nat :: Registered(id, k) ==> k < nextKey && k !in sent)
      && (forall id, other, k: nat :: Registered(id, k) && Registered(other, k) ==> id == other)
      && (forall k: nat :: k in sent ==> k < nextKey)
    }

    ghost predicate Registered(id: JobId, key: nat)
      reads this
    {
      id in waiters && key in waiters[id]
    }

    constructor ()
      ensures Valid() && waiters == map[] && sent == map[] && nextKey == 0
    {
      nextKey, waiters, sent := 0, map[], map[];
    }

    method Register(id: JobId) returns (key: nat)
      requires Valid()
      modifies this
      ensures Valid() && sent == old(sent) && key == old(nextKey)
      ensures forall j, k: nat :: Registered(j, k) <==> old(Registered(j, k)) || (j == id && k == key)
    {
      key := nextKey;
      nextKey := nextKey + 1;
      var list := if id in waiters then waiters[id] else [];
      assert forall k: nat :: k in list + [key] <==> k in list || k == key;
      waiters := waiters[id := list + [key]];
      assert forall j, k: nat :: Registered(j, k) <==> old(Registered(j, k)) || (j == id && k == key);
    }

    method HasWaiters(id: JobId) returns (any: bool)
      requires Valid()
      ensures any <==> exists k: nat :: Registered(id, k)
    {
      any := id in waiters;
      if any {
        assert Registered(id, waiters[id][0]);
      }
    }

    /** Sends the outcome to every waiter of the job, and to no other. */
    method Settle(id: JobId, outcome: Outcome)
      requires Valid()
      modifies this
      ensures Valid() && nextKey == old(nextKey)
      ensures forall j, k: nat :: Registered(j, k) <==> old(Registered(j, k)) && j != id
      ensures forall k: nat :: k in sent <==> k in old(sent) || old(Registered(id, k))
      ensures forall k: nat :: k in sent ==> sent[k] == if k in old(sent) then old(sent)[k] else outcome
    {
      if id !in waiters {
        return;
      }
      var list := waiters[id];
      ghost var before := waiters;
      waiters := waiters - {id};
      for i := 0 to |list|
        invariant waiters == before - {id} && nextKey == old(nextKey)
        invariant forall k: nat :: k in sent <==> k in old(sent) || k in list[..i]
        invariant forall k: nat :: k in sent ==> sent[k] == if k in old(sent) then old(sent)[k] else outcome
      {
        assert list[..i + 1] == list[..i] + [list[i]];
        assert old(Registered(id, list[i]));
        sent := sent[list[i] := outcome];
      }
      assert list[..|list|] == list;
      assert forall j, k: nat :: Registered(j, k) <==> old(Registered(j, k)) && j != id;
      assert forall k: nat :: k in list ==> old(Registered(id, k));
    }

    /** Withdraws one registration, and leaves every other. */
    method Withdraw(id: JobId, key: nat)
      requires Valid()
      modifies this
      ensures Valid() && sent == old(sent) && nextKey == old(nextKey)
      ensures forall j, k: nat :: Registered(j, k) <==> old(Registered(j, k)) && !(j == id && k == key)
    {
      if id in waiters {
        var rest := Without(waiters[id], key);
        if rest == [] {
          waiters := waiters - {id};
        } else {
          waiters := waiters[id := rest];
        }
      }
      assert forall j, k: nat :: Registered(j, k) <==> old(Registered(j, k)) && !(j == id && k == key);
    }
  }
}
