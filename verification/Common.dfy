/** Shared vocabulary: an optional value and bags of owned items. */
module Common {

  datatype Option<+T> = None | Some(value: T)

  /** The item an optional field owns, as a bag. */
  function Own<T>(o: Option<T>): multiset<T> {
    match o
    case None => multiset{}
    case Some(x) => multiset{x}
  }

  /** Everything owned by the entries of a table of in-flight calls. */
  ghost function AllHeld<A, T>(table: seq<A>, held: A -> multiset<T>): multiset<T> {
    if table == [] then multiset{}
    else AllHeld(table[..|table| - 1], held) + held(table[|table| - 1])
  }

  lemma {:induction false} HeldAfterAppend<A, T>(table: seq<A>, entry: A, held: A -> multiset<T>)
    ensures AllHeld(table + [entry], held) == AllHeld(table, held) + held(entry)
  {
    assert (table + [entry])[..|table|] == table;
  }

  lemma {:induction false} Swap<T>(a: multiset<T>, x: multiset<T>, b: multiset<T>, y: multiset<T>, rest: multiset<T>)
    requires a + x == b + y
    ensures (a + rest) + x == (b + rest) + y
  {
    assert (a + rest) + x == (a + x) + rest;
  }

  lemma {:induction false} HeldAfterUpdate<A, T>(table: seq<A>, i: nat, entry: A, held: A -> multiset<T>)
    requires i < |table|
    ensures AllHeld(table[i := entry], held) + held(table[i]) == AllHeld(table, held) + held(entry)
    ensures held(table[i]) <= AllHeld(table, held)
  {
    var last := |table| - 1;
    if i == last {
      assert table[i := entry][..last] == table[..last];
    } else {
      HeldAfterUpdate(table[..last], i, entry, held);
      assert table[i := entry][..last] == table[..last][i := entry];
      Swap(AllHeld(table[..last][i := entry], held), held(table[i]), AllHeld(table[..last], held), held(entry),
           held(table[last]));
    }
  }

  lemma {:induction false} NothingHeld<A, T>(table: seq<A>, held: A -> multiset<T>)
    requires forall i :: 0 <= i < |table| ==> held(table[i]) == multiset{}
    ensures AllHeld(table, held) == multiset{}
  {
    if table == [] {
    } else {
      NothingHeld(table[..|table| - 1], held);
    }
  }

  lemma {:induction false} AddedOnce<T>(s: set<T>, x: T)
    requires x !in s
    ensures multiset(s + {x}) == multiset(s) + multiset{x}
  {
  }

  /** The books stay balanced: `all` is what the calls hold, `place` every other place. */
  lemma {:induction false} Rebalance<T>(total: multiset<T>, place: multiset<T>, all: multiset<T>, held: multiset<T>,
                     total': multiset<T>, place': multiset<T>, all': multiset<T>, held': multiset<T>)
    requires total == place + all
    requires all' + held == all + held'
    requires total' + place + held == total + place' + held'
    ensures total' == place' + all'
  {
    forall x
      ensures total'[x] == (place' + all')[x]
    {
      assert (all' + held)[x] == (all + held')[x];
      assert (total' + place + held)[x] == (total + place' + held')[x];
    }
  }

  /** A new call may take over what another place held. */
  lemma {:induction false} HandOver<T>(total: multiset<T>, place: multiset<T>, all: multiset<T>,
                                       place': multiset<T>, held: multiset<T>)
    requires total == place + all && place' + held == place
    ensures total == place' + (all + held)
  {
    forall x
      ensures total[x] == (place' + (all + held))[x]
    {
      assert place[x] == place'[x] + held[x];
    }
  }

  lemma {:induction false} BalancedMove<T>(total: multiset<T>, place: multiset<T>, held: multiset<T>,
                                           place': multiset<T>, held': multiset<T>)
    requires place + held == place' + held'
    ensures total + place + held == total + place' + held'
  {
    assert total + place + held == total + (place + held);
    assert total + place' + held' == total + (place' + held');
  }
}
