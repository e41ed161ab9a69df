/** The total token amount owed: the sum of the running amounts of forSC. */
module Totals {
  import opened Domain
  import opened Aggregation

  /** Sum of the amounts of all entries, in no particular order. */
  ghost function TotalOf(sc: map<Address, SCEntry>): int
    decreases |sc|
  {
    if sc == map[] then 0
    else
      var a :| a in sc;
      sc[a].cakeAmountInWei + TotalOf(sc - {a})
  }

  /** The total does not depend on which entry is taken out first. */
  lemma {:induction false} TotalOfRemove(sc: map<Address, SCEntry>, a: Address)
    requires a in sc
    ensures TotalOf(sc) == sc[a].cakeAmountInWei + TotalOf(sc - {a})
    decreases |sc|
  {
    var b :| b in sc && TotalOf(sc) == sc[b].cakeAmountInWei + TotalOf(sc - {b});
    if b != a {
      TotalOfRemove(sc - {b}, a);
      TotalOfRemove(sc - {a}, b);
      assert sc - {b} - {a} == sc - {a} - {b};
    }
  }

  /** Crediting `amount` to one address raises the total by exactly `amount`. */
  lemma CreditTotal(sc: map<Address, SCEntry>, p: Partition, user: Address, amount: int)
    ensures TotalOf(Credit(sc, p, user, amount)) == TotalOf(sc) + amount
  {
    var r := Credit(sc, p, user, amount);
    TotalOfRemove(r, user);
    assert r - {user} == sc - {user};
    if user in sc {
      TotalOfRemove(sc, user);
    } else {
      assert sc - {user} == sc;
    }
  }

  /** totalCakeAmount: the sum of cakeAmountInWei over all forSC entries. */
  method TotalCakeAmount(sc: map<Address, SCEntry>) returns (total: int)
    ensures total == TotalOf(sc)
  {
    total := 0;
    var rest := sc;
    while rest != map[]
      invariant rest.Keys <= sc.Keys
      invariant forall a :: a in rest ==> rest[a] == sc[a]
      invariant total + TotalOf(rest) == TotalOf(sc)
      decreases |rest|
    {
      var a :| a in rest;
      TotalOfRemove(rest, a);
      total := total + rest[a].cakeAmountInWei;
      rest := rest - {a};
    }
  }
}
