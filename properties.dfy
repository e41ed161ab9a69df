/**
 * What the aggregation pass guarantees, stated over any sequence of rows and
 * any starting tables, and then for the run itself (empty tables, partition 1
 * before partition 2).
 */
module Properties {
  import opened Wrappers
  import opened Domain
  import opened Tiers
  import opened Aggregation
  import opened Totals

  /** Some row of `xs` is for address `a` in file (p, c). */
  ghost predicate HasRow(xs: seq<Tagged>, a: Address, p: Partition, c: Category) {
    exists i :: 0 <= i < |xs| && xs[i].row.user == a && xs[i].partition == p && xs[i].category == c
  }

  /** No two rows of `xs` are for the same address in the same file. */
  ghost predicate NoDuplicates(xs: seq<Tagged>) {
    forall i, j :: 0 <= i < j < |xs| ==>
      (xs[i].row.user, xs[i].partition, xs[i].category) != (xs[j].row.user, xs[j].partition, xs[j].category)
  }

  /** Every row's address passes the address check (`valid`, the script's `isAddress`) and its label has a tier marker. */
  ghost predicate RowsValid(xs: seq<Tagged>, valid: string -> bool) {
    forall i :: 0 <= i < |xs| ==> valid(xs[i].row.user) && ParseTier(xs[i].row.tvlTier).Success?
  }

  /** No row of `xs` meets a slot that is already filled in `fe`. */
  ghost predicate SlotsFree(fe: map<Address, FEEntry>, xs: seq<Tagged>) {
    forall i :: 0 <= i < |xs| ==> SlotOf(fe, xs[i].row.user, xs[i].partition, xs[i].category).None?
  }

  /** Some row of `xs` for address `a` belongs to partition `p`. */
  ghost predicate Appears(xs: seq<Tagged>, a: Address, p: Partition) {
    exists i :: 0 <= i < |xs| && xs[i].row.user == a && xs[i].partition == p
  }

  /** The addresses of the rows of `xs`. */
  ghost function Users(xs: seq<Tagged>): set<Address> {
    set i | 0 <= i < |xs| :: xs[i].row.user
  }

  /** Sum of the amounts of the rows of `xs` for address `a`. */
  function AmountFor(xs: seq<Tagged>, a: Address): int
    decreases |xs|
  {
    if xs == [] then 0
    else AmountFor(xs[..|xs| - 1], a) + (if xs[|xs| - 1].row.user == a then xs[|xs| - 1].row.amount else 0)
  }

  /** Sum of the amounts of all rows of `xs`. */
  function SumAmounts(xs: seq<Tagged>): int
    decreases |xs|
  {
    if xs == [] then 0 else SumAmounts(xs[..|xs| - 1]) + xs[|xs| - 1].row.amount
  }

  /** Every row of `xs` has its tier in its slot of `fe`. */
  ghost predicate RecordsRows(fe: map<Address, FEEntry>, xs: seq<Tagged>) {
    forall i :: 0 <= i < |xs| ==>
      ParseTier(xs[i].row.tvlTier).Success? &&
      SlotOf(fe, xs[i].row.user, xs[i].partition, xs[i].category) == Some(ParseTier(xs[i].row.tvlTier).value)
  }

  /** Slots that no row of `xs` is for are the same in `fe` as in `fe0`. */
  ghost predicate KeepsOtherSlots(fe: map<Address, FEEntry>, fe0: map<Address, FEEntry>, xs: seq<Tagged>) {
    forall a, p, c :: !HasRow(xs, a, p, c) ==> SlotOf(fe, a, p, c) == SlotOf(fe0, a, p, c)
  }

  /** The rows of `xs` for a slot are those before the last row, and possibly the last row. */
  lemma HasRowInit(xs: seq<Tagged>, a: Address, p: Partition, c: Category)
    requires xs != []
    ensures var x := xs[|xs| - 1];
      HasRow(xs, a, p, c) <==> HasRow(xs[..|xs| - 1], a, p, c) || (x.row.user, x.partition, x.category) == (a, p, c)
  {
    var ys := xs[..|xs| - 1];
    if HasRow(ys, a, p, c) {
      var i :| 0 <= i < |ys| && ys[i].row.user == a && ys[i].partition == p && ys[i].category == c;
      assert xs[i] == ys[i];
    }
  }

  lemma UsersInit(xs: seq<Tagged>)
    requires xs != []
    ensures Users(xs) == Users(xs[..|xs| - 1]) + {xs[|xs| - 1].row.user}
  {
    var ys := xs[..|xs| - 1];
    forall a | a in Users(ys) ensures a in Users(xs) {
      var i :| 0 <= i < |ys| && ys[i].row.user == a;
      assert xs[i] == ys[i];
    }
  }

  lemma AppearsInit(xs: seq<Tagged>, a: Address, p: Partition)
    requires xs != []
    ensures var x := xs[|xs| - 1];
      Appears(xs, a, p) <==> Appears(xs[..|xs| - 1], a, p) || (x.row.user == a && x.partition == p)
  {
    var ys := xs[..|xs| - 1];
    if Appears(ys, a, p) {
      var i :| 0 <= i < |ys| && ys[i].row.user == a && ys[i].partition == p;
      assert xs[i] == ys[i];
    }
  }

  /** A last row whose slot no earlier row is for keeps the rows free of duplicates. */
  lemma NoDuplicatesStep(ys: seq<Tagged>, x: Tagged, xs: seq<Tagged>)
    requires xs != [] && ys == xs[..|xs| - 1] && x == xs[|xs| - 1]
    requires NoDuplicates(ys) && !HasRow(ys, x.row.user, x.partition, x.category)
    ensures NoDuplicates(xs)
  {
    forall i, j | 0 <= i < j < |xs|
      ensures (xs[i].row.user, xs[i].partition, xs[i].category) != (xs[j].row.user, xs[j].partition, xs[j].category)
    {
      assert xs[i] == ys[i];
      if j < |ys| {
        assert xs[j] == ys[j];
      }
    }
  }

  /**
   * A last row `x` that fills its own, empty, slot of `fe` and leaves every
   * other slot of `mfe` alone carries the slot facts of the rows `ys` before
   * it over to all of `xs`.
   */
  lemma SlotsStep(fe0: map<Address, FEEntry>, mfe: map<Address, FEEntry>, fe: map<Address, FEEntry>,
                  ys: seq<Tagged>, x: Tagged, xs: seq<Tagged>, valid: string -> bool)
    requires xs != [] && ys == xs[..|xs| - 1] && x == xs[|xs| - 1]
    requires RecordsRows(mfe, ys) && KeepsOtherSlots(mfe, fe0, ys)
    requires SlotsFree(fe0, ys) && NoDuplicates(ys) && RowsValid(ys, valid)
    requires valid(x.row.user) && ParseTier(x.row.tvlTier).Success?
    requires SlotOf(mfe, x.row.user, x.partition, x.category).None?
    requires SlotOf(fe, x.row.user, x.partition, x.category) == Some(ParseTier(x.row.tvlTier).value)
    requires forall a, q, d :: (a, q, d) != (x.row.user, x.partition, x.category) ==>
               SlotOf(fe, a, q, d) == SlotOf(mfe, a, q, d)
    ensures RecordsRows(fe, xs) && KeepsOtherSlots(fe, fe0, xs)
    ensures SlotsFree(fe0, xs) && NoDuplicates(xs) && RowsValid(xs, valid)
  {
    assert !HasRow(ys, x.row.user, x.partition, x.category);
    NoDuplicatesStep(ys, x, xs);
    forall i | 0 <= i < |xs|
      ensures ParseTier(xs[i].row.tvlTier).Success?
      ensures SlotOf(fe, xs[i].row.user, xs[i].partition, xs[i].category) == Some(ParseTier(xs[i].row.tvlTier).value)
      ensures SlotOf(fe0, xs[i].row.user, xs[i].partition, xs[i].category).None?
      ensures valid(xs[i].row.user)
    {
      if i < |ys| {
        assert xs[i] == ys[i];
      }
    }
    forall a, p, c | !HasRow(xs, a, p, c)
      ensures SlotOf(fe, a, p, c) == SlotOf(fe0, a, p, c)
    {
      HasRowInit(xs, a, p, c);
    }
  }

  /**
   * After a successful pass every row's slot holds that row's tier, every
   * other slot is as it was, no row met a filled slot, no two rows share a
   * slot, and every row was valid.
   */
  lemma {:induction false} FoldSlots(t: Tables, xs: seq<Tagged>, valid: string -> bool)
    requires Fold(t, xs, valid).error.None?
    ensures RecordsRows(Fold(t, xs, valid).tables.forFE, xs)
    ensures KeepsOtherSlots(Fold(t, xs, valid).tables.forFE, t.forFE, xs)
    ensures SlotsFree(t.forFE, xs) && NoDuplicates(xs) && RowsValid(xs, valid)
    decreases |xs|
  {
    if xs != [] {
      var ys, x := xs[..|xs| - 1], xs[|xs| - 1];
      FoldSlots(t, ys, valid);
      var m := Fold(t, ys, valid).tables;
      ApplyRowFrame(m, x, valid);
      SlotsStep(t.forFE, m.forFE, ApplyRow(m, x, valid).tables.forFE, ys, x, xs, valid);
    }
  }

  /** After a successful pass, the slot of the row at position i holds that row's tier. */
  lemma SlotOfRow(t: Tables, xs: seq<Tagged>, valid: string -> bool, i: nat, x: Tagged)
    requires Fold(t, xs, valid).error.None?
    requires i < |xs| && xs[i] == x
    ensures ParseTier(x.row.tvlTier).Success?
    ensures SlotOf(Fold(t, xs, valid).tables.forFE, x.row.user, x.partition, x.category) == Some(ParseTier(x.row.tvlTier).value)
  {
    FoldSlots(t, xs, valid);
  }

  /** The conditions for success hold of the rows before the last, and no earlier row is for the last row's slot. */
  lemma ConditionsInit(fe0: map<Address, FEEntry>, xs: seq<Tagged>, valid: string -> bool)
    requires xs != [] && RowsValid(xs, valid) && NoDuplicates(xs) && SlotsFree(fe0, xs)
    ensures var ys, x := xs[..|xs| - 1], xs[|xs| - 1];
      RowsValid(ys, valid) && NoDuplicates(ys) && SlotsFree(fe0, ys) &&
      !HasRow(ys, x.row.user, x.partition, x.category)
  {
    var ys := xs[..|xs| - 1];
    assert RowsValid(ys, valid) && SlotsFree(fe0, ys) by {
      forall i | 0 <= i < |ys| ensures ys[i] == xs[i] { }
    }
    assert NoDuplicates(ys) by {
      forall i, j | 0 <= i < j < |ys| ensures ys[i] == xs[i] && ys[j] == xs[j] { }
    }
  }

  /**
   * A pass succeeds exactly when every row is valid, no two rows share an
   * (address, partition, category) slot, and no row meets a slot already filled.
   */
  lemma {:induction false} FoldSucceedsIff(t: Tables, xs: seq<Tagged>, valid: string -> bool)
    ensures Fold(t, xs, valid).error.None? <==>
              RowsValid(xs, valid) && NoDuplicates(xs) && SlotsFree(t.forFE, xs)
    decreases |xs|
  {
    if Fold(t, xs, valid).error.None? {
      FoldSlots(t, xs, valid);
    } else if xs != [] && RowsValid(xs, valid) && NoDuplicates(xs) && SlotsFree(t.forFE, xs) {
      var ys, x := xs[..|xs| - 1], xs[|xs| - 1];
      ConditionsInit(t.forFE, xs, valid);
      FoldSucceedsIff(t, ys, valid);
      FoldSlots(t, ys, valid);
      assert false;
    }
  }

  /**
   * `t2` extends `t1`: no entry has disappeared, no eligibility flag has gone
   * from true to false, and no filled slot has changed.
   */
  ghost predicate Extends(t2: Tables, t1: Tables) {
    && t1.forSC.Keys <= t2.forSC.Keys
    && t1.forFE.Keys <= t2.forFE.Keys
    && (forall a, p :: a in t1.forSC && t1.forSC[a].Eligible(p) ==> t2.forSC[a].Eligible(p))
    && (forall a, p, c :: SlotOf(t1.forFE, a, p, c).Some? ==> SlotOf(t2.forFE, a, p, c) == SlotOf(t1.forFE, a, p, c))
  }

  lemma ExtendsTransitive(t3: Tables, t2: Tables, t1: Tables)
    requires Extends(t3, t2) && Extends(t2, t1)
    ensures Extends(t3, t1)
  {
  }

  /** Whatever a row does, failing or not, it extends the tables. */
  lemma ApplyRowExtends(t: Tables, x: Tagged, valid: string -> bool)
    ensures Extends(ApplyRow(t, x, valid).tables, t)
  {
    ApplyRowEntries(t, x, valid);
    ApplyRowFrame(t, x, valid);
  }

  /**
   * Any prefix of the run, failed or not, only extends the tables: flags are
   * monotone and every slot is written at most once.
   */
  lemma {:induction false} FoldExtends(t: Tables, xs: seq<Tagged>, valid: string -> bool)
    ensures Extends(Fold(t, xs, valid).tables, t)
    decreases |xs|
  {
    if xs != [] {
      var ys := xs[..|xs| - 1];
      FoldExtends(t, ys, valid);
      var m := Fold(t, ys, valid);
      if m.error.None? {
        ApplyRowExtends(m.tables, xs[|xs| - 1], valid);
        ExtendsTransitive(Fold(t, xs, valid).tables, m.tables, t);
      }
    }
  }

  /** A second row for a slot that an earlier row filled aborts with DuplicateUser. */
  lemma DuplicateAborts(t: Tables, xs: seq<Tagged>, x: Tagged, valid: string -> bool)
    requires Fold(t, xs, valid).error.None?
    requires HasRow(xs, x.row.user, x.partition, x.category)
    requires valid(x.row.user)
    ensures Fold(t, xs + [x], valid).error == Some(DuplicateUser(x.row.user, x.category, x.partition))
  {
    FoldSlots(t, xs, valid);
    FoldSnoc(t, xs, x, valid);
  }

  /** An address no row names has nothing credited to it. */
  lemma {:induction false} AmountForAbsent(xs: seq<Tagged>, a: Address)
    requires a !in Users(xs)
    ensures AmountFor(xs, a) == 0
    decreases |xs|
  {
    if xs != [] {
      UsersInit(xs);
      AmountForAbsent(xs[..|xs| - 1], a);
    }
  }

  /** The amount facts of the rows `ys` before the last row `x` carry over to all of `xs`. */
  lemma AmountsStep(t: Tables, m: Tables, ys: seq<Tagged>, x: Tagged, xs: seq<Tagged>, sc: map<Address, SCEntry>)
    requires xs != [] && ys == xs[..|xs| - 1] && x == xs[|xs| - 1]
    requires m.forSC.Keys == t.forSC.Keys + Users(ys)
    requires forall a :: a in m.forSC ==> m.forSC[a].cakeAmountInWei == PriorAmount(t.forSC, a) + AmountFor(ys, a)
    requires sc == Credit(m.forSC, x.partition, x.row.user, x.row.amount)
    ensures forall a :: a in sc ==> sc[a].cakeAmountInWei == PriorAmount(t.forSC, a) + AmountFor(xs, a)
  {
    forall a | a in sc
      ensures sc[a].cakeAmountInWei == PriorAmount(t.forSC, a) + AmountFor(xs, a)
    {
      if a == x.row.user && a !in m.forSC {
        AmountForAbsent(ys, a);
      }
    }
  }

  /** The flag facts of the rows `ys` before the last row `x` carry over to all of `xs`. */
  lemma FlagsStep(t: Tables, m: Tables, ys: seq<Tagged>, x: Tagged, xs: seq<Tagged>, sc: map<Address, SCEntry>)
    requires xs != [] && ys == xs[..|xs| - 1] && x == xs[|xs| - 1]
    requires forall a, p :: a in m.forSC ==>
               (m.forSC[a].Eligible(p) <==> (a in t.forSC && t.forSC[a].Eligible(p)) || Appears(ys, a, p))
    requires m.forSC.Keys == t.forSC.Keys + Users(ys)
    requires sc == Credit(m.forSC, x.partition, x.row.user, x.row.amount)
    ensures forall a, p :: a in sc ==>
              (sc[a].Eligible(p) <==> (a in t.forSC && t.forSC[a].Eligible(p)) || Appears(xs, a, p))
  {
    forall a, p | a in sc
      ensures sc[a].Eligible(p) <==> (a in t.forSC && t.forSC[a].Eligible(p)) || Appears(xs, a, p)
    {
      AppearsInit(xs, a, p);
    }
  }

  /**
   * After a successful pass, the addresses of forSC are the old ones plus
   * those of the rows; each amount is the old one plus the sum of that
   * address's row amounts; and the flag of partition p is set exactly when it
   * was set before or a row of partition p names the address.
   */
  lemma {:induction false} FoldAccounts(t: Tables, xs: seq<Tagged>, valid: string -> bool)
    requires Fold(t, xs, valid).error.None?
    ensures var sc := Fold(t, xs, valid).tables.forSC;
      sc.Keys == t.forSC.Keys + Users(xs)
    ensures var sc := Fold(t, xs, valid).tables.forSC;
      forall a :: a in sc ==> sc[a].cakeAmountInWei == PriorAmount(t.forSC, a) + AmountFor(xs, a)
    ensures var sc := Fold(t, xs, valid).tables.forSC;
      forall a, p :: a in sc ==>
        (sc[a].Eligible(p) <==> (a in t.forSC && t.forSC[a].Eligible(p)) || Appears(xs, a, p))
    decreases |xs|
  {
    if xs != [] {
      var ys, x := xs[..|xs| - 1], xs[|xs| - 1];
      FoldAccounts(t, ys, valid);
      var m, sc := Fold(t, ys, valid).tables, Fold(t, xs, valid).tables.forSC;
      UsersInit(xs);
      AmountsStep(t, m, ys, x, xs, sc);
      FlagsStep(t, m, ys, x, xs, sc);
    } else {
      assert Users(xs) == {};
    }
  }

  /** After a successful pass, forFE has an entry for the old addresses and those of the rows. */
  lemma {:induction false} FoldDisplayKeys(t: Tables, xs: seq<Tagged>, valid: string -> bool)
    requires Fold(t, xs, valid).error.None?
    ensures Fold(t, xs, valid).tables.forFE.Keys == t.forFE.Keys + Users(xs)
    decreases |xs|
  {
    if xs != [] {
      var ys := xs[..|xs| - 1];
      FoldDisplayKeys(t, ys, valid);
      ApplyRowEntries(Fold(t, ys, valid).tables, xs[|xs| - 1], valid);
      UsersInit(xs);
    } else {
      assert Users(xs) == {};
    }
  }

  /** After a successful pass, the total has grown by the sum of all row amounts. */
  lemma {:induction false} FoldTotal(t: Tables, xs: seq<Tagged>, valid: string -> bool)
    requires Fold(t, xs, valid).error.None?
    ensures TotalOf(Fold(t, xs, valid).tables.forSC) == TotalOf(t.forSC) + SumAmounts(xs)
    decreases |xs|
  {
    if xs != [] {
      var ys, x := xs[..|xs| - 1], xs[|xs| - 1];
      FoldTotal(t, ys, valid);
      CreditTotal(Fold(t, ys, valid).tables.forSC, x.partition, x.row.user, x.row.amount);
    }
  }
}
