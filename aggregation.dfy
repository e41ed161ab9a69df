/**
 * The aggregation pass as a function of its input: one row updates the
 * on-chain table (forSC) and the display table (forFE); the pass folds the
 * rows of partition 1 (files btcb, busd, eth, usdt) and then of partition 2.
 */
module Aggregation {
  import opened Wrappers
  import opened Domain
  import opened Tiers

  /** The two in-memory tables. */
  datatype Tables = Tables(forSC: map<Address, SCEntry>, forFE: map<Address, FEEntry>)

  const Empty: Tables := Tables(map[], map[])

  /**
   * What processing leaves behind: the tables as they are in memory, and the
   * error that stopped processing, if any. A row that fails after it has
   * started updating the tables leaves those updates in place.
   */
  datatype Progress = Progress(tables: Tables, error: Option<Error>)

  /** A row together with the file (partition and category) it comes from. */
  datatype Tagged = Tagged(partition: Partition, category: Category, row: Row)

  /** The running amount of `user` before the row is added (0 for a new address). */
  function PriorAmount(sc: map<Address, SCEntry>, user: Address): int {
    if user in sc then sc[user].cakeAmountInWei else 0
  }

  /**
   * The forSC update of one row: add the amount, set the flag of the row's
   * partition, keep the other flag (false for a new address).
   */
  function Credit(sc: map<Address, SCEntry>, p: Partition, user: Address, amount: int): (r: map<Address, SCEntry>)
    ensures r.Keys == sc.Keys + {user}
    ensures r[user].cakeAmountInWei == PriorAmount(sc, user) + amount
    ensures r[user].Eligible(p)
    ensures forall q :: q != p ==> r[user].Eligible(q) == (user in sc && sc[user].Eligible(q))
    ensures forall a :: a in sc && a != user ==> r[a] == sc[a]
  {
    var total := PriorAmount(sc, user) + amount;
    var entry := match p
      case Part1 => SCEntry(total, true, user in sc && sc[user].nft2)
      case Part2 => SCEntry(total, user in sc && sc[user].nft1, true);
    sc[user := entry]
  }

  /** The forFE table with a fresh all-null entry for `user` if it had none. */
  function WithEntry(fe: map<Address, FEEntry>, user: Address): (r: map<Address, FEEntry>)
    ensures r.Keys == fe.Keys + {user}
    ensures user !in fe ==> r[user] == DefaultFE
    ensures forall a :: a in fe ==> r[a] == fe[a]
  {
    if user in fe then fe else fe[user := DefaultFE]
  }

  /** The tier recorded for (a, p, c); None when the slot is null or `a` has no entry. */
  function SlotOf(fe: map<Address, FEEntry>, a: Address, p: Partition, c: Category): Option<Tier> {
    if a in fe then fe[a].Get(p, c) else None
  }

  /**
   * One row. The address check comes first and touches nothing; then forSC is
   * credited and the forFE entry is created; then a filled slot is a
   * duplicate; then the label is classified and stored in the slot.
   */
  function ApplyRow(t: Tables, x: Tagged, valid: string -> bool): (r: Progress)
    // an invalid address aborts with both tables untouched
    ensures !valid(x.row.user) ==> r == Progress(t, Some(InvalidAddress(x.row.user)))
    // a filled slot aborts as a duplicate, whatever the label
    ensures valid(x.row.user) && SlotOf(t.forFE, x.row.user, x.partition, x.category).Some? ==>
              r.error == Some(DuplicateUser(x.row.user, x.category, x.partition))
    // success needs a valid address, an empty slot and a classifiable label
    ensures r.error.None? <==>
              valid(x.row.user) && SlotOf(t.forFE, x.row.user, x.partition, x.category).None? &&
              ParseTier(x.row.tvlTier).Success?
    // a valid row with an empty slot and no marker in its label aborts with InvalidTier
    ensures (valid(x.row.user) && SlotOf(t.forFE, x.row.user, x.partition, x.category).None? &&
             ParseTier(x.row.tvlTier).Failure?) ==> r.error == Some(InvalidTier(x.row.tvlTier))
    // once the address is valid, the amount and flag are updated, even if the row then fails
    ensures valid(x.row.user) ==> r.tables.forSC == Credit(t.forSC, x.partition, x.row.user, x.row.amount)
    // a valid row that fails keeps the display entry it created, and no more
    ensures valid(x.row.user) && r.error.Some? ==> r.tables.forFE == WithEntry(t.forFE, x.row.user)
    // on success only slot [partition][category] of the user changes, and it holds the tier
    ensures r.error.None? ==>
              x.row.user in r.tables.forFE &&
              SlotOf(r.tables.forFE, x.row.user, x.partition, x.category) == Some(ParseTier(x.row.tvlTier).value)
  {
    var user := x.row.user;
    if !valid(user) then Progress(t, Some(InvalidAddress(user)))
    else
      var sc := Credit(t.forSC, x.partition, user, x.row.amount);
      var fe := WithEntry(t.forFE, user);
      if fe[user].Get(x.partition, x.category).Some? then
        Progress(Tables(sc, fe), Some(DuplicateUser(user, x.category, x.partition)))
      else
        match ParseTier(x.row.tvlTier)
        case Failure(e) => Progress(Tables(sc, fe), Some(e))
        case Success(tier) =>
          Progress(Tables(sc, fe[user := fe[user].Set(x.partition, x.category, tier)]), None)
  }

  /**
   * What one row leaves alone in the display table: it gains at most the
   * row's address, and other addresses keep their entries.
   */
  lemma ApplyRowEntries(t: Tables, x: Tagged, valid: string -> bool)
    ensures var r := ApplyRow(t, x, valid);
      r.tables.forFE.Keys == if valid(x.row.user) then t.forFE.Keys + {x.row.user} else t.forFE.Keys
    ensures var r := ApplyRow(t, x, valid);
      forall a :: a in t.forFE && a != x.row.user ==> r.tables.forFE[a] == t.forFE[a]
  {
  }

  /**
   * No slot other than the row's own changes, and a failing row writes no
   * slot at all.
   */
  lemma ApplyRowFrame(t: Tables, x: Tagged, valid: string -> bool)
    ensures var r := ApplyRow(t, x, valid);
      forall a, q, d :: (a, q, d) != (x.row.user, x.partition, x.category) ==>
        SlotOf(r.tables.forFE, a, q, d) == SlotOf(t.forFE, a, q, d)
    ensures var r := ApplyRow(t, x, valid);
      r.error.Some? ==> forall a, q, d :: SlotOf(r.tables.forFE, a, q, d) == SlotOf(t.forFE, a, q, d)
  {
    ApplyRowEntries(t, x, valid);
  }

  /** Rows processed in order, stopping at the first error. */
  function Fold(t: Tables, xs: seq<Tagged>, valid: string -> bool): Progress
    decreases |xs|
  {
    if xs == [] then Progress(t, None)
    else
      var prev := Fold(t, xs[..|xs| - 1], valid);
      if prev.error.Some? then prev else ApplyRow(prev.tables, xs[|xs| - 1], valid)
  }

  /** The last element of `xs + ys` is that of `ys`, and what precedes it is `xs` and the rest of `ys`. */
  lemma ConcatInit(xs: seq<Tagged>, ys: seq<Tagged>)
    requires ys != []
    ensures (xs + ys)[..|xs + ys| - 1] == xs + ys[..|ys| - 1]
    ensures (xs + ys)[|xs + ys| - 1] == ys[|ys| - 1]
  {
    assert (xs + ys)[..|xs + ys| - 1] == xs + ys[..|ys| - 1];
  }

  /**
   * Processing `xs + ys` is processing `xs` and then, unless that failed,
   * processing `ys` from the tables `xs` left behind.
   */
  lemma {:induction false} FoldAppend(t: Tables, xs: seq<Tagged>, ys: seq<Tagged>, valid: string -> bool)
    ensures Fold(t, xs + ys, valid) ==
              var m := Fold(t, xs, valid);
              if m.error.Some? then m else Fold(m.tables, ys, valid)
    decreases |ys|
  {
    if ys == [] {
      assert xs + ys == xs;
    } else {
      ConcatInit(xs, ys);
      FoldAppend(t, xs, ys[..|ys| - 1], valid);
    }
  }

  /** Once a prefix has failed, the rows after it change nothing. */
  lemma FoldFailed(t: Tables, xs: seq<Tagged>, zs: seq<Tagged>, valid: string -> bool)
    requires Fold(t, xs, valid).error.Some?
    requires xs <= zs
    ensures Fold(t, zs, valid) == Fold(t, xs, valid)
  {
    assert xs + zs[|xs|..] == zs;
    FoldAppend(t, xs, zs[|xs|..], valid);
  }

  /** Processing the prefix of length i + 1 is processing the prefix of length i and then row i. */
  lemma FoldPrefixStep(t: Tables, xs: seq<Tagged>, i: nat, valid: string -> bool)
    requires i < |xs|
    ensures Fold(t, xs[..i + 1], valid) ==
              var m := Fold(t, xs[..i], valid);
              if m.error.Some? then m else ApplyRow(m.tables, xs[i], valid)
  {
    assert xs[..i + 1][..i] == xs[..i];
  }

  /** Processing one more row after `xs`. */
  lemma FoldSnoc(t: Tables, xs: seq<Tagged>, x: Tagged, valid: string -> bool)
    ensures Fold(t, xs + [x], valid) ==
              var m := Fold(t, xs, valid);
              if m.error.Some? then m else ApplyRow(m.tables, x, valid)
  {
    var zs := xs + [x];
    assert zs[..|zs| - 1] == xs;
  }

  /** The rows of the four files of one partition. */
  datatype PartitionFiles = PartitionFiles(btcb: seq<Row>, busd: seq<Row>, eth: seq<Row>, usdt: seq<Row>)
  {
    function Rows(c: Category): seq<Row> {
      match c
      case Btcb => btcb
      case Busd => busd
      case Eth => eth
      case Usdt => usdt
    }
  }

  /** The rows of one file, tagged with where they come from. */
  function Tag(p: Partition, c: Category, rows: seq<Row>): (xs: seq<Tagged>)
    ensures |xs| == |rows|
  {
    seq(|rows|, i requires 0 <= i < |rows| => Tagged(p, c, rows[i]))
  }

  /** The rows of the files of categories `cs` of partition `p`, file after file. */
  function TagFiles(p: Partition, files: PartitionFiles, cs: seq<Category>): seq<Tagged>
    decreases |cs|
  {
    if cs == [] then []
    else TagFiles(p, files, cs[..|cs| - 1]) + Tag(p, cs[|cs| - 1], files.Rows(cs[|cs| - 1]))
  }

  /** The files of the first `k` categories come before those of the rest. */
  lemma {:induction false} TagFilesPrefix(p: Partition, files: PartitionFiles, cs: seq<Category>, k: nat)
    requires k <= |cs|
    ensures TagFiles(p, files, cs[..k]) <= TagFiles(p, files, cs)
    decreases |cs|
  {
    if k < |cs| {
      assert cs[..|cs| - 1][..k] == cs[..k];
      TagFilesPrefix(p, files, cs[..|cs| - 1], k);
    } else {
      assert cs[..k] == cs;
    }
  }

  /** Extending the categories done by one more file appends that file's rows. */
  lemma TagFilesNext(p: Partition, files: PartitionFiles, cs: seq<Category>, k: nat)
    requires k < |cs|
    ensures TagFiles(p, files, cs[..k + 1]) == TagFiles(p, files, cs[..k]) + Tag(p, cs[k], files.Rows(cs[k]))
  {
    assert cs[..k + 1][..k] == cs[..k];
  }

  /** After the last category, or after a failure, the partition's result is settled. */
  lemma FoldFilesDone(t: Tables, p: Partition, files: PartitionFiles, cs: seq<Category>, k: nat, valid: string -> bool)
    requires k <= |cs|
    requires k == |cs| || Fold(t, TagFiles(p, files, cs[..k]), valid).error.Some?
    ensures Fold(t, TagFiles(p, files, cs), valid) == Fold(t, TagFiles(p, files, cs[..k]), valid)
  {
    if k == |cs| {
      assert cs[..k] == cs;
    } else {
      TagFilesPrefix(p, files, cs, k);
      FoldFailed(t, TagFiles(p, files, cs[..k]), TagFiles(p, files, cs), valid);
    }
  }

  /** The order in which the run sees the rows: all of partition 1, then all of partition 2. */
  function Schedule(part1: PartitionFiles, part2: PartitionFiles): seq<Tagged> {
    TagFiles(Part1, part1, Categories) + TagFiles(Part2, part2, Categories)
  }
}
