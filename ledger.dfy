/**
 * The batch run: the two tables live in one object whose maps are updated in
 * place row by row, file by file, partition 1 before partition 2; the outputs
 * exist only if every row went through.
 */
module Ledger {
  import opened Wrappers
  import opened Domain
  import opened Tiers
  import opened Aggregation
  import opened Totals

  /** The on-chain table (forSC) and the display table (forFE) of one run. */
  class Ledger {
    var forSC: map<Address, SCEntry>
    var forFE: map<Address, FEEntry>

    /** The tables as a value. */
    function Snapshot(): Tables
      reads this
    {
      Tables(forSC, forFE)
    }

    /** Both tables start empty. */
    constructor ()
      ensures Snapshot() == Empty
    {
      forSC := map[];
      forFE := map[];
    }

    /** The body of the per-row `forEach` callback of file (p, c). */
    method ProcessRow(p: Partition, c: Category, row: Row, valid: string -> bool) returns (err: Option<Error>)
      modifies this
      ensures Progress(Snapshot(), err) == ApplyRow(old(Snapshot()), Tagged(p, c, row), valid)
    {
      var user := row.user;
      if !valid(user) {
        return Some(InvalidAddress(user));
      }
      var prior := if user in forSC then forSC[user].cakeAmountInWei else 0;
      match p {
        case Part1 =>
          forSC := forSC[user := SCEntry(prior + row.amount, true, user in forSC && forSC[user].nft2)];
        case Part2 =>
          forSC := forSC[user := SCEntry(prior + row.amount, user in forSC && forSC[user].nft1, true)];
      }
      assert forSC == Credit(old(forSC), p, user, row.amount);
      if user !in forFE {
        forFE := forFE[user := DefaultFE];
      }
      assert forFE == WithEntry(old(forFE), user);
      if forFE[user].Get(p, c).Some? {
        return Some(DuplicateUser(user, c, p));
      }
      var tier := ParseTier(row.tvlTier);
      if tier.Failure? {
        return Some(tier.error);
      }
      forFE := forFE[user := forFE[user].Set(p, c, tier.value)];
      return None;
    }

    /** All rows of one file, in order; the first error ends the file (and the run). */
    method ProcessFile(p: Partition, c: Category, rows: seq<Row>, valid: string -> bool) returns (err: Option<Error>)
      modifies this
      ensures Progress(Snapshot(), err) == Fold(old(Snapshot()), Tag(p, c, rows), valid)
    {
      ghost var start := Snapshot();
      ghost var xs := Tag(p, c, rows);
      err := None;
      var i := 0;
      while i < |rows| && err.None?
        invariant 0 <= i <= |rows|
        invariant Progress(Snapshot(), err) == Fold(start, xs[..i], valid)
      {
        FoldPrefixStep(start, xs, i, valid);
        assert xs[i] == Tagged(p, c, rows[i]);
        ghost var before := Snapshot();
        err := ProcessRow(p, c, rows[i], valid);
        assert Fold(start, xs[..i + 1], valid) == ApplyRow(before, xs[i], valid);
        i := i + 1;
      }
      if err.None? {
        assert xs[..i] == xs;
      } else {
        FoldFailed(start, xs[..i], xs, valid);
      }
    }

    /** The outer `for ... of Object.entries(partN)` loop: the four files of partition `p`, in order. */
    method ProcessPartition(p: Partition, files: PartitionFiles, valid: string -> bool) returns (err: Option<Error>)
      modifies this
      ensures Progress(Snapshot(), err) == Fold(old(Snapshot()), TagFiles(p, files, Categories), valid)
    {
      ghost var start := Snapshot();
      err := None;
      var k := 0;
      while k < |Categories| && err.None?
        invariant 0 <= k <= |Categories|
        invariant Progress(Snapshot(), err) == Fold(start, TagFiles(p, files, Categories[..k]), valid)
      {
        var c := Categories[k];
        TagFilesNext(p, files, Categories, k);
        FoldAppend(start, TagFiles(p, files, Categories[..k]), Tag(p, c, files.Rows(c)), valid);
        err := ProcessFile(p, c, files.Rows(c), valid);
        k := k + 1;
      }
      FoldFilesDone(start, p, files, Categories, k, valid);
    }
  }

  /** What a successful run produces: the two tables written out and the printed total. */
  datatype Output = Output(forSC: map<Address, SCEntry>, forFE: map<Address, FEEntry>, totalCakeAmount: int)

  /** The result of a run: the first error, or the tables after every row and their total. */
  ghost function RunResult(part1: PartitionFiles, part2: PartitionFiles, valid: string -> bool): Result<Output, Error> {
    var r := Fold(Empty, Schedule(part1, part2), valid);
    if r.error.Some? then Failure(r.error.value)
    else Success(Output(r.tables.forSC, r.tables.forFE, TotalOf(r.tables.forSC)))
  }

  /**
   * The script: partition 1, then partition 2, then the total. Any error
   * aborts before the outputs are produced.
   */
  method Run(part1: PartitionFiles, part2: PartitionFiles, valid: string -> bool) returns (r: Result<Output, Error>)
    ensures r == RunResult(part1, part2, valid)
  {
    var ledger := new Ledger();
    var err := ledger.ProcessPartition(Part1, part1, valid);
    FoldAppend(Empty, TagFiles(Part1, part1, Categories), TagFiles(Part2, part2, Categories), valid);
    if err.Some? {
      return Failure(err.value);
    }
    err := ledger.ProcessPartition(Part2, part2, valid);
    if err.Some? {
      return Failure(err.value);
    }
    var total := TotalCakeAmount(ledger.forSC);
    return Success(Output(ledger.forSC, ledger.forFE, total));
  }
}
