/**
 * The guarantees of a whole run, from empty tables over the eight input files,
 * stated in terms of the files themselves.
 */
module RunFacts {
  import opened Wrappers
  import opened Domain
  import opened Tiers
  import opened Aggregation
  import opened Ledger
  import opened Properties

  /** The four files of partition `p`. */
  function FilesOf(part1: PartitionFiles, part2: PartitionFiles, p: Partition): PartitionFiles {
    match p
    case Part1 => part1
    case Part2 => part2
  }

  /** Some row of `rows` names address `a`. */
  ghost predicate InFile(rows: seq<Row>, a: Address) {
    exists j :: 0 <= j < |rows| && rows[j].user == a
  }

  /** Position of a category in the order its file is read. */
  function CategoryIndex(c: Category): (k: nat)
    ensures k < |Categories| && Categories[k] == c
  {
    match c
    case Btcb => 0
    case Busd => 1
    case Eth => 2
    case Usdt => 3
  }

  /** Every tagged row of the files of `cs` comes from one of those files. */
  lemma {:induction false} TagFilesFrom(p: Partition, files: PartitionFiles, cs: seq<Category>, i: nat)
    requires i < |TagFiles(p, files, cs)|
    ensures TagFiles(p, files, cs)[i].partition == p
    ensures TagFiles(p, files, cs)[i].row in files.Rows(TagFiles(p, files, cs)[i].category)
    decreases |cs|
  {
    var init := TagFiles(p, files, cs[..|cs| - 1]);
    if i < |init| {
      TagFilesFrom(p, files, cs[..|cs| - 1], i);
    }
  }

  /** Every row of the schedule comes from the file of its partition and category. */
  lemma ScheduleFrom(part1: PartitionFiles, part2: PartitionFiles, i: nat)
    requires i < |Schedule(part1, part2)|
    ensures var x := Schedule(part1, part2)[i];
      InFile(FilesOf(part1, part2, x.partition).Rows(x.category), x.row.user)
  {
    var s1 := TagFiles(Part1, part1, Categories);
    var x := Schedule(part1, part2)[i];
    if i < |s1| {
      TagFilesFrom(Part1, part1, Categories, i);
    } else {
      TagFilesFrom(Part2, part2, Categories, i - |s1|);
    }
    var rows := FilesOf(part1, part2, x.partition).Rows(x.category);
    var j :| 0 <= j < |rows| && rows[j] == x.row;
  }

  /** Position in the schedule of the first row of file (p, c): after every earlier file. */
  function FileStart(part1: PartitionFiles, part2: PartitionFiles, p: Partition, c: Category): nat {
    var before := |TagFiles(p, FilesOf(part1, part2, p), Categories[..CategoryIndex(c)])|;
    match p
    case Part1 => before
    case Part2 => |TagFiles(Part1, part1, Categories)| + before
  }

  /** Among the files of `cs`, row j of file cs[k] sits after all rows of the files before it. */
  lemma FileInTagFiles(p: Partition, files: PartitionFiles, cs: seq<Category>, k: nat, j: nat)
    requires k < |cs| && j < |files.Rows(cs[k])|
    ensures var o := |TagFiles(p, files, cs[..k])|;
      o + j < |TagFiles(p, files, cs)| && TagFiles(p, files, cs)[o + j] == Tagged(p, cs[k], files.Rows(cs[k])[j])
  {
    var before := TagFiles(p, files, cs[..k]);
    var tag := Tag(p, cs[k], files.Rows(cs[k]));
    var upto := TagFiles(p, files, cs[..k + 1]);
    TagFilesNext(p, files, cs, k);
    assert upto == before + tag;
    assert upto[|before| + j] == tag[j];
    TagFilesPrefix(p, files, cs, k + 1);
  }

  /** Row i of the first of two sequences is row i of their concatenation. */
  lemma ConcatLeft(s1: seq<Tagged>, s2: seq<Tagged>, i: nat)
    requires i < |s1|
    ensures (s1 + s2)[i] == s1[i]
  {
  }

  /** Row i of the second of two sequences is row |s1| + i of their concatenation. */
  lemma ConcatRight(s1: seq<Tagged>, s2: seq<Tagged>, i: nat)
    requires i < |s2|
    ensures (s1 + s2)[|s1| + i] == s2[i]
  {
  }

  /** Row j of file (p, c) sits at position FileStart(p, c) + j of the schedule. */
  lemma FileInSchedule(part1: PartitionFiles, part2: PartitionFiles, p: Partition, c: Category, j: nat)
    requires j < |FilesOf(part1, part2, p).Rows(c)|
    ensures var o := FileStart(part1, part2, p, c);
      o + j < |Schedule(part1, part2)| && Schedule(part1, part2)[o + j] == Tagged(p, c, FilesOf(part1, part2, p).Rows(c)[j])
  {
    var k := CategoryIndex(c);
    var s1 := TagFiles(Part1, part1, Categories);
    var s2 := TagFiles(Part2, part2, Categories);
    match p
    case Part1 =>
      FileInTagFiles(Part1, part1, Categories, k, j);
      ConcatLeft(s1, s2, |TagFiles(Part1, part1, Categories[..k])| + j);
    case Part2 =>
      FileInTagFiles(Part2, part2, Categories, k, j);
      ConcatRight(s1, s2, |TagFiles(Part2, part2, Categories[..k])| + j);
  }

  /** A slot has a row in the schedule exactly when the file of that slot names the address. */
  lemma HasRowIffInFile(part1: PartitionFiles, part2: PartitionFiles, a: Address, p: Partition, c: Category)
    ensures HasRow(Schedule(part1, part2), a, p, c) <==> InFile(FilesOf(part1, part2, p).Rows(c), a)
  {
    var s := Schedule(part1, part2);
    var rows := FilesOf(part1, part2, p).Rows(c);
    if HasRow(s, a, p, c) {
      var i :| 0 <= i < |s| && s[i].row.user == a && s[i].partition == p && s[i].category == c;
      ScheduleFrom(part1, part2, i);
    }
    if InFile(rows, a) {
      var j :| 0 <= j < |rows| && rows[j].user == a;
      FileInSchedule(part1, part2, p, c, j);
    }
  }

  /** An address appears in partition p exactly when one of the four files of p names it. */
  lemma AppearsIffInFiles(part1: PartitionFiles, part2: PartitionFiles, a: Address, p: Partition)
    ensures Appears(Schedule(part1, part2), a, p) <==> exists c :: InFile(FilesOf(part1, part2, p).Rows(c), a)
  {
    var s := Schedule(part1, part2);
    if Appears(s, a, p) {
      var i :| 0 <= i < |s| && s[i].row.user == a && s[i].partition == p;
      HasRowIffInFile(part1, part2, a, p, s[i].category);
    }
    if exists c :: InFile(FilesOf(part1, part2, p).Rows(c), a) {
      var c :| InFile(FilesOf(part1, part2, p).Rows(c), a);
      HasRowIffInFile(part1, part2, a, p, c);
    }
  }

  /** The address of some row of the schedule is named by some file. */
  lemma UsersIffInFiles(part1: PartitionFiles, part2: PartitionFiles, a: Address)
    ensures a in Users(Schedule(part1, part2)) <==> exists p, c :: InFile(FilesOf(part1, part2, p).Rows(c), a)
  {
    var s := Schedule(part1, part2);
    if a in Users(s) {
      var i :| 0 <= i < |s| && s[i].row.user == a;
      HasRowIffInFile(part1, part2, a, s[i].partition, s[i].category);
    }
    if exists p, c :: InFile(FilesOf(part1, part2, p).Rows(c), a) {
      var p, c :| InFile(FilesOf(part1, part2, p).Rows(c), a);
      HasRowIffInFile(part1, part2, a, p, c);
    }
  }

  /**
   * A run succeeds exactly when every row has a valid address and a tier
   * marker and no address occurs twice for the same (partition, category).
   */
  lemma RunSucceedsIff(part1: PartitionFiles, part2: PartitionFiles, valid: string -> bool)
    ensures RunResult(part1, part2, valid).Success? <==>
              RowsValid(Schedule(part1, part2), valid) && NoDuplicates(Schedule(part1, part2))
  {
    FoldSucceedsIff(Empty, Schedule(part1, part2), valid);
  }

  /** One row with an invalid address or without a tier marker, in any file, aborts the run. */
  lemma InvalidRowAborts(part1: PartitionFiles, part2: PartitionFiles, valid: string -> bool,
                         p: Partition, c: Category, j: nat)
    requires var rows := FilesOf(part1, part2, p).Rows(c);
      j < |rows| && (!valid(rows[j].user) || ParseTier(rows[j].tvlTier).Failure?)
    ensures RunResult(part1, part2, valid).Failure?
  {
    FileInSchedule(part1, part2, p, c, j);
    RunSucceedsIff(part1, part2, valid);
  }

  /** Two rows for the same address in one file abort the run. */
  lemma DuplicateInFileAborts(part1: PartitionFiles, part2: PartitionFiles, valid: string -> bool,
                              p: Partition, c: Category, j: nat, k: nat)
    requires var rows := FilesOf(part1, part2, p).Rows(c);
      j < k < |rows| && rows[j].user == rows[k].user
    ensures RunResult(part1, part2, valid).Failure?
  {
    FileInSchedule(part1, part2, p, c, j);
    FileInSchedule(part1, part2, p, c, k);
    RunSucceedsIff(part1, part2, valid);
  }

  /** After a successful run, both tables have an entry exactly for the addresses some file names. */
  lemma RunKeys(part1: PartitionFiles, part2: PartitionFiles, valid: string -> bool, a: Address)
    requires RunResult(part1, part2, valid).Success?
    ensures var o := RunResult(part1, part2, valid).value;
      a in o.forSC <==> exists p, c :: InFile(FilesOf(part1, part2, p).Rows(c), a)
    ensures var o := RunResult(part1, part2, valid).value;
      a in o.forFE <==> a in o.forSC
  {
    var s := Schedule(part1, part2);
    FoldAccounts(Empty, s, valid);
    FoldDisplayKeys(Empty, s, valid);
    UsersIffInFiles(part1, part2, a);
  }

  /** After a successful run, an address's amount is the sum of the amounts of its rows. */
  lemma RunAmount(part1: PartitionFiles, part2: PartitionFiles, valid: string -> bool, a: Address)
    requires RunResult(part1, part2, valid).Success?
    requires a in RunResult(part1, part2, valid).value.forSC
    ensures RunResult(part1, part2, valid).value.forSC[a].cakeAmountInWei == AmountFor(Schedule(part1, part2), a)
  {
    FoldAccounts(Empty, Schedule(part1, part2), valid);
  }

  /** The total of a successful run is the sum of the amounts of all rows. */
  lemma RunTotal(part1: PartitionFiles, part2: PartitionFiles, valid: string -> bool)
    requires RunResult(part1, part2, valid).Success?
    ensures RunResult(part1, part2, valid).value.totalCakeAmount == SumAmounts(Schedule(part1, part2))
  {
    FoldTotal(Empty, Schedule(part1, part2), valid);
  }

  /** After a successful run, the flag of partition p is set exactly when a file of partition p names the address. */
  lemma RunEligibility(part1: PartitionFiles, part2: PartitionFiles, valid: string -> bool, a: Address, p: Partition)
    requires RunResult(part1, part2, valid).Success?
    requires a in RunResult(part1, part2, valid).value.forSC
    ensures RunResult(part1, part2, valid).value.forSC[a].Eligible(p) <==>
              exists c :: InFile(FilesOf(part1, part2, p).Rows(c), a)
  {
    FoldAccounts(Empty, Schedule(part1, part2), valid);
    AppearsIffInFiles(part1, part2, a, p);
  }

  /** After a successful run, slot [p][c] of an address holds the tier of the row of file (p, c) that names it. */
  lemma RunSlotsFilled(part1: PartitionFiles, part2: PartitionFiles, valid: string -> bool,
                       p: Partition, c: Category, j: nat)
    requires RunResult(part1, part2, valid).Success?
    requires j < |FilesOf(part1, part2, p).Rows(c)|
    ensures var row := FilesOf(part1, part2, p).Rows(c)[j];
      ParseTier(row.tvlTier).Success? &&
      SlotOf(RunResult(part1, part2, valid).value.forFE, row.user, p, c) == Some(ParseTier(row.tvlTier).value)
  {
    FileInSchedule(part1, part2, p, c, j);
    SlotOfRow(Empty, Schedule(part1, part2), valid, FileStart(part1, part2, p, c) + j,
              Tagged(p, c, FilesOf(part1, part2, p).Rows(c)[j]));
  }

  /** After a successful run, slot [p][c] of an address that file (p, c) does not name is null. */
  lemma RunSlotsEmpty(part1: PartitionFiles, part2: PartitionFiles, valid: string -> bool,
                      a: Address, p: Partition, c: Category)
    requires RunResult(part1, part2, valid).Success?
    requires !InFile(FilesOf(part1, part2, p).Rows(c), a)
    ensures SlotOf(RunResult(part1, part2, valid).value.forFE, a, p, c) == None
  {
    FoldSlots(Empty, Schedule(part1, part2), valid);
    HasRowIffInFile(part1, part2, a, p, c);
  }

  /**
   * An address named only in partition-1 files ends with nft2 false and all
   * four partition-2 slots null.
   */
  lemma Part1OnlyAddress(part1: PartitionFiles, part2: PartitionFiles, valid: string -> bool, a: Address)
    requires RunResult(part1, part2, valid).Success?
    requires exists c :: InFile(part1.Rows(c), a)
    requires forall c :: !InFile(part2.Rows(c), a)
    ensures var o := RunResult(part1, part2, valid).value;
      a in o.forSC && o.forSC[a].nft1 && !o.forSC[a].nft2
    ensures var o := RunResult(part1, part2, valid).value;
      a in o.forFE && forall c :: o.forFE[a].Get(Part2, c) == None
  {
    var c :| InFile(part1.Rows(c), a);
    assert InFile(FilesOf(part1, part2, Part1).Rows(c), a);
    RunKeys(part1, part2, valid, a);
    RunEligibility(part1, part2, valid, a, Part1);
    RunEligibility(part1, part2, valid, a, Part2);
    forall d ensures RunResult(part1, part2, valid).value.forFE[a].Get(Part2, d) == None {
      RunSlotsEmpty(part1, part2, valid, a, Part2, d);
    }
  }
}
