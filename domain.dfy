/**
 * The records of the reward aggregation pass: the input rows, the entry of the
 * on-chain table (forSC), the entry of the display table (forFE) with its eight
 * tier slots, and the errors that abort a run.
 */
module Domain {
  import opened Wrappers

  /** Account addresses are the strings the input rows carry, used as keys. */
  type Address = string

  /** The two award rounds ("part1", "part2"). */
  datatype Partition = Part1 | Part2

  /** The four pools of a round, in the order their input files are listed. */
  datatype Category = Btcb | Busd | Eth | Usdt

  const Categories: seq<Category> := [Btcb, Busd, Eth, Usdt]

  /** The four reward levels ('t1' .. 't4'). */
  datatype Tier = T1 | T2 | T3 | T4

  /**
   * One input row: the `user` and `tvl_tier` columns, and the prize already
   * converted to the token's smallest unit (the conversion is not modelled).
   */
  datatype Row = Row(user: string, tvlTier: string, amount: int)

  /** An entry of the on-chain table: running amount and one flag per partition. */
  datatype SCEntry = SCEntry(cakeAmountInWei: int, nft1: bool, nft2: bool)
  {
    /** The eligibility flag that belongs to partition `p`. */
    function Eligible(p: Partition): bool {
      match p
      case Part1 => nft1
      case Part2 => nft2
    }
  }

  /** The four category slots of one partition; None is the source's null. */
  datatype Slots = Slots(btcb: Option<Tier>, busd: Option<Tier>, eth: Option<Tier>, usdt: Option<Tier>)
  {
    function Get(c: Category): Option<Tier> {
      match c
      case Btcb => btcb
      case Busd => busd
      case Eth => eth
      case Usdt => usdt
    }

    function Set(c: Category, t: Tier): (s: Slots)
      ensures s.Get(c) == Some(t)
      ensures forall d :: d != c ==> s.Get(d) == Get(d)
    {
      match c
      case Btcb => this.(btcb := Some(t))
      case Busd => this.(busd := Some(t))
      case Eth => this.(eth := Some(t))
      case Usdt => this.(usdt := Some(t))
    }
  }

  /** An entry of the display table: one tier slot per (partition, category). */
  datatype FEEntry = FEEntry(part1: Slots, part2: Slots)
  {
    function Get(p: Partition, c: Category): Option<Tier> {
      match p
      case Part1 => part1.Get(c)
      case Part2 => part2.Get(c)
    }

    /** Fills slot `[p][c]` and leaves the seven other slots as they were. */
    function Set(p: Partition, c: Category, t: Tier): (e: FEEntry)
      ensures e.Get(p, c) == Some(t)
      ensures forall q, d :: (q, d) != (p, c) ==> e.Get(q, d) == Get(q, d)
    {
      match p
      case Part1 => this.(part1 := part1.Set(c, t))
      case Part2 => this.(part2 := part2.Set(c, t))
    }
  }

  const EmptySlots: Slots := Slots(None, None, None, None)

  /** The template a newly seen address starts from: all eight slots null. */
  const DefaultFE: FEEntry := FEEntry(EmptySlots, EmptySlots)

  /** The three ways a row aborts the run. */
  datatype Error =
    | InvalidAddress(user: string)
    | DuplicateUser(user: string, category: Category, partition: Partition)
    | InvalidTier(tvlTier: string)
}
