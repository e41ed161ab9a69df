/**
 * Classification of a `tvl_tier` label into one of the four tiers, by looking
 * for the markers "tier1" .. "tier4" in that order.
 */
module Tiers {
  import opened Wrappers
  import opened Domain

  /** `s.includes(sub)`: does `sub` occur in `s` as a contiguous piece? */
  function Includes(s: string, sub: string): bool
    decreases |s|
  {
    if |sub| > |s| then false
    else if s[..|sub|] == sub then true
    else Includes(s[1..], sub)
  }

  /** `sub` occurs in `s` starting at position `i`. */
  ghost predicate OccursAt(s: string, sub: string, i: nat) {
    i + |sub| <= |s| && s[i..i + |sub|] == sub
  }

  /** Reference definition of substring containment. */
  ghost predicate Contains(s: string, sub: string) {
    exists i: nat :: OccursAt(s, sub, i)
  }

  /** The left-to-right scan finds `sub` exactly when it occurs somewhere in `s`. */
  lemma {:induction false} IncludesIsContains(s: string, sub: string)
    ensures Includes(s, sub) <==> Contains(s, sub)
    decreases |s|
  {
    if |sub| > |s| {
    } else if s[..|sub|] == sub {
      assert OccursAt(s, sub, 0);
    } else {
      IncludesIsContains(s[1..], sub);
      if Includes(s[1..], sub) {
        var i: nat :| OccursAt(s[1..], sub, i);
        assert s[1..][i..i + |sub|] == s[i + 1..i + 1 + |sub|];
        assert OccursAt(s, sub, i + 1);
      }
      if Contains(s, sub) {
        var i: nat :| OccursAt(s, sub, i);
        assert i != 0;
        assert s[1..][i - 1..i - 1 + |sub|] == s[i..i + |sub|];
        assert OccursAt(s[1..], sub, i - 1);
      }
    }
  }

  /** The marker a label must contain to be classified as tier `t`. */
  function Marker(t: Tier): string {
    match t
    case T1 => "tier1"
    case T2 => "tier2"
    case T3 => "tier3"
    case T4 => "tier4"
  }

  /** The markers in the order the classifier tries them. */
  const MarkerOrder: seq<Tier> := [T1, T2, T3, T4]

  /** Position of `t` in MarkerOrder. */
  function Rank(t: Tier): (k: nat)
    ensures k < |MarkerOrder| && MarkerOrder[k] == t
  {
    match t
    case T1 => 0
    case T2 => 1
    case T3 => 2
    case T4 => 3
  }

  /**
   * parseTier: the first marker found, in the order tier1, tier2, tier3, tier4,
   * decides the tier; a label with none of them is rejected.
   */
  function ParseTier(tvlTier: string): (r: Result<Tier, Error>)
    ensures r.Success? ==> Includes(tvlTier, Marker(r.value))
    ensures r.Success? ==> forall t :: Rank(t) < Rank(r.value) ==> !Includes(tvlTier, Marker(t))
    ensures r.Failure? <==> forall t :: !Includes(tvlTier, Marker(t))
    ensures r.Failure? ==> r.error == InvalidTier(tvlTier)
  {
    if Includes(tvlTier, "tier1") then Success(T1)
    else if Includes(tvlTier, "tier2") then Success(T2)
    else if Includes(tvlTier, "tier3") then Success(T3)
    else if Includes(tvlTier, "tier4") then Success(T4)
    else Failure(InvalidTier(tvlTier))
  }

  /** Reference: walk an ordered list of markers and return the first one found. */
  function FirstMarked(tvlTier: string, order: seq<Tier>): (r: Option<Tier>)
    ensures r.Some? ==> r.value in order && Includes(tvlTier, Marker(r.value))
    ensures r.Some? ==> exists k :: 0 <= k < |order| && order[k] == r.value &&
                                    (forall j :: 0 <= j < k ==> !Includes(tvlTier, Marker(order[j])))
    ensures r.None? <==> forall k :: 0 <= k < |order| ==> !Includes(tvlTier, Marker(order[k]))
  {
    if order == [] then None
    else if Includes(tvlTier, Marker(order[0])) then Some(order[0])
    else FirstMarked(tvlTier, order[1..])
  }

  /** The chain of tests in ParseTier is the first-match scan of MarkerOrder. */
  lemma ParseTierIsFirstMatch(tvlTier: string)
    ensures ParseTier(tvlTier) == match FirstMarked(tvlTier, MarkerOrder)
                                case Some(t) => Success(t)
                                case None => Failure(InvalidTier(tvlTier))
  {
    var o := MarkerOrder;
    assert o[1..] == [T2, T3, T4] && o[1..][1..] == [T3, T4] && o[1..][1..][1..] == [T4];
    assert FirstMarked(tvlTier, [T4]) == if Includes(tvlTier, "tier4") then Some(T4) else None;
    assert FirstMarked(tvlTier, [T3, T4]) == if Includes(tvlTier, "tier3") then Some(T3) else FirstMarked(tvlTier, [T4]);
    assert FirstMarked(tvlTier, [T2, T3, T4]) == if Includes(tvlTier, "tier2") then Some(T2) else FirstMarked(tvlTier, [T3, T4]);
    assert FirstMarked(tvlTier, o) == if Includes(tvlTier, "tier1") then Some(T1) else FirstMarked(tvlTier, [T2, T3, T4]);
  }

  /** A label containing "tier1" is tier 1, whatever other markers it holds. */
  lemma Tier1Wins(tvlTier: string)
    requires Contains(tvlTier, "tier1")
    ensures ParseTier(tvlTier) == Success(T1)
  {
    IncludesIsContains(tvlTier, "tier1");
  }

  /** A string lacking one of the characters of `sub` does not include `sub`. */
  lemma {:induction false} MissingCharExcludes(s: string, sub: string, k: nat)
    requires k < |sub| && sub[k] !in s
    ensures !Includes(s, sub)
  {
    IncludesIsContains(s, sub);
    if Contains(s, sub) {
      var i: nat :| OccursAt(s, sub, i);
      assert false;
    }
  }

  /** The label of the next example carries no `tier1` marker ... */
  lemma LacksTier1()
    ensures !Includes("tier3-tier2", "tier1")
  {
    assert '1' !in "tier3-tier2";
    MissingCharExcludes("tier3-tier2", "tier1", 4);
  }

  /** ... but does carry a `tier2` marker, at position 6. */
  lemma HasTier2()
    ensures Includes("tier3-tier2", "tier2")
  {
    assert OccursAt("tier3-tier2", "tier2", 6);
    IncludesIsContains("tier3-tier2", "tier2");
  }

  /** A label carrying several markers is classified by the earliest in the order, not by position. */
  lemma SeveralMarkersExample()
    ensures ParseTier("tier3-tier2") == Success(T2)
  {
    LacksTier1();
    HasTier2();
  }

  /** A label with no marker is rejected. */
  lemma NoMarkerExample()
    ensures ParseTier("gold") == Failure(InvalidTier("gold"))
  {
    forall t ensures !Includes("gold", Marker(t)) {
      MissingCharExcludes("gold", Marker(t), 0);
    }
  }
}
