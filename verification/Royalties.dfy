/** Royalties of a wallet: the floored split of creator fees among members, the basis points shown,
    and claimable amounts per token and in total. */
module Royalties {
  import opened Base
  import opened Arithmetic

  /** A row of the query: the token's creator fees, what the wallet has claimed, and, when the token has
      royalty members, the wallet's share (if it is one) and the sum of all shares. */
  datatype Row = Row(creatorFees: nat, claimed: nat, walletShare: Option<nat>, totalShares: Option<nat>)

  function Earned(r: Row): nat {
    if r.walletShare.Some? && r.totalShares.Some? && r.totalShares.value > 0
    then r.creatorFees * r.walletShare.value / r.totalShares.value
    else r.creatorFees
  }

  /** The share shown, in hundredths of a percent. */
  function BasisPoints(r: Row): nat {
    if r.walletShare.Some? && r.totalShares.Some? then
      if r.totalShares.value > 0 then r.walletShare.value * 10000 / r.totalShares.value else 0
    else 10000
  }

  function Claimable(earned: int, claimed: int): nat {
    if earned > claimed then earned - claimed else 0
  }

  function SumEarned(rs: seq<Row>): nat {
    if rs == [] then 0 else SumEarned(rs[..|rs| - 1]) + Earned(rs[|rs| - 1])
  }

  function SumClaimed(rs: seq<Row>): nat {
    if rs == [] then 0 else SumClaimed(rs[..|rs| - 1]) + rs[|rs| - 1].claimed
  }

  function SumClaimable(rs: seq<Row>): nat {
    if rs == [] then 0
    else SumClaimable(rs[..|rs| - 1]) + Claimable(Earned(rs[|rs| - 1]), rs[|rs| - 1].claimed)
  }

  function SumBasisPoints(rs: seq<Row>): nat {
    if rs == [] then 0 else SumBasisPoints(rs[..|rs| - 1]) + BasisPoints(rs[|rs| - 1])
  }

  /** The summary's total, from the two sums. */
  function TotalClaimable(rs: seq<Row>): nat {
    Claimable(SumEarned(rs), SumClaimed(rs))
  }

  function Shares(ws: seq<nat>): nat {
    if ws == [] then 0 else Shares(ws[..|ws| - 1]) + ws[|ws| - 1]
  }

  /** The row each member of one token sees. */
  function MemberRow(fees: nat, claimed: nat, share: nat, total: nat): Row {
    Row(fees, claimed, Some(share), Some(total))
  }

  /** Rows of all members of one token, whatever each has claimed. */
  ghost predicate MembersOf(rs: seq<Row>, fees: nat, ws: seq<nat>) {
    |rs| == |ws| && forall i :: 0 <= i < |ws| ==> rs[i] == MemberRow(fees, rs[i].claimed, ws[i], Shares(ws))
  }

  /** Sum of the floored parts of `amount` for shares ws out of `total`. */
  function FloorParts(amount: nat, ws: seq<nat>, total: nat): nat
    requires total > 0
  {
    if ws == [] then 0 else FloorParts(amount, ws[..|ws| - 1], total) + amount * ws[|ws| - 1] / total
  }

  /** What a wallet earns from a token: a member its share of the fees rounded down to a wei; a creator who is
      not a member, and a member of a token whose shares are all zero, the whole. */
  lemma EarnedMeaning(r: Row, k: nat)
    ensures var member := r.walletShare.Some? && r.totalShares.Some?;
            && (member && r.totalShares.value > 0 ==>
                  (k <= Earned(r) <==> k * r.totalShares.value <= r.creatorFees * r.walletShare.value))
            && (!member || r.totalShares.value == 0 ==> Earned(r) == r.creatorFees)
  {
    if r.walletShare.Some? && r.totalShares.Some? && r.totalShares.value > 0 {
      FloorMeaning(r.creatorFees * r.walletShare.value, r.totalShares.value, k);
    }
  }

  /** The share a wallet is shown: rounded down to a basis point for a member (none when all shares are zero),
      one hundred percent for a creator who is not one. */
  lemma BasisPointsMeaning(r: Row, k: nat)
    ensures var member := r.walletShare.Some? && r.totalShares.Some?;
            && (member && r.totalShares.value > 0 ==>
                  (k <= BasisPoints(r) <==> k * r.totalShares.value <= r.walletShare.value * 10000))
            && (member && r.totalShares.value == 0 ==> BasisPoints(r) == 0)
            && (!member ==> BasisPoints(r) == 100 * 100)
  {
    if r.walletShare.Some? && r.totalShares.Some? && r.totalShares.value > 0 {
      FloorMeaning(r.walletShare.value * 10000, r.totalShares.value, k);
    }
  }

  /** Flooring loses less than one unit of the denominator per part. */
  lemma {:induction false} FloorLoss(amount: nat, ws: seq<nat>, total: nat)
    requires total > 0
    ensures total * FloorParts(amount, ws, total) <= amount * Shares(ws)
            <= total * FloorParts(amount, ws, total) + |ws| * (total - 1)
  {
    if ws != [] {
      var front, w := ws[..|ws| - 1], ws[|ws| - 1];
      FloorLoss(amount, front, total);
      FloorStep(amount, Shares(front), w, total, FloorParts(amount, front, total), |front|);
    }
  }

  /** One more part of size amount * w / total, in products. */
  lemma FloorStep(amount: nat, shares: nat, w: nat, total: nat, parts: nat, n: nat)
    requires total > 0
    requires total * parts <= amount * shares <= total * parts + n * (total - 1)
    ensures var q := amount * w / total;
            total * (parts + q) <= amount * (shares + w) <= total * (parts + q) + (n + 1) * (total - 1)
  {
    var a := amount * w;
    var q := a / total;
    assert total * q <= a <= total * q + (total - 1);
    Distribute(amount, shares, w);
    Distribute(total, parts, q);
    Distribute(total - 1, n, 1);
  }

  lemma Distribute(x: nat, y: nat, z: nat)
    ensures x * (y + z) == x * y + x * z
  {
  }

  /** The parts of the whole: between amount - (n - 1) and amount. */
  lemma WholeSplit(amount: nat, ws: seq<nat>)
    requires Shares(ws) > 0
    ensures var s := FloorParts(amount, ws, Shares(ws)); amount - (|ws| - 1) <= s <= amount
  {
    var total := Shares(ws);
    var s, n := FloorParts(amount, ws, total), |ws|;
    FloorLoss(amount, ws, total);
    assert ws != [];
    hide FloorParts, Shares;
    if s > amount {
      MulGap(total, amount, s);
      assert false;
    }
    if s + n - 1 < amount {
      MulGap(total, s + n - 1, amount);
      SpreadOut(total, s, n);
      assert false;
    }
  }

  lemma SpreadOut(total: nat, s: nat, n: nat)
    requires n > 0
    ensures total * (s + n - 1) + total == total * s + n * (total - 1) + n
  {
  }

  lemma {:induction false} MemberSums(rs: seq<Row>, fees: nat, ws: seq<nat>, total: nat)
    requires |rs| == |ws| && total > 0
    requires forall i :: 0 <= i < |ws| ==> rs[i] == MemberRow(fees, rs[i].claimed, ws[i], total)
    ensures SumEarned(rs) == FloorParts(fees, ws, total)
    ensures SumBasisPoints(rs) == FloorParts(10000, ws, total)
  {
    if ws != [] {
      var n := |ws| - 1;
      MemberSums(rs[..n], fees, ws[..n], total);
      assert rs[n] == MemberRow(fees, rs[n].claimed, ws[n], total);
      assert ws[n] * 10000 == 10000 * ws[n];
    }
  }

  /** Royalty split: for n members whose shares are not all zero, the floored earnings sum to between
      E - (n - 1) and E, and the basis points to between 10000 - (n - 1) and 10000. */
  lemma RoyaltySplit(rs: seq<Row>, fees: nat, ws: seq<nat>)
    requires MembersOf(rs, fees, ws) && Shares(ws) > 0
    ensures fees - (|ws| - 1) <= SumEarned(rs) <= fees
    ensures 10000 - (|ws| - 1) <= SumBasisPoints(rs) <= 10000
  {
    MemberSums(rs, fees, ws, Shares(ws));
    WholeSplit(fees, ws);
    WholeSplit(10000, ws);
  }

  /** A creator who is not among the members is shown the whole amount too, so the wallets of the token
      together see nearly twice the fees. */
  lemma CreatorCountedTwice(rs: seq<Row>, fees: nat, ws: seq<nat>, creator: Row)
    requires MembersOf(rs, fees, ws) && Shares(ws) > 0
    requires creator.creatorFees == fees && creator.walletShare.None?
    ensures SumEarned(rs + [creator]) >= 2 * fees - (|ws| - 1)
    ensures SumEarned(rs + [creator]) <= fees <==> SumEarned(rs) == 0
  {
    RoyaltySplit(rs, fees, ws);
    assert (rs + [creator])[..|rs|] == rs;
  }

  /** No token where the wallet claimed more than it earned beside one where it claimed less. */
  ghost predicate OneSided(rs: seq<Row>) {
    (forall i :: 0 <= i < |rs| ==> Earned(rs[i]) >= rs[i].claimed)
    || (forall i :: 0 <= i < |rs| ==> Earned(rs[i]) <= rs[i].claimed)
  }

  lemma {:induction false} ClaimableSums(rs: seq<Row>)
    ensures SumClaimable(rs) >= SumEarned(rs) - SumClaimed(rs)
    ensures SumClaimable(rs) == SumEarned(rs) - SumClaimed(rs)
            <==> forall i :: 0 <= i < |rs| ==> Earned(rs[i]) >= rs[i].claimed
    ensures SumClaimable(rs) == 0 <==> forall i :: 0 <= i < |rs| ==> Earned(rs[i]) <= rs[i].claimed
  {
    if rs != [] {
      var front, n := rs[..|rs| - 1], |rs| - 1;
      hide Earned;
      ClaimableSums(front);
      assert forall i :: 0 <= i < n ==> front[i] == rs[i];
      assert (forall i :: 0 <= i < |rs| ==> Earned(rs[i]) >= rs[i].claimed)
        <==> (forall i :: 0 <= i < n ==> Earned(front[i]) >= front[i].claimed) && Earned(rs[n]) >= rs[n].claimed;
      assert (forall i :: 0 <= i < |rs| ==> Earned(rs[i]) <= rs[i].claimed)
        <==> (forall i :: 0 <= i < n ==> Earned(front[i]) <= front[i].claimed) && Earned(rs[n]) <= rs[n].claimed;
    }
  }

  /** The wallet's total claimable never exceeds the sum of its per-token claimables, and is equal to it
      exactly when no token is over-claimed beside one that is not fully claimed. */
  lemma TotalWithinTokens(rs: seq<Row>)
    ensures TotalClaimable(rs) <= SumClaimable(rs)
    ensures TotalClaimable(rs) == SumClaimable(rs) <==> OneSided(rs)
  {
    ClaimableSums(rs);
  }
}
