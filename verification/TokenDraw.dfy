/**
 * Drawing by rejection: token ids for mints, and items for the random picks of the pages. Math.random is an
 * arbitrary stream of numbers in [0, 1).
 */
module TokenDraw {
  import opened Wrappers

  type Stream = nat -> real

  ghost predicate IsRandom(draw: Stream) {
    forall n: nat :: 0.0 <= draw(n) < 1.0
  }

  // Multiplied by null, any number is 0.
  function TokenAt(r: real, maxSupply: Option<nat>): (token: int)
    requires 0.0 <= r < 1.0
    ensures 1 <= token <= Ids(maxSupply)
  {
    RandomBelow(r, maxSupply.GetOr(0));
    (r * maxSupply.GetOr(0) as real).Floor + 1
  }

  // How many ids there are to draw: with no supply, or none given, always the one id 1
  function Ids(maxSupply: Option<nat>): nat {
    if maxSupply.GetOr(0) == 0 then 1 else maxSupply.value
  }

  lemma RandomBelow(r: real, n: nat)
    requires 0.0 <= r < 1.0
    ensures 0 <= (r * n as real).Floor
    ensures n > 0 ==> (r * n as real).Floor < n
    ensures n == 0 ==> (r * n as real).Floor == 0
  {
    if n > 0 {
      assert r * n as real < n as real;
    }
  }

  // The ids share the interval evenly: id t is drawn by the numbers from (t - 1) / n up to t / n.
  lemma DrawsEvenly(r: real, n: nat, t: int)
    requires 0.0 <= r < 1.0 && n > 0
    ensures TokenAt(r, Some(n)) == t <==> (t - 1) as real <= r * n as real < t as real
  {
    var x := r * n as real;
    assert x.Floor == t - 1 <==> (t - 1) as real <= x < t as real;
  }

  // The redraw loop ends on every stream that at some point hits an id not yet minted, and gives the first one.
  method DrawFree(draw: Stream, maxSupply: Option<nat>, minted: set<int>, ghost hit: nat)
    returns (tokenId: int, used: nat)
    requires IsRandom(draw)
    requires TokenAt(draw(hit), maxSupply) !in minted
    ensures 0 < used && tokenId == TokenAt(draw(used - 1), maxSupply) && tokenId !in minted
    ensures forall n: nat :: n < used - 1 ==> TokenAt(draw(n), maxSupply) in minted
  {
    tokenId, used := TokenAt(draw(0), maxSupply), 1;
    while tokenId in minted
      invariant 0 < used && tokenId == TokenAt(draw(used - 1), maxSupply)
      invariant forall n: nat :: n < used - 1 ==> TokenAt(draw(n), maxSupply) in minted
      invariant used - 1 <= hit
      decreases hit - used
    {
      tokenId := TokenAt(draw(used), maxSupply);
      used := used + 1;
    }
  }

  function UpTo(n: nat): (s: set<int>)
    ensures forall t :: t in s <==> 1 <= t <= n
    ensures |s| == n
  {
    if n == 0 then {} else UpTo(n - 1) + {n}
  }

  lemma SubsetCount(a: set<int>, b: set<int>)
    requires a <= b
    ensures |a| <= |b|
    ensures |a| == |b| ==> a == b
  {
    assert b == a + (b - a);
    assert |b| == |a| + |b - a|;
  }

  // Some draw can end the loop exactly when fewer ids are minted than there are to draw.
  lemma FreeIdExists(maxSupply: Option<nat>, minted: set<int>)
    ensures (exists r :: 0.0 <= r < 1.0 && TokenAt(r, maxSupply) !in minted)
       <==> |minted * UpTo(Ids(maxSupply))| < Ids(maxSupply)
  {
    var n := Ids(maxSupply);
    var taken := minted * UpTo(n);
    SubsetCount(taken, UpTo(n));
    if r :| 0.0 <= r < 1.0 && TokenAt(r, maxSupply) !in minted {
      assert TokenAt(r, maxSupply) in UpTo(n) && TokenAt(r, maxSupply) !in taken;
    }
    if |taken| < n {
      assert taken != UpTo(n);
      var t :| t in UpTo(n) && t !in taken;
      var r := DrawOf(t, maxSupply);
    }
  }

  // Every id can be drawn.
  lemma DrawOf(token: int, maxSupply: Option<nat>) returns (r: real)
    requires 1 <= token <= Ids(maxSupply)
    ensures 0.0 <= r < 1.0 && TokenAt(r, maxSupply) == token
  {
    var n := maxSupply.GetOr(0);
    if n == 0 {
      r := 0.0;
    } else {
      r := (token - 1) as real / n as real;
      assert r * n as real == (token - 1) as real;
      assert (1.0 - r) * n as real == n as real - (token - 1) as real;
    }
  }

  // ---- a run of mints ----

  // Mint k draws an id that is free going by what its check sees, visible[k].
  ghost predicate MintRun(ids: seq<int>, visible: seq<set<int>>, maxSupply: Option<nat>) {
    && |visible| == |ids|
    && forall k :: 0 <= k < |ids| ==> 1 <= ids[k] <= Ids(maxSupply) && ids[k] !in visible[k]
  }

  ghost predicate SeesEarlier(ids: seq<int>, visible: seq<set<int>>)
    requires |visible| == |ids|
  {
    forall j, k :: 0 <= j < k < |ids| ==> ids[j] in visible[k]
  }

  lemma {:induction false} DistinctCount(ids: seq<int>)
    requires forall j, k :: 0 <= j < k < |ids| ==> ids[j] != ids[k]
    ensures |IdSet(ids)| == |ids|
  {
    if ids != [] {
      var init, last := ids[..|ids| - 1], ids[|ids| - 1];
      DistinctCount(init);
      assert last !in init;
      assert IdSet(ids) == IdSet(init) + {last};
    }
  }

  // When each check sees all earlier mints, ids are pairwise distinct, so there are at most as many mints as ids,
  // and the next mint finds a free id exactly while the supply is not used up.
  lemma MintsAreDistinct(ids: seq<int>, visible: seq<set<int>>, maxSupply: Option<nat>)
    requires MintRun(ids, visible, maxSupply) && SeesEarlier(ids, visible)
    ensures forall j, k :: 0 <= j < k < |ids| ==> ids[j] != ids[k]
    ensures |ids| <= Ids(maxSupply)
    ensures (exists r :: 0.0 <= r < 1.0 && TokenAt(r, maxSupply) !in IdSet(ids)) <==> |ids| < Ids(maxSupply)
  {
    DistinctCount(ids);
    SubsetCount(IdSet(ids), UpTo(Ids(maxSupply)));
    FreeIdExists(maxSupply, IdSet(ids));
    assert IdSet(ids) * UpTo(Ids(maxSupply)) == IdSet(ids);
  }

  ghost predicate Distinct(ids: seq<int>) {
    forall j, k :: 0 <= j < k < |ids| ==> ids[j] != ids[k]
  }

  // A run in which check k sees the first seen[k] mints
  ghost predicate LaggedRun(ids: seq<int>, seen: seq<nat>, maxSupply: Option<nat>)
    requires |ids| <= |seen| && forall k :: 0 <= k < |ids| ==> seen[k] <= k
  {
    forall k :: 0 <= k < |ids| ==> 1 <= ids[k] <= Ids(maxSupply) && ids[k] !in IdSet(ids[..seen[k]])
  }

  // With a check that misses a mint before it, if ids last until then, there is a run that repeats an id.
  lemma LaggingCheckRepeats(seen: seq<nat>, bad: nat, maxSupply: Option<nat>)
    requires bad < |seen| && seen[bad] < bad <= Ids(maxSupply)
    requires forall k :: 0 <= k < bad ==> seen[k] <= k
    ensures var ids := seq(bad + 1, k => if k < bad then k + 1 else bad);
      LaggedRun(ids, seen, maxSupply) && !Distinct(ids)
  {
    var ids := seq(bad + 1, k => if k < bad then k + 1 else bad);
    assert ids[bad - 1] == ids[bad];
    forall k | 0 <= k <= bad ensures ids[k] !in IdSet(ids[..seen[k]]) {
      assert forall j :: 0 <= j < seen[k] ==> ids[..seen[k]][j] == j + 1;
    }
  }

  lemma PromptRunIsMintRun(ids: seq<int>, seen: seq<nat>, maxSupply: Option<nat>)
    requires |ids| <= |seen| && (forall k :: 0 <= k < |ids| ==> seen[k] == k) && LaggedRun(ids, seen, maxSupply)
    ensures Distinct(ids) && |ids| <= Ids(maxSupply)
  {
    var visible := seq(|ids|, k requires 0 <= k < |ids| => IdSet(ids[..k]));
    forall j, k | 0 <= j < k < |ids| ensures ids[j] in visible[k] {
      assert ids[..k][j] == ids[j];
    }
    MintsAreDistinct(ids, visible, maxSupply);
  }

  // Exactly which visibility keeps ids distinct: no run, however long, gives an id out twice if and only if every
  // check up to the one after the last id sees all mints before it.
  lemma DistinctExactlyWithoutLag(seen: seq<nat>, maxSupply: Option<nat>)
    requires forall k :: 0 <= k < |seen| ==> seen[k] <= k
    ensures (forall ids | |ids| <= |seen| && LaggedRun(ids, seen, maxSupply) :: Distinct(ids))
       <==> (forall k :: 0 <= k < |seen| && k <= Ids(maxSupply) ==> seen[k] == k)
  {
    var n := Ids(maxSupply);
    if forall k :: 0 <= k < |seen| && k <= n ==> seen[k] == k {
      forall ids | |ids| <= |seen| && LaggedRun(ids, seen, maxSupply) ensures Distinct(ids) {
        if |ids| > n {
          var prefix := ids[..n + 1];
          assert forall k :: 0 <= k <= n ==> prefix[..k] == ids[..k];
          PromptRunIsMintRun(prefix, seen, maxSupply);
          assert false;
        }
        PromptRunIsMintRun(ids, seen, maxSupply);
      }
    } else {
      var bad :| 0 <= bad < |seen| && bad <= n && seen[bad] != bad;
      LaggingCheckRepeats(seen, bad, maxSupply);
    }
  }

  // ---- random.ts ----

  datatype Item = Item(id: int)

  function ItemAt(r: real, items: seq<Item>): (item: Item)
    requires 0.0 <= r < 1.0 && items != []
    ensures item in items
  {
    RandomBelow(r, |items|);
    items[(r * |items| as real).Floor]
  }

  // The same for items: the one at place k is drawn by the numbers from k / n up to (k + 1) / n.
  lemma ItemsEvenly(r: real, items: seq<Item>, k: nat)
    requires 0.0 <= r < 1.0 && k < |items| && k as real <= r * |items| as real < (k + 1) as real
    ensures ItemAt(r, items) == items[k]
  {
    var x := r * |items| as real;
    assert x.Floor == k;
  }

  class Selection {
    var ids: set<int>

    constructor ()
      ensures ids == {}
    {
      ids := {};
    }

    method GetUniqueRandomItem(draw: Stream, items: seq<Item>, ghost hit: nat) returns (item: Item, used: nat)
      requires IsRandom(draw) && items != []
      requires ItemAt(draw(hit), items).id !in ids
      modifies this
      ensures item in items && item.id !in old(ids) && ids == old(ids) + {item.id}
      ensures 0 < used <= hit + 1 && item == ItemAt(draw(used - 1), items)
    {
      item, used := ItemAt(draw(0), items), 1;
      while item.id in ids
        invariant 0 < used <= hit + 1 && item == ItemAt(draw(used - 1), items)
        decreases hit - used
      {
        item := ItemAt(draw(used), items);
        used := used + 1;
      }
      ids := ids + {item.id};
    }

    // The second item differs from the first and from everything picked before; the stream must hit such an item
    // after any place the first draw can end.
    method GetTwoUniqueRandomItems(draw: Stream, items: seq<Item>, ghost hit: nat, ghost next: nat)
      returns (first: Item, second: Item)
      requires IsRandom(draw) && items != []
      requires ItemAt(draw(hit), items).id !in ids
      requires next > hit && ItemAt(draw(next), items).id !in ids
      requires forall n: nat :: n <= hit ==> ItemAt(draw(n), items).id != ItemAt(draw(next), items).id
      modifies this
      ensures first in items && second in items && first.id != second.id
      ensures first.id !in old(ids) && second.id !in old(ids) && ids == old(ids) + {first.id, second.id}
    {
      var used;
      first, used := GetUniqueRandomItem(draw, items, hit);
      var later: Stream := (n: nat) => draw(n + used);
      assert later(next - used) == draw(next);
      assert forall n: nat :: later(n) == draw(n + used);
      second, used := GetUniqueRandomItem(later, items, next - used);
    }
  }
}
