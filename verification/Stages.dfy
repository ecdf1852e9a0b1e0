/**
 * Which launch stage a visitor is offered. Dates are instants; the clock is read as one fixed `now`.
 */
module Stages {
  import opened Wrappers

  datatype Stage = Stage(
    id: int, price: Option<int>, start: Option<int>, finish: Option<int>,
    hasWhitelist: bool, whitelisted: bool, perUserLimit: Option<int>, reservations: Option<int>)

  function Price(s: Stage): int {
    s.price.GetOr(0)
  }

  predicate IsActive(s: Stage, now: int) {
    (s.start.None? || s.start.value < now) && (s.finish.None? || s.finish.value > now)
  }

  predicate IsEligible(s: Stage) {
    !s.hasWhitelist || s.whitelisted
  }

  // A limit of null or 0 is no limit.
  predicate ReachedLimit(s: Stage) {
    s.perUserLimit.GetOr(0) != 0 && s.reservations.GetOr(0) >= s.perUserLimit.value
  }

  predicate Usable(s: Stage, now: int) {
    IsActive(s, now) && IsEligible(s) && !ReachedLimit(s)
  }

  // ---- Array.prototype.sort with the price comparison: a stable insertion sort ----

  // A stage goes behind those that are as cheap as it is.
  function Insert(s: Stage, sorted: seq<Stage>): seq<Stage> {
    if sorted == [] then [s]
    else if Price(s) < Price(sorted[0]) then [s] + sorted
    else [sorted[0]] + Insert(s, sorted[1..])
  }

  function SortByPrice(stages: seq<Stage>): (r: seq<Stage>)
    ensures |r| == |stages|
  {
    if stages == [] then [] else
      InsertLength(stages[|stages| - 1], SortByPrice(stages[..|stages| - 1]));
      Insert(stages[|stages| - 1], SortByPrice(stages[..|stages| - 1]))
  }

  lemma {:induction false} InsertLength(s: Stage, sorted: seq<Stage>)
    ensures |Insert(s, sorted)| == |sorted| + 1
  {
    if sorted != [] { InsertLength(s, sorted[1..]); }
  }

  ghost predicate Sorted(stages: seq<Stage>) {
    forall i, j :: 0 <= i < j < |stages| ==> Price(stages[i]) <= Price(stages[j])
  }

  // The stages of one price, in order
  function OfPrice(stages: seq<Stage>, price: int): seq<Stage> {
    if stages == [] then []
    else (if Price(stages[0]) == price then [stages[0]] else []) + OfPrice(stages[1..], price)
  }

  lemma {:induction false} InsertKeeps(s: Stage, sorted: seq<Stage>)
    ensures multiset(Insert(s, sorted)) == multiset(sorted) + multiset{s}
  {
    if sorted != [] && Price(s) >= Price(sorted[0]) {
      InsertKeeps(s, sorted[1..]);
      assert sorted == [sorted[0]] + sorted[1..];
    }
  }

  lemma {:induction false} InsertSorts(s: Stage, sorted: seq<Stage>)
    requires Sorted(sorted)
    ensures Sorted(Insert(s, sorted))
  {
    hide Price;
    if sorted != [] && Price(s) >= Price(sorted[0]) {
      var rest := sorted[1..];
      var r := Insert(s, rest);
      InsertSorts(s, rest);
      InsertKeeps(s, rest);
      forall k | 0 <= k < |r| ensures Price(sorted[0]) <= Price(r[k]) {
        assert r[k] in multiset(r);
        assert r[k] == s || r[k] in multiset(rest);
      }
    }
  }

  lemma OfPriceHead(s: Stage, rest: seq<Stage>, price: int)
    ensures OfPrice([s] + rest, price) == (if Price(s) == price then [s] else []) + OfPrice(rest, price)
  {
    assert ([s] + rest)[1..] == rest;
  }

  lemma {:induction false} InsertIsStable(s: Stage, sorted: seq<Stage>, price: int)
    requires Sorted(sorted)
    ensures OfPrice(Insert(s, sorted), price) == OfPrice(sorted, price) + (if Price(s) == price then [s] else [])
  {
    hide OfPrice, Price, Sorted;
    if sorted == [] {
      InsertAlone(s, price);
    } else if Price(s) < Price(sorted[0]) {
      InsertInFront(s, sorted, price);
    } else {
      SortedTail(sorted);
      InsertIsStable(s, sorted[1..], price);
      assert Insert(s, sorted) == [sorted[0]] + Insert(s, sorted[1..]);
      hide Insert;
      InsertBehind(s, sorted, price);
    }
  }

  lemma SortedTail(sorted: seq<Stage>)
    requires Sorted(sorted) && sorted != []
    ensures Sorted(sorted[1..])
  {
    hide Price;
  }

  lemma InsertAlone(s: Stage, price: int)
    ensures OfPrice([s], price) == OfPrice([], price) + (if Price(s) == price then [s] else [])
  {
    hide Price;
    assert [s][1..] == [];
  }

  lemma InsertInFront(s: Stage, sorted: seq<Stage>, price: int)
    requires Sorted(sorted) && sorted != [] && Price(s) < Price(sorted[0])
    ensures OfPrice([s] + sorted, price) == OfPrice(sorted, price) + (if Price(s) == price then [s] else [])
  {
    hide OfPrice, Price;
    OfPriceHead(s, sorted, price);
    if price == Price(s) { NoneOfPrice(sorted, price); }
  }

  lemma InsertBehind(s: Stage, sorted: seq<Stage>, price: int)
    requires sorted != []
    requires OfPrice(Insert(s, sorted[1..]), price)
          == OfPrice(sorted[1..], price) + (if Price(s) == price then [s] else [])
    ensures OfPrice([sorted[0]] + Insert(s, sorted[1..]), price)
         == OfPrice(sorted, price) + (if Price(s) == price then [s] else [])
  {
    hide OfPrice, Price, Insert;
    OfPriceHead(sorted[0], sorted[1..], price);
    OfPriceHead(sorted[0], Insert(s, sorted[1..]), price);
    assert sorted == [sorted[0]] + sorted[1..];
  }

  lemma {:induction false} NoneOfPrice(stages: seq<Stage>, price: int)
    requires forall k :: 0 <= k < |stages| ==> Price(stages[k]) > price
    ensures OfPrice(stages, price) == []
  {
    if stages != [] { NoneOfPrice(stages[1..], price); }
  }

  lemma {:induction false} OfPriceConcat(a: seq<Stage>, b: seq<Stage>, price: int)
    ensures OfPrice(a + b, price) == OfPrice(a, price) + OfPrice(b, price)
    decreases |a|
  {
    hide Price;
    if a == [] {
      assert a + b == b;
    } else {
      var rest := a[1..];
      OfPriceConcat(rest, b, price);
      hide OfPrice;
      assert a == [a[0]] + rest;
      Regroup([a[0]], rest, b);
      OfPriceHead(a[0], rest, price);
      OfPriceHead(a[0], rest + b, price);
      Regroup(if Price(a[0]) == price then [a[0]] else [], OfPrice(rest, price), OfPrice(b, price));
    }
  }

  // The sort orders by price, keeps every stage, and keeps the order of stages of one price.
  lemma {:induction false} SortIsStable(stages: seq<Stage>)
    ensures Sorted(SortByPrice(stages))
    ensures multiset(SortByPrice(stages)) == multiset(stages)
    ensures forall price :: OfPrice(SortByPrice(stages), price) == OfPrice(stages, price)
    decreases |stages|
  {
    hide OfPrice, Insert, Sorted, Price;
    if stages == [] {
      NothingIsSorted();
    } else {
      var init, last := stages[..|stages| - 1], stages[|stages| - 1];
      var sorted := SortByPrice(init);
      SortIsStable(init);
      InsertSorts(last, sorted);
      InsertKeeps(last, sorted);
      assert stages == init + [last];
      assert SortByPrice(stages) == Insert(last, sorted);
      hide SortByPrice;
      forall price ensures OfPrice(SortByPrice(stages), price) == OfPrice(stages, price) {
        LastIsStable(init, sorted, last, price);
      }
    }
  }

  lemma NothingIsSorted()
    ensures Sorted([])
  {}

  lemma LastIsStable(init: seq<Stage>, sorted: seq<Stage>, last: Stage, price: int)
    requires Sorted(sorted) && OfPrice(sorted, price) == OfPrice(init, price)
    ensures OfPrice(Insert(last, sorted), price) == OfPrice(init + [last], price)
  {
    InsertIsStable(last, sorted, price);
    OfPriceConcat(init, [last], price);
    OfPriceHead(last, [], price);
    hide Sorted, Price, Insert;
    assert [last] + [] == [last];
  }

  // ---- the choice ----

  // What the page asks of the stage it is given: a cheapest usable one if there is one, otherwise a most expensive
  // active one if there is one, otherwise nothing
  ghost predicate IsBestOffer(stages: seq<Stage>, now: int, offer: Option<Stage>) {
    if exists s :: s in stages && Usable(s, now) then
      && offer.Some? && offer.value in stages && Usable(offer.value, now)
      && forall s :: s in stages && Usable(s, now) ==> Price(offer.value) <= Price(s)
    else if exists s :: s in stages && IsActive(s, now) then
      && offer.Some? && offer.value in stages && IsActive(offer.value, now)
      && forall s :: s in stages && IsActive(s, now) ==> Price(s) <= Price(offer.value)
    else offer == None
  }

  ghost predicate IsOpenTo(s: Stage, now: int) {
    && (s.start.Some? ==> s.start.value < now) && (s.finish.Some? ==> now < s.finish.value)
    && (s.hasWhitelist ==> s.whitelisted)
    && (s.perUserLimit.GetOr(0) != 0 ==> s.reservations.GetOr(0) < s.perUserLimit.value)
  }

  // The same in terms of dates, prices and limits: a missing date is no bound, a missing price is 0, and a limit that
  // is missing or 0 is none.
  lemma OfferExactly(stages: seq<Stage>, now: int, offer: Option<Stage>)
    requires IsBestOffer(stages, now, offer)
    ensures offer == None
       <==> forall s :: s in stages ==>
              (s.start.Some? && now <= s.start.value) || (s.finish.Some? && s.finish.value <= now)
    ensures offer.Some? ==> offer.value in stages
    ensures forall s :: s in stages && IsOpenTo(s, now) ==>
      offer.Some? && IsOpenTo(offer.value, now) && offer.value.price.GetOr(0) <= s.price.GetOr(0)
  {
    forall s | s in stages && IsActive(s, now) ensures offer.Some? {}
    forall s | s in stages ensures IsOpenTo(s, now) <==> Usable(s, now) {}
  }

  lemma SameStages(a: seq<Stage>, b: seq<Stage>)
    requires multiset(a) == multiset(b)
    ensures forall s :: s in a <==> s in b
  {
    assert forall s :: s in multiset(a) <==> s in a;
    assert forall s :: s in multiset(b) <==> s in b;
  }

  // The first usable stage in price order is a best offer.
  lemma FirstUsable(sorted: seq<Stage>, now: int, i: nat)
    requires Sorted(sorted)
    requires i < |sorted| && Usable(sorted[i], now)
    requires forall k :: 0 <= k < i ==> !Usable(sorted[k], now)
    ensures IsBestOffer(sorted, now, Some(sorted[i]))
  {
    hide Usable, Price;
    forall s | s in sorted && Usable(s, now) ensures Price(sorted[i]) <= Price(s) {
      var k :| 0 <= k < |sorted| && sorted[k] == s;
    }
  }

  // With no usable stage, the last active stage in price order is.
  lemma LastActive(sorted: seq<Stage>, now: int, j: nat)
    requires Sorted(sorted)
    requires forall k :: 0 <= k < |sorted| ==> !Usable(sorted[k], now)
    requires j < |sorted| && IsActive(sorted[j], now)
    requires forall k :: j < k < |sorted| ==> !IsActive(sorted[k], now)
    ensures IsBestOffer(sorted, now, Some(sorted[j]))
  {
    hide Usable, Price, IsActive;
    forall s | s in sorted && IsActive(s, now) ensures Price(s) <= Price(sorted[j]) {
      var k :| 0 <= k < |sorted| && sorted[k] == s;
    }
  }

  method SortInPlace(stages: array<Stage>)
    modifies stages
    ensures stages[..] == SortByPrice(old(stages[..]))
  {
    var sorted := SortByPrice(stages[..]);
    forall i | 0 <= i < stages.Length {
      stages[i] := sorted[i];
    }
  }

  // The two searches through the sorted stages: a usable one from the front, then an active one from the back
  method PickOffer(stages: array<Stage>, now: int) returns (offer: Option<Stage>)
    requires Sorted(stages[..])
    ensures IsBestOffer(stages[..], now, offer)
  {
    hide IsActive, Sorted, Price;
    ghost var sorted := stages[..];
    for i := 0 to stages.Length
      invariant forall k :: 0 <= k < i ==> !Usable(sorted[k], now)
    {
      var stage := stages[i];
      if IsActive(stage, now) && IsEligible(stage) && !ReachedLimit(stage) {
        FirstUsable(sorted, now, i);
        return Some(stage);
      }
    }
    var j := stages.Length;
    while j > 0
      invariant 0 <= j <= stages.Length
      invariant forall k :: j <= k < stages.Length ==> !IsActive(sorted[k], now)
    {
      j := j - 1;
      if IsActive(stages[j], now) {
        LastActive(sorted, now, j);
        return Some(stages[j]);
      }
    }
    return None;
  }

  lemma SameBestOffer(a: seq<Stage>, b: seq<Stage>, now: int, offer: Option<Stage>)
    requires multiset(a) == multiset(b) && IsBestOffer(b, now, offer)
    ensures IsBestOffer(a, now, offer)
  {
    hide IsActive, Usable, Price;
    SameStages(a, b);
  }

  method GetActiveStageDetail(stages: array<Stage>, now: int) returns (offer: Option<Stage>)
    modifies stages
    ensures stages[..] == SortByPrice(old(stages[..]))
    ensures IsBestOffer(old(stages[..]), now, offer)
  {
    ghost var before := stages[..];
    hide IsBestOffer, SortByPrice, Sorted;
    SortInPlace(stages);
    SortIsStable(before);
    offer := PickOffer(stages, now);
    SameBestOffer(before, stages[..], now, offer);
  }

  // getActiveOrFirstStageItem
  method GetActiveOrFirstStage(stages: seq<Stage>, now: int) returns (r: Option<Stage>)
    ensures match r
            case None => stages == []
            case Some(stage) =>
              exists i :: 0 <= i < |stages| && stages[i] == stage
                && (if IsActive(stage, now) then forall k :: 0 <= k < i ==> !IsActive(stages[k], now)
                    else i == 0 && forall k :: 0 <= k < |stages| ==> !IsActive(stages[k], now))
  {
    for i := 0 to |stages|
      invariant forall k :: 0 <= k < i ==> !IsActive(stages[k], now)
    {
      if IsActive(stages[i], now) {
        return Some(stages[i]);
      }
    }
    return if stages == [] then None else Some(stages[0]);
  }

  // ---- the mint page ----

  // isEligible and reachedLimit on the page, for the stage it was given or none
  predicate PageEligible(offer: Option<Stage>) {
    offer.None? || !offer.value.hasWhitelist || offer.value.whitelisted
  }

  predicate PageReachedLimit(offer: Option<Stage>) {
    offer.Some? && offer.value.perUserLimit.GetOr(0) != 0
    && offer.value.reservations.GetOr(0) >= offer.value.perUserLimit.value
  }

  // The page offers to mint, going by its own two checks of the stage it was given, exactly when some stage is
  // active, open to the visitor and below the limit.
  lemma PageMintsWhenUsable(stages: seq<Stage>, now: int, offer: Option<Stage>)
    requires IsBestOffer(stages, now, offer)
    ensures offer.Some? && PageEligible(offer) && !PageReachedLimit(offer)
       <==> exists s :: s in stages
                        && (s.start.Some? ==> s.start.value < now) && (s.finish.Some? ==> now < s.finish.value)
                        && (!s.hasWhitelist || s.whitelisted)
                        && (s.perUserLimit.GetOr(0) == 0 || s.reservations.GetOr(0) < s.perUserLimit.value)
  {
    if offer.Some? && PageEligible(offer) && !PageReachedLimit(offer) {
      assert Usable(offer.value, now);
    }
    if s :| s in stages && (s.start.Some? ==> s.start.value < now) && (s.finish.Some? ==> now < s.finish.value)
            && (!s.hasWhitelist || s.whitelisted)
            && (s.perUserLimit.GetOr(0) == 0 || s.reservations.GetOr(0) < s.perUserLimit.value) {
      assert Usable(s, now);
    }
  }
}
