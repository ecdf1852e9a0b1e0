/**
 * Whether a transaction the client builds is one the indexer takes: for purchases and deposits, the client's
 * messages under the indexer's checks of them.
 */
module Settlement {
  import opened Wrappers
  import opened Numbers
  import opened Tx
  import opened Operations
  import opened Marketplace
  import opened MarketplaceProperties
  import opened MarketLedger
  import Urn

  // What the indexer's columns hold
  predicate IsStored(l: Listing) {
    0 <= l.total < BIGINT && 0 <= l.depositTotal < BIGINT
  }

  // The protocol's own address takes part in no trade.
  predicate IsStranger(receiver: string, l: Listing, royalty: Option<Royalty>) {
    receiver != l.seller && (royalty.Some? ==> receiver != royalty.value.recipient)
  }

  // The fee goes the way the indexer looks for it.
  predicate FeeArrives(rules: Rules, m: Market) {
    && m.base.fee.denom == UATOM && m.base.fee.receiver == rules.ibcReceiver
    && (if rules.ibcEnabled then m.base.useIbc == Given(true) && m.base.fee.ibcChannel == IBC_CHANNEL
        else m.base.useIbc != Given(true))
  }

  function FeeMessage(m: Market, fee: int): Msg {
    if m.base.useIbc == Given(true)
    then IbcTransfer(m.base.address, m.base.fee.receiver, m.base.fee.ibcChannel, fee, m.base.fee.denom)
    else Send(m.base.address, m.base.fee.receiver, fee, m.base.fee.denom)
  }

  predicate AreSends(msgs: seq<Msg>) {
    forall k :: 0 <= k < |msgs| ==> msgs[k].Send?
  }

  // ---- what the indexer sees of payments and fee ----

  lemma {:induction false} SentBefore(msgs: seq<Msg>, more: seq<Msg>, receiver: string)
    requires AreSends(msgs) && forall k :: 0 <= k < |msgs| ==> msgs[k].to != receiver
    ensures BankSent(msgs + more, receiver) == BankSent(more, receiver)
    decreases |msgs|
  {
    if msgs == [] {
      assert msgs + more == more;
    } else {
      assert (msgs + more)[1..] == msgs[1..] + more;
      SentBefore(msgs[1..], more, receiver);
    }
  }

  lemma {:induction false} NoTransferBefore(msgs: seq<Msg>, more: seq<Msg>, receiver: string)
    requires AreSends(msgs)
    ensures IbcSent(msgs + more, receiver) == IbcSent(more, receiver)
    decreases |msgs|
  {
    if msgs == [] {
      assert msgs + more == more;
    } else {
      assert (msgs + more)[1..] == msgs[1..] + more;
      NoTransferBefore(msgs[1..], more, receiver);
    }
  }

  // The first send to a receiver, wherever it stands
  lemma FirstSent(msgs: seq<Msg>, more: seq<Msg>, k: nat, receiver: string)
    requires AreSends(msgs) && k < |msgs| && msgs[k].to == receiver
    requires forall j :: 0 <= j < k ==> msgs[j].to != receiver
    ensures BankSent(msgs + more, receiver) == Parsed(msgs[k].amount, msgs[k].denom)
  {
    assert msgs + more == msgs[..k] + ([msgs[k]] + (msgs[k + 1..] + more));
    SentBefore(msgs[..k], [msgs[k]] + (msgs[k + 1..] + more), receiver);
  }

  // With the fee message last, the indexer finds the fee exactly if it goes the right way.
  lemma FeeIsFound(rules: Rules, m: Market, msgs: seq<Msg>, fee: int)
    requires AreSends(msgs) && forall k :: 0 <= k < |msgs| ==> msgs[k].to != rules.ibcReceiver
    requires 0 <= fee < UINT64
    ensures FeeSent(rules, msgs + [FeeMessage(m, fee)]) == if FeeArrives(rules, m) then Some(fee) else None
  {
    var last := FeeMessage(m, fee);
    assert [last][1..] == [];
    if rules.ibcEnabled {
      NoTransferBefore(msgs, [last], rules.ibcReceiver);
    } else {
      SentBefore(msgs, [last], rules.ibcReceiver);
    }
  }

  lemma NotNegative(a: real, b: real)
    requires a >= 0.0 && b >= 0.0
    ensures a * b >= 0.0
  {}

  // The fee of a share of the proceeds covers the one required on no more than the proceeds.
  lemma FeeCovers(proceeds: int, owed: int, tradeFee: real)
    requires 0 <= owed <= proceeds < UINT64 && 0.0 <= tradeFee <= 1.0
    ensures RequiredFee(owed, tradeFee) <= FeeDue(proceeds, tradeFee) < UINT64
  {
    ScaledShare(owed as real, tradeFee);
    var small, big := owed as real * tradeFee, proceeds as real * tradeFee;
    assert small <= big <= proceeds as real by {
      NotNegative((proceeds - owed) as real, tradeFee);
      NotNegative(proceeds as real, 1.0 - tradeFee);
    }
    hide ToFixed;
    FloorBelow(if small < 1.0 then 1.0 else small, FeeDue(proceeds, tradeFee), if big < 1.0 then 1.0 else big);
  }

  lemma FloorBelow(x: real, rounded: int, y: real)
    requires x <= y && y - 0.5 < rounded as real
    ensures x.Floor <= rounded
  {
    assert x.Floor as real <= x;
  }

  lemma FeeIsSmall(proceeds: int, tradeFee: real)
    requires proceeds < BIGINT && 0.0 <= tradeFee <= 1.0
    ensures FeeDue(proceeds, tradeFee) < UINT64
  {
    hide ToFixed;
    if proceeds > 0 {
      FeeCovers(proceeds, proceeds, tradeFee);
    } else {
      assert proceeds as real * tradeFee <= 0.0 by { NotNegative((-proceeds) as real, tradeFee); }
    }
  }

  // ---- one inscription ----

  // When a purchase settles, in terms of the listing and the royalty alone: the deposit is not above the price, and if
  // a royalty is due, both it and what is left to pay are more than 1, its fraction is below a half, and its whole part
  // is at most what is left.
  predicate Settles(l: Listing, royalty: Option<Royalty>) {
    && l.depositTotal <= l.total
    && (royalty.Some? && royalty.value.percentage > 0.0 && royalty.value.recipient != l.seller ==>
          var share := RoyaltyShare(l, royalty.value);
          && l.total - l.depositTotal > 1 && share > 1.0
          && share - share.Floor as real < 0.5
          && share.Floor <= l.total - l.depositTotal)
  }

  lemma FeeFails(rules: Rules, m: Market, l: Listing, royalty: Option<Royalty>, msgs: seq<Msg>)
    requires FeeSent(rules, msgs).None?
    ensures PaysForPiece(rules, l, royalty, msgs).Err?
  {
    hide RequiredFee, Minus, Trunc, RoyaltyShare, BankSent, FeeSent;
  }

  // Without a royalty due
  lemma PlainSettles(rules: Rules, m: Market, l: Listing, fee: int)
    requires IsStored(l) && l.seller != rules.ibcReceiver && 0.0 <= rules.tradeFee <= 1.0
    requires FeeArrives(rules, m) && fee == FeeDue(Due(l), rules.tradeFee)
    ensures PaysOwed(rules, l, Minus(l.total, l.depositTotal),
                     [Send(m.base.address, l.seller, Due(l), UATOM)] + [FeeMessage(m, fee)]).Ok?
       <==> l.depositTotal <= l.total
  {
    var pay, owed := [Send(m.base.address, l.seller, Due(l), UATOM)], Minus(l.total, l.depositTotal);
    FeeIsSmall(Due(l), rules.tradeFee);
    FirstSent(pay, [FeeMessage(m, fee)], 0, l.seller);
    FeeIsFound(rules, m, pay, fee);
    hide FeeSent, BankSent, FeeDue, RequiredFee, FeeArrives;
    if l.depositTotal <= l.total {
      assert owed == Due(l);
      FeeCovers(Due(l), owed, rules.tradeFee);
    } else {
      assert owed == l.total - l.depositTotal + UINT64;
    }
  }

  // With a royalty message
  lemma RoyaltySettles(rules: Rules, m: Market, l: Listing, royalty: Royalty, fee: int)
    requires IsStored(l) && IsStranger(rules.ibcReceiver, l, Some(royalty)) && 0.0 <= rules.tradeFee <= 1.0
    requires RoyaltyDue(l, Some(royalty)).Some? && royalty.KeepsSign() && RoyaltyShare(l, royalty) < UINT64 as real
    requires FeeArrives(rules, m) && fee == FeeDue(SellerDue(l, Some(royalty)), rules.tradeFee)
    ensures var msgs := PurchaseMessages(m.base.address, l, Some(royalty));
      PaysForPiece(rules, l, Some(royalty), msgs + [FeeMessage(m, fee)]).Ok?
      <==> RoyaltyShare(l, royalty) - RoyaltyShare(l, royalty).Floor as real < 0.5
           && RoyaltyShare(l, royalty).Floor <= Due(l)
  {
    var share := RoyaltyShare(l, royalty);
    var paid, expected, due := ToFixed(share), Trunc(share), Due(l);
    var msgs := PurchaseMessages(m.base.address, l, Some(royalty));
    assert msgs == [Send(m.base.address, royalty.recipient, paid, UATOM),
                    Send(m.base.address, l.seller, due - paid, UATOM)];
    RoundedOrCut(share);
    FirstSent(msgs, [FeeMessage(m, fee)], 0, royalty.recipient);
    FirstSent(msgs, [FeeMessage(m, fee)], 1, l.seller);
    FeeIsSmall(due - paid, rules.tradeFee);
    FeeIsFound(rules, m, msgs, fee);
    ShareIsPositive(l, royalty);
    hide FeeSent, BankSent, FeeDue, PaysForPiece;
    RoyaltyVerdict(rules, l, royalty, msgs + [FeeMessage(m, fee)], paid, fee);
  }

  // What comes of the three payments the indexer finds
  lemma RoyaltyVerdict(rules: Rules, l: Listing, royalty: Royalty, msgs: seq<Msg>, paid: int, fee: int)
    requires IsStored(l) && IsDue(l, Some(royalty)) && 0.0 <= rules.tradeFee <= 1.0
    requires l.depositTotal <= l.total && 0 <= Trunc(RoyaltyShare(l, royalty)) <= paid
    requires Trunc(RoyaltyShare(l, royalty)) < UINT64
    requires BankSent(msgs, royalty.recipient) == Parsed(paid, UATOM)
    requires BankSent(msgs, l.seller) == Parsed(Due(l) - paid, UATOM)
    requires FeeSent(rules, msgs) == Some(fee) && fee == FeeDue(Due(l) - paid, rules.tradeFee)
    ensures PaysForPiece(rules, l, Some(royalty), msgs).Ok?
       <==> paid == Trunc(RoyaltyShare(l, royalty)) && Trunc(RoyaltyShare(l, royalty)) <= Due(l)
  {
    hide FeeSent, BankSent, FeeDue, RequiredFee, ToFixed, Trunc, RoyaltyShare;
    var expected, due := Trunc(RoyaltyShare(l, royalty)), Due(l);
    assert Minus(l.total, l.depositTotal) == due;
    if expected <= due {
      assert Minus(due, expected) == due - expected;
      if paid == expected { FeeCovers(due - paid, due - expected, rules.tradeFee); }
    } else {
      assert Minus(due, expected) >= 0;
    }
  }

  lemma ShareIsPositive(l: Listing, royalty: Royalty)
    requires l.total >= 0 && royalty.KeepsSign()
    ensures RoyaltyShare(l, royalty) > 0.0 ==> royalty.percentage > 0.0
  {}

  lemma RoundedOrCut(x: real)
    requires x >= 0.0
    ensures ToFixed(x) == Trunc(x) + if x - x.Floor as real < 0.5 then 0 else 1
  {
    var whole, rest := x.Floor, x - x.Floor as real;
    assert (rest + 0.5).Floor == if rest < 0.5 then 0 else 1;
    assert x + 0.5 == whole as real + (rest + 0.5);
  }

  lemma MessagesSettle(rules: Rules, m: Market, l: Listing, royalty: Option<Royalty>, fee: int)
    requires IsStored(l) && IsStranger(rules.ibcReceiver, l, royalty) && 0.0 <= rules.tradeFee <= 1.0
    requires royalty.Some? ==> royalty.value.KeepsSign() && RoyaltyShare(l, royalty.value) < UINT64 as real
    requires fee == FeeDue(SellerDue(l, royalty), rules.tradeFee)
    ensures PaysForPiece(rules, l, royalty, PurchaseMessages(m.base.address, l, royalty) + [FeeMessage(m, fee)]).Ok?
       <==> FeeArrives(rules, m) && Settles(l, royalty)
  {
    var msgs := PurchaseMessages(m.base.address, l, royalty);
    NotAboveDue(l, royalty);
    FeeIsSmall(SellerDue(l, royalty), rules.tradeFee);
    ToStrangers(m.base.address, l, royalty, rules.ibcReceiver);
    FeeIsFound(rules, m, msgs, fee);
    SettlesByCase(l, royalty);
    hide FeeDue, FeeSent, PaysOwed, ToFixed, Minus, Settles, RoyaltyShare, FeeArrives, PaysForPiece, RoyaltyDue, IsDue,
         PurchaseMessages, IsStored;
    if !FeeArrives(rules, m) {
      FeeFails(rules, m, l, royalty, msgs + [FeeMessage(m, fee)]);
    } else if RoyaltyDue(l, royalty).Some? {
      RoyaltySettles(rules, m, l, royalty.value, fee);
    } else if IsDue(l, royalty) {
      OmittedRoyaltyFails(rules, m, l, royalty, fee);
    } else {
      NoRoyaltySettles(rules, m, l, royalty, fee);
    }
  }

  lemma SettlesByCase(l: Listing, royalty: Option<Royalty>)
    requires IsStored(l) && (royalty.Some? ==> royalty.value.KeepsSign())
    ensures RoyaltyDue(l, royalty).Some? ==> royalty.Some? && IsDue(l, royalty)
    ensures Settles(l, royalty)
       <==> if RoyaltyDue(l, royalty).Some? then
              var share := RoyaltyShare(l, royalty.value);
              share - share.Floor as real < 0.5 && share.Floor <= Due(l)
            else !IsDue(l, royalty) && l.depositTotal <= l.total
  {
    hide ToFixed;
    assert Due(l) > 1 <==> l.total - l.depositTotal > 1;
    if royalty.Some? {
      ShareIsPositive(l, royalty.value);
      hide RoyaltyShare;
    }
  }

  lemma NoRoyaltySettles(rules: Rules, m: Market, l: Listing, royalty: Option<Royalty>, fee: int)
    requires IsStored(l) && IsStranger(rules.ibcReceiver, l, royalty) && 0.0 <= rules.tradeFee <= 1.0
    requires !IsDue(l, royalty) && RoyaltyDue(l, royalty).None? && FeeArrives(rules, m)
    requires fee == FeeDue(SellerDue(l, royalty), rules.tradeFee)
    ensures PaysForPiece(rules, l, royalty, PurchaseMessages(m.base.address, l, royalty) + [FeeMessage(m, fee)]).Ok?
       <==> l.depositTotal <= l.total
  {
    hide PaysOwed, Minus, FeeDue, RoyaltyDue, FeeArrives;
    assert PurchaseMessages(m.base.address, l, royalty) == [Send(m.base.address, l.seller, Due(l), UATOM)];
    PlainSettles(rules, m, l, fee);
  }

  // The client leaves out a royalty the indexer asks for.
  lemma OmittedRoyaltyFails(rules: Rules, m: Market, l: Listing, royalty: Option<Royalty>, fee: int)
    requires IsStranger(rules.ibcReceiver, l, royalty) && FeeArrives(rules, m)
    requires IsDue(l, royalty) && RoyaltyDue(l, royalty).None?
    ensures PaysForPiece(rules, l, royalty, PurchaseMessages(m.base.address, l, royalty) + [FeeMessage(m, fee)]).Err?
  {
    hide PaysOwed, Minus, RoyaltyDue, SellerDue, Trunc;
    var msgs, last := PurchaseMessages(m.base.address, l, royalty), FeeMessage(m, fee);
    assert msgs == [Send(m.base.address, l.seller, SellerDue(l, royalty), UATOM)];
    SentBefore(msgs, [last], royalty.value.recipient);
    assert [last][1..] == [];
    assert BankSent(msgs + [last], royalty.value.recipient) == None;
  }

  lemma NotAboveDue(l: Listing, royalty: Option<Royalty>)
    requires IsStored(l)
    ensures SellerDue(l, royalty) < BIGINT
  {
    if RoyaltyDue(l, royalty).Some? { assert ToFixed(RoyaltyShare(l, royalty.value)) >= 0; }
  }

  lemma ToStrangers(me: string, l: Listing, royalty: Option<Royalty>, receiver: string)
    requires IsStranger(receiver, l, royalty)
    ensures var msgs := PurchaseMessages(me, l, royalty);
      AreSends(msgs) && forall k :: 0 <= k < |msgs| ==> msgs[k].to != receiver
  {
    hide ToFixed, RoyaltyShare;
  }

  // The payment check on a purchase of one inscription: of the transactions the client makes of what its guard lets
  // through, exactly those pass that settle and carry their fee the right way. `royalty` is that of the collection, and
  // the fee rate is the same on both sides.
  lemma PurchaseSettlesExactly(rules: Rules, e: Encoder, m: Market, service: Service, height: Option<int>, hash: string,
                               royalty: Option<Royalty>)
    requires OperationName(Inscription) in m.fees
    requires m.fees[OperationName(Inscription)].percent == Some(rules.tradeFee) && 0.0 <= rules.tradeFee <= 1.0
    requires GetListing(service, m.base.address, height, hash).Ok?
    requires IsStored(service[hash]) && IsStranger(rules.ibcReceiver, service[hash], royalty)
    requires royalty.Some? ==> royalty.value.KeepsSign() && RoyaltyShare(service[hash], royalty.value) < UINT64 as real
    ensures var l := service[hash];
      var royalties := if royalty.Some? then [royalty.value] else [];
      var out := Submit(e, m.base,
                        BuyOutput(e, m, BuyFrom(service, m.base.address, height, [hash], royalties, 0), Inscription));
      && out.Ok?
      && (PaysForPiece(rules, l, royalty, out.value.messages).Ok? <==> FeeArrives(rules, m) && Settles(l, royalty))
  {
    var me, l := m.base.address, service[hash];
    var royalties := if royalty.Some? then [royalty.value] else [];
    var batch := BuyFrom(service, me, height, [hash], royalties, 0);
    assert batch == Batch(PurchaseMessages(me, l, royalty), SellerDue(l, royalty), [hash], None) by {
      OneBought(service, me, height, hash, royalty);
    }
    BuyFeeIsFeeDue(m.fees[OperationName(Inscription)], batch.proceeds);
    AssembledBuy(e, m, batch, Inscription);
    hide BuyFrom, BuyOutput, Submit, BuyFee, ParseInt, FeeDue, GetListing, PaysForPiece, Settles, FeeArrives,
         OperationName,
         PurchaseMessages, SellerDue, RoyaltyShare;
    MessagesSettle(rules, m, l, royalty, FeeDue(batch.proceeds, rules.tradeFee));
  }

  lemma OneBought(service: Service, me: string, height: Option<int>, hash: string, royalty: Option<Royalty>)
    requires GetListing(service, me, height, hash).Ok?
    ensures BuyFrom(service, me, height, [hash], if royalty.Some? then [royalty.value] else [], 0)
         == Batch(PurchaseMessages(me, service[hash], royalty), SellerDue(service[hash], royalty), [hash], None)
  {
    var royalties := if royalty.Some? then [royalty.value] else [];
    assert RoyaltyAt(royalties, 0) == royalty;
    hide PurchaseMessages, SellerDue;
    BuyEnd(service, me, height, [hash], royalties);
    ThenNothing(BuyOne(service, me, height, hash, royalty));
  }

  // A royalty of half a unit more than the listing's whole share is rounded up by the client, which takes it off the
  // seller's payment: the seller then gets 1 less than the indexer asks for. Price 150, deposit 10, royalty 5 %.
  lemma RoundedUpRoyaltyIsRefused()
    ensures var l := Listing("s", 150, 10, true, Some("b"), Some(5), false, false);
      var royalty := Some(Royalty("r", 0.05, total => total as real * 0.05));
      && GetListing(map["h" := l], "b", Some(5), "h") == Ok(l)
      && PurchaseMessages("b", l, royalty) == [Send("b", "r", 8, UATOM), Send("b", "s", 132, UATOM)]
      && !Settles(l, royalty) && Settles(l.(total := 140), royalty)
  {
    var l := Listing("s", 150, 10, true, Some("b"), Some(5), false, false);
    var royalty := Royalty("r", 0.05, total => total as real * 0.05);
    assert RoyaltyShare(l, royalty) == 7.5 && RoyaltyShare(l.(total := 140), royalty) == 7.0;
    assert "r"[0] != "s"[0];
    assert (7.5).Floor == 7 && (7.0).Floor == 7;
  }

  // ---- batches ----

  // The first of the listings up to k that has the same seller
  function FirstOfSeller(service: Service, hashes: seq<string>, k: nat): (j: nat)
    requires k < |hashes| && forall h :: h in hashes ==> h in service
    ensures j <= k && service[hashes[j]].seller == service[hashes[k]].seller
    ensures forall i :: 0 <= i < j ==> service[hashes[i]].seller != service[hashes[k]].seller
  {
    FirstFrom(service, hashes, k, 0)
  }

  function FirstFrom(service: Service, hashes: seq<string>, k: nat, from: nat): (j: nat)
    requires from <= k < |hashes| && forall h :: h in hashes ==> h in service
    requires forall i :: 0 <= i < from ==> service[hashes[i]].seller != service[hashes[k]].seller
    ensures j <= k && service[hashes[j]].seller == service[hashes[k]].seller
    ensures forall i :: 0 <= i < j ==> service[hashes[i]].seller != service[hashes[k]].seller
    decreases k - from
  {
    if service[hashes[from]].seller == service[hashes[k]].seller then from
    else FirstFrom(service, hashes, k, from + 1)
  }

  // One payment for each listing, in order
  ghost predicate PaysInOrder(service: Service, me: string, batch: Batch) {
    && |batch.messages| == |batch.accepted|
    && (forall k :: 0 <= k < |batch.accepted| ==>
          && batch.accepted[k] in service
          && batch.messages[k] == Send(me, service[batch.accepted[k]].seller, Due(service[batch.accepted[k]]), UATOM))
    && batch.proceeds == TotalDue(service, batch.accepted)
  }

  lemma {:induction false} PlainBatch(service: Service, me: string, height: Option<int>, hashes: seq<string>, i: nat)
    requires i <= |hashes|
    ensures PaysInOrder(service, me, BuyFrom(service, me, height, hashes, [], i))
    decreases |hashes| - i
  {
    if i < |hashes| {
      hide BuyOne, Then, PaysInOrder;
      PlainBatch(service, me, height, hashes, i + 1);
      PlainOne(service, me, height, hashes[i]);
      PlainJoined(service, me, BuyOne(service, me, height, hashes[i], None),
                  BuyFrom(service, me, height, hashes, [], i + 1));
    }
  }

  lemma PlainOne(service: Service, me: string, height: Option<int>, hash: string)
    ensures PaysInOrder(service, me, BuyOne(service, me, height, hash, None))
  {
    assert [hash][1..] == [];
  }

  lemma PlainJoined(service: Service, me: string, a: Batch, b: Batch)
    requires PaysInOrder(service, me, a) && PaysInOrder(service, me, b)
    ensures PaysInOrder(service, me, Then(a, b))
  {
    TotalDueAdds(service, a.accepted, b.accepted);
  }

  lemma {:induction false} OneOfTotal(service: Service, hashes: seq<string>, k: nat)
    requires k < |hashes| && forall h :: h in hashes ==> h in service && IsStored(service[h])
    ensures 0 <= Due(service[hashes[k]]) <= TotalDue(service, hashes)
    decreases k
  {
    TotalIsNotNegative(service, hashes[1..]);
    if k > 0 { OneOfTotal(service, hashes[1..], k - 1); }
  }

  lemma {:induction false} TotalIsNotNegative(service: Service, hashes: seq<string>)
    ensures TotalDue(service, hashes) >= 0
  {
    if hashes != [] { TotalIsNotNegative(service, hashes[1..]); }
  }

  // The payment check on batches of tokens: it looks for each listing's payment anew, and finds the first to its
  // seller. So exactly the listings pass whose deposit is not above their price and that have no more due than the
  // first one in the batch of the same seller.
  lemma BatchSettlesExactly(rules: Rules, e: Encoder, m: Market, service: Service, height: Option<int>,
                            hashes: seq<string>, k: nat)
    requires OperationName(Cft20) in m.fees
    requires m.fees[OperationName(Cft20)].percent == Some(rules.tradeFee) && 0.0 <= rules.tradeFee <= 1.0
    requires var accepted := Accepted(service, m.base.address, height, hashes);
      && k < |accepted| && TotalDue(service, accepted) < BIGINT
      && forall h :: h in accepted && h in service ==>
           IsStored(service[h]) && service[h].seller != rules.ibcReceiver
    ensures var accepted := Accepted(service, m.base.address, height, hashes);
      var out := Submit(e, m.base,
                        BuyOutput(e, m, BuyFrom(service, m.base.address, height, hashes, [], 0), Cft20));
      && (forall h :: h in accepted ==> h in service)
      && out.Ok?
      && var l := service[accepted[k]];
         (PaysForTokens(rules, l, out.value.messages).Ok?
          <==> && FeeArrives(rules, m) && l.depositTotal <= l.total
               && Due(l) <= Due(service[accepted[FirstOfSeller(service, accepted, k)]]))
  {
    var me := m.base.address;
    var batch := BuyFrom(service, me, height, hashes, [], 0);
    BatchIsAccepted(service, me, height, hashes, [], 0);
    assert hashes[0..] == hashes;
    PlainBatch(service, me, height, hashes, 0);
    BuyFeeIsFeeDue(m.fees[OperationName(Cft20)], batch.proceeds);
    AssembledBuy(e, m, batch, Cft20);
    hide BuyFrom, BuyOutput, Submit, BuyFee, ParseInt, FeeDue, GetListing, PaysForTokens, FeeArrives, OperationName,
         Accepted,
         TotalDue, Due, FirstOfSeller, PaysInOrder;
    PaymentsSettle(rules, m, service, batch, k, FeeDue(batch.proceeds, rules.tradeFee));
  }

  lemma PaymentsSettle(rules: Rules, m: Market, service: Service, batch: Batch, k: nat, fee: int)
    requires k < |batch.accepted| && PaysInOrder(service, m.base.address, batch)
    requires forall h :: h in batch.accepted ==>
      h in service && IsStored(service[h]) && service[h].seller != rules.ibcReceiver
    requires batch.proceeds < BIGINT && 0.0 <= rules.tradeFee <= 1.0
    requires fee == FeeDue(batch.proceeds, rules.tradeFee)
    ensures var l := service[batch.accepted[k]];
      PaysForTokens(rules, l, batch.messages + [FeeMessage(m, fee)]).Ok?
      <==> && FeeArrives(rules, m) && l.depositTotal <= l.total
           && Due(l) <= Due(service[batch.accepted[FirstOfSeller(service, batch.accepted, k)]])
  {
    var l, j := service[batch.accepted[k]], FirstOfSeller(service, batch.accepted, k);
    var first, owed := service[batch.accepted[j]], Minus(l.total, l.depositTotal);
    assert forall i :: 0 <= i < |batch.accepted| ==> batch.accepted[i] in batch.accepted;
    FirstSent(batch.messages, [FeeMessage(m, fee)], j, l.seller);
    FeeIsSmall(batch.proceeds, rules.tradeFee);
    FeeIsFound(rules, m, batch.messages, fee);
    OneOfTotal(service, batch.accepted, j);
    assert 0 <= Due(first) <= batch.proceeds;
    hide FeeSent, BankSent, FeeDue, RequiredFee, FeeArrives, TotalDue, FirstOfSeller, PaysInOrder;
    if l.depositTotal <= l.total {
      assert owed == Due(l);
      if owed <= Due(first) { FeeCovers(batch.proceeds, owed, rules.tradeFee); }
    } else {
      assert owed == l.total - l.depositTotal + UINT64;
    }
  }

  lemma DepositsKnown(service: Service, me: string, batch: Batch)
    requires PaysDeposits(service, me, batch)
    ensures forall h :: h in batch.accepted ==> h in service
  {
    assert forall h :: h in batch.accepted ==> exists i :: 0 <= i < |batch.accepted| && batch.accepted[i] == h;
  }

  // What the indexer finds of a batch of deposits: for each listing the payment of the first of the same seller.
  lemma DepositSeen(service: Service, me: string, batch: Batch, k: nat, more: seq<Msg>)
    requires PaysDeposits(service, me, batch) && k < |batch.accepted|
    requires forall h :: h in batch.accepted ==> h in service && IsStored(service[h])
    ensures BankSent(batch.messages + more, service[batch.accepted[k]].seller)
         == Some(service[batch.accepted[FirstOfSeller(service, batch.accepted, k)]].depositTotal)
  {
    var j := FirstOfSeller(service, batch.accepted, k);
    FirstSent(batch.messages, more, j, service[batch.accepted[k]].seller);
    assert batch.accepted[j] in batch.accepted;
  }

  // ---- new listings ----

  // The fee of a new listing, which the client and the indexer each work out from the terms: the indexer takes it
  // exactly if it goes the right way, and would not take one less. The transaction carries nothing else.
  lemma ListingPaysItsFeeExactly(rules: Rules, e: Encoder, m: Market, operation: string, params: seq<Urn.Param>,
                                 terms: Terms)
    requires terms.depositBase < BIGINT as real
    ensures var out := Submit(e, m.base, ListOutput(e, m, operation, params, terms.depositBase));
      && out.Ok? && out.value.options == []
      && out.value.memo == Urn.BuildUrn(Urn.Urn("marketplace", m.chainId, "v1", operation, params))
      && out.value.messages == [FeeMessage(m, ListingFee(terms.depositBase))]
      && (PaysListingFee(rules, terms, out.value.messages) <==> FeeArrives(rules, m))
      && !PaysListingFee(rules, terms, [FeeMessage(m, ListingFee(terms.depositBase) - 1)])
  {
    var fee := ListingFee(terms.depositBase);
    var op := BuildOperation(m, operation, params);
    var x := AsInscription(m.base, op, None, Some(IntText(fee)), None);
    OneInscription(e, m.base.address, x.urn, x,
                   PrepareTxOptions(PassOn(m.base.useIbc), PassOn(m.base.useExtensionData)));
    ParseIntText(fee);
    ListingFeeIsLeast(rules, m, terms);
    hide Prepared, ParseInt, IntText, PaysListingFee, FeeArrives, Urn.BuildUrn;
  }

  lemma ListingFeeIsLeast(rules: Rules, m: Market, terms: Terms)
    requires terms.depositBase < BIGINT as real
    ensures var fee := ListingFee(terms.depositBase);
      && fee >= 1
      && (PaysListingFee(rules, terms, [FeeMessage(m, fee)]) <==> FeeArrives(rules, m))
      && !PaysListingFee(rules, terms, [FeeMessage(m, fee - 1)])
  {
    var fee := ListingFee(terms.depositBase);
    assert 1 <= fee < UINT64 by { assert terms.depositBase.Floor as real <= terms.depositBase; }
    assert AreSends([]);
    FeeIsFound(rules, m, [], fee);
    FeeIsFound(rules, m, [], fee - 1);
    assert [] + [FeeMessage(m, fee)] == [FeeMessage(m, fee)];
    assert [] + [FeeMessage(m, fee - 1)] == [FeeMessage(m, fee - 1)];
    hide FeeSent, FeeArrives;
  }
}
