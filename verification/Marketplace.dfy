/**
 * Deposits and purchases of marketplace listings: the guards, the royalty split, the two batch loops, the trading
 * fee, and the page's own idea of what a listing allows. Amounts are in uatom.
 */
module Marketplace {
  import opened Wrappers
  import opened Numbers
  import opened Tx
  import opened Operations
  import Urn

  datatype Listing = Listing(
    seller: string, total: int, depositTotal: int,
    isDeposited: bool, depositor: Option<string>, timeout: Option<int>,
    isCancelled: bool, isFilled: bool)

  datatype Refusal = NotFound | CancelledOrFilled | DepositedByOther | DepositedByYou | NotDepositor | DepositExpired

  // `times` is what multiplying a price by the percentage gives, whatever the rounding; it keeps the sign.
  datatype Royalty = Royalty(recipient: string, percentage: real, times: int -> real) {
    ghost predicate KeepsSign() {
      forall total: int :: total >= 0 && percentage <= 0.0 ==> times(total) <= 0.0
    }
  }

  // fetchListing: the first listing with that hash, if any
  type Service = map<string, Listing>

  datatype BuyType = Cft20 | Inscription

  // In a comparison JavaScript reads null as 0.
  function Num(x: Option<int>): int {
    x.GetOr(0)
  }

  // ---- one listing ----

  function DepositListing(service: Service, me: string, height: Option<int>, hash: string): Result<Msg, Refusal> {
    if hash !in service then Err(NotFound)
    else
      var l := service[hash];
      if l.isCancelled || l.isFilled then Err(CancelledOrFilled)
      else if l.isDeposited && Some(me) != l.depositor then
        if Num(l.timeout) > Num(height) then Err(DepositedByOther) else Ok(Send(me, l.seller, l.depositTotal, UATOM))
      else if Some(me) == l.depositor && Num(l.timeout) > Num(height) then Err(DepositedByYou)
      else Ok(Send(me, l.seller, l.depositTotal, UATOM))
  }

  function GetListing(service: Service, me: string, height: Option<int>, hash: string): Result<Listing, Refusal> {
    if hash !in service then Err(NotFound)
    else
      var l := service[hash];
      if l.isCancelled || l.isFilled then Err(CancelledOrFilled)
      else if !l.isDeposited || l.depositor != Some(me) then Err(NotDepositor)
      else if Num(height) > Num(l.timeout) then Err(DepositExpired)
      else Ok(l)
  }

  // What is left to pay: the total without the deposit, or 1 when the deposit was larger
  function Due(l: Listing): int {
    if l.depositTotal > l.total then 1 else l.total - l.depositTotal
  }

  // The royalty before rounding; it is a share of the whole price
  function RoyaltyShare(l: Listing, royalty: Royalty): real {
    royalty.times(l.total)
  }

  // The royalty a purchase pays; None is no royalty message
  function RoyaltyDue(l: Listing, royalty: Option<Royalty>): Option<int> {
    if royalty.Some? && Due(l) > 1 && royalty.value.recipient != l.seller && RoyaltyShare(l, royalty.value) > 1.0
    then Some(ToFixed(RoyaltyShare(l, royalty.value)))
    else None
  }

  function SellerDue(l: Listing, royalty: Option<Royalty>): int {
    Due(l) - RoyaltyDue(l, royalty).GetOr(0)
  }

  function PurchaseMessages(me: string, l: Listing, royalty: Option<Royalty>): (msgs: seq<Msg>)
    ensures |msgs| > 0
  {
    (if RoyaltyDue(l, royalty).Some? then [Send(me, royalty.value.recipient, RoyaltyDue(l, royalty).value, UATOM)]
     else [])
    + [Send(me, l.seller, SellerDue(l, royalty), UATOM)]
  }

  method BuyListing(service: Service, me: string, height: Option<int>, hash: string, royalty: Option<Royalty>)
    returns (r: Result<(seq<Msg>, int), Refusal>)
    ensures match GetListing(service, me, height, hash)
            case Err(refusal) => r == Err(refusal)
            case Ok(l) => r == Ok((PurchaseMessages(me, l, royalty), SellerDue(l, royalty)))
  {
    hide ToFixed, RoyaltyShare;
    var res := GetListing(service, me, height, hash);
    if res.Err? {
      return Err(res.error);
    }
    var listing := res.value;
    var totaluatom := listing.total;
    var deposit := listing.depositTotal;
    if deposit > totaluatom {
      totaluatom := 1;
    } else {
      totaluatom := totaluatom - deposit;
    }
    var messages: seq<Msg> := [];
    if royalty.Some? && totaluatom > 1 && royalty.value.recipient != listing.seller {
      var royaltyFloatAmount := RoyaltyShare(listing, royalty.value);
      if royaltyFloatAmount > 1.0 {
        var royaltyAmount := ToFixed(royaltyFloatAmount);
        messages := [Send(me, royalty.value.recipient, royaltyAmount, UATOM)];
        totaluatom := totaluatom - royaltyAmount;
      }
    }
    messages := messages + [Send(me, listing.seller, totaluatom, UATOM)];
    assert [] + messages == messages;
    return Ok((messages, totaluatom));
  }

  // ---- batches ----

  // What a loop over hashes[i..] adds: messages, the sum of the seller payments, the hashes that were taken, and
  // the last refusal
  datatype Batch = Batch(messages: seq<Msg>, proceeds: int, accepted: seq<string>, error: Option<Refusal>)

  function Then(a: Batch, b: Batch): Batch {
    Batch(a.messages + b.messages, a.proceeds + b.proceeds, a.accepted + b.accepted,
          if b.error.Some? then b.error else a.error)
  }

  function RoyaltyAt(royalties: seq<Royalty>, i: nat): Option<Royalty> {
    if i < |royalties| then Some(royalties[i]) else None
  }

  function BuyOne(service: Service, me: string, height: Option<int>, hash: string, royalty: Option<Royalty>): Batch {
    match GetListing(service, me, height, hash)
    case Err(refusal) => Batch([], 0, [], Some(refusal))
    case Ok(l) => Batch(PurchaseMessages(me, l, royalty), SellerDue(l, royalty), [hash], None)
  }

  function BuyFrom(service: Service, me: string, height: Option<int>, hashes: seq<string>, royalties: seq<Royalty>,
                   i: nat): Batch
    requires i <= |hashes|
    decreases |hashes| - i
  {
    if i == |hashes| then Batch([], 0, [], None)
    else Then(BuyOne(service, me, height, hashes[i], RoyaltyAt(royalties, i)),
              BuyFrom(service, me, height, hashes, royalties, i + 1))
  }

  function DepositOne(service: Service, me: string, height: Option<int>, hash: string): Batch {
    match DepositListing(service, me, height, hash)
    case Err(refusal) => Batch([], 0, [], Some(refusal))
    case Ok(msg) => Batch([msg], 0, [hash], None)
  }

  function DepositFrom(service: Service, me: string, height: Option<int>, hashes: seq<string>, i: nat): Batch
    requires i <= |hashes|
    decreases |hashes| - i
  {
    if i == |hashes| then Batch([], 0, [], None)
    else Then(DepositOne(service, me, height, hashes[i]), DepositFrom(service, me, height, hashes, i + 1))
  }

  lemma ThenAssociates(a: Batch, b: Batch, c: Batch)
    ensures Then(Then(a, b), c) == Then(a, Then(b, c))
  {
    assert a.messages + b.messages + c.messages == a.messages + (b.messages + c.messages);
    assert a.accepted + b.accepted + c.accepted == a.accepted + (b.accepted + c.accepted);
  }

  // One turn of the batch loop
  lemma BuyTurn(service: Service, me: string, height: Option<int>, hashes: seq<string>, royalties: seq<Royalty>,
                i: nat, soFar: Batch)
    requires i < |hashes|
    ensures Then(soFar, BuyFrom(service, me, height, hashes, royalties, i))
         == Then(Then(soFar, BuyOne(service, me, height, hashes[i], RoyaltyAt(royalties, i))),
                 BuyFrom(service, me, height, hashes, royalties, i + 1))
  {
    hide BuyOne, Then;
    ThenAssociates(soFar, BuyOne(service, me, height, hashes[i], RoyaltyAt(royalties, i)),
                   BuyFrom(service, me, height, hashes, royalties, i + 1));
  }

  lemma DepositTurn(service: Service, me: string, height: Option<int>, hashes: seq<string>, i: nat, soFar: Batch)
    requires i < |hashes|
    ensures Then(soFar, DepositFrom(service, me, height, hashes, i))
         == Then(Then(soFar, DepositOne(service, me, height, hashes[i])),
                 DepositFrom(service, me, height, hashes, i + 1))
  {
    hide DepositOne, Then;
    ThenAssociates(soFar, DepositOne(service, me, height, hashes[i]), DepositFrom(service, me, height, hashes, i + 1));
  }

  lemma BuyEnd(service: Service, me: string, height: Option<int>, hashes: seq<string>, royalties: seq<Royalty>)
    ensures BuyFrom(service, me, height, hashes, royalties, |hashes|) == Batch([], 0, [], None)
  {}

  lemma DepositEnd(service: Service, me: string, height: Option<int>, hashes: seq<string>)
    ensures DepositFrom(service, me, height, hashes, |hashes|) == Batch([], 0, [], None)
  {}

  lemma ThenNothing(b: Batch)
    ensures Then(b, Batch([], 0, [], None)) == b && Then(Batch([], 0, [], None), b) == b
  {
    assert b.messages + [] == b.messages && [] + b.messages == b.messages;
    assert b.accepted + [] == b.accepted && [] + b.accepted == b.accepted;
  }

  // ---- the operations ----

  datatype Market = Market(chainId: string, base: Base, fees: map<string, OperationFee>)

  datatype BuyError = NoValidListing(reason: Option<Refusal>)

  // buildOperation
  function BuildOperation(m: Market, operation: string, params: seq<Urn.Param>): Operation {
    Operation(Urn.BuildUrn(Urn.Urn("marketplace", m.chainId, "v1", operation, params)),
              if operation in m.fees then m.fees[operation] else OperationFee("0", None))
  }

  // An undefined or empty hash gives no parameter.
  function HashParam(hash: Option<string>): seq<Urn.Param> {
    if hash.Some? && hash.value != "" then [("h", hash.value)] else []
  }

  function OperationName(buyType: BuyType): string {
    if buyType == Cft20 then "buy.cft20" else "buy.inscription"
  }

  // One listing is named in the URN, several in the metadata.
  function NamedInUrn(accepted: seq<string>): Option<string> {
    if |accepted| == 1 then Some(accepted[0]) else None
  }

  function NamedInData(accepted: seq<string>): Option<InscriptionData> {
    if |accepted| == 1 then None else Some(InscriptionData(Hashes(accepted), None, None, None))
  }

  // A share of the proceeds, counted in whole tokens
  function FeeShare(proceeds: int, percentage: real): real {
    proceeds as real / 1000000.0 * percentage
  }

  function FeeAmount(share: real): real {
    (if share < 0.000001 then 0.000001 else share) * 1000000.0
  }

  // The trading fee, with the percentage read from the fee's amount
  function BuyFee(fee: OperationFee, proceeds: int): string {
    match fee.percent
    case None => fee.amount
    case Some(percentage) => IntText(ToFixed(FeeAmount(FeeShare(proceeds, percentage))))
  }

  function BuyOutput(e: Encoder, m: Market, batch: Batch, buyType: BuyType): Output {
    var operation := BuildOperation(m, OperationName(buyType), HashParam(NamedInUrn(batch.accepted)));
    PrepareOperation(e, m.base, operation, NamedInData(batch.accepted),
                     Some(BuyFee(operation.fee, batch.proceeds)), Some(batch.messages))
  }

  method Buy(e: Encoder, m: Market, service: Service, height: Option<int>, listingHash: seq<string>,
             buyType: BuyType, royalty: seq<Royalty>)
    returns (r: Result<Output, BuyError>)
    ensures var batch := BuyFrom(service, m.base.address, height, listingHash, royalty, 0);
            r == if batch.accepted == [] then Err(NoValidListing(batch.error)) else Ok(BuyOutput(e, m, batch, buyType))
  {
    var messages: seq<Msg> := [];
    var totaluatom := 0;
    var error: Option<Refusal> := None;
    var availableListings: seq<string> := [];
    ghost var me := m.base.address;
    hide BuyFrom, PrepareOperation, BuildOperation, BuyFee, PurchaseMessages, GetListing, SellerDue;
    ThenNothing(BuyFrom(service, me, height, listingHash, royalty, 0));
    for i := 0 to |listingHash|
      invariant (messages == [] <==> availableListings == [])
      invariant Then(Batch(messages, totaluatom, availableListings, error),
                     BuyFrom(service, me, height, listingHash, royalty, i))
             == BuyFrom(service, me, height, listingHash, royalty, 0)
    {
      ghost var soFar := Batch(messages, totaluatom, availableListings, error);
      ghost var one := BuyOne(service, me, height, listingHash[i], RoyaltyAt(royalty, i));
      BuyTurn(service, me, height, listingHash, royalty, i, soFar);
      var result := BuyListing(service, m.base.address, height, listingHash[i], RoyaltyAt(royalty, i));
      if result.Err? {
        error := Some(result.error);
      } else {
        messages := messages + result.value.0;
        totaluatom := totaluatom + result.value.1;
        availableListings := availableListings + [listingHash[i]];
      }
      assert Batch(messages, totaluatom, availableListings, error) == Then(soFar, one) by {
        ThenNothing(soFar);
      }
    }
    BuyEnd(service, me, height, listingHash, royalty);
    ThenNothing(Batch(messages, totaluatom, availableListings, error));
    if |messages| == 0 {
      return Err(NoValidListing(error));
    }
    var operation := BuildOperation(m, OperationName(buyType), HashParam(NamedInUrn(availableListings)));
    var buyFee := BuyFee(operation.fee, totaluatom);
    return Ok(PrepareOperation(e, m.base, operation, NamedInData(availableListings), Some(buyFee), Some(messages)));
  }

  function DepositOutput(e: Encoder, m: Market, batch: Batch): Output {
    PrepareOperation(e, m.base, BuildOperation(m, "deposit", HashParam(NamedInUrn(batch.accepted))),
                     NamedInData(batch.accepted), None, Some(batch.messages))
  }

  method Deposit(e: Encoder, m: Market, service: Service, height: Option<int>, listingHash: seq<string>)
    returns (r: Result<Output, BuyError>)
    ensures var batch := DepositFrom(service, m.base.address, height, listingHash, 0);
            r == if batch.accepted == [] then Err(NoValidListing(batch.error)) else Ok(DepositOutput(e, m, batch))
  {
    var messages: seq<Msg> := [];
    var availableListings: seq<string> := [];
    var error: Option<Refusal> := None;
    ghost var me := m.base.address;
    hide DepositFrom, PrepareOperation, BuildOperation, DepositListing;
    ThenNothing(DepositFrom(service, me, height, listingHash, 0));
    for i := 0 to |listingHash|
      invariant (messages == [] <==> availableListings == [])
      invariant Then(Batch(messages, 0, availableListings, error), DepositFrom(service, me, height, listingHash, i))
             == DepositFrom(service, me, height, listingHash, 0)
    {
      ghost var soFar := Batch(messages, 0, availableListings, error);
      ghost var one := DepositOne(service, me, height, listingHash[i]);
      DepositTurn(service, me, height, listingHash, i, soFar);
      var result := DepositListing(service, m.base.address, height, listingHash[i]);
      if result.Err? {
        error := Some(result.error);
      } else {
        messages := messages + [result.value];
        availableListings := availableListings + [listingHash[i]];
      }
      assert Batch(messages, 0, availableListings, error) == Then(soFar, one) by {
        ThenNothing(soFar);
      }
    }
    DepositEnd(service, me, height, listingHash);
    ThenNothing(Batch(messages, 0, availableListings, error));
    if |messages| == 0 {
      return Err(NoValidListing(error));
    }
    return Ok(PrepareOperation(e, m.base, BuildOperation(m, "deposit", HashParam(NamedInUrn(availableListings))),
                               NamedInData(availableListings), None, Some(messages)));
  }

  // ---- new listings ----

  // The listing fee, for the share of the price to deposit as it is computed: at least 1, and without its fraction
  function ListingFee(depositBase: real): int {
    (if depositBase < 1.0 then 1.0 else depositBase).Floor
  }

  function ListOutput(e: Encoder, m: Market, operation: string, params: seq<Urn.Param>, depositBase: real): Output {
    PrepareOperation(e, m.base, BuildOperation(m, operation, params), None, Some(IntText(ListingFee(depositBase))),
                     None)
  }

  // Numbers come as the text they print as; `depositBase` is their product.
  method ListCft20(e: Encoder, m: Market, ticker: string, amount: string, pricePerToken: string,
                   minDepositMultiplier: string, timeoutBlocks: string, depositBase: real) returns (r: Output)
    ensures r == ListOutput(e, m, "list.cft20", [("tic", ticker), ("amt", amount), ("ppt", pricePerToken),
                                                 ("mindep", minDepositMultiplier), ("to", timeoutBlocks)], depositBase)
  {
    hide PrepareOperation, BuildOperation;
    var listingFee := depositBase;
    if listingFee < 1.0 {
      listingFee := 1.0;
    }
    var operation := BuildOperation(m, "list.cft20", [("tic", ticker), ("amt", amount), ("ppt", pricePerToken),
                                                      ("mindep", minDepositMultiplier), ("to", timeoutBlocks)]);
    return PrepareOperation(e, m.base, operation, None, Some(IntText(listingFee.Floor)), None);
  }

  method ListInscription(e: Encoder, m: Market, hash: string, price: string, minDepositMultiplier: string,
                         timeoutBlocks: string, depositBase: real) returns (r: Output)
    ensures r == ListOutput(e, m, "list.inscription", [("h", hash), ("amt", price), ("mindep", minDepositMultiplier),
                                                       ("to", timeoutBlocks)], depositBase)
  {
    hide PrepareOperation, BuildOperation;
    var listingFee := depositBase;
    if listingFee < 1.0 {
      listingFee := 1.0;
    }
    var operation := BuildOperation(m, "list.inscription", [("h", hash), ("amt", price),
                                                            ("mindep", minDepositMultiplier), ("to", timeoutBlocks)]);
    return PrepareOperation(e, m.base, operation, None, Some(IntText(listingFee.Floor)), None);
  }

  function DelistOutput(e: Encoder, m: Market, listingHash: string): Output {
    PrepareOperation(e, m.base, BuildOperation(m, "delist", [("h", listingHash)]), None, None, None)
  }
}

/** What the marketplace payments promise. */
module MarketplaceProperties {
  import opened Wrappers
  import opened Numbers
  import opened Tx
  import opened Operations
  import opened Marketplace
  import opened Varint
  import P = ProtoTypes
  import Urn

  // A royalty is paid exactly when a recipient other than the seller is named, more than 1 is due and the share is
  // more than 1. Royalty and seller payment make up what is due. The seller payment is negative only with a royalty,
  // and then exactly when the share of the whole price is what is due and a half, or more.
  lemma RoyaltySplit(me: string, l: Listing, royalty: Option<Royalty>)
    ensures var msgs := PurchaseMessages(me, l, royalty);
      && Debits(msgs, me, UATOM) == (if l.depositTotal > l.total then 1 else l.total - l.depositTotal)
      && 1 <= |msgs| <= 2
      && (|msgs| == 2 <==> royalty.Some? && royalty.value.recipient != l.seller && l.total - l.depositTotal > 1
                           && RoyaltyShare(l, royalty.value) > 1.0)
      && msgs[|msgs| - 1] == Send(me, l.seller, SellerDue(l, royalty), UATOM)
      && (|msgs| == 1 ==> SellerDue(l, royalty) >= 0)
      && (|msgs| == 2 ==>
            && royalty.Some? && royalty.value.recipient != l.seller
            && msgs[0].Send? && msgs[0].from == me && msgs[0].to == royalty.value.recipient && msgs[0].denom == UATOM
            && 1 <= msgs[0].amount
            && msgs[0].amount as real - 0.5 <= RoyaltyShare(l, royalty.value) < msgs[0].amount as real + 0.5
            && (SellerDue(l, royalty) >= 0 <==>
                RoyaltyShare(l, royalty.value) < (l.total - l.depositTotal) as real + 0.5))
  {
    hide ToFixed;
    var msgs := PurchaseMessages(me, l, royalty);
    var last := Send(me, l.seller, SellerDue(l, royalty), UATOM);
    assert Debits([last], me, UATOM) == SellerDue(l, royalty) by { assert [last][1..] == []; }
    assert Due(l) > 1 <==> l.total - l.depositTotal > 1;
    if RoyaltyDue(l, royalty).Some? {
      var first := Send(me, royalty.value.recipient, RoyaltyDue(l, royalty).value, UATOM);
      assert msgs == [first, last] && msgs[1..] == [last];
      ToFixedAbove(RoyaltyShare(l, royalty.value), 1);
      ToFixedAtMost(RoyaltyShare(l, royalty.value), Due(l));
    } else {
      assert msgs == [last] && SellerDue(l, royalty) == Due(l);
    }
  }

  // The guard lets such a purchase through: total 10, deposit 8, royalty one half, and -3 for the seller.
  lemma NegativeSellerPayment()
    ensures var l := Listing("s", 10, 8, true, Some("b"), Some(5), false, false);
      var service: Service := map["h" := l];
      && GetListing(service, "b", Some(5), "h") == Ok(l)
      && PurchaseMessages("b", l, Some(Royalty("r", 0.5, total => total as real * 0.5)))
      == [Send("b", "r", 5, UATOM), Send("b", "s", -3, UATOM)]
  {
    var l := Listing("s", 10, 8, true, Some("b"), Some(5), false, false);
    assert RoyaltyShare(l, Royalty("r", 0.5, total => total as real * 0.5)) == 5.0;
    assert "r"[0] != "s"[0];
  }

  // The listings a batch takes: those GetListing accepts, in input order
  function Accepted(service: Service, me: string, height: Option<int>, hashes: seq<string>): seq<string> {
    if hashes == [] then []
    else if GetListing(service, me, height, hashes[0]).Ok? then [hashes[0]] + Accepted(service, me, height, hashes[1..])
    else Accepted(service, me, height, hashes[1..])
  }

  // What those of the hashes that are listed have due
  function TotalDue(service: Service, accepted: seq<string>): int {
    if accepted == [] then 0
    else (if accepted[0] !in service then 0
          else if service[accepted[0]].depositTotal > service[accepted[0]].total then 1
          else service[accepted[0]].total - service[accepted[0]].depositTotal)
         + TotalDue(service, accepted[1..])
  }

  // What one turn of the loop adds
  lemma OnePurchase(service: Service, me: string, height: Option<int>, hash: string, royalty: Option<Royalty>)
    ensures var one := BuyOne(service, me, height, hash, royalty);
      && one.accepted == Accepted(service, me, height, [hash])
      && (forall h :: h in one.accepted ==> h in service)
      && Debits(one.messages, me, UATOM) == TotalDue(service, one.accepted)
      && (if one.accepted == [] then one.messages == [] && one.proceeds == 0
          else one.messages != []
               && one.messages[|one.messages| - 1] == Send(me, service[hash].seller, one.proceeds, UATOM))
  {
    hide PurchaseMessages, SellerDue;
    assert [hash][1..] == [];
    if GetListing(service, me, height, hash).Ok? {
      RoyaltySplit(me, service[hash], royalty);
    }
  }

  lemma {:induction false} AcceptedConcat(service: Service, me: string, height: Option<int>, a: seq<string>,
                                          b: seq<string>)
    ensures Accepted(service, me, height, a + b) == Accepted(service, me, height, a) + Accepted(service, me, height, b)
    decreases |a|
  {
    hide GetListing;
    if a == [] {
      assert a + b == b;
    } else {
      assert (a + b)[1..] == a[1..] + b;
      AcceptedConcat(service, me, height, a[1..], b);
    }
  }

  lemma {:induction false} TotalDueAdds(service: Service, a: seq<string>, b: seq<string>)
    ensures TotalDue(service, a + b) == TotalDue(service, a) + TotalDue(service, b)
    decreases |a|
  {
    if a == [] {
      assert a + b == b;
    } else {
      assert (a + b)[1..] == a[1..] + b;
      TotalDueAdds(service, a[1..], b);
    }
  }

  lemma NothingDue(service: Service, me: string)
    ensures Debits([], me, UATOM) == TotalDue(service, []) == 0
  {}

  lemma JoinedDue(service: Service, me: string, a: Batch, b: Batch)
    requires Debits(a.messages, me, UATOM) == TotalDue(service, a.accepted)
    requires Debits(b.messages, me, UATOM) == TotalDue(service, b.accepted)
    ensures Debits(Then(a, b).messages, me, UATOM) == TotalDue(service, Then(a, b).accepted)
    ensures Then(a, b).accepted == a.accepted + b.accepted
  {
    DebitsAdd(a.messages, b.messages, me, UATOM);
    TotalDueAdds(service, a.accepted, b.accepted);
  }

  lemma {:induction false} BatchIsAccepted(service: Service, me: string, height: Option<int>, hashes: seq<string>,
                                           royalties: seq<Royalty>, i: nat)
    requires i <= |hashes|
    ensures var batch := BuyFrom(service, me, height, hashes, royalties, i);
      && batch.accepted == Accepted(service, me, height, hashes[i..])
      && (forall h :: h in batch.accepted ==> h in service)
      && Debits(batch.messages, me, UATOM) == TotalDue(service, batch.accepted)
    decreases |hashes| - i
  {
    hide GetListing, BuyOne, Then, Debits, TotalDue;
    if i == |hashes| {
      NothingDue(service, me);
    } else {
      var one := BuyOne(service, me, height, hashes[i], RoyaltyAt(royalties, i));
      var rest := BuyFrom(service, me, height, hashes, royalties, i + 1);
      BatchIsAccepted(service, me, height, hashes, royalties, i + 1);
      OnePurchase(service, me, height, hashes[i], RoyaltyAt(royalties, i));
      assert hashes[i..] == [hashes[i]] + hashes[i + 1..];
      AcceptedConcat(service, me, height, [hashes[i]], hashes[i + 1..]);
      JoinedDue(service, me, one, rest);
    }
  }

  // The payments of a batch: listings and royalties are gone through side by side, and a listing that is not taken uses
  // up its royalty.
  function SideBySide(service: Service, me: string, height: Option<int>, hashes: seq<string>, royalties: seq<Royalty>)
    : seq<Msg>
    decreases hashes
  {
    if hashes == [] then []
    else
      var royalty := if royalties == [] then None else Some(royalties[0]);
      (if GetListing(service, me, height, hashes[0]).Ok? then PurchaseMessages(me, service[hashes[0]], royalty) else [])
      + SideBySide(service, me, height, hashes[1..], if royalties == [] then [] else royalties[1..])
  }

  function RoyaltiesFrom(royalties: seq<Royalty>, i: nat): seq<Royalty> {
    if i <= |royalties| then royalties[i..] else []
  }

  // The k-th listing, if it is taken, pays the k-th royalty.
  lemma {:induction false} RoyaltiesArePaired(service: Service, me: string, height: Option<int>, hashes: seq<string>,
                                              royalties: seq<Royalty>, i: nat)
    requires i <= |hashes|
    ensures BuyFrom(service, me, height, hashes, royalties, i).messages
         == SideBySide(service, me, height, hashes[i..], RoyaltiesFrom(royalties, i))
    decreases |hashes| - i
  {
    hide PurchaseMessages, SellerDue;
    if i < |hashes| {
      RoyaltiesArePaired(service, me, height, hashes, royalties, i + 1);
      assert hashes[i..][0] == hashes[i] && hashes[i..][1..] == hashes[i + 1..];
      var here := RoyaltiesFrom(royalties, i);
      assert here != [] ==> here[0] == royalties[i] && here[1..] == RoyaltiesFrom(royalties, i + 1);
    }
  }

  // The trading fee: the integer nearest to the share of the proceeds, or to 1 if the share is less
  function FeeDue(proceeds: int, percentage: real): (fee: int)
    ensures fee >= 1
    ensures var share := proceeds as real * percentage;
      if share < 1.0 then fee == 1 else share - 0.5 < fee as real <= share + 0.5
  {
    var share := proceeds as real * percentage;
    ToFixed(if share < 1.0 then 1.0 else share)
  }

  // A fee that is not a percentage is what it says.
  lemma FixedFeeStays(fee: OperationFee, proceeds: int)
    requires fee.percent.None?
    ensures BuyFee(fee, proceeds) == fee.amount
  {}

  lemma BuyFeeIsFeeDue(fee: OperationFee, proceeds: int)
    requires fee.percent.Some?
    ensures ParseInt(BuyFee(fee, proceeds)) == Some(FeeDue(proceeds, fee.percent.value))
  {
    hide ToFixed, ParseInt, IntText;
    FeeAmountOfShare(proceeds, fee.percent.value);
    ParseIntText(ToFixed(FeeAmount(FeeShare(proceeds, fee.percent.value))));
  }

  lemma FeeAmountOfShare(proceeds: int, percentage: real)
    ensures var share := proceeds as real * percentage;
      FeeAmount(FeeShare(proceeds, percentage)) == if share < 1.0 then 1.0 else share
  {
    assert FeeShare(proceeds, percentage) * 1000000.0 == proceeds as real * percentage by {
      ScaledShare(proceeds as real, percentage);
    }
    hide FeeShare;
    var share := proceeds as real * percentage;
    var f := FeeShare(proceeds, percentage);
    assert f < 0.000001 <==> share < 1.0;
  }

  // Going to whole tokens and back does not change a share.
  lemma ScaledShare(total: real, percentage: real)
    ensures total / 1000000.0 * percentage * 1000000.0 == total * percentage
  {
    var part := total / 1000000.0;
    assert part * 1000000.0 == total;
    assert part * percentage * 1000000.0 == part * 1000000.0 * percentage;
  }

  // What a reader of a transaction finds of the listings it takes: one in the URN, several, in order, in the one
  // option, where extension data decode in two steps to their JSON if they stay below 2^32 bytes.
  ghost predicate NamesListings(e: Encoder, tx: TxData, chainId: string, operation: string, listings: seq<string>) {
    var urn := Urn.ParseUrn(tx.memo);
    && urn.Some? && urn.value.name == "marketplace" && urn.value.chainId == chainId
    && urn.value.operation == operation
    && (if |listings| == 1 then
          urn.value.params == [("h", listings[0])] && tx.options == []
        else
          urn.value.params == [] && |tx.options| == 1 && OptionNames(e, tx.options[0], listings))
  }

  ghost predicate OptionNames(e: Encoder, option: ExtensionOption, listings: seq<string>) {
    match option
    case Revoke(granter, _, _) => granter.Some? && granter.value.metadata == Hashes(listings)
    case Extension(value) =>
      |value.protocolId| < UINT32 && |value.protocolVersion| < UINT32 && |value.data| < UINT32 ==>
        var outer := P.WholeExtensionData(P.EncodedExtensionData(value));
        outer.Ok? && var inner := P.WholeInscription(outer.value.data);
        inner.Ok? && inner.value.metadata == e.json(Hashes(listings))
  }

  lemma HashesAreNamed(e: Encoder, x: TxInscription, listings: seq<string>, extension: bool)
    requires x.data == Some(InscriptionData(Hashes(listings), None, None, None))
    ensures OptionNames(e, if extension then Extension(GetExtensionData(e, x, x.data.value)) else GetMsgRevoke(x),
                        listings)
  {
    hide P.WholeInscription, P.WholeExtensionData, P.EncodedExtensionData, P.EncodedInscription, GetExtensionData;
    ExtensionCarriesInscription(e, x);
  }

  // A purchase names the listings it took, for every batch, exactly unless it is the one empty hash, which the service
  // would have to know.
  lemma BatchIsNamed(e: Encoder, m: Market, batch: Batch, buyType: BuyType)
    requires batch.accepted != [] && '@' !in m.chainId
    requires forall k :: 0 <= k < |batch.accepted| ==> ',' !in batch.accepted[k]
    ensures var out := Submit(e, m.base, BuyOutput(e, m, batch, buyType));
      && out.Ok?
      && (NamesListings(e, out.value, m.chainId, OperationName(buyType), batch.accepted) <==> batch.accepted != [""])
  {
    BoughtTx(e, m, batch, buyType);
    var tx := Submit(e, m.base, BuyOutput(e, m, batch, buyType)).value;
    PurchaseParses(m.chainId, buyType, batch.accepted);
    hide BuyOutput, Submit, Urn.ParseUrn, Urn.BuildUrn, OperationName, NamesListings, OptionNames, HashParam,
         NamedInUrn;
    NamedExactly(e, tx, m.chainId, OperationName(buyType), batch.accepted);
  }

  lemma PurchaseParses(chainId: string, buyType: BuyType, accepted: seq<string>)
    requires accepted != [] && '@' !in chainId && forall k :: 0 <= k < |accepted| ==> ',' !in accepted[k]
    ensures var urn := Urn.Urn("marketplace", chainId, "v1", OperationName(buyType), HashParam(NamedInUrn(accepted)));
      Urn.ParseUrn(Urn.BuildUrn(urn)) == Some(urn)
  {
    hide Urn.BuildUrn, Urn.ParseUrn;
    OperationParses(chainId, OperationName(buyType), HashParam(NamedInUrn(accepted)));
  }

  lemma NamedExactly(e: Encoder, tx: TxData, chainId: string, operation: string, listings: seq<string>)
    requires listings != []
    requires Urn.ParseUrn(tx.memo)
          == Some(Urn.Urn("marketplace", chainId, "v1", operation, HashParam(NamedInUrn(listings))))
    requires if |listings| == 1 then tx.options == []
             else |tx.options| == 1 && OptionNames(e, tx.options[0], listings)
    ensures NamesListings(e, tx, chainId, operation, listings) <==> listings != [""]
  {
    hide Urn.ParseUrn, OptionNames;
    assert listings == [""] <==> |listings| == 1 && listings[0] == "";
  }

  lemma OperationParses(chainId: string, operation: string, params: seq<Urn.Param>)
    requires '@' !in chainId && '$' !in operation
    requires params == [] || (|params| == 1 && params[0].0 == "h" && ',' !in params[0].1)
    ensures var urn := Urn.Urn("marketplace", chainId, "v1", operation, params);
      Urn.ParseUrn(Urn.BuildUrn(urn)) == Some(urn)
  {
    hide Urn.BuildUrn, Urn.ParseUrn;
    Urn.PrintedUrnParses(Urn.Urn("marketplace", chainId, "v1", operation, params));
  }

  lemma BoughtTx(e: Encoder, m: Market, batch: Batch, buyType: BuyType)
    requires batch.accepted != []
    ensures Submit(e, m.base, BuyOutput(e, m, batch, buyType)).Ok?
    ensures var tx := Submit(e, m.base, BuyOutput(e, m, batch, buyType)).value;
      && tx.memo == Urn.BuildUrn(Urn.Urn("marketplace", m.chainId, "v1", OperationName(buyType),
                                         HashParam(NamedInUrn(batch.accepted))))
      && (if |batch.accepted| == 1 then tx.options == []
          else |tx.options| == 1 && OptionNames(e, tx.options[0], batch.accepted))
  {
    var operation := BuildOperation(m, OperationName(buyType), HashParam(NamedInUrn(batch.accepted)));
    var data, fee := NamedInData(batch.accepted), BuyFee(operation.fee, batch.proceeds);
    var x := AsInscription(m.base, operation, data, Some(fee), Some(batch.messages));
    var o := PrepareTxOptions(PassOn(m.base.useIbc), PassOn(m.base.useExtensionData));
    OneInscription(e, m.base.address, x.urn, x, o);
    if |batch.accepted| > 1 { HashesAreNamed(e, x, batch.accepted, UsesExtensionData(o)); }
    hide ParseInt, BuyFee, Prepared, GetExtensionData, GetMsgRevoke, Appended, OptionNames, Urn.BuildUrn,
         OperationName, HashParam, Carried, TotalFee;
  }

  // Conservation: what a purchase of any batch takes out of the buyer's account is what the accepted listings have
  // due plus one fee of the rounded share of the sellers' proceeds, and a reader of the transaction finds exactly those
  // listings, in order.
  lemma BatchBuyConserves(e: Encoder, m: Market, service: Service, height: Option<int>, hashes: seq<string>,
                          buyType: BuyType, royalties: seq<Royalty>, percentage: real)
    requires m.base.fee.denom == UATOM
    requires OperationName(buyType) in m.fees && m.fees[OperationName(buyType)].percent == Some(percentage)
    requires BuyFrom(service, m.base.address, height, hashes, royalties, 0).accepted != []
    ensures var me := m.base.address;
      var batch := BuyFrom(service, me, height, hashes, royalties, 0);
      var accepted := batch.accepted;
      var out := Submit(e, m.base, BuyOutput(e, m, batch, buyType));
      var fee := FeeDue(batch.proceeds, percentage);
      && accepted == Accepted(service, me, height, hashes)
      && (forall h :: h in accepted ==> h in service)
      && batch.messages == SideBySide(service, me, height, hashes, royalties)
      && out.Ok?
      && Debits(out.value.messages, me, UATOM) == TotalDue(service, accepted) + fee
      && out.value.messages == batch.messages + [
           if m.base.useIbc == Given(true)
           then IbcTransfer(me, m.base.fee.receiver, m.base.fee.ibcChannel, fee, UATOM)
           else Send(me, m.base.fee.receiver, fee, UATOM)]
      && ('@' !in m.chainId && accepted != [""] && (forall h :: h in accepted ==> ',' !in h) ==>
            NamesListings(e, out.value, m.chainId, OperationName(buyType), accepted))
  {
    hide NamesListings, BuyFrom, BuyOutput, Submit, BuyFee, ParseInt, FeeDue, Accepted, TotalDue, GetListing, Debits,
         OperationName;
    var me := m.base.address;
    var batch := BuyFrom(service, me, height, hashes, royalties, 0);
    BatchIsAccepted(service, me, height, hashes, royalties, 0);
    RoyaltiesArePaired(service, me, height, hashes, royalties, 0);
    assert hashes[0..] == hashes && royalties[0..] == royalties;
    hide SideBySide;
    BuyFeeIsFeeDue(m.fees[OperationName(buyType)], batch.proceeds);
    AssembledBuy(e, m, batch, buyType);
    var fee := ParseInt(BuyFee(m.fees[OperationName(buyType)], batch.proceeds)).value;
    var message := if m.base.useIbc == Given(true)
                   then IbcTransfer(me, m.base.fee.receiver, m.base.fee.ibcChannel, fee, m.base.fee.denom)
                   else Send(me, m.base.fee.receiver, fee, m.base.fee.denom);
    DebitsAdd(batch.messages, [message], me, UATOM);
    OneDebit(message, me, UATOM);
    if '@' !in m.chainId && batch.accepted != [""] && (forall h :: h in batch.accepted ==> ',' !in h) {
      assert forall k :: 0 <= k < |batch.accepted| ==> batch.accepted[k] in batch.accepted;
      BatchIsNamed(e, m, batch, buyType);
    }
  }

  lemma OneDebit(m: Msg, who: string, denom: string)
    ensures Debits([m], who, denom) == Debit(m, who, denom)
  {
    assert [m][1..] == [];
  }

  lemma AssembledBuy(e: Encoder, m: Market, batch: Batch, buyType: BuyType)
    requires OperationName(buyType) in m.fees
    requires IsPositive(ParseInt(BuyFee(m.fees[OperationName(buyType)], batch.proceeds)))
    ensures var me := m.base.address;
      var out := Submit(e, m.base, BuyOutput(e, m, batch, buyType));
      var fee := ParseInt(BuyFee(m.fees[OperationName(buyType)], batch.proceeds)).value;
      && out.Ok?
      && out.value.messages == batch.messages + [
           if m.base.useIbc == Given(true)
           then IbcTransfer(me, m.base.fee.receiver, m.base.fee.ibcChannel, fee, m.base.fee.denom)
           else Send(me, m.base.fee.receiver, fee, m.base.fee.denom)]
  {
    var operation := BuildOperation(m, OperationName(buyType), HashParam(NamedInUrn(batch.accepted)));
    var data, fee := NamedInData(batch.accepted), BuyFee(operation.fee, batch.proceeds);
    var x := AsInscription(m.base, operation, data, Some(fee), Some(batch.messages));
    var o := PrepareTxOptions(PassOn(m.base.useIbc), PassOn(m.base.useExtensionData));
    OneInscription(e, m.base.address, x.urn, x, o);
    hide ParseInt, BuyFee, Prepared, GetExtensionData, GetMsgRevoke;
  }

  // A batch of deposits carries its deposits and nothing else, unless the protocol has a fee for it.
  lemma DepositIsFree(e: Encoder, m: Market, batch: Batch)
    requires "deposit" !in m.fees && batch.messages != []
    ensures var out := Submit(e, m.base, DepositOutput(e, m, batch));
      && out.Ok? && out.value.messages == batch.messages
      && out.value.memo == Urn.BuildUrn(Urn.Urn("marketplace", m.chainId, "v1", "deposit",
                                                HashParam(NamedInUrn(batch.accepted))))
  {
    var operation := BuildOperation(m, "deposit", HashParam(NamedInUrn(batch.accepted)));
    var x := AsInscription(m.base, operation, NamedInData(batch.accepted), None, Some(batch.messages));
    OneInscription(e, m.base.address, x.urn, x,
                   PrepareTxOptions(PassOn(m.base.useIbc), PassOn(m.base.useExtensionData)));
    ParseIntPrefix(0, "");
    assert IntText(0) + "" == "0";
    assert batch.messages + [] == batch.messages;
    hide Prepared, GetExtensionData, GetMsgRevoke, ParseInt, Urn.BuildUrn, HashParam;
  }

  // The listings DepositListing accepts, in input order
  function Depositable(service: Service, me: string, height: Option<int>, hashes: seq<string>): seq<string> {
    if hashes == [] then []
    else if DepositListing(service, me, height, hashes[0]).Ok?
    then [hashes[0]] + Depositable(service, me, height, hashes[1..])
    else Depositable(service, me, height, hashes[1..])
  }

  // One message for each accepted listing, in order, paying the seller the deposit
  ghost predicate PaysDeposits(service: Service, me: string, batch: Batch) {
    && |batch.messages| == |batch.accepted|
    && forall k :: 0 <= k < |batch.accepted| ==>
         && batch.accepted[k] in service
         && batch.messages[k]
         == Send(me, service[batch.accepted[k]].seller, service[batch.accepted[k]].depositTotal, UATOM)
  }

  lemma OneDeposit(service: Service, me: string, height: Option<int>, hash: string)
    ensures PaysDeposits(service, me, DepositOne(service, me, height, hash))
    ensures DepositOne(service, me, height, hash).accepted
         == if DepositListing(service, me, height, hash).Ok? then [hash] else []
  {}

  lemma JoinedDeposits(service: Service, me: string, a: Batch, b: Batch)
    requires PaysDeposits(service, me, a) && PaysDeposits(service, me, b)
    ensures PaysDeposits(service, me, Then(a, b))
  {}

  // A batch deposit takes exactly the listings the guard accepts, in order, and pays each seller its deposit.
  lemma {:induction false} DepositsAreAccepted(service: Service, me: string, height: Option<int>, hashes: seq<string>,
                                               i: nat)
    requires i <= |hashes|
    ensures var batch := DepositFrom(service, me, height, hashes, i);
      && batch.accepted == Depositable(service, me, height, hashes[i..])
      && PaysDeposits(service, me, batch)
    decreases |hashes| - i
  {
    hide DepositListing, DepositOne;
    if i < |hashes| {
      hide PaysDeposits;
      var one, rest := DepositOne(service, me, height, hashes[i]), DepositFrom(service, me, height, hashes, i + 1);
      DepositsAreAccepted(service, me, height, hashes, i + 1);
      OneDeposit(service, me, height, hashes[i]);
      JoinedDeposits(service, me, one, rest);
      assert hashes[i..][1..] == hashes[i + 1..];
      assert [] + rest.accepted == rest.accepted;
    }
  }

  // ---- the guards ----

  // Why a guard refuses, and that it refuses for nothing else: each case shuts out the ones before it.
  lemma RefusedExactly(service: Service, me: string, height: Option<int>, hash: string)
    ensures GetListing(service, me, height, hash)
         == if hash !in service then Err(NotFound)
            else if service[hash].isCancelled || service[hash].isFilled then Err(CancelledOrFilled)
            else if !(service[hash].isDeposited && service[hash].depositor == Some(me)) then Err(NotDepositor)
            else if service[hash].timeout.GetOr(0) < height.GetOr(0) then Err(DepositExpired)
            else Ok(service[hash])
    ensures var deposit := DepositListing(service, me, height, hash);
      && (deposit == Err(NotFound) <==> hash !in service)
      && (deposit == Err(CancelledOrFilled) <==>
          hash in service && (service[hash].isCancelled || service[hash].isFilled))
      && (deposit == Err(DepositedByOther) <==>
          hash in service && !service[hash].isCancelled && !service[hash].isFilled && service[hash].isDeposited
          && service[hash].depositor != Some(me) && height.GetOr(0) < service[hash].timeout.GetOr(0))
      && (deposit == Err(DepositedByYou) <==>
          hash in service && !service[hash].isCancelled && !service[hash].isFilled
          && service[hash].depositor == Some(me) && height.GetOr(0) < service[hash].timeout.GetOr(0))
      && (deposit.Ok? ==>
            hash in service && deposit.value == Send(me, service[hash].seller, service[hash].depositTotal, UATOM))
      && deposit != Err(NotDepositor) && deposit != Err(DepositExpired)
  {}

  // The listing at that place is refused, and none behind it
  ghost predicate LastRefused(service: Service, me: string, height: Option<int>, hashes: seq<string>, k: nat) {
    && k < |hashes| && GetListing(service, me, height, hashes[k]).Err?
    && forall j :: k < j < |hashes| ==> GetListing(service, me, height, hashes[j]).Ok?
  }

  // What a batch that takes nothing, or not everything, reports: the reason of the last listing it refused
  ghost predicate IsLastRefusal(service: Service, me: string, height: Option<int>, hashes: seq<string>,
                                error: Option<Refusal>)
  {
    match error
    case None => forall k :: 0 <= k < |hashes| ==> GetListing(service, me, height, hashes[k]).Ok?
    case Some(reason) =>
      exists k: nat :: LastRefused(service, me, height, hashes, k)
        && GetListing(service, me, height, hashes[k]) == Err(reason)
  }

  lemma {:induction false} LastRefusalIsReported(service: Service, me: string, height: Option<int>, hashes: seq<string>,
                                                 royalties: seq<Royalty>, i: nat)
    requires i <= |hashes|
    ensures IsLastRefusal(service, me, height, hashes[i..], BuyFrom(service, me, height, hashes, royalties, i).error)
    decreases |hashes| - i
  {
    hide PurchaseMessages, SellerDue, GetListing;
    if i < |hashes| {
      LastRefusalIsReported(service, me, height, hashes, royalties, i + 1);
      var rest := hashes[i + 1..];
      var error := BuyFrom(service, me, height, hashes, royalties, i + 1).error;
      assert hashes[i..] == [hashes[i]] + rest;
      RefusalBefore(service, me, height, hashes[i], rest, error);
    }
  }

  lemma RefusalBefore(service: Service, me: string, height: Option<int>, hash: string, rest: seq<string>,
                      error: Option<Refusal>)
    requires IsLastRefusal(service, me, height, rest, error)
    ensures var one := GetListing(service, me, height, hash);
      IsLastRefusal(service, me, height, [hash] + rest,
                    if error.Some? then error else if one.Err? then Some(one.error) else None)
  {
    hide GetListing;
    var all := [hash] + rest;
    assert forall k :: 0 <= k < |rest| ==> all[k + 1] == rest[k];
    forall j | 0 < j < |all| ensures all[j] == rest[j - 1] {}
    if error.Some? {
      var k: nat :| LastRefused(service, me, height, rest, k)
                    && GetListing(service, me, height, rest[k]) == Err(error.value);
      assert LastRefused(service, me, height, all, k + 1);
    } else if GetListing(service, me, height, hash).Err? {
      assert LastRefused(service, me, height, all, 0);
    }
  }

  // For a live deposited listing, the depositor can buy up to and with the timeout height, and anyone can deposit
  // from the timeout height on, so only at that height are both open.
  lemma GuardsMeetAtTimeout(service: Service, me: string, other: string, height: Option<int>, hash: string)
    requires hash in service && !service[hash].isCancelled && !service[hash].isFilled
    requires service[hash].isDeposited && service[hash].depositor == Some(me)
    ensures GetListing(service, me, height, hash).Ok? <==> Num(height) <= Num(service[hash].timeout)
    ensures other != me ==> GetListing(service, other, height, hash) == Err(NotDepositor)
    ensures DepositListing(service, other, height, hash).Ok? <==> Num(service[hash].timeout) <= Num(height)
    ensures GetListing(service, me, height, hash).Ok? && DepositListing(service, other, height, hash).Ok?
       <==> Num(height) == Num(service[hash].timeout)
    ensures GetListing(service, me, height, hash).Ok? || DepositListing(service, other, height, hash).Ok?
  {
    var l := service[hash];
    assert DepositListing(service, other, height, hash)
        == if Num(l.timeout) > Num(height) then Err(if other == me then DepositedByYou else DepositedByOther)
           else Ok(Send(other, l.seller, l.depositTotal, UATOM));
  }
}

/** The state a listing is shown in, decided apart from the guards. */
module ListingDisplay {
  import opened Wrappers
  import opened Marketplace

  datatype ListingState = Reserve | Buy | Cancel | Reserved

  function GetListingState(l: Listing, wallet: Option<string>, currentBlock: int): ListingState {
    var isExpired := Num(l.timeout) < currentBlock;
    if Some(l.seller) == wallet then
      if !l.isDeposited || isExpired then Cancel else Reserved
    else if l.isDeposited && !isExpired then
      if l.depositor == wallet then Buy else Reserved
    else Reserve
  }

  // For anyone but the seller of a live listing the two deciders agree on buying, and Reserve is refused only in
  // one case: a listing that is not deposited, yet names the caller as depositor with a timeout still ahead. The
  // indexer stores no such listing.
  lemma DisplayAgreesWithGuards(service: Service, me: string, height: int, hash: string)
    requires hash in service && !service[hash].isCancelled && !service[hash].isFilled && service[hash].seller != me
    ensures var l := service[hash]; var state := GetListingState(l, Some(me), height);
      && (state == Buy <==> GetListing(service, me, Some(height), hash).Ok?)
      && (state == Reserve ==>
            (DepositListing(service, me, Some(height), hash).Ok?
             <==> l.isDeposited || l.depositor != Some(me) || Num(l.timeout) <= height))
      && (state == Reserved ==>
            (DepositListing(service, me, Some(height), hash).Ok? <==> Num(l.timeout) == height))
      && state != Cancel
  {
    var l := service[hash];
    assert GetListingState(l, Some(me), height) == Reserve <==> !l.isDeposited || Num(l.timeout) < height;
  }
}
