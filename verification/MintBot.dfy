/**
 * The mint bot's spending: one transaction of wrapped sends, paid for out of the limit the minter granted.
 * A fee estimate is what `estimate` answers for a list of messages.
 */
module MintBot {
  import opened Wrappers
  import opened Tx
  import opened Operations
  import Urn

  // The bank authorization found for granter and bot; its spend limit need not have a uatom coin.
  datatype Authorization = NoGrant | SpendLimit(uatom: Option<int>)

  datatype MintError = NoAuthorization | InsufficientAuthorization

  type Estimate = seq<Msg> -> int

  // inscribeCollectionInscription with the default options: no operation of the protocol has a fee
  function InscribeBase(reservationAddress: string, receiver: string, ibcChannel: string): Base {
    Base("inscription", "v2", ProtocolFee(receiver, ibcChannel, UATOM), reservationAddress, Given(true), Absent, false)
  }

  function InscribeOperation(chainId: string, contentHash: string): Operation {
    Operation(Urn.BuildUrn(Urn.Urn("inscription", chainId, "v2", "inscribe", [("h", contentHash)])),
              OperationFee("0", None))
  }

  // getExecSendGrantMsg(bot, msg.value) for a message that is a send
  function Wrap(bot: string, m: Msg): Msg
    requires m.Send?
  {
    Exec(bot, m.from, m.to, m.amount, m.denom)
  }

  class MintTx {
    var messages: seq<Msg>

    constructor (messages: seq<Msg>)
      ensures this.messages == messages
    {
      this.messages := messages;
    }

    // The fee message of the first estimate only makes the second one complete; it is replaced, not joined.
    method CalculateFee(estimate: Estimate, bot: string, reservationAddress: string) returns (feeEstimation: int)
      modifies this
      ensures feeEstimation
           == estimate(old(messages) + [Exec(bot, reservationAddress, bot, estimate(old(messages)), UATOM)])
      ensures messages == old(messages) + [Exec(bot, reservationAddress, bot, feeEstimation, UATOM)]
    {
      var preFeeEstimation := estimate(messages);
      var msgs := messages;
      messages := msgs + [Exec(bot, reservationAddress, bot, preFeeEstimation, UATOM)];
      feeEstimation := estimate(messages);
      messages := msgs + [Exec(bot, reservationAddress, bot, feeEstimation, UATOM)];
    }
  }

  function RequiredAmount(feeEstimation: int, stagePrice: Option<int>): int {
    feeEstimation + stagePrice.GetOr(0) + 1
  }

  function CheckGrant(grant: Authorization, feeEstimation: int, stagePrice: Option<int>): (r: Result<(), MintError>)
    ensures r == Err(NoAuthorization) <==> grant.NoGrant?
  {
    match grant
    case NoGrant => Err(NoAuthorization)
    case SpendLimit(None) => Err(InsufficientAuthorization)
    case SpendLimit(Some(limit)) =>
      if RequiredAmount(feeEstimation, stagePrice) > limit then Err(InsufficientAuthorization) else Ok(())
  }

  // The wrapped messages before the fee. A price of 0 is no payment.
  function UnpaidMessages(bot: string, reservationAddress: string, creator: string, stagePrice: Option<int>): seq<Msg> {
    [Exec(bot, reservationAddress, reservationAddress, 1, UATOM)]
    + (if stagePrice.GetOr(0) != 0 then [Exec(bot, reservationAddress, creator, stagePrice.value, UATOM)] else [])
  }

  // The messages of the transaction for one reservation
  function MintMessages(bot: string, reservationAddress: string, creator: string, stagePrice: Option<int>,
                        fee: int): seq<Msg> {
    UnpaidMessages(bot, reservationAddress, creator, stagePrice) + [Exec(bot, reservationAddress, bot, fee, UATOM)]
  }

  method WrapAll(bot: string, messages: seq<Msg>) returns (msgs: seq<Msg>)
    requires forall m :: m in messages ==> m.Send?
    ensures |msgs| == |messages|
    ensures forall k :: 0 <= k < |messages| ==>
      msgs[k] == Exec(bot, messages[k].from, messages[k].to, messages[k].amount, messages[k].denom)
  {
    msgs := [];
    for i := 0 to |messages|
      invariant |msgs| == i
      invariant forall k :: 0 <= k < i ==> msgs[k] == Wrap(bot, messages[k])
    {
      msgs := msgs + [Wrap(bot, messages[i])];
    }
  }

  // From the built inscription to the broadcast; what is returned is the transaction that is signed.
  method ProcessMintReservation(e: Encoder, estimate: Estimate, grant: Authorization, bot: string,
                                reservationAddress: string, creator: string, stagePrice: Option<int>,
                                receiver: string, ibcChannel: string, chainId: string, contentHash: string,
                                data: InscriptionData)
    returns (r: Result<TxData, MintError>, feeEstimation: int)
    ensures match CheckGrant(grant, feeEstimation, stagePrice)
            case Err(error) => r == Err(error)
            case Ok(_) =>
              && r.Ok?
              && r.value.messages == MintMessages(bot, reservationAddress, creator, stagePrice, feeEstimation)
              && Inscribes(e, r.value, chainId, contentHash, data)
    ensures var unpaid := UnpaidMessages(bot, reservationAddress, creator, stagePrice);
            feeEstimation == estimate(MintMessages(bot, reservationAddress, creator, stagePrice, estimate(unpaid)))
  {
    var base := InscribeBase(reservationAddress, receiver, ibcChannel);
    var operation := InscribeOperation(chainId, contentHash);
    InscribeIsSelfSend(e, base, operation, data);
    ReservationInscribes(e, reservationAddress, receiver, ibcChannel, chainId, contentHash, data);
    hide PrepareOperation, CheckGrant, Inscribes;
    var built := PrepareOperation(e, base, operation, Some(data), None, None);
    assert built.tx.value.messages == [Send(reservationAddress, reservationAddress, 1, UATOM)];
    var txData := built.tx.value;
    var msgs := WrapAll(bot, txData.messages);
    assert msgs == [Exec(bot, reservationAddress, reservationAddress, 1, UATOM)];
    if stagePrice.GetOr(0) != 0 {
      msgs := msgs + [Exec(bot, reservationAddress, creator, stagePrice.value, UATOM)];
    }
    assert msgs == UnpaidMessages(bot, reservationAddress, creator, stagePrice);
    var tx := new MintTx(msgs);
    feeEstimation := tx.CalculateFee(estimate, bot, reservationAddress);
    var check := CheckGrant(grant, feeEstimation, stagePrice);
    if check.Err? {
      r := Err(check.error);
    } else {
      r := Ok(txData.(messages := tx.messages));
      InscribesWhatever(e, txData, tx.messages, chainId, contentHash, data);
    }
  }

  // The transaction inscribes the data under the hash: a reader of its memo finds the operation, and its one option
  // carries the data, as version 2 of the inscription protocol.
  ghost predicate Inscribes(e: Encoder, tx: TxData, chainId: string, contentHash: string, data: InscriptionData) {
    && ('@' !in chainId && ',' !in contentHash ==>
          Urn.ParseUrn(tx.memo) == Some(Urn.Urn("inscription", chainId, "v2", "inscribe", [("h", contentHash)])))
    && |tx.options| == 1
    && exists fee: TxFee ::
         Carries(e, TxInscription("inscription", "v2", tx.memo, Some(data), fee, None), tx.options[0])
  }

  lemma InscribesWhatever(e: Encoder, tx: TxData, messages: seq<Msg>, chainId: string, contentHash: string,
                          data: InscriptionData)
    requires Inscribes(e, tx, chainId, contentHash, data)
    ensures Inscribes(e, tx.(messages := messages), chainId, contentHash, data)
  {}

  lemma ReservationInscribes(e: Encoder, reservationAddress: string, receiver: string, ibcChannel: string,
                             chainId: string, contentHash: string, data: InscriptionData)
    ensures var out := PrepareOperation(e, InscribeBase(reservationAddress, receiver, ibcChannel),
                                        InscribeOperation(chainId, contentHash), Some(data), None, None);
      out.Single? && out.tx.Ok? && Inscribes(e, out.tx.value, chainId, contentHash, data)
  {
    var base := InscribeBase(reservationAddress, receiver, ibcChannel);
    var operation := InscribeOperation(chainId, contentHash);
    var x := AsInscription(base, operation, Some(data), None, None);
    InscriptionIsFound(chainId, contentHash);
    hide InscribeOperation, GetExtensionData, Urn.ParseUrn, Carries, Appended, Numbers.ParseInt;
    OneInscription(e, base.address, x.urn, x, PrepareTxOptions(PassOn(base.useIbc), PassOn(base.useExtensionData)));
    hide Prepared;
    ExtensionCarries(e, x);
    assert x == TxInscription("inscription", "v2", x.urn, Some(data), x.fee, None);
  }

  lemma InscriptionIsFound(chainId: string, contentHash: string)
    ensures '@' !in chainId && ',' !in contentHash ==>
      Urn.ParseUrn(InscribeOperation(chainId, contentHash).urn)
      == Some(Urn.Urn("inscription", chainId, "v2", "inscribe", [("h", contentHash)]))
  {
    Urn.PrintedUrnParses(Urn.Urn("inscription", chainId, "v2", "inscribe", [("h", contentHash)]));
    hide Urn.BuildUrn, Urn.ParseUrn;
  }

  // An inscription without a fee and without messages is a transaction of 1 uatom sent to oneself.
  lemma InscribeIsSelfSend(e: Encoder, base: Base, operation: Operation, data: InscriptionData)
    requires !base.multi && operation.fee.amount == "0" && base.fee.denom == UATOM
    ensures var out := PrepareOperation(e, base, operation, Some(data), None, None);
      && out.Single? && out.tx.Ok?
      && out.tx.value.messages == [Send(base.address, base.address, 1, UATOM)]
      && out.tx.value.memo == operation.urn
  {
    var x := AsInscription(base, operation, Some(data), None, None);
    var o := PrepareTxOptions(PassOn(base.useIbc), PassOn(base.useExtensionData));
    OneInscription(e, base.address, x.urn, x, o);
    hide Prepared, GetExtensionData, GetMsgRevoke;
    Numbers.ParseIntText(0);
  }

  // Exact spend: what all wrapped messages together take from the minter is the amount the grant is checked for.
  lemma ExactSpend(bot: string, reservationAddress: string, creator: string, stagePrice: Option<int>, fee: int)
    ensures Debits(MintMessages(bot, reservationAddress, creator, stagePrice, fee), reservationAddress, UATOM)
         == RequiredAmount(fee, stagePrice)
    ensures forall m :: m in MintMessages(bot, reservationAddress, creator, stagePrice, fee) ==>
      m.Exec? && m.grantee == bot && m.from == reservationAddress && m.denom == UATOM
  {
    var self := Exec(bot, reservationAddress, reservationAddress, 1, UATOM);
    var pay := Exec(bot, reservationAddress, bot, fee, UATOM);
    var msgs := MintMessages(bot, reservationAddress, creator, stagePrice, fee);
    assert Debits([pay], reservationAddress, UATOM) == fee by { assert [pay][1..] == []; }
    if stagePrice.GetOr(0) != 0 {
      var price := Exec(bot, reservationAddress, creator, stagePrice.value, UATOM);
      assert msgs == [self, price, pay] && msgs[1..] == [price, pay] && [price, pay][1..] == [pay];
    } else {
      assert msgs == [self, pay] && msgs[1..] == [pay];
    }
  }

  // And who gets it: the creator the stage price, the bot the fee, the minter 1 back, and nobody else anything. Parties
  // that are one and the same get it all.
  lemma ExactReceipts(bot: string, reservationAddress: string, creator: string, stagePrice: Option<int>, fee: int,
                      who: string)
    ensures Receipts(MintMessages(bot, reservationAddress, creator, stagePrice, fee), who, UATOM)
         == (if who == creator && stagePrice.Some? then stagePrice.value else 0)
            + (if who == bot then fee else 0)
            + (if who == reservationAddress then 1 else 0)
  {
    var self := Exec(bot, reservationAddress, reservationAddress, 1, UATOM);
    var pay := Exec(bot, reservationAddress, bot, fee, UATOM);
    var msgs := MintMessages(bot, reservationAddress, creator, stagePrice, fee);
    assert Receipts([pay], who, UATOM) == Receipt(pay, who, UATOM) by { assert [pay][1..] == []; }
    if stagePrice.GetOr(0) != 0 {
      var price := Exec(bot, reservationAddress, creator, stagePrice.value, UATOM);
      assert msgs == [self, price, pay] && msgs[1..] == [price, pay] && [price, pay][1..] == [pay];
      assert Receipts([price, pay], who, UATOM) == Receipt(price, who, UATOM) + Receipt(pay, who, UATOM);
    } else {
      assert msgs == [self, pay] && msgs[1..] == [pay];
    }
  }

  // ---- the chain's side of a spend limit ----

  // A send authorization pays a message out of what is left of its limit, and is gone once nothing is left.
  datatype Spending = Rejected | Left(limit: int)

  function Spend(left: Spending, amount: int): Spending {
    if left.Rejected? || left.limit <= 0 || amount > left.limit then Rejected else Left(left.limit - amount)
  }

  function SpendAll(left: Spending, msgs: seq<Msg>, who: string): Spending
    decreases msgs
  {
    if msgs == [] then left else SpendAll(Spend(left, Debit(msgs[0], who, UATOM)), msgs[1..], who)
  }

  // The check is exact: for a limit that is there, the messages go through one after the other exactly when
  // checkGrant lets them, and they leave the limit less the required amount.
  lemma CheckGrantIsExact(limit: int, bot: string, reservationAddress: string, creator: string,
                          stagePrice: Option<int>, fee: int)
    requires fee > 0 && stagePrice.GetOr(0) >= 0
    ensures SpendAll(Left(limit), MintMessages(bot, reservationAddress, creator, stagePrice, fee), reservationAddress)
         == if CheckGrant(SpendLimit(Some(limit)), fee, stagePrice).Ok?
            then Left(limit - RequiredAmount(fee, stagePrice)) else Rejected
  {
    var self := Exec(bot, reservationAddress, reservationAddress, 1, UATOM);
    var pay := Exec(bot, reservationAddress, bot, fee, UATOM);
    var msgs := MintMessages(bot, reservationAddress, creator, stagePrice, fee);
    var after1 := Spend(Left(limit), 1);
    assert [pay][1..] == [];
    assert forall l: Spending :: SpendAll(l, [pay], reservationAddress) == Spend(l, fee);
    if stagePrice.GetOr(0) != 0 {
      var price := Exec(bot, reservationAddress, creator, stagePrice.value, UATOM);
      assert msgs == [self, price, pay] && msgs[1..] == [price, pay] && [price, pay][1..] == [pay];
      assert SpendAll(after1, [price, pay], reservationAddress)
          == SpendAll(Spend(after1, stagePrice.value), [pay], reservationAddress);
    } else {
      assert msgs == [self, pay] && msgs[1..] == [pay];
    }
  }
}
