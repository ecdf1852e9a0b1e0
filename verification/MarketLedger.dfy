/**
 * The indexer's side of trading: token balances, the orders of the first market, the listings of the second one,
 * and the owners of inscriptions. The numbers of an operation are taken as already read, products of numbers with a
 * fraction as already computed, whatever the rounding was; a row's position stands for its id.
 */
module MarketLedger {
  import opened Wrappers
  import opened Tx
  import opened Marketplace

  const UINT64: int := 0x1_0000_0000_0000_0000

  // What a bigint column holds
  const BIGINT: int := 0x8000_0000_0000_0000

  // The address that owns what is listed; no account on the chain has it.
  const MARKET := "marketplace-v2"

  const IBC_CHANNEL := "channel-569"

  datatype Rules = Rules(ibcEnabled: bool, ibcReceiver: string, tradeFee: real,
                         minimumTradeSize: real, minimumDeposit: real, minimumTimeout: nat)

  datatype Token = Token(maxSupply: int, circulating: int, perMintLimit: nat, decimals: nat)

  datatype Holder = Holder(token: nat, address: string, amount: int)

  datatype Order = Order(token: nat, seller: string, amount: int, total: int, isFilled: bool, isCancelled: bool)

  datatype Goods = Tokens(token: nat, amount: int) | Piece(inscription: nat)

  datatype Entry = Entry(listing: Listing, depositTimeout: nat, goods: Goods)

  datatype Book = Book(tokens: seq<Token>, holders: seq<Holder>, orders: seq<Order>, entries: seq<Entry>,
                       owners: seq<string>)

  const NEW := Book([], [], [], [], [])

  datatype Reason =
    | Unknown | SoldOut | NotPositive | BadTerms | NotEnough | NotSeller | NotOwner | Taken | Closed
    | NotDeposited | WrongDepositor | NoFunds | NotPaid | RoyaltyNotPaid | FeeNotPaid | WrongPayment
    | Misread | Crash

  // ---- what a transaction sent ----

  function Parsed(amount: int, denom: string): Option<nat> {
    if denom == UATOM && 0 <= amount < UINT64 then Some(amount) else None
  }

  // The first bank send to the receiver
  function BankSent(msgs: seq<Msg>, receiver: string): Option<nat> {
    if msgs == [] then None
    else if msgs[0].Send? && msgs[0].to == receiver then Parsed(msgs[0].amount, msgs[0].denom)
    else BankSent(msgs[1..], receiver)
  }

  // The first transfer out of the chain, to whomever it goes. If it is in another denom, writing the error message
  // stops the indexer.
  function IbcSent(msgs: seq<Msg>, receiver: string): Option<nat> {
    if msgs == [] then None
    else if msgs[0].IbcTransfer? then
      if msgs[0].channel == IBC_CHANNEL && msgs[0].receiver == receiver then Parsed(msgs[0].amount, msgs[0].denom)
      else None
    else IbcSent(msgs[1..], receiver)
  }

  function IbcCrashes(msgs: seq<Msg>): bool {
    msgs != [] && if msgs[0].IbcTransfer? then msgs[0].denom != UATOM else IbcCrashes(msgs[1..])
  }

  function FeeSent(rules: Rules, msgs: seq<Msg>): Option<nat> {
    if rules.ibcEnabled then IbcSent(msgs, rules.ibcReceiver) else BankSent(msgs, rules.ibcReceiver)
  }

  // Why a fee that was not found or is too small stops an operation
  function FeeReason(rules: Rules, msgs: seq<Msg>): Reason {
    if rules.ibcEnabled && IbcCrashes(msgs) then Crash else FeeNotPaid
  }

  lemma {:induction false} CrashFindsNoFee(msgs: seq<Msg>, receiver: string)
    requires IbcCrashes(msgs)
    ensures IbcSent(msgs, receiver) == None
  {
    if !msgs[0].IbcTransfer? { CrashFindsNoFee(msgs[1..], receiver); }
  }

  method GetBaseTokensSent(msgs: seq<Msg>, receiver: string) returns (r: Option<nat>)
    ensures r == BankSent(msgs, receiver)
  {
    for i := 0 to |msgs|
      invariant BankSent(msgs[i..], receiver) == BankSent(msgs, receiver)
    {
      assert msgs[i..][1..] == msgs[i + 1..];
      if msgs[i].Send? && msgs[i].to == receiver {
        return Parsed(msgs[i].amount, msgs[i].denom);
      }
    }
    return None;
  }

  method GetBaseTokensSentIBC(msgs: seq<Msg>, receiver: string) returns (r: Option<nat>, crashes: bool)
    ensures r == IbcSent(msgs, receiver) && crashes == IbcCrashes(msgs)
  {
    for i := 0 to |msgs|
      invariant IbcSent(msgs[i..], receiver) == IbcSent(msgs, receiver)
      invariant IbcCrashes(msgs[i..]) == IbcCrashes(msgs)
    {
      assert msgs[i..][1..] == msgs[i + 1..];
      if msgs[i].IbcTransfer? {
        if msgs[i].denom != UATOM {
          return None, true;
        }
        if msgs[i].channel != IBC_CHANNEL {
          return None, false;
        }
        if msgs[i].receiver != receiver {
          return None, false;
        }
        return Parsed(msgs[i].amount, msgs[i].denom), false;
      }
    }
    return None, false;
  }

  // ---- what a purchase must have paid ----

  // A difference of unsigned 64-bit numbers
  function Minus(a: int, b: int): int {
    (a - b) % UINT64
  }

  // A positive fraction cut to an integer, as a conversion to uint64 does
  function Trunc(x: real): int {
    x.Floor
  }

  // math.Round of a positive number
  function Rounded(x: real): int {
    (x + 0.5).Floor
  }

  function RequiredFee(owed: int, tradeFee: real): (r: int)
    ensures r >= 1
    ensures r as real <= owed as real / 1000000.0 * tradeFee * 1000000.0 < r as real + 1.0
         || (r == 1 && owed as real / 1000000.0 * tradeFee * 1000000.0 < 1.0)
  {
    var fee := owed as real / 1000000.0 * tradeFee * 1000000.0;
    if fee < 1.0 then 1 else fee.Floor
  }

  function PaysOwed(rules: Rules, l: Listing, owed: int, msgs: seq<Msg>): Result<(), Reason> {
    var sent := BankSent(msgs, l.seller);
    if sent.None? || sent.value < owed then Err(NotPaid)
    else
      var fee := FeeSent(rules, msgs);
      if fee.None? || fee.value < RequiredFee(owed, rules.tradeFee) then Err(FeeReason(rules, msgs)) else Ok(())
  }

  function PaysForTokens(rules: Rules, l: Listing, msgs: seq<Msg>): Result<(), Reason> {
    PaysOwed(rules, l, Minus(l.total, l.depositTotal), msgs)
  }

  // The royalty of the inscription's collection is due if it is above 0 and goes to someone else.
  function IsDue(l: Listing, royalty: Option<Royalty>): bool {
    royalty.Some? && royalty.value.percentage > 0.0 && royalty.value.recipient != l.seller
  }

  function PaysForPiece(rules: Rules, l: Listing, royalty: Option<Royalty>, msgs: seq<Msg>): Result<(), Reason> {
    var owed := Minus(l.total, l.depositTotal);
    if !IsDue(l, royalty) then PaysOwed(rules, l, owed, msgs)
    else
      var expected := Trunc(RoyaltyShare(l, royalty.value));
      var sent := BankSent(msgs, royalty.value.recipient);
      if sent.None? || sent.value < expected then Err(RoyaltyNotPaid)
      else PaysOwed(rules, l, Minus(owed, expected), msgs)
  }

  // ---- balances ----

  function Balance(holders: seq<Holder>, token: nat, address: string): Option<int> {
    if holders == [] then None
    else if holders[0].token == token && holders[0].address == address then Some(holders[0].amount)
    else Balance(holders[1..], token, address)
  }

  // The holder's row is changed, or made if there is none.
  function Credit(holders: seq<Holder>, token: nat, address: string, amount: int): seq<Holder> {
    if holders == [] then [Holder(token, address, amount)]
    else if holders[0].token == token && holders[0].address == address
    then [holders[0].(amount := holders[0].amount + amount)] + holders[1..]
    else [holders[0]] + Credit(holders[1..], token, address, amount)
  }

  function Covers(holders: seq<Holder>, token: nat, address: string, amount: int): bool {
    Balance(holders, token, address).Some? && Balance(holders, token, address).value >= amount
  }

  function Pow10(n: nat): nat {
    if n == 0 then 1 else 10 * Pow10(n - 1)
  }

  // ---- cft20.go ----

  function Mint(b: Book, token: nat, sender: string, amount: int): Book
    requires token < |b.tokens|
  {
    b.(tokens := b.tokens[token := b.tokens[token].(circulating := b.tokens[token].circulating + amount)],
       holders := Credit(b.holders, token, sender, amount))
  }

  function Deploy(b: Book, sender: string, supply: nat, limit: nat, decimals: nat, preMint: Option<nat>)
    : Result<Book, Reason>
  {
    if supply == 0 || limit > supply || decimals > 6 || preMint == Some(0) || preMint.GetOr(0) > supply
    then Err(BadTerms)
    else
      var deployed := b.(tokens := b.tokens + [Token(supply, 0, limit, decimals)]);
      Ok(if preMint.None? then deployed else Mint(deployed, |b.tokens|, sender, preMint.value))
  }

  function MintTokens(b: Book, sender: string, token: nat): Result<Book, Reason> {
    if token >= |b.tokens| then Err(Unknown)
    else
      var t := b.tokens[token];
      if t.circulating >= t.maxSupply then Err(SoldOut)
      else Ok(Mint(b, token, sender, if t.circulating + t.perMintLimit > t.maxSupply then t.maxSupply - t.circulating
                                     else t.perMintLimit))
  }

  function TransferTokens(b: Book, sender: string, token: nat, destination: string, whole: nat)
    : Result<Book, Reason>
  {
    if token >= |b.tokens| then Err(Unknown)
    else if whole == 0 then Err(NotPositive)
    else
      var amount := whole * Pow10(b.tokens[token].decimals) % UINT64;
      if !Covers(b.holders, token, sender, amount) then Err(NotEnough)
      else Ok(b.(holders := Credit(Credit(b.holders, token, sender, -amount), token, destination, amount)))
  }

  // `units` is the amount in the token's smallest unit, before it is made an integer. A negative amount has no agreed
  // conversion; here it is refused. If more is burned than circulates, the difference wraps to a number the column
  // does not hold: the balance is written and the token's row is not.
  function BurnTokens(b: Book, sender: string, token: nat, units: real): Result<Book, Reason> {
    if token >= |b.tokens| then Err(Unknown)
    else if units <= 0.0 then Err(NotPositive)
    else
      var amount, t := Rounded(units), b.tokens[token];
      if !Covers(b.holders, token, sender, amount) then Err(NotEnough)
      else
        var debited := b.(holders := Credit(b.holders, token, sender, -amount));
        Ok(if amount > t.circulating then debited
           else debited.(tokens := b.tokens[token := t.(circulating := t.circulating - amount,
                                                        maxSupply := t.maxSupply - amount)]))
  }

  // `totalBase` is the price of the whole order in uatom, before it is made an integer.
  function ListOrder(b: Book, sender: string, token: nat, units: real, ppt: real, totalBase: real)
    : Result<Book, Reason>
  {
    if token >= |b.tokens| then Err(Unknown)
    else if units <= 0.0 || ppt <= 0.0 then Err(NotPositive)
    else if !Covers(b.holders, token, sender, Trunc(units)) then Err(NotEnough)
    else Ok(b.(holders := Credit(b.holders, token, sender, -Trunc(units)),
               orders := b.orders + [Order(token, sender, Rounded(units), Rounded(totalBase), false, false)]))
  }

  // The first bank send, if there is one, is the order's total to its seller.
  function PaysForOrder(o: Order, msgs: seq<Msg>): bool {
    if msgs == [] then true
    else if msgs[0].Send? then msgs[0].amount == o.total && msgs[0].denom == UATOM && msgs[0].to == o.seller
    else PaysForOrder(o, msgs[1..])
  }

  function IsOpenOrder(b: Book, token: nat, index: nat): bool {
    index < |b.orders| && b.orders[index].token == token && !b.orders[index].isFilled && !b.orders[index].isCancelled
  }

  function BuyOrder(b: Book, sender: string, token: nat, index: nat, msgs: seq<Msg>): Result<Book, Reason> {
    if !IsOpenOrder(b, token, index) then Err(Unknown)
    else if !PaysForOrder(b.orders[index], msgs) then Err(WrongPayment)
    else Ok(b.(orders := b.orders[index := b.orders[index].(isFilled := true)],
               holders := Credit(b.holders, token, sender, b.orders[index].amount)))
  }

  function DelistOrder(b: Book, sender: string, token: nat, index: nat): Result<Book, Reason> {
    if !IsOpenOrder(b, token, index) then Err(Unknown)
    else if b.orders[index].seller != sender then Err(NotSeller)
    else Ok(b.(orders := b.orders[index := b.orders[index].(isCancelled := true)],
               holders := Credit(b.holders, token, sender, b.orders[index].amount)))
  }

  // ---- inscription.go ----

  function Inscribe(b: Book, sender: string): Result<Book, Reason> {
    Ok(b.(owners := b.owners + [sender]))
  }

  function TransferPiece(b: Book, sender: string, inscription: nat, destination: string): Result<Book, Reason> {
    if inscription >= |b.owners| then Err(Unknown)
    else if b.owners[inscription] != sender then Err(NotOwner)
    else Ok(b.(owners := b.owners[inscription := destination]))
  }

  // ---- marketplace.go ----

  // What a listing asks: its price in ATOM and in uatom, for tokens the price of one, the share to deposit and that
  // share of the price in uatom, and the blocks a deposit lasts
  datatype Terms = Terms(price: real, totalBase: real, ppt: real, minDeposit: real, depositBase: real, timeout: nat)

  function MinDepositBase(t: Terms): real {
    if t.depositBase < 1.0 then 1.0 else t.depositBase
  }

  // The fee a new listing pays, which is the deposit it asks for
  function PaysListingFee(rules: Rules, t: Terms, msgs: seq<Msg>): bool {
    FeeSent(rules, msgs).Some? && FeeSent(rules, msgs).value >= MinDepositBase(t).Floor
  }

  function NewEntry(sender: string, t: Terms, goods: Goods): Entry {
    Entry(Listing(sender, Rounded(t.totalBase), Rounded(MinDepositBase(t)), false, Some(""), Some(0), false, false),
          t.timeout, goods)
  }

  function ListTokens(b: Book, rules: Rules, sender: string, token: nat, units: real, t: Terms, msgs: seq<Msg>)
    : Result<Book, Reason>
  {
    if token >= |b.tokens| then Err(Unknown)
    else if units <= 0.0 || t.ppt <= 0.0 then Err(NotPositive)
    else if t.price < rules.minimumTradeSize || t.minDeposit <= 0.0 || t.minDeposit < rules.minimumDeposit
            || t.timeout < rules.minimumTimeout then Err(BadTerms)
    else if !PaysListingFee(rules, t, msgs) then Err(FeeReason(rules, msgs))
    else if !Covers(b.holders, token, sender, Trunc(units)) then Err(NotEnough)
    else Ok(b.(holders := Credit(b.holders, token, sender, -Trunc(units)),
               entries := b.entries + [NewEntry(sender, t, Tokens(token, Rounded(units)))]))
  }

  function ListPiece(b: Book, rules: Rules, sender: string, inscription: nat, t: Terms, msgs: seq<Msg>)
    : Result<Book, Reason>
  {
    if inscription >= |b.owners| then Err(Unknown)
    else if b.owners[inscription] != sender then Err(NotOwner)
    else if t.price <= 0.0 then Err(NotPositive)
    else if t.minDeposit <= 0.0 || t.minDeposit < 0.00001 || t.timeout < rules.minimumTimeout then Err(BadTerms)
    else if !PaysListingFee(rules, t, msgs) then Err(FeeReason(rules, msgs))
    else Ok(b.(owners := b.owners[inscription := MARKET],
               entries := b.entries + [NewEntry(sender, t, Piece(inscription))]))
  }

  // A deposit that has not run out keeps others from depositing and the seller from delisting.
  function IsHeld(l: Listing, height: nat): bool {
    l.isDeposited && Num(l.timeout) > height
  }

  // `balance` is what the sender has on the chain.
  function TakeDeposit(b: Book, sender: string, index: nat, height: nat, balance: nat, msgs: seq<Msg>)
    : Result<Book, Reason>
  {
    if index >= |b.entries| then Err(Unknown)
    else
      var e := b.entries[index];
      var l := e.listing;
      if IsHeld(l, height) then Err(Taken)
      else if l.total >= l.depositTotal && balance < l.total - l.depositTotal then Err(NoFunds)
      else if BankSent(msgs, l.seller).None? || BankSent(msgs, l.seller).value < l.depositTotal then Err(NotPaid)
      else Ok(b.(entries := b.entries[index := e.(listing := l.(
                isDeposited := true, depositor := Some(sender), timeout := Some(height + e.depositTimeout + 1)))]))
  }

  // The seller of tokens has a holder's row: the listing was taken from it, and rows stay.
  function Delist(b: Book, sender: string, index: nat, height: nat): Result<Book, Reason> {
    if index >= |b.entries| then Err(Unknown)
    else
      var e := b.entries[index];
      var l := e.listing;
      if l.seller != sender then Err(NotSeller)
      else if IsHeld(l, height) then Err(Taken)
      else if l.isFilled || l.isCancelled then Err(Closed)
      else
        var closed := b.(entries := b.entries[index := e.(listing := l.(
                           isDeposited := false, depositor := Some(""), timeout := Some(0), isCancelled := true))]);
        match e.goods
        case Tokens(token, amount) => Ok(closed.(holders := Credit(b.holders, token, sender, amount)))
        case Piece(inscription) =>
          Ok(if inscription < |b.owners| then closed.(owners := b.owners[inscription := sender]) else closed)
  }

  function Filled(b: Book, index: nat): seq<Entry>
    requires index < |b.entries|
  {
    b.entries[index := b.entries[index].(listing := b.entries[index].listing.(isFilled := true))]
  }

  function BuyTokens(b: Book, rules: Rules, sender: string, index: nat, msgs: seq<Msg>): Result<Book, Reason> {
    if index >= |b.entries| || b.entries[index].goods.Piece? then Err(Unknown)
    else
      var e := b.entries[index];
      if !e.listing.isDeposited then Err(NotDeposited)
      else if e.listing.depositor != Some(sender) then Err(WrongDepositor)
      else match PaysForTokens(rules, e.listing, msgs)
        case Err(reason) => Err(reason)
        case Ok(_) => Ok(b.(entries := Filled(b, index),
                            holders := Credit(b.holders, e.goods.token, sender, e.goods.amount)))
  }

  // `royalty` is that of the collection the inscription is in, if any.
  function BuyPiece(b: Book, rules: Rules, sender: string, index: nat, royalty: Option<Royalty>, msgs: seq<Msg>)
    : Result<Book, Reason>
  {
    if index >= |b.entries| then Err(Unknown)
    else
      var e := b.entries[index];
      if e.listing.isFilled || e.listing.isCancelled then Err(Closed)
      else if e.goods.Tokens? || e.goods.inscription >= |b.owners| then Err(Unknown)
      else if !e.listing.isDeposited then Err(NotDeposited)
      else if e.listing.depositor != Some(sender) then Err(WrongDepositor)
      else match PaysForPiece(rules, e.listing, royalty, msgs)
        case Err(reason) => Err(reason)
        case Ok(_) => Ok(b.(entries := Filled(b, index), owners := b.owners[e.goods.inscription := sender]))
  }

  // ---- runs ----

  datatype Op =
    | OpDeploy(supply: nat, limit: nat, decimals: nat, preMint: Option<nat>)
    | OpMint(token: nat)
    | OpTransfer(token: nat, destination: string, whole: nat)
    | OpBurn(token: nat, units: real)
    | OpListOrder(token: nat, units: real, ppt: real, totalBase: real)
    | OpBuyOrder(token: nat, index: nat)
    | OpDelistOrder(token: nat, index: nat)
    | OpInscribe
    | OpTransferPiece(inscription: nat, destination: string)
    | OpListTokens(token: nat, units: real, terms: Terms)
    | OpListPiece(inscription: nat, terms: Terms)
    | OpDeposit(index: nat, height: nat, balance: nat)
    | OpDelist(index: nat, height: nat)
    | OpBuyTokens(index: nat)
    | OpBuyPiece(index: nat, royalty: Option<Royalty>)

  // An operation, by whom, and the messages of its transaction. A deposit or purchase of several listings is one
  // of these for each of them, with the same messages.
  datatype Event = Event(sender: string, op: Op, msgs: seq<Msg>)

  function Outcome(b: Book, rules: Rules, e: Event): Result<Book, Reason> {
    match e.op
    case OpDeploy(supply, limit, decimals, preMint) => Deploy(b, e.sender, supply, limit, decimals, preMint)
    case OpMint(token) => MintTokens(b, e.sender, token)
    case OpTransfer(token, destination, whole) => TransferTokens(b, e.sender, token, destination, whole)
    case OpBurn(token, units) => BurnTokens(b, e.sender, token, units)
    case OpListOrder(token, units, ppt, totalBase) => ListOrder(b, e.sender, token, units, ppt, totalBase)
    case OpBuyOrder(token, index) => BuyOrder(b, e.sender, token, index, e.msgs)
    case OpDelistOrder(token, index) => DelistOrder(b, e.sender, token, index)
    case OpInscribe => Inscribe(b, e.sender)
    case OpTransferPiece(inscription, destination) => TransferPiece(b, e.sender, inscription, destination)
    case OpListTokens(token, units, terms) => ListTokens(b, rules, e.sender, token, units, terms, e.msgs)
    case OpListPiece(inscription, terms) => ListPiece(b, rules, e.sender, inscription, terms, e.msgs)
    case OpDeposit(index, height, balance) => TakeDeposit(b, e.sender, index, height, balance, e.msgs)
    case OpDelist(index, height) => Delist(b, e.sender, index, height)
    case OpBuyTokens(index) => BuyTokens(b, rules, e.sender, index, e.msgs)
    case OpBuyPiece(index, royalty) => BuyPiece(b, rules, e.sender, index, royalty, e.msgs)
  }

  function Apply(b: Book, rules: Rules, e: Event): Book {
    match Outcome(b, rules, e)
    case Err(_) => b
    case Ok(b') => b'
  }

  function Run(b: Book, rules: Rules, events: seq<Event>): Book
    decreases events
  {
    if events == [] then b else Run(Apply(b, rules, events[0]), rules, events[1..])
  }

  lemma {:induction false} RunConcat(b: Book, rules: Rules, xs: seq<Event>, ys: seq<Event>)
    ensures Run(b, rules, xs + ys) == Run(Run(b, rules, xs), rules, ys)
    decreases |xs|
  {
    hide Apply;
    if xs == [] {
      assert xs + ys == ys;
    } else {
      assert (xs + ys)[1..] == xs[1..] + ys;
      RunConcat(Apply(b, rules, xs[0]), rules, xs[1..], ys);
    }
  }

  // Whether any of the events goes through
  predicate AnyGoesThrough(b: Book, rules: Rules, events: seq<Event>)
    decreases events
  {
    events != []
    && (Outcome(b, rules, events[0]).Ok? || AnyGoesThrough(Apply(b, rules, events[0]), rules, events[1..]))
  }

  function DepositEvents(sender: string, indexes: seq<nat>, height: nat, balance: nat, msgs: seq<Msg>): seq<Event> {
    seq(|indexes|, k requires 0 <= k < |indexes| => Event(sender, OpDeposit(indexes[k], height, balance), msgs))
  }

  function PurchaseEvents(sender: string, indexes: seq<nat>, msgs: seq<Msg>): seq<Event> {
    seq(|indexes|, k requires 0 <= k < |indexes| => Event(sender, OpBuyTokens(indexes[k]), msgs))
  }

  lemma OutcomeIsDeposit(b: Book, rules: Rules, sender: string, index: nat, height: nat, balance: nat, msgs: seq<Msg>)
    ensures Outcome(b, rules, Event(sender, OpDeposit(index, height, balance), msgs))
         == TakeDeposit(b, sender, index, height, balance, msgs)
  {}

  lemma OutcomeIsPurchase(b: Book, rules: Rules, sender: string, index: nat, msgs: seq<Msg>)
    ensures Outcome(b, rules, Event(sender, OpBuyTokens(index), msgs)) == BuyTokens(b, rules, sender, index, msgs)
  {}

  // One more turn of a batch
  lemma Through(b: Book, rules: Rules, events: seq<Event>, i: nat)
    requires i <= |events|
    ensures i == 0 ==> Run(b, rules, events[..0]) == b && !AnyGoesThrough(b, rules, events[..0])
    ensures i < |events| ==>
      var before := Run(b, rules, events[..i]);
      && Run(b, rules, events[..i + 1]) == Apply(before, rules, events[i])
      && (AnyGoesThrough(b, rules, events[..i + 1])
          <==> AnyGoesThrough(b, rules, events[..i]) || Outcome(before, rules, events[i]).Ok?)
  {
    if i < |events| {
      assert events[..i + 1] == events[..i] + [events[i]];
      RunConcat(b, rules, events[..i], [events[i]]);
      AnyConcat(b, rules, events[..i], events[i]);
      assert [events[i]][1..] == [];
    }
  }

  lemma {:induction false} AnyConcat(b: Book, rules: Rules, events: seq<Event>, e: Event)
    ensures AnyGoesThrough(b, rules, events + [e])
       <==> AnyGoesThrough(b, rules, events) || Outcome(Run(b, rules, events), rules, e).Ok?
    decreases |events|
  {
    hide Outcome, Apply;
    if events == [] {
      assert events + [e] == [e] && [e][1..] == [];
    } else {
      assert (events + [e])[1..] == events[1..] + [e];
      AnyConcat(Apply(b, rules, events[0]), rules, events[1..], e);
    }
  }
}
