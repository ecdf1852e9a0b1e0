/** How much of a token there is in runs of the ledger. */
module MarketSafety {
  import opened Wrappers
  import opened Tx
  import opened Marketplace
  import opened MarketLedger

  // ---- how much of a token there is ----

  function Held(holders: seq<Holder>, token: nat): int {
    if holders == [] then 0
    else (if holders[0].token == token then holders[0].amount else 0) + Held(holders[1..], token)
  }

  predicate IsClosed(l: Listing) {
    l.isFilled || l.isCancelled
  }

  function InEntry(e: Entry, token: nat): int {
    if e.goods.Tokens? && e.goods.token == token && !IsClosed(e.listing) then e.goods.amount else 0
  }

  function Listed(entries: seq<Entry>, token: nat): int {
    if entries == [] then 0 else InEntry(entries[0], token) + Listed(entries[1..], token)
  }

  function InOrder(o: Order, token: nat): int {
    if o.token == token && !o.isFilled && !o.isCancelled then o.amount else 0
  }

  function Ordered(orders: seq<Order>, token: nat): int {
    if orders == [] then 0 else InOrder(orders[0], token) + Ordered(orders[1..], token)
  }

  function Circulating(b: Book, token: nat): int {
    if token < |b.tokens| then b.tokens[token].circulating else 0
  }

  // What is held or for sale
  function Outstanding(b: Book, token: nat): int {
    Held(b.holders, token) + Ordered(b.orders, token) + Listed(b.entries, token)
  }

  // What of a token comes out of nothing when an event goes through. A listing or an order takes the amount cut to an
  // integer from its seller and offers it rounded; a purchase from a listing hands out what it offers, although a
  // closed listing holds nothing any more.
  function Created(b: Book, rules: Rules, e: Event, token: nat): int {
    if Outcome(b, rules, e).Err? then 0
    else match e.op
      case OpListOrder(t, units, _, _) => if t == token then RoundedUp(units) else 0
      case OpListTokens(t, units, _) => if t == token then RoundedUp(units) else 0
      case OpBuyTokens(index) =>
        if index < |b.entries| && b.entries[index].goods.Tokens? && b.entries[index].goods.token == token
           && IsClosed(b.entries[index].listing)
        then b.entries[index].goods.amount else 0
      case _ => 0
  }

  // What of a token goes, while it still counts as circulating: a burn of more than circulates
  function Lost(b: Book, rules: Rules, e: Event, token: nat): int {
    if e.op.OpBurn? && e.op.token == token && Outcome(b, rules, e).Ok? && Rounded(e.op.units) > Circulating(b, token)
    then Rounded(e.op.units) else 0
  }

  // 1 if the fraction of a unit is a half or more, else 0
  function RoundedUp(units: real): (r: int)
    ensures r == if units - units.Floor as real >= 0.5 then 1 else 0
  {
    RoundOrCut(units);
    Rounded(units) - Trunc(units)
  }

  lemma RoundOrCut(x: real)
    ensures Rounded(x) - Trunc(x) == if x - x.Floor as real >= 0.5 then 1 else 0
  {
    var whole, rest := x.Floor, x - x.Floor as real;
    assert (rest + 0.5).Floor == if rest >= 0.5 then 1 else 0;
    assert x + 0.5 == whole as real + (rest + 0.5);
  }

  ghost predicate KnownTokens(b: Book) {
    && AllBelow(b.holders, |b.tokens|)
    && (forall k :: 0 <= k < |b.orders| ==> b.orders[k].token < |b.tokens| && b.orders[k].amount >= 0)
    && (forall k :: 0 <= k < |b.entries| ==> b.entries[k].goods.Tokens? ==>
          b.entries[k].goods.token < |b.tokens| && b.entries[k].goods.amount >= 0)
    && (forall k :: 0 <= k < |b.tokens| ==> b.tokens[k].circulating <= b.tokens[k].maxSupply)
  }

  // ---- changes of one table ----

  lemma {:induction false} CreditHeld(holders: seq<Holder>, token: nat, address: string, amount: int, t: nat)
    ensures Held(Credit(holders, token, address, amount), t) == Held(holders, t) + if t == token then amount else 0
  {
    if holders == [] {
    } else if holders[0].token == token && holders[0].address == address {
      assert Credit(holders, token, address, amount)[1..] == holders[1..];
    } else {
      assert Credit(holders, token, address, amount)[1..] == Credit(holders[1..], token, address, amount);
      CreditHeld(holders[1..], token, address, amount, t);
    }
  }

  predicate AllBelow(holders: seq<Holder>, n: nat) {
    forall k :: 0 <= k < |holders| ==> holders[k].token < n && holders[k].amount >= 0
  }

  lemma {:induction false} CreditKnown(holders: seq<Holder>, token: nat, address: string, amount: int, n: nat)
    requires token < n && AllBelow(holders, n) && (amount >= 0 || Covers(holders, token, address, -amount))
    ensures AllBelow(Credit(holders, token, address, amount), n)
  {
    if holders != [] && !(holders[0].token == token && holders[0].address == address) {
      var rest := Credit(holders[1..], token, address, amount);
      assert AllBelow(holders[1..], n);
      CreditKnown(holders[1..], token, address, amount, n);
      assert Credit(holders, token, address, amount) == [holders[0]] + rest;
    }
  }

  lemma {:induction false} EntryChanged(entries: seq<Entry>, i: nat, e: Entry, t: nat)
    requires i < |entries|
    ensures Listed(entries[i := e], t) == Listed(entries, t) - InEntry(entries[i], t) + InEntry(e, t)
    decreases i
  {
    hide InEntry;
    if i == 0 {
      assert entries[i := e][1..] == entries[1..];
    } else {
      assert entries[i := e][1..] == entries[1..][i - 1 := e];
      EntryChanged(entries[1..], i - 1, e, t);
    }
  }

  lemma {:induction false} EntryAdded(entries: seq<Entry>, e: Entry, t: nat)
    ensures Listed(entries + [e], t) == Listed(entries, t) + InEntry(e, t)
  {
    hide InEntry;
    if entries == [] {
      assert ([] + [e])[1..] == [];
    } else {
      assert (entries + [e])[1..] == entries[1..] + [e];
      EntryAdded(entries[1..], e, t);
    }
  }

  lemma {:induction false} OrderChanged(orders: seq<Order>, i: nat, o: Order, t: nat)
    requires i < |orders|
    ensures Ordered(orders[i := o], t) == Ordered(orders, t) - InOrder(orders[i], t) + InOrder(o, t)
    decreases i
  {
    hide InOrder;
    if i == 0 {
      assert orders[i := o][1..] == orders[1..];
    } else {
      assert orders[i := o][1..] == orders[1..][i - 1 := o];
      OrderChanged(orders[1..], i - 1, o, t);
    }
  }

  lemma {:induction false} OrderAdded(orders: seq<Order>, o: Order, t: nat)
    ensures Ordered(orders + [o], t) == Ordered(orders, t) + InOrder(o, t)
  {
    hide InOrder;
    if orders == [] {
      assert ([] + [o])[1..] == [];
    } else {
      assert (orders + [o])[1..] == orders[1..] + [o];
      OrderAdded(orders[1..], o, t);
    }
  }

  lemma {:induction false} NoneHeld(b: Book, t: nat)
    requires KnownTokens(b) && t >= |b.tokens|
    ensures Outstanding(b, t) == 0
  {
    NoHolder(b.holders, t, |b.tokens|);
    NoOrder(b.orders, t, |b.tokens|);
    NoEntry(b.entries, t, |b.tokens|);
  }

  lemma {:induction false} NoHolder(holders: seq<Holder>, t: nat, n: nat)
    requires t >= n && AllBelow(holders, n)
    ensures Held(holders, t) == 0
  {
    if holders != [] { NoHolder(holders[1..], t, n); }
  }

  lemma {:induction false} NoOrder(orders: seq<Order>, t: nat, n: nat)
    requires t >= n && forall k :: 0 <= k < |orders| ==> orders[k].token < n
    ensures Ordered(orders, t) == 0
  {
    if orders != [] { NoOrder(orders[1..], t, n); }
  }

  lemma {:induction false} NoEntry(entries: seq<Entry>, t: nat, n: nat)
    requires t >= n && forall k :: 0 <= k < |entries| && entries[k].goods.Tokens? ==> entries[k].goods.token < n
    ensures Listed(entries, t) == 0
  {
    if entries != [] { NoEntry(entries[1..], t, n); }
  }

  // ---- one event ----

  function Surplus(b: Book, token: nat): int {
    Outstanding(b, token) - Circulating(b, token)
  }

  // The books of two points differ in how much there is of a token by `created` more than in what circulates.
  ghost predicate Accounted(b: Book, b': Book, token: nat, created: int) {
    KnownTokens(b') && |b.tokens| <= |b'.tokens| && Surplus(b', token) == Surplus(b, token) + created
  }

  lemma MintAccounted(b: Book, token: nat, sender: string, amount: int, t: nat)
    requires KnownTokens(b) && token < |b.tokens| && amount >= 0
    requires b.tokens[token].circulating + amount <= b.tokens[token].maxSupply
    ensures Accounted(b, Mint(b, token, sender, amount), t, 0)
  {
    CreditHeld(b.holders, token, sender, amount, t);
    CreditKnown(b.holders, token, sender, amount, |b.tokens|);
  }

  lemma DeployAccounted(b: Book, sender: string, supply: nat, limit: nat, decimals: nat, preMint: Option<nat>, t: nat)
    requires KnownTokens(b) && Deploy(b, sender, supply, limit, decimals, preMint).Ok?
    ensures Accounted(b, Deploy(b, sender, supply, limit, decimals, preMint).value, t, 0)
  {
    var deployed := b.(tokens := b.tokens + [Token(supply, 0, limit, decimals)]);
    if t >= |b.tokens| { NoneHeld(b, t); }
    assert Accounted(b, deployed, t, 0);
    if preMint.Some? { MintAccounted(deployed, |b.tokens|, sender, preMint.value, t); }
  }

  // Tokens move between two holders.
  lemma TransferAccounted(b: Book, token: nat, sender: string, destination: string, amount: int, t: nat)
    requires KnownTokens(b) && token < |b.tokens| && amount >= 0 && Covers(b.holders, token, sender, amount)
    ensures Accounted(b, b.(holders := Credit(Credit(b.holders, token, sender, -amount), token, destination, amount)),
                      t, 0)
  {
    hide Credit, Held;
    var once := Credit(b.holders, token, sender, -amount);
    CreditHeld(b.holders, token, sender, -amount, t);
    CreditHeld(once, token, destination, amount, t);
    CreditKnown(b.holders, token, sender, -amount, |b.tokens|);
    CreditKnown(once, token, destination, amount, |b.tokens|);
  }

  lemma BurnAccounted(b: Book, rules: Rules, e: Event, t: nat)
    requires KnownTokens(b) && e.op.OpBurn? && Outcome(b, rules, e).Ok?
    ensures Accounted(b, Outcome(b, rules, e).value, t, -Lost(b, rules, e, t))
  {
    hide Rounded, Covers, KnownTokens, Accounted, Credit, Outstanding;
    Burned(b, e.op.token, e.sender, Rounded(e.op.units), t);
  }

  // Tokens are taken from a holder, and the token's row is changed or not.
  lemma Burned(b: Book, token: nat, sender: string, amount: int, t: nat)
    requires KnownTokens(b) && token < |b.tokens| && Covers(b.holders, token, sender, amount)
    ensures var debited := b.(holders := Credit(b.holders, token, sender, -amount));
      var row := b.tokens[token];
      && Accounted(b, debited, t, if t == token then -amount else 0)
      && Accounted(b, debited.(tokens := b.tokens[token := row.(circulating := row.circulating - amount,
                                                               maxSupply := row.maxSupply - amount)]), t, 0)
  {
    hide Credit, Held, Ordered, Listed, Covers;
    CreditHeld(b.holders, token, sender, -amount, t);
    CreditKnown(b.holders, token, sender, -amount, |b.tokens|);
  }

  // Tokens are taken from a holder and an order is added.
  lemma TakenAndOrdered(b: Book, token: nat, sender: string, taken: int, o: Order, t: nat)
    requires KnownTokens(b) && token < |b.tokens| && Covers(b.holders, token, sender, taken)
    requires o.token == token && o.amount >= 0 && !o.isFilled && !o.isCancelled
    ensures Accounted(b, b.(holders := Credit(b.holders, token, sender, -taken), orders := b.orders + [o]), t,
                      if t == token then o.amount - taken else 0)
  {
    hide Credit, Held, Ordered, Listed, Covers;
    CreditHeld(b.holders, token, sender, -taken, t);
    CreditKnown(b.holders, token, sender, -taken, |b.tokens|);
    OrderAdded(b.orders, o, t);
  }

  lemma ListOrderAccounted(b: Book, sender: string, token: nat, units: real, ppt: real, totalBase: real, t: nat)
    requires KnownTokens(b) && ListOrder(b, sender, token, units, ppt, totalBase).Ok?
    ensures Accounted(b, ListOrder(b, sender, token, units, ppt, totalBase).value, t,
                      if t == token then RoundedUp(units) else 0)
  {
    UnitsArePositive(units);
    hide Rounded, Trunc, Covers, KnownTokens, Accounted, Credit;
    var o := Order(token, sender, Rounded(units), Rounded(totalBase), false, false);
    TakenAndOrdered(b, token, sender, Trunc(units), o, t);
  }

  // An open order closes and its amount goes to somebody.
  lemma OrderClosedAccounted(b: Book, index: nat, o: Order, who: string, t: nat)
    requires KnownTokens(b) && index < |b.orders|
    requires o.token == b.orders[index].token && o.amount == b.orders[index].amount && (o.isFilled || o.isCancelled)
    requires !b.orders[index].isFilled && !b.orders[index].isCancelled
    ensures Accounted(b, b.(orders := b.orders[index := o],
                            holders := Credit(b.holders, o.token, who, b.orders[index].amount)), t, 0)
  {
    CreditHeld(b.holders, o.token, who, b.orders[index].amount, t);
    CreditKnown(b.holders, o.token, who, b.orders[index].amount, |b.tokens|);
    OrderChanged(b.orders, index, o, t);
  }

  // Tokens are taken from a holder and a listing is added.
  lemma TakenAndListed(b: Book, token: nat, sender: string, taken: int, e: Entry, t: nat)
    requires KnownTokens(b) && token < |b.tokens| && Covers(b.holders, token, sender, taken)
    requires e.goods.Tokens? && e.goods.token == token && e.goods.amount >= 0
    ensures Accounted(b, b.(holders := Credit(b.holders, token, sender, -taken), entries := b.entries + [e]), t,
                      InEntry(e, t) - if t == token then taken else 0)
  {
    hide Credit, Held, Ordered, Listed, InEntry, Covers;
    CreditHeld(b.holders, token, sender, -taken, t);
    CreditKnown(b.holders, token, sender, -taken, |b.tokens|);
    EntryAdded(b.entries, e, t);
  }

  lemma ListTokensAccounted(b: Book, rules: Rules, sender: string, token: nat, units: real, terms: Terms,
                            msgs: seq<Msg>, t: nat)
    requires KnownTokens(b) && ListTokens(b, rules, sender, token, units, terms, msgs).Ok?
    ensures Accounted(b, ListTokens(b, rules, sender, token, units, terms, msgs).value, t,
                      if t == token then RoundedUp(units) else 0)
  {
    UnitsArePositive(units);
    hide Rounded, Trunc, MinDepositBase, PaysListingFee, Covers, InEntry, KnownTokens, Accounted;
    var e := NewEntry(sender, terms, Tokens(token, Rounded(units)));
    TakenAndListed(b, token, sender, Trunc(units), e, t);
    NewEntryHolds(sender, terms, token, Rounded(units), t);
  }

  lemma NewEntryHolds(sender: string, terms: Terms, token: nat, amount: int, t: nat)
    ensures InEntry(NewEntry(sender, terms, Tokens(token, amount)), t) == if t == token then amount else 0
  {
    hide Rounded, MinDepositBase;
  }

  lemma UnitsArePositive(units: real)
    requires units > 0.0
    ensures Rounded(units) >= 0
  {}

  // A listing changes, but for its goods.
  lemma EntryAccounted(b: Book, index: nat, e: Entry, t: nat)
    requires KnownTokens(b) && index < |b.entries| && e.goods == b.entries[index].goods
    ensures Accounted(b, b.(entries := b.entries[index := e]), t, InEntry(e, t) - InEntry(b.entries[index], t))
  {
    EntryChanged(b.entries, index, e, t);
  }

  // A listing changes, and its amount goes to somebody.
  lemma EntryPaidOut(b: Book, index: nat, e: Entry, who: string, t: nat)
    requires KnownTokens(b) && index < |b.entries| && e.goods == b.entries[index].goods && e.goods.Tokens?
    ensures Accounted(b, b.(entries := b.entries[index := e],
                            holders := Credit(b.holders, e.goods.token, who, e.goods.amount)), t,
                      InEntry(e, t) - InEntry(b.entries[index], t)
                      + if t == e.goods.token then e.goods.amount else 0)
  {
    EntryChanged(b.entries, index, e, t);
    CreditHeld(b.holders, e.goods.token, who, e.goods.amount, t);
    CreditKnown(b.holders, e.goods.token, who, e.goods.amount, |b.tokens|);
  }

  lemma DepositAccounted(b: Book, sender: string, index: nat, height: nat, balance: nat, msgs: seq<Msg>, t: nat)
    requires KnownTokens(b) && TakeDeposit(b, sender, index, height, balance, msgs).Ok?
    ensures Accounted(b, TakeDeposit(b, sender, index, height, balance, msgs).value, t, 0)
  {
    hide KnownTokens, Accounted;
    var e := TakeDeposit(b, sender, index, height, balance, msgs).value.entries[index];
    EntryAccounted(b, index, e, t);
  }

  lemma DelistAccounted(b: Book, sender: string, index: nat, height: nat, t: nat)
    requires KnownTokens(b) && Delist(b, sender, index, height).Ok?
    ensures Accounted(b, Delist(b, sender, index, height).value, t, 0)
  {
    hide KnownTokens, Credit;
    var e := Delist(b, sender, index, height).value.entries[index];
    match e.goods
    case Tokens(_, _) => hide Accounted; EntryPaidOut(b, index, e, sender, t);
    case Piece(_) =>
      EntryAccounted(b, index, e, t);
      OwnersDoNotCount(b.(entries := b.entries[index := e]), Delist(b, sender, index, height).value.owners, t);
  }

  lemma OwnersDoNotCount(b: Book, owners: seq<string>, t: nat)
    ensures KnownTokens(b.(owners := owners)) == KnownTokens(b) && Surplus(b.(owners := owners), t) == Surplus(b, t)
  {}

  lemma BuyTokensAccounted(b: Book, rules: Rules, sender: string, index: nat, msgs: seq<Msg>, t: nat)
    requires KnownTokens(b) && BuyTokens(b, rules, sender, index, msgs).Ok?
    ensures Accounted(b, BuyTokens(b, rules, sender, index, msgs).value, t,
                      Created(b, rules, Event(sender, OpBuyTokens(index), msgs), t))
  {
    hide KnownTokens, Accounted, Credit, PaysForTokens;
    OutcomeIsPurchase(b, rules, sender, index, msgs);
    EntryPaidOut(b, index, Filled(b, index)[index], sender, t);
  }

  lemma BuyPieceAccounted(b: Book, rules: Rules, sender: string, index: nat, royalty: Option<Royalty>, msgs: seq<Msg>,
                          t: nat)
    requires KnownTokens(b) && BuyPiece(b, rules, sender, index, royalty, msgs).Ok?
    ensures Accounted(b, BuyPiece(b, rules, sender, index, royalty, msgs).value, t, 0)
  {
    hide KnownTokens, PaysForPiece;
    var b' := BuyPiece(b, rules, sender, index, royalty, msgs).value;
    EntryAccounted(b, index, Filled(b, index)[index], t);
    OwnersDoNotCount(b.(entries := Filled(b, index)), b'.owners, t);
  }

  lemma NothingAccounted(b: Book, owners: seq<string>, t: nat)
    requires KnownTokens(b)
    ensures Accounted(b, b, t, 0) && Accounted(b, b.(owners := owners), t, 0)
  {}

  lemma StepOfPieces(b: Book, rules: Rules, e: Event, t: nat)
    requires KnownTokens(b) && Outcome(b, rules, e).Ok?
    requires e.op.OpInscribe? || e.op.OpTransferPiece? || e.op.OpListPiece?
    ensures Accounted(b, Outcome(b, rules, e).value, t, 0)
  {
    var b' := Outcome(b, rules, e).value;
    if e.op.OpListPiece? {
      hide PaysListingFee, MinDepositBase, Rounded;
      EntryAdded(b.entries, b'.entries[|b.entries|], t);
    } else {
      NothingAccounted(b, b'.owners, t);
    }
  }

  // An event changes the difference between what there is of a token and what circulates by what it creates, less
  // what it loses.
  lemma StepAccounted(b: Book, rules: Rules, e: Event, t: nat)
    requires KnownTokens(b)
    ensures Accounted(b, Apply(b, rules, e), t, Created(b, rules, e, t) - Lost(b, rules, e, t))
    ensures Created(b, rules, e, t) >= 0 && Lost(b, rules, e, t) >= 0
  {
    CreatesNoDebt(b, rules, e, t);
    NothingAccounted(b, b.owners, t);
    if e.op.OpBurn? && Outcome(b, rules, e).Ok? {
      BurnAccounted(b, rules, e, t);
    } else if Outcome(b, rules, e).Ok? {
      hide Rounded;
      StepCreates(b, rules, e, t);
    }
  }

  lemma StepCreates(b: Book, rules: Rules, e: Event, t: nat)
    requires KnownTokens(b) && !e.op.OpBurn? && Outcome(b, rules, e).Ok?
    ensures Accounted(b, Outcome(b, rules, e).value, t, Created(b, rules, e, t))
  {
    hide KnownTokens, Accounted, RoundedUp, Deploy, MintTokens, Mint, TransferTokens, BurnTokens, ListOrder, BuyOrder,
         DelistOrder, ListTokens, ListPiece, TakeDeposit, Delist, BuyTokens, BuyPiece, TransferPiece, Inscribe;
    match e.op
    case OpDeploy(supply, limit, decimals, preMint) =>
      DeployAccounted(b, e.sender, supply, limit, decimals, preMint, t);
    case OpMint(token) => MintTokensAccounted(b, e.sender, token, t);
    case OpTransfer(token, destination, whole) => MovedAccounted(b, e.sender, token, destination, whole, t);
    case OpListOrder(token, units, ppt, totalBase) =>
      ListOrderAccounted(b, e.sender, token, units, ppt, totalBase, t);
    case OpBuyOrder(token, index) => OrderAccounted(b, e.sender, token, index, e.msgs, t);
    case OpDelistOrder(token, index) => OrderAccounted(b, e.sender, token, index, e.msgs, t);
    case OpListTokens(token, units, terms) =>
      ListTokensAccounted(b, rules, e.sender, token, units, terms, e.msgs, t);
    case OpDeposit(index, height, balance) => DepositAccounted(b, e.sender, index, height, balance, e.msgs, t);
    case OpDelist(index, height) => DelistAccounted(b, e.sender, index, height, t);
    case OpBuyTokens(index) => BuyTokensAccounted(b, rules, e.sender, index, e.msgs, t);
    case OpBuyPiece(index, royalty) => BuyPieceAccounted(b, rules, e.sender, index, royalty, e.msgs, t);
    case _ => StepOfPieces(b, rules, e, t);
  }

  lemma CreatesNoDebt(b: Book, rules: Rules, e: Event, t: nat)
    requires KnownTokens(b)
    ensures Created(b, rules, e, t) >= 0 && Lost(b, rules, e, t) >= 0
  {
    if e.op.OpBurn? && e.op.units > 0.0 { UnitsArePositive(e.op.units); }
    hide Rounded;
  }

  // Nobody holds more than there is.
  lemma {:induction false} BalanceIsHeld(holders: seq<Holder>, n: nat, token: nat, address: string, amount: int)
    requires AllBelow(holders, n)
    ensures Held(holders, token) >= 0
    ensures Covers(holders, token, address, amount) ==> amount <= Held(holders, token)
  {
    if holders != [] { BalanceIsHeld(holders[1..], n, token, address, amount); }
  }

  lemma {:induction false} OfferedIsNotNegative(orders: seq<Order>, entries: seq<Entry>, token: nat)
    requires forall k :: 0 <= k < |orders| ==> orders[k].amount >= 0
    requires forall k :: 0 <= k < |entries| && entries[k].goods.Tokens? ==> entries[k].goods.amount >= 0
    ensures Ordered(orders, token) >= 0 && Listed(entries, token) >= 0
    decreases |orders| + |entries|
  {
    if orders != [] {
      OfferedIsNotNegative(orders[1..], entries, token);
    } else if entries != [] {
      OfferedIsNotNegative(orders, entries[1..], token);
    }
  }

  // As long as there is no more of a token than circulates, no burn exceeds what circulates.
  lemma NothingLostBefore(b: Book, rules: Rules, e: Event, t: nat)
    requires KnownTokens(b) && Surplus(b, t) <= 0
    ensures Lost(b, rules, e, t) == 0
  {
    if e.op.OpBurn? && e.op.token == t && Outcome(b, rules, e).Ok? {
      BalanceIsHeld(b.holders, |b.tokens|, t, e.sender, Rounded(e.op.units));
      OfferedIsNotNegative(b.orders, b.entries, t);
    }
  }

  lemma MintTokensAccounted(b: Book, sender: string, token: nat, t: nat)
    requires KnownTokens(b) && MintTokens(b, sender, token).Ok?
    ensures Accounted(b, MintTokens(b, sender, token).value, t, 0)
  {
    var tok := b.tokens[token];
    var amount := if tok.circulating + tok.perMintLimit > tok.maxSupply then tok.maxSupply - tok.circulating
                  else tok.perMintLimit;
    hide Mint, Accounted;
    MintAccounted(b, token, sender, amount, t);
  }

  lemma MovedAccounted(b: Book, sender: string, token: nat, destination: string, whole: nat, t: nat)
    requires KnownTokens(b) && TransferTokens(b, sender, token, destination, whole).Ok?
    ensures Accounted(b, TransferTokens(b, sender, token, destination, whole).value, t, 0)
  {
    hide KnownTokens, Accounted, Credit, Covers, Pow10;
    TransferAccounted(b, token, sender, destination, whole * Pow10(b.tokens[token].decimals) % UINT64, t);
  }

  lemma OrderAccounted(b: Book, sender: string, token: nat, index: nat, msgs: seq<Msg>, t: nat)
    requires KnownTokens(b)
    ensures BuyOrder(b, sender, token, index, msgs).Ok? ==>
      Accounted(b, BuyOrder(b, sender, token, index, msgs).value, t, 0)
    ensures DelistOrder(b, sender, token, index).Ok? ==>
      Accounted(b, DelistOrder(b, sender, token, index).value, t, 0)
  {
    hide KnownTokens, Accounted, Credit, PaysForOrder;
    if IsOpenOrder(b, token, index) {
      OrderClosedAccounted(b, index, b.orders[index].(isFilled := true), sender, t);
      OrderClosedAccounted(b, index, b.orders[index].(isCancelled := true), sender, t);
    }
  }

  // ---- runs ----

  // The net of what a run creates
  function CreatedOver(b: Book, rules: Rules, events: seq<Event>, token: nat): int
    decreases events
  {
    if events == [] then 0
    else Created(b, rules, events[0], token) - Lost(b, rules, events[0], token)
         + CreatedOver(Apply(b, rules, events[0]), rules, events[1..], token)
  }

  lemma AccountedTransitive(a: Book, b: Book, c: Book, t: nat, x: int, y: int)
    requires Accounted(a, b, t, x) && Accounted(b, c, t, y)
    ensures Accounted(a, c, t, x + y)
  {
    hide KnownTokens, Surplus;
  }

  lemma {:induction false} RunAccounted(b: Book, rules: Rules, events: seq<Event>, t: nat)
    requires KnownTokens(b)
    ensures Accounted(b, Run(b, rules, events), t, CreatedOver(b, rules, events, t))
    decreases |events|
  {
    if events == [] {
      NothingAccounted(b, b.owners, t);
    } else {
      hide Apply, Created, Lost;
      var b1, rest := Apply(b, rules, events[0]), events[1..];
      var net := Created(b, rules, events[0], t) - Lost(b, rules, events[0], t);
      StepAccounted(b, rules, events[0], t);
      KnownAfter(b, b1, t, net);
      hide KnownTokens, Accounted;
      RunAccounted(b1, rules, rest, t);
      AccountedTransitive(b, b1, Run(b1, rules, rest), t, net, CreatedOver(b1, rules, rest, t));
    }
  }

  lemma KnownAfter(b: Book, b': Book, t: nat, created: int)
    requires Accounted(b, b', t, created)
    ensures KnownTokens(b')
  {}

  // An event in the middle of a run
  ghost predicate CreatesNothingAt(rules: Rules, events: seq<Event>, token: nat, n: nat)
    requires n < |events|
  {
    Created(Run(NEW, rules, events[..n]), rules, events[n], token) == 0
  }

  ghost predicate LosesNothingAt(rules: Rules, events: seq<Event>, token: nat, n: nat)
    requires n < |events|
  {
    Lost(Run(NEW, rules, events[..n]), rules, events[n], token) == 0
  }

  ghost predicate ConservedAt(rules: Rules, events: seq<Event>, token: nat, n: nat)
    requires n <= |events|
  {
    var b := Run(NEW, rules, events[..n]);
    Held(b.holders, token) + Ordered(b.orders, token) + Listed(b.entries, token) == Circulating(b, token)
  }

  lemma AtOnePoint(rules: Rules, events: seq<Event>, token: nat, n: nat)
    requires n < |events|
    ensures var b, b' := Run(NEW, rules, events[..n]), Run(NEW, rules, events[..n + 1]);
      && KnownTokens(b)
      && Surplus(b', token)
         == Surplus(b, token) + Created(b, rules, events[n], token) - Lost(b, rules, events[n], token)
      && Created(b, rules, events[n], token) >= 0 && Lost(b, rules, events[n], token) >= 0
      && (Surplus(b, token) <= 0 ==> Lost(b, rules, events[n], token) == 0)
  {
    hide Apply, Created, Lost, Outstanding, Circulating;
    var b := Run(NEW, rules, events[..n]);
    RunAccounted(NEW, rules, events[..n], token);
    StepAccounted(b, rules, events[n], token);
    if Surplus(b, token) <= 0 { NothingLostBefore(b, rules, events[n], token); }
    assert events[..n + 1] == events[..n] + [events[n]];
    RunConcat(NEW, rules, events[..n], [events[n]]);
    assert [events[n]][1..] == [];
    assert Run(b, rules, [events[n]]) == Apply(b, rules, events[n]);
  }

  lemma SurplusAtStart(rules: Rules, events: seq<Event>, token: nat)
    ensures Surplus(Run(NEW, rules, events[..0]), token) == 0
  {}

  lemma {:induction false} ConservedSoFar(rules: Rules, events: seq<Event>, token: nat, n: nat)
    requires n <= |events| && forall k :: 0 <= k < n ==> CreatesNothingAt(rules, events, token, k)
    ensures Surplus(Run(NEW, rules, events[..n]), token) == 0
  {
    hide Run, Created, Lost, Outstanding, Circulating;
    if n == 0 {
      SurplusAtStart(rules, events, token);
    } else {
      ConservedSoFar(rules, events, token, n - 1);
      AtOnePoint(rules, events, token, n - 1);
      assert CreatesNothingAt(rules, events, token, n - 1);
    }
  }

  // Conservation, for every run from the start and every token: what is held and for sale is what circulates, at every
  // point, if and only if no event creates any: no listing or order of an amount whose fraction of a unit is a half or
  // more, and no purchase from a closed listing. What circulates never exceeds the supply.
  lemma SupplyIsConservedExactly(rules: Rules, events: seq<Event>, token: nat)
    ensures (forall n :: 0 <= n <= |events| ==> ConservedAt(rules, events, token, n))
       <==> (forall n :: 0 <= n < |events| ==> CreatesNothingAt(rules, events, token, n))
    ensures var b := Run(NEW, rules, events);
      token < |b.tokens| ==> b.tokens[token].circulating <= b.tokens[token].maxSupply
  {
    RunAccounted(NEW, rules, events, token);
    hide Run, Created, Lost, Circulating;
    if forall n :: 0 <= n < |events| ==> CreatesNothingAt(rules, events, token, n) {
      forall n | 0 <= n <= |events| ensures ConservedAt(rules, events, token, n) {
        ConservedSoFar(rules, events, token, n);
      }
    }
    if forall n :: 0 <= n <= |events| ==> ConservedAt(rules, events, token, n) {
      forall n | 0 <= n < |events| ensures CreatesNothingAt(rules, events, token, n) {
        AtOnePoint(rules, events, token, n);
        assert ConservedAt(rules, events, token, n) && ConservedAt(rules, events, token, n + 1);
      }
    }
  }

  // In a run whose burns stay within what circulates there is never less of a token than circulates, and at the end no
  // more exactly if no event has created any.
  lemma NothingGoesMissing(rules: Rules, events: seq<Event>, token: nat)
    requires forall n :: 0 <= n < |events| ==> LosesNothingAt(rules, events, token, n)
    ensures Surplus(Run(NEW, rules, events), token) >= 0
    ensures Surplus(Run(NEW, rules, events), token) == 0
       <==> forall n :: 0 <= n < |events| ==> CreatesNothingAt(rules, events, token, n)
  {
    SurplusGrows(rules, events, token, |events|);
    assert events[..|events|] == events;
  }

  lemma {:induction false} SurplusGrows(rules: Rules, events: seq<Event>, token: nat, n: nat)
    requires n <= |events| && forall k :: 0 <= k < n ==> LosesNothingAt(rules, events, token, k)
    ensures Surplus(Run(NEW, rules, events[..n]), token) >= 0
    ensures Surplus(Run(NEW, rules, events[..n]), token) == 0
       <==> forall k :: 0 <= k < n ==> CreatesNothingAt(rules, events, token, k)
  {
    hide Run, Created, Lost, Outstanding, Circulating;
    if n == 0 {
      SurplusAtStart(rules, events, token);
    } else {
      SurplusGrows(rules, events, token, n - 1);
      AtOnePoint(rules, events, token, n - 1);
      assert LosesNothingAt(rules, events, token, n - 1);
      assert CreatesNothingAt(rules, events, token, n - 1)
        <==> Created(Run(NEW, rules, events[..n - 1]), rules, events[n - 1], token) == 0;
    }
  }

  // A purchase that went through goes through once more if it is sent again, or if its batch names the listing twice,
  // and then all it hands out is created: the check does not look at whether the listing is closed.
  lemma PurchaseGoesThroughAgain(b: Book, rules: Rules, e: Event)
    requires e.op.OpBuyTokens? && Outcome(b, rules, e).Ok?
    ensures var b' := Apply(b, rules, e);
      var goods := b.entries[e.op.index].goods;
      && Outcome(b', rules, e).Ok?
      && goods.Tokens? && Created(b', rules, e, goods.token) == goods.amount
  {
    hide BankSent, FeeSent, RequiredFee, Credit;
    var b' := Apply(b, rules, e);
    assert b'.entries[e.op.index].listing == b.entries[e.op.index].listing.(isFilled := true);
  }

  // One and a half units are taken as one and offered as two.
  lemma HalfAUnitIsCreated()
    ensures var b := Book([Token(100, 10, 1, 0)], [Holder(0, "a", 10)], [], [], []);
      var listed := ListOrder(b, "a", 0, 1.5, 1.0, 1500000.0);
      && listed.Ok? && Outstanding(b, 0) == 10 && Outstanding(listed.value, 0) == 11
  {
    var b := Book([Token(100, 10, 1, 0)], [Holder(0, "a", 10)], [], [], []);
    var listed := ListOrder(b, "a", 0, 1.5, 1.0, 1500000.0).value;
    assert listed.orders[0].amount == 2;
    assert listed.holders == [Holder(0, "a", 9)];
    assert listed.holders[1..] == [] && listed.orders[1..] == [] && b.holders[1..] == [];
  }

  // Whoever buys through the client's guard buys from an open listing, and creates nothing.
  lemma GuardedPurchaseCreatesNothing(b: Book, rules: Rules, e: Event, service: Service, height: Option<int>,
                                      hash: string, token: nat)
    requires e.op.OpBuyTokens? && e.op.index < |b.entries|
    requires hash in service && service[hash] == b.entries[e.op.index].listing
    requires GetListing(service, e.sender, height, hash).Ok?
    ensures Created(b, rules, e, token) == 0
  {
    hide Outcome;
  }
}
