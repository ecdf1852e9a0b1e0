/** What each operation of the ledger does to every balance, every owner and every listing, and when it is taken. */
module MarketMoves {
  import opened Wrappers
  import opened Tx
  import opened Marketplace
  import opened MarketLedger

  // ---- balances ----

  function Has(b: Book, token: nat, address: string): int {
    Balance(b.holders, token, address).GetOr(0)
  }

  lemma {:induction false} CreditedBalance(holders: seq<Holder>, token: nat, address: string, amount: int,
                                           t: nat, a: string)
    ensures Balance(Credit(holders, token, address, amount), t, a).GetOr(0)
         == Balance(holders, t, a).GetOr(0) + if t == token && a == address then amount else 0
  {
    if holders == [] {
      assert Credit(holders, token, address, amount)[1..] == [];
    } else if holders[0].token == token && holders[0].address == address {
      assert Credit(holders, token, address, amount)[1..] == holders[1..];
    } else {
      assert Credit(holders, token, address, amount)[1..] == Credit(holders[1..], token, address, amount);
      CreditedBalance(holders[1..], token, address, amount, t, a);
    }
  }

  // What an account gains of a token when an event goes through; what it gives counts as negative.
  function Gain(b: Book, e: Event, t: nat, a: string): int {
    match e.op
    case OpDeploy(_, _, _, preMint) => if t == |b.tokens| && a == e.sender then preMint.GetOr(0) else 0
    case OpMint(token) =>
      if t != token || a != e.sender || t >= |b.tokens| then 0
      else if b.tokens[t].maxSupply - b.tokens[t].circulating < b.tokens[t].perMintLimit
      then b.tokens[t].maxSupply - b.tokens[t].circulating else b.tokens[t].perMintLimit
    case OpTransfer(token, destination, whole) =>
      if t != token || t >= |b.tokens| || e.sender == destination then 0
      else
        var amount := whole * Pow10(b.tokens[t].decimals) % UINT64;
        if a == destination then amount else if a == e.sender then -amount else 0
    case OpBurn(token, units) => if t == token && a == e.sender then -Rounded(units) else 0
    case OpListOrder(token, units, _, _) => if t == token && a == e.sender then -Trunc(units) else 0
    case OpListTokens(token, units, _) => if t == token && a == e.sender then -Trunc(units) else 0
    case OpBuyOrder(token, index) =>
      if t == token && a == e.sender && index < |b.orders| then b.orders[index].amount else 0
    case OpDelistOrder(token, index) =>
      if index < |b.orders| && t == b.orders[index].token && a == b.orders[index].seller then b.orders[index].amount
      else 0
    case OpDelist(index, _) =>
      if index < |b.entries| && a == b.entries[index].listing.seller then Offered(b.entries[index], t) else 0
    case OpBuyTokens(index) => if index < |b.entries| && a == e.sender then Offered(b.entries[index], t) else 0
    case _ => 0
  }

  // How much of a token a listing is of
  function Offered(e: Entry, t: nat): int {
    if e.goods.Tokens? && e.goods.token == t then e.goods.amount else 0
  }

  // Every balance changes by exactly that: buyers get what they buy, sellers get back what they delist, and nobody
  // else's balance changes.
  lemma BalancesMove(b: Book, rules: Rules, e: Event, t: nat, a: string)
    requires Outcome(b, rules, e).Ok?
    ensures Has(Outcome(b, rules, e).value, t, a) == Has(b, t, a) + Gain(b, e, t, a)
  {
    if e.op.OpListTokens? || e.op.OpListPiece? || e.op.OpDeposit? || e.op.OpDelist? || e.op.OpBuyTokens?
       || e.op.OpBuyPiece? || e.op.OpInscribe? || e.op.OpTransferPiece? {
      ListingBalances(b, rules, e, t, a);
    } else {
      TokenBalances(b, rules, e, t, a);
    }
  }

  lemma ListingBalances(b: Book, rules: Rules, e: Event, t: nat, a: string)
    requires Outcome(b, rules, e).Ok?
    requires e.op.OpListTokens? || e.op.OpListPiece? || e.op.OpDeposit? || e.op.OpDelist? || e.op.OpBuyTokens?
             || e.op.OpBuyPiece? || e.op.OpInscribe? || e.op.OpTransferPiece?
    ensures Has(Outcome(b, rules, e).value, t, a) == Has(b, t, a) + Gain(b, e, t, a)
  {
    hide Credit, Balance, Rounded, Trunc, PaysListingFee, PaysForTokens, PaysForPiece, BankSent, Covers;
    match e.op
    case OpListTokens(token, units, _) => CreditedBalance(b.holders, token, e.sender, -Trunc(units), t, a);
    case OpDelist(index, _) =>
      var goods := b.entries[index].goods;
      if goods.Tokens? { CreditedBalance(b.holders, goods.token, e.sender, goods.amount, t, a); }
    case OpBuyTokens(index) =>
      var goods := b.entries[index].goods;
      CreditedBalance(b.holders, goods.token, e.sender, goods.amount, t, a);
    case _ =>
  }

  lemma TokenBalances(b: Book, rules: Rules, e: Event, t: nat, a: string)
    requires Outcome(b, rules, e).Ok?
    requires e.op.OpDeploy? || e.op.OpMint? || e.op.OpTransfer? || e.op.OpBurn? || e.op.OpListOrder?
             || e.op.OpBuyOrder? || e.op.OpDelistOrder?
    ensures Has(Outcome(b, rules, e).value, t, a) == Has(b, t, a) + Gain(b, e, t, a)
  {
    hide Credit, Balance, Rounded, Trunc, Covers, Pow10, PaysForOrder;
    match e.op
    case OpDeploy(_, _, _, preMint) =>
      if preMint.Some? { CreditedBalance(b.holders, |b.tokens|, e.sender, preMint.value, t, a); }
    case OpMint(token) =>
      var tok := b.tokens[token];
      CreditedBalance(b.holders, token, e.sender,
                      if tok.circulating + tok.perMintLimit > tok.maxSupply then tok.maxSupply - tok.circulating
                      else tok.perMintLimit, t, a);
    case OpTransfer(token, destination, whole) =>
      var amount := whole * Pow10(b.tokens[token].decimals) % UINT64;
      CreditedBalance(b.holders, token, e.sender, -amount, t, a);
      CreditedBalance(Credit(b.holders, token, e.sender, -amount), token, destination, amount, t, a);
    case OpBurn(token, units) => CreditedBalance(b.holders, token, e.sender, -Rounded(units), t, a);
    case OpListOrder(token, units, _, _) => CreditedBalance(b.holders, token, e.sender, -Trunc(units), t, a);
    case OpBuyOrder(token, index) =>
      CreditedBalance(b.holders, token, e.sender, b.orders[index].amount, t, a);
    case OpDelistOrder(token, index) =>
      CreditedBalance(b.holders, token, e.sender, b.orders[index].amount, t, a);
  }

  // ---- owners ----

  // Every inscription stays with its owner but the one the event is about: a listed one goes to the market, a bought
  // one to the buyer, a delisted one back to the seller, a transferred one where it is sent.
  lemma OwnersMove(b: Book, rules: Rules, e: Event, p: nat)
    requires Outcome(b, rules, e).Ok?
    ensures var b' := Outcome(b, rules, e).value;
      && |b'.owners| == |b.owners| + (if e.op.OpInscribe? then 1 else 0)
      && (e.op.OpInscribe? ==> b'.owners[|b.owners|] == e.sender)
      && (p < |b.owners| ==>
            b'.owners[p]
            == if e.op.OpListPiece? && e.op.inscription == p then MARKET
               else if e.op.OpTransferPiece? && e.op.inscription == p then e.op.destination
               else if e.op.OpBuyPiece? && e.op.index < |b.entries| && b.entries[e.op.index].goods == Piece(p)
               then e.sender
               else if e.op.OpDelist? && e.op.index < |b.entries| && b.entries[e.op.index].goods == Piece(p)
               then b.entries[e.op.index].listing.seller
               else b.owners[p])
  {
    hide Credit, Rounded, Trunc, PaysListingFee, PaysForTokens, PaysForPiece, BankSent, Covers, Pow10, PaysForOrder;
  }

  // ---- listings ----

  // The integer nearest to a number that is not negative, the larger of two
  ghost predicate IsNearest(n: int, x: real) {
    x - 0.5 < n as real <= x + 0.5
  }

  // A new listing asks for the price and, as deposit, for the share of it or 1, both rounded to nearest, of nobody yet.
  ghost predicate IsNewListing(l: Listing, seller: string, terms: Terms) {
    && l.seller == seller && IsNearest(l.total, terms.totalBase)
    && IsNearest(l.depositTotal, if terms.depositBase < 1.0 then 1.0 else terms.depositBase)
    && !l.isDeposited && l.depositor == Some("") && l.timeout == Some(0) && !l.isFilled && !l.isCancelled
  }

  // What becomes of the listings when an event goes through
  lemma ListingsMove(b: Book, rules: Rules, e: Event)
    requires Outcome(b, rules, e).Ok?
    ensures var b' := Outcome(b, rules, e).value;
      match e.op
      case OpListTokens(token, units, terms) =>
        && |b'.entries| == |b.entries| + 1 && b'.entries[..|b.entries|] == b.entries
        && var added := b'.entries[|b.entries|];
           && IsNewListing(added.listing, e.sender, terms) && added.depositTimeout == terms.timeout
           && added.goods.Tokens? && added.goods.token == token && IsNearest(added.goods.amount, units)
      case OpListPiece(inscription, terms) =>
        && |b'.entries| == |b.entries| + 1 && b'.entries[..|b.entries|] == b.entries
        && var added := b'.entries[|b.entries|];
           && IsNewListing(added.listing, e.sender, terms) && added.depositTimeout == terms.timeout
           && added.goods == Piece(inscription)
      case OpDeposit(index, height, _) =>
        index < |b.entries| && b'.entries == b.entries[index := b.entries[index].(listing :=
          b.entries[index].listing.(isDeposited := true, depositor := Some(e.sender),
                                    timeout := Some(height + b.entries[index].depositTimeout + 1)))]
      case OpDelist(index, _) =>
        index < |b.entries| && b'.entries == b.entries[index := b.entries[index].(listing :=
          b.entries[index].listing.(isDeposited := false, depositor := Some(""), timeout := Some(0),
                                    isCancelled := true))]
      case OpBuyTokens(index) =>
        index < |b.entries| && b'.entries == b.entries[index := b.entries[index].(listing :=
          b.entries[index].listing.(isFilled := true))]
      case OpBuyPiece(index, _) =>
        index < |b.entries| && b'.entries == b.entries[index := b.entries[index].(listing :=
          b.entries[index].listing.(isFilled := true))]
      case _ => b'.entries == b.entries
  {
    hide Credit, Trunc, PaysListingFee, PaysForTokens, PaysForPiece, BankSent, Covers, Pow10, PaysForOrder;
  }

  // What becomes of the orders of the first market
  lemma OrdersMove(b: Book, rules: Rules, e: Event)
    requires Outcome(b, rules, e).Ok?
    ensures var b' := Outcome(b, rules, e).value;
      match e.op
      case OpListOrder(token, units, _, totalBase) =>
        && |b'.orders| == |b.orders| + 1 && b'.orders[..|b.orders|] == b.orders
        && var added := b'.orders[|b.orders|];
           && added.token == token && added.seller == e.sender && !added.isFilled && !added.isCancelled
           && IsNearest(added.amount, units) && IsNearest(added.total, totalBase)
      case OpBuyOrder(_, index) =>
        && index < |b.orders| && !b.orders[index].isFilled && !b.orders[index].isCancelled
        && b'.orders == b.orders[index := b.orders[index].(isFilled := true)]
      case OpDelistOrder(_, index) =>
        && index < |b.orders| && !b.orders[index].isFilled && !b.orders[index].isCancelled
        && b.orders[index].seller == e.sender
        && b'.orders == b.orders[index := b.orders[index].(isCancelled := true)]
      case _ => b'.orders == b.orders
  {
    hide Credit, Trunc, PaysListingFee, PaysForTokens, PaysForPiece, BankSent, Covers, Pow10, PaysForOrder,
         MinDepositBase;
  }

  // What becomes of the tokens
  lemma TokensMove(b: Book, rules: Rules, e: Event)
    requires Outcome(b, rules, e).Ok?
    ensures var b' := Outcome(b, rules, e).value;
      match e.op
      case OpDeploy(supply, limit, decimals, preMint) =>
        b'.tokens == b.tokens + [Token(supply, preMint.GetOr(0), limit, decimals)]
      case OpMint(token) =>
        && token < |b.tokens| && |b'.tokens| == |b.tokens|
        && (forall t :: 0 <= t < |b.tokens| && t != token ==> b'.tokens[t] == b.tokens[t])
        && b'.tokens[token]
        == b.tokens[token].(circulating := b.tokens[token].circulating + Gain(b, e, token, e.sender))
      case OpBurn(token, units) =>
        && token < |b.tokens| && |b'.tokens| == |b.tokens|
        && (forall t :: 0 <= t < |b.tokens| && t != token ==> b'.tokens[t] == b.tokens[t])
        && (if Rounded(units) > b.tokens[token].circulating then b'.tokens == b.tokens
            else
              && b'.tokens[token].circulating == b.tokens[token].circulating - Rounded(units)
              && b'.tokens[token].maxSupply == b.tokens[token].maxSupply - Rounded(units)
              && b'.tokens[token].perMintLimit == b.tokens[token].perMintLimit
              && b'.tokens[token].decimals == b.tokens[token].decimals)
      case _ => b'.tokens == b.tokens
  {
    hide Credit, Rounded, Trunc, PaysListingFee, PaysForTokens, PaysForPiece, BankSent, Covers, Pow10, PaysForOrder;
  }

  // ---- what is taken ----

  // A holder's row with at least so much
  predicate CanGive(b: Book, token: nat, address: string, amount: int) {
    Balance(b.holders, token, address).Some? && Balance(b.holders, token, address).value >= amount
  }

  predicate IsLive(l: Listing) {
    !l.isFilled && !l.isCancelled
  }

  // The fee of a new listing: at least the share to deposit, or 1, without its fraction
  predicate FeeCoversDeposit(rules: Rules, terms: Terms, msgs: seq<Msg>) {
    && FeeSent(rules, msgs).Some?
    && FeeSent(rules, msgs).value as real + 1.0 > terms.depositBase && FeeSent(rules, msgs).value >= 1
  }

  // When an event on tokens, orders or owners is taken
  lemma TakenExactly(b: Book, rules: Rules, e: Event)
    requires !e.op.OpDeposit? && !e.op.OpBuyTokens? && !e.op.OpBuyPiece?
    ensures Outcome(b, rules, e).Ok?
       <==> match e.op
            case OpDeploy(supply, limit, decimals, preMint) =>
              && 0 < supply && limit <= supply && decimals <= 6 && (preMint.Some? ==> 0 < preMint.value <= supply)
            case OpMint(token) => token < |b.tokens| && b.tokens[token].circulating < b.tokens[token].maxSupply
            case OpTransfer(token, _, whole) =>
              token < |b.tokens| && whole > 0
              && CanGive(b, token, e.sender, whole * Pow10(b.tokens[token].decimals) % UINT64)
            case OpBurn(token, units) =>
              token < |b.tokens| && units > 0.0 && CanGive(b, token, e.sender, Rounded(units))
            case OpListOrder(token, units, ppt, _) =>
              token < |b.tokens| && units > 0.0 && ppt > 0.0 && CanGive(b, token, e.sender, Trunc(units))
            case OpBuyOrder(token, index) =>
              && index < |b.orders| && b.orders[index].token == token && !b.orders[index].isFilled
              && !b.orders[index].isCancelled && PaysForOrder(b.orders[index], e.msgs)
            case OpDelistOrder(token, index) =>
              && index < |b.orders| && b.orders[index].token == token && !b.orders[index].isFilled
              && !b.orders[index].isCancelled && b.orders[index].seller == e.sender
            case OpInscribe => true
            case OpTransferPiece(p, _) => p < |b.owners| && b.owners[p] == e.sender
            case OpListTokens(token, units, terms) =>
              && token < |b.tokens| && units > 0.0 && terms.ppt > 0.0 && terms.price >= rules.minimumTradeSize
              && terms.minDeposit > 0.0 && terms.minDeposit >= rules.minimumDeposit
              && terms.timeout >= rules.minimumTimeout && FeeCoversDeposit(rules, terms, e.msgs)
              && CanGive(b, token, e.sender, Trunc(units))
            case OpListPiece(p, terms) =>
              && p < |b.owners| && b.owners[p] == e.sender && terms.price > 0.0 && terms.minDeposit >= 0.00001
              && terms.timeout >= rules.minimumTimeout && FeeCoversDeposit(rules, terms, e.msgs)
            case OpDelist(index, height) =>
              && index < |b.entries|
              && var l := b.entries[index].listing;
                 && l.seller == e.sender && IsLive(l) && !(l.isDeposited && l.timeout.GetOr(0) > height)
            case _ => true
  {
    if e.op.OpListTokens? || e.op.OpListPiece? { ListingFeeExactly(rules, e.op.terms, e.msgs); }
    hide Credit, Rounded, Trunc, PaysListingFee, BankSent, FeeSent, Balance, Pow10, PaysForOrder, FeeCoversDeposit;
  }

  lemma ListingFeeExactly(rules: Rules, terms: Terms, msgs: seq<Msg>)
    ensures PaysListingFee(rules, terms, msgs) <==> FeeCoversDeposit(rules, terms, msgs)
  {
    hide FeeSent;
    var fee := FeeSent(rules, msgs);
    if fee.Some? {
      FloorCovers(MinDepositBase(terms), fee.value);
    }
  }

  lemma FloorCovers(x: real, n: int)
    ensures n >= x.Floor <==> n as real + 1.0 > x
  {
    if n >= x.Floor { assert (n + 1) as real > x; }
  }

  // An order of the first market is paid for by the first bank send, if there is one, and otherwise taken without.
  lemma {:induction false} OrderPaidExactly(o: Order, msgs: seq<Msg>)
    ensures PaysForOrder(o, msgs)
       <==> (forall k :: 0 <= k < |msgs| && msgs[k].Send? && (forall j :: 0 <= j < k ==> !msgs[j].Send?) ==>
               msgs[k].to == o.seller && msgs[k].amount == o.total && msgs[k].denom == UATOM)
  {
    if msgs != [] && !msgs[0].Send? {
      var rest := msgs[1..];
      OrderPaidExactly(o, rest);
      assert forall k :: 0 <= k < |rest| ==> rest[k] == msgs[k + 1];
      forall k | 0 <= k < |rest| && rest[k].Send? && (forall j :: 0 <= j < k ==> !rest[j].Send?)
        ensures forall j :: 0 <= j < k + 1 ==> !msgs[j].Send?
      {
        forall j | 0 <= j < k + 1 ensures !msgs[j].Send? { if j > 0 { assert msgs[j] == rest[j - 1]; } }
      }
      forall k | 0 <= k < |msgs| && msgs[k].Send? && (forall j :: 0 <= j < k ==> !msgs[j].Send?)
        ensures k > 0 && rest[k - 1] == msgs[k] && forall j :: 0 <= j < k - 1 ==> !rest[j].Send?
      {
        forall j | 0 <= j < k - 1 ensures !rest[j].Send? { assert rest[j] == msgs[j + 1]; }
      }
    }
  }

  // ---- the crash ----

  ghost predicate ForeignTransferFirst(msgs: seq<Msg>) {
    exists k :: 0 <= k < |msgs| && msgs[k].IbcTransfer? && msgs[k].denom != "uatom"
                && forall j :: 0 <= j < k ==> !msgs[j].IbcTransfer?
  }

  // An operation that gets to its fee and does not find it stops the indexer exactly if fees come by IBC and the first
  // transfer is in another denom, and is refused otherwise; nothing else stops it.
  lemma CrashesExactly(b: Book, rules: Rules, e: Event)
    ensures Outcome(b, rules, e) == Err(Crash) ==> rules.ibcEnabled && ForeignTransferFirst(e.msgs)
    ensures Outcome(b, rules, e) == Err(FeeNotPaid) ==> !(rules.ibcEnabled && ForeignTransferFirst(e.msgs))
  {
    FirstTransferCrashes(e.msgs);
    hide IbcCrashes, ForeignTransferFirst, PaysListingFee, Covers, Credit, BankSent, FeeSent, Balance, PaysForOrder,
         Rounded, Trunc, Pow10, RequiredFee, Minus;
  }

  lemma {:induction false} FirstTransferCrashes(msgs: seq<Msg>)
    ensures IbcCrashes(msgs) <==> ForeignTransferFirst(msgs)
  {
    if msgs != [] && !msgs[0].IbcTransfer? {
      FirstTransferCrashes(msgs[1..]);
      if k :| 0 <= k < |msgs| && msgs[k].IbcTransfer? && msgs[k].denom != "uatom"
              && forall j :: 0 <= j < k ==> !msgs[j].IbcTransfer? {
        assert msgs[1..][k - 1] == msgs[k];
      }
      if k :| 0 <= k < |msgs[1..]| && msgs[1..][k].IbcTransfer? && msgs[1..][k].denom != "uatom"
              && forall j :: 0 <= j < k ==> !msgs[1..][j].IbcTransfer? {
        assert msgs[k + 1] == msgs[1..][k];
        forall j | 0 <= j < k + 1 ensures !msgs[j].IbcTransfer? { if j > 0 { assert msgs[j] == msgs[1..][j - 1]; } }
      }
    }
  }
}
