/** Who holds a listed inscription, and whom a stored listing names as its depositor. */
module MarketCustody {
  import opened Wrappers
  import opened Tx
  import opened Marketplace
  import opened MarketLedger
  import D = ListingDisplay

  predicate IsOpen(l: Listing) {
    !l.isFilled && !l.isCancelled
  }

  predicate IsOffer(e: Entry) {
    e.goods.Piece? && IsOpen(e.listing)
  }

  // An open listing of that inscription
  predicate Offers(e: Entry, inscription: nat) {
    IsOffer(e) && e.goods.inscription == inscription
  }

  // What is offered belongs to the market, and is offered once.
  ghost predicate InCustody(entries: seq<Entry>, owners: seq<string>) {
    && (forall i :: 0 <= i < |entries| && IsOffer(entries[i]) ==>
          entries[i].goods.inscription < |owners| && owners[entries[i].goods.inscription] == MARKET)
    && (forall i, j :: 0 <= i < j < |entries| && IsOffer(entries[i]) && IsOffer(entries[j]) ==>
          entries[i].goods.inscription != entries[j].goods.inscription)
  }

  // Listings stay as they are, or close; owners of what is offered stay.
  lemma FewerOffers(before: seq<Entry>, after: seq<Entry>, owners: seq<string>, owners': seq<string>)
    requires InCustody(before, owners) && |before| == |after| && |owners| <= |owners'|
    requires forall i :: 0 <= i < |after| ==>
      after[i].goods == before[i].goods && (IsOffer(after[i]) ==> IsOffer(before[i]))
    requires forall i :: 0 <= i < |after| && IsOffer(after[i]) && after[i].goods.inscription < |owners| ==>
      owners'[after[i].goods.inscription] == owners[after[i].goods.inscription]
    ensures InCustody(after, owners')
  {}

  lemma OneMoreOffer(entries: seq<Entry>, owners: seq<string>, e: Entry, p: nat)
    requires InCustody(entries, owners) && p < |owners| && owners[p] != MARKET && e.goods == Piece(p)
    ensures InCustody(entries + [e], owners[p := MARKET])
  {}

  lemma OneMoreOfTokens(entries: seq<Entry>, owners: seq<string>, e: Entry)
    requires InCustody(entries, owners) && e.goods.Tokens?
    ensures InCustody(entries + [e], owners)
  {}

  // A listing closes, and its inscription, if it has one, goes to somebody.
  lemma OfferEnds(entries: seq<Entry>, owners: seq<string>, index: nat, e: Entry, who: string)
    requires InCustody(entries, owners) && index < |entries| && IsOpen(entries[index].listing)
    requires e.goods == entries[index].goods && !IsOpen(e.listing)
    ensures InCustody(entries[index := e], owners)
    ensures e.goods.Piece? && e.goods.inscription < |owners| ==>
      && InCustody(entries[index := e], owners[e.goods.inscription := who])
      && var after := entries[index := e];
         forall i :: 0 <= i < |after| ==> !Offers(after[i], e.goods.inscription)
  {
    var after := entries[index := e];
    FewerOffers(entries, after, owners, owners);
    if e.goods.Piece? && e.goods.inscription < |owners| {
      assert IsOffer(entries[index]);
      FewerOffers(entries, after, owners, owners[e.goods.inscription := who]);
    }
  }

  lemma EntriesKept(b: Book, rules: Rules, e: Event)
    requires Outcome(b, rules, e).Ok?
    requires e.op.OpDeploy? || e.op.OpMint? || e.op.OpTransfer? || e.op.OpBurn? || e.op.OpListOrder? || e.op.OpBuyOrder?
             || e.op.OpDelistOrder?
    ensures Outcome(b, rules, e).value.entries == b.entries && Outcome(b, rules, e).value.owners == b.owners
  {
    hide Credit, Rounded, Trunc, PaysForOrder, Covers, Pow10;
  }

  lemma StepKeepsCustody(b: Book, rules: Rules, e: Event)
    requires InCustody(b.entries, b.owners) && e.sender != MARKET
    ensures InCustody(Apply(b, rules, e).entries, Apply(b, rules, e).owners)
  {
    var b' := Apply(b, rules, e);
    hide PaysForPiece, PaysForTokens, PaysListingFee, Credit, Rounded, Trunc, MinDepositBase, Covers, BankSent,
         Deploy, MintTokens, TransferTokens, BurnTokens, ListOrder, BuyOrder, DelistOrder;
    if Outcome(b, rules, e).Ok? {
      match e.op
      case OpInscribe => FewerOffers(b.entries, b'.entries, b.owners, b'.owners);
      case OpTransferPiece(inscription, _) =>
        hide InCustody;
        TransferKeepsCustody(b, b'.owners, inscription);
      case OpListTokens(_, _, _) =>
        OneMoreOfTokens(b.entries, b.owners, b'.entries[|b.entries|]);
      case OpListPiece(inscription, _) =>
        OneMoreOffer(b.entries, b.owners, b'.entries[|b.entries|], inscription);
      case OpDeposit(_, _, _) => FewerOffers(b.entries, b'.entries, b.owners, b'.owners);
      case OpDelist(index, _) => OfferEnds(b.entries, b.owners, index, b'.entries[index], e.sender);
      case OpBuyTokens(index) => FewerOffers(b.entries, b'.entries, b.owners, b'.owners);
      case OpBuyPiece(index, _) => OfferEnds(b.entries, b.owners, index, b'.entries[index], e.sender);
      case _ => EntriesKept(b, rules, e);
    }
  }

  // An inscription that is offered is not its seller's to transfer.
  lemma TransferKeepsCustody(b: Book, owners: seq<string>, inscription: nat)
    requires InCustody(b.entries, b.owners) && inscription < |b.owners| && b.owners[inscription] != MARKET
    requires |owners| == |b.owners| && forall p :: 0 <= p < |owners| && p != inscription ==> owners[p] == b.owners[p]
    ensures InCustody(b.entries, owners)
  {
    FewerOffers(b.entries, b.entries, b.owners, owners);
  }

  lemma {:induction false} RunKeepsCustody(b: Book, rules: Rules, events: seq<Event>)
    requires InCustody(b.entries, b.owners) && forall k :: 0 <= k < |events| ==> events[k].sender != MARKET
    ensures InCustody(Run(b, rules, events).entries, Run(b, rules, events).owners)
    decreases |events|
  {
    hide Apply, InCustody;
    if events != [] {
      StepKeepsCustody(b, rules, events[0]);
      RunKeepsCustody(Apply(b, rules, events[0]), rules, events[1..]);
    }
  }

  // Custody: in every run, an inscription has at most one open listing, and while it has one it belongs to the market,
  // so its seller can neither transfer nor list it again. A purchase then hands it to the buyer and leaves no listing
  // of it open: nothing is sold twice without being listed anew.
  lemma ListedOnceAndHeld(rules: Rules, events: seq<Event>, index: nat, inscription: nat)
    requires forall k :: 0 <= k < |events| ==> events[k].sender != MARKET
    requires index < |Run(NEW, rules, events).entries| && Offers(Run(NEW, rules, events).entries[index], inscription)
    ensures var b := Run(NEW, rules, events);
      && inscription < |b.owners| && b.owners[inscription] == MARKET
      && (forall k :: 0 <= k < |b.entries| && Offers(b.entries[k], inscription) ==> k == index)
      && (forall sender, royalty, msgs | BuyPiece(b, rules, sender, index, royalty, msgs).Ok? ::
            var b' := BuyPiece(b, rules, sender, index, royalty, msgs).value;
            b'.owners[inscription] == sender
            && forall k :: 0 <= k < |b'.entries| ==> !Offers(b'.entries[k], inscription))
  {
    RunKeepsCustody(NEW, rules, events);
    var b := Run(NEW, rules, events);
    hide Run, PaysForPiece;
    assert IsOffer(b.entries[index]);
    forall sender, royalty, msgs | BuyPiece(b, rules, sender, index, royalty, msgs).Ok?
      ensures var b' := BuyPiece(b, rules, sender, index, royalty, msgs).value;
        b'.owners[inscription] == sender
        && forall k :: 0 <= k < |b'.entries| ==> !Offers(b'.entries[k], inscription)
    {
      var b' := BuyPiece(b, rules, sender, index, royalty, msgs).value;
      OfferEnds(b.entries, b.owners, index, b'.entries[index], sender);
    }
  }

  // ---- the depositor ----

  // A listing names an account exactly while it is deposited.
  ghost predicate NamesDepositor(l: Listing) {
    if l.isDeposited then l.depositor.Some? && l.depositor.value != "" && l.timeout.Some?
    else l.depositor == Some("") && l.timeout == Some(0)
  }

  ghost predicate AllName(entries: seq<Entry>) {
    forall k :: 0 <= k < |entries| ==> NamesDepositor(entries[k].listing)
  }

  lemma StepKeepsNames(b: Book, rules: Rules, e: Event)
    requires AllName(b.entries) && e.sender != ""
    ensures AllName(Apply(b, rules, e).entries)
  {
    var b' := Apply(b, rules, e);
    hide PaysForPiece, PaysForTokens, PaysListingFee, Credit, Rounded, Trunc, MinDepositBase, Covers, BankSent,
         Deploy, MintTokens, TransferTokens, BurnTokens, ListOrder, BuyOrder, DelistOrder;
    if Outcome(b, rules, e).Ok? {
      match e.op
      case OpListTokens(_, _, _) =>
      case OpListPiece(_, _) =>
      case OpDeposit(_, _, _) =>
      case OpDelist(_, _) =>
      case OpBuyTokens(_) =>
      case OpBuyPiece(_, _) =>
      case OpInscribe =>
      case OpTransferPiece(_, _) =>
      case _ => EntriesKept(b, rules, e);
    }
  }

  lemma {:induction false} RunKeepsNames(b: Book, rules: Rules, events: seq<Event>)
    requires AllName(b.entries) && forall k :: 0 <= k < |events| ==> events[k].sender != ""
    ensures AllName(Run(b, rules, events).entries)
    decreases |events|
  {
    hide Apply, AllName;
    if events != [] {
      StepKeepsNames(b, rules, events[0]);
      RunKeepsNames(Apply(b, rules, events[0]), rules, events[1..]);
    }
  }

  // On every listing of every run the three deciders agree. For an open listing the client's deposit guard accepts
  // exactly when the indexer finds no deposit in the way, and its purchase guard accepts exactly when the indexer finds
  // the sender to be the depositor and the timeout has not passed. For anyone but the seller, what the page shows as
  // reservable can be deposited on, what it shows as buyable can be bought, and what it shows as reserved can be
  // neither, except that at the timeout height itself it can be deposited on. What it shows the seller as open to
  // cancel can be delisted, and what it shows the seller as reserved cannot, except at that height.
  lemma DecidersAgree(rules: Rules, events: seq<Event>, index: nat, me: string, height: nat, hash: string)
    requires (forall k :: 0 <= k < |events| ==> events[k].sender != "") && me != ""
    requires index < |Run(NEW, rules, events).entries| && IsOpen(Run(NEW, rules, events).entries[index].listing)
    ensures var l := Run(NEW, rules, events).entries[index].listing;
      var service: Service := map[hash := l];
      var deposit := DepositListing(service, me, Some(height), hash).Ok?;
      var buy := GetListing(service, me, Some(height), hash).Ok?;
      && (deposit <==> !IsHeld(l, height))
      && (buy <==> l.isDeposited && l.depositor == Some(me) && height <= l.timeout.GetOr(0))
      && (l.seller != me ==>
            match D.GetListingState(l, Some(me), height)
            case Reserve => deposit && !buy
            case Buy => buy
            case Reserved => !buy && (deposit <==> l.timeout == Some(height))
            case Cancel => false)
      && (l.seller == me ==>
            var delist := Delist(Run(NEW, rules, events), me, index, height).Ok?;
            match D.GetListingState(l, Some(me), height)
            case Cancel => delist
            case Reserved => delist <==> l.timeout == Some(height)
            case _ => false)
  {
    RunKeepsNames(NEW, rules, events);
    var b := Run(NEW, rules, events);
    hide Run;
    assert NamesDepositor(b.entries[index].listing);
  }
}
