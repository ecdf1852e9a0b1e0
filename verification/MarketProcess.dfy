/**
 * The marketplace processor of the indexer: its tables, the checks of each operation in the order they are made, and
 * what it makes of a whole transaction, from the memo and the extension option on.
 */
module MarketProcess {
  import opened Wrappers
  import opened Varint
  import opened Tx
  import opened Marketplace
  import opened MarketLedger
  import I = IndexerParser
  import P = ProtoTypes
  import Urn

  // json.Unmarshal into a list of texts
  datatype Decoder = Decoder(list: Bytes -> Option<seq<string>>)

  // What is looked up elsewhere: the chain that is indexed, the listing made by a transaction, the royalty of the
  // collection an inscription is in, and at the transaction's height what its sender has
  datatype Lookups = Lookups(chainId: string, listings: map<string, nat>, royalties: map<nat, Royalty>,
                             height: nat, balance: nat)

  // ---- what is read from a transaction ----

  // urn.Parse, for URNs without escapes: the name and the rest
  function ReadMemo(memo: string): Option<(string, string)> {
    if |memo| < 4 || memo[..4] != "urn:" then None
    else match Urn.Cut(memo[4..], ':')
      case None => None
      case Some((id, ss)) => if ss != "" && Urn.UrnText(memo) then Some((id, ss)) else None
  }

  // GetSenderAddress: the first address a message comes from
  function SenderOf(msgs: seq<Msg>): Option<string> {
    if msgs == [] then None
    else
      if Origin(msgs[0]) != "" then Some(Origin(msgs[0])) else SenderOf(msgs[1..])
  }

  // The address a message comes from
  function Origin(m: Msg): string {
    match m
    case Send(from, _, _, _) => from
    case IbcTransfer(sender, _, _, _, _) => sender
    case Exec(_, from, _, _, _) => from
    case Grant(granter, _, _, _) => granter
  }

  predicate IsSpace(c: char) {
    c in " \t\n\r"
  }

  function TrimLeft(s: string): string {
    if s != "" && IsSpace(s[0]) then TrimLeft(s[1..]) else s
  }

  function TrimRight(s: string): string {
    if s != "" && IsSpace(s[|s| - 1]) then TrimRight(s[..|s| - 1]) else s
  }

  function TrimSpace(s: string): string {
    TrimRight(TrimLeft(s))
  }

  // The metadata of a MsgRevoke are an object and never read as a list.
  function OptionHashes(d: Decoder, option: ExtensionOption): Option<seq<string>> {
    match option
    case Revoke(_, _, _) => None
    case Extension(value) =>
      match P.WholeExtensionData(P.EncodedExtensionData(value))
      case Err(_) => None
      case Ok(outer) =>
        match P.WholeInscription(outer.data)
        case Err(_) => None
        case Ok(inner) => d.list(inner.metadata)
  }

  // The listings of a deposit or a purchase of tokens: from the URN, or, if it has no pairs, from the first option
  function BatchHashes(d: Decoder, pairs: Option<map<string, string>>, options: seq<ExtensionOption>)
    : Option<seq<string>>
  {
    match pairs
    case Some(kv) => Some(Urn.Split(TrimSpace(I.Get(kv, "h")), ','))
    case None => if options == [] then None else OptionHashes(d, options[0])
  }

  // The listing of a delisting or a purchase of an inscription: from the URN alone
  function OneHash(pairs: Option<map<string, string>>): string {
    TrimSpace(I.Get(pairs.GetOr(map[]), "h"))
  }

  function IndexOf(b: Book, look: Lookups, hash: string): nat {
    if hash in look.listings then look.listings[hash] else |b.entries|
  }

  function Indexes(b: Book, look: Lookups, hashes: seq<string>): seq<nat> {
    seq(|hashes|, k requires 0 <= k < |hashes| => IndexOf(b, look, hashes[k]))
  }

  function RoyaltyOf(b: Book, look: Lookups, index: nat): Option<Royalty> {
    if index < |b.entries| && b.entries[index].goods.Piece? && b.entries[index].goods.inscription in look.royalties
    then Some(look.royalties[b.entries[index].goods.inscription]) else None
  }

  // ---- what a transaction does ----

  // The book afterwards, and whether the operation counts as done
  function Tried(b: Book, rules: Rules, events: seq<Event>): (Book, bool) {
    (Run(b, rules, events), events == [] || AnyGoesThrough(b, rules, events))
  }

  function Single(b: Book, outcome: Result<Book, Reason>): (Book, bool) {
    match outcome
    case Ok(b') => (b', true)
    case Err(_) => (b, false)
  }

  // The operations on listings that are there; those that make one are taken as read.
  function Trade(b: Book, rules: Rules, d: Decoder, look: Lookups, sender: string, p: I.Protocol, tx: TxData)
    : (Book, bool)
  {
    if p.operation == "deposit" then
      match BatchHashes(d, p.pairs, tx.options)
      case None => (b, false)
      case Some(hashes) =>
        Tried(b, rules, DepositEvents(sender, Indexes(b, look, hashes), look.height, look.balance, tx.messages))
    else if p.operation == "buy.cft20" then
      match BatchHashes(d, p.pairs, tx.options)
      case None => (b, false)
      case Some(hashes) => Tried(b, rules, PurchaseEvents(sender, Indexes(b, look, hashes), tx.messages))
    else if p.operation == "buy.inscription" then
      var index := IndexOf(b, look, OneHash(p.pairs));
      Single(b, BuyPiece(b, rules, sender, index, RoyaltyOf(b, look, index), tx.messages))
    else if p.operation == "delist" then
      Single(b, Delist(b, sender, IndexOf(b, look, OneHash(p.pairs)), look.height))
    else (b, false)
  }

  function Process(b: Book, rules: Rules, d: Decoder, look: Lookups, tx: TxData): (Book, bool) {
    var sender, memo := SenderOf(tx.messages), ReadMemo(tx.memo);
    if sender.None? || memo.None? || memo.value.0 != "marketplace" then (b, false)
    else match I.Parse(memo.value.1)
      case None => (b, false)
      case Some(p) =>
        if p.chainId != look.chainId || p.version != "v1" then (b, false)
        else Trade(b, rules, d, look, sender.value, p, tx)
  }

  // ---- what of a transaction counts ----

  // The sender is whoever the first message with an address comes from; the wrapped message counts, not who wraps it.
  lemma {:induction false} SenderExactly(msgs: seq<Msg>, a: string)
    ensures SenderOf(msgs) == Some(a)
       <==> a != "" && exists k :: 0 <= k < |msgs| && Origin(msgs[k]) == a
                                   && forall j :: 0 <= j < k ==> Origin(msgs[j]) == ""
    ensures SenderOf(msgs) == None <==> forall k :: 0 <= k < |msgs| ==> Origin(msgs[k]) == ""
  {
    hide Origin;
    if msgs != [] && Origin(msgs[0]) == "" {
      var rest := msgs[1..];
      SenderExactly(rest, a);
      assert forall k :: 0 <= k < |rest| ==> rest[k] == msgs[k + 1];
      if k :| 0 <= k < |msgs| && Origin(msgs[k]) == a && forall j :: 0 <= j < k ==> Origin(msgs[j]) == "" {
        if a != "" { assert Origin(rest[k - 1]) == a; }
      }
      if k :| 0 <= k < |rest| && Origin(rest[k]) == a && forall j :: 0 <= j < k ==> Origin(rest[j]) == "" {
        assert Origin(msgs[k + 1]) == a;
        forall j | 0 <= j < k + 1 ensures Origin(msgs[j]) == "" { if j > 0 { assert msgs[j] == rest[j - 1]; } }
      }
    }
  }

  lemma OriginExactly(from: string, to: string, bot: string, amount: int, denom: string, channel: string)
    ensures Origin(Send(from, to, amount, denom)) == Origin(IbcTransfer(from, to, channel, amount, denom))
         == Origin(Exec(bot, from, to, amount, denom)) == Origin(Grant(from, bot, amount, denom)) == from
  {}

  ghost predicate AllSpaces(s: string) {
    forall k :: 0 <= k < |s| ==> s[k] == ' ' || s[k] == '\t' || s[k] == '\n' || s[k] == '\r'
  }

  // Only white space is cut off, and all of it, at both ends.
  lemma TrimsExactly(s: string)
    ensures exists a, b :: AllSpaces(a) && AllSpaces(b) && s == a + TrimSpace(s) + b
    ensures TrimSpace(s) != "" ==> !AllSpaces([TrimSpace(s)[0]]) && !AllSpaces([TrimSpace(s)[|TrimSpace(s)| - 1]])
  {
    var a := TrimsLeft(s);
    var b := TrimsRight(TrimLeft(s));
    var t := TrimSpace(s);
    Regroup(a, t, b);
    if t != "" {
      assert TrimLeft(s) == t + b && t[0] == TrimLeft(s)[0];
      SpacesJoin("", t[0]);
      SpacesJoin("", t[|t| - 1]);
      hide AllSpaces, IsSpace, TrimLeft, TrimRight;
      assert "" + [t[0]] == [t[0]] && "" + [t[|t| - 1]] == [t[|t| - 1]];
    }
  }

  lemma SpacesJoin(a: string, c: char)
    ensures AllSpaces("") && (AllSpaces(a) ==> (AllSpaces(a + [c]) <==> IsSpace(c)))
    ensures AllSpaces(a) && IsSpace(c) ==> AllSpaces([c] + a)
  {
    assert (a + [c])[|a|] == c;
  }

  lemma {:induction false} TrimsLeft(s: string) returns (a: string)
    ensures AllSpaces(a) && s == a + TrimLeft(s)
    ensures TrimLeft(s) != "" ==> !IsSpace(TrimLeft(s)[0])
  {
    hide AllSpaces, IsSpace;
    a := "";
    if s != "" && IsSpace(s[0]) {
      var rest := TrimsLeft(s[1..]);
      a := [s[0]] + rest;
      assert s == [s[0]] + s[1..];
      SpacesJoin(rest, s[0]);
      Regroup([s[0]], rest, TrimLeft(s));
    } else {
      SpacesJoin("", 'x');
    }
  }

  lemma {:induction false} TrimsRight(s: string) returns (b: string)
    ensures AllSpaces(b) && s == TrimRight(s) + b
    ensures TrimRight(s) != "" ==> !IsSpace(TrimRight(s)[|TrimRight(s)| - 1])
    decreases |s|
  {
    hide AllSpaces, IsSpace;
    b := "";
    if s != "" && IsSpace(s[|s| - 1]) {
      var rest := TrimsRight(s[..|s| - 1]);
      b := rest + [s[|s| - 1]];
      assert s == s[..|s| - 1] + [s[|s| - 1]];
      SpacesJoin(rest, s[|s| - 1]);
      Regroup(TrimRight(s), rest, [s[|s| - 1]]);
    } else {
      SpacesJoin("", 'x');
    }
  }

  // Only a transaction of the marketplace, for this chain and in version v1, by a sender, does anything.
  lemma OthersDoNothing(b: Book, rules: Rules, d: Decoder, look: Lookups, tx: TxData)
    ensures var done := Process(b, rules, d, look, tx);
      done == (b, false)
      || (exists ss, p :: ReadMemo(tx.memo) == Some(("marketplace", ss)) && I.Parse(ss) == Some(p)
            && p.chainId == look.chainId && p.version == "v1"
            && p.operation in ["deposit", "buy.cft20", "buy.inscription", "delist"])
  {
    hide ReadMemo, I.Parse, SenderOf, BatchHashes, Tried, BuyPiece, Delist, OneHash;
    if Process(b, rules, d, look, tx) != (b, false) {
      var ss := ReadMemo(tx.memo).value.1;
      var p := I.Parse(ss).value;
      assert ReadMemo(tx.memo) == Some(("marketplace", ss));
    }
  }

  // A memo is read exactly if it is a URN of the permitted characters: its name is what stands before the first colon.
  lemma MemoReadsExactly(memo: string, name: string, ss: string)
    ensures ReadMemo(memo) == Some((name, ss))
       <==> memo == "urn:" + name + ":" + ss && ':' !in name && ss != "" && Urn.UrnText(memo)
  {
    if memo == "urn:" + name + ":" + ss && ':' !in name {
      assert memo[4..] == name + ([':'] + ss);
      Urn.CutAt(name, ':', ss);
    }
    if ReadMemo(memo) == Some((name, ss)) {
      assert memo == memo[..4] + memo[4..];
    }
  }

  ghost predicate Did(before: Book, outcome: Result<Book, Reason>, after: Book, error: Option<Reason>) {
    match outcome
    case Ok(b) => error == None && after == b
    case Err(reason) => error == Some(reason) && after == before
  }

  // The marketplace processor over its tables
  class Processor {
    const rules: Rules
    var tokens: seq<Token>
    var holders: seq<Holder>
    var orders: seq<Order>
    var entries: seq<Entry>
    var owners: seq<string>

    constructor (rules: Rules, b: Book)
      ensures Data() == b && this.rules == rules
    {
      this.rules := rules;
      tokens, holders, orders, entries, owners := b.tokens, b.holders, b.orders, b.entries, b.owners;
    }

    function Data(): Book
      reads this
    {
      Book(tokens, holders, orders, entries, owners)
    }

    // deposit, for one hash
    method DepositOn(sender: string, index: nat, height: nat, balance: nat, msgs: seq<Msg>)
      returns (error: Option<Reason>)
      modifies this
      ensures Did(old(Data()), TakeDeposit(old(Data()), sender, index, height, balance, msgs), Data(), error)
    {
      if index >= |entries| {
        return Some(Unknown);
      }
      var e := entries[index];
      var l := e.listing;
      if l.isDeposited {
        if Num(l.timeout) > height {
          return Some(Taken);
        }
      }
      if l.total >= l.depositTotal {
        if balance < l.total - l.depositTotal {
          return Some(NoFunds);
        }
      }
      var amountSent := GetBaseTokensSent(msgs, l.seller);
      if amountSent.None? {
        return Some(NotPaid);
      }
      if amountSent.value < l.depositTotal {
        return Some(NotPaid);
      }
      l := l.(isDeposited := true);
      l := l.(depositor := Some(sender));
      l := l.(timeout := Some(height + e.depositTimeout + 1));
      entries := entries[index := e.(listing := l)];
      return None;
    }

    method SentFee(msgs: seq<Msg>) returns (r: Option<nat>, crashes: bool)
      ensures r == FeeSent(rules, msgs) && crashes == (rules.ibcEnabled && IbcCrashes(msgs))
    {
      crashes := false;
      if rules.ibcEnabled {
        r, crashes := GetBaseTokensSentIBC(msgs, rules.ibcReceiver);
      } else {
        r := GetBaseTokensSent(msgs, rules.ibcReceiver);
      }
    }

    // The end of both purchases: the seller's payment and the fee
    method CheckPayment(l: Listing, amountOwed: int, msgs: seq<Msg>) returns (error: Option<Reason>)
      ensures error == match PaysOwed(rules, l, amountOwed, msgs)
                       case Ok(_) => None
                       case Err(reason) => Some(reason)
    {
      var amountSent := GetBaseTokensSent(msgs, l.seller);
      if amountSent.None? || amountSent.value < amountOwed {
        return Some(NotPaid);
      }
      var crashes;
      amountSent, crashes := SentFee(msgs);
      if crashes {
        CrashFindsNoFee(msgs, rules.ibcReceiver);
        return Some(Crash);
      }
      if amountSent.None? || amountSent.value < RequiredFee(amountOwed, rules.tradeFee) {
        return Some(FeeNotPaid);
      }
      return None;
    }

    // buy.cft20, for one hash
    method BuyCft20(sender: string, index: nat, msgs: seq<Msg>) returns (error: Option<Reason>)
      modifies this
      ensures Did(old(Data()), BuyTokens(old(Data()), rules, sender, index, msgs), Data(), error)
    {
      hide PaysOwed, Credit;
      if index >= |entries| || entries[index].goods.Piece? {
        return Some(Unknown);
      }
      var e := entries[index];
      if !e.listing.isDeposited {
        return Some(NotDeposited);
      }
      if e.listing.depositor != Some(sender) {
        return Some(WrongDepositor);
      }
      var amountOwed := Minus(e.listing.total, e.listing.depositTotal);
      error := CheckPayment(e.listing, amountOwed, msgs);
      if error.Some? {
        return error;
      }
      entries := entries[index := e.(listing := e.listing.(isFilled := true))];
      holders := Credit(holders, e.goods.token, sender, e.goods.amount);
      return None;
    }

    method BuyInscription(sender: string, index: nat, royalty: Option<Royalty>, msgs: seq<Msg>)
      returns (error: Option<Reason>)
      modifies this
      ensures Did(old(Data()), BuyPiece(old(Data()), rules, sender, index, royalty, msgs), Data(), error)
    {
      hide PaysOwed, Trunc, RoyaltyShare;
      if index >= |entries| {
        return Some(Unknown);
      }
      var e := entries[index];
      var l := e.listing;
      if l.isFilled {
        return Some(Closed);
      }
      if l.isCancelled {
        return Some(Closed);
      }
      if e.goods.Tokens? || e.goods.inscription >= |owners| {
        return Some(Unknown);
      }
      if !l.isDeposited {
        return Some(NotDeposited);
      }
      if l.depositor != Some(sender) {
        return Some(WrongDepositor);
      }
      var amountOwed := Minus(l.total, l.depositTotal);
      if royalty.Some? && royalty.value.percentage > 0.0 {
        if royalty.value.recipient != l.seller {
          var expectedRoyalty := Trunc(RoyaltyShare(l, royalty.value));
          var royaltySent := GetBaseTokensSent(msgs, royalty.value.recipient);
          if royaltySent.None? || royaltySent.value < expectedRoyalty {
            return Some(RoyaltyNotPaid);
          }
          amountOwed := Minus(amountOwed, expectedRoyalty);
        }
      }
      error := CheckPayment(l, amountOwed, msgs);
      if error.Some? {
        return error;
      }
      entries := entries[index := e.(listing := l.(isFilled := true))];
      owners := owners[e.goods.inscription := sender];
      return None;
    }

    method DelistEntry(sender: string, index: nat, height: nat) returns (error: Option<Reason>)
      modifies this
      ensures Did(old(Data()), Delist(old(Data()), sender, index, height), Data(), error)
    {
      hide Credit;
      if index >= |entries| {
        return Some(Unknown);
      }
      var e := entries[index];
      var l := e.listing;
      if l.seller != sender {
        return Some(NotSeller);
      }
      if l.isDeposited {
        if Num(l.timeout) > height {
          return Some(Taken);
        }
      }
      if l.isFilled {
        return Some(Closed);
      }
      if l.isCancelled {
        return Some(Closed);
      }
      l := l.(isDeposited := false);
      l := l.(depositor := Some(""));
      l := l.(timeout := Some(0));
      l := l.(isCancelled := true);
      entries := entries[index := e.(listing := l)];
      match e.goods {
        case Tokens(token, amount) =>
          holders := Credit(holders, token, sender, amount);
        case Piece(inscription) =>
          if inscription < |owners| {
            owners := owners[inscription := sender];
          }
      }
      return None;
    }

    // All hashes of a deposit are tried; it fails, with the last reason, only if none goes through.
    method ProcessDeposit(sender: string, hashes: seq<nat>, height: nat, balance: nat, msgs: seq<Msg>)
      returns (error: Option<Reason>)
      modifies this
      ensures Data() == Run(old(Data()), rules, DepositEvents(sender, hashes, height, balance, msgs))
      ensures error == None <==>
        hashes == [] || AnyGoesThrough(old(Data()), rules, DepositEvents(sender, hashes, height, balance, msgs))
    {
      ghost var events := DepositEvents(sender, hashes, height, balance, msgs);
      ghost var b0 := Data();
      error := None;
      var success := false;
      hide TakeDeposit, BuyTokens, Run, AnyGoesThrough, Outcome;
      Through(b0, rules, events, 0);
      for i := 0 to |hashes|
        invariant Data() == Run(b0, rules, events[..i])
        invariant success <==> AnyGoesThrough(b0, rules, events[..i])
        invariant i > 0 && !success ==> error.Some?
        invariant i == 0 ==> error == None
      {
        error := DepositOn(sender, hashes[i], height, balance, msgs);
        OutcomeIsDeposit(Run(b0, rules, events[..i]), rules, sender, hashes[i], height, balance, msgs);
        Through(b0, rules, events, i);
        if error.None? {
          success := true;
        }
      }
      assert events[..|hashes|] == events;
      if success {
        error := None;
      }
    }

    // The same for a purchase of tokens
    method ProcessBuyCft20(sender: string, hashes: seq<nat>, msgs: seq<Msg>) returns (error: Option<Reason>)
      modifies this
      ensures Data() == Run(old(Data()), rules, PurchaseEvents(sender, hashes, msgs))
      ensures error == None <==>
        hashes == [] || AnyGoesThrough(old(Data()), rules, PurchaseEvents(sender, hashes, msgs))
    {
      ghost var events := PurchaseEvents(sender, hashes, msgs);
      ghost var b0 := Data();
      error := None;
      var success := false;
      hide TakeDeposit, BuyTokens, Run, AnyGoesThrough, Outcome;
      Through(b0, rules, events, 0);
      for i := 0 to |hashes|
        invariant Data() == Run(b0, rules, events[..i])
        invariant success <==> AnyGoesThrough(b0, rules, events[..i])
        invariant i > 0 && !success ==> error.Some?
        invariant i == 0 ==> error == None
      {
        error := BuyCft20(sender, hashes[i], msgs);
        OutcomeIsPurchase(Run(b0, rules, events[..i]), rules, sender, hashes[i], msgs);
        Through(b0, rules, events, i);
        if error.None? {
          success := true;
        }
      }
      assert events[..|hashes|] == events;
      if success {
        error := None;
      }
    }

    // The transaction's memo is a URN of this processor's name.
    method ProcessTransaction(d: Decoder, look: Lookups, ss: string, tx: TxData) returns (error: Option<Reason>)
      requires ReadMemo(tx.memo) == Some(("marketplace", ss))
      modifies this
      ensures (Data(), error == None) == Process(old(Data()), rules, d, look, tx)
    {
      hide Run, AnyGoesThrough, BuyPiece, Delist, I.Parse, BatchHashes, TrimSpace, ReadMemo;
      var sender := SenderOf(tx.messages);
      if sender.None? {
        return Some(Misread);
      }
      var parsedURN := I.ParseProtocolString(ss);
      if parsedURN.None? {
        return Some(Misread);
      }
      var p := parsedURN.value;
      if p.chainId != look.chainId {
        return Some(Misread);
      }
      if p.version != "v1" {
        return Some(Misread);
      }
      if p.operation == "deposit" {
        var hashes := BatchHashes(d, p.pairs, tx.options);
        if hashes.None? {
          return Some(Misread);
        }
        error := ProcessDeposit(sender.value, Indexes(Data(), look, hashes.value), look.height, look.balance,
                                tx.messages);
      } else if p.operation == "buy.cft20" {
        var hashes := BatchHashes(d, p.pairs, tx.options);
        if hashes.None? {
          return Some(Misread);
        }
        error := ProcessBuyCft20(sender.value, Indexes(Data(), look, hashes.value), tx.messages);
      } else if p.operation == "buy.inscription" {
        var index := IndexOf(Data(), look, OneHash(p.pairs));
        error := BuyInscription(sender.value, index, RoyaltyOf(Data(), look, index), tx.messages);
      } else if p.operation == "delist" {
        error := DelistEntry(sender.value, IndexOf(Data(), look, OneHash(p.pairs)), look.height);
      } else {
        return Some(Misread);
      }
    }
  }
}
