/**
 * From the client to the tables: what the indexer makes of a whole transaction the client built, from reading which
 * listings it names to the listings that are filled or deposited on.
 */
module Delivery {
  import opened Wrappers
  import opened Varint
  import opened Numbers
  import opened Tx
  import opened Operations
  import opened Marketplace
  import opened MarketplaceProperties
  import opened MarketLedger
  import opened MarketMoves
  import opened MarketProcess
  import opened Settlement
  import I = IndexerParser
  import P = ProtoTypes
  import Urn

  // ---- what a batch does to the listings ----

  // A listing a purchase goes through on; that it is filled already makes no difference.
  predicate Fills(rules: Rules, sender: string, e: Entry, msgs: seq<Msg>) {
    && e.goods.Tokens? && e.listing.isDeposited && e.listing.depositor == Some(sender)
    && PaysForTokens(rules, e.listing, msgs).Ok?
  }

  function FilledEntry(e: Entry): Entry {
    e.(listing := e.listing.(isFilled := true))
  }

  lemma FilledStillFills(rules: Rules, sender: string, e: Entry, msgs: seq<Msg>)
    ensures Fills(rules, sender, FilledEntry(e), msgs) == Fills(rules, sender, e, msgs)
  {
    hide BankSent, FeeSent, RequiredFee;
  }

  lemma OnePurchaseFills(b: Book, rules: Rules, sender: string, index: nat, msgs: seq<Msg>)
    ensures var b' := Apply(b, rules, Event(sender, OpBuyTokens(index), msgs));
      && |b'.entries| == |b.entries|
      && forall i :: 0 <= i < |b.entries| ==>
           b'.entries[i] == if i == index && Fills(rules, sender, b.entries[i], msgs) then FilledEntry(b.entries[i])
                            else b.entries[i]
  {
    OutcomeIsPurchase(b, rules, sender, index, msgs);
    hide PaysForTokens, Credit;
  }

  // What of a token the purchases that go through hand out, each time a listing is named
  function Bought(rules: Rules, sender: string, entries: seq<Entry>, indexes: seq<nat>, msgs: seq<Msg>, t: nat): int
    decreases indexes
  {
    if indexes == [] then 0
    else (if indexes[0] < |entries| && Fills(rules, sender, entries[indexes[0]], msgs)
          then Offered(entries[indexes[0]], t) else 0)
         + Bought(rules, sender, entries, indexes[1..], msgs, t)
  }

  // A batch of purchases fills exactly the listings it names that a purchase goes through on, in whatever order and
  // however often it names them.
  lemma {:induction false} PurchasesFill(b: Book, rules: Rules, sender: string, indexes: seq<nat>, msgs: seq<Msg>)
    ensures var b' := Run(b, rules, PurchaseEvents(sender, indexes, msgs));
      && |b'.entries| == |b.entries|
      && forall i :: 0 <= i < |b.entries| ==>
           b'.entries[i] == if i in indexes && Fills(rules, sender, b.entries[i], msgs) then FilledEntry(b.entries[i])
                            else b.entries[i]
    decreases |indexes|
  {
    hide Apply, Fills;
    var events := PurchaseEvents(sender, indexes, msgs);
    if indexes != [] {
      var b1, rest := Apply(b, rules, events[0]), indexes[1..];
      assert events[1..] == PurchaseEvents(sender, rest, msgs);
      OnePurchaseFills(b, rules, sender, indexes[0], msgs);
      PurchasesFill(b1, rules, sender, rest, msgs);
      forall i | 0 <= i < |b.entries| ensures Fills(rules, sender, b1.entries[i], msgs)
                                           == Fills(rules, sender, b.entries[i], msgs)
      {
        FilledStillFills(rules, sender, b.entries[i], msgs);
      }
      assert forall i :: i in indexes <==> i == indexes[0] || i in rest;
    }
  }

  // The operation counts as done exactly if it goes through on one of them, or names none at all.
  lemma {:induction false} PurchasesCount(b: Book, rules: Rules, sender: string, indexes: seq<nat>, msgs: seq<Msg>)
    ensures AnyGoesThrough(b, rules, PurchaseEvents(sender, indexes, msgs))
       <==> exists i :: i in indexes && i < |b.entries| && Fills(rules, sender, b.entries[i], msgs)
    ensures Tried(b, rules, PurchaseEvents(sender, indexes, msgs)).1
       <==> indexes == []
            || exists i :: i in indexes && i < |b.entries| && Fills(rules, sender, b.entries[i], msgs)
    decreases |indexes|
  {
    hide Fills, Run, BuyTokens;
    var events := PurchaseEvents(sender, indexes, msgs);
    if indexes != [] {
      assert events[1..] == PurchaseEvents(sender, indexes[1..], msgs);
      PurchaseIsTaken(b, rules, sender, indexes[0], msgs);
      assert forall i :: i in indexes <==> i == indexes[0] || i in indexes[1..];
      PurchasesCount(b, rules, sender, indexes[1..], msgs);
    }
  }

  lemma PurchaseIsTaken(b: Book, rules: Rules, sender: string, index: nat, msgs: seq<Msg>)
    ensures Outcome(b, rules, Event(sender, OpBuyTokens(index), msgs)).Ok?
       <==> index < |b.entries| && Fills(rules, sender, b.entries[index], msgs)
  {
    OutcomeIsPurchase(b, rules, sender, index, msgs);
    hide PaysForTokens, Credit;
  }

  // What they offer goes to the sender, and no other balance changes.
  lemma {:induction false} PurchasesPay(b: Book, rules: Rules, sender: string, indexes: seq<nat>, msgs: seq<Msg>,
                                        t: nat, a: string)
    ensures var b' := Run(b, rules, PurchaseEvents(sender, indexes, msgs));
      Has(b', t, a) == Has(b, t, a) + if a == sender then Bought(rules, sender, b.entries, indexes, msgs, t) else 0
    decreases |indexes|
  {
    hide Apply, Fills, Has;
    var events := PurchaseEvents(sender, indexes, msgs);
    if indexes != [] {
      var b1, rest := Apply(b, rules, events[0]), indexes[1..];
      assert events[1..] == PurchaseEvents(sender, rest, msgs);
      OnePurchaseFills(b, rules, sender, indexes[0], msgs);
      OnePurchasePays(b, rules, sender, indexes[0], msgs, t, a);
      PurchasesPay(b1, rules, sender, rest, msgs, t, a);
      forall i | 0 <= i < |b.entries|
        ensures Fills(rules, sender, b1.entries[i], msgs) == Fills(rules, sender, b.entries[i], msgs)
      {
        FilledStillFills(rules, sender, b.entries[i], msgs);
      }
      BoughtTheSame(rules, sender, b.entries, b1.entries, rest, msgs, t);
    }
  }

  lemma OnePurchasePays(b: Book, rules: Rules, sender: string, index: nat, msgs: seq<Msg>, t: nat, a: string)
    ensures var b' := Apply(b, rules, Event(sender, OpBuyTokens(index), msgs));
      Has(b', t, a)
      == Has(b, t, a)
         + if a == sender && index < |b.entries| && Fills(rules, sender, b.entries[index], msgs)
           then Offered(b.entries[index], t) else 0
  {
    var e := Event(sender, OpBuyTokens(index), msgs);
    OutcomeIsPurchase(b, rules, sender, index, msgs);
    if Outcome(b, rules, e).Ok? { BalancesMove(b, rules, e, t, a); }
    hide PaysForTokens, Credit, Has;
  }

  lemma {:induction false} BoughtTheSame(rules: Rules, sender: string, entries: seq<Entry>, later: seq<Entry>,
                                         indexes: seq<nat>, msgs: seq<Msg>, t: nat)
    requires |entries| == |later|
    requires forall i :: 0 <= i < |entries| ==>
      && Fills(rules, sender, later[i], msgs) == Fills(rules, sender, entries[i], msgs)
      && later[i].goods == entries[i].goods
    ensures Bought(rules, sender, later, indexes, msgs, t) == Bought(rules, sender, entries, indexes, msgs, t)
    decreases |indexes|
  {
    hide Fills;
    if indexes != [] { BoughtTheSame(rules, sender, entries, later, indexes[1..], msgs, t); }
  }

  // A listing a deposit goes through on
  predicate TakesDeposit(e: Entry, height: nat, balance: nat, msgs: seq<Msg>) {
    var l := e.listing;
    && !IsHeld(l, height) && (l.total >= l.depositTotal ==> balance >= l.total - l.depositTotal)
    && BankSent(msgs, l.seller).Some? && BankSent(msgs, l.seller).value >= l.depositTotal
  }

  function DepositedEntry(e: Entry, sender: string, height: nat): Entry {
    e.(listing := e.listing.(isDeposited := true, depositor := Some(sender),
                             timeout := Some(height + e.depositTimeout + 1)))
  }

  lemma OneDepositLands(b: Book, rules: Rules, sender: string, index: nat, height: nat, balance: nat, msgs: seq<Msg>)
    ensures var b' := Apply(b, rules, Event(sender, OpDeposit(index, height, balance), msgs));
      && |b'.entries| == |b.entries|
      && forall i :: 0 <= i < |b.entries| ==>
           b'.entries[i] == if i == index && TakesDeposit(b.entries[i], height, balance, msgs)
                            then DepositedEntry(b.entries[i], sender, height) else b.entries[i]
  {
    OutcomeIsDeposit(b, rules, sender, index, height, balance, msgs);
    hide BankSent;
  }

  // A batch of deposits lands on exactly the listings it names that a deposit goes through on, once on each.
  lemma {:induction false} DepositsLand(b: Book, rules: Rules, sender: string, indexes: seq<nat>, height: nat,
                                        balance: nat, msgs: seq<Msg>)
    ensures var b' := Run(b, rules, DepositEvents(sender, indexes, height, balance, msgs));
      && |b'.entries| == |b.entries|
      && forall i :: 0 <= i < |b.entries| ==>
           b'.entries[i] == if i in indexes && TakesDeposit(b.entries[i], height, balance, msgs)
                            then DepositedEntry(b.entries[i], sender, height) else b.entries[i]
    decreases |indexes|
  {
    hide Apply, BankSent;
    var events := DepositEvents(sender, indexes, height, balance, msgs);
    if indexes != [] {
      var b1, rest := Apply(b, rules, events[0]), indexes[1..];
      assert events[1..] == DepositEvents(sender, rest, height, balance, msgs);
      OneDepositLands(b, rules, sender, indexes[0], height, balance, msgs);
      DepositsLand(b1, rules, sender, rest, height, balance, msgs);
      forall i | 0 <= i < |b.entries| && b1.entries[i] != b.entries[i]
        ensures !TakesDeposit(b1.entries[i], height, balance, msgs) {}
      assert forall i :: i in indexes <==> i == indexes[0] || i in rest;
    }
  }

  lemma {:induction false} DepositsCount(b: Book, rules: Rules, sender: string, indexes: seq<nat>, height: nat,
                                         balance: nat, msgs: seq<Msg>)
    ensures AnyGoesThrough(b, rules, DepositEvents(sender, indexes, height, balance, msgs))
       <==> exists i :: i in indexes && i < |b.entries| && TakesDeposit(b.entries[i], height, balance, msgs)
    ensures Tried(b, rules, DepositEvents(sender, indexes, height, balance, msgs)).1
       <==> indexes == []
            || exists i :: i in indexes && i < |b.entries| && TakesDeposit(b.entries[i], height, balance, msgs)
    decreases |indexes|
  {
    hide TakesDeposit, Run, TakeDeposit;
    var events := DepositEvents(sender, indexes, height, balance, msgs);
    if indexes != [] {
      assert events[1..] == DepositEvents(sender, indexes[1..], height, balance, msgs);
      DepositIsTaken(b, rules, sender, indexes[0], height, balance, msgs);
      assert forall i :: i in indexes <==> i == indexes[0] || i in indexes[1..];
      DepositsCount(b, rules, sender, indexes[1..], height, balance, msgs);
    }
  }

  lemma DepositIsTaken(b: Book, rules: Rules, sender: string, index: nat, height: nat, balance: nat, msgs: seq<Msg>)
    ensures Outcome(b, rules, Event(sender, OpDeposit(index, height, balance), msgs)).Ok?
       <==> index < |b.entries| && TakesDeposit(b.entries[index], height, balance, msgs)
  {
    OutcomeIsDeposit(b, rules, sender, index, height, balance, msgs);
    hide BankSent;
  }

  // ---- what the indexer reads ----

  // A transaction hash
  predicate IsHash(h: string) {
    h != "" && forall k :: 0 <= k < |h| ==> '0' <= h[k] <= '9' || 'A' <= h[k] <= 'F' || 'a' <= h[k] <= 'f'
  }

  predicate IsChainId(s: string) {
    forall k :: 0 <= k < |s| ==> '0' <= s[k] <= '9' || 'A' <= s[k] <= 'Z' || 'a' <= s[k] <= 'z' || s[k] == '-'
  }

  // JSON of a list of hashes reads back as that list.
  ghost predicate ReadsBack(e: Encoder, d: Decoder) {
    forall hashes :: d.list(e.json(Hashes(hashes))) == Some(hashes)
  }

  // The listings the client sees are those of the tables.
  ghost predicate Indexed(b: Book, look: Lookups, service: Service) {
    && (forall h :: h in look.listings ==> IsHash(h))
    && forall h :: h in service ==>
         && h in look.listings && look.listings[h] < |b.entries| && b.entries[look.listings[h]].listing == service[h]
  }

  predicate SameChain(m: Market, look: Lookups) {
    IsChainId(m.chainId) && look.chainId == m.chainId && m.base.address != ""
  }

  function ListData(hashes: seq<string>): InscriptionData {
    InscriptionData(Hashes(hashes), None, None, None)
  }

  // The extension option of a batch
  function ListOption(e: Encoder, m: Market, hashes: seq<string>): P.ExtensionData {
    GetExtensionData(e, TxInscription(m.base.protocolName, m.base.protocolVersion, "", Some(ListData(hashes)),
                                      TxFee(m.base.fee, ""), None), ListData(hashes))
  }

  // No field of it reaches 2^32 bytes.
  predicate OptionFits(e: Encoder, m: Market, hashes: seq<string>) {
    var value := ListOption(e, m, hashes);
    |value.protocolId| < UINT32 && |value.protocolVersion| < UINT32 && |value.data| < UINT32
  }

  predicate UsesExtension(m: Market) {
    m.base.useExtensionData != Given(false)
  }

  // What the client's batch operations have in common
  ghost predicate IsTrade(e: Encoder, m: Market, operation: string, hashes: seq<string>, messages: seq<Msg>, tx: TxData)
  {
    && tx.memo == Urn.BuildUrn(TradeUrn(m.chainId, operation, hashes))
    && messages <= tx.messages
    && if |hashes| == 1 then tx.options == []
       else |tx.options| == 1 && if UsesExtension(m) then tx.options[0] == Extension(ListOption(e, m, hashes))
                                 else tx.options[0].Revoke?
  }

  lemma TradeIsBuilt(e: Encoder, m: Market, operation: string, hashes: seq<string>, fee: Option<string>,
                     messages: seq<Msg>)
    ensures var out := PrepareOperation(e, m.base, BuildOperation(m, operation, HashParam(NamedInUrn(hashes))),
                                        NamedInData(hashes), fee, Some(messages));
      var tx := Submit(e, m.base, out);
      tx.Ok? && IsTrade(e, m, operation, hashes, messages, tx.value)
  {
    var op := BuildOperation(m, operation, HashParam(NamedInUrn(hashes)));
    var x := AsInscription(m.base, op, NamedInData(hashes), fee, Some(messages));
    var o := PrepareTxOptions(PassOn(m.base.useIbc), PassOn(m.base.useExtensionData));
    OneInscription(e, m.base.address, x.urn, x, o);
    hide Prepared, ParseInt, Appended, Urn.BuildUrn, P.EncodedInscription, HashParam;
  }

  function TradeUrn(chainId: string, operation: string, hashes: seq<string>): Urn.Urn {
    Urn.Urn("marketplace", chainId, "v1", operation, HashParam(NamedInUrn(hashes)))
  }

  function TradePairs(hashes: seq<string>): Option<map<string, string>> {
    if |hashes| == 1 then Some(map["h" := hashes[0]]) else None
  }

  lemma MemoIsRead(chainId: string, operation: string, hashes: seq<string>)
    requires IsChainId(chainId) && operation in ["deposit", "buy.cft20", "buy.inscription", "delist"]
    requires hashes != [] && forall k :: 0 <= k < |hashes| ==> IsHash(hashes[k])
    ensures var u := TradeUrn(chainId, operation, hashes);
      && ReadMemo(Urn.BuildUrn(u)) == Some(("marketplace", I.SpecificText(u)))
      && I.Parse(I.SpecificText(u)) == Some(I.Protocol(chainId, "v1", operation, TradePairs(hashes)))
  {
    var u := TradeUrn(chainId, operation, hashes);
    OneParamOrNone(hashes);
    TradeIsReadable(chainId, operation, u.params);
    I.IndexerReadsExactly(u);
    MemoIsCut(u);
    hide I.Parse, I.SpecificText, Urn.BuildUrn, ReadMemo, I.Readable, HashParam;
    if u.params != [] { OnePair(u, I.Parse(I.SpecificText(u)), hashes[0]); }
  }

  lemma OneParamOrNone(hashes: seq<string>)
    requires hashes != [] && forall k :: 0 <= k < |hashes| ==> IsHash(hashes[k])
    ensures HashParam(NamedInUrn(hashes)) == if |hashes| == 1 then [("h", hashes[0])] else []
  {}

  lemma OnePair(u: Urn.Urn, p: Option<I.Protocol>, hash: string)
    requires u.params == [("h", hash)] && I.Recovers(u, p)
    ensures p.value.pairs == Some(map["h" := hash])
  {
    var pairs := p.value.pairs.value;
    assert u.params[0].0 in pairs && pairs[u.params[0].0] == u.params[0].1;
    forall key | key in pairs ensures key == "h" {
      var k :| 0 <= k < |u.params| && u.params[k].0 == key;
    }
    assert pairs == map["h" := hash];
  }

  lemma TradeIsReadable(chainId: string, operation: string, params: seq<Urn.Param>)
    requires IsChainId(chainId) && operation in ["deposit", "buy.cft20", "buy.inscription", "delist"]
    requires params == [] || (|params| == 1 && params[0].0 == "h" && IsHash(params[0].1))
    ensures var u := Urn.Urn("marketplace", chainId, "v1", operation, params);
      I.Readable(u) && Urn.UrnText(Urn.BuildUrn(u)) && ':' !in u.name
  {
    var u := Urn.Urn("marketplace", chainId, "v1", operation, params);
    Urn.UrnStaysInCharset(u);
    ChainIdIsClean(chainId);
    OperationIsClean(operation);
    if params != [] { HashIsClean(params[0].1); }
    hide IsHash, IsChainId, Urn.UrnText, Urn.BuildUrn;
    if params != [] {
      assert I.ReadableParam(params[0]) by { KeyIsClean(); }
      KeyIsClean();
    }
    hide I.ReadableParam;
  }

  lemma KeyIsClean()
    ensures ';' !in "h" && '$' !in "h" && '=' !in "h" && ',' !in "h" && Urn.UrnText("h")
  {
    WordIsClean("h");
  }

  // Small letters, digits and points
  lemma WordIsClean(s: string)
    requires forall k :: 0 <= k < |s| ==> 'a' <= s[k] <= 'z' || '0' <= s[k] <= '9' || s[k] == '.'
    ensures ';' !in s && '$' !in s && '@' !in s && ':' !in s && '=' !in s && ',' !in s && Urn.UrnText(s)
  {}

  lemma OperationIsClean(operation: string)
    requires operation in ["deposit", "buy.cft20", "buy.inscription", "delist"]
    ensures ';' !in operation && '$' !in operation && Urn.UrnText(operation)
    ensures ';' !in "v1" && '@' !in "v1" && Urn.UrnText("v1")
    ensures ':' !in "marketplace" && Urn.UrnText("marketplace")
  {
    WordIsClean(operation);
    WordIsClean("v1");
    WordIsClean("marketplace");
    hide Urn.UrnText;
  }

  lemma ChainIdIsClean(s: string)
    requires IsChainId(s)
    ensures ';' !in s && '@' !in s && Urn.UrnText(s)
  {}

  lemma HashIsClean(s: string)
    requires IsHash(s)
    ensures ';' !in s && '$' !in s && '=' !in s && ',' !in s && Urn.UrnText(s)
  {}

  lemma MemoIsCut(u: Urn.Urn)
    requires ':' !in u.name && Urn.UrnText(Urn.BuildUrn(u))
    ensures ReadMemo(Urn.BuildUrn(u)) == Some((u.name, I.SpecificText(u)))
  {
    var ss := I.SpecificText(u);
    assert Urn.BuildUrn(u) == "urn:" + (u.name + ([':'] + ss));
    assert Urn.BuildUrn(u)[4..] == u.name + ([':'] + ss);
    Urn.CutAt(u.name, ':', ss);
    hide I.SpecificText, Urn.BuildUrn;
    assert ss != "" by { SpecificTextIsNotEmpty(u); }
  }

  lemma SpecificTextIsNotEmpty(u: Urn.Urn)
    ensures I.SpecificText(u) != ""
  {}

  lemma HashIsWhole(h: string)
    requires IsHash(h)
    ensures Urn.Split(TrimSpace(h), ',') == [h] && TrimSpace(h) == h
  {
    assert !IsSpace(h[0]) && !IsSpace(h[|h| - 1]);
    I.SplitWhole(h, ',');
  }

  lemma OptionIsRead(e: Encoder, d: Decoder, m: Market, hashes: seq<string>)
    requires ReadsBack(e, d) && OptionFits(e, m, hashes)
    ensures OptionHashes(d, Extension(ListOption(e, m, hashes))) == Some(hashes)
  {
    var x := TxInscription(m.base.protocolName, m.base.protocolVersion, "", Some(ListData(hashes)),
                           TxFee(m.base.fee, ""), None);
    ExtensionCarriesInscription(e, x);
    hide P.WholeInscription, P.WholeExtensionData, P.EncodedExtensionData, P.EncodedInscription;
  }

  // The indexer reads the listings of a batch exactly as they were named: always a single one, several only from
  // extension data.
  lemma HashesAreRead(e: Encoder, d: Decoder, m: Market, operation: string, hashes: seq<string>, messages: seq<Msg>,
                      tx: TxData)
    requires ReadsBack(e, d) && IsTrade(e, m, operation, hashes, messages, tx)
    requires hashes != [] && forall k :: 0 <= k < |hashes| ==> IsHash(hashes[k])
    requires |hashes| > 1 && UsesExtension(m) ==> OptionFits(e, m, hashes)
    ensures BatchHashes(d, TradePairs(hashes), tx.options)
         == if |hashes| == 1 || UsesExtension(m) then Some(hashes) else None
  {
    hide OptionFits, OptionHashes, TrimSpace, ListOption, Urn.Split;
    if |hashes| == 1 {
      HashIsWhole(hashes[0]);
      assert hashes == [hashes[0]];
    } else if UsesExtension(m) {
      OptionIsRead(e, d, m, hashes);
    } else {
      RevokeIsNotRead(d, tx.options[0]);
    }
  }

  lemma RevokeIsNotRead(d: Decoder, option: ExtensionOption)
    requires option.Revoke?
    ensures OptionHashes(d, option) == None
  {}

  // ---- from the client to the tables ----

  lemma TradeIsProcessed(b: Book, rules: Rules, e: Encoder, d: Decoder, look: Lookups, m: Market, operation: string,
                         hashes: seq<string>, messages: seq<Msg>, tx: TxData)
    requires SameChain(m, look) && IsTrade(e, m, operation, hashes, messages, tx)
    requires operation in ["deposit", "buy.cft20", "buy.inscription", "delist"]
    requires hashes != [] && forall k :: 0 <= k < |hashes| ==> IsHash(hashes[k])
    requires messages != [] && messages[0].Send? && messages[0].from == m.base.address
    ensures Process(b, rules, d, look, tx)
         == Trade(b, rules, d, look, m.base.address,
                  I.Protocol(m.chainId, "v1", operation, TradePairs(hashes)), tx)
  {
    assert tx.messages[0] == messages[0];
    NamedIsProcessed(b, rules, d, look, m, operation, hashes, tx);
  }

  lemma NamedIsProcessed(b: Book, rules: Rules, d: Decoder, look: Lookups, m: Market, operation: string,
                         hashes: seq<string>, tx: TxData)
    requires SameChain(m, look) && tx.memo == Urn.BuildUrn(TradeUrn(m.chainId, operation, hashes))
    requires operation in ["deposit", "buy.cft20", "buy.inscription", "delist"]
    requires hashes != [] && forall k :: 0 <= k < |hashes| ==> IsHash(hashes[k])
    requires tx.messages != [] && Origin(tx.messages[0]) == m.base.address
    ensures Process(b, rules, d, look, tx)
         == Trade(b, rules, d, look, m.base.address,
                  I.Protocol(m.chainId, "v1", operation, TradePairs(hashes)), tx)
  {
    MemoIsRead(m.chainId, operation, hashes);
    hide Trade, ReadMemo, I.Parse, I.SpecificText, Urn.BuildUrn, HashParam, ListOption;
  }

  // What the tables must hold for a batch of tokens: every listing it takes, as it was seen
  ghost predicate TokensListed(b: Book, rules: Rules, look: Lookups, service: Service, hashes: seq<string>) {
    forall h :: h in hashes && h in service && h in look.listings && look.listings[h] < |b.entries| ==>
      && IsStored(service[h]) && service[h].seller != rules.ibcReceiver
      && b.entries[look.listings[h]].goods.Tokens?
  }

  // The indexer can read which listings a transaction names.
  predicate IsReadable(m: Market, hashes: seq<string>) {
    |hashes| == 1 || UsesExtension(m)
  }

  ghost predicate FitsIfRead(e: Encoder, m: Market, hashes: seq<string>) {
    |hashes| > 1 && UsesExtension(m) ==> OptionFits(e, m, hashes)
  }

  // Only listings with these hashes differ.
  ghost predicate OthersStay(b: Book, b': Book, look: Lookups, hashes: seq<string>) {
    && |b'.entries| == |b.entries|
    && forall i :: 0 <= i < |b.entries| && i !in Places(look, hashes) ==> b'.entries[i] == b.entries[i]
  }

  function Places(look: Lookups, hashes: seq<string>): set<nat> {
    set h | h in hashes && h in look.listings :: look.listings[h]
  }

  // Batches of tokens, end to end: of a transaction the client built for any batch, the indexer fills a listing exactly
  // if it can read what the transaction names, the fee goes the right way, the deposit is not above the price, and no
  // more is due than for the first listing in the batch of the same seller. No other listing changes.
  lemma BatchIsFilledExactly(b: Book, rules: Rules, e: Encoder, d: Decoder, look: Lookups, m: Market, service: Service,
                             height: Option<int>, hashes: seq<string>, accepted: seq<string>, k: nat, tx: TxData)
    requires SameChain(m, look) && ReadsBack(e, d) && Indexed(b, look, service)
    requires OperationName(Cft20) in m.fees
    requires m.fees[OperationName(Cft20)].percent == Some(rules.tradeFee) && 0.0 <= rules.tradeFee <= 1.0
    requires accepted == Accepted(service, m.base.address, height, hashes) && k < |accepted|
    requires TotalDue(service, accepted) < BIGINT
    requires TokensListed(b, rules, look, service, accepted) && FitsIfRead(e, m, accepted)
    requires Submit(e, m.base, BuyOutput(e, m, BuyFrom(service, m.base.address, height, hashes, [], 0), Cft20))
          == Ok(tx)
    ensures forall h :: h in accepted ==> h in service
    ensures var b', l := Process(b, rules, d, look, tx).0, service[accepted[k]];
      && OthersStay(b, b', look, accepted)
      && (b'.entries[look.listings[accepted[k]]].listing.isFilled
          <==> && IsReadable(m, accepted) && FeeArrives(rules, m) && l.depositTotal <= l.total
               && Due(l) <= Due(service[accepted[FirstOfSeller(service, accepted, k)]]))
  {
    var me := m.base.address;
    var batch := BuyFrom(service, me, height, hashes, [], 0);
    BatchIsAccepted(service, me, height, hashes, [], 0);
    assert hashes[0..] == hashes;
    AcceptedAreLive(service, me, height, hashes);
    PlainBatch(service, me, height, hashes, 0);
    assert batch.messages != [] && batch.messages[0].Send? && batch.messages[0].from == me;
    BatchIsBuilt(e, m, batch, tx);
    BatchSettlesExactly(rules, e, m, service, height, hashes, k);
    hide BuyFrom, BuyOutput, Submit, Accepted, PaysForTokens, FeeArrives, TotalDue, Due, FirstOfSeller, Process,
         PaysInOrder,
         FitsIfRead, IsTrade, IsStored, OthersStay, Run;
    TokensAreProcessed(b, rules, e, d, look, m, service, accepted, k, batch.messages, tx);
  }

  // What the listings up to k of a batch hand out of a token, if those that settle are filled
  function Handed(b: Book, look: Lookups, rules: Rules, m: Market, service: Service, hashes: seq<string>, k: nat,
                  t: nat): int
    requires k <= |hashes| && forall h :: h in hashes ==>
      h in service && h in look.listings && look.listings[h] < |b.entries|
  {
    if k == 0 then 0
    else
      var l := service[hashes[k - 1]];
      Handed(b, look, rules, m, service, hashes, k - 1, t)
      + if IsReadable(m, hashes) && FeeArrives(rules, m) && l.depositTotal <= l.total
           && Due(l) <= Due(service[hashes[FirstOfSeller(service, hashes, k - 1)]])
        then Offered(b.entries[look.listings[hashes[k - 1]]], t) else 0
  }

  // Whoever bought gets what the filled listings offer, and nobody else's balance of any token changes.
  lemma BatchPaysOutExactly(b: Book, rules: Rules, e: Encoder, d: Decoder, look: Lookups, m: Market, service: Service,
                            height: Option<int>, hashes: seq<string>, accepted: seq<string>, tx: TxData,
                            t: nat, a: string)
    requires SameChain(m, look) && ReadsBack(e, d) && Indexed(b, look, service)
    requires OperationName(Cft20) in m.fees
    requires m.fees[OperationName(Cft20)].percent == Some(rules.tradeFee) && 0.0 <= rules.tradeFee <= 1.0
    requires accepted == Accepted(service, m.base.address, height, hashes) && accepted != []
    requires TotalDue(service, accepted) < BIGINT
    requires TokensListed(b, rules, look, service, accepted) && FitsIfRead(e, m, accepted)
    requires Submit(e, m.base, BuyOutput(e, m, BuyFrom(service, m.base.address, height, hashes, [], 0), Cft20))
          == Ok(tx)
    ensures forall h :: h in accepted ==> h in service
    ensures Has(Process(b, rules, d, look, tx).0, t, a)
         == Has(b, t, a)
            + if a == m.base.address then Handed(b, look, rules, m, service, accepted, |accepted|, t) else 0
  {
    var me := m.base.address;
    var batch := BuyFrom(service, me, height, hashes, [], 0);
    BatchIsAccepted(service, me, height, hashes, [], 0);
    assert hashes[0..] == hashes;
    AcceptedAreLive(service, me, height, hashes);
    PlainBatch(service, me, height, hashes, 0);
    assert batch.messages != [] && batch.messages[0].Send? && batch.messages[0].from == me;
    BatchIsBuilt(e, m, batch, tx);
    forall k | 0 <= k < |accepted|
      ensures var l := service[accepted[k]];
        PaysForTokens(rules, l, tx.messages).Ok?
        <==> FeeArrives(rules, m) && l.depositTotal <= l.total
             && Due(l) <= Due(service[accepted[FirstOfSeller(service, accepted, k)]])
    {
      BatchSettlesExactly(rules, e, m, service, height, hashes, k);
    }
    hide BuyFrom, BuyOutput, Submit, Accepted, PaysForTokens, FeeArrives, TotalDue, Due, FirstOfSeller, Process,
         PaysInOrder, FitsIfRead, IsTrade, IsStored, Handed, Has;
    TokensArePaidOut(b, rules, e, d, look, m, service, accepted, batch.messages, tx, t, a);
  }

  lemma TokensArePaidOut(b: Book, rules: Rules, e: Encoder, d: Decoder, look: Lookups, m: Market, service: Service,
                         hashes: seq<string>, messages: seq<Msg>, tx: TxData, t: nat, a: string)
    requires SameChain(m, look) && ReadsBack(e, d) && Indexed(b, look, service)
    requires TokensListed(b, rules, look, service, hashes) && FitsIfRead(e, m, hashes) && hashes != []
    requires forall h :: h in hashes ==>
      h in service && !service[h].isFilled && service[h].isDeposited && service[h].depositor == Some(m.base.address)
    requires IsTrade(e, m, "buy.cft20", hashes, messages, tx)
    requires messages != [] && messages[0].Send? && messages[0].from == m.base.address
    requires forall k :: 0 <= k < |hashes| ==>
      var l := service[hashes[k]];
      PaysForTokens(rules, l, tx.messages).Ok?
      <==> FeeArrives(rules, m) && l.depositTotal <= l.total
           && Due(l) <= Due(service[hashes[FirstOfSeller(service, hashes, k)]])
    ensures Has(Process(b, rules, d, look, tx).0, t, a)
         == Has(b, t, a) + if a == m.base.address then Handed(b, look, rules, m, service, hashes, |hashes|, t) else 0
  {
    TokensAreTried(b, rules, e, d, look, m, service, hashes, messages, tx);
    hide Process, IsTrade, PaysForTokens, OptionFits, Run, Has, Due, FeeArrives, FirstOfSeller, IsStored, Handed,
         PurchaseEvents, ReadsBack, SameChain, IsReadable;
    if IsReadable(m, hashes) {
      ReadPurchasesPay(b, rules, look, m, service, hashes, tx.messages, t, a);
    } else {
      NothingHanded(b, look, rules, m, service, hashes, |hashes|, t);
    }
  }

  // The indexer tries what it can read.
  lemma TokensAreTried(b: Book, rules: Rules, e: Encoder, d: Decoder, look: Lookups, m: Market, service: Service,
                       hashes: seq<string>, messages: seq<Msg>, tx: TxData)
    requires SameChain(m, look) && ReadsBack(e, d) && Indexed(b, look, service)
    requires FitsIfRead(e, m, hashes) && hashes != [] && forall h :: h in hashes ==> h in service
    requires IsTrade(e, m, "buy.cft20", hashes, messages, tx)
    requires messages != [] && messages[0].Send? && messages[0].from == m.base.address
    ensures Process(b, rules, d, look, tx).0
         == if IsReadable(m, hashes)
            then Run(b, rules, PurchaseEvents(m.base.address, Indexes(b, look, hashes), tx.messages)) else b
  {
    AcceptedAreHashes(b, look, service, hashes);
    TradeIsProcessed(b, rules, e, d, look, m, "buy.cft20", hashes, messages, tx);
    HashesAreRead(e, d, m, "buy.cft20", hashes, messages, tx);
    hide Process, IsTrade, BatchHashes, OptionFits, Run, PurchaseEvents, ReadsBack, SameChain;
  }

  lemma ReadPurchasesPay(b: Book, rules: Rules, look: Lookups, m: Market, service: Service, hashes: seq<string>,
                         msgs: seq<Msg>, t: nat, a: string)
    requires Indexed(b, look, service) && TokensListed(b, rules, look, service, hashes) && IsReadable(m, hashes)
    requires forall h :: h in hashes ==>
      h in service && service[h].isDeposited && service[h].depositor == Some(m.base.address)
    requires forall k :: 0 <= k < |hashes| ==>
      var l := service[hashes[k]];
      PaysForTokens(rules, l, msgs).Ok?
      <==> FeeArrives(rules, m) && l.depositTotal <= l.total
           && Due(l) <= Due(service[hashes[FirstOfSeller(service, hashes, k)]])
    ensures Has(Run(b, rules, PurchaseEvents(m.base.address, Indexes(b, look, hashes), msgs)), t, a)
         == Has(b, t, a) + if a == m.base.address then Handed(b, look, rules, m, service, hashes, |hashes|, t) else 0
  {
    PurchasesPay(b, rules, m.base.address, Indexes(b, look, hashes), msgs, t, a);
    hide PaysForTokens, FeeArrives, Due, FirstOfSeller, Run, Has, Handed, Bought, PurchaseEvents, IsStored;
    HandedIsBought(b, look, rules, m, service, hashes, msgs, |hashes|, t);
    assert hashes[..|hashes|] == hashes;
  }

  lemma {:induction false} NothingHanded(b: Book, look: Lookups, rules: Rules, m: Market, service: Service,
                                         hashes: seq<string>, k: nat, t: nat)
    requires k <= |hashes| && !IsReadable(m, hashes)
    requires forall h :: h in hashes ==> h in service && h in look.listings && look.listings[h] < |b.entries|
    ensures Handed(b, look, rules, m, service, hashes, k, t) == 0
  {
    if k > 0 { NothingHanded(b, look, rules, m, service, hashes, k - 1, t); }
  }

  lemma {:induction false} BoughtConcat(rules: Rules, sender: string, entries: seq<Entry>, a: seq<nat>, b: seq<nat>,
                                        msgs: seq<Msg>, t: nat)
    ensures Bought(rules, sender, entries, a + b, msgs, t)
         == Bought(rules, sender, entries, a, msgs, t) + Bought(rules, sender, entries, b, msgs, t)
    decreases |a|
  {
    hide Fills, Offered;
    if a == [] {
      assert a + b == b;
    } else {
      assert (a + b)[1..] == a[1..] + b;
      BoughtConcat(rules, sender, entries, a[1..], b, msgs, t);
    }
  }

  lemma {:induction false} HandedIsBought(b: Book, look: Lookups, rules: Rules, m: Market, service: Service,
                                          hashes: seq<string>, msgs: seq<Msg>, k: nat, t: nat)
    requires k <= |hashes| && IsReadable(m, hashes) && Indexed(b, look, service)
    requires forall h :: h in hashes ==>
      && h in service && service[h].isDeposited && service[h].depositor == Some(m.base.address)
      && b.entries[look.listings[h]].goods.Tokens?
    requires forall i :: 0 <= i < |hashes| ==>
      var l := service[hashes[i]];
      PaysForTokens(rules, l, msgs).Ok?
      <==> FeeArrives(rules, m) && l.depositTotal <= l.total
           && Due(l) <= Due(service[hashes[FirstOfSeller(service, hashes, i)]])
    ensures Handed(b, look, rules, m, service, hashes, k, t)
         == Bought(rules, m.base.address, b.entries, Indexes(b, look, hashes[..k]), msgs, t)
  {
    hide PaysForTokens, FeeArrives, Due, FirstOfSeller, Offered;
    if k > 0 {
      HandedIsBought(b, look, rules, m, service, hashes, msgs, k - 1, t);
      var h := hashes[k - 1];
      assert h in hashes;
      assert Indexes(b, look, hashes[..k]) == Indexes(b, look, hashes[..k - 1]) + [look.listings[h]];
      BoughtConcat(rules, m.base.address, b.entries, Indexes(b, look, hashes[..k - 1]), [look.listings[h]], msgs, t);
      assert [look.listings[h]][1..] == [];
    }
  }

  lemma BatchIsBuilt(e: Encoder, m: Market, batch: Batch, tx: TxData)
    requires OperationName(Cft20) in m.fees && Submit(e, m.base, BuyOutput(e, m, batch, Cft20)) == Ok(tx)
    ensures IsTrade(e, m, OperationName(Cft20), batch.accepted, batch.messages, tx)
  {
    TradeIsBuilt(e, m, OperationName(Cft20), batch.accepted,
                 Some(BuyFee(m.fees[OperationName(Cft20)], batch.proceeds)), batch.messages);
    hide IsTrade, BuyFee;
  }

  // A batch of tokens that reached the indexer
  lemma TokensAreProcessed(b: Book, rules: Rules, e: Encoder, d: Decoder, look: Lookups, m: Market, service: Service,
                           hashes: seq<string>, k: nat, messages: seq<Msg>, tx: TxData)
    requires SameChain(m, look) && ReadsBack(e, d) && Indexed(b, look, service)
    requires TokensListed(b, rules, look, service, hashes) && FitsIfRead(e, m, hashes) && k < |hashes|
    requires forall h :: h in hashes ==>
      h in service && !service[h].isFilled && service[h].isDeposited && service[h].depositor == Some(m.base.address)
    requires IsTrade(e, m, "buy.cft20", hashes, messages, tx)
    requires messages != [] && messages[0].Send? && messages[0].from == m.base.address
    ensures var b' := Process(b, rules, d, look, tx).0;
      && OthersStay(b, b', look, hashes)
      && (b'.entries[look.listings[hashes[k]]].listing.isFilled
          <==> IsReadable(m, hashes) && PaysForTokens(rules, service[hashes[k]], tx.messages).Ok?)
  {
    TokensAreTried(b, rules, e, d, look, m, service, hashes, messages, tx);
    hide Process, IsTrade, PaysForTokens, BatchHashes, OptionFits, TotalDue, Run, PurchaseEvents, ReadsBack, SameChain;
    assert hashes[k] in hashes;
    if IsReadable(m, hashes) {
      ReadPurchasesFill(b, rules, look, service, m.base.address, hashes, k, tx.messages);
    }
  }

  lemma {:induction false} AcceptedAreLive(service: Service, me: string, height: Option<int>, hashes: seq<string>)
    ensures forall h :: h in Accepted(service, me, height, hashes) ==>
      h in service && !service[h].isFilled && service[h].isDeposited && service[h].depositor == Some(me)
  {
    if hashes != [] { AcceptedAreLive(service, me, height, hashes[1..]); }
  }

  lemma AcceptedAreHashes(b: Book, look: Lookups, service: Service, hashes: seq<string>)
    requires Indexed(b, look, service) && forall h :: h in hashes ==> h in service
    ensures forall k :: 0 <= k < |hashes| ==> IsHash(hashes[k])
  {
    forall k | 0 <= k < |hashes| ensures IsHash(hashes[k]) { assert hashes[k] in service; }
  }

  lemma IndexesOfHashes(b: Book, look: Lookups, service: Service, hashes: seq<string>)
    requires Indexed(b, look, service) && forall h :: h in hashes ==> h in service
    ensures forall i :: i in Indexes(b, look, hashes) <==> exists h :: h in hashes && look.listings[h] == i
  {
    var indexes := Indexes(b, look, hashes);
    forall i ensures i in indexes <==> exists h :: h in hashes && look.listings[h] == i {
      if i in indexes {
        var n :| 0 <= n < |indexes| && indexes[n] == i;
        assert hashes[n] in hashes && look.listings[hashes[n]] == i;
      }
      if h :| h in hashes && look.listings[h] == i {
        var n :| 0 <= n < |hashes| && hashes[n] == h;
        assert indexes[n] == i;
      }
    }
  }

  lemma ReadPurchasesFill(b: Book, rules: Rules, look: Lookups, service: Service, me: string, hashes: seq<string>,
                          k: nat, msgs: seq<Msg>)
    requires Indexed(b, look, service) && k < |hashes|
    requires forall h :: h in hashes ==>
      && h in service && !service[h].isFilled && service[h].isDeposited && service[h].depositor == Some(me)
      && b.entries[look.listings[h]].goods.Tokens?
    ensures var b' := Run(b, rules, PurchaseEvents(me, Indexes(b, look, hashes), msgs));
      && |b'.entries| == |b.entries|
      && (b'.entries[look.listings[hashes[k]]].listing.isFilled
          <==> PaysForTokens(rules, service[hashes[k]], msgs).Ok?)
      && OthersStay(b, b', look, hashes)
  {
    PurchasesFill(b, rules, me, Indexes(b, look, hashes), msgs);
    IndexesOfHashes(b, look, service, hashes);
    hide PaysForTokens, Run, Indexes, PurchaseEvents;
    assert hashes[k] in hashes;
  }

  // Batches of deposits, end to end: the indexer makes the sender the depositor of exactly those listings that no
  // running deposit holds, that the sender could pay in full, and that ask for no more than the first one in the batch
  // of the same seller; of none, if it cannot read what the transaction names. No other listing changes.
  lemma BatchIsDepositedExactly(b: Book, rules: Rules, e: Encoder, d: Decoder, look: Lookups, m: Market,
                                service: Service, height: Option<int>, hashes: seq<string>, accepted: seq<string>,
                                k: nat, tx: TxData)
    requires SameChain(m, look) && ReadsBack(e, d) && Indexed(b, look, service)
    requires accepted == Depositable(service, m.base.address, height, hashes) && k < |accepted|
    requires forall h :: h in accepted && h in service ==> IsStored(service[h])
    requires FitsIfRead(e, m, accepted)
    requires Submit(e, m.base, DepositOutput(e, m, DepositFrom(service, m.base.address, height, hashes, 0)))
          == Ok(tx)
    ensures forall h :: h in accepted ==> h in service
    ensures var b', place, l := Process(b, rules, d, look, tx).0, look.listings[accepted[k]], service[accepted[k]];
      && OthersStay(b, b', look, accepted)
      && b'.entries[place]
      == if && IsReadable(m, accepted) && !IsHeld(l, look.height)
            && (l.total >= l.depositTotal ==> look.balance >= l.total - l.depositTotal)
            && l.depositTotal <= service[accepted[FirstOfSeller(service, accepted, k)]].depositTotal
         then DepositedEntry(b.entries[place], m.base.address, look.height) else b.entries[place]
  {
    var me := m.base.address;
    var messages := DepositsAreBuilt(e, m, service, height, hashes, accepted, k, tx);
    hide DepositFrom, DepositOutput, Submit, Depositable, FirstOfSeller, Process, FitsIfRead, IsTrade, IsStored,
         OthersStay,
         BankSent, DepositedEntry, ReadsBack, IsHeld, SameChain, IsReadable;
    assert accepted[k] in service;
    DepositsAreProcessed(b, rules, e, d, look, m, service, accepted, k, messages, tx);
  }

  // The transaction of a batch of deposits, and what the indexer finds of it for one of them
  lemma DepositsAreBuilt(e: Encoder, m: Market, service: Service, height: Option<int>, hashes: seq<string>,
                         accepted: seq<string>, k: nat, tx: TxData) returns (messages: seq<Msg>)
    requires accepted == Depositable(service, m.base.address, height, hashes) && k < |accepted|
    requires forall h :: h in accepted && h in service ==> IsStored(service[h])
    requires Submit(e, m.base, DepositOutput(e, m, DepositFrom(service, m.base.address, height, hashes, 0)))
          == Ok(tx)
    ensures forall h :: h in accepted ==> h in service
    ensures IsTrade(e, m, "deposit", accepted, messages, tx)
    ensures messages != [] && messages[0].Send? && messages[0].from == m.base.address
    ensures BankSent(tx.messages, service[accepted[k]].seller)
         == Some(service[accepted[FirstOfSeller(service, accepted, k)]].depositTotal)
  {
    var me := m.base.address;
    var batch := DepositFrom(service, me, height, hashes, 0);
    DepositsAreAccepted(service, me, height, hashes, 0);
    assert hashes[0..] == hashes;
    hide DepositFrom, Depositable, FirstOfSeller, BankSent, DepositOutput, Submit, IsTrade, PaysDeposits, IsStored;
    DepositsKnown(service, me, batch);
    DepositIsBuilt(e, m, batch, tx);
    messages := batch.messages;
    DepositFound(e, m, service, batch, k, tx);
  }

  lemma DepositFound(e: Encoder, m: Market, service: Service, batch: Batch, k: nat, tx: TxData)
    requires PaysDeposits(service, m.base.address, batch) && k < |batch.accepted|
    requires forall h :: h in batch.accepted ==> h in service && IsStored(service[h])
    requires IsTrade(e, m, "deposit", batch.accepted, batch.messages, tx)
    ensures var messages := batch.messages;
      messages != [] && messages[0].Send? && messages[0].from == m.base.address
    ensures BankSent(tx.messages, service[batch.accepted[k]].seller)
         == Some(service[batch.accepted[FirstOfSeller(service, batch.accepted, k)]].depositTotal)
  {
    hide BankSent, FirstOfSeller, TradeUrn, ListOption, IsStored;
    var more := tx.messages[|batch.messages|..];
    DepositSeen(service, m.base.address, batch, k, more);
    assert tx.messages == batch.messages + more;
  }

  lemma DepositIsBuilt(e: Encoder, m: Market, batch: Batch, tx: TxData)
    requires Submit(e, m.base, DepositOutput(e, m, batch)) == Ok(tx)
    ensures IsTrade(e, m, "deposit", batch.accepted, batch.messages, tx)
  {
    TradeIsBuilt(e, m, "deposit", batch.accepted, None, batch.messages);
    hide IsTrade;
  }

  // A batch of deposits that reached the indexer
  lemma DepositsAreProcessed(b: Book, rules: Rules, e: Encoder, d: Decoder, look: Lookups, m: Market, service: Service,
                             hashes: seq<string>, k: nat, messages: seq<Msg>, tx: TxData)
    requires SameChain(m, look) && ReadsBack(e, d) && Indexed(b, look, service)
    requires FitsIfRead(e, m, hashes) && k < |hashes| && forall h :: h in hashes ==> h in service
    requires IsTrade(e, m, "deposit", hashes, messages, tx)
    requires messages != [] && messages[0].Send? && messages[0].from == m.base.address
    ensures var b', place := Process(b, rules, d, look, tx).0, look.listings[hashes[k]];
      && OthersStay(b, b', look, hashes)
      && b'.entries[place]
      == if IsReadable(m, hashes) && TakesDeposit(b.entries[place], look.height, look.balance, tx.messages)
         then DepositedEntry(b.entries[place], m.base.address, look.height) else b.entries[place]
  {
    var me := m.base.address;
    AcceptedAreHashes(b, look, service, hashes);
    TradeIsProcessed(b, rules, e, d, look, m, "deposit", hashes, messages, tx);
    HashesAreRead(e, d, m, "deposit", hashes, messages, tx);
    hide Process, IsTrade, TakesDeposit, BatchHashes, OptionFits, Run, Indexes, DepositEvents, DepositedEntry,
         ReadsBack;
    assert hashes[k] in hashes;
    if IsReadable(m, hashes) {
      ReadDepositsLand(b, rules, look, service, me, hashes, k, tx.messages);
    }
  }

  lemma ReadDepositsLand(b: Book, rules: Rules, look: Lookups, service: Service, me: string, hashes: seq<string>,
                         k: nat, msgs: seq<Msg>)
    requires Indexed(b, look, service) && k < |hashes| && forall h :: h in hashes ==> h in service
    ensures var b' := Run(b, rules, DepositEvents(me, Indexes(b, look, hashes), look.height, look.balance, msgs));
      var place := look.listings[hashes[k]];
      && OthersStay(b, b', look, hashes)
      && b'.entries[place]
      == if TakesDeposit(b.entries[place], look.height, look.balance, msgs)
         then DepositedEntry(b.entries[place], me, look.height) else b.entries[place]
  {
    DepositsLand(b, rules, me, Indexes(b, look, hashes), look.height, look.balance, msgs);
    IndexesOfHashes(b, look, service, hashes);
    hide TakesDeposit, Run, Indexes, DepositEvents, DepositedEntry;
    assert hashes[k] in hashes;
  }

  // ---- inscriptions ----

  // A purchase of one inscription, end to end: the indexer takes exactly what settles and carries its fee the right
  // way, and then hands the inscription to the buyer; the rest is refused with the money sent. `royalty` is that of the
  // collection, and the listing has not changed between the client's look and the indexer's.
  lemma PurchaseIsTakenExactly(b: Book, rules: Rules, e: Encoder, d: Decoder, look: Lookups, m: Market,
                               service: Service, height: Option<int>, hash: string, royalty: Option<Royalty>,
                               tx: TxData)
    requires SameChain(m, look) && ReadsBack(e, d) && Indexed(b, look, service)
    requires OperationName(Inscription) in m.fees
    requires m.fees[OperationName(Inscription)].percent == Some(rules.tradeFee) && 0.0 <= rules.tradeFee <= 1.0
    requires GetListing(service, m.base.address, height, hash).Ok?
    requires IsStored(service[hash]) && IsStranger(rules.ibcReceiver, service[hash], royalty)
    requires royalty.Some? ==> royalty.value.KeepsSign() && RoyaltyShare(service[hash], royalty.value) < UINT64 as real
    requires var goods := b.entries[look.listings[hash]].goods; goods.Piece? && goods.inscription < |b.owners|
    requires royalty == RoyaltyOf(b, look, look.listings[hash])
    requires var royalties := if royalty.Some? then [royalty.value] else [];
      Submit(e, m.base, BuyOutput(e, m, BuyFrom(service, m.base.address, height, [hash], royalties, 0), Inscription))
      == Ok(tx)
    ensures var index := look.listings[hash];
      Process(b, rules, d, look, tx)
      == if FeeArrives(rules, m) && Settles(service[hash], royalty)
         then (b.(entries := Filled(b, index),
                  owners := b.owners[b.entries[index].goods.inscription := m.base.address]), true)
         else (b, false)
  {
    var messages := PurchaseIsBuilt(rules, e, m, service, height, hash, royalty, tx);
    hide BuyFrom, BuyOutput, Submit, PaysForPiece, Settles, FeeArrives, IsTrade, IsStored, IsStranger, Process,
         ReadsBack,
         RoyaltyShare;
    TradeIsProcessed(b, rules, e, d, look, m, "buy.inscription", [hash], messages, tx);
    PieceIsProcessed(b, rules, d, look, m, service, height, hash, royalty, tx);
  }

  lemma PurchaseIsBuilt(rules: Rules, e: Encoder, m: Market, service: Service, height: Option<int>, hash: string,
                        royalty: Option<Royalty>, tx: TxData) returns (messages: seq<Msg>)
    requires OperationName(Inscription) in m.fees
    requires m.fees[OperationName(Inscription)].percent == Some(rules.tradeFee) && 0.0 <= rules.tradeFee <= 1.0
    requires GetListing(service, m.base.address, height, hash).Ok?
    requires IsStored(service[hash]) && IsStranger(rules.ibcReceiver, service[hash], royalty)
    requires royalty.Some? ==> royalty.value.KeepsSign() && RoyaltyShare(service[hash], royalty.value) < UINT64 as real
    requires var royalties := if royalty.Some? then [royalty.value] else [];
      Submit(e, m.base, BuyOutput(e, m, BuyFrom(service, m.base.address, height, [hash], royalties, 0), Inscription))
      == Ok(tx)
    ensures IsTrade(e, m, "buy.inscription", [hash], messages, tx)
    ensures messages != [] && messages[0].Send? && messages[0].from == m.base.address
    ensures PaysForPiece(rules, service[hash], royalty, tx.messages).Ok?
       <==> FeeArrives(rules, m) && Settles(service[hash], royalty)
  {
    var me := m.base.address;
    var royalties := if royalty.Some? then [royalty.value] else [];
    var batch := BuyFrom(service, me, height, [hash], royalties, 0);
    OneBought(service, me, height, hash, royalty);
    PurchaseSettlesExactly(rules, e, m, service, height, hash, royalty);
    hide BuyFrom, PaysForPiece, Settles, FeeArrives, IsTrade, PurchaseMessages, SellerDue, BuyFee, RoyaltyShare,
         GetListing, IsStored, IsStranger;
    StartsWithMe(me, service[hash], royalty);
    TradeIsBuilt(e, m, OperationName(Inscription), [hash],
                 Some(BuyFee(m.fees[OperationName(Inscription)], batch.proceeds)), batch.messages);
    messages := batch.messages;
  }

  lemma PieceIsProcessed(b: Book, rules: Rules, d: Decoder, look: Lookups, m: Market, service: Service,
                         height: Option<int>, hash: string, royalty: Option<Royalty>, tx: TxData)
    requires Indexed(b, look, service) && GetListing(service, m.base.address, height, hash).Ok?
    requires var goods := b.entries[look.listings[hash]].goods; goods.Piece? && goods.inscription < |b.owners|
    requires royalty == RoyaltyOf(b, look, look.listings[hash])
    ensures var index := look.listings[hash];
      Trade(b, rules, d, look, m.base.address, I.Protocol(m.chainId, "v1", "buy.inscription", TradePairs([hash])), tx)
      == if PaysForPiece(rules, service[hash], royalty, tx.messages).Ok?
         then (b.(entries := Filled(b, index),
                  owners := b.owners[b.entries[index].goods.inscription := m.base.address]), true)
         else (b, false)
  {
    OneHashOf(hash);
    hide OneHash, TradePairs, TrimSpace, PaysForPiece, IsHash;
  }

  // ---- delisting ----

  // A delisting, end to end: the indexer takes it exactly if the seller asks for an open listing that no running
  // deposit holds. The listing is cancelled and what was offered goes back to the seller; otherwise nothing changes.
  lemma DelistingIsTakenExactly(b: Book, rules: Rules, e: Encoder, d: Decoder, look: Lookups, m: Market, hash: string)
    requires SameChain(m, look) && IsHash(hash)
    ensures var tx := Submit(e, m.base, DelistOutput(e, m, hash));
      tx.Ok? && var (b', done) := Process(b, rules, d, look, tx.value);
        && done == (hash in look.listings && look.listings[hash] < |b.entries|
                    && MayDelist(b.entries[look.listings[hash]].listing, m.base.address, look.height))
        && (!done ==> b' == b)
        && (done ==> Delisted(b, b', look.listings[hash]))
  {
    var index, me := IndexOf(b, look, hash), m.base.address;
    var tx := DelistingIsBuilt(e, m, hash);
    hide Process, Has, DelistOutput, Submit, Prepared, Urn.BuildUrn, Balance, IsHash, SameChain, HashParam;
    NamedIsProcessed(b, rules, d, look, m, "delist", [hash], tx);
    OneHashOf(hash);
    DelistMoves(b, rules, me, index, look.height);
    hide Delist, IndexOf, Delisted, MayDelist;
  }

  predicate MayDelist(l: Listing, sender: string, height: nat) {
    && l.seller == sender && !l.isFilled && !l.isCancelled
    && !(l.isDeposited && l.timeout.GetOr(0) > height)
  }

  // The listing is cancelled, its seller has back what it offered, and nothing else changed.
  ghost predicate Delisted(b: Book, b': Book, index: nat)
    requires index < |b.entries|
  {
    var e := b.entries[index];
    && b'.entries == b.entries[index := e.(listing := e.listing.(isDeposited := false, depositor := Some(""),
                                                                 timeout := Some(0), isCancelled := true))]
    && b'.tokens == b.tokens && b'.orders == b.orders
    && (e.goods.Piece? && e.goods.inscription < |b.owners| ==>
          b'.owners == b.owners[e.goods.inscription := e.listing.seller])
    && (e.goods.Tokens? ==> b'.owners == b.owners)
    && forall t, a :: Has(b', t, a) == Has(b, t, a) + if a == e.listing.seller then Offered(e, t) else 0
  }

  lemma DelistMoves(b: Book, rules: Rules, sender: string, index: nat, height: nat)
    ensures Delist(b, sender, index, height).Ok?
       <==> index < |b.entries| && MayDelist(b.entries[index].listing, sender, height)
    ensures Delist(b, sender, index, height).Ok? ==> Delisted(b, Delist(b, sender, index, height).value, index)
  {
    hide Balance, Credit, Has, Offered;
    if Delist(b, sender, index, height).Ok? {
      var event := Event(sender, OpDelist(index, height), []);
      forall t, a
        ensures Has(Delist(b, sender, index, height).value, t, a)
             == Has(b, t, a) + if a == b.entries[index].listing.seller then Offered(b.entries[index], t) else 0
      {
        BalancesMove(b, rules, event, t, a);
      }
    }
  }

  lemma DelistingIsBuilt(e: Encoder, m: Market, hash: string) returns (tx: TxData)
    requires IsHash(hash)
    ensures Submit(e, m.base, DelistOutput(e, m, hash)) == Ok(tx)
    ensures tx.memo == Urn.BuildUrn(TradeUrn(m.chainId, "delist", [hash]))
    ensures tx.messages != [] && Origin(tx.messages[0]) == m.base.address
  {
    var x := AsInscription(m.base, BuildOperation(m, "delist", [("h", hash)]), None, None, None);
    OneInscription(e, m.base.address, x.urn, x,
                   PrepareTxOptions(PassOn(m.base.useIbc), PassOn(m.base.useExtensionData)));
    hide Prepared, ParseInt, Urn.BuildUrn;
    tx := Submit(e, m.base, DelistOutput(e, m, hash)).value;
  }

  lemma OneHashOf(hash: string)
    requires IsHash(hash)
    ensures OneHash(TradePairs([hash])) == hash
  {
    HashIsWhole(hash);
    hide TrimSpace, IsHash;
  }

  lemma StartsWithMe(me: string, l: Listing, royalty: Option<Royalty>)
    ensures var msgs := PurchaseMessages(me, l, royalty); msgs != [] && msgs[0].Send? && msgs[0].from == me
  {
    hide ToFixed, RoyaltyShare, SellerDue;
  }

  // A batch of two inscriptions or more names its listings where the indexer does not look: it is never taken,
  // whatever it pays.
  lemma InscriptionBatchIsRefused(b: Book, rules: Rules, e: Encoder, d: Decoder, look: Lookups, m: Market,
                                  service: Service, batch: Batch, tx: TxData)
    requires SameChain(m, look) && Indexed(b, look, service)
    requires |batch.accepted| > 1 && forall h :: h in batch.accepted ==> h in service
    requires Submit(e, m.base, BuyOutput(e, m, batch, Inscription)) == Ok(tx)
    ensures Process(b, rules, d, look, tx) == (b, false)
  {
    var operation := BuildOperation(m, "buy.inscription", HashParam(NamedInUrn(batch.accepted)));
    TradeIsBuilt(e, m, "buy.inscription", batch.accepted, Some(BuyFee(operation.fee, batch.proceeds)), batch.messages);
    assert IsTrade(e, m, "buy.inscription", batch.accepted, batch.messages, tx);
    hide BuyOutput, Submit, BuildOperation, BuyFee, ListOption, Urn.BuildUrn, HashParam, Process;
    AcceptedAreHashes(b, look, service, batch.accepted);
    UnnamedMemoIsRefused(b, rules, d, look, m, batch.accepted, tx);
  }

  lemma UnnamedMemoIsRefused(b: Book, rules: Rules, d: Decoder, look: Lookups, m: Market, hashes: seq<string>,
                             tx: TxData)
    requires SameChain(m, look) && |hashes| > 1 && forall k :: 0 <= k < |hashes| ==> IsHash(hashes[k])
    requires forall h :: h in look.listings ==> IsHash(h)
    requires tx.memo == Urn.BuildUrn(TradeUrn(m.chainId, "buy.inscription", hashes))
    ensures Process(b, rules, d, look, tx) == (b, false)
  {
    MemoIsRead(m.chainId, "buy.inscription", hashes);
    hide ReadMemo, I.Parse, I.SpecificText, Urn.BuildUrn, TradeUrn, SenderOf, Trade, IsHash;
    forall sender { UnnamedIsRefused(b, rules, d, look, sender, m.chainId, tx); }
  }

  lemma UnnamedIsRefused(b: Book, rules: Rules, d: Decoder, look: Lookups, sender: string, chainId: string, tx: TxData)
    requires forall h :: h in look.listings ==> IsHash(h)
    ensures Trade(b, rules, d, look, sender, I.Protocol(chainId, "v1", "buy.inscription", None), tx) == (b, false)
  {
    assert OneHash(None) == "";
    assert "" !in look.listings;
  }
}
