/** Transaction assembly: the bytes an inscription travels in, the messages that are carried, and the fee. */
module Tx {
  import opened Wrappers
  import opened Varint
  import opened Numbers
  import P = ProtoTypes

  const UATOM := "uatom"

  datatype Msg =
    | Send(from: string, to: string, amount: int, denom: string)
    | IbcTransfer(sender: string, receiver: string, channel: string, amount: int, denom: string)
    | Exec(grantee: string, from: string, to: string, amount: int, denom: string)
    | Grant(granter: string, grantee: string, limit: int, denom: string)

  datatype ProtocolFee = ProtocolFee(receiver: string, ibcChannel: string, denom: string)

  datatype TxFee = TxFee(protocol: ProtocolFee, operation: string)

  // What JSON.stringify is given: the listing hashes of a batch, or some other document
  datatype Metadata = Hashes(hashes: seq<string>) | Document(text: string)

  datatype InscriptionData = InscriptionData(
    metadata: Metadata, content: Option<Bytes>, parentType: Option<string>, parentIdentifier: Option<string>)

  datatype TxInscription = TxInscription(
    protocolName: string, protocolVersion: string, urn: string,
    data: Option<InscriptionData>, fee: TxFee, messages: Option<seq<Msg>>)

  // Revoke holds what its granter and grantee fields print in base64; no granter is the empty string.
  datatype ExtensionOption =
    | Revoke(granter: Option<InscriptionData>, grantee: Bytes, urn: string)
    | Extension(value: P.ExtensionData)

  datatype TxData = TxData(memo: string, messages: seq<Msg>, options: seq<ExtensionOption>)

  datatype TxError = NoInscriptions | MissingData

  // An option key can be absent, present with the value undefined, or given.
  datatype Setting = Absent | Undefined | Given(on: bool)

  datatype PrepareTxOptions = PrepareTxOptions(useIbc: Setting, useExtensionData: Setting)

  // toUtf8 and JSON.stringify
  datatype Encoder = Encoder(utf8: string -> Bytes, json: Metadata -> Bytes)

  // ---- the extension option of one inscription ----

  function GetMsgRevoke(x: TxInscription): ExtensionOption {
    match x.data
    case None => Revoke(None, [], x.urn)
    case Some(data) => Revoke(Some(data.(content := None)), data.content.GetOr([]), x.urn)
  }

  function InnerInscription(e: Encoder, data: InscriptionData): P.Inscription {
    P.Inscription(
      parentType := if data.parentType.Some? then e.utf8(data.parentType.value) else [],
      parentIdentifier := if data.parentIdentifier.Some? then e.utf8(data.parentIdentifier.value) else [],
      metadata := e.json(data.metadata),
      content := data.content.GetOr([]))
  }

  function GetExtensionData(e: Encoder, x: TxInscription, data: InscriptionData): P.ExtensionData {
    P.ExtensionData(
      protocolId := e.utf8("asteroid:" + x.protocolName),
      protocolVersion := e.utf8(if x.protocolVersion == "" then "" else x.protocolVersion[1..]),
      data := P.EncodedInscription(InnerInscription(e, data)))
  }

  // The options one inscription adds; in extension mode it must have data.
  function OptionsFor(e: Encoder, x: TxInscription, isMultiOp: bool, extension: bool)
    : Result<seq<ExtensionOption>, TxError>
  {
    if x.data.None? && !isMultiOp then Ok([])
    else if !extension then Ok([GetMsgRevoke(x)])
    else if x.data.None? then Err(MissingData)
    else Ok([Extension(GetExtensionData(e, x, x.data.value))])
  }

  // The first error stops the loop.
  function JoinOptions(a: Result<seq<ExtensionOption>, TxError>, b: Result<seq<ExtensionOption>, TxError>)
    : Result<seq<ExtensionOption>, TxError>
  {
    if a.Ok? && b.Ok? then Ok(a.value + b.value) else if a.Err? then a else b
  }

  function AllOptions(e: Encoder, xs: seq<TxInscription>, isMultiOp: bool, extension: bool)
    : Result<seq<ExtensionOption>, TxError>
  {
    if xs == [] then Ok([])
    else JoinOptions(AllOptions(e, xs[..|xs| - 1], isMultiOp, extension),
                     OptionsFor(e, xs[|xs| - 1], isMultiOp, extension))
  }

  // ---- carried messages and fees ----

  function Carried(xs: seq<TxInscription>): seq<Msg> {
    if xs == [] then [] else Carried(xs[..|xs| - 1]) + xs[|xs| - 1].messages.GetOr([])
  }

  // A sum of JavaScript numbers; None is NaN.
  function AddFee(a: Option<int>, b: Option<int>): Option<int> {
    if a.Some? && b.Some? then Some(a.value + b.value) else None
  }

  function TotalFee(xs: seq<TxInscription>): Option<int> {
    if xs == [] then Some(0) else AddFee(TotalFee(xs[..|xs| - 1]), ParseInt(xs[|xs| - 1].fee.operation))
  }

  function IsPositive(fee: Option<int>): bool {
    fee.Some? && fee.value > 0
  }

  // What is put behind the carried messages
  function Appended(sender: string, protocol: ProtocolFee, useIbc: bool, fee: Option<int>, carried: seq<Msg>)
    : seq<Msg>
  {
    if IsPositive(fee) then
      if useIbc then [IbcTransfer(sender, protocol.receiver, protocol.ibcChannel, fee.value, protocol.denom)]
      else [Send(sender, protocol.receiver, fee.value, protocol.denom)]
    else if carried == [] then [Send(sender, sender, 1, protocol.denom)]
    else []
  }

  // {...DEFAULT_OPTIONS, ...options}: only an absent key takes the default.
  function UsesIbc(o: PrepareTxOptions): bool {
    o.useIbc.Absent? || o.useIbc == Given(true)
  }

  function UsesExtensionData(o: PrepareTxOptions): bool {
    o.useExtensionData != Given(false)
  }

  function Prepared(e: Encoder, sender: string, urn: string, xs: seq<TxInscription>, o: PrepareTxOptions)
    : Result<TxData, TxError>
  {
    if xs == [] then Err(NoInscriptions)
    else match AllOptions(e, xs, |xs| > 1, UsesExtensionData(o))
      case Err(error) => Err(error)
      case Ok(options) =>
        var carried := Carried(xs);
        Ok(TxData(urn, carried + Appended(sender, xs[0].fee.protocol, UsesIbc(o), TotalFee(xs), carried), options))
  }

  lemma PrepareStart(e: Encoder, xs: seq<TxInscription>, isMultiOp: bool, extension: bool)
    ensures AllOptions(e, xs[..0], isMultiOp, extension) == Ok([])
    ensures Carried(xs[..0]) == [] && TotalFee(xs[..0]) == Some(0)
  {}

  // One turn of the loop
  lemma PrepareTurn(e: Encoder, xs: seq<TxInscription>, i: nat, isMultiOp: bool, extension: bool)
    requires i < |xs|
    ensures AllOptions(e, xs[..i + 1], isMultiOp, extension)
         == JoinOptions(AllOptions(e, xs[..i], isMultiOp, extension), OptionsFor(e, xs[i], isMultiOp, extension))
    ensures Carried(xs[..i + 1]) == Carried(xs[..i]) + xs[i].messages.GetOr([])
    ensures TotalFee(xs[..i + 1]) == AddFee(TotalFee(xs[..i]), ParseInt(xs[i].fee.operation))
  {
    hide OptionsFor, JoinOptions, AddFee, ParseInt;
    assert xs[..i + 1][..i] == xs[..i];
  }

  method PrepareTx(e: Encoder, sender: string, urn: string, inscriptions: seq<TxInscription>,
                   options: PrepareTxOptions)
    returns (r: Result<TxData, TxError>)
    ensures r == Prepared(e, sender, urn, inscriptions, options)
  {
    if |inscriptions| < 1 {
      return Err(NoInscriptions);
    }
    var extensionOptions: seq<ExtensionOption> := [];
    var msgs: seq<Msg> := [];
    var protocol := inscriptions[0].fee.protocol;
    var fee: Option<int> := Some(0);
    var isMultiOp := |inscriptions| > 1;
    var extension := UsesExtensionData(options);
    hide AllOptions, Carried, TotalFee, GetExtensionData, GetMsgRevoke;
    PrepareStart(e, inscriptions, isMultiOp, extension);
    for i := 0 to |inscriptions|
      invariant AllOptions(e, inscriptions[..i], isMultiOp, extension) == Ok(extensionOptions)
      invariant msgs == Carried(inscriptions[..i])
      invariant fee == TotalFee(inscriptions[..i])
    {
      var x := inscriptions[i];
      PrepareTurn(e, inscriptions, i, isMultiOp, extension);
      if x.data.Some? || isMultiOp {
        if !extension {
          extensionOptions := extensionOptions + [GetMsgRevoke(x)];
        } else if x.data.None? {
          MissingDataStops(e, inscriptions, i + 1, isMultiOp, extension);
          return Err(MissingData);
        } else {
          extensionOptions := extensionOptions + [Extension(GetExtensionData(e, x, x.data.value))];
        }
      } else {
        assert extensionOptions + [] == extensionOptions;
      }
      assert msgs + [] == msgs;
      if x.messages.Some? {
        msgs := msgs + x.messages.value;
      }
      fee := AddFee(fee, ParseInt(x.fee.operation));
    }
    assert inscriptions[..|inscriptions|] == inscriptions;
    assert msgs + [] == msgs;
    if IsPositive(fee) {
      if UsesIbc(options) {
        msgs := msgs + [IbcTransfer(sender, protocol.receiver, protocol.ibcChannel, fee.value, protocol.denom)];
      } else {
        msgs := msgs + [Send(sender, protocol.receiver, fee.value, protocol.denom)];
      }
    } else if |msgs| == 0 {
      msgs := msgs + [Send(sender, sender, 1, protocol.denom)];
    }
    return Ok(TxData(urn, msgs, extensionOptions));
  }

  lemma {:induction false} MissingDataStops(e: Encoder, xs: seq<TxInscription>, n: nat, isMultiOp: bool,
                                            extension: bool)
    requires n <= |xs| && AllOptions(e, xs[..n], isMultiOp, extension) == Err(MissingData)
    ensures AllOptions(e, xs, isMultiOp, extension) == Err(MissingData)
    decreases |xs|
  {
    if n < |xs| {
      assert xs[..|xs| - 1][..n] == xs[..n];
      MissingDataStops(e, xs[..|xs| - 1], n, isMultiOp, extension);
    } else {
      assert xs[..n] == xs;
    }
  }

  // ---- money ----

  // What leaves `who` in `denom`
  function Debit(m: Msg, who: string, denom: string): int {
    match m
    case Send(from, _, amount, d) => if from == who && d == denom then amount else 0
    case IbcTransfer(sender, _, _, amount, d) => if sender == who && d == denom then amount else 0
    case Exec(_, from, _, amount, d) => if from == who && d == denom then amount else 0
    case Grant(_, _, _, _) => 0
  }

  function Debits(msgs: seq<Msg>, who: string, denom: string): int {
    if msgs == [] then 0 else Debit(msgs[0], who, denom) + Debits(msgs[1..], who, denom)
  }

  lemma {:induction false} DebitsAdd(a: seq<Msg>, b: seq<Msg>, who: string, denom: string)
    ensures Debits(a + b, who, denom) == Debits(a, who, denom) + Debits(b, who, denom)
    decreases |a|
  {
    if a == [] {
      assert a + b == b;
    } else {
      assert (a + b)[1..] == a[1..] + b;
      DebitsAdd(a[1..], b, who, denom);
    }
  }

  // What reaches `who` on the chain in `denom`; a transfer to another chain reaches nobody here.
  function Receipt(m: Msg, who: string, denom: string): int {
    match m
    case Send(_, to, amount, d) => if to == who && d == denom then amount else 0
    case IbcTransfer(_, _, _, _, _) => 0
    case Exec(_, _, to, amount, d) => if to == who && d == denom then amount else 0
    case Grant(_, _, _, _) => 0
  }

  function Receipts(msgs: seq<Msg>, who: string, denom: string): int {
    if msgs == [] then 0 else Receipt(msgs[0], who, denom) + Receipts(msgs[1..], who, denom)
  }

  lemma {:induction false} ReceiptsAdd(a: seq<Msg>, b: seq<Msg>, who: string, denom: string)
    ensures Receipts(a + b, who, denom) == Receipts(a, who, denom) + Receipts(b, who, denom)
    decreases |a|
  {
    if a == [] {
      assert a + b == b;
    } else {
      assert (a + b)[1..] == a[1..] + b;
      ReceiptsAdd(a[1..], b, who, denom);
    }
  }

  // ---- what assembly promises ----

  lemma {:induction false} CarriedConcat(a: seq<TxInscription>, b: seq<TxInscription>)
    ensures Carried(a + b) == Carried(a) + Carried(b)
    ensures TotalFee(a + b) == AddFee(TotalFee(a), TotalFee(b))
    decreases |b|
  {
    if b == [] {
      assert a + b == a;
    } else {
      var init, last := b[..|b| - 1], b[|b| - 1];
      assert (a + b)[..|a + b| - 1] == a + init && (a + b)[|a + b| - 1] == last;
      CarriedConcat(a, init);
      assert Carried(a + b) == Carried(a + init) + last.messages.GetOr([]);
      assert Carried(b) == Carried(init) + last.messages.GetOr([]);
      assert TotalFee(a + b) == AddFee(TotalFee(a + init), ParseInt(last.fee.operation));
      assert TotalFee(b) == AddFee(TotalFee(init), ParseInt(last.fee.operation));
    }
  }

  lemma {:induction false} OptionsConcat(e: Encoder, a: seq<TxInscription>, b: seq<TxInscription>, isMultiOp: bool,
                                         extension: bool)
    ensures AllOptions(e, a + b, isMultiOp, extension)
         == JoinOptions(AllOptions(e, a, isMultiOp, extension), AllOptions(e, b, isMultiOp, extension))
    decreases |b|
  {
    hide OptionsFor;
    var first := AllOptions(e, a, isMultiOp, extension);
    if b == [] {
      assert a + b == a;
      assert first.Ok? ==> first.value + [] == first.value;
    } else {
      var init, last := b[..|b| - 1], b[|b| - 1];
      assert (a + b)[..|a + b| - 1] == a + init && (a + b)[|a + b| - 1] == last;
      OptionsConcat(e, a, init, isMultiOp, extension);
      JoinAssociates(first, AllOptions(e, init, isMultiOp, extension), OptionsFor(e, last, isMultiOp, extension));
    }
  }

  lemma JoinAssociates(a: Result<seq<ExtensionOption>, TxError>, b: Result<seq<ExtensionOption>, TxError>,
                       c: Result<seq<ExtensionOption>, TxError>)
    ensures JoinOptions(JoinOptions(a, b), c) == JoinOptions(a, JoinOptions(b, c))
  {
    if a.Ok? && b.Ok? && c.Ok? {
      assert a.value + b.value + c.value == a.value + (b.value + c.value);
    }
  }

  // A transaction of one inscription
  lemma OneInscription(e: Encoder, sender: string, urn: string, x: TxInscription, o: PrepareTxOptions)
    ensures var carried, fee := x.messages.GetOr([]), ParseInt(x.fee.operation);
      && Carried([x]) == carried && TotalFee([x]) == fee
      && Prepared(e, sender, urn, [x], o) == Ok(TxData(urn,
           carried + Appended(sender, x.fee.protocol, UsesIbc(o), fee, carried),
           if x.data.None? then []
           else if UsesExtensionData(o) then [Extension(GetExtensionData(e, x, x.data.value))]
           else [GetMsgRevoke(x)]))
  {
    hide GetExtensionData, GetMsgRevoke, Appended;
    assert [x][..0] == [];
    assert Carried([x]) == [] + x.messages.GetOr([]) == x.messages.GetOr([]);
    assert TotalFee([x]) == ParseInt(x.fee.operation);
    assert AllOptions(e, [x][..0], false, UsesExtensionData(o)) == Ok([]);
    assert OptionsFor(e, x, false, UsesExtensionData(o)).Ok?;
    var options := OptionsFor(e, x, false, UsesExtensionData(o)).value;
    assert [] + options == options;
  }

  // The option an inscription gets, in either mode
  ghost predicate IsOptionOf(e: Encoder, x: TxInscription, extension: bool, option: ExtensionOption) {
    if extension then
      option.Extension? && x.data.Some? && option.value == GetExtensionData(e, x, x.data.value)
    else
      && option.Revoke? && option.urn == x.urn
      && (match x.data
          case None => option.granter == None && option.grantee == []
          case Some(d) =>
            && option.granter == Some(InscriptionData(d.metadata, None, d.parentType, d.parentIdentifier))
            && option.grantee == if d.content.Some? then d.content.value else [])
  }

  lemma OneOption(e: Encoder, x: TxInscription, extension: bool)
    ensures OptionsFor(e, x, true, extension).Ok? <==> (extension ==> x.data.Some?)
    ensures OptionsFor(e, x, true, extension).Ok? ==>
      var options := OptionsFor(e, x, true, extension).value;
      |options| == 1 && IsOptionOf(e, x, extension, options[0])
  {
    hide GetExtensionData;
  }

  // Every inscription of a multi-operation transaction yields its own option, at its own position; in extension
  // mode the assembly goes through exactly when all have data.
  lemma {:induction false} OneOptionEach(e: Encoder, xs: seq<TxInscription>, extension: bool)
    ensures AllOptions(e, xs, true, extension).Ok? <==> (extension ==> forall k :: 0 <= k < |xs| ==> xs[k].data.Some?)
    ensures AllOptions(e, xs, true, extension).Ok? ==>
      var options := AllOptions(e, xs, true, extension).value;
      |options| == |xs| && forall k :: 0 <= k < |xs| ==> IsOptionOf(e, xs[k], extension, options[k])
    decreases |xs|
  {
    hide OptionsFor, IsOptionOf;
    if xs != [] {
      var init := xs[..|xs| - 1];
      OneOptionEach(e, init, extension);
      OneOption(e, xs[|xs| - 1], extension);
      assert forall k :: 0 <= k < |init| ==> init[k] == xs[k];
    }
  }

  // Putting two lists together concatenates what they carry, adds their fees and concatenates the options each
  // yields as part of a multi-operation transaction; it fails exactly when one of the parts would.
  lemma AssemblyIsHomomorphic(e: Encoder, sender: string, urn: string,
                              a: seq<TxInscription>, b: seq<TxInscription>, o: PrepareTxOptions)
    requires a != [] && b != []
    ensures var whole := Prepared(e, sender, urn, a + b, o);
      var forA, forB := AllOptions(e, a, true, UsesExtensionData(o)), AllOptions(e, b, true, UsesExtensionData(o));
      && (whole.Ok? <==> forA.Ok? && forB.Ok?)
      && (whole.Ok? ==>
            && Carried(a) + Carried(b) <= whole.value.messages
            && whole.value.options == forA.value + forB.value)
    ensures TotalFee(a + b) == AddFee(TotalFee(a), TotalFee(b))
    ensures |a| > 1 && Prepared(e, sender, urn, a, o).Ok? ==>
      Ok(Prepared(e, sender, urn, a, o).value.options) == AllOptions(e, a, true, UsesExtensionData(o))
  {
    hide OptionsFor;
    CarriedConcat(a, b);
    OptionsConcat(e, a, b, true, UsesExtensionData(o));
  }

  // The carried messages stay in front; at most one message is added: the fee, or, with no fee and nothing
  // carried, 1 of the fee denom sent to oneself. So a transaction is never empty.
  lemma AtMostOneAppended(e: Encoder, sender: string, urn: string, xs: seq<TxInscription>, o: PrepareTxOptions)
    requires Prepared(e, sender, urn, xs, o).Ok?
    ensures var msgs := Prepared(e, sender, urn, xs, o).value.messages;
      && |msgs| > 0
      && Carried(xs) <= msgs
      && |msgs| <= |Carried(xs)| + 1
      && (|msgs| == |Carried(xs)| + 1 <==> (TotalFee(xs).Some? && TotalFee(xs).value > 0) || Carried(xs) == [])
      && (IsPositive(TotalFee(xs)) ==>
            if o.useIbc.Absent? || o.useIbc == Given(true) then
              msgs[|msgs| - 1] == IbcTransfer(sender, xs[0].fee.protocol.receiver, xs[0].fee.protocol.ibcChannel,
                                              TotalFee(xs).value, xs[0].fee.protocol.denom)
            else
              msgs[|msgs| - 1]
              == Send(sender, xs[0].fee.protocol.receiver, TotalFee(xs).value, xs[0].fee.protocol.denom))
      && (!(TotalFee(xs).Some? && TotalFee(xs).value > 0) && Carried(xs) == [] ==>
            msgs == [Send(sender, sender, 1, xs[0].fee.protocol.denom)])
  {
    var carried := Carried(xs);
    assert carried <= carried + Appended(sender, xs[0].fee.protocol, UsesIbc(o), TotalFee(xs), carried);
  }

  // The bank and the IBC path move the same amounts out of every account.
  lemma PathsMoveTheSame(e: Encoder, sender: string, urn: string, xs: seq<TxInscription>,
                         o: PrepareTxOptions, ibc: Setting, who: string, denom: string)
    requires Prepared(e, sender, urn, xs, o).Ok?
    ensures var other := Prepared(e, sender, urn, xs, o.(useIbc := ibc));
      && other.Ok?
      && Debits(other.value.messages, who, denom)
      == Debits(Prepared(e, sender, urn, xs, o).value.messages, who, denom)
  {
    hide AllOptions, Carried, TotalFee;
    var carried, protocol, fee := Carried(xs), xs[0].fee.protocol, TotalFee(xs);
    var one := Appended(sender, protocol, UsesIbc(o), fee, carried);
    var two := Appended(sender, protocol, UsesIbc(o.(useIbc := ibc)), fee, carried);
    DebitsAdd(carried, one, who, denom);
    DebitsAdd(carried, two, who, denom);
    if one != [] {
      assert one[1..] == [] && two[1..] == [];
    }
  }

  // What an extension option of an inscription is found to hold: in the outer message the protocol's id and its
  // version without the letter in front, in the inner one the inscription's own fields
  ghost predicate Holds(e: Encoder, x: TxInscription, outer: P.ExtensionData)
    requires x.data.Some?
  {
    && outer.protocolId == e.utf8("asteroid:" + x.protocolName)
    && outer.protocolVersion == e.utf8(x.protocolVersion[if x.protocolVersion == "" then 0 else 1..])
    && P.WholeInscription(outer.data) == Ok(P.Inscription(
         (match x.data.value.parentType case None => [] case Some(t) => e.utf8(t)),
         (match x.data.value.parentIdentifier case None => [] case Some(t) => e.utf8(t)),
         e.json(x.data.value.metadata),
         (match x.data.value.content case None => [] case Some(c) => c)))
  }

  predicate Fits(value: P.ExtensionData) {
    |value.protocolId| < UINT32 && |value.protocolVersion| < UINT32 && |value.data| < UINT32
  }

  // The option of an inscription decodes, in two steps, to the texts of its protocol and the bytes it was made of:
  // exactly when the protocol texts and the encoded inscription stay below 2^32 bytes.
  lemma ExtensionCarriesInscription(e: Encoder, x: TxInscription)
    requires x.data.Some?
    ensures var value := GetExtensionData(e, x, x.data.value);
      var outer := P.WholeExtensionData(P.EncodedExtensionData(value));
      (outer.Ok? && outer.value == value && Holds(e, x, outer.value)) <==> Fits(value)
  {
    hide P.EncodedInscription, P.EncodedExtensionData, P.WholeInscription, P.WholeExtensionData;
    P.NestedRoundTrip(InnerInscription(e, x.data.value), GetExtensionData(e, x, x.data.value));
  }

  // A reader of an option that is short enough finds the inscription.
  ghost predicate Carries(e: Encoder, x: TxInscription, option: ExtensionOption) {
    && x.data.Some? && option.Extension?
    && (Fits(option.value) ==>
          var outer := P.WholeExtensionData(P.EncodedExtensionData(option.value));
          outer.Ok? && Holds(e, x, outer.value))
  }

  lemma ExtensionCarries(e: Encoder, x: TxInscription)
    requires x.data.Some?
    ensures Carries(e, x, Extension(GetExtensionData(e, x, x.data.value)))
  {
    ExtensionCarriesInscription(e, x);
    hide P.EncodedExtensionData, P.WholeExtensionData, GetExtensionData, Holds;
  }

  // The options of a whole transaction, when extension data are used: one for each inscription in order, or, for a
  // single inscription, one if it has data; each carries its own.
  lemma OptionsCarryInscriptions(e: Encoder, sender: string, urn: string, xs: seq<TxInscription>, o: PrepareTxOptions)
    requires o.useExtensionData != Given(false) && Prepared(e, sender, urn, xs, o).Ok?
    ensures Prepared(e, sender, urn, xs, o).value.memo == urn
    ensures var options := Prepared(e, sender, urn, xs, o).value.options;
      if |xs| == 1 && xs[0].data.None? then options == []
      else |options| == |xs| && forall k :: 0 <= k < |xs| ==> Carries(e, xs[k], options[k])
  {
    hide Carries, GetExtensionData, Appended, Carried, TotalFee;
    if |xs| == 1 {
      assert xs == [xs[0]];
      OneInscription(e, sender, urn, xs[0], o);
      if xs[0].data.Some? { ExtensionCarries(e, xs[0]); }
    } else {
      OneOptionEach(e, xs, true);
      var options := Prepared(e, sender, urn, xs, o).value.options;
      forall k | 0 <= k < |xs| ensures Carries(e, xs[k], options[k]) {
        assert IsOptionOf(e, xs[k], true, options[k]);
        ExtensionCarries(e, xs[k]);
      }
    }
  }
}

/** The step every operation class takes: one inscription, handed back as it is or made into a transaction. */
module Operations {
  import opened Wrappers
  import opened Numbers
  import opened Tx

  datatype OperationFee = OperationFee(amount: string, percent: Option<real>)

  datatype Operation = Operation(urn: string, fee: OperationFee)

  datatype Base = Base(protocolName: string, protocolVersion: string, fee: ProtocolFee, address: string,
                       useIbc: Setting, useExtensionData: Setting, multi: bool)

  datatype Output = Single(tx: Result<TxData, TxError>) | Multi(inscription: TxInscription)

  // An options object without the key reads as undefined, and undefined is what is passed on.
  function PassOn(s: Setting): Setting {
    if s.Absent? then Undefined else s
  }

  function AsInscription(b: Base, operation: Operation, data: Option<InscriptionData>,
                         feeOverride: Option<string>, messages: Option<seq<Msg>>): TxInscription
  {
    TxInscription(b.protocolName, b.protocolVersion, operation.urn, data,
                  TxFee(b.fee, feeOverride.GetOr(operation.fee.amount)), messages)
  }

  function PrepareOperation(e: Encoder, b: Base, operation: Operation, data: Option<InscriptionData>,
                            feeOverride: Option<string>, messages: Option<seq<Msg>>): Output
  {
    var x := AsInscription(b, operation, data, feeOverride, messages);
    if b.multi then Multi(x)
    else Single(Prepared(e, b.address, x.urn, [x],
                         PrepareTxOptions(PassOn(b.useIbc), PassOn(b.useExtensionData))))
  }

  // What comes of an operation once it is submitted: its transaction, or, if it was handed back, the transaction that
  // whoever asked for it makes of it alone, with the same settings.
  function Submit(e: Encoder, b: Base, out: Output): Result<TxData, TxError> {
    match out
    case Single(tx) => tx
    case Multi(x) =>
      Prepared(e, b.address, x.urn, [x], PrepareTxOptions(PassOn(b.useIbc), PassOn(b.useExtensionData)))
  }

  // An operation that is handed back loses nothing: made into a transaction alone, under any settings, it gives what
  // an operations object with these settings would have given at once. It holds what was put into it.
  lemma HandedBackIsWhole(e: Encoder, b: Base, operation: Operation, data: Option<InscriptionData>,
                          feeOverride: Option<string>, messages: Option<seq<Msg>>, ibc: Setting, extension: Setting)
    ensures var back := PrepareOperation(e, b.(multi := true), operation, data, feeOverride, messages);
      var other := b.(useIbc := ibc, useExtensionData := extension, multi := false);
      var single := PrepareOperation(e, other, operation, data, feeOverride, messages);
      && back.Multi? && single.Single?
      && Prepared(e, b.address, back.inscription.urn, [back.inscription],
                  PrepareTxOptions(PassOn(ibc), PassOn(extension)))
      == single.tx
      && Submit(e, other, back) == Submit(e, other, single)
      && back.inscription.urn == operation.urn && back.inscription.data == data
      && back.inscription.messages == messages && back.inscription.fee.protocol == b.fee
      && back.inscription.fee.operation
      == (if feeOverride.Some? then feeOverride.value else operation.fee.amount)
      && back.inscription.protocolName == b.protocolName && back.inscription.protocolVersion == b.protocolVersion
  {
    hide Prepared;
  }

  // A single operation always makes a transaction, whose memo is the operation's URN and whose one option, if
  // there is data, is its own. The fee goes by IBC only if the options say so outright: prepareTx's own default
  // of true never comes into play here.
  lemma SingleOperation(e: Encoder, b: Base, operation: Operation, data: Option<InscriptionData>,
                        feeOverride: Option<string>, messages: Option<seq<Msg>>)
    ensures var out := Submit(e, b, PrepareOperation(e, b, operation, data, feeOverride, messages));
      && out.Ok?
      && out.value.memo == operation.urn
      && |out.value.options| == (if data.Some? then 1 else 0)
      && messages.GetOr([]) <= out.value.messages
      && (TotalFee([AsInscription(b, operation, data, feeOverride, messages)])
          == ParseInt(feeOverride.GetOr(operation.fee.amount)))
      && ((exists m :: m in out.value.messages[|messages.GetOr([])|..] && m.IbcTransfer?) <==>
          b.useIbc == Given(true) && IsPositive(ParseInt(feeOverride.GetOr(operation.fee.amount))))
  {
    var x := AsInscription(b, operation, data, feeOverride, messages);
    var o := PrepareTxOptions(PassOn(b.useIbc), PassOn(b.useExtensionData));
    var carried, fee := messages.GetOr([]), ParseInt(x.fee.operation);
    OneInscription(e, b.address, x.urn, x, o);
    hide Prepared, GetExtensionData, GetMsgRevoke, ParseInt, Carried, TotalFee;
    AppendedByIbc(b.address, b.fee, UsesIbc(o), fee, carried);
  }

  lemma AppendedByIbc(sender: string, protocol: ProtocolFee, useIbc: bool, fee: Option<int>, carried: seq<Msg>)
    ensures var all := carried + Appended(sender, protocol, useIbc, fee, carried);
      && carried <= all
      && ((exists m :: m in all[|carried|..] && m.IbcTransfer?) <==> useIbc && IsPositive(fee))
  {
    var added := Appended(sender, protocol, useIbc, fee, carried);
    assert (carried + added)[|carried|..] == added;
    assert added != [] && added[0].IbcTransfer? <==> useIbc && IsPositive(fee);
    assert |added| <= 1 && forall m :: m in added ==> m == added[0];
  }
}
