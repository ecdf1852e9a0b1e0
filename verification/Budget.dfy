/**
 * The minter's spend limit over time: the page grants for reservations, the bot spends mint by mint, and the page
 * computes each grant from a cached reading of the limit that may be missing or out of date.
 */
module Budget {
  import opened Wrappers
  import B = MintBot

  const MINT_FEE: nat := 100000

  datatype Reservation = Reservation(address: string, price: nat, open: bool)

  // Open starts the page anew, with nothing read; Refresh reads the limit; Reserve grants and reserves in one
  // transaction, of which the reservation may not be taken.
  // `grants` and `reservations` are on chain; `cache` is what the minter's page last read; `current` holds the
  // addresses whose page has read the limit since its last own grant.
  datatype State = State(
    grants: map<string, nat>, reservations: seq<Reservation>, cache: map<string, nat>, current: set<string>)

  datatype Event =
    | Open(address: string)
    | Refresh(address: string)
    | Reserve(address: string, price: nat, amount: nat, taken: bool)
    | Mint(index: nat, fee: nat)
    | Expire(index: nat)

  const START := State(map[], [], map[], {})

  // A limit that is used up is no grant at all.
  function GrantOf(s: State, address: string): nat {
    if address in s.grants then s.grants[address] else 0
  }

  // authorizedAmount ?? 0
  function Cached(s: State, address: string): nat {
    if address in s.cache then s.cache[address] else 0
  }

  // requiredAmount of the mint page, which replaces the grant
  function PageGrant(price: nat, amount: nat, cached: nat): nat {
    (MINT_FEE + price) * amount + cached
  }

  function Cost(r: Reservation): nat {
    MINT_FEE + r.price
  }

  function Copies(r: Reservation, amount: nat): (s: seq<Reservation>)
    ensures |s| == amount && forall k :: 0 <= k < amount ==> s[k] == r
  {
    seq(amount, _ => r)
  }

  function Authorization(s: State, address: string): B.Authorization {
    if address in s.grants then B.SpendLimit(Some(s.grants[address])) else B.NoGrant
  }

  function Spent(s: State, address: string, amount: nat): State
    requires amount <= GrantOf(s, address)
  {
    var left := GrantOf(s, address) - amount;
    s.(grants := if left == 0 then s.grants - {address} else s.grants[address := left])
  }

  function Closed(s: State, index: nat): State
    requires index < |s.reservations|
  {
    s.(reservations := s.reservations[index := s.reservations[index].(open := false)])
  }

  // Whether the bot goes through with a mint: the reservation is open and checkGrant lets it pass
  predicate MintGoesThrough(s: State, index: nat, fee: nat) {
    && index < |s.reservations| && s.reservations[index].open
    && var r := s.reservations[index];
       B.CheckGrant(Authorization(s, r.address), fee, Some(r.price)).Ok?
  }

  function Apply(s: State, e: Event): State {
    match e
    case Open(a) => s.(cache := s.cache - {a}, current := s.current - {a})
    case Refresh(a) => s.(cache := s.cache[a := GrantOf(s, a)], current := s.current + {a})
    case Reserve(a, price, amount, taken) =>
      s.(grants := s.grants[a := PageGrant(price, amount, Cached(s, a))],
         reservations := s.reservations + (if taken then Copies(Reservation(a, price, true), amount) else []),
         current := s.current - {a})
    case Mint(index, fee) =>
      if MintGoesThrough(s, index, fee)
      then
        var r := s.reservations[index];
        Closed(Spent(s, r.address, B.RequiredAmount(fee, Some(r.price))), index)
      else s
    case Expire(index) => if index < |s.reservations| then Closed(s, index) else s
  }

  function Run(s: State, events: seq<Event>): State
    decreases events
  {
    if events == [] then s else Run(Apply(s, events[0]), events[1..])
  }

  // ---- what is owed ----

  function Owed(reservations: seq<Reservation>, address: string): nat {
    if reservations == [] then 0
    else (if reservations[0].open && reservations[0].address == address then Cost(reservations[0]) else 0)
         + Owed(reservations[1..], address)
  }

  ghost predicate Funded(s: State) {
    forall a :: GrantOf(s, a) >= Owed(s.reservations, a)
  }

  // A reading that is current is not below the limit: only the bot has touched it since.
  ghost predicate ReadingsHold(s: State) {
    forall a :: a in s.current ==> Cached(s, a) >= GrantOf(s, a)
  }

  // The page grants only on a reading made since its last own grant, and an estimate plus the 1 uatom self-send
  // stays within the mint fee.
  predicate Disciplined(s: State, e: Event) {
    match e
    case Reserve(a, _, _, _) => a in s.current
    case Mint(_, fee) => fee + 1 <= MINT_FEE
    case _ => true
  }

  predicate DisciplinedRun(s: State, events: seq<Event>)
    decreases events
  {
    events == [] || (Disciplined(s, events[0]) && DisciplinedRun(Apply(s, events[0]), events[1..]))
  }

  lemma {:induction false} OwedAdds(a: seq<Reservation>, b: seq<Reservation>, address: string)
    ensures Owed(a + b, address) == Owed(a, address) + Owed(b, address)
    decreases |a|
  {
    if a == [] {
      assert a + b == b;
    } else {
      assert (a + b)[1..] == a[1..] + b;
      OwedAdds(a[1..], b, address);
    }
  }

  lemma {:induction false} OwedCopies(r: Reservation, amount: nat, address: string)
    ensures Owed(Copies(r, amount), address) == if r.open && r.address == address then Cost(r) * amount else 0
  {
    if amount > 0 {
      assert Copies(r, amount)[1..] == Copies(r, amount - 1);
      OwedCopies(r, amount - 1, address);
    }
  }

  lemma OwedClosed(reservations: seq<Reservation>, index: nat, address: string)
    requires index < |reservations|
    ensures var r := reservations[index];
      Owed(reservations[index := r.(open := false)], address)
      == Owed(reservations, address) - (if r.open && r.address == address then Cost(r) else 0)
  {
    var r := reservations[index];
    var before, after := reservations[..index], reservations[index + 1..];
    assert reservations == before + ([r] + after);
    assert reservations[index := r.(open := false)] == before + ([r.(open := false)] + after);
    OwedAdds(before, [r] + after, address);
    OwedAdds(before, [r.(open := false)] + after, address);
    OwedAdds([r], after, address);
    OwedAdds([r.(open := false)], after, address);
    assert [r][1..] == [] && [r.(open := false)][1..] == [];
  }

  // ---- one step ----

  // A grant for new reservations covers everything owed exactly when the reading it was computed from did.
  lemma ReserveKeepsFundsExactly(s: State, a: string, price: nat, amount: nat)
    ensures var s' := Apply(s, Reserve(a, price, amount, true));
      && a in s'.grants
      && s'.grants[a] == (100000 + price) * amount + (if a in s.cache then s.cache[a] else 0)
      && (GrantOf(s', a) >= Owed(s'.reservations, a) <==> Cached(s, a) >= Owed(s.reservations, a))
  {
    var r := Reservation(a, price, true);
    OwedAdds(s.reservations, Copies(r, amount), a);
    OwedCopies(r, amount, a);
  }

  // A mint that goes through takes exactly fee + price + 1 from one grant and the reservation's cost off what is
  // owed, so funds are kept exactly while the slack covers what the fee exceeds its allowance by.
  lemma MintKeepsFundsExactly(s: State, index: nat, fee: nat)
    requires MintGoesThrough(s, index, fee)
    ensures var r, s' := s.reservations[index], Apply(s, Mint(index, fee));
      && GrantOf(s', r.address) == GrantOf(s, r.address) - (fee + r.price + 1)
      && (r.address in s'.grants <==> GrantOf(s', r.address) > 0)
      && Owed(s'.reservations, r.address) == Owed(s.reservations, r.address) - (MINT_FEE + r.price)
      && (GrantOf(s', r.address) >= Owed(s'.reservations, r.address) <==>
          GrantOf(s, r.address) - Owed(s.reservations, r.address) >= fee + 1 - MINT_FEE)
      && (forall a :: a != r.address ==>
            GrantOf(s', a) == GrantOf(s, a) && Owed(s'.reservations, a) == Owed(s.reservations, a))
  {
    var r := s.reservations[index];
    forall a ensures Owed(Closed(s, index).reservations, a)
                  == Owed(s.reservations, a) - (if r.address == a then Cost(r) else 0) {
      OwedClosed(s.reservations, index, a);
    }
  }

  lemma ReserveKeepsFunds(s: State, a: string, price: nat, amount: nat, taken: bool)
    requires Funded(s) && ReadingsHold(s) && a in s.current
    ensures var s' := Apply(s, Reserve(a, price, amount, taken)); Funded(s') && ReadingsHold(s')
  {
    var s' := Apply(s, Reserve(a, price, amount, taken));
    var r := Reservation(a, price, true);
    forall b ensures GrantOf(s', b) >= Owed(s'.reservations, b) {
      OwedAdds(s.reservations, if taken then Copies(r, amount) else [], b);
      OwedCopies(r, amount, b);
    }
  }

  lemma ExpireKeepsFunds(s: State, index: nat)
    requires Funded(s) && ReadingsHold(s)
    ensures var s' := Apply(s, Expire(index)); Funded(s') && ReadingsHold(s')
  {
    var s' := Apply(s, Expire(index));
    if index < |s.reservations| {
      forall a ensures GrantOf(s', a) >= Owed(s'.reservations, a) {
        OwedClosed(s.reservations, index, a);
      }
    }
  }

  lemma StepKeepsFunds(s: State, e: Event)
    requires Funded(s) && ReadingsHold(s) && Disciplined(s, e)
    ensures Funded(Apply(s, e)) && ReadingsHold(Apply(s, e))
  {
    match e
    case Open(a) =>
    case Refresh(a) =>
    case Reserve(a, price, amount, taken) => hide Funded, ReadingsHold; ReserveKeepsFunds(s, a, price, amount, taken);
    case Mint(index, fee) =>
      if MintGoesThrough(s, index, fee) { MintKeepsFundsExactly(s, index, fee); }
    case Expire(index) => hide Funded, ReadingsHold; ExpireKeepsFunds(s, index);
  }

  // ---- runs ----

  lemma {:induction false} RunKeepsFunds(s: State, events: seq<Event>)
    requires Funded(s) && ReadingsHold(s) && DisciplinedRun(s, events)
    ensures Funded(Run(s, events)) && ReadingsHold(Run(s, events))
    decreases |events|
  {
    if events != [] {
      StepKeepsFunds(s, events[0]);
      RunKeepsFunds(Apply(s, events[0]), events[1..]);
    }
  }

  lemma {:induction false} OwedAtLeast(reservations: seq<Reservation>, index: nat)
    requires index < |reservations| && reservations[index].open
    ensures Owed(reservations, reservations[index].address) >= Cost(reservations[index])
    decreases index
  {
    if index > 0 {
      OwedAtLeast(reservations[1..], index - 1);
    }
  }

  // Budget: after every disciplined run, each minter's limit covers the cost of all their open reservations, and the
  // bot's check rejects none of these.
  lemma GrantCoversReservations(events: seq<Event>, index: nat, fee: nat)
    requires DisciplinedRun(START, events)
    ensures forall a :: GrantOf(Run(START, events), a) >= Owed(Run(START, events).reservations, a)
    ensures var s := Run(START, events);
      index < |s.reservations| && s.reservations[index].open && fee + 1 <= MINT_FEE ==>
        B.CheckGrant(Authorization(s, s.reservations[index].address), fee, Some(s.reservations[index].price)).Ok?
  {
    RunKeepsFunds(START, events);
    var s := Run(START, events);
    if index < |s.reservations| && s.reservations[index].open {
      OwedAtLeast(s.reservations, index);
    }
  }

  // ---- what the readings are needed for ----

  // A page that is opened anew and grants before it has read the limit replaces the first grant: half of what is
  // owed is covered.
  lemma MissingReadingUnderfunds()
    ensures var s := Run(START, [Reserve("a", 0, 1, true), Open("a"), Reserve("a", 0, 1, true)]);
      GrantOf(s, "a") == 100000 && Owed(s.reservations, "a") == 200000
  {
    var reserve := Reserve("a", 0, 1, true);
    SecondReserve(Apply(Apply(START, reserve), Open("a")));
    RunOfThree(START, reserve, Open("a"), reserve);
  }

  // So does a page that still shows the reading from before its own first grant.
  lemma StaleReadingUnderfunds()
    ensures var s := Run(START, [Refresh("a"), Reserve("a", 0, 1, true), Reserve("a", 0, 1, true)]);
      GrantOf(s, "a") == 100000 && Owed(s.reservations, "a") == 200000
  {
    var reserve := Reserve("a", 0, 1, true);
    SecondReserve(Apply(Apply(START, Refresh("a")), reserve));
    RunOfThree(START, Refresh("a"), reserve, reserve);
  }

  lemma SecondReserve(s: State)
    requires s.reservations == [] + Copies(Reservation("a", 0, true), 1) && Cached(s, "a") == 0
    ensures var s' := Apply(s, Reserve("a", 0, 1, true));
      GrantOf(s', "a") == 100000 && Owed(s'.reservations, "a") == 200000
  {
    var one := Copies(Reservation("a", 0, true), 1);
    assert s.reservations == one;
    OwedAdds(one, one, "a");
    OwedCopies(Reservation("a", 0, true), 1, "a");
  }

  lemma RunOfThree(s: State, e1: Event, e2: Event, e3: Event)
    ensures Run(s, [e1, e2, e3]) == Apply(Apply(Apply(s, e1), e2), e3)
  {
    hide Apply;
    assert [e1, e2, e3][1..] == [e2, e3] && [e2, e3][1..] == [e3] && [e3][1..] == [];
    var s1 := Apply(s, e1);
    var s2 := Apply(s1, e2);
    assert Run(s2, [e3]) == Apply(s2, e3);
    assert Run(s1, [e2, e3]) == Run(s2, [e3]);
  }
}
