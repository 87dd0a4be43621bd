/** The invoice service and the fiscal side of a cancellation, over the tables
    they write. */
module FiscalDesk {
  import opened Prelude
  import opened Vat
  import FeCae
  import opened Invoices

  /** A request that fails changes no table and is over. */
  ghost predicate Outcome(spec: Result<Fiscal, Error>, before: Fiscal, own: multiset<Task>, after: Fiscal,
                          error: Option<Error>) {
    match spec
    case Ok(s) => error == None && after == s
    case Err(e) => error == Some(e) && after == before.(tasks := before.tasks - own)
  }

  /** Credit notes mirror their invoices, each order has one sale voucher, and no
      cancelled sale is alive at the authority. */
  ghost predicate Valid(s: Fiscal) { Sound(s) && Calm(s) }

  ghost predicate Kept(before: Fiscal, e: Event, after: Fiscal) {
    && (Sound(before) ==> Sound(after))
    && (Valid(before) && Polite(before, e) ==> Valid(after))
  }

  lemma OutcomeKeepsValid(before: Fiscal, e: Event, after: Fiscal, error: Option<Error>)
    requires Outcome(Attempt(before, e), before, TaskOf(e), after, error)
    ensures Kept(before, e, after)
  {
    assert after == Step(before, e);
    if Sound(before) {
      StepSound(before, e);
      if Calm(before) && Polite(before, e) {
        StepCalm(before, e);
      }
    }
  }

  class Desk {
    var orders: seq<Order>
    var invoices: seq<Invoice>
    var tasks: multiset<Task>

    function State(): Fiscal
      reads this
    {
      Fiscal(orders, invoices, tasks)
    }

    constructor ()
      ensures State() == Fiscal([], [], multiset{})
    {
      orders, invoices, tasks := [], [], multiset{};
    }

    method TakeOrder(items: seq<Item>) returns (error: Option<Error>)
      modifies this
      ensures Outcome(PlaceOrder(old(State()), items), old(State()), multiset{}, State(), error)
    {
      orders := orders + [Order(items, false)];
      error := None;
    }

    /** A request that is cut short. */
    method Die(task: Task) returns (error: Option<Error>)
      modifies this
      ensures Outcome(Err(NotInProgress), old(State()), multiset{task}, State(), error)
    {
      tasks := tasks - multiset{task};
      error := Some(NotInProgress);
    }

    /** The amounts as the invoice columns take them. */
    method Amounts(items: seq<Item>) returns (figures: Figures)
      ensures figures == FiguresOf(items)
    {
      var amounts := FeCae.BuildFeCaeAmounts(items);
      figures := Figures(amounts.importeNeto + amounts.importeExento + amounts.importeNoGravado,
                         amounts.importeIva, amounts.importeTotal);
    }

    method IssueTicket(order: nat) returns (error: Option<Error>)
      modifies this
      ensures Outcome(IssueTicketX(old(State()), order), old(State()), multiset{}, State(), error)
    {
      error := CheckInvoiceable(State(), order);
      if error.Some? { return; }
      var figures := Amounts(orders[order].items);
      invoices := invoices + [Invoice(order, TicketX, Issued, None, figures)];
    }

    /** issueFiscal up to the call to the authority. */
    method StartInvoice(order: nat, letter: Letter) returns (error: Option<Error>)
      modifies this
      ensures Outcome(PrepareSale(old(State()), order, letter), old(State()), multiset{}, State(), error)
    {
      error := CheckInvoiceable(State(), order);
      if error.Some? { return; }
      tasks := tasks + multiset{Selling(order, letter)};
    }

    /** issueFiscal from the authority's answer on. */
    method FinishInvoice(order: nat, letter: Letter, approved: bool) returns (error: Option<Error>)
      modifies this
      ensures Outcome(PersistSale(old(State()), order, letter, approved), old(State()),
                      multiset{Selling(order, letter)},
                      State(), error)
    {
      if Selling(order, letter) !in tasks { return Some(NotInProgress); }
      tasks := tasks - multiset{Selling(order, letter)};
      if order >= |orders| { return Some(OrderNotFound); }
      var figures := Amounts(orders[order].items);
      invoices := invoices + [Invoice(order, Factura(letter), if approved then Issued else Rejected, None, figures)];
      error := None;
    }

    /** The first phase of cancel. */
    method StartCancel(order: nat, shiftOpen: bool) returns (error: Option<Error>)
      modifies this
      ensures Outcome(BeginCancel(old(State()), order, shiftOpen), old(State()), multiset{}, State(), error)
    {
      if order >= |orders| { return Some(OrderNotFound); }
      if orders[order].cancelled { return Some(AlreadyCancelled); }
      if !shiftOpen { return Some(ShiftClosed); }
      var live := FindLive(order);
      if live.Some? && invoices[live.value].voucher.Factura? {
        tasks := tasks + multiset{Refunding(order, live.value)};
      } else {
        tasks := tasks + multiset{Closing(order)};
      }
      error := None;
    }

    method FindLive(order: nat) returns (found: Option<nat>)
      ensures found == FirstLive(invoices, order)
      ensures found.Some? ==> found.value < |invoices|
    {
      for i := 0 to |invoices|
        invariant FirstLive(invoices[..i], order) == None
      {
        assert invoices[..i + 1][..i] == invoices[..i];
        if IsLive(invoices[i], order) {
          KeepFirst(invoices, order, i);
          return Some(i);
        }
      }
      assert invoices[..|invoices|] == invoices;
      found := None;
    }

    /** issueCreditNote up to the call to the authority. */
    method StartNote(order: nat, original: nat) returns (error: Option<Error>)
      modifies this
      ensures Outcome(PrepareNote(old(State()), order, original), old(State()), multiset{Refunding(order, original)},
                      State(), error)
    {
      if Refunding(order, original) !in tasks { return Some(NotInProgress); }
      tasks := tasks - multiset{Refunding(order, original)};
      if HasNote(invoices, original) { return Some(AlreadyVoided); }
      tasks := tasks + multiset{Voiding(order, original)};
      error := None;
    }

    /** issueCreditNote from the authority's answer on. */
    method FinishNote(order: nat, original: nat, approved: bool) returns (error: Option<Error>)
      modifies this
      ensures Outcome(PersistNote(old(State()), order, original, approved), old(State()),
                      multiset{Voiding(order, original)},
                      State(), error)
    {
      if Voiding(order, original) !in tasks { return Some(NotInProgress); }
      tasks := tasks - multiset{Voiding(order, original)};
      if !approved { return Some(RefusedByAuthority); }
      if original >= |invoices| || invoices[original].order >= |orders| { return Some(OrderNotFound); }
      var voucher := CreditNoteFor(invoices[original].voucher);
      if voucher.None? { return Some(NotInProgress); }
      if HasNote(invoices, original) { return Some(AlreadyVoided); }
      var figures := Amounts(orders[invoices[original].order].items);
      invoices := invoices + [Invoice(invoices[original].order, voucher.value, Issued, Some(original), figures)];
      tasks := tasks + multiset{Closing(order)};
      error := None;
    }

    /** The last phase of cancel. */
    method FinishCancel(order: nat) returns (error: Option<Error>)
      modifies this
      ensures Outcome(CommitCancel(old(State()), order), old(State()), multiset{Closing(order)}, State(), error)
    {
      if Closing(order) !in tasks { return Some(NotInProgress); }
      tasks := tasks - multiset{Closing(order)};
      if order >= |orders| { return Some(OrderNotFound); }
      if orders[order].cancelled { return Some(AlreadyCancelled); }
      orders := orders[order := orders[order].(cancelled := true)];
      error := None;
    }

    /** The dispatch by kind of request. */
    method Dispatch(e: Event) returns (error: Option<Error>)
      modifies this
      ensures Outcome(Attempt(old(State()), e), old(State()), TaskOf(e), State(), error)
    {
      match e
      case EvOrder(items) => error := TakeOrder(items);
      case EvTicket(order) => error := IssueTicket(order);
      case EvPrepareSale(order, letter) => error := StartInvoice(order, letter);
      case EvPersistSale(order, letter, approved) => error := FinishInvoice(order, letter, approved);
      case EvBegin(order, shiftOpen) => error := StartCancel(order, shiftOpen);
      case EvPrepareNote(order, original) => error := StartNote(order, original);
      case EvPersistNote(order, original, approved) => error := FinishNote(order, original, approved);
      case EvCommit(order) => error := FinishCancel(order);
      case EvDie(task) => error := Die(task);
    }

    /** Whatever is requested, credit notes mirror their invoices; and if issuing
        overlaps nothing of its order, no cancelled sale stays alive. */
    method Process(e: Event) returns (error: Option<Error>)
      modifies this
      ensures Outcome(Attempt(old(State()), e), old(State()), TaskOf(e), State(), error)
      ensures Kept(old(State()), e, State())
    {
      ghost var before := State();
      error := Dispatch(e);
      OutcomeKeepsValid(before, e, State(), error);
    }
  }

  lemma {:induction false} KeepFirst(invoices: seq<Invoice>, order: nat, i: nat)
    requires i < |invoices| && FirstLive(invoices[..i], order) == None && IsLive(invoices[i], order)
    ensures FirstLive(invoices, order) == Some(i)
    decreases |invoices|
  {
    var n := |invoices| - 1;
    if i < n {
      assert invoices[..n][..i] == invoices[..i];
      KeepFirst(invoices[..n], order, i);
    }
  }
}
