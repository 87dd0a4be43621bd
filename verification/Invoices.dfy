/** Invoices, credit notes and the cancellation that needs one. Asking the tax
    authority takes seconds, so a request is cut into short transactions with
    the authority's answer in between; whatever other requests do meanwhile
    happens between those transactions. */
module Invoices {
  import opened Prelude
  import opened Vat
  import FeCae

  datatype Letter = A | B | C

  datatype Voucher = TicketX | Factura(letter: Letter) | NotaDeCredito(letter: Letter)

  datatype Status = Issued | Rejected

  datatype Figures = Figures(subtotalNeto: int, vatAmount: int, total: int)

  datatype Invoice = Invoice(order: nat, voucher: Voucher, status: Status, related: Option<nat>, figures: Figures)

  datatype Order = Order(items: seq<Item>, cancelled: bool)

  /** A request between two of its transactions. */
  datatype Task =
    | Selling(order: nat, letter: Letter)     // the authority is asked for an invoice
    | Refunding(order: nat, original: nat)    // a cancellation that needs a credit note
    | Voiding(order: nat, original: nat)      // the authority is asked for the credit note
    | Closing(order: nat)                     // a cancellation ready for its last phase

  datatype Fiscal = Fiscal(orders: seq<Order>, invoices: seq<Invoice>, tasks: multiset<Task>)

  datatype Error = OrderNotFound | OrderCancelled | AlreadyInvoiced | AlreadyCancelled | ShiftClosed
                 | AlreadyVoided | RefusedByAuthority | NotInProgress

  // ----- Operations -----

  function FiguresOf(items: seq<Item>): Figures {
    var a := FeCae.AmountsOf(items);
    Figures(a.importeNeto + a.importeExento + a.importeNoGravado, a.importeIva, a.importeTotal)
  }

  /** creditNoteTypeFor. */
  function CreditNoteFor(v: Voucher): Option<Voucher> {
    match v
    case Factura(letter) => Some(NotaDeCredito(letter))
    case _ => None
  }

  /** A voucher of the sale itself, whatever became of it. */
  predicate IsSale(i: Invoice, order: nat) { i.order == order && !i.voucher.NotaDeCredito? }

  predicate IsLive(i: Invoice, order: nat) { IsSale(i, order) && i.status == Issued }

  predicate IsFiscal(i: Invoice, order: nat) { IsLive(i, order) && i.voucher.Factura? }

  predicate HasSale(invoices: seq<Invoice>, order: nat) {
    exists k :: 0 <= k < |invoices| && IsSale(invoices[k], order)
  }

  predicate HasNote(invoices: seq<Invoice>, original: nat) {
    exists k :: 0 <= k < |invoices| && invoices[k].related == Some(original)
  }

  /** findFirst over the issued vouchers of the sale. */
  function FirstLive(invoices: seq<Invoice>, order: nat): Option<nat>
  {
    if |invoices| == 0 then None else
      var n := |invoices| - 1;
      var before := FirstLive(invoices[..n], order);
      if before.Some? then before else if IsLive(invoices[n], order) then Some(n) else None
  }

  /** loadOrderAndCustomer: the checks of every sale voucher. */
  function CheckInvoiceable(s: Fiscal, order: nat): Option<Error> {
    if order >= |s.orders| then Some(OrderNotFound)
    else if s.orders[order].cancelled then Some(OrderCancelled)
    else if HasSale(s.invoices, order) then Some(AlreadyInvoiced)
    else None
  }

  function PlaceOrder(s: Fiscal, items: seq<Item>): Result<Fiscal, Error> {
    Ok(s.(orders := s.orders + [Order(items, false)]))
  }

  /** The internal ticket checks and writes in one transaction. */
  function IssueTicketX(s: Fiscal, order: nat): Result<Fiscal, Error> {
    var bad := CheckInvoiceable(s, order);
    if bad.Some? then Err(bad.value) else
      Ok(s.(invoices := s.invoices + [Invoice(order, TicketX, Issued, None, FiguresOf(s.orders[order].items))]))
  }

  function PrepareSale(s: Fiscal, order: nat, letter: Letter): Result<Fiscal, Error> {
    var bad := CheckInvoiceable(s, order);
    if bad.Some? then Err(bad.value) else Ok(s.(tasks := s.tasks + multiset{Selling(order, letter)}))
  }

  /** Nothing is checked again; a refusal is kept as a rejected invoice. */
  function PersistSale(s: Fiscal, order: nat, letter: Letter, approved: bool): Result<Fiscal, Error> {
    if Selling(order, letter) !in s.tasks then Err(NotInProgress)
    else if order >= |s.orders| then Err(OrderNotFound)
    else Ok(s.(tasks := s.tasks - multiset{Selling(order, letter)},
               invoices := s.invoices + [Invoice(order, Factura(letter), if approved then Issued else Rejected, None,
                                                 FiguresOf(s.orders[order].items))]))
  }

  /** The first phase of a cancellation: is a credit note needed? */
  function BeginCancel(s: Fiscal, order: nat, shiftOpen: bool): Result<Fiscal, Error> {
    if order >= |s.orders| then Err(OrderNotFound)
    else if s.orders[order].cancelled then Err(AlreadyCancelled)
    else if !shiftOpen then Err(ShiftClosed)
    else
      var live := FirstLive(s.invoices, order);
      var next := if live.Some? && live.value < |s.invoices| && CreditNoteFor(s.invoices[live.value].voucher).Some?
                  then Refunding(order, live.value) else Closing(order);
      Ok(s.(tasks := s.tasks + multiset{next}))
  }

  function PrepareNote(s: Fiscal, order: nat, original: nat): Result<Fiscal, Error> {
    if Refunding(order, original) !in s.tasks then Err(NotInProgress)
    else if HasNote(s.invoices, original) then Err(AlreadyVoided)
    else Ok(s.(tasks := s.tasks - multiset{Refunding(order, original)} + multiset{Voiding(order, original)}))
  }

  /** A refusal leaves nothing behind, and `relatedInvoiceId` is unique. */
  function PersistNote(s: Fiscal, order: nat, original: nat, approved: bool): Result<Fiscal, Error> {
    if Voiding(order, original) !in s.tasks then Err(NotInProgress)
    else if !approved then Err(RefusedByAuthority)
    else if original >= |s.invoices| || s.invoices[original].order >= |s.orders| then Err(OrderNotFound)
    else if CreditNoteFor(s.invoices[original].voucher).None? then Err(NotInProgress)
    else if HasNote(s.invoices, original) then Err(AlreadyVoided)
    else
      var o := s.invoices[original].order;
      Ok(s.(tasks := s.tasks - multiset{Voiding(order, original)} + multiset{Closing(order)},
            invoices := s.invoices
                + [Invoice(o, CreditNoteFor(s.invoices[original].voucher).value, Issued, Some(original),
                                              FiguresOf(s.orders[o].items))]))
  }

  function CommitCancel(s: Fiscal, order: nat): Result<Fiscal, Error> {
    if Closing(order) !in s.tasks then Err(NotInProgress)
    else if order >= |s.orders| then Err(OrderNotFound)
    else if s.orders[order].cancelled then Err(AlreadyCancelled)
    else Ok(s.(tasks := s.tasks - multiset{Closing(order)},
               orders := s.orders[order := s.orders[order].(cancelled := true)]))
  }

  // ----- Runs -----

  datatype Event =
    | EvOrder(items: seq<Item>)
    | EvTicket(order: nat)
    | EvPrepareSale(order: nat, letter: Letter)
    | EvPersistSale(order: nat, letter: Letter, approved: bool)
    | EvBegin(order: nat, shiftOpen: bool)
    | EvPrepareNote(order: nat, original: nat)
    | EvPersistNote(order: nat, original: nat, approved: bool)
    | EvCommit(order: nat)
    | EvDie(task: Task)  // the process stops, or a timeout cuts the request short

  function Attempt(s: Fiscal, e: Event): Result<Fiscal, Error> {
    match e
    case EvOrder(items) => PlaceOrder(s, items)
    case EvTicket(order) => IssueTicketX(s, order)
    case EvPrepareSale(order, letter) => PrepareSale(s, order, letter)
    case EvPersistSale(order, letter, approved) => PersistSale(s, order, letter, approved)
    case EvBegin(order, shiftOpen) => BeginCancel(s, order, shiftOpen)
    case EvPrepareNote(order, original) => PrepareNote(s, order, original)
    case EvPersistNote(order, original, approved) => PersistNote(s, order, original, approved)
    case EvCommit(order) => CommitCancel(s, order)
    case EvDie(task) => Err(NotInProgress)
  }

  /** The request whose next transaction an event runs. */
  function TaskOf(e: Event): multiset<Task> {
    match e
    case EvPersistSale(order, letter, _) => multiset{Selling(order, letter)}
    case EvPrepareNote(order, original) => multiset{Refunding(order, original)}
    case EvPersistNote(order, original, _) => multiset{Voiding(order, original)}
    case EvCommit(order) => multiset{Closing(order)}
    case EvDie(task) => multiset{task}
    case _ => multiset{}
  }

  /** A transaction that throws is rolled back and ends its request. */
  function Step(s: Fiscal, e: Event): Fiscal {
    var r := Attempt(s, e);
    if r.Ok? then r.value else s.(tasks := s.tasks - TaskOf(e))
  }

  function Exec(s: Fiscal, run: seq<Event>): Fiscal
  {
    if |run| == 0 then s else Step(Exec(s, run[..|run| - 1]), run[|run| - 1])
  }

  // ----- What holds in every run, however requests overlap -----

  predicate Declares(s: Fiscal) {
    forall k :: 0 <= k < |s.invoices| ==>
      s.invoices[k].order < |s.orders| && s.invoices[k].figures == FiguresOf(s.orders[s.invoices[k].order].items)
  }

  /** A credit note mirrors the invoice it voids. */
  predicate Mirrors(note: Invoice, original: Invoice) {
    && IsFiscal(original, note.order)
    && note.voucher == NotaDeCredito(original.voucher.letter) && note.status == Issued
    && note.figures == original.figures
  }

  predicate NotesMirror(invoices: seq<Invoice>) {
    forall k :: 0 <= k < |invoices| ==>
      (invoices[k].related.Some? <==> invoices[k].voucher.NotaDeCredito?)
      && (invoices[k].related.Some? ==>
            invoices[k].related.value < k && Mirrors(invoices[k], invoices[invoices[k].related.value]))
  }

  predicate OneNoteEach(invoices: seq<Invoice>) {
    forall i, j :: 0 <= i < j < |invoices| && invoices[i].related.Some? ==> invoices[i].related != invoices[j].related
  }

  predicate TaskSound(s: Fiscal, t: Task) {
    && t.order < |s.orders|
    && (t.Refunding? || t.Voiding? ==> t.original < |s.invoices| && IsFiscal(s.invoices[t.original], t.order))
  }

  ghost predicate TasksSound(s: Fiscal) { forall t :: t in s.tasks ==> TaskSound(s, t) }

  ghost predicate Sound(s: Fiscal) {
    Declares(s) && NotesMirror(s.invoices) && OneNoteEach(s.invoices) && TasksSound(s)
  }

  lemma {:induction false} FirstLiveFound(invoices: seq<Invoice>, order: nat)
    ensures var r := FirstLive(invoices, order);
            && (r.Some? ==> r.value < |invoices| && IsLive(invoices[r.value], order))
            && (r.None? ==> forall k :: 0 <= k < |invoices| ==> !IsLive(invoices[k], order))
    decreases |invoices|
  {
    if |invoices| > 0 {
      FirstLiveFound(invoices[..|invoices| - 1], order);
    }
  }

  lemma StepSound(s: Fiscal, e: Event)
    requires Sound(s)
    ensures Sound(Step(s, e))
  {
    if Attempt(s, e).Ok? {
      match e
      case EvOrder(items) => PlaceSound(s, items);
      case EvTicket(order) => TicketSound(s, order);
      case EvPrepareSale(order, letter) => JoinSound(s, Selling(order, letter));
      case EvPersistSale(order, letter, approved) => PersistSaleSound(s, order, letter, approved);
      case EvBegin(order, shiftOpen) => BeginSound(s, order, shiftOpen);
      case EvPrepareNote(order, original) => PrepareNoteSound(s, order, original);
      case EvPersistNote(order, original, _) => PersistNoteSound(s, order, original);
      case EvCommit(order) => CommitSound(s, order);
    } else {
      LeaveSound(s, TaskOf(e));
    }
  }

  lemma LeaveSound(s: Fiscal, gone: multiset<Task>)
    requires Sound(s)
    ensures Sound(s.(tasks := s.tasks - gone))
  {
  }

  lemma JoinSound(s: Fiscal, t: Task)
    requires Sound(s) && TaskSound(s, t)
    ensures Sound(s.(tasks := s.tasks + multiset{t}))
  {
  }

  lemma BeginSound(s: Fiscal, order: nat, shiftOpen: bool)
    requires Sound(s) && BeginCancel(s, order, shiftOpen).Ok?
    ensures Sound(BeginCancel(s, order, shiftOpen).value)
  {
    FirstLiveFound(s.invoices, order);
  }

  lemma PlaceSound(s: Fiscal, items: seq<Item>)
    requires Sound(s)
    ensures Sound(PlaceOrder(s, items).value)
  {
    var t := PlaceOrder(s, items).value;
    assert forall k :: 0 <= k < |s.orders| ==> t.orders[k] == s.orders[k];
  }

  lemma TicketSound(s: Fiscal, order: nat)
    requires Sound(s) && IssueTicketX(s, order).Ok?
    ensures Sound(IssueTicketX(s, order).value)
  {
    SaleAppended(s, IssueTicketX(s, order).value.invoices[|s.invoices|]);
  }

  lemma PersistSaleSound(s: Fiscal, order: nat, letter: Letter, approved: bool)
    requires Sound(s) && PersistSale(s, order, letter, approved).Ok?
    ensures Sound(PersistSale(s, order, letter, approved).value)
  {
    SaleAppended(s.(tasks := s.tasks - multiset{Selling(order, letter)}),
                 PersistSale(s, order, letter, approved).value.invoices[|s.invoices|]);
  }

  lemma SaleAppended(s: Fiscal, sale: Invoice)
    requires Sound(s) && sale.order < |s.orders| && sale.figures == FiguresOf(s.orders[sale.order].items)
    requires sale.related.None? && !sale.voucher.NotaDeCredito?
    ensures Sound(s.(invoices := s.invoices + [sale]))
  {
  }

  lemma PrepareNoteSound(s: Fiscal, order: nat, original: nat)
    requires Sound(s) && PrepareNote(s, order, original).Ok?
    ensures Sound(PrepareNote(s, order, original).value)
  {
    assert TaskSound(s, Refunding(order, original));
    assert forall task :: task in PrepareNote(s, order, original).value.tasks ==>
        task in s.tasks || task == Voiding(order, original);
  }

  lemma PersistNoteSound(s: Fiscal, order: nat, original: nat)
    requires Sound(s) && PersistNote(s, order, original, true).Ok?
    ensures Sound(PersistNote(s, order, original, true).value)
  {
    assert TaskSound(s, Voiding(order, original));
    var t, n := PersistNote(s, order, original, true).value, |s.invoices|;
    NoteAppended(s.invoices, t.invoices[n], original);
    assert t.invoices == s.invoices + [t.invoices[n]];
    forall task | task in t.tasks
      ensures TaskSound(t, task)
    {
      assert task in s.tasks || task == Closing(order);
      assert task in s.tasks ==> TaskSound(s, task);
    }
  }

  lemma NoteAppended(invoices: seq<Invoice>, note: Invoice, original: nat)
    requires NotesMirror(invoices) && OneNoteEach(invoices) && original < |invoices|
    requires note.related == Some(original) && Mirrors(note, invoices[original]) && !HasNote(invoices, original)
    ensures NotesMirror(invoices + [note]) && OneNoteEach(invoices + [note])
  {
    var after := invoices + [note];
    forall i, j | 0 <= i < j < |after| && after[i].related.Some?
      ensures after[i].related != after[j].related
    {
      assert invoices[i].related == after[i].related;
    }
  }

  lemma CommitSound(s: Fiscal, order: nat)
    requires Sound(s) && CommitCancel(s, order).Ok?
    ensures Sound(CommitCancel(s, order).value)
  {
    var t := CommitCancel(s, order).value;
    forall k | 0 <= k < |t.invoices|
      ensures t.invoices[k].order < |t.orders|
      ensures t.invoices[k].figures == FiguresOf(t.orders[t.invoices[k].order].items)
    {
      assert t.orders[t.invoices[k].order].items == s.orders[t.invoices[k].order].items;
    }
  }

  lemma {:induction false} RunSound(s: Fiscal, run: seq<Event>)
    requires Sound(s)
    ensures Sound(Exec(s, run))
    decreases |run|
  {
    if |run| > 0 {
      RunSound(s, run[..|run| - 1]);
      StepSound(Exec(s, run[..|run| - 1]), run[|run| - 1]);
    }
  }

  predicate AllRatesMatch(s: Fiscal) { forall o :: 0 <= o < |s.orders| ==> RatesMatch(s.orders[o].items) }

  predicate AddsUp(f: Figures) { f.subtotalNeto + f.vatAmount == f.total }

  /** However requests overlap: every voucher stores the amounts of its order,
      which add up; an invoice has at most one credit note, and the note voids an
      issued invoice of the same order, class and amounts. */
  lemma NotesMirrorInvoices(s: Fiscal, run: seq<Event>)
    requires Sound(s) && AllRatesMatch(Exec(s, run))
    ensures var t := Exec(s, run);
            && Declares(t) && NotesMirror(t.invoices) && OneNoteEach(t.invoices)
            && forall i :: 0 <= i < |t.invoices| ==> AddsUp(t.invoices[i].figures)
  {
    RunSound(s, run);
    var t := Exec(s, run);
    forall i | 0 <= i < |t.invoices|
      ensures AddsUp(t.invoices[i].figures)
    {
      FeCae.AmountsAddUp(t.orders[t.invoices[i].order].items);
    }
  }

  // ----- What holds when issuing an invoice overlaps nothing else of its order -----

  predicate OneSaleEach(invoices: seq<Invoice>) {
    forall i, j :: 0 <= i < j < |invoices| && !invoices[i].voucher.NotaDeCredito? && !invoices[j].voucher.NotaDeCredito?
      ==> invoices[i].order != invoices[j].order
  }

  predicate Voided(invoices: seq<Invoice>, order: nat) {
    forall k :: 0 <= k < |invoices| && IsFiscal(invoices[k], order) ==> HasNote(invoices, k)
  }

  /** No cancelled sale is still alive at the tax authority. */
  predicate CancelledAreVoided(s: Fiscal) {
    forall o :: 0 <= o < |s.orders| && s.orders[o].cancelled ==> Voided(s.invoices, o)
  }

  predicate NoSelling(s: Fiscal, order: nat) { forall letter :: Selling(order, letter) !in s.tasks }

  ghost predicate NoTask(s: Fiscal, order: nat) { forall t :: t in s.tasks ==> t.order != order }

  /** Cancellations may overlap each other, and orders do not affect each other. */
  ghost predicate Polite(s: Fiscal, e: Event) {
    match e
    case EvTicket(order) => NoSelling(s, order)
    case EvPrepareSale(order, _) => NoTask(s, order)
    case EvBegin(order, _) => NoSelling(s, order)
    case _ => true
  }

  ghost predicate PoliteRun(s: Fiscal, run: seq<Event>) {
    forall k :: 0 <= k < |run| ==> Polite(Exec(s, run[..k]), run[k])
  }

  /** What a request waiting for the authority may rely on. */
  ghost predicate TaskSafe(s: Fiscal, t: Task) {
    && t.order < |s.orders|
    && (t.Selling? ==>
          && !s.orders[t.order].cancelled && !HasSale(s.invoices, t.order) && s.tasks[t] == 1
          && forall u :: u in s.tasks && u.order == t.order ==> u == t)
    && (t.Closing? ==> Voided(s.invoices, t.order))
  }

  ghost predicate Calm(s: Fiscal) {
    && OneSaleEach(s.invoices) && CancelledAreVoided(s)
    && forall t :: t in s.tasks ==> TaskSafe(s, t)
  }

  lemma HasNoteGrows(invoices: seq<Invoice>, more: Invoice, order: nat)
    requires Voided(invoices, order) && !IsFiscal(more, order)
    ensures Voided(invoices + [more], order)
  {
    var after := invoices + [more];
    forall k | 0 <= k < |after| && IsFiscal(after[k], order)
      ensures HasNote(after, k)
    {
      var j :| 0 <= j < |invoices| && invoices[j].related == Some(k);
      assert after[j].related == Some(k);
    }
  }

  lemma TicketCalm(s: Fiscal, order: nat)
    requires Calm(s) && NoSelling(s, order) && IssueTicketX(s, order).Ok?
    ensures Calm(IssueTicketX(s, order).value)
  {
    var t := IssueTicketX(s, order).value;
    AppendCalm(s, t);
  }

  /** One more voucher that is not an issued invoice disturbs nobody. */
  lemma AppendCalm(s: Fiscal, t: Fiscal)
    requires Calm(s) && t.orders == s.orders && |t.invoices| == |s.invoices| + 1
    requires t.invoices == s.invoices + [t.invoices[|s.invoices|]]
    requires t.tasks <= s.tasks
    requires var i := t.invoices[|s.invoices|];
             && !i.voucher.Factura?
             && (!i.voucher.NotaDeCredito? ==> NoSelling(s, i.order) && !HasSale(s.invoices, i.order))
    ensures Calm(t)
  {
    var i := t.invoices[|s.invoices|];
    forall o | Voided(s.invoices, o)
      ensures Voided(t.invoices, o)
    {
      HasNoteGrows(s.invoices, i, o);
    }
    forall task | task in t.tasks
      ensures TaskSafe(t, task)
    {
      assert TaskSafe(s, task);
      if task.Selling? {
        assert i.voucher.NotaDeCredito? || task.order != i.order;
        assert 0 < t.tasks[task] <= s.tasks[task];
        assert !HasSale(t.invoices, task.order);
      }
    }
    assert OneSaleEach(t.invoices);
  }

  lemma PersistSaleCalm(s: Fiscal, order: nat, letter: Letter, approved: bool)
    requires Calm(s) && PersistSale(s, order, letter, approved).Ok?
    ensures Calm(PersistSale(s, order, letter, approved).value)
  {
    var t := PersistSale(s, order, letter, approved).value;
    var sale := Selling(order, letter);
    assert TaskSafe(s, sale);
    forall o | o != order && Voided(s.invoices, o)
      ensures Voided(t.invoices, o)
    {
      HasNoteGrows(s.invoices, t.invoices[|s.invoices|], o);
    }
    forall task | task in t.tasks
      ensures TaskSafe(t, task)
    {
      assert TaskSafe(s, task) && task in s.tasks;
      assert task != sale && task.order != order;
      assert task.Selling? ==> !HasSale(t.invoices, task.order);
      assert forall u :: u in t.tasks ==> u in s.tasks;
    }
  }

  lemma PersistNoteCalm(s: Fiscal, order: nat, original: nat)
    requires Sound(s) && Calm(s) && PersistNote(s, order, original, true).Ok?
    ensures Calm(PersistNote(s, order, original, true).value)
  {
    var t := PersistNote(s, order, original, true).value;
    assert TaskSafe(s, Voiding(order, original)) && TaskSound(s, Voiding(order, original));
    var mid := t.(tasks := s.tasks - multiset{Voiding(order, original)});
    assert mid.tasks <= s.tasks;
    AppendCalm(s, mid);
    forall k | 0 <= k < |t.invoices| && IsFiscal(t.invoices[k], order)
      ensures HasNote(t.invoices, k)
    {
      assert k == original;
      assert t.invoices[|s.invoices|].related == Some(original);
    }
    WithTaskCalm(mid, Closing(order));
    assert t == mid.(tasks := mid.tasks + multiset{Closing(order)});
  }

  /** A request that issues no invoice may join when nobody is issuing one. */
  lemma WithTaskCalm(s: Fiscal, t: Task)
    requires Calm(s) && !t.Selling? && t.order < |s.orders|
    requires t.Closing? ==> Voided(s.invoices, t.order)
    requires NoSelling(s, t.order) || exists u :: u in s.tasks && u.order == t.order && !u.Selling?
    ensures Calm(s.(tasks := s.tasks + multiset{t}))
  {
    var after := s.(tasks := s.tasks + multiset{t});
    forall task | task in after.tasks
      ensures TaskSafe(after, task)
    {
      if task != t {
        assert task in s.tasks && TaskSafe(s, task);
        if task.Selling? {
          assert task.order != t.order;
        }
      }
    }
  }

  lemma BeginCalm(s: Fiscal, order: nat)
    requires Calm(s) && NoSelling(s, order) && BeginCancel(s, order, true).Ok?
    ensures Calm(BeginCancel(s, order, true).value)
  {
    FirstLiveFound(s.invoices, order);
    var live := FirstLive(s.invoices, order);
    if live.Some? && s.invoices[live.value].voucher.Factura? {
      WithTaskCalm(s, Refunding(order, live.value));
    } else {
      assert forall k :: 0 <= k < |s.invoices| && IsFiscal(s.invoices[k], order) ==> live.Some? && k == live.value;
      WithTaskCalm(s, Closing(order));
    }
  }

  lemma PrepareSaleCalm(s: Fiscal, order: nat, letter: Letter)
    requires Calm(s) && NoTask(s, order) && PrepareSale(s, order, letter).Ok?
    ensures Calm(PrepareSale(s, order, letter).value)
  {
    var t := PrepareSale(s, order, letter).value;
    forall task | task in t.tasks
      ensures TaskSafe(t, task)
    {
      if task == Selling(order, letter) {
        assert s.tasks[task] == 0;
      } else {
        assert task in s.tasks && TaskSafe(s, task);
      }
    }
  }

  lemma PrepareNoteCalm(s: Fiscal, order: nat, original: nat)
    requires Calm(s) && PrepareNote(s, order, original).Ok?
    ensures Calm(PrepareNote(s, order, original).value)
  {
    var waiting, asking := Refunding(order, original), Voiding(order, original);
    assert TaskSafe(s, waiting);
    var mid := s.(tasks := s.tasks - multiset{waiting});
    FewerTasksCalm(s, multiset{waiting});
    forall t | t in s.tasks && t.order == order
      ensures !t.Selling?
    {
      assert TaskSafe(s, t);
    }
    WithTaskCalm(mid, asking);
    assert PrepareNote(s, order, original).value == mid.(tasks := mid.tasks + multiset{asking});
  }

  lemma FewerTasksCalm(s: Fiscal, gone: multiset<Task>)
    requires Calm(s)
    ensures Calm(s.(tasks := s.tasks - gone))
  {
    var t := s.(tasks := s.tasks - gone);
    forall task | task in t.tasks
      ensures TaskSafe(t, task)
    {
      assert TaskSafe(s, task) && 0 < t.tasks[task] <= s.tasks[task];
    }
  }

  lemma CommitCalm(s: Fiscal, order: nat)
    requires Calm(s) && CommitCancel(s, order).Ok?
    ensures Calm(CommitCancel(s, order).value)
  {
    var closing := Closing(order);
    assert TaskSafe(s, closing);
    var mid := s.(tasks := s.tasks - multiset{closing});
    FewerTasksCalm(s, multiset{closing});
    var t := CommitCancel(s, order).value;
    forall task | task in t.tasks
      ensures TaskSafe(t, task)
    {
      assert TaskSafe(mid, task) && TaskSafe(s, task);
      assert task.Selling? ==> task.order != closing.order;
    }
  }

  lemma PlaceCalm(s: Fiscal, items: seq<Item>)
    requires Sound(s) && Calm(s)
    ensures Calm(PlaceOrder(s, items).value)
  {
    var t := PlaceOrder(s, items).value;
    forall task | task in t.tasks
      ensures TaskSafe(t, task)
    {
      assert TaskSafe(s, task);
    }
  }

  lemma StepCalm(s: Fiscal, e: Event)
    requires Sound(s) && Calm(s) && Polite(s, e)
    ensures Calm(Step(s, e))
  {
    if Attempt(s, e).Err? {
      FewerTasksCalm(s, TaskOf(e));
    } else {
      match e
      case EvOrder(items) => PlaceCalm(s, items);
      case EvTicket(order) => TicketCalm(s, order);
      case EvPrepareSale(order, letter) => PrepareSaleCalm(s, order, letter);
      case EvPersistSale(order, letter, approved) => PersistSaleCalm(s, order, letter, approved);
      case EvBegin(order, _) => BeginCalm(s, order);
      case EvPrepareNote(order, original) => PrepareNoteCalm(s, order, original);
      case EvPersistNote(order, original, _) => PersistNoteCalm(s, order, original);
      case EvCommit(order) => CommitCalm(s, order);
    }
  }

  lemma PoliteParts(s: Fiscal, run: seq<Event>)
    requires PoliteRun(s, run) && |run| > 0
    ensures PoliteRun(s, run[..|run| - 1])
    ensures Polite(Exec(s, run[..|run| - 1]), run[|run| - 1])
  {
    var before := run[..|run| - 1];
    forall k | 0 <= k < |before|
      ensures Polite(Exec(s, before[..k]), before[k])
    {
      assert before[..k] == run[..k];
    }
  }

  lemma {:induction false} RunCalm(s: Fiscal, run: seq<Event>)
    requires Sound(s) && Calm(s) && PoliteRun(s, run)
    ensures Calm(Exec(s, run))
    decreases |run|
  {
    if |run| > 0 {
      var before, e := run[..|run| - 1], run[|run| - 1];
      PoliteParts(s, run);
      RunCalm(s, before);
      RunSound(s, before);
      StepCalm(Exec(s, before), e);
    }
  }

  predicate HasMirror(invoices: seq<Invoice>, original: Invoice, k: nat) {
    exists n :: 0 <= n < |invoices| && invoices[n].related == Some(k) && Mirrors(invoices[n], original)
  }

  /** Every cancelled order with an issued invoice has a credit note for it. */
  predicate CancelledAreMirrored(s: Fiscal) {
    forall o, k :: 0 <= o < |s.orders| && 0 <= k < |s.invoices| && s.orders[o].cancelled && IsFiscal(s.invoices[k], o)
      ==> HasMirror(s.invoices, s.invoices[k], k)
  }

  /** If issuing an invoice overlaps no other voucher or cancellation of its
      order, each order has at most one sale voucher in every run, and every
      cancelled order with an issued invoice has a credit note that mirrors it. */
  lemma CancelledSalesAreVoided(s: Fiscal, run: seq<Event>)
    requires Sound(s) && Calm(s) && PoliteRun(s, run)
    ensures OneSaleEach(Exec(s, run).invoices)
    ensures CancelledAreMirrored(Exec(s, run))
  {
    RunSound(s, run);
    RunCalm(s, run);
    VoidedAreMirrored(Exec(s, run));
  }

  lemma VoidedAreMirrored(s: Fiscal)
    requires Sound(s) && CancelledAreVoided(s)
    ensures CancelledAreMirrored(s)
  {
    forall o, k | 0 <= o < |s.orders| && 0 <= k < |s.invoices| && s.orders[o].cancelled && IsFiscal(s.invoices[k], o)
      ensures HasMirror(s.invoices, s.invoices[k], k)
    {
      assert HasNote(s.invoices, k);
      var n :| 0 <= n < |s.invoices| && s.invoices[n].related == Some(k);
      assert Mirrors(s.invoices[n], s.invoices[k]);
    }
  }

  // ----- Exactly what an overlap breaks -----

  lemma FourSteps(s: Fiscal, a: Event, b: Event, c: Event, d: Event)
    ensures Exec(s, [a, b, c, d]) == Step(Step(Step(Step(s, a), b), c), d)
  {
    var run := [a, b, c, d];
    assert run[..3] == [a, b, c] && run[..3][..2] == [a, b] && [a, b][..1] == [a] && [a][..0] == [];
    assert Exec(s, [a]) == Step(s, a);
    assert Exec(s, [a, b]) == Step(Step(s, a), b);
    assert Exec(s, [a, b, c]) == Step(Step(Step(s, a), b), c);
  }

  /** The last step of an invoice repeats a voucher exactly when another one was
      written while the authority was being asked. */
  lemma PersistKeepsOneSaleIff(s: Fiscal, order: nat, letter: Letter, approved: bool)
    requires OneSaleEach(s.invoices) && PersistSale(s, order, letter, approved).Ok?
    ensures OneSaleEach(PersistSale(s, order, letter, approved).value.invoices) <==> !HasSale(s.invoices, order)
  {
    var t := PersistSale(s, order, letter, approved).value;
    if HasSale(s.invoices, order) {
      var k :| 0 <= k < |s.invoices| && IsSale(s.invoices[k], order);
      assert t.invoices[k] == s.invoices[k] && t.invoices[|s.invoices|].order == order;
    }
  }

  /** The events after which a cancelled sale is alive at the authority. */
  predicate LeavesAlive(s: Fiscal, e: Event) {
    match e
    case EvPersistSale(order, letter, approved) =>
      approved && PersistSale(s, order, letter, approved).Ok? && s.orders[order].cancelled
    case EvCommit(order) => CommitCancel(s, order).Ok? && !Voided(s.invoices, order)
    case _ => false
  }

  lemma NoMoreFiscal(s: Fiscal, t: Fiscal)
    requires CancelledAreVoided(s) && t.orders == s.orders && |t.invoices| == |s.invoices| + 1
    requires t.invoices[..|s.invoices|] == s.invoices && !t.invoices[|s.invoices|].voucher.Factura?
    ensures CancelledAreVoided(t)
  {
    assert t.invoices == s.invoices + [t.invoices[|s.invoices|]];
    forall o | Voided(s.invoices, o)
      ensures Voided(t.invoices, o)
    {
      HasNoteGrows(s.invoices, t.invoices[|s.invoices|], o);
    }
  }

  lemma CommitVoidsIff(s: Fiscal, order: nat)
    requires CancelledAreVoided(s) && CommitCancel(s, order).Ok?
    ensures CancelledAreVoided(CommitCancel(s, order).value) <==> Voided(s.invoices, order)
  {
    var t := CommitCancel(s, order).value;
    assert t.invoices == s.invoices && t.orders[order].cancelled;
  }

  lemma StepVoidsIff(s: Fiscal, e: Event)
    requires Sound(s) && CancelledAreVoided(s)
    ensures CancelledAreVoided(Step(s, e)) <==> !LeavesAlive(s, e)
  {
    if Attempt(s, e).Ok? {
      match e
      case EvOrder(items) => FreshOrderHasNothing(s);
      case EvTicket(order) => NoMoreFiscal(s, Step(s, e));
      case EvPersistSale(order, letter, approved) => PersistSaleVoidsIff(s, order, letter, approved);
      case EvPersistNote(order, original, _) => NoMoreFiscal(s, Step(s, e));
      case EvCommit(order) => CommitVoidsIff(s, order);
      case _ => OnlyTasksChange(s, e);
    }
  }

  lemma OnlyTasksChange(s: Fiscal, e: Event)
    requires e.EvPrepareSale? || e.EvBegin? || e.EvPrepareNote? || e.EvDie?
    ensures Step(s, e).orders == s.orders && Step(s, e).invoices == s.invoices
  {
  }

  lemma FreshOrderHasNothing(s: Fiscal)
    requires Sound(s)
    ensures Voided(s.invoices, |s.orders|)
  {
  }

  lemma PersistSaleVoidsIff(s: Fiscal, order: nat, letter: Letter, approved: bool)
    requires Sound(s) && CancelledAreVoided(s) && PersistSale(s, order, letter, approved).Ok?
    ensures CancelledAreVoided(PersistSale(s, order, letter, approved).value)
       <==> !(approved && s.orders[order].cancelled)
  {
    var t, n := PersistSale(s, order, letter, approved).value, |s.invoices|;
    forall o | !IsFiscal(t.invoices[n], o) && Voided(s.invoices, o)
      ensures Voided(t.invoices, o)
    {
      HasNoteGrows(s.invoices, t.invoices[n], o);
    }
    if approved && s.orders[order].cancelled {
      assert IsFiscal(t.invoices[n], order);
      assert !HasNote(t.invoices, n) by {
        assert forall k :: 0 <= k < n ==> t.invoices[k] == s.invoices[k];
      }
      assert t.orders[order].cancelled;
    }
  }

  /** One unit of something at 1.21, with its VAT. */
  function OneLine(): seq<Item> { [Item(121, Iva21, 21.0)] }

  function NoInvoices(): Fiscal { Fiscal([], [], multiset{}) }

  function Overlap(): seq<Event> {
    [EvOrder(OneLine()), EvPrepareSale(0, B), EvBegin(0, true), EvCommit(0), EvPersistSale(0, B, true)]
  }

  /** Such an overlap: the order is cancelled while its invoice is being
      requested, and ends cancelled with a live invoice. */
  lemma OverlapLeavesInvoiceAlive()
    ensures CancelledAreVoided(Exec(NoInvoices(), Overlap()[..4]))
    ensures !CancelledAreVoided(Exec(NoInvoices(), Overlap()))
  {
    var run := Overlap();
    FourSteps(NoInvoices(), run[0], run[1], run[2], run[3]);
    assert run[..4] == [run[0], run[1], run[2], run[3]];
    assert Step(NoInvoices(), run[0]) == Fiscal([Order(OneLine(), false)], [], multiset{});
    var s2 := Fiscal([Order(OneLine(), false)], [], multiset{Selling(0, B), Closing(0)});
    BothStart(Step(NoInvoices(), run[0]), s2);
    var s3 := Fiscal([Order(OneLine(), true)], [], multiset{Selling(0, B)});
    CommitsBeside(s2, s3);
    InvoicedTooLate(s3);
  }

  lemma BothStart(s: Fiscal, after: Fiscal)
    requires s == Fiscal([Order(OneLine(), false)], [], multiset{})
    requires after == s.(tasks := multiset{Selling(0, B), Closing(0)})
    ensures Step(Step(s, EvPrepareSale(0, B)), EvBegin(0, true)) == after
  {
    var s1 := s.(tasks := multiset{Selling(0, B)});
    assert Step(s, EvPrepareSale(0, B)) == s1;
    assert FirstLive(s1.invoices, 0) == None;
    assert s1.tasks + multiset{Closing(0)} == after.tasks;
  }

  lemma CommitsBeside(s: Fiscal, after: Fiscal)
    requires s == Fiscal([Order(OneLine(), false)], [], multiset{Selling(0, B), Closing(0)})
    requires after == Fiscal([Order(OneLine(), true)], [], multiset{Selling(0, B)})
    ensures Step(s, EvCommit(0)) == after
  {
    assert s.tasks - multiset{Closing(0)} == after.tasks;
  }

  lemma InvoicedTooLate(s: Fiscal)
    requires s == Fiscal([Order(OneLine(), true)], [], multiset{Selling(0, B)})
    ensures !CancelledAreVoided(Step(s, EvPersistSale(0, B, true)))
  {
    var t := PersistSale(s, 0, B, true).value;
    assert t.invoices == [Invoice(0, Factura(B), Issued, None, FiguresOf(OneLine()))];
    assert t.orders[0].cancelled && IsFiscal(t.invoices[0], 0) && !HasNote(t.invoices, 0);
  }

  // ----- A credit note whose cancellation never finished -----

  /** The credit note exists, and whoever is still cancelling is behind it. */
  predicate Behind(t: Task, original: nat) {
    !t.Closing? && (t.Refunding? || t.Voiding? ==> t.original == original)
  }

  ghost predicate Stuck(s: Fiscal, order: nat, original: nat) {
    && order < |s.orders| && !s.orders[order].cancelled
    && FirstLive(s.invoices, order) == Some(original)
    && original < |s.invoices| && s.invoices[original].voucher.Factura?
    && HasNote(s.invoices, original)
    && forall t :: t in s.tasks && t.order == order ==> Behind(t, original)
  }

  lemma InvoicesGrow(s: Fiscal, e: Event)
    ensures s.invoices <= Step(s, e).invoices && |Step(s, e).invoices| <= |s.invoices| + 1
  {
  }

  lemma FirstLiveStays(s: Fiscal, e: Event, order: nat, original: nat)
    requires FirstLive(s.invoices, order) == Some(original) && HasNote(s.invoices, original)
    ensures FirstLive(Step(s, e).invoices, order) == Some(original) && HasNote(Step(s, e).invoices, original)
  {
    InvoicesGrow(s, e);
    var before, after := s.invoices, Step(s, e).invoices;
    var j :| 0 <= j < |before| && before[j].related == Some(original);
    assert after[j] == before[j];
    if |after| > |before| {
      assert after[..|after| - 1] == before;
    }
  }

  lemma BehindStays(s: Fiscal, e: Event, order: nat, original: nat, task: Task)
    requires Stuck(s, order, original) && task in Step(s, e).tasks && task.order == order
    ensures Behind(task, original)
  {
    if e.EvPrepareNote? || e.EvPersistNote? {
      NoSecondNote(s, e, order, original, task);
    } else if task !in s.tasks && Attempt(s, e).Ok? {
      NewTask(s, e, order, original, task);
    }
  }

  lemma NewTask(s: Fiscal, e: Event, order: nat, original: nat, task: Task)
    requires Stuck(s, order, original) && task in Step(s, e).tasks && task !in s.tasks && task.order == order
    requires !e.EvPersistNote? && !e.EvPrepareNote? && Attempt(s, e).Ok?
    ensures Behind(task, original)
  {
    if e.EvPrepareSale? {
    } else if e.EvBegin? {
      NewCancellation(s, e.order, e.shiftOpen, original, task);
    } else {
      NobodyJoins(s, e);
    }
  }

  lemma NewCancellation(s: Fiscal, order: nat, shiftOpen: bool, original: nat, task: Task)
    requires BeginCancel(s, order, shiftOpen).Ok? && task in BeginCancel(s, order, shiftOpen).value.tasks
    requires task !in s.tasks
    requires FirstLive(s.invoices, order) == Some(original) && original < |s.invoices|
    requires s.invoices[original].voucher.Factura?
    ensures task == Refunding(order, original)
  {
  }

  lemma NobodyJoins(s: Fiscal, e: Event)
    requires e.EvOrder? || e.EvTicket? || e.EvPersistSale? || e.EvCommit? || e.EvDie?
    ensures Step(s, e).tasks <= s.tasks
  {
  }

  lemma NoSecondNote(s: Fiscal, e: Event, order: nat, original: nat, task: Task)
    requires Stuck(s, order, original) && task in Step(s, e).tasks && task.order == order
    requires e.EvPrepareNote? || e.EvPersistNote?
    ensures task in s.tasks
  {
    if e.order == order {
      NoteRefused(s, e, order, original);
    }
  }

  /** A credit note of the order is refused, if anyone is still asking for one. */
  lemma NoteRefused(s: Fiscal, e: Event, order: nat, original: nat)
    requires Stuck(s, order, original) && (e.EvPrepareNote? || e.EvPersistNote?) && e.order == order
    ensures Attempt(s, e).Err?
  {
    var asked := if e.EvPrepareNote? then Refunding(order, e.original) else Voiding(order, e.original);
    assert asked in s.tasks ==> Behind(asked, original);
  }

  lemma StuckStays(s: Fiscal, e: Event, order: nat, original: nat)
    requires Stuck(s, order, original)
    ensures Stuck(Step(s, e), order, original)
  {
    FirstLiveStays(s, e, order, original);
    InvoicesGrow(s, e);
    forall task | task in Step(s, e).tasks && task.order == order
      ensures Behind(task, original)
    {
      BehindStays(s, e, order, original, task);
    }
    OrderStays(s, e, order, original);
  }

  lemma OrderStays(s: Fiscal, e: Event, order: nat, original: nat)
    requires Stuck(s, order, original)
    ensures order < |Step(s, e).orders| && !Step(s, e).orders[order].cancelled
  {
    if e == EvCommit(order) {
      assert Closing(order) !in s.tasks by {
        assert !Behind(Closing(order), original);
      }
    }
  }

  lemma {:induction false} StuckForever(s: Fiscal, run: seq<Event>, order: nat, original: nat)
    requires Stuck(s, order, original)
    ensures Stuck(Exec(s, run), order, original)
    decreases |run|
  {
    if |run| > 0 {
      StuckForever(s, run[..|run| - 1], order, original);
      StuckStays(Exec(s, run[..|run| - 1]), run[|run| - 1], order, original);
    }
  }

  ghost predicate CanBeCancelled(s: Fiscal, order: nat) {
    exists run: seq<Event> :: var t := Exec(s, run); order < |t.orders| && t.orders[order].cancelled
  }

  /** An invoiced order with no request under way can still be cancelled, by some
      continuation, exactly when its invoice has no credit note. If the process
      stops between writing the note and cancelling the order, the order stays
      a completed sale for ever while the authority sees it voided. */
  lemma CancellableIffNotVoided(s: Fiscal, order: nat, original: nat)
    requires Sound(s) && order < |s.orders| && !s.orders[order].cancelled && NoTask(s, order)
    requires FirstLive(s.invoices, order) == Some(original) && original < |s.invoices|
    requires s.invoices[original].voucher.Factura?
    ensures CanBeCancelled(s, order) <==> !HasNote(s.invoices, original)
  {
    if HasNote(s.invoices, original) {
      forall run: seq<Event>
        ensures order < |Exec(s, run).orders| && !Exec(s, run).orders[order].cancelled
      {
        StuckForever(s, run, order, original);
      }
    } else {
      FirstLiveFound(s.invoices, order);
      CancelRun(s, order, original);
    }
  }

  lemma CancelRun(s: Fiscal, order: nat, original: nat)
    requires order < |s.orders| && !s.orders[order].cancelled && FirstLive(s.invoices, order) == Some(original)
    requires original < |s.invoices| && IsFiscal(s.invoices[original], order) && !HasNote(s.invoices, original)
    ensures CanBeCancelled(s, order)
  {
    var a, b, c, d :=
        EvBegin(order, true), EvPrepareNote(order, original), EvPersistNote(order, original, true), EvCommit(order);
    FourSteps(s, a, b, c, d);
    var s1 := s.(tasks := s.tasks + multiset{Refunding(order, original)});
    assert Step(s, a) == s1;
    NoteGranted(s1, order, original);
    CommitGranted(Step(Step(s1, b), c), order);
    assert Exec(s, [a, b, c, d]).orders[order].cancelled;
  }

  lemma CommitGranted(s: Fiscal, order: nat)
    requires order < |s.orders| && !s.orders[order].cancelled && Closing(order) in s.tasks
    ensures var t := Step(s, EvCommit(order)); order < |t.orders| && t.orders[order].cancelled
  {
  }

  lemma NoteGranted(s: Fiscal, order: nat, original: nat)
    requires order < |s.orders| && Refunding(order, original) in s.tasks
    requires original < |s.invoices| && IsFiscal(s.invoices[original], order) && !HasNote(s.invoices, original)
    ensures var t := Step(Step(s, EvPrepareNote(order, original)), EvPersistNote(order, original, true));
            Closing(order) in t.tasks && t.orders == s.orders
  {
    var mid := PrepareNote(s, order, original).value;
    assert Step(s, EvPrepareNote(order, original)) == mid;
    assert Voiding(order, original) in mid.tasks;
    assert PersistNote(mid, order, original, true).Ok?;
  }
}
