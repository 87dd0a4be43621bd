/** The count of the till when a shift is closed: what was counted, what was
    expected, and how much is missing or left over. */
module ShopTill {
  import opened Prelude
  import opened Rounding
  import opened Shop
  import ShopCash

  /** The three figures of a count of `count` against `expected`: a shortage is
      negative. */
  predicate Counted(row: Shift, count: real, expected: int) {
    && !row.isOpen && row.expectedCash == Some(expected)
    && row.actualCash.Some? && -0.5 <= row.actualCash.value as real - count <= 0.5
    && row.difference.Some? && -0.5 <= row.difference.value as real - (count - expected as real) <= 0.5
  }

  /** Where, by whom and with how much the shift was opened. */
  predicate SameOpening(a: Shift, b: Shift) {
    a.store == b.store && a.register == b.register && a.user == b.user && a.initialAmount == b.initialAmount
  }

  /** Closing writes the figures of one open shift and nothing else. */
  lemma CloseCountsTheTill(s: Shop, actor: Actor, shift: nat, count: real)
    requires Close(s, actor, shift, count).Ok?
    ensures var t := Close(s, actor, shift, count).value;
            && shift < |s.shifts| == |t.shifts| && s.shifts[shift].isOpen
            && Counted(t.shifts[shift], count, ExpectedCash(s, shift))
            && t == s.(shifts := s.shifts[shift := t.shifts[shift]])
            && SameOpening(s.shifts[shift], t.shifts[shift])
            && (count == count.Floor as real ==>
                  t.shifts[shift].actualCash == Some(count.Floor)
                  && t.shifts[shift].difference == Some(count.Floor - ExpectedCash(s, shift)))
  {
    if count == count.Floor as real {
      RoundInt(count.Floor);
      RoundInt(count.Floor - ExpectedCash(s, shift));
      assert count - ExpectedCash(s, shift) as real == (count.Floor - ExpectedCash(s, shift)) as real;
    }
  }

  predicate HasFigures(row: Shift) { row.actualCash.Some? && row.expectedCash.Some? && row.difference.Some? }

  /** Expected plus difference is what was counted. */
  predicate RowTallies(row: Shift) {
    HasFigures(row) && row.actualCash.value == row.expectedCash.value + row.difference.value
  }

  /** The three figures are rounded apart from each other, so they can miss by a cent. */
  predicate RowNearlyTallies(row: Shift) {
    HasFigures(row) && -1 <= row.actualCash.value - row.expectedCash.value - row.difference.value <= 1
  }

  predicate Counts(s: Shop) {
    forall i :: 0 <= i < |s.shifts| && !s.shifts[i].isOpen ==> RowNearlyTallies(s.shifts[i])
  }

  predicate Tallied(s: Shop) {
    forall i :: 0 <= i < |s.shifts| && !s.shifts[i].isOpen ==> RowTallies(s.shifts[i])
  }

  /** A count of an odd half cent must fall on the same side of zero as what it
      differs by. */
  predicate CountIsTidy(count: real, expected: int) {
    !IsTie(count) || ((count > expected as real) == (count > 0.0))
  }

  predicate TidyClose(s: Shop, e: Event) {
    e.EvClose? && Attempt(s, e).Ok? ==> CountIsTidy(e.actualCash, ExpectedCash(s, e.shift))
  }

  lemma CloseTalliesIff(s: Shop, actor: Actor, shift: nat, count: real)
    requires Close(s, actor, shift, count).Ok?
    ensures var row := Close(s, actor, shift, count).value.shifts[shift];
            RowNearlyTallies(row) && (RowTallies(row) <==> CountIsTidy(count, ExpectedCash(s, shift)))
  {
    var expected := ExpectedCash(s, shift);
    assert count - expected as real == (-expected) as real + count;
    ColumnAddExact(-expected, count);
  }

  /** 100 cents expected, 50.5 counted: stored as 51 counted and 50 missing. */
  lemma HalfCentCountMisses(s: Shop, actor: Actor, shift: nat)
    requires Close(s, actor, shift, 50.5).Ok? && ExpectedCash(s, shift) == 100
    ensures var row := Close(s, actor, shift, 50.5).value.shifts[shift];
            && row.actualCash == Some(51) && row.expectedCash == Some(100) && row.difference == Some(-50)
            && !RowTallies(row)
  {
    assert IsTie(50.5);
    ColumnRoundTie(50.5);
    assert IsTie(-49.5);
    ColumnRoundTie(-49.5);
  }

  /** The rows there were, and new ones that are open. */
  predicate OnlyOpened(before: seq<Shift>, after: seq<Shift>) {
    && |before| <= |after| && (forall i :: 0 <= i < |before| ==> after[i] == before[i])
    && forall i :: |before| <= i < |after| ==> after[i].isOpen
  }

  lemma OtherStepsOnlyOpen(s: Shop, e: Event)
    requires !e.EvClose? || Attempt(s, e).Err?
    ensures OnlyOpened(s.shifts, Step(s, e).shifts)
  {
    if !e.EvClose? {
      ShopCash.OpenShiftsOnlyAppend(s, e);
      assert forall i :: 0 <= i < |s.shifts| ==> Step(s, e).shifts[i] == s.shifts[i];
    }
  }

  lemma OpenedCountNothing(s: Shop, t: Shop)
    requires OnlyOpened(s.shifts, t.shifts)
    ensures Tallied(t) <==> Tallied(s)
    ensures Counts(s) ==> Counts(t)
  {
    assert forall i :: 0 <= i < |s.shifts| ==> t.shifts[i] == s.shifts[i];
  }

  /** Exactly which step leaves a closed shift whose figures do not add up. */
  lemma StepTalliesIff(s: Shop, e: Event)
    ensures Tallied(Step(s, e)) <==> Tallied(s) && TidyClose(s, e)
    ensures Counts(s) ==> Counts(Step(s, e))
  {
    if e.EvClose? && Attempt(s, e).Ok? {
      var t := Step(s, e);
      CloseCountsTheTill(s, e.actor, e.shift, e.actualCash);
      CloseTalliesIff(s, e.actor, e.shift, e.actualCash);
      assert forall i :: 0 <= i < |s.shifts| && i != e.shift ==> t.shifts[i] == s.shifts[i];
    } else {
      OtherStepsOnlyOpen(s, e);
      OpenedCountNothing(s, Step(s, e));
    }
  }

  /** Every close of the run was tidy in the state it was made in. */
  predicate TidyCloses(s: Shop, run: seq<Event>)
  {
    |run| == 0 ||
      var before := run[..|run| - 1];
      TidyCloses(s, before) && TidyClose(Exec(s, before), run[|run| - 1])
  }

  /** In every run, each closed shift has its three figures, and they add up to the
      cent exactly when every count was tidy when it was made. */
  lemma {:induction false} EveryCountTallies(s: Shop, run: seq<Event>)
    requires Counts(s)
    ensures Counts(Exec(s, run))
    ensures Tallied(Exec(s, run)) <==> Tallied(s) && TidyCloses(s, run)
    decreases |run|
  {
    if |run| > 0 {
      var n := |run| - 1;
      var before := run[..n];
      EveryCountTallies(s, before);
      StepTalliesIff(Exec(s, before), run[n]);
    }
  }

  // ----- Who may open, use and close a shift -----

  /** A cashier works on their own open shift only. */
  predicate MayOperate(s: Shop, actor: Actor, shift: nat) {
    && shift < |s.shifts| && s.shifts[shift].isOpen
    && (actor.role == Cashier ==> s.shifts[shift].user == actor.user)
  }

  lemma OperatesIff(s: Shop, actor: Actor, shift: nat, isInflow: bool, amount: real)
    ensures Close(s, actor, shift, amount).Ok? <==> MayOperate(s, actor, shift)
    ensures AddMovement(s, actor, shift, isInflow, amount).Ok? <==> MayOperate(s, actor, shift)
  {
  }

  /** A register has one open shift at most, in its own store. */
  predicate OneOpenEach(s: Shop) {
    && (forall i :: 0 <= i < |s.shifts| ==>
          s.shifts[i].register in s.registers && s.shifts[i].store == s.registers[s.shifts[i].register].store)
    && (forall i, j :: 0 <= i < j < |s.shifts| && s.shifts[i].isOpen && s.shifts[j].isOpen ==>
          s.shifts[i].register != s.shifts[j].register)
  }

  predicate SomeOpen(s: Shop, register: nat) {
    exists i :: 0 <= i < |s.shifts| && s.shifts[i].register == register && s.shifts[i].isOpen
  }

  /** A shift is opened on an active register without one, for the user who asks and
      with what they count into the drawer. */
  lemma OpenIsAsAsked(s: Shop, register: nat, user: nat, initial: real)
    ensures Open(s, register, user, initial).Ok?
       <==> register in s.registers && s.registers[register].isActive && !SomeOpen(s, register)
    ensures Open(s, register, user, initial).Ok? ==>
              var t, n := Open(s, register, user, initial).value, |s.shifts|;
              && |t.shifts| == n + 1 && t == s.(shifts := s.shifts + [t.shifts[n]]) && t.shifts[n].isOpen
              && t.shifts[n].register == register && t.shifts[n].store == s.registers[register].store
              && t.shifts[n].user == user && t.shifts[n].initialAmount == ColumnRound(initial)
  {
  }

  lemma SaleKeepsShifts(s: Shop, cat: Catalogue, sale: SaleRequest)
    requires Create(s, cat, sale).Ok?
    ensures var t := Create(s, cat, sale).value; t.shifts == s.shifts && t.registers == s.registers
  {
  }

  lemma CommitKeepsShifts(s: Shop, id: nat, tracked: set<nat>)
    requires CancelCommit(s, id, tracked).Ok?
    ensures var t := CancelCommit(s, id, tracked).value; t.shifts == s.shifts && t.registers == s.registers
  {
  }

  lemma ShiftsStay(s: Shop, e: Event)
    requires !e.EvClose? && !e.EvOpen?
    ensures Step(s, e).shifts == s.shifts && Step(s, e).registers == s.registers
  {
    if Attempt(s, e).Ok? {
      match e
      case EvCreate(cat, sale) => SaleKeepsShifts(s, cat, sale);
      case EvCancelCommit(id, tracked) => CommitKeepsShifts(s, id, tracked);
      case _ =>
    }
  }

  lemma StepKeepsOneOpen(s: Shop, e: Event)
    requires OneOpenEach(s)
    ensures OneOpenEach(Step(s, e))
  {
    if e.EvClose? {
      if Attempt(s, e).Ok? { CloseCountsTheTill(s, e.actor, e.shift, e.actualCash); }
    } else if e.EvOpen? {
      OpenIsAsAsked(s, e.register, e.user, e.initial);
    } else {
      ShiftsStay(s, e);
    }
  }

  /** In every run a register has one open shift at most, so its cash is counted in
      one drawer at a time. */
  lemma {:induction false} OneOpenShiftPerRegister(s: Shop, run: seq<Event>)
    requires OneOpenEach(s)
    ensures OneOpenEach(Exec(s, run))
    decreases |run|
  {
    if |run| > 0 {
      OneOpenShiftPerRegister(s, run[..|run| - 1]);
      StepKeepsOneOpen(Exec(s, run[..|run| - 1]), run[|run| - 1]);
    }
  }

  // ----- Cancellations under way -----

  /** How many cancellations of an order an event opens and closes. */
  function Begins(s: Shop, e: Event, id: nat): nat {
    if e == EvCancelBegin(id) && Attempt(s, e).Ok? then 1 else 0
  }

  function Ends(s: Shop, e: Event, id: nat): nat {
    if (e.EvCancelAbort? || e.EvCancelCommit?) && e.order == id && Attempt(s, e).Ok? then 1 else 0
  }

  function BegunMinusEnded(s: Shop, run: seq<Event>, id: nat): int
  {
    if |run| == 0 then 0 else
      var before, last := run[..|run| - 1], run[|run| - 1];
      BegunMinusEnded(s, before, id) + Begins(Exec(s, before), last, id) - Ends(Exec(s, before), last, id)
  }

  lemma CancelsStay(s: Shop, e: Event)
    requires !e.EvCancelBegin? && !e.EvCancelAbort? && !e.EvCancelCommit?
    ensures Step(s, e).cancelling == s.cancelling
  {
    match e
    case EvCreate(cat, sale) => if Attempt(s, e).Ok? { ShopCash.CreateShape(s, cat, sale); }
    case EvClose(_, _, _) => ShopCash.CloseShape(s, e);
    case _ => ShopCash.OtherShape(s, e);
  }

  lemma StepCancels(s: Shop, e: Event, id: nat)
    ensures Step(s, e).cancelling[id] == s.cancelling[id] + Begins(s, e, id) - Ends(s, e, id)
  {
    if e.EvCancelCommit? {
      if Attempt(s, e).Ok? { ShopCash.CommitShape(s, e.order, e.tracked); }
    } else if !e.EvCancelBegin? && !e.EvCancelAbort? {
      CancelsStay(s, e);
    }
  }

  /** In every run, the cancellations of an order that are under way are those that
      were begun and neither finished nor given up. */
  lemma {:induction false} UnderWayAreBegun(s: Shop, run: seq<Event>, id: nat)
    ensures Exec(s, run).cancelling[id] == s.cancelling[id] + BegunMinusEnded(s, run, id)
    decreases |run|
  {
    if |run| > 0 {
      UnderWayAreBegun(s, run[..|run| - 1], id);
      StepCancels(Exec(s, run[..|run| - 1]), run[|run| - 1], id);
    }
  }
}
