/** Order, purchase and ticket numbers: each attempt reads the highest number of
    its store and later inserts the next one, with other attempts in between. A
    unique index turns a number already taken into a conflict. */
module Numbering {
  import opened Prelude

  const MAX_ATTEMPTS := 3

  datatype Row = Row(store: nat, number: nat)

  /** `reading` holds the numbers that attempts have computed and not yet inserted. */
  datatype Book = Book(rows: seq<Row>, reading: multiset<Row>)

  datatype Error = NotReading | Conflict

  /** The aggregate over one store; zero when it has no rows. */
  function MaxNumber(rows: seq<Row>, store: nat): nat
  {
    if |rows| == 0 then 0 else
      var before, row := MaxNumber(rows[..|rows| - 1], store), rows[|rows| - 1];
      if row.store == store && row.number > before then row.number else before
  }

  function NextNumber(rows: seq<Row>, store: nat): nat { MaxNumber(rows, store) + 1 }

  function Count(rows: seq<Row>, store: nat): nat
  {
    if |rows| == 0 then 0 else
      Count(rows[..|rows| - 1], store) + (if rows[|rows| - 1].store == store then 1 else 0)
  }

  function Read(b: Book, store: nat): Result<Book, Error> {
    Ok(b.(reading := b.reading + multiset{Row(store, NextNumber(b.rows, store))}))
  }

  function Insert(b: Book, row: Row): Result<Book, Error> {
    if row !in b.reading then Err(NotReading)
    else if row in b.rows then Err(Conflict)
    else Ok(Book(b.rows + [row], b.reading - multiset{row}))
  }

  datatype Event = EvRead(store: nat) | EvInsert(row: Row) | EvRollback(row: Row)

  /** A conflict, like any other failure, rolls the whole attempt back. */
  function Step(b: Book, e: Event): Book {
    match e
    case EvRead(store) => Read(b, store).value
    case EvInsert(row) =>
      var r := Insert(b, row);
      if r.Ok? then r.value else b.(reading := b.reading - multiset{row})
    case EvRollback(row) => b.(reading := b.reading - multiset{row})
  }

  function Exec(b: Book, run: seq<Event>): Book
  {
    if |run| == 0 then b else Step(Exec(b, run[..|run| - 1]), run[|run| - 1])
  }

  // ----- The numbers in use -----

  /** The numbers of every store are 1, 2, ... up to how many there are. */
  ghost predicate Gapless(rows: seq<Row>) {
    (forall store: nat :: Dense(rows, store)) && forall i, j :: 0 <= i < j < |rows| ==> rows[i] != rows[j]
  }

  ghost predicate Dense(rows: seq<Row>, store: nat) {
    forall n: nat :: Row(store, n) in rows <==> 1 <= n <= Count(rows, store)
  }

  ghost predicate ReadsBehind(b: Book) {
    forall r :: r in b.reading ==> 1 <= r.number <= Count(b.rows, r.store) + 1
  }

  lemma {:induction false} MaxIsOne(rows: seq<Row>, store: nat)
    ensures forall i :: 0 <= i < |rows| && rows[i].store == store ==> rows[i].number <= MaxNumber(rows, store)
    ensures MaxNumber(rows, store) == 0 || Row(store, MaxNumber(rows, store)) in rows
    decreases |rows|
  {
    if |rows| > 0 {
      MaxIsOne(rows[..|rows| - 1], store);
    }
  }

  /** While there is no gap, the highest number is the count. */
  lemma MaxIsCount(rows: seq<Row>, store: nat)
    requires Gapless(rows)
    ensures MaxNumber(rows, store) == Count(rows, store)
  {
    MaxIsOne(rows, store);
    assert Dense(rows, store);
    if Count(rows, store) > 0 {
      assert Row(store, Count(rows, store)) in rows;
    }
  }

  lemma AppendNext(rows: seq<Row>, row: Row)
    requires Gapless(rows) && row !in rows && 1 <= row.number <= Count(rows, row.store) + 1
    ensures row.number == Count(rows, row.store) + 1
    ensures Gapless(rows + [row])
  {
    var after := rows + [row];
    assert after[..|rows|] == rows;
    assert Dense(rows, row.store);
    forall store: nat
      ensures Dense(after, store)
    {
      assert Dense(rows, store) && Count(after, store) == Count(rows, store) + (if store == row.store then 1 else 0);
      forall n: nat
        ensures Row(store, n) in after <==> 1 <= n <= Count(after, store)
      {
        assert Row(store, n) in after <==> Row(store, n) in rows || Row(store, n) == row;
      }
    }
  }

  lemma StepGapless(b: Book, e: Event)
    requires Gapless(b.rows) && ReadsBehind(b)
    ensures Gapless(Step(b, e).rows) && ReadsBehind(Step(b, e))
  {
    match e
    case EvRead(store) => MaxIsCount(b.rows, store);
    case EvRollback(row) =>
    case EvInsert(row) =>
      if Insert(b, row).Ok? {
        AppendNext(b.rows, row);
        InsertKeepsReads(b, row);
      }
  }

  lemma InsertKeepsReads(b: Book, row: Row)
    requires ReadsBehind(b) && Insert(b, row).Ok?
    ensures ReadsBehind(Insert(b, row).value)
  {
    var t := Insert(b, row).value;
    assert t.rows[..|b.rows|] == b.rows;
    forall r | r in t.reading
      ensures 1 <= r.number <= Count(t.rows, r.store) + 1
    {
      assert r in b.reading;
    }
  }

  /** With any number of attempts interleaved, the numbers used in each store are
      exactly 1 to their count, without gap or repetition. */
  lemma {:induction false} NumbersAreGapless(b: Book, run: seq<Event>)
    requires Gapless(b.rows) && ReadsBehind(b)
    ensures Gapless(Exec(b, run).rows) && ReadsBehind(Exec(b, run))
    decreases |run|
  {
    if |run| > 0 {
      NumbersAreGapless(b, run[..|run| - 1]);
      StepGapless(Exec(b, run[..|run| - 1]), run[|run| - 1]);
    }
  }

  /** In any run, an insert is refused exactly when its store has grown since the
      number was read, and then it leaves no trace. */
  lemma ConflictIff(b: Book, run: seq<Event>, row: Row)
    requires Gapless(b.rows) && ReadsBehind(b) && row in Exec(b, run).reading
    ensures var s := Exec(b, run);
            && (Insert(s, row).Err? <==> row.number <= Count(s.rows, row.store))
            && (Insert(s, row).Err? ==> Step(s, EvInsert(row)).rows == s.rows)
            && (Insert(s, row).Ok? ==> Step(s, EvInsert(row)).rows == s.rows + [row])
  {
    NumbersAreGapless(b, run);
    assert Dense(Exec(b, run).rows, row.store);
  }

  // ----- The retry loop -----

  /** Other attempts that finish between a read and its insert. */
  function Overtake(rows: seq<Row>, store: nat, k: nat): seq<Row>
  {
    if k == 0 then rows else
      var before := Overtake(rows, store, k - 1);
      before + [Row(store, NextNumber(before, store))]
  }

  /** `rivals[i]` attempts finish during attempt i. */
  function Retried(rows: seq<Row>, store: nat, rivals: seq<nat>): (seq<Row>, Option<nat>)
    decreases |rivals|
  {
    if |rivals| == 0 then (rows, None) else
      var number, after := NextNumber(rows, store), Overtake(rows, store, rivals[0]);
      if Row(store, number) in after then Retried(after, store, rivals[1..])
      else (after + [Row(store, number)], Some(number))
  }

  lemma {:induction false} OvertakeGapless(rows: seq<Row>, store: nat, k: nat)
    requires Gapless(rows)
    ensures Gapless(Overtake(rows, store, k)) && Count(Overtake(rows, store, k), store) == Count(rows, store) + k
  {
    if k > 0 {
      OvertakeGapless(rows, store, k - 1);
      var before := Overtake(rows, store, k - 1);
      MaxIsCount(before, store);
      assert Dense(before, store);
      AppendNext(before, Row(store, NextNumber(before, store)));
      assert (before + [Row(store, NextNumber(before, store))])[..|before|] == before;
    }
  }

  lemma OwnNumberTaken(rows: seq<Row>, store: nat, k: nat)
    requires Gapless(rows)
    ensures var own, after := Row(store, NextNumber(rows, store)), Overtake(rows, store, k);
            && Gapless(after)
            && (own in after <==> k > 0)
            && (k == 0 ==> Gapless(after + [own]) && Count(after + [own], store) == own.number)
  {
    var own, after := Row(store, NextNumber(rows, store)), Overtake(rows, store, k);
    MaxIsCount(rows, store);
    OvertakeGapless(rows, store, k);
    assert Dense(after, store);
    if k == 0 {
      AppendNext(after, own);
      assert (after + [own])[..|after|] == after;
    }
  }

  predicate AllOvertaken(rivals: seq<nat>) { forall i :: 0 <= i < |rivals| ==> rivals[i] > 0 }

  /** The operation gives up exactly when every one of its attempts was overtaken. */
  lemma {:induction false} RetryFailsIff(rows: seq<Row>, store: nat, rivals: seq<nat>)
    requires Gapless(rows)
    ensures Gapless(Retried(rows, store, rivals).0)
    ensures Retried(rows, store, rivals).1.None? <==> AllOvertaken(rivals)
    ensures var (after, number) := Retried(rows, store, rivals);
            number.Some? ==>
                |after| > 0 && after[|after| - 1] == Row(store, number.value) && number.value == Count(after, store)
    decreases |rivals|
  {
    if |rivals| > 0 {
      OwnNumberTaken(rows, store, rivals[0]);
      if rivals[0] > 0 {
        RetryFailsIff(Overtake(rows, store, rivals[0]), store, rivals[1..]);
        assert rivals == [rivals[0]] + rivals[1..];
      }
    }
  }

  class Counter {
    var rows: seq<Row>

    constructor ()
      ensures rows == [] && Gapless(rows)
    {
      rows := [];
    }

    /** One attempt: the number read, then the insert or the conflict. */
    method Attempt(store: nat, rivals: nat) returns (number: Option<nat>)
      modifies this
      ensures var own, after := NextNumber(old(rows), store), Overtake(old(rows), store, rivals);
              if Row(store, own) in after then rows == after && number == None
              else rows == after + [Row(store, own)] && number == Some(own)
    {
      var own := NextNumber(rows, store);
      rows := Overtake(rows, store, rivals);
      if Row(store, own) in rows { return None; }
      rows := rows + [Row(store, own)];
      number := Some(own);
    }

    method CreateWithRetry(store: nat, rivals: seq<nat>) returns (number: Option<nat>)
      requires |rivals| == MAX_ATTEMPTS && Gapless(rows)
      modifies this
      ensures (rows, number) == Retried(old(rows), store, rivals)
      ensures Gapless(rows)
      ensures number.None? <==> AllOvertaken(rivals)
    {
      RetryFailsIff(rows, store, rivals);
      for attempt := 0 to MAX_ATTEMPTS
        invariant Retried(rows, store, rivals[attempt..]) == Retried(old(rows), store, rivals)
      {
        assert rivals[attempt..][1..] == rivals[attempt + 1..];
        number := Attempt(store, rivals[attempt]);
        if number.Some? { return; }
      }
      number := None;
    }
  }
}
