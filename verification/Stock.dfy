/** Stock levels. A level is a `Decimal(12,3)` column, kept here as a whole number
    of thousandths; a requested quantity is any amount of thousandths, and what
    is written back is rounded by the column. */
module Stock {
  import opened Prelude
  import opened Rounding
  import opened Sums

  /** Exactly one of product and variant identifies a level. */
  datatype Target = ProductTarget(product: nat) | VariantTarget(variant: nat)

  datatype Key = Key(store: nat, target: Target)

  type Levels = map<Key, int>

  function TargetOf(product: nat, variant: Option<nat>): Target {
    if variant.Some? then VariantTarget(variant.value) else ProductTarget(product)
  }

  function LevelOf(levels: Levels, key: Key): int { if key in levels then levels[key] else 0 }

  function Incremented(levels: Levels, key: Key, quantity: real): Levels {
    levels[key := if key in levels then ColumnRound(levels[key] as real + quantity) else ColumnRound(quantity)]
  }

  function DecrementedGuarded(levels: Levels, key: Key, quantity: real): Option<Levels> {
    if key in levels && levels[key] as real >= quantity
    then Some(levels[key := ColumnRound(levels[key] as real - quantity)])
    else None
  }

  function DecrementedFreely(levels: Levels, key: Key, quantity: real): Levels {
    levels[key := if key in levels then ColumnRound(levels[key] as real - quantity) else ColumnRound(-quantity)]
  }

  /** The StockLevel table, updated row by row. */
  class StockTable {
    var levels: Levels

    constructor ()
      ensures levels == map[]
    {
      levels := map[];
    }

    method IncrementStock(key: Key, quantity: real)
      modifies this
      ensures levels == Incremented(old(levels), key, quantity)
      ensures !IsTie(quantity) ==> LevelOf(levels, key) == LevelOf(old(levels), key) + ColumnRound(quantity)
      ensures forall k :: k != key ==> LevelOf(levels, k) == LevelOf(old(levels), k)
    {
      if key in levels {
        if !IsTie(quantity) { ColumnAddStorable(levels[key], quantity); }
        levels := levels[key := ColumnRound(levels[key] as real + quantity)];
      } else {
        levels := levels[key := ColumnRound(quantity)];
      }
    }

    /** Returns false, and changes nothing, when no row had enough. */
    method DecrementStockGuarded(key: Key, quantity: real) returns (affected: bool)
      requires quantity > 0.0
      modifies this
      ensures affected <==> key in old(levels) && old(levels)[key] as real >= quantity
      ensures affected ==> Some(levels) == DecrementedGuarded(old(levels), key, quantity) && levels[key] >= 0
      ensures !affected ==> levels == old(levels) && DecrementedGuarded(levels, key, quantity) == None
    {
      affected := key in levels && levels[key] as real >= quantity;
      if affected {
        levels := levels[key := ColumnRound(levels[key] as real - quantity)];
      }
    }

    method DecrementAllowingNegative(key: Key, quantity: real)
      modifies this
      ensures levels == DecrementedFreely(old(levels), key, quantity)
      ensures !IsTie(quantity) ==> LevelOf(levels, key) == LevelOf(old(levels), key) - ColumnRound(quantity)
      ensures forall k :: k != key ==> LevelOf(levels, k) == LevelOf(old(levels), k)
    {
      FreelyExact(levels, key, quantity);
      if key in levels {
        levels := levels[key := ColumnRound(levels[key] as real - quantity)];
      } else {
        levels := levels[key := ColumnRound(-quantity)];
      }
    }
  }

  lemma FreelyExact(levels: Levels, key: Key, quantity: real)
    ensures !IsTie(quantity)
        ==> LevelOf(DecrementedFreely(levels, key, quantity), key) == LevelOf(levels, key) - ColumnRound(quantity)
  {
    ColumnRoundOdd(quantity);
    if !IsTie(quantity) {
      if IsTie(-quantity) { TieOdd(-quantity); }
      ColumnAddStorable(LevelOf(levels, key), -quantity);
    }
  }

  // ----- Taking a list of quantities, and putting their snapshot back -----

  datatype Move = Move(target: Target, quantity: real)

  /** A line as the order remembers it. */
  datatype Snapshot = Snapshot(target: Target, quantity: int)

  predicate PositiveMoves(moves: seq<Move>) {
    forall i :: 0 <= i < |moves| ==> moves[i].quantity > 0.0
  }

  function Take(levels: Levels, store: nat, moves: seq<Move>): Option<Levels>
    decreases |moves|
  {
    if |moves| == 0 then Some(levels) else
      var first := DecrementedGuarded(levels, Key(store, moves[0].target), moves[0].quantity);
      if first.None? then None else Take(first.value, store, moves[1..])
  }

  function SnapshotOf(m: Move): Snapshot { Snapshot(m.target, ColumnRound(m.quantity)) }

  function SnapshotsOf(moves: seq<Move>): (s: seq<Snapshot>)
    ensures |s| == |moves|
  {
    if |moves| == 0 then [] else [SnapshotOf(moves[0])] + SnapshotsOf(moves[1..])
  }

  function PutBack(levels: Levels, store: nat, lines: seq<Snapshot>): Levels
    decreases |lines|
  {
    if |lines| == 0 then levels else
      PutBack(Incremented(levels, Key(store, lines[0].target), lines[0].quantity as real), store, lines[1..])
  }

  function Quantity(target: Target, lines: seq<Snapshot>): int
  {
    if |lines| == 0 then 0 else
      (if lines[0].target == target then lines[0].quantity else 0) + Quantity(target, lines[1..])
  }

  function Ties(target: Target, moves: seq<Move>): nat
  {
    if |moves| == 0 then 0 else
      (if moves[0].target == target && IsTie(moves[0].quantity) then 1 else 0) + Ties(target, moves[1..])
  }

  lemma {:induction false} PutBackAdds(levels: Levels, store: nat, lines: seq<Snapshot>, key: Key)
    ensures LevelOf(PutBack(levels, store, lines), key)
         == LevelOf(levels, key) + (if key.store == store then Quantity(key.target, lines) else 0)
    decreases |lines|
  {
    if |lines| > 0 {
      var k, n := Key(store, lines[0].target), lines[0].quantity;
      RoundInt(LevelOf(levels, k) + n);
      RoundInt(n);
      assert LevelOf(levels, k) as real + n as real == (LevelOf(levels, k) + n) as real;
      PutBackAdds(Incremented(levels, k, n as real), store, lines[1..], key);
    }
  }

  /** One guarded decrement removes the rounded quantity, and leaves one
      thousandth behind when the quantity sits exactly between two of them. */
  lemma GuardedRemoves(level: int, quantity: real)
    requires quantity > 0.0 && level as real >= quantity
    ensures ColumnRound(level as real - quantity) == level - ColumnRound(quantity) + (if IsTie(quantity) then 1 else 0)
    ensures ColumnRound(level as real - quantity) >= 0
  {
    ColumnRoundOdd(quantity);
    if IsTie(quantity) {
      var f := quantity.Floor;
      ColumnRoundTie(quantity);
      var rest := level as real - quantity;
      assert rest == (level - f - 1) as real + 0.5;
      assert rest.Floor == level - f - 1;
      ColumnRoundTie(rest);
    } else {
      if IsTie(-quantity) { TieOdd(-quantity); }
      ColumnAddStorable(level, -quantity);
    }
  }

  lemma {:induction false} TakeRemoves(levels: Levels, store: nat, moves: seq<Move>, key: Key)
    requires PositiveMoves(moves) && Take(levels, store, moves).Some?
    ensures LevelOf(Take(levels, store, moves).value, key) == LevelOf(levels, key)
          - (if key.store == store then Quantity(key.target, SnapshotsOf(moves)) - Ties(key.target, moves) else 0)
    decreases |moves|
  {
    if |moves| > 0 {
      var k := Key(store, moves[0].target);
      GuardedRemoves(levels[k], moves[0].quantity);
      TakeRemoves(DecrementedGuarded(levels, k, moves[0].quantity).value, store, moves[1..], key);
      assert SnapshotsOf(moves)[0] == SnapshotOf(moves[0]);
      assert SnapshotsOf(moves)[1..] == SnapshotsOf(moves[1..]);
    }
  }

  /** Selling and cancelling: the level comes back to what it was plus one
      thousandth for every line whose quantity was a tie. */
  lemma CancelUndoesSale(levels: Levels, store: nat, moves: seq<Move>, key: Key)
    requires PositiveMoves(moves) && Take(levels, store, moves).Some?
    ensures LevelOf(PutBack(Take(levels, store, moves).value, store, SnapshotsOf(moves)), key)
         == LevelOf(levels, key) + (if key.store == store then Ties(key.target, moves) else 0)
  {
    TakeRemoves(levels, store, moves, key);
    PutBackAdds(Take(levels, store, moves).value, store, SnapshotsOf(moves), key);
  }

  lemma {:induction false} TiesNone(moves: seq<Move>, target: Target)
    requires forall i :: 0 <= i < |moves| ==> !IsTie(moves[i].quantity)
    ensures Ties(target, moves) == 0
    decreases |moves|
  {
    if |moves| > 0 {
      TiesNone(moves[1..], target);
    }
  }

  lemma {:induction false} TiesSome(moves: seq<Move>, i: nat)
    requires i < |moves| && IsTie(moves[i].quantity)
    ensures Ties(moves[i].target, moves) > 0
    decreases |moves|
  {
    if i > 0 {
      TiesSome(moves[1..], i - 1);
    }
  }

  /** Cancelling is the exact inverse of selling if and only if no line asks for
      an odd half of a thousandth. */
  lemma CancelExactIff(levels: Levels, store: nat, moves: seq<Move>)
    requires PositiveMoves(moves) && Take(levels, store, moves).Some?
    ensures (forall key ::
               LevelOf(PutBack(Take(levels, store, moves).value, store, SnapshotsOf(moves)), key)
                   == LevelOf(levels, key))
       <==> (forall i :: 0 <= i < |moves| ==> !IsTie(moves[i].quantity))
  {
    var after := PutBack(Take(levels, store, moves).value, store, SnapshotsOf(moves));
    if i :| 0 <= i < |moves| && IsTie(moves[i].quantity) {
      var key := Key(store, moves[i].target);
      TiesSome(moves, i);
      CancelUndoesSale(levels, store, moves, key);
      assert LevelOf(after, key) != LevelOf(levels, key);
    } else {
      forall key
        ensures LevelOf(after, key) == LevelOf(levels, key)
      {
        TiesNone(moves, key.target);
        CancelUndoesSale(levels, store, moves, key);
      }
    }
  }

  predicate NonNegative(levels: Levels) { forall k :: k in levels ==> levels[k] >= 0 }

  lemma {:induction false} TakeStaysNonNegative(levels: Levels, store: nat, moves: seq<Move>)
    requires PositiveMoves(moves) && NonNegative(levels) && Take(levels, store, moves).Some?
    ensures NonNegative(Take(levels, store, moves).value)
    decreases |moves|
  {
    if |moves| > 0 {
      var k := Key(store, moves[0].target);
      GuardedRemoves(levels[k], moves[0].quantity);
      TakeStaysNonNegative(DecrementedGuarded(levels, k, moves[0].quantity).value, store, moves[1..]);
    }
  }

  lemma {:induction false} PutBackStaysNonNegative(levels: Levels, store: nat, lines: seq<Snapshot>)
    requires NonNegative(levels)
    requires forall i :: 0 <= i < |lines| ==> lines[i].quantity >= 0
    ensures NonNegative(PutBack(levels, store, lines))
    decreases |lines|
  {
    if |lines| > 0 {
      PutBackStaysNonNegative(Incremented(levels, Key(store, lines[0].target), lines[0].quantity as real), store,
                              lines[1..]);
    }
  }
}
