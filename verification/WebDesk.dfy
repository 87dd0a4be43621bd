/** The workers of the two online stores, over the tables they write. */
module WebDesk {
  import opened Prelude
  import opened Rounding
  import opened Stock
  import opened WebOrders
  import Shop

  predicate Outcome(spec: Result<Web, Error>, before: Web, after: Web, error: Option<Error>) {
    match spec
    case Ok(s) => error == None && after == s
    case Err(e) => error == Some(e) && after == before
  }

  lemma ShipOneMore(levels: Levels, store: nat, moves: seq<Move>, move: Move)
    ensures Shop.ShipFreely(levels, store, moves + [move])
         == DecrementedFreely(Shop.ShipFreely(levels, store, moves), Key(store, move.target), move.quantity)
  {
    assert (moves + [move])[..|moves|] == moves;
  }

  lemma MatchOneMore(links: Links, lines: seq<Line>, i: nat)
    requires i < |lines|
    ensures MatchedLines(links, lines[..i + 1])
         == MatchedLines(links, lines[..i])
          + (if lines[i].product in links then [Move(links[lines[i].product], lines[i].quantity)] else [])
  {
    var upto := lines[..i + 1];
    assert upto[..|upto| - 1] == lines[..i];
  }

  /** Every remote order was applied exactly once if some log of it succeeded. */
  ghost predicate Valid(s: Web) { ExactlyOnce(s) && ChecksHold(s) }

  ghost predicate Kept(before: Web, e: Event, after: Web) {
    Valid(before) && Polite(before, e) ==> Valid(after)
  }

  lemma OutcomeKeepsValid(before: Web, e: Event, after: Web, error: Option<Error>)
    requires Outcome(Attempt(before, e), before, after, error)
    ensures Kept(before, e, after)
  {
    assert after == Step(before, e);
    if Valid(before) && Polite(before, e) {
      PoliteIsHarmless(before, e);
      StepOnceIff(before, e);
      ChecksStay(before, e);
    }
  }

  class Worker {
    var levels: Levels
    var logs: seq<Log>
    var checked: multiset<nat>
    var duplicates: multiset<nat>
    var misrouted: multiset<nat>
    ghost var applied: seq<Effect>

    ghost function State(): Web
      reads this
    {
      Web(levels, logs, checked, duplicates, misrouted, applied)
    }

    constructor (levels: Levels)
      ensures State() == Web(levels, [], multiset{}, multiset{}, multiset{}, []) && Valid(State())
    {
      this.levels, logs, checked, duplicates, misrouted, applied := levels, [], multiset{}, multiset{}, multiset{}, [];
    }

    /** The webhook: a log in pending state for each delivery. */
    method Receive(channel: Channel, remote: nat) returns (log: nat)
      modifies this
      ensures log == |old(logs)| && Deliver(old(State()), channel, remote) == Ok(State())
    {
      log := |logs|;
      logs := logs + [Log(channel, remote, Pending)];
    }

    /** findFirst over the successful logs of the order, the job's own left out. */
    method FindDuplicate(log: nat) returns (found: bool)
      requires log < |logs|
      ensures found == DoneByAnother(State(), log)
    {
      for k := 0 to |logs|
        invariant forall j :: 0 <= j < k && j != log && SameOrder(logs[j], logs[log].channel, logs[log].remote) ==>
          logs[j].status != Success
      {
        if k != log && SameOrder(logs[k], logs[log].channel, logs[log].remote) && logs[k].status == Success {
          return true;
        }
      }
      found := false;
    }

    /** The line loop: lines without a linked product are left out, the others are
        taken whether or not there is enough. */
    method TakeLines(store: nat, links: Links, lines: seq<Line>)
      modifies this`levels
      ensures levels == Shop.ShipFreely(old(levels), store, MatchedLines(links, lines))
    {
      ghost var start, matched: seq<Move> := levels, [];
      for i := 0 to |lines|
        invariant matched == MatchedLines(links, lines[..i])
        invariant levels == Shop.ShipFreely(start, store, matched)
      {
        MatchOneMore(links, lines, i);
        if lines[i].product in links {
          var move := Move(links[lines[i].product], lines[i].quantity);
          ShipOneMore(start, store, matched, move);
          TakeLine(Key(store, move.target), move.quantity);
          matched := matched + [move];
        }
      }
      assert lines[..|lines|] == lines;
    }

    /** decrementAllowingNegative. */
    method TakeLine(key: Key, quantity: real)
      modifies this`levels
      ensures levels == DecrementedFreely(old(levels), key, quantity)
    {
      if key in levels {
        levels := levels[key := ColumnRound(levels[key] as real - quantity)];
      } else {
        levels := levels[key := ColumnRound(-quantity)];
      }
    }

    method ProcessWooOrder(log: nat, config: Option<nat>, links: Links, lines: seq<Line>) returns (error: Option<Error>)
      modifies this
      ensures Outcome(ProcessWoo(old(State()), log, config, links, lines), old(State()), State(), error)
    {
      if log >= |logs| || logs[log].channel != Woo { return Some(LogNotFound); }
      error := None;
      var duplicate := FindDuplicate(log);
      if duplicate {
        logs := logs[log := logs[log].(status := Success)];
        return;
      }
      if config.None? {
        logs := logs[log := logs[log].(status := Failed)];
        return;
      }
      CloseOrder(log, config.value, links, lines);
    }

    /** The first transaction of a Tienda Nube order. */
    method CheckOrder(log: nat) returns (error: Option<Error>)
      modifies this
      ensures Outcome(CheckTiendaNube(old(State()), log), old(State()), State(), error)
    {
      if log >= |logs| || logs[log].channel != TiendaNube { return Some(LogNotFound); }
      error := None;
      var duplicate := FindDuplicate(log);
      if duplicate {
        duplicates := duplicates + multiset{log};
      } else {
        checked := checked + multiset{log};
      }
    }

    /** markSyncLog of a duplicate. */
    method MarkOrder(log: nat) returns (error: Option<Error>)
      modifies this
      ensures Outcome(MarkDuplicate(old(State()), log), old(State()), State(), error)
    {
      if log >= |logs| { return Some(LogNotFound); }
      if log !in duplicates { return Some(NotChecked); }
      duplicates := duplicates - multiset{log};
      logs := logs[log := logs[log].(status := Success)];
      error := None;
    }

    /** The second transaction, once the order was fetched. */
    method FinishOrder(log: nat, store: nat, links: Links, lines: seq<Line>) returns (error: Option<Error>)
      modifies this
      ensures Outcome(ApplyTiendaNube(old(State()), log, store, links, lines), old(State()), State(), error)
    {
      if log >= |logs| { return Some(LogNotFound); }
      if log !in checked { return Some(NotChecked); }
      checked := checked - multiset{log};
      CloseOrder(log, store, links, lines);
      error := None;
    }

    /** The lines taken and the log successful. */
    method CloseOrder(log: nat, store: nat, links: Links, lines: seq<Line>)
      requires log < |logs|
      modifies this
      ensures State() == Apply(old(State()), log, store, MatchedLines(links, lines))
    {
      TakeLines(store, links, lines);
      logs := logs[log := logs[log].(status := Success)];
      applied := applied + [Effect(logs[log].channel, logs[log].remote, store, MatchedLines(links, lines))];
    }

    /** The order was not fetched. */
    method FailOrder(log: nat) returns (error: Option<Error>)
      modifies this
      ensures Outcome(FailTiendaNube(old(State()), log), old(State()), State(), error)
    {
      if log >= |logs| { return Some(LogNotFound); }
      if log !in checked { return Some(NotChecked); }
      checked := checked - multiset{log};
      logs := logs[log := logs[log].(status := Failed)];
      error := None;
    }

    method RetryLog(log: nat) returns (error: Option<Error>)
      modifies this
      ensures Outcome(Retry(old(State()), log), old(State()), State(), error)
    {
      if log >= |logs| { return Some(LogNotFound); }
      if logs[log].status != Failed { return Some(NotFailed); }
      logs := logs[log := logs[log].(status := Pending)];
      if logs[log].channel == TiendaNube {
        misrouted := misrouted + multiset{log};
      }
      error := None;
    }

    /** A Tienda Nube order that reached the WooCommerce worker. */
    method ProcessRetried(log: nat, found: bool) returns (error: Option<Error>)
      modifies this
      ensures Outcome(ProcessMisrouted(old(State()), log, found), old(State()), State(), error)
    {
      if log >= |logs| { return Some(LogNotFound); }
      if log !in misrouted { return Some(NotChecked); }
      misrouted := misrouted - multiset{log};
      logs := logs[log := logs[log].(status := if found then Success else Failed)];
      error := None;
    }

    /** The dispatch by kind of request. */
    method Dispatch(e: Event) returns (error: Option<Error>)
      modifies this
      ensures Outcome(Attempt(old(State()), e), old(State()), State(), error)
    {
      match e
      case EvDeliver(channel, remote) =>
        var log := Receive(channel, remote);
        error := None;
      case EvWoo(log, config, links, lines) => error := ProcessWooOrder(log, config, links, lines);
      case EvTnCheck(log) => error := CheckOrder(log);
      case EvTnMark(log) => error := MarkOrder(log);
      case EvTnFail(log) => error := FailOrder(log);
      case EvTnApply(log, store, links, lines) => error := FinishOrder(log, store, links, lines);
      case EvRetry(log) => error := RetryLog(log);
      case EvMisrouted(log, found) => error := ProcessRetried(log, found);
    }

    /** Whatever arrives, a delivery, a job or a manual retry: one that is polite
        leaves every remote order applied exactly once. */
    method Process(e: Event) returns (error: Option<Error>)
      modifies this
      ensures Outcome(Attempt(old(State()), e), old(State()), State(), error)
      ensures Kept(old(State()), e, State())
    {
      ghost var before := State();
      error := Dispatch(e);
      OutcomeKeepsValid(before, e, State(), error);
    }
  }
}
