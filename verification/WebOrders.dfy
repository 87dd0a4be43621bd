/** Orders arriving from the online stores. Each delivery gets a log; each job
    looks for another successful log of the same remote order before it takes the
    order's lines out of stock. WooCommerce jobs look and take in one
    transaction, Tienda Nube jobs in two, with a network call in between. */
module WebOrders {
  import opened Prelude
  import opened Rounding
  import opened Sums
  import opened Stock
  import Shop
  import ShopStock

  datatype Channel = Woo | TiendaNube

  datatype Status = Pending | Failed | Success

  datatype Log = Log(channel: Channel, remote: nat, status: Status)

  /** A line of the remote order, with the product id the store knows. */
  datatype Line = Line(product: nat, quantity: real)

  /** The catalogue's links to one store. */
  type Links = map<nat, Target>

  datatype Effect = Effect(channel: Channel, remote: nat, store: nat, moves: seq<Move>)

  datatype Web = Web(
    levels: Levels,
    logs: seq<Log>,
    checked: multiset<nat>,     // Tienda Nube jobs that found no duplicate and are fetching the order
    duplicates: multiset<nat>,  // Tienda Nube jobs that found one and have not said so yet
    misrouted: multiset<nat>,   // Tienda Nube logs retried by hand: their job is on the WooCommerce queue
    applied: seq<Effect>)       // the history of what was taken out of stock

  datatype Error = LogNotFound | NotFailed | NotChecked

  function MatchedLines(links: Links, lines: seq<Line>): seq<Move>
  {
    if |lines| == 0 then [] else
      var l := lines[|lines| - 1];
      MatchedLines(links, lines[..|lines| - 1])
          + (if l.product in links then [Move(links[l.product], l.quantity)] else [])
  }

  /** What the store sold of the products linked to one target. */
  function OrderedOf(links: Links, lines: seq<Line>, target: Target): real
  {
    if |lines| == 0 then 0.0 else
      var l := lines[0];
      (if l.product in links && links[l.product] == target then l.quantity else 0.0)
      + OrderedOf(links, lines[1..], target)
  }

  function MovedTerm(target: Target): Move -> real { (m: Move) => if m.target == target then m.quantity else 0.0 }

  lemma {:induction false} OrderedAppend(links: Links, lines: seq<Line>, l: Line, target: Target)
    ensures OrderedOf(links, lines + [l], target)
         == OrderedOf(links, lines, target)
            + (if l.product in links && links[l.product] == target then l.quantity else 0.0)
    decreases |lines|
  {
    if |lines| == 0 {
      assert lines + [l] == [l] && [l][1..] == [];
    } else {
      assert (lines + [l])[1..] == lines[1..] + [l];
      OrderedAppend(links, lines[1..], l, target);
    }
  }

  /** The matched lines take from each target what was sold of its products. */
  lemma {:induction false} MatchedIsOrdered(links: Links, lines: seq<Line>, target: Target)
    ensures RealSum(MovedTerm(target), MatchedLines(links, lines)) == OrderedOf(links, lines, target)
    decreases |lines|
  {
    if |lines| > 0 {
      var before, l := lines[..|lines| - 1], lines[|lines| - 1];
      MatchedIsOrdered(links, before, target);
      assert lines == before + [l];
      OrderedAppend(links, before, l, target);
      if l.product in links {
        RealSumAppend(MovedTerm(target), MatchedLines(links, before), Move(links[l.product], l.quantity));
      } else {
        assert MatchedLines(links, lines) == MatchedLines(links, before);
      }
    }
  }

  predicate SameOrder(log: Log, channel: Channel, remote: nat) { log.channel == channel && log.remote == remote }

  predicate Done(s: Web, channel: Channel, remote: nat) {
    exists k :: 0 <= k < |s.logs| && SameOrder(s.logs[k], channel, remote) && s.logs[k].status == Success
  }

  /** The duplicate check leaves out the job's own log. */
  predicate DoneByAnother(s: Web, own: nat)
    requires own < |s.logs|
  {
    exists k :: 0 <= k < |s.logs| && k != own && SameOrder(s.logs[k], s.logs[own].channel, s.logs[own].remote)
                && s.logs[k].status == Success
  }

  function Mark(s: Web, log: nat, status: Status): Web
    requires log < |s.logs|
  {
    s.(logs := s.logs[log := s.logs[log].(status := status)])
  }

  /** The lines taken out, unconditionally, and the log closed: one transaction. */
  function Apply(s: Web, log: nat, store: nat, moves: seq<Move>): Web
    requires log < |s.logs|
  {
    Mark(s, log, Success).(levels := Shop.ShipFreely(s.levels, store, moves),
                           applied := s.applied + [Effect(s.logs[log].channel, s.logs[log].remote, store, moves)])
  }

  function Deliver(s: Web, channel: Channel, remote: nat): Result<Web, Error> {
    Ok(s.(logs := s.logs + [Log(channel, remote, Pending)]))
  }

  /** `store` is the store the integration points at, if it still exists. */
  function ProcessWoo(s: Web, log: nat, store: Option<nat>, links: Links, lines: seq<Line>): Result<Web, Error> {
    if log >= |s.logs| || s.logs[log].channel != Woo then Err(LogNotFound)
    else if DoneByAnother(s, log) then Ok(Mark(s, log, Success))
    else if store.None? then Ok(Mark(s, log, Failed))
    else Ok(Apply(s, log, store.value, MatchedLines(links, lines)))
  }

  function CheckTiendaNube(s: Web, log: nat): Result<Web, Error> {
    if log >= |s.logs| || s.logs[log].channel != TiendaNube then Err(LogNotFound)
    else if DoneByAnother(s, log) then Ok(s.(duplicates := s.duplicates + multiset{log}))
    else Ok(s.(checked := s.checked + multiset{log}))
  }

  /** A duplicate is marked in a transaction of its own. */
  function MarkDuplicate(s: Web, log: nat): Result<Web, Error> {
    if log >= |s.logs| then Err(LogNotFound)
    else if log !in s.duplicates then Err(NotChecked)
    else Ok(Mark(s.(duplicates := s.duplicates - multiset{log}), log, Success))
  }

  /** The integration is inactive, or the remote order cannot be read. */
  function FailTiendaNube(s: Web, log: nat): Result<Web, Error> {
    if log >= |s.logs| then Err(LogNotFound)
    else if log !in s.checked then Err(NotChecked)
    else Ok(Mark(s.(checked := s.checked - multiset{log}), log, Failed))
  }

  function ApplyTiendaNube(s: Web, log: nat, store: nat, links: Links, lines: seq<Line>): Result<Web, Error> {
    if log >= |s.logs| then Err(LogNotFound)
    else if log !in s.checked then Err(NotChecked)
    else Ok(Apply(s.(checked := s.checked - multiset{log}), log, store, MatchedLines(links, lines)))
  }

  /** Only a failed log goes back to pending. Every order is enqueued for the
      WooCommerce worker, also one of Tienda Nube. */
  function Retry(s: Web, log: nat): Result<Web, Error> {
    if log >= |s.logs| then Err(LogNotFound)
    else if s.logs[log].status != Failed then Err(NotFailed)
    else
      var t := Mark(s, log, Pending);
      Ok(if s.logs[log].channel == TiendaNube then t.(misrouted := s.misrouted + multiset{log}) else t)
  }

  /** That worker looks for duplicates of an order id the payload does not have, so
      `found` is up to the database client; otherwise it finds no WooCommerce
      integration under the id of a Tienda Nube one. */
  function ProcessMisrouted(s: Web, log: nat, found: bool): Result<Web, Error> {
    if log >= |s.logs| then Err(LogNotFound)
    else if log !in s.misrouted then Err(NotChecked)
    else Ok(Mark(s.(misrouted := s.misrouted - multiset{log}), log, if found then Success else Failed))
  }

  // ----- Runs -----

  datatype Event =
    | EvDeliver(channel: Channel, remote: nat)
    | EvWoo(log: nat, config: Option<nat>, links: Links, lines: seq<Line>)
    | EvTnCheck(log: nat)
    | EvTnMark(log: nat)
    | EvTnFail(log: nat)
    | EvTnApply(log: nat, store: nat, links: Links, lines: seq<Line>)
    | EvRetry(log: nat)
    | EvMisrouted(log: nat, found: bool)

  function Attempt(s: Web, e: Event): Result<Web, Error> {
    match e
    case EvDeliver(channel, remote) => Deliver(s, channel, remote)
    case EvWoo(log, config, links, lines) => ProcessWoo(s, log, config, links, lines)
    case EvTnCheck(log) => CheckTiendaNube(s, log)
    case EvTnMark(log) => MarkDuplicate(s, log)
    case EvTnFail(log) => FailTiendaNube(s, log)
    case EvTnApply(log, store, links, lines) => ApplyTiendaNube(s, log, store, links, lines)
    case EvRetry(log) => Retry(s, log)
    case EvMisrouted(log, found) => ProcessMisrouted(s, log, found)
  }

  function Step(s: Web, e: Event): Web {
    var r := Attempt(s, e);
    if r.Ok? then r.value else s
  }

  function Exec(s: Web, run: seq<Event>): Web
  {
    if |run| == 0 then s else Step(Exec(s, run[..|run| - 1]), run[|run| - 1])
  }

  function EffectTerm(channel: Channel, remote: nat): Effect -> int {
    (e: Effect) => if e.channel == channel && e.remote == remote then 1 else 0
  }

  /** How many times a remote order was taken out of stock. */
  function Times(s: Web, channel: Channel, remote: nat): int { Sum(EffectTerm(channel, remote), s.applied) }

  /** Applied once if some log of the order succeeded, and never otherwise. */
  ghost predicate ExactlyOnce(s: Web) {
    forall channel, remote :: Times(s, channel, remote) == if Done(s, channel, remote) then 1 else 0
  }

  // ----- Exactly which steps apply an order twice, or lose it -----

  /** A WooCommerce job run again after its own success, or a Tienda Nube job
      overtaken between its two transactions. */
  predicate Doubles(s: Web, e: Event) {
    match e
    case EvWoo(log, config, _, _) =>
      log < |s.logs| && s.logs[log].channel == Woo && s.logs[log].status == Success && !DoneByAnother(s, log)
          && config.Some?
    case EvTnApply(log, _, _, _) =>
      log < |s.logs| && log in s.checked && Done(s, s.logs[log].channel, s.logs[log].remote)
    case _ => false
  }

  /** A successful log goes back only when its own job runs again and fails. */
  predicate Forgets(s: Web, e: Event) {
    match e
    case EvWoo(log, config, _, _) =>
      log < |s.logs| && s.logs[log].channel == Woo && s.logs[log].status == Success && !DoneByAnother(s, log)
          && config.None?
    case EvTnFail(log) =>
      log < |s.logs| && log in s.checked && s.logs[log].status == Success && !DoneByAnother(s, log)
    case EvMisrouted(log, found) =>
      log < |s.logs| && log in s.misrouted && !found && s.logs[log].status == Success && !DoneByAnother(s, log)
    case _ => false
  }

  /** A log is marked successful although its order was never applied. */
  predicate Skips(s: Web, e: Event) {
    match e
    case EvTnMark(log) =>
      log < |s.logs| && log in s.duplicates && !Done(s, s.logs[log].channel, s.logs[log].remote)
    case EvMisrouted(log, found) =>
      log < |s.logs| && log in s.misrouted && found && !Done(s, s.logs[log].channel, s.logs[log].remote)
    case _ => false
  }

  predicate Harmful(s: Web, e: Event) { Doubles(s, e) || Forgets(s, e) || Skips(s, e) }

  lemma MarkDone(s: Web, log: nat, status: Status, channel: Channel, remote: nat)
    requires log < |s.logs|
    ensures Done(Mark(s, log, status), channel, remote)
       <==> (SameOrder(s.logs[log], channel, remote) && (status == Success || DoneByAnother(s, log)))
            || (!SameOrder(s.logs[log], channel, remote) && Done(s, channel, remote))
  {
    var t := Mark(s, log, status);
    if SameOrder(s.logs[log], channel, remote) {
      if status == Success {
        assert t.logs[log].status == Success;
      }
      if k :| 0 <= k < |s.logs| && k != log && SameOrder(s.logs[k], channel, remote) && s.logs[k].status == Success {
        assert t.logs[k] == s.logs[k];
      }
    } else if k :| 0 <= k < |s.logs| && SameOrder(s.logs[k], channel, remote) && s.logs[k].status == Success {
      assert t.logs[k] == s.logs[k];
    }
  }

  lemma DoneSplits(s: Web, log: nat)
    requires log < |s.logs|
    ensures Done(s, s.logs[log].channel, s.logs[log].remote) <==> s.logs[log].status == Success || DoneByAnother(s, log)
  {
  }

  lemma ApplyAt(s: Web, log: nat, store: nat, moves: seq<Move>, channel: Channel, remote: nat)
    requires log < |s.logs|
    ensures var t := Apply(s, log, store, moves);
            && Times(t, channel, remote)
                == Times(s, channel, remote) + (if SameOrder(s.logs[log], channel, remote) then 1 else 0)
            && (Done(t, channel, remote) <==> SameOrder(s.logs[log], channel, remote) || Done(s, channel, remote))
  {
    var t := Apply(s, log, store, moves);
    SumAppend(EffectTerm(channel, remote), s.applied, Effect(s.logs[log].channel, s.logs[log].remote, store, moves));
    MarkDone(s, log, Success, channel, remote);
    assert t.logs == Mark(s, log, Success).logs;
    assert Done(t, channel, remote) == Done(Mark(s, log, Success), channel, remote);
  }

  lemma DeliverAt(s: Web, channel: Channel, remote: nat, c: Channel, r: nat)
    ensures Done(Deliver(s, channel, remote).value, c, r) <==> Done(s, c, r)
  {
    var t := Deliver(s, channel, remote).value;
    if k :| 0 <= k < |s.logs| && SameOrder(s.logs[k], c, r) && s.logs[k].status == Success {
      assert t.logs[k] == s.logs[k];
    }
  }

  lemma OnlyLogsCount(s: Web, t: Web, channel: Channel, remote: nat)
    requires t.logs == s.logs && t.applied == s.applied
    ensures Times(t, channel, remote) == Times(s, channel, remote)
    ensures Done(t, channel, remote) == Done(s, channel, remote)
  {
  }

  /** A step that only changes the status of one log. */
  lemma MarkedAt(s: Web, e: Event, log: nat, status: Status, channel: Channel, remote: nat)
    requires log < |s.logs| && Step(s, e).logs == Mark(s, log, status).logs && Step(s, e).applied == s.applied
    requires Times(s, channel, remote) == if Done(s, channel, remote) then 1 else 0
    requires Done(s, s.logs[log].channel, s.logs[log].remote) <==> status == Success || DoneByAnother(s, log)
    ensures Times(Step(s, e), channel, remote) == if Done(Step(s, e), channel, remote) then 1 else 0
  {
    MarkDone(s, log, status, channel, remote);
    OnlyLogsCount(Mark(s, log, status), Step(s, e), channel, remote);
  }

  /** The effect of one step on one remote order. */
  lemma StepAt(s: Web, e: Event, channel: Channel, remote: nat)
    requires Times(s, channel, remote) == if Done(s, channel, remote) then 1 else 0
    requires !Harmful(s, e)
    ensures Times(Step(s, e), channel, remote) == if Done(Step(s, e), channel, remote) then 1 else 0
  {
    if Attempt(s, e).Ok? {
      if !e.EvDeliver? { DoneSplits(s, e.log); }
      match e
      case EvDeliver(c, r) => DeliverAt(s, c, r, channel, remote);
      case EvRetry(log) => MarkedAt(s, e, log, Pending, channel, remote);
      case EvTnCheck(log) => OnlyLogsCount(s, Step(s, e), channel, remote);
      case EvTnMark(log) => MarkedAt(s, e, log, Success, channel, remote);
      case EvTnFail(log) => MarkedAt(s, e, log, Failed, channel, remote);
      case EvMisrouted(log, found) => MarkedAt(s, e, log, if found then Success else Failed, channel, remote);
      case EvTnApply(log, store, links, lines) =>
        ApplyAt(s.(checked := s.checked - multiset{log}), log, store, MatchedLines(links, lines), channel, remote);
      case EvWoo(log, config, links, lines) => WooAt(s, log, config, links, lines, channel, remote);
    }
  }

  lemma WooAt(s: Web, log: nat, config: Option<nat>, links: Links, lines: seq<Line>, channel: Channel, remote: nat)
    requires Times(s, channel, remote) == if Done(s, channel, remote) then 1 else 0
    requires var e := EvWoo(log, config, links, lines); !Harmful(s, e) && Attempt(s, e).Ok?
    ensures var t := ProcessWoo(s, log, config, links, lines).value;
            Times(t, channel, remote) == if Done(t, channel, remote) then 1 else 0
  {
    DoneSplits(s, log);
    MarkDone(s, log, Success, channel, remote);
    MarkDone(s, log, Failed, channel, remote);
    if config.Some? {
      ApplyAt(s, log, config.value, MatchedLines(links, lines), channel, remote);
    }
  }

  /** A step keeps the exactly-once property exactly when it does none of these. */
  lemma StepOnceIff(s: Web, e: Event)
    requires ExactlyOnce(s)
    ensures ExactlyOnce(Step(s, e)) <==> !Harmful(s, e)
  {
    if !Harmful(s, e) {
      forall channel, remote
        ensures Times(Step(s, e), channel, remote) == if Done(Step(s, e), channel, remote) then 1 else 0
      {
        StepAt(s, e, channel, remote);
      }
    } else {
      var c, r := s.logs[e.log].channel, s.logs[e.log].remote;
      DoneSplits(s, e.log);
      assert Times(s, c, r) == if Done(s, c, r) then 1 else 0;
      if Skips(s, e) {
        SkipBreaks(s, e, c, r);
      } else {
        Breaks(s, e, c, r);
      }
    }
  }

  lemma SkipBreaks(s: Web, e: Event, c: Channel, r: nat)
    requires Skips(s, e) && Times(s, c, r) == 0 && s.logs[e.log] == Log(c, r, s.logs[e.log].status)
    ensures Times(Step(s, e), c, r) != if Done(Step(s, e), c, r) then 1 else 0
  {
    MarkDone(s, e.log, Success, c, r);
    OnlyLogsCount(Mark(s, e.log, Success), Step(s, e), c, r);
  }

  lemma Breaks(s: Web, e: Event, c: Channel, r: nat)
    requires (Doubles(s, e) || Forgets(s, e)) && Times(s, c, r) == 1 && s.logs[e.log] == Log(c, r, s.logs[e.log].status)
    ensures Times(Step(s, e), c, r) != if Done(Step(s, e), c, r) then 1 else 0
  {
    match e
    case EvWoo(log, config, links, lines) =>
      if config.Some? {
        ApplyAt(s, log, config.value, MatchedLines(links, lines), c, r);
      } else {
        MarkDone(s, log, Failed, c, r);
      }
    case EvTnApply(log, store, links, lines) =>
      ApplyAt(s.(checked := s.checked - multiset{log}), log, store, MatchedLines(links, lines), c, r);
    case EvTnFail(log) =>
      MarkDone(s, log, Failed, c, r);
      OnlyLogsCount(Mark(s, log, Failed), Step(s, e), c, r);
    case EvMisrouted(log, found) =>
      MarkDone(s, log, Failed, c, r);
      OnlyLogsCount(Mark(s, log, Failed), Step(s, e), c, r);
  }

  // ----- Runs in which jobs of one order do not overlap -----

  /** A job runs while its log is open, a Tienda Nube job starts while no other job
      of its order is between its two transactions, and a misrouted job at most
      puts an open log back to failed. */
  ghost predicate Polite(s: Web, e: Event) {
    match e
    case EvWoo(log, _, _, _) => log < |s.logs| ==> s.logs[log].status != Success
    case EvTnCheck(log) =>
      log < |s.logs| ==>
        && s.logs[log].status != Success
        && forall k :: k in s.checked && k < |s.logs| ==> !SameOrder(s.logs[k], s.logs[log].channel, s.logs[log].remote)
    case EvMisrouted(log, found) => log < |s.logs| ==> s.logs[log].status != Success && !found
    case _ => true
  }

  /** Whoever passed the check may still rely on it, and so may whoever did not. */
  ghost predicate ChecksHold(s: Web) {
    && (forall k :: k in s.checked ==> CheckHolds(s, k))
    && (forall k :: k in s.duplicates ==> k < |s.logs| && Done(s, s.logs[k].channel, s.logs[k].remote))
  }

  ghost predicate CheckHolds(s: Web, k: nat) {
    && k < |s.logs| && s.logs[k].channel == TiendaNube && s.checked[k] == 1
    && !Done(s, s.logs[k].channel, s.logs[k].remote)
    && forall j :: j in s.checked && j < |s.logs| && SameOrder(s.logs[j], s.logs[k].channel, s.logs[k].remote) ==>
        j == k
  }

  lemma PoliteIsHarmless(s: Web, e: Event)
    requires ChecksHold(s) && Polite(s, e)
    ensures !Harmful(s, e)
  {
    if (e.EvTnFail? || e.EvTnApply?) && e.log in s.checked {
      assert CheckHolds(s, e.log);
      DoneSplits(s, e.log);
    }
  }

  /** A polite step never takes a success back. */
  lemma DoneStays(s: Web, e: Event, channel: Channel, remote: nat)
    requires !Forgets(s, e) && Done(s, channel, remote)
    ensures Done(Step(s, e), channel, remote)
  {
    if Attempt(s, e).Ok? {
      if !e.EvDeliver? { DoneSplits(s, e.log); }
      match e
      case EvDeliver(c, r) => DeliverAt(s, c, r, channel, remote);
      case EvRetry(log) => MarkDone(s, log, Pending, channel, remote);
      case EvTnCheck(log) =>
      case EvTnMark(log) => MarkDone(s, log, Success, channel, remote);
      case EvTnFail(log) => MarkDone(s, log, Failed, channel, remote);
      case EvMisrouted(log, found) => MarkDone(s, log, if found then Success else Failed, channel, remote);
      case EvTnApply(log, store, links, lines) =>
        ApplyAt(s.(checked := s.checked - multiset{log}), log, store, MatchedLines(links, lines), channel, remote);
      case EvWoo(log, config, links, lines) => WooKeepsDone(s, log, config, links, lines, channel, remote);
    }
  }

  lemma WooKeepsDone(s: Web, log: nat, config: Option<nat>, links: Links, lines: seq<Line>, channel: Channel,
                     remote: nat)
    requires var e := EvWoo(log, config, links, lines); !Forgets(s, e) && Attempt(s, e).Ok? && Done(s, channel, remote)
    ensures Done(ProcessWoo(s, log, config, links, lines).value, channel, remote)
  {
    DoneSplits(s, log);
    MarkDone(s, log, Success, channel, remote);
    MarkDone(s, log, Failed, channel, remote);
    if config.Some? {
      ApplyAt(s, log, config.value, MatchedLines(links, lines), channel, remote);
    }
  }

  lemma DuplicatesStay(s: Web, e: Event)
    requires ChecksHold(s) && Polite(s, e)
    ensures forall k :: k in Step(s, e).duplicates ==>
              k < |Step(s, e).logs| && Done(Step(s, e), Step(s, e).logs[k].channel, Step(s, e).logs[k].remote)
  {
    PoliteIsHarmless(s, e);
    OrdersStay(s, e);
    forall k | k in Step(s, e).duplicates
      ensures k < |Step(s, e).logs| && Done(Step(s, e), Step(s, e).logs[k].channel, Step(s, e).logs[k].remote)
    {
      OneDuplicate(s, e, k);
      DoneSplits(s, k);
      DoneStays(s, e, s.logs[k].channel, s.logs[k].remote);
    }
  }

  lemma OneDuplicate(s: Web, e: Event, k: nat)
    requires k in Step(s, e).duplicates
    ensures k in s.duplicates || (k < |s.logs| && DoneByAnother(s, k))
  {
  }

  lemma ChecksStay(s: Web, e: Event)
    requires ChecksHold(s) && Polite(s, e)
    ensures ChecksHold(Step(s, e))
  {
    if Attempt(s, e).Ok? {
      var t := Step(s, e);
      DuplicatesStay(s, e);
      forall k | k in t.checked
        ensures CheckHolds(t, k)
      {
        CheckStays(s, e, k);
        forall j | j in t.checked && j < |t.logs| && SameOrder(t.logs[j], t.logs[k].channel, t.logs[k].remote)
          ensures j == k
        {
          CheckStays(s, e, j);
          ChecksDiffer(s, e, j, k);
        }
      }
    }
  }

  lemma ChecksDiffer(s: Web, e: Event, j: nat, k: nat)
    requires ChecksHold(s) && Polite(s, e) && j < |s.logs| && k < |s.logs|
    requires j in s.checked || e == EvTnCheck(j)
    requires k in s.checked || e == EvTnCheck(k)
    requires SameOrder(s.logs[j], s.logs[k].channel, s.logs[k].remote)
    ensures j == k
  {
    assert j in s.checked ==> CheckHolds(s, j);
    assert k in s.checked ==> CheckHolds(s, k);
  }

  /** A log belongs to one order for ever. */
  predicate SameOrders(before: seq<Log>, after: seq<Log>) {
    |before| <= |after|
    && forall k :: 0 <= k < |before| ==> after[k].channel == before[k].channel && after[k].remote == before[k].remote
  }

  lemma MarkSame(logs: seq<Log>, log: nat)
    requires log < |logs|
    ensures forall status :: SameOrders(logs, logs[log := logs[log].(status := status)])
  {
  }

  lemma OrdersStay(s: Web, e: Event)
    ensures SameOrders(s.logs, Step(s, e).logs)
  {
    if Attempt(s, e).Ok? && !e.EvDeliver? {
      MarkSame(s.logs, e.log);
      LogsMarked(s, e);
    }
  }

  lemma LogsMarked(s: Web, e: Event)
    requires Attempt(s, e).Ok? && !e.EvDeliver? && e.log < |s.logs|
    ensures Step(s, e).logs == s.logs
        || exists status :: Step(s, e).logs == s.logs[e.log := s.logs[e.log].(status := status)]
  {
    match e
    case EvWoo(log, config, links, lines) =>
      assert Step(s, e).logs == Mark(s, log, Success).logs || Step(s, e).logs == Mark(s, log, Failed).logs;
    case EvTnApply(log, store, links, lines) => assert Step(s, e).logs == Mark(s, log, Success).logs;
    case EvTnCheck(log) => assert Step(s, e).logs == s.logs;
    case EvTnMark(log) => assert Step(s, e).logs == Mark(s, log, Success).logs;
    case EvMisrouted(log, found) => assert Step(s, e).logs == Mark(s, log, if found then Success else Failed).logs;
    case EvTnFail(log) => assert Step(s, e).logs == Mark(s, log, Failed).logs;
    case EvRetry(log) => assert Step(s, e).logs == Mark(s, log, Pending).logs;
  }

  /** The jobs between their two transactions, after a step. */
  lemma CheckedStay(s: Web, e: Event)
    requires ChecksHold(s) && Polite(s, e)
    ensures forall k :: k in Step(s, e).checked ==> k in s.checked || e == EvTnCheck(k)
    ensures forall k :: k in Step(s, e).checked ==> Step(s, e).checked[k] == 1
  {
    if e.EvTnCheck? && e.log < |s.logs| {
      assert e.log !in s.checked;
    }
    OneJoins(s, e);
    forall k | k in Step(s, e).checked
      ensures Step(s, e).checked[k] == 1
    {
      assert k in s.checked ==> CheckHolds(s, k);
    }
  }

  lemma OneJoins(s: Web, e: Event)
    ensures Step(s, e).checked <= s.checked
        || (e.EvTnCheck? && e.log < |s.logs| && Step(s, e).checked == s.checked + multiset{e.log})
  {
  }

  lemma CheckStays(s: Web, e: Event, k: nat)
    requires ChecksHold(s) && Polite(s, e) && Attempt(s, e).Ok? && k in Step(s, e).checked
    ensures (k in s.checked || e == EvTnCheck(k)) && Step(s, e).checked[k] == 1
    ensures k < |s.logs| && k < |Step(s, e).logs| && s.logs[k].channel == TiendaNube
    ensures Step(s, e).logs[k].channel == s.logs[k].channel && Step(s, e).logs[k].remote == s.logs[k].remote
    ensures !Done(Step(s, e), s.logs[k].channel, s.logs[k].remote)
  {
    OrdersStay(s, e);
    CheckedStay(s, e);
    assert k in s.checked ==> CheckHolds(s, k);
    NotDoneAfter(s, e, k);
  }

  lemma NotDoneAfter(s: Web, e: Event, k: nat)
    requires ChecksHold(s) && Polite(s, e) && Attempt(s, e).Ok? && k in Step(s, e).checked && k < |s.logs|
    requires k in s.checked || e == EvTnCheck(k)
    requires s.logs[k].channel == TiendaNube
    ensures !Done(Step(s, e), s.logs[k].channel, s.logs[k].remote)
  {
    assert k in s.checked ==> CheckHolds(s, k);
    if OnlyMarks(e) {
      StepMarks(s, e);
      assert e.EvTnMark? ==> e.log in s.duplicates;
      NotDoneStays(s, e, e.log, MarkedAs(e), k);
    } else if e.EvTnApply? {
      TnApplyStays(s, e.log, e.store, e.links, e.lines, k);
    } else if e.EvTnCheck? {
      TnCheckStays(s, e.log, k);
    } else if e.EvWoo? {
      WooStays(s, e.log, e.config, e.links, e.lines, k);
    } else {
      DeliverAt(s, e.channel, e.remote, s.logs[k].channel, s.logs[k].remote);
    }
  }

  /** Events that change the status of a log and nothing in stock. */
  predicate OnlyMarks(e: Event) { e.EvRetry? || e.EvTnMark? || e.EvTnFail? || e.EvMisrouted? }

  function MarkedAs(e: Event): Status
    requires OnlyMarks(e)
  {
    match e
    case EvRetry(_) => Pending
    case EvTnMark(_) => Success
    case EvTnFail(_) => Failed
    case EvMisrouted(_, found) => if found then Success else Failed
  }

  lemma StepMarks(s: Web, e: Event)
    requires OnlyMarks(e) && Attempt(s, e).Ok?
    ensures e.log < |s.logs| && Step(s, e).logs == Mark(s, e.log, MarkedAs(e)).logs
  {
  }

  /** Changing the status of a log of another order, or of a job that failed. */
  lemma NotDoneStays(s: Web, e: Event, log: nat, status: Status, k: nat)
    requires log < |s.logs| && k < |s.logs| && Step(s, e).logs == Mark(s, log, status).logs
    requires !Done(s, s.logs[k].channel, s.logs[k].remote)
    requires status == Success ==> Done(s, s.logs[log].channel, s.logs[log].remote)
    ensures !Done(Step(s, e), s.logs[k].channel, s.logs[k].remote)
  {
    DoneSplits(s, k);
    DoneSplits(s, log);
    MarkDone(s, log, status, s.logs[k].channel, s.logs[k].remote);
    assert Done(Step(s, e), s.logs[k].channel, s.logs[k].remote)
        == Done(Mark(s, log, status), s.logs[k].channel, s.logs[k].remote);
  }

  lemma TnApplyStays(s: Web, log: nat, store: nat, links: Links, lines: seq<Line>, k: nat)
    requires ChecksHold(s) && ApplyTiendaNube(s, log, store, links, lines).Ok?
    requires k in ApplyTiendaNube(s, log, store, links, lines).value.checked && k in s.checked && k < |s.logs|
    ensures !Done(ApplyTiendaNube(s, log, store, links, lines).value, s.logs[k].channel, s.logs[k].remote)
  {
    assert CheckHolds(s, log) && CheckHolds(s, k);
    assert k != log;
    ApplyAt(s.(checked := s.checked - multiset{log}), log, store, MatchedLines(links, lines), s.logs[k].channel,
            s.logs[k].remote);
  }

  lemma WooStays(s: Web, log: nat, config: Option<nat>, links: Links, lines: seq<Line>, k: nat)
    requires k < |s.logs| && s.logs[k].channel == TiendaNube && !Done(s, s.logs[k].channel, s.logs[k].remote)
    requires ProcessWoo(s, log, config, links, lines).Ok?
    ensures !Done(ProcessWoo(s, log, config, links, lines).value, s.logs[k].channel, s.logs[k].remote)
  {
    var c, r := s.logs[k].channel, s.logs[k].remote;
    MarkDone(s, log, Success, c, r);
    MarkDone(s, log, Failed, c, r);
    if config.Some? { ApplyAt(s, log, config.value, MatchedLines(links, lines), c, r); }
  }

  lemma TnCheckStays(s: Web, log: nat, k: nat)
    requires ChecksHold(s) && Polite(s, EvTnCheck(log)) && CheckTiendaNube(s, log).Ok?
    requires k in CheckTiendaNube(s, log).value.checked && k < |s.logs|
    ensures !Done(CheckTiendaNube(s, log).value, s.logs[k].channel, s.logs[k].remote)
  {
    DoneSplits(s, log);
    assert CheckTiendaNube(s, log).value.logs == s.logs;
    assert k in s.checked ==> CheckHolds(s, k);
    OnlyLogsCount(s, CheckTiendaNube(s, log).value, s.logs[k].channel, s.logs[k].remote);
  }

  ghost predicate PoliteRun(s: Web, run: seq<Event>) {
    forall k :: 0 <= k < |run| ==> Polite(Exec(s, run[..k]), run[k])
  }

  lemma PolitePrefix(s: Web, run: seq<Event>, n: nat)
    requires PoliteRun(s, run) && n <= |run|
    ensures PoliteRun(s, run[..n])
  {
    var before := run[..n];
    forall k | 0 <= k < n
      ensures Polite(Exec(s, before[..k]), before[k])
    {
      assert before[..k] == run[..k];
    }
  }

  /** In any such run, whatever is delivered twice, fails or is retried: every
      remote order is taken out of stock exactly once if some log of it
      succeeded, and not at all otherwise. */
  lemma {:induction false} EveryOrderOnce(s: Web, run: seq<Event>)
    requires ExactlyOnce(s) && ChecksHold(s) && PoliteRun(s, run)
    ensures ExactlyOnce(Exec(s, run)) && ChecksHold(Exec(s, run))
    decreases |run|
  {
    if |run| > 0 {
      var n := |run| - 1;
      var before := run[..n];
      PolitePrefix(s, run, n);
      EveryOrderOnce(s, before);
      PoliteIsHarmless(Exec(s, before), run[n]);
      StepOnceIff(Exec(s, before), run[n]);
      ChecksStay(Exec(s, before), run[n]);
    }
  }

  // ----- Two jobs of one order -----

  /** Ten units in stock, and an order of two. */
  function Shelf(): Key { Key(0, ProductTarget(1)) }

  function TenUnits(): Web { Web(map[Shelf() := 10000], [], multiset{}, multiset{}, multiset{}, []) }

  function TwoUnits(log: nat): Event { EvTnApply(log, 0, map[5 := ProductTarget(1)], [Line(5, 2000.0)]) }

  function BothAtOnce(): seq<Event> {
    var deliver := EvDeliver(TiendaNube, 7);
    [deliver, deliver, EvTnCheck(0), EvTnCheck(1), TwoUnits(0), TwoUnits(1)]
  }

  /** Two Tienda Nube jobs of one order that both check before either applies: two
      units were sold and four leave the stock. */
  lemma OverlappingJobsApplyTwice()
    ensures var t := Exec(TenUnits(), BothAtOnce());
            Times(t, TiendaNube, 7) == 2 && LevelOf(t.levels, Shelf()) == 6000
  {
    var run := BothAtOnce();
    BothCheck();
    FourSteps(TenUnits(), run[0], run[1], run[2], run[3]);
    LastTwo(TenUnits(), run);
    assert Times(BothChecked(), TiendaNube, 7) == 0;
    ApplyCounts(BothChecked(), 0, 10000);
    ApplyCounts(Step(BothChecked(), TwoUnits(0)), 1, 8000);
  }

  lemma LastTwo(s: Web, run: seq<Event>)
    requires |run| == 6
    ensures Exec(s, run) == Step(Step(Exec(s, [run[0], run[1], run[2], run[3]]), run[4]), run[5])
  {
    assert run[..5][..4] == [run[0], run[1], run[2], run[3]];
    assert Exec(s, run[..5]) == Step(Exec(s, run[..5][..4]), run[4]);
  }

  lemma FourSteps(s: Web, a: Event, b: Event, c: Event, d: Event)
    ensures Exec(s, [a, b, c, d]) == Step(Step(Step(Step(s, a), b), c), d)
  {
    var run := [a, b, c, d];
    assert run[..3] == [a, b, c] && run[..3][..2] == [a, b] && [a, b][..1] == [a] && [a][..0] == [];
    assert Exec(s, [a]) == Step(s, a);
    assert Exec(s, [a, b]) == Step(Step(s, a), b);
    assert Exec(s, [a, b, c]) == Step(Step(Step(s, a), b), c);
  }

  function BothChecked(): Web {
    var waiting := Log(TiendaNube, 7, Pending);
    TenUnits().(logs := [waiting, waiting], checked := multiset{0, 1})
  }

  lemma BothCheck()
    ensures var deliver := EvDeliver(TiendaNube, 7);
            Step(Step(Step(Step(TenUnits(), deliver), deliver), EvTnCheck(0)), EvTnCheck(1)) == BothChecked()
  {
    var deliver, waiting := EvDeliver(TiendaNube, 7), Log(TiendaNube, 7, Pending);
    assert Step(TenUnits(), deliver).logs == [waiting];
    var both := TenUnits().(logs := [waiting, waiting]);
    assert Step(Step(TenUnits(), deliver), deliver) == both;
    CheckPasses(both, 0);
    CheckPasses(both.(checked := multiset{0}), 1);
  }

  lemma CheckPasses(s: Web, log: nat)
    requires log < |s.logs| && s.logs[log].channel == TiendaNube
    requires forall k :: 0 <= k < |s.logs| ==> s.logs[k].status == Pending
    ensures Step(s, EvTnCheck(log)) == s.(checked := s.checked + multiset{log})
  {
  }

  lemma TwoUnitsMatched()
    ensures MatchedLines(map[5 := ProductTarget(1)], [Line(5, 2000.0)]) == [Move(ProductTarget(1), 2000.0)]
  {
    assert [Line(5, 2000.0)][..0] == [];
    assert MatchedLines(map[5 := ProductTarget(1)], []) == [];
  }

  lemma TwoUnitsLeave(levels: Levels, units: int)
    requires levels == map[Shelf() := units] && units > 2000
    ensures Shop.ShipFreely(levels, 0, [Move(ProductTarget(1), 2000.0)]) == map[Shelf() := units - 2000]
  {
    assert [Move(ProductTarget(1), 2000.0)][..0] == [];
    assert Shop.ShipFreely(levels, 0, []) == levels;
    assert units as real - 2000.0 == (units - 2000) as real;
    RoundInt(units - 2000);
  }

  /** The second transaction takes the lines out, whatever happened since the first. */
  lemma ApplyCounts(s: Web, log: nat, units: int)
    requires log < |s.logs| && log in s.checked && s.levels == map[Shelf() := units] && units > 2000
    ensures var t := Step(s, TwoUnits(log));
            && t.checked == s.checked - multiset{log} && SameOrders(s.logs, t.logs)
            && t.levels == map[Shelf() := units - 2000]
            && Times(t, s.logs[log].channel, s.logs[log].remote)
                == Times(s, s.logs[log].channel, s.logs[log].remote) + 1
  {
    TwoUnitsMatched();
    TwoUnitsLeave(s.levels, units);
    ApplyAt(s.(checked := s.checked - multiset{log}), log, 0, [Move(ProductTarget(1), 2000.0)],
            s.logs[log].channel, s.logs[log].remote);
  }

  // ----- Retrying a Tienda Nube order by hand -----

  /** No job of the order is between its two transactions. */
  ghost predicate NoJob(s: Web, remote: nat) {
    forall k :: k in s.checked && k < |s.logs| ==> !SameOrder(s.logs[k], TiendaNube, remote)
  }

  /** A first transaction of a job of the order. */
  predicate Starts(s: Web, e: Event, remote: nat) {
    e.EvTnCheck? && e.log < |s.logs| && SameOrder(s.logs[e.log], TiendaNube, remote)
  }

  ghost predicate NeverStarts(s: Web, run: seq<Event>, remote: nat) {
    forall k :: 0 <= k < |run| ==> !Starts(Exec(s, run[..k]), run[k], remote)
  }

  lemma StepLeavesOrder(s: Web, e: Event, remote: nat)
    requires NoJob(s, remote) && ChecksExist(s) && !Starts(s, e, remote)
    ensures NoJob(Step(s, e), remote) && ChecksExist(Step(s, e))
    ensures Times(Step(s, e), TiendaNube, remote) == Times(s, TiendaNube, remote)
  {
    OrdersStay(s, e);
    OneJoins(s, e);
    AppliedElsewhere(s, e, remote);
  }

  lemma AppliedElsewhere(s: Web, e: Event, remote: nat)
    requires NoJob(s, remote)
    ensures Times(Step(s, e), TiendaNube, remote) == Times(s, TiendaNube, remote)
  {
    if e.EvWoo? {
      if e.config.Some? && e.log < |s.logs| {
        ApplyAt(s, e.log, e.config.value, MatchedLines(e.links, e.lines), TiendaNube, remote);
      }
    } else if e.EvTnApply? {
      if e.log < |s.logs| {
        ApplyAt(s.(checked := s.checked - multiset{e.log}), e.log, e.store, MatchedLines(e.links, e.lines),
                TiendaNube, remote);
      }
    } else {
      NothingApplied(s, e);
    }
  }

  predicate SameStock(s: Web, t: Web) { t.levels == s.levels && t.applied == s.applied }

  lemma ChecksTouchNoStock(s: Web, log: nat)
    ensures CheckTiendaNube(s, log).Ok? ==> SameStock(s, CheckTiendaNube(s, log).value)
    ensures MarkDuplicate(s, log).Ok? ==> SameStock(s, MarkDuplicate(s, log).value)
    ensures FailTiendaNube(s, log).Ok? ==> SameStock(s, FailTiendaNube(s, log).value)
  {
  }

  lemma RetriesTouchNoStock(s: Web, log: nat, found: bool)
    ensures Retry(s, log).Ok? ==> SameStock(s, Retry(s, log).value)
    ensures ProcessMisrouted(s, log, found).Ok? ==> SameStock(s, ProcessMisrouted(s, log, found).value)
  {
  }

  lemma NothingApplied(s: Web, e: Event)
    requires !e.EvWoo? && !e.EvTnApply?
    ensures SameStock(s, Step(s, e))
  {
    match e
    case EvDeliver(channel, remote) =>
    case EvRetry(log) => RetriesTouchNoStock(s, log, false);
    case EvMisrouted(log, found) => RetriesTouchNoStock(s, log, found);
    case EvTnCheck(log) => ChecksTouchNoStock(s, log);
    case EvTnMark(log) => ChecksTouchNoStock(s, log);
    case EvTnFail(log) => ChecksTouchNoStock(s, log);
  }

  ghost predicate ChecksExist(s: Web) { forall k :: k in s.checked ==> k < |s.logs| }

  lemma StartsParts(s: Web, run: seq<Event>, remote: nat)
    requires NeverStarts(s, run, remote) && |run| > 0
    ensures NeverStarts(s, run[..|run| - 1], remote)
    ensures !Starts(Exec(s, run[..|run| - 1]), run[|run| - 1], remote)
  {
    var before := run[..|run| - 1];
    forall k | 0 <= k < |before|
      ensures !Starts(Exec(s, before[..k]), before[k], remote)
    {
      assert before[..k] == run[..k];
    }
  }

  /** However often a Tienda Nube order is retried by hand, nothing is taken out of
      stock for it: only the jobs of its own queue do that. */
  lemma {:induction false} ManualRetryAppliesNothing(s: Web, run: seq<Event>, remote: nat)
    requires NoJob(s, remote) && ChecksExist(s) && NeverStarts(s, run, remote)
    ensures NoJob(Exec(s, run), remote) && ChecksExist(Exec(s, run))
    ensures Times(Exec(s, run), TiendaNube, remote) == Times(s, TiendaNube, remote)
    decreases |run|
  {
    if |run| > 0 {
      StartsParts(s, run, remote);
      ManualRetryAppliesNothing(s, run[..|run| - 1], remote);
      StepLeavesOrder(Exec(s, run[..|run| - 1]), run[|run| - 1], remote);
    }
  }

  // ----- The stock follows -----

  function Replay(levels: Levels, effects: seq<Effect>): Levels
  {
    if |effects| == 0 then levels else
      var e := effects[|effects| - 1];
      Shop.ShipFreely(Replay(levels, effects[..|effects| - 1]), e.store, e.moves)
  }

  /** A step takes at most one more order out of stock. */
  predicate Replays(s: Web, t: Web) {
    (t.levels == s.levels && t.applied == s.applied)
    || (|t.applied| == |s.applied| + 1 && t.applied[..|s.applied|] == s.applied
        && t.levels == Shop.ShipFreely(s.levels, t.applied[|s.applied|].store, t.applied[|s.applied|].moves))
  }

  lemma ApplyReplays(s: Web, log: nat, store: nat, moves: seq<Move>)
    requires log < |s.logs|
    ensures Replays(s, Apply(s, log, store, moves))
  {
  }

  lemma WooReplays(s: Web, log: nat, config: Option<nat>, links: Links, lines: seq<Line>)
    requires ProcessWoo(s, log, config, links, lines).Ok?
    ensures Replays(s, ProcessWoo(s, log, config, links, lines).value)
  {
    if config.Some? { ApplyReplays(s, log, config.value, MatchedLines(links, lines)); }
  }

  lemma StepReplays(s: Web, e: Event)
    ensures Replays(s, Step(s, e))
  {
    if e.EvWoo? {
      if Attempt(s, e).Ok? { WooReplays(s, e.log, e.config, e.links, e.lines); }
    } else if e.EvTnApply? {
      if e.log < |s.logs| {
        ApplyReplays(s.(checked := s.checked - multiset{e.log}), e.log, e.store, MatchedLines(e.links, e.lines));
      }
    } else {
      NothingApplied(s, e);
    }
  }

  /** Nothing but the applied orders moves the stock, each by its matched lines. */
  lemma {:induction false} StockIsReplay(levels: Levels, s: Web, run: seq<Event>)
    requires s.levels == Replay(levels, s.applied)
    ensures Exec(s, run).levels == Replay(levels, Exec(s, run).applied)
    decreases |run|
  {
    if |run| > 0 {
      var before := Exec(s, run[..|run| - 1]);
      StockIsReplay(levels, s, run[..|run| - 1]);
      StepReplays(before, run[|run| - 1]);
    }
  }

  function ShippedOf(effects: seq<Effect>): seq<Shop.WebLine>
  {
    if |effects| == 0 then [] else
      var e := effects[|effects| - 1];
      ShippedOf(effects[..|effects| - 1]) + Shop.ShippedLines(e.store, e.moves)
  }

  /** What the odd halves of the applied lines add, effect by effect. */
  function ReplayDrift(levels: Levels, effects: seq<Effect>, key: Key): int
  {
    if |effects| == 0 then 0 else
      var before, e := effects[..|effects| - 1], effects[|effects| - 1];
      ReplayDrift(levels, before, key) + ShopStock.ShipDrift(Replay(levels, before), e.store, e.moves, key)
  }

  lemma {:induction false} ReplayRemoves(levels: Levels, effects: seq<Effect>, key: Key)
    ensures LevelOf(Replay(levels, effects), key)
         == LevelOf(levels, key) - Sum(ShopStock.ShippedTerm(key), ShippedOf(effects))
             + ReplayDrift(levels, effects, key)
    decreases |effects|
  {
    if |effects| > 0 {
      var before, e := effects[..|effects| - 1], effects[|effects| - 1];
      ReplayRemoves(levels, before, key);
      ShopStock.ShipRemoves(Replay(levels, before), e.store, e.moves, key);
      SumConcat(ShopStock.ShippedTerm(key), ShippedOf(before), Shop.ShippedLines(e.store, e.moves));
    }
  }

  predicate StorableEffects(effects: seq<Effect>) {
    forall i :: 0 <= i < |effects| ==> ShopStock.StorableMoves(effects[i].moves)
  }

  lemma {:induction false} StorableReplayDriftsNowhere(levels: Levels, effects: seq<Effect>, key: Key)
    requires StorableEffects(effects)
    ensures ReplayDrift(levels, effects, key) == 0
    decreases |effects|
  {
    if |effects| > 0 {
      var before, e := effects[..|effects| - 1], effects[|effects| - 1];
      StorableReplayDriftsNowhere(levels, before, key);
      ShopStock.ShipDriftsNowhere(Replay(levels, before), e.store, e.moves, key);
    }
  }

  /** Over any run every level falls by the matched lines of the orders applied, up
      to the drift of their odd halves: not at all, when there are none. */
  lemma StockFallsByAppliedLines(s: Web, run: seq<Event>, key: Key)
    requires s.applied == []
    ensures var applied := Exec(s, run).applied;
            && LevelOf(Exec(s, run).levels, key)
               == LevelOf(s.levels, key) - Sum(ShopStock.ShippedTerm(key), ShippedOf(applied))
                + ReplayDrift(s.levels, applied, key)
            && (StorableEffects(applied) ==> ReplayDrift(s.levels, applied, key) == 0)
  {
    var applied := Exec(s, run).applied;
    StockIsReplay(s.levels, s, run);
    ReplayRemoves(s.levels, applied, key);
    if StorableEffects(applied) {
      StorableReplayDriftsNowhere(s.levels, applied, key);
    }
  }
}
