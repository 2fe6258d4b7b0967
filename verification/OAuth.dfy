/** The table of pending login states behind the OAuth callback, the defence against cross-site
  * request forgery of section 10.12 of RFC 6749.
  *
  * Times are seconds of the server's monotonic clock, read once by each handler.
  */
module OAuthStates {
  import opened Text

  const STATE_TTL: nat := 600

  type Table = map<string, nat>

  datatype Query = Query(error: Option<string>, code: Option<string>, state: Option<string>)

  datatype Gate = ProviderError | NoCode | NoState | UnknownState | Expired | Passed

  // Instant::elapsed, which never goes below zero.
  function Elapsed(issued: nat, now: nat): nat {
    if now >= issued then now - issued else 0
  }

  function Swept(t: Table, now: nat): Table {
    map s | s in t && Elapsed(t[s], now) < STATE_TTL :: t[s]
  }

  // The state a callback takes out of the table, if it gets that far.
  function Consumed(q: Query): Option<string> {
    if q.error.None? && q.code.Some? then q.state else None
  }

  function Judge(t: Table, q: Query, now: nat): Gate {
    if q.error.Some? then ProviderError
    else if q.code.None? then NoCode
    else if q.state.None? then NoState
    else if q.state.value !in t then UnknownState
    else if Elapsed(t[q.state.value], now) >= STATE_TTL then Expired
    else Passed
  }

  /** The mutex-guarded table, with the two handlers that touch it. */
  class AuthServer {
    var pending: Table

    constructor ()
      ensures pending == map[]
    {
      pending := map[];
    }

    method Login(secret: string, now: nat)
      modifies this
      ensures pending == After(true, old(pending), LoginAt(secret, now))
      ensures forall s :: s in pending <==> s == secret || (s in old(pending) && now < old(pending)[s] + 600)
      ensures pending[secret] == now && forall s :: s in pending && s != secret ==> pending[s] == old(pending)[s]
    {
      pending := Swept(pending, now);
      pending := pending[secret := now];
    }

    method Callback(q: Query, now: nat) returns (gate: Gate)
      modifies this
      ensures gate == Judge(old(pending), q, now)
      ensures gate == ProviderError <==> q.error.Some?
      ensures gate == NoCode <==> q.error.None? && q.code.None?
      ensures gate == NoState <==> q.error.None? && q.code.Some? && q.state.None?
      ensures q.error.None? && q.code.Some? && q.state.Some? ==>
                var s := q.state.value;
                && (gate == UnknownState <==> s !in old(pending))
                && (gate == Expired <==> s in old(pending) && now >= old(pending)[s] + 600)
                && (gate == Passed <==> s in old(pending) && now < old(pending)[s] + 600)
                && pending == old(pending) - {s}
      ensures q.error.Some? || q.code.None? || q.state.None? ==> pending == old(pending)
      ensures pending == After(true, old(pending), CallbackAt(q, now))
    {
      if q.error.Some? { return ProviderError; }
      if q.code.None? { return NoCode; }
      if q.state.None? { return NoState; }
      var state := q.state.value;
      var issued := if state in pending then Some(pending[state]) else None;
      pending := pending - {state};
      match issued {
        case None => gate := UnknownState;
        case Some(at) => gate := if Elapsed(at, now) >= STATE_TTL then Expired else Passed;
      }
    }
  }

  // ---------------------------------------------------------------- histories

  datatype Op = LoginAt(secret: string, at: nat) | CallbackAt(query: Query, at: nat)

  // One handler's effect on the table; without the sweep, login only inserts.
  function After(sweeps: bool, t: Table, op: Op): Table {
    match op
    case LoginAt(secret, now) => (if sweeps then Swept(t, now) else t)[secret := now]
    case CallbackAt(q, now) => if Consumed(q).Some? then t - {Consumed(q).value} else t
  }

  function TableAfter(sweeps: bool, ops: seq<Op>): Table {
    if ops == [] then map[] else After(sweeps, TableAfter(sweeps, ops[..|ops| - 1]), ops[|ops| - 1])
  }

  // What callback k of a history is told.
  function GateOf(sweeps: bool, ops: seq<Op>, k: nat): Gate
    requires k < |ops| && ops[k].CallbackAt?
  {
    Judge(TableAfter(sweeps, ops[..k]), ops[k].query, ops[k].at)
  }

  predicate InOrder(ops: seq<Op>) {
    forall i, j :: 0 <= i < j < |ops| ==> ops[i].at <= ops[j].at
  }

  // ---------------------------------------------------------------- the sweep is invisible

  // The swept table is the other one without some entries that have expired by now.
  predicate SweptOf(small: Table, big: Table, now: nat) {
    && (forall s :: s in small ==> s in big && big[s] == small[s])
    && (forall s :: s in big && s !in small ==> Elapsed(big[s], now) >= STATE_TTL)
  }

  lemma SweepStep(small: Table, big: Table, before: nat, op: Op)
    requires SweptOf(small, big, before) && before <= op.at
    ensures SweptOf(After(true, small, op), After(false, big, op), op.at)
  {
  }

  lemma SweptLater(small: Table, big: Table, before: nat, now: nat)
    requires SweptOf(small, big, before) && before <= now
    ensures SweptOf(small, big, now)
  {
  }

  lemma {:induction false} SweepKeepsLive(ops: seq<Op>, now: nat)
    requires InOrder(ops) && forall op :: op in ops ==> op.at <= now
    ensures SweptOf(TableAfter(true, ops), TableAfter(false, ops), now)
  {
    hide After;
    if ops != [] {
      var m := |ops| - 1;
      var op := ops[m];
      assert forall o :: o in ops[..m] ==> o.at <= op.at;
      SweepKeepsLive(ops[..m], op.at);
      SweepStep(TableAfter(true, ops[..m]), TableAfter(false, ops[..m]), op.at, op);
      SweptLater(TableAfter(true, ops), TableAfter(false, ops), op.at, now);
    }
  }

  /** The same callbacks pass as if login never swept; at most, a state that would have been
    * called expired is called unknown. */
  lemma SweepIsInvisible(ops: seq<Op>, k: nat)
    requires InOrder(ops) && k < |ops| && ops[k].CallbackAt?
    ensures var swept, kept := GateOf(true, ops, k), GateOf(false, ops, k);
            swept == kept || (swept == UnknownState && kept == Expired)
  {
    SweepKeepsLive(ops[..k], ops[k].at);
  }

  // ---------------------------------------------------------------- what passes

  predicate Touches(op: Op, s: string) {
    match op
    case LoginAt(secret, _) => secret == s
    case CallbackAt(q, _) => Consumed(q) == Some(s)
  }

  // Operation j issued s, and nothing in the history has touched s since.
  predicate Pending(ops: seq<Op>, j: int, s: string) {
    && 0 <= j < |ops| && ops[j].LoginAt? && ops[j].secret == s
    && forall m :: j < m < |ops| ==> !Touches(ops[m], s)
  }

  lemma PendingStep(ops: seq<Op>, j: int, s: string)
    requires ops != []
    ensures var m := |ops| - 1;
            Pending(ops, j, s) <==>
            if Touches(ops[m], s) then j == m && ops[m].LoginAt? else Pending(ops[..m], j, s)
  {
    var m := |ops| - 1;
    assert forall i :: 0 <= i < m ==> ops[..m][i] == ops[i];
  }

  // Without sweeping, the table holds exactly the pending states with their issue times.
  lemma {:induction false} TableHoldsPending(ops: seq<Op>, s: string, j: int) returns (i: int)
    ensures Pending(ops, j, s) ==> s in TableAfter(false, ops) && TableAfter(false, ops)[s] == ops[j].at
    ensures s in TableAfter(false, ops) ==> Pending(ops, i, s)
  {
    i := 0;
    if ops != [] {
      var m := |ops| - 1;
      i := TableHoldsPending(ops[..m], s, j);
      if Touches(ops[m], s) { i := m; }
      PendingStep(ops, j, s);
      PendingStep(ops, i, s);
    }
  }

  /** A callback passes the gate exactly when it carries a code and a state that was issued
    * less than the time to live ago and that no operation has touched since. */
  lemma PassesIff(ops: seq<Op>, k: nat)
    requires InOrder(ops) && k < |ops| && ops[k].CallbackAt?
    ensures GateOf(true, ops, k) == Passed <==>
            Consumed(ops[k].query).Some? &&
            exists j :: Pending(ops[..k], j, Consumed(ops[k].query).value)
                        && ops[k].at - ops[j].at < STATE_TTL
  {
    SweepIsInvisible(ops, k);
    if Consumed(ops[k].query).Some? {
      var s := Consumed(ops[k].query).value;
      var i := TableHoldsPending(ops[..k], s, 0);
      if s in TableAfter(false, ops[..k]) {
        var _ := TableHoldsPending(ops[..k], s, i);
      }
      forall j | Pending(ops[..k], j, s) ensures s in TableAfter(false, ops[..k])
          && TableAfter(false, ops[..k])[s] == ops[j].at {
        var _ := TableHoldsPending(ops[..k], s, j);
      }
    }
  }

  // ---------------------------------------------------------------- single use

  function Logins(ops: seq<Op>, s: string): nat {
    if ops == [] then 0 else
      var op := ops[|ops| - 1];
      Logins(ops[..|ops| - 1], s) + if op.LoginAt? && op.secret == s then 1 else 0
  }

  // The callbacks that passed with state s.
  function Passes(ops: seq<Op>, s: string): nat {
    if ops == [] then 0 else
      var m := |ops| - 1;
      Passes(ops[..m], s) +
        if ops[m].CallbackAt? && ops[m].query.state == Some(s) && GateOf(true, ops, m) == Passed
        then 1 else 0
  }

  /** Each login lets at most one callback pass, at whatever times the handlers ran; so a state
    * that was issued once passes at most once. */
  lemma {:induction false} EachLoginPassesOnce(ops: seq<Op>, s: string)
    ensures Passes(ops, s) + (if s in TableAfter(true, ops) then 1 else 0) <= Logins(ops, s)
  {
    if ops != [] {
      EachLoginPassesOnce(ops[..|ops| - 1], s);
    }
  }

  // A second callback with a state that has passed is refused until the state is issued again.
  lemma ReplayIsRefused(ops: seq<Op>, k: nat, l: nat, s: string)
    requires k < l < |ops| && ops[k].CallbackAt? && ops[l].CallbackAt?
    requires Consumed(ops[k].query) == Some(s) && ops[l].query.state == Some(s)
    requires forall m :: k < m < l ==> !(ops[m].LoginAt? && ops[m].secret == s)
    ensures GateOf(true, ops, l) != Passed && GateOf(true, ops, l) != Expired
  {
    StaysOut(ops, k, l, s);
  }

  lemma {:induction false} StaysOut(ops: seq<Op>, k: nat, l: nat, s: string)
    requires k < l <= |ops| && ops[k].CallbackAt? && Consumed(ops[k].query) == Some(s)
    requires forall m :: k < m < l ==> !(ops[m].LoginAt? && ops[m].secret == s)
    ensures s !in TableAfter(true, ops[..l])
  {
    assert ops[..l][..l - 1] == ops[..l - 1];
    if k + 1 < l {
      StaysOut(ops, k, l - 1, s);
    }
  }
}
