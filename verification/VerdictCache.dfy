/** The shared result cache and the interleaved system over it: the first writer wins, failures are
  * silent, and every row and every hit has an origin. */
module VerdictCache {
  import opened Text
  import opened Keys
  import opened Session
  import opened SessionSafety

  // ---------------------------------------------------------------- the table

  function ReadRow(rows: map<string, Payload>, key: string, reachable: bool): Option<Payload> {
    if reachable && key in rows then Some(rows[key]) else None
  }

  // INSERT ... ON CONFLICT DO NOTHING
  function WriteRow(rows: map<string, Payload>, key: string, payload: Payload, reachable: bool): map<string, Payload> {
    if reachable && key !in rows then rows[key := payload] else rows
  }

  class Cache {
    var rows: map<string, Payload>

    constructor ()
      ensures rows == map[]
    {
      rows := map[];
    }

    // reachable: whether the database answered; a failure is never raised.
    method Get(key: string, reachable: bool) returns (payload: Option<Payload>)
      ensures payload == ReadRow(rows, key, reachable)
    {
      payload := None;
      if reachable {
        if key in rows {
          payload := Some(rows[key]);
        }
      }
    }

    method Put(key: string, payload: Payload, reachable: bool)
      modifies this
      ensures rows == WriteRow(old(rows), key, payload, reachable)
      ensures forall k :: k in old(rows) ==> k in rows && rows[k] == old(rows)[k]
    {
      if reachable {
        if key !in rows {
          rows := rows[key := payload];
        }
      }
    }
  }

  // ---------------------------------------------------------------- many sessions, one table

  datatype SystemState = SystemState(sessions: map<string, Checkpoint>, rows: map<string, Payload>)

  /** A session is opened or dropped, or one input reaches one session while the table can
    * or cannot be read and written. */
  datatype Action =
    | Open(thread: string, problemId: string, userId: string)
    | Drop(thread: string)
    | Act(thread: string, input: Input, readable: bool, writable: bool)

  // The world as a session meets it when its cache reads go to the table.
  function Through(w: World, rows: map<string, Payload>, readable: bool): World {
    w.(cacheGet := key => ReadRow(rows, key, readable))
  }

  // The input as the session meets it: its cache reads go to the table.
  function MetInput(y: SystemState, a: Action): Input
    requires a.Act?
  {
    match a.input case Say(_) => a.input case Work(w) => Work(Through(w, y.rows, a.readable))
  }

  // The row a node stores: only a result the model has just computed.
  function Stored(cfg: Config, c: Checkpoint, w: World): Option<(string, Payload)> {
    if c.next == EvaluateLogic then
      match w.context(c.s.problemId)
      case None => None
      case Some(ctx) =>
        (match (w.cacheGet(VerdictKey(c.s, ctx)), FreshEvaluation(cfg, c.s.userLogic, ctx, w))
         case (None, Some(e)) => Some((VerdictKey(c.s, ctx), VerdictPayload(e)))
         case _ => None)
    else if c.next == SummarizeLogic then
      match (w.cacheGet(SummaryKey(c.s, w)), FreshSummary(c.s, w))
      case (None, Some(sm)) => Some((SummaryKey(c.s, w), SummaryPayload(sm)))
      case _ => None
    else None
  }

  function Kept(rows: map<string, Payload>, row: Option<(string, Payload)>, writable: bool): map<string, Payload> {
    match row
    case None => rows
    case Some(r) => WriteRow(rows, r.0, r.1, writable)
  }

  function StoredBy(cfg: Config, y: SystemState, a: Action): Option<(string, Payload)> {
    if a.Act? && a.thread in y.sessions && a.input.Work?
    then Stored(cfg, y.sessions[a.thread], Through(a.input.world, y.rows, a.readable))
    else None
  }

  function SystemStep(cfg: Config, y: SystemState, a: Action): SystemState {
    match a
    case Open(t, p, u) =>
      if t in y.sessions then y else y.(sessions := y.sessions[t := Initial(p, u, t)])
    case Drop(t) => y.(sessions := y.sessions - {t})
    case Act(t, input, readable, writable) =>
      if t !in y.sessions then y else
        SystemState(y.sessions[t := Step(cfg, y.sessions[t], MetInput(y, a))],
                    Kept(y.rows, StoredBy(cfg, y, a), writable))
  }

  function SystemRun(cfg: Config, actions: seq<Action>): SystemState {
    if actions == [] then SystemState(map[], map[])
    else SystemStep(cfg, SystemRun(cfg, actions[..|actions| - 1]), actions[|actions| - 1])
  }

  lemma OneMoreAction(cfg: Config, actions: seq<Action>, a: Action)
    ensures SystemRun(cfg, actions + [a]) == SystemStep(cfg, SystemRun(cfg, actions), a)
  {
    assert (actions + [a])[..|actions|] == actions;
  }

  // ---------------------------------------------------------------- history of the table

  // A stored row never changes, whoever writes and whatever fails.
  lemma {:induction false} RowsNeverChange(cfg: Config, actions: seq<Action>, n: nat, key: string)
    requires n <= |actions| && key in SystemRun(cfg, actions[..n]).rows
    ensures key in SystemRun(cfg, actions).rows
    ensures SystemRun(cfg, actions).rows[key] == SystemRun(cfg, actions[..n]).rows[key]
    decreases |actions|
  {
    if n < |actions| {
      var before := actions[..|actions| - 1];
      assert before[..n] == actions[..n];
      RowsNeverChange(cfg, before, n, key);
    } else {
      assert actions[..n] == actions;
    }
  }

  // Action j computed this row and found no earlier one under its key.
  ghost predicate WrittenBy(cfg: Config, actions: seq<Action>, j: int, key: string, payload: Payload) {
    0 <= j < |actions| && StoredBy(cfg, SystemRun(cfg, actions[..j]), actions[j]) == Some((key, payload))
  }

  lemma {:induction false} EveryRowWasComputed(cfg: Config, actions: seq<Action>, key: string) returns (j: nat)
    requires key in SystemRun(cfg, actions).rows
    ensures WrittenBy(cfg, actions, j, key, SystemRun(cfg, actions).rows[key])
  {
    var n := |actions| - 1;
    var before := actions[..n];
    var y := SystemRun(cfg, before);
    if key in y.rows {
      RowsNeverChange(cfg, actions, n, key);
      j := EveryRowWasComputed(cfg, before, key);
      assert before[..j] == actions[..j];
    } else {
      j := n;
    }
  }

  // ---------------------------------------------------------------- hits

  ghost predicate PlainProblemIds(actions: seq<Action>) {
    forall j :: 0 <= j < |actions| && actions[j].Open? ==> ':' !in actions[j].problemId
  }

  lemma {:induction false} SessionsHavePlainIds(cfg: Config, actions: seq<Action>, t: string)
    requires PlainProblemIds(actions)
    requires t in SystemRun(cfg, actions).sessions
    ensures ':' !in SystemRun(cfg, actions).sessions[t].s.problemId
  {
    if actions != [] {
      var before, a := actions[..|actions| - 1], actions[|actions| - 1];
      var y := SystemRun(cfg, before);
      if t in y.sessions {
        SessionsHavePlainIds(cfg, before, t);
        if a.Act? && a.thread == t {
          var met := MetInput(y, a);
          StepIsMove(cfg, y.sessions[t], met);
          MoveKeepsProblem(y.sessions[t], MoveOf(cfg, y.sessions[t], met));
        }
      }
    }
  }

  // Action j evaluated, for the same problem and rubric version, a text with the same words.
  ghost predicate EvaluatedAt(cfg: Config, actions: seq<Action>, j: int,
                              problemId: string, version: int, text: string, e: Evaluation) {
    && 0 <= j < |actions| && actions[j].Act? && actions[j].input.Work?
    && var y := SystemRun(cfg, actions[..j]);
    && actions[j].thread in y.sessions
    && var c, w := y.sessions[actions[j].thread], actions[j].input.world;
    && c.next == EvaluateLogic && c.s.problemId == problemId
    && w.context(problemId).Some?
    && var ctx := w.context(problemId).value;
    && ctx.rubricVersion == version
    && Words(Lower(c.s.userLogic)) == Words(Lower(text))
    && FreshEvaluation(cfg, c.s.userLogic, ctx, w) == Some(e)
  }

  // A row found under a verdict key holds what an earlier action computed for a text of the
  // same normal form; a summary is never served as a verdict.
  lemma VerdictHitHasOrigin(cfg: Config, actions: seq<Action>, problemId: string, version: int, text: string)
    returns (j: nat)
    requires PlainProblemIds(actions) && ':' !in problemId
    requires CacheKey("verdict", problemId, version, text) in SystemRun(cfg, actions).rows
    ensures var row := SystemRun(cfg, actions).rows[CacheKey("verdict", problemId, version, text)];
            row.VerdictPayload? && EvaluatedAt(cfg, actions, j, problemId, version, text, row.evaluation)
  {
    var key := CacheKey("verdict", problemId, version, text);
    j := EveryRowWasComputed(cfg, actions, key);
    var y := SystemRun(cfg, actions[..j]);
    var c, w := y.sessions[actions[j].thread], Through(actions[j].input.world, y.rows, actions[j].readable);
    SessionsHavePlainIds(cfg, actions[..j], actions[j].thread);
    StoredVerdict(cfg, c, w, problemId, version, text);
    SameFresh(cfg, c.s.userLogic, w.context(problemId).value, actions[j].input.world, w);
  }

  // What a node stores under a verdict key is its own evaluation of a text with the same words.
  lemma StoredVerdict(cfg: Config, c: Checkpoint, w: World, problemId: string, version: int, text: string)
    requires ':' !in problemId && ':' !in c.s.problemId
    requires Stored(cfg, c, w).Some? && Stored(cfg, c, w).value.0 == CacheKey("verdict", problemId, version, text)
    ensures c.next == EvaluateLogic && c.s.problemId == problemId && w.context(problemId).Some?
    ensures var ctx, payload := w.context(problemId).value, Stored(cfg, c, w).value.1;
            && ctx.rubricVersion == version && Words(Lower(c.s.userLogic)) == Words(Lower(text))
            && payload.VerdictPayload? && FreshEvaluation(cfg, c.s.userLogic, ctx, w) == Some(payload.evaluation)
  {
    hide CacheKey, FreshEvaluation, FreshSummary, Words, Lower;
    if c.next == EvaluateLogic {
      var ctx := w.context(c.s.problemId).value;
      CacheKeyDecodes("verdict", problemId, version, text, "verdict", c.s.problemId, ctx.rubricVersion, c.s.userLogic);
    } else {
      var own := VersionOr1(c.s.problemId, w);
      CacheKeyDecodes("verdict", problemId, version, text, "summary", c.s.problemId, own, c.s.userLogic);
    }
  }

  lemma SameFresh(cfg: Config, text: string, ctx: Context, w1: World, w2: World)
    requires w1.evaluator == w2.evaluator && w1.parseVerdict == w2.parseVerdict
    ensures FreshEvaluation(cfg, text, ctx, w1) == FreshEvaluation(cfg, text, ctx, w2)
  {
  }

  // Action j summarized, for the same problem and rubric version, a text with the same words.
  ghost predicate SummarizedAt(cfg: Config, actions: seq<Action>, j: int,
                               problemId: string, version: int, text: string, sm: Summary) {
    && 0 <= j < |actions| && actions[j].Act? && actions[j].input.Work?
    && var y := SystemRun(cfg, actions[..j]);
    && actions[j].thread in y.sessions
    && var c, w := y.sessions[actions[j].thread], actions[j].input.world;
    && c.next == SummarizeLogic && c.s.problemId == problemId
    && VersionOr1(problemId, w) == version
    && Words(Lower(c.s.userLogic)) == Words(Lower(text))
    && FreshSummary(c.s, w) == Some(sm)
  }

  // The accepted logic a hit serves was summarized afresh for a text with the same words, under the
  // same problem and version; a verdict is never served as a summary.
  lemma SummaryHitHasOrigin(cfg: Config, actions: seq<Action>, problemId: string, version: int, text: string)
    returns (j: nat)
    requires PlainProblemIds(actions) && ':' !in problemId
    requires CacheKey("summary", problemId, version, text) in SystemRun(cfg, actions).rows
    ensures var row := SystemRun(cfg, actions).rows[CacheKey("summary", problemId, version, text)];
            row.SummaryPayload? && SummarizedAt(cfg, actions, j, problemId, version, text, row.summary)
  {
    var key := CacheKey("summary", problemId, version, text);
    j := EveryRowWasComputed(cfg, actions, key);
    var y := SystemRun(cfg, actions[..j]);
    var c, w := y.sessions[actions[j].thread], Through(actions[j].input.world, y.rows, actions[j].readable);
    SessionsHavePlainIds(cfg, actions[..j], actions[j].thread);
    StoredSummary(cfg, c, w, problemId, version, text);
    SameSummary(c.s, actions[j].input.world, w);
  }

  lemma StoredSummary(cfg: Config, c: Checkpoint, w: World, problemId: string, version: int, text: string)
    requires ':' !in problemId && ':' !in c.s.problemId
    requires Stored(cfg, c, w).Some? && Stored(cfg, c, w).value.0 == CacheKey("summary", problemId, version, text)
    ensures c.next == SummarizeLogic && c.s.problemId == problemId && VersionOr1(problemId, w) == version
    ensures var payload := Stored(cfg, c, w).value.1;
            && Words(Lower(c.s.userLogic)) == Words(Lower(text))
            && payload.SummaryPayload? && FreshSummary(c.s, w) == Some(payload.summary)
  {
    hide CacheKey, FreshEvaluation, FreshSummary, Words, Lower;
    var own := VersionOr1(c.s.problemId, w);
    if c.next == EvaluateLogic {
      CacheKeyDecodes("summary", problemId, version, text, "verdict", c.s.problemId, own, c.s.userLogic);
    } else {
      CacheKeyDecodes("summary", problemId, version, text, "summary", c.s.problemId, own, c.s.userLogic);
    }
  }

  lemma SameSummary(s: State, w1: World, w2: World)
    requires w1.summarizer == w2.summarizer && w1.parseSummary == w2.parseSummary
    ensures FreshSummary(s, w1) == FreshSummary(s, w2)
  {
  }

  // ---------------------------------------------------------------- what the table holds

  /** The grade the evaluator gives to a problem, a rubric version and a normal form. */
  type Examiner = (string, int, string) -> Evaluation

  // The evaluator looks at nothing else: whenever it answers, it answers by the examiner.
  ghost predicate GradesBy(cfg: Config, w: World, g: Examiner) {
    forall p, text :: w.context(p).Some? && FreshEvaluation(cfg, text, w.context(p).value, w).Some? ==>
                        FreshEvaluation(cfg, text, w.context(p).value, w).value
                        == g(p, w.context(p).value.rubricVersion, Normalize(text))
  }

  // Whatever the cache returns for a verdict is what the examiner would say.
  ghost predicate SoundReads(w: World, g: Examiner) {
    forall p, v, text :: ':' !in p && w.cacheGet(CacheKey("verdict", p, v, text)).Some? ==>
                           w.cacheGet(CacheKey("verdict", p, v, text)).value == VerdictPayload(g(p, v, Normalize(text)))
  }

  ghost predicate AllGradeBy(cfg: Config, actions: seq<Action>, g: Examiner) {
    forall j :: 0 <= j < |actions| && actions[j].Act? && actions[j].input.Work? ==>
                  GradesBy(cfg, actions[j].input.world, g)
  }

  // After any interleaving of sessions and failures, reads through the table are sound.
  lemma TableReadsAreSound(cfg: Config, actions: seq<Action>, g: Examiner, w: World, readable: bool)
    requires PlainProblemIds(actions) && AllGradeBy(cfg, actions, g)
    ensures SoundReads(Through(w, SystemRun(cfg, actions).rows, readable), g)
  {
    var rows := SystemRun(cfg, actions).rows;
    var met := Through(w, rows, readable);
    forall p, v, text | ':' !in p && met.cacheGet(CacheKey("verdict", p, v, text)).Some?
      ensures met.cacheGet(CacheKey("verdict", p, v, text)).value == VerdictPayload(g(p, v, Normalize(text)))
    {
      var key := CacheKey("verdict", p, v, text);
      assert key in rows && met.cacheGet(key) == Some(rows[key]);
      var j := VerdictHitHasOrigin(cfg, actions, p, v, text);
      var c := SystemRun(cfg, actions[..j]).sessions[actions[j].thread];
      SameNormalForm(c.s.userLogic, text);
      assert GradesBy(cfg, actions[j].input.world, g);
    }
  }
}
