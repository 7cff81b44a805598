/** The ticket of an ordinary coder observation: prepared once, bound to a prediction,
    started once, and read only for a result captured in between.

    A call is an event; what the surroundings contribute (valid arguments, empty journals,
    the state of a result) is part of it.  Digests are functions that nothing is assumed
    about. */
module Observation {
  import opened Options
  import OA = OrdinaryAcceptance

  datatype Expectation = Expectation(sourceGroup: string, riskScore: Option<real>)

  datatype Ticket = Ticket(ticketId: string, decisionId: string, baseRun: string, sourceGroup: string)

  datatype Receipt = Receipt(ticketId: string, decisionId: string)

  /** The digests, the workspace, and the journal reader. */
  datatype Config = Config(keyOf: (Expectation, string) -> string, idOf: string -> string, runOf: string -> string, workspace: string,
                           reader: (OA.Journal, OA.Ticket, OA.Spec) -> Option<OA.Verdict>)

  /** The reader of ordinary observations. */
  ghost predicate Ordinary(c: Config) { forall j, t, spec :: c.reader(j, t, spec) == OA.Acceptance(j, t, spec) }

  type Result = nat

  datatype State = State(ticket: Option<Ticket>, preparedKey: string, started: bool, disabled: bool,
                         predecision: Option<OA.Header>, captured: map<Result, Receipt>)

  function Initial(disabled: bool): State { State(None, "", false, disabled, None, map[]) }

  datatype Event =
    | Prepare(valid: bool, expectation: Expectation, decisionId: string, empty: bool, task: string)
    | Bind(ticketId: string, decisionId: string, hash: Option<string>, wellFormed: bool, task: string)
    | Start(empty: bool)
    | Capture(result: Result, doubtful: bool)
    | Read(ticketId: string, decisionId: string, result: Result, doubtful: bool, journal: OA.Journal, spec: OA.Spec)

  datatype Answer = Nothing | Prepared(ticket: Ticket) | Bound | Started(run: string) | Outcome(verdict: OA.Verdict)

  datatype Step = Step(state: State, answer: Answer)

  /** `bindPrediction`: a null prediction may be replaced, another one only repeated. */
  function BindStep(s: State, ticketId: string, decisionId: string, hash: Option<string>, wellFormed: bool, task: string): Step {
    if s.disabled || s.started || s.ticket == None || s.ticket.value.ticketId != ticketId
       || s.ticket.value.decisionId != decisionId || !(hash == None || wellFormed) then Step(s, Nothing)
    else
      var header := OA.Header(hash, decisionId, s.ticket.value.baseRun, task);
      if s.predecision.Some? && s.predecision.value.predictionHash != None && s.predecision.value != header then Step(s, Nothing)
      else Step(s.(predecision := Some(header)), Bound)
  }

  function PrepareStep(c: Config, s: State, e: Event): Step
    requires e.Prepare?
  {
    if s.disabled || !e.valid then Step(s, Nothing)
    else
      var key := c.keyOf(e.expectation, e.decisionId);
      if s.ticket.Some? then Step(s, if key == s.preparedKey then Prepared(s.ticket.value) else Nothing)
      else if !e.empty then Step(s.(disabled := true), Nothing)
      else
        var ticket := Ticket(c.idOf(key), e.decisionId, c.runOf(e.decisionId), e.expectation.sourceGroup);
        var s1 := s.(ticket := Some(ticket), preparedKey := key);
        Step(BindStep(s1, ticket.ticketId, e.decisionId, None, true, e.task).state, Prepared(ticket))
  }

  /** What the journal reader is asked under the current ticket. */
  function Asked(c: Config, s: State): OA.Ticket
    requires s.ticket.Some?
  {
    OA.Ticket(s.ticket.value.baseRun, c.workspace,
      if s.predecision.Some? then Some(Some(s.predecision.value)) else None)
  }

  function ReadAnswer(c: Config, s: State, e: Event): Answer
    requires e.Read?
  {
    if e.result !in s.captured || e.doubtful || s.ticket == None
       || s.captured[e.result] != Receipt(e.ticketId, e.decisionId)
       || s.ticket.value.ticketId != e.ticketId || s.ticket.value.decisionId != e.decisionId then Nothing
    else
      match c.reader(e.journal, Asked(c, s), e.spec)
      case None => Nothing
      case Some(v) => Outcome(v)
  }

  function Call(c: Config, s: State, e: Event): Step {
    match e
    case Prepare(_, _, _, _, _) => PrepareStep(c, s, e)
    case Bind(ticketId, decisionId, hash, wellFormed, task) => BindStep(s, ticketId, decisionId, hash, wellFormed, task)
    case Start(empty) =>
      if s.disabled || s.ticket == None || s.started || !empty then Step(s.(disabled := true), Nothing)
      else Step(s.(started := true), Started(s.ticket.value.baseRun))
    case Capture(result, doubtful) =>
      if !s.started || s.disabled || doubtful || s.ticket == None then Step(s, Nothing)
      else Step(s.(captured := s.captured[result := Receipt(s.ticket.value.ticketId, s.ticket.value.decisionId)]), Nothing)
    case Read(_, _, _, _, _, _) => Step(s, ReadAnswer(c, s, e))
  }

  // ---------------------------------------------------------------- runs

  /** The state after some calls on a fresh observation. */
  function After(c: Config, disabled: bool, es: seq<Event>): State
    decreases |es|
  {
    if es == [] then Initial(disabled) else Call(c, After(c, disabled, es[..|es| - 1]), es[|es| - 1]).state
  }

  function AnswerAt(c: Config, disabled: bool, es: seq<Event>, i: nat): Answer
    requires i < |es|
  {
    Call(c, After(c, disabled, es[..i]), es[i]).answer
  }

  /** What a call never changes. */
  ghost predicate Keeps(s: State, t: State) {
    && (s.ticket.Some? ==> t.ticket == s.ticket)
    && (s.disabled ==> t.disabled)
    && (s.started ==> t.started && t.predecision == s.predecision)
    && (s.predecision.Some? && s.predecision.value.predictionHash != None ==> t.predecision == s.predecision)
    && (forall r | r in s.captured :: r in t.captured && t.captured[r] == s.captured[r])
  }

  ghost predicate Inv(s: State) {
    && (s.started ==> s.ticket.Some?)
    && (s.ticket.Some? ==> s.predecision.Some?)
    && (s.predecision.Some? ==> s.ticket.Some?)
    && (s.predecision.Some? ==> s.predecision.value.decisionId == s.ticket.value.decisionId)
    && (s.predecision.Some? ==> s.predecision.value.baseRun == s.ticket.value.baseRun)
    && (s.captured != map[] ==> s.started)
    && (forall r | r in s.captured :: s.ticket.Some? && s.captured[r] == Receipt(s.ticket.value.ticketId, s.ticket.value.decisionId))
  }

  lemma CallKeeps(c: Config, s: State, e: Event)
    requires Inv(s)
    ensures Inv(Call(c, s, e).state) && Keeps(s, Call(c, s, e).state)
  {
  }

  lemma {:induction false} AfterInv(c: Config, disabled: bool, es: seq<Event>)
    ensures Inv(After(c, disabled, es))
    decreases |es|
  {
    hide Call;
    if es != [] {
      AfterInv(c, disabled, es[..|es| - 1]);
      CallKeeps(c, After(c, disabled, es[..|es| - 1]), es[|es| - 1]);
    }
  }

  /** Over every sequence of calls, from any moment on: the ticket stays, a prediction that is
      not null stays, and after the start nothing changes the prediction. */
  lemma {:induction false} Kept(c: Config, disabled: bool, es: seq<Event>, k: nat)
    requires k <= |es|
    ensures Keeps(After(c, disabled, es[..k]), After(c, disabled, es))
    decreases |es| - k
  {
    hide Call, Inv;
    if k == |es| {
      assert es[..k] == es;
    } else {
      assert es[..k + 1][..k] == es[..k];
      AfterInv(c, disabled, es[..k]);
      CallKeeps(c, After(c, disabled, es[..k]), es[k]);
      Kept(c, disabled, es, k + 1);
    }
  }

  lemma AfterStep(c: Config, disabled: bool, es: seq<Event>, i: nat)
    requires i < |es|
    ensures After(c, disabled, es[..i + 1]) == Call(c, After(c, disabled, es[..i]), es[i]).state
  {
    assert es[..i + 1][..i] == es[..i];
  }

  lemma PreparedMeans(c: Config, s: State, e: Event)
    requires Call(c, s, e).answer.Prepared?
    ensures Call(c, s, e).state.ticket == Some(Call(c, s, e).answer.ticket)
    ensures s.ticket.Some? ==> Call(c, s, e).answer.ticket == s.ticket.value
  {
  }

  lemma StartedMeans(c: Config, s: State, e: Event)
    requires Call(c, s, e).answer.Started?
    ensures s.ticket.Some? && !s.started && Call(c, s, e).answer.run == s.ticket.value.baseRun
    ensures Call(c, s, e).state == s.(started := true)
  {
  }

  /** At most one ticket is ever handed out, however often one is prepared. */
  lemma OneTicket(c: Config, disabled: bool, es: seq<Event>, i: nat, j: nat)
    requires i < j < |es| && AnswerAt(c, disabled, es, i).Prepared? && AnswerAt(c, disabled, es, j).Prepared?
    ensures AnswerAt(c, disabled, es, i) == AnswerAt(c, disabled, es, j)
  {
    hide After, Call;
    PreparedMeans(c, After(c, disabled, es[..i]), es[i]);
    PreparedMeans(c, After(c, disabled, es[..j]), es[j]);
    AfterStep(c, disabled, es, i);
    assert es[..j][..i + 1] == es[..i + 1];
    Kept(c, disabled, es[..j], i + 1);
  }

  /** At most one start succeeds, and it starts the ticket's run. */
  lemma OneStart(c: Config, disabled: bool, es: seq<Event>, i: nat, j: nat)
    requires i < |es| && j < |es| && AnswerAt(c, disabled, es, i).Started? && AnswerAt(c, disabled, es, j).Started?
    ensures i == j
  {
    if i < j { NoSecondStart(c, disabled, es, i, j); }
    if j < i { NoSecondStart(c, disabled, es, j, i); }
  }

  lemma NoSecondStart(c: Config, disabled: bool, es: seq<Event>, i: nat, j: nat)
    requires i < j < |es| && AnswerAt(c, disabled, es, i).Started?
    ensures !AnswerAt(c, disabled, es, j).Started?
  {
    hide After, Call;
    StartedMeans(c, After(c, disabled, es[..i]), es[i]);
    if AnswerAt(c, disabled, es, j).Started? { StartedMeans(c, After(c, disabled, es[..j]), es[j]); }
    AfterStep(c, disabled, es, i);
    assert es[..j][..i + 1] == es[..i + 1];
    Kept(c, disabled, es[..j], i + 1);
  }

  /** Where a started run was started. */
  lemma {:induction false} StartedAt(c: Config, disabled: bool, es: seq<Event>) returns (i: nat)
    requires After(c, disabled, es).started
    ensures i < |es| && AnswerAt(c, disabled, es, i).Started?
    decreases |es|
  {
    var n := |es| - 1;
    if After(c, disabled, es[..n]).started {
      i := StartedAt(c, disabled, es[..n]);
      assert es[..n][..i] == es[..i];
    } else {
      i := n;
    }
  }

  /** Where a captured result was captured: after the start. */
  lemma {:induction false} CapturedAt(c: Config, disabled: bool, es: seq<Event>, r: Result) returns (i: nat, j: nat)
    requires r in After(c, disabled, es).captured
    ensures i < j < |es| && AnswerAt(c, disabled, es, i).Started? && es[j] == Capture(r, false)
    decreases |es|
  {
    var n := |es| - 1;
    var before := After(c, disabled, es[..n]);
    if r in before.captured {
      i, j := CapturedAt(c, disabled, es[..n], r);
      assert es[..n][..i] == es[..i];
    } else {
      assert es[n] == Capture(r, false) && before.started;
      i := StartedAt(c, disabled, es[..n]);
      assert es[..n][..i] == es[..i];
      j := n;
    }
  }

  /** A successful start before call `k`, under the ticket and the prediction of that call. */
  ghost predicate StartFor(c: Config, disabled: bool, es: seq<Event>, i: nat, k: nat)
    requires i < k <= |es|
  {
    var begun, now := After(c, disabled, es[..i]), After(c, disabled, es[..k]);
    begun.ticket.Some? && now.ticket == begun.ticket && now.predecision == begun.predecision
    && AnswerAt(c, disabled, es, i) == Started(begun.ticket.value.baseRun)
  }

  lemma StartForAll(c: Config, disabled: bool, es: seq<Event>, i: nat, k: nat)
    requires i < k <= |es| && AnswerAt(c, disabled, es, i).Started?
    ensures StartFor(c, disabled, es, i, k)
  {
    hide After, Call;
    StartedMeans(c, After(c, disabled, es[..i]), es[i]);
    AfterStep(c, disabled, es, i);
    assert es[..k][..i + 1] == es[..i + 1];
    Kept(c, disabled, es[..k], i + 1);
  }

  lemma AnswerIs(c: Config, disabled: bool, es: seq<Event>, k: nat)
    requires k < |es|
    ensures AnswerAt(c, disabled, es, k) == Call(c, After(c, disabled, es[..k]), es[k]).answer
  {
  }

  lemma AnswerMeans(c: Config, s: State, e: Event)
    requires Call(c, s, e).answer.Outcome?
    ensures e.Read? && s.ticket.Some? && e.result in s.captured && s.captured[e.result] == Receipt(e.ticketId, e.decisionId)
    ensures s.ticket.value.ticketId == e.ticketId && s.ticket.value.decisionId == e.decisionId
    ensures c.reader(e.journal, Asked(c, s), e.spec) == Some(Call(c, s, e).answer.verdict)
  {
  }

  /** A read answers only for a result that was captured after the one start, under the same
      ticket and decision; and it is judged by the prediction that was bound at the start. */
  lemma ReadGuarded(c: Config, disabled: bool, es: seq<Event>, k: nat) returns (i: nat, j: nat)
    requires k < |es| && AnswerAt(c, disabled, es, k).Outcome?
    ensures i < j < k && StartFor(c, disabled, es, i, k) && es[k].Read? && es[j] == Capture(es[k].result, false)
    ensures var now := After(c, disabled, es[..k]);
      && now.ticket.Some? && now.ticket.value.ticketId == es[k].ticketId && now.ticket.value.decisionId == es[k].decisionId
      && c.reader(es[k].journal, Asked(c, now), es[k].spec) == Some(AnswerAt(c, disabled, es, k).verdict)
  {
    hide *;
    AnswerIs(c, disabled, es, k);
    AnswerMeans(c, After(c, disabled, es[..k]), es[k]);
    i, j := CapturedAt(c, disabled, es[..k], es[k].result);
    assert es[..k][..i] == es[..i] && es[..k][i] == es[i];
    AnswerIs(c, disabled, es, i);
    AnswerIs(c, disabled, es[..k], i);
    StartForAll(c, disabled, es, i, k);
  }

  /** What a read of an ordinary observation vouches for: the candidate's run succeeded after
      every earlier one was undone, and each of them carries the very header that was bound when
      the observation was started. */
  lemma ReadVouches(c: Config, disabled: bool, es: seq<Event>, k: nat, at: nat) returns (i: nat)
    requires Ordinary(c) && k < |es| && AnswerAt(c, disabled, es, k) == Outcome(OA.Confirmed(at))
    ensures i < k && StartFor(c, disabled, es, i, k)
    ensures es[k].Read? && After(c, disabled, es[..k]).ticket.Some? && at < |es[k].spec.candidates| <= 8
    ensures OA.ConfirmedAt(es[k].journal, Asked(c, After(c, disabled, es[..k])), es[k].spec, at)
    ensures forall n | 0 <= n <= at ::
      BeginsUnder(OA.Life(es[k].journal, Asked(c, After(c, disabled, es[..k])), n), After(c, disabled, es[..i]).predecision)
  {
    hide After, Call, OA.From, OA.ConfirmedAt, OA.AllUndone, StartFor, OA.Life;
    var j;
    i, j := ReadGuarded(c, disabled, es, k);
    AnswerIs(c, disabled, es, k);
    AnswerMeans(c, After(c, disabled, es[..k]), es[k]);
    AfterInv(c, disabled, es[..k]);
    StartSame(c, disabled, es, i, k);
    ConfirmedBound(es[k].journal, Asked(c, After(c, disabled, es[..k])), es[k].spec, at);
  }

  /** The life of a run begins under the header. */
  predicate BeginsUnder(life: seq<OA.Event>, header: Option<OA.Header>) {
    life != [] && life[0].body.Begin? && life[0].body.predecision == header
  }

  lemma StartSame(c: Config, disabled: bool, es: seq<Event>, i: nat, k: nat)
    requires i < k <= |es| && StartFor(c, disabled, es, i, k)
    ensures After(c, disabled, es[..k]).predecision == After(c, disabled, es[..i]).predecision
  {
  }

  lemma ConfirmedBound(j: OA.Journal, t: OA.Ticket, spec: OA.Spec, at: nat)
    requires t.predecision.Some? && OA.Acceptance(j, t, spec) == Some(OA.Confirmed(at))
    ensures at < |spec.candidates| <= 8 && OA.ConfirmedAt(j, t, spec, at)
    ensures forall n | 0 <= n <= at :: BeginsUnder(OA.Life(j, t, n), t.predecision.value)
  {
    hide OA.From, OA.Judge, OA.Life, OA.Untouched, OA.AllUndone;
    OA.VerdictExact(j, t, spec);
    forall n | 0 <= n <= at ensures BeginsUnder(OA.Life(j, t, n), t.predecision.value) {
      assert OA.Judge(j, t, spec, n) != OA.Unclear;
      OA.JudgedStart(j, t, spec, n);
    }
  }

  /** A refused start, early, repeated or over a journal in use, disables the observation for
      good: no later call hands out a ticket, binds, starts or captures.  Only results
      captured before can still be read. */
  lemma DisabledForGood(c: Config, disabled: bool, es: seq<Event>, k: nat, j: nat)
    requires k < j < |es| && es[k].Start? && AnswerAt(c, disabled, es, k) == Nothing
    ensures AnswerAt(c, disabled, es, j) == Nothing || (AnswerAt(c, disabled, es, j).Outcome? && AfterCaptured(c, disabled, es, k, j))
  {
    AfterStep(c, disabled, es, k);
    assert es[..j][..k + 1] == es[..k + 1];
    Kept(c, disabled, es[..j], k + 1);
    if es[j].Read? { NoneCaptured(c, disabled, es[..j], k + 1); }
  }

  ghost predicate AfterCaptured(c: Config, disabled: bool, es: seq<Event>, k: nat, j: nat)
    requires k < j < |es|
  {
    es[j].Read? && es[j].result in After(c, disabled, es[..k + 1]).captured
  }

  lemma {:induction false} NoneCaptured(c: Config, disabled: bool, es: seq<Event>, k: nat)
    requires k <= |es| && After(c, disabled, es[..k]).disabled
    ensures After(c, disabled, es).captured == After(c, disabled, es[..k]).captured
    decreases |es|
  {
    if k == |es| {
      assert es[..k] == es;
    } else {
      var n := |es| - 1;
      assert es[..n][..k] == es[..k];
      NoneCaptured(c, disabled, es[..n], k);
      Kept(c, disabled, es[..n], k);
    }
  }

  // ---------------------------------------------------------------- exactly what each call answers

  /** What someone who hears the calls and their answers knows: the call that handed out the
      ticket, whether a start was granted, whether a start or the first valid preparation was
      refused, the header bound last, and the results captured while the run was on. */
  datatype Heard = Heard(given: Option<(Event, Ticket)>, begun: bool, refused: bool, header: Option<OA.Header>, captured: set<Result>)

  function Hear(disabled: bool, h: Heard, e: Event, answer: Answer): Heard {
    match e
    case Prepare(valid, _, decisionId, _, task) =>
      if h.given.Some? || !valid then h
      else if answer.Prepared? then
        h.(given := Some((e, answer.ticket)), header := Some(OA.Header(None, decisionId, answer.ticket.baseRun, task)))
      else h.(refused := true)
    case Bind(_, decisionId, hash, _, task) =>
      if answer == Bound && h.given.Some? then h.(header := Some(OA.Header(hash, decisionId, h.given.value.1.baseRun, task))) else h
    case Start(_) => if answer.Started? then h.(begun := true) else h.(refused := true)
    case Capture(result, doubtful) =>
      if !doubtful && h.begun && !disabled && !h.refused then h.(captured := h.captured + {result}) else h
    case Read(_, _, _, _, _, _) => h
  }

  function HeardIn(c: Config, disabled: bool, es: seq<Event>): Heard
    decreases |es|
  {
    if es == [] then Heard(None, false, false, None, {})
    else Hear(disabled, HeardIn(c, disabled, es[..|es| - 1]), es[|es| - 1], AnswerAt(c, disabled, es, |es| - 1))
  }

  /** The state is what was heard. */
  ghost predicate Told(c: Config, disabled: bool, s: State, h: Heard) {
    && s.ticket == (if h.given.Some? then Some(h.given.value.1) else None)
    && (h.given.Some? ==> h.given.value.0.Prepare? && s.preparedKey == c.keyOf(h.given.value.0.expectation, h.given.value.0.decisionId))
    && s.started == h.begun && s.disabled == (disabled || h.refused) && s.predecision == h.header
    && s.captured.Keys == h.captured
  }

  lemma CallTold(c: Config, disabled: bool, s: State, h: Heard, e: Event)
    requires Inv(s) && Told(c, disabled, s, h)
    ensures Told(c, disabled, Call(c, s, e).state, Hear(disabled, h, e, Call(c, s, e).answer))
  {
  }

  lemma {:induction false} StateTold(c: Config, disabled: bool, es: seq<Event>)
    ensures Told(c, disabled, After(c, disabled, es), HeardIn(c, disabled, es))
    decreases |es|
  {
    if es != [] {
      hide Told, Call, Hear;
      var n := |es| - 1;
      StateTold(c, disabled, es[..n]);
      AfterInv(c, disabled, es[..n]);
      CallTold(c, disabled, After(c, disabled, es[..n]), HeardIn(c, disabled, es[..n]), es[n]);
    } else {
      assert Told(c, disabled, Initial(disabled), Heard(None, false, false, None, {}));
    }
  }

  lemma HeardAt(c: Config, disabled: bool, es: seq<Event>, k: nat)
    requires k < |es|
    ensures var s := After(c, disabled, es[..k]);
      Inv(s) && Told(c, disabled, s, HeardIn(c, disabled, es[..k])) && AnswerAt(c, disabled, es, k) == Call(c, s, es[k]).answer
  {
    hide Call, Told, Inv;
    AfterInv(c, disabled, es[..k]);
    StateTold(c, disabled, es[..k]);
  }

  /** The call has the key of an earlier one. */
  predicate Repeats(c: Config, first: Event, e: Event)
    requires e.Prepare?
  {
    first.Prepare? && c.keyOf(e.expectation, e.decisionId) == c.keyOf(first.expectation, first.decisionId)
  }

  /** A ticket is handed out exactly if nothing was refused, the arguments are valid and, the
      first time, the journals are empty, later the key is that of the first time. */
  lemma PreparedExact(c: Config, disabled: bool, es: seq<Event>, k: nat)
    requires k < |es| && es[k].Prepare?
    ensures var h, e, a := HeardIn(c, disabled, es[..k]), es[k], AnswerAt(c, disabled, es, k);
      var key := c.keyOf(e.expectation, e.decisionId);
      var first := Ticket(c.idOf(key), e.decisionId, c.runOf(e.decisionId), e.expectation.sourceGroup);
      && (a.Prepared? <==> !disabled && !h.refused && e.valid && if h.given.None? then e.empty else Repeats(c, h.given.value.0, e))
      && (a.Prepared? ==> a.ticket == if h.given.Some? then h.given.value.1 else first)
  {
    HeardAt(c, disabled, es, k);
    hide HeardIn, After, AnswerAt;
  }

  /** A prediction is bound exactly if nothing was refused or started, the call names the
      ticket, the hash is null or well formed, and a header bound before had no hash or is
      the same. */
  lemma BoundExact(c: Config, disabled: bool, es: seq<Event>, k: nat)
    requires k < |es| && es[k].Bind?
    ensures var h, e := HeardIn(c, disabled, es[..k]), es[k];
      AnswerAt(c, disabled, es, k) == Bound <==>
        && !disabled && !h.refused && !h.begun && h.given.Some?
        && h.given.value.1.ticketId == e.ticketId && h.given.value.1.decisionId == e.decisionId
        && (e.hash == None || e.wellFormed)
        && (h.header.Some? && h.header.value.predictionHash != None ==>
              h.header.value == OA.Header(e.hash, e.decisionId, h.given.value.1.baseRun, e.task))
  {
    HeardAt(c, disabled, es, k);
    hide HeardIn, After, AnswerAt;
  }

  /** A start is granted exactly if nothing was refused before, a ticket was handed out, none
      was granted yet and the journals are empty; it starts the ticket's run. */
  lemma StartedExact(c: Config, disabled: bool, es: seq<Event>, k: nat)
    requires k < |es| && es[k].Start?
    ensures var h, a := HeardIn(c, disabled, es[..k]), AnswerAt(c, disabled, es, k);
      && (a.Started? <==> !disabled && !h.refused && h.given.Some? && !h.begun && es[k].empty)
      && (a.Started? ==> h.given.Some? && a.run == h.given.value.1.baseRun)
  {
    HeardAt(c, disabled, es, k);
    hide HeardIn, After, AnswerAt;
  }

  function Judged(verdict: Option<OA.Verdict>): Answer { if verdict.Some? then Outcome(verdict.value) else Nothing }

  /** A read answers exactly if the result was captured and is not doubtful, the call names the
      ticket, and the reader has a verdict under the ticket and the header bound last; and then
      that verdict. */
  lemma ReadExact(c: Config, disabled: bool, es: seq<Event>, k: nat)
    requires k < |es| && es[k].Read?
    ensures var h, e, a := HeardIn(c, disabled, es[..k]), es[k], AnswerAt(c, disabled, es, k);
      var named := e.result in h.captured && !e.doubtful && h.given.Some?
        && h.given.value.1.ticketId == e.ticketId && h.given.value.1.decisionId == e.decisionId;
      && (a.Outcome? ==> named) && (named ==> h.header.Some?)
      && (named ==> a == Judged(c.reader(e.journal, OA.Ticket(h.given.value.1.baseRun, c.workspace, Some(h.header)), e.spec)))
  {
    HeardAt(c, disabled, es, k);
    hide HeardIn, After, AnswerAt;
  }

  // ---------------------------------------------------------------- the observation, in place

  class OrdinaryObservation {
    const config: Config
    var ticket: Option<Ticket>
    var preparedKey: string
    var started: bool
    var disabled: bool
    var predecision: Option<OA.Header>
    var captured: map<Result, Receipt>

    function Now(): State
      reads this
    {
      State(ticket, preparedKey, started, disabled, predecision, captured)
    }

    constructor (c: Config, supported: bool)
      ensures Now() == Initial(!supported) && config == c
    {
      config := c;
      ticket, preparedKey, started, disabled, predecision, captured := None, "", false, !supported, None, map[];
    }

    method PrepareTicket(valid: bool, expectation: Expectation, decisionId: string, empty: bool, task: string) returns (answer: Answer)
      modifies this
      ensures Step(Now(), answer) == Call(config, old(Now()), Prepare(valid, expectation, decisionId, empty, task))
    {
      if disabled || !valid { return Nothing; }
      var key := config.keyOf(expectation, decisionId);
      if ticket.Some? { return if key == preparedKey then Prepared(ticket.value) else Nothing; }
      if !empty {
        disabled := true;
        return Nothing;
      }
      var made := Ticket(config.idOf(key), decisionId, config.runOf(decisionId), expectation.sourceGroup);
      ticket := Some(made);
      preparedKey := key;
      var bound := BindPrediction(made.ticketId, decisionId, None, true, task);
      return Prepared(made);
    }

    method BindPrediction(ticketId: string, decisionId: string, hash: Option<string>, wellFormed: bool, task: string) returns (answer: Answer)
      modifies this`predecision
      ensures Step(Now(), answer) == BindStep(old(Now()), ticketId, decisionId, hash, wellFormed, task)
    {
      if disabled || started || ticket == None { return Nothing; }
      if ticket.value.ticketId != ticketId || ticket.value.decisionId != decisionId { return Nothing; }
      if hash != None && !wellFormed { return Nothing; }
      var header := OA.Header(hash, decisionId, ticket.value.baseRun, task);
      if predecision.Some? && predecision.value.predictionHash != None && predecision.value != header { return Nothing; }
      predecision := Some(header);
      return Bound;
    }

    method StartRun(empty: bool) returns (answer: Answer)
      modifies this`started, this`disabled
      ensures Step(Now(), answer) == Call(config, old(Now()), Start(empty))
    {
      if disabled || ticket == None || started || !empty {
        disabled := true;
        return Nothing;
      }
      started := true;
      return Started(ticket.value.baseRun);
    }

    method CaptureResult(result: Result, doubtful: bool)
      modifies this`captured
      ensures Step(Now(), Nothing) == Call(config, old(Now()), Capture(result, doubtful))
    {
      if !started || disabled || doubtful || ticket == None { return; }
      captured := captured[result := Receipt(ticket.value.ticketId, ticket.value.decisionId)];
    }

    method ReadResult(ticketId: string, decisionId: string, result: Result, doubtful: bool, journal: OA.Journal, spec: OA.Spec)
      returns (answer: Answer)
      requires Ordinary(config)
      ensures answer == ReadAnswer(config, Now(), Read(ticketId, decisionId, result, doubtful, journal, spec))
    {
      if result !in captured || doubtful || ticket == None { return Nothing; }
      if captured[result] != Receipt(ticketId, decisionId) { return Nothing; }
      if ticket.value.ticketId != ticketId || ticket.value.decisionId != decisionId { return Nothing; }
      var verdict := OA.ReadAcceptance(journal, Asked(config, Now()), spec);
      return if verdict == None then Nothing else Outcome(verdict.value);
    }
  }
}
