/** The approval authority's decide / withdraw / consume / record protocol for one
    approval, and every interleaving of runtimes that apply it.

    The authority's state is its ledger: what it answers is a fold over the entries.
    Each apply is a process that advances one call at a time, so that anything may happen
    in between, and that may die between any two calls. */
module Authority {
  import opened Options

  // ---------------------------------------------------------------- the authority

  datatype Verdict = Approved | Rejected

  datatype Status = Executed | Failed

  datatype Entry = Registered | Decided(verdict: Verdict) | WithdrawnEntry | ConsumedEntry | OutcomeEntry(status: Status)

  datatype Standing = Pending | Stands(verdict: Verdict) | Withdrawn

  datatype View = View(standing: Standing, consumed: bool, outcome: Option<Status>)

  type Ledger = l: seq<Entry> | l != [] witness [Registered]

  function Fold(v: View, e: Entry): View {
    match e
    case Registered => v
    case Decided(verdict) => v.(standing := Stands(verdict))
    case WithdrawnEntry => v.(standing := Withdrawn)
    case ConsumedEntry => v.(consumed := true)
    case OutcomeEntry(s) => v.(outcome := Some(s))
  }

  /** The approval record after the entries of a ledger that begins with its registration. */
  function Read(l: Ledger): View {
    if |l| == 1 then View(Pending, false, None) else Fold(Read(l[..|l| - 1]), l[|l| - 1])
  }

  /** The service's writers.  `granted` stands for the checks that only refuse: operator
      code, consume proof, action hash and expiry. */
  function Decide(l: Ledger, v: Verdict, granted: bool): Ledger {
    if Read(l).standing == Pending && granted then l + [Decided(v)] else l
  }

  function Withdraw(l: Ledger, granted: bool): Ledger {
    if !Read(l).consumed && Read(l).standing == Stands(Approved) && granted then l + [WithdrawnEntry] else l
  }

  function Consume(l: Ledger, granted: bool): Ledger {
    if Read(l).standing == Stands(Approved) && !Read(l).consumed && granted then l + [ConsumedEntry] else l
  }

  function Record(l: Ledger, s: Status): Ledger {
    if Read(l).consumed && Read(l).outcome == None then l + [OutcomeEntry(s)] else l
  }

  // ---------------------------------------------------------------- applies

  /** The approval's kind: an operation that only the authority knows, or a row of the
      runtime's own approval store. */
  datatype Kind = Operation | RowApproval

  datatype Row = PendingRow | ExecutingRow | ApprovedRow | RejectedRow | FailedRow | CancelledRow

  /** Where an apply is.  `spent` says that the fetched answer carried a consumption. */
  datatype Pc =
    | Fetching
    | Showing(spent: bool)
    | Checking(verdict: Verdict, spent: bool)
    | Consuming(spent: bool)
    | Acting(verdict: Verdict)
    | Claimed
    | Running
    | Recording(status: Status)
    | Done

  /** What the world answers during one step of an apply: whether the checks that are not
      modelled pass, whether the call to the authority arrives, whether its answer does,
      and how an action ends. */
  datatype Oracle = Oracle(granted: bool, arrives: bool, answered: bool, ending: Ending)

  datatype Ending = Ok | Fails | Cancels | Throws

  /** How a process's own run of the action ended, and whether the row was still claimed then. */
  datatype Ran = Ran(ending: Ending, kept: bool)

  /** Besides the ledger, the row and the processes, the history: who passed a preflight, who
      ran the action and how that ended, who wrote the outcome, and whether the journal ever
      showed the action finished. */
  datatype State = State(ledger: Ledger, row: Row, procs: map<nat, Pc>, passed: set<nat>, runs: seq<nat>,
                         ends: map<nat, Ran>, recorder: Option<nat>, journaled: bool)

  /** What a step of process `p` may change. */
  predicate OneStep(s: State, t: State, p: nat) {
    && p in t.procs && t.procs == s.procs[p := t.procs[p]]
    && (t.runs == s.runs || t.runs == s.runs + [p])
    && (t.ledger == s.ledger || t.ledger == s.ledger + [ConsumedEntry]
        || t.ledger == s.ledger + [OutcomeEntry(Executed)] || t.ledger == s.ledger + [OutcomeEntry(Failed)])
    && (s.row != PendingRow ==> t.row != PendingRow)
  }

  /** `apply` and `runOperational`, one authority call or store change per step; `runs`
      gains the process whose step starts the approved action, `passed` the one whose
      preflight succeeds. */
  function Advance(kind: Kind, s: State, p: nat, o: Oracle): (t: State)
    requires p in s.procs
    ensures OneStep(s, t, p)
  {
    match s.procs[p]
    case Fetching => Fetch(kind, s, p, o)
    case Showing(spent) => Show(s, p, spent, o)
    case Checking(d, spent) => Check(s, p, d, spent, o)
    case Consuming(spent) => Spend(s, p, spent, o)
    case Acting(d) => Act(kind, s, p, d, o)
    case Claimed => Begin(s, p, o)
    case Running => Finish(s, p, o)
    case Recording(st) => Write(s, p, st, o)
    case Done => assert s.procs == s.procs[p := s.procs[p]]; s
  }

  function Fetch(kind: Kind, s: State, p: nat, o: Oracle): (t: State)
    ensures OneStep(s, t, p)
  {
    var v := Read(s.ledger);
    if !o.arrives || !o.answered then Goto(s, p, Done)
    else
      match v.standing
      case Pending => Goto(s, p, Done)
      case Withdrawn => Goto(s, p, Done)
      case Stands(d) =>
        if kind == RowApproval then Goto(s, p, if o.granted then Checking(d, v.consumed) else Done)
        else Goto(s, p, if d == Approved then Showing(v.consumed) else Done)
  }

  function Show(s: State, p: nat, spent: bool, o: Oracle): (t: State)
    ensures OneStep(s, t, p)
  {
    var outcome := Read(s.ledger).outcome;
    if !o.arrives || !o.answered then Goto(s, p, Done)
    else if outcome != None then Goto(s, p, if outcome == Some(Executed) && o.granted then Recording(Executed) else Done)
    else if !o.granted then Goto(s, p, Done)
    else Goto(s, p, Consuming(spent)).(passed := s.passed + {p})
  }

  function Check(s: State, p: nat, d: Verdict, spent: bool, o: Oracle): (t: State)
    ensures OneStep(s, t, p)
  {
    if s.row != PendingRow then
      Goto(s, p, if d == Approved && s.row == ApprovedRow && o.granted then Recording(Executed) else Done)
    else if !o.granted then Goto(s, p, Done)
    else Goto(s, p, if d == Approved then Consuming(spent) else Acting(Rejected)).(passed := s.passed + {p})
  }

  function Spend(s: State, p: nat, spent: bool, o: Oracle): (t: State)
    ensures OneStep(s, t, p)
  {
    if spent then Goto(s, p, Acting(Approved))
    else
      var l := if o.arrives then Consume(s.ledger, o.granted) else s.ledger;
      Goto(s, p, if o.arrives && o.answered && l != s.ledger then Acting(Approved) else Done).(ledger := l)
  }

  function Act(kind: Kind, s: State, p: nat, d: Verdict, o: Oracle): (t: State)
    ensures OneStep(s, t, p)
  {
    if kind == Operation then
      Goto(s, p, Recording(if o.ending == Ok then Executed else Failed)).(runs := s.runs + [p], ends := s.ends[p := Ran(o.ending, true)])
    else if d == Rejected then
      Goto(s, p, Done).(row := if s.row == PendingRow && o.granted then RejectedRow else s.row)
    else if s.row == ApprovedRow then Goto(s, p, Recording(Executed))
    else if s.row != PendingRow || !o.granted then Goto(s, p, Recording(Failed))
    else Goto(s, p, Claimed).(row := ExecutingRow)
  }

  function Begin(s: State, p: nat, o: Oracle): (t: State)
    ensures OneStep(s, t, p)
  {
    if !o.granted then Close(s, p, if o.answered then RejectedRow else FailedRow)
    else Goto(s, p, Running).(runs := s.runs + [p])
  }

  function Finish(s: State, p: nat, o: Oracle): (t: State)
    ensures OneStep(s, t, p)
  {
    var s1 := s.(ends := s.ends[p := Ran(o.ending, s.row == ExecutingRow)]);
    match o.ending
    case Ok => Finalize(s1, p, ApprovedRow)
    case Cancels => Finalize(s1, p, CancelledRow)
    case Fails => Close(s1, p, FailedRow)
    case Throws => Goto(s1, p, Recording(Failed))
  }

  function Write(s: State, p: nat, st: Status, o: Oracle): (t: State)
    ensures OneStep(s, t, p)
  {
    var l := if o.arrives then Record(s.ledger, st) else s.ledger;
    assert st.Executed? || st.Failed?;
    Goto(s, p, Done).(ledger := l, recorder := if l != s.ledger then Some(p) else s.recorder)
  }

  function Goto(s: State, p: nat, pc: Pc): State { s.(procs := s.procs[p := pc]) }

  /** Store updates of a claimed row match only a row that is still executing. */
  function Close(s: State, p: nat, row: Row): State {
    Goto(s, p, Recording(Failed)).(row := if s.row == ExecutingRow then row else s.row)
  }

  function Finalize(s: State, p: nat, row: Row): State {
    if s.row == ExecutingRow then Goto(s, p, Recording(Executed)).(row := row) else Goto(s, p, Recording(Failed))
  }

  datatype Event =
    | OperatorDecides(verdict: Verdict, granted: bool)
    | OperatorWithdraws(granted: bool)
    | Start(p: nat)
    | Step(p: nat, oracle: Oracle)
    | Crash(p: nat)
    | Reap(committed: bool)
    | StopRow

  /** `Reap` closes a row whose claimant seems gone, as approved only when the journal holds
      the finished action; `StopRow` is an emergency stop of a row not yet claimed. */
  function After(kind: Kind, s: State, e: Event): State {
    match e
    case OperatorDecides(v, granted) => s.(ledger := Decide(s.ledger, v, granted))
    case OperatorWithdraws(granted) => s.(ledger := Withdraw(s.ledger, granted))
    case Start(p) => if p in s.procs then s else Goto(s, p, Fetching)
    case Step(p, o) => if p in s.procs then Advance(kind, s, p, o) else s
    case Crash(p) => if p in s.procs then Goto(s, p, Done) else s
    case Reap(committed) =>
      if s.row != ExecutingRow then s
      else if committed && s.runs != [] then s.(row := ApprovedRow, journaled := true)
      else s.(row := FailedRow)
    case StopRow => if s.row == PendingRow then s.(row := CancelledRow) else s
  }

  function Run(kind: Kind, s: State, es: seq<Event>): State
    decreases |es|
  {
    if es == [] then s else Run(kind, After(kind, s, es[0]), es[1..])
  }

  function Initial(): State { State([Registered], PendingRow, map[], {}, [], map[], None, false) }

  // ---------------------------------------------------------------- what every ledger looks like

  /** The five ledgers an approval can have. */
  predicate Shaped(l: Ledger) {
    || l == [Registered]
    || (exists v :: l == [Registered, Decided(v)])
    || l == [Registered, Decided(Approved), WithdrawnEntry]
    || l == [Registered, Decided(Approved), ConsumedEntry]
    || (exists st :: l == [Registered, Decided(Approved), ConsumedEntry, OutcomeEntry(st)])
  }

  /** The same, one record for each. */
  predicate ViewShaped(v: View) {
    && (v.consumed ==> v.standing == Stands(Approved))
    && (v.outcome != None ==> v.consumed)
  }

  lemma ReadSnoc(l: Ledger, e: Entry)
    ensures Read(l + [e]) == Fold(Read(l), e)
  {
    assert (l + [e])[..|l|] == l;
  }

  lemma ReadPrefixes(v: Verdict, st: Status)
    ensures Read([Registered]) == View(Pending, false, None)
    ensures Read([Registered, Decided(v)]) == View(Stands(v), false, None)
    ensures Read([Registered, Decided(Approved), WithdrawnEntry]) == View(Withdrawn, false, None)
    ensures Read([Registered, Decided(Approved), ConsumedEntry]) == View(Stands(Approved), true, None)
    ensures Read([Registered, Decided(Approved), ConsumedEntry, OutcomeEntry(st)]) == View(Stands(Approved), true, Some(st))
  {
    assert Read([Registered]) == View(Pending, false, None);
    hide Read, Shaped;
    ReadSnoc([Registered], Decided(v));
    assert [Registered] + [Decided(v)] == [Registered, Decided(v)];
    ReadSnoc([Registered], Decided(Approved));
    var one := [Registered, Decided(Approved)];
    assert [Registered] + [Decided(Approved)] == one;
    ReadSnoc(one, WithdrawnEntry);
    assert one + [WithdrawnEntry] == [Registered, Decided(Approved), WithdrawnEntry];
    ReadSnoc(one, ConsumedEntry);
    var two := [Registered, Decided(Approved), ConsumedEntry];
    assert one + [ConsumedEntry] == two;
    ReadSnoc(two, OutcomeEntry(st));
    assert two + [OutcomeEntry(st)] == [Registered, Decided(Approved), ConsumedEntry, OutcomeEntry(st)];
  }

  lemma ReadShaped(l: Ledger)
    requires Shaped(l)
    ensures ViewShaped(Read(l))
    ensures Read(l).standing == Pending ==> l == [Registered]
    ensures Read(l).standing.Stands? && !Read(l).consumed ==> l == [Registered, Decided(Read(l).standing.verdict)]
    ensures Read(l).consumed && Read(l).outcome == None ==> l == [Registered, Decided(Approved), ConsumedEntry]
  {
    hide Read;
    ReadPrefixes(Approved, Executed);
    if v :| l == [Registered, Decided(v)] {
      ReadPrefixes(v, Executed);
    } else if st :| l == [Registered, Decided(Approved), ConsumedEntry, OutcomeEntry(st)] {
      ReadPrefixes(Approved, st);
    }
  }

  /** Every write of the service keeps the ledger among the five, and what each reads as. */
  lemma WritesShaped(l: Ledger, v: Verdict, granted: bool, st: Status)
    requires Shaped(l)
    ensures Shaped(Decide(l, v, granted)) && Shaped(Withdraw(l, granted))
    ensures Shaped(Consume(l, granted)) && Shaped(Record(l, st))
  {
    ReadShaped(l);
    var one := [Registered, Decided(Approved)];
    assert [Registered] + [Decided(v)] == [Registered, Decided(v)];
    assert one + [WithdrawnEntry] == [Registered, Decided(Approved), WithdrawnEntry];
    assert one + [ConsumedEntry] == [Registered, Decided(Approved), ConsumedEntry];
    assert [Registered, Decided(Approved), ConsumedEntry] + [OutcomeEntry(st)]
      == [Registered, Decided(Approved), ConsumedEntry, OutcomeEntry(st)];
  }

  /** What each write does to the record. */
  lemma WritesRead(l: Ledger, v: Verdict, granted: bool, st: Status)
    ensures Read(Decide(l, v, granted)) ==
      if Read(l).standing == Pending && granted then Read(l).(standing := Stands(v)) else Read(l)
    ensures Read(Withdraw(l, granted)) ==
      if !Read(l).consumed && Read(l).standing == Stands(Approved) && granted then Read(l).(standing := Withdrawn) else Read(l)
    ensures Read(Consume(l, granted)) ==
      if Consume(l, granted) != l then Read(l).(consumed := true) else Read(l)
    ensures Consume(l, granted) != l <==> Read(l).standing == Stands(Approved) && !Read(l).consumed && granted
    ensures Read(Record(l, st)) ==
      if Read(l).consumed && Read(l).outcome == None then Read(l).(outcome := Some(st)) else Read(l)
    ensures Record(l, st) != l <==> Read(l).consumed && Read(l).outcome == None
  {
    ReadSnoc(l, Decided(v));
    ReadSnoc(l, WithdrawnEntry);
    ReadSnoc(l, ConsumedEntry);
    ReadSnoc(l, OutcomeEntry(st));
    assert |l + [ConsumedEntry]| == |l| + 1 && |l + [OutcomeEntry(st)]| == |l| + 1;
  }

  // ---------------------------------------------------------------- the invariant

  /** The claimants of the local row. */
  ghost predicate ClaimOk(s: State) {
    && (s.row == PendingRow ==> s.runs == [])
    && (s.row == ApprovedRow ==> s.runs != [])
    && |s.runs| <= 1
    && (forall p | p in s.procs && s.procs[p] == Claimed :: s.runs == [] && s.row != PendingRow)
    && (forall p, q | p in s.procs && q in s.procs && s.procs[p] == Claimed && s.procs[q] == Claimed :: p == q)
  }

  /** The run did what the decision approved; of a row, while its claim still stood, a
      cancellation included. */
  predicate Good(kind: Kind, r: Ran) { r.kept && (r.ending == Ok || (kind == RowApproval && r.ending == Cancels)) }

  /** Some run was good, or the journal showed the action finished. */
  ghost predicate Proven(kind: Kind, s: State) { s.journaled || exists q :: q in s.ends && Good(kind, s.ends[q]) }

  /** What the outcome and an approved row rest on. */
  ghost predicate Booked(kind: Kind, s: State) {
    var outcome := Read(s.ledger).outcome;
    && (forall p | p in s.ends :: p in s.runs)
    && (s.recorder.Some? <==> outcome != None)
    && (s.recorder.Some? ==> s.recorder.value in s.procs)
    && (s.recorder.Some? && s.recorder.value in s.ends ==> (outcome == Some(Executed) <==> Good(kind, s.ends[s.recorder.value])))
    && (outcome == Some(Executed) ==> Proven(kind, s))
    && (s.row == ApprovedRow ==> Proven(kind, s))
  }

  /** What each process knows at its step. */
  ghost predicate ProcOk(kind: Kind, s: State, p: nat, pc: Pc) {
    var v := Read(s.ledger);
    && (pc.Fetching? || pc.Showing? || pc.Checking? || pc.Consuming? || pc.Acting? || pc.Claimed? ==> p !in s.runs)
    && (pc.Consuming? || pc.Acting? || pc.Claimed? || pc.Running? ==> p in s.passed)
    && (!pc.Done? ==> s.recorder != Some(p))
    && (!pc.Done? && !pc.Recording? ==> p !in s.ends)
    && match pc
       case Fetching => true
       case Showing(spent) => kind == Operation && v.standing != Pending && v.standing != Stands(Rejected) && (spent ==> v.consumed)
       case Checking(d, spent) => kind == RowApproval && v.standing != Pending && (spent ==> v.consumed)
         && (d == Rejected <==> v.standing == Stands(Rejected))
       case Consuming(spent) => v.standing != Pending && v.standing != Stands(Rejected) && (spent ==> v.consumed)
       case Acting(d) => if d == Approved then v.consumed else kind == RowApproval
       case Claimed => kind == RowApproval && v.consumed
       case Running => kind == RowApproval && v.consumed && p in s.runs
       case Recording(st) =>
         && (st == Executed ==> s.runs != [] && Proven(kind, s))
         && (p in s.ends ==> (st == Executed <==> Good(kind, s.ends[p])))
       case Done => true
  }

  ghost predicate Distinct(runs: seq<nat>) { forall i, j | 0 <= i < j < |runs| :: runs[i] != runs[j] }

  ghost predicate Inv(kind: Kind, s: State) {
    && Shaped(s.ledger)
    && (forall p | p in s.procs :: ProcOk(kind, s, p, s.procs[p]))
    && (forall p | p in s.runs :: p in s.procs && p in s.passed)
    && Distinct(s.runs)
    && (s.runs != [] ==> Read(s.ledger).consumed)
    && (Read(s.ledger).outcome == Some(Executed) ==> s.runs != [])
    && (kind == RowApproval ==> ClaimOk(s))
    && (kind == Operation ==> s.row != ApprovedRow && s.row != ExecutingRow)
    && Booked(kind, s)
  }

  lemma InitialInv(kind: Kind)
    ensures Inv(kind, Initial())
  {
  }

  /** A later record of the same approval. */
  ghost predicate Later(v: View, w: View) {
    && (v.consumed ==> w.consumed && w.standing == v.standing)
    && (v.standing != Pending && w.standing != v.standing ==> v.standing == Stands(Approved) && w.standing == Withdrawn)
    && (v.outcome != None ==> w.outcome == v.outcome)
  }

  lemma OthersKeep(kind: Kind, s: State, t: State, p: nat, q: nat, pc: Pc)
    requires ProcOk(kind, s, q, pc) && q != p
    requires Later(Read(s.ledger), Read(t.ledger)) && s.passed <= t.passed
    requires t.runs == s.runs || t.runs == s.runs + [p]
    requires Grown(s, t, p)
    ensures ProcOk(kind, t, q, pc)
  {
    hide Read;
    ProvenKept(kind, s, t, p);
  }

  /** What one step of a process may add to the history. */
  ghost predicate Grown(s: State, t: State, p: nat) {
    && (t.ends == s.ends || (p !in s.ends && p in t.ends && t.ends == s.ends[p := t.ends[p]]))
    && (t.recorder == s.recorder || t.recorder == Some(p))
    && (s.journaled ==> t.journaled)
  }

  lemma ProvenKept(kind: Kind, s: State, t: State, p: nat)
    requires Grown(s, t, p)
    ensures Proven(kind, s) ==> Proven(kind, t)
  {
    if q :| q in s.ends && Good(kind, s.ends[q]) { assert q in t.ends && t.ends[q] == s.ends[q]; }
  }

  /** The invariant after a step of one process, from what is new. */
  lemma Rebuild(kind: Kind, s: State, t: State, p: nat, pc: Pc)
    requires Inv(kind, s) && t.procs == s.procs[p := pc]
    requires Shaped(t.ledger) && Later(Read(s.ledger), Read(t.ledger)) && s.passed <= t.passed
    requires t.runs == s.runs
      || (t.runs == s.runs + [p] && p !in s.runs && p in t.passed && Read(t.ledger).consumed)
    requires Read(t.ledger).outcome == Read(s.ledger).outcome || Read(t.ledger).outcome == Some(Failed) || t.runs != []
    requires ProcOk(kind, t, p, pc)
    requires kind == RowApproval ==> ClaimOk(t)
    requires kind == Operation ==> t.row != ApprovedRow && t.row != ExecutingRow
    requires Grown(s, t, p) && Booked(kind, t)
    ensures Inv(kind, t)
  {
    hide Read, Shaped, ClaimOk, ProcOk, Booked, Grown;
    forall q | q in t.procs ensures ProcOk(kind, t, q, t.procs[q]) {
      if q != p { OthersKeep(kind, s, t, p, q, s.procs[q]); }
    }
  }

  lemma ClaimKept(s: State, t: State, p: nat, pc: Pc)
    requires ClaimOk(s) && t.procs == s.procs[p := pc] && pc != Claimed && t.runs == s.runs
    requires t.row == s.row || (t.row != PendingRow && (t.row == ApprovedRow ==> s.runs != []))
    ensures ClaimOk(t)
  {
  }

  /** Steps that touch neither the ledger nor the runs. */
  lemma QuietInv(kind: Kind, s: State, t: State, p: nat, pc: Pc)
    requires Inv(kind, s) && t.procs == s.procs[p := pc] && pc != Claimed
    requires t.ledger == s.ledger && t.runs == s.runs && s.passed <= t.passed
    requires t.row == s.row || (kind == RowApproval && t.row != PendingRow && (t.row == ApprovedRow ==> s.runs != [] && Proven(kind, t)))
    requires Grown(s, t, p) && t.recorder == s.recorder && t.journaled == s.journaled && (t.ends != s.ends ==> p in s.runs && s.recorder != Some(p))
    requires ProcOk(kind, t, p, pc)
    ensures Inv(kind, t)
  {
    hide Read, Shaped, ProcOk;
    if kind == RowApproval { ClaimKept(s, t, p, pc); }
    ProvenKept(kind, s, t, p);
    assert Booked(kind, t);
    Rebuild(kind, s, t, p, pc);
  }

  lemma AdvanceInv(kind: Kind, s: State, p: nat, o: Oracle)
    requires Inv(kind, s) && p in s.procs
    ensures Inv(kind, Advance(kind, s, p, o))
  {
    hide *;
    match s.procs[p]
    case Fetching => FetchInv(kind, s, p, o);
    case Showing(spent) => CheckInv(kind, s, p, o);
    case Checking(d, spent) => CheckInv(kind, s, p, o);
    case Consuming(spent) => ConsumeInv(kind, s, p, o);
    case Acting(d) => ActingInv(kind, s, p, o);
    case Claimed => ClaimedInv(kind, s, p, o);
    case Running => RunningInv(kind, s, p, o);
    case Recording(st) => RecordInv(kind, s, p, o);
    case Done => DoneSame(kind, s, p, o);
  }

  lemma DoneSame(kind: Kind, s: State, p: nat, o: Oracle)
    requires p in s.procs && s.procs[p] == Done
    ensures Advance(kind, s, p, o) == s
  {
  }

  lemma FetchInv(kind: Kind, s: State, p: nat, o: Oracle)
    requires Inv(kind, s) && p in s.procs && s.procs[p] == Fetching
    ensures Inv(kind, Advance(kind, s, p, o))
  {
    hide Read, Shaped, Show, Check, Spend, Act, Begin, Finish, Write, OneStep;
    var t := Advance(kind, s, p, o);
    assert ProcOk(kind, s, p, s.procs[p]);
    ReadShaped(s.ledger);
    QuietInv(kind, s, t, p, t.procs[p]);
  }

  lemma CheckInv(kind: Kind, s: State, p: nat, o: Oracle)
    requires Inv(kind, s) && p in s.procs && (s.procs[p].Showing? || s.procs[p].Checking?)
    ensures Inv(kind, Advance(kind, s, p, o))
  {
    hide Read, Shaped, Fetch, Spend, Act, Begin, Finish, Write, OneStep;
    var t := Advance(kind, s, p, o);
    assert ProcOk(kind, s, p, s.procs[p]);
    QuietInv(kind, s, t, p, t.procs[p]);
  }

  /** How a claimed run ends. */
  lemma FinishIs(s: State, p: nat, o: Oracle)
    ensures var r := Ran(o.ending, s.row == ExecutingRow); var t := Finish(s, p, o);
      && t == s.(procs := t.procs, row := t.row, ends := s.ends[p := r])
      && t.procs == s.procs[p := Recording(if Good(RowApproval, r) then Executed else Failed)]
      && (t.row == s.row || (s.row == ExecutingRow && t.row in {ApprovedRow, CancelledRow, FailedRow}))
      && (t.row == ApprovedRow && s.row != ApprovedRow ==> Good(RowApproval, r))
  {
  }

  lemma RunningInv(kind: Kind, s: State, p: nat, o: Oracle)
    requires Inv(kind, s) && p in s.procs && s.procs[p] == Running
    ensures Inv(kind, Advance(kind, s, p, o))
  {
    assert Advance(kind, s, p, o) == Finish(s, p, o);
    assert ProcOk(kind, s, p, Running);
    hide Read, Shaped, Advance, Finish, Good, OneStep;
    var t, r := Finish(s, p, o), Ran(o.ending, s.row == ExecutingRow);
    FinishIs(s, p, o);
    assert Good(RowApproval, r) ==> p in t.ends && Good(kind, t.ends[p]);
    ProvenKept(kind, s, t, p);
    QuietInv(kind, s, t, p, t.procs[p]);
  }

  lemma ConsumeInv(kind: Kind, s: State, p: nat, o: Oracle)
    requires Inv(kind, s) && p in s.procs && s.procs[p].Consuming?
    ensures Inv(kind, Advance(kind, s, p, o))
  {
    hide Read, Shaped, Consume, Good, Proven, Distinct, OneStep, Fetch, Show, Check, Act, Begin, Finish, Write;
    var spent := s.procs[p].spent;
    assert Advance(kind, s, p, o) == Spend(s, p, spent, o);
    assert ProcOk(kind, s, p, s.procs[p]);
    hide Advance, ClaimOk;
    var t := Spend(s, p, spent, o);
    WritesShaped(s.ledger, Approved, o.granted, Failed);
    WritesRead(s.ledger, Approved, o.granted, Failed);
    if kind == RowApproval { ClaimKept(s, t, p, t.procs[p]); }
    ProvenKept(kind, s, t, p);
    assert Booked(kind, t);
    assert ProcOk(kind, t, p, t.procs[p]);
    Rebuild(kind, s, t, p, t.procs[p]);
  }

  lemma RecordInv(kind: Kind, s: State, p: nat, o: Oracle)
    requires Inv(kind, s) && p in s.procs && s.procs[p].Recording?
    ensures Inv(kind, Advance(kind, s, p, o))
  {
    hide Read, Shaped, Record, Fetch, Show, Check, Spend, Act, Begin, Finish, OneStep;
    var t := Advance(kind, s, p, o);
    var st := s.procs[p].status;
    assert ProcOk(kind, s, p, s.procs[p]);
    WritesShaped(s.ledger, Approved, o.granted, st);
    WritesRead(s.ledger, Approved, o.granted, st);
    if kind == RowApproval { ClaimKept(s, t, p, t.procs[p]); }
    ProvenKept(kind, s, t, p);
    Rebuild(kind, s, t, p, t.procs[p]);
  }

  lemma ActingInv(kind: Kind, s: State, p: nat, o: Oracle)
    requires Inv(kind, s) && p in s.procs && s.procs[p].Acting?
    ensures Inv(kind, Advance(kind, s, p, o))
  {
    assert Advance(kind, s, p, o) == Act(kind, s, p, s.procs[p].verdict, o);
    assert ProcOk(kind, s, p, s.procs[p]);
    hide Advance;
    if kind == Operation { OperationInv(s, p, s.procs[p].verdict, o); } else { ClaimInv(s, p, s.procs[p].verdict, o); }
  }

  lemma OperationInv(s: State, p: nat, d: Verdict, o: Oracle)
    requires Inv(Operation, s) && p in s.procs && s.procs[p] == Acting(d)
    ensures Inv(Operation, Act(Operation, s, p, d, o))
  {
    assert ProcOk(Operation, s, p, s.procs[p]);
    hide Read, Shaped, OneStep;
    var t := Act(Operation, s, p, d, o);
    assert t.ends[p] == Ran(o.ending, true);
    assert p in t.ends && (o.ending == Ok ==> Good(Operation, t.ends[p]));
    ProvenKept(Operation, s, t, p);
    Rebuild(Operation, s, t, p, t.procs[p]);
  }

  lemma ClaimInv(s: State, p: nat, d: Verdict, o: Oracle)
    requires Inv(RowApproval, s) && p in s.procs && s.procs[p] == Acting(d)
    ensures Inv(RowApproval, Act(RowApproval, s, p, d, o))
  {
    assert ProcOk(RowApproval, s, p, s.procs[p]);
    hide Read, Shaped, Good, OneStep;
    var t := Act(RowApproval, s, p, d, o);
    ProvenKept(RowApproval, s, t, p);
    if t.procs[p] == Claimed {
      assert ClaimOk(t);
      Rebuild(RowApproval, s, t, p, t.procs[p]);
    } else {
      QuietInv(RowApproval, s, t, p, t.procs[p]);
    }
  }

  lemma ClaimedInv(kind: Kind, s: State, p: nat, o: Oracle)
    requires Inv(kind, s) && p in s.procs && s.procs[p] == Claimed
    ensures Inv(kind, Advance(kind, s, p, o))
  {
    hide Read, Shaped, Fetch, Show, Check, Spend, Act, Finish, Write, OneStep;
    var t := Advance(kind, s, p, o);
    assert ProcOk(kind, s, p, s.procs[p]);
    ProvenKept(kind, s, t, p);
    if o.granted {
      assert ClaimOk(t);
      Rebuild(kind, s, t, p, t.procs[p]);
    } else {
      QuietInv(kind, s, t, p, t.procs[p]);
    }
  }

  /** A write of the operator moves no process. */
  lemma WriteInv(kind: Kind, s: State, l: Ledger)
    requires Inv(kind, s) && Shaped(l) && Later(Read(s.ledger), Read(l)) && Read(l).outcome == Read(s.ledger).outcome
    ensures Inv(kind, s.(ledger := l))
  {
    hide Read, Shaped;
    var t := s.(ledger := l);
    forall q | q in t.procs ensures ProcOk(kind, t, q, t.procs[q]) {
      OthersKeep(kind, s, t, q + 1, q, s.procs[q]);
    }
  }

  /** Nor does what is done to the row from outside. */
  lemma RowInv(kind: Kind, s: State, row: Row, journaled: bool)
    requires Inv(kind, s) && s.row != ApprovedRow && row != PendingRow && row != ExecutingRow
    requires s.journaled ==> journaled
    requires kind == Operation || s.row == PendingRow || s.row == ExecutingRow
    requires row == ApprovedRow ==> journaled && s.runs != [] && kind == RowApproval
    ensures Inv(kind, s.(row := row, journaled := journaled))
  {
    hide Read, Shaped;
    var t := s.(row := row, journaled := journaled);
    forall q | q in t.procs ensures ProcOk(kind, t, q, t.procs[q]) {
      OthersKeep(kind, s, t, q + 1, q, s.procs[q]);
    }
    ProvenKept(kind, s, t, 0);
  }

  /** Every event keeps the invariant. */
  lemma StepInv(kind: Kind, s: State, e: Event)
    requires Inv(kind, s)
    ensures Inv(kind, After(kind, s, e))
  {
    assert e.Reap? && kind == Operation ==> After(kind, s, e) == s;
    hide Read, Shaped, Advance, ProcOk, Booked, ClaimOk, Distinct;
    var t := After(kind, s, e);
    ReadShaped(s.ledger);
    match e
    case OperatorDecides(v, granted) =>
      WritesShaped(s.ledger, v, granted, Failed);
      WritesRead(s.ledger, v, granted, Failed);
      WriteInv(kind, s, t.ledger);
    case OperatorWithdraws(granted) =>
      WritesShaped(s.ledger, Approved, granted, Failed);
      WritesRead(s.ledger, Approved, granted, Failed);
      WriteInv(kind, s, t.ledger);
    case Start(p) =>
      if p !in s.procs { StartInv(kind, s, p); }
    case Step(p, o) =>
      if p in s.procs { AdvanceInv(kind, s, p, o); }
    case Crash(p) =>
      if p in s.procs { CrashInv(kind, s, p); }
    case Reap(committed) =>
      if s.row == ExecutingRow && kind == RowApproval { RowInv(kind, s, t.row, t.journaled); }
    case StopRow =>
      if s.row == PendingRow { RowInv(kind, s, CancelledRow, s.journaled); }
  }

  lemma StartInv(kind: Kind, s: State, p: nat)
    requires Inv(kind, s) && p !in s.procs
    ensures Inv(kind, Goto(s, p, Fetching))
  {
    hide Read, Shaped;
    QuietInv(kind, s, Goto(s, p, Fetching), p, Fetching);
  }

  lemma CrashInv(kind: Kind, s: State, p: nat)
    requires Inv(kind, s) && p in s.procs
    ensures Inv(kind, Goto(s, p, Done))
  {
    hide Read, Shaped;
    QuietInv(kind, s, Goto(s, p, Done), p, Done);
  }

  lemma {:induction false} RunInv(kind: Kind, s: State, es: seq<Event>)
    requires Inv(kind, s)
    ensures Inv(kind, Run(kind, s, es))
    decreases |es|
  {
    if es != [] {
      StepInv(kind, s, es[0]);
      RunInv(kind, After(kind, s, es[0]), es[1..]);
    }
  }

  // ---------------------------------------------------------------- what holds in every run

  /** Every interleaving of decisions, withdrawals, applies, crashes and recoveries: the
      ledger is one of the five; an apply starts the action at most once, and only after a
      preflight of its own, an approval and a consumption; nothing is ever both consumed and
      withdrawn or rejected; an `executed` outcome is never recorded without an execution;
      and a row approval is executed at most once by all applies together. */
  lemma Safety(kind: Kind, es: seq<Event>)
    ensures var s := Run(kind, Initial(), es);
      && Shaped(s.ledger)
      && Distinct(s.runs)
      && (forall p | p in s.runs :: p in s.passed)
      && (s.runs != [] ==> Decided(Approved) in s.ledger && ConsumedEntry in s.ledger)
      && (ConsumedEntry in s.ledger ==> WithdrawnEntry !in s.ledger && Decided(Rejected) !in s.ledger)
      && (OutcomeEntry(Executed) in s.ledger ==> s.runs != [])
      && (kind == RowApproval ==> |s.runs| <= 1)
      && (forall p | p in s.ends :: p in s.runs)
  {
    InitialInv(kind);
    RunInv(kind, Initial(), es);
    LedgerReads(Run(kind, Initial(), es).ledger);
  }

  /** Every interleaving: an `executed` outcome is recorded only when some run was good or the
      journal showed the action finished, and so for an approved row; an outcome has one
      recorder; and if that process ran the action, the outcome is `executed` exactly when
      its own run was good. */
  lemma OutcomeExact(kind: Kind, es: seq<Event>)
    ensures var s := Run(kind, Initial(), es);
      && (OutcomeEntry(Executed) in s.ledger || s.row == ApprovedRow ==> Proven(kind, s))
      && (s.recorder.Some? <==> OutcomeEntry(Executed) in s.ledger || OutcomeEntry(Failed) in s.ledger)
      && (s.recorder.Some? && s.recorder.value in s.ends ==>
            (OutcomeEntry(Executed) in s.ledger <==> Good(kind, s.ends[s.recorder.value]))
            && (OutcomeEntry(Failed) in s.ledger <==> !Good(kind, s.ends[s.recorder.value])))
  {
    hide Good, Proven;
    InitialInv(kind);
    RunInv(kind, Initial(), es);
    var s := Run(kind, Initial(), es);
    LedgerReads(s.ledger);
    match Read(s.ledger).outcome
    case None =>
    case Some(Executed) =>
    case Some(Failed) =>
  }

  lemma LedgerReads(l: Ledger)
    requires Shaped(l)
    ensures Read(l).consumed <==> ConsumedEntry in l
    ensures Read(l).consumed ==> Decided(Approved) in l && WithdrawnEntry !in l && Decided(Rejected) !in l
    ensures forall st :: Read(l).outcome == Some(st) <==> OutcomeEntry(st) in l
  {
    hide Read;
    ReadPrefixes(Approved, Executed);
    if v :| l == [Registered, Decided(v)] {
      ReadPrefixes(v, Executed);
    } else if st :| l == [Registered, Decided(Approved), ConsumedEntry, OutcomeEntry(st)] {
      ReadPrefixes(Approved, st);
    }
  }

  ghost predicate Extends(l: seq<Entry>, m: seq<Entry>) { |l| <= |m| && m[..|l|] == l }

  /** History is never rewritten, by the authority or by a runtime. */
  lemma {:induction false} NothingUnwritten(kind: Kind, s: State, es: seq<Event>)
    ensures var t := Run(kind, s, es);
      && Extends(s.ledger, t.ledger)
      && |s.runs| <= |t.runs| && t.runs[..|s.runs|] == s.runs
      && (s.row != PendingRow ==> t.row != PendingRow)
    decreases |es|
  {
    hide After;
    if es != [] {
      OneWrite(kind, s, es[0]);
      NothingUnwritten(kind, After(kind, s, es[0]), es[1..]);
    }
  }

  lemma OneWrite(kind: Kind, s: State, e: Event)
    ensures var t := After(kind, s, e);
      && (t.ledger == s.ledger || exists x :: t.ledger == s.ledger + [x])
      && (t.runs == s.runs || exists p :: t.runs == s.runs + [p])
      && (s.row != PendingRow ==> t.row != PendingRow)
  {
    hide Read, Advance;
  }

  lemma OneEntry(l: Ledger, granted: bool, st: Status)
    ensures Consume(l, granted) == l || Consume(l, granted) == l + [ConsumedEntry]
    ensures Record(l, st) == l || Record(l, st) == l + [OutcomeEntry(st)]
  {
    hide Read;
  }

  // ---------------------------------------------------------------- a late apply

  /** The approval can still lead to an execution by an apply that has not begun. */
  predicate Open(kind: Kind, s: State) {
    && (Read(s.ledger).standing == Pending || Read(s.ledger).standing == Stands(Approved))
    && (kind == Operation ==> Read(s.ledger).outcome == None)
    && (kind == RowApproval ==> s.row == PendingRow)
  }

  ghost predicate Harmless(kind: Kind, s: State, p: nat) {
    && p in s.procs && p !in s.runs
    && match s.procs[p]
       case Fetching => true
       case Showing(spent) => Read(s.ledger).outcome != None
       case Checking(d, spent) => d == Rejected || s.row != PendingRow
       case Consuming(spent) => false
       case Acting(d) => d == Rejected && kind == RowApproval
       case Claimed => false
       case Running => false
       case Recording(st) => true
       case Done => true
  }

  /** What no event takes back. */
  ghost predicate Settled(s: State, t: State) {
    && (Read(s.ledger).outcome != None ==> Read(t.ledger).outcome != None)
    && (Read(s.ledger).standing == Withdrawn ==> Read(t.ledger).standing == Withdrawn)
    && (Read(s.ledger).standing == Stands(Rejected) ==> Read(t.ledger).standing == Stands(Rejected))
    && (s.row != PendingRow ==> t.row != PendingRow)
  }

  lemma SettledStep(kind: Kind, s: State, e: Event)
    requires Inv(kind, s)
    ensures Settled(s, After(kind, s, e))
  {
    hide Read, Shaped, ClaimOk, Decide, Withdraw, Consume, Record, Distinct, ProcOk, Advance, Close, Finalize;
    ReadShaped(s.ledger);
    match e
    case OperatorDecides(v, granted) => WritesRead(s.ledger, v, granted, Failed);
    case OperatorWithdraws(granted) => WritesRead(s.ledger, Approved, granted, Failed);
    case Step(q, o) => if q in s.procs { SettledAdvance(kind, s, q, o); }
    case Start(q) =>
    case Crash(q) =>
    case Reap(committed) =>
    case StopRow =>
  }

  lemma SettledAdvance(kind: Kind, s: State, q: nat, o: Oracle)
    requires q in s.procs
    ensures Settled(s, Advance(kind, s, q, o))
  {
    hide Read, Advance;
    ReadSnoc(s.ledger, ConsumedEntry);
    ReadSnoc(s.ledger, OutcomeEntry(Executed));
    ReadSnoc(s.ledger, OutcomeEntry(Failed));
  }

  lemma OthersStay(kind: Kind, s: State, q: nat, o: Oracle, p: nat)
    requires q in s.procs && p != q && p in s.procs
    ensures var t := Advance(kind, s, q, o); p in t.procs && t.procs[p] == s.procs[p] && (p in t.runs ==> p in s.runs)
  {
    hide Advance, Read;
  }

  /** The apply's own steps. */
  lemma HarmlessOwn(kind: Kind, s: State, p: nat, o: Oracle)
    requires Inv(kind, s) && !Open(kind, s) && Harmless(kind, s, p)
    ensures Harmless(kind, Advance(kind, s, p, o), p)
  {
    hide Read, Shaped, ClaimOk, Consume, Record, Distinct, Close, Finalize, OneStep;
    assert ProcOk(kind, s, p, s.procs[p]);
    var t := Advance(kind, s, p, o);
    match s.procs[p]
    case Fetching => assert t.ledger == s.ledger && t.row == s.row && t.runs == s.runs;
    case Showing(spent) => assert t.procs[p].Recording? || t.procs[p].Done?;
    case Checking(d, spent) => assert t.procs[p].Recording? || t.procs[p].Done? || t.procs[p] == Acting(Rejected);
    case Acting(d) => assert t.procs[p].Done?;
    case Recording(st) => assert t.procs[p].Done?;
    case Done =>
  }

  lemma StillClosed(kind: Kind, s: State, t: State)
    requires Settled(s, t) && !Open(kind, s)
    ensures !Open(kind, t)
  {
    hide Read;
    match Read(s.ledger).standing
    case Pending =>
    case Withdrawn =>
    case Stands(v) => assert v == Approved || v == Rejected;
  }

  lemma HarmlessStep(kind: Kind, s: State, p: nat, e: Event)
    requires Inv(kind, s) && !Open(kind, s) && Harmless(kind, s, p)
    ensures !Open(kind, After(kind, s, e)) && Harmless(kind, After(kind, s, e), p)
  {
    hide Read, Shaped, ClaimOk, Decide, Withdraw, Distinct, ProcOk, Advance;
    SettledStep(kind, s, e);
    StillClosed(kind, s, After(kind, s, e));
    hide Open;
    if e.Step? && e.p in s.procs {
      if e.p == p { HarmlessOwn(kind, s, p, e.oracle); } else { OthersStay(kind, s, e.p, e.oracle, p); }
    }
  }

  lemma {:induction false} HarmlessRun(kind: Kind, s: State, p: nat, es: seq<Event>)
    requires Inv(kind, s) && !Open(kind, s) && Harmless(kind, s, p)
    ensures p !in Run(kind, s, es).runs
    decreases |es|
  {
    hide After, Inv, Open;
    if es != [] {
      StepInv(kind, s, es[0]);
      HarmlessStep(kind, s, p, es[0]);
      HarmlessRun(kind, After(kind, s, es[0]), p, es[1..]);
    }
  }

  const YES := Oracle(true, true, true, Ok)

  /** An approval, then every step of one apply, all going well. */
  function Smooth(kind: Kind, p: nat): seq<Event> {
    var e := Step(p, YES);
    [OperatorDecides(Approved, true)] + ([e] + ([e] + ([e] + ([e] + if kind == RowApproval then [e] + [] else []))))
  }

  lemma RunOne(kind: Kind, s: State, e: Event, es: seq<Event>)
    ensures Run(kind, s, [e] + es) == Run(kind, After(kind, s, e), es)
    ensures Run(kind, s, []) == s && Run(kind, After(kind, s, e), []) == After(kind, s, e)
  {
    assert ([e] + es)[1..] == es;
  }

  /** An oracle under which nothing is refused or lost; the action ends as it may. */
  predicate Willing(o: Oracle) { o.granted && o.arrives && o.answered }

  /** The undisturbed steps up to the action. */
  lemma UpToAction(kind: Kind, s: State, p: nat, o: Oracle) returns (t: State)
    requires Inv(kind, s) && Open(kind, s) && p in s.procs && s.procs[p] == Fetching && Willing(o)
    requires Read(s.ledger).standing == Stands(Approved)
    ensures t == Advance(kind, Advance(kind, Advance(kind, s, p, o), p, o), p, o) && Inv(kind, t)
    ensures t == s.(procs := s.procs[p := Acting(Approved)], passed := s.passed + {p}, ledger := t.ledger)
    ensures t.ledger == s.ledger + if Read(s.ledger).consumed then [] else [ConsumedEntry]
    ensures Read(t.ledger) == Read(s.ledger).(consumed := true)
  {
    hide Read, Shaped, Inv, Consume, Begin, Finish, Write, Act, OneStep;
    var spent := Read(s.ledger).consumed;
    var s1 := Advance(kind, s, p, o);
    assert s1 == Goto(s, p, if kind == Operation then Showing(spent) else Checking(Approved, spent));
    var s2 := Advance(kind, s1, p, o);
    assert s2 == Goto(s, p, Consuming(spent)).(passed := s.passed + {p});
    t := Advance(kind, s2, p, o);
    WritesRead(s.ledger, Approved, true, Failed);
    OneEntry(s.ledger, true, Failed);
    AdvanceInv(kind, s, p, o);
    AdvanceInv(kind, s1, p, o);
    AdvanceInv(kind, s2, p, o);
    assert s.ledger + [] == s.ledger;
  }

  /** The next step of one that acts on an approval. */
  lemma ActIs(kind: Kind, s: State, p: nat, o: Oracle)
    requires p in s.procs && s.procs[p] == Acting(Approved) && Willing(o) && (kind == RowApproval ==> s.row == PendingRow)
    ensures Advance(kind, s, p, o) ==
      if kind == Operation then
        s.(procs := s.procs[p := Recording(if o.ending == Ok then Executed else Failed)], runs := s.runs + [p],
           ends := s.ends[p := Ran(o.ending, true)])
      else s.(procs := s.procs[p := Claimed], row := ExecutingRow)
  {
  }

  lemma BeginIs(s: State, p: nat, o: Oracle)
    requires p in s.procs && s.procs[p] == Claimed && Willing(o)
    ensures Advance(RowApproval, s, p, o) == s.(procs := s.procs[p := Running], runs := s.runs + [p])
  {
  }

  lemma SmoothRuns(kind: Kind, s: State, p: nat)
    requires Inv(kind, s) && Open(kind, s) && p in s.procs && s.procs[p] == Fetching
    ensures p in Run(kind, s, Smooth(kind, p)).runs
    ensures kind == Operation ==>
      Open(kind, Run(kind, s, Smooth(kind, p))) && Run(kind, s, Smooth(kind, p)).procs.Keys == s.procs.Keys
  {
    var e := Step(p, YES);
    var rest := if kind == RowApproval then [e] + [] else [];
    var s1 := s.(ledger := Decide(s.ledger, Approved, true));
    hide Run, Read, Shaped, Inv, Decide, Advance, OneStep;
    WritesRead(s.ledger, Approved, true, Failed);
    StepInv(kind, s, OperatorDecides(Approved, true));
    var s4 := UpToAction(kind, s1, p, YES);
    ActIs(kind, s4, p, YES);
    var s5 := Advance(kind, s4, p, YES);
    SmoothSteps(kind, s, s1, p, rest);
    if kind == RowApproval {
      BeginIs(s5, p, YES);
      RunOne(kind, s5, e, []);
    } else {
      RunOne(kind, s5, e, []);
    }
  }

  lemma SmoothSteps(kind: Kind, s: State, s1: State, p: nat, rest: seq<Event>)
    requires s1 == After(kind, s, OperatorDecides(Approved, true)) && p in s1.procs
    ensures var e := Step(p, YES); var t := Advance(kind, Advance(kind, Advance(kind, Advance(kind, s1, p, YES), p, YES), p, YES), p, YES);
      Run(kind, s, [OperatorDecides(Approved, true)] + ([e] + ([e] + ([e] + ([e] + rest))))) == Run(kind, t, rest)
  {
    hide Run, Advance;
    var e := Step(p, YES);
    var s2 := Advance(kind, s1, p, YES);
    var s3 := Advance(kind, s2, p, YES);
    var s4 := Advance(kind, s3, p, YES);
    RunOne(kind, s, OperatorDecides(Approved, true), [e] + ([e] + ([e] + ([e] + rest))));
    RunOne(kind, s1, e, [e] + ([e] + ([e] + rest)));
    RunOne(kind, s2, e, [e] + ([e] + rest));
    RunOne(kind, s3, e, [e] + rest);
    RunOne(kind, s4, e, rest);
  }

  lemma OpenSame(kind: Kind, s: State, t: State)
    requires t.ledger == s.ledger && t.row == s.row
    ensures Open(kind, t) <==> Open(kind, s)
  {
  }

  /** Exactly when an apply that starts now can still execute: the decision is neither
      rejected nor withdrawn, and an operation has no recorded outcome, a row is still
      pending.  In every other state it executes nothing, whatever happens next. */
  lemma LateApply(kind: Kind, s: State, p: nat)
    requires Inv(kind, s) && p !in s.procs
    ensures (exists es :: p in Run(kind, s, [Start(p)] + es).runs) <==> Open(kind, s)
  {
    assert p !in s.runs;
    hide Inv, Open, Run;
    var s1 := After(kind, s, Start(p));
    assert s1.ledger == s.ledger && s1.row == s.row && s1.procs == s.procs[p := Fetching];
    StepInv(kind, s, Start(p));
    OpenSame(kind, s, s1);
    if Open(kind, s) {
      SmoothRuns(kind, s1, p);
      RunOne(kind, s, Start(p), Smooth(kind, p));
      assert p in Run(kind, s, [Start(p)] + Smooth(kind, p)).runs;
    } else {
      forall es ensures p !in Run(kind, s, [Start(p)] + es).runs {
        RunOne(kind, s, Start(p), es);
        HarmlessRun(kind, s1, p, es);
      }
    }
  }

  lemma {:induction false} RunSplit(kind: Kind, s: State, es: seq<Event>, fs: seq<Event>)
    ensures Run(kind, s, es + fs) == Run(kind, Run(kind, s, es), fs)
    decreases |es|
  {
    if es == [] {
      assert es + fs == fs;
    } else {
      assert (es + fs)[0] == es[0] && (es + fs)[1..] == es[1..] + fs;
      RunSplit(kind, After(kind, s, es[0]), es[1..], fs);
    }
  }

  /** An operation can be executed twice: an apply that dies after the action and before
      the outcome leaves it open for another one. */
  lemma OperationTwice()
    ensures exists es :: 1 in Run(Operation, Initial(), es).runs && 2 in Run(Operation, Initial(), es).runs
  {
    var k := Operation;
    assert Open(k, Initial());
    var first := After(k, Initial(), Start(1));
    assert first.ledger == Initial().ledger && first.row == Initial().row && first.procs.Keys == {1} && first.procs[1] == Fetching;
    hide *;
    InitialInv(k);
    StepInv(k, Initial(), Start(1));
    OpenSame(k, Initial(), first);
    SmoothRuns(k, first, 1);
    RunInv(k, first, Smooth(k, 1));
    var died := Run(k, first, Smooth(k, 1));
    RunOne(k, Initial(), Start(1), Smooth(k, 1));
    assert 2 !in died.procs.Keys;
    StepInv(k, died, Crash(1));
    var crashed := After(k, died, Crash(1));
    CrashIs(k, died, 1);
    OpenSame(k, died, crashed);
    LateApply(k, crashed, 2);
    var more :| 2 in Run(k, crashed, [Start(2)] + more).runs;
    RunOne(k, died, Crash(1), [Start(2)] + more);
    var before, later := [Start(1)] + Smooth(k, 1), [Crash(1)] + ([Start(2)] + more);
    RunSplit(k, Initial(), before, later);
    NothingUnwritten(k, crashed, [Start(2)] + more);
    var last := Run(k, crashed, [Start(2)] + more);
    assert 1 in crashed.runs;
    assert 1 in last.runs[..|crashed.runs|];
    assert 1 in Run(k, Initial(), before + later).runs && 2 in Run(k, Initial(), before + later).runs;
  }

  lemma CrashIs(kind: Kind, s: State, p: nat)
    requires p in s.procs
    ensures var t := After(kind, s, Crash(p));
      t.ledger == s.ledger && t.row == s.row && t.runs == s.runs && t.procs.Keys == s.procs.Keys
  {
  }

  /** The events of an apply whose local decision is refused, one state after the other. */
  lemma RefusedApply() returns (es: seq<Event>, t: State)
    ensures t == Run(RowApproval, Initial(), es)
    ensures t.ledger == [Registered, Decided(Approved), ConsumedEntry, OutcomeEntry(Failed)]
    ensures t.row == PendingRow && t.procs.Keys == {1} && t.runs == []
  {
    hide Run, Read, OneStep;
    var k, y, n := RowApproval, Step(1, YES), Step(1, Oracle(false, true, true, Ok));
    ReadPrefixes(Approved, Failed);
    var s1 := After(k, Initial(), OperatorDecides(Approved, true));
    assert s1.ledger == [Registered, Decided(Approved)];
    var s2 := After(k, s1, Start(1));
    var s3 := After(k, s2, y);
    assert s3.procs[1] == Checking(Approved, false);
    var s4 := After(k, s3, y);
    assert s4.procs[1] == Consuming(false);
    var s5 := After(k, s4, y);
    assert s5.ledger == [Registered, Decided(Approved), ConsumedEntry];
    var s6 := After(k, s5, n);
    assert s6.procs[1] == Recording(Failed);
    t := After(k, s6, y);
    es := [OperatorDecides(Approved, true)] + ([Start(1)] + ([y] + ([y] + ([y] + ([n] + ([y] + []))))));
    Chain(k, Initial(), OperatorDecides(Approved, true), Start(1), y, y, [y] + ([n] + ([y] + [])));
    RunOne(k, s4, y, [n] + ([y] + []));
    RunOne(k, s5, n, [y] + []);
    RunOne(k, s6, y, []);
  }

  lemma Chain(kind: Kind, s: State, a: Event, b: Event, c: Event, d: Event, es: seq<Event>)
    ensures Run(kind, s, [a] + ([b] + ([c] + ([d] + es)))) ==
      Run(kind, After(kind, After(kind, After(kind, After(kind, s, a), b), c), d), es)
  {
    hide *;
    var s1 := After(kind, s, a);
    var s2 := After(kind, s1, b);
    RunOne(kind, s, a, [b] + ([c] + ([d] + es)));
    RunOne(kind, s1, b, [c] + ([d] + es));
    RunOne(kind, s2, c, [d] + es);
    RunOne(kind, After(kind, s2, c), d, es);
  }

  /** An apply whose local decision is refused records `failed` while its row stays pending:
      a later apply then executes, against the recorded outcome. */
  lemma RowAfterOutcome()
    ensures exists es, more ::
      && OutcomeEntry(Failed) in Run(RowApproval, Initial(), es).ledger
      && 1 !in Run(RowApproval, Initial(), es).runs
      && 2 in Run(RowApproval, Run(RowApproval, Initial(), es), [Start(2)] + more).runs
  {
    hide Run, Inv, Read;
    var es, t := RefusedApply();
    ReadPrefixes(Approved, Failed);
    InitialInv(RowApproval);
    RunInv(RowApproval, Initial(), es);
    LateApply(RowApproval, t, 2);
    var more :| 2 in Run(RowApproval, t, [Start(2)] + more).runs;
    assert t.ledger[3] == OutcomeEntry(Failed) && 1 !in t.runs;
  }

  // ---------------------------------------------------------------- an undisturbed apply

  /** How a row ends up after its claimed action. */
  function RowAfter(ending: Ending): Row {
    match ending
    case Ok => ApprovedRow
    case Cancels => CancelledRow
    case Fails => FailedRow
    case Throws => ExecutingRow
  }

  lemma FinishRow(s: State, p: nat, o: Oracle)
    requires p in s.procs && s.procs[p] == Running && s.row == ExecutingRow
    ensures var r := Ran(o.ending, true);
      Advance(RowApproval, s, p, o) ==
        s.(procs := s.procs[p := Recording(if Good(RowApproval, r) then Executed else Failed)], ends := s.ends[p := r], row := RowAfter(o.ending))
  {
  }

  lemma WriteIs(kind: Kind, s: State, p: nat, o: Oracle)
    requires p in s.procs && s.procs[p].Recording? && o.arrives && Read(s.ledger).consumed
    ensures var st := s.procs[p].status; var known := Read(s.ledger).outcome;
      Advance(kind, s, p, o) == s.(procs := s.procs[p := Done],
        ledger := s.ledger + if known.Some? then [] else [OutcomeEntry(st)], recorder := if known.Some? then s.recorder else Some(p))
  {
    hide Read;
    OneEntry(s.ledger, true, s.procs[p].status);
    WritesRead(s.ledger, Approved, true, s.procs[p].status);
    assert s.ledger + [] == s.ledger;
  }

  /** One apply of an approval that can still be carried out, with nothing refused, lost or in
      between: it consumes the approval unless that was done, runs the action once, and
      records, unless an outcome is known, `executed` exactly when its run was good; a row
      ends up as the action ended. */
  lemma UndisturbedApply(kind: Kind, s: State, p: nat, o: Oracle)
    requires Inv(kind, s) && Open(kind, s) && p in s.procs && s.procs[p] == Fetching && Willing(o)
    requires Read(s.ledger).standing == Stands(Approved)
    ensures var t := Run(kind, s, Steps(p, [o, o, o, o, o, o, o])); var r := Ran(o.ending, true); var v := Read(s.ledger);
      && t.procs == s.procs[p := Done] && t.runs == s.runs + [p] && t.ends == s.ends[p := r]
      && t.ledger == s.ledger + (if v.consumed then [] else [ConsumedEntry])
           + (if v.outcome.Some? then [] else [OutcomeEntry(if Good(kind, r) then Executed else Failed)])
      && t.row == if kind == RowApproval then RowAfter(o.ending) else s.row
  {
    hide Run, Read, Shaped, Inv, Advance, Open, RowAfter, OneStep;
    OpenRow(kind, s);
    var s4 := UpToAction(kind, s, p, o);
    var rest := [o, o, o, o];
    SevenSteps(kind, s, p, o, s4);
    ActIs(kind, s4, p, o);
    var s5 := Advance(kind, s4, p, o);
    if kind == Operation {
      WriteIs(kind, s5, p, o);
      var s6 := Advance(kind, s5, p, o);
      FourSteps(kind, s4, p, o);
      DoneStays(kind, s6, p, [o, o]);
    } else {
      BeginIs(s5, p, o);
      var s6 := Advance(kind, s5, p, o);
      FinishRow(s6, p, o);
      WriteIs(kind, Advance(kind, s6, p, o), p, o);
      FourSteps(kind, s4, p, o);
    }
  }

  lemma OpenRow(kind: Kind, s: State)
    requires Open(kind, s)
    ensures kind == RowApproval ==> s.row == PendingRow
  {
  }

  lemma SevenSteps(kind: Kind, s: State, p: nat, o: Oracle, s4: State)
    requires p in s.procs && s4 == Advance(kind, Advance(kind, Advance(kind, s, p, o), p, o), p, o)
    ensures Run(kind, s, Steps(p, [o, o, o, o, o, o, o])) == Run(kind, s4, Steps(p, [o, o, o, o]))
  {
    hide Run, Advance, Steps;
    var seven := [o, o, o, o, o, o, o];
    assert seven[1..] == [o, o, o, o, o, o] && seven[1..][1..] == [o, o, o, o, o] && seven[1..][1..][1..] == [o, o, o, o];
    var s1 := Advance(kind, s, p, o);
    NextStep(kind, s, p, seven);
    NextStep(kind, s1, p, seven[1..]);
    NextStep(kind, Advance(kind, s1, p, o), p, seven[1..][1..]);
  }

  lemma FourSteps(kind: Kind, s: State, p: nat, o: Oracle)
    requires p in s.procs
    ensures var s2 := Advance(kind, Advance(kind, s, p, o), p, o);
      && Run(kind, s, Steps(p, [o, o, o, o])) == Run(kind, s2, Steps(p, [o, o]))
      && Run(kind, s2, Steps(p, [o, o])) == Advance(kind, Advance(kind, s2, p, o), p, o)
  {
    assert Steps(p, []) == [];
    hide Run, Advance, Steps;
    var four := [o, o, o, o];
    assert four[1..] == [o, o, o] && four[1..][1..] == [o, o] && [o, o][1..] == [o] && [o][1..] == [];
    var s1 := Advance(kind, s, p, o);
    var s2 := Advance(kind, s1, p, o);
    var s3 := Advance(kind, s2, p, o);
    NextStep(kind, s, p, four);
    NextStep(kind, s1, p, four[1..]);
    NextStep(kind, s2, p, [o, o]);
    NextStep(kind, s3, p, [o]);
    RunOne(kind, Advance(kind, s3, p, o), Step(p, o), []);
  }

  /** A rejected row is closed, and nothing is consumed, run or recorded. */
  lemma UndisturbedRejection(s: State, p: nat, o: Oracle)
    requires p in s.procs && s.procs[p] == Fetching && Willing(o) && s.row == PendingRow
    requires Read(s.ledger).standing == Stands(Rejected)
    ensures var t := Run(RowApproval, s, Steps(p, [o, o, o, o, o, o, o]));
      t == s.(procs := s.procs[p := Done], row := RejectedRow, passed := s.passed + {p})
  {
    hide Run, Read, Steps;
    var seven := [o, o, o, o, o, o, o];
    var s1 := Advance(RowApproval, s, p, o);
    assert s1 == Goto(s, p, Checking(Rejected, Read(s.ledger).consumed));
    var s2 := Advance(RowApproval, s1, p, o);
    assert s2 == s.(procs := s.procs[p := Acting(Rejected)], passed := s.passed + {p});
    var s3 := Advance(RowApproval, s2, p, o);
    NextStep(RowApproval, s, p, seven);
    NextStep(RowApproval, s1, p, seven[1..]);
    NextStep(RowApproval, s2, p, seven[1..][1..]);
    DoneStays(RowApproval, s3, p, seven[1..][1..][1..]);
  }

  predicate Final(row: Row) { row != PendingRow && row != ExecutingRow }

  /** A row that is closed stays as it is. */
  lemma {:induction false} FinalStays(kind: Kind, s: State, es: seq<Event>)
    requires Final(s.row)
    ensures Run(kind, s, es).row == s.row
    decreases |es|
  {
    if es != [] {
      FinalOnce(kind, s, es[0]);
      FinalStays(kind, After(kind, s, es[0]), es[1..]);
    }
  }

  lemma FinalOnce(kind: Kind, s: State, e: Event)
    requires Final(s.row)
    ensures After(kind, s, e).row == s.row
  {
    hide Read, Consume, Record, Decide, Withdraw, Advance;
    if e.Step? && e.p in s.procs { FinalAdvance(kind, s, e.p, e.oracle); }
  }

  lemma FinalAdvance(kind: Kind, s: State, p: nat, o: Oracle)
    requires Final(s.row) && p in s.procs
    ensures Advance(kind, s, p, o).row == s.row
  {
    hide Read, Consume, Record, OneStep;
    match s.procs[p]
    case Fetching => assert Advance(kind, s, p, o) == Fetch(kind, s, p, o);
    case Showing(spent) => assert Advance(kind, s, p, o) == Show(s, p, spent, o);
    case Checking(d, spent) => assert Advance(kind, s, p, o) == Check(s, p, d, spent, o);
    case Consuming(spent) => assert Advance(kind, s, p, o) == Spend(s, p, spent, o);
    case Acting(d) => assert Advance(kind, s, p, o) == Act(kind, s, p, d, o);
    case Claimed => assert Advance(kind, s, p, o) == Begin(s, p, o);
    case Running => assert Advance(kind, s, p, o) == Finish(s, p, o);
    case Recording(st) => assert Advance(kind, s, p, o) == Write(s, p, st, o);
    case Done =>
  }

  // ---------------------------------------------------------------- an apply that comes late or is disturbed

  /** An apply over a row that is no longer pending runs nothing and leaves the row.  If the row
      was approved, its apply writes the outcome `executed` where it is missing. */
  lemma ReapplyRow(s: State, p: nat, o: Oracle)
    requires p in s.procs && s.procs[p] == Fetching && Willing(o) && s.row != PendingRow
    requires Read(s.ledger).standing == Stands(Approved)
    ensures var t := Run(RowApproval, s, Steps(p, [o, o, o, o, o, o, o])); var v := Read(s.ledger);
      var missing := s.row == ApprovedRow && v.consumed && v.outcome == None;
      t == s.(procs := s.procs[p := Done], ledger := s.ledger + if missing then [OutcomeEntry(Executed)] else [],
              recorder := if missing then Some(p) else s.recorder)
  {
    hide Run, Read, Steps, OneStep, Act, Begin, Finish, Spend, Show;
    var seven := [o, o, o, o, o, o, o];
    var s1 := Advance(RowApproval, s, p, o);
    assert s1 == Goto(s, p, Checking(Approved, Read(s.ledger).consumed));
    var s2 := Advance(RowApproval, s1, p, o);
    assert s2 == Goto(s, p, if s.row == ApprovedRow then Recording(Executed) else Done);
    assert s.ledger + [] == s.ledger;
    WritesRead(s.ledger, Approved, true, Executed);
    OneEntry(s.ledger, true, Executed);
    NextStep(RowApproval, s, p, seven);
    NextStep(RowApproval, s1, p, seven[1..]);
    NextStep(RowApproval, s2, p, seven[1..][1..]);
    DoneStays(RowApproval, Advance(RowApproval, s2, p, o), p, seven[1..][1..][1..]);
  }

  /** An apply of an operation whose outcome is known changes nothing. */
  lemma ReapplyOperation(s: State, p: nat, o: Oracle)
    requires p in s.procs && s.procs[p] == Fetching && Willing(o) && Read(s.ledger).outcome != None
    requires Read(s.ledger).standing == Stands(Approved)
    ensures Run(Operation, s, Steps(p, [o, o, o, o, o, o, o])) == s.(procs := s.procs[p := Done])
  {
    hide Run, Read, Steps;
    var seven := [o, o, o, o, o, o, o];
    var s1 := Advance(Operation, s, p, o);
    assert s1 == Goto(s, p, Showing(Read(s.ledger).consumed));
    var s2 := Advance(Operation, s1, p, o);
    WritesRead(s.ledger, Approved, true, Executed);
    NextStep(Operation, s, p, seven);
    NextStep(Operation, s1, p, seven[1..]);
    NextStep(Operation, s2, p, seven[1..][1..]);
    DoneStays(Operation, Advance(Operation, s2, p, o), p, seven[1..][1..][1..]);
  }

  /** One that finds its row taken when it comes to act claims nothing: it records `executed` if
      the row is approved by then, else `failed`; so it does when the claim is refused. */
  lemma FoundTaken(s: State, p: nat, o: Oracle)
    requires p in s.procs && s.procs[p] == Acting(Approved) && (s.row != PendingRow || !o.granted)
    ensures Advance(RowApproval, s, p, o) == s.(procs := s.procs[p := Recording(if s.row == ApprovedRow then Executed else Failed)])
  {
  }

  /** A claimed action that may not start runs nothing: its row is rejected or failed, and the
      outcome is `failed`. */
  lemma StartRefused(s: State, p: nat, o: Oracle)
    requires p in s.procs && s.procs[p] == Claimed && !o.granted
    ensures Advance(RowApproval, s, p, o) == s.(procs := s.procs[p := Recording(Failed)],
      row := if s.row != ExecutingRow then s.row else if o.answered then RejectedRow else FailedRow)
  {
  }

  /** An action that ends after its row was closed leaves the row, and its outcome is `failed`
      however it ended. */
  lemma LateFinish(s: State, p: nat, o: Oracle)
    requires p in s.procs && s.procs[p] == Running && s.row != ExecutingRow
    ensures Advance(RowApproval, s, p, o) == s.(procs := s.procs[p := Recording(Failed)], ends := s.ends[p := Ran(o.ending, false)])
  {
  }

  /** What closes a row from outside: the reaper a claimed one, as approved only on the word of
      the journal, an emergency stop a pending one. */
  lemma ClosedFromOutside(kind: Kind, s: State, committed: bool)
    ensures var t := After(kind, s, Reap(committed));
      && t == s.(row := t.row, journaled := t.journaled)
      && t.row == (if s.row != ExecutingRow then s.row else if committed && s.runs != [] then ApprovedRow else FailedRow)
      && (t.journaled <==> s.journaled || (s.row == ExecutingRow && t.row == ApprovedRow))
    ensures After(kind, s, StopRow) == s.(row := if s.row == PendingRow then CancelledRow else s.row)
  {
  }

  // ---------------------------------------------------------------- one apply, in place

  function Steps(p: nat, os: seq<Oracle>): seq<Event> {
    if os == [] then [] else [Step(p, os[0])] + Steps(p, os[1..])
  }

  lemma NextStep(kind: Kind, s: State, p: nat, os: seq<Oracle>)
    requires os != [] && p in s.procs
    ensures Run(kind, s, Steps(p, os)) == Run(kind, Advance(kind, s, p, os[0]), Steps(p, os[1..]))
  {
    RunOne(kind, s, Step(p, os[0]), Steps(p, os[1..]));
  }

  lemma {:induction false} DoneStays(kind: Kind, s: State, p: nat, os: seq<Oracle>)
    requires p in s.procs && s.procs[p] == Done
    ensures Run(kind, s, Steps(p, os)) == s
    decreases |os|
  {
    if os != [] {
      NextStep(kind, s, p, os);
      DoneStays(kind, s, p, os[1..]);
    }
  }

  lemma OneProcess(p: nat)
    ensures forall a: Pc, b: Pc :: map[p := a][p := b] == map[p := b]
  {
  }

  /** The authority and the local row of one approval, changed by one apply that nothing
      interleaves with. */
  class World {
    var ledger: Ledger
    var row: Row
    ghost var passed: set<nat>
    ghost var runs: seq<nat>
    ghost var ends: map<nat, Ran>
    ghost var recorder: Option<nat>
    ghost var journaled: bool

    ghost function At(p: nat, pc: Pc): State
      reads this
    {
      State(ledger, row, map[p := pc], passed, runs, ends, recorder, journaled)
    }

    constructor ()
      ensures ledger == [Registered] && row == PendingRow && passed == {} && runs == []
    {
      ledger := [Registered];
      row := PendingRow;
      passed := {};
      runs := [];
      ends, recorder, journaled := map[], None, false;
    }

    /** `consumeOnce`: uses the consumption that came with the decision, else asks for one. */
    method ConsumeOnce(ghost kind: Kind, ghost p: nat, spent: bool, o: Oracle) returns (held: bool)
      modifies this`ledger
      ensures At(p, if held then Acting(Approved) else Done) == Advance(kind, old(At(p, Consuming(spent))), p, o)
    {
      if spent { return true; }
      if !o.arrives { return false; }
      var l := Consume(ledger, o.granted);
      held := o.answered && l != ledger;
      ledger := l;
    }

    /** Records what an action came to, and ends. */
    method RecordOutcome(ghost kind: Kind, ghost p: nat, status: Status, o: Oracle)
      modifies this`ledger, this`recorder
      ensures At(p, Done) == Advance(kind, old(At(p, Recording(status))), p, o)
    {
      if o.arrives {
        var l := Record(ledger, status);
        if l != ledger { recorder := Some(p); }
        ledger := l;
      }
    }

    /** The look at the approval before anything is spent: go on, record again an outcome that
        is known, or end. */
    method ShowOnce(ghost p: nat, spent: bool, o: Oracle) returns (on: bool, again: bool)
      modifies this`passed
      ensures At(p, if on then Consuming(spent) else if again then Recording(Executed) else Done)
        == Advance(Operation, old(At(p, Showing(spent))), p, o)
    {
      hide Read;
      OneProcess(p);
      if !o.arrives || !o.answered { return false, false; }
      var outcome := Read(ledger).outcome;
      if outcome != None { return false, outcome == Some(Executed) && o.granted; }
      if !o.granted { return false, false; }
      passed := passed + {p};
      return true, false;
    }

    /** Runs the operation. */
    method Execute(ghost p: nat, o: Oracle) returns (executed: bool)
      modifies this`runs, this`ends
      ensures At(p, Recording(if executed then Executed else Failed)) == Advance(Operation, old(At(p, Acting(Approved))), p, o)
      ensures p in ends && p in runs && (executed <==> Good(Operation, ends[p]))
    {
      OneProcess(p);
      runs := runs + [p];
      ends := ends[p := Ran(o.ending, true)];
      return o.ending == Ok;
    }

    method RunOperational(ghost p: nat, spent: bool, os: seq<Oracle>) returns (executed: bool)
      requires |os| == 4
      modifies this
      ensures At(p, Done) == Run(Operation, old(At(p, Showing(spent))), Steps(p, os))
      ensures executed ==> p in runs
      ensures p !in old(ends) ==> (executed <==> p in ends && Good(Operation, ends[p]))
    {
      assert Steps(p, []) == [];
      hide Run, Read, Steps, Record, Consume, Advance, Good;
      executed := false;
      NextStep(Operation, At(p, Showing(spent)), p, os);
      var on, again := ShowOnce(p, spent, os[0]);
      if !on {
        if again {
          NextStep(Operation, At(p, Recording(Executed)), p, os[1..]);
          RecordOutcome(Operation, p, Executed, os[1]);
          DoneStays(Operation, At(p, Done), p, os[1..][1..]);
        } else {
          DoneStays(Operation, At(p, Done), p, os[1..]);
        }
        return;
      }
      NextStep(Operation, At(p, Consuming(spent)), p, os[1..]);
      var held := ConsumeOnce(Operation, p, spent, os[1]);
      if !held {
        DoneStays(Operation, At(p, Done), p, os[1..][1..]);
        return;
      }
      NextStep(Operation, At(p, Acting(Approved)), p, os[1..][1..]);
      executed := Execute(p, os[2]);
      NextStep(Operation, At(p, Recording(if executed then Executed else Failed)), p, os[1..][1..][1..]);
      RecordOutcome(Operation, p, if executed then Executed else Failed, os[3]);
      DoneStays(Operation, At(p, Done), p, os[1..][1..][1..][1..]);
    }

    /** Claims the row, or says with which outcome the apply ends. */
    method Claim(ghost p: nat, o: Oracle) returns (claimed: bool, status: Status)
      modifies this`row
      ensures At(p, if claimed then Claimed else Recording(status)) == Advance(RowApproval, old(At(p, Acting(Approved))), p, o)
    {
      OneProcess(p);
      if row == ApprovedRow { return false, Executed; }
      if row != PendingRow || !o.granted { return false, Failed; }
      row := ExecutingRow;
      return true, Failed;
    }

    /** Starts the claimed action, or closes the row. */
    method Start(ghost p: nat, o: Oracle) returns (begun: bool)
      modifies this`row, this`runs
      ensures At(p, if begun then Running else Recording(Failed)) == Advance(RowApproval, old(At(p, Claimed)), p, o)
      ensures begun ==> p in runs
    {
      OneProcess(p);
      if !o.granted {
        if row == ExecutingRow { row := if o.answered then RejectedRow else FailedRow; }
        return false;
      }
      runs := runs + [p];
      return true;
    }

    /** Ends it: the row takes the ending, if it is still claimed. */
    method Finish(ghost p: nat, o: Oracle) returns (executed: bool)
      modifies this`row, this`ends
      ensures At(p, Recording(if executed then Executed else Failed)) == Advance(RowApproval, old(At(p, Running)), p, o)
      ensures p in ends && (executed <==> Good(RowApproval, ends[p]))
    {
      OneProcess(p);
      ends := ends[p := Ran(o.ending, row == ExecutingRow)];
      executed := false;
      if row == ExecutingRow {
        match o.ending {
          case Ok => row := ApprovedRow; executed := true;
          case Cancels => row := CancelledRow; executed := true;
          case Fails => row := FailedRow;
          case Throws =>
        }
      }
    }

    method RejectRow(ghost p: nat, o: Oracle)
      modifies this`row
      ensures At(p, Done) == Advance(RowApproval, old(At(p, Acting(Rejected))), p, o)
    {
      OneProcess(p);
      if row == PendingRow && o.granted { row := RejectedRow; }
    }

    /** Carries an approved or rejected decision out on the local row, after its preflight. */
    method Carry(ghost p: nat, d: Verdict, os: seq<Oracle>) returns (executed: bool)
      requires |os| == 4
      modifies this
      ensures At(p, Done) == Run(RowApproval, old(At(p, Acting(d))), Steps(p, os))
      ensures executed ==> p in runs
      ensures p !in old(ends) ==> (executed <==> p in ends && Good(RowApproval, ends[p]))
    {
      hide Run, Read, Steps, Record, Advance, Good;
      executed := false;
      NextStep(RowApproval, At(p, Acting(d)), p, os);
      if d == Rejected {
        RejectRow(p, os[0]);
        DoneStays(RowApproval, At(p, Done), p, os[1..]);
        return;
      }
      var claimed, status := Claim(p, os[0]);
      if !claimed {
        NextStep(RowApproval, At(p, Recording(status)), p, os[1..]);
        RecordOutcome(RowApproval, p, status, os[1]);
        DoneStays(RowApproval, At(p, Done), p, os[1..][1..]);
        return;
      }
      NextStep(RowApproval, At(p, Claimed), p, os[1..]);
      var begun := Start(p, os[1]);
      if !begun {
        NextStep(RowApproval, At(p, Recording(Failed)), p, os[1..][1..]);
        RecordOutcome(RowApproval, p, Failed, os[2]);
        DoneStays(RowApproval, At(p, Done), p, os[1..][1..][1..]);
        return;
      }
      NextStep(RowApproval, At(p, Running), p, os[1..][1..]);
      executed := Finish(p, os[2]);
      NextStep(RowApproval, At(p, Recording(if executed then Executed else Failed)), p, os[1..][1..][1..]);
      RecordOutcome(RowApproval, p, if executed then Executed else Failed, os[3]);
      DoneStays(RowApproval, At(p, Done), p, os[1..][1..][1..][1..]);
    }

    /** The row's own preflight: go on, record again that it was executed, or end. */
    method CheckRow(ghost p: nat, d: Verdict, spent: bool, o: Oracle) returns (on: bool, again: bool)
      modifies this`passed
      ensures At(p, if on then (if d == Approved then Consuming(spent) else Acting(Rejected)) else if again then Recording(Executed) else Done)
        == Advance(RowApproval, old(At(p, Checking(d, spent))), p, o)
    {
      OneProcess(p);
      if row != PendingRow { return false, d == Approved && row == ApprovedRow && o.granted; }
      if !o.granted { return false, false; }
      passed := passed + {p};
      return true, false;
    }

    method ApplyRow(ghost p: nat, d: Verdict, spent: bool, os: seq<Oracle>) returns (executed: bool)
      requires |os| == 6
      modifies this
      ensures At(p, Done) == Run(RowApproval, old(At(p, Checking(d, spent))), Steps(p, os))
      ensures executed ==> p in runs
      ensures p !in old(ends) ==> (executed <==> p in ends && Good(RowApproval, ends[p]))
    {
      hide Run, Read, Steps, Record, Advance, Good;
      executed := false;
      NextStep(RowApproval, At(p, Checking(d, spent)), p, os);
      var on, again := CheckRow(p, d, spent, os[0]);
      if !on {
        if again {
          NextStep(RowApproval, At(p, Recording(Executed)), p, os[1..]);
          RecordOutcome(RowApproval, p, Executed, os[1]);
          DoneStays(RowApproval, At(p, Done), p, os[1..][1..]);
        } else {
          DoneStays(RowApproval, At(p, Done), p, os[1..]);
        }
        return;
      }
      if d == Approved {
        NextStep(RowApproval, At(p, Consuming(spent)), p, os[1..]);
        var held := ConsumeOnce(RowApproval, p, spent, os[1]);
        if !held {
          DoneStays(RowApproval, At(p, Done), p, os[1..][1..]);
          return;
        }
        executed := Carry(p, Approved, os[1..][1..]);
      } else {
        NextStep(RowApproval, At(p, Acting(Rejected)), p, os[1..]);
        RejectRow(p, os[1]);
        DoneStays(RowApproval, At(p, Done), p, os[1..][1..]);
      }
    }

    /** `apply`: what it does to the authority, the row and the history is what its steps do
        when nothing comes between them, and it reports an execution only if there was one. */
    method Apply(kind: Kind, ghost p: nat, os: seq<Oracle>) returns (executed: bool)
      requires |os| == 7
      modifies this
      ensures At(p, Done) == Run(kind, old(At(p, Fetching)), Steps(p, os))
      ensures executed ==> p in runs
      ensures p !in old(ends) ==> (executed <==> p in ends && Good(kind, ends[p]))
    {
      hide Run, Read, Steps;
      executed := false;
      OneProcess(p);
      ghost var s := At(p, Fetching);
      NextStep(kind, s, p, os);
      ghost var s1 := Advance(kind, s, p, os[0]);
      var fetched := Read(ledger);
      if !os[0].arrives || !os[0].answered || fetched.standing == Pending || fetched.standing == Withdrawn {
        assert s1 == At(p, Done);
        DoneStays(kind, At(p, Done), p, os[1..]);
        return;
      }
      var d := fetched.standing.verdict;
      if kind == Operation {
        if d == Rejected {
          assert s1 == At(p, Done);
          DoneStays(kind, At(p, Done), p, os[1..]);
          return;
        }
        assert s1 == At(p, Showing(fetched.consumed));
        StepsSplit(p, os[1..], 4);
        RunSplit(kind, s1, Steps(p, os[1..][..4]), Steps(p, os[1..][4..]));
        executed := RunOperational(p, fetched.consumed, os[1..][..4]);
        DoneStays(kind, At(p, Done), p, os[1..][4..]);
      } else {
        if !os[0].granted {
          assert s1 == At(p, Done);
          DoneStays(kind, At(p, Done), p, os[1..]);
          return;
        }
        assert s1 == At(p, Checking(d, fetched.consumed));
        executed := ApplyRow(p, d, fetched.consumed, os[1..]);
      }
    }
  }

  lemma {:induction false} StepsSplit(p: nat, os: seq<Oracle>, k: nat)
    requires k <= |os|
    ensures Steps(p, os) == Steps(p, os[..k]) + Steps(p, os[k..])
    decreases k
  {
    if k == 0 {
      assert os[..0] == [] && os[0..] == os;
    } else {
      assert os[..k][1..] == os[1..][..k - 1] && os[1..][k - 1..] == os[k..];
      StepsSplit(p, os[1..], k - 1);
      assert Steps(p, os) == [Step(p, os[0])] + (Steps(p, os[1..][..k - 1]) + Steps(p, os[k..]));
    }
  }
}
