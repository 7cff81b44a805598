/** The journal reader that credits an ordinary coder task.

    A task's candidates were tried in order, each in a run of its own; the reader decides
    from the sealed journals whether one of them succeeded after all earlier ones were
    undone, or all of them failed and were undone, or neither can be said. */
module OrdinaryAcceptance {
  import opened Options

  // ---------------------------------------------------------------- journals

  datatype Kind =
    | RunStarted | ActionProposed | PolicyDecided | ExecutionStarted | ExecutionFinished | Verification | RunClosed
    | RoutingDecided | OtherKind(name: string)

  /** The seven events of a run's life, in order. */
  const LIFECYCLE := [RunStarted, ActionProposed, PolicyDecided, ExecutionStarted, ExecutionFinished, Verification, RunClosed]

  datatype Change = Change(path: string, hashed: bool)

  datatype Check = Check(path: string, restored: bool)

  datatype Test = Test(ran: bool, commandHash: string, signal: bool, ok: bool, exitCode: int, reason: Option<string>)

  datatype Proofs = Proofs(integrity: bool, provenance: bool, permission: bool, coverage: bool, verification: bool)

  /** What a run is told before it starts: the prediction's hash, if any, and the task. */
  datatype Header = Header(predictionHash: Option<string>, decisionId: string, baseRun: string, task: string)

  /** What the reader looks at in an event's payload. */
  datatype Body =
    | NoBody
    | Begin(taskId: string, operationType: string, allowedPaths: seq<string>, predecision: Option<Header>)
    | Proposed(operationType: string, path: string, findHash: string, replaceHash: string)
    | Policy(allow: bool)
    | Finished(changes: seq<Change>)
    | Verified(verified: bool, proofs: Proofs)
    | Closed(test: Option<Test>, kept: Option<bool>, rolledBack: Option<bool>, checks: Option<seq<Check>>,
             execution: string, outcome: string, verdict: string)

  datatype Event = Event(kind: Kind, sequence: int, id: string, causedBy: Option<string>, run: string, workspace: string, body: Body)

  /** A run's record: its events, whether it is sealed, the manifest's outcome, and whether the
      record still matches its hashes. */
  datatype Run = Run(events: seq<Event>, sealed: bool, outcome: string, intact: bool)

  type Journal = map<string, Run>

  function RunOf(j: Journal, id: string): Run { if id in j then j[id] else Run([], false, "", true) }

  function InWorkspace(events: seq<Event>, workspace: string): seq<Event> {
    if events == [] then []
    else (if events[0].workspace == workspace then [events[0]] else []) + InWorkspace(events[1..], workspace)
  }

  // ---------------------------------------------------------------- the task

  datatype Operation = Operation(path: string, findHash: string, replaceHash: string)

  datatype Spec = Spec(id: string, allowedPaths: seq<string>, candidates: seq<Operation>, testHash: string)

  /** What the caller holds: the base run id, the workspace, and the prediction bound before the
      start, if one was. */
  datatype Ticket = Ticket(baseRun: string, workspace: string, predecision: Option<Option<Header>>)

  function RunId(t: Ticket, i: nat): string
    requires i < 8
  {
    t.baseRun + ":c" + [('1' as int + i) as char]
  }

  /** The eight runs of a task have names of their own, numbered from 1. */
  lemma RunIdsDiffer(t: Ticket, i: nat, k: nat)
    requires i < 8 && k < 8
    ensures RunId(t, i) == RunId(t, k) <==> i == k
    ensures RunId(t, 0) == t.baseRun + ":c1" && RunId(t, 7) == t.baseRun + ":c8"
  {
    var a, b := RunId(t, i), RunId(t, k);
    assert a[|a| - 1] == ('1' as int + i) as char && b[|b| - 1] == ('1' as int + k) as char;
  }

  // ---------------------------------------------------------------- the chain of one run

  function OfKind(chain: seq<Event>, kind: Kind): (r: seq<Event>)
    ensures forall e :: e in r <==> e in chain && e.kind == kind
  {
    if chain == [] then [] else (if chain[0].kind == kind then [chain[0]] else []) + OfKind(chain[1..], kind)
  }

  function Without(chain: seq<Event>, kind: Kind): seq<Event> {
    if chain == [] then [] else (if chain[0].kind != kind then [chain[0]] else []) + Without(chain[1..], kind)
  }

  lemma {:induction false} WithoutIn(chain: seq<Event>, kind: Kind, e: Event)
    ensures e in Without(chain, kind) <==> e in chain && e.kind != kind
  {
    if chain != [] { WithoutIn(chain[1..], kind, e); }
  }

  predicate Increasing(chain: seq<Event>) { forall i, j | 0 <= i < j < |chain| :: chain[i].sequence < chain[j].sequence }

  /** Each event was caused by the one before it. */
  predicate Linked(chain: seq<Event>, run: string, workspace: string) {
    && (forall i | 0 <= i < |chain| :: chain[i].run == run && chain[i].workspace == workspace)
    && (forall i | 0 < i < |chain| ::
          chain[i - 1].sequence < chain[i].sequence && chain[i].causedBy == Some(chain[i - 1].id))
  }

  /** The single event of each kind of the lifecycle, in the lifecycle's order. */
  function Picked(chain: seq<Event>): (p: seq<Event>)
    requires forall k | 0 <= k < 7 :: |OfKind(chain, LIFECYCLE[k])| == 1
    ensures |p| == 7
  {
    seq(7, k requires 0 <= k < 7 => OfKind(chain, LIFECYCLE[k])[0])
  }

  /** The checks on the chain, as the reader makes them. */
  predicate ChainOk(chain: seq<Event>, run: string, workspace: string) {
    && (forall k | 0 <= k < 7 :: |OfKind(chain, LIFECYCLE[k])| == 1)
    && |OfKind(chain, RoutingDecided)| <= 1
    && (forall k | 0 < k < 7 :: Picked(chain)[k - 1].sequence < Picked(chain)[k].sequence)
    && (forall e | e in chain :: e.kind in LIFECYCLE || e.kind == RoutingDecided)
    && Linked(chain, run, workspace)
  }

  /** What they amount to: the seven events in order, and at most one routing event anywhere. */
  predicate ChainIs(chain: seq<Event>, run: string, workspace: string) {
    && Kinds(Without(chain, RoutingDecided)) == LIFECYCLE
    && |chain| <= 8
    && Linked(chain, run, workspace)
  }

  function Kinds(chain: seq<Event>): seq<Kind> { seq(|chain|, i requires 0 <= i < |chain| => chain[i].kind) }

  lemma {:induction false} LinkedIncreasing(chain: seq<Event>, run: string, workspace: string)
    requires Linked(chain, run, workspace)
    ensures Increasing(chain)
  {
    if chain != [] {
      var init := chain[..|chain| - 1];
      assert forall i | 0 <= i < |init| :: init[i] == chain[i];
      LinkedIncreasing(init, run, workspace);
      forall i, j | 0 <= i < j < |chain| ensures chain[i].sequence < chain[j].sequence {
        if j < |init| { assert init[i].sequence < init[j].sequence; }
        else if i < |init| - 1 { assert init[i].sequence < init[|init| - 1].sequence; }
      }
    }
  }

  /** Two increasing chains of the same events are one. */
  lemma {:induction false} SameSorted(a: seq<Event>, b: seq<Event>)
    requires Increasing(a) && Increasing(b) && forall e :: e in a <==> e in b
    ensures a == b
  {
    if a == [] {
      assert forall i | 0 <= i < |b| :: b[i] in b;
    } else {
      assert a[0] in b && b != [];
      assert b[0] in a;
      var i :| 0 <= i < |b| && b[i] == a[0];
      var j :| 0 <= j < |a| && a[j] == b[0];
      assert i == 0;
      forall e ensures e in a[1..] <==> e in b[1..] {
        NotAgain(a);
        NotAgain(b);
        assert a == [a[0]] + a[1..] && b == [b[0]] + b[1..];
        assert e in a <==> e == a[0] || e in a[1..];
        assert e in b <==> e == b[0] || e in b[1..];
      }
      Tail(a);
      Tail(b);
      SameSorted(a[1..], b[1..]);
      assert a == [a[0]] + a[1..] && b == [b[0]] + b[1..];
    }
  }

  lemma Tail(a: seq<Event>)
    requires a != [] && Increasing(a)
    ensures Increasing(a[1..])
  {
    forall i, j | 0 <= i < j < |a[1..]| ensures a[1..][i].sequence < a[1..][j].sequence {
      assert a[1..][i] == a[i + 1] && a[1..][j] == a[j + 1];
    }
  }

  lemma NotAgain(a: seq<Event>)
    requires a != [] && Increasing(a)
    ensures a[0] !in a[1..]
  {
    forall i | 0 <= i < |a[1..]| ensures a[1..][i] != a[0] { assert a[1..][i] == a[i + 1] && a[0].sequence < a[i + 1].sequence; }
  }

  lemma {:induction false} WithoutIncreasing(chain: seq<Event>, kind: Kind)
    requires Increasing(chain)
    ensures Increasing(Without(chain, kind))
  {
    if chain != [] {
      Tail(chain);
      WithoutIncreasing(chain[1..], kind);
      var rest := Without(chain[1..], kind);
      var all := Without(chain, kind);
      forall i, j | 0 <= i < j < |all| ensures all[i].sequence < all[j].sequence {
        if chain[0].kind == kind {
          assert rest[i].sequence < rest[j].sequence;
        } else {
          WithoutIn(chain[1..], kind, rest[j - 1]);
          assert all[j] == rest[j - 1] && rest[j - 1] in chain[1..];
          if i > 0 { assert all[i] == rest[i - 1]; }
          else {
            var k :| 0 <= k < |chain[1..]| && chain[1..][k] == all[j];
            assert all[j] == chain[k + 1];
          }
        }
      }
    }
  }

  lemma {:induction false} KindSizes(chain: seq<Event>, kind: Kind)
    ensures |chain| == |OfKind(chain, kind)| + |Without(chain, kind)|
  {
    if chain != [] { KindSizes(chain[1..], kind); }
  }

  lemma {:induction false} KindOfWithout(chain: seq<Event>, kind: Kind, other: Kind)
    requires kind != other
    ensures OfKind(Without(chain, other), kind) == OfKind(chain, kind)
  {
    if chain != [] {
      KindOfWithout(chain[1..], kind, other);
      var rest := Without(chain[1..], other);
      if chain[0].kind != other {
        assert ([chain[0]] + rest)[1..] == rest;
        assert Without(chain, other) == [chain[0]] + rest;
      } else {
        assert Without(chain, other) == rest;
      }
    }
  }

  lemma KindsAt(w: seq<Event>)
    requires Kinds(w) == LIFECYCLE
    ensures |w| == 7 && forall i | 0 <= i < 7 :: w[i].kind == LIFECYCLE[i]
  {
    assert |w| == |Kinds(w)|;
    forall i | 0 <= i < 7 ensures w[i].kind == LIFECYCLE[i] { assert Kinds(w)[i] == w[i].kind; }
  }

  lemma StagesDiffer(i: nat, k: nat)
    requires i < 7 && k < 7
    ensures LIFECYCLE[i] == LIFECYCLE[k] <==> i == k
  {
  }

  /** Of a chain whose kinds are the lifecycle, the event of the k-th kind is the k-th. */
  lemma OneOfEach(w: seq<Event>, k: nat)
    requires |w| == 7 && k < 7 && forall i | 0 <= i < 7 :: w[i].kind == LIFECYCLE[i]
    ensures OfKind(w, LIFECYCLE[k]) == [w[k]]
  {
    hide OfKind;
    forall i | 0 <= i < |w| ensures w[i].kind == LIFECYCLE[k] <==> i == k { StagesDiffer(i, k); }
    OneSpot(w, LIFECYCLE[k], k);
  }

  lemma {:induction false} OneSpot(w: seq<Event>, kind: Kind, k: nat)
    requires k < |w| && forall i | 0 <= i < |w| :: w[i].kind == kind <==> i == k
    ensures OfKind(w, kind) == [w[k]]
  {
    if k == 0 {
      NoSpot(w[1..], kind);
      assert [w[0]] + OfKind(w[1..], kind) == [w[0]];
    } else {
      assert w[0].kind != kind;
      assert w[1..][k - 1] == w[k];
      OneSpot(w[1..], kind, k - 1);
    }
  }

  lemma {:induction false} NoSpot(w: seq<Event>, kind: Kind)
    requires forall i | 0 <= i < |w| :: w[i].kind != kind
    ensures OfKind(w, kind) == []
  {
    if w != [] { NoSpot(w[1..], kind); }
  }

  lemma PickedIncreasing(p: seq<Event>)
    requires |p| == 7 && forall k | 0 < k < 7 :: p[k - 1].sequence < p[k].sequence
    ensures Increasing(p)
  {
    assert p[0].sequence < p[1].sequence < p[2].sequence < p[3].sequence < p[4].sequence < p[5].sequence < p[6].sequence;
  }

  lemma PickedIsWithout(chain: seq<Event>, e: Event)
    requires forall k | 0 <= k < 7 :: |OfKind(chain, LIFECYCLE[k])| == 1
    requires forall x | x in chain :: x.kind in LIFECYCLE || x.kind == RoutingDecided
    ensures e in Without(chain, RoutingDecided) <==> e in Picked(chain)
  {
    hide OfKind, Without;
    WithoutIn(chain, RoutingDecided, e);
    var p := Picked(chain);
    if e in Without(chain, RoutingDecided) {
      var k :| 0 <= k < 7 && LIFECYCLE[k] == e.kind;
      assert e in OfKind(chain, LIFECYCLE[k]);
      assert e == p[k];
    }
    if e in p {
      var k :| 0 <= k < 7 && p[k] == e;
      assert e in OfKind(chain, LIFECYCLE[k]);
      assert LIFECYCLE[k] != RoutingDecided;
    }
  }

  /** The chain that the reader accepts, less the routing event, is the picked events. */
  lemma ChainSorted(chain: seq<Event>, run: string, workspace: string)
    requires ChainOk(chain, run, workspace)
    ensures Without(chain, RoutingDecided) == Picked(chain)
  {
    hide OfKind, Without, Picked, Linked;
    var w, p := Without(chain, RoutingDecided), Picked(chain);
    LinkedIncreasing(chain, run, workspace);
    WithoutIncreasing(chain, RoutingDecided);
    PickedIncreasing(p);
    forall e ensures e in w <==> e in p { PickedIsWithout(chain, e); }
    SameSorted(w, p);
  }

  /** The reader's checks say exactly that the chain, less at most one routing event wherever
      it stands, is the seven lifecycle events in order, each caused by the one before. */
  lemma ChainExact(chain: seq<Event>, run: string, workspace: string)
    ensures ChainOk(chain, run, workspace) <==> ChainIs(chain, run, workspace)
  {
    if ChainOk(chain, run, workspace) { ChainOkIs(chain, run, workspace); }
    if ChainIs(chain, run, workspace) { ChainIsOk(chain, run, workspace); }
  }

  lemma ChainOkIs(chain: seq<Event>, run: string, workspace: string)
    requires ChainOk(chain, run, workspace)
    ensures ChainIs(chain, run, workspace)
  {
    var w := Without(chain, RoutingDecided);
    KindSizes(chain, RoutingDecided);
    ChainSorted(chain, run, workspace);
    hide Without, Linked;
    forall k | 0 <= k < 7 ensures w[k].kind == LIFECYCLE[k] { assert w[k] in OfKind(chain, LIFECYCLE[k]); }
    assert Kinds(w) == LIFECYCLE;
  }

  lemma ChainIsOk(chain: seq<Event>, run: string, workspace: string)
    requires ChainIs(chain, run, workspace)
    ensures ChainOk(chain, run, workspace)
  {
    hide OfKind, Without, Linked;
    var w := Without(chain, RoutingDecided);
    KindSizes(chain, RoutingDecided);
    KindsAt(w);
    LinkedIncreasing(chain, run, workspace);
    WithoutIncreasing(chain, RoutingDecided);
    forall k | 0 <= k < 7 ensures OfKind(chain, LIFECYCLE[k]) == [w[k]] {
      OneOfEach(w, k);
      KindOfWithout(chain, LIFECYCLE[k], RoutingDecided);
    }
    forall e | e in chain ensures e.kind in LIFECYCLE || e.kind == RoutingDecided {
      if e.kind != RoutingDecided {
        WithoutIn(chain, RoutingDecided, e);
        var i :| 0 <= i < |w| && w[i] == e;
        assert e.kind == LIFECYCLE[i];
      }
    }
  }

  // ---------------------------------------------------------------- judging one run

  datatype Judgement = Positive | Negative | Unclear

  /** `readSealedRun`: an intact, sealed run with events in the workspace. */
  predicate Sealed(r: Run, workspace: string) { r.intact && r.sealed && InWorkspace(r.events, workspace) != [] }

  /** The run did this candidate of this task, under the bound prediction, and its policy
      allowed it. */
  predicate Started(p: seq<Event>, t: Ticket, spec: Spec, op: Operation)
    requires |p| == 7
  {
    && p[0].body.Begin? && p[0].body.taskId == spec.id && p[0].body.operationType == "replace_text"
    && p[0].body.allowedPaths == spec.allowedPaths && (t.predecision.Some? ==> p[0].body.predecision == t.predecision.value)
    && p[1].body.Proposed? && p[1].body.operationType == "replace_text" && p[1].body.path == op.path
    && p[1].body.findHash == op.findHash && p[1].body.replaceHash == op.replaceHash
    && p[2].body.Policy? && p[2].body.allow
  }

  /** It changed the candidate's file only, with its proofs, and ran the task's own test. */
  predicate Finished(p: seq<Event>, spec: Spec, op: Operation)
    requires |p| == 7
  {
    && p[4].body.Finished? && |p[4].body.changes| == 1 && p[4].body.changes[0].path == op.path && p[4].body.changes[0].hashed
    && p[5].body.Verified? && p[5].body.proofs.integrity && p[5].body.proofs.provenance && p[5].body.proofs.permission
    && p[6].body.Closed? && p[6].body.test.Some?
    && var test := p[6].body.test.value; test.ran && test.commandHash == spec.testHash && !test.signal
  }

  predicate Succeeded(p: seq<Event>, outcome: string)
    requires |p| == 7 && p[5].body.Verified? && p[6].body.Closed? && p[6].body.test.Some?
  {
    var closed, test := p[6].body, p[6].body.test.value;
    && test.ok && test.exitCode == 0 && test.reason == None
    && closed.kept == Some(true) && closed.rolledBack == Some(false) && closed.outcome == "verified" && outcome == "verified"
    && closed.execution == "completed" && closed.verdict == "complete"
    && p[5].body.verified && p[5].body.proofs.coverage && p[5].body.proofs.verification
  }

  predicate Restored(p: seq<Event>, outcome: string, op: Operation)
    requires |p| == 7 && p[4].body.Finished? && p[6].body.Closed? && p[6].body.test.Some?
  {
    var closed, test := p[6].body, p[6].body.test.value;
    && !test.ok && test.exitCode == 1 && test.reason == Some("TEST_FAILED")
    && closed.kept == Some(false) && closed.rolledBack == Some(true) && closed.execution == "failed"
    && closed.outcome != "verified" && outcome == closed.outcome && closed.verdict == "incomplete"
    && closed.checks.Some? && |closed.checks.value| == |p[4].body.changes|
    && forall c | c in closed.checks.value :: c.path == op.path && c.restored
  }

  /** What one candidate's run shows. */
  function Judge(j: Journal, t: Ticket, spec: Spec, i: nat): Judgement
    requires i < |spec.candidates| <= 8
  {
    var r, op := RunOf(j, RunId(t, i)), spec.candidates[i];
    var chain := InWorkspace(r.events, t.workspace);
    if !Sealed(r, t.workspace) || !ChainOk(chain, RunId(t, i), t.workspace) then Unclear
    else
      var p := Picked(chain);
      if !Started(p, t, spec, op) || !Finished(p, spec, op) then Unclear
      else if Succeeded(p, r.outcome) then Positive
      else if Restored(p, r.outcome, op) then Negative
      else Unclear
  }

  /** No event was ever written for a candidate. */
  predicate Untouched(j: Journal, t: Ticket, i: nat)
    requires i < 8
  {
    RunOf(j, RunId(t, i)).intact && RunOf(j, RunId(t, i)).events == []
  }

  // ---------------------------------------------------------------- the verdict

  datatype Verdict = Confirmed(at: nat) | Contradiction(at: nat)

  /** `readOrdinaryAcceptance` from candidate `i` on. */
  function From(j: Journal, t: Ticket, spec: Spec, i: nat, selected: Option<Verdict>): Option<Verdict>
    requires i <= |spec.candidates| <= 8
    decreases |spec.candidates| - i
  {
    if i == |spec.candidates| then selected
    else if selected.Some? then (if Untouched(j, t, i) then From(j, t, spec, i + 1, selected) else None)
    else
      match Judge(j, t, spec, i)
      case Unclear => None
      case Positive => From(j, t, spec, i + 1, Some(Confirmed(i)))
      case Negative => From(j, t, spec, i + 1, if i == |spec.candidates| - 1 then Some(Contradiction(i)) else None)
  }

  function Acceptance(j: Journal, t: Ticket, spec: Spec): Option<Verdict> {
    if 1 <= |spec.candidates| <= 8 then From(j, t, spec, 0, None) else None
  }

  /** Candidate `at` succeeded, after all earlier ones failed and were undone, and nothing was
      tried after it. */
  ghost predicate ConfirmedAt(j: Journal, t: Ticket, spec: Spec, at: nat)
    requires |spec.candidates| <= 8
  {
    && at < |spec.candidates| && Judge(j, t, spec, at) == Positive
    && (forall k | 0 <= k < at :: Judge(j, t, spec, k) == Negative)
    && (forall k | at < k < |spec.candidates| :: Untouched(j, t, k))
  }

  ghost predicate AllUndone(j: Journal, t: Ticket, spec: Spec)
    requires |spec.candidates| <= 8
  {
    forall k | 0 <= k < |spec.candidates| :: Judge(j, t, spec, k) == Negative
  }

  lemma {:induction false} SelectedStays(j: Journal, t: Ticket, spec: Spec, i: nat, v: Verdict)
    requires i <= |spec.candidates| <= 8
    ensures From(j, t, spec, i, Some(v)) ==
      if forall k | i <= k < |spec.candidates| :: Untouched(j, t, k) then Some(v) else None
    decreases |spec.candidates| - i
  {
    hide Untouched;
    if i < |spec.candidates| && Untouched(j, t, i) { SelectedStays(j, t, spec, i + 1, v); }
  }

  lemma {:induction false} FromExact(j: Journal, t: Ticket, spec: Spec, i: nat)
    requires i < |spec.candidates| <= 8 && forall k | 0 <= k < i :: Judge(j, t, spec, k) == Negative
    ensures forall at :: From(j, t, spec, i, None) == Some(Confirmed(at)) <==> ConfirmedAt(j, t, spec, at)
    ensures forall at :: From(j, t, spec, i, None) == Some(Contradiction(at)) <==>
      at == |spec.candidates| - 1 && AllUndone(j, t, spec)
    decreases |spec.candidates| - i
  {
    hide Judge, Untouched;
    match Judge(j, t, spec, i)
    case Unclear =>
    case Positive => SelectedStays(j, t, spec, i + 1, Confirmed(i));
    case Negative =>
      if i == |spec.candidates| - 1 { SelectedStays(j, t, spec, i + 1, Contradiction(i)); }
      else { FromExact(j, t, spec, i + 1); }
  }

  /** What each verdict means, and that nothing else gets it. */
  lemma VerdictExact(j: Journal, t: Ticket, spec: Spec)
    requires 1 <= |spec.candidates| <= 8
    ensures forall at :: Acceptance(j, t, spec) == Some(Confirmed(at)) <==> ConfirmedAt(j, t, spec, at)
    ensures (exists at :: Acceptance(j, t, spec) == Some(Contradiction(at))) <==> AllUndone(j, t, spec)
  {
    hide From;
    FromExact(j, t, spec, 0);
    if AllUndone(j, t, spec) { assert Acceptance(j, t, spec) == Some(Contradiction(|spec.candidates| - 1)); }
  }

  /** A run that counts is sealed and intact, and its life is the seven events in order, with
      at most one routing event. */
  lemma JudgedRun(j: Journal, t: Ticket, spec: Spec, i: nat)
    requires i < |spec.candidates| <= 8 && Judge(j, t, spec, i) != Unclear
    ensures var r := RunOf(j, RunId(t, i)); var chain := InWorkspace(r.events, t.workspace);
      r.intact && r.sealed && ChainIs(chain, RunId(t, i), t.workspace) && Without(chain, RoutingDecided) == Picked(chain)
  {
    hide ChainOk, ChainIs, Without, Started, Finished, Succeeded, Restored;
    var chain := InWorkspace(RunOf(j, RunId(t, i)).events, t.workspace);
    ChainExact(chain, RunId(t, i), t.workspace);
    ChainSorted(chain, RunId(t, i), t.workspace);
  }

  /** The life of a candidate's run. */
  function Life(j: Journal, t: Ticket, i: nat): seq<Event>
    requires i < 8
  {
    Without(InWorkspace(RunOf(j, RunId(t, i)).events, t.workspace), RoutingDecided)
  }

  /** A life that tried just this candidate of this task: it was begun for it under the
      prediction the ticket is asked with, proposed exactly its edit, was allowed, and changed
      its file and no other. */
  ghost predicate Tried(life: seq<Event>, t: Ticket, spec: Spec, op: Operation) {
    && |life| == 7
    && (exists header :: life[0].body == Begin(spec.id, "replace_text", spec.allowedPaths, header)
          && (t.predecision.Some? ==> header == t.predecision.value))
    && life[1].body == Proposed("replace_text", op.path, op.findHash, op.replaceHash)
    && life[2].body == Policy(true)
    && life[4].body == Body.Finished([Change(op.path, true)])
  }

  /** What a counted life shows: the task's own test ran; a success passed it, is kept, fully
      proved, and verified in the sealed manifest too; a failure failed it, is not kept, and
      every change it made was restored. */
  ghost predicate Shows(life: seq<Event>, outcome: string, spec: Spec, success: bool) {
    && |life| == 7 && life[4].body.Finished? && life[5].body.Verified? && life[6].body.Closed?
    && var closed, proofs := life[6].body, life[5].body.proofs;
    && closed.test == Some(Test(true, spec.testHash, false, success, if success then 0 else 1,
                                if success then None else Some("TEST_FAILED")))
    && closed.kept == Some(success) && closed.rolledBack == Some(!success)
    && closed.execution == (if success then "completed" else "failed")
    && closed.verdict == (if success then "complete" else "incomplete")
    && closed.outcome == outcome && (success <==> outcome == "verified")
    && proofs.integrity && proofs.provenance && proofs.permission
    && (success ==> life[5].body.verified && proofs.coverage && proofs.verification)
    && (!success ==> closed.checks.Some? && |closed.checks.value| == |life[4].body.changes|)
    && (!success ==> forall c | c in life[4].body.changes :: Check(c.path, true) in closed.checks.value)
  }

  lemma TriedIs(p: seq<Event>, t: Ticket, spec: Spec, op: Operation)
    requires |p| == 7
    ensures Started(p, t, spec, op) && Finished(p, spec, op) ==> Tried(p, t, spec, op)
    ensures Tried(p, t, spec, op) ==> Started(p, t, spec, op)
  {
    if Started(p, t, spec, op) && Finished(p, spec, op) {
      assert p[0].body == Begin(spec.id, "replace_text", spec.allowedPaths, p[0].body.predecision);
      assert p[4].body.changes == [Change(op.path, true)];
    }
  }

  lemma ShowsIs(p: seq<Event>, outcome: string, t: Ticket, spec: Spec, op: Operation)
    requires |p| == 7
    ensures Finished(p, spec, op) && Succeeded(p, outcome) ==> Shows(p, outcome, spec, true)
    ensures Finished(p, spec, op) && Restored(p, outcome, op) ==> Shows(p, outcome, spec, false)
    ensures Tried(p, t, spec, op) && Shows(p, outcome, spec, true) ==> Finished(p, spec, op) && Succeeded(p, outcome)
    ensures Tried(p, t, spec, op) && Shows(p, outcome, spec, false) ==> Finished(p, spec, op) && Restored(p, outcome, op)
    ensures Finished(p, spec, op) && Restored(p, outcome, op) ==> !Succeeded(p, outcome)
  {
    if Finished(p, spec, op) && Restored(p, outcome, op) {
      var checks := p[6].body.checks.value;
      assert checks[0] in checks;
      assert checks[0] == Check(p[4].body.changes[0].path, true);
    }
    if Tried(p, t, spec, op) && Shows(p, outcome, spec, false) {
      assert p[4].body.changes[0] == Change(op.path, true) && p[4].body.changes[0] in p[4].body.changes;
      var checks := p[6].body.checks.value;
      assert checks == [checks[0]] && Check(op.path, true) in checks;
    }
  }

  /** A record that the reader looks at: sealed and intact, its events in the workspace the
      lifecycle's seven in order with at most one routing event. */
  ghost predicate Counted(j: Journal, t: Ticket, i: nat)
    requires i < 8
  {
    var r := RunOf(j, RunId(t, i));
    r.intact && r.sealed && ChainIs(InWorkspace(r.events, t.workspace), RunId(t, i), t.workspace)
  }

  /** Exactly which runs count: a sealed life that tried the candidate and shows a success,
      or shows a failure whose changes were undone; any other is unclear. */
  lemma JudgedExact(j: Journal, t: Ticket, spec: Spec, i: nat)
    requires i < |spec.candidates| <= 8
    ensures var life, outcome := Life(j, t, i), RunOf(j, RunId(t, i)).outcome;
      var tried := Counted(j, t, i) && Tried(life, t, spec, spec.candidates[i]);
      && (Judge(j, t, spec, i) == Positive <==> tried && Shows(life, outcome, spec, true))
      && (Judge(j, t, spec, i) == Negative <==> tried && Shows(life, outcome, spec, false))
  {
    hide ChainIs, Without, Started, Finished, Succeeded, Restored, Picked, Shows, Tried, Linked, InWorkspace, OfKind;
    var r, op := RunOf(j, RunId(t, i)), spec.candidates[i];
    var chain := InWorkspace(r.events, t.workspace);
    ChainExact(chain, RunId(t, i), t.workspace);
    if ChainOk(chain, RunId(t, i), t.workspace) {
      ChainSorted(chain, RunId(t, i), t.workspace);
      var p := Picked(chain);
      TriedIs(p, t, spec, op);
      ShowsIs(p, r.outcome, t, spec, op);
      NotBoth(p, r.outcome, spec);
      NotEmpty(chain, RunId(t, i), t.workspace);
    }
  }

  /** A counted run tried its candidate, under the prediction that the ticket is asked with. */
  lemma JudgedStart(j: Journal, t: Ticket, spec: Spec, i: nat)
    requires i < |spec.candidates| <= 8 && Judge(j, t, spec, i) != Unclear
    ensures var life := Life(j, t, i);
      && Tried(life, t, spec, spec.candidates[i])
      && life[0].body.Begin? && life[0].body.taskId == spec.id
      && (t.predecision.Some? ==> life[0].body.predecision == t.predecision.value)
  {
    hide Judge, Life, Counted, Shows;
    JudgedExact(j, t, spec, i);
  }

  lemma JudgedOutcome(j: Journal, t: Ticket, spec: Spec, i: nat)
    requires i < |spec.candidates| <= 8 && Judge(j, t, spec, i) != Unclear
    ensures Shows(Life(j, t, i), RunOf(j, RunId(t, i)).outcome, spec, Judge(j, t, spec, i) == Positive)
  {
    hide Judge, Life, Counted, Shows, Tried;
    JudgedExact(j, t, spec, i);
  }

  lemma NotBoth(p: seq<Event>, outcome: string, spec: Spec)
    ensures !(Shows(p, outcome, spec, true) && Shows(p, outcome, spec, false))
  {
  }

  lemma NotEmpty(chain: seq<Event>, run: string, workspace: string)
    requires ChainIs(chain, run, workspace)
    ensures chain != []
  {
  }

  // ---------------------------------------------------------------- where routing may stand

  /** What the events of a verified run say. */
  function VerifiedBody(t: Ticket, spec: Spec, op: Operation, k: nat): Body {
    match k
    case 0 => Begin(spec.id, "replace_text", spec.allowedPaths, if t.predecision.Some? then t.predecision.value else None)
    case 1 => Proposed("replace_text", op.path, op.findHash, op.replaceHash)
    case 2 => Policy(true)
    case 4 => Body.Finished([Change(op.path, true)])
    case 5 => Verified(true, Proofs(true, true, true, true, true))
    case 6 => Closed(Some(Test(true, spec.testHash, false, true, 0, None)), Some(true), Some(false), None, "completed", "verified", "complete")
    case _ => NoBody
  }

  /** The events of a verified run with a routing event at position `at`. */
  function Routed(t: Ticket, spec: Spec, op: Operation, run: string, at: nat, n: nat): Event
    requires at <= 7 && n <= 7
  {
    var k := if n < at then n else n - 1;
    Event(if n == at then RoutingDecided else LIFECYCLE[k], n, seq(n, _ => '+'),
          if n == 0 then None else Some(seq(n - 1, _ => '+')), run, t.workspace,
          if n == at then NoBody else VerifiedBody(t, spec, op, k))
  }

  function RoutedAt(t: Ticket, spec: Spec, op: Operation, run: string, at: nat): (chain: seq<Event>)
    requires at <= 7
    ensures |chain| == 8 && forall n | 0 <= n < 8 :: chain[n] == Routed(t, spec, op, run, at, n)
  {
    seq(8, n requires 0 <= n < 8 => Routed(t, spec, op, run, at, n))
  }

  lemma {:induction false} WithoutOne(chain: seq<Event>, kind: Kind, at: nat)
    requires at < |chain| && forall n | 0 <= n < |chain| :: chain[n].kind == kind <==> n == at
    ensures Without(chain, kind) == chain[..at] + chain[at + 1..]
  {
    if at == 0 {
      WithoutNone(chain[1..], kind);
    } else {
      WithoutOne(chain[1..], kind, at - 1);
      assert chain[..at] == [chain[0]] + chain[1..][..at - 1] && chain[at + 1..] == chain[1..][at..];
    }
  }

  lemma {:induction false} WithoutNone(chain: seq<Event>, kind: Kind)
    requires forall i | 0 <= i < |chain| :: chain[i].kind != kind
    ensures Without(chain, kind) == chain
  {
    if chain != [] { WithoutNone(chain[1..], kind); }
  }

  lemma {:induction false} AllInWorkspace(events: seq<Event>, workspace: string)
    requires forall e | e in events :: e.workspace == workspace
    ensures InWorkspace(events, workspace) == events
  {
    if events != [] {
      assert events[0] in events;
      AllInWorkspace(events[1..], workspace);
    }
  }

  lemma RoutedLinked(t: Ticket, spec: Spec, op: Operation, run: string, at: nat)
    requires at <= 7
    ensures Linked(RoutedAt(t, spec, op, run, at), run, t.workspace)
  {
    hide VerifiedBody, RoutedAt;
  }

  lemma RoutedLife(t: Ticket, spec: Spec, op: Operation, run: string, at: nat)
    requires at <= 7
    ensures var life := Without(RoutedAt(t, spec, op, run, at), RoutingDecided);
      |life| == 7 && forall k | 0 <= k < 7 :: life[k].kind == LIFECYCLE[k] && life[k].body == VerifiedBody(t, spec, op, k)
  {
    var chain := RoutedAt(t, spec, op, run, at);
    assert forall k | 0 <= k < 7 :: LIFECYCLE[k] != RoutingDecided;
    assert forall n | 0 <= n < 8 :: chain[n].kind == RoutingDecided <==> n == at;
    hide Without, VerifiedBody, RoutedAt;
    WithoutOne(chain, RoutingDecided, at);
    var life := chain[..at] + chain[at + 1..];
    forall k | 0 <= k < 7 ensures life[k] == Routed(t, spec, op, run, at, if k < at then k else k + 1) {}
  }

  lemma RoutedChain(t: Ticket, spec: Spec, op: Operation, run: string, at: nat)
    requires at <= 7
    ensures var chain := RoutedAt(t, spec, op, run, at);
      && ChainOk(chain, run, t.workspace)
      && forall k | 0 <= k < 7 :: Picked(chain)[k].body == VerifiedBody(t, spec, op, k)
  {
    var chain := RoutedAt(t, spec, op, run, at);
    hide ChainOk, Without, Linked, VerifiedBody, RoutedAt, Picked, Routed;
    RoutedLife(t, spec, op, run, at);
    RoutedLinked(t, spec, op, run, at);
    assert Kinds(Without(chain, RoutingDecided)) == LIFECYCLE;
    ChainExact(chain, run, t.workspace);
    ChainSorted(chain, run, t.workspace);
  }

  /** Nothing fixes where the routing event stands: at each of its eight places, before the
      run's start and after its end included, the reader credits the run. */
  lemma RoutingAnywhere(t: Ticket, spec: Spec, i: nat, at: nat)
    requires i < |spec.candidates| <= 8 && at <= 7
    ensures var events := RoutedAt(t, spec, spec.candidates[i], RunId(t, i), at);
      events[at].kind == RoutingDecided
      && Judge(map[RunId(t, i) := Run(events, true, "verified", true)], t, spec, i) == Positive
  {
    var op, run := spec.candidates[i], RunId(t, i);
    var events := RoutedAt(t, spec, op, run, at);
    assert events[at] == Routed(t, spec, op, run, at, at);
    assert forall n | 0 <= n < 8 :: Routed(t, spec, op, run, at, n).workspace == t.workspace;
    hide *;
    RoutedChain(t, spec, op, run, at);
    AllInWorkspace(events, t.workspace);
    VerifiedCredited(Picked(events), t, spec, op);
    JudgedPositive(t, spec, i, events);
  }

  lemma JudgedPositive(t: Ticket, spec: Spec, i: nat, events: seq<Event>)
    requires i < |spec.candidates| <= 8 && events != [] && InWorkspace(events, t.workspace) == events
    requires ChainOk(events, RunId(t, i), t.workspace) && Started(Picked(events), t, spec, spec.candidates[i])
    requires Finished(Picked(events), spec, spec.candidates[i]) && Succeeded(Picked(events), "verified")
    ensures Judge(map[RunId(t, i) := Run(events, true, "verified", true)], t, spec, i) == Positive
  {
    hide ChainOk, Picked, Started, Finished, Succeeded, InWorkspace, RunId;
  }

  lemma VerifiedCredited(p: seq<Event>, t: Ticket, spec: Spec, op: Operation)
    requires |p| == 7 && forall k | 0 <= k < 7 :: p[k].body == VerifiedBody(t, spec, op, k)
    ensures Started(p, t, spec, op) && Finished(p, spec, op) && Succeeded(p, "verified")
  {
  }

  // ---------------------------------------------------------------- the reader

  /** The reader's loop over the candidates. */
  method ReadAcceptance(j: Journal, t: Ticket, spec: Spec) returns (r: Option<Verdict>)
    ensures r == Acceptance(j, t, spec)
    ensures 1 <= |spec.candidates| <= 8 ==>
      forall at :: r == Some(Confirmed(at)) <==> ConfirmedAt(j, t, spec, at)
  {
    hide Judge, Untouched, ConfirmedAt, AllUndone;
    var n := |spec.candidates|;
    if n < 1 || n > 8 { return None; }
    VerdictExact(j, t, spec);
    var selected: Option<Verdict> := None;
    var index := 0;
    while index < n
      invariant 0 <= index <= n
      invariant Acceptance(j, t, spec) == From(j, t, spec, index, selected)
    {
      if selected.Some? {
        if !Untouched(j, t, index) { return None; }
      } else {
        var judged := Judge(j, t, spec, index);
        if judged == Unclear { return None; }
        if judged == Positive { selected := Some(Confirmed(index)); }
        else if index == n - 1 { selected := Some(Contradiction(index)); }
      }
      index := index + 1;
    }
    return selected;
  }
}
