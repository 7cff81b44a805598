/** The request protocol of the Rust bridge, over the framing of RustFraming.

    Events arrive in any order: sends, stdout chunks, timer expiries, process exits
    and errors, and `destroy`.  `Step` says what each one does to the bridge's fields
    and which promises it settles; class `RustGraph` is the code; the theorems are about
    every sequence of events. */
module RustBridge {
  import opened Utf8
  import opened RustFraming

  /** What the dispatch loop sees in a line.  `JsonNull` is a line that parses to null,
      on which reading `_reqId` throws. */
  datatype Parsed = Blank | NotJson | JsonNull | NoRequestId | Reply(id: int)

  type Parser = string -> Parsed

  datatype Outcome = Answered(line: string) | Failed(error: string)

  /** A promise given an id, and what it was resolved with. */
  datatype Settlement = Settlement(id: int, outcome: Outcome)

  datatype Bridge = Bridge(
    reader: Reader,
    pending: seq<int>,
    nextId: nat,
    up: bool,
    fallback: bool,
    issued: seq<int>,
    settled: seq<Settlement>)

  const INITIAL := Bridge(FRESH, [], 1, false, false, [], [])

  /** What `start` would find if it had to act. */
  datatype Start = Spawned | NoBinary

  datatype Event =
    | Send(start: Start)
    | Data(chunk: seq<Byte>)
    | Timeout(id: int)
    | Exit
    | ProcessError
    | Destroy

  // ---------------------------------------------------------------- steps

  /** A pending list without `id`.  The source keeps a Map, whose order is insertion
      order; deleting keeps the order of the others. */
  function Without(s: seq<int>, id: int): (r: seq<int>)
    ensures forall x :: x in r <==> x in s && x != id
  {
    if s == [] then [] else if s[0] == id then Without(s[1..], id) else [s[0]] + Without(s[1..], id)
  }

  function Settle(b: Bridge, id: int, o: Outcome): Bridge {
    b.(pending := Without(b.pending, id), settled := b.settled + [Settlement(id, o)])
  }

  /** `_rejectAll`: every pending promise fails, in the order of the sends. */
  function RejectAll(b: Bridge, error: string): Bridge
    decreases |b.pending|
  {
    b.(pending := [], settled := b.settled + FailAll(b.pending, error))
  }

  function FailAll(ids: seq<int>, error: string): (r: seq<Settlement>)
    ensures |r| == |ids| && forall i | 0 <= i < |ids| :: r[i] == Settlement(ids[i], Failed(error))
  {
    if ids == [] then [] else [Settlement(ids[0], Failed(error))] + FailAll(ids[1..], error)
  }

  function DispatchLine(b: Bridge, line: string, parse: Parser): Bridge {
    match parse(line)
    case Reply(id) => if id in b.pending then Settle(b, id, Answered(line)) else b
    case _ => b
  }

  /** The dispatch loop of `_onData`; a null line throws out of it. */
  function Dispatch(b: Bridge, lines: seq<string>, parse: Parser): Bridge
    decreases |lines|
  {
    if lines == [] || parse(lines[0]).JsonNull? then b
    else Dispatch(DispatchLine(b, lines[0], parse), lines[1..], parse)
  }

  function Started(b: Bridge, start: Start): Bridge {
    if b.up || b.fallback then b
    else if start.Spawned? then b.(up := true) else b.(fallback := true)
  }

  function Step(b: Bridge, e: Event, parse: Parser, cap: nat): Bridge {
    match e
    case Send(start) =>
      var s := Started(b, start);
      if s.fallback || !s.up then s
      else s.(nextId := s.nextId + 1, pending := s.pending + [s.nextId], issued := s.issued + [s.nextId])
    case Data(chunk) =>
      (match OnChunk(b.reader, chunk, cap)
       case Overflow(r) => RejectAll(b.(reader := r), "buffer_overflow")
       case Lines(r, lines) => Dispatch(b.(reader := r), lines, parse))
    case Timeout(id) => if id in b.pending then Settle(b, id, Failed("request_timeout")) else b
    case Exit => RejectAll(b.(up := false), "process_exited")
    case ProcessError => b.(fallback := true)
    case Destroy => b.(up := false, fallback := false, pending := [])
  }

  function After(events: seq<Event>, parse: Parser, cap: nat): Bridge {
    if events == [] then INITIAL
    else Step(After(events[..|events| - 1], parse, cap), events[|events| - 1], parse, cap)
  }

  // ---------------------------------------------------------------- invariant

  ghost predicate IsSettled(b: Bridge, id: int) { exists i :: 0 <= i < |b.settled| && b.settled[i].id == id }

  predicate Increasing(s: seq<int>) { forall i, j | 0 <= i < j < |s| :: s[i] < s[j] }

  /** Ids are issued 1, 2, 3, ...; a pending id is issued and unsettled; no id is
      settled twice; and a reply settles the request it names. */
  ghost predicate Inv(b: Bridge, parse: Parser) {
    && b.nextId == |b.issued| + 1
    && (forall i | 0 <= i < |b.issued| :: b.issued[i] == i + 1)
    && Increasing(b.pending)
    && (forall i | 0 <= i < |b.pending| :: b.pending[i] in b.issued && !IsSettled(b, b.pending[i]))
    && (forall i | 0 <= i < |b.settled| :: b.settled[i].id in b.issued)
    && (forall i, j | 0 <= i < j < |b.settled| :: b.settled[i].id != b.settled[j].id)
    && (forall i | 0 <= i < |b.settled| && b.settled[i].outcome.Answered? ::
          parse(b.settled[i].outcome.line) == Reply(b.settled[i].id))
  }

  /** Every request given an id is waiting or answered. */
  ghost predicate NoneLost(b: Bridge) {
    forall id | id in b.issued :: id in b.pending || IsSettled(b, id)
  }

  /** `b` is `a` with more promises settled, each of them pending in `a`. */
  ghost predicate Settles(a: Bridge, b: Bridge) {
    && a.settled <= b.settled
    && b.issued == a.issued && b.nextId == a.nextId
    && (forall id :: id in b.pending ==> id in a.pending)
    && (forall id | id in a.pending :: id in b.pending || IsSettled(b, id))
  }

  lemma {:induction false} WithoutIncreasing(s: seq<int>, id: int)
    requires Increasing(s)
    ensures Increasing(Without(s, id))
  {
    if s != [] {
      WithoutIncreasing(s[1..], id);
      var tail := Without(s[1..], id);
      if s[0] == id {
        assert Without(s, id) == tail;
      } else {
        assert Without(s, id) == [s[0]] + tail;
        forall k | 0 <= k < |tail| ensures s[0] < tail[k] { assert tail[k] in s[1..]; }
      }
    }
  }

  lemma SettleSettles(b: Bridge, id: int, o: Outcome)
    ensures Settles(b, Settle(b, id, o))
    ensures forall x :: IsSettled(Settle(b, id, o), x) <==> IsSettled(b, x) || x == id
  {
    var c := Settle(b, id, o);
    StaysSettled(b, c);
    assert c.settled[|b.settled|].id == id;
  }

  lemma SettleInv(b: Bridge, id: int, o: Outcome, parse: Parser)
    requires Inv(b, parse) && id in b.pending && (o.Answered? ==> parse(o.line) == Reply(id))
    ensures Inv(Settle(b, id, o), parse) && Settles(b, Settle(b, id, o))
  {
    var c := Settle(b, id, o);
    SettleSettles(b, id, o);
    WithoutIncreasing(b.pending, id);
    hide Without;
    forall i | 0 <= i < |b.settled| ensures b.settled[i].id != id {}
    forall i | 0 <= i < |c.pending| ensures c.pending[i] in c.issued && !IsSettled(c, c.pending[i]) {
      assert c.pending[i] in c.pending && c.pending[i] in b.pending;
    }
    assert c.nextId == |c.issued| + 1 && Increasing(c.pending);
    assert forall i | 0 <= i < |c.settled| :: c.settled[i].id in c.issued;
    assert forall i, j | 0 <= i < j < |c.settled| :: c.settled[i].id != c.settled[j].id;
    assert (forall i | 0 <= i < |c.settled| && c.settled[i].outcome.Answered? ::
          parse(c.settled[i].outcome.line) == Reply(c.settled[i].id));
  }

  lemma RejectAllInv(b: Bridge, error: string, parse: Parser)
    requires Inv(b, parse)
    ensures Inv(RejectAll(b, error), parse) && Settles(b, RejectAll(b, error))
  {
    var c := RejectAll(b, error);
    var n := |b.settled|;
    assert c.settled[..n] == b.settled;
    forall i | 0 <= i < |b.pending| ensures c.settled[n + i].id == b.pending[i] {
    }
    forall i | 0 <= i < |c.settled| ensures c.settled[i].id in b.issued {
      if n <= i { assert c.settled[i].id == b.pending[i - n]; }
    }
    forall i, j | 0 <= i < j < |c.settled| ensures c.settled[i].id != c.settled[j].id {
      if i < n <= j { assert c.settled[i].id == b.settled[i].id && c.settled[j].id == b.pending[j - n]; assert !IsSettled(b, b.pending[j - n]); }
    }
    forall id | id in b.pending ensures IsSettled(c, id) {
      var i :| 0 <= i < |b.pending| && b.pending[i] == id;
      assert c.settled[n + i].id == id;
    }
  }

  lemma SettlesTransitive(a: Bridge, b: Bridge, c: Bridge)
    requires Settles(a, b) && Settles(b, c)
    ensures Settles(a, c)
  {
    forall id | IsSettled(b, id) ensures IsSettled(c, id) {
      var i :| 0 <= i < |b.settled| && b.settled[i].id == id;
      assert c.settled[i].id == id;
    }
  }

  lemma {:induction false} DispatchInv(b: Bridge, lines: seq<string>, parse: Parser)
    requires Inv(b, parse)
    ensures Inv(Dispatch(b, lines, parse), parse) && Settles(b, Dispatch(b, lines, parse))
    decreases |lines|
  {
    if lines != [] && !parse(lines[0]).JsonNull? {
      var c := DispatchLine(b, lines[0], parse);
      if parse(lines[0]).Reply? && parse(lines[0]).id in b.pending {
        SettleInv(b, parse(lines[0]).id, Answered(lines[0]), parse);
      }
      DispatchInv(c, lines[1..], parse);
      SettlesTransitive(b, c, Dispatch(c, lines[1..], parse));
    }
  }

  lemma SendInv(b: Bridge, start: Start, parse: Parser, cap: nat)
    requires Inv(b, parse)
    ensures Good(b, Step(b, Send(start), parse, cap), parse, true)
  {
    var c := Step(b, Send(start), parse, cap);
    forall id ensures IsSettled(b, id) == IsSettled(c, id) {}
    forall i | 0 <= i < |b.settled| ensures b.settled[i].id != b.nextId {}
  }

  lemma DataInv(b: Bridge, chunk: seq<Byte>, parse: Parser, cap: nat)
    requires Inv(b, parse)
    ensures Good(b, Step(b, Data(chunk), parse, cap), parse, true)
  {
    hide OnChunk, Dispatch, RejectAll;
    var c := Step(b, Data(chunk), parse, cap);
    var d := b.(reader := OnChunk(b.reader, chunk, cap).reader);
    forall id ensures IsSettled(b, id) == IsSettled(d, id) {}
    assert Inv(d, parse);
    if OnChunk(b.reader, chunk, cap).Overflow? { RejectAllInv(d, "buffer_overflow", parse); }
    else { DispatchInv(d, OnChunk(b.reader, chunk, cap).lines, parse); }
    StaysSettled(d, c);
  }

  lemma ExitInv(b: Bridge, parse: Parser, cap: nat)
    requires Inv(b, parse)
    ensures Good(b, Step(b, Exit, parse, cap), parse, true)
  {
    hide RejectAll;
    var d := b.(up := false);
    forall id ensures IsSettled(b, id) == IsSettled(d, id) {}
    RejectAllInv(d, "process_exited", parse);
    StaysSettled(d, Step(b, Exit, parse, cap));
  }

  /** What one event keeps. */
  ghost predicate Good(b: Bridge, c: Bridge, parse: Parser, complete: bool) {
    && Inv(c, parse)
    && b.settled <= c.settled && b.issued <= c.issued
    && (NoneLost(b) && complete ==> NoneLost(c))
    && (forall id :: id in c.pending ==> id in b.pending || id == b.nextId)
  }

  /** Each event keeps the invariant, never takes back a settlement, and, unless it is
      `destroy`, loses no request. */
  lemma StepInv(b: Bridge, e: Event, parse: Parser, cap: nat)
    requires Inv(b, parse)
    ensures Good(b, Step(b, e, parse, cap), parse, !e.Destroy?)
  {
    hide RejectAll, Dispatch, Settle;
    var c := Step(b, e, parse, cap);
    match e
    case Send(start) => SendInv(b, start, parse, cap);
    case Data(chunk) => DataInv(b, chunk, parse, cap);
    case Timeout(id) =>
      if id in b.pending {
        SettleInv(b, id, Failed("request_timeout"), parse);
        StaysSettled(b, c);
      }
    case Exit => ExitInv(b, parse, cap);
    case ProcessError =>
      forall id ensures IsSettled(b, id) == IsSettled(c, id) {}
    case Destroy =>
      forall id ensures IsSettled(b, id) == IsSettled(c, id) {}
  }

  lemma StaysSettled(b: Bridge, c: Bridge)
    requires b.settled <= c.settled
    ensures forall id | IsSettled(b, id) :: IsSettled(c, id)
  {
    forall id | IsSettled(b, id) ensures IsSettled(c, id) {
      var i :| 0 <= i < |b.settled| && b.settled[i].id == id;
      assert c.settled[i].id == id;
    }
  }

  // ---------------------------------------------------------------- every run

  /** In every interleaving: ids strictly increase, no id is settled twice, no id is
      both pending and settled, and an answer is a line that names its own request. */
  lemma {:induction false} RunInv(events: seq<Event>, parse: Parser, cap: nat)
    ensures Inv(After(events, parse, cap), parse)
  {
    if events != [] {
      RunInv(events[..|events| - 1], parse, cap);
      StepInv(After(events[..|events| - 1], parse, cap), events[|events| - 1], parse, cap);
    }
  }

  /** Until `destroy`, every request given an id is either pending or settled. */
  lemma {:induction false} NothingLostBeforeDestroy(events: seq<Event>, parse: Parser, cap: nat)
    requires Destroy !in events
    ensures NoneLost(After(events, parse, cap))
    ensures forall id | id in After(events, parse, cap).pending :: !IsSettled(After(events, parse, cap), id)
  {
    hide Step;
    RunInv(events, parse, cap);
    if events != [] {
      NothingLostBeforeDestroy(events[..|events| - 1], parse, cap);
      RunInv(events[..|events| - 1], parse, cap);
      StepInv(After(events[..|events| - 1], parse, cap), events[|events| - 1], parse, cap);
    }
  }

  /** A settlement is final: a longer run has it at the same place, with the same outcome. */
  lemma {:induction false} SettledForGood(events: seq<Event>, more: seq<Event>, parse: Parser, cap: nat)
    ensures After(events, parse, cap).settled <= After(events + more, parse, cap).settled
    ensures After(events, parse, cap).issued <= After(events + more, parse, cap).issued
    decreases |more|
  {
    hide Step, Inv;
    if more == [] {
      assert events + more == events;
    } else {
      var all := events + more;
      assert all[..|all| - 1] == events + more[..|more| - 1] && all[|all| - 1] == more[|more| - 1];
      SettledForGood(events, more[..|more| - 1], parse, cap);
      RunInv(all[..|all| - 1], parse, cap);
      StepInv(After(all[..|all| - 1], parse, cap), all[|all| - 1], parse, cap);
    }
  }

  /** What `destroy` drops stays unanswered: a request pending at that moment is
      settled in no continuation of the run. */
  lemma {:induction false} DestroyForgets(events: seq<Event>, more: seq<Event>, id: int, parse: Parser, cap: nat)
    requires id in After(events, parse, cap).pending
    ensures var c := After(events + [Destroy] + more, parse, cap); id in c.issued && id !in c.pending && !IsSettled(c, id)
    decreases |more|
  {
    hide RejectAll, Dispatch, Settle, OnChunk;
    var all := events + [Destroy] + more;
    var prefix, e := all[..|all| - 1], all[|all| - 1];
    RunInv(all, parse, cap);
    RunInv(prefix, parse, cap);
    var b := After(prefix, parse, cap);
    StepInv(b, e, parse, cap);
    if more == [] {
      assert prefix == events && e == Destroy;
      assert !IsSettled(b, id);
    } else {
      assert prefix == events + [Destroy] + more[..|more| - 1];
      DestroyForgets(events, more[..|more| - 1], id, parse, cap);
      OnlyPendingSettles(b, e, id, parse, cap);
    }
  }

  lemma OnlyPendingSettles(b: Bridge, e: Event, id: int, parse: Parser, cap: nat)
    requires Inv(b, parse) && id in b.issued && id !in b.pending && !IsSettled(b, id)
    ensures !IsSettled(Step(b, e, parse, cap), id) && id !in Step(b, e, parse, cap).pending
  {
    hide OnChunk, Dispatch;
    var c := Step(b, e, parse, cap);
    StepInv(b, e, parse, cap);
    match e
    case Data(chunk) =>
      var d := b.(reader := OnChunk(b.reader, chunk, cap).reader);
      assert !IsSettled(d, id) && Inv(d, parse) by { forall x ensures IsSettled(b, x) == IsSettled(d, x) {} }
      if OnChunk(b.reader, chunk, cap).Lines? { DispatchOnlyPending(d, OnChunk(b.reader, chunk, cap).lines, id, parse); }
    case _ =>
  }

  lemma {:induction false} DispatchOnlyPending(b: Bridge, lines: seq<string>, id: int, parse: Parser)
    requires id !in b.pending && !IsSettled(b, id)
    ensures !IsSettled(Dispatch(b, lines, parse), id)
    decreases |lines|
  {
    if lines != [] && !parse(lines[0]).JsonNull? {
      DispatchOnlyPending(DispatchLine(b, lines[0], parse), lines[1..], id, parse);
    }
  }

  // ---------------------------------------------------------------- what each event settles

  /** The first line to name request `id` is `lines[k]`, and no null line comes before it. */
  ghost predicate FirstReplyAt(lines: seq<string>, parse: Parser, id: int, k: nat) {
    && k < |lines| && parse(lines[k]) == Reply(id)
    && (forall j | 0 <= j < k :: parse(lines[j]) != Reply(id) && !parse(lines[j]).JsonNull?)
  }

  ghost predicate HasReply(lines: seq<string>, parse: Parser, id: int) {
    exists k: nat :: FirstReplyAt(lines, parse, id, k)
  }

  /** From `b` to `t` every pending request has failed with `error`, in the order of the
      sends, and nothing else was settled. */
  ghost predicate AllFailed(b: Bridge, t: Bridge, error: string) {
    && t.pending == []
    && b.settled <= t.settled && |t.settled| == |b.settled| + |b.pending|
    && (forall i | 0 <= i < |b.pending| :: t.settled[|b.settled| + i] == Settlement(b.pending[i], Failed(error)))
  }

  /** Of the requests pending before, `lines` answer just those they name: each once, with
      the first line that names it, and in the order of those lines. */
  ghost predicate Answers(before: seq<int>, after: seq<int>, news: seq<Settlement>, lines: seq<string>, parse: Parser) {
    && (forall id :: id in after <==> id in before && !HasReply(lines, parse, id))
    && (forall id, k: nat | id in before && FirstReplyAt(lines, parse, id, k) :: Settlement(id, Answered(lines[k])) in news)
    && (forall i | 0 <= i < |news| :: news[i].id in before && HasReply(lines, parse, news[i].id))
    && InOrder(news, lines, parse)
  }

  ghost predicate InOrder(news: seq<Settlement>, lines: seq<string>, parse: Parser) {
    forall i, j, k: nat, l: nat | 0 <= i < j < |news|
      && FirstReplyAt(lines, parse, news[i].id, k) && FirstReplyAt(lines, parse, news[j].id, l) :: k < l
  }

  lemma Next(events: seq<Event>, e: Event, parse: Parser, cap: nat)
    ensures After(events + [e], parse, cap) == Step(After(events, parse, cap), e, parse, cap)
  {
    hide Step;
    assert (events + [e])[..|events|] == events;
  }

  /** A timeout settles its own request and no other, and nothing when that request is
      no longer waiting. */
  lemma TimeoutSettlesItsOwn(events: seq<Event>, id: int, parse: Parser, cap: nat)
    ensures var b, t := After(events, parse, cap), After(events + [Timeout(id)], parse, cap);
      && t.settled == b.settled + (if id in b.pending then [Settlement(id, Failed("request_timeout"))] else [])
      && (forall x :: x in t.pending <==> x in b.pending && x != id)
      && (forall x | x != id :: IsSettled(t, x) <==> IsSettled(b, x))
      && t.up == b.up && t.fallback == b.fallback && t.issued == b.issued
  {
    var b, t := After(events, parse, cap), After(events + [Timeout(id)], parse, cap);
    Next(events, Timeout(id), parse, cap);
    hide After, Without;
    if id in b.pending { SettleSettles(b, id, Failed("request_timeout")); }
  }

  /** The exit of the process fails every waiting request; a chunk that passes the cap
      does too, and each says why. */
  lemma EndsFailAll(events: seq<Event>, chunk: seq<Byte>, parse: Parser, cap: nat)
    ensures var b, t := After(events, parse, cap), After(events + [Exit], parse, cap);
      AllFailed(b, t, "process_exited") && !t.up && t.fallback == b.fallback && t.issued == b.issued
    ensures var b, t := After(events, parse, cap), After(events + [Data(chunk)], parse, cap);
      OnChunk(b.reader, chunk, cap).Overflow? ==>
        AllFailed(b, t, "buffer_overflow") && t.up == b.up && t.fallback == b.fallback && t.issued == b.issued
  {
    Next(events, Exit, parse, cap);
    Next(events, Data(chunk), parse, cap);
    hide After, OnChunk, Dispatch;
  }

  /** A chunk within the cap answers the pending requests its lines name before a null
      line, each once, with the first such line, and no others. */
  lemma RepliesSettleTheirOwn(events: seq<Event>, chunk: seq<Byte>, parse: Parser, cap: nat)
    requires OnChunk(After(events, parse, cap).reader, chunk, cap).Lines?
    ensures var b, t := After(events, parse, cap), After(events + [Data(chunk)], parse, cap);
      && b.settled <= t.settled
      && Answers(b.pending, t.pending, t.settled[|b.settled|..], OnChunk(b.reader, chunk, cap).lines, parse)
      && t.up == b.up && t.fallback == b.fallback && t.issued == b.issued
  {
    Next(events, Data(chunk), parse, cap);
    hide After, OnChunk, Dispatch, Answers;
    var b := After(events, parse, cap);
    var d := b.(reader := OnChunk(b.reader, chunk, cap).reader);
    DispatchAnswers(d, OnChunk(b.reader, chunk, cap).lines, parse);
  }

  /** The other events settle nothing.  A send adds the next id, unless the fallback
      serves it or no process is there; `destroy` drops what is waiting. */
  lemma OthersSettleNothing(events: seq<Event>, start: Start, parse: Parser, cap: nat)
    ensures var b, t := After(events, parse, cap), After(events + [Send(start)], parse, cap);
      && t.settled == b.settled
      && t.up == (b.up || (start == Spawned && !b.fallback))
      && t.fallback == (b.fallback || (start == NoBinary && !b.up))
      && t.pending == b.pending + (if t.up && !t.fallback then [|b.issued| + 1] else [])
      && t.issued == b.issued + (if t.up && !t.fallback then [|b.issued| + 1] else [])
    ensures var b, t := After(events, parse, cap), After(events + [ProcessError], parse, cap);
      t == b.(fallback := true)
    ensures var b, t := After(events, parse, cap), After(events + [Destroy], parse, cap);
      t == b.(pending := [], up := false, fallback := false)
  {
    Next(events, Send(start), parse, cap);
    Next(events, ProcessError, parse, cap);
    Next(events, Destroy, parse, cap);
    RunInv(events, parse, cap);
    hide After;
  }

  /** One line answers the pending request it names, if there is one. */
  lemma LineAnswers(b: Bridge, line: string, parse: Parser) returns (first: seq<Settlement>)
    ensures var c := DispatchLine(b, line, parse);
      c.settled == b.settled + first && c.up == b.up && c.fallback == b.fallback && c.issued == b.issued
    ensures forall id :: id in DispatchLine(b, line, parse).pending <==> id in b.pending && parse(line) != Reply(id)
    ensures |first| <= 1 && forall i | 0 <= i < |first| :: first[i].id in b.pending && parse(line) == Reply(first[i].id)
    ensures forall id | id in b.pending && parse(line) == Reply(id) :: first == [Settlement(id, Answered(line))]
  {
    hide Without;
    first := if parse(line).Reply? && parse(line).id in b.pending then [Settlement(parse(line).id, Answered(line))] else [];
  }

  lemma NoAnswers(pending: seq<int>, lines: seq<string>, parse: Parser)
    requires lines == [] || parse(lines[0]).JsonNull?
    ensures Answers(pending, pending, [], lines, parse)
  {
    forall id ensures !HasReply(lines, parse, id) {}
  }

  lemma {:induction false} DispatchAnswers(b: Bridge, lines: seq<string>, parse: Parser)
    ensures var t := Dispatch(b, lines, parse);
      && b.settled <= t.settled && Answers(b.pending, t.pending, t.settled[|b.settled|..], lines, parse)
      && t.up == b.up && t.fallback == b.fallback && t.issued == b.issued
    decreases |lines|
  {
    hide Answers, DispatchLine;
    var t := Dispatch(b, lines, parse);
    if lines == [] || parse(lines[0]).JsonNull? {
      NoAnswers(b.pending, lines, parse);
      assert t.settled[|b.settled|..] == [];
    } else {
      var c := DispatchLine(b, lines[0], parse);
      assert t == Dispatch(c, lines[1..], parse);
      hide Dispatch;
      DispatchAnswers(c, lines[1..], parse);
      var first := LineAnswers(b, lines[0], parse);
      AnswersFirst(b.pending, c.pending, t.pending, first, t.settled[|c.settled|..], lines, parse);
      assert t.settled[..|c.settled|] == c.settled;
      assert t.settled[|b.settled|..] == first + t.settled[|c.settled|..];
    }
  }

  lemma ReplyBehind(lines: seq<string>, parse: Parser, id: int, k: nat)
    requires lines != [] && !parse(lines[0]).JsonNull? && parse(lines[0]) != Reply(id)
    ensures FirstReplyAt(lines, parse, id, k + 1) <==> FirstReplyAt(lines[1..], parse, id, k)
  {
    if FirstReplyAt(lines, parse, id, k + 1) {
      forall j | 0 <= j < k ensures parse(lines[1..][j]) != Reply(id) && !parse(lines[1..][j]).JsonNull? {
        assert lines[1..][j] == lines[j + 1];
      }
    }
    if FirstReplyAt(lines[1..], parse, id, k) {
      forall j | 0 <= j < k + 1 ensures parse(lines[j]) != Reply(id) && !parse(lines[j]).JsonNull? {
        if j > 0 { assert lines[j] == lines[1..][j - 1]; }
      }
    }
  }

  /** What the first line leaves to the others: all replies but its own. */
  lemma RepliesBehind(lines: seq<string>, parse: Parser)
    requires lines != [] && !parse(lines[0]).JsonNull?
    ensures forall id, k: nat | parse(lines[0]) != Reply(id) ::
      FirstReplyAt(lines, parse, id, k) <==> k > 0 && FirstReplyAt(lines[1..], parse, id, k - 1)
    ensures forall id | parse(lines[0]) != Reply(id) :: HasReply(lines, parse, id) <==> HasReply(lines[1..], parse, id)
    ensures forall id | parse(lines[0]) == Reply(id) :: HasReply(lines, parse, id)
    ensures forall id, k: nat | parse(lines[0]) == Reply(id) :: FirstReplyAt(lines, parse, id, k) <==> k == 0
  {
    forall id, k: nat | parse(lines[0]) != Reply(id)
      ensures FirstReplyAt(lines, parse, id, k) <==> k > 0 && FirstReplyAt(lines[1..], parse, id, k - 1)
    {
      if k > 0 { ReplyBehind(lines, parse, id, k - 1); }
    }
    forall id | parse(lines[0]) != Reply(id) ensures HasReply(lines, parse, id) <==> HasReply(lines[1..], parse, id) {
      if HasReply(lines, parse, id) {
        var m: nat :| FirstReplyAt(lines, parse, id, m);
        assert FirstReplyAt(lines[1..], parse, id, m - 1);
      }
      if HasReply(lines[1..], parse, id) {
        var m: nat :| FirstReplyAt(lines[1..], parse, id, m);
        ReplyBehind(lines, parse, id, m);
        assert FirstReplyAt(lines, parse, id, m + 1);
      }
    }
    forall id | parse(lines[0]) == Reply(id) ensures HasReply(lines, parse, id) {
      assert FirstReplyAt(lines, parse, id, 0);
    }
  }

  lemma AnswersFirst(before: seq<int>, middle: seq<int>, after: seq<int>, first: seq<Settlement>, news: seq<Settlement>,
                     lines: seq<string>, parse: Parser)
    requires lines != [] && !parse(lines[0]).JsonNull?
    requires forall id :: id in middle <==> id in before && parse(lines[0]) != Reply(id)
    requires |first| <= 1 && forall i | 0 <= i < |first| :: first[i].id in before && parse(lines[0]) == Reply(first[i].id)
    requires forall id | id in before && parse(lines[0]) == Reply(id) :: first == [Settlement(id, Answered(lines[0]))]
    requires Answers(middle, after, news, lines[1..], parse)
    ensures Answers(before, after, first + news, lines, parse)
  {
    RepliesBehind(lines, parse);
    OrderFirst(first, news, lines, parse);
    hide FirstReplyAt, HasReply, InOrder;
    forall id, k: nat | id in before && FirstReplyAt(lines, parse, id, k)
      ensures Settlement(id, Answered(lines[k])) in first + news
    {
      if parse(lines[0]) == Reply(id) {
        assert k == 0 && Settlement(id, Answered(lines[0])) == first[0];
      } else {
        assert id in middle && FirstReplyAt(lines[1..], parse, id, k - 1);
        assert Settlement(id, Answered(lines[1..][k - 1])) in news;
      }
    }
    forall i | 0 <= i < |first + news|
      ensures (first + news)[i].id in before && HasReply(lines, parse, (first + news)[i].id)
    {
      if i >= |first| { assert (first + news)[i] == news[i - |first|]; }
    }
  }

  /** Answers by later lines come behind the answer by the first line. */
  lemma OrderFirst(first: seq<Settlement>, news: seq<Settlement>, lines: seq<string>, parse: Parser)
    requires lines != [] && !parse(lines[0]).JsonNull? && |first| <= 1 && InOrder(news, lines[1..], parse)
    requires forall i | 0 <= i < |news| :: parse(lines[0]) != Reply(news[i].id)
    requires forall i | 0 <= i < |first| :: parse(lines[0]) == Reply(first[i].id)
    ensures InOrder(first + news, lines, parse)
  {
    RepliesBehind(lines, parse);
    hide FirstReplyAt, HasReply;
    var all := first + news;
    forall i, j, k: nat, l: nat | 0 <= i < j < |all|
      && FirstReplyAt(lines, parse, all[i].id, k) && FirstReplyAt(lines, parse, all[j].id, l)
      ensures k < l
    {
      assert all[j] == news[j - |first|];
      assert l > 0 && FirstReplyAt(lines[1..], parse, news[j - |first|].id, l - 1);
      if i < |first| {
        assert all[i] == first[i];
      } else {
        assert all[i] == news[i - |first|];
        assert k > 0 && FirstReplyAt(lines[1..], parse, news[i - |first|].id, k - 1);
      }
    }
  }

  // ---------------------------------------------------------------- dispatch and cuts

  function Feed(b: Bridge, chunks: seq<seq<Byte>>, parse: Parser, cap: nat): Bridge {
    if chunks == [] then b
    else Step(Feed(b, chunks[..|chunks| - 1], parse, cap), Data(chunks[|chunks| - 1]), parse, cap)
  }

  /** No line that parses to null is followed by another line. */
  ghost predicate NullOnlyLast(lines: seq<string>, parse: Parser) {
    forall i | 0 <= i < |lines| - 1 :: !parse(lines[i]).JsonNull?
  }

  lemma {:induction false} DispatchAppend(b: Bridge, xs: seq<string>, ys: seq<string>, parse: Parser)
    requires forall i | 0 <= i < |xs| :: !parse(xs[i]).JsonNull?
    ensures Dispatch(b, xs + ys, parse) == Dispatch(Dispatch(b, xs, parse), ys, parse)
    decreases |xs|
  {
    if xs == [] {
      assert xs + ys == ys;
    } else {
      assert (xs + ys)[1..] == xs[1..] + ys && (xs + ys)[0] == xs[0];
      DispatchAppend(DispatchLine(b, xs[0], parse), xs[1..], ys, parse);
    }
  }

  lemma {:induction false} DispatchKeepsReader(b: Bridge, r: Reader, lines: seq<string>, parse: Parser)
    ensures Dispatch(b.(reader := r), lines, parse) == Dispatch(b, lines, parse).(reader := r)
    decreases |lines|
  {
    if lines != [] && !parse(lines[0]).JsonNull? {
      DispatchKeepsReader(DispatchLine(b, lines[0], parse), r, lines[1..], parse);
    }
  }

  /** As long as a null line comes last, the promises settled by a stream are those that
      its whole list of lines settles, however the stream was cut. */
  lemma {:induction false} SettlingIgnoresCuts(b: Bridge, chunks: seq<seq<Byte>>, parse: Parser, cap: nat)
    requires b.reader == FRESH && Run(chunks, cap).Lines? && NullOnlyLast(Run(chunks, cap).lines, parse)
    ensures Feed(b, chunks, parse, cap) == Dispatch(b, Run(chunks, cap).lines, parse).(reader := Run(chunks, cap).reader)
  {
    if chunks == [] {
      assert Dispatch(b, [], parse) == b;
    } else {
      var before, last := chunks[..|chunks| - 1], chunks[|chunks| - 1];
      var so := Run(before, cap);
      var more := OnChunk(so.reader, last, cap).lines;
      hide OnChunk, Dispatch;
      assert Run(chunks, cap).lines == so.lines + more;
      assert forall i | 0 <= i < |so.lines| - 1 :: so.lines[i] == (so.lines + more)[i];
      SettlingIgnoresCuts(b, before, parse, cap);
      var c := Feed(b, before, parse, cap);
      var r := OnChunk(so.reader, last, cap).reader;
      DispatchKeepsReader(c, r, more, parse);
      DispatchKeepsReader(Dispatch(b, so.lines, parse), so.reader, more, parse);
      if more == [] {
        assert so.lines + more == so.lines;
        DispatchNothing(Dispatch(b, so.lines, parse), parse);
        DispatchNothing(c, parse);
      } else {
        forall i | 0 <= i < |so.lines| ensures !parse(so.lines[i]).JsonNull? {
          assert (so.lines + more)[i] == so.lines[i];
        }
        DispatchAppend(b, so.lines, more, parse);
      }
    }
  }

  lemma DispatchNothing(b: Bridge, parse: Parser)
    ensures Dispatch(b, [], parse) == b
  {
  }

  /** The lines the dispatch loop starts on before a null line throws out of it. */
  function Reached(lines: seq<string>, parse: Parser): (r: seq<string>)
    ensures r <= lines
    ensures |r| == |lines| <==> NullOnlyLast(lines, parse)
  {
    if lines == [] then []
    else if parse(lines[0]).JsonNull? then
      assert |lines| > 1 ==> !NullOnlyLast(lines, parse);
      [lines[0]]
    else
      assert NullOnlyLast(lines, parse) <==> NullOnlyLast(lines[1..], parse) by {
        assert forall i | 0 <= i < |lines| - 2 :: lines[1..][i] == lines[i + 1];
        if NullOnlyLast(lines[1..], parse) {
          forall i | 0 <= i < |lines| - 1 ensures !parse(lines[i]).JsonNull? {
            if i > 0 { assert lines[i] == lines[1..][i - 1]; }
          }
        }
      }
      [lines[0]] + Reached(lines[1..], parse)
  }

  function ReachedInRun(chunks: seq<seq<Byte>>, parse: Parser, cap: nat): seq<string>
    requires Run(chunks, cap).Lines?
  {
    if chunks == [] then []
    else
      var before := chunks[..|chunks| - 1];
      ReachedInRun(before, parse, cap) + Reached(OnChunk(Run(before, cap).reader, chunks[|chunks| - 1], cap).lines, parse)
  }

  lemma {:induction false} AllReached(chunks: seq<seq<Byte>>, parse: Parser, cap: nat)
    requires Run(chunks, cap).Lines? && NullOnlyLast(Run(chunks, cap).lines, parse)
    ensures ReachedInRun(chunks, parse, cap) == Run(chunks, cap).lines
  {
    if chunks != [] {
      var before, last := chunks[..|chunks| - 1], chunks[|chunks| - 1];
      var so, more := Run(before, cap).lines, OnChunk(Run(before, cap).reader, last, cap).lines;
      hide OnChunk;
      assert Run(chunks, cap).lines == so + more;
      assert forall i | 0 <= i < |so| - 1 :: so[i] == (so + more)[i];
      assert forall i | 0 <= i < |more| - 1 :: more[i] == (so + more)[|so| + i];
      AllReached(before, parse, cap);
    }
  }

  /** The dispatch loop starts on every line of a stream, for every cut without overflow,
      if and only if no null line of the stream has a line after it. */
  lemma EveryLineReachedExactly(stream: seq<Byte>, parse: Parser, cap: nat)
    requires |stream| <= cap
    ensures var lines := SplitLines(Decode(stream).text).lines;
      (forall chunks | Flatten(chunks) == stream && Run(chunks, cap).Lines? :: ReachedInRun(chunks, parse, cap) == lines)
      <==> NullOnlyLast(lines, parse)
  {
    hide Decode, SplitLines;
    var lines := SplitLines(Decode(stream).text).lines;
    forall chunks | Flatten(chunks) == stream && Run(chunks, cap).Lines?
      ensures Run(chunks, cap).lines == lines
      ensures NullOnlyLast(lines, parse) ==> ReachedInRun(chunks, parse, cap) == lines
    {
      FramingIgnoresCuts(chunks, cap);
      if NullOnlyLast(lines, parse) { AllReached(chunks, parse, cap); }
    }
    var one := [stream];
    FlattenOne(stream);
    RunOne(stream, cap);
    assert Run(one, cap).Lines? && Flatten(one) == stream;
    ReachedInOne(stream, parse, cap);
  }

  lemma ReachedInOne(c: seq<Byte>, parse: Parser, cap: nat)
    requires OnChunk(FRESH, c, cap).Lines? && Run([c], cap).Lines?
    ensures ReachedInRun([c], parse, cap) == Reached(OnChunk(FRESH, c, cap).lines, parse)
  {
    hide OnChunk, Reached;
    assert [c][..0] == [];
    assert ReachedInRun([], parse, cap) == [];
  }

  // ---------------------------------------------------------------- the code

  /** The fields and event handlers of `RustGraph`.  The record of issued ids is kept
      for the specification only. */
  class RustGraph {
    const parse: Parser
    const cap: nat
    var buf: string
    var bufBytes: nat
    var held: seq<Byte>
    var pending: seq<int>
    var nextId: nat
    var proc: bool
    var fallback: bool
    var settled: seq<Settlement>
    ghost var issued: seq<int>

    ghost function View(): Bridge
      reads this
    {
      Bridge(Reader(buf, bufBytes, held), pending, nextId, proc, fallback, issued, settled)
    }

    constructor (parse: Parser, cap: nat)
      ensures this.parse == parse && this.cap == cap && View() == INITIAL
    {
      this.parse, this.cap := parse, cap;
      buf, bufBytes, held := "", 0, [];
      pending, nextId, proc, fallback, settled, issued := [], 1, false, false, [], [];
    }

    /** `start`: spawn a process or build the fallback, once. */
    method StartOnce(start: Start)
      modifies this`proc, this`fallback
      ensures View() == Started(old(View()), start)
    {
      if proc || fallback { return; }
      if start.NoBinary? { fallback := true; } else { proc := true; }
    }

    /** `send`: the id given to the request, if it gets one. */
    method SendCommand(start: Start) returns (id: int)
      modifies this
      ensures View() == Step(old(View()), Send(start), parse, cap)
      ensures var s := Started(old(View()), start); id == if s.fallback || !s.up then -1 else old(nextId)
    {
      StartOnce(start);
      if fallback || !proc { return -1; }
      id := nextId;
      nextId := nextId + 1;
      pending := pending + [id];
      issued := issued + [id];
    }

    method Answer(id: int, o: Outcome)
      modifies this`pending, this`settled
      ensures View() == if id in old(pending) then Settle(old(View()), id, o) else old(View())
    {
      if id in pending {
        settled := settled + [Settlement(id, o)];
        pending := Without(pending, id);
      }
    }

    method RejectAllPending(error: string)
      modifies this`pending, this`settled
      ensures View() == RejectAll(old(View()), error)
    {
      var i := 0;
      while i < |pending|
        invariant 0 <= i <= |pending| && pending == old(pending)
        invariant settled == old(settled) + FailAll(pending, error)[..i]
      {
        settled := settled + [Settlement(pending[i], Failed(error))];
        i := i + 1;
      }
      assert FailAll(pending, error)[..i] == FailAll(pending, error);
      pending := [];
    }

    method OnData(chunk: seq<Byte>)
      modifies this
      ensures View() == Step(old(View()), Data(chunk), parse, cap)
    {
      hide Decode, SplitLines, EncodeText, RejectAll;
      bufBytes := bufBytes + |chunk|;
      var read := Decode(held + chunk);
      buf, held := buf + read.text, read.held;
      if bufBytes > cap {
        buf, bufBytes, held := "", 0, [];
        RejectAllPending("buffer_overflow");
        return;
      }
      var split := SplitLines(buf);
      buf := split.rest;
      if |split.lines| > 0 { bufBytes := |EncodeText(buf)|; }
      DispatchLines(split.lines);
    }

    /** The loop over complete lines; a null line ends it early by throwing. */
    method DispatchLines(lines: seq<string>)
      modifies this`pending, this`settled
      ensures View() == Dispatch(old(View()), lines, parse)
    {
      var i := 0;
      assert lines[0..] == lines;
      while i < |lines|
        invariant 0 <= i <= |lines|
        invariant Dispatch(View(), lines[i..], parse) == Dispatch(old(View()), lines, parse)
        invariant View() == old(View()).(pending := pending, settled := settled)
      {
        assert lines[i..][1..] == lines[i + 1..];
        var parsed := parse(lines[i]);
        if parsed.JsonNull? { return; }
        if parsed.Reply? { Answer(parsed.id, Answered(lines[i])); }
        i := i + 1;
      }
    }

    method OnTimeout(id: int)
      modifies this`pending, this`settled
      ensures View() == Step(old(View()), Timeout(id), parse, cap)
      ensures settled == old(settled) + (if id in old(pending) then [Settlement(id, Failed("request_timeout"))] else [])
      ensures forall x :: x in pending <==> x in old(pending) && x != id
    {
      Answer(id, Failed("request_timeout"));
    }

    method OnExit()
      modifies this
      ensures View() == Step(old(View()), Exit, parse, cap)
      ensures AllFailed(old(View()), View(), "process_exited")
    {
      proc := false;
      RejectAllPending("process_exited");
    }

    method OnProcessError()
      modifies this`fallback
      ensures View() == Step(old(View()), ProcessError, parse, cap)
    {
      fallback := true;
    }

    method DestroyBridge()
      modifies this
      ensures View() == Step(old(View()), Destroy, parse, cap)
    {
      if proc { proc := false; }
      if fallback { fallback := false; }
      pending := [];
    }
  }
}
