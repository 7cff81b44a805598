/** Agent identities and delegated authority.

    An authority's snapshot holds the identities it vouches for; a claim names one of them
    and the chain of delegation behind it.  The main results say exactly when an action is
    allowed, and that a delegated agent is allowed nothing that any of its ancestors is not. */
module AgentIdentity {
  import opened Options

  type Risk = r: nat | r <= 3

  datatype Verification = Valid | Registered | Unverified

  /** An identity record.  `shaped` stands for the fields and shapes that nothing below looks
      at; `revoked` for a revocation time or reason. */
  datatype Record = Record(
    agentId: string, owner: string, workspace: string, scope: seq<string>, tools: seq<string>, connectors: seq<string>,
    risk: Risk, issued: int, expires: int, revoked: bool, parent: Option<string>, chain: seq<string>,
    verification: Verification, expected: bool, shaped: bool)

  datatype Entry = Entry(ref: string, record: Record)

  datatype Snapshot = Snapshot(workspace: string, byRef: map<string, Record>, byId: map<string, Entry>)

  datatype Claim = Claim(agentId: string, ref: string, hash: string, workspace: string, chain: seq<string>)

  datatype Action = Action(capability: string, target: string, risk: Risk, tool: Option<string>, connector: Option<string>)

  /** What a text is, and the canonical hash of a record. */
  datatype Config = Config(isText: string -> bool, hashOf: Record -> string)

  const MAX_LIST_ITEMS: nat := 64

  datatype Reason =
    | ClaimInvalid | WorkspaceMismatch | IdentityUnknown | HashInvalid | NotYetValid | Expired | Revoked | VerificationInvalid
    | ChainInvalid | ScopeExceeded | CapabilityNotAllowed | ToolNotAllowed | ConnectorNotAllowed | RiskExceeded
    | TargetInvalid | EvaluationFailed

  datatype Decision = Allow | Block(reason: Reason)

  // ---------------------------------------------------------------- lists

  predicate Distinct(list: seq<string>) { forall i, j | 0 <= i < j < |list| :: list[i] != list[j] }

  /** `stringList`. */
  predicate StringList(c: Config, list: seq<string>, allowEmpty: bool) {
    && |list| <= MAX_LIST_ITEMS && (allowEmpty || list != [])
    && (forall s | s in list :: c.isText(s)) && Distinct(list)
  }

  predicate Subset(child: seq<string>, parent: seq<string>) { forall s | s in child :: s in parent }

  // ---------------------------------------------------------------- the snapshot

  /** `validateIdentityRecord`. */
  predicate ValidRecord(c: Config, r: Record) {
    && r.shaped && c.isText(r.agentId) && c.isText(r.owner) && c.isText(r.workspace)
    && StringList(c, r.scope, false) && StringList(c, r.tools, true) && StringList(c, r.connectors, true)
    && StringList(c, r.chain, true) && !r.revoked && (r.parent == None || r.parent.value in r.chain)
    && r.verification != Unverified && r.expected
  }

  /** The entries that a snapshot may be taken of. */
  ghost predicate Snapshottable(c: Config, workspace: string, entries: seq<Entry>) {
    && c.isText(workspace) && 0 < |entries| <= MAX_LIST_ITEMS
    && (forall e | e in entries :: c.isText(e.ref) && ValidRecord(c, e.record) && e.record.workspace == workspace)
    && (forall i, j | 0 <= i < j < |entries| :: entries[i].ref != entries[j].ref && entries[i].record.agentId != entries[j].record.agentId)
  }

  /** What every snapshot satisfies. */
  ghost predicate Vouched(c: Config, a: Snapshot) {
    && (forall id | id in a.byId :: a.byId[id].record.agentId == id && a.byId[id].ref in a.byRef && a.byRef[a.byId[id].ref] == a.byId[id].record)
    && (forall ref | ref in a.byRef :: ValidRecord(c, a.byRef[ref]) && a.byRef[ref].workspace == a.workspace && c.isText(ref)
          && a.byRef[ref].agentId in a.byId && a.byId[a.byRef[ref].agentId] == Entry(ref, a.byRef[ref]))
    && c.isText(a.workspace)
  }

  /** The entry may join a snapshot that does not have its reference or agent yet. */
  predicate Entrable(c: Config, workspace: string, e: Entry) {
    c.isText(e.ref) && ValidRecord(c, e.record) && e.record.workspace == workspace
  }

  lemma JoinVouched(c: Config, a: Snapshot, e: Entry)
    requires Vouched(c, a) && Entrable(c, a.workspace, e) && e.ref !in a.byRef && e.record.agentId !in a.byId
    ensures Vouched(c, Snapshot(a.workspace, a.byRef[e.ref := e.record], a.byId[e.record.agentId := e]))
  {
    hide ValidRecord;
  }

  /** The entries read so far are in the snapshot, and nothing else. */
  ghost predicate Holds(c: Config, a: Snapshot, entries: seq<Entry>) {
    && (forall e | e in entries :: Entrable(c, a.workspace, e) && e.ref in a.byRef && a.byRef[e.ref] == e.record)
    && (forall ref | ref in a.byRef :: Entry(ref, a.byRef[ref]) in entries)
    && (forall i, j | 0 <= i < j < |entries| :: entries[i].ref != entries[j].ref && entries[i].record.agentId != entries[j].record.agentId)
  }

  lemma JoinHolds(c: Config, a: Snapshot, entries: seq<Entry>, e: Entry)
    requires Vouched(c, a) && Holds(c, a, entries) && Entrable(c, a.workspace, e) && e.ref !in a.byRef && e.record.agentId !in a.byId
    ensures Holds(c, Snapshot(a.workspace, a.byRef[e.ref := e.record], a.byId[e.record.agentId := e]), entries + [e])
  {
    hide ValidRecord, Entrable;
    forall x | x in entries ensures x.ref != e.ref && x.record.agentId != e.record.agentId {
      assert a.byRef[x.ref] == x.record;
    }
  }

  /** `snapshotAgentIdentityAuthority`: taken exactly of well-formed entries with distinct
      references and agents, and then it holds exactly those. */
  method TakeSnapshot(c: Config, workspace: string, entries: seq<Entry>) returns (r: Option<Snapshot>)
    ensures r.Some? <==> Snapshottable(c, workspace, entries)
    ensures r.Some? ==> Vouched(c, r.value) && r.value.workspace == workspace && Holds(c, r.value, entries)
  {
    assert Vouched(c, Snapshot(workspace, map[], map[])) || !c.isText(workspace);
    assert Holds(c, Snapshot(workspace, map[], map[]), []);
    assert !c.isText(workspace) || entries == [] || |entries| > MAX_LIST_ITEMS ==> !Snapshottable(c, workspace, entries);
    hide ValidRecord, StringList, Distinct, Vouched, Holds, Snapshottable;
    if !c.isText(workspace) || entries == [] || |entries| > MAX_LIST_ITEMS { return None; }
    var byRef: map<string, Record> := map[];
    var byId: map<string, Entry> := map[];
    var i := 0;
    assert entries[..0] == [];
    while i < |entries|
      invariant 0 <= i <= |entries|
      invariant Vouched(c, Snapshot(workspace, byRef, byId)) && Holds(c, Snapshot(workspace, byRef, byId), entries[..i])
    {
      var e := entries[i];
      ghost var a := Snapshot(workspace, byRef, byId);
      if e.ref in byRef || !c.isText(e.ref) || !ValidRecord(c, e.record) || e.record.workspace != workspace || e.record.agentId in byId {
        Unfit(c, a, entries, i);
        return None;
      }
      JoinVouched(c, a, e);
      JoinHolds(c, a, entries[..i], e);
      byRef := byRef[e.ref := e.record];
      byId := byId[e.record.agentId := e];
      assert entries[..i + 1] == entries[..i] + [e];
      i := i + 1;
    }
    assert entries[..i] == entries;
    HeldSnapshottable(c, Snapshot(workspace, byRef, byId), entries);
    return Some(Snapshot(workspace, byRef, byId));
  }

  lemma HeldSnapshottable(c: Config, a: Snapshot, entries: seq<Entry>)
    requires Holds(c, a, entries) && c.isText(a.workspace) && 0 < |entries| <= MAX_LIST_ITEMS
    ensures Snapshottable(c, a.workspace, entries)
  {
    hide ValidRecord;
  }

  lemma Unfit(c: Config, a: Snapshot, entries: seq<Entry>, i: nat)
    requires i < |entries| && Vouched(c, a) && Holds(c, a, entries[..i])
    requires entries[i].ref in a.byRef || !Entrable(c, a.workspace, entries[i]) || entries[i].record.agentId in a.byId
    ensures !Snapshottable(c, a.workspace, entries)
  {
    hide ValidRecord;
    var e := entries[i];
    assert e in entries;
    if e.ref in a.byRef {
      var x := Entry(e.ref, a.byRef[e.ref]);
      var j :| 0 <= j < i && entries[j] == x;
      assert j < i && entries[j].ref == entries[i].ref;
    } else if e.record.agentId in a.byId {
      var other := a.byId[e.record.agentId];
      var x := Entry(other.ref, a.byRef[other.ref]);
      assert x in entries[..i];
      var j :| 0 <= j < i && entries[j] == x;
      assert j < i && entries[j].record.agentId == entries[i].record.agentId;
    }
  }

  // ---------------------------------------------------------------- resolving a claim

  function RefusalOf(c: Config, a: Snapshot, claim: Claim, hashShaped: bool, now: int): Option<Reason> {
    if !c.isText(claim.agentId) || !c.isText(claim.ref) || !hashShaped || !c.isText(claim.workspace)
       || !StringList(c, claim.chain, false) then Some(ClaimInvalid)
    else if claim.workspace != a.workspace then Some(WorkspaceMismatch)
    else if claim.ref !in a.byRef || a.byRef[claim.ref].agentId != claim.agentId then Some(IdentityUnknown)
    else
      var r := a.byRef[claim.ref];
      if c.hashOf(r) != claim.hash then Some(HashInvalid)
      else if r.issued > now then Some(NotYetValid)
      else if r.expires <= now then Some(Expired)
      else if r.revoked then Some(Revoked)
      else if r.verification == Unverified || !r.expected then Some(VerificationInvalid)
      else if r.parent == None then (if claim.chain != [r.agentId] then Some(ChainInvalid) else None)
      else if claim.chain != r.chain || claim.chain[|claim.chain| - 1] != r.agentId then Some(ChainInvalid)
      else None
  }

  /** A record counts now. */
  predicate Live(a: Snapshot, r: Record, now: int) { r.workspace == a.workspace && r.issued <= now < r.expires && !r.revoked }

  /** A child holds no more than its parent, and no longer. */
  predicate Narrows(child: Record, parent: Record) {
    && child.parent == Some(parent.agentId) && Subset(child.scope, parent.scope) && Subset(child.tools, parent.tools)
    && Subset(child.connectors, parent.connectors) && child.risk <= parent.risk && child.expires <= parent.expires
  }

  /** `validateDelegationChain` from position `i` on. */
  function ChainRefusal(a: Snapshot, leaf: string, chain: seq<string>, i: nat, previous: Option<Record>, now: int): Option<Reason>
    requires i <= |chain|
    decreases |chain| - i
  {
    if i == |chain| then
      (if previous == None || previous.value.agentId != leaf then Some(ChainInvalid) else None)
    else if chain[i] !in a.byId then Some(ChainInvalid)
    else
      var r := a.byId[chain[i]].record;
      if !Live(a, r, now) then Some(ChainInvalid)
      else if previous == None && r.parent != None then Some(ChainInvalid)
      else if previous.Some? && !Narrows(r, previous.value) then Some(ScopeExceeded)
      else ChainRefusal(a, leaf, chain, i + 1, Some(r), now)
  }

  /** `evaluateAgentIdentity`. */
  function Evaluate(c: Config, a: Snapshot, claim: Claim, hashShaped: bool, action: Action, now: Option<int>): Decision {
    if !c.isText(action.capability) || !c.isText(action.target) || (action.tool.Some? && !c.isText(action.tool.value))
       || (action.connector.Some? && !c.isText(action.connector.value)) then Block(TargetInvalid)
    else if now == None then Block(EvaluationFailed)
    else
      var refused := RefusalOf(c, a, claim, hashShaped, now.value);
      if refused.Some? then Block(refused.value)
      else
        var r := a.byRef[claim.ref];
        var broken := if r.parent == None then None else ChainRefusal(a, r.agentId, claim.chain, 0, None, now.value);
        if broken.Some? then Block(broken.value)
        else if action.capability !in r.scope then Block(CapabilityNotAllowed)
        else if action.tool.Some? && action.tool.value !in r.tools then Block(ToolNotAllowed)
        else if action.connector.Some? && action.connector.value !in r.connectors then Block(ConnectorNotAllowed)
        else if action.risk > r.risk then Block(RiskExceeded)
        else Allow
  }

  // ---------------------------------------------------------------- what a chain proves

  function At(a: Snapshot, chain: seq<string>, i: nat): Record
    requires i < |chain| && chain[i] in a.byId
  {
    a.byId[chain[i]].record
  }

  /** A chain of live records from an authority-owned root down to the leaf, each one the child
      of the one before and within it. */
  ghost predicate Delegates(a: Snapshot, leaf: string, chain: seq<string>, now: int) {
    && chain != [] && chain[|chain| - 1] == leaf
    && (forall i | 0 <= i < |chain| :: chain[i] in a.byId && Live(a, At(a, chain, i), now))
    && At(a, chain, 0).parent == None
    && (forall i | 0 < i < |chain| :: Narrows(At(a, chain, i), At(a, chain, i - 1)))
  }

  ghost predicate LinkOk(a: Snapshot, chain: seq<string>, k: nat)
    requires 0 < k < |chain|
  {
    chain[k - 1] in a.byId && chain[k] in a.byId && Narrows(At(a, chain, k), At(a, chain, k - 1))
  }

  lemma {:induction false} ChainRest(c: Config, a: Snapshot, leaf: string, chain: seq<string>, i: nat, previous: Option<Record>, now: int)
    requires Vouched(c, a) && i <= |chain|
    requires previous == None <==> i == 0
    requires i > 0 ==> chain[i - 1] in a.byId && previous == Some(At(a, chain, i - 1))
    ensures ChainRefusal(a, leaf, chain, i, previous, now) == None <==>
      && chain != [] && chain[|chain| - 1] == leaf
      && (forall k | i <= k < |chain| :: chain[k] in a.byId && Live(a, At(a, chain, k), now))
      && (i == 0 ==> At(a, chain, 0).parent == None)
      && (forall k | i <= k < |chain| && 0 < k :: LinkOk(a, chain, k))
    decreases |chain| - i
  {
    hide Narrows, Live, ValidRecord;
    if i < |chain| && chain[i] in a.byId {
      ChainRest(c, a, leaf, chain, i + 1, Some(At(a, chain, i)), now);
      if i > 0 { assert LinkOk(a, chain, i) <==> Narrows(At(a, chain, i), previous.value); }
    }
  }

  /** The chain check accepts exactly the delegations. */
  lemma ChainExact(c: Config, a: Snapshot, leaf: string, chain: seq<string>, now: int)
    requires Vouched(c, a)
    ensures ChainRefusal(a, leaf, chain, 0, None, now) == None <==> Delegates(a, leaf, chain, now)
  {
    hide Narrows, Live, ValidRecord;
    ChainRest(c, a, leaf, chain, 0, None, now);
    if Delegates(a, leaf, chain, now) {
      forall k | 0 < k < |chain| ensures LinkOk(a, chain, k) { assert Narrows(At(a, chain, k), At(a, chain, k - 1)); }
    }
    if ChainRefusal(a, leaf, chain, 0, None, now) == None {
      forall k | 0 < k < |chain| ensures Narrows(At(a, chain, k), At(a, chain, k - 1)) { assert LinkOk(a, chain, k); }
    }
  }

  /** The two ends of a delegation, and who has a parent on it. */
  lemma DelegatesEnds(c: Config, a: Snapshot, leaf: string, chain: seq<string>, now: int)
    requires Vouched(c, a) && Delegates(a, leaf, chain, now)
    ensures chain != [] && chain[|chain| - 1] == leaf && leaf in a.byId && Live(a, a.byId[leaf].record, now)
    ensures chain[0] in a.byId && At(a, chain, 0).parent == None
    ensures forall i | 0 < i < |chain| :: chain[i] in a.byId && At(a, chain, i).parent != None
  {
    hide ValidRecord, Live;
    forall i | 0 < i < |chain| ensures chain[i] in a.byId && At(a, chain, i).parent != None {
      assert Narrows(At(a, chain, i), At(a, chain, i - 1));
    }
    assert Live(a, At(a, chain, |chain| - 1), now);
  }

  /** The action is within a record's permissions, and the record counts now. */
  predicate Permits(r: Record, action: Action, now: int) {
    && action.capability in r.scope && (action.tool.Some? ==> action.tool.value in r.tools)
    && (action.connector.Some? ==> action.connector.value in r.connectors) && action.risk <= r.risk
    && r.issued <= now < r.expires && !r.revoked
  }

  predicate WellFormed(c: Config, action: Action) {
    && c.isText(action.capability) && c.isText(action.target) && (action.tool.Some? ==> c.isText(action.tool.value))
    && (action.connector.Some? ==> c.isText(action.connector.value))
  }

  /** The claim names a vouched identity by its reference, agent and hash. */
  predicate Names(c: Config, a: Snapshot, claim: Claim) {
    claim.workspace == a.workspace && claim.ref in a.byRef && a.byRef[claim.ref].agentId == claim.agentId
    && c.hashOf(a.byRef[claim.ref]) == claim.hash
  }

  /** Exactly when an action is allowed. */
  lemma AllowExact(c: Config, a: Snapshot, claim: Claim, action: Action, now: int)
    requires Vouched(c, a)
    ensures Evaluate(c, a, claim, true, action, Some(now)) == Allow <==>
      && WellFormed(c, action) && StringList(c, claim.chain, false) && Names(c, a, claim)
      && var r := a.byRef[claim.ref];
         && Permits(r, action, now)
         && (if r.parent == None then claim.chain == [r.agentId]
             else claim.chain == r.chain && Delegates(a, r.agentId, claim.chain, now))
  {
    hide ChainRefusal, Delegates, Distinct;
    if claim.ref in a.byRef {
      var r := a.byRef[claim.ref];
      assert ValidRecord(c, r);
      ChainExact(c, a, r.agentId, claim.chain, now);
      if Delegates(a, r.agentId, claim.chain, now) { DelegatesEnds(c, a, r.agentId, claim.chain, now); }
    }
  }

  /** No record of a snapshot is revoked, unverified or out of shape, and its lists are short
      and without repetition. */
  lemma VouchedRecords(c: Config, a: Snapshot, ref: string)
    requires Vouched(c, a) && ref in a.byRef
    ensures var r := a.byRef[ref];
      && !r.revoked && r.verification != Unverified && r.expected && r.shaped && r.scope != []
      && (r.parent.Some? ==> r.parent.value in r.chain)
      && (forall list | list in [r.scope, r.tools, r.connectors, r.chain] :: |list| <= 64 && Distinct(list))
  {
    hide Distinct;
    assert ValidRecord(c, a.byRef[ref]);
  }

  /** What is true of a call that is blocked for a reason. */
  ghost predicate Cause(c: Config, a: Snapshot, claim: Claim, hashShaped: bool, action: Action, now: Option<int>, reason: Reason) {
    match reason
    case TargetInvalid => !WellFormed(c, action)
    case EvaluationFailed => now == None
    case ClaimInvalid => !hashShaped || !c.isText(claim.agentId) || !c.isText(claim.ref) || !c.isText(claim.workspace)
      || claim.chain == [] || |claim.chain| > 64 || !Distinct(claim.chain) || exists s :: s in claim.chain && !c.isText(s)
    case WorkspaceMismatch => claim.workspace != a.workspace
    case IdentityUnknown => claim.ref !in a.byRef || a.byRef[claim.ref].agentId != claim.agentId
    case Revoked => false
    case VerificationInvalid => false
    case _ => now.Some? && claim.ref in a.byRef && RecordCause(c, a, a.byRef[claim.ref], claim, action, now.value, reason)
  }

  /** What is true of the identity that was named. */
  ghost predicate RecordCause(c: Config, a: Snapshot, r: Record, claim: Claim, action: Action, now: int, reason: Reason) {
    match reason
    case HashInvalid => c.hashOf(r) != claim.hash
    case NotYetValid => now < r.issued
    case Expired => now >= r.expires
    case ChainInvalid => if r.parent == None then claim.chain != [r.agentId]
      else claim.chain != r.chain || !Delegates(a, r.agentId, claim.chain, now)
    case ScopeExceeded => r.parent != None && claim.chain == r.chain && !Delegates(a, r.agentId, claim.chain, now)
    case CapabilityNotAllowed => action.capability !in r.scope
    case ToolNotAllowed => action.tool.Some? && action.tool.value !in r.tools
    case ConnectorNotAllowed => action.connector.Some? && action.connector.value !in r.connectors
    case RiskExceeded => action.risk > r.risk
    case _ => true
  }

  lemma RefusalIsTrue(c: Config, a: Snapshot, claim: Claim, hashShaped: bool, action: Action, now: int)
    requires Vouched(c, a)
    ensures var refused := RefusalOf(c, a, claim, hashShaped, now);
      if refused.Some? then Cause(c, a, claim, hashShaped, action, Some(now), refused.value)
      else claim.ref in a.byRef && (a.byRef[claim.ref].parent != None ==> claim.chain == a.byRef[claim.ref].chain)
  {
    hide Delegates, Distinct, Vouched, ValidRecord;
    if claim.ref in a.byRef {
      var r := a.byRef[claim.ref];
      VouchedRecords(c, a, claim.ref);
      if Delegates(a, r.agentId, claim.chain, now) { DelegatesEnds(c, a, r.agentId, claim.chain, now); }
    }
  }

  /** A block tells the truth: the reason it gives does hold of the call.  A snapshot never
      answers that an identity is revoked or unverified, as it is not taken of such records. */
  lemma BlockIsTrue(c: Config, a: Snapshot, claim: Claim, hashShaped: bool, action: Action, now: Option<int>)
    requires Vouched(c, a)
    ensures var d := Evaluate(c, a, claim, hashShaped, action, now); d.Block? ==> Cause(c, a, claim, hashShaped, action, now, d.reason)
  {
    hide RefusalOf, ChainRefusal, Delegates, Distinct, Vouched, ValidRecord;
    if now.Some? {
      RefusalIsTrue(c, a, claim, hashShaped, action, now.value);
      if claim.ref in a.byRef {
        ChainExact(c, a, a.byRef[claim.ref].agentId, claim.chain, now.value);
        ChainReasons(a, a.byRef[claim.ref].agentId, claim.chain, 0, None, now.value);
      }
    }
  }

  lemma {:induction false} ChainReasons(a: Snapshot, leaf: string, chain: seq<string>, i: nat, previous: Option<Record>, now: int)
    requires i <= |chain|
    ensures ChainRefusal(a, leaf, chain, i, previous, now) in {None, Some(ChainInvalid), Some(ScopeExceeded)}
    decreases |chain| - i
  {
    if i < |chain| && chain[i] in a.byId { ChainReasons(a, leaf, chain, i + 1, Some(a.byId[chain[i]].record), now); }
  }

  // ---------------------------------------------------------------- every ancestor permits it

  lemma {:induction false} AncestorsPermit(a: Snapshot, leaf: string, chain: seq<string>, action: Action, now: int, i: nat)
    requires Delegates(a, leaf, chain, now) && i < |chain| && Permits(At(a, chain, |chain| - 1), action, now)
    ensures Permits(At(a, chain, i), action, now)
    decreases |chain| - i
  {
    if i < |chain| - 1 {
      AncestorsPermit(a, leaf, chain, action, now, i + 1);
      assert Narrows(At(a, chain, i + 1), At(a, chain, i));
      assert Live(a, At(a, chain, i), now);
    }
  }

  /** If a delegated agent is allowed an action, its chain is a path of distinct agents by parent
      links from an authority-owned root to it, and every agent on it is permitted that
      capability, tool, connector and risk at that time. */
  lemma AllowedByEveryAncestor(c: Config, a: Snapshot, claim: Claim, action: Action, now: int)
    requires Vouched(c, a) && Evaluate(c, a, claim, true, action, Some(now)) == Allow
    requires a.byRef[claim.ref].parent != None
    ensures Distinct(claim.chain) && Delegates(a, claim.agentId, claim.chain, now)
    ensures forall i | 0 <= i < |claim.chain| :: Permits(At(a, claim.chain, i), action, now)
    ensures forall i | 0 < i < |claim.chain| :: At(a, claim.chain, i).parent == Some(claim.chain[i - 1])
    ensures forall i | 0 < i < |claim.chain| :: At(a, claim.chain, i).expires <= At(a, claim.chain, i - 1).expires
  {
    hide Evaluate, ValidRecord, Permits;
    AllowExact(c, a, claim, action, now);
    var chain, r := claim.chain, a.byRef[claim.ref];
    assert a.byId[r.agentId] == Entry(claim.ref, r);
    assert At(a, chain, |chain| - 1) == r;
    forall i | 0 <= i < |chain| ensures Permits(At(a, chain, i), action, now) {
      AncestorsPermit(a, r.agentId, chain, action, now, i);
    }
    forall i | 0 < i < |chain|
      ensures At(a, chain, i).parent == Some(chain[i - 1]) && At(a, chain, i).expires <= At(a, chain, i - 1).expires
    {
      assert Narrows(At(a, chain, i), At(a, chain, i - 1));
    }
  }

  /** There is only one way up from an agent: two delegations of it are the same chain. */
  lemma {:induction false} OneDelegation(c: Config, a: Snapshot, leaf: string, x: seq<string>, y: seq<string>, now: int)
    requires Vouched(c, a) && Delegates(a, leaf, x, now) && Delegates(a, leaf, y, now)
    ensures x == y
    decreases |x|
  {
    hide ValidRecord, Subset;
    var m, n := |x| - 1, |y| - 1;
    if m == 0 {
      assert At(a, x, 0) == At(a, y, n);
      forall k | 0 < k < |y| ensures At(a, y, k).parent != None { assert Narrows(At(a, y, k), At(a, y, k - 1)); }
      assert n == 0;
    } else {
      assert Narrows(At(a, x, m), At(a, x, m - 1));
      assert At(a, x, m) == At(a, y, n);
      assert n > 0;
      assert Narrows(At(a, y, n), At(a, y, n - 1));
      PrefixDelegates(c, a, leaf, x, m, now);
      PrefixDelegates(c, a, leaf, y, n, now);
      OneDelegation(c, a, x[m - 1], x[..m], y[..n], now);
      assert x == x[..m] + [leaf] && y == y[..n] + [leaf];
    }
  }

  lemma PrefixDelegates(c: Config, a: Snapshot, leaf: string, chain: seq<string>, k: nat, now: int)
    requires Delegates(a, leaf, chain, now) && 0 < k <= |chain|
    ensures Delegates(a, chain[k - 1], chain[..k], now)
  {
    hide Narrows, Live;
    var x := chain[..k];
    forall i | 0 <= i < |x| ensures x[i] in a.byId && Live(a, At(a, x, i), now) { assert At(a, x, i) == At(a, chain, i); }
    forall i | 0 < i < |x| ensures Narrows(At(a, x, i), At(a, x, i - 1)) {
      assert At(a, x, i) == At(a, chain, i) && At(a, x, i - 1) == At(a, chain, i - 1);
      assert Narrows(At(a, chain, i), At(a, chain, i - 1));
    }
  }

  /** The claim an authority composes for one of its agents. */
  function OwnClaim(c: Config, a: Snapshot, id: string): Claim
    requires id in a.byId
  {
    var r := a.byId[id].record;
    Claim(id, a.byId[id].ref, c.hashOf(r), a.workspace, if r.parent == None then [id] else r.chain)
  }

  /** An ancestor acting for itself is allowed what its delegate is allowed if and only if its
      own recorded chain is the part of the delegate's chain down to it.  The check of the
      delegate never looks at the chains its ancestors record. */
  lemma AncestorsOwnClaim(c: Config, a: Snapshot, claim: Claim, action: Action, now: int, i: nat)
    requires Vouched(c, a) && Evaluate(c, a, claim, true, action, Some(now)) == Allow
    requires a.byRef[claim.ref].parent != None && i < |claim.chain|
    ensures claim.chain[i] in a.byId
    ensures Evaluate(c, a, OwnClaim(c, a, claim.chain[i]), true, action, Some(now)) == Allow <==>
      i == 0 || At(a, claim.chain, i).chain == claim.chain[..i + 1]
  {
    hide Evaluate, Permits, Delegates, ValidRecord, WellFormed, Live, Narrows, Distinct, StringList, Subset;
    AllowExact(c, a, claim, action, now);
    AllowedByEveryAncestor(c, a, claim, action, now);
    var chain := claim.chain;
    DelegatesEnds(c, a, claim.agentId, chain, now);
    var id, r := chain[i], At(a, chain, i);
    var own := OwnClaim(c, a, id);
    AllowExact(c, a, own, action, now);
    assert a.byRef[own.ref] == r;
    PrefixDelegates(c, a, claim.agentId, chain, i + 1, now);
    assert StringList(c, own.chain, false) by { OwnChainOk(c, a, chain, i, now); }
    if i > 0 {
      if own.chain == r.chain && Delegates(a, id, r.chain, now) { OneDelegation(c, a, id, r.chain, chain[..i + 1], now); }
    }
  }

  lemma OwnChainOk(c: Config, a: Snapshot, chain: seq<string>, i: nat, now: int)
    requires Vouched(c, a) && i < |chain| && chain[i] in a.byId
    ensures StringList(c, OwnClaim(c, a, chain[i]).chain, false)
  {
    var r := At(a, chain, i);
    assert a.byRef[a.byId[chain[i]].ref] == r;
    assert ValidRecord(c, r);
  }

  function Reader(id: string, parent: Option<string>, chain: seq<string>): Entry {
    Entry(id, Record(id, "owner", "w", ["read"], [], [], 0, 0, 9, false, parent, chain, Valid, true, true))
  }

  const ROOT := Reader("r", None, [])
  const MIDDLE := Reader("m", Some("r"), ["r"])
  const LEAF := Reader("l", Some("m"), ["r", "m", "l"])
  const FAMILY := Snapshot("w", map["r" := ROOT.record, "m" := MIDDLE.record, "l" := LEAF.record],
                           map["r" := ROOT, "m" := MIDDLE, "l" := LEAF])
  const PLAIN := Config((s: string) => s != "", (r: Record) => r.agentId)
  const READ := Action("read", "file", 0, None, None)

  lemma ReadersValid()
    ensures Entrable(PLAIN, "w", ROOT) && Entrable(PLAIN, "w", MIDDLE) && Entrable(PLAIN, "w", LEAF)
  {
  }

  lemma FamilyVouched()
    ensures Vouched(PLAIN, FAMILY)
  {
    var none := Snapshot("w", map[], map[]);
    var one := Snapshot("w", map["r" := ROOT.record], map["r" := ROOT]);
    var two := Snapshot("w", map["r" := ROOT.record, "m" := MIDDLE.record], map["r" := ROOT, "m" := MIDDLE]);
    assert Vouched(PLAIN, none);
    ReadersValid();
    hide ValidRecord, Entrable, Vouched;
    JoinVouched(PLAIN, none, ROOT);
    assert map["r" := ROOT.record] == none.byRef["r" := ROOT.record] && map["r" := ROOT] == none.byId["r" := ROOT];
    JoinVouched(PLAIN, one, MIDDLE);
    JoinVouched(PLAIN, two, LEAF);
  }

  lemma FamilyChain()
    ensures ChainRefusal(FAMILY, "l", LEAF.record.chain, 0, None, 0) == None
  {
    var chain := LEAF.record.chain;
    assert Narrows(LEAF.record, MIDDLE.record) && Narrows(MIDDLE.record, ROOT.record);
    assert Live(FAMILY, LEAF.record, 0) && Live(FAMILY, MIDDLE.record, 0) && Live(FAMILY, ROOT.record, 0);
    hide Narrows, Live;
    assert ChainRefusal(FAMILY, "l", chain, 3, Some(LEAF.record), 0) == None;
    assert ChainRefusal(FAMILY, "l", chain, 2, Some(MIDDLE.record), 0) == None;
    assert ChainRefusal(FAMILY, "l", chain, 1, Some(ROOT.record), 0) == None;
  }

  lemma FamilyClaims()
    ensures RefusalOf(PLAIN, FAMILY, OwnClaim(PLAIN, FAMILY, "l"), true, 0) == None
    ensures RefusalOf(PLAIN, FAMILY, OwnClaim(PLAIN, FAMILY, "m"), true, 0) == Some(ChainInvalid)
  {
    assert StringList(PLAIN, LEAF.record.chain, false) && StringList(PLAIN, MIDDLE.record.chain, false);
    hide StringList, ChainRefusal, Vouched, ValidRecord;
  }

  /** An agent that records a chain without itself is refused; its delegate is allowed. */
  lemma AncestorRefused()
    ensures Vouched(PLAIN, FAMILY)
    ensures Evaluate(PLAIN, FAMILY, OwnClaim(PLAIN, FAMILY, "l"), true, READ, Some(0)) == Allow
    ensures Evaluate(PLAIN, FAMILY, OwnClaim(PLAIN, FAMILY, "m"), true, READ, Some(0)) == Block(ChainInvalid)
  {
    hide ChainRefusal, RefusalOf, Vouched, ValidRecord;
    FamilyVouched();
    FamilyClaims();
    FamilyChain();
  }

  // ---------------------------------------------------------------- the check, in place

  /** The loop of `validateDelegationChain`. */
  method CheckChain(c: Config, a: Snapshot, identity: Record, chain: seq<string>, now: int) returns (r: Option<Reason>)
    requires Vouched(c, a)
    ensures identity.parent != None ==> (r == None <==> Delegates(a, identity.agentId, chain, now))
    ensures identity.parent == None ==> r == None
    ensures identity.parent != None ==> r == ChainRefusal(a, identity.agentId, chain, 0, None, now)
  {
    hide Delegates, Live, Narrows, ValidRecord;
    if identity.parent == None { return None; }
    ChainExact(c, a, identity.agentId, chain, now);
    var previous: Option<Record> := None;
    var i := 0;
    while i < |chain|
      invariant 0 <= i <= |chain|
      invariant ChainRefusal(a, identity.agentId, chain, 0, None, now) == ChainRefusal(a, identity.agentId, chain, i, previous, now)
    {
      if chain[i] !in a.byId { return Some(ChainInvalid); }
      var record := a.byId[chain[i]].record;
      if !Live(a, record, now) { return Some(ChainInvalid); }
      if previous == None && record.parent != None { return Some(ChainInvalid); }
      if previous.Some? && !Narrows(record, previous.value) { return Some(ScopeExceeded); }
      previous := Some(record);
      i := i + 1;
    }
    if previous == None || previous.value.agentId != identity.agentId { return Some(ChainInvalid); }
    return None;
  }
}
