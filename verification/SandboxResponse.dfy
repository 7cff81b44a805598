/** How a sandbox result travels from the child process to its parent.

    The child splices an already printed value, as raw text, into its response line;
    the parent parses that line.  The theorems compose the bounded encoder, the
    splice and the parser: for every value but a top-level function or symbol the
    parent recovers exactly the tree the value unfolds to. */
module SandboxResponse {
  import opened Options
  import opened Utf8
  import opened JsonText
  import opened BoundedJson

  /** What `childResult` returns: printed data with its meta record, or a refusal. */
  datatype ChildResult = Finished(dataJson: string, meta: Json) | Refused(response: Json)

  const BEFORE_DATA := "{\"ok\":true,\"data\":"
  const BEFORE_META := ",\"error\":null,\"meta\":"

  /** `writeChildResponse`. */
  function WriteResponse(r: ChildResult): string {
    match r
    case Finished(dataJson, meta) => BEFORE_DATA + dataJson + BEFORE_META + Print(meta) + "}"
    case Refused(response) => Print(response)
  }

  /** The child prints null for an undefined result, and any other result as it is. */
  function Printed(v: Value): Value { if v.VUndefined? then VNull else v }

  function RunChild(h: Heap, lim: Limits, v: Value, meta: Json, refusal: Error -> Json): ChildResult {
    match Stringify(h, lim, Printed(v))
    case Done(text, _) => Finished(text, meta)
    case Thrown(e) => Refused(refusal(e))
  }

  // ---------------------------------------------------------------- the parent

  /** `{...ms, key: v}`: an existing member keeps its place. */
  function WithMember(ms: seq<Member>, key: string, v: Json): seq<Member> {
    if ms == [] then [Member(key, v)]
    else if ms[0].key == key then [Member(key, v)] + Dropping(ms[1..], key)
    else [ms[0]] + WithMember(ms[1..], key, v)
  }

  /** Without later members of one name, which a parsed object does not have. */
  function Dropping(ms: seq<Member>, key: string): seq<Member> {
    if ms == [] then [] else if ms[0].key == key then Dropping(ms[1..], key) else [ms[0]] + Dropping(ms[1..], key)
  }

  /** What `runSandboxed` returns after a child that exited normally. */
  datatype ParentResult = Success(data: Option<Json>, meta: Json) | Failure(response: Json) | Invalid

  function Index(n: nat): string { if n < 10 then [('0' as int + n) as char] else Index(n / 10) + Index(n % 10) }

  function Indexed(es: seq<Json>, from: nat): seq<Member> {
    if es == [] then [] else [Member(Index(from), es[0])] + Indexed(es[1..], from + 1)
  }

  /** The members that `{...j}` copies. */
  function Spread(j: Json): seq<Member> {
    match j
    case JObj(ms) => ms
    case JArr(es) => Indexed(es, 0)
    case JStr(s) => Indexed(seq(|s|, i requires 0 <= i < |s| => JStr([s[i]])), 0)
    case _ => []
  }

  predicate ZeroToken(t: string) { t == "" || t[0] in "eE" || (t[0] in "-.0" && ZeroToken(t[1..])) }

  predicate Falsy(j: Json) { j.JNull? || j == JBool(false) || j == JStr("") || (j.JNum? && ZeroToken(j.token)) }

  /** `response.meta || meta`. */
  function MetaOf(meta: Option<Json>, fallback: seq<Member>): seq<Member> {
    if meta.Some? && !Falsy(meta.value) then Spread(meta.value) else fallback
  }

  function Stamped(meta: Option<Json>, fallback: seq<Member>, ab6: Json): Json {
    JObj(WithMember(MetaOf(meta, fallback), "ab6", ab6))
  }

  function MetaIn(j: Json): Option<Json> { if j.JObj? then Lookup(j.members, "meta") else None }

  predicate Succeeds(j: Json) { j.JObj? && Lookup(j.members, "ok") == Some(JBool(true)) }

  /** The response decoding at the end of `runSandboxed`.  `fallback` is the parent's own
      meta record and `ab6` the admission verdict, which overrides the child's. */
  function ReadResponse(stdout: string, fallback: seq<Member>, ab6: Json): ParentResult {
    match Parse(stdout)
    case None => Invalid
    case Some(j) =>
      if j.JNull? then Invalid
      else if Succeeds(j) then Success(Lookup(j.members, "data"), Stamped(MetaIn(j), fallback, ab6))
      else Failure(JObj(WithMember(Spread(j), "meta", Stamped(MetaIn(j), fallback, ab6))))
  }

  // ---------------------------------------------------------------- round trip

  function ResponseMembers(data: Json, meta: Json): seq<Member> {
    [Member("ok", JBool(true)), Member("data", data), Member("error", JNull), Member("meta", meta)]
  }

  lemma QuotedKeys()
    ensures Quote("ok") == "\"ok\"" && Quote("data") == "\"data\""
    ensures Quote("error") == "\"error\"" && Quote("meta") == "\"meta\""
  {
    hide Escape;
    PlainEscape("ok");
    PlainEscape("data");
    PlainEscape("error");
    PlainEscape("meta");
  }

  lemma {:induction false} PlainEscape(s: string)
    requires forall i | 0 <= i < |s| :: 'a' <= s[i] <= 'z'
    ensures Escape(s) == s
  {
    if s != "" { PlainEscape(s[1..]); }
  }

  lemma PrintFourMembers(ms: seq<Member>)
    requires |ms| == 4
    ensures PrintMembers(ms) ==
      PrintMember(ms[0]) + "," + (PrintMember(ms[1]) + "," + (PrintMember(ms[2]) + "," + PrintMember(ms[3])))
  {
    hide PrintMember;
    assert ms[1..][1..] == ms[2..] && ms[2..][1..] == ms[3..];
    assert PrintMembers(ms[3..]) == PrintMember(ms[3]);
    assert PrintMembers(ms[2..]) == PrintMember(ms[2]) + "," + PrintMembers(ms[3..]);
    assert PrintMembers(ms[1..]) == PrintMember(ms[1]) + "," + PrintMembers(ms[2..]);
  }

  /** Splicing raw text is the same as printing the whole response. */
  lemma SpliceIsPrint(data: Json, meta: Json)
    ensures WriteResponse(Finished(Print(data), meta)) == Print(JObj(ResponseMembers(data, meta)))
  {
    var ms := ResponseMembers(data, meta);
    assert WriteResponse(Finished(Print(data), meta)) == BEFORE_DATA + Print(data) + BEFORE_META + Print(meta) + "}";
    assert ms[0] == Member("ok", JBool(true)) && ms[1] == Member("data", data) && ms[2] == Member("error", JNull) && ms[3] == Member("meta", meta);
    hide *;
    FrameTexts();
    PrintFourMembers(ms);
    PrintWords(ms);
    MemberParts("ok", JBool(true));
    MemberParts("data", data);
    MemberParts("error", JNull);
    MemberParts("meta", meta);
    Regroup(PrintMember(ms[0]), Quote("data") + ":", Print(data), PrintMember(ms[2]), Quote("meta") + ":", Print(meta));
  }

  lemma FrameTexts()
    ensures BEFORE_DATA == "{" + (Quote("ok") + ":" + "true") + "," + (Quote("data") + ":")
    ensures BEFORE_META == "," + (Quote("error") + ":" + "null") + "," + (Quote("meta") + ":")
  {
    hide Quote;
    QuotedKeys();
  }

  lemma Regroup(a: string, b: string, c: string, d: string, e: string, f: string)
    ensures ("{" + a + "," + b) + c + ("," + d + "," + e) + f + "}" ==
      "{" + (a + "," + ((b + c) + "," + (d + "," + (e + f)))) + "}"
  {
  }

  lemma PrintWords(ms: seq<Member>)
    ensures Print(JBool(true)) == "true" && Print(JNull) == "null"
    ensures Print(JObj(ms)) == "{" + PrintMembers(ms) + "}"
  {
  }

  lemma MemberParts(key: string, value: Json)
    ensures PrintMember(Member(key, value)) == Quote(key) + ":" + Print(value)
  {
    hide Escape;
  }

  lemma LookupStep(ms: seq<Member>, n: nat, key: string)
    requires n < |ms|
    ensures Lookup(ms[..n + 1], key) == if ms[n].key == key then Some(ms[n].value) else Lookup(ms[..n], key)
  {
    assert ms[..n + 1][..n] == ms[..n];
  }

  lemma ResponseLookups(data: Json, meta: Json)
    ensures var ms := ResponseMembers(data, meta);
      Lookup(ms, "ok") == Some(JBool(true)) && Lookup(ms, "data") == Some(data) && Lookup(ms, "meta") == Some(meta)
  {
    hide Lookup;
    var ms := ResponseMembers(data, meta);
    assert ms[..4] == ms;
    LookupStep(ms, 3, "meta");
    LookupStep(ms, 3, "data");
    LookupStep(ms, 2, "data");
    LookupStep(ms, 1, "data");
    LookupStep(ms, 3, "ok");
    LookupStep(ms, 2, "ok");
    LookupStep(ms, 1, "ok");
    LookupStep(ms, 0, "ok");
    assert "meta"[0] != "ok"[0] && "data"[0] != "ok"[0] && "error"[0] != "ok"[0];
    assert "meta"[0] != "data"[0] && "error"[0] != "data"[0];
  }

  lemma ResponseWellFormed(data: Json, meta: Json)
    requires WellFormed(data) && WellFormed(meta)
    ensures WellFormed(JObj(ResponseMembers(data, meta)))
  {
    hide Print, Parse, ReadValue, Lookup, ValidNumber;
  }

  /** Printing, splicing and parsing together are the identity on a finite tree. */
  lemma SpliceRoundTrip(data: Json, meta: Json)
    requires WellFormed(data) && WellFormed(meta)
    ensures Parse(WriteResponse(Finished(Print(data), meta))) == Some(JObj(ResponseMembers(data, meta)))
  {
    hide *;
    ResponseWellFormed(data, meta);
    SpliceIsPrint(data, meta);
    ParsePrint(JObj(ResponseMembers(data, meta)));
  }

  /** With nothing between the colon and the comma the response is not JSON. */
  lemma EmptyDataIsInvalid(meta: Json, fallback: seq<Member>, ab6: Json)
    ensures ReadResponse(WriteResponse(Finished("", meta)), fallback, ab6) == Invalid
  {
    hide Print, Escape, ReadValue, ReadMembers, ReadMember, SkipSpace;
    QuotedKeys();
    var tail := BEFORE_META + Print(meta) + "}";
    var second := Quote("data") + ":" + tail;
    var first := Quote("ok") + ":" + ("true" + ("," + second));
    assert WriteResponse(Finished("", meta)) == "{" + first;
    NoValueAtComma(tail, second);
    ReadMemberStep("data", tail);
    ReadTrue("," + second);
    ReadMemberStep("ok", "true" + ("," + second));
    assert "," + second == [','] + second;
    ReadMembersStep(first, Member("ok", JBool(true)), ',', second);
    ReadObject(first);
  }

  lemma NoValueAtComma(tail: string, s: string)
    ensures tail != "" && tail[0] == ',' ==> ReadValue(tail) == Bad
    ensures ReadMember(s) == Bad ==> ReadMembers(s) == Bad
  {
  }

  lemma ReadTrue(rest: string)
    requires Delimited(rest)
    ensures ReadValue("true" + rest) == Got(JBool(true), rest)
  {
    ReadPrinted(JBool(true), rest);
    assert Print(JBool(true)) == "true";
  }

  /** The parent recovers, for every result the child could print, exactly the tree the
      result unfolds to, whatever the object graph; a top-level function or symbol is
      the one printable result that it cannot read. */
  lemma ParentRecoversResult(h: Heap, lim: Limits, v: Value, meta: seq<Member>, refusal: Error -> Json, fallback: seq<Member>, ab6: Json)
    returns (j: Json)
    requires Closed(h) && Live(h, v) && WellFormed(JObj(meta))
    requires RunChild(h, lim, v, JObj(meta), refusal).Finished?
    ensures !v.VOpaque? ==> Unfolds(h, Printed(v), j) && Fits(lim, j)
    ensures ReadResponse(WriteResponse(RunChild(h, lim, v, JObj(meta), refusal)), fallback, ab6) ==
      if v.VOpaque? then Invalid else Success(Some(j), JObj(WithMember(meta, "ab6", ab6)))
  {
    if v.VOpaque? {
      j := JNull;
      StringifyUnprintable(h, lim, v);
      EmptyDataIsInvalid(JObj(meta), fallback, ab6);
    } else {
      StringifyExact(h, lim, Printed(v));
      j :| Unfolds(h, Printed(v), j) && Fits(lim, j);
      assert WellFormed(j);
      assert RunChild(h, lim, v, JObj(meta), refusal) == Finished(Print(j), JObj(meta));
      hide *;
      ParentReads(j, meta, fallback, ab6);
    }
  }

  lemma ParentReads(data: Json, meta: seq<Member>, fallback: seq<Member>, ab6: Json)
    requires WellFormed(data) && WellFormed(JObj(meta))
    ensures ReadResponse(WriteResponse(Finished(Print(data), JObj(meta))), fallback, ab6) ==
      Success(Some(data), JObj(WithMember(meta, "ab6", ab6)))
  {
    hide Print, Parse, Lookup, WithMember, WellFormed, WriteResponse, Index, Indexed, ZeroToken;
    SpliceRoundTrip(data, JObj(meta));
    ResponseLookups(data, JObj(meta));
  }

  // ---------------------------------------------------------------- what the parent's members are

  lemma {:induction false} LookupAppend(a: seq<Member>, b: seq<Member>, key: string)
    ensures Lookup(a + b, key) == if Lookup(b, key).Some? then Lookup(b, key) else Lookup(a, key)
    decreases |b|
  {
    if b == [] {
      assert a + b == a;
    } else {
      assert (a + b)[..|a + b| - 1] == a + b[..|b| - 1];
      LookupAppend(a, b[..|b| - 1], key);
    }
  }

  lemma LookupFirst(m: Member, ms: seq<Member>, key: string)
    ensures Lookup([m] + ms, key) == if Lookup(ms, key).Some? then Lookup(ms, key) else if m.key == key then Some(m.value) else None
  {
    LookupAppend([m], ms, key);
    assert [m][..0] == [];
    assert Lookup([], key) == None;
  }

  lemma {:induction false} LookupDropping(ms: seq<Member>, key: string, k: string)
    ensures Lookup(Dropping(ms, key), k) == if k == key then None else Lookup(ms, k)
    decreases |ms|
  {
    hide Lookup;
    if ms == [] {
      LookupNone(k);
    } else {
      assert ms == [ms[0]] + ms[1..];
      LookupFirst(ms[0], ms[1..], k);
      LookupDropping(ms[1..], key, k);
      LookupFirst(ms[0], Dropping(ms[1..], key), k);
    }
  }

  lemma LookupNone(k: string)
    ensures Lookup([], k) == None
  {
  }

  /** A member set is the only one of its name, and the others stay as they were. */
  lemma {:induction false} LookupWith(ms: seq<Member>, key: string, v: Json, k: string)
    ensures Lookup(WithMember(ms, key, v), k) == if k == key then Some(v) else Lookup(ms, k)
    decreases |ms|
  {
    hide Lookup;
    LookupNone(k);
    if ms == [] {
      assert WithMember(ms, key, v) == [Member(key, v)] + [];
      LookupFirst(Member(key, v), [], k);
    } else {
      assert ms == [ms[0]] + ms[1..];
      LookupFirst(ms[0], ms[1..], k);
      if ms[0].key == key {
        LookupDropping(ms[1..], key, k);
        LookupFirst(Member(key, v), Dropping(ms[1..], key), k);
      } else {
        LookupWith(ms[1..], key, v, k);
        LookupFirst(ms[0], WithMember(ms[1..], key, v), k);
      }
    }
  }

  /** The record of members `ms`, but with the parent's verdict over the child's. */
  ghost predicate Verdict(meta: Json, ms: seq<Member>, ab6: Json) {
    meta.JObj? && forall k :: Lookup(meta.members, k) == if k == "ab6" then Some(ab6) else Lookup(ms, k)
  }

  /** A refusal comes back as a failure with the child's own members, and under `meta` the
      child's record, or the parent's if it sent none, with the parent's verdict over it. */
  lemma ParentReadsRefusal(j: Json, fallback: seq<Member>, ab6: Json)
    requires WellFormed(j) && !j.JNull? && !Succeeds(j)
    ensures var p := ReadResponse(WriteResponse(Refused(j)), fallback, ab6);
      && p.Failure? && p.response.JObj?
      && (forall k | k != "meta" :: Lookup(p.response.members, k) == Lookup(Spread(j), k))
      && Lookup(p.response.members, "meta").Some?
      && Verdict(Lookup(p.response.members, "meta").value, MetaOf(MetaIn(j), fallback), ab6)
  {
    hide *;
    RefusalWritten(j);
    ParsePrint(j);
    var stamped := Stamped(MetaIn(j), fallback, ab6);
    FailureRead(Print(j), j, fallback, ab6);
    forall k ensures Lookup(WithMember(Spread(j), "meta", stamped), k) == if k == "meta" then Some(stamped) else Lookup(Spread(j), k) {
      LookupWith(Spread(j), "meta", stamped, k);
    }
    StampedVerdict(MetaIn(j), fallback, ab6);
  }

  lemma RefusalWritten(j: Json)
    ensures WriteResponse(Refused(j)) == Print(j)
  {
    hide Print;
  }

  lemma FailureRead(text: string, j: Json, fallback: seq<Member>, ab6: Json)
    requires Parse(text) == Some(j) && !j.JNull? && !Succeeds(j)
    ensures ReadResponse(text, fallback, ab6) == Failure(JObj(WithMember(Spread(j), "meta", Stamped(MetaIn(j), fallback, ab6))))
  {
    hide Parse, Lookup, WithMember, Stamped, Spread, Succeeds;
  }

  lemma StampedVerdict(meta: Option<Json>, fallback: seq<Member>, ab6: Json)
    ensures Verdict(Stamped(meta, fallback, ab6), MetaOf(meta, fallback), ab6)
  {
    hide Lookup, WithMember, MetaOf;
    var ms := MetaOf(meta, fallback);
    forall k ensures Lookup(WithMember(ms, "ab6", ab6), k) == if k == "ab6" then Some(ab6) else Lookup(ms, k) {
      LookupWith(ms, "ab6", ab6, k);
    }
  }

  /** Only what is not JSON, or is null, is an invalid response; only `ok: true` is a success. */
  lemma ResponseKinds(stdout: string, fallback: seq<Member>, ab6: Json)
    ensures var p := ReadResponse(stdout, fallback, ab6);
      && (p.Invalid? <==> Parse(stdout) == None || Parse(stdout) == Some(JNull))
      && (p.Success? <==> Parse(stdout).Some? && Parse(stdout).value.JObj? && Lookup(Parse(stdout).value.members, "ok") == Some(JBool(true)))
      && (p.Success? ==> p.data == Lookup(Parse(stdout).value.members, "data"))
  {
    hide Parse, Lookup, Stamped, WithMember, Spread;
  }

  lemma {:induction false} AsciiBytes(s: string)
    requires forall i | 0 <= i < |s| :: s[i] as int < 0x80
    ensures Bytes(s) == |s|
  {
    if s != "" { AsciiBytes(s[1..]); }
  }

  /** The spliced response is as long as its two payloads and 40 bytes of frame: quotes
      inside the data are not escaped a second time. */
  lemma ResponseBytes(dataJson: string, meta: Json)
    ensures Bytes(WriteResponse(Finished(dataJson, meta))) == Bytes(dataJson) + Bytes(Print(meta)) + 40
  {
    hide Bytes, Print;
    AsciiBytes(BEFORE_DATA);
    AsciiBytes(BEFORE_META);
    AsciiBytes("}");
    BytesConcat(BEFORE_DATA, dataJson);
    BytesConcat(BEFORE_DATA + dataJson, BEFORE_META);
    BytesConcat(BEFORE_DATA + dataJson + BEFORE_META, Print(meta));
    BytesConcat(BEFORE_DATA + dataJson + BEFORE_META + Print(meta), "}");
  }
}
