/** The lines of the Rust bridge as JSON: what a process prints arrives as it was printed,
    however its output is cut, and a line `null` keeps a reply from arriving. */
module RustReplies {
  import opened Options
  import opened JsonText
  import opened RustBridge
  import opened RustFraming
  import opened Utf8

  /** What the dispatch loop makes of a value: an id is a number, which `numberOf` reads. */
  function Seen(numberOf: string -> Option<int>, j: Json): Parsed {
    match j
    case JNull => JsonNull
    case JObj(ms) =>
      (match Lookup(ms, "_reqId")
       case Some(JNum(t)) => if numberOf(t).Some? then Reply(numberOf(t).value) else NoRequestId
       case _ => NoRequestId)
    case _ => NoRequestId
  }

  function ParseLine(numberOf: string -> Option<int>, line: string): Parsed {
    match Parse(line)
    case None => if forall c | c in line :: Space(c) then Blank else NotJson
    case Some(j) => Seen(numberOf, j)
  }

  function LineParser(numberOf: string -> Option<int>): Parser { line => ParseLine(numberOf, line) }

  /** The output of a process that prints one value a line. */
  function Output(js: seq<Json>): string { if js == [] then "" else Print(js[0]) + "\n" + Output(js[1..]) }

  function Prints(js: seq<Json>): (r: seq<string>)
    ensures |r| == |js| && forall i | 0 <= i < |js| :: r[i] == Print(js[i])
  {
    if js == [] then [] else [Print(js[0])] + Prints(js[1..])
  }

  lemma {:induction false} LineEnds(s: string)
    requires '\n' !in s
    ensures SplitLines(s + "\n") == Split([s], "")
  {
    if s == "" {
      assert "" + "\n" == "\n" && "\n"[1..] == "";
      assert SplitLines("") == Split([], "");
    } else {
      assert (s + "\n")[1..] == s[1..] + "\n" && (s + "\n")[0] == s[0];
      LineEnds(s[1..]);
      assert [s[0]] + s[1..] == s;
    }
  }

  lemma {:induction false} OutputLines(js: seq<Json>)
    requires forall j | j in js :: WellFormed(j)
    ensures SplitLines(Output(js)) == Split(Prints(js), "")
  {
    if js != [] {
      hide WellFormed, Print, SplitLines;
      var line := Print(js[0]);
      PrintOneLine(js[0]);
      OutputLines(js[1..]);
      LineEnds(line);
      SplitAppend(line + "\n", Output(js[1..]));
      assert "" + Output(js[1..]) == Output(js[1..]);
    } else {
      assert SplitLines("") == Split([], "");
    }
  }

  /** Whatever values a process prints, one a line, and however its output is cut: the lines
      dispatched are the prints in order, each is seen as the value it was, and nothing is left. */
  lemma RepliesArrive(numberOf: string -> Option<int>, js: seq<Json>, chunks: seq<seq<Byte>>, cap: nat)
    requires (forall j | j in js :: WellFormed(j)) && Flatten(chunks) == EncodeText(Output(js)) && Run(chunks, cap).Lines?
    ensures Run(chunks, cap).lines == Prints(js)
    ensures Run(chunks, cap).reader.buf == "" && Run(chunks, cap).reader.held == []
    ensures forall i | 0 <= i < |js| :: ParseLine(numberOf, Prints(js)[i]) == Seen(numberOf, js[i])
  {
    hide WellFormed, Print, Parse, SplitLines, EncodeText, Run;
    FramingOfText(Output(js), chunks, cap);
    OutputLines(js);
    forall i | 0 <= i < |js| ensures ParseLine(numberOf, Prints(js)[i]) == Seen(numberOf, js[i]) {
      ParsePrint(js[i]);
    }
  }

  const REPLY := JObj([Member("_reqId", JNum("1"))])

  const ASKED := Bridge(FRESH, [1], 2, true, false, [1], [])

  /** A chunk of whole lines, all of it within the cap. */
  lemma WholeLines(b: Bridge, js: seq<Json>, parse: Parser, cap: nat)
    requires (forall j | j in js :: WellFormed(j)) && js != [] && b.reader == FRESH && |EncodeText(Output(js))| <= cap
    ensures Step(b, Data(EncodeText(Output(js))), parse, cap) == Dispatch(b, Prints(js), parse)
  {
    var chunk := EncodeText(Output(js));
    hide WellFormed, Print, SplitLines, EncodeText, Dispatch;
    OutputLines(js);
    DecodeEncoded(Output(js));
    assert [] + chunk == chunk && "" + Output(js) == Output(js);
    EncodeNothing();
  }

  lemma EncodeNothing()
    ensures EncodeText("") == []
  {
  }

  lemma AskedAfterSend(parse: Parser, cap: nat)
    ensures After([Send(Spawned)], parse, cap) == ASKED
  {
    assert [Send(Spawned)][..0] == [];
    assert After([], parse, cap) == INITIAL;
    assert [] + [1] == [1];
  }

  lemma ReplySeen(numberOf: string -> Option<int>)
    requires numberOf("1") == Some(1)
    ensures WellFormed(REPLY) && ParseLine(numberOf, Print(REPLY)) == Reply(1)
    ensures ParseLine(numberOf, Print(JNull)) == JsonNull
  {
    assert ValidNumber("1") by { assert "1"[1..] == ""; }
    hide ValidNumber, Parse, Print;
    ParsePrint(REPLY);
    ParsePrint(JNull);
    assert Lookup(REPLY.members, "_reqId") == Some(JNum("1"));
  }

  lemma OutputsApart()
    ensures Output([JNull, REPLY]) == Output([JNull]) + Output([REPLY])
    ensures Prints([JNull]) == [Print(JNull)] && Prints([REPLY]) == [Print(REPLY)]
    ensures Prints([JNull, REPLY]) == [Print(JNull), Print(REPLY)]
  {
    hide Print;
    assert [JNull, REPLY][1..] == [REPLY] && [JNull][1..] == [] && [REPLY][1..] == [];
  }

  lemma DispatchNull(b: Bridge, line: string, rest: seq<string>, parse: Parser)
    requires parse(line) == JsonNull
    ensures Dispatch(b, [line] + rest, parse) == b
  {
  }

  lemma DispatchReply(line: string, parse: Parser)
    requires parse(line) == Reply(1)
    ensures Dispatch(ASKED, [line], parse) == ASKED.(pending := [], settled := [Settlement(1, Answered(line))])
  {
    assert Without([1], 1) == [] by { assert [1][1..] == []; }
    assert [line][1..] == [];
    DispatchNothing(DispatchLine(ASKED, line, parse), parse);
  }

  /** A reply printed behind a null line never reaches the request it answers, if one chunk
      brings both lines; if they come apart it does. */
  lemma NullLineStopsReply(numberOf: string -> Option<int>, cap: nat)
    requires numberOf("1") == Some(1) && |EncodeText(Output([JNull, REPLY]))| <= cap
    ensures After([Send(Spawned)], LineParser(numberOf), cap) == ASKED
    ensures Step(ASKED, Data(EncodeText(Output([JNull, REPLY]))), LineParser(numberOf), cap) == ASKED
    ensures EncodeText(Output([JNull, REPLY])) == EncodeText(Output([JNull])) + EncodeText(Output([REPLY]))
    ensures var first := Step(ASKED, Data(EncodeText(Output([JNull]))), LineParser(numberOf), cap);
      Step(first, Data(EncodeText(Output([REPLY]))), LineParser(numberOf), cap)
      == ASKED.(pending := [], settled := [Settlement(1, Answered(Print(REPLY)))])
  {
    var parse := LineParser(numberOf);
    AskedAfterSend(parse, cap);
    ReplySeen(numberOf);
    OutputsApart();
    assert ASKED.reader == FRESH && WellFormed(JNull);
    assert parse(Print(JNull)) == JsonNull && parse(Print(REPLY)) == Reply(1);
    hide *;
    EncodeAppend(Output([JNull]), Output([REPLY]));
    WholeLines(ASKED, [JNull, REPLY], parse, cap);
    WholeLines(ASKED, [JNull], parse, cap);
    WholeLines(ASKED, [REPLY], parse, cap);
    DispatchNull(ASKED, Print(JNull), [Print(REPLY)], parse);
    DispatchNull(ASKED, Print(JNull), [], parse);
    DispatchReply(Print(REPLY), parse);
    assert [Print(JNull)] + [] == [Print(JNull)] && [Print(JNull)] + [Print(REPLY)] == [Print(JNull), Print(REPLY)];
  }
}
