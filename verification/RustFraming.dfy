/** Byte framing of the Rust bridge: UTF-8 decoding across chunk borders, newline
    framing, and the byte cap.

    The decoder is a machine that keeps back an incomplete character, as sections 3
    and 4 of RFC 3629 allow at most three bytes of one.  The theorem is that the cut of
    the stream into chunks is invisible: lines and remainder depend on the bytes only,
    and for the encoding of a text they are the lines and the remainder of that text.
    The byte cap does see the cut; the second theorem says exactly when it does. */
module RustFraming {
  import opened Options
  import opened Utf8

  // ---------------------------------------------------------------- UTF-8

  /** How many octets the character starting with `lead` takes. */
  function CharLength(lead: Byte): (n: nat)
    ensures 1 <= n <= 4
  {
    if lead < 0xC0 then 1 else if lead < 0xE0 then 2 else if lead < 0xF0 then 3 else 4
  }

  function Scalar(n: int): char {
    if 0 <= n < 0xD800 || 0xE000 <= n < 0x110000 then n as char else '\U{FFFD}'
  }

  function DecodeChar(b: seq<Byte>): char
    requires b != [] && |b| == CharLength(b[0])
  {
    if |b| == 1 then Scalar(b[0])
    else if |b| == 2 then Scalar((b[0] as int - 0xC0) * 64 + Low(b[1]))
    else if |b| == 3 then Scalar((b[0] as int - 0xE0) * 4096 + Low(b[1]) * 64 + Low(b[2]))
    else Scalar((b[0] as int - 0xF0) * 262144 + Low(b[1]) * 4096 + Low(b[2]) * 64 + Low(b[3]))
  }

  /** The payload of a continuation octet. */
  function Low(b: Byte): int { b as int - 0x80 }

  /** What a decoder holds after reading `b`: the complete characters, and the octets
      of the one it has not seen the end of. */
  datatype Scan = Scan(text: string, held: seq<Byte>)

  function Decode(b: seq<Byte>): (r: Scan)
    ensures |r.held| <= 3
    ensures r.held != [] ==> |r.held| < CharLength(r.held[0])
    ensures |r.held| <= |b|
  {
    if b == [] then Scan("", [])
    else if |b| < CharLength(b[0]) then Scan("", b)
    else
      var n := CharLength(b[0]);
      var rest := Decode(b[n..]);
      Scan([DecodeChar(b[..n])] + rest.text, rest.held)
  }

  lemma SixBitGroups(n: nat)
    ensures n == n / 64 * 64 + n % 64
    ensures n / 64 == n / 4096 * 64 + n / 64 % 64
    ensures n / 4096 == n / 262144 * 64 + n / 4096 % 64
  {
  }

  lemma DecodeEncodedChar(c: char)
    ensures var b := EncodeChar(c); |b| == CharLength(b[0]) && DecodeChar(b) == c
  {
    SixBitGroups(c as int);
    var b := EncodeChar(c);
    if |b| == 2 {
      assert (b[0] as int - 0xC0) * 64 + Low(b[1]) == c as int;
    } else if |b| == 3 {
      assert (b[0] as int - 0xE0) * 4096 + Low(b[1]) * 64 + Low(b[2]) == c as int;
    } else if |b| == 4 {
      assert (b[0] as int - 0xF0) * 262144 + Low(b[1]) * 4096 + Low(b[2]) * 64 + Low(b[3]) == c as int;
    }
  }

  lemma DecodeOne(c: char, rest: seq<Byte>)
    ensures Decode(EncodeChar(c) + rest) == Scan([c] + Decode(rest).text, Decode(rest).held)
  {
    hide EncodeChar, DecodeChar, CharLength;
    DecodeEncodedChar(c);
    var b := EncodeChar(c) + rest;
    assert b[..|EncodeChar(c)|] == EncodeChar(c) && b[|EncodeChar(c)|..] == rest;
  }

  /** Decoding undoes encoding. */
  lemma {:induction false} DecodeEncoded(s: string)
    ensures Decode(EncodeText(s)) == Scan(s, [])
  {
    if s != "" {
      hide Decode, EncodeChar;
      DecodeEncoded(s[1..]);
      DecodeOne(s[0], EncodeText(s[1..]));
      assert s == [s[0]] + s[1..];
    }
  }

  /** Reading a chunk after `b` is reading it after the octets `b` left behind. */
  lemma {:induction false} DecodeAppend(b: seq<Byte>, c: seq<Byte>)
    ensures Decode(b + c) ==
      Scan(Decode(b).text + Decode(Decode(b).held + c).text, Decode(Decode(b).held + c).held)
    decreases |b|
  {
    hide Decode, DecodeChar, CharLength;
    DecodeStep(b);
    if b == [] {
      assert b + c == c && [] + c == c;
    } else if |b| >= CharLength(b[0]) {
      var n := CharLength(b[0]);
      assert (b + c)[..n] == b[..n] && (b + c)[n..] == b[n..] + c;
      DecodeStep(b + c);
      DecodeAppend(b[n..], c);
    }
  }

  lemma DecodeStep(b: seq<Byte>)
    ensures if b == [] || |b| < CharLength(b[0]) then Decode(b) == Scan("", b)
      else var n := CharLength(b[0]);
        Decode(b) == Scan([DecodeChar(b[..n])] + Decode(b[n..]).text, Decode(b[n..]).held)
  {
  }

  // ---------------------------------------------------------------- lines

  /** `split('\n')`, seen as the complete lines and the remainder that `pop` takes. */
  datatype Split = Split(lines: seq<string>, rest: string)

  function SplitLines(s: string): (r: Split)
    ensures '\n' !in r.rest
  {
    if s == "" then Split([], "") else Extend(s[0], SplitLines(s[1..]))
  }

  /** The split of a text, from its first character and the split of what follows. */
  function Extend(c: char, r: Split): Split {
    if c == '\n' then Split([""] + r.lines, r.rest)
    else if r.lines == [] then Split([], [c] + r.rest)
    else Split([[c] + r.lines[0]] + r.lines[1..], r.rest)
  }

  /** More text after a split one continues its remainder. */
  function Continue(r: Split, t: string): Split {
    var more := SplitLines(r.rest + t);
    Split(r.lines + more.lines, more.rest)
  }

  lemma ExtendContinue(c: char, r: Split, t: string)
    ensures Extend(c, Continue(r, t)) == Continue(Extend(c, r), t)
  {
    if c == '\n' {
      assert [""] + (r.lines + Continue(r, t).lines) == ([""] + r.lines) + Continue(r, t).lines;
    } else if r.lines == [] {
      assert ([c] + r.rest + t)[1..] == r.rest + t && ([c] + r.rest + t)[0] == c;
    } else {
      var more := SplitLines(r.rest + t).lines;
      assert (r.lines + more)[0] == r.lines[0] && (r.lines + more)[1..] == r.lines[1..] + more;
    }
  }

  lemma {:induction false} SplitAppend(s: string, t: string)
    ensures SplitLines(s + t) == Continue(SplitLines(s), t)
  {
    if s == "" {
      assert s + t == t && "" + t == t;
    } else {
      SplitAppend(s[1..], t);
      assert (s + t)[1..] == s[1..] + t && (s + t)[0] == s[0];
      ExtendContinue(s[0], SplitLines(s[1..]), t);
    }
  }

  /** Joining the lines back with newlines gives the text: `split` loses nothing. */
  function Unsplit(r: Split): string
    decreases |r.lines|
  {
    if r.lines == [] then r.rest else r.lines[0] + "\n" + Unsplit(Split(r.lines[1..], r.rest))
  }

  lemma {:induction false} UnsplitSplit(s: string)
    ensures Unsplit(SplitLines(s)) == s
    ensures forall line | line in SplitLines(s).lines :: '\n' !in line
  {
    if s != "" {
      var r := SplitLines(s[1..]);
      UnsplitSplit(s[1..]);
      if s[0] == '\n' {
        assert ([""] + r.lines)[1..] == r.lines;
      } else if r.lines != [] {
        assert ([[s[0]] + r.lines[0]] + r.lines[1..])[1..] == r.lines[1..];
      }
    }
  }

  // ---------------------------------------------------------------- the reader

  /** The reader's fields: the undispatched text, the byte count checked against the
      cap, and the decoder's held back octets. */
  datatype Reader = Reader(buf: string, bufBytes: nat, held: seq<Byte>)

  const FRESH := Reader("", 0, [])

  datatype Taken = Lines(reader: Reader, lines: seq<string>) | Overflow(reader: Reader)

  /** `_onData` up to the dispatch loop. */
  function OnChunk(r: Reader, chunk: seq<Byte>, cap: nat): Taken {
    var read := Decode(r.held + chunk);
    if r.bufBytes + |chunk| > cap then Overflow(FRESH)
    else
      var split := SplitLines(r.buf + read.text);
      Lines(Reader(split.rest,
                   if split.lines == [] then r.bufBytes + |chunk| else |EncodeText(split.rest)|,
                   read.held),
            split.lines)
  }

  function Flatten(chunks: seq<seq<Byte>>): seq<Byte> {
    if chunks == [] then [] else Flatten(chunks[..|chunks| - 1]) + chunks[|chunks| - 1]
  }

  /** A whole run from a fresh reader; an overflow anywhere makes the run an overflow. */
  function Run(chunks: seq<seq<Byte>>, cap: nat): Taken {
    if chunks == [] then Lines(FRESH, [])
    else
      match Run(chunks[..|chunks| - 1], cap)
      case Overflow(r) => Overflow(r)
      case Lines(r, lines) =>
        match OnChunk(r, chunks[|chunks| - 1], cap)
        case Overflow(q) => Overflow(q)
        case Lines(q, more) => Lines(q, lines + more)
  }

  /** However a byte stream is cut, its lines and what is left over are those of
      decoding the whole stream and splitting the text. */
  lemma {:induction false} FramingIgnoresCuts(chunks: seq<seq<Byte>>, cap: nat)
    requires Run(chunks, cap).Lines?
    ensures var whole := Decode(Flatten(chunks));
      var r := Run(chunks, cap);
      && r.lines == SplitLines(whole.text).lines
      && r.reader.buf == SplitLines(whole.text).rest
      && r.reader.held == whole.held
  {
    if chunks != [] {
      hide Decode, SplitLines;
      var before, last := chunks[..|chunks| - 1], chunks[|chunks| - 1];
      FramingIgnoresCuts(before, cap);
      DecodeAppend(Flatten(before), last);
      SplitAppend(Decode(Flatten(before)).text, Decode(Decode(Flatten(before)).held + last).text);
    } else {
      assert Decode([]) == Scan("", []) && SplitLines("") == Split([], "");
    }
  }

  /** For the UTF-8 encoding of a text the result is that text's own lines: no character
      is lost or replaced at a cut. */
  lemma FramingOfText(text: string, chunks: seq<seq<Byte>>, cap: nat)
    requires Flatten(chunks) == EncodeText(text) && Run(chunks, cap).Lines?
    ensures var r := Run(chunks, cap);
      && r.lines == SplitLines(text).lines && r.reader.buf == SplitLines(text).rest && r.reader.held == []
      && Unsplit(Split(r.lines, r.reader.buf)) == text
  {
    FramingIgnoresCuts(chunks, cap);
    DecodeEncoded(text);
    UnsplitSplit(text);
  }

  // ---------------------------------------------------------------- the cap

  /** The start of an encoded text decodes to octets that are all accounted for. */
  lemma {:induction false} PrefixDecodes(s: string, n: nat)
    requires n <= |EncodeText(s)|
    ensures var r := Decode(EncodeText(s)[..n]);
      EncodeText(r.text) + r.held == EncodeText(s)[..n]
  {
    hide EncodeChar, DecodeChar, CharLength;
    var b := EncodeText(s)[..n];
    if n > 0 {
      var c, rest := EncodeChar(s[0]), EncodeText(s[1..]);
      DecodeEncodedChar(s[0]);
      if n < |c| {
        assert b[0] == c[0];
        assert Decode(b) == Scan("", b);
        assert EncodeText("") + b == b;
      } else {
        var m := n - |c|;
        assert b == c + rest[..m];
        PrefixDecodes(s[1..], m);
        PrefixStep(s[0], rest[..m]);
      }
    }
  }

  lemma PrefixStep(c: char, b: seq<Byte>)
    requires EncodeText(Decode(b).text) + Decode(b).held == b
    ensures var r := Decode(EncodeChar(c) + b); EncodeText(r.text) + r.held == EncodeChar(c) + b
  {
    DecodeOne(c, b);
    hide EncodeChar, Decode;
    var r := Decode(b);
    assert ([c] + r.text)[1..] == r.text;
    assert EncodeChar(c) + EncodeText(r.text) + r.held == EncodeChar(c) + (EncodeText(r.text) + r.held);
  }

  /** Octets the reader really holds: its text and the decoder's. */
  function Really(r: Reader): nat { |EncodeText(r.buf)| + |r.held| }

  /** `bufBytes` misses at most the octets that the decoder held back when the count
      was last reset. */
  ghost predicate Accounted(r: Reader, cap: nat) {
    '\n' !in r.buf && r.bufBytes <= cap && r.bufBytes <= Really(r) <= r.bufBytes + 3
  }

  lemma {:induction false} SplitAfter(buf: string, t: string)
    requires '\n' !in buf
    ensures SplitLines(t).lines == [] <==> SplitLines(buf + t).lines == []
    ensures SplitLines(t).lines == [] ==> SplitLines(buf + t).rest == buf + SplitLines(t).rest
    ensures SplitLines(t).lines != [] ==> SplitLines(buf + t).rest == SplitLines(t).rest
  {
    if buf == "" {
      assert buf + t == t;
    } else {
      SplitAfter(buf[1..], t);
      assert (buf + t)[1..] == buf[1..] + t;
    }
  }

  /** What follows a newline is shorter than the text, by the newline and, unless the
      newline comes first, by the first character. */
  lemma {:induction false} RestShorter(t: string)
    ensures SplitLines(t).lines == [] ==> SplitLines(t).rest == t
    ensures SplitLines(t).lines != [] ==>
      && t != ""
      && |EncodeText(SplitLines(t).rest)| < |EncodeText(t)|
      && (t[0] != '\n' ==> |EncodeText(SplitLines(t).rest)| + |EncodeChar(t[0])| < |EncodeText(t)|)
  {
    hide EncodeChar;
    if t != "" {
      RestShorter(t[1..]);
      assert t == [t[0]] + t[1..];
    }
  }

  lemma ChunkKeepsAccounted(r: Reader, chunk: seq<Byte>, cap: nat)
    requires Accounted(r, cap) && OnChunk(r, chunk, cap).Lines?
    requires r.held != [] ==> |r.held| < CharLength(r.held[0])
    requires var read := Decode(r.held + chunk); EncodeText(read.text) + read.held == r.held + chunk
    ensures Accounted(OnChunk(r, chunk, cap).reader, cap)
  {
    var read := Decode(r.held + chunk);
    hide Decode, SplitLines, EncodeChar, CharLength;
    SplitAfter(r.buf, read.text);
    RestShorter(read.text);
    EncodeAppend(r.buf, read.text);
    if SplitLines(read.text).lines != [] && r.held != [] {
      var c := read.text[0];
      DecodeEncodedChar(c);
      NewlineIsOneOctet();
      assert (r.held + chunk)[0] == EncodeChar(c)[0];
    }
  }

  lemma NewlineIsOneOctet()
    ensures |EncodeChar('\n')| == 1
  {
  }

  /** Over every run on a prefix of a well-formed stream, the octets really held exceed
      neither `bufBytes` by more than 3 nor, therefore, the cap by more than 3. */
  lemma {:induction false} HeldWithinCap(text: string, chunks: seq<seq<Byte>>, cap: nat)
    requires Run(chunks, cap).Lines? && Flatten(chunks) <= EncodeText(text)
    ensures var r := Run(chunks, cap).reader; Accounted(r, cap) && Really(r) <= cap + 3
  {
    if chunks != [] {
      var before, last := chunks[..|chunks| - 1], chunks[|chunks| - 1];
      hide Decode, EncodeText, SplitLines, CharLength;
      HeldWithinCap(text, before, cap);
      FramingIgnoresCuts(before, cap);
      var was := Decode(Flatten(before));
      var read := Decode(was.held + last);
      PrefixDecodes(text, |Flatten(before)|);
      PrefixDecodes(text, |Flatten(chunks)|);
      assert Flatten(before) == EncodeText(text)[..|Flatten(before)|];
      assert Flatten(chunks) == EncodeText(text)[..|Flatten(chunks)|];
      DecodeAppend(Flatten(before), last);
      EncodeAppend(was.text, read.text);
      Cancel(EncodeText(was.text), was.held, last, EncodeText(read.text), read.held);
      ChunkKeepsAccounted(Run(before, cap).reader, last, cap);
    } else {
      assert EncodeText("") == [];
    }
  }

  lemma Cancel(a: seq<Byte>, h: seq<Byte>, c: seq<Byte>, b: seq<Byte>, k: seq<Byte>)
    requires (a + h) + c == (a + b) + k
    ensures b + k == h + c
  {
    assert ((a + h) + c)[|a|..] == h + c;
    assert ((a + b) + k)[|a|..] == b + k;
  }

  lemma FlattenSnoc(chunks: seq<seq<Byte>>, c: seq<Byte>)
    ensures Flatten(chunks + [c]) == Flatten(chunks) + c
  {
    assert (chunks + [c])[..|chunks|] == chunks;
  }

  lemma FlattenOne(c: seq<Byte>)
    ensures Flatten([c]) == c
  {
    FlattenSnoc([], c);
    assert [] + [c] == [c] && Flatten([]) == [] && [] + c == c;
  }

  lemma RunOne(c: seq<Byte>, cap: nat)
    ensures Run([c], cap) == OnChunk(FRESH, c, cap)
  {
    hide OnChunk;
    assert [c][..0] == [];
    assert Run([], cap) == Lines(FRESH, []);
    if OnChunk(FRESH, c, cap).Lines? {
      assert [] + OnChunk(FRESH, c, cap).lines == OnChunk(FRESH, c, cap).lines;
    }
  }

  /** Overflow, unlike framing, does depend on the cut: a whole chunk is counted before
      its complete lines are taken out. */
  lemma OverflowDependsOnCut()
    ensures exists a, b, cap :: Flatten(a) == Flatten(b) && Run(a, cap).Overflow? && Run(b, cap).Lines?
  {
    var line: seq<Byte> := [10];
    var a, b := [line + line], [line, line];
    assert a == [line + line] && b == [line] + [line];
    FlattenOne(line);
    FlattenOne(line + line);
    FlattenSnoc([line], line);
    RunOne(line, 1);
    RunOne(line + line, 1);
    assert line == EncodeText("\n") by { assert EncodeText("\n"[1..]) == []; }
    DecodeEncoded("\n");
    assert [] + line == line && "" + "\n" == "\n";
    assert SplitLines("\n") == Split([""], "");
    assert OnChunk(FRESH, line, 1) == Lines(FRESH, [""]);
    assert b[..1] == [line];
    assert Run(b, 1).Lines?;
  }

  // ---------------------------------------------------------------- when a cut overflows

  /** The octets behind the last newline. */
  function LastLine(b: seq<Byte>): (line: seq<Byte>)
    ensures |line| <= |b| && b[|b| - |line|..] == line && 10 !in line
    ensures |line| < |b| ==> b[|b| - |line| - 1] == 10
  {
    if b == [] || b[|b| - 1] == 10 then [] else LastLine(b[..|b| - 1]) + [b[|b| - 1]]
  }

  /** The most octets of the line's start that a decoder can be made to hold back by
      stopping after at most `room` of them. */
  function Hidden(line: seq<Byte>, room: int): (h: nat)
    ensures h <= |line|
  {
    if line == [] then 0
    else
      var less, here := Hidden(line[..|line| - 1], room), |Decode(line).held|;
      if |line| <= room && less < here then here else less
  }

  /** The count at the end of `line`, when its newline is met with `count`. */
  function NextCount(count: nat, line: seq<Byte>, cap: nat): Option<nat> {
    var left := |line| - Hidden(line, cap - count - 1);
    if count + 1 <= cap && left <= cap then Some(left) else None
  }

  /** The least count that a cut of `b` can leave: a chunk that reaches over a newline
      hides from the count what the decoder holds back at its end.  None when every cut
      overflows. */
  function Least(b: seq<Byte>, cap: nat): Option<nat>
    decreases |b|
  {
    var line := LastLine(b);
    if |line| == |b| then (if |b| <= cap then Some(|b|) else None)
    else
      match Least(b[..|b| - |line| - 1], cap)
      case None => None
      case Some(count) => NextCount(count, line, cap)
  }

  lemma {:induction false} LastLineUnique(a: seq<Byte>, line: seq<Byte>)
    requires 10 !in line
    ensures LastLine(a + [10] + line) == line
    decreases |line|
  {
    if line != [] {
      var b, less, last := a + [10] + line, line[..|line| - 1], line[|line| - 1];
      assert b[..|b| - 1] == a + [10] + less && b[|b| - 1] == last && less + [last] == line;
      assert last in line;
      LastLineUnique(a, less);
    }
  }

  lemma {:induction false} LastLineWhole(b: seq<Byte>)
    requires 10 !in b
    ensures LastLine(b) == b
    decreases |b|
  {
    if b != [] {
      assert b[|b| - 1] in b && b[..|b| - 1] + [b[|b| - 1]] == b;
      LastLineWhole(b[..|b| - 1]);
    }
  }

  lemma LeastWhole(b: seq<Byte>, cap: nat)
    requires 10 !in b
    ensures Least(b, cap) == if |b| <= cap then Some(|b|) else None
  {
    hide LastLine, NextCount;
    LastLineWhole(b);
  }

  /** `Least`, read from a newline on. */
  lemma LeastAfterLine(a: seq<Byte>, line: seq<Byte>, cap: nat)
    requires 10 !in line
    ensures var before := Least(a, cap);
      Least(a + [10] + line, cap) == if before.None? then None else NextCount(before.value, line, cap)
  {
    hide NextCount, LastLine;
    var b := a + [10] + line;
    LastLineUnique(a, line);
    assert b[..|b| - |line| - 1] == a;
  }

  lemma HiddenStep(line: seq<Byte>, y: Byte, room: int)
    ensures Hidden(line, room) <= Hidden(line + [y], room)
    ensures |line| + 1 <= room ==> |Decode(line + [y]).held| <= Hidden(line + [y], room)
  {
    hide Decode;
    assert (line + [y])[..|line|] == line;
  }

  lemma {:induction false} HiddenReached(line: seq<Byte>, room: int) returns (m: nat)
    ensures m <= |line| && (m == 0 || m <= room) && |Decode(line[..m]).held| == Hidden(line, room)
  {
    if line == [] {
      m := 0;
    } else {
      var less := line[..|line| - 1];
      m := HiddenReached(less, room);
      assert less[..m] == line[..m];
      if |Decode(line[..m]).held| != Hidden(line, room) {
        m := |line|;
        assert line[..m] == line;
      }
    }
  }

  lemma LastLineOfSplit(b: seq<Byte>) returns (a: seq<Byte>)
    requires 10 in b
    ensures b == a + [10] + LastLine(b)
  {
    var line := LastLine(b);
    assert |line| != |b| by { assert b[|b| - |line|..] == line; }
    a := b[..|b| - |line| - 1];
  }

  /** One more octet costs at most one. */
  lemma LeastStep(b: seq<Byte>, y: Byte, cap: nat)
    requires Least(b, cap).Some? && Least(b, cap).value + 1 <= cap
    ensures var r := Least(b + [y], cap); r.Some? && r.value <= Least(b, cap).value + 1
  {
    hide Least, LastLine, Hidden;
    if y == 10 {
      LeastAfterLine(b, [], cap);
      assert b + [10] + [] == b + [y];
    } else if 10 in b {
      var line := LastLine(b);
      var a := LastLineOfSplit(b);
      assert b + [y] == a + [10] + (line + [y]);
      LeastAfterLine(a, line, cap);
      LeastAfterLine(a, line + [y], cap);
      HiddenStep(line, y, cap - Least(a, cap).value - 1);
    } else {
      LeastWhole(b, cap);
      LeastWhole(b + [y], cap);
    }
  }

  lemma {:induction false} LeastGrows(b: seq<Byte>, x: seq<Byte>, cap: nat)
    requires Least(b, cap).Some? && Least(b, cap).value + |x| <= cap
    ensures var r := Least(b + x, cap); r.Some? && r.value <= Least(b, cap).value + |x|
    decreases |x|
  {
    if x == [] {
      assert b + x == b;
    } else {
      hide Least, LastLine;
      var less, y := x[..|x| - 1], x[|x| - 1];
      LeastGrows(b, less, cap);
      assert (b + less) + [y] == b + x;
      LeastStep(b + less, y, cap);
    }
  }

  /** Reaching over a newline hides what is held back at the end. */
  lemma LeastOverLine(b: seq<Byte>, x: seq<Byte>, cap: nat)
    requires 10 in x && Least(b, cap).Some? && Least(b, cap).value + |x| <= cap
    ensures LastLine(b + x) == LastLine(x)
    ensures var r := Least(b + x, cap);
      r.Some? && r.value <= |LastLine(x)| - |Decode(LastLine(x)).held|
  {
    hide Least, Decode;
    var line := LastLine(x);
    var a := LastLineOfSplit(x);
    LeastGrows(b, a, cap);
    assert b + x == (b + a) + [10] + line;
    LastLineUnique(b + a, line);
    LeastAfterLine(b + a, line, cap);
    var room := cap - Least(b + a, cap).value - 1;
    if line != [] {
      assert line == line[..|line| - 1] + [line[|line| - 1]];
      HiddenStep(line[..|line| - 1], line[|line| - 1], room);
    } else {
      assert Decode([]).held == [] by { DecodeStep([]); }
    }
  }

  // The octets of a text, seen by line.

  lemma {:induction false} NewlineIn(s: string)
    ensures 10 in EncodeText(s) <==> '\n' in s
  {
    if s != "" {
      NewlineIn(s[1..]);
      assert s == [s[0]] + s[1..];
      NewlineInChar(s[0]);
    }
  }

  lemma NewlineInChar(c: char)
    ensures 10 in EncodeChar(c) <==> c == '\n'
    ensures c == '\n' ==> EncodeChar(c) == [10]
  {
    var n := c as int;
    if n < 0x80 { assert EncodeChar(c) == [n]; }
  }

  lemma {:induction false} SplitAtLast(s: string)
    ensures var r := SplitLines(s);
      if r.lines == [] then r.rest == s && '\n' !in s
      else |r.rest| < |s| && s == s[..|s| - |r.rest| - 1] + "\n" + r.rest
  {
    if s != "" {
      SplitAtLast(s[1..]);
      assert s == [s[0]] + s[1..];
    }
  }

  /** The decoder of a stream holds back no newline. */
  lemma {:induction false} HeldHasNone(s: string, n: nat)
    requires n <= |EncodeText(s)|
    ensures 10 !in Decode(EncodeText(s)[..n]).held
  {
    hide EncodeChar, DecodeChar, CharLength;
    var b := EncodeText(s)[..n];
    if n > 0 {
      var c, rest := EncodeChar(s[0]), EncodeText(s[1..]);
      DecodeEncodedChar(s[0]);
      if n < |c| {
        assert b == c[..n];
        NewlineInChar(s[0]);
      } else {
        assert b == c + rest[..n - |c|];
        HeldHasNone(s[1..], n - |c|);
        DecodeOne(s[0], rest[..n - |c|]);
      }
    }
  }

  /** A text with a newline, in octets: what stands above its last line, and that line. */
  lemma LastLineBehind(s: string, held: seq<Byte>) returns (above: string)
    requires 10 !in held && SplitLines(s).lines != []
    ensures EncodeText(s) == EncodeText(above + "\n") + EncodeText(SplitLines(s).rest)
    ensures LastLine(EncodeText(s) + held) == EncodeText(SplitLines(s).rest) + held
  {
    SplitAtLast(s);
    hide EncodeChar, SplitLines, LastLine;
    var rest := SplitLines(s).rest;
    above := s[..|s| - |rest| - 1];
    assert '\n' !in rest;
    EncodeAppend(above + "\n", rest);
    EncodeAppend(above, "\n");
    NewlineInChar('\n');
    assert EncodeText("\n") == [10] by { assert "\n"[1..] == "" && EncodeText("") == []; }
    NewlineIn(rest);
    var line := EncodeText(rest) + held;
    assert EncodeText(s) + held == EncodeText(above) + [10] + line;
    LastLineUnique(EncodeText(above), line);
  }

  /** The last line of a stream's start: the text behind its last newline, and what the
      decoder holds back. */
  lemma LastLineDecoded(s: string, n: nat)
    requires n <= |EncodeText(s)|
    ensures var b := EncodeText(s)[..n]; var r := Decode(b);
      && LastLine(b) == EncodeText(SplitLines(r.text).rest) + r.held
      && Decode(LastLine(b)).held == r.held
      && (10 in b <==> SplitLines(r.text).lines != [])
  {
    var b := EncodeText(s)[..n];
    var r := Decode(b);
    PrefixDecodes(s, n);
    HeldHasNone(s, n);
    SplitAtLast(r.text);
    hide Decode, EncodeChar, SplitLines, LastLine;
    NewlineIn(r.text);
    if SplitLines(r.text).lines == [] {
      LastLineWhole(b);
    } else {
      var above := LastLineBehind(r.text, r.held);
      var line := LastLine(b);
      DecodeEncoded(above + "\n");
      DecodeAppend(EncodeText(above + "\n"), line);
      assert b == EncodeText(above + "\n") + line && [] + line == line;
    }
  }

  /** The octets that a chunk adds to the decoder's, and their text. */
  lemma ReadOf(s: string, before: seq<Byte>, x: seq<Byte>)
    requires before + x <= EncodeText(s)
    ensures var was := Decode(before); var read := Decode(was.held + x);
      && Decode(before + x) == Scan(was.text + read.text, read.held)
      && ('\n' in read.text <==> 10 in x)
  {
    var n, m := |before|, |before + x|;
    assert before == EncodeText(s)[..n] && before + x == EncodeText(s)[..m];
    hide *;
    PrefixDecodes(s, n);
    PrefixDecodes(s, m);
    HeldHasNone(s, n);
    HeldHasNone(s, m);
    DecodeAppend(before, x);
    var was := Decode(before);
    var read := Decode(was.held + x);
    EncodeAppend(was.text, read.text);
    Cancel(EncodeText(was.text), was.held, x, EncodeText(read.text), read.held);
    NewlineIn(read.text);
    NewlineInBoth(was.held, x);
    NewlineInBoth(EncodeText(read.text), read.held);
  }

  lemma NewlineInBoth(a: seq<Byte>, b: seq<Byte>)
    ensures 10 in a + b <==> 10 in a || 10 in b
  {
  }

  lemma RunSnoc(chunks: seq<seq<Byte>>, x: seq<Byte>, cap: nat)
    requires Run(chunks, cap).Lines?
    ensures var was, r := Run(chunks, cap).reader, Run(chunks + [x], cap);
      var split := SplitLines(was.buf + Decode(was.held + x).text);
      && (r.Lines? <==> was.bufBytes + |x| <= cap)
      && (r.Lines? ==>
            r.reader.bufBytes == if split.lines == [] then was.bufBytes + |x| else |EncodeText(split.rest)|)
  {
    hide Decode, SplitLines, EncodeText;
    assert (chunks + [x])[..|chunks|] == chunks;
  }

  lemma RunNone(cap: nat)
    ensures Run([], cap).Lines? && Run([], cap).reader.bufBytes == 0 && Flatten([]) == []
  {
  }

  /** A chunk passes if the count leaves room for it; one without a newline adds to the count,
      and one with a newline leaves what the decoder has of the last line. */
  lemma CountAfter(s: string, chunks: seq<seq<Byte>>, x: seq<Byte>, cap: nat)
    requires Run(chunks, cap).Lines? && Flatten(chunks) + x <= EncodeText(s)
    ensures var r := Run(chunks + [x], cap);
      var count := Run(chunks, cap).reader.bufBytes + |x|;
      var line := LastLine(Flatten(chunks) + x);
      && (r.Lines? <==> count <= cap)
      && (r.Lines? ==> r.reader.bufBytes == if 10 in x then |line| - |Decode(line).held| else count)
  {
    var before := Flatten(chunks);
    var n := |before + x|;
    assert before + x == EncodeText(s)[..n];
    hide *;
    RunSnoc(chunks, x, cap);
    FramingIgnoresCuts(chunks, cap);
    ReadOf(s, before, x);
    LastLineDecoded(s, n);
    var was := Decode(before);
    var read := Decode(was.held + x);
    var buf := SplitLines(was.text).rest;
    SplitAppend(was.text, read.text);
    SplitAtLast(buf + read.text);
    assert '\n' in buf + read.text <==> '\n' in read.text;
  }

  lemma {:induction false} LeastBelow(s: string, chunks: seq<seq<Byte>>, cap: nat)
    requires Run(chunks, cap).Lines? && Flatten(chunks) <= EncodeText(s)
    ensures var least := Least(Flatten(chunks), cap);
      least.Some? && least.value <= Run(chunks, cap).reader.bufBytes <= |Flatten(chunks)|
  {
    if chunks == [] {
      LeastWhole([], cap);
    } else {
      var before, x := chunks[..|chunks| - 1], chunks[|chunks| - 1];
      assert before + [x] == chunks && Flatten(chunks) == Flatten(before) + x;
      LeastBelow(s, before, cap);
      CountAfter(s, before, x, cap);
      hide Run, Least, LastLine, EncodeText, Decode, Flatten;
      if 10 in x {
        LeastOverLine(Flatten(before), x, cap);
      } else {
        LeastGrows(Flatten(before), x, cap);
      }
    }
  }

  lemma {:induction false} FittingStream(s: string, chunks: seq<seq<Byte>>, cap: nat)
    requires Flatten(chunks) <= EncodeText(s) && |Flatten(chunks)| <= cap
    ensures Run(chunks, cap).Lines?
  {
    if chunks != [] {
      var before, x := chunks[..|chunks| - 1], chunks[|chunks| - 1];
      assert before + [x] == chunks && Flatten(chunks) == Flatten(before) + x;
      FittingStream(s, before, cap);
      LeastBelow(s, before, cap);
      CountAfter(s, before, x, cap);
    }
  }

  /** A line cut once, in a chunk with the newline before it and one that ends it. */
  lemma CutLine(s: string, before: seq<seq<Byte>>, line: seq<Byte>, m: nat, cap: nat) returns (chunks: seq<seq<Byte>>)
    requires Run(before, cap).Lines? && Flatten(before) + [10] + line <= EncodeText(s) && 10 !in line
    requires m <= |line| && Run(before, cap).reader.bufBytes + 1 + m <= cap && |line| - |Decode(line[..m]).held| <= cap
    ensures Flatten(chunks) == Flatten(before) + [10] + line && Run(chunks, cap).Lines?
    ensures Run(chunks, cap).reader.bufBytes == |line| - |Decode(line[..m]).held|
  {
    hide Run, LastLine, EncodeText, Decode, Flatten;
    var a, over, rest := Flatten(before), [10] + line[..m], line[m..];
    assert a + over == a + [10] + line[..m] && (a + over) + rest == a + [10] + line;
    assert 10 !in line[..m] && 10 !in rest;
    LastLineUnique(a, line[..m]);
    FlattenSnoc(before, over);
    CountAfter(s, before, over, cap);
    FlattenSnoc(before + [over], rest);
    CountAfter(s, before + [over], rest, cap);
    chunks := before + [over] + [rest];
  }

  lemma NextCountIs(count: nat, line: seq<Byte>, cap: nat)
    ensures var next := NextCount(count, line, cap);
      next.Some? ==> count + 1 <= cap && next.value == |line| - Hidden(line, cap - count - 1) <= cap
  {
  }

  /** The least count is left by a cut that stops, behind each newline, where most is hidden. */
  lemma {:induction false} LeastReached(s: string, b: seq<Byte>, cap: nat) returns (chunks: seq<seq<Byte>>)
    requires b <= EncodeText(s) && Least(b, cap).Some?
    ensures Flatten(chunks) == b && Run(chunks, cap).Lines? && Run(chunks, cap).reader.bufBytes == Least(b, cap).value
    decreases |b|
  {
    hide *;
    if 10 !in b {
      chunks := [b];
      assert [] + b == b && [] + [b] == [b];
      RunNone(cap);
      FlattenOne(b);
      CountAfter(s, [], b, cap);
      LeastWhole(b, cap);
    } else {
      var line := LastLine(b);
      var a := LastLineOfSplit(b);
      LeastAfterLine(a, line, cap);
      var before := LeastReached(s, a, cap);
      NextCountIs(Least(a, cap).value, line, cap);
      var m := HiddenReached(line, cap - Least(a, cap).value - 1);
      chunks := CutLine(s, before, line, m, cap);
    }
  }

  /** Every cut of a stream's start passes if and only if its octets are within the cap, and
      some cut passes if and only if the least count is defined. */
  lemma OverflowExactly(s: string, n: nat, cap: nat)
    requires n <= |EncodeText(s)|
    ensures (forall chunks | Flatten(chunks) == EncodeText(s)[..n] :: Run(chunks, cap).Lines?) <==> n <= cap
    ensures (exists chunks :: Flatten(chunks) == EncodeText(s)[..n] && Run(chunks, cap).Lines?)
      <==> Least(EncodeText(s)[..n], cap).Some?
  {
    var b := EncodeText(s)[..n];
    FlattenOne(b);
    RunOne(b, cap);
    assert n > cap ==> Run([b], cap).Overflow?;
    hide Run, Least, EncodeText, Flatten, OnChunk;
    forall chunks | Flatten(chunks) == b && n <= cap ensures Run(chunks, cap).Lines? {
      FittingStream(s, chunks, cap);
    }
    forall chunks | Flatten(chunks) == b && Run(chunks, cap).Lines? ensures Least(b, cap).Some? {
      LeastBelow(s, chunks, cap);
    }
    if Least(b, cap).Some? { var chunks := LeastReached(s, b, cap); }
  }
}
