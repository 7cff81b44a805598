/** The sandbox's bounded JSON encoder, run over an object graph.

    JavaScript objects live in a heap, so two fields may share one object and an
    object may reach itself.  `Encode` states what the recursive encoder does, limits
    and thrown errors included, and class `Encoder` is that code.  The theorem is
    about `Unfolds`: a graph value stands for a finite JSON tree, or for none when it
    is cyclic or holds a bigint.  The encoder succeeds exactly when there is a tree
    within both limits, and it then writes the plain print of that tree. */
module BoundedJson {
  import opened Utf8
  import opened JsonText

  type Id = nat

  /** A JavaScript value.  `VOpaque` stands for a function or a symbol. */
  datatype Value =
    | VNull
    | VStr(s: string)
    | VNum(token: string)
    | VNonFinite
    | VBool(b: bool)
    | VUndefined
    | VOpaque
    | VBigInt
    | VRef(id: Id)

  datatype Prop = Prop(key: string, value: Value)

  datatype Node = Arr(items: seq<Value>) | Obj(props: seq<Prop>)

  type Heap = map<Id, Node>

  datatype Limits = Limits(maxBytes: nat, maxDepth: nat)

  /** What is thrown.  `Dangling` stands for a reference to no object, which no
      JavaScript graph holds: `Closed` excludes it. */
  datatype Error = ByteLimit | DepthLimit | Circular | BigInt | Dangling

  predicate Unprintable(v: Value) { v.VUndefined? || v.VOpaque? }

  predicate Live(h: Heap, v: Value) {
    match v
    case VRef(id) => id in h
    case VNum(t) => ValidNumber(t)
    case _ => true
  }

  /** Every reference leads to a node, and finite numbers print as JSON numbers. */
  predicate Closed(h: Heap) {
    forall id | id in h ::
      match h[id]
      case Arr(items) => forall i | 0 <= i < |items| :: Live(h, items[i])
      case Obj(props) => forall i | 0 <= i < |props| :: Live(h, props[i].value)
  }

  // ---------------------------------------------------------------- meaning of a value

  /** `v` unfolds to the finite tree `j`: references are followed, printable-free
      members are dropped, and an array slot that cannot be printed is null. */
  ghost predicate Unfolds(h: Heap, v: Value, j: Json)
    decreases j, 0
  {
    match v
    case VNull => j == JNull
    case VStr(s) => j == JStr(s)
    case VNum(t) => j == JNum(t)
    case VNonFinite => j == JNull
    case VBool(b) => j == JBool(b)
    case VUndefined => false
    case VOpaque => false
    case VBigInt => false
    case VRef(id) =>
      id in h &&
      match h[id]
      case Arr(items) => j.JArr? && UnfoldsItems(h, items, j.elems)
      case Obj(props) => j.JObj? && UnfoldsProps(h, props, j.members)
  }

  ghost predicate UnfoldsItems(h: Heap, items: seq<Value>, js: seq<Json>)
    decreases js, 1
  {
    |items| == |js| &&
    (items == [] ||
     ((if Unprintable(items[0]) then js[0] == JNull else Unfolds(h, items[0], js[0])) &&
      UnfoldsItems(h, items[1..], js[1..])))
  }

  ghost predicate UnfoldsProps(h: Heap, props: seq<Prop>, ms: seq<Member>)
    decreases ms, 1, |props|
  {
    if props == [] then ms == []
    else if Unprintable(props[0].value) then UnfoldsProps(h, props[1..], ms)
    else
      && ms != []
      && ms[0].key == props[0].key
      && Unfolds(h, props[0].value, ms[0].value)
      && UnfoldsProps(h, props[1..], ms[1..])
  }

  function Max(a: nat, b: nat): nat { if a < b then b else a }

  /** Nesting depth: 0 for scalars and for empty containers. */
  function Depth(j: Json): nat
    decreases j, 0
  {
    match j
    case JArr(es) => DepthElems(es)
    case JObj(ms) => DepthMembers(ms)
    case _ => 0
  }

  function DepthElems(es: seq<Json>): nat
    decreases es, 1
  {
    if es == [] then 0 else Max(1 + Depth(es[0]), DepthElems(es[1..]))
  }

  function DepthMembers(ms: seq<Member>): nat
    decreases ms, 1
  {
    if ms == [] then 0 else Max(1 + Depth(ms[0].value), DepthMembers(ms[1..]))
  }

  /** The number of nodes, used to show that a finite tree has no cycle. */
  function Size(j: Json): nat
    decreases j, 0
  {
    match j
    case JArr(es) => 1 + SizeElems(es)
    case JObj(ms) => 1 + SizeMembers(ms)
    case _ => 1
  }

  function SizeElems(es: seq<Json>): nat
    decreases es, 1
  {
    if es == [] then 0 else Size(es[0]) + SizeElems(es[1..])
  }

  function SizeMembers(ms: seq<Member>): nat
    decreases ms, 1
  {
    if ms == [] then 0 else Size(ms[0].value) + SizeMembers(ms[1..])
  }

  // ---------------------------------------------------------------- the encoder

  /** Either the text a call wrote and whether it wrote anything, or what it threw. */
  datatype Outcome = Done(text: string, wrote: bool) | Thrown(error: Error)

  /** `appendJsonChunk`, when `used` bytes are already written. */
  function Append(lim: Limits, used: nat, chunk: string): Outcome {
    if used + Bytes(chunk) > lim.maxBytes then Thrown(ByteLimit) else Done(chunk, true)
  }

  /** The scalar cases of `encodeJsonValue`. */
  function EncodeScalar(lim: Limits, v: Value, used: nat, inArray: bool): Outcome
    requires !v.VRef?
  {
    match v
    case VNull => Append(lim, used, "null")
    case VStr(s) => Append(lim, used, Quote(s))
    case VNum(t) => Append(lim, used, t)
    case VNonFinite => Append(lim, used, "null")
    case VBool(b) => Append(lim, used, if b then "true" else "false")
    case VUndefined => if inArray then Append(lim, used, "null") else Done("", false)
    case VOpaque => if inArray then Append(lim, used, "null") else Done("", false)
    case VBigInt => Thrown(BigInt)
  }

  /** `encodeJsonValue`: what it writes after `used` bytes, or the error it throws.
      Every bracket, comma and colon is one byte. */
  function Encode(h: Heap, lim: Limits, v: Value, used: nat, seen: set<Id>, depth: nat, inArray: bool): Outcome
    decreases h.Keys - seen, 0
  {
    if depth > lim.maxDepth then Thrown(DepthLimit)
    else if !v.VRef? then EncodeScalar(lim, v, used, inArray)
    else if v.id !in h then Thrown(Dangling)
    else if v.id in seen then Thrown(Circular)
    else if used + 1 > lim.maxBytes then Thrown(ByteLimit)
    else
      assert h.Keys - (seen + {v.id}) < h.Keys - seen;
      match h[v.id]
      case Arr(items) =>
        var body := EncodeItems(h, lim, items, true, used + 1, seen + {v.id}, depth + 1);
        Enclosed(lim, used, "[", body, "]")
      case Obj(props) =>
        var body := EncodeProps(h, lim, props, false, used + 1, seen + {v.id}, depth + 1);
        Enclosed(lim, used, "{", body, "}")
  }

  function Enclosed(lim: Limits, used: nat, open: string, body: Outcome, close: string): Outcome {
    if body.Thrown? then body
    else if used + 1 + Bytes(body.text) + 1 > lim.maxBytes then Thrown(ByteLimit)
    else Done(open + body.text + close, true)
  }

  function EncodeItems(h: Heap, lim: Limits, items: seq<Value>, first: bool, used: nat, seen: set<Id>, depth: nat): Outcome
    decreases h.Keys - seen, |items| + 1
  {
    if items == [] then Done("", true)
    else if used + |Comma(first)| > lim.maxBytes then Thrown(ByteLimit)
    else
      var one := Encode(h, lim, items[0], used + |Comma(first)|, seen, depth, true);
      if one.Thrown? then one
      else
        var rest := EncodeItems(h, lim, items[1..], false, used + |Comma(first)| + Bytes(one.text), seen, depth);
        if rest.Thrown? then rest else Done(Comma(first) + one.text + rest.text, true)
  }

  function EncodeProps(h: Heap, lim: Limits, props: seq<Prop>, wrote: bool, used: nat, seen: set<Id>, depth: nat): Outcome
    decreases h.Keys - seen, |props| + 1
  {
    if props == [] then Done("", true)
    else if Unprintable(props[0].value) then EncodeProps(h, lim, props[1..], wrote, used, seen, depth)
    else
      var key := Quote(props[0].key);
      var before := used + |Comma(!wrote)| + Bytes(key) + 1;
      if before > lim.maxBytes then Thrown(ByteLimit)
      else
        var one := Encode(h, lim, props[0].value, before, seen, depth, false);
        if one.Thrown? then one
        else
          var rest := EncodeProps(h, lim, props[1..], true, before + Bytes(one.text), seen, depth);
          if rest.Thrown? then rest else Done(Comma(!wrote) + key + ":" + one.text + rest.text, true)
  }

  function Comma(first: bool): string { if first then "" else "," }

  // ---------------------------------------------------------------- what it writes

  /** The text an array's remaining elements contribute. */
  function Listed(es: seq<Json>, first: bool): string {
    if es == [] then "" else Comma(first) + Print(es[0]) + Listed(es[1..], false)
  }

  function ListedMembers(ms: seq<Member>, first: bool): string {
    if ms == [] then "" else Comma(first) + PrintMember(ms[0]) + ListedMembers(ms[1..], false)
  }

  lemma {:induction false} ListedIsPrint(es: seq<Json>)
    ensures Listed(es, true) == PrintElems(es)
  {
    hide Print;
    if |es| > 1 {
      ListedIsPrint(es[1..]);
      assert Listed(es[1..], false) == "," + Listed(es[1..], true);
    }
  }

  lemma {:induction false} ListedMembersIsPrint(ms: seq<Member>)
    ensures ListedMembers(ms, true) == PrintMembers(ms)
  {
    hide Print, PrintMember, Escape;
    if |ms| > 1 {
      ListedMembersIsPrint(ms[1..]);
      assert ListedMembers(ms[1..], false) == "," + ListedMembers(ms[1..], true);
    }
  }

  lemma BytesPunctuation()
    ensures Bytes("[") == Bytes("]") == Bytes("{") == Bytes("}") == Bytes(",") == Bytes(":") == 1
    ensures Bytes("") == 0
  {
  }

  lemma ListedBytes(es: seq<Json>, first: bool)
    requires es != []
    ensures Bytes(Listed(es, first)) == |Comma(first)| + Bytes(Print(es[0])) + Bytes(Listed(es[1..], false))
  {
    hide Print, Bytes;
    BytesPunctuation();
    BytesConcat(Comma(first), Print(es[0]));
    BytesConcat(Comma(first) + Print(es[0]), Listed(es[1..], false));
  }

  lemma JoinBytes(first: bool, key: string, value: string, rest: string)
    ensures Bytes(Comma(first) + key + ":" + value + rest) == |Comma(first)| + Bytes(key) + 1 + Bytes(value) + Bytes(rest)
  {
    hide Bytes;
    BytesPunctuation();
    BytesConcat(Comma(first), key);
    BytesConcat(Comma(first) + key, ":");
    BytesConcat(Comma(first) + key + ":", value);
    BytesConcat(Comma(first) + key + ":" + value, rest);
  }

  lemma ListedMembersParts(ms: seq<Member>, first: bool)
    requires ms != []
    ensures ListedMembers(ms, first) ==
      Comma(first) + Quote(ms[0].key) + ":" + Print(ms[0].value) + ListedMembers(ms[1..], false)
  {
    hide Print, Escape;
    var q, p := Quote(ms[0].key), Print(ms[0].value);
    assert PrintMember(ms[0]) == q + ":" + p;
    assert Comma(first) + (q + ":" + p) == Comma(first) + q + ":" + p;
  }

  lemma ListedMembersBytes(ms: seq<Member>, first: bool)
    requires ms != []
    ensures Bytes(ListedMembers(ms, first)) ==
      |Comma(first)| + Bytes(Quote(ms[0].key)) + 1 + Bytes(Print(ms[0].value)) + Bytes(ListedMembers(ms[1..], false))
  {
    hide Print, Escape, Bytes, ListedMembers;
    ListedMembersParts(ms, first);
    JoinBytes(first, Quote(ms[0].key), Print(ms[0].value), ListedMembers(ms[1..], false));
  }

  lemma PrintArray(es: seq<Json>)
    ensures Print(JArr(es)) == "[" + Listed(es, true) + "]"
    ensures Bytes(Print(JArr(es))) == 2 + Bytes(Listed(es, true))
  {
    hide Bytes, Listed, PrintElems;
    ListedIsPrint(es);
    BytesPunctuation();
    BytesConcat("[", Listed(es, true));
    BytesConcat("[" + Listed(es, true), "]");
  }

  lemma PrintObject(ms: seq<Member>)
    ensures Print(JObj(ms)) == "{" + ListedMembers(ms, true) + "}"
    ensures Bytes(Print(JObj(ms))) == 2 + Bytes(ListedMembers(ms, true))
  {
    hide Bytes, ListedMembers, PrintMembers;
    ListedMembersIsPrint(ms);
    BytesPunctuation();
    BytesConcat("{", ListedMembers(ms, true));
    BytesConcat("{" + ListedMembers(ms, true), "}");
  }

  /** The tree of a scalar that can be printed in this position. */
  function ScalarTree(v: Value): Json {
    match v
    case VStr(s) => JStr(s)
    case VNum(t) => JNum(t)
    case VBool(b) => JBool(b)
    case _ => JNull
  }

  /** A tree of a live value prints only valid number tokens. */
  lemma {:induction false} UnfoldsWellFormed(h: Heap, v: Value, j: Json)
    requires Closed(h) && Live(h, v) && Unfolds(h, v, j)
    ensures WellFormed(j)
    decreases j, 0
  {
    if v.VRef? {
      match h[v.id]
      case Arr(items) => ItemsWellFormed(h, items, j.elems);
      case Obj(props) => PropsWellFormed(h, props, j.members);
    }
  }

  lemma {:induction false} ItemsWellFormed(h: Heap, items: seq<Value>, es: seq<Json>)
    requires Closed(h) && (forall i | 0 <= i < |items| :: Live(h, items[i])) && UnfoldsItems(h, items, es)
    ensures forall i | 0 <= i < |es| :: WellFormed(es[i])
    decreases es, 1
  {
    if items != [] {
      if !Unprintable(items[0]) { UnfoldsWellFormed(h, items[0], es[0]); }
      ItemsWellFormed(h, items[1..], es[1..]);
      assert es == [es[0]] + es[1..];
    }
  }

  lemma {:induction false} PropsWellFormed(h: Heap, props: seq<Prop>, ms: seq<Member>)
    requires Closed(h) && (forall i | 0 <= i < |props| :: Live(h, props[i].value)) && UnfoldsProps(h, props, ms)
    ensures forall i | 0 <= i < |ms| :: WellFormed(ms[i].value)
    decreases ms, 1, |props|
  {
    if props != [] {
      if Unprintable(props[0].value) {
        PropsWellFormed(h, props[1..], ms);
      } else {
        UnfoldsWellFormed(h, props[0].value, ms[0].value);
        PropsWellFormed(h, props[1..], ms[1..]);
        assert ms == [ms[0]] + ms[1..];
      }
    }
  }

  // ---------------------------------------------------------------- when it succeeds

  /** A value unfolds to at most one tree. */
  lemma {:induction false} UnfoldsOnce(h: Heap, v: Value, j: Json, k: Json)
    requires Unfolds(h, v, j) && Unfolds(h, v, k)
    ensures j == k
    decreases j, 0
  {
    if v.VRef? {
      match h[v.id]
      case Arr(items) => UnfoldsItemsOnce(h, items, j.elems, k.elems);
      case Obj(props) => UnfoldsPropsOnce(h, props, j.members, k.members);
    }
  }

  lemma {:induction false} UnfoldsItemsOnce(h: Heap, items: seq<Value>, js: seq<Json>, ks: seq<Json>)
    requires UnfoldsItems(h, items, js) && UnfoldsItems(h, items, ks)
    ensures js == ks
    decreases js, 1
  {
    if items != [] {
      if !Unprintable(items[0]) { UnfoldsOnce(h, items[0], js[0], ks[0]); }
      UnfoldsItemsOnce(h, items[1..], js[1..], ks[1..]);
      assert js == [js[0]] + js[1..] && ks == [ks[0]] + ks[1..];
    }
  }

  lemma {:induction false} UnfoldsPropsOnce(h: Heap, props: seq<Prop>, js: seq<Member>, ks: seq<Member>)
    requires UnfoldsProps(h, props, js) && UnfoldsProps(h, props, ks)
    ensures js == ks
    decreases js, 1, |props|
  {
    if props != [] {
      if Unprintable(props[0].value) {
        UnfoldsPropsOnce(h, props[1..], js, ks);
      } else {
        UnfoldsOnce(h, props[0].value, js[0].value, ks[0].value);
        UnfoldsPropsOnce(h, props[1..], js[1..], ks[1..]);
        assert js == [js[0]] + js[1..] && ks == [ks[0]] + ks[1..];
      }
    }
  }

  /** Each object being printed unfolds to a tree with more than `n` nodes: what is
      inside it is smaller, so it cannot be that object again. */
  ghost predicate Outside(h: Heap, seen: set<Id>, n: int) {
    forall id | id in seen :: exists t :: Unfolds(h, VRef(id), t) && Size(t) > n
  }

  /** Only a limit can stop the print of a value that has a tree: either the whole
      text `full` is written and fits, or the limit that was hit is really exceeded. */
  ghost predicate StopsOnlyAtLimit(lim: Limits, r: Outcome, full: string, total: nat, depth: int) {
    match r
    case Done(text, _) => text == full && total <= lim.maxBytes && depth <= lim.maxDepth
    case Thrown(e) => (e == ByteLimit && total > lim.maxBytes) || (e == DepthLimit && depth > lim.maxDepth)
  }

  lemma OutsideLess(h: Heap, seen: set<Id>, n: int, m: int)
    requires Outside(h, seen, n) && m <= n
    ensures Outside(h, seen, m)
  {
    forall id | id in seen ensures exists t :: Unfolds(h, VRef(id), t) && Size(t) > m {
      var t :| Unfolds(h, VRef(id), t) && Size(t) > n;
    }
  }

  lemma EnterKeepsOutside(h: Heap, seen: set<Id>, id: Id, j: Json)
    requires Outside(h, seen, Size(j)) && Unfolds(h, VRef(id), j)
    ensures id !in seen && Outside(h, seen + {id}, Size(j) - 1)
  {
    if id in seen {
      var t :| Unfolds(h, VRef(id), t) && Size(t) > Size(j);
      UnfoldsOnce(h, VRef(id), t, j);
    }
  }

  lemma ScalarComplete(lim: Limits, v: Value, j: Json, used: nat, depth: nat, inArray: bool)
    requires !v.VRef? && !v.VBigInt? && (Unprintable(v) ==> inArray)
    requires j == ScalarTree(v) && depth <= lim.maxDepth
    ensures StopsOnlyAtLimit(lim, EncodeScalar(lim, v, used, inArray), Print(j), used + Bytes(Print(j)), depth + Depth(j))
  {
  }

  lemma EnclosedArray(lim: Limits, es: seq<Json>, body: Outcome, used: nat, depth: nat)
    requires StopsOnlyAtLimit(lim, body, Listed(es, true), used + 1 + Bytes(Listed(es, true)), depth + DepthElems(es))
    ensures StopsOnlyAtLimit(lim, Enclosed(lim, used, "[", body, "]"), Print(JArr(es)), used + Bytes(Print(JArr(es))), depth + Depth(JArr(es)))
  {
    PrintArray(es);
  }

  lemma EnclosedObject(lim: Limits, ms: seq<Member>, body: Outcome, used: nat, depth: nat)
    requires StopsOnlyAtLimit(lim, body, ListedMembers(ms, true), used + 1 + Bytes(ListedMembers(ms, true)), depth + DepthMembers(ms))
    ensures StopsOnlyAtLimit(lim, Enclosed(lim, used, "{", body, "}"), Print(JObj(ms)), used + Bytes(Print(JObj(ms))), depth + Depth(JObj(ms)))
  {
    PrintObject(ms);
  }

  /** A list stops at a limit if its first part does, or else if its rest does. */
  lemma ItemsStep(h: Heap, lim: Limits, items: seq<Value>, first: bool, used: nat, seen: set<Id>, depth: nat,
                  text: string, rest: string, d: int, e: int)
    requires items != []
    requires used + |Comma(first)| <= lim.maxBytes
    requires var at := used + |Comma(first)|;
      var one := Encode(h, lim, items[0], at, seen, depth, true);
      && StopsOnlyAtLimit(lim, one, text, at + Bytes(text), d)
      && (one.Done? ==> StopsOnlyAtLimit(lim, EncodeItems(h, lim, items[1..], false, at + Bytes(text), seen, depth),
                                         rest, at + Bytes(text) + Bytes(rest), e))
    ensures StopsOnlyAtLimit(lim, EncodeItems(h, lim, items, first, used, seen, depth),
                             Comma(first) + text + rest, used + |Comma(first)| + Bytes(text) + Bytes(rest), if d < e then e else d)
  {
    hide Encode, EncodeProps, Bytes;
  }

  lemma PropsStep(h: Heap, lim: Limits, props: seq<Prop>, wrote: bool, used: nat, seen: set<Id>, depth: nat,
                  text: string, rest: string, d: int, e: int)
    requires props != []
    requires !Unprintable(props[0].value)
    requires used + |Comma(!wrote)| + Bytes(Quote(props[0].key)) + 1 <= lim.maxBytes
    requires var at := used + |Comma(!wrote)| + Bytes(Quote(props[0].key)) + 1;
      var one := Encode(h, lim, props[0].value, at, seen, depth, false);
      && StopsOnlyAtLimit(lim, one, text, at + Bytes(text), d)
      && (one.Done? ==> StopsOnlyAtLimit(lim, EncodeProps(h, lim, props[1..], true, at + Bytes(text), seen, depth),
                                         rest, at + Bytes(text) + Bytes(rest), e))
    ensures StopsOnlyAtLimit(lim, EncodeProps(h, lim, props, wrote, used, seen, depth),
                             Comma(!wrote) + Quote(props[0].key) + ":" + text + rest,
                             used + |Comma(!wrote)| + Bytes(Quote(props[0].key)) + 1 + Bytes(text) + Bytes(rest), if d < e then e else d)
  {
    hide Encode, EncodeItems, Bytes, Escape;
  }

  /** A successful run has a tree that `v` unfolds to, has written its print, and has stayed
      within both limits; `seen` may be any objects. */
  lemma {:induction false} EncodeSound(h: Heap, lim: Limits, v: Value, used: nat, seen: set<Id>, depth: nat, inArray: bool)
    returns (j: Json)
    requires (Unprintable(v) ==> inArray) && used <= lim.maxBytes
    requires Encode(h, lim, v, used, seen, depth, inArray).Done?
    ensures if Unprintable(v) then j == JNull else Unfolds(h, v, j)
    ensures StopsOnlyAtLimit(lim, Encode(h, lim, v, used, seen, depth, inArray), Print(j), used + Bytes(Print(j)), depth + Depth(j))
    decreases h.Keys - seen, 0
  {
    hide EncodeItems, EncodeProps, UnfoldsItems, UnfoldsProps, Bytes, Escape, Print, Depth, StopsOnlyAtLimit;
    if v.VRef? {
      assert h.Keys - (seen + {v.id}) < h.Keys - seen;
      match h[v.id]
      case Arr(items) =>
        var es := ItemsSound(h, lim, items, true, used + 1, seen + {v.id}, depth + 1);
        EnclosedArray(lim, es, EncodeItems(h, lim, items, true, used + 1, seen + {v.id}, depth + 1), used, depth);
        j := JArr(es);
      case Obj(props) =>
        var ms := PropsSound(h, lim, props, false, used + 1, seen + {v.id}, depth + 1);
        EnclosedObject(lim, ms, EncodeProps(h, lim, props, false, used + 1, seen + {v.id}, depth + 1), used, depth);
        j := JObj(ms);
    } else {
      j := ScalarTree(v);
      ScalarComplete(lim, v, j, used, depth, inArray);
    }
  }

  lemma {:induction false} ItemsSound(h: Heap, lim: Limits, items: seq<Value>, first: bool, used: nat, seen: set<Id>, depth: nat)
    returns (es: seq<Json>)
    requires EncodeItems(h, lim, items, first, used, seen, depth).Done? && used <= lim.maxBytes && 0 < depth <= lim.maxDepth + 1
    ensures UnfoldsItems(h, items, es)
    ensures StopsOnlyAtLimit(lim, EncodeItems(h, lim, items, first, used, seen, depth),
                             Listed(es, first), used + Bytes(Listed(es, first)), depth - 1 + DepthElems(es))
    decreases h.Keys - seen, |items| + 1
  {
    hide Encode, EncodeProps, Unfolds, UnfoldsProps, Bytes, Print, Depth;
    BytesPunctuation();
    if items == [] {
      es := [];
    } else {
      var at := used + |Comma(first)|;
      var e := EncodeSound(h, lim, items[0], at, seen, depth, true);
      var next := at + Bytes(Print(e));
      var rest := ItemsSound(h, lim, items[1..], false, next, seen, depth);
      es := [e] + rest;
      assert es[1..] == rest;
      ListedBytes(es, first);
      ItemsStep(h, lim, items, first, used, seen, depth, Print(e), Listed(rest, false), depth + Depth(e), depth - 1 + DepthElems(rest));
    }
  }

  lemma {:induction false} PropsSound(h: Heap, lim: Limits, props: seq<Prop>, wrote: bool, used: nat, seen: set<Id>, depth: nat)
    returns (ms: seq<Member>)
    requires EncodeProps(h, lim, props, wrote, used, seen, depth).Done? && used <= lim.maxBytes && 0 < depth <= lim.maxDepth + 1
    ensures UnfoldsProps(h, props, ms)
    ensures StopsOnlyAtLimit(lim, EncodeProps(h, lim, props, wrote, used, seen, depth),
                             ListedMembers(ms, !wrote), used + Bytes(ListedMembers(ms, !wrote)), depth - 1 + DepthMembers(ms))
    decreases h.Keys - seen, |props| + 1
  {
    hide Encode, EncodeItems, Unfolds, UnfoldsItems, Bytes, Escape, Print, Depth, ListedMembers;
    if props == [] {
      ms := [];
      BytesPunctuation();
      NoneListed(!wrote);
    } else if Unprintable(props[0].value) {
      ms := PropsSound(h, lim, props[1..], wrote, used, seen, depth);
    } else {
      var at := used + |Comma(!wrote)| + Bytes(Quote(props[0].key)) + 1;
      var j := EncodeSound(h, lim, props[0].value, at, seen, depth, false);
      var next := at + Bytes(Print(j));
      var rest := PropsSound(h, lim, props[1..], true, next, seen, depth);
      ms := [Member(props[0].key, j)] + rest;
      assert ms[1..] == rest;
      ListedMembersParts(ms, !wrote);
      ListedMembersBytes(ms, !wrote);
      PropsStep(h, lim, props, wrote, used, seen, depth, Print(j), ListedMembers(rest, false), depth + Depth(j), depth - 1 + DepthMembers(rest));
    }
  }

  lemma NoneListed(first: bool)
    ensures ListedMembers([], first) == ""
  {
  }

  lemma {:induction false} EncodeComplete(h: Heap, lim: Limits, v: Value, j: Json, used: nat, seen: set<Id>, depth: nat, inArray: bool)
    requires Unprintable(v) ==> inArray
    requires if Unprintable(v) then j == JNull else Unfolds(h, v, j)
    requires Outside(h, seen, Size(j)) && used <= lim.maxBytes
    ensures StopsOnlyAtLimit(lim, Encode(h, lim, v, used, seen, depth, inArray), Print(j), used + Bytes(Print(j)), depth + Depth(j))
    decreases j, 0
  {
    hide EncodeItems, EncodeProps, UnfoldsItems, UnfoldsProps, Bytes, Escape, Print, Depth, Size;
    if depth <= lim.maxDepth {
      if !v.VRef? {
        ScalarComplete(lim, v, j, used, depth, inArray);
      } else {
        EnterKeepsOutside(h, seen, v.id, j);
        match h[v.id]
        case Arr(items) => ArrayComplete(h, lim, v.id, items, j, used, seen, depth, inArray);
        case Obj(props) => ObjectComplete(h, lim, v.id, props, j, used, seen, depth, inArray);
      }
    }
  }

  lemma {:induction false} ArrayComplete(h: Heap, lim: Limits, id: Id, items: seq<Value>, j: Json, used: nat, seen: set<Id>, depth: nat, inArray: bool)
    requires id in h && h[id] == Arr(items) && Unfolds(h, VRef(id), j)
    requires id !in seen && Outside(h, seen + {id}, Size(j) - 1) && used <= lim.maxBytes && depth <= lim.maxDepth
    ensures StopsOnlyAtLimit(lim, Encode(h, lim, VRef(id), used, seen, depth, inArray), Print(j), used + Bytes(Print(j)), depth + Depth(j))
    decreases j, 0, 0
  {
    hide EncodeItems, EncodeProps, UnfoldsItems, UnfoldsProps, Bytes, Print, SizeElems, DepthElems, Listed;
    if used + 1 <= lim.maxBytes {
      ItemsComplete(h, lim, items, j.elems, true, used + 1, seen + {id}, depth + 1);
      EnclosedArray(lim, j.elems, EncodeItems(h, lim, items, true, used + 1, seen + {id}, depth + 1), used, depth);
    } else {
      PrintArray(j.elems);
    }
  }

  lemma {:induction false} ObjectComplete(h: Heap, lim: Limits, id: Id, props: seq<Prop>, j: Json, used: nat, seen: set<Id>, depth: nat, inArray: bool)
    requires id in h && h[id] == Obj(props) && Unfolds(h, VRef(id), j)
    requires id !in seen && Outside(h, seen + {id}, Size(j) - 1) && used <= lim.maxBytes && depth <= lim.maxDepth
    ensures StopsOnlyAtLimit(lim, Encode(h, lim, VRef(id), used, seen, depth, inArray), Print(j), used + Bytes(Print(j)), depth + Depth(j))
    decreases j, 0, 0
  {
    hide EncodeItems, EncodeProps, UnfoldsItems, UnfoldsProps, Bytes, Print, SizeMembers, DepthMembers, ListedMembers;
    if used + 1 <= lim.maxBytes {
      PropsComplete(h, lim, props, j.members, false, used + 1, seen + {id}, depth + 1);
      EnclosedObject(lim, j.members, EncodeProps(h, lim, props, false, used + 1, seen + {id}, depth + 1), used, depth);
    } else {
      PrintObject(j.members);
    }
  }

  lemma {:induction false} ItemsComplete(h: Heap, lim: Limits, items: seq<Value>, es: seq<Json>, first: bool, used: nat, seen: set<Id>, depth: nat)
    requires UnfoldsItems(h, items, es)
    requires Outside(h, seen, SizeElems(es)) && used <= lim.maxBytes && 0 < depth <= lim.maxDepth + 1
    ensures StopsOnlyAtLimit(lim, EncodeItems(h, lim, items, first, used, seen, depth),
                             Listed(es, first), used + Bytes(Listed(es, first)), depth - 1 + DepthElems(es))
    decreases es, 1
  {
    hide Encode, EncodeProps, Unfolds, UnfoldsProps, Bytes, Print, Depth, Size;
    BytesPunctuation();
    if items != [] {
      var e, rest := es[0], Listed(es[1..], false);
      var at := used + |Comma(first)|;
      var next := at + Bytes(Print(e));
      ListedBytes(es, first);
      OutsideLess(h, seen, SizeElems(es), Size(e));
      OutsideLess(h, seen, SizeElems(es), SizeElems(es[1..]));
      if at <= lim.maxBytes {
        EncodeComplete(h, lim, items[0], e, at, seen, depth, true);
        if next <= lim.maxBytes { ItemsComplete(h, lim, items[1..], es[1..], false, next, seen, depth); }
        ItemsStep(h, lim, items, first, used, seen, depth, Print(e), rest, depth + Depth(e), depth - 1 + DepthElems(es[1..]));
      }
    }
  }

  lemma {:induction false} PropsComplete(h: Heap, lim: Limits, props: seq<Prop>, ms: seq<Member>, wrote: bool, used: nat, seen: set<Id>, depth: nat)
    requires UnfoldsProps(h, props, ms)
    requires Outside(h, seen, SizeMembers(ms)) && used <= lim.maxBytes && 0 < depth <= lim.maxDepth + 1
    ensures StopsOnlyAtLimit(lim, EncodeProps(h, lim, props, wrote, used, seen, depth),
                             ListedMembers(ms, !wrote), used + Bytes(ListedMembers(ms, !wrote)), depth - 1 + DepthMembers(ms))
    decreases ms, 1, |props|
  {
    hide Encode, EncodeItems, Unfolds, UnfoldsItems, Bytes, Escape, Print, Depth, Size;
    BytesPunctuation();
    if props != [] {
      if Unprintable(props[0].value) {
        PropsComplete(h, lim, props[1..], ms, wrote, used, seen, depth);
      } else {
        PrintedPropComplete(h, lim, props, ms, wrote, used, seen, depth);
      }
    }
  }

  lemma {:induction false} PrintedPropComplete(h: Heap, lim: Limits, props: seq<Prop>, ms: seq<Member>, wrote: bool, used: nat, seen: set<Id>, depth: nat)
    requires UnfoldsProps(h, props, ms)
    requires props != [] && !Unprintable(props[0].value)
    requires Outside(h, seen, SizeMembers(ms)) && used <= lim.maxBytes && 0 < depth <= lim.maxDepth + 1
    ensures StopsOnlyAtLimit(lim, EncodeProps(h, lim, props, wrote, used, seen, depth),
                             ListedMembers(ms, !wrote), used + Bytes(ListedMembers(ms, !wrote)), depth - 1 + DepthMembers(ms))
    decreases ms, 1, |props|, 0
  {
    hide Encode, EncodeItems, Unfolds, UnfoldsItems, ListedMembers, Bytes, Escape, Print, Depth, Size, Outside;
    var j, rest := ms[0].value, ListedMembers(ms[1..], false);
    var at := used + |Comma(!wrote)| + Bytes(Quote(ms[0].key)) + 1;
    var next := at + Bytes(Print(j));
    ListedMembersParts(ms, !wrote);
    ListedMembersBytes(ms, !wrote);
    OutsideLess(h, seen, SizeMembers(ms), Size(j));
    OutsideLess(h, seen, SizeMembers(ms), SizeMembers(ms[1..]));
    if at <= lim.maxBytes {
      EncodeComplete(h, lim, props[0].value, j, at, seen, depth, false);
      if next <= lim.maxBytes { PropsComplete(h, lim, props[1..], ms[1..], true, next, seen, depth); }
      PropsStep(h, lim, props, wrote, used, seen, depth, Print(j), rest, depth + Depth(j), depth - 1 + DepthMembers(ms[1..]));
    }
  }

  /** `stringifyBounded`: a run from an empty state at depth 0. */
  function Stringify(h: Heap, lim: Limits, v: Value): Outcome
  {
    Encode(h, lim, v, 0, {}, 0, false)
  }

  ghost predicate Fits(lim: Limits, j: Json) { Depth(j) <= lim.maxDepth && Bytes(Print(j)) <= lim.maxBytes }

  /** The encoder returns exactly the values that unfold to a tree within both limits,
      and what it returns is the plain print of that tree. */
  lemma StringifyExact(h: Heap, lim: Limits, v: Value)
    requires Closed(h) && Live(h, v) && !Unprintable(v)
    ensures Stringify(h, lim, v).Done? <==> exists j :: Unfolds(h, v, j) && Fits(lim, j)
    ensures forall j | Unfolds(h, v, j) && Fits(lim, j) :: Stringify(h, lim, v).text == Print(j) && WellFormed(j)
  {
    hide Encode, Bytes, Print, Depth, Unfolds, WellFormed;
    if Stringify(h, lim, v).Done? {
      var j := EncodeSound(h, lim, v, 0, {}, 0, false);
      UnfoldsWellFormed(h, v, j);
      assert Fits(lim, j);
      forall k | Unfolds(h, v, k) ensures k == j { UnfoldsOnce(h, v, j, k); }
    } else {
      forall j | Unfolds(h, v, j) ensures !Fits(lim, j) {
        EncodeComplete(h, lim, v, j, 0, {}, 0, false);
      }
    }
  }

  /** What a thrown error means: a cycle or bigint error is thrown only when there is
      no finite tree, and a limit error only when every tree exceeds that limit. */
  lemma StringifyErrors(h: Heap, lim: Limits, v: Value, j: Json)
    requires Unfolds(h, v, j) && Stringify(h, lim, v).Thrown?
    ensures match Stringify(h, lim, v).error
            case ByteLimit => Bytes(Print(j)) > lim.maxBytes
            case DepthLimit => Depth(j) > lim.maxDepth
            case Circular => false
            case BigInt => false
            case Dangling => false
  {
    hide Encode, Bytes, Print, Depth, UnfoldsItems, UnfoldsProps;
    EncodeComplete(h, lim, v, j, 0, {}, 0, false);
  }

  /** A top-level undefined, function or symbol is not an error: nothing is written. */
  lemma StringifyUnprintable(h: Heap, lim: Limits, v: Value)
    requires Unprintable(v)
    ensures Stringify(h, lim, v) == Done("", false)
  {
  }

  // ---------------------------------------------------------------- cycles

  /** What an object holds. */
  function Held(n: Node): (r: seq<Value>)
    ensures n.Arr? ==> r == n.items
    ensures n.Obj? ==> |r| == |n.props| && forall i | 0 <= i < |r| :: r[i] == n.props[i].value
  {
    match n
    case Arr(items) => items
    case Obj(props) => seq(|props|, i requires 0 <= i < |props| => props[i].value)
  }

  /** A way along references: the objects that `v` leads through. */
  ghost predicate Path(h: Heap, v: Value, p: seq<Id>)
    decreases |p|
  {
    p != [] ==>
      && v == VRef(p[0]) && p[0] in h
      && (|p| > 1 ==> exists w :: w in Held(h[p[0]]) && Path(h, w, p[1..]))
  }

  predicate Distinct(p: seq<Id>) { forall i, k | 0 <= i < k < |p| :: p[i] != p[k] }

  predicate NoBigInt(h: Heap, id: Id) { id in h ==> forall w | w in Held(h[id]) :: !w.VBigInt? }

  /** No way from the value comes back to an object on it, or to one that holds a bigint. */
  ghost predicate Acyclic(h: Heap, v: Value) {
    !v.VBigInt? && forall p | Path(h, v, p) :: Distinct(p) && forall id | id in p :: NoBigInt(h, id)
  }

  /** What a tree's object holds has smaller trees of its own. */
  lemma HeldTree(h: Heap, id: Id, j: Json, w: Value) returns (t: Json)
    requires Unfolds(h, VRef(id), j) && w in Held(h[id]) && !Unprintable(w)
    ensures Unfolds(h, w, t) && Size(t) < Size(j)
  {
    hide Size, SizeElems, SizeMembers, UnfoldsItems, UnfoldsProps;
    SizeParts(j);
    match h[id]
    case Arr(items) => t := ItemTree(h, items, j.elems, w);
    case Obj(props) =>
      var i :| 0 <= i < |props| && props[i].value == w;
      t := PropTree(h, props, j.members, i);
  }

  lemma SizeParts(j: Json)
    ensures j.JArr? ==> Size(j) == 1 + SizeElems(j.elems)
    ensures j.JObj? ==> Size(j) == 1 + SizeMembers(j.members)
  {
  }

  lemma {:induction false} ItemTree(h: Heap, items: seq<Value>, js: seq<Json>, w: Value) returns (t: Json)
    requires UnfoldsItems(h, items, js) && w in items && !Unprintable(w)
    ensures Unfolds(h, w, t) && Size(t) <= SizeElems(js)
    decreases |items|
  {
    hide Unfolds, Size;
    if items[0] == w { t := js[0]; } else { t := ItemTree(h, items[1..], js[1..], w); }
  }

  lemma {:induction false} PropTree(h: Heap, props: seq<Prop>, ms: seq<Member>, i: nat) returns (t: Json)
    requires i < |props| && UnfoldsProps(h, props, ms) && !Unprintable(props[i].value)
    ensures Unfolds(h, props[i].value, t) && Size(t) <= SizeMembers(ms)
    decreases |props|
  {
    hide Unfolds, Size;
    if i == 0 { t := ms[0].value; }
    else if Unprintable(props[0].value) { t := PropTree(h, props[1..], ms, i - 1); }
    else { t := PropTree(h, props[1..], ms[1..], i - 1); }
  }

  /** Along a way in a tree, objects have smaller and smaller trees. */
  lemma {:induction false} PathTree(h: Heap, v: Value, j: Json, p: seq<Id>, k: nat) returns (t: Json)
    requires Unfolds(h, v, j) && Path(h, v, p) && k < |p|
    ensures Unfolds(h, VRef(p[k]), t) && Size(t) <= Size(j) && (k > 0 ==> Size(t) < Size(j))
    decreases k
  {
    hide Unfolds, Size;
    if k == 0 {
      t := j;
    } else {
      var w :| w in Held(h[p[0]]) && Path(h, w, p[1..]);
      var inner := HeldTree(h, p[0], j, w);
      t := PathTree(h, w, inner, p[1..], k - 1);
    }
  }

  lemma {:induction false} PathRest(h: Heap, v: Value, p: seq<Id>, i: nat)
    requires Path(h, v, p) && i < |p|
    ensures Path(h, VRef(p[i]), p[i..])
    decreases i
  {
    if i == 0 {
      assert p[0..] == p;
    } else {
      var w :| w in Held(h[p[0]]) && Path(h, w, p[1..]);
      PathRest(h, w, p[1..], i - 1);
      assert p[1..][i - 1..] == p[i..];
    }
  }

  lemma TreeAcyclic(h: Heap, v: Value, j: Json)
    requires Unfolds(h, v, j)
    ensures Acyclic(h, v)
  {
    assert !v.VBigInt?;
    hide Unfolds, Size, Path;
    forall p | Path(h, v, p) ensures Distinct(p) && forall id | id in p :: NoBigInt(h, id) {
      forall i, k | 0 <= i < k < |p| ensures p[i] != p[k] {
        var t := PathTree(h, v, j, p, i);
        PathRest(h, v, p, i);
        var u := PathTree(h, VRef(p[i]), t, p[i..], k - i);
        if p[i] == p[k] { UnfoldsOnce(h, VRef(p[i]), t, u); }
      }
      forall id | id in p ensures NoBigInt(h, id) {
        var k :| 0 <= k < |p| && p[k] == id;
        var t := PathTree(h, v, j, p, k);
        TreeHoldsNone(h, id, t);
      }
    }
  }

  lemma TreeHoldsNone(h: Heap, id: Id, t: Json)
    requires Unfolds(h, VRef(id), t)
    ensures NoBigInt(h, id)
  {
    hide UnfoldsItems, UnfoldsProps;
    forall w | w in Held(h[id]) ensures !w.VBigInt? {
      if w.VBigInt? { var u := HeldTree(h, id, t, w); }
    }
  }

  /** No way from the value comes back to the objects it was reached through. */
  ghost predicate Fresh(h: Heap, v: Value, seen: set<Id>) {
    Acyclic(h, v) && forall p | Path(h, v, p) :: forall id | id in p :: id !in seen
  }

  lemma FreshHeld(h: Heap, id: Id, w: Value, seen: set<Id>)
    requires Fresh(h, VRef(id), seen) && id in h && w in Held(h[id])
    ensures id !in seen && Fresh(h, w, seen + {id})
  {
    assert Path(h, VRef(id), [id]);
    assert id in [id] && NoBigInt(h, id);
    forall p | Path(h, w, p) ensures Distinct(p) && forall x | x in p :: NoBigInt(h, x) && x !in seen + {id} {
      var q := [id] + p;
      assert q[1..] == p && (p == [] ==> q == [id]);
      assert Path(h, VRef(id), q);
      assert forall i | 0 <= i < |p| :: q[i + 1] == p[i];
      assert forall x | x in p :: x in q;
    }
  }

  lemma {:induction false} BuildTree(h: Heap, v: Value, seen: set<Id>) returns (j: Json)
    requires Closed(h) && Live(h, v) && !Unprintable(v) && Fresh(h, v, seen)
    ensures Unfolds(h, v, j)
    decreases h.Keys - seen, 0
  {
    if !v.VRef? {
      j := ScalarTree(v);
    } else {
      assert Path(h, v, [v.id]) && v.id in [v.id];
      assert h.Keys - (seen + {v.id}) < h.Keys - seen;
      hide Fresh, UnfoldsItems, UnfoldsProps, Path;
      match h[v.id]
      case Arr(items) =>
        forall w | w in items ensures Live(h, w) && Fresh(h, w, seen + {v.id}) { FreshHeld(h, v.id, w, seen); }
        var es := BuildItems(h, items, seen + {v.id});
        j := JArr(es);
      case Obj(props) =>
        forall q | q in props ensures Live(h, q.value) && Fresh(h, q.value, seen + {v.id}) {
          var i :| 0 <= i < |props| && props[i] == q;
          assert Held(h[v.id])[i] == q.value;
          FreshHeld(h, v.id, q.value, seen);
        }
        var ms := BuildProps(h, props, seen + {v.id});
        j := JObj(ms);
    }
  }

  lemma {:induction false} BuildItems(h: Heap, items: seq<Value>, seen: set<Id>) returns (es: seq<Json>)
    requires Closed(h) && forall w | w in items :: Live(h, w) && Fresh(h, w, seen)
    ensures UnfoldsItems(h, items, es)
    decreases h.Keys - seen, |items| + 1
  {
    hide Closed, Live, Fresh, Unfolds;
    if items == [] {
      es := [];
    } else {
      var e := JNull;
      if !Unprintable(items[0]) { e := BuildTree(h, items[0], seen); }
      var rest := BuildItems(h, items[1..], seen);
      es := [e] + rest;
      assert es[1..] == rest;
    }
  }

  lemma {:induction false} BuildProps(h: Heap, props: seq<Prop>, seen: set<Id>) returns (ms: seq<Member>)
    requires Closed(h) && forall q | q in props :: Live(h, q.value) && Fresh(h, q.value, seen)
    ensures UnfoldsProps(h, props, ms)
    decreases h.Keys - seen, |props| + 1
  {
    hide Closed, Live, Fresh, Unfolds;
    if props == [] {
      ms := [];
    } else {
      var rest := BuildProps(h, props[1..], seen);
      if Unprintable(props[0].value) {
        ms := rest;
      } else {
        var j := BuildTree(h, props[0].value, seen);
        ms := [Member(props[0].key, j)] + rest;
        assert ms[1..] == rest;
      }
    }
  }

  /** A value has a finite tree exactly when no way from it comes back to an object on it and
      none reaches a bigint: sharing is no obstacle. */
  lemma UnfoldsExactly(h: Heap, v: Value)
    requires Closed(h) && Live(h, v) && !Unprintable(v)
    ensures (exists j :: Unfolds(h, v, j)) <==> Acyclic(h, v)
  {
    hide Acyclic, Unfolds, Closed, Live;
    forall j | Unfolds(h, v, j) ensures Acyclic(h, v) { TreeAcyclic(h, v, j); }
    if Acyclic(h, v) {
      assert Fresh(h, v, {});
      var j := BuildTree(h, v, {});
    }
  }

  // ---------------------------------------------------------------- what a thrown error points at

  /** An error other than the byte limit's comes from one of the items. */
  lemma {:induction false} ItemsThrow(h: Heap, lim: Limits, items: seq<Value>, first: bool, used: nat, seen: set<Id>, depth: nat)
    returns (w: Value, at: nat)
    requires var r := EncodeItems(h, lim, items, first, used, seen, depth); r.Thrown? && r.error != ByteLimit
    ensures w in items && Encode(h, lim, w, at, seen, depth, true) == EncodeItems(h, lim, items, first, used, seen, depth)
    decreases |items|
  {
    hide Encode, Bytes;
    at := used + |Comma(first)|;
    w := items[0];
    var one := Encode(h, lim, w, at, seen, depth, true);
    if one.Done? { w, at := ItemsThrow(h, lim, items[1..], false, at + Bytes(one.text), seen, depth); }
  }

  lemma {:induction false} PropsThrow(h: Heap, lim: Limits, props: seq<Prop>, wrote: bool, used: nat, seen: set<Id>, depth: nat)
    returns (i: nat, at: nat)
    requires var r := EncodeProps(h, lim, props, wrote, used, seen, depth); r.Thrown? && r.error != ByteLimit
    ensures i < |props| && Encode(h, lim, props[i].value, at, seen, depth, false) == EncodeProps(h, lim, props, wrote, used, seen, depth)
    decreases |props|
  {
    hide Encode, Bytes, Escape;
    i := 0;
    if Unprintable(props[0].value) {
      i, at := PropsThrow(h, lim, props[1..], wrote, used, seen, depth);
      i := i + 1;
    } else {
      at := used + |Comma(!wrote)| + Bytes(Quote(props[0].key)) + 1;
      var one := Encode(h, lim, props[0].value, at, seen, depth, false);
      if one.Done? {
        i, at := PropsThrow(h, lim, props[1..], true, at + Bytes(one.text), seen, depth);
        i := i + 1;
      }
    }
  }

  /** The end of `p`, a way from `v`, shows the error: it comes back to an object, or holds a
      bigint, or lies too deep. */
  ghost predicate Shows(h: Heap, v: Value, p: seq<Id>, e: Error, seen: set<Id>, room: int) {
    Path(h, v, p) &&
    match e
    case Circular => !Distinct(p) || exists id :: id in p && id in seen
    case BigInt => if p == [] then v.VBigInt? else !NoBigInt(h, p[|p| - 1])
    case DepthLimit => |p| > room
    case _ => false
  }

  lemma ShowsFurther(h: Heap, id: Id, w: Value, p: seq<Id>, e: Error, seen: set<Id>, room: int)
    requires id in h && w in Held(h[id]) && Shows(h, w, p, e, seen + {id}, room - 1)
    ensures Shows(h, VRef(id), [id] + p, e, seen, room)
  {
    var q := [id] + p;
    assert q[1..] == p && (p == [] ==> q == [id]);
    assert Path(h, VRef(id), q);
    assert forall i | 0 <= i < |p| :: q[i + 1] == p[i];
    if e == Circular {
      if !Distinct(p) {
        var i, k :| 0 <= i < k < |p| && p[i] == p[k];
        assert q[i + 1] == q[k + 1];
      } else {
        var x :| x in p && x in seen + {id};
        var k :| 0 <= k < |p| && p[k] == x;
        assert q[0] == id && q[k + 1] == x && x in q;
      }
    }
  }

  lemma {:induction false} ThrownShows(h: Heap, lim: Limits, v: Value, used: nat, seen: set<Id>, depth: nat, inArray: bool)
    returns (p: seq<Id>)
    requires Closed(h) && Live(h, v)
    requires var r := Encode(h, lim, v, used, seen, depth, inArray); r.Thrown? && r.error != ByteLimit
    ensures Shows(h, v, p, Encode(h, lim, v, used, seen, depth, inArray).error, seen, lim.maxDepth - depth)
    decreases h.Keys - seen
  {
    p := [];
    if depth <= lim.maxDepth && v.VRef? {
      assert Path(h, v, [v.id]);
      if v.id in seen {
        p := [v.id];
        assert v.id in p;
      } else {
        hide EncodeItems, EncodeProps, Shows, Path, Bytes;
        var e := Encode(h, lim, v, used, seen, depth, inArray).error;
        var w, at, within := VNull, 0, true;
        match h[v.id] {
          case Arr(items) =>
            w, at := ItemsThrow(h, lim, items, true, used + 1, seen + {v.id}, depth + 1);
          case Obj(props) =>
            within := false;
            var i;
            i, at := PropsThrow(h, lim, props, false, used + 1, seen + {v.id}, depth + 1);
            w := props[i].value;
            assert Held(h[v.id])[i] == w;
        }
        assert w in Held(h[v.id]) && Live(h, w);
        hide Encode;
        var q := ThrownShows(h, lim, w, at, seen + {v.id}, depth + 1, within);
        ShowsFurther(h, v.id, w, q, e, seen, lim.maxDepth - depth);
        p := [v.id] + q;
      }
    }
  }

  /** Whether there is a tree or not, an error tells the truth about the value: a way that comes
      back to an object on it, an object on the way that holds a bigint, or a way of more
      objects than the depth allows. */
  lemma StringifyCauses(h: Heap, lim: Limits, v: Value) returns (p: seq<Id>)
    requires Closed(h) && Live(h, v) && Stringify(h, lim, v).Thrown? && Stringify(h, lim, v).error != ByteLimit
    ensures Path(h, v, p)
    ensures match Stringify(h, lim, v).error
            case Circular => !Distinct(p)
            case BigInt => if p == [] then v.VBigInt? else !NoBigInt(h, p[|p| - 1])
            case DepthLimit => |p| > lim.maxDepth
            case _ => false
  {
    hide Encode, Path;
    p := ThrownShows(h, lim, v, 0, {}, 0, false);
  }

  /** From `n` bytes on, a larger byte limit changes nothing, and it is not what stops the call. */
  ghost predicate EnoughFor(h: Heap, d: nat, v: Value, used: nat, seen: set<Id>, depth: nat, inArray: bool, n: nat) {
    forall m | m >= n :: Encode(h, Limits(m, d), v, used, seen, depth, inArray) == Encode(h, Limits(n, d), v, used, seen, depth, inArray)
                         != Thrown(ByteLimit)
  }

  ghost predicate EnoughForItems(h: Heap, d: nat, items: seq<Value>, first: bool, used: nat, seen: set<Id>, depth: nat, n: nat) {
    forall m | m >= n :: EncodeItems(h, Limits(m, d), items, first, used, seen, depth) == EncodeItems(h, Limits(n, d), items, first, used, seen, depth)
                         != Thrown(ByteLimit)
  }

  ghost predicate EnoughForProps(h: Heap, d: nat, props: seq<Prop>, wrote: bool, used: nat, seen: set<Id>, depth: nat, n: nat) {
    forall m | m >= n :: EncodeProps(h, Limits(m, d), props, wrote, used, seen, depth) == EncodeProps(h, Limits(n, d), props, wrote, used, seen, depth)
                         != Thrown(ByteLimit)
  }

  lemma {:induction false} EnoughBytes(h: Heap, d: nat, v: Value, used: nat, seen: set<Id>, depth: nat, inArray: bool) returns (n: nat)
    ensures EnoughFor(h, d, v, used, seen, depth, inArray, n)
    decreases h.Keys - seen, 0
  {
    hide EncodeItems, EncodeProps, Bytes, Escape;
    if depth <= d && v.VRef? && v.id in h && v.id !in seen {
      assert h.Keys - (seen + {v.id}) < h.Keys - seen;
      match h[v.id]
      case Arr(items) =>
        var b := EnoughItems(h, d, items, true, used + 1, seen + {v.id}, depth + 1);
        var body := EncodeItems(h, Limits(b, d), items, true, used + 1, seen + {v.id}, depth + 1);
        n := b + used + 2 + if body.Done? then Bytes(body.text) else 0;
      case Obj(props) =>
        var b := EnoughProps(h, d, props, false, used + 1, seen + {v.id}, depth + 1);
        var body := EncodeProps(h, Limits(b, d), props, false, used + 1, seen + {v.id}, depth + 1);
        n := b + used + 2 + if body.Done? then Bytes(body.text) else 0;
    } else {
      n := used + if v.VStr? then Bytes(Quote(v.s)) else if v.VNum? then Bytes(v.token) else Bytes("null") + Bytes("true") + Bytes("false");
    }
  }

  lemma {:induction false} EnoughItems(h: Heap, d: nat, items: seq<Value>, first: bool, used: nat, seen: set<Id>, depth: nat) returns (n: nat)
    ensures EnoughForItems(h, d, items, first, used, seen, depth, n)
    decreases h.Keys - seen, |items| + 1
  {
    hide Encode, EncodeProps, Bytes;
    if items == [] {
      n := 0;
    } else {
      var at := used + |Comma(first)|;
      var b := EnoughBytes(h, d, items[0], at, seen, depth, true);
      var one := Encode(h, Limits(b, d), items[0], at, seen, depth, true);
      n := at + b;
      if one.Done? {
        var c := EnoughItems(h, d, items[1..], false, at + Bytes(one.text), seen, depth);
        n := at + b + c;
      }
    }
  }

  lemma {:induction false} EnoughProps(h: Heap, d: nat, props: seq<Prop>, wrote: bool, used: nat, seen: set<Id>, depth: nat) returns (n: nat)
    ensures EnoughForProps(h, d, props, wrote, used, seen, depth, n)
    decreases h.Keys - seen, |props| + 1
  {
    hide Encode, EncodeItems, Bytes, Escape;
    if props == [] {
      n := 0;
    } else if Unprintable(props[0].value) {
      n := EnoughProps(h, d, props[1..], wrote, used, seen, depth);
    } else {
      var at := used + |Comma(!wrote)| + Bytes(Quote(props[0].key)) + 1;
      var b := EnoughBytes(h, d, props[0].value, at, seen, depth, false);
      var one := Encode(h, Limits(b, d), props[0].value, at, seen, depth, false);
      n := at + b;
      if one.Done? {
        var c := EnoughProps(h, d, props[1..], true, at + Bytes(one.text), seen, depth);
        n := at + b + c;
      }
    }
  }

  /** The byte limit is only ever a matter of its size: from some size on it stops nothing,
      and the outcome is one and the same. */
  lemma ByteLimitFades(h: Heap, d: nat, v: Value) returns (n: nat)
    ensures forall m | m >= n ::
      Stringify(h, Limits(m, d), v) == Stringify(h, Limits(n, d), v) != Thrown(ByteLimit)
  {
    hide Encode;
    n := EnoughBytes(h, d, v, 0, {}, 0, false);
  }

  // ---------------------------------------------------------------- the code

  function Join(parts: seq<string>): string {
    if parts == [] then "" else Join(parts[..|parts| - 1]) + parts[|parts| - 1]
  }

  /** How a call of `encodeJsonValue` ends: it returns, or throws. */
  datatype Ending = Returns(wrote: bool) | Throws(error: Error)

  /** `spec` is what is written already, `text`, followed by what `rest` does. */
  ghost predicate Continues(spec: Outcome, text: string, rest: Outcome) {
    if rest.Thrown? then spec == rest else spec.Done? && spec.text == text + rest.text
  }

  /** One iteration of the element loop, seen in the specification. */
  lemma ItemsUnfold(h: Heap, lim: Limits, items: seq<Value>, i: nat, used: nat, seen: set<Id>, depth: nat)
    requires i <= |items| && used <= lim.maxBytes
    ensures var spec := EncodeItems(h, lim, items[i..], i == 0, used, seen, depth);
      var at := used + |Comma(i == 0)|;
      if i == |items| then spec == Done("", true)
      else if at > lim.maxBytes then i > 0 && spec == Thrown(ByteLimit)
      else
        var one := Encode(h, lim, items[i], at, seen, depth, true);
        if one.Thrown? then spec == one
        else Continues(spec, Comma(i == 0) + one.text, EncodeItems(h, lim, items[i + 1..], false, at + Bytes(one.text), seen, depth))
  {
    hide Encode, EncodeProps, Bytes;
    if i < |items| { assert items[i..][1..] == items[i + 1..]; }
  }

  lemma PropsUnfold(h: Heap, lim: Limits, props: seq<Prop>, i: nat, wrote: bool, used: nat, seen: set<Id>, depth: nat)
    requires i <= |props| && used <= lim.maxBytes
    ensures var spec := EncodeProps(h, lim, props[i..], wrote, used, seen, depth);
      if i == |props| then spec == Done("", true)
      else if Unprintable(props[i].value) then spec == EncodeProps(h, lim, props[i + 1..], wrote, used, seen, depth)
      else
        var at := used + |Comma(!wrote)| + Bytes(Quote(props[i].key)) + 1;
        if at > lim.maxBytes then spec == Thrown(ByteLimit)
        else
          var one := Encode(h, lim, props[i].value, at, seen, depth, false);
          if one.Thrown? then spec == one
          else Continues(spec, Comma(!wrote) + Quote(props[i].key) + ":" + one.text,
                         EncodeProps(h, lim, props[i + 1..], true, at + Bytes(one.text), seen, depth))
  {
    hide Encode, EncodeItems, Bytes, Escape;
    if i < |props| { assert props[i..][1..] == props[i + 1..]; }
  }

  /** The text between an opening bracket and its closing one, byte for byte. */
  lemma CloseText(before: string, open: string, text: string, close: string)
    requires Bytes(open) == 1
    ensures Bytes(before + open + text) == Bytes(before) + 1 + Bytes(text)
    ensures before + open + text + close == before + (open + text + close)
    ensures text + "" == text
  {
    BytesConcat(before, open);
    BytesConcat(before + open, text);
  }

  lemma ContinuesStep(spec: Outcome, text: string, mid: Outcome, head: string, one: string, rest: Outcome)
    requires Continues(spec, text, mid) && Continues(mid, head + one, rest)
    ensures Continues(spec, text + head + one, rest)
  {
    if rest.Done? { assert text + ((head + one) + rest.text) == (text + head + one) + rest.text; }
  }

  lemma ContinuesCases(spec: Outcome, text: string, rest: Outcome)
    requires Continues(spec, text, rest)
    ensures if rest.Thrown? then spec == rest else spec.Done? && spec.text == text + rest.text
  {
  }

  lemma ContinuesStart(spec: Outcome)
    ensures Continues(spec, "", spec)
  {
    if spec.Done? { assert "" + spec.text == spec.text; }
  }

  lemma EnclosedCases(lim: Limits, used: nat, open: string, spec: Outcome, close: string)
    ensures Enclosed(lim, used, open, spec, close) ==
      if spec.Thrown? then spec
      else if used + 1 + Bytes(spec.text) + 1 > lim.maxBytes then Thrown(ByteLimit) else Done(open + spec.text + close, true)
  {
  }

  lemma ExtendText(before: string, text: string, head: string, one: string)
    ensures before + text + head + one == before + (text + head + one)
    ensures Bytes(before + text + head + one) == Bytes(before + text + head) + Bytes(one)
  {
    BytesConcat(before + text + head, one);
  }

  /** The mutable state that `encodeJsonValue` threads through its recursion. */
  class Encoder {
    const h: Heap
    const lim: Limits
    var parts: seq<string>
    var bytes: nat
    var seen: set<Id>

    constructor (h: Heap, lim: Limits)
      ensures this.h == h && this.lim == lim && Valid()
      ensures parts == [] && seen == {}
    {
      this.h, this.lim := h, lim;
      parts, bytes, seen := [], 0, {};
    }

    ghost predicate Valid()
      reads this
    {
      bytes == Bytes(Join(parts)) && bytes <= lim.maxBytes
    }

    /** `r` and the state after a call are what `spec` says, for a call that started
        with the text `before`. */
    ghost predicate Follows(spec: Outcome, r: Ending, before: string)
      reads this
    {
      && Valid()
      && match spec
         case Done(text, wrote) => r == Returns(wrote) && Join(parts) == before + text
         case Thrown(e) => r == Throws(e)
    }

    method AppendChunk(chunk: string) returns (r: Ending)
      requires Valid()
      modifies this`parts, this`bytes
      ensures Follows(Append(lim, old(bytes), chunk), r, old(Join(parts)))
      ensures r.Throws? ==> parts == old(parts) && bytes == old(bytes)
      ensures r.Returns? ==> bytes == old(bytes) + Bytes(chunk)
    {
      if bytes + Bytes(chunk) > lim.maxBytes { return Throws(ByteLimit); }
      BytesConcat(Join(parts), chunk);
      assert (parts + [chunk])[..|parts|] == parts;
      bytes := bytes + Bytes(chunk);
      parts := parts + [chunk];
      return Returns(true);
    }

    /** The comma before every part but the first. */
    method AppendSeparator(first: bool) returns (r: Ending)
      requires Valid()
      modifies this`parts, this`bytes
      ensures Valid()
      ensures if old(bytes) + |Comma(first)| > lim.maxBytes then r == Throws(ByteLimit)
        else r.Returns? && bytes == old(bytes) + |Comma(first)| && Join(parts) == old(Join(parts)) + Comma(first)
    {
      hide Bytes, Join;
      BytesPunctuation();
      if first { return Returns(true); }
      r := AppendChunk(",");
    }

    /** The separator, the quoted key and the colon of one member. */
    method AppendKey(wrote: bool, key: string) returns (r: Ending)
      requires Valid()
      modifies this`parts, this`bytes
      ensures Valid()
      ensures var n := |Comma(!wrote)| + Bytes(Quote(key)) + 1;
        if old(bytes) + n > lim.maxBytes then r == Throws(ByteLimit)
        else r.Returns? && bytes == old(bytes) + n && Join(parts) == old(Join(parts)) + (Comma(!wrote) + Quote(key) + ":")
    {
      hide Bytes, Escape, Join;
      BytesPunctuation();
      r := AppendSeparator(!wrote);
      if r.Throws? { return; }
      r := AppendChunk(Quote(key));
      if r.Throws? { return; }
      r := AppendChunk(":");
    }

    method EncodeValue(v: Value, depth: nat, inArray: bool) returns (r: Ending)
      requires Valid()
      modifies this
      ensures Follows(Encode(h, lim, v, old(bytes), old(seen), depth, inArray), r, old(Join(parts)))
      ensures seen == old(seen)
      decreases h.Keys - seen, 0
    {
      hide EncodeItems, EncodeProps, Bytes, Escape, Join;
      if depth > lim.maxDepth { return Throws(DepthLimit); }
      match v {
        case VNull => r := AppendChunk("null");
        case VStr(s) => r := AppendChunk(Quote(s));
        case VNum(t) => r := AppendChunk(t);
        case VNonFinite => r := AppendChunk("null");
        case VBool(b) => r := AppendChunk(if b then "true" else "false");
        case VUndefined => if inArray { r := AppendChunk("null"); } else { r := Returns(false); }
        case VOpaque => if inArray { r := AppendChunk("null"); } else { r := Returns(false); }
        case VBigInt => r := Throws(BigInt);
        case VRef(id) =>
          if id !in h { return Throws(Dangling); }
          if id in seen { return Throws(Circular); }
          seen := seen + {id};
          assert h.Keys - seen < h.Keys - old(seen);
          match h[id] {
            case Arr(items) => r := EncodeArray(items, depth);
            case Obj(props) => r := EncodeObject(props, depth);
          }
          seen := seen - {id};
          assert seen == old(seen);
      }
    }

    method EncodeArray(items: seq<Value>, depth: nat) returns (r: Ending)
      requires Valid()
      modifies this
      ensures var used := old(bytes);
        Follows(if used + 1 > lim.maxBytes then Thrown(ByteLimit)
                else Enclosed(lim, used, "[", EncodeItems(h, lim, items, true, used + 1, old(seen), depth + 1), "]"),
                r, old(Join(parts)))
      ensures seen == old(seen)
      decreases h.Keys - seen, |items| + 2
    {
      hide Enclosed, Unfolds, Encode, EncodeItems, EncodeProps, Bytes, Join, Continues;
      BytesPunctuation();
      ghost var before := Join(parts);
      ghost var spec := EncodeItems(h, lim, items, true, bytes + 1, seen, depth + 1);
      EnclosedCases(lim, bytes, "[", spec, "]");
      r := AppendChunk("[");
      if r.Throws? { return; }
      ghost var text := "";
      var i := 0;
      assert items[0..] == items;
      ContinuesStart(spec);
      while i < |items|
        invariant 0 <= i <= |items| && seen == old(seen) && Valid()
        invariant Join(parts) == before + "[" + text
        invariant Continues(spec, text, EncodeItems(h, lim, items[i..], i == 0, bytes, seen, depth + 1))
      {
        ghost var mid := EncodeItems(h, lim, items[i..], i == 0, bytes, seen, depth + 1);
        ItemsUnfold(h, lim, items, i, bytes, seen, depth + 1);
        ContinuesCases(spec, text, mid);
        r := AppendSeparator(i == 0);
        if r.Throws? { return; }
        ghost var one := Encode(h, lim, items[i], bytes, seen, depth + 1, true);
        r := EncodeValue(items[i], depth + 1, true);
        if r.Throws? { return; }
        ExtendText(before + "[", text, Comma(i == 0), one.text);
        ContinuesStep(spec, text, mid, Comma(i == 0), one.text, EncodeItems(h, lim, items[i + 1..], false, bytes, seen, depth + 1));
        text := text + Comma(i == 0) + one.text;
        i := i + 1;
      }
      ItemsUnfold(h, lim, items, i, bytes, seen, depth + 1);
      ContinuesCases(spec, text, Done("", true));
      CloseText(before, "[", text, "]");
      r := AppendChunk("]");
    }

    method EncodeObject(props: seq<Prop>, depth: nat) returns (r: Ending)
      requires Valid()
      modifies this
      ensures var used := old(bytes);
        Follows(if used + 1 > lim.maxBytes then Thrown(ByteLimit)
                else Enclosed(lim, used, "{", EncodeProps(h, lim, props, false, used + 1, old(seen), depth + 1), "}"),
                r, old(Join(parts)))
      ensures seen == old(seen)
      decreases h.Keys - seen, |props| + 2
    {
      hide Enclosed, Unfolds, Encode, EncodeItems, EncodeProps, Bytes, Join, Quote, Escape, Unprintable, Continues;
      BytesPunctuation();
      ghost var before := Join(parts);
      ghost var spec := EncodeProps(h, lim, props, false, bytes + 1, seen, depth + 1);
      EnclosedCases(lim, bytes, "{", spec, "}");
      r := AppendChunk("{");
      if r.Throws? { return; }
      ghost var text := "";
      var wrote, i := false, 0;
      assert props[0..] == props;
      ContinuesStart(spec);
      while i < |props|
        invariant 0 <= i <= |props| && seen == old(seen) && Valid()
        invariant Join(parts) == before + "{" + text
        invariant Continues(spec, text, EncodeProps(h, lim, props[i..], wrote, bytes, seen, depth + 1))
      {
        var p := props[i];
        ghost var mid := EncodeProps(h, lim, props[i..], wrote, bytes, seen, depth + 1);
        PropsUnfold(h, lim, props, i, wrote, bytes, seen, depth + 1);
        ContinuesCases(spec, text, mid);
        i := i + 1;
        if Unprintable(p.value) { continue; }
        ghost var at := bytes + |Comma(!wrote)| + Bytes(Quote(p.key)) + 1;
        r := AppendKey(wrote, p.key);
        if r.Throws? { return; }
        ghost var part := Comma(!wrote) + Quote(p.key) + ":";
        ghost var one := Encode(h, lim, p.value, bytes, seen, depth + 1, false);
        r := EncodeValue(p.value, depth + 1, false);
        if r.Throws? { return; }
        ExtendText(before + "{", text, part, one.text);
        ContinuesStep(spec, text, mid, part, one.text, EncodeProps(h, lim, props[i..], true, bytes, seen, depth + 1));
        text := text + part + one.text;
        wrote := true;
      }
      PropsUnfold(h, lim, props, i, wrote, bytes, seen, depth + 1);
      ContinuesCases(spec, text, Done("", true));
      CloseText(before, "{", text, "}");
      r := AppendChunk("}");
    }
  }

  /** `stringifyBounded` run with a fresh state. */
  method StringifyBounded(h: Heap, lim: Limits, v: Value) returns (r: Outcome)
    ensures r == Stringify(h, lim, v)
  {
    var e := new Encoder(h, lim);
    var ending := e.EncodeValue(v, 0, false);
    if ending.Throws? { return Thrown(ending.error); }
    r := Done(Join(e.parts), ending.wrote);
  }
}
