/** The failure cache of the model adapter, its keys, and the retry loop that feeds it. */
module FailureCache {
  import opened Options
  import opened Utf8

  // ---------------------------------------------------------------- keys

  function Digit(d: nat): char
    requires d < 10
  {
    ('0' as int + d) as char
  }

  function Digits(n: nat): string { if n < 10 then [Digit(n)] else Digits(n / 10) + [Digit(n % 10)] }

  function Prefixed(part: string): string { Digits(Bytes(part)) + ":" + part }

  /** The text that is hashed: each part after its UTF-8 length, joined by bars. */
  function Payload(parts: seq<string>): string
    requires parts != []
  {
    if |parts| == 1 then Prefixed(parts[0]) else Prefixed(parts[0]) + "|" + Payload(parts[1..])
  }

  /** `_failureKey`, before the hash: prompt and system are trimmed. */
  function KeyText(trim: string -> string, provider: string, endpoint: string, model: string, prompt: string, system: string): string {
    Payload([provider, endpoint, model, trim(prompt), trim(system)])
  }

  lemma {:induction false} DigitsPlain(n: nat)
    ensures Digits(n) != "" && ':' !in Digits(n)
  {
    if n >= 10 { DigitsPlain(n / 10); }
  }

  lemma {:induction false} DigitsInjective(m: nat, n: nat)
    requires Digits(m) == Digits(n)
    ensures m == n
  {
    DigitsPlain(m / 10);
    DigitsPlain(n / 10);
    var a, b := Digits(m), Digits(n);
    assert a[|a| - 1] == Digit(m % 10) && b[|b| - 1] == Digit(n % 10);
    if m >= 10 && n >= 10 {
      assert a[..|a| - 1] == Digits(m / 10) && b[..|b| - 1] == Digits(n / 10);
      DigitsInjective(m / 10, n / 10);
    }
  }

  /** A text up to its first colon. */
  function UpTo(s: string): string { if s == "" || s[0] == ':' then "" else [s[0]] + UpTo(s[1..]) }

  lemma {:induction false} UpToPlain(a: string, x: string)
    requires ':' !in a
    ensures UpTo(a + ":" + x) == a
  {
    if a == "" {
      assert (a + ":" + x)[0] == ':';
    } else {
      assert (a + ":" + x)[0] == a[0] && (a + ":" + x)[1..] == a[1..] + ":" + x;
      UpToPlain(a[1..], x);
    }
  }

  /** Texts split at their first colon in one way. */
  lemma SplitAtColon(a: string, x: string, b: string, y: string)
    requires ':' !in a && ':' !in b && a + ":" + x == b + ":" + y
    ensures a == b && x == y
  {
    UpToPlain(a, x);
    UpToPlain(b, y);
    assert x == (a + ":" + x)[|a| + 1..] && y == (b + ":" + y)[|b| + 1..];
  }

  lemma NoLonger(a: string, b: string)
    requires |a| <= |b| && b[..|a|] == a && Bytes(a) == Bytes(b)
    ensures a == b
  {
    var more := b[|a|..];
    assert b == a + more;
    BytesConcat(a, more);
  }

  /** Of two beginnings of one text with the same UTF-8 length, neither is longer. */
  lemma SameLength(a: string, x: string, b: string, y: string)
    requires a + x == b + y && Bytes(a) == Bytes(b)
    ensures a == b && x == y
  {
    var w := a + x;
    assert a == w[..|a|] && b == w[..|b|];
    if |a| <= |b| {
      assert b[..|a|] == w[..|a|];
      NoLonger(a, b);
    } else {
      assert a[..|b|] == w[..|b|];
      NoLonger(b, a);
    }
    assert x == w[|a|..] && y == (b + y)[|b|..];
  }

  /** Reading back one prefixed part. */
  lemma OnePart(a: string, x: string, b: string, y: string)
    requires Prefixed(a) + x == Prefixed(b) + y
    ensures a == b && x == y
  {
    var m, n := Bytes(a), Bytes(b);
    DigitsPlain(m);
    DigitsPlain(n);
    assert Prefixed(a) + x == Digits(m) + ":" + (a + x);
    assert Prefixed(b) + y == Digits(n) + ":" + (b + y);
    SplitAtColon(Digits(m), a + x, Digits(n), b + y);
    DigitsInjective(m, n);
    SameLength(a, x, b, y);
  }

  /** No two lists of parts are hashed as the same text, whatever they contain. */
  lemma {:induction false} PayloadInjective(a: seq<string>, b: seq<string>)
    requires a != [] && b != [] && Payload(a) == Payload(b)
    ensures a == b
    decreases |a|
  {
    var x := if |a| == 1 then "" else "|" + Payload(a[1..]);
    var y := if |b| == 1 then "" else "|" + Payload(b[1..]);
    assert Payload(a) == Prefixed(a[0]) + x && Payload(b) == Prefixed(b[0]) + y;
    OnePart(a[0], x, b[0], y);
    if |a| > 1 {
      assert Payload(a[1..]) == x[1..] && Payload(b[1..]) == y[1..];
      PayloadInjective(a[1..], b[1..]);
    }
    assert a == [a[0]] + a[1..] && b == [b[0]] + b[1..];
  }

  /** Two requests share a key text exactly when all five fields agree, prompt and system after
      trimming. */
  lemma KeyTextExact(trim: string -> string, p: string, e: string, m: string, prompt: string, system: string,
                     p': string, e': string, m': string, prompt': string, system': string)
    ensures KeyText(trim, p, e, m, prompt, system) == KeyText(trim, p', e', m', prompt', system') <==>
      p == p' && e == e' && m == m' && trim(prompt) == trim(prompt') && trim(system) == trim(system')
  {
    var a, b := [p, e, m, trim(prompt), trim(system)], [p', e', m', trim(prompt'), trim(system')];
    if Payload(a) == Payload(b) {
      PayloadInjective(a, b);
      assert a[0] == b[0] && a[1] == b[1] && a[2] == b[2] && a[3] == b[3] && a[4] == b[4];
    }
  }

  // ---------------------------------------------------------------- the cache

  datatype Entry = Entry(key: string, error: string, until: int)

  /** The entries in insertion order. */
  type Cache = seq<Entry>

  function Without(cache: Cache, key: string): (r: Cache)
    ensures |r| <= |cache|
  {
    if cache == [] then [] else (if cache[0].key == key then [] else [cache[0]]) + Without(cache[1..], key)
  }

  function Unexpired(cache: Cache, now: int): (r: Cache)
    ensures |r| <= |cache|
  {
    if cache == [] then [] else (if now > cache[0].until then [] else [cache[0]]) + Unexpired(cache[1..], now)
  }

  /** The newest `n` entries. */
  function Newest(cache: Cache, n: nat): Cache { if |cache| <= n then cache else cache[|cache| - n..] }

  /** `_pruneFailures`. */
  function Pruned(cache: Cache, now: int, cap: nat): Cache
    requires cap > 0
  {
    Newest(Unexpired(cache, now), cap - 1)
  }

  /** `_cacheFailure`. */
  function Cached(cache: Cache, key: string, error: string, now: int, cooldown: nat, cap: nat): Cache
    requires cap > 0
  {
    Pruned(Without(cache, key), now, cap) + [Entry(key, error, now + cooldown)]
  }

  function Find(cache: Cache, key: string): Option<Entry> {
    if cache == [] then None else if cache[0].key == key then Some(cache[0]) else Find(cache[1..], key)
  }

  /** What a look-up answers, and what it leaves. */
  function Lookup(cache: Cache, key: string, now: int): Option<string> {
    match Find(cache, key)
    case None => None
    case Some(e) => if now > e.until then None else Some(e.error)
  }

  function AfterLookup(cache: Cache, key: string, now: int): Cache {
    match Find(cache, key)
    case None => cache
    case Some(e) => if now > e.until then Without(cache, key) else cache
  }

  datatype Op = Fail(key: string, error: string, now: int) | Succeed(key: string, now: int) | Ask(key: string, now: int)

  function After(cache: Cache, op: Op, cooldown: nat, cap: nat): Cache
    requires cap > 0
  {
    match op
    case Fail(key, error, now) => Cached(cache, key, error, now, cooldown, cap)
    case Succeed(key, _) => Without(cache, key)
    case Ask(key, now) => AfterLookup(cache, key, now)
  }

  function Run(ops: seq<Op>, cooldown: nat, cap: nat): Cache
    requires cap > 0
    decreases |ops|
  {
    if ops == [] then [] else After(Run(ops[..|ops| - 1], cooldown, cap), ops[|ops| - 1], cooldown, cap)
  }

  ghost predicate Clocked(ops: seq<Op>) { forall i, j | 0 <= i < j < |ops| :: ops[i].now <= ops[j].now }

  // ---------------------------------------------------------------- bounded, ordered, distinct

  predicate Ordered(cache: Cache) { forall i, j | 0 <= i < j < |cache| :: cache[i].until <= cache[j].until }

  predicate Distinct(cache: Cache) { forall i, j | 0 <= i < j < |cache| :: cache[i].key != cache[j].key }

  /** `a` is `b` with some entries taken out. */
  ghost predicate Thinned(a: Cache, b: Cache) {
    if a == [] then true else b != [] && ((a[0] == b[0] && Thinned(a[1..], b[1..])) || Thinned(a, b[1..]))
  }

  lemma {:induction false} ThinnedIn(a: Cache, b: Cache, e: Entry)
    requires Thinned(a, b) && e in a
    ensures e in b
    decreases |b|
  {
    if a[0] == b[0] && Thinned(a[1..], b[1..]) {
      if e != a[0] {
        assert a == [a[0]] + a[1..];
        ThinnedIn(a[1..], b[1..], e);
      }
    } else {
      ThinnedIn(a, b[1..], e);
    }
  }

  lemma {:induction false} ThinnedKeeps(a: Cache, b: Cache)
    requires Thinned(a, b) && Ordered(b) && Distinct(b)
    ensures Ordered(a) && Distinct(a)
    decreases |b|
  {
    if a != [] {
      assert forall i | 0 <= i < |b| - 1 :: b[1..][i] == b[i + 1];
      if a[0] == b[0] && Thinned(a[1..], b[1..]) {
        ThinnedKeeps(a[1..], b[1..]);
        forall j | 0 < j < |a| ensures a[0].until <= a[j].until && a[0].key != a[j].key {
          assert a[1..][j - 1] == a[j];
          ThinnedIn(a[1..], b[1..], a[j]);
          var k :| 0 <= k < |b| - 1 && b[1..][k] == a[j];
        }
        assert forall i | 0 < i < |a| :: a[1..][i - 1] == a[i];
      } else {
        ThinnedKeeps(a, b[1..]);
      }
    }
  }

  lemma {:induction false} WithoutThins(cache: Cache, key: string)
    ensures Thinned(Without(cache, key), cache) && forall e :: e in Without(cache, key) <==> e in cache && e.key != key
  {
    if cache != [] {
      WithoutThins(cache[1..], key);
      assert [] + Without(cache[1..], key) == Without(cache[1..], key);
    }
  }

  lemma {:induction false} UnexpiredThins(cache: Cache, now: int)
    ensures Thinned(Unexpired(cache, now), cache) && forall e :: e in Unexpired(cache, now) <==> e in cache && now <= e.until
  {
    if cache != [] {
      UnexpiredThins(cache[1..], now);
      assert [] + Unexpired(cache[1..], now) == Unexpired(cache[1..], now);
    }
  }

  lemma {:induction false} ThinnedTrans(a: Cache, b: Cache, c: Cache)
    requires Thinned(a, b) && Thinned(b, c)
    ensures Thinned(a, c)
    decreases |c|
  {
    if a != [] {
      if b[0] == c[0] && Thinned(b[1..], c[1..]) {
        if a[0] == b[0] && Thinned(a[1..], b[1..]) { ThinnedTrans(a[1..], b[1..], c[1..]); }
        else { ThinnedTrans(a, b[1..], c[1..]); }
      } else {
        ThinnedTrans(a, b, c[1..]);
      }
    }
  }

  lemma {:induction false} ThinnedSelf(a: Cache)
    ensures Thinned(a, a)
  {
    if a != [] { ThinnedSelf(a[1..]); }
  }

  lemma {:induction false} SuffixThins(a: Cache, k: nat)
    requires k <= |a|
    ensures Thinned(a[k..], a)
    decreases k
  {
    if k == 0 {
      assert a[0..] == a;
      ThinnedSelf(a);
    } else {
      assert a[k..] == a[1..][k - 1..];
      SuffixThins(a[1..], k - 1);
    }
  }

  lemma PrunedThins(cache: Cache, now: int, cap: nat)
    requires cap > 0
    ensures Thinned(Pruned(cache, now, cap), cache) && |Pruned(cache, now, cap)| < cap
  {
    var live := Unexpired(cache, now);
    UnexpiredThins(cache, now);
    SuffixThins(live, if |live| <= cap - 1 then 0 else |live| - (cap - 1));
    assert live[0..] == live;
    ThinnedTrans(Pruned(cache, now, cap), live, cache);
  }

  /** What holds of the cache at a time of the clock. */
  ghost predicate Sound(cache: Cache, now: int, cooldown: nat, cap: nat) {
    && |cache| <= cap && Ordered(cache) && Distinct(cache)
    && forall e | e in cache :: e.until <= now + cooldown
  }

  lemma OpSound(cache: Cache, op: Op, now: int, cooldown: nat, cap: nat)
    requires cap > 0 && Sound(cache, now, cooldown, cap) && now <= op.now
    ensures Sound(After(cache, op, cooldown, cap), op.now, cooldown, cap)
  {
    hide Thinned, Unexpired, Newest, Pruned;
    WithoutThins(cache, op.key);
    var rest := Without(cache, op.key);
    ThinnedKeeps(rest, cache);
    if op.Fail? {
      PrunedThins(rest, op.now, cap);
      var kept := Pruned(rest, op.now, cap);
      ThinnedKeeps(kept, rest);
      forall e | e in kept ensures e.until <= op.now + cooldown && e.key != op.key { ThinnedIn(kept, rest, e); }
      var all := kept + [Entry(op.key, op.error, op.now + cooldown)];
      assert forall i | 0 <= i < |kept| :: all[i] == kept[i] && kept[i] in kept;
    }
  }

  /** Under a clock that never runs backwards, the cache stays within its cap, holds one entry
      a key, and is ordered by expiry. */
  lemma {:induction false} CacheSound(ops: seq<Op>, cooldown: nat, cap: nat)
    requires cap > 0 && Clocked(ops)
    ensures Sound(Run(ops, cooldown, cap), if ops == [] then 0 else ops[|ops| - 1].now, cooldown, cap)
    decreases |ops|
  {
    if ops != [] {
      assert Sound([], ops[0].now, cooldown, cap);
      hide Sound, After;
      var before := ops[..|ops| - 1];
      CacheSound(before, cooldown, cap);
      if before == [] {
        OpSound([], ops[0], ops[0].now, cooldown, cap);
      } else {
        assert before[|before| - 1] == ops[|before| - 1];
        OpSound(Run(before, cooldown, cap), ops[|ops| - 1], before[|before| - 1].now, cooldown, cap);
      }
    }
  }

  lemma NewestLast(live: Cache, n: nat, gone: Entry, kept: Entry)
    requires Ordered(live) && gone in live && gone !in Newest(live, n) && kept in Newest(live, n)
    ensures gone.until <= kept.until
  {
    var i :| 0 <= i < |live| && live[i] == gone;
    var stays := Newest(live, n);
    assert |live| > n && stays == live[|live| - n..];
    var j :| 0 <= j < |stays| && stays[j] == kept;
    assert live[|live| - n + j] == kept;
    assert forall k | |live| - n <= k < |live| :: live[k] == stays[k - (|live| - n)];
  }

  /** Eviction by insertion order drops the earliest to expire: whatever the cap pushed out
      expires no later than anything that stays. */
  lemma EvictsEarliest(cache: Cache, op: Op, now: int, cooldown: nat, cap: nat, gone: Entry, kept: Entry)
    requires cap > 0 && Sound(cache, now, cooldown, cap) && now <= op.now && op.Fail?
    requires gone in cache && gone.key != op.key && op.now <= gone.until && gone !in After(cache, op, cooldown, cap)
    requires kept in After(cache, op, cooldown, cap)
    ensures gone.until <= kept.until
  {
    hide Thinned, Without, Unexpired, Newest;
    var rest := Without(cache, op.key);
    WithoutThins(cache, op.key);
    ThinnedKeeps(rest, cache);
    var live := Unexpired(rest, op.now);
    UnexpiredThins(rest, op.now);
    ThinnedKeeps(live, rest);
    var last := Entry(op.key, op.error, op.now + cooldown);
    assert After(cache, op, cooldown, cap) == Newest(live, cap - 1) + [last];
    if kept in Newest(live, cap - 1) { NewestLast(live, cap - 1, gone, kept); }
  }

  // ---------------------------------------------------------------- what a look-up answers

  /** The last failure of a key that no success of it followed. */
  function LastFailure(ops: seq<Op>, key: string): Option<Op>
    decreases |ops|
  {
    if ops == [] then None
    else
      var op := ops[|ops| - 1];
      if op.key == key && op.Fail? then Some(op)
      else if op.key == key && op.Succeed? then None
      else LastFailure(ops[..|ops| - 1], key)
  }

  /** What the cache knows of a key: at most its last failure, and exactly that while the
      cooldown lasts if nothing had to be evicted. */
  ghost predicate Knows(cache: Cache, last: Option<Op>, key: string, now: int, cooldown: nat, roomy: bool) {
    && (forall e | e in cache && e.key == key :: last.Some? && last.value.Fail? && e == Entry(key, last.value.error, last.value.now + cooldown))
    && (roomy && last.Some? && last.value.Fail? && now <= last.value.now + cooldown ==>
          Entry(key, last.value.error, last.value.now + cooldown) in cache)
  }

  /** Every key ever named is one of `keys`, and they all fit. */
  ghost predicate Roomy(ops: seq<Op>, keys: set<string>, cap: nat) { |keys| <= cap && forall i | 0 <= i < |ops| :: ops[i].key in keys }

  lemma {:induction false} KeysFit(cache: Cache, keys: set<string>)
    requires Distinct(cache) && forall e | e in cache :: e.key in keys
    ensures |cache| <= |keys|
  {
    if cache != [] {
      var rest := keys - {cache[0].key};
      assert cache[0] in cache;
      assert forall i | 0 <= i < |cache| - 1 :: cache[1..][i] == cache[i + 1];
      forall e | e in cache[1..] ensures e.key in rest {
        var i :| 0 <= i < |cache| - 1 && cache[1..][i] == e;
        assert cache[0].key != cache[i + 1].key;
        assert cache[i + 1] in cache;
      }
      KeysFit(cache[1..], rest);
    }
  }

  /** The keys in the cache are among those named. */
  lemma {:induction false} KeysNamed(ops: seq<Op>, keys: set<string>, cooldown: nat, cap: nat)
    requires cap > 0 && forall i | 0 <= i < |ops| :: ops[i].key in keys
    ensures forall e | e in Run(ops, cooldown, cap) :: e.key in keys
    decreases |ops|
  {
    hide Thinned, Pruned;
    if ops != [] {
      var prior, op := ops[..|ops| - 1], ops[|ops| - 1];
      KeysNamed(prior, keys, cooldown, cap);
      var cache := Run(prior, cooldown, cap);
      WithoutThins(cache, op.key);
      PrunedThins(Without(cache, op.key), op.now, cap);
      var kept := Pruned(Without(cache, op.key), op.now, cap);
      forall e | e in kept ensures e.key in keys { ThinnedIn(kept, Without(cache, op.key), e); }
    }
  }

  lemma OpKnows(cache: Cache, op: Op, last: Option<Op>, key: string, now: int, cooldown: nat, cap: nat, keys: set<string>, roomy: bool)
    requires cap > 0 && Sound(cache, now, cooldown, cap) && now <= op.now && Knows(cache, last, key, now, cooldown, roomy)
    requires roomy ==> |keys| <= cap && op.key in keys && forall e | e in cache :: e.key in keys
    ensures var last' := if op.key != key || op.Ask? then last else if op.Fail? then Some(op) else None;
      Knows(After(cache, op, cooldown, cap), last', key, op.now, cooldown, roomy)
  {
    hide Thinned, Without, Unexpired;
    var rest := Without(cache, op.key);
    WithoutThins(cache, op.key);
    if op.Fail? {
      var live := Unexpired(rest, op.now);
      UnexpiredThins(rest, op.now);
      PrunedThins(rest, op.now, cap);
      var kept := Pruned(rest, op.now, cap);
      forall e | e in kept ensures e in rest { ThinnedIn(kept, rest, e); }
      if roomy {
        ThinnedKeeps(rest, cache);
        ThinnedKeeps(live, rest);
        KeysFit(live, keys - {op.key});
        assert kept == live;
      }
    } else if op.Ask? {
      FindIn(cache, op.key);
    }
  }

  lemma {:induction false} FindIn(cache: Cache, key: string)
    ensures match Find(cache, key)
      case Some(e) => e in cache && e.key == key
      case None => forall e | e in cache :: e.key != key
  {
    if cache != [] { FindIn(cache[1..], key); }
  }

  lemma {:induction false} RunKnows(ops: seq<Op>, key: string, cooldown: nat, cap: nat, keys: set<string>, roomy: bool)
    requires cap > 0 && Clocked(ops) && (roomy ==> Roomy(ops, keys, cap))
    ensures Knows(Run(ops, cooldown, cap), LastFailure(ops, key), key, if ops == [] then 0 else ops[|ops| - 1].now, cooldown, roomy)
    decreases |ops|
  {
    if ops != [] {
      var prior, op := ops[..|ops| - 1], ops[|ops| - 1];
      assert Knows([], None, key, op.now, cooldown, roomy) && Sound([], op.now, cooldown, cap);
      hide Sound, After, Knows;
      RunKnows(prior, key, cooldown, cap, keys, roomy);
      CacheSound(prior, cooldown, cap);
      if roomy { KeysNamed(prior, keys, cooldown, cap); }
      if prior == [] {
        OpKnows([], op, None, key, op.now, cooldown, cap, keys, roomy);
      } else {
        assert prior[|prior| - 1] == ops[|prior| - 1];
        OpKnows(Run(prior, cooldown, cap), op, LastFailure(prior, key), key, prior[|prior| - 1].now, cooldown, cap, keys, roomy);
      }
    }
  }

  /** A cached failure is answered only if it is the key's last one, no success followed and
      its cooldown has not passed; and as long as no more keys than the cap are ever named,
      it is answered whenever that is so. */
  lemma LookupExact(ops: seq<Op>, key: string, now: int, cooldown: nat, cap: nat, keys: set<string>)
    requires cap > 0 && Clocked(ops) && (ops != [] ==> ops[|ops| - 1].now <= now)
    ensures var last := LastFailure(ops, key); var answer := Lookup(Run(ops, cooldown, cap), key, now);
      && (answer.Some? ==> last.Some? && last.value.Fail? && answer == Some(last.value.error) && now <= last.value.now + cooldown)
      && (Roomy(ops, keys, cap) && last.Some? && last.value.Fail? && now <= last.value.now + cooldown ==> answer.Some?)
  {
    assert ops == [] ==> LastFailure(ops, key) == None;
    hide Run, LastFailure;
    var roomy := Roomy(ops, keys, cap);
    RunKnows(ops, key, cooldown, cap, keys, roomy);
    FindIn(Run(ops, cooldown, cap), key);
  }

  // ---------------------------------------------------------------- the cache and the retry loop, in place

  /** How one attempt ends. */
  datatype Attempt = Done | Failed(error: string, retryable: bool)

  /** The waiting before attempt `n`. */
  function Waited(delay: nat, n: nat): nat { if n == 0 then 0 else Waited(delay, n - 1) + delay * n }

  /** The waits grow by the delay: before attempt `n` they add up to `delay` times 1 + ... + n. */
  lemma {:induction false} WaitedSum(delay: nat, n: nat)
    ensures 2 * Waited(delay, n) == delay * (n * (n + 1))
  {
    if n > 0 {
      WaitedSum(delay, n - 1);
      assert n * (n + 1) == (n - 1) * n + 2 * n;
      Distribute(delay, (n - 1) * n, 2 * n);
      assert delay * (2 * n) == 2 * (delay * n);
    }
  }

  lemma Distribute(d: int, x: int, y: int)
    ensures d * (x + y) == d * x + d * y
  {
  }

  lemma NewestDrop(cache: Cache, n: nat)
    ensures if |cache| <= n then Newest(cache, n) == cache else Newest(cache[1..], n) == Newest(cache, n)
  {
  }

  /** A cache after some more operations. */
  function Since(cache: Cache, ops: seq<Op>, cooldown: nat, cap: nat): Cache
    requires cap > 0
    decreases |ops|
  {
    if ops == [] then cache else Since(After(cache, ops[0], cooldown, cap), ops[1..], cooldown, cap)
  }

  /** What other calls leave of the cache while `n` attempts and the waits between them go on. */
  function Meanwhile(cache: Cache, others: nat -> seq<Op>, n: nat, cooldown: nat, cap: nat): Cache
    requires cap > 0
  {
    if n == 0 then cache else Since(Meanwhile(cache, others, n - 1, cooldown, cap), others(n - 1), cooldown, cap)
  }

  class Failures {
    var recent: Cache
    const cap: nat
    const cooldown: nat

    constructor (cap: nat, cooldown: nat)
      ensures recent == [] && this.cap == cap && this.cooldown == cooldown
    {
      recent, this.cap, this.cooldown := [], cap, cooldown;
    }

    method Prune(now: int)
      requires cap > 0
      modifies this
      ensures recent == Pruned(old(recent), now, cap)
    {
      hide Unexpired, Newest;
      recent := Unexpired(recent, now);
      while |recent| >= cap
        invariant Newest(recent, cap - 1) == Pruned(old(recent), now, cap)
        decreases |recent|
      {
        NewestDrop(recent, cap - 1);
        recent := recent[1..];
      }
      NewestDrop(recent, cap - 1);
    }

    method CacheFailure(key: string, error: string, now: int)
      requires cap > 0
      modifies this
      ensures recent == Cached(old(recent), key, error, now, cooldown, cap)
    {
      recent := Without(recent, key);
      Prune(now);
      recent := recent + [Entry(key, error, now + cooldown)];
    }

    method GetCached(key: string, now: int) returns (error: Option<string>)
      modifies this
      ensures error == Lookup(old(recent), key, now) && recent == AfterLookup(old(recent), key, now)
    {
      var entry := Find(recent, key);
      if entry == None { return None; }
      if now > entry.value.until {
        recent := Without(recent, key);
        return None;
      }
      return Some(entry.value.error);
    }

    /** `_withRetry`: at most `maxRetries + 1` attempts, all but the last a retryable failure;
        it stops at the first success, at the first failure that is not retryable, or when
        the retries are used up, and it never runs past its loop.  While it awaits attempt
        `i`, other calls do `others(i)` to the cache; the call itself touches it once, at its
        end, as a success or a failure of its key. */
    method WithRetry(key: string, maxRetries: nat, delay: nat, attempts: nat -> Attempt, others: nat -> seq<Op>, clock: nat -> int)
      returns (calls: nat, result: Attempt, waited: nat)
      requires cap > 0
      modifies this
      ensures 1 <= calls <= maxRetries + 1 && result == attempts(calls - 1)
      ensures forall i | 0 <= i < calls - 1 :: attempts(i).Failed? && attempts(i).retryable
      ensures result.Done? || !result.retryable || calls == maxRetries + 1
      ensures waited == Waited(delay, calls - 1)
      ensures var now := clock(calls - 1);
        recent == After(Meanwhile(old(recent), others, calls, cooldown, cap),
                        if result.Done? then Succeed(key, now) else Fail(key, result.error, now), cooldown, cap)
    {
      waited := 0;
      var attempt := 0;
      while attempt <= maxRetries
        invariant 0 <= attempt <= maxRetries
        invariant forall i | 0 <= i < attempt :: attempts(i).Failed? && attempts(i).retryable
        invariant waited == Waited(delay, attempt) && recent == Meanwhile(old(recent), others, attempt, cooldown, cap)
        decreases maxRetries - attempt
      {
        result := attempts(attempt);
        recent := Since(recent, others(attempt), cooldown, cap);
        calls := attempt + 1;
        if result.Done? {
          recent := Without(recent, key);
          return;
        }
        if !result.retryable || attempt >= maxRetries {
          CacheFailure(key, result.error, clock(attempt));
          return;
        }
        waited := waited + delay * (attempt + 1);
        attempt := attempt + 1;
      }
      assert false;
    }
  }
}
