/** The fixed-window rate limiter.

    The table is a JavaScript Map, kept here as its rows in insertion order.  Checks
    are counted per key in windows that start with the first request after the last
    window ended.  The main results bound the requests accepted in any interval of one
    window's length, show that bound is reached, and say what cap enforcement keeps. */
module RateLimit {
  import opened Options

  datatype Row = Row(key: string, count: int, resetAt: int)

  /** The caller's `maxEntries`. */
  datatype MaxEntries = NotFinite | Finite(value: real)

  const DEFAULT_MAX_ENTRIES := 2048

  /** A finite cap is rounded down, and never below 0. */
  function CapOf(m: MaxEntries): (cap: nat)
    ensures m.NotFinite? ==> cap == 2048
    ensures m.Finite? && m.value >= 0.0 ==> cap as real <= m.value < cap as real + 1.0
    ensures m.Finite? && m.value < 0.0 ==> cap == 0
  {
    if m.NotFinite? then DEFAULT_MAX_ENTRIES
    else if m.value.Floor < 0 then 0 else m.value.Floor
  }

  // ---------------------------------------------------------------- the table

  function Find(rows: seq<Row>, key: string): (r: Option<Row>)
    ensures r.Some? ==> r.value in rows && r.value.key == key
  {
    if rows == [] then None else if rows[0].key == key then Some(rows[0]) else Find(rows[1..], key)
  }

  /** The rows that have not expired: a row expires once `now` is past its `resetAt`. */
  function Unexpired(rows: seq<Row>, now: int): (r: seq<Row>)
    ensures |r| <= |rows|
  {
    if rows == [] then []
    else if now > rows[0].resetAt then Unexpired(rows[1..], now)
    else [rows[0]] + Unexpired(rows[1..], now)
  }

  function Delete(rows: seq<Row>, key: string): seq<Row> {
    if rows == [] then [] else if rows[0].key == key then Delete(rows[1..], key) else [rows[0]] + Delete(rows[1..], key)
  }

  /** `entry.count += 1` on the row of a key. */
  function Bump(rows: seq<Row>, key: string): (r: seq<Row>)
    ensures |r| == |rows|
  {
    if rows == [] then []
    else if rows[0].key == key then [rows[0].(count := rows[0].count + 1)] + rows[1..]
    else [rows[0]] + Bump(rows[1..], key)
  }

  predicate Distinct(rows: seq<Row>) { forall i, j | 0 <= i < j < |rows| :: rows[i].key != rows[j].key }

  // ---------------------------------------------------------------- one request

  datatype Verdict = Verdict(rows: seq<Row>, accepted: bool)

  /** `checkRateLimit`. */
  function Check(rows: seq<Row>, key: string, now: int, window: int, max: int, cap: nat): Verdict {
    if key == "" then Verdict(rows, false)
    else
      var entry := Find(rows, key);
      if entry.Some? && now <= entry.value.resetAt then
        Verdict(Bump(rows, key), entry.value.count + 1 <= max)
      else
        var kept := Unexpired(rows, now);
        if |kept| >= cap then Verdict(kept, false)
        else Verdict(kept + [Row(key, 1, now + window)], 1 <= max)
  }

  /** What a call does to the table; sweeping happens at any time, by anyone. */
  datatype Op = Request(key: string, now: int, cap: nat) | Sweep(now: int)

  function Apply(rows: seq<Row>, op: Op, window: int, max: int): Verdict {
    match op
    case Request(key, now, cap) => Check(rows, key, now, window, max, cap)
    case Sweep(now) => Verdict(Unexpired(rows, now), false)
  }

  /** The number of requests of `key` accepted at a time from `lo` to `hi`. */
  function Accepted(rows: seq<Row>, ops: seq<Op>, key: string, lo: int, hi: int, window: int, max: int): nat
    decreases |ops|
  {
    if ops == [] then 0
    else
      var v := Apply(rows, ops[0], window, max);
      (if ops[0].Request? && ops[0].key == key && v.accepted && lo <= ops[0].now <= hi then 1 else 0)
      + Accepted(v.rows, ops[1..], key, lo, hi, window, max)
  }

  /** The clock never runs backwards, and starts no earlier than `from`. */
  ghost predicate ClockFrom(ops: seq<Op>, from: int) {
    (forall i | 0 <= i < |ops| :: from <= ops[i].now) &&
    (forall i, j | 0 <= i < j < |ops| :: ops[i].now <= ops[j].now)
  }

  lemma ClockTail(ops: seq<Op>, from: int)
    requires ops != [] && ClockFrom(ops, from)
    ensures ClockFrom(ops[1..], ops[0].now)
  {
    forall i | 0 <= i < |ops[1..]| ensures ops[0].now <= ops[1..][i].now { assert ops[1..][i] == ops[i + 1]; }
    forall i, j | 0 <= i < j < |ops[1..]| ensures ops[1..][i].now <= ops[1..][j].now {
      assert ops[1..][i] == ops[i + 1] && ops[1..][j] == ops[j + 1];
    }
  }

  // ---------------------------------------------------------------- what a step does to one key

  predicate Has(rows: seq<Row>, key: string) { exists i :: 0 <= i < |rows| && rows[i].key == key }

  lemma {:induction false} FindHas(rows: seq<Row>, key: string)
    ensures Find(rows, key).Some? <==> Has(rows, key)
  {
    if rows != [] {
      FindHas(rows[1..], key);
      if Has(rows, key) && rows[0].key != key {
        var i :| 0 <= i < |rows| && rows[i].key == key;
        assert rows[1..][i - 1].key == key;
      }
      if Has(rows[1..], key) {
        var i :| 0 <= i < |rows[1..]| && rows[1..][i].key == key;
        assert rows[i + 1].key == key;
      }
    }
  }

  /** Distinct keys, seen from the first row. */
  lemma DistinctCons(row: Row, rest: seq<Row>)
    ensures Distinct([row] + rest) <==> Distinct(rest) && !Has(rest, row.key)
  {
    var rows := [row] + rest;
    assert forall i | 0 <= i < |rest| :: rows[i + 1] == rest[i];
    if Distinct(rest) && !Has(rest, row.key) {
      forall i, j | 0 <= i < j < |rows| ensures rows[i].key != rows[j].key {
        assert rows[j] == rest[j - 1];
        if i > 0 { assert rows[i] == rest[i - 1]; }
      }
    }
    if Distinct(rows) {
      forall i, j | 0 <= i < j < |rest| ensures rest[i].key != rest[j].key {
        assert rows[i + 1] == rest[i] && rows[j + 1] == rest[j];
      }
      forall i | 0 <= i < |rest| ensures rest[i].key != row.key {
        assert rows[0] == row && rows[i + 1] == rest[i];
      }
    }
  }

  lemma HasCons(row: Row, rest: seq<Row>, key: string)
    ensures Has([row] + rest, key) <==> row.key == key || Has(rest, key)
  {
    FindHas([row] + rest, key);
    FindHas(rest, key);
    assert ([row] + rest)[1..] == rest;
  }

  lemma {:induction false} HasUnexpired(rows: seq<Row>, key: string, now: int)
    ensures Has(Unexpired(rows, now), key) ==> Has(rows, key)
  {
    if rows != [] {
      hide Has;
      HasUnexpired(rows[1..], key, now);
      HasCons(rows[0], rows[1..], key);
      HasCons(rows[0], Unexpired(rows[1..], now), key);
      assert rows == [rows[0]] + rows[1..];
    }
  }

  lemma {:induction false} FindUnexpired(rows: seq<Row>, key: string, now: int)
    requires Distinct(rows)
    ensures Distinct(Unexpired(rows, now))
    ensures Find(Unexpired(rows, now), key) ==
      if Find(rows, key).Some? && now > Find(rows, key).value.resetAt then None else Find(rows, key)
  {
    if rows != [] {
      hide Distinct, Has;
      var tail := Unexpired(rows[1..], now);
      assert rows == [rows[0]] + rows[1..];
      DistinctCons(rows[0], rows[1..]);
      FindUnexpired(rows[1..], key, now);
      HasUnexpired(rows[1..], rows[0].key, now);
      DistinctCons(rows[0], tail);
      FindHas(tail, rows[0].key);
    }
  }

  lemma {:induction false} HasBump(rows: seq<Row>, key: string, other: string)
    ensures Has(Bump(rows, key), other) <==> Has(rows, other)
  {
    if rows != [] {
      hide Has;
      HasBump(rows[1..], key, other);
      HasCons(rows[0], rows[1..], other);
      HasCons(Bump(rows, key)[0], Bump(rows, key)[1..], other);
      assert rows == [rows[0]] + rows[1..] && Bump(rows, key) == [Bump(rows, key)[0]] + Bump(rows, key)[1..];
    }
  }

  lemma {:induction false} FindBump(rows: seq<Row>, key: string, other: string)
    requires Distinct(rows)
    ensures Distinct(Bump(rows, key))
    ensures Find(Bump(rows, key), other) ==
      if other == key && Find(rows, key).Some? then Some(Find(rows, key).value.(count := Find(rows, key).value.count + 1))
      else Find(rows, other)
  {
    if rows != [] {
      hide Distinct, Has;
      assert rows == [rows[0]] + rows[1..];
      DistinctCons(rows[0], rows[1..]);
      FindBump(rows[1..], key, other);
      HasBump(rows[1..], key, rows[0].key);
      DistinctCons(rows[0], Bump(rows[1..], key));
      DistinctCons(rows[0].(count := rows[0].count + 1), rows[1..]);
    }
  }

  lemma {:induction false} FindAppend(rows: seq<Row>, row: Row, key: string)
    requires Distinct(rows) && Find(rows, row.key).None?
    ensures Distinct(rows + [row])
    ensures Find(rows + [row], key) == if key == row.key then Some(row) else Find(rows, key)
  {
    hide Distinct, Has;
    if rows == [] {
      assert rows + [row] == [row] + [];
      DistinctCons(row, []);
      FindHas([], row.key);
    } else {
      assert rows == [rows[0]] + rows[1..] && rows + [row] == [rows[0]] + (rows[1..] + [row]);
      DistinctCons(rows[0], rows[1..]);
      FindAppend(rows[1..], row, key);
      FindAppend(rows[1..], row, rows[0].key);
      FindHas(rows[1..], rows[0].key);
      FindHas(rows[1..] + [row], rows[0].key);
      DistinctCons(rows[0], rows[1..] + [row]);
    }
  }

  /** The row of `key` after one operation.  A row that is still running is touched by
      requests of its own key only; one that has run out is at most removed, until a
      request of its key opens a new window. */
  lemma ApplyOnKey(rows: seq<Row>, op: Op, key: string, window: int, max: int)
    requires Distinct(rows) && key != ""
    ensures var v := Apply(rows, op, window, max);
      var before, after := Find(rows, key), Find(v.rows, key);
      var mine := op.Request? && op.key == key;
      && Distinct(v.rows)
      && (before.Some? && op.now <= before.value.resetAt ==>
            after == Some(if mine then before.value.(count := before.value.count + 1) else before.value)
            && (mine ==> (v.accepted <==> before.value.count + 1 <= max)))
      && (before.None? || op.now > before.value.resetAt ==>
            && (after == before || after == None || (mine && after == Some(Row(key, 1, op.now + window))))
            && (mine && v.accepted ==> after == Some(Row(key, 1, op.now + window)) && 1 <= max))
  {
    hide Distinct, Find, Unexpired, Bump;
    var v := Apply(rows, op, window, max);
    match op
    case Sweep(now) => FindUnexpired(rows, key, now);
    case Request(k, now, cap) =>
      if k != "" {
        if Find(rows, k).Some? && now <= Find(rows, k).value.resetAt {
          assert v == Verdict(Bump(rows, k), Find(rows, k).value.count + 1 <= max);
          FindBump(rows, k, key);
        } else {
          var kept := Unexpired(rows, now);
          FindUnexpired(rows, key, now);
          if |kept| < cap {
            assert v == Verdict(kept + [Row(k, 1, now + window)], 1 <= max);
            FindUnexpired(rows, k, now);
            FindAppend(kept, Row(k, 1, now + window), key);
          } else {
            assert v == Verdict(kept, false);
          }
        }
      }
  }

  /** Exactly which requests are accepted: within a running window those the limit leaves, and
      otherwise the first of a new one, if the table has room once expired rows are gone; a
      refusal for want of room opens none. */
  lemma RequestExact(rows: seq<Row>, key: string, now: int, cap: nat, window: int, max: int)
    requires Distinct(rows) && key != ""
    ensures var v := Apply(rows, Request(key, now, cap), window, max);
      var before, after := Find(rows, key), Find(v.rows, key);
      if before.Some? && now <= before.value.resetAt
      then (v.accepted <==> before.value.count < max) && after == Some(before.value.(count := before.value.count + 1))
      else
        && (v.accepted <==> max >= 1 && |Unexpired(rows, now)| < cap)
        && after == if |Unexpired(rows, now)| < cap then Some(Row(key, 1, now + window)) else None
  {
    ApplyOnKey(rows, Request(key, now, cap), key, window, max);
    FindUnexpired(rows, key, now);
    hide Distinct, Find, Unexpired, Bump;
    if (Find(rows, key).None? || now > Find(rows, key).value.resetAt) && |Unexpired(rows, now)| < cap {
      FindAppend(Unexpired(rows, now), Row(key, 1, now + window), key);
    }
  }

  // ---------------------------------------------------------------- the bound

  function AtLeast0(n: int): nat { if n < 0 then 0 else n }

  lemma {:induction false} NothingLater(rows: seq<Row>, ops: seq<Op>, key: string, lo: int, hi: int, window: int, max: int)
    requires forall i | 0 <= i < |ops| :: ops[i].now > hi
    ensures Accepted(rows, ops, key, lo, hi, window, max) == 0
    decreases |ops|
  {
    if ops != [] {
      assert forall i | 0 <= i < |ops[1..]| :: ops[1..][i] == ops[i + 1];
      NothingLater(Apply(rows, ops[0], window, max).rows, ops[1..], key, lo, hi, window, max);
    }
  }

  ghost predicate RunsPast(rows: seq<Row>, key: string, t: int) {
    Find(rows, key).Some? && t <= Find(rows, key).value.resetAt
  }

  /** While one window runs, it accepts at most what its counter leaves. */
  lemma {:induction false} WithinOneWindow(rows: seq<Row>, ops: seq<Op>, key: string, lo: int, hi: int, window: int, max: int)
    requires Distinct(rows) && key != "" && ClockFrom(ops, lo) && RunsPast(rows, key, hi)
    ensures Accepted(rows, ops, key, lo, hi, window, max) <= AtLeast0(max - Find(rows, key).value.count)
    decreases |ops|
  {
    hide Distinct, Find, Apply;
    if ops != [] {
      if ops[0].now > hi {
        NothingLater(rows, ops, key, lo, hi, window, max);
      } else {
        ApplyOnKey(rows, ops[0], key, window, max);
        ClockTail(ops, lo);
        WithinOneWindow(Apply(rows, ops[0], window, max).rows, ops[1..], key, lo, hi, window, max);
      }
    }
  }

  /** With no window running from `lo` on, an interval of one length sees one window. */
  lemma {:induction false} FromNoWindow(rows: seq<Row>, ops: seq<Op>, key: string, lo: int, hi: int, window: int, max: int)
    requires Distinct(rows) && key != "" && ClockFrom(ops, lo) && hi <= lo + window && !RunsPast(rows, key, lo)
    ensures Accepted(rows, ops, key, lo, hi, window, max) <= AtLeast0(max)
    decreases |ops|
  {
    hide Distinct, Find, Apply;
    if ops != [] {
      if ops[0].now > hi {
        NothingLater(rows, ops, key, lo, hi, window, max);
      } else {
        ApplyOnKey(rows, ops[0], key, window, max);
        ClockTail(ops, lo);
        var v := Apply(rows, ops[0], window, max);
        if RunsPast(v.rows, key, lo) {
          WithinOneWindow(v.rows, ops[1..], key, lo, hi, window, max);
        } else {
          FromNoWindow(v.rows, ops[1..], key, lo, hi, window, max);
        }
      }
    }
  }

  /** An interval that starts inside a window sees the rest of it and one more. */
  lemma {:induction false} FromWindow(rows: seq<Row>, ops: seq<Op>, key: string, lo: int, hi: int, window: int, max: int)
    requires Distinct(rows) && key != "" && ClockFrom(ops, lo) && hi <= lo + window && RunsPast(rows, key, lo)
    ensures Accepted(rows, ops, key, lo, hi, window, max) <= AtLeast0(max - Find(rows, key).value.count) + AtLeast0(max)
    decreases |ops|
  {
    hide Distinct, Find, Apply;
    if ops != [] {
      ApplyOnKey(rows, ops[0], key, window, max);
      ClockTail(ops, lo);
      var v := Apply(rows, ops[0], window, max);
      if RunsPast(rows, key, ops[0].now) {
        FromWindow(v.rows, ops[1..], key, lo, hi, window, max);
      } else {
        LaterStart(rows, ops, key, lo, ops[0].now, hi, window, max);
        FromNoWindow(rows, ops, key, ops[0].now, hi, window, max);
      }
    }
  }

  /** Only the requests made can be counted: an earlier lower end changes nothing. */
  lemma {:induction false} LaterStart(rows: seq<Row>, ops: seq<Op>, key: string, lo: int, later: int, hi: int, window: int, max: int)
    requires lo <= later && forall i | 0 <= i < |ops| :: later <= ops[i].now
    ensures Accepted(rows, ops, key, lo, hi, window, max) == Accepted(rows, ops, key, later, hi, window, max)
    decreases |ops|
  {
    if ops != [] {
      assert forall i | 0 <= i < |ops[1..]| :: ops[1..][i] == ops[i + 1];
      LaterStart(Apply(rows, ops[0], window, max).rows, ops[1..], key, lo, later, hi, window, max);
    }
  }

  /** A window in the table has counted the request that opened it. */
  ghost predicate Counted(rows: seq<Row>, key: string) { Find(rows, key).Some? ==> Find(rows, key).value.count >= 1 }

  lemma {:induction false} AnyInterval(rows: seq<Row>, ops: seq<Op>, key: string, from: int, lo: int, window: int, max: int)
    requires Distinct(rows) && key != "" && ClockFrom(ops, from) && Counted(rows, key)
    ensures Accepted(rows, ops, key, lo, lo + window, window, max) <= AtLeast0(2 * max - 1)
    decreases |ops|
  {
    hide Distinct, Find, Apply;
    if ops != [] {
      ApplyOnKey(rows, ops[0], key, window, max);
      ClockTail(ops, from);
      if ops[0].now < lo {
        AnyInterval(Apply(rows, ops[0], window, max).rows, ops[1..], key, ops[0].now, lo, window, max);
      } else {
        assert ClockFrom(ops, lo);
        if RunsPast(rows, key, lo) {
          FromWindow(rows, ops, key, lo, lo + window, window, max);
        } else {
          FromNoWindow(rows, ops, key, lo, lo + window, window, max);
        }
      }
    }
  }

  /** With a clock that never runs backwards and no eviction, an interval of `window`
      milliseconds contains at most 2 * max - 1 accepted requests of one key. */
  lemma AcceptedPerInterval(ops: seq<Op>, key: string, from: int, lo: int, window: int, max: int)
    requires ClockFrom(ops, from)
    ensures Accepted([], ops, key, lo, lo + window, window, max) <= AtLeast0(2 * max - 1)
    ensures Accepted([], ops, key, lo, lo + window, window, max) <= 2 * AtLeast0(max)
  {
    if key != "" {
      AnyInterval([], ops, key, from, lo, window, max);
    } else {
      EmptyKeyRefused([], ops, lo, lo + window, window, max);
    }
  }

  lemma {:induction false} EmptyKeyRefused(rows: seq<Row>, ops: seq<Op>, lo: int, hi: int, window: int, max: int)
    ensures Accepted(rows, ops, "", lo, hi, window, max) == 0
    decreases |ops|
  {
    if ops != [] { EmptyKeyRefused(Apply(rows, ops[0], window, max).rows, ops[1..], lo, hi, window, max); }
  }

  // ---------------------------------------------------------------- the bound is reached

  function Repeat(key: string, now: int, n: nat): (r: seq<Op>)
    ensures |r| == n && forall i | 0 <= i < n :: r[i] == Request(key, now, 1)
  {
    seq(n, i => Request(key, now, 1))
  }

  lemma Bumped(key: string, c: int, end: int, now: int, window: int, max: int)
    requires key != "" && now <= end
    ensures Apply([Row(key, c, end)], Request(key, now, 1), window, max) == Verdict([Row(key, c + 1, end)], c + 1 <= max)
  {
    hide Unexpired;
  }

  /** What a list of calls accepts, first call apart. */
  lemma AcceptedFirst(rows: seq<Row>, op: Op, rest: seq<Op>, key: string, lo: int, hi: int, window: int, max: int)
    ensures var v := Apply(rows, op, window, max);
      Accepted(rows, [op] + rest, key, lo, hi, window, max) ==
        (if op.Request? && op.key == key && v.accepted && lo <= op.now <= hi then 1 else 0)
        + Accepted(v.rows, rest, key, lo, hi, window, max)
  {
    hide Apply;
    assert ([op] + rest)[1..] == rest;
  }

  lemma {:induction false} RepeatInWindow(key: string, c: int, end: int, now: int, n: nat, rest: seq<Op>, lo: int, hi: int, window: int, max: int)
    requires key != "" && lo <= now <= hi && now <= end && c + n <= max
    ensures Accepted([Row(key, c, end)], Repeat(key, now, n) + rest, key, lo, hi, window, max) ==
      n + Accepted([Row(key, c + n, end)], rest, key, lo, hi, window, max)
    decreases n
  {
    hide Apply, Accepted;
    if n == 0 {
      assert Repeat(key, now, n) + rest == rest;
    } else {
      var tail := Repeat(key, now, n - 1) + rest;
      assert Repeat(key, now, n) + rest == [Request(key, now, 1)] + tail;
      AcceptedFirst([Row(key, c, end)], Request(key, now, 1), tail, key, lo, hi, window, max);
      Bumped(key, c, end, now, window, max);
      RepeatInWindow(key, c + 1, end, now, n - 1, rest, lo, hi, window, max);
    }
  }

  /** A request that opens a window, as many as it leaves at its end, and a full next window
      right after. */
  function Straddling(key: string, window: int, max: int): seq<Op>
    requires max >= 1
  {
    [Request(key, 0, 1)] + (Repeat(key, window, max - 1) + ([Request(key, window + 1, 1)] + (Repeat(key, window + 1, max - 1) + [])))
  }

  lemma StraddlingClocked(key: string, window: int, max: int)
    requires window >= 1 && max >= 1
    ensures ClockFrom(Straddling(key, window, max), 0)
  {
  }

  lemma NextWindow(key: string, window: int, max: int)
    requires key != "" && window >= 1 && max >= 1
    ensures Accepted([Row(key, max, window)], [Request(key, window + 1, 1)] + (Repeat(key, window + 1, max - 1) + []),
                     key, 1, 1 + window, window, max) == max
  {
    var end := window + 1 + window;
    assert Unexpired([Row(key, max, window)], window + 1) == [];
    assert Accepted([Row(key, max, end)], [], key, 1, 1 + window, window, max) == 0;
    hide Accepted, Repeat, Unexpired;
    OpensWindow([Row(key, max, window)], key, window + 1, window, max);
    hide Check;
    AcceptedFirst([Row(key, max, window)], Request(key, window + 1, 1), Repeat(key, window + 1, max - 1) + [], key, 1, 1 + window, window, max);
    RepeatInWindow(key, 1, end, window + 1, max - 1, [], 1, 1 + window, window, max);
  }

  lemma BothWindows(key: string, window: int, max: int)
    requires key != "" && window >= 1 && max >= 1
    ensures Accepted([], Straddling(key, window, max), key, 1, 1 + window, window, max) == 2 * max - 1
  {
    var tail := [Request(key, window + 1, 1)] + (Repeat(key, window + 1, max - 1) + []);
    assert Straddling(key, window, max) == [Request(key, 0, 1)] + (Repeat(key, window, max - 1) + tail);
    assert Unexpired([], 0) == [];
    hide Accepted, Repeat, Unexpired, Straddling;
    OpensWindow([], key, 0, window, max);
    hide Check;
    AcceptedFirst([], Request(key, 0, 1), Repeat(key, window, max - 1) + tail, key, 1, 1 + window, window, max);
    RepeatInWindow(key, 1, window, window, max - 1, tail, 1, 1 + window, window, max);
    NextWindow(key, window, max);
  }

  /** The bound is exact: for every limit and window length some run reaches it. */
  lemma BoundIsReached(key: string, window: int, max: int)
    requires key != "" && window >= 1 && max >= 1
    ensures exists ops :: ClockFrom(ops, 0) && Accepted([], ops, key, 1, 1 + window, window, max) == 2 * max - 1
  {
    hide *;
    StraddlingClocked(key, window, max);
    BothWindows(key, window, max);
  }

  lemma OpensWindow(rows: seq<Row>, key: string, now: int, window: int, max: int)
    requires key != "" && max >= 1 && Unexpired(rows, now) == [] && |rows| <= 1
    requires rows != [] ==> rows[0].resetAt < now
    ensures Check(rows, key, now, window, max, 1) == Verdict([Row(key, 1, now + window)], true)
  {
  }

  // ---------------------------------------------------------------- the cap

  /** How a row's key compares, `left.localeCompare(right) <= 0`; a total preorder. */
  type KeyOrder = (string, string) -> bool

  ghost predicate TotalPreorder(leq: KeyOrder) {
    (forall a, b :: leq(a, b) || leq(b, a)) && (forall a, b, c :: leq(a, b) && leq(b, c) ==> leq(a, c))
  }

  /** The eviction order: by `resetAt`, then by count, then by key. */
  predicate Leq(a: Row, b: Row, leq: KeyOrder) {
    a.resetAt < b.resetAt ||
    (a.resetAt == b.resetAt && (a.count < b.count || (a.count == b.count && leq(a.key, b.key))))
  }

  /** A stable sort, as `Array.prototype.sort` is: a row goes before its equals on the right. */
  function Sorted(rows: seq<Row>, leq: KeyOrder): seq<Row> {
    if rows == [] then [] else Insert(rows[0], Sorted(rows[1..], leq), leq)
  }

  function Insert(row: Row, rows: seq<Row>, leq: KeyOrder): seq<Row> {
    if rows == [] then [row]
    else if Leq(row, rows[0], leq) then [row] + rows
    else [rows[0]] + Insert(row, rows[1..], leq)
  }

  function DeleteAll(rows: seq<Row>, evicted: seq<Row>): seq<Row>
    decreases |evicted|
  {
    if evicted == [] then rows else DeleteAll(Delete(rows, evicted[0].key), evicted[1..])
  }

  function Victims(rows: seq<Row>, cap: nat, leq: KeyOrder): seq<Row>
    requires |Sorted(rows, leq)| == |rows|
  {
    if |rows| <= cap then [] else Sorted(rows, leq)[..|rows| - cap]
  }

  /** `enforceRateLimitCap`: drop expired rows, then the smallest rows over the cap. */
  function Enforce(rows: seq<Row>, now: int, cap: nat, leq: KeyOrder): seq<Row> {
    var kept := Unexpired(rows, now);
    SortedSameRows(kept, leq);
    DeleteAll(kept, Victims(kept, cap, leq))
  }

  ghost predicate Ordered(rows: seq<Row>, leq: KeyOrder) {
    forall i, j | 0 <= i < j < |rows| :: Leq(rows[i], rows[j], leq)
  }

  lemma {:induction false} InsertSameRows(row: Row, rows: seq<Row>, leq: KeyOrder)
    ensures multiset(Insert(row, rows, leq)) == multiset(rows) + multiset{row}
    ensures |Insert(row, rows, leq)| == |rows| + 1
  {
    if rows != [] && !Leq(row, rows[0], leq) {
      InsertSameRows(row, rows[1..], leq);
      assert rows == [rows[0]] + rows[1..];
    }
  }

  lemma {:induction false} SortedSameRows(rows: seq<Row>, leq: KeyOrder)
    ensures multiset(Sorted(rows, leq)) == multiset(rows)
    ensures |Sorted(rows, leq)| == |rows|
  {
    if rows != [] {
      SortedSameRows(rows[1..], leq);
      InsertSameRows(rows[0], Sorted(rows[1..], leq), leq);
      assert rows == [rows[0]] + rows[1..];
    }
  }

  lemma LeqOrder(a: Row, b: Row, c: Row, leq: KeyOrder)
    requires TotalPreorder(leq)
    ensures Leq(a, b, leq) || Leq(b, a, leq)
    ensures Leq(a, b, leq) && Leq(b, c, leq) ==> Leq(a, c, leq)
  {
  }

  lemma {:induction false} InsertOrdered(row: Row, rows: seq<Row>, leq: KeyOrder)
    requires TotalPreorder(leq) && Ordered(rows, leq)
    ensures Ordered(Insert(row, rows, leq), leq)
  {
    hide TotalPreorder;
    if rows != [] {
      var r := Insert(row, rows, leq);
      if Leq(row, rows[0], leq) {
        forall j | 0 <= j < |rows| ensures Leq(row, rows[j], leq) {
          if j > 0 { LeqOrder(row, rows[0], rows[j], leq); }
        }
      } else {
        LeqOrder(row, rows[0], row, leq);
        InsertOrdered(row, rows[1..], leq);
        InsertSameRows(row, rows[1..], leq);
        var tail := Insert(row, rows[1..], leq);
        forall j | 0 <= j < |tail| ensures Leq(rows[0], tail[j], leq) {
          assert tail[j] in multiset(tail);
          if tail[j] != row { assert tail[j] in rows[1..]; }
        }
      }
    }
  }

  lemma {:induction false} SortedOrdered(rows: seq<Row>, leq: KeyOrder)
    requires TotalPreorder(leq)
    ensures Ordered(Sorted(rows, leq), leq)
  {
    if rows != [] {
      SortedOrdered(rows[1..], leq);
      InsertOrdered(rows[0], Sorted(rows[1..], leq), leq);
    }
  }

  lemma {:induction false} DeleteIsRemoval(rows: seq<Row>, row: Row)
    requires Distinct(rows)
    ensures Distinct(Delete(rows, row.key))
    ensures row in rows ==> multiset(Delete(rows, row.key)) == multiset(rows) - multiset{row}
    ensures !Has(rows, row.key) ==> Delete(rows, row.key) == rows
    ensures forall k | Has(Delete(rows, row.key), k) :: Has(rows, k)
  {
    if rows != [] {
      hide Distinct, Has;
      assert rows == [rows[0]] + rows[1..];
      DistinctCons(rows[0], rows[1..]);
      DeleteIsRemoval(rows[1..], row);
      var tail := Delete(rows[1..], row.key);
      HasCons(rows[0], rows[1..], row.key);
      DistinctCons(rows[0], tail);
      forall k ensures Has(rows, k) <==> rows[0].key == k || Has(rows[1..], k) { HasCons(rows[0], rows[1..], k); }
      if rows[0].key == row.key {
        NotHas(rows[1..], row);
      } else {
        forall k ensures Has([rows[0]] + tail, k) <==> rows[0].key == k || Has(tail, k) { HasCons(rows[0], tail, k); }
      }
    }
  }

  lemma NotHas(rows: seq<Row>, row: Row)
    requires !Has(rows, row.key)
    ensures row !in rows
  {
  }

  lemma FirstApart(rows: multiset<Row>, evicted: seq<Row>)
    requires evicted != [] && multiset(evicted) <= rows
    ensures evicted[0] in rows && multiset(evicted[1..]) <= rows - multiset{evicted[0]}
    ensures rows - multiset{evicted[0]} - multiset(evicted[1..]) == rows - multiset(evicted)
  {
    assert evicted == [evicted[0]] + evicted[1..];
    assert multiset(evicted) == multiset{evicted[0]} + multiset(evicted[1..]);
    assert evicted[0] in multiset(evicted);
  }

  lemma {:induction false} DeleteAllIsRemoval(rows: seq<Row>, evicted: seq<Row>)
    requires Distinct(rows) && multiset(evicted) <= multiset(rows)
    ensures Distinct(DeleteAll(rows, evicted))
    ensures multiset(DeleteAll(rows, evicted)) == multiset(rows) - multiset(evicted)
    decreases |evicted|
  {
    hide Distinct, Has, Delete;
    if evicted != [] {
      FirstApart(multiset(rows), evicted);
      DeleteIsRemoval(rows, evicted[0]);
      DeleteAllIsRemoval(Delete(rows, evicted[0].key), evicted[1..]);
    }
  }

  /** Cap enforcement splits the unexpired rows into what it keeps and what it evicts:
      as many as fit are kept, none is lost otherwise, and no evicted row is larger
      than a kept one. */
  lemma EnforceKeepsLargest(rows: seq<Row>, now: int, cap: nat, leq: KeyOrder)
    requires Distinct(rows) && TotalPreorder(leq)
    ensures var live, kept := Unexpired(rows, now), Enforce(rows, now, cap, leq);
      var evicted := multiset(live) - multiset(kept);
      && Distinct(kept)
      && multiset(kept) <= multiset(live)
      && |kept| == (if |live| <= cap then |live| else cap)
      && (forall e, k | e in evicted && k in kept :: Leq(e, k, leq))
  {
    hide Unexpired, Sorted, DeleteAll, Distinct, TotalPreorder, Leq, Ordered;
    var live := Unexpired(rows, now);
    FindUnexpired(rows, "", now);
    SortedSameRows(live, leq);
    SortedOrdered(live, leq);
    var order := Sorted(live, leq);
    var n := if |live| <= cap then 0 else |live| - cap;
    var victims, rest := order[..n], order[n..];
    assert victims == Victims(live, cap, leq);
    SplitRows(order, n);
    DeleteAllIsRemoval(live, victims);
    var kept := Enforce(rows, now, cap, leq);
    SameSize(kept, rest);
    OrderedSplit(order, n, leq);
    forall e, k | e in multiset(victims) && k in kept ensures Leq(e, k, leq) {
      assert k in multiset(kept) && k in rest && e in victims;
    }
  }

  /** Seen without the order: what is evicted expires no later than anything kept and, where
      both expire at once, has counted no more requests. */
  lemma EvictsSoonest(rows: seq<Row>, now: int, cap: nat, leq: KeyOrder, gone: Row, kept: Row)
    requires Distinct(rows) && TotalPreorder(leq)
    requires gone in Unexpired(rows, now) && gone !in Enforce(rows, now, cap, leq) && kept in Enforce(rows, now, cap, leq)
    ensures gone.resetAt <= kept.resetAt && (gone.resetAt == kept.resetAt ==> gone.count <= kept.count)
    ensures gone.resetAt == kept.resetAt && gone.count == kept.count ==> leq(gone.key, kept.key)
  {
    hide Unexpired, Enforce, Distinct, TotalPreorder;
    EnforceKeepsLargest(rows, now, cap, leq);
    assert gone in multiset(Unexpired(rows, now)) - multiset(Enforce(rows, now, cap, leq));
    assert Leq(gone, kept, leq);
  }

  lemma SplitRows(order: seq<Row>, n: nat)
    requires n <= |order|
    ensures multiset(order) == multiset(order[..n]) + multiset(order[n..])
  {
    assert order == order[..n] + order[n..];
  }

  lemma SameSize(a: seq<Row>, b: seq<Row>)
    ensures multiset(a) == multiset(b) ==> |a| == |b|
  {
    assert |multiset(a)| == |a| && |multiset(b)| == |b|;
  }

  lemma OrderedSplit(order: seq<Row>, n: nat, leq: KeyOrder)
    requires n <= |order| && Ordered(order, leq)
    ensures forall e, k | e in order[..n] && k in order[n..] :: Leq(e, k, leq)
  {
    hide Leq;
    forall e, k | e in order[..n] && k in order[n..] ensures Leq(e, k, leq) {
      var i :| 0 <= i < n && order[..n][i] == e;
      var j :| 0 <= j < |order[n..]| && order[n..][j] == k;
      assert order[i] == e && order[n + j] == k;
    }
  }

  lemma CheckWithinCap(rows: seq<Row>, key: string, now: int, window: int, max: int, cap: nat, limit: nat)
    requires |rows| <= cap && limit <= cap
    ensures |Check(rows, key, now, window, max, limit).rows| <= cap
  {
  }

  /** A call of any of the three functions. */
  datatype Move = Do(op: Op) | Evict(now: int, cap: nat)

  function Moved(rows: seq<Row>, move: Move, window: int, max: int, leq: KeyOrder): seq<Row> {
    match move
    case Do(op) => Apply(rows, op, window, max).rows
    case Evict(now, cap) => Enforce(rows, now, cap, leq)
  }

  function Table(rows: seq<Row>, moves: seq<Move>, window: int, max: int, leq: KeyOrder): seq<Row>
    decreases |moves|
  {
    if moves == [] then rows else Table(Moved(rows, moves[0], window, max, leq), moves[1..], window, max, leq)
  }

  /** Over every run of requests, sweeps and evictions, if no request carries a larger cap than
      `cap`, the table never outgrows it, and no key has two rows. */
  lemma {:induction false} TableWithinCap(rows: seq<Row>, moves: seq<Move>, window: int, max: int, leq: KeyOrder, cap: nat)
    requires Distinct(rows) && |rows| <= cap && TotalPreorder(leq)
    requires forall m | m in moves && m.Do? && m.op.Request? :: m.op.cap <= cap
    ensures var after := Table(rows, moves, window, max, leq); |after| <= cap && Distinct(after)
    decreases |moves|
  {
    hide Distinct, TotalPreorder, Check, Enforce;
    if moves != [] {
      assert moves[0] in moves;
      match moves[0] {
        case Do(op) =>
          ApplyOnKey(rows, op, "any", window, max);
          if op.Request? { CheckWithinCap(rows, op.key, op.now, window, max, cap, op.cap); }
        case Evict(now, limit) => EnforceKeepsLargest(rows, now, limit, leq);
      }
      TableWithinCap(Moved(rows, moves[0], window, max, leq), moves[1..], window, max, leq, cap);
    }
  }

  // ---------------------------------------------------------------- the code

  /** The module-level `rateLimitMap` and the functions over it. */
  class RateLimiter {
    var rows: seq<Row>

    constructor ()
      ensures rows == []
    {
      rows := [];
    }

    /** `clearExpiredRateLimitEntries`: a Map may be deleted from while it is iterated. */
    method ClearExpired(now: int)
      modifies this
      ensures rows == Unexpired(old(rows), now)
    {
      var kept, i := [], 0;
      assert rows[0..] == rows;
      while i < |rows|
        invariant 0 <= i <= |rows| && rows == old(rows)
        invariant kept + Unexpired(rows[i..], now) == Unexpired(old(rows), now)
      {
        assert rows[i..][1..] == rows[i + 1..];
        if now <= rows[i].resetAt { kept := kept + [rows[i]]; }
        i := i + 1;
      }
      rows := kept;
    }

    method CheckRequest(ip: string, now: int, window: int, max: int, maxEntries: MaxEntries) returns (accepted: bool)
      modifies this
      ensures Verdict(rows, accepted) == Check(old(rows), ip, now, window, max, CapOf(maxEntries))
    {
      if ip == "" { return false; }
      var entry := Find(rows, ip);
      if entry.None? || now > entry.value.resetAt {
        ClearExpired(now);
        if |rows| >= CapOf(maxEntries) { return false; }
        rows := rows + [Row(ip, 1, now + window)];
        return 1 <= max;
      }
      rows := Bump(rows, ip);
      return entry.value.count + 1 <= max;
    }

    method EnforceCap(now: int, maxEntries: MaxEntries, leq: KeyOrder)
      modifies this
      ensures rows == Enforce(old(rows), now, CapOf(maxEntries), leq)
    {
      hide Unexpired, Sorted, Delete;
      ClearExpired(now);
      var cap := CapOf(maxEntries);
      SortedSameRows(rows, leq);
      if |rows| <= cap { return; }
      var entries := Sorted(rows, leq);
      var overflow := |rows| - cap;
      ghost var live := rows;
      ghost var victims := entries[..overflow];
      var index := 0;
      while index < overflow
        invariant 0 <= index <= overflow
        invariant DeleteAll(rows, victims[index..]) == DeleteAll(live, victims)
      {
        assert victims[index..][1..] == victims[index + 1..] && victims[index..][0] == entries[index];
        rows := Delete(rows, entries[index].key);
        index := index + 1;
      }
      assert victims[index..] == [];
    }
  }
}
