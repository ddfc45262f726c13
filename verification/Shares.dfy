/** Share accounting over the share log: per-miner totals, the PPLNS window and
    the shares newer than a cursor (storage/redis.go). */
module Shares {
  import opened Prelude

  type Miner = string

  /** One share: who submitted it, the difficulty credited, and the number INCR gave it. */
  datatype Entry = Entry(miner: Miner, diff: real, seqNo: nat)

  /** HINCRBYFLOAT on a hash, and `out[miner] += diff` on a Go map. */
  function Credit(t: map<Miner, real>, m: Miner, d: real): map<Miner, real> {
    t[m := GetReal(t, m) + d]
  }

  /** Per-miner difficulty of a list of shares. */
  function Totals(es: seq<Entry>): map<Miner, real> {
    if es == [] then map[]
    else
      var e := es[|es| - 1];
      Credit(Totals(es[..|es| - 1]), e.miner, e.diff)
  }

  /** Summed difficulty of a list of shares. */
  function Work(es: seq<Entry>): real {
    if es == [] then 0.0 else es[0].diff + Work(es[1..])
  }

  /** Difficulty submitted by one miner: the reference that Totals is measured against. */
  function MinerWork(es: seq<Entry>, m: Miner): real {
    if es == [] then 0.0
    else (if es[0].miner == m then es[0].diff else 0.0) + MinerWork(es[1..], m)
  }

  lemma {:induction false} MinerWorkConcat(a: seq<Entry>, b: seq<Entry>, m: Miner)
    ensures MinerWork(a + b, m) == MinerWork(a, m) + MinerWork(b, m)
  {
    if a == [] {
      assert a + b == b;
    } else {
      assert (a + b)[1..] == a[1..] + b;
      MinerWorkConcat(a[1..], b, m);
    }
  }

  /** Totals holds exactly the miners that occur, each with its own summed work. */
  lemma {:induction false} TotalsAreMinerWork(es: seq<Entry>)
    ensures forall m :: m in Totals(es) <==> exists i :: 0 <= i < |es| && es[i].miner == m
    ensures forall m :: GetReal(Totals(es), m) == MinerWork(es, m)
  {
    if es != [] {
      var init, e := es[..|es| - 1], es[|es| - 1];
      TotalsAreMinerWork(init);
      assert es == init + [e];
      forall m ensures GetReal(Totals(es), m) == MinerWork(es, m) {
        MinerWorkConcat(init, [e], m);
      }
      forall m ensures m in Totals(es) <==> exists i :: 0 <= i < |es| && es[i].miner == m {
        if m in Totals(es) {
          if m == e.miner {
            assert es[|es| - 1].miner == m;
          } else {
            var i :| 0 <= i < |init| && init[i].miner == m;
            assert es[i].miner == m;
          }
        } else {
          forall i | 0 <= i < |es| ensures es[i].miner != m {
            if i < |init| { assert init[i].miner != m; }
          }
        }
      }
    }
  }

  /** Two lists in which the same miners did the same work have the same totals. */
  lemma TotalsEqual(a: map<Miner, real>, b: map<Miner, real>)
    requires a.Keys == b.Keys
    requires forall m :: GetReal(a, m) == GetReal(b, m)
    ensures a == b
  {
    forall m | m in a ensures a[m] == b[m] {
      assert GetReal(a, m) == GetReal(b, m);
    }
  }

  /** Totals may equally be accumulated newest first. */
  lemma TotalsPrepend(e: Entry, es: seq<Entry>)
    ensures Totals([e] + es) == Credit(Totals(es), e.miner, e.diff)
  {
    var l, r := Totals([e] + es), Credit(Totals(es), e.miner, e.diff);
    TotalsAreMinerWork([e] + es);
    TotalsAreMinerWork(es);
    assert ([e] + es)[1..] == es;
    forall m ensures m in l <==> m in r {
      if m in r && m != e.miner {
        var i :| 0 <= i < |es| && es[i].miner == m;
        assert ([e] + es)[i + 1].miner == m;
      } else if m == e.miner {
        assert ([e] + es)[0].miner == m;
      }
    }
    forall m ensures GetReal(l, m) == GetReal(r, m) {
      var es' := [e] + es;
      assert es'[1..] == es;
      assert GetReal(l, m) == MinerWork(es', m);
      assert GetReal(Totals(es), m) == MinerWork(es, m);
    }
    TotalsEqual(l, r);
  }

  lemma TotalsAppend(es: seq<Entry>, e: Entry)
    ensures Totals(es + [e]) == Credit(Totals(es), e.miner, e.diff)
  {
    assert (es + [e])[..|es|] == es;
  }

  lemma {:induction false} WorkConcat(a: seq<Entry>, b: seq<Entry>)
    ensures Work(a + b) == Work(a) + Work(b)
  {
    if a == [] {
      assert a + b == b;
    } else {
      assert (a + b)[1..] == a[1..] + b;
      WorkConcat(a[1..], b);
    }
  }

  // ------------------------------------------------------------------
  // Selections by score
  // ------------------------------------------------------------------

  /** Entries with score at most s, in score order (ZREVRANGEBYSCORE, reversed). */
  function UpTo(log: seq<Entry>, s: int): seq<Entry> {
    if log == [] then []
    else (if log[0].seqNo <= s then [log[0]] else []) + UpTo(log[1..], s)
  }

  /** Entries with score above s, in score order. */
  function After(log: seq<Entry>, s: int): seq<Entry> {
    if log == [] then []
    else (if log[0].seqNo > s then [log[0]] else []) + After(log[1..], s)
  }

  /** A share log whose numbers strictly increase. */
  ghost predicate Increasing(log: seq<Entry>) {
    forall i, j | 0 <= i < j < |log| :: log[i].seqNo < log[j].seqNo
  }

  lemma {:induction false} UpToConcat(a: seq<Entry>, b: seq<Entry>, s: int)
    ensures UpTo(a + b, s) == UpTo(a, s) + UpTo(b, s)
  {
    if a == [] {
      assert a + b == b;
    } else {
      assert (a + b)[0] == a[0] && (a + b)[1..] == a[1..] + b;
      UpToConcat(a[1..], b, s);
      var head := if a[0].seqNo <= s then [a[0]] else [];
      var x, y := UpTo(a[1..], s), UpTo(b, s);
      assert UpTo(a + b, s) == head + UpTo(a[1..] + b, s);
      assert head + (x + y) == (head + x) + y;
    }
  }

  lemma {:induction false} AfterConcat(a: seq<Entry>, b: seq<Entry>, s: int)
    ensures After(a + b, s) == After(a, s) + After(b, s)
  {
    if a == [] {
      assert a + b == b;
    } else {
      assert (a + b)[0] == a[0] && (a + b)[1..] == a[1..] + b;
      AfterConcat(a[1..], b, s);
      var head := if a[0].seqNo > s then [a[0]] else [];
      var x, y := After(a[1..], s), After(b, s);
      assert After(a + b, s) == head + After(a[1..] + b, s);
      assert head + (x + y) == (head + x) + y;
    }
  }

  lemma {:induction false} UpToAll(log: seq<Entry>, s: int)
    requires forall e | e in log :: e.seqNo <= s
    ensures UpTo(log, s) == log && After(log, s) == []
  {
    if log != [] {
      UpToAll(log[1..], s);
    }
  }

  lemma {:induction false} AfterAll(log: seq<Entry>, s: int)
    requires forall e | e in log :: e.seqNo > s
    ensures After(log, s) == log && UpTo(log, s) == []
  {
    if log != [] {
      AfterAll(log[1..], s);
    }
  }

  lemma SplitParts(low: seq<Entry>, high: seq<Entry>, s: int)
    requires forall e | e in low :: e.seqNo <= s
    requires forall e | e in high :: e.seqNo > s
    ensures UpTo(low + high, s) == low && After(low + high, s) == high
  {
    hide UpTo, After;
    UpToConcat(low, high, s);
    AfterConcat(low, high, s);
    UpToAll(low, s);
    AfterAll(high, s);
  }

  /** In an increasing log the two selections are a prefix and the matching suffix. */
  lemma SplitAt(log: seq<Entry>, s: int) returns (k: nat)
    requires Increasing(log)
    ensures k <= |log|
    ensures forall i | 0 <= i < k :: log[i].seqNo <= s
    ensures forall i | k <= i < |log| :: log[i].seqNo > s
    ensures UpTo(log, s) == log[..k] && After(log, s) == log[k..]
  {
    hide UpTo, After;
    k := 0;
    while k < |log| && log[k].seqNo <= s
      invariant k <= |log|
      invariant forall i | 0 <= i < k :: log[i].seqNo <= s
    {
      k := k + 1;
    }
    forall i | k <= i < |log| ensures log[i].seqNo > s {
      assert i == k || log[k].seqNo < log[i].seqNo;
    }
    hide Increasing;
    var low, high := log[..k], log[k..];
    assert log == low + high;
    forall e | e in low ensures e.seqNo <= s {
      var i :| 0 <= i < k && low[i] == e;
    }
    forall e | e in high ensures e.seqNo > s {
      var i :| 0 <= i < |high| && high[i] == e;
    }
    SplitParts(low, high, s);
  }

  lemma {:induction false} AfterAfter(log: seq<Entry>, s: int, t: int)
    requires s <= t
    ensures After(After(log, s), t) == After(log, t)
  {
    if log != [] {
      AfterAfter(log[1..], s, t);
      AfterConcat(if log[0].seqNo > s then [log[0]] else [], After(log[1..], s), t);
    }
  }

  // ------------------------------------------------------------------
  // The PPLNS window
  // ------------------------------------------------------------------

  /** es[i..] is what a newest-first walk collects before its work reaches the window:
      every shorter suffix falls short, and either this one reaches it or nothing is left. */
  ghost predicate IsWindow(es: seq<Entry>, window: real, i: nat) {
    && i <= |es|
    && (if window <= 0.0 then i == 0
        else
          && (forall j | i < j <= |es| :: Work(es[j..]) < window)
          && (i == 0 || Work(es[i..]) >= window))
  }

  lemma WindowUnique(es: seq<Entry>, window: real, i: nat, j: nat)
    requires IsWindow(es, window, i) && IsWindow(es, window, j)
    ensures i == j
  {
  }

  /** Where the newest-first walk stops, counted from position n downwards. */
  function WindowFrom(es: seq<Entry>, window: real, n: nat): (i: nat)
    requires n <= |es|
    ensures i <= n
  {
    if n == 0 || (window > 0.0 && Work(es[n..]) >= window) then n
    else WindowFrom(es, window, n - 1)
  }

  function WindowStart(es: seq<Entry>, window: real): (i: nat)
    ensures i <= |es|
  {
    WindowFrom(es, window, |es|)
  }

  lemma {:induction false} WindowFromIsWindow(es: seq<Entry>, window: real, n: nat)
    requires n <= |es|
    requires window > 0.0 ==> forall j | n < j <= |es| :: Work(es[j..]) < window
    ensures IsWindow(es, window, WindowFrom(es, window, n))
  {
    hide Work;
    if n == 0 || (window > 0.0 && Work(es[n..]) >= window) {
    } else {
      WindowFromIsWindow(es, window, n - 1);
    }
  }

  /** Difficulty per miner over the last-N window that ends at a block's mark. */
  function WindowShares(log: seq<Entry>, mark: int, window: real): map<Miner, real> {
    var es := UpTo(log, mark);
    Totals(es[WindowStart(es, window)..])
  }

  /** Shares logged after a block was found never change what the block pays. */
  lemma WindowIgnoresLaterShares(log: seq<Entry>, later: seq<Entry>, mark: int, window: real)
    requires forall e | e in later :: e.seqNo > mark
    ensures WindowShares(log + later, mark, window) == WindowShares(log, mark, window)
  {
    UpToConcat(log, later, mark);
    AfterAll(later, mark);
    assert UpTo(log, mark) + [] == UpTo(log, mark);
  }

  /** Dropping the d oldest entries leaves the window in place when it starts after them. */
  lemma WindowSurvivesDrop(full: seq<Entry>, window: real, d: nat)
    requires d <= WindowStart(full, window)
    ensures WindowStart(full[d..], window) == WindowStart(full, window) - d
    ensures full[WindowStart(full, window)..] == full[d..][WindowStart(full[d..], window)..]
  {
    var kept, i := full[d..], WindowStart(full, window);
    WindowFromIsWindow(full, window, |full|);
    WindowFromIsWindow(kept, window, |kept|);
    forall j | 0 <= j <= |kept| ensures full[d + j..] == kept[j..] {
    }
    assert IsWindow(kept, window, i - d) by {
      if window > 0.0 {
        forall j | i - d < j <= |kept| ensures Work(kept[j..]) < window {
          assert Work(full[d + j..]) < window;
        }
      }
    }
    WindowUnique(kept, window, i - d, WindowStart(kept, window));
  }

  /** What a log that dropped its d oldest entries still holds up to a mark. */
  lemma UpToDropped(hist: seq<Entry>, d: nat, mark: int)
    requires Increasing(hist) && d <= |hist|
    ensures
      var full := UpTo(hist, mark);
      UpTo(hist[d..], mark) == if d <= |full| then full[d..] else []
  {
    var n := SplitAt(hist, mark);
    if d <= n {
      assert hist[d..] == hist[d..n] + hist[n..];
      UpToConcat(hist[d..n], hist[n..], mark);
      UpToAll(hist[d..n], mark);
      AfterAll(hist[n..], mark);
    } else {
      AfterAll(hist[d..], mark);
    }
  }

  /** A log that kept only its newest entries selects the same shares as the full history
      exactly when the full window starts within what was kept (or the window is empty). */
  lemma CappedWindow(hist: seq<Entry>, d: nat, mark: int, window: real)
    requires Increasing(hist) && d <= |hist|
    ensures
      var full, kept := UpTo(hist, mark), UpTo(hist[d..], mark);
      full[WindowStart(full, window)..] == kept[WindowStart(kept, window)..]
      <==> (WindowStart(full, window) >= d || full == [])
  {
    var full, kept := UpTo(hist, mark), UpTo(hist[d..], mark);
    UpToDropped(hist, d, mark);
    var i := WindowStart(full, window);
    WindowFromIsWindow(full, window, |full|);
    if i >= d {
      WindowSurvivesDrop(full, window, d);
    } else if full != [] {
      assert i < |full| by {
        assert full[|full|..] == [];
      }
      assert |kept| < |full| - i;
    }
  }
}
