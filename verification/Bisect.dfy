/** Bisection of a draft against a black-box guard, over staged files. */
module Bisect {
  import opened Optional
  import opened Picks

  /** A public row; rows with a private counterpart share its id. */
  datatype Row = Row(id: string, hidden: bool)

  datatype Verdict = Exit(code: int) | Raised

  datatype Receipt = Receipt(dropped: nat, input: nat, kept: seq<Row>, secret: seq<Row>)

  datatype Outcome = Kept(rows: seq<Row>) | InstrumentFailure | StagingExists

  // ----- what the bisection computes -----

  /** `kept` is `rows` with some rows left out, in order. */
  predicate Sub(kept: seq<Row>, rows: seq<Row>) {
    kept == [] ||
    (rows != [] && ((kept[0] == rows[0] && Sub(kept[1..], rows[1..])) || Sub(kept, rows[1..])))
  }

  function Retained(g: seq<Row> -> bool, rows: seq<Row>): seq<Row> {
    if rows == [] || g(rows) then rows
    else if |rows| == 1 then []
    else
      var middle := |rows| / 2;
      Retained(g, rows[..middle]) + Retained(g, rows[middle..])
  }

  function Filter(pass: Row -> bool, rows: seq<Row>): seq<Row> {
    if rows == [] then [] else (if pass(rows[0]) then [rows[0]] else []) + Filter(pass, rows[1..])
  }

  function Failing(pass: Row -> bool, rows: seq<Row>): nat {
    if rows == [] then 0 else (if pass(rows[0]) then 0 else 1) + Failing(pass, rows[1..])
  }

  /** The guard passes exactly when every row passes alone. */
  ghost predicate RowWise(g: seq<Row> -> bool, pass: Row -> bool) {
    forall rows :: g(rows) <==> forall k | 0 <= k < |rows| :: pass(rows[k])
  }

  function LogUp(n: nat): nat {
    if n <= 1 then 0 else 1 + LogUp((n + 1) / 2)
  }

  /** The number of guard runs of the bisection. */
  function Calls(g: seq<Row> -> bool, rows: seq<Row>): nat {
    if rows == [] then 0
    else if g(rows) || |rows| == 1 then 1
    else 1 + Calls(g, rows[..|rows| / 2]) + Calls(g, rows[|rows| / 2..])
  }

  lemma {:induction false} SubAll(rows: seq<Row>)
    ensures Sub(rows, rows)
  {
    if rows != [] { SubAll(rows[1..]); }
  }

  lemma {:induction false} SubConcat(a: seq<Row>, x: seq<Row>, b: seq<Row>, y: seq<Row>)
    requires Sub(a, x) && Sub(b, y)
    ensures Sub(a + b, x + y)
    decreases |x|
  {
    if x == [] {
      assert a == [] && a + b == b && x + y == y;
    } else {
      assert (x + y)[1..] == x[1..] + y;
      if a != [] && a[0] == x[0] && Sub(a[1..], x[1..]) {
        SubConcat(a[1..], x[1..], b, y);
        assert (a + b)[1..] == a[1..] + b;
      } else if a == [] {
        SubConcat([], x[1..], b, y);
      } else {
        SubConcat(a, x[1..], b, y);
      }
    }
  }

  lemma {:induction false} FilterConcat(pass: Row -> bool, x: seq<Row>, y: seq<Row>)
    ensures Filter(pass, x + y) == Filter(pass, x) + Filter(pass, y)
    ensures Failing(pass, x + y) == Failing(pass, x) + Failing(pass, y)
  {
    if x == [] {
      assert x + y == y;
    } else {
      var one := if pass(x[0]) then [x[0]] else [];
      assert (x + y)[0] == x[0] && (x + y)[1..] == x[1..] + y;
      FilterConcat(pass, x[1..], y);
      assert Filter(pass, x + y) == one + Filter(pass, x[1..] + y) && Filter(pass, x) == one + Filter(pass, x[1..]);
    }
  }

  lemma {:induction false} AllPass(pass: Row -> bool, rows: seq<Row>)
    ensures Failing(pass, rows) == 0 <==> forall k | 0 <= k < |rows| :: pass(rows[k])
    ensures Failing(pass, rows) == 0 ==> Filter(pass, rows) == rows
    ensures forall k | 0 <= k < |Filter(pass, rows)| :: pass(Filter(pass, rows)[k])
  {
    if rows != [] {
      AllPass(pass, rows[1..]);
      assert forall k | 0 <= k < |rows| - 1 :: rows[1..][k] == rows[k + 1];
      assert forall k | 0 < k < |rows| :: rows[k] == rows[1..][k - 1];
    }
  }

  /** For a row-wise guard the bisection keeps exactly the passing rows. */
  lemma {:induction false} RetainsPassing(g: seq<Row> -> bool, pass: Row -> bool, rows: seq<Row>)
    requires RowWise(g, pass)
    ensures Retained(g, rows) == Filter(pass, rows)
    decreases |rows|
  {
    AllPass(pass, rows);
    if rows != [] && !g(rows) && |rows| > 1 {
      var middle := |rows| / 2;
      RetainsPassing(g, pass, rows[..middle]);
      RetainsPassing(g, pass, rows[middle..]);
      FilterConcat(pass, rows[..middle], rows[middle..]);
      assert rows[..middle] + rows[middle..] == rows;
    }
  }

  lemma {:induction false} LogMonotone(m: nat, n: nat)
    requires m <= n
    ensures LogUp(m) <= LogUp(n)
    decreases n
  {
    if m > 1 { LogMonotone((m + 1) / 2, (n + 1) / 2); }
  }

  function Pow2(k: nat): nat { if k == 0 then 1 else 2 * Pow2(k - 1) }

  /** LogUp is the ceiling of the binary logarithm. */
  lemma {:induction false} LogUpIsCeiling(n: nat)
    ensures n <= Pow2(LogUp(n)) && (n > 1 ==> Pow2(LogUp(n) - 1) < n)
    decreases n
  {
    if n > 1 {
      LogUpIsCeiling((n + 1) / 2);
    }
  }

  predicate Within(calls: nat, failing: nat, depth: nat) { calls <= 1 + 2 * failing * depth }

  lemma Combine(a: nat, b: nat, l1: nat, l2: nat, l: nat, c1: nat, c2: nat)
    requires l1 <= l && l2 <= l && a + b >= 1 && Within(c1, a, l1) && Within(c2, b, l2)
    ensures Within(1 + c1 + c2, a + b, l + 1)
  {
    assert a * l1 <= a * l && b * l2 <= b * l;
    assert 2 * (a + b) * (l + 1) == 2 * (a * l) + 2 * (b * l) + 2 * (a + b);
    assert 2 * a * l1 == 2 * (a * l1) && 2 * b * l2 == 2 * (b * l2);
  }

  lemma SomeFails(g: seq<Row> -> bool, pass: Row -> bool, rows: seq<Row>)
    requires RowWise(g, pass) && !g(rows)
    ensures Failing(pass, rows) >= 1
  {
    AllPass(pass, rows);
  }

  /** One guard run, and the two halves. */
  lemma Halves(g: seq<Row> -> bool, pass: Row -> bool, rows: seq<Row>)
    requires RowWise(g, pass) && !g(rows) && |rows| > 1
    ensures var left, right := rows[..|rows| / 2], rows[|rows| / 2..];
            && Calls(g, rows) == 1 + Calls(g, left) + Calls(g, right)
            && Failing(pass, rows) == Failing(pass, left) + Failing(pass, right)
  {
    var left, right := rows[..|rows| / 2], rows[|rows| / 2..];
    assert Calls(g, rows) == 1 + Calls(g, left) + Calls(g, right);
    hide Calls, Failing, RowWise;
    FilterConcat(pass, left, right);
    assert left + right == rows;
  }

  lemma DepthHalves(n: nat)
    requires n > 1
    ensures LogUp(n) == LogUp((n + 1) / 2) + 1
    ensures LogUp(n / 2) <= LogUp((n + 1) / 2) && LogUp(n - n / 2) <= LogUp((n + 1) / 2)
  {
    LogMonotone(n / 2, (n + 1) / 2);
    LogMonotone(n - n / 2, (n + 1) / 2);
  }

  /** And it needs at most 1 + 2 d log n guard runs for d failing rows of n. */
  lemma {:induction false} CallBound(g: seq<Row> -> bool, pass: Row -> bool, rows: seq<Row>)
    requires RowWise(g, pass)
    ensures Within(Calls(g, rows), Failing(pass, rows), LogUp(|rows|))
    decreases |rows|
  {
    if rows == [] || g(rows) || |rows| == 1 {
      OneCall(g, pass, rows);
    } else {
      hide *;
      CallBound(g, pass, rows[..|rows| / 2]);
      CallBound(g, pass, rows[|rows| / 2..]);
      HalvesBound(g, pass, rows, rows[..|rows| / 2], rows[|rows| / 2..]);
    }
  }

  lemma HalvesBound(g: seq<Row> -> bool, pass: Row -> bool, rows: seq<Row>, left: seq<Row>, right: seq<Row>)
    requires RowWise(g, pass) && !g(rows) && |rows| > 1 && left == rows[..|rows| / 2] && right == rows[|rows| / 2..]
    requires Within(Calls(g, left), Failing(pass, left), LogUp(|left|))
    requires Within(Calls(g, right), Failing(pass, right), LogUp(|right|))
    ensures Within(Calls(g, rows), Failing(pass, rows), LogUp(|rows|))
  {
    hide *;
    SomeFails(g, pass, rows);
    Halves(g, pass, rows);
    DepthHalves(|rows|);
    Combine(Failing(pass, left), Failing(pass, right), LogUp(|left|), LogUp(|right|), LogUp((|rows| + 1) / 2),
            Calls(g, left), Calls(g, right));
  }

  lemma OneCall(g: seq<Row> -> bool, pass: Row -> bool, rows: seq<Row>)
    requires rows == [] || g(rows) || |rows| == 1
    ensures Within(Calls(g, rows), Failing(pass, rows), LogUp(|rows|))
  {
    var failing, depth := Failing(pass, rows), LogUp(|rows|);
    assert failing * depth >= 0;
  }

  // ----- the run -----

  function Ids(rows: seq<Row>): set<string> { set r | r in rows :: r.id }

  function Chosen(secret: seq<Row>, ids: set<string>): seq<Row> {
    if secret == [] then []
    else (if secret[0].id in ids then [secret[0]] else []) + Chosen(secret[1..], ids)
  }

  lemma {:induction false} ChosenOneMore(secret: seq<Row>, row: Row, ids: set<string>)
    ensures Chosen(secret + [row], ids) == Chosen(secret, ids) + if row.id in ids then [row] else []
  {
    if secret == [] {
      assert [row][1..] == [];
    } else {
      var rest, first := secret[1..], if secret[0].id in ids then [secret[0]] else [];
      ChosenOneMore(rest, row, ids);
      var all := secret + [row];
      assert all[0] == secret[0] && all[1..] == rest + [row];
      var more := if row.id in ids then [row] else [];
      assert first + (Chosen(rest, ids) + more) == (first + Chosen(rest, ids)) + more;
    }
  }

  /** Staged beside a subset are exactly the private rows whose id a row of it has, in their order. */
  lemma {:induction false} ChosenPicks(secret: seq<Row>, subset: seq<Row>)
    ensures Picked((s: Row) => exists r :: r in subset && r.id == s.id, secret, Chosen(secret, Ids(subset)))
    decreases |secret|
  {
    var p := (s: Row) => exists r :: r in subset && r.id == s.id;
    if secret != [] {
      var front, last := secret[..|secret| - 1], secret[|secret| - 1];
      ChosenPicks(front, subset);
      assert secret == front + [last];
      ChosenOneMore(front, last, Ids(subset));
      PickOneMore(p, front, Chosen(front, Ids(subset)), last);
    }
  }

  /** The guard sees the staged files; it may answer differently each time it runs. */
  type Guard = (nat, seq<Row>, seq<Row>) -> Verdict

  /** A guard that runs, and answers the same each time it sees these rows staged. */
  ghost predicate Stable(guard: Guard, secret: seq<Row>, g: seq<Row> -> bool) {
    forall i, rows :: guard(i, rows, Chosen(secret, Ids(rows))) == Exit(if g(rows) then 0 else 1)
  }

  class Run {
    const guard: Guard
    const rows: seq<Row>
    const secret: seq<Row>
    // the reservation directory
    var public: Option<seq<Row>>
    var private: Option<seq<Row>>
    var receipt: Option<Receipt>
    var frozen: bool
    var calls: nat
    ghost var last: Option<Verdict>

    constructor (guard: Guard, rows: seq<Row>, secret: seq<Row>, public: Option<seq<Row>>, private: Option<seq<Row>>,
                 receipt: Option<Receipt>, frozen: bool)
      ensures this.guard == guard && this.rows == rows && this.secret == secret && this.frozen == frozen
      ensures this.public == public && this.private == private && this.receipt == receipt && calls == 0
    {
      this.guard, this.rows, this.secret, this.frozen := guard, rows, secret, frozen;
      this.public, this.private, this.receipt, calls, last := public, private, receipt, 0, None;
    }

    ghost predicate Staged(subset: seq<Row>)
      reads this
    {
      public == Some(subset) && private == Some(Chosen(secret, Ids(subset)))
    }

    /** Stage a subset and run the guard on it. */
    method Check(subset: seq<Row>) returns (ok: bool, passed: bool)
      modifies this`public, this`private, this`calls, this`last
      ensures Staged(subset) && calls == old(calls) + 1
      ensures last == Some(guard(old(calls), subset, Chosen(secret, Ids(subset))))
      ensures ok <==> last == Some(Exit(0)) || last == Some(Exit(1))
      ensures ok ==> (passed <==> last == Some(Exit(0)))
    {
      private := Some(Chosen(secret, Ids(subset)));
      public := Some(subset);
      var verdict := guard(calls, subset, Chosen(secret, Ids(subset)));
      calls := calls + 1;
      last := Some(verdict);
      ok := verdict.Exit? && (verdict.code == 0 || verdict.code == 1);
      passed := ok && verdict.code == 0;
    }

    method Retain(subset: seq<Row>) returns (ok: bool, kept: seq<Row>)
      modifies this`public, this`private, this`calls, this`last
      ensures ok ==> Sub(kept, subset)
      ensures forall g | Stable(guard, secret, g) ::
                ok && kept == Retained(g, subset) && calls == old(calls) + Calls(g, subset)
      decreases |subset|
    {
      if subset == [] {
        return true, subset;
      }
      var passed;
      ok, passed := Check(subset);
      if !ok {
        return false, [];
      }
      if passed {
        SubAll(subset);
        return true, subset;
      }
      if |subset| == 1 {
        return true, [];
      }
      var middle := |subset| / 2;
      var left, right;
      ok, left := Retain(subset[..middle]);
      if !ok {
        return false, [];
      }
      ok, right := Retain(subset[middle..]);
      if !ok {
        return false, [];
      }
      SubConcat(left, subset[..middle], right, subset[middle..]);
      assert subset[..middle] + subset[middle..] == subset;
      return true, left + right;
    }

    /** A successful run leaves a staged, order-preserving subset that the guard accepted last, and a
        receipt that binds it; a failed one leaves nothing; existing files are not touched. */
    method Bisect() returns (o: Outcome)
      modifies this
      ensures o.StagingExists? <==> rows != [] && old(public.Some? || private.Some? || receipt.Some? || frozen)
      ensures o.StagingExists? || rows == [] ==>
                public == old(public) && private == old(private) && receipt == old(receipt)
      ensures o.InstrumentFailure? && rows != [] ==> public == None && private == None && receipt == None
      ensures o.Kept? ==> Sub(o.rows, rows) && Staged(o.rows) && last == Some(Exit(0)) && |o.rows| <= |rows|
      ensures o.Kept? ==> receipt == Some(Receipt(|rows| - |o.rows|, |rows|, o.rows, Chosen(secret, Ids(o.rows))))
      ensures forall g | Stable(guard, secret, g) && rows != [] && !o.StagingExists? ::
                && (o.Kept? <==> g([]) && g(Retained(g, rows)))
                && (o.Kept? ==> o.rows == Retained(g, rows) && calls == old(calls) + Calls(g, rows) + 2)
    {
      if rows == [] {
        return InstrumentFailure;
      }
      if public.Some? || private.Some? || receipt.Some? || frozen {
        return StagingExists;
      }
      var ok, passed := Check([]);
      if ok && passed {
        var kept;
        ok, kept := Retain(rows);
        if ok {
          SubShorter(kept, rows);
          ok, passed := Check(kept);
          if ok && passed {
            receipt := Some(Receipt(|rows| - |kept|, |rows|, kept, Chosen(secret, Ids(kept))));
            return Kept(kept);
          }
        }
      }
      public, private, receipt := None, None, None;
      return InstrumentFailure;
    }
  }

  lemma {:induction false} SubShorter(kept: seq<Row>, rows: seq<Row>)
    requires Sub(kept, rows)
    ensures |kept| <= |rows|
  {
    if kept != [] {
      if kept[0] == rows[0] && Sub(kept[1..], rows[1..]) {
        SubShorter(kept[1..], rows[1..]);
      } else {
        SubShorter(kept, rows[1..]);
      }
    }
  }

  /** For a row-wise guard the run succeeds, keeps exactly the passing rows, and stays within its
      budget of guard runs, the two controls included. */
  lemma RowWiseRun(g: seq<Row> -> bool, pass: Row -> bool, rows: seq<Row>)
    requires RowWise(g, pass)
    ensures g([]) && g(Retained(g, rows)) && Retained(g, rows) == Filter(pass, rows)
    ensures Calls(g, rows) + 2 <= 3 + 2 * Failing(pass, rows) * LogUp(|rows|)
  {
    RetainsPassing(g, pass, rows);
    AllPass(pass, rows);
    CallBound(g, pass, rows);
  }
}
