/** The greedy choice of pilot rows: one per repository, balanced over languages, in seeded hash order. */
module Select {
  import opened Optional

  datatype Row = Row(repo: string, language: string, family: string, manifest: bool, tests: bool, rest: string)

  /** The seeded digest order of rows, and the repository a row belongs to. */
  datatype Rules = Rules(hash: Row -> int, normalize: string -> string) {
    ghost predicate Injective(rows: seq<Row>) {
      forall a, b | a in rows && b in rows && hash(a) == hash(b) :: a == b
    }
  }

  // ----- the seeded order -----

  function Insert(rules: Rules, rows: seq<Row>, row: Row): (r: seq<Row>)
    ensures multiset(r) == multiset(rows) + multiset{row}
  {
    if rows == [] then [row]
    else if rules.hash(row) < rules.hash(rows[0]) then [row] + rows
    else
      assert rows == [rows[0]] + rows[1..];
      [rows[0]] + Insert(rules, rows[1..], row)
  }

  function Sort(rules: Rules, rows: seq<Row>): (r: seq<Row>)
    ensures multiset(r) == multiset(rows)
  {
    if rows == [] then []
    else
      assert rows == rows[..|rows| - 1] + [rows[|rows| - 1]];
      Insert(rules, Sort(rules, rows[..|rows| - 1]), rows[|rows| - 1])
  }

  ghost predicate Ordered(rules: Rules, rows: seq<Row>) {
    forall i, j | 0 <= i < j < |rows| :: rules.hash(rows[i]) <= rules.hash(rows[j])
  }

  lemma {:induction false} InsertOrders(rules: Rules, rows: seq<Row>, row: Row)
    requires Ordered(rules, rows)
    ensures Ordered(rules, Insert(rules, rows, row))
  {
    if rows != [] && rules.hash(row) >= rules.hash(rows[0]) {
      InsertOrders(rules, rows[1..], row);
      var tail := Insert(rules, rows[1..], row);
      forall j | 0 <= j < |tail| ensures rules.hash(rows[0]) <= rules.hash(tail[j]) {
        assert tail[j] in multiset(tail);
        assert tail[j] == row || tail[j] in rows[1..];
      }
    }
  }

  lemma {:induction false} SortOrders(rules: Rules, rows: seq<Row>)
    ensures Ordered(rules, Sort(rules, rows))
  {
    if rows != [] {
      SortOrders(rules, rows[..|rows| - 1]);
      InsertOrders(rules, Sort(rules, rows[..|rows| - 1]), rows[|rows| - 1]);
    }
  }

  /** There is one way to order rows whose digests differ. */
  lemma {:induction false} OrderIsUnique(rules: Rules, a: seq<Row>, b: seq<Row>)
    requires Ordered(rules, a) && Ordered(rules, b) && multiset(a) == multiset(b) && rules.Injective(a)
    ensures a == b
  {
    hide Ordered, rules.Injective;
    HeadsAgree(rules, a, b);
    if a != [] {
      SameTails(a, b);
      TailIsOrdered(rules, a);
      TailIsOrdered(rules, b);
      TailIsInjective(rules, a);
      OrderIsUnique(rules, a[1..], b[1..]);
      HeadAndTail(a, b);
    }
  }

  lemma HeadAndTail(a: seq<Row>, b: seq<Row>)
    requires a != [] && b != [] && a[0] == b[0] && a[1..] == b[1..]
    ensures a == b
  {
    assert a == [a[0]] + a[1..] && b == [b[0]] + b[1..];
  }

  lemma TailIsInjective(rules: Rules, rows: seq<Row>)
    requires rules.Injective(rows) && rows != []
    ensures rules.Injective(rows[1..])
  {
  }

  lemma TailIsOrdered(rules: Rules, rows: seq<Row>)
    requires Ordered(rules, rows) && rows != []
    ensures Ordered(rules, rows[1..])
  {
  }

  lemma HeadsAgree(rules: Rules, a: seq<Row>, b: seq<Row>)
    requires Ordered(rules, a) && Ordered(rules, b) && multiset(a) == multiset(b) && rules.Injective(a)
    ensures if a == [] then b == [] else b != [] && a[0] == b[0]
  {
    SameRows(a, b);
    if a != [] {
      assert b[0] in a && a[0] in b;
      LeastIsFirst(rules, a, b[0]);
      LeastIsFirst(rules, b, a[0]);
    }
  }

  lemma SameRows(a: seq<Row>, b: seq<Row>)
    requires multiset(a) == multiset(b)
    ensures |a| == |b| && forall r :: r in a <==> r in b
  {
    assert |a| == |multiset(a)| && |b| == |multiset(b)|;
    forall r ensures r in a <==> r in b {
      assert r in multiset(a) <==> r in multiset(b);
    }
  }

  lemma LeastIsFirst(rules: Rules, rows: seq<Row>, row: Row)
    requires Ordered(rules, rows) && row in rows
    ensures rules.hash(rows[0]) <= rules.hash(row)
  {
    var k :| 0 <= k < |rows| && rows[k] == row;
    assert k > 0 ==> rules.hash(rows[0]) <= rules.hash(rows[k]);
  }

  lemma SameTails(a: seq<Row>, b: seq<Row>)
    requires a != [] && b != [] && a[0] == b[0] && multiset(a) == multiset(b)
    ensures multiset(a[1..]) == multiset(b[1..])
  {
    assert a == [a[0]] + a[1..] && b == [b[0]] + b[1..];
    assert multiset(a[1..]) == multiset(a) - multiset{a[0]};
    assert multiset(b[1..]) == multiset(b) - multiset{b[0]};
  }

  // ----- the greedy choice -----

  /** What min compares: a language with three rows, its rows, the family's rows, and missing evidence. */
  datatype Key = Key(capped: nat, language: nat, family: nat, plain: nat, bare: nat, untested: nat)

  /** Lexicographic order. */
  predicate Before(a: Key, b: Key) {
    if a.capped != b.capped then a.capped < b.capped
    else if a.language != b.language then a.language < b.language
    else if a.family != b.family then a.family < b.family
    else if a.plain != b.plain then a.plain < b.plain
    else if a.bare != b.bare then a.bare < b.bare
    else a.untested < b.untested
  }

  function OfLanguage(rows: seq<Row>, language: string): nat {
    if rows == [] then 0
    else OfLanguage(rows[..|rows| - 1], language) + if rows[|rows| - 1].language == language then 1 else 0
  }

  function OfFamily(rows: seq<Row>, family: string): nat {
    if rows == [] then 0
    else OfFamily(rows[..|rows| - 1], family) + if rows[|rows| - 1].family == family then 1 else 0
  }

  function Flag(b: bool): nat { if b then 1 else 0 }

  function KeyOf(languages: nat, families: nat, row: Row): Key {
    Key(Flag(languages >= 3), languages, families,
        Flag(!(row.tests && row.manifest)), Flag(!row.manifest), Flag(!row.tests))
  }

  function KeyAfter(selected: seq<Row>, row: Row): Key {
    KeyOf(OfLanguage(selected, row.language), OfFamily(selected, row.family), row)
  }

  /** The row at i comes before every earlier row and no later one comes before it: min's choice. */
  ghost predicate FirstLeast(keys: seq<Key>, i: nat) {
    && i < |keys|
    && (forall j | 0 <= j < i :: Before(keys[i], keys[j]))
    && (forall j | i < j < |keys| :: !Before(keys[j], keys[i]))
  }

  function KeysAfter(remaining: seq<Row>, selected: seq<Row>): seq<Key> {
    seq(|remaining|, i requires 0 <= i < |remaining| => KeyAfter(selected, remaining[i]))
  }

  /** The first row with the least key. */
  function Best(remaining: seq<Row>, selected: seq<Row>): (row: Row)
    requires remaining != []
    ensures row in remaining
    ensures forall r | r in remaining :: !Before(KeyAfter(selected, r), KeyAfter(selected, row))
  {
    if |remaining| == 1 then remaining[0]
    else
      var front, last := remaining[..|remaining| - 1], remaining[|remaining| - 1];
      var best := Best(front, selected);
      assert remaining == front + [last];
      if Before(KeyAfter(selected, last), KeyAfter(selected, best)) then last else best
  }

  /** And it is the first of those: every earlier row has a larger key. */
  lemma {:induction false} BestIsFirst(remaining: seq<Row>, selected: seq<Row>) returns (i: nat)
    requires remaining != []
    ensures i < |remaining| && remaining[i] == Best(remaining, selected)
    ensures FirstLeast(KeysAfter(remaining, selected), i)
  {
    hide KeyAfter;
    if |remaining| == 1 {
      i := 0;
    } else {
      var front, last := remaining[..|remaining| - 1], remaining[|remaining| - 1];
      i := BestIsFirst(front, selected);
      var keys, all := KeysAfter(front, selected), KeysAfter(remaining, selected);
      assert forall j | 0 <= j < |front| :: all[j] == keys[j];
      if Before(all[|front|], all[i]) {
        NewLeast(keys, i, all[|front|]);
        i := |front|;
      }
    }
  }

  /** What comes before the first least key comes before all of them. */
  lemma NewLeast(keys: seq<Key>, i: nat, key: Key)
    requires FirstLeast(keys, i) && Before(key, keys[i])
    ensures forall j | 0 <= j < |keys| :: Before(key, keys[j])
  {
    forall j | 0 <= j < |keys| ensures Before(key, keys[j]) {
      if j < i { assert Before(keys[i], keys[j]); }
      if j > i { assert !Before(keys[j], keys[i]); }
    }
  }

  function Without(rules: Rules, rows: seq<Row>, used: set<string>): (r: seq<Row>)
    ensures forall row :: row in r <==> row in rows && rules.normalize(row.repo) !in used
    ensures |r| <= |rows|
  {
    if rows == [] then []
    else
      var front, last := rows[..|rows| - 1], rows[|rows| - 1];
      assert rows == front + [last];
      Without(rules, front, used) + if rules.normalize(last.repo) in used then [] else [last]
  }

  function Repos(rules: Rules, rows: seq<Row>): set<string> {
    set row | row in rows :: rules.normalize(row.repo)
  }

  function Greedy(rules: Rules, remaining: seq<Row>, selected: seq<Row>, count: nat): seq<Row>
    decreases count - |selected|
  {
    if remaining == [] || |selected| >= count then selected
    else
      var row := Best(remaining, selected);
      Greedy(rules, Without(rules, remaining, Repos(rules, selected + [row])), selected + [row], count)
  }

  /** What has been chosen so far out of these rows, and what is left to choose from. */
  ghost predicate Midway(rules: Rules, rows: seq<Row>, remaining: seq<Row>, selected: seq<Row>) {
    && (forall row | row in selected :: row in rows)
    && (forall row :: row in remaining <==> row in rows && rules.normalize(row.repo) !in Repos(rules, selected))
    && (forall i, j | 0 <= i < j < |selected| :: rules.normalize(selected[i].repo) != rules.normalize(selected[j].repo))
  }

  /** No language is more than one row ahead of a language that still has rows. */
  ghost predicate Balanced(remaining: seq<Row>, selected: seq<Row>) {
    forall row, language | row in remaining :: OfLanguage(selected, language) <= OfLanguage(selected, row.language) + 1
  }

  lemma OneMore(selected: seq<Row>, row: Row, language: string)
    ensures OfLanguage(selected + [row], language) ==
            OfLanguage(selected, language) + if row.language == language then 1 else 0
  {
    assert (selected + [row])[..|selected|] == selected;
  }

  /** A best row has a least language count. */
  lemma BestIsRarest(remaining: seq<Row>, selected: seq<Row>, row: Row)
    requires row in remaining
    ensures OfLanguage(selected, Best(remaining, selected).language) <= OfLanguage(selected, row.language)
  {
    assert !Before(KeyAfter(selected, row), KeyAfter(selected, Best(remaining, selected)));
  }

  /** Among rows of equally rare languages a best row has a least family count, and among those it has
      tests and a manifest if any does, else a manifest if any does. */
  lemma BestPrefers(remaining: seq<Row>, selected: seq<Row>, row: Row)
    requires row in remaining
    requires OfLanguage(selected, row.language) == OfLanguage(selected, Best(remaining, selected).language)
    ensures var best := Best(remaining, selected);
            && OfFamily(selected, best.family) <= OfFamily(selected, row.family)
            && (OfFamily(selected, best.family) == OfFamily(selected, row.family) ==>
                  && (row.tests && row.manifest ==> best.tests && best.manifest)
                  && (row.manifest ==> best.manifest))
  {
    assert !Before(KeyAfter(selected, row), KeyAfter(selected, Best(remaining, selected)));
  }

  lemma ChoiceKeepsBalance(rules: Rules, remaining: seq<Row>, selected: seq<Row>)
    requires remaining != [] && Balanced(remaining, selected)
    ensures var row := Best(remaining, selected);
            Balanced(Without(rules, remaining, Repos(rules, selected + [row])), selected + [row])
  {
    hide OfLanguage, Best;
    var best := Best(remaining, selected);
    var rest := Without(rules, remaining, Repos(rules, selected + [best]));
    forall row, language | row in rest
      ensures OfLanguage(selected + [best], language) <= OfLanguage(selected + [best], row.language) + 1
    {
      OneMore(selected, best, language);
      OneMore(selected, best, row.language);
      BestIsRarest(remaining, selected, row);
      assert OfLanguage(selected, language) <= OfLanguage(selected, row.language) + 1;
    }
  }

  lemma ChoiceKeepsMidway(rules: Rules, rows: seq<Row>, remaining: seq<Row>, selected: seq<Row>)
    requires remaining != [] && Midway(rules, rows, remaining, selected)
    ensures var row := Best(remaining, selected);
            Midway(rules, rows, Without(rules, remaining, Repos(rules, selected + [row])), selected + [row])
  {
    hide Best;
    var best := Best(remaining, selected);
    assert Repos(rules, selected + [best]) == Repos(rules, selected) + {rules.normalize(best.repo)};
    forall i | 0 <= i < |selected| ensures rules.normalize(selected[i].repo) != rules.normalize(best.repo) {
      assert selected[i] in selected;
      assert rules.normalize(selected[i].repo) in Repos(rules, selected);
    }
  }

  lemma {:induction false} OnePerRepo(rules: Rules, selected: seq<Row>)
    requires forall i, j | 0 <= i < j < |selected| ::
            rules.normalize(selected[i].repo) != rules.normalize(selected[j].repo)
    ensures |Repos(rules, selected)| == |selected|
  {
    if selected != [] {
      var front, last := selected[..|selected| - 1], selected[|selected| - 1];
      OnePerRepo(rules, front);
      assert selected == front + [last];
      assert Repos(rules, selected) == Repos(rules, front) + {rules.normalize(last.repo)};
    }
  }

  /** What the choice ends with: every repository or the whole count, one row each, no language left behind. */
  ghost predicate Chosen(rules: Rules, rows: seq<Row>, selected: seq<Row>, count: nat) {
    && (forall row | row in selected :: row in rows)
    && (forall i, j | 0 <= i < j < |selected| :: rules.normalize(selected[i].repo) != rules.normalize(selected[j].repo))
    && |selected| == (if count <= |Repos(rules, rows)| then count else |Repos(rules, rows)|)
    && forall row, language | row in rows && rules.normalize(row.repo) !in Repos(rules, selected) ::
         OfLanguage(selected, language) <= OfLanguage(selected, row.language) + 1
  }

  lemma {:induction false} GreedyChooses(rules: Rules, rows: seq<Row>, remaining: seq<Row>, selected: seq<Row>,
      count: nat)
    requires Midway(rules, rows, remaining, selected) && Balanced(remaining, selected) && |selected| <= count
    ensures Chosen(rules, rows, Greedy(rules, remaining, selected, count), count)
    decreases count - |selected|
  {
    if remaining == [] || |selected| >= count {
      OnePerRepo(rules, selected);
      DoneIsChosen(rules, rows, remaining, selected, count);
    } else {
      var row := Best(remaining, selected);
      ChoiceKeepsMidway(rules, rows, remaining, selected);
      ChoiceKeepsBalance(rules, remaining, selected);
      hide Midway, Balanced, Chosen, Best;
      GreedyChooses(rules, rows, Without(rules, remaining, Repos(rules, selected + [row])), selected + [row], count);
    }
  }

  lemma DoneIsChosen(rules: Rules, rows: seq<Row>, remaining: seq<Row>, selected: seq<Row>, count: nat)
    requires Midway(rules, rows, remaining, selected) && Balanced(remaining, selected) && |selected| <= count
    requires remaining == [] || |selected| == count
    requires |Repos(rules, selected)| == |selected|
    ensures Chosen(rules, rows, selected, count)
  {
    hide OfLanguage;
    var all, taken := Repos(rules, rows), Repos(rules, selected);
    assert taken <= all;
    assert all == taken + (all - taken);
    if remaining == [] {
      forall repo | repo in all ensures repo in taken {
        var row :| row in rows && rules.normalize(row.repo) == repo;
        assert row !in remaining;
      }
      assert all == taken;
    }
  }

  /** The choice over rows in any order is the same. */
  lemma OrderDoesNotMatter(rules: Rules, rows: seq<Row>, shuffled: seq<Row>, count: nat)
    requires multiset(rows) == multiset(shuffled) && rules.Injective(rows)
    ensures Greedy(rules, Sort(rules, rows), [], count) == Greedy(rules, Sort(rules, shuffled), [], count)
  {
    SortOrders(rules, rows);
    SortOrders(rules, shuffled);
    SameRows(rows, Sort(rules, rows));
    OrderIsUnique(rules, Sort(rules, rows), Sort(rules, shuffled));
  }

  /** The counters agree with the rows chosen. */
  ghost predicate Counted(selected: seq<Row>, languages: map<string, nat>, families: map<string, nat>) {
    && (forall l :: OfLanguage(selected, l) == if l in languages then languages[l] else 0)
    && (forall f :: OfFamily(selected, f) == if f in families then families[f] else 0)
  }

  function Count(counter: map<string, nat>, key: string): nat { if key in counter then counter[key] else 0 }

  /** min over the remaining rows, by the counters. */
  method LeastRow(remaining: seq<Row>, languages: map<string, nat>, families: map<string, nat>,
      ghost selected: seq<Row>)
    returns (row: Row)
    requires remaining != [] && Counted(selected, languages, families)
    ensures row == Best(remaining, selected)
    ensures exists i: nat | i < |remaining| :: remaining[i] == row && FirstLeast(KeysAfter(remaining, selected), i)
  {
    hide OfLanguage, OfFamily, Flag, Before, FirstLeast, KeysAfter;
    row := remaining[0];
    for n := 1 to |remaining|
      invariant row == Best(remaining[..n], selected)
    {
      var r := remaining[n];
      assert remaining[..n + 1][..n] == remaining[..n];
      var key := KeyOf(Count(languages, r.language), Count(families, r.family), r);
      var least := KeyOf(Count(languages, row.language), Count(families, row.family), row);
      if Before(key, least) {
        row := r;
      }
    }
    assert remaining[..|remaining|] == remaining;
    ghost var first := BestIsFirst(remaining, selected);
  }

  lemma NothingCounted()
    ensures Counted([], map[], map[])
  {
  }

  lemma CountOne(selected: seq<Row>, row: Row, languages: map<string, nat>, families: map<string, nat>)
    requires Counted(selected, languages, families)
    ensures Counted(selected + [row], languages[row.language := Count(languages, row.language) + 1],
                    families[row.family := Count(families, row.family) + 1])
  {
    assert (selected + [row])[..|selected|] == selected;
  }

  /** The loop with its counters; a count below one is refused. */
  method Choose(rules: Rules, rows: seq<Row>, count: int) returns (r: Option<seq<Row>>)
    ensures count < 1 <==> r.None?
    ensures r.Some? ==> r.value == Greedy(rules, Sort(rules, rows), [], count) && Chosen(rules, rows, r.value, count)
  {
    if count < 1 {
      return None;
    }
    hide Chosen, Best, OfLanguage, OfFamily, Counted, Count;
    var remaining := Sort(rules, rows);
    var selected: seq<Row>, used: set<string> := [], {};
    var languages: map<string, nat>, families: map<string, nat> := map[], map[];
    NothingCounted();
    while remaining != [] && |selected| < count
      invariant |selected| <= count && used == Repos(rules, selected) && Counted(selected, languages, families)
      invariant Greedy(rules, remaining, selected, count) == Greedy(rules, Sort(rules, rows), [], count)
      decreases count - |selected|
    {
      var row := LeastRow(remaining, languages, families, selected);
      CountOne(selected, row, languages, families);
      ReposOf(rules, selected, row);
      selected := selected + [row];
      used := used + {rules.normalize(row.repo)};
      languages := languages[row.language := Count(languages, row.language) + 1];
      families := families[row.family := Count(families, row.family) + 1];
      remaining := Without(rules, remaining, used);
    }
    SortedIsMidway(rules, rows);
    GreedyChooses(rules, rows, Sort(rules, rows), [], count);
    return Some(selected);
  }

  lemma ReposOf(rules: Rules, selected: seq<Row>, row: Row)
    ensures Repos(rules, selected + [row]) == Repos(rules, selected) + {rules.normalize(row.repo)}
  {
  }

  lemma SortedIsMidway(rules: Rules, rows: seq<Row>)
    ensures Midway(rules, rows, Sort(rules, rows), []) && Balanced(Sort(rules, rows), [])
  {
    SameRows(rows, Sort(rules, rows));
  }
}
