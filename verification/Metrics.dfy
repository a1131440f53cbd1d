/** The slice leak statistic: complete pairs, the pair score and the pooled AUC, with their symmetry laws. */
module Metrics {
  import opened Optional

  /** One unit; its tag is the label, 1 for vulnerable and 0 for fixed. */
  datatype Row = Row(family: string, pair: string, tag: int, group: string, fold: string, signal: real)

  datatype Result<+T> = Ok(value: T) | CrossesGroup | Ambiguous

  /** The vulnerable row and the fixed one. */
  datatype Pair = Pair(v: Row, f: Row)

  type Key = (string, string)

  // ----- complete pairs -----

  predicate Paired(row: Row) { row.pair != "" }

  function KeyOf(row: Row): Key { (row.family, row.pair) }

  /** The groups, in the order their first rows come. */
  function Keys(rows: seq<Row>): seq<Key> {
    if rows == [] then []
    else
      var keys, last := Keys(rows[..|rows| - 1]), rows[|rows| - 1];
      if Paired(last) && KeyOf(last) !in keys then keys + [KeyOf(last)] else keys
  }

  function Members(rows: seq<Row>, key: Key): seq<Row> {
    if rows == [] then []
    else
      var last := rows[|rows| - 1];
      Members(rows[..|rows| - 1], key) + if Paired(last) && KeyOf(last) == key then [last] else []
  }

  /** What a group contributes: one vulnerable and one fixed row make a pair, a single row nothing. */
  function PairOf(members: seq<Row>): Result<Option<Pair>> {
    if |members| == 2 && {members[0].tag, members[1].tag} == {0, 1} then
      var v := if members[0].tag == 1 then members[0] else members[1];
      var f := if members[0].tag == 1 then members[1] else members[0];
      if v.group != f.group || v.fold != f.fold then CrossesGroup else Ok(Some(Pair(v, f)))
    else if |members| == 1 then Ok(None)
    else Ambiguous
  }

  /** A pair comes from two rows with the two labels in one group and fold, nothing from one row; two rows with the two
      labels apart are refused, and so is anything else. */
  lemma PairOfIff(members: seq<Row>, v: Row, f: Row)
    ensures PairOf(members) == Ok(Some(Pair(v, f))) <==>
              members in {[v, f], [f, v]} && v.tag == 1 && f.tag == 0 && v.group == f.group && v.fold == f.fold
    ensures PairOf(members) == CrossesGroup <==>
              exists v, f :: members in {[v, f], [f, v]} && v.tag == 1 && f.tag == 0 &&
                             (v.group != f.group || v.fold != f.fold)
    ensures PairOf(members) == Ok(None) <==> |members| == 1
    ensures PairOf(members) == Ambiguous <==>
              |members| != 1 && forall v, f | members in {[v, f], [f, v]} :: {v.tag, f.tag} != {0, 1}
  {
    if |members| == 2 {
      var a, b := members[0], members[1];
      assert members == [a, b];
      assert members in {[a, b], [b, a]};
      if {a.tag, b.tag} == {0, 1} {
        TwoTags(a.tag, b.tag);
      }
    }
  }

  lemma TwoTags(a: int, b: int)
    requires {a, b} == {0, 1}
    ensures (a == 0 && b == 1) || (a == 1 && b == 0)
  {
    assert a in {0, 1} && b in {0, 1} && 0 in {a, b} && 1 in {a, b};
  }

  function PairsOf(rows: seq<Row>, keys: seq<Key>): Result<seq<Pair>> {
    if keys == [] then Ok([])
    else
      match PairsOf(rows, keys[..|keys| - 1])
      case CrossesGroup => CrossesGroup
      case Ambiguous => Ambiguous
      case Ok(pairs) =>
        match PairOf(Members(rows, keys[|keys| - 1]))
        case CrossesGroup => CrossesGroup
        case Ambiguous => Ambiguous
        case Ok(None) => Ok(pairs)
        case Ok(Some(pair)) => Ok(pairs + [pair])
  }

  function Pairs(rows: seq<Row>): Result<seq<Pair>> { PairsOf(rows, Keys(rows)) }

  lemma {:induction false} MembersOfNoKey(rows: seq<Row>, key: Key)
    requires key !in Keys(rows)
    ensures Members(rows, key) == []
  {
    if rows != [] {
      MembersOfNoKey(rows[..|rows| - 1], key);
    }
  }

  /** The group table, filled row by row, and the list of pairs read off it. */
  method CompletePairs(rows: seq<Row>) returns (r: Result<seq<Pair>>)
    ensures r == Pairs(rows)
  {
    var keys, groups := Groups(rows);
    r := PairUp(rows, keys, groups);
  }

  method Groups(rows: seq<Row>) returns (keys: seq<Key>, groups: map<Key, seq<Row>>)
    ensures keys == Keys(rows) && forall key | key in keys :: key in groups && groups[key] == Members(rows, key)
  {
    keys, groups := [], map[];
    for n := 0 to |rows|
      invariant keys == Keys(rows[..n]) && (forall key :: key in groups <==> key in keys)
      invariant forall key | key in groups :: groups[key] == Members(rows[..n], key)
    {
      var row := rows[n];
      assert rows[..n + 1][..n] == rows[..n];
      if Paired(row) {
        var key := KeyOf(row);
        if key !in groups {
          MembersOfNoKey(rows[..n], key);
          keys, groups := keys + [key], groups[key := []];
        }
        groups := groups[key := groups[key] + [row]];
      }
    }
    assert rows[..|rows|] == rows;
  }

  method PairUp(rows: seq<Row>, keys: seq<Key>, groups: map<Key, seq<Row>>) returns (r: Result<seq<Pair>>)
    requires forall key | key in keys :: key in groups && groups[key] == Members(rows, key)
    ensures r == PairsOf(rows, keys)
  {
    hide PairOf, Members;
    var pairs: seq<Pair> := [];
    for n := 0 to |keys|
      invariant PairsOf(rows, keys[..n]) == Ok(pairs)
    {
      assert keys[..n + 1][..n] == keys[..n] && keys[n] in keys;
      var pair := PairOf(groups[keys[n]]);
      if !pair.Ok? {
        StopsAt(rows, keys, n);
        return if pair.CrossesGroup? then CrossesGroup else Ambiguous;
      }
      if pair.value.Some? {
        pairs := pairs + [pair.value.value];
      }
    }
    assert keys[..|keys|] == keys;
    return Ok(pairs);
  }

  lemma {:induction false} StopsAt(rows: seq<Row>, keys: seq<Key>, n: nat)
    requires n < |keys| && PairsOf(rows, keys[..n]).Ok? && !PairOf(Members(rows, keys[n])).Ok?
    ensures PairsOf(rows, keys) == (if PairOf(Members(rows, keys[n])).CrossesGroup? then CrossesGroup else Ambiguous)
    decreases |keys|
  {
    if n == |keys| - 1 {
    } else {
      var front := keys[..|keys| - 1];
      assert front[..n] == keys[..n];
      StopsAt(rows, front, n);
    }
  }

  predicate Sound(rows: seq<Row>, key: Key, pair: Pair) {
    && Members(rows, key) in {[pair.v, pair.f], [pair.f, pair.v]}
    && pair.v.tag == 1 && pair.f.tag == 0 && pair.v.group == pair.f.group && pair.v.fold == pair.f.fold
  }

  /** The pairs are those of the groups of two, one for each, vulnerable row first. */
  ghost predicate PairsUp(rows: seq<Row>, keys: seq<Key>, pairs: seq<Pair>) {
    && (forall pair | pair in pairs :: exists key :: key in keys && Sound(rows, key, pair))
    && (forall key | key in keys :: |Members(rows, key)| == 1 || exists pair :: pair in pairs && Sound(rows, key, pair))
  }

  lemma PairIsSound(rows: seq<Row>, key: Key)
    requires PairOf(Members(rows, key)).Ok?
    ensures match PairOf(Members(rows, key)).value
            case None => |Members(rows, key)| == 1
            case Some(pair) => Sound(rows, key, pair)
  {
    var members := Members(rows, key);
    if |members| == 2 {
      assert members == [members[0], members[1]];
      assert members[0].tag in {0, 1} && members[1].tag in {0, 1};
    }
  }

  /** Accepted rows fall into single rows and complete pairs. */
  lemma {:induction false} PairsAreComplete(rows: seq<Row>, keys: seq<Key>)
    requires PairsOf(rows, keys).Ok?
    ensures PairsUp(rows, keys, PairsOf(rows, keys).value)
    decreases |keys|
  {
    if keys != [] {
      var front, last := keys[..|keys| - 1], keys[|keys| - 1];
      PairsAreComplete(rows, front);
      PairIsSound(rows, last);
      hide PairOf, Members, Sound, PairsUp;
      assert keys == front + [last];
      var pairs := PairsOf(rows, front).value;
      var one := PairOf(Members(rows, last)).value;
      if one.Some? {
        UpWithPair(rows, front, pairs, last, one.value);
      } else {
        UpWithSingle(rows, front, pairs, last);
      }
    }
  }

  lemma UpWithPair(rows: seq<Row>, keys: seq<Key>, pairs: seq<Pair>, key: Key, pair: Pair)
    requires PairsUp(rows, keys, pairs) && Sound(rows, key, pair)
    ensures PairsUp(rows, keys + [key], pairs + [pair])
  {
    hide Members, Sound;
    assert key in keys + [key] && pair in pairs + [pair];
    forall k | k in keys ensures k in keys + [key] { }
    forall p | p in pairs ensures p in pairs + [pair] { }
  }

  lemma UpWithSingle(rows: seq<Row>, keys: seq<Key>, pairs: seq<Pair>, key: Key)
    requires PairsUp(rows, keys, pairs) && |Members(rows, key)| == 1
    ensures PairsUp(rows, keys + [key], pairs)
  {
    hide Members, Sound;
    forall k | k in keys ensures k in keys + [key] { }
  }

  // ----- the statistics -----

  function Win(a: real, b: real): real { if a > b then 1.0 else if a == b then 0.5 else 0.0 }

  function Higher(pairs: seq<Pair>): nat {
    if pairs == [] then 0
    else Higher(pairs[..|pairs| - 1]) + if pairs[|pairs| - 1].v.signal > pairs[|pairs| - 1].f.signal then 1 else 0
  }

  function Lower(pairs: seq<Pair>): nat {
    if pairs == [] then 0
    else Lower(pairs[..|pairs| - 1]) + if pairs[|pairs| - 1].v.signal < pairs[|pairs| - 1].f.signal then 1 else 0
  }

  function Ties(pairs: seq<Pair>): int { |pairs| - Higher(pairs) - Lower(pairs) }

  function PairScore(pairs: seq<Pair>): Option<real> {
    if pairs == [] then None
    else Some((Higher(pairs) as real + 0.5 * Ties(pairs) as real) / |pairs| as real)
  }

  function Signals(rows: seq<Row>, tag: int): seq<real> {
    if rows == [] then []
    else Signals(rows[..|rows| - 1], tag) + if rows[|rows| - 1].tag == tag then [rows[|rows| - 1].signal] else []
  }

  /** The credit of one signal against all of these. */
  function Credit(a: real, others: seq<real>): real {
    if others == [] then 0.0 else Credit(a, others[..|others| - 1]) + Win(a, others[|others| - 1])
  }

  function Total(ours: seq<real>, others: seq<real>): real {
    if ours == [] then 0.0 else Total(ours[..|ours| - 1], others) + Credit(ours[|ours| - 1], others)
  }

  function Auc(positive: seq<real>, negative: seq<real>): Option<real> {
    if positive == [] || negative == [] then None
    else Some(Total(positive, negative) / (|positive| * |negative|) as real)
  }

  function Best(score: Option<real>): Option<real> {
    match score
    case None => None
    case Some(x) => Some(if x >= 1.0 - x then x else 1.0 - x)
  }

  const THRESHOLD := 0.70

  datatype Report = Report(rows: nat, pairs: nat, positive: nat, negative: nat, higher: nat, lower: nat, ties: int,
                           pairScore: Option<real>, auc: Option<real>, bestPair: Option<real>, bestAuc: Option<real>,
                           flagged: bool)

  predicate Flags(score: Option<real>) { score.Some? && score.value >= THRESHOLD }

  function Metrics(rows: seq<Row>): Result<Report> {
    match Pairs(rows)
    case CrossesGroup => CrossesGroup
    case Ambiguous => Ambiguous
    case Ok(pairs) =>
      var positive, negative := Signals(rows, 1), Signals(rows, 0);
      var score, auc := PairScore(pairs), Auc(positive, negative);
      Ok(Report(|rows|, |pairs|, |positive|, |negative|, Higher(pairs), Lower(pairs), Ties(pairs), score, auc,
                Best(score), Best(auc), Flags(Best(score)) || Flags(Best(auc))))
  }

  // ----- bounds -----

  lemma {:induction false} TiesAreTheRest(pairs: seq<Pair>)
    ensures Ties(pairs) >= 0
    ensures Ties(pairs) == 0 <==> forall k | 0 <= k < |pairs| :: pairs[k].v.signal != pairs[k].f.signal
  {
    if pairs != [] {
      var front, last := pairs[..|pairs| - 1], pairs[|pairs| - 1];
      TiesAreTheRest(front);
      assert pairs == front + [last];
      assert Ties(pairs) == Ties(front) + if last.v.signal == last.f.signal then 1 else 0;
    }
  }

  /** Appending to the right-hand side adds what everyone wins against it. */
  lemma {:induction false} TotalAppend(ours: seq<real>, others: seq<real>, b: real)
    ensures Total(ours, others + [b]) + Credit(b, ours) == Total(ours, others) + |ours| as real
  {
    if ours != [] {
      TotalAppend(ours[..|ours| - 1], others, b);
      assert (others + [b])[..|others|] == others;
      assert Win(ours[|ours| - 1], b) + Win(b, ours[|ours| - 1]) == 1.0;
    }
  }

  /** Every comparison is worth one, shared between the two sides. */
  lemma {:induction false} TotalsShare(ours: seq<real>, others: seq<real>)
    ensures Total(ours, others) + Total(others, ours) == (|ours| * |others|) as real
    decreases |others|
  {
    if others == [] {
      NothingToWin(ours);
    } else {
      var front, b := others[..|others| - 1], others[|others| - 1];
      TotalsShare(ours, front);
      TotalAppend(ours, front, b);
      assert others == front + [b];
      assert |ours| * |others| == |ours| * |front| + |ours|;
    }
  }

  lemma {:induction false} NothingToWin(ours: seq<real>)
    ensures Total(ours, []) == 0.0
  {
    if ours != [] {
      NothingToWin(ours[..|ours| - 1]);
    }
  }

  lemma {:induction false} CreditIsPositive(a: real, others: seq<real>)
    ensures Credit(a, others) >= 0.0
  {
    if others != [] {
      CreditIsPositive(a, others[..|others| - 1]);
    }
  }

  lemma {:induction false} TotalIsPositive(ours: seq<real>, others: seq<real>)
    ensures Total(ours, others) >= 0.0
  {
    if ours != [] {
      TotalIsPositive(ours[..|ours| - 1], others);
      CreditIsPositive(ours[|ours| - 1], others);
    }
  }

  lemma Share(a: real, b: real, d: real)
    requires d > 0.0 && a >= 0.0 && b >= 0.0 && a + b == d
    ensures b / d == 1.0 - a / d && 0.0 <= a / d <= 1.0
  {
    assert a / d + b / d == (a + b) / d;
  }

  predicate Unit(score: Option<real>) { score.Some? ==> 0.0 <= score.value <= 1.0 }

  lemma PairScoreInUnit(pairs: seq<Pair>)
    ensures Unit(PairScore(pairs))
  {
    TiesAreTheRest(pairs);
    if pairs != [] {
      var a := Higher(pairs) as real + 0.5 * Ties(pairs) as real;
      Share(a, |pairs| as real - a, |pairs| as real);
    }
  }

  lemma AucInUnit(positive: seq<real>, negative: seq<real>)
    ensures Unit(Auc(positive, negative))
  {
    if positive != [] && negative != [] {
      TotalsShare(positive, negative);
      TotalIsPositive(positive, negative);
      TotalIsPositive(negative, positive);
      assert |positive| * |negative| > 0;
      Share(Total(positive, negative), Total(negative, positive), (|positive| * |negative|) as real);
    }
  }

  /** Both scores lie in the unit interval and the pairs are won, lost or tied. */
  lemma ScoresInRange(rows: seq<Row>)
    requires Metrics(rows).Ok?
    ensures var m := Metrics(rows).value;
            && Unit(m.pairScore) && Unit(m.auc) && m.ties >= 0 && m.higher + m.lower + m.ties == m.pairs
            && (m.bestPair.Some? ==> 0.5 <= m.bestPair.value <= 1.0)
            && (m.bestAuc.Some? ==> 0.5 <= m.bestAuc.value <= 1.0)
  {
    var pairs := Pairs(rows).value;
    TiesAreTheRest(pairs);
    PairScoreInUnit(pairs);
    AucInUnit(Signals(rows, 1), Signals(rows, 0));
  }

  lemma {:induction false} FullCredit(a: real, others: seq<real>)
    ensures Credit(a, others) <= |others| as real
    ensures Credit(a, others) == |others| as real <==> forall b | b in others :: a > b
  {
    if others != [] {
      var front, last := others[..|others| - 1], others[|others| - 1];
      FullCredit(a, front);
      assert others == front + [last] && |others| as real == |front| as real + 1.0;
      assert last in others && forall b | b in front :: b in others;
    }
  }

  lemma {:induction false} FullTotal(ours: seq<real>, others: seq<real>)
    ensures Total(ours, others) <= (|ours| * |others|) as real
    ensures Total(ours, others) == (|ours| * |others|) as real <==> forall a, b | a in ours && b in others :: a > b
  {
    if ours != [] {
      var front, last := ours[..|ours| - 1], ours[|ours| - 1];
      FullTotal(front, others);
      FullCredit(last, others);
      assert ours == front + [last] && last in ours && forall a | a in front :: a in ours;
      assert |ours| * |others| == |front| * |others| + |others|;
      assert (|ours| * |others|) as real == (|front| * |others|) as real + |others| as real;
    }
  }

  /** The AUC is one exactly when every vulnerable signal is above every fixed one. */
  lemma AucIsOneIff(positive: seq<real>, negative: seq<real>)
    requires positive != [] && negative != []
    ensures Auc(positive, negative) == Some(1.0) <==> forall a, b | a in positive && b in negative :: a > b
  {
    FullTotal(positive, negative);
    assert |positive| * |negative| > 0;
    One(Total(positive, negative), (|positive| * |negative|) as real);
  }

  lemma One(a: real, d: real)
    requires d > 0.0
    ensures a / d == 1.0 <==> a == d
  {
    assert a / d * d == a;
  }

  lemma {:induction false} AllHigher(pairs: seq<Pair>)
    ensures Higher(pairs) == |pairs| <==> forall pair | pair in pairs :: pair.v.signal > pair.f.signal
    ensures Higher(pairs) <= |pairs|
  {
    if pairs != [] {
      AllHigher(pairs[..|pairs| - 1]);
      assert pairs == pairs[..|pairs| - 1] + [pairs[|pairs| - 1]];
    }
  }

  /** The pair score is one exactly when the vulnerable signal is the higher one in every pair. */
  lemma PairScoreIsOneIff(pairs: seq<Pair>)
    requires pairs != []
    ensures PairScore(pairs) == Some(1.0) <==> forall pair | pair in pairs :: pair.v.signal > pair.f.signal
  {
    AllHigher(pairs);
    TiesAreTheRest(pairs);
    One(Higher(pairs) as real + 0.5 * Ties(pairs) as real, |pairs| as real);
  }

  // ----- symmetry -----

  /** Relabelling every row the other way round, or rewriting its signal. */
  datatype Change = Swapped | Recoded(h: real -> real)

  function On(c: Change, row: Row): Row {
    match c
    case Swapped => row.(tag := if row.tag == 1 then 0 else if row.tag == 0 then 1 else row.tag)
    case Recoded(h) => row.(signal := h(row.signal))
  }

  function OnRows(c: Change, rows: seq<Row>): (r: seq<Row>)
    ensures |r| == |rows|
  {
    if rows == [] then [] else OnRows(c, rows[..|rows| - 1]) + [On(c, rows[|rows| - 1])]
  }

  function OnPair(c: Change, pair: Pair): Pair {
    match c
    case Swapped => Pair(On(c, pair.f), On(c, pair.v))
    case Recoded(_) => Pair(On(c, pair.v), On(c, pair.f))
  }

  function OnPairs(c: Change, pairs: seq<Pair>): (r: seq<Pair>)
    ensures |r| == |pairs|
  {
    if pairs == [] then [] else OnPairs(c, pairs[..|pairs| - 1]) + [OnPair(c, pairs[|pairs| - 1])]
  }

  lemma OneRowMore(c: Change, rows: seq<Row>, row: Row)
    ensures OnRows(c, rows + [row]) == OnRows(c, rows) + [On(c, row)]
  {
    assert (rows + [row])[..|rows|] == rows;
  }

  lemma {:induction false} KeysChange(c: Change, rows: seq<Row>)
    ensures Keys(OnRows(c, rows)) == Keys(rows)
  {
    if rows != [] {
      var front, last := rows[..|rows| - 1], rows[|rows| - 1];
      KeysChange(c, front);
      assert rows == front + [last];
      OneRowMore(c, front, last);
      assert OnRows(c, rows)[..|front|] == OnRows(c, front);
    }
  }

  lemma {:induction false} MembersChange(c: Change, rows: seq<Row>, key: Key)
    ensures Members(OnRows(c, rows), key) == OnRows(c, Members(rows, key))
  {
    if rows != [] {
      var front, last := rows[..|rows| - 1], rows[|rows| - 1];
      MembersChange(c, front, key);
      assert OnRows(c, rows)[..|front|] == OnRows(c, front);
      OneRowMore(c, Members(front, key), last);
      assert OnRows(c, Members(front, key) + []) == OnRows(c, Members(front, key)) + [] by {
        assert Members(front, key) + [] == Members(front, key);
      }
    }
  }

  lemma PairChanges(c: Change, members: seq<Row>)
    ensures PairOf(OnRows(c, members)) == match PairOf(members) {
              case Ok(Some(pair)) => Ok(Some(OnPair(c, pair)))
              case other => other
            }
  {
    if |members| == 2 {
      var a, b := members[0], members[1];
      assert members[..1] == [a] && members[..1][..0] == [];
      assert OnRows(c, [a]) == [On(c, a)];
      assert OnRows(c, members) == [On(c, a), On(c, b)];
    }
  }

  lemma NoPairs(c: Change)
    ensures OnPairs(c, []) == []
  {
  }

  lemma OnePairMore(c: Change, pairs: seq<Pair>, pair: Pair)
    ensures OnPairs(c, pairs + [pair]) == OnPairs(c, pairs) + [OnPair(c, pair)]
  {
    assert (pairs + [pair])[..|pairs|] == pairs;
  }

  lemma {:induction false} PairsChange(c: Change, rows: seq<Row>, keys: seq<Key>)
    ensures PairsOf(OnRows(c, rows), keys) == match PairsOf(rows, keys) {
              case Ok(pairs) => Ok(OnPairs(c, pairs))
              case other => other
            }
    decreases |keys|
  {
    hide PairOf, OnRows, Members, OnPairs;
    if keys == [] {
      NoPairs(c);
    } else {
      var last := keys[|keys| - 1];
      PairsChange(c, rows, keys[..|keys| - 1]);
      MembersChange(c, rows, last);
      PairChanges(c, Members(rows, last));
      if PairsOf(rows, keys[..|keys| - 1]).Ok? {
        var pairs := PairsOf(rows, keys[..|keys| - 1]).value;
        var one := PairOf(Members(rows, last));
        if one.Ok? && one.value.Some? {
          OnePairMore(c, pairs, one.value.value);
        }
      }
    }
  }

  ghost predicate Increasing(h: real -> real) {
    forall a, b | a < b :: h(a) < h(b)
  }

  lemma {:induction false} PairCounts(c: Change, pairs: seq<Pair>)
    requires c.Recoded? ==> Increasing(c.h)
    ensures var others := OnPairs(c, pairs);
            if c.Swapped? then Higher(others) == Lower(pairs) && Lower(others) == Higher(pairs)
            else Higher(others) == Higher(pairs) && Lower(others) == Lower(pairs)
  {
    if pairs != [] {
      var front := pairs[..|pairs| - 1];
      PairCounts(c, front);
      assert OnPairs(c, pairs)[..|front|] == OnPairs(c, front);
    }
  }

  function OnSignals(h: real -> real, signals: seq<real>): (r: seq<real>)
    ensures |r| == |signals|
  {
    if signals == [] then [] else OnSignals(h, signals[..|signals| - 1]) + [h(signals[|signals| - 1])]
  }

  lemma OneSignalMore(h: real -> real, signals: seq<real>, signal: real)
    ensures OnSignals(h, signals + [signal]) == OnSignals(h, signals) + [h(signal)]
  {
    assert (signals + [signal])[..|signals|] == signals;
  }

  lemma {:induction false} SignalsChange(c: Change, rows: seq<Row>, tag: int)
    requires tag == 0 || tag == 1
    ensures Signals(OnRows(c, rows), tag) ==
            if c.Swapped? then Signals(rows, 1 - tag) else OnSignals(c.h, Signals(rows, tag))
  {
    if rows != [] {
      var front, last := rows[..|rows| - 1], rows[|rows| - 1];
      SignalsChange(c, front, tag);
      assert OnRows(c, rows)[..|front|] == OnRows(c, front);
      hide OnRows, OnSignals;
      var signals := Signals(front, tag);
      assert signals + [] == signals;
      var others := Signals(front, 1 - tag);
      assert others + [] == others;
      if c.Recoded? {
        OneSignalMore(c.h, signals, last.signal);
        assert OnSignals(c.h, signals) + [] == OnSignals(c.h, signals);
      }
    }
  }

  lemma {:induction false} CreditRecoded(h: real -> real, a: real, others: seq<real>)
    requires Increasing(h)
    ensures Credit(h(a), OnSignals(h, others)) == Credit(a, others)
  {
    if others != [] {
      var front, b := others[..|others| - 1], others[|others| - 1];
      CreditRecoded(h, a, front);
      assert OnSignals(h, others)[..|front|] == OnSignals(h, front);
      assert Win(h(a), h(b)) == Win(a, b);
    }
  }

  lemma {:induction false} TotalRecoded(h: real -> real, ours: seq<real>, others: seq<real>)
    requires Increasing(h)
    ensures Total(OnSignals(h, ours), OnSignals(h, others)) == Total(ours, others)
  {
    if ours != [] {
      var front, a := ours[..|ours| - 1], ours[|ours| - 1];
      TotalRecoded(h, front, others);
      CreditRecoded(h, a, others);
      assert OnSignals(h, ours)[..|front|] == OnSignals(h, front);
    }
  }

  lemma AucRecoded(h: real -> real, positive: seq<real>, negative: seq<real>)
    requires Increasing(h)
    ensures Auc(OnSignals(h, positive), OnSignals(h, negative)) == Auc(positive, negative)
  {
    TotalRecoded(h, positive, negative);
  }

  lemma PairScoreOfCounts(pairs: seq<Pair>, others: seq<Pair>)
    requires |pairs| == |others| && Higher(pairs) == Higher(others) && Lower(pairs) == Lower(others)
    ensures PairScore(pairs) == PairScore(others)
  {
  }

  /** A strictly increasing recoding of the signal changes nothing at all. */
  lemma RecodingChangesNothing(rows: seq<Row>, h: real -> real)
    requires Increasing(h)
    ensures Metrics(OnRows(Recoded(h), rows)) == Metrics(rows)
  {
    hide PairOf, PairsOf, Keys, Higher, Lower, Signals, Total, OnSignals, OnPairs, OnRows, Auc, PairScore;
    var c := Recoded(h);
    KeysChange(c, rows);
    PairsChange(c, rows, Keys(rows));
    SignalsChange(c, rows, 0);
    SignalsChange(c, rows, 1);
    AucRecoded(h, Signals(rows, 1), Signals(rows, 0));
    if Pairs(rows).Ok? {
      PairCounts(c, Pairs(rows).value);
      PairScoreOfCounts(Pairs(rows).value, OnPairs(c, Pairs(rows).value));
    }
  }

  function Mirror(score: Option<real>): Option<real> {
    match score
    case None => None
    case Some(x) => Some(1.0 - x)
  }

  lemma AucMirrors(positive: seq<real>, negative: seq<real>)
    ensures Auc(negative, positive) == Mirror(Auc(positive, negative))
  {
    if positive != [] && negative != [] {
      TotalsShare(positive, negative);
      TotalIsPositive(positive, negative);
      TotalIsPositive(negative, positive);
      assert |positive| * |negative| > 0;
      Share(Total(positive, negative), Total(negative, positive), (|positive| * |negative|) as real);
    }
  }

  lemma PairScoreMirrors(pairs: seq<Pair>)
    ensures PairScore(OnPairs(Swapped, pairs)) == Mirror(PairScore(pairs))
  {
    PairCounts(Swapped, pairs);
    TiesAreTheRest(pairs);
    if pairs != [] {
      var a := Higher(pairs) as real + 0.5 * Ties(pairs) as real;
      Share(a, |pairs| as real - a, |pairs| as real);
    }
  }

  /** Swapping every label mirrors both scores; what the audit reports and flags is the same. */
  lemma SwappingMirrors(rows: seq<Row>)
    ensures var swapped := Metrics(OnRows(Swapped, rows));
            match Metrics(rows)
            case CrossesGroup => swapped == CrossesGroup
            case Ambiguous => swapped == Ambiguous
            case Ok(m) => swapped == Ok(m.(positive := m.negative, negative := m.positive, higher := m.lower,
                                           lower := m.higher,
                                           pairScore := Mirror(m.pairScore), auc := Mirror(m.auc)))
  {
    hide PairOf, PairsOf, Keys, Higher, Lower, Signals, Total, OnPairs, OnRows, Auc, PairScore;
    KeysChange(Swapped, rows);
    PairsChange(Swapped, rows, Keys(rows));
    SignalsChange(Swapped, rows, 0);
    SignalsChange(Swapped, rows, 1);
    AucMirrors(Signals(rows, 1), Signals(rows, 0));
    if Pairs(rows).Ok? {
      PairCounts(Swapped, Pairs(rows).value);
      PairScoreMirrors(Pairs(rows).value);
    }
  }
}
