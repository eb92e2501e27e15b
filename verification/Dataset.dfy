/**
 The dataset split (phase3_split_dataset.py): windows are distributed over train, val and test by
 experiment, so that no experiment leaks from one split into another.
 */
module Dataset {
  import opened Listing
  import opened Order

  type Row = map<string, string>

  const EXPERIMENT := "experiment_id"
  const LABEL := "label"
  const SPLIT := "split"
  const NORMAL := "normal"

  const TRAIN := "train"
  const VAL := "val"
  const TEST := "test"

  /** The columns of windows_all.csv and its rows; every row has every column. */
  datatype Table = Table(fields: seq<string>, rows: seq<Row>)

  ghost predicate Rectangular(t: Table) {
    forall i :: 0 <= i < |t.rows| ==> t.rows[i].Keys == Elements(t.fields)
  }

  ghost predicate Named(rows: seq<Row>) {
    forall i :: 0 <= i < |rows| ==> EXPERIMENT in rows[i]
  }

  function Experiments(rows: seq<Row>): set<string>
    requires Named(rows)
  {
    set i | 0 <= i < |rows| :: rows[i][EXPERIMENT]
  }

  function Of(e: string): Row -> bool {
    (r: Row) => EXPERIMENT in r && r[EXPERIMENT] == e
  }

  function RowsOf(rows: seq<Row>, e: string): seq<Row> {
    Filter(rows, Of(e))
  }

  // --- The label of an experiment -----------------------------------------------------------

  predicate Anomalous(r: Row) {
    LABEL in r && r[LABEL] != "" && r[LABEL] != NORMAL
  }

  function Anomalies(rows: seq<Row>): set<string> {
    set i | 0 <= i < |rows| && Anomalous(rows[i]) :: rows[i][LABEL]
  }

  /** sorted(): the elements in ascending order. */
  ghost function Sorted(s: set<string>): (r: seq<string>)
    ensures Ascending(TextLess, r) && Lists(r, s) && |r| == |s|
  {
    TextLessStrictTotal();
    var r := Ordered(TextLess, s);
    AscendingIsDistinct(TextLess, r);
    ListLength(r, s);
    r
  }

  method SortTexts(ghost s: set<string>, xs: seq<string>) returns (r: seq<string>)
    requires Lists(xs, s)
    ensures r == Sorted(s)
  {
    TextLessStrictTotal();
    r := Sort(TextLess, xs);
    AscendingIsUnique(TextLess, r, Sorted(s));
  }

  /** The alphabetically first anomaly, or "normal". */
  ghost function Primary(rows: seq<Row>): string {
    var labels := Sorted(Anomalies(rows));
    if labels == [] then NORMAL else labels[0]
  }

  method PrimaryLabelForExperiment(rows: seq<Row>) returns (primary: string)
    ensures primary == Primary(rows)
  {
    var found := ListSet(Anomalies(rows));
    var labels := SortTexts(Anomalies(rows), found);
    return if |labels| > 0 then labels[0] else NORMAL;
  }

  /** What the first anomaly means: none is smaller, and "normal" stands for having none. */
  lemma PrimaryIsLeast(rows: seq<Row>)
    ensures Primary(rows) == NORMAL <==> Anomalies(rows) == {}
    ensures Anomalies(rows) != {} ==> Least(TextLess, Anomalies(rows), Primary(rows))
  {
    var labels := Sorted(Anomalies(rows));
    assert forall i :: 0 <= i < |labels| ==> labels[i] in Elements(labels);
    forall l | l in Anomalies(rows) ensures labels != [] && (l == labels[0] || TextLess(labels[0], l)) {
      assert l in Elements(labels);
      var i :| 0 <= i < |labels| && labels[i] == l;
    }
  }

  /** The row's label is an anomaly's. */
  predicate Labels(r: Row, l: string) {
    "label" in r && r["label"] == l && l != "" && l != "normal"
  }

  /** An experiment's label is the alphabetically first anomaly among its rows, or "normal" without any. */
  lemma PrimaryIff(rows: seq<Row>, l: string)
    ensures Primary(rows) == l <==>
            if exists r, m :: r in rows && Labels(r, m)
            then (exists r :: r in rows && Labels(r, l)) &&
                 forall r, m :: r in rows && Labels(r, m) ==> l == m || TextLess(l, m)
            else l == "normal"
  {
    PrimaryIsLeast(rows);
    forall m ensures m in Anomalies(rows) <==> exists r :: r in rows && Labels(r, m) {
      if r :| r in rows && Labels(r, m) {
        var i :| 0 <= i < |rows| && rows[i] == r;
        assert Anomalous(rows[i]) && rows[i][LABEL] == m;
      }
      if m in Anomalies(rows) {
        var i :| 0 <= i < |rows| && Anomalous(rows[i]) && rows[i][LABEL] == m;
        assert rows[i] in rows && Labels(rows[i], m);
      }
    }
    hide Labels, Anomalies, Primary, TextLess;
    LeastIff(Anomalies(rows), Primary(rows), l);
    if r, m :| r in rows && Labels(r, m) { assert m in Anomalies(rows); }
    if m :| m in Anomalies(rows) { assert exists r :: r in rows && Labels(r, m); }
    assert Least(TextLess, Anomalies(rows), l) <==>
           l in Anomalies(rows) && forall m :: m in Anomalies(rows) ==> l == m || TextLess(l, m);
  }

  lemma LeastIff(s: set<string>, m: string, l: string)
    requires Least(TextLess, s, m) || s == {}
    ensures s != {} ==> (Least(TextLess, s, l) <==> l == m)
  {
    if s != {} && Least(TextLess, s, l) { TextLessTotal(l, m); }
  }

  // --- The split of a group -----------------------------------------------------------------

  predicate IsSplit(s: string) {
    s == TRAIN || s == VAL || s == TEST
  }

  lemma SplitsDiffer()
    ensures TRAIN != VAL && TRAIN != TEST && VAL != TEST && SPLIT != EXPERIMENT && SPLIT != LABEL
  {
    assert TRAIN[0] != VAL[0] && TRAIN[1] != TEST[1] && VAL[0] != TEST[0] && |SPLIT| != |EXPERIMENT| &&
        SPLIT[0] != LABEL[0];
  }

  /** The split of the i-th of `count` experiments with one label. */
  function SplitAt(i: nat, count: nat): (s: string)
    ensures IsSplit(s)
  {
    if count == 2 then (if i == 0 then TRAIN else TEST)
    else if i == 1 then VAL
    else if i == 2 then TEST
    else TRAIN
  }

  ghost function Rank(s: set<string>, e: string): (i: nat)
    requires e in s
    ensures i < |s| && Sorted(s)[i] == e
  {
    assert e in Elements(Sorted(s));
    var i :| 0 <= i < |Sorted(s)| && Sorted(s)[i] == e;
    i
  }

  lemma RankAt(s: set<string>, i: nat)
    requires i < |s|
    ensures Sorted(s)[i] in s && Rank(s, Sorted(s)[i]) == i
  {
    assert Sorted(s)[i] in Elements(Sorted(s));
  }

  /** Which split each experiment of a group goes to. */
  ghost function GroupSplits(s: set<string>): map<string, string> {
    map e | e in s :: SplitAt(Rank(s, e), |s|)
  }

  /** The first n experiments of a group assigned. */
  ghost function Prefix(s: set<string>, n: nat): map<string, string>
    requires n <= |s|
  {
    map e | e in s && Rank(s, e) < n :: SplitAt(Rank(s, e), |s|)
  }

  lemma PrefixGrows(s: set<string>, n: nat)
    requires n < |s|
    ensures Prefix(s, n + 1) == Prefix(s, n)[Sorted(s)[n] := SplitAt(n, |s|)]
  {
    hide SplitAt, Sorted, Rank, Lists, Ascending, TextLess;
    RankAt(s, n);
  }

  lemma PrefixEnds(s: set<string>)
    ensures Prefix(s, 0) == map[] && Prefix(s, |s|) == GroupSplits(s)
  {
  }

  method SplitGroup(ghost s: set<string>, experimentIds: seq<string>) returns (assignments: map<string, string>)
    requires Lists(experimentIds, s)
    ensures assignments == GroupSplits(s)
  {
    hide Prefix, GroupSplits, Lists, Ascending, TextLess, TRAIN, VAL, TEST;
    var ids := SortTexts(s, experimentIds);
    var count := |ids|;
    assignments := map[];
    PrefixEnds(s);
    if count > 0 { PrefixGrows(s, 0); }
    if count > 1 { PrefixGrows(s, 1); }
    if count > 2 { PrefixGrows(s, 2); }
    if count == 1 {
      assignments := assignments[ids[0] := TRAIN];
    } else if count == 2 {
      assignments := assignments[ids[0] := TRAIN];
      assignments := assignments[ids[1] := TEST];
    } else if count >= 3 {
      assignments := assignments[ids[0] := TRAIN];
      assignments := assignments[ids[1] := VAL];
      assignments := assignments[ids[2] := TEST];
      var i := 3;
      while i < count
        invariant 3 <= i <= count && assignments == Prefix(s, i)
      {
        PrefixGrows(s, i);
        assignments := assignments[ids[i] := TRAIN];
        i := i + 1;
      }
    }
  }

  /** Which splits a group reaches: train always, test from two experiments on, val from three. */
  lemma GroupReaches(s: set<string>)
    ensures (exists e :: e in s && GroupSplits(s)[e] == TRAIN) <==> |s| >= 1
    ensures (exists e :: e in s && GroupSplits(s)[e] == TEST) <==> |s| >= 2
    ensures (exists e :: e in s && GroupSplits(s)[e] == VAL) <==> |s| >= 3
  {
    forall i: nat | i < |s| ensures Sorted(s)[i] in s && GroupSplits(s)[Sorted(s)[i]] == SplitAt(i, |s|) {
      RankAt(s, i);
    }
    if |s| >= 1 { assert GroupSplits(s)[Sorted(s)[0]] == TRAIN; }
    if |s| >= 2 { assert GroupSplits(s)[Sorted(s)[if |s| == 2 then 1 else 2]] == TEST; }
    if |s| >= 3 { assert GroupSplits(s)[Sorted(s)[1]] == VAL; }
    assert forall e :: e in s ==> GroupSplits(s)[e] == SplitAt(Rank(s, e), |s|) && Rank(s, e) < |s|;
  }

  /**
   By place in ascending order: one experiment goes to train; of two, the second goes to test; of
   more, the second goes to val, the third to test, and all others to train.
   */
  lemma SplitsByRank(s: set<string>, i: nat)
    requires i < |s|
    ensures Sorted(s)[i] in s
    ensures GroupSplits(s)[Sorted(s)[i]] ==
            if i == 1 && |s| == 2 then "test" else if i == 1 then "val" else if i == 2 then "test" else "train"
  {
    RankAt(s, i);
  }

  /** In a group of at least three exactly one experiment is in val, exactly one in test, and all others in train. */
  lemma ThreeOrMore(s: set<string>)
    requires |s| >= 3
    ensures exists v, t ::
      && v in s && t in s && v != t && GroupSplits(s)[v] == "val" && GroupSplits(s)[t] == "test"
      && forall e :: e in s && e != v && e != t ==> GroupSplits(s)[e] == "train"
  {
    var v, t := Sorted(s)[1], Sorted(s)[2];
    SplitsByRank(s, 1);
    SplitsByRank(s, 2);
    SplitsDiffer();
    forall e | e in s && e != v && e != t ensures GroupSplits(s)[e] == "train" {
      SplitsByRank(s, Rank(s, e));
    }
    hide GroupSplits, Sorted;
  }

  // --- Assignments ----------------------------------------------------------------------------

  ghost function LabelOf(rows: seq<Row>, e: string): string {
    Primary(RowsOf(rows, e))
  }

  /** The experiments with a given primary label. */
  ghost function Group(rows: seq<Row>, l: string): set<string>
    requires Named(rows)
  {
    set e | e in Experiments(rows) && LabelOf(rows, e) == l
  }

  ghost function AssignmentOf(rows: seq<Row>, e: string): (s: string)
    requires Named(rows) && e in Experiments(rows)
    ensures IsSplit(s)
  {
    GroupSplits(Group(rows, LabelOf(rows, e)))[e]
  }

  /** The split of every experiment: its group's assignment. */
  ghost function Assignments(rows: seq<Row>): (m: map<string, string>)
    requires Named(rows)
    ensures m.Keys == Experiments(rows)
  {
    map e | e in Experiments(rows) :: AssignmentOf(rows, e)
  }

  ghost predicate Splits(m: map<string, string>) {
    forall e :: e in m ==> IsSplit(m[e])
  }

  lemma AssignmentsAreSplits(rows: seq<Row>)
    requires Named(rows)
    ensures Splits(Assignments(rows))
  {
    hide AssignmentOf, IsSplit;
  }

  /** Row r belongs to experiment e and is labelled with anomaly l. */
  predicate LabelsIn(r: Row, e: string, l: string) {
    "experiment_id" in r && r["experiment_id"] == e && Labels(r, l)
  }

  /** The label of an experiment by its own rows alone. */
  lemma LabelIff(rows: seq<Row>, e: string, l: string)
    ensures LabelOf(rows, e) == l <==>
            if exists r, m :: r in rows && LabelsIn(r, e, m)
            then (exists r :: r in rows && LabelsIn(r, e, l)) &&
                 forall r, m :: r in rows && LabelsIn(r, e, m) ==> l == m || TextLess(l, m)
            else l == "normal"
  {
    PrimaryIff(RowsOf(rows, e), l);
    FilterKeeps(rows, Of(e));
    forall r, m ensures r in RowsOf(rows, e) && Labels(r, m) <==> r in rows && LabelsIn(r, e, m) {
    }
    hide RowsOf, Labels, LabelsIn, Primary, TextLess;
  }

  /** Experiments are split within their label's group, by their place in ascending order. */
  lemma AssignedByRank(rows: seq<Row>, l: string, i: nat)
    requires Named(rows) && i < |Group(rows, l)|
    ensures var g := Group(rows, l);
            && (forall e :: e in g <==>
                  LabelOf(rows, e) == l && exists r :: r in rows && "experiment_id" in r && r["experiment_id"] == e)
            && Sorted(g)[i] in Assignments(rows)
            && Assignments(rows)[Sorted(g)[i]] ==
               if i == 1 && |g| == 2 then "test" else if i == 1 then "val" else if i == 2 then "test" else "train"
  {
    var g := Group(rows, l);
    SplitsByRank(g, i);
    assert Sorted(g)[i] in g;
    forall e
      ensures e in Experiments(rows) <==> exists r :: r in rows && "experiment_id" in r && r["experiment_id"] == e
    {
      if r :| r in rows && "experiment_id" in r && r["experiment_id"] == e {
        var j :| 0 <= j < |rows| && rows[j] == r;
      }
      if e in Experiments(rows) {
        var j :| 0 <= j < |rows| && rows[j][EXPERIMENT] == e;
        assert rows[j] in rows;
      }
    }
    hide LabelOf, GroupSplits, Sorted, Experiments;
  }

  // --- Routing --------------------------------------------------------------------------------

  ghost predicate Covered(rows: seq<Row>, m: map<string, string>) {
    forall i :: 0 <= i < |rows| ==> EXPERIMENT in rows[i] && rows[i][EXPERIMENT] in m
  }

  /** The rows of one split, in order and marked with it. */
  ghost function Routed(rows: seq<Row>, m: map<string, string>, split: string): seq<Row>
    requires Covered(rows, m)
  {
    if rows == [] then []
    else
      var before, last := Routed(rows[..|rows| - 1], m, split), rows[|rows| - 1];
      if m[last[EXPERIMENT]] == split then before + [last[SPLIT := split]] else before
  }

  ghost function AllRouted(rows: seq<Row>, m: map<string, string>): seq<Row>
    requires Covered(rows, m)
  {
    Routed(rows, m, TRAIN) + Routed(rows, m, VAL) + Routed(rows, m, TEST)
  }

  lemma AssignmentsCover(rows: seq<Row>)
    requires Named(rows)
    ensures Covered(rows, Assignments(rows))
  {
    forall i | 0 <= i < |rows| ensures rows[i][EXPERIMENT] in Assignments(rows) {
      assert rows[i][EXPERIMENT] in Experiments(rows);
    }
  }

  /** windows_all.csv after the split. */
  ghost function Resplit(rows: seq<Row>): seq<Row>
    requires Named(rows)
  {
    AssignmentsCover(rows);
    AllRouted(rows, Assignments(rows))
  }

  // --- Conservation ---------------------------------------------------------------------------

  function Unsplit(rows: seq<Row>): seq<Row> {
    seq(|rows|, i requires 0 <= i < |rows| => rows[i] - {SPLIT})
  }

  lemma UnsplitConcat(a: seq<Row>, b: seq<Row>)
    ensures Unsplit(a + b) == Unsplit(a) + Unsplit(b)
  {
  }

  lemma UnsplitOneMore(rows: seq<Row>, r: Row)
    ensures multiset(Unsplit(rows + [r])) == multiset(Unsplit(rows)) + multiset{r - {SPLIT}}
  {
    hide SPLIT;
    assert Unsplit(rows + [r]) == Unsplit(rows) + [r - {SPLIT}];
  }

  ghost predicate Conserved(rows: seq<Row>, m: map<string, string>)
    requires Covered(rows, m)
  {
    multiset(Unsplit(Routed(rows, m, TRAIN))) + multiset(Unsplit(Routed(rows, m, VAL))) +
        multiset(Unsplit(Routed(rows, m, TEST))) ==
    multiset(Unsplit(rows))
  }

  /** What one more row adds to a split, apart from the split column. */
  lemma RoutedOneMore(rows: seq<Row>, m: map<string, string>, split: string)
    requires Covered(rows, m) && rows != []
    ensures var front, last := rows[..|rows| - 1], rows[|rows| - 1];
            multiset(Unsplit(Routed(rows, m, split))) ==
            multiset(Unsplit(Routed(front, m, split))) +
            if m[last[EXPERIMENT]] == split then multiset{last - {SPLIT}} else multiset{}
  {
    hide EXPERIMENT, SPLIT, Unsplit;
    var front, last := rows[..|rows| - 1], rows[|rows| - 1];
    UnsplitOneMore(Routed(front, m, split), last[SPLIT := split]);
    assert last[SPLIT := split] - {SPLIT} == last - {SPLIT};
  }

  lemma {:induction false} RoutingConserves(rows: seq<Row>, m: map<string, string>)
    requires Covered(rows, m) && Splits(m)
    ensures Conserved(rows, m)
  {
    SplitsDiffer();
    hide EXPERIMENT, SPLIT, TRAIN, VAL, TEST, Routed;
    if rows == [] {
      NothingRouted(m);
    } else {
      var front, last := rows[..|rows| - 1], rows[|rows| - 1];
      RoutingConserves(front, m);
      RoutedOneMore(rows, m, TRAIN);
      RoutedOneMore(rows, m, VAL);
      RoutedOneMore(rows, m, TEST);
      assert rows == front + [last];
      UnsplitOneMore(front, last);
      hide Unsplit;
    }
  }

  lemma NothingRouted(m: map<string, string>)
    ensures Conserved([], m)
  {
  }

  /** Apart from the split column, the output rows are the input rows. */
  lemma SplitConservesRows(rows: seq<Row>)
    requires Named(rows)
    ensures multiset(Unsplit(Resplit(rows))) == multiset(Unsplit(rows))
  {
    hide EXPERIMENT, SPLIT, TRAIN, VAL, TEST, Routed, Unsplit, Assignments, Splits;
    AssignmentsCover(rows);
    AssignmentsAreSplits(rows);
    var m := Assignments(rows);
    RoutingConserves(rows, m);
    UnsplitConcat(Routed(rows, m, TRAIN) + Routed(rows, m, VAL), Routed(rows, m, TEST));
    UnsplitConcat(Routed(rows, m, TRAIN), Routed(rows, m, VAL));
  }

  // --- No leaks -------------------------------------------------------------------------------

  ghost predicate MarkedWith(r: Row, m: map<string, string>) {
    EXPERIMENT in r && r[EXPERIMENT] in m && SPLIT in r && r[SPLIT] == m[r[EXPERIMENT]]
  }

  lemma {:induction false} RoutedMarks(rows: seq<Row>, m: map<string, string>, split: string)
    requires Covered(rows, m)
    ensures forall r :: r in Routed(rows, m, split) ==> MarkedWith(r, m) && r[SPLIT] == split
  {
    SplitsDiffer();
    hide EXPERIMENT, SPLIT;
    if rows != [] { RoutedMarks(rows[..|rows| - 1], m, split); }
  }

  lemma AllMarked(rows: seq<Row>, m: map<string, string>)
    requires Covered(rows, m)
    ensures forall r :: r in AllRouted(rows, m) ==> MarkedWith(r, m)
  {
    hide Routed, MarkedWith, EXPERIMENT, SPLIT, TRAIN, VAL, TEST;
    RoutedMarks(rows, m, TRAIN);
    RoutedMarks(rows, m, VAL);
    RoutedMarks(rows, m, TEST);
  }

  /** Every output row carries the split of its experiment, so no experiment is in two splits. */
  lemma NoExperimentLeaks(rows: seq<Row>, r: Row, r2: Row)
    requires Named(rows) && r in Resplit(rows) && r2 in Resplit(rows)
    ensures MarkedWith(r, Assignments(rows)) && MarkedWith(r2, Assignments(rows))
    ensures r[EXPERIMENT] == r2[EXPERIMENT] ==> r[SPLIT] == r2[SPLIT]
  {
    AssignmentsCover(rows);
    AllMarked(rows, Assignments(rows));
    hide Assignments, Routed, EXPERIMENT, SPLIT;
  }

  lemma {:induction false} RoutedReaches(rows: seq<Row>, m: map<string, string>, split: string, i: nat)
    requires Covered(rows, m) && i < |rows| && m[rows[i][EXPERIMENT]] == split
    ensures rows[i][SPLIT := split] in Routed(rows, m, split)
  {
    hide EXPERIMENT, SPLIT;
    if i < |rows| - 1 { RoutedReaches(rows[..|rows| - 1], m, split, i); }
  }

  lemma EveryRowIsRouted(rows: seq<Row>, m: map<string, string>, i: nat)
    requires Covered(rows, m) && Splits(m) && i < |rows|
    ensures rows[i][SPLIT := m[rows[i][EXPERIMENT]]] in AllRouted(rows, m)
  {
    hide EXPERIMENT, SPLIT, TRAIN, VAL, TEST, Routed;
    RoutedReaches(rows, m, m[rows[i][EXPERIMENT]], i);
  }

  ghost predicate LabelReaches(rows: seq<Row>, l: string, split: string)
    requires Named(rows)
  {
    exists e :: e in Group(rows, l) && Assignments(rows)[e] == split
  }

  /** Every split a label's group reaches holds a row of one of its experiments. */
  lemma ReachedSplitsHoldRows(rows: seq<Row>, l: string, split: string)
    requires Named(rows) && LabelReaches(rows, l, split)
    ensures exists r ::
      r in Resplit(rows) && MarkedWith(r, Assignments(rows)) && r[SPLIT] == split && r[EXPERIMENT] in Group(rows, l)
  {
    SplitsDiffer();
    hide EXPERIMENT, SPLIT, Assignments, AllRouted, Splits, LabelOf;
    var e :| e in Group(rows, l) && Assignments(rows)[e] == split;
    var i :| 0 <= i < |rows| && rows[i][EXPERIMENT] == e;
    AssignmentsCover(rows);
    AssignmentsAreSplits(rows);
    EveryRowIsRouted(rows, Assignments(rows), i);
    var r := rows[i][SPLIT := split];
    assert r in Resplit(rows) && MarkedWith(r, Assignments(rows));
  }

  lemma AssignedByGroup(rows: seq<Row>, l: string, e: string)
    requires Named(rows) && e in Group(rows, l)
    ensures e in Assignments(rows) && Assignments(rows)[e] == GroupSplits(Group(rows, l))[e]
  {
  }

  /** A label reaches train whenever it occurs, test exactly from two experiments on, and val exactly from three. */
  lemma LabelReachesIff(rows: seq<Row>, l: string)
    requires Named(rows)
    ensures LabelReaches(rows, l, TRAIN) <==> |Group(rows, l)| >= 1
    ensures LabelReaches(rows, l, TEST) <==> |Group(rows, l)| >= 2
    ensures LabelReaches(rows, l, VAL) <==> |Group(rows, l)| >= 3
  {
    GroupReaches(Group(rows, l));
    forall e | e in Group(rows, l)
      ensures e in Assignments(rows) && Assignments(rows)[e] == GroupSplits(Group(rows, l))[e]
    {
      AssignedByGroup(rows, l, e);
    }
    hide Group, Assignments;
  }

  // --- Running it again -----------------------------------------------------------------------

  function Marked(rows: seq<Row>, split: string): seq<Row> {
    seq(|rows|, i requires 0 <= i < |rows| => rows[i][SPLIT := split])
  }

  lemma {:induction false} FilterConcat<T>(a: seq<T>, b: seq<T>, p: T -> bool)
    ensures Filter(a + b, p) == Filter(a, p) + Filter(b, p)
  {
    if b == [] {
      assert a + b == a;
    } else {
      FilterConcat(a, b[..|b| - 1], p);
      assert (a + b)[..|a + b| - 1] == a + b[..|b| - 1];
    }
  }

  lemma MarkedOneMore(rows: seq<Row>, r: Row, split: string)
    ensures Marked(rows + [r], split) == Marked(rows, split) + [r[SPLIT := split]]
    ensures Marked([], split) == []
  {
  }

  /** The rows of an experiment all go to its split, in order. */
  lemma {:induction false} RoutedRowsOf(rows: seq<Row>, m: map<string, string>, split: string, e: string)
    requires Covered(rows, m) && e in m
    ensures RowsOf(Routed(rows, m, split), e) == if m[e] == split then Marked(RowsOf(rows, e), split) else []
  {
    SplitsDiffer();
    hide EXPERIMENT, SPLIT, Marked;
    MarkedOneMore([], map[], split);
    if rows != [] {
      var front, last := rows[..|rows| - 1], rows[|rows| - 1];
      RoutedRowsOf(front, m, split, e);
      MarkedOneMore(RowsOf(front, e), last, split);
      FilterOneMore(front, last, Of(e));
      FilterOneMore(Routed(front, m, split), last[SPLIT := split], Of(e));
      assert rows == front + [last];
      assert Of(e)(last[SPLIT := split]) == Of(e)(last);
      hide Filter;
    }
  }

  lemma MarkedKeepsLabels(rows: seq<Row>, split: string)
    ensures Primary(Marked(rows, split)) == Primary(rows)
  {
    assert Anomalies(Marked(rows, split)) == Anomalies(rows) by {
      assert forall i :: 0 <= i < |rows| ==> Anomalous(Marked(rows, split)[i]) == Anomalous(rows[i]);
      forall l ensures l in Anomalies(Marked(rows, split)) <==> l in Anomalies(rows) {
        if l in Anomalies(rows) {
          var i :| 0 <= i < |rows| && Anomalous(rows[i]) && rows[i][LABEL] == l;
          assert Marked(rows, split)[i][LABEL] == l;
        }
      }
    }
  }

  lemma RoutedRowsAreNamed(rows: seq<Row>, m: map<string, string>, out: seq<Row>)
    requires forall r :: r in out ==> MarkedWith(r, m)
    ensures Named(out) && Experiments(out) <= m.Keys
  {
    assert forall i :: 0 <= i < |out| ==> MarkedWith(out[i], m);
    hide EXPERIMENT, SPLIT;
  }

  lemma RoutedRowsNameAll(rows: seq<Row>, m: map<string, string>, e: string)
    requires Named(rows) && Covered(rows, m) && Splits(m) && e in Experiments(rows) && Named(AllRouted(rows, m))
    ensures e in Experiments(AllRouted(rows, m))
  {
    SplitsDiffer();
    hide EXPERIMENT, SPLIT, AllRouted, Splits;
    var i :| 0 <= i < |rows| && rows[i][EXPERIMENT] == e;
    EveryRowIsRouted(rows, m, i);
    RowNamesExperiment(AllRouted(rows, m), rows[i][SPLIT := m[e]], e);
  }

  lemma ResplitIsNamed(rows: seq<Row>)
    requires Named(rows)
    ensures Named(Resplit(rows)) && Experiments(Resplit(rows)) == Experiments(rows)
  {
    hide Assignments, AllRouted, Splits, MarkedWith, Experiments, Named, Covered;
    AssignmentsCover(rows);
    AssignmentsAreSplits(rows);
    var m := Assignments(rows);
    AllMarked(rows, m);
    RoutedRowsAreNamed(rows, m, AllRouted(rows, m));
    forall e | e in Experiments(rows) ensures e in Experiments(AllRouted(rows, m)) {
      RoutedRowsNameAll(rows, m, e);
    }
  }

  lemma RowNamesExperiment(rows: seq<Row>, r: Row, e: string)
    requires Named(rows) && r in rows && EXPERIMENT in r && r[EXPERIMENT] == e
    ensures e in Experiments(rows)
  {
    hide EXPERIMENT;
    var j :| 0 <= j < |rows| && rows[j] == r;
  }

  lemma ResplitRowsOf(rows: seq<Row>, e: string)
    requires Named(rows) && e in Experiments(rows)
    ensures RowsOf(Resplit(rows), e) == Marked(RowsOf(rows, e), Assignments(rows)[e])
  {
    SplitsDiffer();
    hide Assignments, Routed, Filter, Marked, Of, EXPERIMENT, SPLIT, TRAIN, VAL, TEST;
    AssignmentsCover(rows);
    AssignmentsAreSplits(rows);
    var m := Assignments(rows);
    RoutedRowsOf(rows, m, TRAIN, e);
    RoutedRowsOf(rows, m, VAL, e);
    RoutedRowsOf(rows, m, TEST, e);
    FilterConcat(Routed(rows, m, TRAIN) + Routed(rows, m, VAL), Routed(rows, m, TEST), Of(e));
    FilterConcat(Routed(rows, m, TRAIN), Routed(rows, m, VAL), Of(e));
  }

  lemma ResplitKeepsAssignments(rows: seq<Row>)
    requires Named(rows)
    ensures Named(Resplit(rows)) && Assignments(Resplit(rows)) == Assignments(rows)
  {
    hide Resplit, GroupSplits, Named, Primary, RowsOf, Experiments, Group, AssignmentOf, LabelOf;
    ResplitIsNamed(rows);
    var out := Resplit(rows);
    forall e | e in Experiments(rows) ensures LabelOf(out, e) == LabelOf(rows, e) {
      ResplitKeepsLabel(rows, e);
    }
    forall e | e in Experiments(rows) ensures AssignmentOf(out, e) == AssignmentOf(rows, e) {
      SameLabelsSameAssignment(rows, out, e);
    }
  }

  lemma ResplitKeepsLabel(rows: seq<Row>, e: string)
    requires Named(rows) && e in Experiments(rows)
    ensures LabelOf(Resplit(rows), e) == LabelOf(rows, e)
  {
    hide Resplit, Named, Primary, RowsOf, Experiments, Assignments;
    ResplitRowsOf(rows, e);
    MarkedKeepsLabels(RowsOf(rows, e), Assignments(rows)[e]);
  }

  lemma SameLabelsSameAssignment(rows: seq<Row>, out: seq<Row>, e: string)
    requires Named(rows) && Named(out) && Experiments(out) == Experiments(rows) && e in Experiments(rows)
    requires forall e2 :: e2 in Experiments(rows) ==> LabelOf(out, e2) == LabelOf(rows, e2)
    ensures AssignmentOf(out, e) == AssignmentOf(rows, e)
  {
    hide LabelOf, GroupSplits, Named, Experiments;
    assert Group(out, LabelOf(rows, e)) == Group(rows, LabelOf(rows, e));
  }

  lemma {:induction false} RoutedConcat(a: seq<Row>, b: seq<Row>, m: map<string, string>, split: string)
    requires Covered(a, m) && Covered(b, m)
    ensures Covered(a + b, m) && Routed(a + b, m, split) == Routed(a, m, split) + Routed(b, m, split)
  {
    assert forall i :: 0 <= i < |a + b| ==> (a + b)[i] == if i < |a| then a[i] else b[i - |a|];
    if b == [] {
      assert a + b == a;
    } else {
      RoutedConcat(a, b[..|b| - 1], m, split);
      assert (a + b)[..|a + b| - 1] == a + b[..|b| - 1];
    }
  }

  ghost predicate InSplit(rows: seq<Row>, m: map<string, string>, split: string)
    requires Covered(rows, m)
  {
    forall i :: 0 <= i < |rows| ==> m[rows[i][EXPERIMENT]] == split && SPLIT in rows[i] && rows[i][SPLIT] == split
  }

  lemma {:induction false} RouteSorted(rows: seq<Row>, m: map<string, string>, split: string, other: string)
    requires Covered(rows, m) && InSplit(rows, m, split)
    ensures Routed(rows, m, other) == if other == split then rows else []
  {
    if rows != [] {
      var front, last := rows[..|rows| - 1], rows[|rows| - 1];
      RouteSorted(front, m, split, other);
      assert last[SPLIT := split] == last;
      assert rows == front + [last];
    }
  }

  lemma RoutedInSplit(rows: seq<Row>, m: map<string, string>, split: string)
    requires Covered(rows, m)
    ensures Covered(Routed(rows, m, split), m) && InSplit(Routed(rows, m, split), m, split)
  {
    RoutedMarks(rows, m, split);
    assert forall i :: 0 <= i < |Routed(rows, m, split)| ==> Routed(rows, m, split)[i] in Routed(rows, m, split);
  }

  lemma RouteAgain(rows: seq<Row>, m: map<string, string>)
    requires Covered(rows, m)
    ensures Covered(AllRouted(rows, m), m) && AllRouted(AllRouted(rows, m), m) == AllRouted(rows, m)
  {
    var a, b, c := Routed(rows, m, TRAIN), Routed(rows, m, VAL), Routed(rows, m, TEST);
    RoutedInSplit(rows, m, TRAIN);
    RoutedInSplit(rows, m, VAL);
    RoutedInSplit(rows, m, TEST);
    hide Routed, InSplit, Covered;
    RouteThree(a, b, c, m, TRAIN);
    RouteThree(a, b, c, m, VAL);
    RouteThree(a, b, c, m, TEST);
  }

  lemma RouteThree(a: seq<Row>, b: seq<Row>, c: seq<Row>, m: map<string, string>, split: string)
    requires Covered(a, m) && Covered(b, m) && Covered(c, m)
    requires InSplit(a, m, TRAIN) && InSplit(b, m, VAL) && InSplit(c, m, TEST)
    ensures Covered(a + b + c, m)
    ensures Routed(a + b + c, m, split) ==
            (if split == TRAIN then a else []) + (if split == VAL then b else []) + (if split == TEST then c else [])
  {
    hide Routed, InSplit, Covered;
    RoutedConcat(a, b, m, split);
    RoutedConcat(a + b, c, m, split);
    RouteSorted(a, m, TRAIN, split);
    RouteSorted(b, m, VAL, split);
    RouteSorted(c, m, TEST, split);
  }

  /** Splitting the output again gives the same rows in the same order. */
  lemma SplitIsIdempotent(rows: seq<Row>)
    requires Named(rows)
    ensures Named(Resplit(rows)) && Resplit(Resplit(rows)) == Resplit(rows)
  {
    AssignmentsCover(rows);
    ResplitKeepsAssignments(rows);
    hide Assignments, AllRouted;
    RouteAgain(rows, Assignments(rows));
  }
}
