/** The loops of phase3_split_dataset.py, proved to compute the split of module Dataset. */
module Split {
  import opened Listing
  import opened Order
  import opened Dataset

  datatype Error = NoRows | MissingColumn(name: string)
  datatype Result<+T> = Ok(value: T) | Err(error: Error)

  /** windows_all.csv, the three split files, and the assignments of the manifest. */
  datatype Output = Output(all: seq<Row>, train: seq<Row>, val: seq<Row>, test: seq<Row>, assignments: map<string,
                           string>)

  /** Groups of rows: those seen so far of each experiment. */
  ghost predicate Grouped(groups: map<string, seq<Row>>, rows: seq<Row>)
    requires Named(rows)
  {
    groups.Keys == Experiments(rows) && forall e :: e in groups ==> groups[e] == RowsOf(rows, e)
  }

  lemma {:induction false} NoOtherRows(rows: seq<Row>, e: string)
    requires Named(rows) && e !in Experiments(rows)
    ensures RowsOf(rows, e) == []
  {
    if rows != [] {
      var front, last := rows[..|rows| - 1], rows[|rows| - 1];
      ExperimentsOneMore(front, last);
      assert rows == front + [last];
      NoOtherRows(front, e);
    }
  }

  lemma ExperimentsOneMore(rows: seq<Row>, r: Row)
    requires Named(rows) && EXPERIMENT in r
    ensures Named(rows + [r]) && Experiments(rows + [r]) == Experiments(rows) + {r[EXPERIMENT]}
  {
    hide EXPERIMENT;
    var more := rows + [r];
    assert forall i :: 0 <= i < |rows| ==> more[i] == rows[i];
    assert more[|rows|] == r;
    forall e | e in Experiments(rows) ensures e in Experiments(more) {
      var i :| 0 <= i < |rows| && rows[i][EXPERIMENT] == e;
      assert more[i][EXPERIMENT] == e;
    }
  }

  lemma GroupOneMore(groups: map<string, seq<Row>>, rows: seq<Row>, r: Row)
    requires Named(rows) && EXPERIMENT in r && Grouped(groups, rows)
    ensures Named(rows + [r])
    ensures var e := r[EXPERIMENT];
            Grouped(groups[e := (if e in groups then groups[e] else []) + [r]], rows + [r])
  {
    hide EXPERIMENT, Experiments;
    ExperimentsOneMore(rows, r);
    var e0 := r[EXPERIMENT];
    if e0 !in groups { NoOtherRows(rows, e0); }
    forall e | e in groups || e == e0 ensures RowsOf(rows + [r], e) == if e == e0 then RowsOf(rows, e) + [r]
        else RowsOf(rows, e) {
      FilterOneMore(rows, r, Of(e));
    }
  }

  method GroupRows(rows: seq<Row>) returns (groups: map<string, seq<Row>>)
    requires Named(rows)
    ensures Grouped(groups, rows)
  {
    hide EXPERIMENT, Grouped;
    groups := map[];
    NothingGrouped();
    var i := 0;
    while i < |rows|
      invariant 0 <= i <= |rows| && Grouped(groups, rows[..i])
    {
      var e := rows[i][EXPERIMENT];
      GroupOneMore(groups, rows[..i], rows[i]);
      assert rows[..i + 1] == rows[..i] + [rows[i]];
      groups := groups[e := (if e in groups then groups[e] else []) + [rows[i]]];
      i := i + 1;
    }
    assert rows[..i] == rows;
  }

  lemma NothingGrouped()
    ensures Grouped(map[], [])
  {
  }

  /** The experiments of a set with one label. */
  ghost function Labelled(rows: seq<Row>, done: set<string>, l: string): set<string> {
    set e | e in done && LabelOf(rows, e) == l
  }

  ghost function LabelsOf(rows: seq<Row>, done: set<string>): set<string> {
    set e | e in done :: LabelOf(rows, e)
  }

  ghost predicate Binned(bins: map<string, seq<string>>, rows: seq<Row>, done: set<string>) {
    bins.Keys == LabelsOf(rows, done) && forall l :: l in bins ==> Lists(bins[l], Labelled(rows, done, l))
  }

  lemma BinOneMore(bins: map<string, seq<string>>, rows: seq<Row>, done: set<string>, e: string)
    requires Binned(bins, rows, done) && e !in done
    ensures var l := LabelOf(rows, e);
            Binned(bins[l := (if l in bins then bins[l] else []) + [e]], rows, done + {e})
  {
    hide LabelOf, Lists;
    var l0 := LabelOf(rows, e);
    var more := done + {e};
    assert Labelled(rows, more, l0) == Labelled(rows, done, l0) + {e};
    assert forall l :: l != l0 ==> Labelled(rows, more, l) == Labelled(rows, done, l);
    if l0 !in bins {
      assert Labelled(rows, done, l0) == {};
      ListsNothing<string>();
    }
    ListsAppend(if l0 in bins then bins[l0] else [], Labelled(rows, done, l0), e);
    assert LabelsOf(rows, more) == LabelsOf(rows, done) + {l0};
  }

  method BinExperiments(rows: seq<Row>, groups: map<string, seq<Row>>) returns (bins: map<string, seq<string>>)
    requires Named(rows) && Grouped(groups, rows)
    ensures Binned(bins, rows, Experiments(rows))
  {
    bins := map[];
    var rest := groups.Keys;
    while rest != {}
      invariant rest <= groups.Keys && Binned(bins, rows, groups.Keys - rest)
      decreases rest
    {
      var e :| e in rest;
      var primary := PrimaryLabelForExperiment(groups[e]);
      BinOneMore(bins, rows, groups.Keys - rest, e);
      assert groups.Keys - (rest - {e}) == groups.Keys - rest + {e};
      bins := bins[primary := (if primary in bins then bins[primary] else []) + [e]];
      rest := rest - {e};
    }
    assert groups.Keys - {} == groups.Keys;
  }

  /** The assignments of the experiments whose labels are done. */
  ghost function AssignedFor(rows: seq<Row>, labels: set<string>): map<string, string>
    requires Named(rows)
  {
    map e | e in Experiments(rows) && LabelOf(rows, e) in labels :: AssignmentOf(rows, e)
  }

  lemma AssignOneMore(rows: seq<Row>, labels: set<string>, l: string)
    requires Named(rows)
    ensures AssignedFor(rows, labels + {l}) == AssignedFor(rows, labels) + GroupSplits(Group(rows, l))
  {
    hide LabelOf, GroupSplits, Experiments, Named;
    GroupSplitKeys(Group(rows, l));
  }

  lemma GroupSplitKeys(s: set<string>)
    ensures GroupSplits(s).Keys == s
  {
  }

  method AssignSplits(rows: seq<Row>, bins: map<string, seq<string>>) returns (assignments: map<string, string>)
    requires Named(rows) && Binned(bins, rows, Experiments(rows))
    ensures assignments == Assignments(rows)
  {
    hide LabelOf, GroupSplits, AssignmentOf, Lists, Ascending, TextLess;
    assignments := map[];
    var keys := ListSet(bins.Keys);
    var labels := SortTexts(bins.Keys, keys);
    var i := 0;
    while i < |labels|
      invariant 0 <= i <= |labels| && assignments == AssignedFor(rows, Elements(labels[..i]))
    {
      var l := labels[i];
      assert l in Elements(labels);
      assert Labelled(rows, Experiments(rows), l) == Group(rows, l);
      var group := SplitGroup(Group(rows, l), bins[l]);
      ElementsPrefix(labels, i);
      AssignOneMore(rows, Elements(labels[..i]), l);
      assignments := assignments + group;
      i := i + 1;
    }
    assert labels[..i] == labels;
  }

  method RouteRows(rows: seq<Row>, m: map<string, string>) returns (train: seq<Row>, val: seq<Row>, test: seq<Row>)
    requires Covered(rows, m) && Splits(m)
    ensures train == Routed(rows, m, TRAIN) && val == Routed(rows, m, VAL) && test == Routed(rows, m, TEST)
  {
    SplitsDiffer();
    hide EXPERIMENT, SPLIT, TRAIN, VAL, TEST;
    train, val, test := [], [], [];
    var i := 0;
    while i < |rows|
      invariant 0 <= i <= |rows|
      invariant train == Routed(rows[..i], m, TRAIN) && val == Routed(rows[..i], m, VAL)
      invariant test == Routed(rows[..i], m, TEST)
    {
      var split := m[rows[i][EXPERIMENT]];
      var row := rows[i][SPLIT := split];
      assert rows[..i + 1][..i] == rows[..i];
      if split == TRAIN {
        train := train + [row];
      } else if split == VAL {
        val := val + [row];
      } else {
        test := test + [row];
      }
      i := i + 1;
    }
    assert rows[..i] == rows;
  }

  /**
   main. No rows, no experiment_id column and no split column to overwrite are errors; `file` is
   windows_all.csv afterwards. It is opened for writing before the missing split column shows, so
   that error leaves it with its header alone.
   */
  method SplitDataset(t: Table) returns (r: Result<Output>, file: Table)
    requires Rectangular(t)
    ensures if t.rows == [] then r == Err(NoRows) && file == t
            else if EXPERIMENT !in t.fields then r == Err(MissingColumn(EXPERIMENT)) && file == t
            else if SPLIT !in t.fields then r == Err(MissingColumn(SPLIT)) && file == t.(rows := [])
            else
              && Named(t.rows) && r.Ok? && r.value.assignments == Assignments(t.rows)
              && file == t.(rows := r.value.all)
              && r.value.all == Resplit(t.rows) == r.value.train + r.value.val + r.value.test
              && (forall x :: x in r.value.train ==> SPLIT in x && x[SPLIT] == TRAIN)
              && (forall x :: x in r.value.val ==> SPLIT in x && x[SPLIT] == VAL)
              && (forall x :: x in r.value.test ==> SPLIT in x && x[SPLIT] == TEST)
  {
    hide EXPERIMENT, SPLIT, TRAIN, VAL, TEST, Routed, Assignments, Grouped, Binned, Splits;
    if |t.rows| == 0 { return Err(NoRows), t; }
    if EXPERIMENT !in t.fields { return Err(MissingColumn(EXPERIMENT)), t; }
    assert EXPERIMENT in Elements(t.fields);
    var groups := GroupRows(t.rows);
    var bins := BinExperiments(t.rows, groups);
    var assignments := AssignSplits(t.rows, bins);
    AssignmentsCover(t.rows);
    AssignmentsAreSplits(t.rows);
    var train, val, test := RouteRows(t.rows, assignments);
    file := t.(rows := []);
    if SPLIT !in t.fields { return Err(MissingColumn(SPLIT)), file; }
    RoutedMarks(t.rows, assignments, TRAIN);
    RoutedMarks(t.rows, assignments, VAL);
    RoutedMarks(t.rows, assignments, TEST);
    file := t.(rows := train + val + test);
    return Ok(Output(file.rows, train, val, test, assignments)), file;
  }

  lemma {:induction false} RoutedKeys(rows: seq<Row>, m: map<string, string>, split: string, keys: set<string>)
    requires Covered(rows, m) && SPLIT in keys && forall i :: 0 <= i < |rows| ==> rows[i].Keys == keys
    ensures forall i :: 0 <= i < |Routed(rows, m, split)| ==> Routed(rows, m, split)[i].Keys == keys
  {
    hide EXPERIMENT, SPLIT;
    if rows != [] {
      RoutedKeys(rows[..|rows| - 1], m, split, keys);
      var last := rows[|rows| - 1];
      assert last[SPLIT := split].Keys == last.Keys + {SPLIT};
    }
  }

  /** A second run on the first run's windows_all.csv accepts it and writes the same rows in the same order. */
  lemma SecondRunChangesNothing(t: Table)
    requires Rectangular(t) && EXPERIMENT in t.fields && SPLIT in t.fields && Named(t.rows)
    ensures var again := t.(rows := Resplit(t.rows));
            Rectangular(again) && Named(again.rows) && |again.rows| == |t.rows| && Resplit(again.rows) == again.rows
  {
    hide EXPERIMENT, SPLIT, TRAIN, VAL, TEST, Routed, Assignments;
    assert SPLIT in Elements(t.fields);
    SplitIsIdempotent(t.rows);
    SplitConservesRows(t.rows);
    assert |multiset(Unsplit(Resplit(t.rows)))| == |multiset(Unsplit(t.rows))|;
    AssignmentsCover(t.rows);
    RoutedKeys(t.rows, Assignments(t.rows), TRAIN, Elements(t.fields));
    RoutedKeys(t.rows, Assignments(t.rows), VAL, Elements(t.fields));
    RoutedKeys(t.rows, Assignments(t.rows), TEST, Elements(t.fields));
  }
}
