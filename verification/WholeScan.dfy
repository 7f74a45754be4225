/**
 The whole scan: the prefetch pipeline over many files together with the pipeline on each file. A
 scan that ends without an error has delivered, file after file, the simple specification's rows.
 */
module WholeScan {
  import opened RowFilters
  import opened Tables
  import opened Pruning
  import opened ReadPath
  import opened FileScan
  import opened Prefetch

  predicate AllOk(items: seq<Item>) {
    forall i {:trigger items[i]} :: 0 <= i < |items| ==> items[i].Ok?
  }

  function Values(items: seq<Item>): (r: seq<Batch>)
    requires AllOk(items)
    ensures |r| == |items|
  {
    seq(|items|, i requires 0 <= i < |items| => items[i].value)
  }

  lemma {:induction false} ErrorFreeFile(results: seq<Item>)
    requires AllOk(UpToError(results))
    ensures UpToError(results) == results
  {
    if results != [] {
      assert UpToError(results)[0] == results[0];
      assert UpToError(results) == [results[0]] + UpToError(results[1..]);
      AllOkSuffix(UpToError(results), [results[0]], UpToError(results[1..]));
      ErrorFreeFile(results[1..]);
    }
  }

  lemma AllOkSuffix(items: seq<Item>, a: seq<Item>, b: seq<Item>)
    requires AllOk(items) && items == a + b
    ensures AllOk(a) && AllOk(b)
  {
    forall i | 0 <= i < |a| ensures a[i].Ok? {
      assert items[i] == a[i];
    }
    forall i | 0 <= i < |b| ensures b[i].Ok? {
      assert items[|a| + i] == b[i];
    }
  }

  lemma RefusedTargetIsError(ts: seq<Target>)
    requires ts != [] && ts[0].CannotOpen?
    ensures !AllOk(Sequential(ts))
  {
    assert Sequential(ts)[0].Err?;
  }

  /** Without an error, the sequential scan is one file after the other. */
  lemma {:induction false} ErrorFreeSequence(ts: seq<Target>, t: Target)
    requires AllOk(Sequential(ts + [t]))
    ensures AllOk(Sequential(ts)) && t.Opens? && AllOk(t.results)
    ensures Sequential(ts + [t]) == Sequential(ts) + t.results
  {
    if ts == [] {
      LastTarget(t);
    } else {
      var first := ts[0];
      assert (ts + [t])[0] == first && (ts + [t])[1..] == ts[1..] + [t];
      if first.CannotOpen? {
        RefusedTargetIsError(ts + [t]);
      } else {
        var all := Sequential(ts + [t]);
        AllOkSuffix(all, UpToError(first.results), Sequential(ts[1..] + [t]));
        ErrorFreeSequence(ts[1..], t);
        assert Sequential(ts) == UpToError(first.results) + Sequential(ts[1..]);
        AllOkJoin(UpToError(first.results), Sequential(ts[1..]));
      }
    }
  }

  lemma LastTarget(t: Target)
    requires AllOk(Sequential([] + [t]))
    ensures t.Opens? && AllOk(t.results) && Sequential([] + [t]) == Sequential([]) + t.results
  {
    assert [] + [t] == [t] && [t][1..] == [];
    if t.CannotOpen? {
      RefusedTargetIsError([t]);
    }
    assert t.Opens? ==> Sequential([t]) == UpToError(t.results);
    ErrorFreeFile(t.results);
  }

  lemma AllOkJoin(a: seq<Item>, b: seq<Item>)
    requires AllOk(a) && AllOk(b)
    ensures AllOk(a + b)
  {
  }

  lemma {:induction false} StackConcat(fields: seq<Field>, a: seq<Batch>, b: seq<Batch>)
    requires forall j :: 0 <= j < |a| ==> |a[j].columns| == |fields|
    requires forall j :: 0 <= j < |b| ==> |b[j].columns| == |fields|
    ensures Stack(fields, a + b) == Append(Stack(fields, a), Stack(fields, b))
  {
    if b == [] {
      assert a + b == a;
      var s := Stack(fields, a);
      assert forall k :: 0 <= k < |fields| ==> s.columns[k].cells + [] == s.columns[k].cells;
    } else {
      var n := |b| - 1;
      StackConcat(fields, a, b[..n]);
      assert a + b == (a + b[..n]) + [b[n]] && b == b[..n] + [b[n]];
      StackSnoc(fields, a + b[..n], b[n]);
      AppendAssociates(Stack(fields, a), Stack(fields, b[..n]), b[n]);
    }
  }

  lemma AppendAssociates(a: Batch, b: Batch, c: Batch)
    requires |a.columns| == |b.columns| == |c.columns|
    ensures Append(Append(a, b), c) == Append(a, Append(b, c))
  {
    assert forall k :: 0 <= k < |a.columns| ==>
      (a.columns[k].cells + b.columns[k].cells) + c.columns[k].cells == a.columns[k].cells + (b.columns[k].cells + c.columns[k].cells);
  }

  /** The results of processing the batches of a file are what the loop body makes of them. */
  predicate ItemsOf(c: Context, plan: Plan, f: StoredFile, cut: seq<Batch>, results: seq<Item>)
    requires GoodPlan(plan)
  {
    && |results| == |cut|
    && forall j {:trigger results[j]} :: 0 <= j < |results| ==> results[j].Ok? ==> DeliveredFor(c, plan, f, cut[j], results[j].value)
  }

  /** The targets are files, cut in some way, that may or may not open. */
  predicate TargetsOf(c: Context, plan: Plan, files: seq<StoredFile>, cuts: seq<seq<Batch>>, targets: seq<Target>)
    requires GoodPlan(plan)
  {
    && |files| == |cuts| == |targets|
    && (forall n {:trigger files[n]} :: 0 <= n < |files| ==> Regular(files[n].table) && ScanCut(plan, files[n], cuts[n]))
    && (forall n {:trigger targets[n]} :: 0 <= n < |targets| && targets[n].Opens? ==>
          ItemsOf(c, plan, files[n], cuts[n], targets[n].results))
  }

  function ScanResults(c: Context, plan: Plan, files: seq<StoredFile>): (r: seq<Batch>)
    requires GoodPlan(plan) && forall n {:trigger files[n]} :: 0 <= n < |files| ==> Regular(files[n].table)
    ensures |r| == |files| && forall n :: 0 <= n < |files| ==> r[n] == ScanResult(c, plan, files[n])
  {
    seq(|files|, n requires 0 <= n < |files| => ScanResult(c, plan, files[n]))
  }

  lemma FileDelivered(c: Context, plan: Plan, f: StoredFile, cut: seq<Batch>, results: seq<Item>)
    requires GoodPlan(plan) && Regular(f.table) && ScanCut(plan, f, cut)
    requires ItemsOf(c, plan, f, cut, results) && AllOk(results)
    ensures forall j :: 0 <= j < |results| ==> |Values(results)[j].columns| == |plan.schema|
    ensures Stack(plan.schema, Values(results)) == ScanResult(c, plan, f)
  {
    var delivered := Values(results);
    forall j | 0 <= j < |delivered| ensures DeliveredFor(c, plan, f, cut[j], delivered[j]) {
      assert results[j].Ok?;
    }
    AllDelivered(c, plan, f, cut, delivered);
  }

  predicate Fits(plan: Plan, bs: seq<Batch>) {
    forall j :: 0 <= j < |bs| ==> |bs[j].columns| == |plan.schema|
  }

  /** Everything delivered for the targets makes up the results of the files. */
  predicate Delivers(c: Context, plan: Plan, files: seq<StoredFile>, targets: seq<Target>)
    requires GoodPlan(plan) && forall n {:trigger files[n]} :: 0 <= n < |files| ==> Regular(files[n].table)
  {
    && AllOk(Sequential(targets))
    && Fits(plan, Values(Sequential(targets)))
    && Stack(plan.schema, Values(Sequential(targets))) == Stack(plan.schema, ScanResults(c, plan, files))
  }

  /** The items of one more file behind those of the files before it. */
  lemma DeliversMore(plan: Plan, a: seq<Item>, b: seq<Item>, results: seq<Batch>, result: Batch)
    requires AllOk(a) && AllOk(b) && Fits(plan, Values(a)) && Fits(plan, Values(b)) && Fits(plan, results)
    requires Stack(plan.schema, Values(a)) == Stack(plan.schema, results) && Stack(plan.schema, Values(b)) == result
    ensures |result.columns| == |plan.schema| && Fits(plan, results + [result])
    ensures AllOk(a + b) && Fits(plan, Values(a + b))
    ensures Stack(plan.schema, Values(a + b)) == Stack(plan.schema, results + [result])
  {
    ValuesJoin(a, b);
    StackBoth(plan.schema, Values(a), Values(b), results, result);
  }

  lemma DeliversNext(c: Context, plan: Plan, files: seq<StoredFile>, f: StoredFile, cut: seq<Batch>, targets: seq<Target>, t: Target)
    requires GoodPlan(plan) && (forall n {:trigger files[n]} :: 0 <= n < |files| ==> Regular(files[n].table))
    requires Delivers(c, plan, files, targets)
    requires Regular(f.table) && ScanCut(plan, f, cut)
    requires AllOk(Sequential(targets + [t])) && (t.Opens? ==> ItemsOf(c, plan, f, cut, t.results))
    ensures forall n {:trigger (files + [f])[n]} :: 0 <= n < |files + [f]| ==> Regular((files + [f])[n].table)
    ensures Delivers(c, plan, files + [f], targets + [t])
  {
    ErrorFreeSequence(targets, t);
    FileDelivered(c, plan, f, cut, t.results);
    RegularSnoc(files, f);
    ResultsSnoc(c, plan, files, f);
    DeliversMore(plan, Sequential(targets), t.results, ScanResults(c, plan, files), ScanResult(c, plan, f));
  }

  lemma RegularSnoc(files: seq<StoredFile>, f: StoredFile)
    requires (forall n {:trigger files[n]} :: 0 <= n < |files| ==> Regular(files[n].table)) && Regular(f.table)
    ensures forall n {:trigger (files + [f])[n]} :: 0 <= n < |files + [f]| ==> Regular((files + [f])[n].table)
  {
  }

  lemma ResultsSnoc(c: Context, plan: Plan, files: seq<StoredFile>, f: StoredFile)
    requires GoodPlan(plan) && Regular(f.table)
    requires forall n {:trigger files[n]} :: 0 <= n < |files| ==> Regular(files[n].table)
    requires forall n {:trigger (files + [f])[n]} :: 0 <= n < |files + [f]| ==> Regular((files + [f])[n].table)
    ensures ScanResults(c, plan, files + [f]) == ScanResults(c, plan, files) + [ScanResult(c, plan, f)]
  {
  }

  lemma ValuesJoin(a: seq<Item>, b: seq<Item>)
    requires AllOk(a) && AllOk(b)
    ensures AllOk(a + b) && Values(a + b) == Values(a) + Values(b)
  {
  }

  lemma StackBoth(fields: seq<Field>, a: seq<Batch>, b: seq<Batch>, results: seq<Batch>, result: Batch)
    requires forall j :: 0 <= j < |a| ==> |a[j].columns| == |fields|
    requires forall j :: 0 <= j < |b| ==> |b[j].columns| == |fields|
    requires forall j :: 0 <= j < |results| ==> |results[j].columns| == |fields|
    requires Stack(fields, a) == Stack(fields, results) && Stack(fields, b) == result
    ensures Stack(fields, a + b) == Stack(fields, results + [result])
  {
    StackConcat(fields, a, b);
    StackSnoc(fields, results, result);
  }

  lemma LastOneOf<T>(xs: seq<T>)
    requires xs != []
    ensures xs == xs[..|xs| - 1] + [xs[|xs| - 1]]
  {
  }

  lemma TargetsBefore(c: Context, plan: Plan, files: seq<StoredFile>, cuts: seq<seq<Batch>>, targets: seq<Target>)
    requires GoodPlan(plan) && TargetsOf(c, plan, files, cuts, targets) && targets != []
    ensures var n := |targets| - 1;
            && TargetsOf(c, plan, files[..n], cuts[..n], targets[..n])
            && Regular(files[n].table) && ScanCut(plan, files[n], cuts[n])
            && (targets[n].Opens? ==> ItemsOf(c, plan, files[n], cuts[n], targets[n].results))
  {
  }

  lemma NothingDelivered(c: Context, plan: Plan)
    requires GoodPlan(plan)
    ensures Delivers(c, plan, [], [])
  {
  }

  lemma DeliversLast(c: Context, plan: Plan, files: seq<StoredFile>, cuts: seq<seq<Batch>>, targets: seq<Target>)
    requires GoodPlan(plan) && TargetsOf(c, plan, files, cuts, targets) && targets != [] && AllOk(Sequential(targets))
    requires TargetsOf(c, plan, files[..|targets| - 1], cuts[..|targets| - 1], targets[..|targets| - 1])
    requires Delivers(c, plan, files[..|targets| - 1], targets[..|targets| - 1])
    ensures Delivers(c, plan, files, targets)
  {
    var n := |targets| - 1;
    TargetsBefore(c, plan, files, cuts, targets);
    LastOneOf(targets);
    LastOneOf(files);
    DeliversNext(c, plan, files[..n], files[n], cuts[n], targets[..n], targets[n]);
  }

  lemma {:induction false} ErrorFreeScanIsResult(c: Context, plan: Plan, files: seq<StoredFile>, cuts: seq<seq<Batch>>, targets: seq<Target>)
    requires GoodPlan(plan) && TargetsOf(c, plan, files, cuts, targets) && AllOk(Sequential(targets))
    ensures Delivers(c, plan, files, targets)
    decreases |targets|
  {
    if targets == [] {
      NothingDelivered(c, plan);
    } else {
      var n := |targets| - 1;
      TargetsBefore(c, plan, files, cuts, targets);
      LastOneOf(targets);
      ErrorFreeSequence(targets[..n], targets[n]);
      ErrorFreeScanIsResult(c, plan, files[..n], cuts[..n], targets[..n]);
      DeliversLast(c, plan, files, cuts, targets);
    }
  }

  /**
   End to end: whatever the interleaving of prefetching, processing and consumption, and whatever
   the way each file is cut into batches, a scan that ran to its end without an error delivered the
   selected rows of the files, masked and padded, in the order of the targets.
   */
  lemma ScanDeliversSpecification(c: Context, plan: Plan, files: seq<StoredFile>, cuts: seq<seq<Batch>>, targets: seq<Target>,
                                  events: seq<Event>)
    requires GoodPlan(plan) && TargetsOf(c, plan, files, cuts, targets) && Run(Initial(targets), events)
    requires var s := After(Initial(targets), events);
             Done(s) && s.consumer.present && AllOk(s.consumer.delivered)
    ensures var delivered := Values(After(Initial(targets), events).consumer.delivered);
            && Fits(plan, delivered)
            && Stack(plan.schema, delivered) == Stack(plan.schema, ScanResults(c, plan, files))
  {
    PipelineRefinesSequentialScan(targets, events);
    ErrorFreeScanIsResult(c, plan, files, cuts, targets);
  }
}
