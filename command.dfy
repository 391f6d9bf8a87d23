/**
 * `Command._manage_document` as a whole, with terminal and network I/O
 * turned into values (the prompt answers are an input, what is written is
 * part of the outcome), and the grouping done by `Command.__list_index`.
 */
module Command {
  import opened Wrappers
  import opened Text
  import opened Seqs
  import opened Filters
  import opened Domain
  import opened Resolve
  import opened Planning
  import opened Reporting

  /**
   * How the `document` sub-command ends: stopped with exit status 1 before
   * the summary, stopped at the prompt (after the summary, if shown), out of
   * prompt input, or done. `summary` is present iff the pre-run summary is
   * written; `printed` says whether the reports are written (`if verbosity:`).
   */
  datatype Outcome =
    | Aborted(reason: Abort)
    | Declined(summary: Option<seq<SummaryLine>>)
    | NoInput(summary: Option<seq<SummaryLine>>)
    | Completed(summary: Option<seq<SummaryLine>>, reports: seq<Report>, printed: bool)

  /** The expected outcome of a run, given the outcome of its pre-flight part. */
  function OutcomeOf<V>(planned: Result<Plan<V>, Abort>, force: bool, verbosity: nat, answers: seq<string>,
                        update: Updater<V>, action: Action): Outcome {
    match planned
    case Err(a) => Aborted(a)
    case Ok(plan) =>
      var shown := if ShowSummary(verbosity, force) then Some(plan.summary) else None;
      match Confirm(force, answers)
      case Proceed(_) =>
        Completed(shown, seq(|plan.targets|, i requires 0 <= i < |plan.targets| => ReportFor(plan.targets[i], update, action, verbosity)), verbosity != 0)
      case Decline(_) => Declined(shown)
      case EndOfInput => NoInput(shown)
  }

  /**
   * Lines 89-172, the pre-flight part of `Command._manage_document`: every
   * check and every count, run before anything is written.
   */
  method Preflight<V>(reg: Registry, action: Action, indices: seq<string>, objects: seq<string>,
                      filters: seq<(string, V)>, excludes: seq<(string, V)>, count: Option<int>,
                      missing: bool, database: Option<string>, countQs: Counter<V>)
    returns (planned: Result<Plan<V>, Abort>)
    ensures planned == PlanRun(reg, action, indices, objects, filters, excludes, count, missing, database, countQs)
  {
    var filter := Conjunction(filters);
    var exclude := Conjunction(excludes);

    var validated := ValidateObjects(objects, reg.models);
    if validated.Err? {
      return Err(validated.error);
    }
    var validModels := validated.value;

    var selected := reg.indices;
    if indices != [] {
      var unknown := UnknownIndexNames(indices, reg.indices);
      if unknown != {} {
        return Err(UnknownIndices(unknown, Names(reg.indices)));
      }
      selected := KeepRequested(reg.indices, indices);
    }

    var notCreated := NotCreatedNames(selected);
    if notCreated != [] {
      return Err(NotCreated(notCreated));
    }

    if objects != [] {
      var chosen := ChosenModels(reg.models, validModels);
      var all := CollectMappings(reg.raw);
      var selectedMappings := SelectMappings(all, chosen, Names(selected));
      planned := PlanObjects(selectedMappings, filter, exclude, count, countQs);
    } else {
      planned := PlanIndices(selected, filter, exclude, count, missing, action, database, countQs);
    }
  }

  /**
   * `Command._manage_document` (lines 70-252). `submitted` lists the targets
   * handed to `update`, in order: nothing is written unless every check
   * passed, every target was counted and the run was confirmed.
   */
  method ManageDocument<V>(reg: Registry, action: Action, indices: seq<string>, objects: seq<string>, force: bool,
                           filters: seq<(string, V)>, excludes: seq<(string, V)>, verbosity: nat, count: Option<int>,
                           missing: bool, database: Option<string>, answers: seq<string>,
                           countQs: Counter<V>, update: Updater<V>)
    returns (out: Outcome, submitted: seq<Target<V>>)
    ensures var planned := PlanRun(reg, action, indices, objects, filters, excludes, count, missing, database, countQs);
            out == OutcomeOf(planned, force, verbosity, answers, update, action)
            && submitted == if out.Completed? then planned.value.targets else []
  {
    var planned := Preflight(reg, action, indices, objects, filters, excludes, count, missing, database, countQs);
    if planned.Err? {
      return Aborted(planned.error), [];
    }
    var plan := planned.value;
    var shown := if ShowSummary(verbosity, force) then Some(plan.summary) else None;

    var decision := Proceed(0);
    if !force {
      decision := Prompt(answers);
    }
    assert decision == Confirm(force, answers);
    match decision
    case Decline(_) =>
      return Declined(shown), [];
    case EndOfInput =>
      return NoInput(shown), [];
    case Proceed(_) =>
      var reports;
      reports, submitted := Execute(plan.targets, update, action, verbosity);
      assert reports == seq(|plan.targets|, i requires 0 <= i < |plan.targets| => ReportFor(plan.targets[i], update, action, verbosity));
      out := Completed(shown, reports, verbosity != 0);
  }

  /** A run whose names or indices fail validation, or whose counting fails, writes nothing. */
  lemma AbortBeforeWrite<V>(reg: Registry, action: Action, indices: seq<string>, objects: seq<string>, force: bool,
                            filters: seq<(string, V)>, excludes: seq<(string, V)>, verbosity: nat, count: Option<int>,
                            missing: bool, database: Option<string>, answers: seq<string>,
                            countQs: Counter<V>, update: Updater<V>)
    requires PlanRun(reg, action, indices, objects, filters, excludes, count, missing, database, countQs).Err?
    ensures OutcomeOf(PlanRun(reg, action, indices, objects, filters, excludes, count, missing, database, countQs),
                      force, verbosity, answers, update, action).Aborted?
  {
  }

  /**
   * Line 175: once the checks and counts pass, the summary is part of the
   * outcome exactly when the verbosity is not 0 or `force` was not given.
   */
  lemma SummaryShown<V>(plan: Plan<V>, force: bool, verbosity: nat, answers: seq<string>,
                        update: Updater<V>, action: Action)
    ensures var out := OutcomeOf(Ok(plan), force, verbosity, answers, update, action);
            !out.Aborted? && (out.summary.Some? <==> verbosity != 0 || !force)
            && (out.summary.Some? ==> out.summary.value == plan.summary)
  {
  }

  /** Without `force`, a run completes only after a yes/y answer that no no/n answer precedes. */
  lemma CompletedOnlyAfterYes<V>(planned: Result<Plan<V>, Abort>, force: bool, verbosity: nat, answers: seq<string>,
                                 update: Updater<V>, action: Action)
    requires !force && OutcomeOf(planned, force, verbosity, answers, update, action).Completed?
    ensures exists k :: 0 <= k < |answers| && IsYes(answers[k]) && forall j :: 0 <= j < k ==> !IsNo(answers[j])
  {
  }

  /** One line of `list`: the created marker, the index name, and the document count of a created index. */
  datatype ListLine = ListLine(checkbox: string, name: string, documents: Option<nat>)

  /**
   * Line 59: a created index is ticked and shows its document count; an
   * index that does not exist is unticked and shows no count.
   */
  function LineOf(index: IndexRec): ListLine {
    if index.created then ListLine("[X]", index.name, Some(index.docCount)) else ListLine("[ ]", index.name, None)
  }

  /** A listed line names its index, is ticked iff the index exists, and shows the document count exactly then. */
  lemma LineOfShows(index: IndexRec)
    ensures LineOf(index).name == index.name
    ensures LineOf(index).checkbox == (if index.created then "[X]" else "[ ]")
    ensures LineOf(index).documents.Some? <==> index.created
    ensures LineOf(index).documents.Some? ==> LineOf(index).documents.value == index.docCount
  {
  }

  /**
   * Line 55: the application label is the second-to-last dot-separated
   * component of the document's module path; a path without a dot raises
   * IndexError, modelled as `None`.
   */
  function AppLabel(modulePath: string): (r: Option<string>)
    ensures r.Some? <==> Count(modulePath, '.') >= 1
    ensures r.Some? ==> '.' !in r.value
  {
    var parts := Split(modulePath, '.');
    if |parts| >= 2 then Some(parts[|parts| - 2]) else None
  }

  /**
   * The label is the component between the last two dots, or between the
   * start and the only dot: the path is some prefix ending in a dot (or
   * empty), the label, a dot, and a last component without a dot.
   */
  lemma AppLabelIsSecondToLast(modulePath: string)
    requires AppLabel(modulePath).Some?
    ensures exists pre, post :: modulePath == pre + AppLabel(modulePath).value + "." + post && '.' !in post
                                && (pre == [] || pre[|pre| - 1] == '.')
  {
    var parts := Split(modulePath, '.');
    var n := |parts|;
    JoinSplit(modulePath, '.');
    assert parts == parts[..n - 2] + [parts[n - 2]] + [parts[n - 1]];
    JoinLastTwo(parts[..n - 2], parts[n - 2], parts[n - 1], '.');
    var pre := if n == 2 then [] else Join(parts[..n - 2], '.') + ['.'];
    assert modulePath == pre + parts[n - 2] + "." + parts[n - 1];
  }

  /** The `list` lines of the indices whose document lives in application `app`, in registry order. */
  function LinesFor(indices: seq<IndexRec>, app: string): seq<ListLine> {
    if indices == [] then []
    else
      var last := indices[|indices| - 1];
      LinesFor(indices[..|indices| - 1], app) + if AppLabel(last.document.modulePath) == Some(app) then [LineOf(last)] else []
  }

  /** The applications in order of first appearance, and the lines grouped per application. */
  datatype Listing = Listing(apps: seq<string>, groups: map<string, seq<ListLine>>)

  /**
   * Lines 52-59: the grouping loop. The first index whose module path has no
   * dot stops the listing with the IndexError, reported as that path.
   */
  function ListingOf(indices: seq<IndexRec>): (r: Result<Listing, string>)
    ensures r.Ok? ==> Distinct(r.value.apps) && forall a :: a in r.value.apps <==> a in r.value.groups
  {
    if indices == [] then Ok(Listing([], map[]))
    else
      var p := indices[..|indices| - 1];
      var last := indices[|indices| - 1];
      match ListingOf(p)
      case Err(m) => Err(m)
      case Ok(l) =>
        match AppLabel(last.document.modulePath)
        case None => Err(last.document.modulePath)
        case Some(app) =>
          var sofar := if app in l.groups then l.groups[app] else [];
          Ok(Listing(if app in l.groups then l.apps else l.apps + [app], l.groups[app := sofar + [LineOf(last)]]))
  }

  /** The listing fails iff some index's module path has no dot. */
  lemma {:induction false} ListingOkIff(indices: seq<IndexRec>)
    ensures ListingOf(indices).Ok? <==> forall i :: 0 <= i < |indices| ==> AppLabel(indices[i].document.modulePath).Some?
  {
    if indices != [] {
      var p := indices[..|indices| - 1];
      assert forall i :: 0 <= i < |p| ==> p[i] == indices[i];
      ListingOkIff(p);
    }
  }

  /** Each application's group holds exactly the lines of its indices, in registry order; no group is empty. */
  lemma {:induction false} ListingGroups(indices: seq<IndexRec>)
    requires ListingOf(indices).Ok?
    ensures forall a :: a in ListingOf(indices).value.groups ==>
              ListingOf(indices).value.groups[a] == LinesFor(indices, a) && LinesFor(indices, a) != []
  {
    if indices != [] {
      var p := indices[..|indices| - 1];
      var last := indices[|indices| - 1];
      ListingGroups(p);
      var l := ListingOf(p).value;
      var app := AppLabel(last.document.modulePath).value;
      forall a | a in ListingOf(indices).value.groups
        ensures ListingOf(indices).value.groups[a] == LinesFor(indices, a) && LinesFor(indices, a) != []
      {
        if a == app && app !in l.groups {
          LinesForAbsent(p, app);
        }
      }
    }
  }

  /** Every index of a successful listing is grouped under its application. */
  lemma {:induction false} ListingCovers(indices: seq<IndexRec>)
    requires ListingOf(indices).Ok?
    ensures forall i :: 0 <= i < |indices| ==>
              AppLabel(indices[i].document.modulePath).Some?
              && AppLabel(indices[i].document.modulePath).value in ListingOf(indices).value.groups
  {
    if indices != [] {
      var p := indices[..|indices| - 1];
      ListingCovers(p);
      assert forall i :: 0 <= i < |p| ==> p[i] == indices[i];
    }
  }

  /** The application labels of the indices, in registry order (indices without a label are skipped). */
  function Labels(indices: seq<IndexRec>): seq<string> {
    if indices == [] then []
    else
      var last := indices[|indices| - 1];
      Labels(indices[..|indices| - 1]) + match AppLabel(last.document.modulePath) case Some(a) => [a] case None => []
  }

  /** The applications are listed in the order their first index appears in the registry. */
  lemma {:induction false} ListingApps(indices: seq<IndexRec>)
    requires ListingOf(indices).Ok?
    ensures ListingOf(indices).value.apps == Dedup(Labels(indices))
  {
    if indices != [] {
      var p := indices[..|indices| - 1];
      var last := indices[|indices| - 1];
      ListingApps(p);
      var app := AppLabel(last.document.modulePath).value;
      var ls := Labels(indices);
      assert ls == Labels(p) + [app];
      assert ls[..|ls| - 1] == Labels(p) && ls[|ls| - 1] == app;
    }
  }

  lemma {:induction false} LinesForAbsent(indices: seq<IndexRec>, app: string)
    requires ListingOf(indices).Ok? && app !in ListingOf(indices).value.groups
    ensures LinesFor(indices, app) == []
  {
    if indices != [] {
      var p := indices[..|indices| - 1];
      assert forall i :: 0 <= i < |p| ==> p[i] == indices[i];
      LinesForAbsent(p, app);
    }
  }

  /** `Command.__list_index`'s grouping loop, with the engine's answers read from the records. */
  method ListIndices(indices: seq<IndexRec>) returns (r: Result<Listing, string>)
    ensures r == ListingOf(indices)
  {
    var apps: seq<string> := [];
    var groups: map<string, seq<ListLine>> := map[];
    for i := 0 to |indices|
      invariant ListingOf(indices[..i]) == Ok(Listing(apps, groups))
    {
      ghost var q := indices[..i + 1];
      assert q[..|q| - 1] == indices[..i] && q[|q| - 1] == indices[i];
      var appLabel := AppLabel(indices[i].document.modulePath);
      if appLabel.None? {
        ListingPrefixErr(indices, i + 1);
        return Err(indices[i].document.modulePath);
      }
      var app := appLabel.value;
      if app !in groups {
        apps := apps + [app];
      }
      var sofar := if app in groups then groups[app] else [];
      groups := groups[app := sofar + [LineOf(indices[i])]];
    }
    assert indices[..|indices|] == indices;
    return Ok(Listing(apps, groups));
  }

  /** Once a prefix of the indices fails, the whole listing fails with the same path. */
  lemma {:induction false} ListingPrefixErr(indices: seq<IndexRec>, n: nat)
    requires n <= |indices| && ListingOf(indices[..n]).Err?
    ensures ListingOf(indices) == ListingOf(indices[..n])
    decreases |indices| - n
  {
    if n < |indices| {
      assert indices[..n + 1][..n] == indices[..n];
      ListingPrefixErr(indices, n + 1);
    } else {
      assert indices[..n] == indices;
    }
  }
}
