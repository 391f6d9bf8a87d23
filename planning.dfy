/**
 * Planning in `Command._manage_document`: one kwargs record per target,
 * the `--missing` exclude in the index branch, the pre-run count of every
 * target (a `FieldError` from the ORM stops the command), and the whole
 * pre-flight sequence as one specification function, `PlanRun`.
 */
module Planning {
  import opened Wrappers
  import opened Filters
  import opened Domain
  import opened Resolve

  /** Counting a document's queryset under a filter, an exclude and a limit: a count, or the message of a `FieldError`. */
  type Counter<!V> = (Document, Option<Q<V>>, Option<Q<V>>, Option<int>) -> Result<nat, string>

  /** The targets to process and the pre-run summary, one line per target. */
  datatype Plan<V> = Plan(targets: seq<Target<V>>, summary: seq<SummaryLine>)

  /** Lines 158-161: the exclude of one index, augmented only for `--missing` with the INDEX action. */
  function MissingExclude<V>(exclude: Option<Q<V>>, missing: bool, action: Action, ids: seq<string>): (r: Option<Q<V>>)
    ensures !(missing && action == Index) ==> r == exclude
    ensures missing && action == Index ==>
              r.Some? && Leaves(r.value) == (if exclude.Some? then Leaves(exclude.value) else []) + [PkIn(ids)]
  {
    if missing && action == Index then Some(WithMissing(exclude, ids)) else exclude
  }

  /** Line 148: the objects branch pairs each selected document class with the same kwargs. */
  function ObjectTargets<V>(selected: seq<DocMapping>, f: Option<Q<V>>, e: Option<Q<V>>, c: Option<int>): (r: seq<Target<V>>)
    ensures |r| == |selected|
  {
    seq(|selected|, i requires 0 <= i < |selected| => Target(selected[i].document, None, ObjectKwargs(f, e, c)))
  }

  function IndexTarget<V>(index: IndexRec, f: Option<Q<V>>, e: Option<Q<V>>, c: Option<int>,
                          missing: bool, action: Action, database: Option<string>): Target<V> {
    Target(index.document, Some(index.name), IndexKwargs(database, f, MissingExclude(e, missing, action, index.storedIds), c))
  }

  /** Line 165: the index branch pairs the first document class of each index with its kwargs. */
  function IndexTargets<V>(indices: seq<IndexRec>, f: Option<Q<V>>, e: Option<Q<V>>, c: Option<int>,
                           missing: bool, action: Action, database: Option<string>): (r: seq<Target<V>>)
    ensures |r| == |indices|
  {
    seq(|indices|, i requires 0 <= i < |indices| => IndexTarget(indices[i], f, e, c, missing, action, database))
  }

  function CountOf<V>(t: Target<V>, countQs: Counter<V>): Result<nat, string> {
    countQs(t.document, t.kwargs.filter, t.kwargs.exclude, t.kwargs.count)
  }

  /** Index of the first target whose count raises a `FieldError`, or `|targets|`. */
  function FirstFieldError<V>(targets: seq<Target<V>>, countQs: Counter<V>): (k: nat)
    ensures k <= |targets|
    ensures forall j :: 0 <= j < k ==> CountOf(targets[j], countQs).Ok?
    ensures k < |targets| ==> CountOf(targets[k], countQs).Err?
  {
    if targets == [] then 0
    else if CountOf(targets[0], countQs).Err? then 0
    else 1 + FirstFieldError(targets[1..], countQs)
  }

  function LineFor<V>(t: Target<V>, countQs: Counter<V>): SummaryLine
    requires CountOf(t, countQs).Ok?
  {
    SummaryLine(CountOf(t, countQs).value, t.document.model)
  }

  /** Counting every target in turn: the first `FieldError` stops the command, naming the model (and the index). */
  function PlanFor<V>(targets: seq<Target<V>>, countQs: Counter<V>): Result<Plan<V>, Abort> {
    var k := FirstFieldError(targets, countQs);
    if k < |targets| then
      Err(FieldErrorOn(targets[k].document.model, targets[k].index, CountOf(targets[k], countQs).error))
    else
      Ok(Plan(targets, seq(|targets|, i requires 0 <= i < |targets| => LineFor(targets[i], countQs))))
  }

  /** Lines 146-154: the objects-branch loop that fills `kwargs_list` and the summary. */
  method PlanObjects<V>(selected: seq<DocMapping>, f: Option<Q<V>>, e: Option<Q<V>>, c: Option<int>, countQs: Counter<V>)
    returns (r: Result<Plan<V>, Abort>)
    ensures r == PlanFor(ObjectTargets(selected, f, e, c), countQs)
  {
    ghost var all := ObjectTargets(selected, f, e, c);
    var targets: seq<Target<V>> := [];
    var summary: seq<SummaryLine> := [];
    for i := 0 to |selected|
      invariant targets == all[..i]
      invariant forall j :: 0 <= j < i ==> CountOf(all[j], countQs).Ok?
      invariant |summary| == i && forall j :: 0 <= j < i ==> summary[j] == LineFor(all[j], countQs)
    {
      var t := Target(selected[i].document, None, ObjectKwargs(f, e, c));
      assert t == all[i];
      targets := targets + [t];
      var counted := countQs(t.document, f, e, c);
      if counted.Err? {
        assert FirstFieldError(all, countQs) == i;
        return Err(FieldErrorOn(t.document.model, None, counted.error));
      }
      summary := summary + [SummaryLine(counted.value, t.document.model)];
    }
    assert targets == all;
    assert FirstFieldError(all, countQs) == |all|;
    assert summary == seq(|all|, i requires 0 <= i < |all| => LineFor(all[i], countQs));
    return Ok(Plan(targets, summary));
  }

  /** Lines 156-172: the index-branch loop, with `--missing` handled per index. */
  method PlanIndices<V>(indices: seq<IndexRec>, f: Option<Q<V>>, e: Option<Q<V>>, c: Option<int>,
                        missing: bool, action: Action, database: Option<string>, countQs: Counter<V>)
    returns (r: Result<Plan<V>, Abort>)
    ensures r == PlanFor(IndexTargets(indices, f, e, c, missing, action, database), countQs)
  {
    ghost var all := IndexTargets(indices, f, e, c, missing, action, database);
    var targets: seq<Target<V>> := [];
    var summary: seq<SummaryLine> := [];
    for i := 0 to |indices|
      invariant targets == all[..i]
      invariant forall j :: 0 <= j < i ==> CountOf(all[j], countQs).Ok?
      invariant |summary| == i && forall j :: 0 <= j < i ==> summary[j] == LineFor(all[j], countQs)
    {
      var index := indices[i];
      var exclude' := e;
      if missing && action == Index {
        exclude' := Some(WithMissing(e, index.storedIds));
      }
      var t := Target(index.document, Some(index.name), IndexKwargs(database, f, exclude', c));
      assert t == all[i];
      targets := targets + [t];
      var counted := countQs(index.document, f, exclude', c);
      if counted.Err? {
        assert FirstFieldError(all, countQs) == i;
        return Err(FieldErrorOn(index.document.model, Some(index.name), counted.error));
      }
      summary := summary + [SummaryLine(counted.value, index.document.model)];
    }
    assert targets == all;
    assert FirstFieldError(all, countQs) == |all|;
    assert summary == seq(|all|, i requires 0 <= i < |all| => LineFor(all[i], countQs));
    return Ok(Plan(targets, summary));
  }

  /** The targets of a run that passed validation: per selected mapping with objects, else per selected index. */
  function TargetsOf<V>(reg: Registry, action: Action, indices: seq<string>, objects: seq<string>,
                        filters: seq<(string, V)>, excludes: seq<(string, V)>, count: Option<int>,
                        missing: bool, database: Option<string>): seq<Target<V>> {
    var selected := SelectIndices(indices, reg.indices);
    if objects != [] then
      ObjectTargets(SelectedMappings(Flatten(reg.raw), ChosenModels(reg.models, objects), Names(selected)),
                    Conjunction(filters), Conjunction(excludes), count)
    else
      IndexTargets(selected, Conjunction(filters), Conjunction(excludes), count, missing, action, database)
  }

  /**
   * The pre-flight part of `_manage_document` (lines 89-172): validate the
   * object names, then the index names, then that every selected index
   * exists, then count every target; the first failure stops the command.
   */
  function PlanRun<V>(reg: Registry, action: Action, indices: seq<string>, objects: seq<string>,
                      filters: seq<(string, V)>, excludes: seq<(string, V)>, count: Option<int>,
                      missing: bool, database: Option<string>, countQs: Counter<V>): (r: Result<Plan<V>, Abort>)
    ensures r.Ok? ==> forall j :: 0 <= j < |objects| ==> KnownObject(objects[j], reg.models)
    ensures r.Ok? ==> forall n :: n in indices ==> n in Names(reg.indices)
    ensures r.Ok? ==> forall x :: x in SelectIndices(indices, reg.indices) ==> x.created
    ensures r.Ok? ==> r.value.targets == TargetsOf(reg, action, indices, objects, filters, excludes, count, missing, database)
                      && |r.value.summary| == |r.value.targets|
  {
    var k := FirstUnknownObject(objects, reg.models);
    if k < |objects| then Err(UnknownObject(objects[k], LowerAll(reg.models)))
    else if indices != [] && UnknownIndexNames(indices, reg.indices) != {} then
      Err(UnknownIndices(UnknownIndexNames(indices, reg.indices), Names(reg.indices)))
    else if NotCreatedNames(SelectIndices(indices, reg.indices)) != [] then
      Err(NotCreated(NotCreatedNames(SelectIndices(indices, reg.indices))))
    else
      PlanFor(TargetsOf(reg, action, indices, objects, filters, excludes, count, missing, database), countQs)
  }

  /** The first unknown object name stops the run, whatever the indices, filters or counts. */
  lemma UnknownObjectAborts<V>(reg: Registry, action: Action, indices: seq<string>, objects: seq<string>,
                               filters: seq<(string, V)>, excludes: seq<(string, V)>, count: Option<int>,
                               missing: bool, database: Option<string>, countQs: Counter<V>, k: nat)
    requires k < |objects| && !KnownObject(objects[k], reg.models)
    requires forall j :: 0 <= j < k ==> KnownObject(objects[j], reg.models)
    ensures PlanRun(reg, action, indices, objects, filters, excludes, count, missing, database, countQs)
         == Err(UnknownObject(objects[k], LowerAll(reg.models)))
  {
  }

  /** With every object known, any requested index name that is not known stops the run, naming all unknown ones. */
  lemma UnknownIndicesAbort<V>(reg: Registry, action: Action, indices: seq<string>, objects: seq<string>,
                               filters: seq<(string, V)>, excludes: seq<(string, V)>, count: Option<int>,
                               missing: bool, database: Option<string>, countQs: Counter<V>, name: string)
    requires forall j :: 0 <= j < |objects| ==> KnownObject(objects[j], reg.models)
    requires name in indices && name !in Names(reg.indices)
    ensures PlanRun(reg, action, indices, objects, filters, excludes, count, missing, database, countQs)
         == Err(UnknownIndices(UnknownIndexNames(indices, reg.indices), Names(reg.indices)))
    ensures name in UnknownIndexNames(indices, reg.indices)
  {
  }

  /**
   * Once names are valid, an index that does not exist stops the run listing
   * the missing names in selection order; no count is taken, so the outcome
   * is the same for every counter.
   */
  lemma NotCreatedAborts<V>(reg: Registry, action: Action, indices: seq<string>, objects: seq<string>,
                            filters: seq<(string, V)>, excludes: seq<(string, V)>, count: Option<int>,
                            missing: bool, database: Option<string>, countQs: Counter<V>, other: Counter<V>, i: nat)
    requires forall j :: 0 <= j < |objects| ==> KnownObject(objects[j], reg.models)
    requires forall n :: n in indices ==> n in Names(reg.indices)
    requires i < |SelectIndices(indices, reg.indices)| && !SelectIndices(indices, reg.indices)[i].created
    ensures PlanRun(reg, action, indices, objects, filters, excludes, count, missing, database, countQs)
         == PlanRun(reg, action, indices, objects, filters, excludes, count, missing, database, other)
         == Err(NotCreated(NotCreatedNames(SelectIndices(indices, reg.indices))))
  {
  }

  /**
   * Counting succeeds iff every target counts without a `FieldError`; otherwise
   * the first target that raises one names the model (and the index).
   */
  lemma PlanForOk<V>(targets: seq<Target<V>>, countQs: Counter<V>)
    ensures PlanFor(targets, countQs).Ok? <==> forall i :: 0 <= i < |targets| ==> CountOf(targets[i], countQs).Ok?
    ensures PlanFor(targets, countQs).Err? ==>
              var k := FirstFieldError(targets, countQs);
              k < |targets| &&
              PlanFor(targets, countQs) == Err(FieldErrorOn(targets[k].document.model, targets[k].index, CountOf(targets[k], countQs).error))
  {
  }

  /**
   * A run whose object names and index names are known and whose selected
   * indices all exist goes on to count its targets: the outcome is decided
   * by the counts alone.
   */
  lemma ValidRunPlans<V>(reg: Registry, action: Action, indices: seq<string>, objects: seq<string>,
                         filters: seq<(string, V)>, excludes: seq<(string, V)>, count: Option<int>,
                         missing: bool, database: Option<string>, countQs: Counter<V>)
    requires forall j :: 0 <= j < |objects| ==> KnownObject(objects[j], reg.models)
    requires forall n :: n in indices ==> n in Names(reg.indices)
    requires forall x :: x in SelectIndices(indices, reg.indices) ==> x.created
    ensures PlanRun(reg, action, indices, objects, filters, excludes, count, missing, database, countQs)
         == PlanFor(TargetsOf(reg, action, indices, objects, filters, excludes, count, missing, database), countQs)
  {
  }

  /** A plan holds one summary line per target, carrying the count of that target's queryset. */
  lemma PlanSummary<V>(targets: seq<Target<V>>, countQs: Counter<V>)
    requires PlanFor(targets, countQs).Ok?
    ensures PlanFor(targets, countQs).value.targets == targets
    ensures |PlanFor(targets, countQs).value.summary| == |targets|
    ensures forall i :: 0 <= i < |targets| ==>
              CountOf(targets[i], countQs) == Ok(PlanFor(targets, countQs).value.summary[i].count)
              && PlanFor(targets, countQs).value.summary[i].model == targets[i].document.model
  {
  }

  /**
   * In the objects branch a document class is a target iff its model was
   * chosen and its index selected, in registry order, and its kwargs never
   * carry the `--missing` predicate.
   */
  lemma ObjectsBranchTargets<V>(reg: Registry, action: Action, indices: seq<string>, objects: seq<string>,
                                filters: seq<(string, V)>, excludes: seq<(string, V)>, count: Option<int>,
                                missing: bool, database: Option<string>)
    requires objects != []
    ensures var ts := TargetsOf(reg, action, indices, objects, filters, excludes, count, missing, database);
            var sel := SelectedMappings(Flatten(reg.raw), ChosenModels(reg.models, objects), Names(SelectIndices(indices, reg.indices)));
            |ts| == |sel|
            && (forall i :: 0 <= i < |ts| ==>
                  ts[i].document == sel[i].document && ts[i].index == None
                  && ts[i].kwargs == ObjectKwargs(Conjunction(filters), Conjunction(excludes), count))
            && (forall m :: m in sel <==> (exists k :: 0 <= k < |reg.raw| && m in reg.raw[k])
                                          && m.document.model in reg.models && Text.Lower(m.document.model) in objects
                                          && m.indexName in Names(SelectIndices(indices, reg.indices)))
  {
  }

  /**
   * In the index branch there is one target per selected index, in order;
   * its exclude gains `pk__in` the index's stored ids only with `--missing`
   * and the INDEX action.
   */
  lemma IndexBranchTargets<V>(reg: Registry, action: Action, indices: seq<string>,
                              filters: seq<(string, V)>, excludes: seq<(string, V)>, count: Option<int>,
                              missing: bool, database: Option<string>)
    ensures var ts := TargetsOf(reg, action, indices, [], filters, excludes, count, missing, database);
            var sel := SelectIndices(indices, reg.indices);
            |ts| == |sel|
            && forall i :: 0 <= i < |ts| ==>
                 ts[i].document == sel[i].document && ts[i].index == Some(sel[i].name)
                 && ts[i].kwargs.dbAlias == database && ts[i].kwargs.filter == Conjunction(filters)
                 && ts[i].kwargs.count == count
                 && ts[i].kwargs.exclude == if missing && action == Index
                                            then Some(WithMissing(Conjunction(excludes), sel[i].storedIds))
                                            else Conjunction(excludes)
  {
  }
}
