/**
 * The second half of `Command._manage_document`: whether the pre-run
 * summary is shown, the confirmation prompt, and the execution loop with
 * its per-target report, where errors are grouped by reason at verbosity 1.
 */
module Reporting {
  import opened Wrappers
  import opened Text
  import opened Seqs
  import opened Domain

  /** Line 175: the summary is written unless the verbosity is 0 and `force` was given. */
  predicate ShowSummary(verbosity: nat, force: bool) {
    verbosity != 0 || !force
  }

  /** Line 182: the answer, lower-cased, is "yes" or "y". */
  predicate IsYes(answer: string) {
    Lower(answer) in ["yes", "y"]
  }

  /** Line 185: the answer, lower-cased, is "no" or "n". */
  predicate IsNo(answer: string) {
    Lower(answer) in ["no", "n"]
  }

  /** How the prompt ends: after reading `consumed` answers, or when `input()` finds no more. */
  datatype Decision = Proceed(consumed: nat) | Decline(consumed: nat) | EndOfInput

  /**
   * The prompt loop of lines 180-186 from the `i`-th answer on: the first
   * yes/y proceeds, the first no/n stops the command, anything else asks again.
   */
  function AnswerFrom(answers: seq<string>, i: nat): (d: Decision)
    decreases |answers| - i
    ensures d.Proceed? ==> i < d.consumed <= |answers| && IsYes(answers[d.consumed - 1])
    ensures d.Decline? ==> i < d.consumed <= |answers| && IsNo(answers[d.consumed - 1]) && !IsYes(answers[d.consumed - 1])
    ensures d.EndOfInput? ==> forall j :: i <= j < |answers| ==> !IsYes(answers[j]) && !IsNo(answers[j])
    ensures !d.EndOfInput? ==> forall j :: i <= j < d.consumed - 1 ==> !IsYes(answers[j]) && !IsNo(answers[j])
  {
    if i >= |answers| then EndOfInput
    else if IsYes(answers[i]) then Proceed(i + 1)
    else if IsNo(answers[i]) then Decline(i + 1)
    else AnswerFrom(answers, i + 1)
  }

  /** Lines 179-186: with `force` nothing is asked. */
  function Confirm(force: bool, answers: seq<string>): (d: Decision)
    ensures force ==> d == Proceed(0)
  {
    if force then Proceed(0) else AnswerFrom(answers, 0)
  }

  /** The `while True` prompt loop, reading from `answers` in place of `input()`. */
  method Prompt(answers: seq<string>) returns (d: Decision)
    ensures d == AnswerFrom(answers, 0)
  {
    var i := 0;
    while i < |answers|
      invariant i <= |answers|
      invariant AnswerFrom(answers, 0) == AnswerFrom(answers, i)
    {
      var p := Lower(answers[i]);
      if p in ["yes", "y"] {
        return Proceed(i + 1);
      } else if p in ["no", "n"] {
        return Decline(i + 1);
      }
      i := i + 1;
    }
    return EndOfInput;
  }

  /**
   * Line 212: the reason of one error entry is the `result` recorded under
   * the action's key, and "unknown error" when the entry has no such key or
   * the key has no `result`.
   */
  function ReasonOf(e: ErrorRec, action: Action): (r: string)
    ensures action.Value() in e && "result" in e[action.Value()] ==> r == e[action.Value()]["result"]
    ensures !(action.Value() in e && "result" in e[action.Value()]) ==> r == "unknown error"
    ensures r != "unknown error" ==> action.Value() in e && "result" in e[action.Value()] && r == e[action.Value()]["result"]
  {
    var key := action.Value();
    if key in e && "result" in e[key] then e[key]["result"] else "unknown error"
  }

  /** The reason of every error entry, in order. */
  function Reasons(errors: seq<ErrorRec>, action: Action): (r: seq<string>)
    ensures |r| == |errors| && forall i :: 0 <= i < |errors| ==> r[i] == ReasonOf(errors[i], action)
  {
    seq(|errors|, i requires 0 <= i < |errors| => ReasonOf(errors[i], action))
  }

  /**
   * Lines 210-213: the `defaultdict(int)` loop, as its keys in insertion
   * order and its counter: the reasons in order of first occurrence, each
   * with the number of errors that carry it.
   */
  method TallyReasons(errors: seq<ErrorRec>, action: Action) returns (keys: seq<string>, counts: map<string, nat>)
    ensures keys == Dedup(Reasons(errors, action)) && counts == Tally(Reasons(errors, action))
  {
    ghost var rs := Reasons(errors, action);
    keys, counts := [], map[];
    for i := 0 to |errors|
      invariant keys == Dedup(rs[..i])
      invariant counts == Tally(rs[..i])
    {
      var error := ReasonOf(errors[i], action);
      assert rs[..i + 1][..i] == rs[..i] && rs[..i + 1][i] == error;
      if error !in counts {
        keys := keys + [error];
      }
      var sofar := if error in counts then counts[error] else 0;
      counts := counts[error := sofar + 1];
    }
    assert rs[..|errors|] == rs;
  }

  /** The grouped counts of a report add up to the number of errors, each reason listed once. */
  lemma GroupedCountsAddUp(errors: seq<ErrorRec>, action: Action)
    ensures Distinct(Dedup(Reasons(errors, action)))
    ensures Total(Dedup(Reasons(errors, action)), Tally(Reasons(errors, action))) == |errors|
  {
    TallyTotal(Reasons(errors, action));
  }

  /** What the report says about errors at each verbosity (lines 208-218): nothing, grouped counts, or the full list. */
  datatype Detail = Silent | Grouped(reasons: seq<string>, counts: map<string, nat>) | Full(errors: seq<ErrorRec>)

  /** The report of one target: its model, how many documents succeeded, how many errors, and their detail. */
  datatype Report = Report(model: string, success: nat, errorCount: nat, detail: Detail)

  /** Sending a target's documents to the engine: the number of successes and the error entries. */
  type Updater<!V> = (Document, Kwargs<V>, Action) -> (nat, seq<ErrorRec>)

  function DetailFor(errors: seq<ErrorRec>, action: Action, verbosity: nat): Detail {
    if verbosity == 1 then Grouped(Dedup(Reasons(errors, action)), Tally(Reasons(errors, action)))
    else if verbosity > 1 then Full(errors)
    else Silent
  }

  function ReportFor<V>(t: Target<V>, update: Updater<V>, action: Action, verbosity: nat): Report {
    var outcome := update(t.document, t.kwargs, action);
    Report(t.document.model, outcome.0, |outcome.1|, DetailFor(outcome.1, action, verbosity))
  }

  /** The body of the execution loop for one target (lines 191-218). */
  method Submit<V>(t: Target<V>, update: Updater<V>, action: Action, verbosity: nat) returns (report: Report)
    ensures report == ReportFor(t, update, action, verbosity)
  {
    var outcome := update(t.document, t.kwargs, action);
    var detail := Silent;
    if verbosity == 1 {
      var keys, counts := TallyReasons(outcome.1, action);
      detail := Grouped(keys, counts);
    } else if verbosity > 1 {
      detail := Full(outcome.1);
    }
    report := Report(t.document.model, outcome.0, |outcome.1|, detail);
  }

  /**
   * Lines 188-249: each target in turn is submitted to `update`, one report
   * per target, in order; `submitted` records the calls to `update`.
   */
  method Execute<V>(targets: seq<Target<V>>, update: Updater<V>, action: Action, verbosity: nat)
    returns (reports: seq<Report>, submitted: seq<Target<V>>)
    ensures submitted == targets
    ensures |reports| == |targets|
    ensures forall i :: 0 <= i < |targets| ==> reports[i] == ReportFor(targets[i], update, action, verbosity)
  {
    reports, submitted := [], [];
    for i := 0 to |targets|
      invariant submitted == targets[..i]
      invariant |reports| == i
      invariant forall j :: 0 <= j < i ==> reports[j] == ReportFor(targets[j], update, action, verbosity)
    {
      submitted := submitted + [targets[i]];
      var report := Submit(targets[i], update, action, verbosity);
      reports := reports + [report];
    }
    assert targets[..|targets|] == targets;
  }

  /** At verbosity 1 every report's grouped counts add up to its error count. */
  lemma ReportCountsAddUp<V>(t: Target<V>, update: Updater<V>, action: Action)
    ensures var r := ReportFor(t, update, action, 1);
            r.detail.Grouped? && Distinct(r.detail.reasons)
            && (forall k :: k in r.detail.reasons <==> k in r.detail.counts)
            && Total(r.detail.reasons, r.detail.counts) == r.errorCount
  {
    GroupedCountsAddUp(update(t.document, t.kwargs, action).1, action);
  }
}
