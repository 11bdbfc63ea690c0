/**
 * The checks `_parse_arguments` runs after argparse has produced its namespace, and the
 * order in which `main` picks the operation. Tokenising is argparse's business; the model
 * starts from the parsed record.
 */
module Cli {
  import opened Wrappers
  import opened Text

  /** The parsed namespace (`--debug` only sets logging and is left out). */
  datatype Args = Args(
    count: bool,
    summary: bool,
    filterTag: Option<string>,
    countToAdd: Option<int>,
    sessionTag: Option<string>)

  /** `if args.count_to_add:` — `0` is falsy, like `None`. */
  predicate IntTruthy(n: Option<int>) {
    n.Some? && n.value != 0
  }

  /** The `parser.error` calls, in source order. */
  datatype UsageError =
    | SummaryWithOthers
    | PositionalsWithCount
    | CountToAddRequired
    | TooManyOperations(modes: seq<string>)
    | NoOperation

  function Join(parts: seq<string>, sep: string): string {
    if parts == [] then []
    else if |parts| == 1 then parts[0]
    else parts[0] + sep + Join(parts[1..], sep)
  }

  function UsageMessage(e: UsageError): string {
    match e
    case SummaryWithOthers =>
      "--summary cannot be used with --count, --filter-tag, <count_to_add>, or [session_tag]."
    case PositionalsWithCount =>
      "Positional arguments <count_to_add> and [session_tag] are not allowed with --count or --filter-tag."
    case CountToAddRequired =>
      "<count_to_add> is required unless using --count, --filter-tag, or --summary."
    case TooManyOperations(modes) =>
      "Too many operations specified. Choose one of: add entry, --count, --filter-tag, --summary. Got: "
      + Join(modes, ", ")
    case NoOperation =>
      "No operation specified. Provide <count_to_add> or use --count, --filter-tag, or --summary."
  }

  /** The `active_modes` list built after the first checks. */
  function ActiveModes(a: Args): seq<string> {
    (if a.summary then ["--summary"] else [])
    + (if a.count || Truthy(a.filterTag) then ["--count/--filter-tag"] else [])
    + (if a.countToAdd.Some? && !(a.summary || a.count || Truthy(a.filterTag)) then ["add_entry"] else [])
  }

  /** The first checks, including `args.count = True` when a filter tag is given. */
  function CheckCombinations(a: Args): Result<Args, UsageError> {
    if a.summary then
      if a.count || Truthy(a.filterTag) || IntTruthy(a.countToAdd) || Truthy(a.sessionTag) then
        Failure(SummaryWithOthers)
      else Success(a)
    else if a.count || a.filterTag.Some? then
      if a.countToAdd.Some? || a.sessionTag.Some? then Failure(PositionalsWithCount)
      else if a.filterTag.Some? then Success(a.(count := true))
      else Success(a)
    else if a.countToAdd.None? then Failure(CountToAddRequired)
    else Success(a)
  }

  /** All of `_parse_arguments`' validation: the first checks, then the active-mode count. */
  function ValidateArgs(a: Args): Result<Args, UsageError> {
    match CheckCombinations(a)
    case Failure(e) => Failure(e)
    case Success(b) =>
      var modes := ActiveModes(b);
      if |modes| > 1 then Failure(TooManyOperations(modes))
      else if modes == [] && b.countToAdd.None? then Failure(NoOperation)
      else Success(b)
  }

  /** The operation `main` runs for an accepted record. */
  datatype Command =
    | QuerySummary
    | QueryTotal(filterTag: Option<string>)
    | AddEntry(countToAdd: int, sessionTag: Option<string>)
    | Fallback

  /** `main`'s if/elif chain: summary first, then count or filter-tag, then adding. */
  function Dispatch(a: Args): Command {
    if a.summary then QuerySummary
    else if a.count || a.filterTag.Some? then QueryTotal(a.filterTag)
    else if a.countToAdd.Some? then AddEntry(a.countToAdd.value, a.sessionTag)
    else Fallback
  }

  /**
   * With `--summary`, the record is refused exactly when `--count`, a truthy filter tag, a
   * truthy count or a truthy session tag accompanies it; so `--summary 0` is accepted.
   */
  lemma SummaryConflicts(a: Args)
    requires a.summary
    ensures ValidateArgs(a).Failure?
        <==> a.count || Truthy(a.filterTag) || IntTruthy(a.countToAdd) || Truthy(a.sessionTag)
    ensures ValidateArgs(a).Failure? ==> ValidateArgs(a).error == SummaryWithOthers
    ensures ValidateArgs(a).Success? ==> ValidateArgs(a).value == a
  {
  }

  /**
   * With `--count` or `--filter-tag` (and no `--summary`), any positional is refused; an
   * accepted record has `count` set.
   */
  lemma CountModeConflicts(a: Args)
    requires !a.summary && (a.count || a.filterTag.Some?)
    ensures ValidateArgs(a).Failure? <==> a.countToAdd.Some? || a.sessionTag.Some?
    ensures ValidateArgs(a).Failure? ==> ValidateArgs(a).error == PositionalsWithCount
    ensures ValidateArgs(a).Success? ==> ValidateArgs(a).value == a.(count := true)
  {
  }

  /** With no query flag, the count to add is required and is all that is needed. */
  lemma AddModeRequiresCount(a: Args)
    requires !a.summary && !a.count && a.filterTag.None?
    ensures ValidateArgs(a).Failure? <==> a.countToAdd.None?
    ensures ValidateArgs(a).Failure? ==> ValidateArgs(a).error == CountToAddRequired
    ensures ValidateArgs(a).Success? ==> ValidateArgs(a).value == a
  {
  }

  /** The last two checks never fire: the first ones already leave exactly one mode. */
  lemma LateChecksUnreachable(a: Args)
    ensures ValidateArgs(a) == CheckCombinations(a)
    ensures ValidateArgs(a).Failure? ==> ValidateArgs(a).error in {SummaryWithOthers, PositionalsWithCount, CountToAddRequired}
  {
  }

  /**
   * An accepted record has exactly one active mode, `main` never reaches its fallback
   * branch, and the operation follows the precedence summary, count/filter-tag, add.
   */
  lemma AcceptedDispatch(a: Args)
    requires ValidateArgs(a).Success?
    ensures |ActiveModes(ValidateArgs(a).value)| == 1
    ensures Dispatch(ValidateArgs(a).value) != Fallback
    ensures Dispatch(ValidateArgs(a).value)
         == if a.summary then QuerySummary
            else if a.count || a.filterTag.Some? then QueryTotal(a.filterTag)
            else AddEntry(a.countToAdd.value, a.sessionTag)
  {
  }

  /** Python truthiness at work: `--summary 0` runs the summary. */
  lemma SummaryWithZeroCount()
    ensures var a := Args(false, true, None, Some(0), None);
      ValidateArgs(a) == Success(a) && Dispatch(a) == QuerySummary
  {
  }

  /** An empty filter tag still selects count mode. */
  lemma EmptyFilterTagCounts()
    ensures var a := Args(false, false, Some(""), None, None);
      ValidateArgs(a) == Success(a.(count := true)) && Dispatch(a.(count := true)) == QueryTotal(Some(""))
  {
  }
}
