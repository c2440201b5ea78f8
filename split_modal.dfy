/** The split dialog's validation of the page interval. */
module SplitModal {
  import opened Wrappers
  import opened JsNumber

  /** What submitting the dialog does: show an error, or call onSplit once
      with the integer interval. */
  datatype SplitOutcome = Rejected(message: string) | Split(interval: int)

  const InvalidIntervalMessage: string := "Please enter a valid number greater than 0"

  function TooLargeMessage(totalPages: nat): string
  {
    "Split interval must be less than total pages (" + NatToString(totalPages) + ")"
  }

  /** isBulk ? 0 : (file?.pages?.length || 0); `filePages` is None when the
      file or its page list is missing. */
  function TotalPages(isBulk: bool, filePages: Option<nat>): (n: nat)
    ensures isBulk ==> n == 0
    ensures !isBulk ==> n == filePages.GetOr(0)
  {
    if isBulk then 0 else filePages.GetOr(0)
  }

  /** handleSubmit. `interval` is Number(input.value), None standing for NaN (an empty field is 0);
      parseInt of a number of at least 1 keeps its integer part. */
  function HandleSubmit(interval: Option<real>, isBulk: bool, filePages: Option<nat>): (o: SplitOutcome)
    ensures o.Split? <==>
      interval.Some? && interval.value >= 1.0 && (isBulk || interval.value < TotalPages(isBulk, filePages) as real)
    ensures o.Split? ==>
      && 1 <= o.interval
      && o.interval as real <= interval.value < o.interval as real + 1.0
      && (!isBulk ==> o.interval < TotalPages(isBulk, filePages))
    ensures (interval.None? || interval.value < 1.0) ==> o == Rejected(InvalidIntervalMessage)
    ensures o.Rejected? && o != Rejected(InvalidIntervalMessage) ==>
      !isBulk && o == Rejected(TooLargeMessage(TotalPages(isBulk, filePages)))
  {
    var totalPages := TotalPages(isBulk, filePages);
    if interval.None? || interval.value == 0.0 || interval.value < 1.0 then Rejected(InvalidIntervalMessage)
    else if !isBulk && interval.value >= totalPages as real then Rejected(TooLargeMessage(totalPages))
    else Split(Floor(interval.value))
  }

  /** In bulk mode every interval of at least 1 is accepted. */
  lemma BulkAcceptsEveryInterval(v: real)
    requires v >= 1.0
    ensures HandleSubmit(Some(v), true, None).Split?
  {
  }

  /** A file of at most one page cannot be split: every interval is
      rejected. */
  lemma ShortFileRejectsEverything(interval: Option<real>, filePages: Option<nat>)
    requires filePages.GetOr(0) <= 1
    ensures HandleSubmit(interval, false, filePages).Rejected?
  {
  }

  /** The default interval 2 on a three-page file splits every 2 pages. */
  lemma DefaultIntervalSplits()
    ensures HandleSubmit(Some(2.0), false, Some(3)) == Split(2)
    ensures HandleSubmit(Some(2.0), false, Some(2)) == Rejected("Split interval must be less than total pages (2)")
  {
  }
}
