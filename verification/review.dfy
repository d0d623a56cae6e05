/**
 * The review decision: which branch the automatic review takes for a draft,
 * and the reason strings it records.
 */
module Review {
  import opened Types

  /** Reason written by the sensitive-word check itself when it finds a term. */
  const REASON_SENSITIVE: string := "文章中包含了敏感词"
  /** Reason the review leaves on a draft that failed the sensitive-word check. */
  const REASON_BANNED: string := "文章存在违禁词，审核失败"
  /** Reason on a clean draft handed to a human reviewer. */
  const REASON_AWAITING: string := "文章已提交，待人工审核"
  /** Reason on a draft the review has published. */
  const REASON_APPROVED: string := "审核通过"
  /** Reason on a draft an administrator approved by hand. */
  const REASON_MANUAL_APPROVED: string := "人工审核通过"

  /**
   * Publish: store the article now. Scan: extract and check the text.
   * NoAction: leave the draft alone. NullPublishTime: a scheduled draft
   * without a publish time, whose time test throws before anything is written.
   */
  datatype Branch = Publish | Scan | NoAction | NullPublishTime

  /**
   * The branch for a draft with this status and publish time at time `now`;
   * the tests are made in order: status 4, then a due status 8, then status 1.
   */
  function ChooseBranch(status: int, publishTime: Option<int>, now: int): (b: Branch)
    ensures b == Publish <==>
      status == MANUALLY_APPROVED || (status == SCHEDULED && publishTime.Some? && publishTime.value <= now)
    ensures b == Scan <==> status == PENDING_SCAN
    ensures b == NullPublishTime <==> status == SCHEDULED && publishTime.None?
    ensures b == NoAction <==>
      (status != PENDING_SCAN && status != MANUALLY_APPROVED && status != SCHEDULED) ||
      (status == SCHEDULED && publishTime.Some? && publishTime.value > now)
  {
    if status == MANUALLY_APPROVED then Publish
    else if status == SCHEDULED && publishTime.None? then NullPublishTime
    else if status == SCHEDULED && publishTime.value <= now then Publish
    else if status == PENDING_SCAN then Scan
    else NoAction
  }

  /** The status and reason a scanned draft ends with, given whether the matcher reported a term. */
  function ScanVerdict(hit: bool): (v: (int, string))
    ensures v.0 == REJECTED <==> hit
    ensures v.0 == REJECTED || v.0 == MANUAL_REVIEW
    ensures v.1 == (if hit then REASON_BANNED else REASON_AWAITING)
  {
    if hit then (REJECTED, REASON_BANNED) else (MANUAL_REVIEW, REASON_AWAITING)
  }

  /**
   * Every status the review itself writes (2 and 3 after a scan, 9 after
   * publication) leads the next review of that draft to do nothing, whatever
   * its publish time: a second review has no further effect.
   */
  lemma ReviewedStatusesAreFinal(publishTime: Option<int>, now: int, hit: bool)
    ensures ChooseBranch(ScanVerdict(hit).0, publishTime, now) == NoAction
    ensures ChooseBranch(PUBLISHED, publishTime, now) == NoAction
  {
  }

  /** A scheduled draft is published at `now` exactly when its time has come, and then at every later time too. */
  lemma ScheduledPublishIsMonotone(t: int, now: int, later: int)
    requires now <= later
    ensures ChooseBranch(SCHEDULED, Some(t), now) == Publish <==> t <= now
    ensures ChooseBranch(SCHEDULED, Some(t), now) == Publish ==> ChooseBranch(SCHEDULED, Some(t), later) == Publish
  {
  }
}
