/**
 * The `manage_users_custom_column` filter: the cell of the comment column is
 * a link to the user's comments whose text is the count under `all`.
 *
 * Only the branch and the visible number are modelled; the URL, the title
 * attribute and the escaping are the host's.
 */
module CustomColumn {
  import opened Opt
  import opened Columns
  import opened CommentTally

  /** What a call can produce for a cell. */
  datatype Cell =
    | CountLink(userId: Arg, count: int)   // the anchor to the user's comments, showing count
    | Markup(html: string)                 // markup handed back unchanged

  /**
   * `intval($count['all'])`: the `all` entry of the array, and 0 when the
   * guard returned the scalar 0 (indexing an int gives null, and intval(null) is 0).
   */
  function VisibleCount(r: CountResult): (n: int)
    ensures r.Zero? ==> n == 0
    ensures r.Counts? && All in r.counts ==> n == r.counts[All]
  {
    match r
    case Zero => 0
    case Counts(c) => if All in c then c[All] else 0
  }

  /**
   * The filter as written: the comment column gets the link, every other
   * column falls off the end of the function and gets null, whatever output
   * earlier filters produced.
   */
  function ManageUsersCustomColumn(h: Host, output: string, columnName: string, userId: Arg): (r: Option<Cell>)
    ensures r.None? <==> columnName != ColumnKey
    ensures r.Some? ==> r.value.CountLink? && r.value.userId == userId
  {
    if columnName == ColumnKey then
      Some(CountLink(userId, VisibleCount(CommentCount(h, userId))))
    else
      None
  }

  /** An unknown user, or an argument the guard rejects, shows 0. */
  lemma UnresolvedUserShowsZero(h: Host, output: string, userId: Arg)
    requires Resolve(h, userId).None?
    ensures ManageUsersCustomColumn(h, output, ColumnKey, userId) == Some(CountLink(userId, 0))
  {
  }

  /** A user without comments shows 0. */
  lemma NoCommentsShowsZero(h: Host, output: string, userId: Arg)
    requires Resolve(h, userId).Some? ==> h.commentsWhere(Resolve(h, userId).value) == []
    ensures ManageUsersCustomColumn(h, output, ColumnKey, userId) == Some(CountLink(userId, 0))
  {
    if Resolve(h, userId).Some? {
      SummaryOfNoRows();
    }
  }

  /**
   * For a resolved user, the number shown is approved + awaiting_moderation
   * (spam and trash are not shown), and it is never negative.
   */
  lemma ShownCountIsApprovedPlusPending(h: Host, output: string, userId: Arg)
    requires Resolve(h, userId).Some?
    requires DistinctStatuses(h.commentsWhere(Resolve(h, userId).value))
    requires NonNegativeTotals(h.commentsWhere(Resolve(h, userId).value))
    ensures var rows := h.commentsWhere(Resolve(h, userId).value);
      ManageUsersCustomColumn(h, output, ColumnKey, userId) ==
        Some(CountLink(userId, Summary(rows)[Approved] + Summary(rows)[AwaitingModeration]))
    ensures ManageUsersCustomColumn(h, output, ColumnKey, userId).value.count >= 0
  {
    var rows := h.commentsWhere(Resolve(h, userId).value);
    DistinctStatusTotals(rows);
    SummaryNonNegative(rows);
  }

  /** A cell of another column that earlier filters filled is emptied. */
  lemma OtherColumnOutputLost(h: Host, userId: Arg)
    ensures ManageUsersCustomColumn(h, "<b>admin</b>", "last_login", userId) == None
  {
  }

  /** The filter as evidently intended: other columns keep the output they were given. */
  function ManageUsersCustomColumnPassThrough(h: Host, output: string, columnName: string, userId: Arg): (r: Cell)
    ensures columnName != ColumnKey ==> r == Markup(output)
    ensures columnName == ColumnKey ==> Some(r) == ManageUsersCustomColumn(h, output, columnName, userId)
  {
    if columnName == ColumnKey then
      CountLink(userId, VisibleCount(CommentCount(h, userId)))
    else
      Markup(output)
  }
}
