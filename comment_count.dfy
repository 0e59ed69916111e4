/**
 * `get_comment_count`: resolve a user id or e-mail address, then tally the
 * rows of a `GROUP BY comment_approved` query into a seven-key array.
 *
 * The database, `is_numeric`, `is_email` and `get_user_by` belong to the
 * host platform; they are the oracles of a Host value.
 */
module CommentTally {
  import opened Opt

  /** The seven keys of the tally array. */
  datatype Key = Approved | AwaitingModeration | Spam | Trash | PostTrashed | TotalComments | All

  /** Each key as the PHP array spells it. */
  function KeyName(k: Key): string
  {
    match k
    case Approved => "approved"
    case AwaitingModeration => "awaiting_moderation"
    case Spam => "spam"
    case Trash => "trash"
    case PostTrashed => "post-trashed"
    case TotalComments => "total_comments"
    case All => "all"
  }

  const AllKeys: set<Key> := {Approved, AwaitingModeration, Spam, Trash, PostTrashed, TotalComments, All}

  /** One result row: a `comment_approved` value and the number of comments with it. */
  datatype Row = Row(commentApproved: string, total: int)

  /** The bucket a status value is assigned to; None for a value the tally ignores. */
  function BucketOf(status: string): Option<Key>
  {
    if status == "trash" then Some(Trash)
    else if status == "post-trashed" then Some(PostTrashed)
    else if status == "spam" then Some(Spam)
    else if status == "1" then Some(Approved)
    else if status == "0" then Some(AwaitingModeration)
    else None
  }

  /** Status values whose rows are added to total_comments: spam, approved, pending. */
  const InTotalComments: set<string> := {"spam", "1", "0"}

  /** Status values whose rows are added to all: approved, pending. */
  const InAll: set<string> := {"1", "0"}

  /** The sum of the totals of the rows whose status is in statuses. */
  function SumOf(rows: seq<Row>, statuses: set<string>): int
  {
    if rows == [] then 0
    else
      var last := rows[|rows| - 1];
      SumOf(rows[..|rows| - 1], statuses) + (if last.commentApproved in statuses then last.total else 0)
  }

  /** The total of the last row with this status, 0 when there is none. */
  function LastTotal(rows: seq<Row>, status: string): int
  {
    if rows == [] then 0
    else if rows[|rows| - 1].commentApproved == status then rows[|rows| - 1].total
    else LastTotal(rows[..|rows| - 1], status)
  }

  /**
   * What the tally produces: each bucket holds the total of the LAST row with
   * its status (the source assigns), each of the two totals the SUM over all
   * rows counted in it (the source adds).
   */
  function Summary(rows: seq<Row>): (s: map<Key, int>)
    ensures s.Keys == AllKeys
  {
    map[
      Approved := LastTotal(rows, "1"),
      AwaitingModeration := LastTotal(rows, "0"),
      Spam := LastTotal(rows, "spam"),
      Trash := LastTotal(rows, "trash"),
      PostTrashed := LastTotal(rows, "post-trashed"),
      TotalComments := SumOf(rows, InTotalComments),
      All := SumOf(rows, InAll)]
  }

  /** The array the tally starts from: all seven keys at 0. */
  const Initial: map<Key, int> :=
    map[Approved := 0, AwaitingModeration := 0, Spam := 0, Trash := 0,
        PostTrashed := 0, TotalComments := 0, All := 0]

  /** Before any row, the summary is the all-zero array. */
  lemma SummaryOfNoRows()
    ensures Summary([]) == Initial
    ensures forall k :: k in AllKeys ==> Initial[k] == 0
  {
  }

  /**
   * The effect of one more row: the bucket of its status (if any) becomes
   * its total, total_comments and all grow by it when the status counts in
   * them, and nothing else changes.
   */
  lemma {:induction false} AppendRow(rows: seq<Row>, row: Row)
    ensures var before, after := Summary(rows), Summary(rows + [row]);
      && (forall k :: k in AllKeys && k != TotalComments && k != All ==>
            after[k] == if BucketOf(row.commentApproved) == Some(k) then row.total else before[k])
      && after[TotalComments] == before[TotalComments] + (if row.commentApproved in InTotalComments then row.total else 0)
      && after[All] == before[All] + (if row.commentApproved in InAll then row.total else 0)
  {
    assert (rows + [row])[..|rows|] == rows;
  }

  /** A row with an unrecognised status changes nothing at all. */
  lemma UnrecognisedRowIgnored(rows: seq<Row>, row: Row)
    requires BucketOf(row.commentApproved) == None
    ensures Summary(rows + [row]) == Summary(rows)
  {
    AppendRow(rows, row);
  }

  /** A trash or post-trashed row changes neither total_comments nor all. */
  lemma TrashedRowKeepsTotals(rows: seq<Row>, row: Row)
    requires row.commentApproved == "trash" || row.commentApproved == "post-trashed"
    ensures Summary(rows + [row])[TotalComments] == Summary(rows)[TotalComments]
    ensures Summary(rows + [row])[All] == Summary(rows)[All]
  {
    AppendRow(rows, row);
  }

  /** The result of the GROUP BY query: no status value occurs twice. */
  predicate DistinctStatuses(rows: seq<Row>)
  {
    forall i, j :: 0 <= i < j < |rows| ==> rows[i].commentApproved != rows[j].commentApproved
  }

  lemma {:induction false} LastTotalOfAbsent(rows: seq<Row>, status: string)
    requires forall i :: 0 <= i < |rows| ==> rows[i].commentApproved != status
    ensures LastTotal(rows, status) == 0
  {
    if rows != [] {
      LastTotalOfAbsent(rows[..|rows| - 1], status);
    }
  }

  /**
   * With distinct statuses, all is approved + awaiting_moderation and
   * total_comments is approved + awaiting_moderation + spam.
   */
  lemma {:induction false} DistinctStatusTotals(rows: seq<Row>)
    requires DistinctStatuses(rows)
    ensures Summary(rows)[All] == Summary(rows)[Approved] + Summary(rows)[AwaitingModeration]
    ensures Summary(rows)[TotalComments] ==
      Summary(rows)[Approved] + Summary(rows)[AwaitingModeration] + Summary(rows)[Spam]
  {
    if rows != [] {
      var init, last := rows[..|rows| - 1], rows[|rows| - 1];
      assert rows == init + [last];
      DistinctStatusTotals(init);
      AppendRow(init, last);
      LastTotalOfAbsent(init, last.commentApproved);
    }
  }

  /** Every row total non-negative. */
  predicate NonNegativeTotals(rows: seq<Row>)
  {
    forall i :: 0 <= i < |rows| ==> rows[i].total >= 0
  }

  /** With non-negative row totals every entry of the summary is non-negative. */
  lemma {:induction false} SummaryNonNegative(rows: seq<Row>)
    requires NonNegativeTotals(rows)
    ensures forall k :: k in AllKeys ==> Summary(rows)[k] >= 0
  {
    if rows != [] {
      var init, last := rows[..|rows| - 1], rows[|rows| - 1];
      assert rows == init + [last];
      SummaryNonNegative(init);
      AppendRow(init, last);
    }
  }

  /** The totals are sums, so they do not depend on the order of the rows. */
  lemma {:induction false} SumOfConcat(a: seq<Row>, b: seq<Row>, statuses: set<string>)
    ensures SumOf(a + b, statuses) == SumOf(a, statuses) + SumOf(b, statuses)
  {
    if b == [] {
      assert a + b == a;
    } else {
      var init := b[..|b| - 1];
      assert (a + b)[..|a + b| - 1] == a + init;
      assert (a + b)[|a + b| - 1] == b[|b| - 1];
      SumOfConcat(a, init, statuses);
    }
  }

  /** Removing the row at index j takes its contribution out of the sum. */
  lemma SumOfWithout(rows: seq<Row>, j: nat, statuses: set<string>)
    requires j < |rows|
    ensures SumOf(rows, statuses) ==
      SumOf(rows[..j] + rows[j + 1..], statuses) + SumOf([rows[j]], statuses)
  {
    assert rows == rows[..j] + ([rows[j]] + rows[j + 1..]);
    SumOfConcat(rows[..j], [rows[j]] + rows[j + 1..], statuses);
    SumOfConcat([rows[j]], rows[j + 1..], statuses);
    SumOfConcat(rows[..j], rows[j + 1..], statuses);
  }

  /** A sum over the rows depends only on which rows there are, not on their order. */
  lemma {:induction false} SumOfPermutation(rows: seq<Row>, rows': seq<Row>, statuses: set<string>)
    requires multiset(rows) == multiset(rows')
    ensures SumOf(rows, statuses) == SumOf(rows', statuses)
    decreases |rows|
  {
    if rows == [] {
      assert |rows'| == |multiset(rows')| == 0;
    } else {
      var n := |rows| - 1;
      var last := rows[n];
      assert rows == rows[..n] + [last];
      assert last in multiset(rows');
      var j :| 0 <= j < |rows'| && rows'[j] == last;
      var rest' := rows'[..j] + rows'[j + 1..];
      assert rows' == rows'[..j] + [last] + rows'[j + 1..];
      assert multiset(rows) == multiset(rows[..n]) + multiset{last};
      assert multiset(rows') == multiset(rows'[..j]) + multiset{last} + multiset(rows'[j + 1..]);
      assert multiset(rest') == multiset(rows'[..j]) + multiset(rows'[j + 1..]);
      assert multiset(rows[..n]) == multiset(rows) - multiset{last};
      assert multiset(rest') == multiset(rows') - multiset{last};
      SumOfPermutation(rows[..n], rest', statuses);
      SumOfWithout(rows', j, statuses);
      assert SumOf([last], statuses) == SumOf([], statuses) + (if last.commentApproved in statuses then last.total else 0);
    }
  }

  /** The totals are sums, so any reordering of the rows leaves total_comments and all unchanged. */
  lemma TotalsIgnoreOrder(rows: seq<Row>, rows': seq<Row>)
    requires multiset(rows) == multiset(rows')
    ensures Summary(rows)[TotalComments] == Summary(rows')[TotalComments]
    ensures Summary(rows)[All] == Summary(rows')[All]
  {
    SumOfPermutation(rows, rows', InTotalComments);
    SumOfPermutation(rows, rows', InAll);
  }

  /** The buckets, which are assigned rather than added, do depend on the order. */
  lemma BucketsDependOnOrder()
    ensures Summary([Row("1", 2), Row("1", 5)])[Approved] == 5
    ensures Summary([Row("1", 5), Row("1", 2)])[Approved] == 2
  {
    assert [Row("1", 2), Row("1", 5)][..1] == [Row("1", 2)];
    assert [Row("1", 5), Row("1", 2)][..1] == [Row("1", 5)];
  }

  /**
   * A user with 3 approved, 1 pending, 2 spam and 1 trashed comment:
   * total_comments counts the spam, all does not.
   */
  lemma MixedStatusExample()
    ensures var s := Summary([Row("1", 3), Row("0", 1), Row("spam", 2), Row("trash", 1)]);
      && s[Approved] == 3 && s[AwaitingModeration] == 1 && s[Spam] == 2 && s[Trash] == 1
      && s[PostTrashed] == 0 && s[TotalComments] == 6 && s[All] == 4
  {
    var r1 := [Row("1", 3)];
    var r2 := r1 + [Row("0", 1)];
    var r3 := r2 + [Row("spam", 2)];
    var r4 := r3 + [Row("trash", 1)];
    AppendRow([], Row("1", 3));
    assert [] + r1 == r1;
    assert Summary(r1)[Approved] == 3 && Summary(r1)[AwaitingModeration] == 0 && Summary(r1)[Spam] == 0;
    assert Summary(r1)[Trash] == 0 && Summary(r1)[PostTrashed] == 0;
    assert Summary(r1)[TotalComments] == 3 && Summary(r1)[All] == 3;
    AppendRow(r1, Row("0", 1));
    assert Summary(r2)[Approved] == 3 && Summary(r2)[AwaitingModeration] == 1 && Summary(r2)[Spam] == 0;
    assert Summary(r2)[Trash] == 0 && Summary(r2)[PostTrashed] == 0;
    assert Summary(r2)[TotalComments] == 4 && Summary(r2)[All] == 4;
    AppendRow(r2, Row("spam", 2));
    assert Summary(r3)[Approved] == 3 && Summary(r3)[AwaitingModeration] == 1 && Summary(r3)[Spam] == 2;
    assert Summary(r3)[Trash] == 0 && Summary(r3)[PostTrashed] == 0;
    assert Summary(r3)[TotalComments] == 6 && Summary(r3)[All] == 4;
    AppendRow(r3, Row("trash", 1));
    assert r4 == [Row("1", 3), Row("0", 1), Row("spam", 2), Row("trash", 1)];
  }

  /** The foreach loop over the result rows, updating the array in place. */
  method TallyRows(rows: seq<Row>) returns (count: map<Key, int>)
    ensures count == Summary(rows)
  {
    count := Initial;
    for i := 0 to |rows|
      invariant count == Summary(rows[..i])
    {
      var row := rows[i];
      AppendRow(rows[..i], row);
      assert rows[..i + 1] == rows[..i] + [row];
      if row.commentApproved == "trash" {
        count := count[Trash := row.total];
      } else if row.commentApproved == "post-trashed" {
        count := count[PostTrashed := row.total];
      } else if row.commentApproved == "spam" {
        count := count[Spam := row.total];
        count := count[TotalComments := count[TotalComments] + row.total];
      } else if row.commentApproved == "1" {
        count := count[Approved := row.total];
        count := count[TotalComments := count[TotalComments] + row.total];
        count := count[All := count[All] + row.total];
      } else if row.commentApproved == "0" {
        count := count[AwaitingModeration := row.total];
        count := count[TotalComments := count[TotalComments] + row.total];
        count := count[All := count[All] + row.total];
      }
    }
    assert rows[..|rows|] == rows;
  }

  /** The argument: a PHP int or a PHP string. */
  datatype Arg = Int(n: int) | Str(s: string)

  /** The WHERE clause the tally query runs with. */
  datatype Filter = ByUserId(id: Arg) | ByAuthorEmail(email: Arg)

  /** The host platform, as far as the tally consults it. */
  datatype Host = Host(
    // `is_numeric($s) && $s > 0` for a string argument
    positiveNumeric: string -> bool,
    // `is_email($s)` for a string argument
    isEmail: string -> bool,
    // `get_user_by('id', x)` resp. `get_user_by('email', x)` finds a user
    userExists: Filter -> bool,
    // the rows of the GROUP BY query under that WHERE clause
    commentsWhere: Filter -> seq<Row>)

  /** `is_numeric($x) && $x > 0`: exact for an int, the host's answer for a string. */
  predicate PositiveNumeric(h: Host, a: Arg)
  {
    match a
    case Int(n) => n > 0
    case Str(s) => h.positiveNumeric(s)
  }

  /** `is_email($x)`: an int has no '@' and is never an address. */
  predicate IsEmail(h: Host, a: Arg)
  {
    match a
    case Int(_) => false
    case Str(s) => h.isEmail(s)
  }

  /**
   * The guard before the tally: the id branch is tried first, the e-mail
   * branch only when the argument is not a positive number; None stands for
   * the early `return 0`.
   */
  function Resolve(h: Host, a: Arg): (r: Option<Filter>)
    ensures r.Some? ==> h.userExists(r.value)
    ensures r.Some? ==> r.value == ByUserId(a) || r.value == ByAuthorEmail(a)
    ensures r == Some(ByUserId(a)) <==> PositiveNumeric(h, a) && h.userExists(ByUserId(a))
    ensures r == Some(ByAuthorEmail(a)) <==>
      !PositiveNumeric(h, a) && IsEmail(h, a) && h.userExists(ByAuthorEmail(a))
  {
    if PositiveNumeric(h, a) then
      if h.userExists(ByUserId(a)) then Some(ByUserId(a)) else None
    else if IsEmail(h, a) then
      if h.userExists(ByAuthorEmail(a)) then Some(ByAuthorEmail(a)) else None
    else None
  }

  /** An argument that is neither a positive number nor an address is rejected. */
  lemma RejectedArgument(h: Host, a: Arg)
    requires !PositiveNumeric(h, a) && !IsEmail(h, a)
    ensures Resolve(h, a) == None
  {
  }

  /** Zero and negative integers are rejected, whatever the host says. */
  lemma NonPositiveIdRejected(h: Host, n: int)
    requires n <= 0
    ensures Resolve(h, Int(n)) == None
  {
  }

  /**
   * The id branch comes first: for a positive number the host's e-mail
   * check and e-mail lookup are never consulted, even when it also passes
   * as an address.
   */
  lemma IdBranchFirst(h: Host, h': Host, a: Arg)
    requires PositiveNumeric(h, a)
    requires h'.positiveNumeric == h.positiveNumeric
    requires h'.userExists(ByUserId(a)) == h.userExists(ByUserId(a))
    ensures Resolve(h', a) == Resolve(h, a)
    ensures Resolve(h, a) == None <==> !h.userExists(ByUserId(a))
  {
  }

  /** What `get_comment_count` returns: the scalar 0, or the array. */
  datatype CountResult = Zero | Counts(counts: map<Key, int>)

  /** The result of `get_comment_count`, as a function of the host and the argument. */
  function CommentCount(h: Host, a: Arg): (r: CountResult)
    ensures r.Zero? <==> Resolve(h, a).None?
    ensures r.Counts? ==> r.counts.Keys == AllKeys
  {
    match Resolve(h, a)
    case None => Zero
    case Some(f) => Counts(Summary(h.commentsWhere(f)))
  }

  /** `get_comment_count`: the guard with its early returns, then the tally loop. */
  method GetCommentCount(h: Host, a: Arg) returns (r: CountResult)
    ensures r == CommentCount(h, a)
  {
    var filter: Filter;
    if PositiveNumeric(h, a) {
      if !h.userExists(ByUserId(a)) {
        return Zero;
      }
      filter := ByUserId(a);
    } else if IsEmail(h, a) {
      if !h.userExists(ByAuthorEmail(a)) {
        return Zero;
      }
      filter := ByAuthorEmail(a);
    } else {
      return Zero;
    }
    var totals := h.commentsWhere(filter);
    var count := TallyRows(totals);
    r := Counts(count);
  }
}
