# Admin User Columns, modelled in Dafny

The plugin `FT_Admin_User_Columns` adds a "Comments" column to the user list
of a WordPress admin screen and makes it sortable. Four pieces of its logic are
modelled here:

- **Column registration** (`columns.dfy`, module `Columns`): the
  `manage_users_columns` and `manage_users_sortable_columns` filters write one
  key into a PHP array. The array is an ordered sequence of (key, value) pairs.
  Writing a key overwrites it in place if present and appends it otherwise.
- **List-query rewrite** (`user_query.dfy`, module `UserQuery`): the
  `pre_user_query` filter, a method of the class `QueryDescriptor` that mutates
  the query's FROM and ORDER BY fragments. `strtoupper` is ASCII upper-casing.
- **Comment tally** (`comment_count.dfy`, module `CommentTally`):
  `get_comment_count`. It has an input guard and a `foreach` loop that fills a
  seven-key array. The loop is the method `TallyRows`, proved equal to the
  declarative `Summary`: each bucket holds the total of the last row with its
  status, because the source assigns. `total_comments` and `all` hold sums over
  all matching rows, because the source adds. The guard returns the scalar 0,
  so the result type is `Zero | Counts(map)`.
- **Cell rendering** (`custom_column.dfy`, module `CustomColumn`):
  `manage_users_custom_column`, reduced to its branch and the number it shows.

The host platform is a parameter. The `Host` record holds `is_numeric` for
strings, `is_email` for strings, `get_user_by` and the rows of the tally
query. Table names (`$wpdb->comments`, `$wpdb->users`) and the column title
are string parameters. `option.dfy` holds the `Option` type.

Two consequences of the code are worth stating up front:
- `total_comments` includes spam (lines 153-156), so it differs from `all`
  (approved + pending) whenever there is spam. For 3 approved, 1 pending,
  2 spam and 1 trashed comment, `total_comments` is 6 and `all` is 4
  (`MixedStatusExample`).
- For any column other than the plugin's, the cell filter returns null
  (lines 89-98) instead of the output it was given. This is listed under
  Findings.

## Model

| member | source | states |
|---|---|---|
| Columns.Put | ft_admin_user_columns.php:32 | after `$cols[k] = v`, k maps to v; every other key keeps its value; the key order is kept, with k appended only when it was new |
| Columns.PutKeepsKeysUnique | ft_admin_user_columns.php:32 | writing one key never makes a key occur twice |
| Columns.PutIdempotent | ft_admin_user_columns.php:32 | writing the same key and value twice equals writing it once |
| Columns.ManageUsersColumns | ft_admin_user_columns.php:31-34 | the result maps `user_comments_count` to the title; every other column keeps its title; existing columns keep their order; the new column comes last when it was absent |
| Columns.ManageUsersColumnsIdempotent | ft_admin_user_columns.php:31-34 | applying the column filter twice equals applying it once |
| Columns.ManageUsersSortableColumns | ft_admin_user_columns.php:41-44 | the result maps `user_comments_count` to itself; every other key is unchanged; existing keys keep their order |
| Columns.ManageUsersSortableColumnsIdempotent | ft_admin_user_columns.php:41-44 | applying the sortable-column filter twice equals applying it once |
| UserQuery.UpperChar | ft_admin_user_columns.php:61 | `strtoupper` on a character: an ASCII lower-case letter moves down by 32; every other character is unchanged |
| UserQuery.ToUpper | ft_admin_user_columns.php:61 | `strtoupper` keeps the length and upper-cases each character in place |
| UserQuery.UpperIsAsc | ft_admin_user_columns.php:61 | a string upper-cases to "ASC" exactly when it is "asc" in any mix of cases |
| UserQuery.Order | ft_admin_user_columns.php:60-61 | the direction is "ASC" or "DESC"; it is "ASC" exactly when `order` is present and upper-cases to "ASC"; a missing, empty or "0" order gives "DESC" |
| UserQuery.JoinCommentCounts | ft_admin_user_columns.php:64-71 | the appended join fragment is never empty |
| UserQuery.QueryDescriptor.PreUserQuery | ft_admin_user_columns.php:58-76 | the query variables never change; when `orderby` is absent or another key, FROM and ORDER BY are unchanged; otherwise the old FROM is a strict prefix of the new one (the join is appended) and ORDER BY is " ORDER BY comments_count " plus the normalised direction; the same object is returned |
| CommentTally.Summary | ft_admin_user_columns.php:135-170 | the tally result has exactly the seven keys |
| CommentTally.SummaryOfNoRows | ft_admin_user_columns.php:135-143 | with no rows, all seven keys are 0 |
| CommentTally.AppendRow | ft_admin_user_columns.php:146-169 | one more row sets the bucket of its status to its total and adds it to `total_comments` (spam, 1, 0) and `all` (1, 0); every other entry is unchanged |
| CommentTally.UnrecognisedRowIgnored | ft_admin_user_columns.php:167-168 | a row with any other status changes nothing |
| CommentTally.TrashedRowKeepsTotals | ft_admin_user_columns.php:147-152 | a `trash` or `post-trashed` row changes neither `total_comments` nor `all` |
| CommentTally.DistinctStatusTotals | ft_admin_user_columns.php:153-166 | when each status occurs at most once, `all` = approved + awaiting_moderation and `total_comments` = approved + awaiting_moderation + spam |
| CommentTally.SummaryNonNegative | ft_admin_user_columns.php:135-170 | when every row total is non-negative, all seven entries are non-negative |
| CommentTally.SumOfConcat | ft_admin_user_columns.php:155-165 | the sum over two blocks of rows is the sum of the sums |
| CommentTally.SumOfWithout | ft_admin_user_columns.php:155-165 | removing one row from the sequence removes exactly that row's contribution from the sum |
| CommentTally.SumOfPermutation | ft_admin_user_columns.php:155-165 | two row sequences with the same multiset of rows give the same sum |
| CommentTally.TotalsIgnoreOrder | ft_admin_user_columns.php:155-165 | any reordering of the rows (same multiset) leaves `total_comments` and `all` unchanged |
| CommentTally.BucketsDependOnOrder | ft_admin_user_columns.php:158 | a bucket takes the last matching row's total, so two rows with status 1 in either order give different `approved` values |
| CommentTally.MixedStatusExample | ft_admin_user_columns.php:145-170 | 3 approved, 1 pending, 2 spam and 1 trashed give approved 3, awaiting_moderation 1, spam 2, trash 1, post-trashed 0, total_comments 6, all 4 |
| CommentTally.TallyRows | ft_admin_user_columns.php:135-170 | the `foreach` loop with assignments and `+=` produces exactly `Summary` of the rows |
| CommentTally.Resolve | ft_admin_user_columns.php:113-126 | the guard only lets through a user the host found; the result is the user-id query exactly when the argument is a positive number and the id lookup succeeds; it is the author e-mail query exactly when the argument is not a positive number, is an address and the e-mail lookup succeeds; otherwise it is the early return of 0 |
| CommentTally.RejectedArgument | ft_admin_user_columns.php:124-126 | an argument that is neither a positive number nor an address gives the scalar 0 |
| CommentTally.NonPositiveIdRejected | ft_admin_user_columns.php:114 | zero and negative integers give the scalar 0, whatever the host answers |
| CommentTally.IdBranchFirst | ft_admin_user_columns.php:114-121 | for a positive number the e-mail check and e-mail lookup are never consulted; the result is 0 exactly when the id lookup fails |
| CommentTally.CommentCount | ft_admin_user_columns.php:110-173 | the result is the scalar 0 exactly when the guard rejects; otherwise it is an array with all seven keys |
| CommentTally.GetCommentCount | ft_admin_user_columns.php:110-173 | the guard with early returns, then the loop, produces `CommentCount` |
| CustomColumn.VisibleCount | ft_admin_user_columns.php:94 | `intval($count['all'])` is the `all` entry, or 0 when the guard returned the scalar 0 |
| CustomColumn.ManageUsersCustomColumn | ft_admin_user_columns.php:88-98 | the result is null exactly when the column is not `user_comments_count`, whatever `$output` is; otherwise it is a link for the given user |
| CustomColumn.UnresolvedUserShowsZero | ft_admin_user_columns.php:90-94 | when the guard rejects the user, the link shows 0 |
| CustomColumn.NoCommentsShowsZero | ft_admin_user_columns.php:90-94 | a user without comments gets a link that shows 0 |
| CustomColumn.ShownCountIsApprovedPlusPending | ft_admin_user_columns.php:90-94 | for a resolved user the link shows approved + awaiting_moderation, and that number is non-negative |
| CustomColumn.OtherColumnOutputLost | ft_admin_user_columns.php:89-98 | markup that earlier filters produced for another column is replaced by null |
| CustomColumn.ManageUsersCustomColumnPassThrough | ft_admin_user_columns.php:88-98 | the corrected filter returns the given output for other columns and the same link as the original for the plugin's column |

## Findings

| source | as written | input that shows it | evidently intended | confidence | as-written member | corrected member |
|---|---|---|---|---|---|---|
| ft_admin_user_columns.php:88-98 | for any other column the filter falls off the end and returns null, so it drops the output that earlier filters produced for that cell | output `<b>admin</b>`, column `last_login` (another plugin's custom column) | return the given output unchanged for other columns: the doc comment promises a string, and a WordPress filter must return its first argument | not executed; high | CustomColumn.OtherColumnOutputLost | CustomColumn.ManageUsersCustomColumnPassThrough |

## Left out

- Hook registration in the constructor and the `admin_init` bootstrap with its `is_admin`/`current_user_can` check (lines 15-20, 177-182). This is platform wiring with no behaviour of its own.
- The SQL of the tally (`$wpdb->prepare`, `$wpdb->get_results`, the GROUP BY text, lines 118, 123, 128-133). The rows are the host's answer for a `Filter`: by user id or by author e-mail, matching the branch taken.
- `is_numeric`, `is_email` and `get_user_by` are host oracles. For an int argument, `is_numeric($x) && $x > 0` is exactly `x > 0`. `is_email` is taken to be false, since an integer has no '@'.
- Translation, URL building and escaping (`__`, `_n`, `sprintf`, `add_query_arg`, `admin_url`, `esc_url`, `esc_attr`, lines 32, 91-93). The column title is a parameter. The link is reduced to the user and the number it shows. The `_n`/`sprintf` title built from the whole array (line 92) depends on PHP type coercion and is not modelled.
- CustomColumn.VisibleCount: the decimal text that `.=` makes of the integer is not modelled; the link carries the integer.
- Row totals are integers. In PHP the buckets receive the database's string and the totals are coerced by `+=`. Where it matters (line 94), `intval` makes the two agree.
- PHP loose comparison in `switch` and `==` (for example `'01' == '1'`). Statuses and keys are compared as exact strings.
- Query variables are strings. WordPress also accepts arrays for `orderby`, and `isset` is false for a null value; neither case is modelled.
- Counts by address and counts by id are not related by the model: the two branches run different WHERE clauses (`user_id` versus `comment_author_email`), so their counts can differ for the same user, depending on the stored comments.
