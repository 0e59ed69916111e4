/**
 * The `pre_user_query` filter: when the user list is sorted by the comment
 * column, join a per-user comment count into the query and order by it.
 */
module UserQuery {
  import opened Columns

  /** PHP's `strtoupper` on one character: ASCII letters only. */
  function UpperChar(c: char): (u: char)
    ensures 'a' <= c <= 'z' ==> u as int == c as int - 32
    ensures !('a' <= c <= 'z') ==> u == c
  {
    if 'a' <= c <= 'z' then (c as int - 32) as char else c
  }

  /** PHP's `strtoupper`: every character upper-cased in place. */
  function ToUpper(s: string): (r: string)
    ensures |r| == |s|
    ensures forall i :: 0 <= i < |s| ==> r[i] == UpperChar(s[i])
  {
    if s == [] then [] else [UpperChar(s[0])] + ToUpper(s[1..])
  }

  /** The characters that `strtoupper` maps to the upper-case letter u. */
  lemma UpperCharTo(c: char, u: char)
    requires 'A' <= u <= 'Z'
    ensures UpperChar(c) == u <==> c == u || c as int == u as int + 32
  {
  }

  /** A string upper-cases to "ASC" exactly when it is "asc" in any mix of cases. */
  lemma UpperIsAsc(s: string)
    ensures ToUpper(s) == "ASC" <==>
      && |s| == 3
      && (s[0] == 'a' || s[0] == 'A')
      && (s[1] == 's' || s[1] == 'S')
      && (s[2] == 'c' || s[2] == 'C')
  {
    if |s| == 3 {
      var u := ToUpper(s);
      UpperCharTo(s[0], 'A');
      UpperCharTo(s[1], 'S');
      UpperCharTo(s[2], 'C');
      assert u == "ASC" <==> u[0] == 'A' && u[1] == 'S' && u[2] == 'C';
    }
  }

  /** PHP's truth value of a string: only "" and "0" are false. */
  predicate Truthy(s: string)
  {
    s != "" && s != "0"
  }

  /** `isset($vars[name]) ? $vars[name] : ''`. */
  function QueryVar(vars: map<string, string>, name: string): string
  {
    if name in vars then vars[name] else ""
  }

  /**
   * The sort direction: "ASC" when the requested order is present and
   * upper-cases to "ASC", "DESC" otherwise (also when it is missing).
   */
  function Order(vars: map<string, string>): (r: string)
    ensures r == "ASC" || r == "DESC"
    ensures r == "ASC" <==> "order" in vars && ToUpper(vars["order"]) == "ASC"
  {
    var order := QueryVar(vars, "order");
    if Truthy(order) && ToUpper(order) == "ASC" then "ASC" else "DESC"
  }

  /**
   * The LEFT OUTER JOIN fragment appended to the FROM clause, with the
   * comments and users table names of the database connection filled in.
   */
  function JoinCommentCounts(commentsTable: string, usersTable: string): (j: string)
    ensures |j| > 0
  {
    "\n\t\t\t\tLEFT OUTER JOIN (\n\t\t\t\tSELECT user_id, COUNT(*) as comments_count\n\t\t\t\tFROM "
    + commentsTable
    + "\n\t\t\t\tGROUP BY user_id\n\t\t\t\t) comments ON ("
    + usersTable
    + ".ID = comments.user_id)\n\t\t\t\t"
  }

  /** The ORDER BY clause that sorts by the joined count. */
  function OrderByCommentCount(order: string): string
  {
    " ORDER BY comments_count " + order
  }

  /** The host's query object (a `WP_User_Query`): its variables and two SQL fragments. */
  class QueryDescriptor {
    var queryVars: map<string, string>
    var queryFrom: string
    var queryOrderby: string

    constructor (vars: map<string, string>, from: string, orderby: string)
      ensures queryVars == vars && queryFrom == from && queryOrderby == orderby
    {
      queryVars := vars;
      queryFrom := from;
      queryOrderby := orderby;
    }

    /**
     * The filter. The query variables are never changed; the two SQL
     * fragments change only when the list is ordered by the comment column,
     * and then the old FROM clause is a strict prefix of the new one.
     * Returns the same object, as the filter returns its argument.
     */
    method PreUserQuery(commentsTable: string, usersTable: string) returns (q: QueryDescriptor)
      modifies this
      ensures q == this
      ensures queryVars == old(queryVars)
      ensures QueryVar(queryVars, "orderby") != ColumnKey ==>
        queryFrom == old(queryFrom) && queryOrderby == old(queryOrderby)
      ensures QueryVar(queryVars, "orderby") == ColumnKey ==>
        && old(queryFrom) < queryFrom
        && queryFrom == old(queryFrom) + JoinCommentCounts(commentsTable, usersTable)
        && queryOrderby == OrderByCommentCount(Order(queryVars))
    {
      var order := Order(queryVars);
      var orderby := QueryVar(queryVars, "orderby");
      if orderby == ColumnKey {
        queryFrom := queryFrom + JoinCommentCounts(commentsTable, usersTable);
        queryOrderby := OrderByCommentCount(order);
      }
      q := this;
    }
  }
}
