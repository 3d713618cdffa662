/**
 * The two collections of the expense service as in-memory tables, and the pure queries
 * that the route handlers of backend/server.js run over them: identity resolution,
 * per-user filters, the category roll-up, and the bulk rename and delete of a category.
 *
 * Amounts are reals (the service stores `parseFloat` results; binary floating point
 * is not modelled) and dates are integer timestamps.
 */
module ExpenseTable {
  import opened Options
  import opened Sorting

  datatype User = User(username: string, email: string, password: string)

  /** An expense record; `id` is assigned by the store when the record is created. */
  datatype Expense = Expense(id: nat, username: string, category: string, amount: real, date: int)

  // ---------------------------------------------------------------- table invariants

  /** The store's two unique indexes: no two accounts share a username or an email. */
  ghost predicate AccountsUnique(users: seq<User>) {
    forall i, j :: 0 <= i < j < |users| ==>
      users[i].username != users[j].username && users[i].email != users[j].email
  }

  /** No two expense records share an id. */
  ghost predicate IdsUnique(es: seq<Expense>) {
    forall i, j :: 0 <= i < j < |es| ==> es[i].id != es[j].id
  }

  /** Every record names an account that exists (nothing ever deletes an account). */
  ghost predicate OwnersRegistered(es: seq<Expense>, users: seq<User>) {
    forall e :: e in es ==> exists k :: 0 <= k < |users| && users[k].username == e.username
  }

  // ---------------------------------------------------------------- identity resolution

  /** The `$or` condition of the user lookup: exact match on username or on email. */
  predicate Identifies(u: User, identifier: string) {
    u.username == identifier || u.email == identifier
  }

  /** Position of the first account the identifier names, or |users| when none does. */
  function FirstMatch(users: seq<User>, identifier: string): (k: nat)
    ensures k <= |users|
    ensures k < |users| ==> Identifies(users[k], identifier)
    ensures forall j :: 0 <= j < k ==> !Identifies(users[j], identifier)
  {
    if users == [] then 0
    else if Identifies(users[0], identifier) then 0
    else 1 + FirstMatch(users[1..], identifier)
  }

  /** `User.findOne({ $or: [{ username }, { email }] })`: the account the identifier names. */
  function FindUser(users: seq<User>, identifier: string): (r: Option<User>)
    ensures r.None? <==> forall i :: 0 <= i < |users| ==> !Identifies(users[i], identifier)
    ensures r.Some? ==> r.value in users && Identifies(r.value, identifier)
  {
    var k := FirstMatch(users, identifier);
    if k < |users| then Some(users[k]) else None
  }

  /** `getUsernameFromIdentifier`: the canonical username for a username or an email. */
  function ResolveUsername(users: seq<User>, identifier: string): (r: Option<string>)
    ensures r.None? <==> forall i :: 0 <= i < |users| ==> !Identifies(users[i], identifier)
    ensures r.Some? ==> exists i :: 0 <= i < |users| && Identifies(users[i], identifier)
                                    && users[i].username == r.value
  {
    match FindUser(users, identifier)
    case Some(u) => Some(u.username)
    case None => None
  }

  /** The login check: the looked-up account exists and its stored password equals the given one. */
  function CheckLogin(users: seq<User>, identifier: string, password: string): (r: Option<string>)
    ensures r.Some? <==> FindUser(users, identifier).Some? && FindUser(users, identifier).value.password == password
    ensures r.Some? ==> exists i :: 0 <= i < |users| && Identifies(users[i], identifier)
                                    && users[i].username == r.value && users[i].password == password
  {
    match FindUser(users, identifier)
    case Some(u) => if u.password == password then Some(u.username) else None
    case None => None
  }

  /** With unique usernames, an account's own username always resolves to that account. */
  lemma {:induction false} UsernameResolvesToItself(users: seq<User>, k: nat)
    requires AccountsUnique(users)
    requires k < |users|
    requires forall j :: 0 <= j < |users| ==> users[j].email != users[k].username
    ensures ResolveUsername(users, users[k].username) == Some(users[k].username)
  {
    var m := FirstMatch(users, users[k].username);
    assert Identifies(users[k], users[k].username);
    assert m == k;
  }

  // ---------------------------------------------------------------- filters

  function DateOf(e: Expense): int { e.date }

  /** `Expenses.find({ username })`: the records owned by `u`, in table order. */
  function OfUser(es: seq<Expense>, u: string): (r: seq<Expense>)
    ensures forall e :: e in r <==> e in es && e.username == u
    ensures |r| <= |es|
  {
    if es == [] then []
    else if es[0].username == u then [es[0]] + OfUser(es[1..], u)
    else OfUser(es[1..], u)
  }

  /** The records a category query of `u` for category `c` matches. */
  predicate Matches(e: Expense, u: string, c: string) {
    e.username == u && e.category == c
  }

  /** `Expenses.find({ username, category })`: the records of `u` filed under `c`. */
  function Select(es: seq<Expense>, u: string, c: string): (r: seq<Expense>)
    ensures forall e :: e in r <==> e in es && Matches(e, u, c)
    ensures |r| <= |es|
  {
    if es == [] then []
    else if Matches(es[0], u, c) then [es[0]] + Select(es[1..], u, c)
    else Select(es[1..], u, c)
  }

  /** What `deleteMany({ username, category })` leaves behind. */
  function Reject(es: seq<Expense>, u: string, c: string): (r: seq<Expense>)
    ensures forall e :: e in r <==> e in es && !Matches(e, u, c)
    ensures |r| <= |es|
  {
    if es == [] then []
    else if Matches(es[0], u, c) then Reject(es[1..], u, c)
    else [es[0]] + Reject(es[1..], u, c)
  }

  /** Every record is either selected or kept, never both: the deleted count is |Select|. */
  lemma {:induction false} SelectRejectPartition(es: seq<Expense>, u: string, c: string)
    ensures |Select(es, u, c)| + |Reject(es, u, c)| == |es|
    ensures multiset(Select(es, u, c)) + multiset(Reject(es, u, c)) == multiset(es)
  {
    if es != [] {
      assert es == [es[0]] + es[1..];
      SelectRejectPartition(es[1..], u, c);
    }
  }

  /** Removing records never creates a duplicate id. */
  lemma {:induction false} RejectKeepsIdsUnique(es: seq<Expense>, u: string, c: string)
    requires IdsUnique(es)
    ensures IdsUnique(Reject(es, u, c))
  {
    if es != [] {
      RejectKeepsIdsUnique(es[1..], u, c);
      var rest := Reject(es[1..], u, c);
      if !Matches(es[0], u, c) {
        forall j | 0 <= j < |rest|
          ensures rest[j].id != es[0].id
        {
          assert rest[j] in es[1..];
        }
      }
    }
  }

  /** Removing records never orphans the ones that stay. */
  lemma {:induction false} RejectKeepsOwners(es: seq<Expense>, users: seq<User>, u: string, c: string)
    requires OwnersRegistered(es, users)
    ensures OwnersRegistered(Reject(es, u, c), users)
  {
  }

  // ---------------------------------------------------------------- aggregates

  /** `$sum: '$amount'`. */
  function Total(es: seq<Expense>): real {
    if es == [] then 0.0 else es[0].amount + Total(es[1..])
  }

  /** `$max: '$date'` over a non-empty group. */
  function MaxDate(es: seq<Expense>): (d: int)
    requires es != []
    ensures forall i :: 0 <= i < |es| ==> es[i].date <= d
    ensures exists i :: 0 <= i < |es| && es[i].date == d
  {
    if |es| == 1 then es[0].date
    else
      var rest := MaxDate(es[1..]);
      assert forall i :: 1 <= i < |es| ==> es[i] == es[1..][i - 1];
      if es[0].date >= rest then es[0].date else rest
  }

  /** The records of `es` filed under category `c`. */
  function InCategory(es: seq<Expense>, c: string): (r: seq<Expense>)
    ensures forall e :: e in r <==> e in es && e.category == c
  {
    if es == [] then []
    else if es[0].category == c then [es[0]] + InCategory(es[1..], c)
    else InCategory(es[1..], c)
  }

  /** Filtering by owner and then by category is the two-field query. */
  lemma {:induction false} SelectIsInCategoryOfUser(es: seq<Expense>, u: string, c: string)
    ensures InCategory(OfUser(es, u), c) == Select(es, u, c)
  {
    if es != [] {
      SelectIsInCategoryOfUser(es[1..], u, c);
    }
  }

  /** The distinct categories of `es`, each once (the `_id` keys of the `$group` stage). */
  function CategoriesOf(es: seq<Expense>): (r: seq<string>)
    ensures forall c :: c in r <==> exists e :: e in es && e.category == c
    ensures Distinct(r)
  {
    if es == [] then []
    else
      var rest := CategoriesOf(es[1..]);
      assert forall e :: e in es <==> e == es[0] || e in es[1..];
      if es[0].category in rest then rest else [es[0].category] + rest
  }

  /** A category that occurs in `es` has at least one record. */
  lemma CategoryHasRecords(es: seq<Expense>, c: string)
    requires c in CategoriesOf(es)
    ensures InCategory(es, c) != []
  {
    var e :| e in es && e.category == c;
    assert e in InCategory(es, c);
  }

  /** One row of the `$group` stage. */
  datatype CategoryTotal = CategoryTotal(name: string, totalSpent: real, count: nat, latestDate: int)

  /** One entry of the roll-up response. */
  datatype CategorySummary = CategorySummary(
    name: string, totalSpent: real, count: nat, latestDate: int,
    latestAmount: real, latestExpenseId: Option<nat>)

  function TotalDate(g: CategoryTotal): int { g.latestDate }
  function SummaryDate(s: CategorySummary): int { s.latestDate }

  /** The `$group` row of category `c`: sum, count and latest date of its records. */
  function GroupTotal(mine: seq<Expense>, c: string): (g: CategoryTotal)
    requires InCategory(mine, c) != []
    ensures g.name == c
    ensures exists e :: e in InCategory(mine, c) && e.date == g.latestDate
    ensures forall e :: e in InCategory(mine, c) ==> e.date <= g.latestDate
  {
    var group := InCategory(mine, c);
    CategoryTotal(c, Total(group), |group|, MaxDate(group))
  }

  /** The `$group` rows of `mine`, one per category, before sorting. */
  function GroupTotals(mine: seq<Expense>): (r: seq<CategoryTotal>)
    ensures |r| == |CategoriesOf(mine)|
    ensures forall i :: 0 <= i < |r| ==> r[i].name == CategoriesOf(mine)[i]
  {
    var cats := CategoriesOf(mine);
    seq(|cats|, i requires 0 <= i < |cats| =>
          CategoryHasRecords(mine, cats[i]); GroupTotal(mine, cats[i]))
  }

  /** The `$group` stage followed by `$sort: { latestDate: -1 }`. */
  function AggregateByCategory(mine: seq<Expense>): seq<CategoryTotal> {
    SortDesc(GroupTotals(mine), TotalDate)
  }

  /** Every `$group` row is the row of a category that occurs in `mine`. */
  lemma GroupTotalsRows(mine: seq<Expense>)
    ensures forall g :: g in GroupTotals(mine) ==>
      g.name in CategoriesOf(mine) && InCategory(mine, g.name) != [] && g == GroupTotal(mine, g.name)
  {
    var cats := CategoriesOf(mine);
    var gs := GroupTotals(mine);
    forall g | g in gs
      ensures g.name in cats && InCategory(mine, g.name) != [] && g == GroupTotal(mine, g.name)
    {
      var i :| 0 <= i < |gs| && gs[i] == g;
      CategoryHasRecords(mine, cats[i]);
      assert g == GroupTotal(mine, cats[i]);
    }
  }

  /** Every aggregated row is the `$group` row of a category that occurs in `mine`. */
  lemma AggregateRows(mine: seq<Expense>)
    ensures forall g :: g in AggregateByCategory(mine) ==>
      g.name in CategoriesOf(mine) && InCategory(mine, g.name) != [] && g == GroupTotal(mine, g.name)
  {
    var gs := GroupTotals(mine);
    var r := AggregateByCategory(mine);
    GroupTotalsRows(mine);
    forall g | g in r
      ensures g in gs
    {
      assert g in multiset(r);
    }
  }

  /** Every category of `mine` has an aggregated row. */
  lemma AggregateCovers(mine: seq<Expense>, c: string)
    requires c in CategoriesOf(mine)
    ensures exists i :: 0 <= i < |AggregateByCategory(mine)| && AggregateByCategory(mine)[i].name == c
  {
    var cats := CategoriesOf(mine);
    var gs := GroupTotals(mine);
    var r := AggregateByCategory(mine);
    var i :| 0 <= i < |cats| && cats[i] == c;
    var g := gs[i];
    assert g in multiset(r) by {
      assert g in multiset(gs);
    }
    assert g in r;
    var j := IndexIn(r, g);
    assert r[j].name == c;
  }

  /** No two aggregated rows share a category name. */
  lemma AggregateNamesDistinct(mine: seq<Expense>)
    ensures var r := AggregateByCategory(mine);
      forall i, j :: 0 <= i < j < |r| ==> r[i].name != r[j].name
  {
    var cats := CategoriesOf(mine);
    var gs := GroupTotals(mine);
    var r := AggregateByCategory(mine);
    assert Distinct(gs) by {
      forall i, j | 0 <= i < j < |gs|
        ensures gs[i] != gs[j]
      {
        assert gs[i].name == cats[i] && gs[j].name == cats[j];
      }
    }
    PermutationKeepsDistinct(gs, r);
    AggregateRows(mine);
    forall i, j | 0 <= i < j < |r|
      ensures r[i].name != r[j].name
    {
      assert r[i] in r && r[j] in r;
      assert r[i] != r[j];
    }
  }

  /**
   * `findOne({ username, category }).sort({ date: -1 })` on the user's records: a newest record
   * of the group, or nothing for an empty group.
   */
  function LatestExpense(mine: seq<Expense>, c: string): (r: Option<Expense>)
    ensures r.None? <==> InCategory(mine, c) == []
    ensures r.Some? ==> r.value in InCategory(mine, c)
    ensures r.Some? ==> forall e :: e in InCategory(mine, c) ==> e.date <= r.value.date
  {
    var group := InCategory(mine, c);
    if group == [] then None
    else
      SortDescFirst(group, DateOf);
      Some(SortDesc(group, DateOf)[0])
  }

  /** Adds the latest-entry fields to a `$group` row; a missing record gives amount 0 and no id. */
  function Annotate(mine: seq<Expense>, g: CategoryTotal): (s: CategorySummary)
    ensures s.name == g.name && s.totalSpent == g.totalSpent && s.count == g.count
    ensures s.latestDate == g.latestDate
  {
    var latest := LatestExpense(mine, g.name);
    CategorySummary(g.name, g.totalSpent, g.count, g.latestDate,
                    if latest.Some? then latest.value.amount else 0.0,
                    if latest.Some? then Some(latest.value.id) else None)
  }

  /** The roll-up of the user's records (`mine` is the result of the `$match` stage). */
  function RollUpOf(mine: seq<Expense>): (r: seq<CategorySummary>)
    ensures |r| == |AggregateByCategory(mine)|
    ensures forall i :: 0 <= i < |r| ==> r[i] == Annotate(mine, AggregateByCategory(mine)[i])
  {
    var totals := AggregateByCategory(mine);
    seq(|totals|, i requires 0 <= i < |totals| => Annotate(mine, totals[i]))
  }

  /** The categories route: the roll-up of user `u`'s records. */
  function CategoryRollUp(es: seq<Expense>, u: string): seq<CategorySummary> {
    RollUpOf(OfUser(es, u))
  }

  /** Each roll-up entry carries the sum, count and latest date of exactly its group. */
  lemma RollUpTotals(es: seq<Expense>, u: string)
    ensures var r := CategoryRollUp(es, u);
      forall i :: 0 <= i < |r| ==>
        && Select(es, u, r[i].name) != []
        && r[i].totalSpent == Total(Select(es, u, r[i].name))
        && r[i].count == |Select(es, u, r[i].name)|
        && r[i].latestDate == MaxDate(Select(es, u, r[i].name))
  {
    var mine := OfUser(es, u);
    var totals := AggregateByCategory(mine);
    var r := CategoryRollUp(es, u);
    AggregateRows(mine);
    forall i | 0 <= i < |r|
      ensures Select(es, u, r[i].name) != []
      ensures r[i].totalSpent == Total(Select(es, u, r[i].name))
      ensures r[i].count == |Select(es, u, r[i].name)|
      ensures r[i].latestDate == MaxDate(Select(es, u, r[i].name))
    {
      assert totals[i] in totals;
      SelectIsInCategoryOfUser(es, u, totals[i].name);
    }
  }

  /** The roll-up names each category once. */
  lemma RollUpNamesDistinct(es: seq<Expense>, u: string)
    ensures NamesDistinct(CategoryRollUp(es, u))
  {
    AggregateNamesDistinct(OfUser(es, u));
  }

  /** Every category the user has a record in appears in the roll-up. */
  lemma RollUpCovers(es: seq<Expense>, u: string, e: Expense)
    requires e in es && e.username == u
    ensures var r := CategoryRollUp(es, u);
      exists i :: 0 <= i < |r| && r[i].name == e.category
  {
    var mine := OfUser(es, u);
    var totals := AggregateByCategory(mine);
    assert e.category in CategoriesOf(mine) by {
      assert e in mine;
    }
    AggregateCovers(mine, e.category);
    var i :| 0 <= i < |totals| && totals[i].name == e.category;
    var r := RollUpOf(mine);
    assert r[i] == Annotate(mine, totals[i]);
    assert r == CategoryRollUp(es, u);
    assert r[i].name == e.category;
  }

  /** The roll-up is ordered by latest date, newest first. */
  lemma RollUpSorted(es: seq<Expense>, u: string)
    ensures SortedDesc(CategoryRollUp(es, u), SummaryDate)
  {
    var totals := AggregateByCategory(OfUser(es, u));
    assert SortedDesc(totals, TotalDate);
  }

  /** An aggregated row's latest amount and id come from a record of its group dated at its latest date. */
  lemma AnnotateLatest(mine: seq<Expense>, g: CategoryTotal)
    requires g in AggregateByCategory(mine)
    ensures var s := Annotate(mine, g);
      && s.latestExpenseId.Some?
      && exists e :: e in InCategory(mine, g.name) && e.id == s.latestExpenseId.value
                     && e.amount == s.latestAmount && e.date == s.latestDate
  {
    AggregateRows(mine);
    var latest := LatestExpense(mine, g.name);
    var w :| w in InCategory(mine, g.name) && w.date == g.latestDate;
    assert latest.value.date == g.latestDate;
  }

  /** Each entry's latest amount and id come from a record of its group dated at the group's latest date. */
  lemma RollUpLatest(es: seq<Expense>, u: string)
    ensures var r := CategoryRollUp(es, u);
      forall i :: 0 <= i < |r| ==>
        && r[i].latestExpenseId.Some?
        && exists e :: e in Select(es, u, r[i].name) && e.id == r[i].latestExpenseId.value
                       && e.amount == r[i].latestAmount && e.date == r[i].latestDate
  {
    var mine := OfUser(es, u);
    var totals := AggregateByCategory(mine);
    var r := CategoryRollUp(es, u);
    forall i | 0 <= i < |r|
      ensures r[i].latestExpenseId.Some?
      ensures exists e :: e in Select(es, u, r[i].name) && e.id == r[i].latestExpenseId.value
                          && e.amount == r[i].latestAmount && e.date == r[i].latestDate
    {
      assert totals[i] in totals;
      AnnotateLatest(mine, totals[i]);
      SelectIsInCategoryOfUser(es, u, totals[i].name);
    }
  }

  /** Each entry carries the sum, count and latest date of exactly the user's records in its category. */
  ghost predicate EntriesTotal(es: seq<Expense>, u: string, r: seq<CategorySummary>) {
    forall i :: 0 <= i < |r| ==>
      && Select(es, u, r[i].name) != []
      && r[i].totalSpent == Total(Select(es, u, r[i].name))
      && r[i].count == |Select(es, u, r[i].name)|
      && r[i].latestDate == MaxDate(Select(es, u, r[i].name))
  }

  /** Each entry's latest amount and id are those of one of its records dated at its latest date. */
  ghost predicate EntriesLatest(es: seq<Expense>, u: string, r: seq<CategorySummary>) {
    forall i :: 0 <= i < |r| ==>
      && r[i].latestExpenseId.Some?
      && exists e :: e in Select(es, u, r[i].name) && e.id == r[i].latestExpenseId.value
                     && e.amount == r[i].latestAmount && e.date == r[i].latestDate
  }

  /** Every category the user has a record in has an entry. */
  ghost predicate CoversUser(es: seq<Expense>, u: string, r: seq<CategorySummary>) {
    forall e :: e in es && e.username == u ==> exists i :: 0 <= i < |r| && r[i].name == e.category
  }

  /** No two entries share a category. */
  ghost predicate NamesDistinct(r: seq<CategorySummary>) {
    forall i, j :: 0 <= i < j < |r| ==> r[i].name != r[j].name
  }

  /**
   * What the categories route promises of its answer `r` for user `u`: one entry per category the
   * user has records in and no other, each with the sum, count and latest date of exactly those
   * records and the amount and id of one of them dated at that latest date; newest first.
   */
  ghost predicate IsRollUpOf(es: seq<Expense>, u: string, r: seq<CategorySummary>) {
    EntriesTotal(es, u, r) && EntriesLatest(es, u, r) && CoversUser(es, u, r) && NamesDistinct(r)
    && SortedDesc(r, SummaryDate)
  }

  /** The roll-up the route computes keeps every promise the route makes. */
  lemma RollUpAnswers(es: seq<Expense>, u: string)
    ensures IsRollUpOf(es, u, CategoryRollUp(es, u))
  {
    var r := CategoryRollUp(es, u);
    assert EntriesTotal(es, u, r) by {
      RollUpTotals(es, u);
    }
    assert EntriesLatest(es, u, r) by {
      RollUpLatest(es, u);
    }
    assert CoversUser(es, u, r) by {
      forall e | e in es && e.username == u
        ensures exists i :: 0 <= i < |r| && r[i].name == e.category
      {
        RollUpCovers(es, u, e);
      }
    }
    assert NamesDistinct(r) by {
      RollUpNamesDistinct(es, u);
    }
    assert SortedDesc(r, SummaryDate) by {
      RollUpSorted(es, u);
    }
  }

  /** Records of other users never change a user's roll-up. */
  lemma {:induction false} RollUpIgnoresOthers(es: seq<Expense>, u: string, e: Expense)
    requires e.username != u
    ensures CategoryRollUp(es + [e], u) == CategoryRollUp(es, u)
  {
    OfUserIgnoresOthers(es, u, e);
  }

  /** Appending another user's record leaves the user's own records as they were. */
  lemma {:induction false} OfUserIgnoresOthers(es: seq<Expense>, u: string, e: Expense)
    requires e.username != u
    ensures OfUser(es + [e], u) == OfUser(es, u)
  {
    if es == [] {
      assert OfUser([e], u) == OfUser([], u);
    } else {
      assert (es + [e])[1..] == es[1..] + [e];
      OfUserIgnoresOthers(es[1..], u, e);
    }
  }

  // ---------------------------------------------------------------- bulk rename

  /** `updateMany({ username, category: from }, { $set: { category: to } })`. */
  function Rename(es: seq<Expense>, u: string, from: string, to: string): (r: seq<Expense>)
    ensures |r| == |es|
    ensures forall i :: 0 <= i < |es| ==>
      r[i] == if Matches(es[i], u, from) then es[i].(category := to) else es[i]
  {
    if es == [] then []
    else
      var head := if Matches(es[0], u, from) then es[0].(category := to) else es[0];
      [head] + Rename(es[1..], u, from, to)
  }

  /** `b` is `a` with at most labels, amounts and dates changed: same ids and owners, position by position. */
  ghost predicate SameKeys(a: seq<Expense>, b: seq<Expense>) {
    |a| == |b| && forall i :: 0 <= i < |a| ==> a[i].id == b[i].id && a[i].username == b[i].username
  }

  /** Changing labels, amounts or dates keeps ids unique, ids bounded and owners registered. */
  lemma SameKeysKeepInvariants(a: seq<Expense>, b: seq<Expense>, users: seq<User>, bound: nat)
    requires SameKeys(a, b)
    requires IdsUnique(a) && OwnersRegistered(a, users)
    requires forall e :: e in a ==> e.id < bound
    ensures IdsUnique(b) && OwnersRegistered(b, users)
    ensures forall e :: e in b ==> e.id < bound
  {
    forall x | x in b
      ensures x.id < bound
      ensures exists k :: 0 <= k < |users| && users[k].username == x.username
    {
      var j :| 0 <= j < |b| && b[j] == x;
      assert a[j] in a;
    }
  }

  /** Renaming changes only labels. */
  lemma RenameSameKeys(es: seq<Expense>, u: string, from: string, to: string)
    ensures SameKeys(es, Rename(es, u, from, to))
  {
  }

  /** Number of positions at which two tables of equal length differ (`modifiedCount`). */
  function CountChanged(a: seq<Expense>, b: seq<Expense>): nat
    requires |a| == |b|
  {
    if a == [] then 0 else (if a[0] != b[0] then 1 else 0) + CountChanged(a[1..], b[1..])
  }

  /** The rename modifies every matching record, unless old and new name are the same. */
  lemma {:induction false} RenameCount(es: seq<Expense>, u: string, from: string, to: string)
    ensures CountChanged(es, Rename(es, u, from, to)) == if from == to then 0 else |Select(es, u, from)|
  {
    if es != [] {
      RenameCount(es[1..], u, from, to);
      assert Rename(es, u, from, to)[1..] == Rename(es[1..], u, from, to);
    }
  }

  /** Renaming keeps every user's total: only labels change, never amounts or owners. */
  lemma {:induction false} RenameKeepsTotals(es: seq<Expense>, u: string, from: string, to: string, v: string)
    ensures Total(OfUser(Rename(es, u, from, to), v)) == Total(OfUser(es, v))
  {
    if es != [] {
      var r := Rename(es, u, from, to);
      assert r[1..] == Rename(es[1..], u, from, to);
      RenameKeepsTotals(es[1..], u, from, to, v);
    }
  }

  /** After renaming to a different name, nothing of the user is left under the old one. */
  lemma {:induction false} RenameEmptiesSource(es: seq<Expense>, u: string, from: string, to: string)
    requires from != to
    ensures Select(Rename(es, u, from, to), u, from) == []
  {
    if es != [] {
      var r := Rename(es, u, from, to);
      assert r[1..] == Rename(es[1..], u, from, to);
      RenameEmptiesSource(es[1..], u, from, to);
    }
  }

  /** Renaming into an unused name moves exactly the old category's records, relabelled, in order. */
  lemma {:induction false} RenameMovesRecords(es: seq<Expense>, u: string, from: string, to: string)
    requires Select(es, u, to) == []
    ensures var moved := Select(Rename(es, u, from, to), u, to);
      && |moved| == |Select(es, u, from)|
      && forall i :: 0 <= i < |moved| ==> moved[i] == Select(es, u, from)[i].(category := to)
  {
    if es != [] {
      var r := Rename(es, u, from, to);
      assert r[1..] == Rename(es[1..], u, from, to);
      assert es[0] in es;
      RenameMovesRecords(es[1..], u, from, to);
    }
  }

  // ---------------------------------------------------------------- single-record updates

  /** Position of the record with id `id`, if any (`findById`). */
  function IndexOfId(es: seq<Expense>, id: nat): (r: Option<nat>)
    ensures r.None? <==> forall i :: 0 <= i < |es| ==> es[i].id != id
    ensures r.Some? ==> r.value < |es| && es[r.value].id == id
  {
    if es == [] then None
    else if es[0].id == id then Some(0)
    else match IndexOfId(es[1..], id)
      case Some(k) => Some(k + 1)
      case None => None
  }

  /**
   * The `updateData` of the update route applied to a record: a category only when one is given,
   * an amount when one is given, a date when one is given; id and owner are never touched.
   */
  function ApplyUpdate(e: Expense, category: string, amount: Option<real>, date: Option<int>): (r: Expense)
    ensures r.id == e.id && r.username == e.username
    ensures r.category == (if category != "" then category else e.category)
    ensures r.amount == (if amount.Some? then amount.value else e.amount)
    ensures r.date == (if date.Some? then date.value else e.date)
  {
    var e1 := if category != "" then e.(category := category) else e;
    var e2 := if amount.Some? then e1.(amount := amount.value) else e1;
    if date.Some? then e2.(date := date.value) else e2
  }

  /** Sending the same update twice has the effect of sending it once. */
  lemma ApplyUpdateIdempotent(e: Expense, category: string, amount: Option<real>, date: Option<int>)
    ensures ApplyUpdate(ApplyUpdate(e, category, amount, date), category, amount, date)
         == ApplyUpdate(e, category, amount, date)
  {
  }

  /** An update that supplies no field leaves the record as it was. */
  lemma EmptyUpdateKeepsRecord(e: Expense)
    ensures ApplyUpdate(e, "", None, None) == e
  {
  }

  /** Removing the record at `i` takes exactly that record out of the table. */
  lemma RemoveAtContents(es: seq<Expense>, i: nat)
    requires i < |es|
    ensures multiset(es[..i] + es[i + 1..]) + multiset{es[i]} == multiset(es)
  {
    assert es == es[..i] + [es[i]] + es[i + 1..];
  }

  /** Removing the record at `i` of a table with unique ids leaves no record with its id. */
  lemma RemoveAtIds(es: seq<Expense>, i: nat)
    requires i < |es|
    requires IdsUnique(es)
    ensures forall e :: e in es[..i] + es[i + 1..] ==> e.id != es[i].id
    ensures IdsUnique(es[..i] + es[i + 1..])
  {
    var r := es[..i] + es[i + 1..];
    assert forall j :: 0 <= j < |r| ==> r[j] == es[if j < i then j else j + 1];
    forall e | e in r
      ensures e.id != es[i].id
    {
      var j :| 0 <= j < |r| && r[j] == e;
    }
  }

  /** Removing the record at `i` keeps every remaining record's owner registered and id bounded. */
  lemma RemoveAtKeepsOwners(es: seq<Expense>, users: seq<User>, i: nat, bound: nat)
    requires i < |es|
    requires OwnersRegistered(es, users) && forall e :: e in es ==> e.id < bound
    ensures OwnersRegistered(es[..i] + es[i + 1..], users)
    ensures forall e :: e in es[..i] + es[i + 1..] ==> e.id < bound
  {
    var r := es[..i] + es[i + 1..];
    forall e | e in r
      ensures e in es
    {
      var j :| 0 <= j < |r| && r[j] == e;
      assert r[j] == es[if j < i then j else j + 1];
    }
  }

  /** Appending a record with a fresh id and a registered owner keeps the table invariants. */
  lemma AppendKeepsInvariants(es: seq<Expense>, users: seq<User>, e: Expense, bound: nat)
    requires IdsUnique(es) && OwnersRegistered(es, users)
    requires forall x :: x in es ==> x.id < bound
    requires e.id == bound
    requires exists k :: 0 <= k < |users| && users[k].username == e.username
    ensures IdsUnique(es + [e]) && OwnersRegistered(es + [e], users)
    ensures forall x :: x in es + [e] ==> x.id < bound + 1
  {
    var r := es + [e];
    forall i, j | 0 <= i < j < |r|
      ensures r[i].id != r[j].id
    {
      assert r[i] == es[i];
      if j < |es| {
        assert r[j] == es[j];
      } else {
        assert es[i] in es;
      }
    }
    forall x | x in r
      ensures x in es || x == e
    {
    }
  }
}
