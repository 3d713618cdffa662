/**
 * The route handlers of backend/server.js as methods of one `Server` object that owns the two
 * collections. Each handler returns a `Response` in place of an HTTP status and JSON body.
 *
 * Library calls the handlers make are parameters: `parseFloat` (amount coercion; `None` for NaN),
 * `parseDate` (`new Date(text)`; `None` for an Invalid Date), `now` (`new Date()`), and `decode` (`decodeURIComponent`, the
 * percent-decoding of section 2.1 of RFC 3986), which is applied to path parameters only and
 * yields `None` where `decodeURIComponent` throws on a malformed escape.
 */
module ExpenseServer {
  import opened Options
  import opened Sorting
  import opened ExpenseTable

  /** The statuses the handlers answer with: 200, 201, 400, 401, 404 and 500. */
  datatype Response<T> =
    | Ok(value: T)
    | Created(value: T)
    | BadRequest(error: string)
    | Unauthorized(message: string)
    | NotFound(error: string)
    | ServerError(error: string)

  /** A field of a JSON request body, as far as the handlers distinguish it. */
  datatype BodyValue = Absent | Null | Text(text: string) | Number(number: real)

  /** JavaScript truthiness of a body field: missing, null, "" and 0 are falsy. */
  predicate Truthy(v: BodyValue) {
    match v
    case Absent => false
    case Null => false
    case Text(s) => s != ""
    case Number(n) => n != 0.0
  }

  /**
   * `parseFloat(amount)`: a number is kept, a text goes through the parser, and `null` (read as the
   * text "null") is NaN. `None` stands for NaN, which the store's number field refuses to hold.
   */
  function AmountOf(v: BodyValue, parseFloat: string -> Option<real>): (a: Option<real>)
    requires !v.Absent?
    ensures v.Null? ==> a.None?
    ensures v.Number? ==> a == Some(v.number)
  {
    match v
    case Null => None
    case Text(s) => parseFloat(s)
    case Number(n) => Some(n)
  }

  /** The date of a new record: the parsed text when one is given, otherwise the clock. */
  function DateOrNow(date: string, parseDate: string -> Option<int>, now: int): Option<int> {
    if date != "" then parseDate(date) else Some(now)
  }

  /**
   * The update carries a value the store cannot cast: an amount that is NaN or a date that is an
   * Invalid Date. The store refuses the whole update before it looks for the record.
   */
  predicate UpdateCastFails(amount: BodyValue, date: string, parseFloat: string -> Option<real>,
                            parseDate: string -> Option<int>)
  {
    || (!amount.Absent? && AmountOf(amount, parseFloat).None?)
    || (date != "" && parseDate(date).None?)
  }

  const UserNotFound := "User not found"
  const ExpenseNotFound := "Expense not found"
  const MissingFields := "Missing required fields"
  const NewCategoryRequired := "New category name is required"
  const InvalidCredentials := "Invalid username or password"
  const RegistrationFailed := "Registration failed"
  const AddFailed := "Failed to add expense"
  const UpdateFailed := "Failed to update expense"
  const FetchCategoryFailed := "Failed to fetch category expenses"
  const DeleteCategoryFailed := "Failed to delete category expenses"
  const RenameCategoryFailed := "Failed to update category name"

  /** The message of a duplicate-key failure, naming the clashing field. */
  function AlreadyExists(field: string): string {
    field + " already exists"
  }

  class Server {
    var users: seq<User>
    var expenses: seq<Expense>
    /** The next id the store assigns; every existing id is smaller. */
    var nextId: nat

    ghost predicate Valid()
      reads this
    {
      && AccountsUnique(users)
      && (forall k :: 0 <= k < |users| ==> users[k].username != "")
      && IdsUnique(expenses)
      && (forall e :: e in expenses ==> e.id < nextId)
      && OwnersRegistered(expenses, users)
    }

    constructor ()
      ensures Valid()
      ensures users == [] && expenses == []
    {
      users, expenses, nextId := [], [], 0;
    }

    /**
     * `POST /register`: a missing field fails validation; a username or an email already in use
     * fails naming that field; otherwise the account is added.
     */
    method Register(username: string, email: string, password: string) returns (r: Response<()>)
      requires Valid()
      modifies this`users
      ensures Valid()
      ensures username == "" || email == "" || password == "" ==>
                r == BadRequest(RegistrationFailed) && users == old(users)
      ensures username != "" && email != "" && password != "" &&
              (exists i :: 0 <= i < |old(users)| && old(users)[i].username == username) ==>
                r == BadRequest(AlreadyExists("username")) && users == old(users)
      ensures username != "" && email != "" && password != "" &&
              (forall i :: 0 <= i < |old(users)| ==> old(users)[i].username != username) &&
              (exists i :: 0 <= i < |old(users)| && old(users)[i].email == email) ==>
                r == BadRequest(AlreadyExists("email")) && users == old(users)
      ensures r.Created? <==>
                username != "" && email != "" && password != "" &&
                (forall i :: 0 <= i < |old(users)| ==> old(users)[i].username != username && old(users)[i].email != email)
      ensures r.Created? ==> users == old(users) + [User(username, email, password)]
    {
      if username == "" || email == "" || password == "" {
        return BadRequest(RegistrationFailed);
      }
      if exists i :: 0 <= i < |users| && users[i].username == username {
        return BadRequest(AlreadyExists("username"));
      }
      if exists i :: 0 <= i < |users| && users[i].email == email {
        return BadRequest(AlreadyExists("email"));
      }
      users := users + [User(username, email, password)];
      r := Created(());
      assert OwnersRegistered(expenses, users) by {
        forall e | e in expenses
          ensures exists k :: 0 <= k < |users| && users[k].username == e.username
        {
          var k :| 0 <= k < |old(users)| && old(users)[k].username == e.username;
          assert users[k] == old(users)[k];
        }
      }
    }

    /** `POST /login`: the username of the account the identifier names, if the password matches. */
    method Login(identifier: string, password: string) returns (r: Response<string>)
      ensures r.Ok? || r == Unauthorized(InvalidCredentials)
      ensures r.Ok? <==> FindUser(users, identifier).Some? && FindUser(users, identifier).value.password == password
      ensures r.Ok? ==> exists i :: 0 <= i < |users| && Identifies(users[i], identifier)
                                    && users[i].username == r.value && users[i].password == password
    {
      match CheckLogin(users, identifier, password)
      case Some(u) => r := Ok(u);
      case None => r := Unauthorized(InvalidCredentials);
    }

    /** `GET /api/expenses/:identifier`: all of the user's records, newest first. */
    method ListExpenses(identifier: string) returns (r: Response<seq<Expense>>)
      requires Valid()
      ensures r.Ok? || r == NotFound(UserNotFound)
      ensures r.NotFound? <==> ResolveUsername(users, identifier).None?
      ensures r.Ok? ==> var u := ResolveUsername(users, identifier).value;
        && multiset(r.value) == multiset(OfUser(expenses, u))
        && (forall e :: e in r.value <==> e in expenses && e.username == u)
        && SortedDesc(r.value, DateOf)
    {
      match ResolveUsername(users, identifier)
      case None => r := NotFound(UserNotFound);
      case Some(u) =>
        var listed := SortDesc(OfUser(expenses, u), DateOf);
        assert forall e :: e in listed <==> e in multiset(listed);
        r := Ok(listed);
    }

    /** `GET /api/expenses/categories/:identifier`: the category roll-up of the user. */
    method ListCategories(identifier: string) returns (r: Response<seq<CategorySummary>>)
      requires Valid()
      ensures r.Ok? || r == NotFound(UserNotFound)
      ensures r.NotFound? <==> ResolveUsername(users, identifier).None?
      ensures r.Ok? ==> IsRollUpOf(expenses, ResolveUsername(users, identifier).value, r.value)
    {
      match ResolveUsername(users, identifier)
      case None => r := NotFound(UserNotFound);
      case Some(u) =>
        RollUpAnswers(expenses, u);
        r := Ok(CategoryRollUp(expenses, u));
    }

    /** `GET /api/expenses/category/:identifier/:category`: the user's records in one category. */
    method ListByCategory(identifier: string, category: string, decode: string -> Option<string>)
      returns (r: Response<seq<Expense>>)
      requires Valid()
      ensures r.Ok? || r == NotFound(UserNotFound) || r == ServerError(FetchCategoryFailed)
      ensures r.NotFound? <==> ResolveUsername(users, identifier).None?
      ensures r.ServerError? <==> ResolveUsername(users, identifier).Some? && decode(category).None?
      ensures r.Ok? ==> var u, c := ResolveUsername(users, identifier).value, decode(category).value;
        && (forall e :: e in r.value <==> e in expenses && e.username == u && e.category == c)
        && multiset(r.value) == multiset(Select(expenses, u, c))
        && SortedDesc(r.value, DateOf)
    {
      match ResolveUsername(users, identifier)
      case None => r := NotFound(UserNotFound);
      case Some(u) =>
        match decode(category)
        case None => r := ServerError(FetchCategoryFailed);
        case Some(c) =>
          var listed := SortDesc(Select(expenses, u, c), DateOf);
          assert forall e :: e in listed <==> e in multiset(listed);
          r := Ok(listed);
    }

    /**
     * `POST /api/expenses`: presence is checked before the identifier is resolved; on success
     * exactly one record is appended, owned by the resolved user, dated `now` when no date is given.
     * An amount that parses to NaN or a date that does not parse fails the save: 500.
     */
    method AddExpense(identifier: string, category: string, amount: BodyValue, date: string,
                      parseFloat: string -> Option<real>, parseDate: string -> Option<int>, now: int)
      returns (r: Response<Expense>)
      requires Valid()
      modifies this`expenses, this`nextId
      ensures Valid()
      ensures identifier == "" || category == "" || !Truthy(amount) ==>
                r == BadRequest(MissingFields) && expenses == old(expenses) && nextId == old(nextId)
      ensures identifier != "" && category != "" && Truthy(amount) &&
              ResolveUsername(users, identifier).None? ==>
                r == NotFound(UserNotFound) && expenses == old(expenses) && nextId == old(nextId)
      ensures identifier != "" && category != "" && Truthy(amount) &&
              ResolveUsername(users, identifier).Some? &&
              (AmountOf(amount, parseFloat).None? || DateOrNow(date, parseDate, now).None?) ==>
                r == ServerError(AddFailed) && expenses == old(expenses) && nextId == old(nextId)
      ensures identifier != "" && category != "" && Truthy(amount) &&
              ResolveUsername(users, identifier).Some? &&
              AmountOf(amount, parseFloat).Some? && DateOrNow(date, parseDate, now).Some? ==>
                && r == Created(Expense(old(nextId), ResolveUsername(users, identifier).value, category,
                                        AmountOf(amount, parseFloat).value,
                                        DateOrNow(date, parseDate, now).value))
                && expenses == old(expenses) + [r.value]
                && nextId == old(nextId) + 1
      ensures r.Created? ==> forall e :: e in old(expenses) ==> e.id != r.value.id
    {
      if identifier == "" || category == "" || !Truthy(amount) {
        return BadRequest(MissingFields);
      }
      match ResolveUsername(users, identifier)
      case None => r := NotFound(UserNotFound);
      case Some(u) =>
        var amt, when := AmountOf(amount, parseFloat), DateOrNow(date, parseDate, now);
        if amt.None? || when.None? {
          return ServerError(AddFailed);
        }
        var e := Expense(nextId, u, category, amt.value, when.value);
        AppendKeepsInvariants(expenses, users, e, nextId);
        expenses := expenses + [e];
        nextId := nextId + 1;
        r := Created(e);
    }

    /**
     * `PUT /api/expenses/:expenseId`: only the supplied fields change (category when non-empty,
     * amount when present, date when non-empty); id and owner stay; every other record stays.
     * An amount that is present but NaN (`null` included) or a date that does not parse makes the
     * store refuse the update before the record is looked up: 500.
     * The owner is not checked: any caller who knows an id can update that record.
     */
    method UpdateExpense(id: nat, category: string, amount: BodyValue, date: string,
                         parseFloat: string -> Option<real>, parseDate: string -> Option<int>)
      returns (r: Response<Expense>)
      requires Valid()
      modifies this`expenses
      ensures Valid()
      ensures r.Ok? || r == NotFound(ExpenseNotFound) || r == ServerError(UpdateFailed)
      ensures r.ServerError? <==> UpdateCastFails(amount, date, parseFloat, parseDate)
      ensures r.NotFound? <==>
        !UpdateCastFails(amount, date, parseFloat, parseDate) &&
        forall i :: 0 <= i < |old(expenses)| ==> old(expenses)[i].id != id
      ensures !r.Ok? ==> expenses == old(expenses)
      ensures r.Ok? ==> exists i :: (0 <= i < |old(expenses)| && old(expenses)[i].id == id
        && r.value == ApplyUpdate(old(expenses)[i], category,
                                  if amount.Absent? then None else AmountOf(amount, parseFloat),
                                  if date != "" then parseDate(date) else None)
        && expenses == old(expenses)[i := r.value])
    {
      if UpdateCastFails(amount, date, parseFloat, parseDate) {
        return ServerError(UpdateFailed);
      }
      match IndexOfId(expenses, id)
      case None => r := NotFound(ExpenseNotFound);
      case Some(i) =>
        var updated := ApplyUpdate(expenses[i], category,
                                   if amount.Absent? then None else AmountOf(amount, parseFloat),
                                   if date != "" then parseDate(date) else None);
        expenses := expenses[i := updated];
        r := Ok(updated);
        SameKeysKeepInvariants(old(expenses), expenses, users, nextId);
    }

    /** `DELETE /api/expenses/:expenseId`: removes that one record and answers with it. */
    method DeleteExpense(id: nat) returns (r: Response<Expense>)
      requires Valid()
      modifies this`expenses
      ensures Valid()
      ensures r.Ok? || r == NotFound(ExpenseNotFound)
      ensures r.NotFound? <==> forall i :: 0 <= i < |old(expenses)| ==> old(expenses)[i].id != id
      ensures r.NotFound? ==> expenses == old(expenses)
      ensures r.Ok? ==> r.value in old(expenses) && r.value.id == id
      ensures r.Ok? ==> multiset(expenses) + multiset{r.value} == multiset(old(expenses))
      ensures r.Ok? ==> forall e :: e in expenses ==> e.id != id
    {
      match IndexOfId(expenses, id)
      case None => r := NotFound(ExpenseNotFound);
      case Some(i) =>
        r := Ok(expenses[i]);
        RemoveAtContents(expenses, i);
        RemoveAtIds(expenses, i);
        RemoveAtKeepsOwners(expenses, users, i, nextId);
        expenses := expenses[..i] + expenses[i + 1..];
    }

    /**
     * `DELETE /api/expenses/category/:identifier/:category`: removes all and only the user's
     * records in the decoded category and reports how many; zero is a success.
     */
    method DeleteCategory(identifier: string, category: string, decode: string -> Option<string>)
      returns (r: Response<nat>)
      requires Valid()
      modifies this`expenses
      ensures Valid()
      ensures r.Ok? || r == NotFound(UserNotFound) || r == ServerError(DeleteCategoryFailed)
      ensures r.NotFound? <==> ResolveUsername(users, identifier).None?
      ensures r.ServerError? <==> ResolveUsername(users, identifier).Some? && decode(category).None?
      ensures !r.Ok? ==> expenses == old(expenses)
      ensures r.Ok? ==> var u, c := ResolveUsername(users, identifier).value, decode(category).value;
        && expenses == Reject(old(expenses), u, c)
        && r.value == |Select(old(expenses), u, c)|
        && r.value == |old(expenses)| - |expenses|
    {
      match ResolveUsername(users, identifier)
      case None => r := NotFound(UserNotFound);
      case Some(u) =>
        if decode(category).None? {
          return ServerError(DeleteCategoryFailed);
        }
        var c := decode(category).value;
        SelectRejectPartition(expenses, u, c);
        RejectKeepsIdsUnique(expenses, u, c);
        RejectKeepsOwners(expenses, users, u, c);
        r := Ok(|Select(expenses, u, c)|);
        expenses := Reject(expenses, u, c);
    }

    /**
     * `PUT /api/expenses/category/:identifier/:oldCategory`: a missing new name is refused before
     * the identifier is resolved; otherwise every record of the user under the decoded old name
     * gets the new name verbatim, and the number of records that changed is reported.
     */
    method RenameCategory(identifier: string, oldCategory: string, newCategory: string,
                          decode: string -> Option<string>)
      returns (r: Response<nat>)
      requires Valid()
      modifies this`expenses
      ensures Valid()
      ensures newCategory == "" ==> r == BadRequest(NewCategoryRequired) && expenses == old(expenses)
      ensures newCategory != "" && ResolveUsername(users, identifier).None? ==>
                r == NotFound(UserNotFound) && expenses == old(expenses)
      ensures newCategory != "" && ResolveUsername(users, identifier).Some? && decode(oldCategory).None? ==>
                r == ServerError(RenameCategoryFailed) && expenses == old(expenses)
      ensures newCategory != "" && ResolveUsername(users, identifier).Some? && decode(oldCategory).Some? ==>
                var u := ResolveUsername(users, identifier).value;
                && r.Ok?
                && expenses == Rename(old(expenses), u, decode(oldCategory).value, newCategory)
                && r.value == CountChanged(old(expenses), expenses)
    {
      if newCategory == "" {
        return BadRequest(NewCategoryRequired);
      }
      match ResolveUsername(users, identifier)
      case None => r := NotFound(UserNotFound);
      case Some(u) =>
        if decode(oldCategory).None? {
          return ServerError(RenameCategoryFailed);
        }
        var from := decode(oldCategory).value;
        RenameCount(expenses, u, from, newCategory);
        r := Ok(if from == newCategory then 0 else |Select(expenses, u, from)|);
        RenameSameKeys(expenses, u, from, newCategory);
        SameKeysKeepInvariants(expenses, Rename(expenses, u, from, newCategory), users, nextId);
        expenses := Rename(expenses, u, from, newCategory);
    }
  }
}
