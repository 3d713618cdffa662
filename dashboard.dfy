/**
 * The dashboard page's form state: the category list loaded when the page mounts, the three
 * inputs of the "Add Expense" form, and the list of expenses added during the visit. The page
 * keeps that list in memory only; nothing here is sent to the server.
 */
module Dashboard {
  import opened Options

  /** One entry of the category drop-down. */
  datatype CategoryOption = CategoryOption(name: string)

  /** An expense added through the form; the amount and the date stay as the inputs' text. */
  datatype FormExpense = FormExpense(category: string, amount: string, date: string)

  /** The drop-down entries the page starts with, before the mount-time load replaces them. */
  const DefaultCategories := [CategoryOption("Food"), CategoryOption("Bills"), CategoryOption("Travel")]

  const FillOutAllFields := "Please fill out all fields"

  /** Every field of the item holds text (a non-empty string is truthy). */
  predicate Complete(item: FormExpense) {
    item.category != "" && item.amount != "" && item.date != ""
  }

  class DashboardState {
    var categories: seq<CategoryOption>
    var selectedCategory: string
    var expenseAmount: string
    var expenseDate: string
    var newExpense: seq<FormExpense>

    /** Only complete items ever enter the list. */
    ghost predicate Valid()
      reads this
    {
      forall i :: 0 <= i < |newExpense| ==> Complete(newExpense[i])
    }

    /** The initial `useState` values. */
    constructor ()
      ensures Valid()
      ensures categories == DefaultCategories
      ensures selectedCategory == "" && expenseAmount == "" && expenseDate == ""
      ensures newExpense == []
    {
      categories := DefaultCategories;
      selectedCategory, expenseAmount, expenseDate := "", "", "";
      newExpense := [];
    }

    /**
     * The mount-time effect: `JSON.parse(localStorage.getItem('categories')) || []`. `stored` is
     * the parsed list, or `None` when nothing is stored (`JSON.parse(null)` is `null`). The list
     * replaces the defaults whatever it is, so with nothing stored the drop-down ends up empty.
     */
    method LoadCategories(stored: Option<seq<CategoryOption>>)
      modifies this`categories
      ensures categories == if stored.Some? then stored.value else []
    {
      match stored
      case Some(list) => categories := list;
      case None => categories := [];
    }

    /** `handleCategoryChange`. */
    method ChangeCategory(value: string)
      modifies this`selectedCategory
      ensures selectedCategory == value
    {
      selectedCategory := value;
    }

    /** `handleAmountChange`. */
    method ChangeAmount(value: string)
      modifies this`expenseAmount
      ensures expenseAmount == value
    {
      expenseAmount := value;
    }

    /** `handleDateChange`. */
    method ChangeDate(value: string)
      modifies this`expenseDate
      ensures expenseDate == value
    {
      expenseDate := value;
    }

    /**
     * `handleAddExpense`: with all three inputs filled, the item is appended and the amount and
     * date inputs are cleared (the selected category stays); otherwise the page alerts and
     * nothing changes.
     */
    method HandleAddExpense() returns (alert: Option<string>)
      requires Valid()
      modifies this`newExpense, this`expenseAmount, this`expenseDate
      ensures Valid()
      ensures alert.Some? <==> old(selectedCategory) == "" || old(expenseAmount) == "" || old(expenseDate) == ""
      ensures alert.Some? ==> alert.value == FillOutAllFields
      ensures alert.Some? ==>
        newExpense == old(newExpense) && expenseAmount == old(expenseAmount) && expenseDate == old(expenseDate)
      ensures alert.None? ==>
        && newExpense == old(newExpense) + [FormExpense(old(selectedCategory), old(expenseAmount), old(expenseDate))]
        && expenseAmount == "" && expenseDate == ""
    {
      if selectedCategory != "" && expenseAmount != "" && expenseDate != "" {
        var item := FormExpense(selectedCategory, expenseAmount, expenseDate);
        newExpense := newExpense + [item];
        expenseAmount := "";
        expenseDate := "";
        alert := None;
      } else {
        alert := Some(FillOutAllFields);
      }
    }
  }
}
