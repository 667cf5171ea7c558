/**
 * The records the file-backed store keeps (frontend/shared/schema.ts, plus the card records
 * declared in the store itself) and the external snake_case records of the two seed files.
 * Optional or nullable properties are `Option`s; a property missing from a spread source is
 * `None`. `type` is spelled `kind` because `type` is a Dafny keyword.
 */
module Schema {
  import opened Wrappers

  /** A `Date`, as milliseconds; every `new Date()` of the store is a parameter. */
  type Timestamp = int

  datatype User = User(
    id: int,
    username: string,
    password: string,
    fullName: Option<string>,
    email: Option<string>,
    mobile: Option<string>,
    city: Option<string>,
    country: Option<string>,
    monthlyBudget: Option<string>,
    currency: string,
    appPin: Option<string>,
    fingerprintEnabled: bool,
    isProfileComplete: bool,
    createdAt: Timestamp)

  /** The validated body of a sign-up request (`InsertUser`). */
  datatype InsertUser = InsertUser(
    username: string,
    password: string,
    fullName: Option<string>,
    email: Option<string>,
    mobile: Option<string>,
    city: Option<string>,
    country: Option<string>,
    monthlyBudget: Option<string>,
    currency: Option<string>,
    appPin: Option<string>,
    fingerprintEnabled: Option<bool>,
    isProfileComplete: Option<bool>)

  /** A `Partial<User>`: `Some(v)` is a property present in the patch (possibly holding
      `undefined`, which for an optional property is `Some(None)`), `None` an absent one. */
  datatype UserPatch = UserPatch(
    id: Option<int>,
    username: Option<string>,
    password: Option<string>,
    fullName: Option<Option<string>>,
    email: Option<Option<string>>,
    mobile: Option<Option<string>>,
    city: Option<Option<string>>,
    country: Option<Option<string>>,
    monthlyBudget: Option<Option<string>>,
    currency: Option<string>,
    appPin: Option<Option<string>>,
    fingerprintEnabled: Option<bool>,
    isProfileComplete: Option<bool>,
    createdAt: Option<Timestamp>)

  datatype Bank = Bank(id: int, name: string, icon: Option<string>)

  datatype Account = Account(
    id: int,
    userId: int,
    bankId: int,
    accountNumber: string,
    kind: string,
    balance: string,
    isLinked: bool,
    loanAmount: Option<string>,
    loanPaid: Option<string>,
    createdAt: Timestamp)

  datatype InsertAccount = InsertAccount(
    userId: int,
    bankId: int,
    accountNumber: string,
    kind: string,
    balance: Option<string>,
    isLinked: Option<bool>,
    loanAmount: Option<string>,
    loanPaid: Option<string>)

  /** An account with its bank attached at read time (`Account & { bank: Bank | null }`). */
  datatype AccountView = AccountView(account: Account, bank: Option<Bank>)

  datatype Transaction = Transaction(
    id: int,
    accountId: int,
    amount: string,
    kind: string,
    category: Option<string>,
    description: Option<string>,
    date: Timestamp)

  datatype InsertTransaction = InsertTransaction(
    accountId: int,
    amount: string,
    kind: string,
    category: Option<string>,
    description: Option<string>)

  datatype SavingGoal = SavingGoal(id: int, userId: int, targetAmount: real, currentAmount: real, editable: bool)

  datatype Loan = Loan(id: int, userId: int, loanType: string, totalAmount: real, emiAmount: real, remainingAmount: real)

  datatype Card = Card(
    id: int,
    userId: int,
    contactNumber: string,
    cardAccountNumber: string,
    accountType: string,
    initialBalance: string,
    createdAt: Timestamp,
    duePayments: Option<real>)

  datatype InsertCard = InsertCard(
    userId: int,
    contactNumber: string,
    cardAccountNumber: string,
    accountType: string,
    initialBalance: string)

  /** One user's document `users/<id>.json`. */
  datatype Shard = Shard(
    accounts: seq<Account>,
    transactions: seq<Transaction>,
    savingGoals: seq<SavingGoal>,
    loans: seq<Loan>)

  const EmptyShard := Shard([], [], [], [])

  // The demo dataset `demoData.json`. Numbers that the store turns into text with
  // `toString()` are given here as that text.

  datatype DemoUser = DemoUser(
    userId: int, fullName: string, password: string, email: Option<string>,
    mobileNumber: Option<string>, createdAt: Timestamp)

  datatype DemoAccount = DemoAccount(
    accountId: int, userId: int, bankId: int, accountNumber: string,
    currentBalance: string, createdAt: Timestamp)

  datatype DemoTransaction = DemoTransaction(
    transactionId: int, accountId: int, amount: string, transactionType: string,
    categoryId: int, description: Option<string>, transactionDate: Timestamp)

  datatype DemoGoal = DemoGoal(goalId: int, userId: int, targetAmount: real, currentAmount: real, editable: bool)

  datatype DemoLoan = DemoLoan(
    loanId: int, userId: int, loanType: string, totalAmount: real, emiAmount: real, remainingAmount: real)

  datatype DemoData = DemoData(
    banks: seq<Bank>,
    users: seq<DemoUser>,
    accounts: seq<DemoAccount>,
    transactions: seq<DemoTransaction>,
    savingGoals: seq<DemoGoal>,
    loans: seq<DemoLoan>)

  /** A record of the saved-user file `userData.json`; `monthlyBudget` is the text of the
      stored number, and `fullName` is `None` for a user created without a full name, whose
      `full_name` the file then omits. */
  datatype SavedUser = SavedUser(
    userId: Option<int>,
    fullName: Option<string>,
    password: string,
    email: Option<string>,
    mobileNumber: Option<string>,
    city: Option<string>,
    country: Option<string>,
    monthlyBudget: Option<string>,
    currency: Option<string>,
    appPin: Option<string>,
    fingerprintEnabled: Option<bool>,
    isProfileComplete: Option<bool>,
    createdAt: Timestamp)
}
