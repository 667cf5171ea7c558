/**
 * The Spring `AccountDTO`: an account as the API returns it, with the name of its bank
 * in place of the bank record.
 */
module SpringDto {
  import opened Wrappers

  /** The JPA `Account` entity; a Java `null` is `None`. Timestamps are integers. */
  datatype AccountEntity = AccountEntity(
    id: Option<int>,
    userId: Option<int>,
    bankId: Option<int>,
    accountNumber: Option<string>,
    kind: Option<string>,
    balance: Option<string>,
    isLinked: Option<bool>,
    loanAmount: Option<string>,
    loanPaid: Option<string>,
    createdAt: Option<int>)

  /** The JPA `Bank` entity. */
  datatype BankEntity = BankEntity(id: Option<int>, name: Option<string>, icon: Option<string>)

  datatype AccountDto = AccountDto(
    id: Option<int>,
    userId: Option<int>,
    bankId: Option<int>,
    bankName: Option<string>,
    accountNumber: Option<string>,
    kind: Option<string>,
    balance: Option<string>,
    isLinked: Option<bool>,
    loanAmount: Option<string>,
    loanPaid: Option<string>,
    createdAt: Option<int>)
  {
    /** The account columns a DTO carries, without the bank name. */
    function Account(): AccountEntity {
      AccountEntity(id, userId, bankId, accountNumber, kind, balance, isLinked, loanAmount, loanPaid, createdAt)
    }
  }

  /** `new AccountDTO(account, bank)`; a `None` bank is a null `bank` argument. Every
      account column is copied, so the account can be read back from the DTO; the bank only
      contributes its name, and `bankId` is the account's own. */
  function ToAccountDto(account: AccountEntity, bank: Option<BankEntity>): (d: AccountDto)
    ensures d.Account() == account
    ensures d.bankId == account.bankId
    ensures bank.None? ==> d.bankName == None
    ensures bank.Some? ==> d.bankName == bank.value.name
  {
    AccountDto(account.id, account.userId, account.bankId,
               if bank.Some? then bank.value.name else None,
               account.accountNumber, account.kind, account.balance, account.isLinked,
               account.loanAmount, account.loanPaid, account.createdAt)
  }

  /** Two DTOs of the same account differ at most in the bank name, and not at all when the
      banks have the same name, whatever their ids. */
  lemma BankOnlyNamesTheDto(account: AccountEntity, b1: Option<BankEntity>, b2: Option<BankEntity>)
    ensures ToAccountDto(account, b1).(bankName := None) == ToAccountDto(account, b2).(bankName := None)
    ensures b1.Some? && b2.Some? && b1.value.name == b2.value.name ==>
      ToAccountDto(account, b1) == ToAccountDto(account, b2)
  {
    var d1, d2 := ToAccountDto(account, b1), ToAccountDto(account, b2);
    assert d1.Account() == d2.Account();
  }
}
