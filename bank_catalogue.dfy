/** The fixed list of banks that both the Node store and the Spring controller seed. */
module BankCatalogue {
  datatype BankEntry = BankEntry(name: string, icon: string)

  const DefaultBanks: seq<BankEntry> := [
    BankEntry("Chase", "Landmark"),
    BankEntry("Bank of America", "Building2"),
    BankEntry("Citi", "Globe"),
    BankEntry("Wells Fargo", "Briefcase"),
    BankEntry("Goldman Sachs", "TrendingUp"),
    BankEntry("HSBC", "Landmark"),
    BankEntry("Barclays", "Building"),
    BankEntry("Santander", "CreditCard"),
    BankEntry("US Bank", "Wallet"),
    BankEntry("PNC", "DollarSign")
  ]
}
