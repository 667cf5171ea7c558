/**
 * The file-backed store (`MemoryStorage`): an in-memory user registry and card list, plus one
 * JSON document per user under `data/users/`, modelled as the map `shardFiles` from user id
 * to document. A directory listing is passed in as a sequence of user ids (`IsListing`), and
 * every `new Date()` as a `now` parameter.
 */
module MemoryStore {
  import opened Wrappers
  import opened Sequences
  import opened JsText
  import opened Schema
  import opened StorageSpec

  datatype StoreError = DuplicateMobile

  /** The transactions of the given seed accounts, gathered account by account. */
  method CollectSeedTransactions(accounts: seq<DemoAccount>, txs: seq<DemoTransaction>) returns (r: seq<DemoTransaction>)
    ensures r == SeedTransactionsFor(accounts, txs)
  {
    r := [];
    var i := 0;
    while i < |accounts|
      invariant 0 <= i <= |accounts|
      invariant r == SeedTransactionsFor(accounts[..i], txs)
    {
      r := r + OwnSeedTransactions(txs, accounts[i].accountId);
      assert accounts[..i + 1][..i] == accounts[..i];
      i := i + 1;
    }
    assert accounts[..|accounts|] == accounts;
  }

  /** The `dueAmount` accumulation of `getCardTransactions`: the amounts of the debit
      transactions, an unparsable amount adding 0. */
  method DueAmount(txs: seq<Transaction>) returns (due: real)
    ensures due == DebitTotal(txs)
  {
    due := 0.0;
    var i := 0;
    while i < |txs|
      invariant 0 <= i <= |txs|
      invariant due == DebitTotal(txs[..i])
    {
      if txs[i].kind == "debit" {
        due := due + AmountOrZero(txs[i].amount);
      }
      assert txs[..i + 1][..i] == txs[..i];
      i := i + 1;
    }
    assert txs[..|txs|] == txs;
  }

  class MemoryStorage {
    var users: seq<User>
    var banks: seq<Bank>
    var cards: seq<Card>
    var nextUserId: int
    var nextBankId: int
    var nextAccountId: int
    var nextTransactionId: int
    var nextCardId: int
    /** The documents `data/users/<id>.json`, by user id. */
    var shardFiles: map<int, Shard>

    /** Every card id was handed out before the current card counter. */
    ghost predicate Valid()
      reads this`cards, this`nextCardId
    {
      forall i :: 0 <= i < |cards| ==> cards[i].id < nextCardId
    }

    /** The store as the constructor leaves it: the demo dataset, the saved users and the
        saved cards are each absent when their file is, and `disk` holds the documents
        already present, or is `None` when there is no users directory. */
    constructor (demo: Option<DemoData>, saved: Option<seq<SavedUser>>, savedCards: Option<seq<Card>>, disk: Option<map<int, Shard>>)
      ensures Valid()
      ensures var r := LoadedRegistry(demo, saved, disk);
        users == r.users && nextUserId == r.nextUserId && shardFiles == StartupFiles(demo, saved, disk)
      ensures banks == DemoBanks(demo) && nextBankId == NextIdAfter(Ids(banks, BankId))
      ensures cards == savedCards.GetOr([]) && nextCardId == NextIdAfter(Ids(cards, CardId))
      ensures nextAccountId == 1 && nextTransactionId == 1
    {
      users := [];
      banks := [];
      cards := [];
      nextUserId := 1;
      nextBankId := 1;
      nextAccountId := 1;
      nextTransactionId := 1;
      nextCardId := 1;
      shardFiles := disk.GetOr(map[]);
      new;
      LoadDemoData(demo);
      LoadUserData(saved, disk.Some?);
      CreateUserSpecificDataFiles(demo);
      LoadCardData(savedCards);
    }

    /** `loadDemoData`, run on a fresh store: the demo banks and users, with the counters
        past their ids. */
    method LoadDemoData(demo: Option<DemoData>)
      requires users == [] && nextUserId == 1 && banks == [] && nextBankId == 1
      modifies this
      ensures unchanged(this`cards, this`nextAccountId, this`nextTransactionId, this`nextCardId, this`shardFiles)
      ensures Registry(users, nextUserId, shardFiles) == DemoRegistry(demo, shardFiles)
      ensures banks == DemoBanks(demo) && nextBankId == NextIdAfter(Ids(banks, BankId))
    {
      if demo.Some? {
        var d := demo.value;
        banks := d.banks;
        nextBankId := NextIdAfter(Ids(banks, BankId));
        users := DemoUsers(d.users);
        nextUserId := NextIdAfter(Ids(users, UserId));
      } else {
        assert Ids(users, UserId) == [];
      }
    }

    /** `loadUserData`: every saved user whose mobile is not yet registered is appended, and
        gets an empty document when it has none. `usersDir` says whether the users
        directory exists; without it the first document write throws and ends the loop. A
        record without a full name throws as well, before it is appended. */
    method LoadUserData(saved: Option<seq<SavedUser>>, usersDir: bool)
      modifies this
      ensures unchanged(this`banks, this`cards, this`nextBankId, this`nextAccountId, this`nextTransactionId, this`nextCardId)
      ensures Registry(users, nextUserId, shardFiles) == LoadSaved(old(Registry(users, nextUserId, shardFiles)), saved, usersDir)
    {
      if saved.Some? {
        var s := saved.value;
        var registered, next, files := users, nextUserId, shardFiles;
        var i := 0;
        while i < |s|
          invariant 0 <= i <= |s|
          invariant LoadSavedUsers(Registry(registered, next, files), s[i..], usersDir) == LoadSavedUsers(old(Registry(users, nextUserId, shardFiles)), s, usersDir)
        {
          ghost var before := Registry(registered, next, files);
          var record := s[i];
          assert s[i..][0] == record && s[i..][1..] == s[i + 1..];
          var taken := MobileInUse(registered, record.mobileNumber);
          if !taken {
            var id: int;
            if record.userId.Some? && record.userId.value != 0 {
              id := record.userId.value;
            } else {
              id := next;
              next := next + 1;
            }
            if record.fullName.None? {
              // `full_name.replace` throws, and the `catch` ends the loop
              assert Registry(registered, next, files) == before.(nextUserId := CounterAfter(before, record));
              users, nextUserId, shardFiles := registered, next, files;
              return;
            }
            registered := registered + [SavedUserRecord(record, id)];
            if !usersDir {
              assert Registry(registered, next, files) == AppendSavedUser(before, record);
              users, nextUserId, shardFiles := registered, next, files;
              return;
            }
            if id !in files {
              files := files[id := EmptyShard];
            }
          }
          if !taken {
            assert Registry(registered, next, files) == WithEmptyDocument(AppendSavedUser(before, record));
          }
          i := i + 1;
        }
        users, nextUserId, shardFiles := registered, next, files;
      }
    }

    /** One user's seeded document, built as `createUserSpecificDataFiles` builds it. */
    static method SeedShard(uid: int, demo: DemoData) returns (shard: Shard)
      ensures shard == ShardFromSeed(uid, demo)
    {
      var accounts := SeedAccountsOf(uid, demo);
      var txs := CollectSeedTransactions(accounts, demo.transactions);
      shard := SeedDocument(uid, demo, txs);
    }

    /** `createUserSpecificDataFiles`: every registered user without a document gets the one
        seeded from the demo dataset. */
    method CreateUserSpecificDataFiles(demo: Option<DemoData>)
      modifies this
      ensures unchanged(this`users, this`banks, this`cards, this`nextUserId, this`nextBankId, this`nextAccountId, this`nextTransactionId, this`nextCardId)
      ensures shardFiles == SeedFiles(old(shardFiles), users, demo)
    {
      if demo.Some? {
        var files := shardFiles;
        var i := 0;
        while i < |users|
          invariant 0 <= i <= |users|
          modifies {}
          invariant files == MaterializeUsers(shardFiles, users[..i], demo.value)
        {
          var uid := users[i].id;
          if uid !in files {
            var shard := SeedShard(uid, demo.value);
            files := files[uid := shard];
          }
          assert users[..i + 1][..i] == users[..i];
          i := i + 1;
        }
        assert users[..|users|] == users;
        shardFiles := files;
      }
    }

    /** `loadCardData`, run on a fresh store: the saved cards, and the counter past their ids. */
    method LoadCardData(savedCards: Option<seq<Card>>)
      requires cards == [] && nextCardId == 1
      modifies this
      ensures unchanged(this`users, this`banks, this`nextUserId, this`nextBankId, this`nextAccountId, this`nextTransactionId, this`shardFiles)
      ensures Valid()
      ensures cards == savedCards.GetOr([]) && nextCardId == NextIdAfter(Ids(cards, CardId))
    {
      if savedCards.Some? {
        cards := savedCards.value;
        nextCardId := NextIdAfter(Ids(cards, CardId));
      }
    }

    // ------------------------------------------------------------ user registry

    /** `getUser`: the first registered user with this id. */
    function GetUser(id: int): (r: Option<User>)
      reads this`users
      ensures r.Some? ==> r.value.id == id
      ensures r.None? <==> forall i :: 0 <= i < |users| ==> users[i].id != id
      ensures r.Some? ==> UserIndex(users, id).Some? && r.value == users[UserIndex(users, id).value]
    {
      var found := Find(users, (u: User) => u.id == id);
      if found.Some? then
        var k := UserIndex(users, id).value;
        assert forall i :: 0 <= i < |users| && users[i] == found.value && (forall j :: 0 <= j < i ==> users[j].id != id) ==> i == k;
        found
      else found
    }

    /** `getUserByUsername`: the first registered user with this username. */
    function GetUserByUsername(username: string): (r: Option<User>)
      reads this`users
      ensures r.Some? ==> r.value in users && r.value.username == username
      ensures r.Some? ==>
        exists i :: 0 <= i < |users| && users[i] == r.value &&
          forall j :: 0 <= j < i ==> users[j].username != username
      ensures r.None? <==> forall i :: 0 <= i < |users| ==> users[i].username != username
    {
      Find(users, (u: User) => u.username == username)
    }

    /** `getUserByMobile`: the first registered user with this mobile. */
    function GetUserByMobile(mobile: string): (r: Option<User>)
      reads this`users
      ensures r.Some? ==> r.value in users && r.value.mobile == Some(mobile)
      ensures r.Some? ==>
        exists i :: 0 <= i < |users| && users[i] == r.value &&
          forall j :: 0 <= j < i ==> users[j].mobile != Some(mobile)
      ensures r.None? <==> !MobileInUse(users, Some(mobile))
    {
      UserWithMobile(users, mobile)
    }

    /** `updateUser`: merges the patch into the first user with this id, keeping the id. */
    method UpdateUser(id: int, patch: UserPatch) returns (r: Option<User>)
      modifies this`users
      ensures var idx := UserIndex(old(users), id);
        && (idx.None? ==> r.None? && users == old(users))
        && (idx.Some? ==> r == Some(MergeUser(old(users)[idx.value], patch)) && users == old(users)[idx.value := r.value])
    {
      var idx := UserIndex(users, id);
      if idx.None? {
        return None;
      }
      var updated := MergeUser(users[idx.value], patch);
      users := users[idx.value := updated];
      return Some(updated);
    }

    /** `createUser`: refuses a mobile already registered; otherwise appends the new user
        under the next identifier. */
    method CreateUser(insert: InsertUser, now: Timestamp) returns (r: Result<User, StoreError>)
      modifies this`users, this`nextUserId
      ensures MobileInUse(old(users), insert.mobile) ==>
        r == Failure(DuplicateMobile) && users == old(users) && nextUserId == old(nextUserId)
      ensures !MobileInUse(old(users), insert.mobile) ==>
        && r == Success(NewUser(insert, old(nextUserId), now))
        && users == old(users) + [r.value] && nextUserId == old(nextUserId) + 1
      ensures r.Success? && insert.mobile.Some? ==> GetUserByMobile(insert.mobile.value) == Some(r.value)
    {
      var existing := Find(users, (u: User) => u.mobile == insert.mobile);
      if existing.Some? {
        return Failure(DuplicateMobile);
      }
      var id := nextUserId;
      nextUserId := nextUserId + 1;
      var user := NewUser(insert, id, now);
      if insert.mobile.Some? {
        UserWithMobileAppended(users, user, insert.mobile.value);
      }
      users := users + [user];
      return Success(user);
    }

    // ------------------------------------------------------------ bank catalogue

    /** `getBanks`. */
    function GetBanks(): (r: seq<Bank>)
      reads this`banks
      ensures r == banks
    {
      banks
    }

    /** `seedBanks`: an empty catalogue becomes the fixed ten banks; a non-empty one stays. */
    method SeedBanks()
      modifies this`banks, this`nextBankId
      ensures |old(banks)| == 0 ==> banks == CatalogueBanks() && nextBankId == 11
      ensures |old(banks)| != 0 ==> banks == old(banks) && nextBankId == old(nextBankId)
    {
      if |banks| == 0 {
        banks := CatalogueBanks();
        nextBankId := |banks| + 1;
      }
    }

    // ------------------------------------------------------------ user documents

    /** `getAccounts`: the user's stored accounts, each with its bank, or none without a
        document. */
    function GetAccounts(userId: int): (r: seq<AccountView>)
      reads this`banks, this`shardFiles
      ensures userId !in shardFiles ==> r == []
      ensures userId in shardFiles ==>
        && |r| == |shardFiles[userId].accounts|
        && forall i :: 0 <= i < |r| ==>
             r[i].account == shardFiles[userId].accounts[i] && r[i].bank == FindBank(banks, r[i].account.bankId)
    {
      if userId in shardFiles then AccountsWithBanks(banks, shardFiles[userId].accounts) else []
    }

    /** `createAccount`: a new id always; the record, without its loan fields, is appended to
        the owner's document only when that document exists. */
    method CreateAccount(insert: InsertAccount, now: Timestamp) returns (r: AccountView)
      modifies this`nextAccountId, this`shardFiles
      ensures r.account == NewAccount(insert, old(nextAccountId), now) && r.bank == FindBank(banks, insert.bankId)
      ensures nextAccountId == old(nextAccountId) + 1
      ensures insert.userId !in old(shardFiles) ==> shardFiles == old(shardFiles)
      ensures insert.userId in old(shardFiles) ==>
        var doc := old(shardFiles)[insert.userId];
        shardFiles == old(shardFiles)[insert.userId := doc.(accounts := doc.accounts + [StoredAccount(r.account)])]
      ensures old(AllConsistent(shardFiles)) ==> AllConsistent(shardFiles)
    {
      var bank := FindBank(banks, insert.bankId);
      var account := NewAccount(insert, nextAccountId, now);
      nextAccountId := nextAccountId + 1;
      if insert.userId in shardFiles {
        var doc := shardFiles[insert.userId];
        if AllConsistent(shardFiles) {
          AddAccountKeepsConsistent(doc, StoredAccount(account));
        }
        shardFiles := shardFiles[insert.userId := doc.(accounts := doc.accounts + [StoredAccount(account)])];
      }
      r := AccountView(account, bank);
    }

    /** `linkAccount`: sets the link flag of the account in the first listed document that
        holds it and returns it with its bank; when none does, returns a made-up record. */
    method LinkAccount(listing: seq<int>, id: int, isLinked: bool, now: Timestamp) returns (r: LinkResult)
      requires ListedIn(listing, shardFiles)
      modifies this`shardFiles
      ensures FirstHolder(listing, old(shardFiles), id).None? ==>
        r == Placeholder(PlaceholderAccount(id, isLinked, now)) && shardFiles == old(shardFiles)
      ensures var h := FirstHolder(listing, old(shardFiles), id);
        h.Some? ==>
          var k := listing[h.value];
          var idx := AccountIndex(old(shardFiles)[k], id).value;
          var updated := LinkedShard(old(shardFiles)[k], idx, isLinked);
          && shardFiles == old(shardFiles)[k := updated]
          && r == Linked(AccountView(updated.accounts[idx], FindBank(banks, updated.accounts[idx].bankId)))
      ensures old(AllConsistent(shardFiles)) ==> AllConsistent(shardFiles)
    {
      var i := 0;
      while i < |listing|
        invariant 0 <= i <= |listing|
        invariant unchanged(this)
        invariant forall j :: 0 <= j < i ==> !HoldsAccount(shardFiles[listing[j]], id)
      {
        var k := listing[i];
        var doc := shardFiles[k];
        var idx := AccountIndex(doc, id);
        if idx.Some? {
          assert FirstHolder(listing, shardFiles, id) == Some(i);
          var updated := LinkedShard(doc, idx.value, isLinked);
          if AllConsistent(shardFiles) {
            LinkKeepsConsistent(doc, idx.value, isLinked);
          }
          shardFiles := shardFiles[k := updated];
          var account := updated.accounts[idx.value];
          return Linked(AccountView(account, FindBank(banks, account.bankId)));
        }
        i := i + 1;
      }
      return Placeholder(PlaceholderAccount(id, isLinked, now));
    }

    /** `getTransactions`: every listed document's transactions, in listing order, filtered
        by account unless the filter is absent or 0. */
    method GetTransactions(listing: seq<int>, accountId: Option<int>) returns (r: seq<Transaction>)
      requires ListedIn(listing, shardFiles)
      ensures r == ListedTransactions(listing, shardFiles, accountId)
      ensures forall t :: t in r <==>
        Selected(accountId, t) && exists i :: 0 <= i < |listing| && t in shardFiles[listing[i]].transactions
    {
      r := [];
      var i := 0;
      while i < |listing|
        invariant 0 <= i <= |listing|
        invariant ListedIn(listing[..i], shardFiles)
        invariant r == ListedTransactions(listing[..i], shardFiles, accountId)
      {
        var doc := shardFiles[listing[i]];
        r := r + ShardTransactions(doc, accountId);
        assert listing[..i + 1][..i] == listing[..i];
        i := i + 1;
      }
      assert listing[..|listing|] == listing;
      forall t ensures t in r <==>
        Selected(accountId, t) && exists i :: 0 <= i < |listing| && t in shardFiles[listing[i]].transactions {
        ListedTransactionsMembership(listing, shardFiles, accountId, t);
      }
    }

    /** The `for … of` scan of `createTransaction` over the listed documents, stopping at
        the first one whose accounts include `accountId`. */
    method ScanForAccount(listing: seq<int>, accountId: int) returns (h: Option<nat>)
      requires ListedIn(listing, shardFiles)
      ensures h == FirstHolder(listing, shardFiles, accountId)
    {
      var i := 0;
      while i < |listing|
        invariant 0 <= i <= |listing|
        invariant forall j :: 0 <= j < i ==> !HoldsAccount(shardFiles[listing[j]], accountId)
      {
        if HoldsAccount(shardFiles[listing[i]], accountId) {
          return Some(i);
        }
        i := i + 1;
      }
      return None;
    }

    /** `createTransaction`: a new id always; the record is appended to the first listed
        document holding its account, if any. */
    method CreateTransaction(listing: seq<int>, insert: InsertTransaction, now: Timestamp) returns (t: Transaction)
      requires IsListing(listing, shardFiles)
      modifies this`nextTransactionId, this`shardFiles
      ensures t == NewTransaction(insert, old(nextTransactionId), now) && nextTransactionId == old(nextTransactionId) + 1
      ensures shardFiles == StoreTransaction(listing, old(shardFiles), t)
      ensures IsListing(listing, shardFiles)
    {
      t := NewTransaction(insert, nextTransactionId, now);
      nextTransactionId := nextTransactionId + 1;
      StoreTransactionFrame(listing, shardFiles, t);
      var h := ScanForAccount(listing, insert.accountId);
      if h.Some? {
        var k := listing[h.value];
        shardFiles := shardFiles[k := WithTransaction(shardFiles[k], t)];
      }
    }

    /** `getSavingGoals`: the goals in the user's document, or none without one. */
    function GetSavingGoals(userId: int): (r: seq<SavingGoal>)
      reads this`shardFiles
      ensures userId in shardFiles ==> r == shardFiles[userId].savingGoals
      ensures userId !in shardFiles ==> r == []
    {
      if userId in shardFiles then shardFiles[userId].savingGoals else []
    }

    /** `getLoans`: the loans in the user's document, or none without one. */
    function GetLoans(userId: int): (r: seq<Loan>)
      reads this`shardFiles
      ensures userId in shardFiles ==> r == shardFiles[userId].loans
      ensures userId !in shardFiles ==> r == []
    {
      if userId in shardFiles then shardFiles[userId].loans else []
    }

    // ------------------------------------------------------------ cards

    /** `getCards`: the user's cards, in list order. */
    function GetCards(userId: int): (r: seq<Card>)
      reads this`cards
      ensures forall c :: c in r <==> c in cards && c.userId == userId
      ensures |r| == |cards| <==> forall i :: 0 <= i < |cards| ==> cards[i].userId == userId
    {
      Filter(cards, (c: Card) => c.userId == userId)
    }

    /** `createCard`: appends a card under a fresh id, so that it is the card found by it. */
    method CreateCard(insert: InsertCard, now: Timestamp) returns (c: Card)
      requires Valid()
      modifies this`cards, this`nextCardId
      ensures Valid()
      ensures c == NewCard(insert, old(nextCardId), now)
      ensures cards == old(cards) + [c] && nextCardId == old(nextCardId) + 1
      ensures CardIndex(cards, c.id) == Some(|old(cards)|)
    {
      c := NewCard(insert, nextCardId, now);
      nextCardId := nextCardId + 1;
      cards := cards + [c];
      assert cards[|cards| - 1].id == c.id;
    }

    /** `deleteCard`: drops every card with this id and reports whether there was one. */
    method DeleteCard(id: int) returns (deleted: bool)
      requires Valid()
      modifies this`cards
      ensures Valid()
      ensures cards == Filter(old(cards), (c: Card) => c.id != id)
      ensures forall c :: c in cards <==> c in old(cards) && c.id != id
      ensures deleted <==> exists i :: 0 <= i < |old(cards)| && old(cards)[i].id == id
    {
      var before := |cards|;
      cards := Filter(cards, (c: Card) => c.id != id);
      deleted := |cards| != before;
    }

    /** `getCardTransactions`: the transactions of the card owner's accounts, with the sum of
        their debits stored as the card's due payments; nothing for an unknown card or an
        owner without a document. */
    method GetCardTransactions(cardId: int) returns (txs: seq<Transaction>)
      requires Valid()
      modifies this`cards
      ensures Valid()
      ensures CardIndex(old(cards), cardId).None? ==> txs == [] && cards == old(cards)
      ensures var ci := CardIndex(old(cards), cardId);
        ci.Some? && old(cards)[ci.value].userId !in shardFiles ==> txs == [] && cards == old(cards)
      ensures var ci := CardIndex(old(cards), cardId);
        ci.Some? && old(cards)[ci.value].userId in shardFiles ==>
          && txs == CardTransactions(shardFiles[old(cards)[ci.value].userId])
          && cards == old(cards)[ci.value := old(cards)[ci.value].(duePayments := Some(DebitTotal(txs)))]
    {
      var ci := CardIndex(cards, cardId);
      if ci.None? {
        return [];
      }
      var owner := cards[ci.value].userId;
      if owner !in shardFiles {
        return [];
      }
      txs := CardTransactions(shardFiles[owner]);
      var due := DueAmount(txs);
      cards := cards[ci.value := cards[ci.value].(duePayments := Some(due))];
    }
  }
}
