# Personal finance store — a Dafny model

This project models the data layer of a personal finance application. That layer has two parts.

**The Node server's in-memory store** (`MemoryStorage`). It holds:
- the user registry, with a counter for the next user id;
- the bank catalogue;
- the cards.

Each user's accounts, transactions, saving goals and loans live in a per-user JSON document, `data/users/<id>.json`. At start-up the store:
- loads a demo dataset;
- merges previously saved users;
- writes a seeded document for every user who has none;
- loads the saved cards.

The store's operations then read and rewrite those documents: create and link accounts, append transactions, list transactions, compute the payments due on a card.

**Smaller pieces:**
- the shared `buildUrl` helper that fills `:key` placeholders in route paths;
- the Spring backend's `UserService.createUser` and `authenticateUser`;
- `BankController.seedBanks`;
- the `AccountDTO` constructor.

How the model represents things:
- **User documents** are the field `shardFiles: map<int, Shard>`, keyed by user id.
- **The directory listing.** Loops in the source walk the directory listing. The model gives those methods a `listing: seq<int>` parameter. The predicate `IsListing` requires it to name every document exactly once, and `ListedIn` only requires that every entry names a document.
- **Timestamps** (`new Date()`, `System.currentTimeMillis()`) are parameters.
- **Amount strings** are parsed by `parseFloat`, which is modelled as a decimal parser to `real`.
- **Absent values.** A JavaScript `null`/`undefined` or a Java `null` is `None`.

Each source behaviour is modelled in the style of its code:
- Behaviour that updates state in place is modelled as classes with `modifies` frames: `MemoryStorage`, `UserRepository`, `UserService`, `BankRepository`, `BankController`.
- Each such method's postcondition ties the new state to a specification function in `StorageSpec`, `Routes` or `SpringUsers`.
- The properties the source relies on are proved as lemmas about those functions.

Where the code and the specification differ, the model follows the code:
- **Counters.** The account and transaction counters start at 1. The loaders never reseed them from the stored documents.
- **Saved user ids.** `loadUserData` keeps a saved user's own `user_id` and does not advance `nextUserId`, so user ids can repeat (`StorageSpec.LoadedIdCanRepeat`).
- **No document for new users.** `createUser` does not create a document for the new user.
- **Unknown accounts are not an error:**
  - `linkAccount` returns a made-up record;
  - `createTransaction` returns the transaction without storing it;
  - `createAccount` keeps the new account only when the owner already has a document.
- **Username derivation differs between the servers.** The Node `createUser` derives usernames with `replace(/\s+/g, '_')` and falls back to `user_<next id>`, which is the new id plus one. The Java `createUser` replaces single spaces and falls back to `user_<millis>`.

## Model

| member | source | states |
|---|---|---|
| MemoryStore.MemoryStorage.constructor | frontend/server/memoryStorage.ts:81-89 | start-up runs the four loaders in order, `disk = None` standing for a missing users directory: registry = `LoadedRegistry`, documents = `StartupFiles`, banks from the demo data, cards from the saved file, each counter past the loaded ids, account and transaction counters at 1 |
| MemoryStore.MemoryStorage.LoadDemoData | frontend/server/memoryStorage.ts:91-123 | banks and users come from the demo dataset (none without it), and the bank and user counters are set past the largest loaded id |
| MemoryStore.MemoryStorage.CreateUserSpecificDataFiles | frontend/server/memoryStorage.ts:125-209 | the documents become `SeedFiles`: every registered user lacking a document gets the seeded one, and no existing document is touched |
| MemoryStore.MemoryStorage.SeedShard | frontend/server/memoryStorage.ts:145-199 | the loop-built document for one user equals `ShardFromSeed` |
| MemoryStore.CollectSeedTransactions | frontend/server/memoryStorage.ts:146-152 | the nested accounts/transactions loop gathers exactly `SeedTransactionsFor`, account by account |
| MemoryStore.MemoryStorage.LoadUserData | frontend/server/memoryStorage.ts:211-258 | the registry becomes `LoadSaved` of the old one, with or without the users directory, and a record without a full name ends the loop once its id is drawn; nothing outside users, user counter and documents changes |
| MemoryStore.MemoryStorage.LoadCardData | frontend/server/memoryStorage.ts:260-282 | cards are the saved ones, or none without the file; the counter is past every card id, so `Valid` holds |
| MemoryStore.MemoryStorage.GetUser | frontend/server/memoryStorage.ts:325-327 | `None` exactly when no user has the id; otherwise the user at `UserIndex`, the first one with the id |
| MemoryStore.MemoryStorage.GetUserByUsername | frontend/server/memoryStorage.ts:329-331 | the first registered user with that username, or `None` exactly when no user has it |
| MemoryStore.MemoryStorage.GetUserByMobile | frontend/server/memoryStorage.ts:333-335 | the first registered user with that mobile, or `None` exactly when the mobile is not in use |
| MemoryStore.MemoryStorage.UpdateUser | frontend/server/memoryStorage.ts:337-355 | unknown id: `None`, nothing changes; otherwise the first user with the id is replaced by the merge, which is returned |
| MemoryStore.MemoryStorage.CreateUser | frontend/server/memoryStorage.ts:357-380 | a mobile already in use is refused with no change; otherwise `NewUser` is appended under the next id, the counter advances, and the new user is the one found by its mobile |
| MemoryStore.MemoryStorage.GetBanks | frontend/server/memoryStorage.ts:382-384 | the stored catalogue itself, in seeded order |
| MemoryStore.MemoryStorage.SeedBanks | frontend/server/memoryStorage.ts:386-409 | an empty catalogue becomes the ten fixed banks numbered 1..10 with the counter at 11; a non-empty one is left alone |
| MemoryStore.MemoryStorage.GetAccounts | frontend/server/memoryStorage.ts:411-427 | no document: no accounts; otherwise each stored account in order, with the bank whose id it names, if any |
| MemoryStore.MemoryStorage.CreateAccount | frontend/server/memoryStorage.ts:429-465 | the returned account is `NewAccount` under the next id with its bank; the owner's document, when it exists, gains the stored form; document consistency is kept |
| MemoryStore.MemoryStorage.LinkAccount | frontend/server/memoryStorage.ts:467-512 | the first listed document holding the account gets the flag set and the updated account is returned with its bank; otherwise a placeholder record and no change; consistency is kept |
| MemoryStore.MemoryStorage.GetTransactions | frontend/server/memoryStorage.ts:514-545 | equals `ListedTransactions`; a transaction is returned exactly when a listed document stores it and it passes the (falsy-0) account filter |
| MemoryStore.MemoryStorage.ScanForAccount | frontend/server/memoryStorage.ts:561-568 | the scan stops at `FirstHolder`, the first listed document holding the account |
| MemoryStore.MemoryStorage.CreateTransaction | frontend/server/memoryStorage.ts:547-590 | returns `NewTransaction` under the next id; the documents become `StoreTransaction`, and the listing stays exact |
| MemoryStore.MemoryStorage.GetSavingGoals | frontend/server/memoryStorage.ts:592-604 | the document's goals, or none without a document |
| MemoryStore.MemoryStorage.GetLoans | frontend/server/memoryStorage.ts:606-618 | the document's loans, or none without a document |
| MemoryStore.MemoryStorage.GetCards | frontend/server/memoryStorage.ts:620-623 | exactly the cards of that user; all cards exactly when every card is that user's |
| MemoryStore.MemoryStorage.CreateCard | frontend/server/memoryStorage.ts:625-639 | `NewCard` appended under the next id, found at the end by its id; `Valid` kept |
| MemoryStore.MemoryStorage.DeleteCard | frontend/server/memoryStorage.ts:641-652 | the cards with other ids remain, in order; true exactly when some card had the id |
| MemoryStore.MemoryStorage.GetCardTransactions | frontend/server/memoryStorage.ts:654-705 | unknown card or no owner document: none and no change; otherwise the owner's transactions on their own accounts, and the card's due payments become their debit total |
| MemoryStore.DueAmount | frontend/server/memoryStorage.ts:682-687 | the accumulation loop computes `DebitTotal` |
| StorageSpec.NextIdAfter | frontend/server/memoryStorage.ts:99 | `Math.max(...ids, 0) + 1` is at least 1, above every id, and is 1 or one past a present id |
| StorageSpec.UserIndex | frontend/server/memoryStorage.ts:338-342 | the first position holding the id, or `None` exactly when no user has it |
| StorageSpec.DerivedUsername | frontend/server/memoryStorage.ts:367 | never empty and free of whitespace; a non-empty full name with whitespace runs collapsed to `_`, else `user_<n>` |
| StorageSpec.NewUser | frontend/server/memoryStorage.ts:364-373 | id and time as given, the insert's fields copied, `?? ` defaults for currency, fingerprint and profile flags |
| StorageSpec.UserWithMobile | frontend/server/memoryStorage.ts:334 | the first user with the mobile, or `None` exactly when the mobile is not in use |
| StorageSpec.UserWithMobileAppended | frontend/server/memoryStorage.ts:359-374 | a user appended with an unused mobile is the one found by it |
| StorageSpec.MergeUser | frontend/server/memoryStorage.ts:345-349 | every property the patch carries wins, except the id, which is kept |
| StorageSpec.MergeUserNeutral | frontend/server/memoryStorage.ts:345-349 | an empty patch changes nothing, and a patch's id never matters |
| StorageSpec.CatalogueBanks | frontend/server/memoryStorage.ts:388-405 | ten banks, the i-th with id i+1 and the i-th catalogue name and icon |
| StorageSpec.FindBank | frontend/server/memoryStorage.ts:420 | the first bank with that id, or `None` exactly when none has it |
| StorageSpec.CatalogueResolves | frontend/server/memoryStorage.ts:401-405 | after seeding, each id 1..10 resolves to the entry it numbers |
| StorageSpec.AccountsWithBanks | frontend/server/memoryStorage.ts:418-421 | one view per account, in order, each with the bank its `bankId` resolves to |
| StorageSpec.NewAccount | frontend/server/memoryStorage.ts:433-440 | id and time as given, the insert's fields copied, balance `"0"` and unlinked by default |
| StorageSpec.StoredAccount | frontend/server/memoryStorage.ts:448-457 | the stored form drops exactly the loan fields |
| StorageSpec.FirstHolder | frontend/server/memoryStorage.ts:474-491 | the first listed position whose document holds the account, or `None` exactly when none does |
| StorageSpec.AccountIndex | frontend/server/memoryStorage.ts:480 | the first position of the account in a document, or `None` exactly when it is absent |
| StorageSpec.LinkedShard | frontend/server/memoryStorage.ts:482 | only the chosen account's link flag changes |
| StorageSpec.PlaceholderAccount | frontend/server/memoryStorage.ts:500-509 | the made-up record: the id and flag given, owner and bank 0, empty strings, balance `"0"` |
| StorageSpec.LinkKeepsConsistent | frontend/server/memoryStorage.ts:482 | linking keeps every transaction of a document on one of its accounts |
| StorageSpec.AddAccountKeepsConsistent | frontend/server/memoryStorage.ts:458-461 | adding an account keeps the document consistent |
| StorageSpec.ShardTransactions | frontend/server/memoryStorage.ts:527-535 | a document contributes exactly its transactions that pass the filter |
| StorageSpec.ListedTransactionsMembership | frontend/server/memoryStorage.ts:522-539 | listed exactly when some listed document stores it and it passes the filter |
| StorageSpec.NewTransaction | frontend/server/memoryStorage.ts:548-552 | the insert's fields with the id and time given |
| StorageSpec.AddTransactionKeepsConsistent | frontend/server/memoryStorage.ts:567-578 | a transaction appended only where its account is keeps the document consistent |
| StorageSpec.ShardTransactionsAppend | frontend/server/memoryStorage.ts:569-578 | appending adds the transaction at the end of the document's contribution exactly when it passes the filter |
| StorageSpec.ListedUnaffected | frontend/server/memoryStorage.ts:522-537 | replacing an unlisted document changes no listing |
| StorageSpec.ListedAfterAppend | frontend/server/memoryStorage.ts:561-581 | appending to one listed document adds the transaction exactly once to every listing that selects it, and nothing else |
| StorageSpec.StoreTransaction | frontend/server/memoryStorage.ts:561-581 | no holder: documents unchanged; otherwise only the first holder's document gains the transaction |
| StorageSpec.StoreTransactionFrame | frontend/server/memoryStorage.ts:561-581 | storing keeps the listing exact, keeps consistency, and leaves every other document unchanged |
| StorageSpec.StoreTransactionListed | frontend/server/memoryStorage.ts:547-590 | a stored transaction appears exactly once more in the listing by its account and in the full listing |
| StorageSpec.NewCard | frontend/server/memoryStorage.ts:626-631 | the insert's fields, the id and time given, nothing due |
| StorageSpec.CardIndex | frontend/server/memoryStorage.ts:690 | the first position of the card, or `None` exactly when absent |
| StorageSpec.Ids | frontend/server/memoryStorage.ts:671 | `records.map(r => r.id)`: one id per record, in order |
| StorageSpec.CardTransactions | frontend/server/memoryStorage.ts:671-677 | exactly the stored transactions on the document's own accounts; all of them in a consistent document |
| StorageSpec.DebitTotalAppend | frontend/server/memoryStorage.ts:682-687 | the due amount of a concatenation is the sum of the due amounts |
| StorageSpec.DebitTotalNoDebits | frontend/server/memoryStorage.ts:682-687 | without debits nothing is due |
| StorageSpec.DebitTotalExample | frontend/server/memoryStorage.ts:682-687 | debits of "30" and "70" and a credit give 100 due |
| StorageSpec.CategoryName | frontend/server/memoryStorage.ts:175-180 | codes 1..6 name the six categories, everything else is "Others" |
| StorageSpec.CategoryNameInjective | frontend/server/memoryStorage.ts:175-180 | distinct known codes give distinct names |
| StorageSpec.OwnSeedTransactions | frontend/server/memoryStorage.ts:150 | exactly the seed transactions of that account |
| StorageSpec.SeedTransactionsMembership | frontend/server/memoryStorage.ts:149-152 | a seed transaction is gathered exactly when its account is one of the user's |
| StorageSpec.ShardFromSeedProperties | frontend/server/memoryStorage.ts:145-199 | a seeded document holds only the user's own accounts (all linked), goals and loans, and each of its transactions is on one of its accounts |
| StorageSpec.MaterializeUsersKeys | frontend/server/memoryStorage.ts:139-204 | after the fan-out a document exists exactly for the old keys and the users |
| StorageSpec.MaterializeUsersContents | frontend/server/memoryStorage.ts:139-204 | existing documents are never overwritten; added ones are the seeded document |
| StorageSpec.MaterializeUsersNoop | frontend/server/memoryStorage.ts:139-204 | when every user has a document, nothing changes |
| StorageSpec.MaterializeUsersIdempotent | frontend/server/memoryStorage.ts:139-204 | a second fan-out changes nothing |
| StorageSpec.SavedUserRecord | frontend/server/memoryStorage.ts:223-238 | for a record that has a full name (without one line 225 throws, which `LoadSavedUsers` models), every field of the user it becomes: the id given, the copied password, name, email, mobile and date, the collapsed username, each `\|\|` default (city and country `''`, currency `USD`, no app pin, both flags false) and a budget only when non-zero |
| StorageSpec.LoadSavedUsersEffect | frontend/server/memoryStorage.ts:219-251 | loading keeps the registered users as a prefix, adds no user whose mobile an earlier user has, never changes an existing document and never lowers the counter; with the users directory every added user has a document, without it at most one user is added and no document is written |
| StorageSpec.FirstStartLoadsOneSavedUser | frontend/server/memoryStorage.ts:219-256 | without the users directory only the first of two new saved users is loaded (the write at line 244 throws, the catch ends the loop); with it both are |
| StorageSpec.NamelessSavedUserEndsLoad | frontend/server/memoryStorage.ts:219-256 | a new saved user without `full_name` ends the load with or without the users directory: `full_name.replace` at line 225 throws after `nextUserId++` at line 224, so no later user is registered, no document is written, and the counter has moved exactly when the record has no id of its own |
| StorageSpec.LoadedIdCanRepeat | frontend/server/memoryStorage.ts:224 | a saved id is kept without moving the counter, so the next created user can reuse it |
| StorageSpec.DemoUsers | frontend/server/memoryStorage.ts:102-117 | each demo user mapped in order |
| StorageSpec.StartupDocuments | frontend/server/memoryStorage.ts:81-89 | after start-up no document found on disk has changed and with demo data every registered user has one; with the users directory every added saved user has one; without it at most one saved user is added, and without demo data too there is no document |
| JsText.CollapseWhitespaceProperties | frontend/server/memoryStorage.ts:104 | `replace(/\s+/g, '_')` leaves no whitespace, is empty only for empty input, is the identity without whitespace, and never lengthens |
| JsText.ParseDecimalOfInt | frontend/server/memoryStorage.ts:685 | `parseFloat` of an integer's decimal text gives that integer back |
| Text.ReplaceSpaces | backend/src/main/java/com/pext/service/UserService.java:18 | `replace(" ", "_")`: same length, no space left, every other character kept |
| Text.ReplaceSpacesFixpoint | backend/src/main/java/com/pext/service/UserService.java:18 | text without spaces is unchanged, and replacing twice is replacing once |
| Routes.ParamString | frontend/shared/routes.ts:129 | `String(value)`: a string itself; a number's text parses back to the number |
| Routes.Step | frontend/shared/routes.ts:128-130 | no placeholder: unchanged; otherwise the first occurrence is replaced by the value's text |
| Routes.BuildUrl | frontend/shared/routes.ts:124-134 | no params: the path; otherwise `ApplyParams` of the entries in order |
| Routes.ApplyParamsAppend | frontend/shared/routes.ts:127-131 | entries apply left to right: `a + b` is `a` then `b` |
| Routes.NoPlaceholderUnchanged | frontend/shared/routes.ts:126-133 | a path with none of the keys' placeholders comes back unchanged |
| Routes.UserRouteExample | frontend/shared/routes.ts:124-134 | `/u/:id` with id 7 gives `/u/7` |
| Routes.PrefixPlaceholderExample | frontend/shared/routes.ts:128-129 | only the first occurrence is replaced, and `:id` matches inside `:idx` |
| SpringUsers.DefaultUsername | backend/src/main/java/com/pext/service/UserService.java:17-19 | a non-empty username is kept; otherwise the full name with spaces replaced, or `user_<millis>` |
| SpringUsers.Upsert | backend/src/main/java/com/pext/service/UserService.java:30 | the row is saved; same id: length kept, others untouched; new id: appended |
| SpringUsers.MobileLookup | backend/src/main/java/com/pext/service/UserService.java:46 | no match: empty; one match: that row; two or more: a non-unique-result error |
| SpringUsers.SavedRowFound | backend/src/main/java/com/pext/service/UserService.java:30-46 | a saved row whose mobile nobody had is what the mobile lookup finds |
| SpringUsers.UserRepository.Save | backend/src/main/java/com/pext/service/UserService.java:30 | null username or password: a not-null violation and nothing changes; otherwise an id is assigned if missing and the row is upserted |
| SpringUsers.UserService.ApplyDefaults | backend/src/main/java/com/pext/service/UserService.java:16-28 | each null column gets its default; everything else is kept |
| SpringUsers.UserService.CreateUser | backend/src/main/java/com/pext/service/UserService.java:15-31 | defaults set, then saved; fails exactly for a null password; on success the returned row is the entity's columns with the defaults under its id (the given one, or the next identity value, which advances), the entity gets that id, the row is upserted, and a new mobile then authenticates with the saved password |
| SpringUsers.UserService.AuthenticateUser | backend/src/main/java/com/pext/service/UserService.java:45-48 | true exactly when one user has the mobile and the same password; false for no user; an error when the mobile is shared |
| SpringBanks.SeededRows | backend/src/main/java/com/pext/controller/BankController.java:26-40 | ten rows numbered from the counter, with the catalogue names and icons in order |
| SpringBanks.SeedOutcome | backend/src/main/java/com/pext/controller/BankController.java:24-43 | an empty table gains ten rows and the counter advances ten; otherwise no change |
| SpringBanks.BankRepository.Count | backend/src/main/java/com/pext/controller/BankController.java:25 | zero exactly for an empty table |
| SpringBanks.BankRepository.Save | backend/src/main/java/com/pext/controller/BankController.java:40 | appends the bank under the next identity value |
| SpringBanks.BankController.SeedBanks | backend/src/main/java/com/pext/controller/BankController.java:24-43 | the table and counter become `SeedOutcome` of the old ones |
| SpringBanks.SeedIdempotent | backend/src/main/java/com/pext/controller/BankController.java:25-42 | seeding twice is seeding once |
| SpringBanks.SeededCatalogue | backend/src/main/java/com/pext/controller/BankController.java:26-37 | the saved names and icons, in order |
| SpringBanks.SameAsNodeSeed | backend/src/main/java/com/pext/controller/BankController.java:26-37 | on a fresh table the Spring seed and the Node seed give the same banks |
| SpringDto.ToAccountDto | backend/src/main/java/com/pext/dto/AccountDTO.java:19-31 | every account column copied (the account reads back), `bankId` from the account, the bank name only when a bank is given |
| SpringDto.BankOnlyNamesTheDto | backend/src/main/java/com/pext/dto/AccountDTO.java:22-23 | two DTOs of one account differ only in the bank name, and not at all for banks of the same name |

## Left out

- File I/O and JSON parsing: the documents are the `shardFiles` map, and the directory order is a `listing` parameter. A missing document is an absent key. A missing users directory is the constructor's `disk = None`: `loadUserData` then stops after the first saved user it admits, because writing that user's document throws; every later operation sees it as an empty map.
- A document whose JSON lacks `accounts` or `transactions`: the model's documents always carry both lists (the `?.` and `|| []` guards then agree).
- File names that are not `.json`: the listing holds only user document ids.
- `saveUserData` and `saveCardData`: the persistence of the registry and cards to JSON is not modelled; after a mutation only the in-memory state is stated.
- The `try`/`catch` blocks that only log errors: apart from the start-up load, which stops at a missing users directory or at a saved user without `full_name`, the model has no failing reads or writes.
- Write atomicity, concurrency, and the `async` wrappers: every operation is one atomic step.
- `new Date()` and `System.currentTimeMillis()`: these are `now` and `millis` parameters.
- Floating point: `parseFloat` is a decimal parser to `real` without exponents, `Infinity` or rounding; the due total is exact.
- Numeric route parameters are modelled only as integers.
- `Routes.Step`: its contract says nothing about a value containing `$`; that case follows `String.prototype.replace`'s substitution patterns through `JsText.Substitute` only.
- `Object.entries` order: the entries are given as a sequence in that order.
- The unused in-memory `accounts`, `transactions`, `savingGoals` and `loans` arrays of `MemoryStorage`: no method reads or writes them.
- Object aliasing: records are values; the mutation of a found card object is modelled as a field update of the card sequence.
- `null` and `undefined` are both `None`, so a stored `null` mobile matches an omitted one, which the source's `===` does not; the two lines below name what this changes.
- MemoryStore.MemoryStorage.CreateUser: refuses as a duplicate an insert without a mobile when some user's mobile is `null`, where the `find` at `frontend/server/memoryStorage.ts:359` lets it through.
- StorageSpec.LoadSavedUsers: skips a saved user without `mobile_number` when some user's mobile is `null`, where the `some` at `frontend/server/memoryStorage.ts:221` admits it.
- JPA identity generation, `merge` semantics, `@PrePersist` timestamps, and the `User` columns `createUser` does not touch; `Save` keeps an id the entity already has.
- A `null` account passed to the `AccountDTO` constructor, which throws in the source; the DTO's getters and setters.
- The other Spring controllers, services, entities and configuration, and the Node server's route handlers: they are not part of this model.
