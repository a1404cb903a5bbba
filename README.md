# Customers, accounts and profiles: a verified model

This project models the core of a small C# banking sample:

- bank accounts, whose balance moves under withdrawal rules;
- customers, who own a growing list of accounts;
- an in-memory customer repository, keyed by the decimal text of the
  customer id;
- a customer service, which admits a customer only when a name pattern and
  an e-mail pattern both match, and answers profile requests;
- a profile service, which turns a token into a one-line profile text by way
  of an authentication service and the customer service.

Modules and files:

| file | module | models |
|---|---|---|
| `runtime.dfy` | `Runtime` | these pieces of .NET: a null stand-in (`Option`), the thrown exceptions with their messages (`Result`), and C#'s 32-bit `int` with unchecked addition |
| `decimal_text.dfy` | `DecimalText` | `Int32.ToString()` and its injectivity: reading the digits back gives the number, so distinct ids give distinct dictionary keys |
| `bank_account.dfy` | `Bank` | class `BankAccount` |
| `customer.dfy` | `Customers` | class `Customer` |
| `customer_repository.dfy` | `Repositories` | class `CustomerRepository`: its dictionary is a `map` field |
| `customer_validation.dfy` | `CustomerValidation` | the two fixed regular expressions, as character-level matchers |
| `customer_service.dfy` | `CustomerServices` | class `CustomerService`, and the function `ProfileLookup` that specifies its profile lookup |
| `profile_service.dfy` | `Profiles` | `GetProfile`, a pure function. The token validator and the customer lookup are function parameters |

Each validator is proved equal to a plain description of the strings it
accepts, in both directions. `ValidateCustomerName` accepts words over
`a-zA-Zæøåäöë'-` separated by single spaces, with no character three times
in a row. `ValidateCustomerEmail` accepts exactly one `@`, no white space, a
non-empty local part, and a dot inside the domain.

Each pattern is modelled by one predicate per part: `EndAnchor` for `$`,
`WordsFrom` for `[C]+(?: [C]+)*$`, `TripleAhead` for the lookahead
`(?!.*([C])\1\1)`, and `DomainFrom` for `[^@\s]+\.[^@\s]+$`. These pieces
carry no contract of their own. They are specified through the
`ValidateCustomerName` and `ValidateCustomerEmail` rows and their lemmas
(`WordsFromSpec`, `TripleAheadSpec`, `EmailMatchSound`, `EmailMatchComplete`).

Three .NET regex rules are modelled exactly:

- `$` matches at the end of the input or just before one final line feed;
- `.` does not cross a line feed;
- `\s` is .NET's Unicode white-space class.

`GetProfile` returns one of four strings: the invalid-token reply, the
missing-id reply, the not-found reply, or the profile text. Exceptions from
the token validator and from the customer service pass through unchanged.
The validator's "Token validation failed. " message therefore reaches the
caller as a thrown `UnauthorizedAccessException`. With the concrete customer
service, an unknown user surfaces as a thrown `KeyNotFoundException` and
never as the string "User profile not found."
(`Profiles.ConcreteServiceNeverReportsMissingProfile`).

## Model

| member | source | states |
|---|---|---|
| Runtime.Wrap32 | UnitTests/Bank/BankAccount.cs:37 | the 32-bit truncation leaves in-range values alone and differs from its input by a multiple of 2^32 |
| Runtime.UncheckedAdd | UnitTests/Bank/BankAccount.cs:37 | C# `int` addition: the exact sum when it fits, otherwise the sum minus or plus 2^32 |
| DecimalText.DigitChar | UnitTests/Repositories/CustomerRepository.cs:17 | the digit character of d is a digit and has value d |
| DecimalText.NatToDigits | UnitTests/Repositories/CustomerRepository.cs:17 | the decimal text of a natural number is non-empty, all digits, and has no leading zero |
| DecimalText.IntToString | UnitTests/Repositories/CustomerRepository.cs:17 | the text of an id is never empty |
| DecimalText.DigitsRoundTrip | UnitTests/Repositories/CustomerRepository.cs:17 | reading the digits back gives the number written |
| DecimalText.NatToDigitsInjective | UnitTests/Repositories/CustomerRepository.cs:17 | equal digit strings come from equal numbers |
| DecimalText.IntToStringInjective | UnitTests/Repositories/CustomerRepository.cs:17 | `Id.ToString()` is injective |
| DecimalText.DistinctIdsDistinctKeys | UnitTests/Repositories/CustomerRepository.cs:17 | customers with different ids get different dictionary keys |
| DecimalText.DistinctKeysFrom | UnitTests/Repositories/CustomerRepository.cs:17 | no other id has the same text as a given id |
| Bank.BankAccount.constructor | UnitTests/Bank/BankAccount.cs:11-16 | a new account has balance 10000 and account number 10000 |
| Bank.BankAccount.Withdraw | UnitTests/Bank/BankAccount.cs:18-33 | a non-positive amount throws "Cannot withdraw nothing or a negative amount. "; an amount above the balance throws "Insufficient funds. "; in both cases the balance is unchanged. Otherwise the new balance is old minus amount, it is returned, and it is never negative. Only the balance can change |
| Bank.BankAccount.Deposit | UnitTests/Bank/BankAccount.cs:35-39 | the new balance is the unchecked sum of the old balance and the amount, whatever the amount's sign, and is returned; only the balance can change |
| Bank.BankAccount.GetBalance | UnitTests/Bank/BankAccount.cs:41-44 | returns the balance and changes nothing |
| Bank.BankAccount.GetAccountNumber | UnitTests/Bank/BankAccount.cs:46-49 | returns the account number and changes nothing |
| Bank.FreshAccountScenarios | UnitTests.Tests/Tests/Tests.cs:95-227 | on fresh accounts: a deposit of 5000 gives 15000; withdrawing 15000 throws "Insufficient funds. " and leaves 10000; withdrawing 5000 leaves 5000; withdrawing 0 or -10 throws the non-positive message and leaves 10000 |
| Bank.DepositThenWithdraw | UnitTests/Bank/BankAccount.cs:18-39 | withdrawing what was just deposited restores the balance and keeps the account number |
| Customers.Customer.Blank | UnitTests/Customers/Customer.cs:35 | the parameterless constructor leaves the account list null |
| Customers.Customer.constructor | UnitTests/Customers/Customer.cs:37-43 | stores name, e-mail address and password, and starts with an empty account list |
| Customers.Customer.SetName | UnitTests/Customers/Customer.cs:14-18 | after setting `Name`, it reads back as the value set; nothing else changes |
| Customers.Customer.SetEmail | UnitTests/Customers/Customer.cs:20-24 | after setting `Email`, it reads back as the value set; nothing else changes |
| Customers.Customer.SetPassword | UnitTests/Customers/Customer.cs:26-30 | after setting `Password`, it reads back as the value set; nothing else changes |
| Customers.Customer.AddAccount | UnitTests/Customers/Customer.cs:45-48 | appends the account at the end, keeps the earlier entries, and leaves the name, e-mail address and password alone; on a null list it throws and nothing changes |
| Customers.ThreeAccounts | UnitTests/Customers/Customer.cs:45-48 | three accounts added to a new customer give an account list of exactly those three, in order |
| Customers.SameAccountThrice | UnitTests/Customers/Customer.cs:47 | there is no deduplication: adding one account three times lists it three times |
| Repositories.KeyOf | UnitTests/Repositories/CustomerRepository.cs:17 | the key of an id is never empty, and no other id has that key |
| Repositories.CustomerRepository.constructor | UnitTests/Repositories/CustomerRepository.cs:9 | the dictionary starts empty |
| Repositories.CustomerRepository.Create | UnitTests/Repositories/CustomerRepository.cs:17-18 | the customer is stored under the text of its id, overwriting any entry there and keeping every other key, and the argument itself is returned |
| Repositories.CustomerRepository.GetById | UnitTests/Repositories/CustomerRepository.cs:21-25 | returns the stored customer, or null for an absent key; the dictionary is not changed |
| Repositories.CreateKeepsOtherIds | UnitTests/Repositories/CustomerRepository.cs:17 | storing a customer keeps the entry, or the absence of an entry, for every other id |
| Repositories.CreateThenGetById | UnitTests/Repositories/CustomerRepository.cs:17-24 | in any repository, fresh or filled, after `Create(c)` the lookup `GetById(c.Id.ToString())` returns c, and the lookup of any other id returns what it returned before, a customer or null |
| CustomerValidation.IsNameChar | UnitTests/Services/CustomerService.cs:45 | the name alphabet excludes the space, the line feed, `@` and the capital Nordic letters |
| CustomerValidation.IsRegexSpace | UnitTests/Services/CustomerService.cs:53 | `\s` holds space, tab, line feed and carriage return, and no character from `!` to U+0084, `@` included |
| CustomerValidation.RunEnd | UnitTests/Services/CustomerService.cs:45 | a greedy character-class run stops exactly at the first character outside the class |
| CustomerValidation.ValidateCustomerName | UnitTests/Services/CustomerService.cs:43-48 | the name pattern matches exactly when the input, less one final line feed, is non-empty words over the name alphabet separated by single spaces, with no space at either end and no character three times in a row |
| CustomerValidation.WordsFromSpec | UnitTests/Services/CustomerService.cs:45 | the pattern part `[C]+(?: [C]+)*$` matches exactly the space-separated words |
| CustomerValidation.TripleAheadSpec | UnitTests/Services/CustomerService.cs:45 | the lookahead `(?!.*([C])\1\1)` fails exactly when some name character appears three times in a row |
| CustomerValidation.TripleRunRejected | UnitTests/Services/CustomerService.cs:45 | any name with a character three times in a row is refused |
| CustomerValidation.ForeignCharacterRejected | UnitTests/Services/CustomerService.cs:45 | any name holding a character that is neither in the alphabet nor a space is refused |
| CustomerValidation.NameTrailingLineFeed | UnitTests/Services/CustomerService.cs:45 | `$` lets one final line feed through: a name followed by a line feed is accepted exactly when the name meets the description |
| CustomerValidation.TwoWordsMatch | UnitTests/Services/CustomerService.cs:45 | two words around one space match the word part of the pattern |
| CustomerValidation.ValidateCustomerEmail | UnitTests/Services/CustomerService.cs:51-55 | the e-mail pattern matches exactly when the input, less one final line feed, has no white space and exactly one `@`, with a non-empty part before it and a `.` after it with a character on each side |
| CustomerValidation.ShapeOfBody | UnitTests/Services/CustomerService.cs:53 | the description of an address, stated on the input's positions, is equivalent to the same description on the input less its final line feed |
| CustomerValidation.ShapeToPositions | UnitTests/Services/CustomerService.cs:53 | the description on the input less its final line feed implies the description on positions |
| CustomerValidation.PositionsToShape | UnitTests/Services/CustomerService.cs:53 | the description on positions implies the description on the input less its final line feed |
| CustomerValidation.EmailMatchSound | UnitTests/Services/CustomerService.cs:53 | every address the pattern matches meets the description |
| CustomerValidation.EmailMatchComplete | UnitTests/Services/CustomerService.cs:53 | every address meeting the description is matched |
| CustomerValidation.WhitespaceRejected | UnitTests/Services/CustomerService.cs:53 | an address with any `\s` character before its end is refused |
| CustomerValidation.SecondAtRejected | UnitTests/Services/CustomerService.cs:53 | an address with two `@` is refused |
| CustomerValidation.EmailTrailingLineFeed | UnitTests/Services/CustomerService.cs:53 | an address followed by a line feed is accepted exactly when the address meets the description |
| CustomerValidation.SimpleAddressAccepted | UnitTests/Services/CustomerService.cs:53 | one `@` after a non-empty local part, with an inner `.` in the domain and no other forbidden character, is accepted |
| CustomerValidation.AcceptsDoubledLetters | UnitTests.Tests/Tests/Tests.cs:299-305 | "Waage Sandøe" is accepted: two equal letters in a row are fine |
| CustomerValidation.DashedNameHasNoTriple | UnitTests.Tests/Tests/Tests.cs:320 | "Jean-Claude D'Angelo" has no character three times in a row |
| CustomerValidation.AcceptsDashesAndApostrophes | UnitTests.Tests/Tests/Tests.cs:320-326 | "Jean-Claude D'Angelo" is accepted |
| CustomerValidation.AcceptsFactoryDefaultName | UnitTests/Factories/CustomerFactory.cs:8 | the factory's default name "Test user" is accepted |
| CustomerValidation.AcceptsFactoryDefaultEmail | UnitTests/Factories/CustomerFactory.cs:8 | the factory's default address "test@mail.com" is accepted |
| CustomerValidation.RejectsIllegalCharacters | UnitTests.Tests/Tests/Tests.cs:241-247 | "Hej/med*dig" is refused |
| CustomerValidation.RejectsRepeatedLetters | UnitTests.Tests/Tests/Tests.cs:260-264 | "AAAAAAAAAAAAAAAAA" is refused |
| CustomerValidation.RejectsCapitalNordicLetter | UnitTests/Services/CustomerService.cs:45 | matching is case-sensitive: "Åse" is refused |
| CustomerValidation.AcceptsScenarioEmail | UnitTests/Services/CustomerService.cs:53 | "ada@example.com" is accepted |
| CustomerValidation.RejectsSpace | UnitTests/Services/CustomerService.cs:53 | an address with a space, "test mail.com", is refused |
| CustomerValidation.RejectsDomainWithoutDot | UnitTests/Services/CustomerService.cs:53 | "test@mail" is refused |
| CustomerValidation.RejectsEmptyLocalPart | UnitTests/Services/CustomerService.cs:53 | "@mail.com" is refused |
| CustomerValidation.RejectsSecondAt | UnitTests/Services/CustomerService.cs:53 | "a@b@mail.com" is refused |
| CustomerServices.PassesChecks | UnitTests/Services/CustomerService.cs:27-31 | both checks pass exactly when the name, less one final line feed, is spaced words with no triple run and the address has the local@domain shape |
| CustomerServices.ProfileLookup | UnitTests/Services/CustomerService.cs:58-77 | a lookup succeeds exactly for a non-empty stored id, with the stored value; otherwise it fails with the argument error for the empty id and not-found for an absent one |
| CustomerServices.CustomerService.constructor | UnitTests/Services/CustomerService.cs:15-18 | the service works on the repository it is given |
| CustomerServices.CustomerService.Create | UnitTests/Services/CustomerService.cs:27-39 | when both checks pass, the customer is stored under its id's text and returned; otherwise "Customer name or e-mail address is invalid. " is thrown and the repository is unchanged |
| CustomerServices.CustomerService.GetCustomerProfile | UnitTests/Services/CustomerService.cs:58-77 | the answer is `ProfileLookup` over the repository's dictionary: the empty id throws an argument error, an absent key throws "Customer profile not found.", otherwise the stored customer, never null; nothing changes |
| CustomerServices.CreatedCustomerIsFound | UnitTests/Services/CustomerService.cs:67-76 | a customer just stored is found under the text of its id |
| CustomerServices.CreateKeepsOtherProfiles | UnitTests/Services/CustomerService.cs:67-76 | storing a customer changes no profile answer for a customer with another id |
| CustomerServices.CreateThenGetProfile | UnitTests/Services/CustomerService.cs:31-34 | in any repository, fresh or filled, a customer passing both checks is created and its profile is then found by its id; the profile answer for any other id is the one given before |
| CustomerServices.FreshRepositoryRoundTrip | UnitTests.Tests/Tests/FeatureTests.cs:58-75 | on a new repository and service, a valid customer is created and its profile is then found by its id |
| CustomerServices.RejectedCreateChangesNoProfile | UnitTests/Services/CustomerService.cs:35-39 | a customer refused by the checks leaves every profile answer unchanged |
| Profiles.GetProfile | UnitTests/Services/ProfileService.cs:23-51 | a success is one of the three fixed replies or a profile text; an exception comes from the validator or from the customer lookup; a validator exception passes through unchanged |
| Profiles.UserIdOf | UnitTests/Services/ProfileService.cs:34-39 | no user id exactly when no claim is a name identifier or the first one is empty; otherwise the first name-identifier value, non-empty |
| Profiles.ProfileText | UnitTests/Services/ProfileService.cs:50 | the text is "User Profile: ", then the name, then ", ", then the e-mail address |
| Profiles.FindFirst | UnitTests/Services/ProfileService.cs:34 | the value found is that of the first claim of the requested type; nothing is found exactly when no claim has that type |
| Profiles.FirstClaimFound | UnitTests/Services/ProfileService.cs:34 | the first name-identifier claim's value is the one extracted |
| Profiles.TokenErrorPropagates | UnitTests/Services/ProfileService.cs:26 | an exception from the token validator passes through unchanged |
| Profiles.NullPrincipalIsUnauthorized | UnitTests/Services/ProfileService.cs:28-31 | a null principal gives "Unauthorized: Invalid or expired token." whatever the customer lookup would say |
| Profiles.MissingUserIdIsUnauthorized | UnitTests/Services/ProfileService.cs:34-39 | a missing or empty name-identifier claim gives "Unauthorized: Missing user ID in token." whatever the customer lookup would say |
| Profiles.LookupOnlyAtUserId | UnitTests/Services/ProfileService.cs:42 | the customer lookup is consulted at the extracted user id and nowhere else |
| Profiles.LookupOutcomes | UnitTests/Services/ProfileService.cs:42-50 | a null profile gives "User profile not found."; a profile gives "User Profile: " + name + ", " + e-mail; a lookup exception passes through |
| Profiles.RepliesAreDistinct | UnitTests/Services/ProfileService.cs:28-50 | the profile text, whatever the name and address, differs from the three fixed replies, and those differ pairwise |
| Profiles.ServiceLookup | UnitTests/Services/CustomerService.cs:58-77 | the concrete customer service never answers null; it succeeds exactly for a non-empty stored id, with that customer's name and address |
| Profiles.SnapshotMatchesService | UnitTests/Services/CustomerService.cs:58-76 | the lookup over the stored names and addresses answers as `GetCustomerProfile` does over the repository |
| Profiles.ConcreteServiceNeverReportsMissingProfile | UnitTests/Services/ProfileService.cs:42-47 | with the concrete customer service, "User profile not found." is never the answer |
| Profiles.UnknownUserSurfacesAsNotFound | UnitTests/Services/CustomerService.cs:70-73 | with the concrete customer service, an unknown user id surfaces as the thrown not-found error |
| Profiles.StoredProfileFound | UnitTests/Services/ProfileService.cs:34-50 | a principal whose first name-identifier claim is a stored id, whatever its other claims, gives that customer's profile text |
| Profiles.AdaProfileText | UnitTests/Services/ProfileService.cs:50 | the profile text of Ada is "User Profile: Ada, ada@example.com" |
| Profiles.StoredProfileScenario | UnitTests/Services/AuthService.cs:27-31 | a token issued for "42", whose principal holds the name identifier "42" and a `jti` claim, with Ada stored under "42", gives "User Profile: Ada, ada@example.com" |

## Left out

- Token handling in the authentication service is not modelled: JWT issuance, signature, expiry, issuer and audience checks, and the claim mapping are library behaviour. `GetProfile` takes the validator as a function parameter that returns a principal, null, or an exception.
- The environment fixture that reads the signing key is left out, because it is I/O.
- Persistence in `CustomerRepository.Create` is left out: the EF Core `Add`/`SaveChanges`, id generation and the unique index. The id is taken as already assigned.
- JSON deserialisation in `CustomerService.Create` is left out. The model takes the deserialised customer; a JSON text that deserialises to null is not modelled.
- The general .NET regex engine and its match timeout are not modelled; only the two fixed patterns are.
- `GenerateBankAccountNumber` is left out: it draws from `Random` and is never called.
- Controllers, factories, interfaces, `BankContext` and `TestDbContextFactory` are left out; they are delegations and declarations.
- Null strings are not modelled, because Dafny strings are never null. So neither the null half of `string.IsNullOrEmpty` in `GetCustomerProfile` nor the `ArgumentNullException` that `Regex.IsMatch` throws for a null name or address is modelled.
- Customers.Customer.AddAccount: the `accounts` getter (Customer.cs:33) hands out the live `List`, which any holder can clear, shrink or reorder; the model keeps the list inside the customer and does not capture that aliasing. A null account is added as `List.Add` allows.
- Customers.Customer.Blank: the parameterless constructor leaves the three strings null; the model gives them the empty string.
- Profiles.FindFirst: claim types are compared exactly, while .NET compares them ignoring case, and a principal's identities are flattened into one list of claims.
- Profiles.ServiceLookup: the concrete customer service is seen through a snapshot of the stored names and addresses, built by `Profiles.ProfilesOf` and tied to the repository by `Profiles.SnapshotMatchesService`. The object graph is not read during `GetProfile`.
- Repositories.KeyOf: `Int32.ToString()` is taken with the invariant culture's digits and minus sign.
- Strings are sequences of Unicode scalar values, while a .NET `string` is a sequence of UTF-16 code units; lone surrogates are not modelled. Neither validator's verdict depends on this: a supplementary character is outside the name class and inside `[^@\s]` either way.
- Concurrency is not modelled; the dictionary is not thread-safe in the source either.
