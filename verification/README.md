# Z2H referral backend: a Dafny model of the tier engine and its callers

The Z2H backend sells plan products to customers arranged in a referral tree.
Every paid order creates a new customer record under the buyer's referrer. Then
`update_referrer_level` walks up at most four referrers. At level k it compares
the ancestor's depth-k downline count with the k-th power of
`PRIMARY_LEG_COUNT`, and on a match it marks level k completed.

This project models, as pure functions over immutable data:

- **The customer table and its downlines** (`Customers`). The source's
  nested-loop count is `LegCount`. Its meaning, the set of non-admin customers k
  referrer links below an ancestor, is `Downline`.
- **The tier engine** (`TierEngine`). It is modelled step by step as
  `AdvanceFrom`. It is also described by a reference effect, `Expected`, for each
  visited ancestor.
- **The payment notification view** (`Payment`): the three gates, the order, the
  order item and the new customer it writes, the engine run, and the customer
  number it answers with.
- **The sequence codes** (`SequenceCodes`). The six sites that build a code from
  a prefix setting and a counter setting are modelled once.
- **The web page role toggles** of `SaveWebUserSettingsView` (`WebPageRoles`).
- **Password generation** (`Password`) and **registration** (`Accounts`).
- **Python helpers**: `str()`/`int()` on integers (`Decimal`), and request values
  with Python's `==`, `str()` and `dict.get` (`PyValues`).

Some inputs come from outside the code and are parameters:

- the clock (`now`);
- the random draws of `generate_password`;
- the `PRIMARY_LEG_COUNT` environment variable (`p`);
- the database's next id and generated uid;
- the Silver plan assigned to a new customer (`silverPlan`), which the source looks up by name;
- the serializers' validity verdicts.

The source walks referrer links that can in principle form a cycle. Lemmas that
need the links to be acyclic take a rank map as evidence (`Ranked`): every
customer's referrer has a higher rank. The flag-preservation lemmas do not need
it.

Two behaviours of the code shape the model:

- `update_referrer_level` dereferences the paying customer's referrer without a
  check (`Z2H/apps/app/views.py:485-486`): a paying customer without one makes
  it fail on `None.is_admin_user`, so `Ready` requires one, together with every
  further link the walk follows.
- Levels 2 to 4 write their completion date on every call whose count matches
  (`Z2H/apps/app/views.py:531-534`, and the same at the third and fourth level).
  The engine is therefore idempotent only for the same `now`
  (`EngineIdempotent`), and `EngineRestamps` shows that a later call changes the
  table.

## Model

| member | source | states |
|---|---|---|
| TierEngine.ThresholdIsPower | Z2H/apps/app/views.py:49-52 | the k-th leg-count threshold is `PRIMARY_LEG_COUNT` to the k-th power |
| Customers.LegCountIsDownline | Z2H/apps/app/views.py:527-529 | the source's nested sum of non-admin child counts, k levels deep, equals the number of non-admin customers exactly k referrer links below the ancestor |
| Customers.LegCountDepthOne | Z2H/apps/app/views.py:493-497 | the depth-1 leg count is the number of customers naming the referrer as referrer, admins excluded: the `.count()` of the children query |
| Customers.SumLegsDepthZero | Z2H/apps/app/views.py:558-563 | the innermost `.count()` adds one per customer: summing depth-0 counts over a set of customers gives its size |
| Customers.SumLegsIsDownline | Z2H/apps/app/views.py:558-563 | summing counts over a set of children gives the size of the union of their downlines |
| Customers.DownlineByChildren | Z2H/apps/app/views.py:527-529 | the customers k links below an ancestor are exactly those k-1 links below one of its non-admin children, the set each loop level iterates over |
| TierEngine.CheckLevel | Z2H/apps/app/views.py:499-503 | one level's check changes only the examined ancestor and never the table's keys, referrers or admin flags |
| TierEngine.CheckLevelEffect | Z2H/apps/app/views.py:531-534 | one level's check replaces the ancestor by its reference outcome, computed from the downline set |
| TierEngine.PayingCustomer | Z2H/apps/app/views.py:471-485 | the paying customer is the buyer's lowest-id record with all four levels open, and none exists exactly when no such record does |
| TierEngine.Ancestors | Z2H/apps/app/views.py:505-577 | the walk climbs one referrer link per level through non-admins, visits at most 5-k customers, and stops before level 4 only at an admin |
| TierEngine.Walk | Z2H/apps/app/views.py:485-577 | the engine visits between one and four ancestors, the first being the paying customer's referrer |
| TierEngine.UpdateReferrerLevel | Z2H/apps/app/views.py:470-599 | the engine keeps the table's keys, referrers and admin flags |
| TierEngine.AdvanceFromVisit | Z2H/apps/app/views.py:485-599 | with acyclic links, the j-th visited ancestor ends as its reference outcome at level k+j |
| TierEngine.EngineVisit | Z2H/apps/app/views.py:470-599 | with acyclic links, the j-th ancestor of the walk ends as its reference outcome at level j+1 |
| TierEngine.AdvanceFrom | Z2H/apps/app/views.py:485-599 | the walk from level k keeps the table's keys, referrers and admin flags |
| TierEngine.AdvanceFromFrame | Z2H/apps/app/views.py:485-599 | a customer the walk does not visit is left unchanged |
| TierEngine.AdvanceFromStep | Z2H/apps/app/views.py:505-517 | below level 4 at a non-admin ancestor, the walk checks the ancestor and then continues from its referrer at the next level on the updated table, with no missing link ahead |
| TierEngine.EngineFrame | Z2H/apps/app/views.py:470-599 | every customer outside the walk is unchanged by the engine |
| TierEngine.UnreferencedUntouched | Z2H/apps/app/views.py:470-599 | a customer nobody refers to is unchanged by the engine |
| TierEngine.WalkDistinct | Z2H/apps/app/views.py:485-577 | with acyclic links the walk never visits a customer twice |
| TierEngine.PayerNotInWalk | Z2H/apps/app/views.py:471-486 | with acyclic links the paying customer is not among its own ancestors |
| TierEngine.LevelOneRule | Z2H/apps/app/views.py:491-503 | the first ancestor's level 1 ends completed iff it was completed or its direct non-admin downline equals the threshold; it is re-stamped only when it was open and the count matches; otherwise it is unchanged |
| TierEngine.HigherLevelRule | Z2H/apps/app/views.py:531-534 | at levels 2 to 4 a count equal to the threshold completes the level with date `now`, even when it was already completed; completing level 4 also sets the plan end date; otherwise the ancestor is unchanged |
| TierEngine.OnlyLevelKChanges | Z2H/apps/app/views.py:595-599 | the j-th ancestor differs from its old record only in level j+1 and, at level 4, in the plan end date |
| TierEngine.LevelOutcomeKeeps | Z2H/apps/app/views.py:499-599 | no level's check ever clears a completed flag |
| TierEngine.EngineMonotone | Z2H/apps/app/views.py:470-599 | the engine keeps keys and links, and every completed flag of every customer stays completed |
| TierEngine.EngineKeepsFlag | Z2H/apps/app/views.py:470-599 | a completed level of any customer is still completed after the engine |
| TierEngine.AdvanceFromKeepsIdentity | Z2H/apps/app/views.py:485-599 | the walk changes no customer's uid, number, user, referrer, admin flag, plan or plan start |
| TierEngine.EngineKeepsUser | Z2H/apps/app/views.py:470-599 | every customer still belongs to the same user after the engine |
| TierEngine.AdminShortCircuit | Z2H/apps/app/views.py:486-577 | an admin ancestor is the last one visited, and its own referrer is never examined |
| TierEngine.LevelOutcomeIdempotent | Z2H/apps/app/views.py:499-599 | applying one level's outcome twice at the same instant equals applying it once |
| TierEngine.EngineKeepsPayer | Z2H/apps/app/views.py:471-485 | with acyclic links, after the engine the same record is still the paying customer and the walk is the same |
| TierEngine.EngineIdempotent | Z2H/apps/app/views.py:470-599 | with acyclic links, running the engine again at the same instant changes nothing |
| TierEngine.IdempotentVisited | Z2H/apps/app/views.py:531-534 | a visited ancestor is left as it is by a second run at the same instant that walks the same ancestors |
| TierEngine.EngineIdempotentAt | Z2H/apps/app/views.py:470-599 | with acyclic links, a second run at the same instant leaves each customer as the first run left it |
| TierEngine.EngineRestamps | Z2H/apps/app/views.py:531-534 | when a level-2-to-4 ancestor's count matches, a second run at a later instant re-stamps its date, so the engine is not idempotent over time |
| TierEngine.FirstRunStamped | Z2H/apps/app/views.py:531-534 | after a run that completes level j+1 of the j-th ancestor, the next run walks the same ancestors and still finds the count equal to the threshold there |
| SequenceCodes.Issue | Z2H/apps/app/views.py:344-353 | issuing a code advances the counter by one, stores it in canonical decimal, leaves every other setting unchanged, and a canonical counter gives prefix followed by its old text |
| SequenceCodes.IssueCode | Z2H/apps/app/views.py:375-384 | the code starts with the prefix and the rest reads back as the counter's old value |
| SequenceCodes.IssueMany | Z2H/apps/app/views.py:445-454 | m issues in a row yield m codes, advance the counter by m and leave every other setting unchanged |
| SequenceCodes.IssueManyCodes | Z2H/apps/app/views.py:445-454 | the i-th of m issues in a row is the prefix followed by str(counter + i) |
| SequenceCodes.IssueManyDistinct | Z2H/apps/app/views.py:71-82 | codes issued in a row from one pair of settings never repeat |
| SequenceCodes.CodeSettingsDistinct | Z2H/apps/app/views.py:103-114 | the six code sites use twelve pairwise different setting names, so issuing from one never changes another's counter |
| Decimal.IntRoundTrip | Z2H/apps/app/views.py:142-151 | `int(str(n)) == n` for every integer counter |
| Decimal.IntToDecimalSign | Z2H/apps/app/views.py:350 | `str()` of an integer is never empty and starts with a minus sign exactly when the integer is negative |
| Decimal.ParseInt | Z2H/apps/app/views.py:347-348 | `int()` of a setting succeeds exactly on an optionally signed non-empty run of ASCII digits |
| Payment.KeysPresent | Z2H/apps/app/views.py:325-331 | the scan succeeds iff every required key is present |
| Payment.ProductActiveIffExists | Z2H/apps/app/views.py:333-334 | a product counts as found iff an active product has the requested uid |
| Payment.Gate | Z2H/apps/app/views.py:602-629 | the first failing check wins: missing details iff a required key is absent; payment failed iff keys are present and the status is not "success"; product not found iff both pass and no active product has that uid |
| Payment.CreateOrder | Z2H/apps/app/views.py:336-370 | one order is appended, numbered by the order counter, and nothing but the settings and the orders changes |
| Payment.CreateOrderItem | Z2H/apps/app/views.py:372-413 | one item is appended, numbered by the item counter, and nothing but the settings and the items changes |
| Payment.UpdateCustomerDetails | Z2H/apps/app/views.py:441-468 | the new customer is added with the buyer's registered referrer and the issued number, and is attached to the new order only |
| Payment.FirstOpenCustomer | Z2H/apps/app/views.py:643 | the answer names the buyer's lowest-id record with level 4 open, if any |
| Payment.PostPayment | Z2H/apps/app/views.py:602-646 | the call is rejected iff a gate fails, and a rejection changes nothing |
| Payment.PostPaymentRecords | Z2H/apps/app/views.py:631-635 | a successful call appends exactly the order and the item as the source builds them, with the order given to the new customer |
| Payment.PostPaymentCounters | Z2H/apps/app/views.py:336-454 | a successful call advances exactly the order, item and customer counters, each by one |
| Payment.IssuedCustomerNumberForm | Z2H/apps/app/views.py:445-454 | the new customer's number is the customer prefix followed by the customer counter |
| Payment.PostPaymentCustomers | Z2H/apps/app/views.py:639-641 | the final table is the engine run over the table with the new customer added, and the new customer ends as created |
| Payment.NewcomerStaysOpen | Z2H/apps/app/views.py:441-468 | nobody refers to the new customer, so the engine leaves it as created with level 4 open |
| Payment.PostPaymentResponse | Z2H/apps/app/views.py:643-644 | a successful call answers with the number of the buyer's lowest-id record with level 4 open, and such a record always exists |
| Payment.OnlyNewcomerOpen | Z2H/apps/app/views.py:639-643 | when none of the buyer's records had level 4 open, after the engine only the new one does |
| Payment.PostPaymentFirstPurchase | Z2H/apps/app/views.py:643-644 | a first purchase is answered with the customer number just issued |
| WebPageRoles.Toggle | Z2H/apps/app/views.py:667-693 | a value equal to True leaves the row present, active unless it was just created inactive; a value equal to False deactivates a present row and creates none; any other value changes nothing; other rows are untouched |
| WebPageRoles.ToggleIdempotent | Z2H/apps/app/views.py:695-721 | repeating a toggle changes nothing unless the first created the row inactive |
| WebPageRoles.ToggleTwiceActivates | Z2H/apps/app/views.py:675-682 | when creation leaves a row inactive, a second True activates it |
| WebPageRoles.OnThenOff | Z2H/apps/app/views.py:723-749 | switching a page on and then off leaves an inactive row |
| WebPageRoles.ApplyAll | Z2H/apps/app/views.py:851-856 | the six toggles touch no row outside this role's six pages |
| WebPageRoles.ApplyAllEffect | Z2H/apps/app/views.py:751-833 | with distinct page uids each page's row ends as its own toggle leaves it |
| WebPageRoles.SaveWebUserSettings | Z2H/apps/app/views.py:835-858 | every role row other than the request's role on the six named pages keeps its value |
| WebPageRoles.SaveWebUserSettingsEffect | Z2H/apps/app/views.py:835-858 | the view's effect, page by page, and every other row untouched |
| Password.Run | Z2H/apps/user/views.py:170 | the two letter alphabets are runs of 26 consecutive characters |
| Password.UpperLetters | Z2H/apps/user/views.py:175 | `ascii_letters.upper()` is the upper-case alphabet twice, so the upper-case draw is always an upper-case letter |
| Password.SwapPermutes | Z2H/apps/user/views.py:179-181 | a swap permutes the characters |
| Password.ShuffleDown | Z2H/apps/user/views.py:179-181 | the shuffle keeps the length and the multiset of characters |
| Password.Shuffle | Z2H/apps/user/views.py:179-181 | `random.shuffle` keeps the length and the multiset of characters |
| Password.GeneratePassword | Z2H/apps/user/views.py:169-183 | the password is a permutation of the drawn letters, upper-case letter, digit and punctuation, and has length+1 characters (3 when length < 2) |
| Password.UnshuffledComposition | Z2H/apps/user/views.py:174-177 | before the shuffle, the three characters after the letters are an upper-case letter, a digit and a punctuation character, and every character is from the alphabet |
| Password.PermutationInAlphabet | Z2H/apps/user/views.py:179-181 | shuffling text drawn from the alphabet leaves text drawn from the alphabet |
| Password.PasswordComposition | Z2H/apps/user/views.py:169-183 | every password holds an upper-case letter, a digit and a punctuation character, and only characters of the three alphabets |
| Password.DefaultLength | Z2H/apps/user/views.py:169 | the default call yields nine characters |
| Accounts.AccountEmail | Z2H/apps/user/views.py:80 | the account e-mail always ends in "@z2h.com" |
| Accounts.MobileRoundTrip | Z2H/apps/user/views.py:189 | an integer mobile number is read back from the part of its e-mail before the domain |
| Accounts.StringOrIntSameEmail | Z2H/apps/user/views.py:189 | a mobile number sent as a JSON integer and the same number sent as its decimal string give the same account e-mail |
| Accounts.AccountEmailInjective | Z2H/apps/user/views.py:189 | different integer mobile numbers never share an e-mail |
| Accounts.MissingMobileEmail | Z2H/apps/user/views.py:186-189 | a request without a mobile number maps to "None@z2h.com" |
| Accounts.FindReferrer | Z2H/apps/user/views.py:216 | the referrer found has the requested uid and the lowest id among the customers that have it, and none is found exactly when no customer has it |
| Accounts.FindReferrerIsLeast | Z2H/apps/user/views.py:216-218 | a customer is the referrer found exactly when it has the requested uid and no customer with a lower id has it |
| Accounts.CreateNewUser | Z2H/apps/user/views.py:185-211 | an existing e-mail gives "user exists", an unused e-mail with an invalid user gives nothing, and otherwise a user is created, stored under the derived e-mail with the database's uid and a nine-character password, and returned with that e-mail and password |
| Accounts.CreateNewUserCreates | Z2H/apps/user/views.py:195-209 | an unused e-mail with a valid user yields that e-mail and the generated password, and the user is stored with the new uid, the request's name and that password |
| Accounts.RegisterUser | Z2H/apps/user/views.py:213-266 | a user is created iff the referrer exists, the registration and user are valid and the e-mail is unused; a success answers with the uid of the user stored under the e-mail and mails that user's password to the request's `email_address`; any other outcome changes nothing and sends no mail |
| Accounts.UnknownReferrerRejected | Z2H/apps/user/views.py:216-223 | an unknown referrer is answered before anything is created |
| Accounts.ExistingUserRejected | Z2H/apps/user/views.py:191-193 | an e-mail already in use is answered "user exists" and creates nothing |
| Accounts.RegisterUserCreated | Z2H/apps/user/views.py:225-262 | a successful registration answers with the new user's uid, stores the user, appends one registration naming the referrer found, and mails the generated password to the request's `email_address` |
| Accounts.RegistrationCreates | Z2H/apps/user/views.py:230-262 | a successful registration adds exactly one user, under the derived e-mail with the new uid and the generated password, keeps every other user, appends one registration naming the referrer found, answers with the uid and sends the password only by mail |

## Left out

- Prices, GST amounts and order totals (`create_order_details` amounts, `update_order_details`) are floating point. `update_order_details` is modelled as a step that always returns true and changes nothing modelled.
- The order's `payment_details` dictionary is kept only as its three request values and the instant; the CGST/SGST/total fields are floats and are not modelled.
- Concurrency and the lost-update races between payments are not modelled; each call is one atomic step.
- `timezone.now()` is called several times by the source; the model uses one instant `now` per call.
- The permission classes (`CustomerExistsPermission`, `ReferrerLimitPermission`) and token authentication are outside this model.
- The serializers' validation rules are not part of this model; their verdicts are boolean parameters.
- Password hashing by the user serializer and the sending of the credential e-mail are left out; the e-mail is modelled as its addressee, name and password. The source reads `request_data['email_address']` and `request_data['name']` by index only after the user and the registration are saved. A request without them fails after those saves. The model reads them as `dict.get` would and reports the registration as created.
- The fields of the registration record (`Accounts.Registration`: the referrer, the mobile number and the name) are an assumption: `RegisterUserSerializer` is not part of this model, so which request fields it stores is not known here.
- The new user's uid is a parameter (`Judgement.newUid`), as the database generates it; `RegisterUser` reads it back from the user stored under the e-mail, as the source's lookup by e-mail does.
- `UserLoginView` is modelled only through the e-mail derivation it shares with registration; token handling and the first-login flag are left out.
- `ValidateReferrerView`, the list, search, pagination, CSV and report views are not part of the core modelled here.
- `Decimal.ParseInt` accepts ASCII digits with an optional sign; `int()`'s acceptance of surrounding whitespace, underscores and non-ASCII digits is not modelled.
- Request values (`PyValues.Value`) are limited to null, booleans, integers and strings. JSON floats, lists and objects are not modelled. For a float the source differs: `1.0 == True` holds, so `1.0` activates a role row, and a mobile number `98765.0` gives the e-mail `98765.0@z2h.com`.
- `.first()` without `order_by` is taken as the lowest primary key; the models' `Meta.ordering` is not part of this model.
- The settings are modelled as a map from name to value of the active settings; several active settings with one name are not modelled.
- `Payment.ProductActive` treats a product value that is not a string as not found; the ORM's coercion of other values is not modelled.
- The model defaults of `Z2HCustomers` (admin flag, open levels, no plan end) and of a created `Z2HWebPageRoles` row's `is_active` are outside what is modelled: the Django models are not part of this model. The new customer is taken as non-admin with all levels open, and the created row's flag is the parameter `createdActive`.
- `Payment.PostPayment` requires `Admissible` once the gates pass. Part of it is what the source needs in order not to fail: the three settings pairs present with integer counters, the buyer's registration, and a referrer chain without missing links. The source also needs exactly one plan named `Silver`: `Z2HPlanDetails.objects.get(name='Silver')` raises otherwise. It also needs the ordered product to have a plan, because the item price reads `product.plan.registration_fee`. The source's failures in all those cases (`None.value`, `int()` errors, `None.referrer`, `DoesNotExist` or `MultipleObjectsReturned`, and `None.registration_fee`) are not modelled. The rest are database invariants the source relies on but does not check, taken as assumptions: every referrer of the table is a customer of it (foreign-key integrity), every existing id is below the new customer's id (auto-increment), and the registration's referrer is in the table.
- `TierEngine.UpdateReferrerLevel` requires a paying customer with a referrer and a chain with no missing links (`Ready`); the source fails on `None.referrer` and `None.is_admin_user` otherwise.
- `TierEngine.EngineVisit`, `TierEngine.WalkDistinct`, `TierEngine.PayerNotInWalk`, `TierEngine.EngineIdempotent`: these hold only for acyclic referrer links, which the source does not enforce.
- `WebPageRoles.SaveWebUserSettings` requires every request key and every web page to exist (`CanSave`); the source fails on a missing key or a missing page. It saves the toggles before the failing one, so such a failure leaves a partial write, which is not modelled.
- `WebPageRoles.ApplyAllEffect`: the page-by-page effect is stated only for distinct page uids.
- The role rows are modelled as a map with at most one row per (role, page) pair; with duplicate rows the source's `.first()` updates only one, which is not modelled.
- The six `update_web_page_*` methods are modelled by one `WebPageRoles.Toggle` with the request key and page as parameters; they differ only in those.
