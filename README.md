# Accounts and object catalog of a Django file-storage service

This project models the decision rules at the core of a Django file-storage
backend: the custom password policy, the login backend that accepts a
username or an email, the email-activation endpoint, and the catalog record
of a stored object with its serializer. Each is modelled in Dafny and its
behaviour is proved.

- `wrappers.dfy`: `Option`, which stands for Python's `None` and for nullable columns.
- `password_policy.dfy` (`PasswordPolicy`): `CustomPasswordValidator.validate` is a
  pure function over the password, and `get_help_text` is the constant `HelpText`. `Search` models `re.search` with a one-character
  class and returns the leftmost match.
- `login_backend.dfy` (`LoginBackend`): `EmailOrUsernameModelBackend.authenticate`
  is a pure function over the user table, which is a sequence of rows. `Get` models
  `QuerySet.get` with its three outcomes: one row, `DoesNotExist` and
  `MultipleObjectsReturned`. Password checking and `user_can_authenticate` are
  function parameters.
- `email_activation.dfy` (`EmailActivation`): `ActivateUserView.get`. Each account
  is an `Account` object, and the handler updates its `is_active` and
  `is_email_verified` fields in place. `Respond` and `After` are the pure
  specification of the handler. The decoded user id is an input: `None` means
  `urlsafe_base64_decode` or the conversion of the id failed. The token check is a
  predicate parameter.
- `object_catalog.dfy` (`ObjectCatalog`): the `AppObject` row and the row shape
  before migration 0004. Also deleting a user (the owner column is set to null and
  the user's `shared_with` grants are removed), `__str__` (`Display`), and
  `AppObjectSerializer` with its `is_owner` flag.

### Notes on the source

- `objects/models.py:6` declares no uniqueness for `object_key`, so the model
  allows duplicate keys (`DuplicateKeysAllowed`).
- `is_email_verified` is read and written by `user/views.py` but is not declared in
  `user/models.py`. The model keeps it as a field of the account.
- `file_type` and `mime_type` are not in `objects/models.py`. They come from
  migration 0004, and that migration uses `preserve_default=False`. So
  `others`/`N/A` are only back-filled into existing rows (`Backfill`). New rows get
  whatever the caller passes (`Create`).

## Model

| member | source | states |
|---|---|---|
| `PasswordPolicy.HelpText` | user/validators.py:33-36 | the help text names the 6-character minimum and the special characters `!@&%$#` |
| `PasswordPolicy.Search` | user/validators.py:12-31 | `re.search` with a character class: the returned position is the leftmost character in the class, and `None` means no character is in the class |
| `PasswordPolicy.Validate` | user/validators.py:6-31 | accepted iff length >= 6 and there is a character in a-z, one in A-Z, one in 0-9 and one in `!@&%$#`; a rejection names a broken rule, and every earlier rule holds |
| `PasswordPolicy.RejectsWithFirstBrokenRule` | user/validators.py:7-31 | the reported error is e iff rule e is broken and every rule checked before e holds (both directions) |
| `PasswordPolicy.ShortPasswordRejected` | user/validators.py:7-11 | any password shorter than 6 characters fails with code `password_too_short`, whatever it contains |
| `PasswordPolicy.OnlyListedSpecialsCount` | user/validators.py:27-31 | a password that passes the first four rules but contains none of the six listed specials fails with `password_no_special` |
| `PasswordPolicy.StarIsNotSpecial` | user/validators.py:27-31 | `Abc123*` is rejected with `password_no_special` |
| `PasswordPolicy.SignUpTestPasswordAccepted` | user/tests.py:49-53 | the sign-up password `testPass123#` is accepted |
| `PasswordPolicy.UserIgnored` | user/validators.py:6 | the verdict does not depend on the `user` argument |
| `LoginBackend.Get` | user/backends.py:14-20 | `DoesNotExist` iff no row matches; `MultipleObjectsReturned` iff two rows match; otherwise it returns the row that is the only match |
| `LoginBackend.IExact` | user/backends.py:18 | `username__iexact`: equal strings match, and matching strings have the same length (ASCII letters compared without case) |
| `LoginBackend.Matches` | user/backends.py:15-18 | an email query matches exactly the rows with that email; a username query matches the row with that exact username and only rows of the same length |
| `LoginBackend.QueryFor` | user/backends.py:15-18 | the lookup is by exact email when an email is given, and by case-insensitive username otherwise |
| `LoginBackend.Authenticate` | user/backends.py:7-22 | the first ValueError is raised iff the password or both identifiers are missing; the second is raised iff both identifiers are given (with a password); `MultipleObjectsReturned` escapes iff the guards pass and two rows match the lookup; otherwise a user or `None` is returned; a returned user is in the table, matches the lookup, passes the password check and may authenticate |
| `LoginBackend.FailedCheckReturnsNone` | user/backends.py:21-22 | when the lookup finds its one row but the password check or `user_can_authenticate` fails, the result is `None` |
| `LoginBackend.AuthenticateSucceedsIff` | user/backends.py:14-22 | user u is returned iff the arguments pass the guards, u is the only row the lookup matches, its password checks and it may authenticate |
| `LoginBackend.UnknownIdentifierSkipsPasswordCheck` | user/backends.py:19-20 | when no row matches, the result is `None` whatever the password predicates say |
| `LoginBackend.EmailLoginNeverAmbiguous` | user/backends.py:15-16 | emails are unique in the user table (`user/models.py:7`), so an email login never raises `MultipleObjectsReturned` |
| `LoginBackend.UsernameCaseCollisionRaises` | user/backends.py:17-20 | when usernames `Alice` and `alice` both exist, logging in as `alice` raises `MultipleObjectsReturned` |
| `EmailActivation.Respond` | user/views.py:35-43 | as written: a missing user is a server error; a verified user is answered "already verified"; an unverified user is activated iff the token is valid, and otherwise gets "invalid link" |
| `EmailActivation.RespondChecked` | user/views.py:35-43 | corrected order: never a server error, a missing user gets "invalid link", and an existing user gets the as-written answer |
| `EmailActivation.After` | user/views.py:37-41 | only a successful activation changes the flags, and it sets both `is_active` and `is_email_verified` |
| `EmailActivation.Account.Confirm` | user/views.py:35-43 | the answer for the found account and its new flags, as given by `Respond` and `After` from its old flags |
| `EmailActivation.FindByPk` | user/views.py:31-33 | a found account is stored and has the requested primary key; `None` means no account has that key |
| `EmailActivation.LinkedUser` | user/views.py:29-33 | the link names an account only when the id decodes and an account has it |
| `EmailActivation.Activate` | user/views.py:28-43 | as written: a link naming no user is a server error; otherwise the named account gets `Respond`'s answer with the token check and `After`'s flags; no other account changes |
| `EmailActivation.ActivateChecked` | user/views.py:28-43 | corrected handler: never a server error, "invalid link" when no account is named, and otherwise the same as `Activate`; no other account changes |
| `EmailActivation.VerifiedUserRefused` | user/views.py:35-36 | a verified account gets 400 "already verified" whatever the token, and its flags are unchanged |
| `EmailActivation.ValidTokenActivates` | user/views.py:37-41 | an unverified account with a valid token gets 200 and ends active and verified |
| `EmailActivation.InvalidTokenChangesNothing` | user/views.py:42-43 | an unverified account with an invalid token gets "invalid link", and its flags are unchanged |
| `EmailActivation.SecondActivationRefused` | user/views.py:35-41 | after a successful activation, a second one with any token is answered "already verified" |
| `EmailActivation.MissingUserIsServerError` | user/views.py:29-37 | as written, a link naming no user gets a 500 server error and never "invalid link"; the corrected response is "invalid link" |
| `EmailActivation.ActivateTwice` | user/views.py:35-41 | on one stored account, a valid link followed by the same link gives "activated" and then "already verified" |
| `ObjectCatalog.FitsColumns` | objects/models.py:5-6 | name and key are at most 100 characters; with migration 0004, `file_type` is at most 20 and `mime_type` at most 50 |
| `ObjectCatalog.Display` | objects/models.py:12-13 | the string form of an object is its name |
| `ObjectCatalog.Create` | objects/models.py:7-10 | a new row has `uploaded_at` equal to the clock reading at creation and an empty `shared_with`; it keeps the given name, key and owner |
| `ObjectCatalog.Backfill` | objects/migrations/0004_appobject_file_type_appobject_mime_type.py:14-23 | existing rows get `file_type` = `others` and `mime_type` = `N/A` and keep every other column; rows within the widths of models.py still fit the 20- and 50-character columns |
| `ObjectCatalog.OnUserDeleted` | objects/models.py:8-10 | a row owned by the deleted user becomes ownerless; the user's share grant is removed; every other column is unchanged |
| `ObjectCatalog.DeleteUser` | objects/models.py:8-10 | deleting a user keeps every row, in place, with that change applied to each |
| `ObjectCatalog.DeleteUserRemovesReferences` | objects/models.py:8-10 | afterwards no row refers to the user; rows owned by that user are ownerless; other rows keep their owners |
| `ObjectCatalog.DeleteUserKeepsObjects` | objects/models.py:8-13 | no object is deleted with its owner: the ids, keys, display strings and upload times are unchanged |
| `ObjectCatalog.DeleteUserIdempotent` | objects/models.py:8-10 | deleting the same user a second time changes nothing |
| `ObjectCatalog.DeleteUserKeepsColumns` | objects/models.py:5-6 | the column widths (at most 100 characters for name and key) still hold after a user deletion |
| `ObjectCatalog.DuplicateKeysAllowed` | objects/models.py:6 | two different rows within the column widths can share one `object_key` |
| `ObjectCatalog.IsOwner` | objects/serializers.py:11-15 | false with no request; false for an ownerless object; otherwise true iff the requesting user is the owner |
| `ObjectCatalog.NoOwnerAfterOwnerDeleted` | objects/serializers.py:14 | once the owning user is deleted, `is_owner` is false for every request |
| `ObjectCatalog.OwnerSeesOwnership` | objects/serializers.py:13-14 | the owner's requests get `is_owner` true; requests from any other user or from the anonymous user get false |
| `ObjectCatalog.Serialize` | objects/serializers.py:4-15 | the output holds exactly `object_key`, `name`, `owner`, `shared_with`, `uploaded_at`, each copied from the record, plus `is_owner` for the request |

## Findings

| source | as written | input that shows it | evidently intended | confidence | as-written member | corrected member |
|---|---|---|---|---|---|---|
| user/views.py:35-37 | `user.is_email_verified` is read before the `user is not None` test | a link whose `uidb64` does not decode, or names no user: `user` is `None`, and line 35 raises `AttributeError` (500) | answer 400 "Activation link is invalid!" | high (not executed) | `EmailActivation.MissingUserIsServerError` | `EmailActivation.ActivateChecked` |

## Left out

- Base64 decoding of `uidb64`, the conversion of the decoded id, and the email-token generator (`user/tokens.py` is not part of this model). The decode result is an `Option` input, and the token check is a predicate parameter.
- Password hashing (`check_password`) and `user_can_authenticate`. Both are predicate parameters of `Authenticate`.
- `LoginBackend.IExact`: folds ASCII letters only. A database that folds other Unicode letters matches more usernames.
- Translation of the validator messages (`gettext`): the messages are the untranslated strings.
- `CustomTokenVerifyView`: JWT validation is done by an outside library.
- Sending the verification email on sign-up (`user/receivers.py`): mail I/O.
- `objects/views.py`: S3 client creation, uploading a fixed file and listing a bucket. This is network I/O, and no catalog row is written there.
- Download, list, delete, share-update and people-with-access: `objects/urls.py` routes to them, but their views are not in `objects/views.py`, so they are not modelled.
- The `size` column added by migration 0003 is not part of this model.
- `uploaded_at` is a plain integer clock reading. Date-time formatting in the serializer is not modelled.
- Database ordering of `shared_with` in the serialized output: it is modelled as a set.
- Admin, URL routing, the sign-up serializer and the test suites: configuration and tests only.
