# kamoushop core, modelled in Dafny

kamoushop is a small e-commerce backend written in Go. It has authentication, user profiles, and products with a shopping cart, and it keeps its data in MongoDB and its verification codes in Redis. This project models, and proves properties of, the parts of it that carry logic:

- **The token lifecycle:**
  - the payload (`pkg/services/token/payload.go`);
  - the PASETO maker (`pkg/services/token/paseto_maker.go`);
  - the authentication middleware that reads `x-auth-token: Bearer <token>` (`pkg/middlewares/auth.go`).
- **Registration and login:**
  - the authentication service (`pkg/services/api/auth.go`);
  - the authentication controller (`pkg/controllers/auth.go`). It issues an access/refresh token pair, records both tokens, and stores and looks up the 6-letter verification code.
- **The random helpers** (`pkg/utils/random_gen.go`).
- **The cart:** `AddToCart` (`pkg/services/api/product.go`). It pushes product snapshots and one `{prodId, count: 1}` entry onto the user's cart.
- **The product controller's pure rules** (`pkg/controllers/product.go`):
  - which fields an update sets;
  - how a price is written;
  - the pagination offset.
- **The user controller's store effects** (`pkg/controllers/user.go`): starring a shop, claiming a brand name, changing the password, deleting the account and overwriting the profile.

Modules, one per Go file of the core, plus support modules:

| file | module | models |
|---|---|---|
| `base.dfy` | `Base` | Option/Result, bytes, ids, time in nanoseconds, Go `int64` wrap-around |
| `models.dfy` | `Models`, `Password` | the stored documents; bcrypt as an abstract `hash`/`compare` pair |
| `store.dfy` | `Store` | in-memory collections with MongoDB's first-match `FindOne`/`UpdateOne`/`DeleteOne`, the token collection and the Redis code store |
| `token.dfy` | `Token` | payload, `Valid`, maker, `CreateToken`, `VerifyToken` |
| `middleware.dfy` | `Middleware` | `strings.Fields`, the bearer test, `AuthMiddleWare` |
| `random_gen.dfy` | `RandomGen` | `RandomStr` (a loop), `RandomInt` |
| `auth_service.dfy` | `AuthService` | `GetUserByEmail`, `Login`, `CreateUser` |
| `auth_controller.dfy` | `AuthController` | token-pair issue, verification code, token lookup, the register and login handlers |
| `product_service.dfy` | `ProductService` | `AddToCart` |
| `product_controller.dfy` | `ProductController` | update-field selection, decimal price, `skip` |
| `user_controller.dfy` | `UserController` | star, brand name, password change, delete, profile |

Things that happen outside the program are parameters of the model:

- **Clock and ids:** the clock reading `now`, the drawn token id (`Option<Uuid>`, None when drawing fails), the fresh ObjectID and the bcrypt salt.
- **Random draws:** the letters of the random source, passed as a sequence.
- **Reachability:** one boolean per database or cache call. It says whether that call reaches its server. When it does not, the call fails and changes nothing.
- **Cryptography:** the PASETO cipher is a pair of functions `seal`/`open`. The only assumption is `Token.Authenticated`: opening under the same key gives back what was sealed.
- **bcrypt:** a pair `hash`/`compare`. bcrypt keys Blowfish with the password's bytes followed by a NUL byte, repeated and cut to 72 bytes (`Password.KeyMaterial`). The assumptions are stated for ASCII passwords, which is all the `alphanum` binding admits. They are `Password.Consistent` (a password matches its own hash), `Password.KeyedByFirst72Bytes` (a password with the same key matches), `Password.Discriminating` (a password with a different key is reported as a mismatch, the error the package test expects) and `Password.RejectsEmptyHash` (the empty string is no hash, so comparing with it fails with an error other than a mismatch). Lemmas take these as preconditions; nothing is assumed globally.

Behaviours of the code worth knowing:

- A token the cipher rejects fails with the library's decryption error, not with `ErrInvalidToken`. `ErrInvalidToken` is declared but never returned.
- `AddToCart` also pushes a cart entry `{prodId, count: 1}` next to the snapshot `{id, name, price, image}`.
- Reading a verification code does not delete it. A Redis error other than "no such key" is not reported: the handler goes on with the empty email.
- The duplicate-email test compares the email of whatever the lookup returned. A miss returns the zero user, so an empty email is always refused as a duplicate. A lookup error other than "no documents" is swallowed, so a duplicate can get through (`AuthService.LookupFailureAdmitsDuplicate`).
- The brand-name test looks only at the *first* stored holder of the name, and does not exclude the caller. Every user document stores a brand name, the empty one until a name is chosen, so a verified user who never chose one makes the empty name "taken" (`UserController.VerifiedNewcomerBlocksEmptyName`).
- A password change writes to the first user with the caller's *email*, not to the caller's id.
- The description length tested by an update is Go's `len`: the UTF-8 byte length.
- Passwords have no maximum length, and bcrypt reads only the first 72 bytes. A registered password of 72 bytes or more therefore logs in with anything appended to it (`AuthService.LongPasswordExtensionLogsIn`).

## Model

| member | source | states |
|---|---|---|
| Base.Wrap64 | pkg/utils/random_gen.go:16 | the result is an int64 congruent to the input modulo 2^64, and equal to it when it already fits |
| Token.NewPayload | pkg/services/token/payload.go:23-38 | fails with the id-generation error exactly when no id is drawn; otherwise carries the drawn id and the given user id, is issued at `now` and expires `duration` later |
| Token.Valid | pkg/services/token/payload.go:40-45 | reports an error exactly when now is strictly after the expiry, and that error is ErrExpiredToken |
| Token.ValidNeverInvalid | pkg/services/token/payload.go:11-14 | the invalid-token error is never produced by validation |
| Token.ValidAtExpiry | pkg/services/token/payload.go:41 | the expiry instant is still valid; one nanosecond later is expired |
| Token.FreshPayloadValid | pkg/services/token/payload.go:30-44 | a payload made with a non-negative duration is valid from issue time through expiry |
| Token.NewPasetoMaker | pkg/services/token/paseto_maker.go:17-28 | a maker is built exactly when the key has 32 bytes, keeping that key; otherwise the key-size error, whose message names the required size 32 |
| Token.CreateToken | pkg/services/token/paseto_maker.go:30-38 | a drawn id and a successful seal give exactly the sealed payload (id, user, `now`, `now + duration`) as the token; a missing id gives the id-generation error and a failed seal the encryption error |
| Token.VerifyToken | pkg/services/token/paseto_maker.go:40-52 | decryption failure comes first; success exactly when the token opens and is not past expiry, returning the opened payload; expired exactly when it opens but is past expiry; never the invalid-token error |
| Token.DecryptCheckedBeforeExpiry | pkg/services/token/paseto_maker.go:43-49 | a token the cipher rejects fails with the decryption error at every clock reading |
| Token.CreateThenVerify | pkg/services/token/tests/paseto_maker_test.go:13-34 | a created token verifies, before expiry, to a payload with the same id, user, issue time and expiry |
| Token.CreateThenVerifyLate | pkg/services/token/paseto_maker.go:40-52 | the same token verified after its expiry fails as expired |
| Middleware.Fields | pkg/middlewares/auth.go:27 | every field is non-empty and free of Unicode whitespace |
| Middleware.FieldsKeepEverythingButSpace | pkg/middlewares/auth.go:27 | concatenating the fields gives the header with every whitespace character removed |
| Middleware.NoFieldsIffAllSpace | pkg/middlewares/auth.go:27-28 | there are no fields exactly when the header is all whitespace |
| Middleware.FieldsCons | pkg/middlewares/auth.go:27 | leading whitespace is skipped and a word followed by whitespace or the end is the first field |
| Middleware.BearerIsCaseInsensitive | pkg/middlewares/auth.go:34-35 | the scheme is accepted exactly when it is "bearer" with each letter in either case |
| Middleware.BearerSpellings | pkg/middlewares/auth.go:34-35 | "Bearer", "BEARER", "bEaReR" pass; "Basic", "Bearer:", "Token" do not |
| Middleware.AuthMiddleware | pkg/middlewares/auth.go:18-53 | missing header iff empty; malformed iff non-empty with fewer than two fields; the request proceeds iff the first field is the bearer scheme and the second verifies, and then the verified payload is stored under the payload key |
| Middleware.WhitespaceHeaderRejected | pkg/middlewares/auth.go:21-32 | a non-empty all-whitespace header is rejected as malformed |
| Middleware.SingleFieldRejected | pkg/middlewares/auth.go:27-32 | a header with a single field, however padded, is rejected as malformed |
| Middleware.TokenIsSecondField | pkg/middlewares/auth.go:27-48 | with any whitespace around and between the fields and any fields after the token, the outcome is decided by the scheme and the second field alone |
| Middleware.IssuedTokenAuthenticates | pkg/middlewares/auth.go:34-51 | "Bearer " followed by a freshly issued token lets the request through with the issued payload until expiry |
| RandomGen.AlphabetIsLowercase | pkg/utils/random_gen.go:9 | the alphabet has 26 letters, all lower-case |
| RandomGen.RandomStr | pkg/utils/random_gen.go:19-30 | n letters (none for n <= 0), the i-th being the alphabet letter chosen by the i-th draw, all in 'a'..'z'; the unused draws are returned |
| RandomGen.RandomInt | pkg/utils/random_gen.go:15-17 | panics (error) exactly when the wrapped bound max-min+1 is not positive; otherwise an int64 |
| RandomGen.RandomIntInRange | pkg/utils/random_gen.go:15-17 | for ordered bounds, succeeds exactly when max-min+1 fits in an int64, and then lies between the bounds |
| RandomGen.RandomIntReversedBounds | pkg/utils/random_gen.go:15-17 | bounds far enough apart in the wrong order do not panic, because the bound wraps around |
| Models.Snapshot | pkg/services/api/product.go:121-125 | a cart snapshot carries the product's id, name, price and image |
| Store.FirstMatch | pkg/services/api/user.go:64-70 | the position of the first document matching the filter, none exactly when no document matches |
| Store.AddToSet | pkg/controllers/user.go:396 | the id is present afterwards, nothing else is added, and the array grows only when the id was absent |
| Store.UpdatedOne | pkg/services/api/user.go:57-62 | only the first matching document is updated, all others are unchanged; no match changes nothing |
| Store.DeletedOne | pkg/services/api/user.go:119-128 | the first matching document is removed and the rest keep their order; no match changes nothing |
| Store.UserCollection.FindOne | pkg/services/api/user.go:64-70 | the first matching document, "no documents" when none matches, the server error when unreachable |
| Store.UserCollection.InsertOne | pkg/services/api/auth.go:58-61 | the document is appended, or nothing changes and the error is returned |
| Store.UserCollection.UpdateOne | pkg/services/api/user.go:57-62 | the collection becomes UpdatedOne of the old one, or is unchanged with an error |
| Store.UserCollection.DeleteOne | pkg/services/api/user.go:119-128 | the collection becomes DeletedOne of the old one, or is unchanged with an error |
| Store.ProductsWithId | pkg/services/api/product.go:115-125 | every element is the snapshot of some product with that id, every such product's snapshot is in it, and there are as many as products with that id; empty exactly when there is none |
| Store.ProductCollection.FindById | pkg/services/api/product.go:115-125 | the matching snapshots, or the server error |
| Store.FindToken | pkg/controllers/auth.go:204-205 | the first record whose token string is exactly the given one, none exactly when no record has it |
| Store.TokenCollection.InsertOne | pkg/controllers/auth.go:173-182 | the record is appended, or nothing changes and the error is returned |
| Store.CodeCache.Set | pkg/controllers/auth.go:155 | the key maps to the value with the TTL, overwriting, or nothing changes on error |
| Store.CodeCache.Get | pkg/controllers/auth.go:137 | the stored value; "" with "no such key" when absent; "" with an error when unreachable |
| AuthService.GetUserByEmail | pkg/services/api/auth.go:83-91 | the first user with the email; the zero user with "no documents" exactly when none has it; the zero user with no error when the lookup fails otherwise |
| AuthService.DuplicateEmailIff | pkg/services/api/auth.go:43-46 | an email is refused exactly when it is empty or (the lookup reaching the store) already stored |
| AuthService.InsertKeepsEmailsUnique | pkg/services/api/auth.go:43-58 | a document that passes the duplicate test keeps stored emails unique |
| AuthService.LookupFailureAdmitsDuplicate | pkg/services/api/auth.go:43-58 | when the lookup fails, a stored non-empty email passes the test and its insert breaks uniqueness |
| AuthService.Login | pkg/services/api/auth.go:65-81 | "no documents" iff no user has the email; a returned user has that email and a matching password; "password does not match" iff the first such user's hash is a mismatch, the comparison's own error iff the comparison fails; a match against the first user with the email returns exactly that user |
| AuthService.RegisterThenLogin | pkg/services/api/auth.go:35-81 | after a registration that passed the test, logging in with its email and password returns exactly the inserted document |
| AuthService.RegisterTwiceRejected | pkg/services/api/auth.go:43-46 | once registered, the same email fails the duplicate test |
| AuthService.LookupFailureLoginFails | pkg/services/api/auth.go:65-78 | when the lookup fails, the password is compared with the zero user's empty hash and the login fails with the comparison error |
| AuthService.WrongPasswordRejected | pkg/services/api/auth.go:72-78 | after registration, among ASCII passwords of at most 72 bytes with no NUL byte, any other password fails to log in with "password does not match" |
| AuthService.LongPasswordExtensionLogsIn | pkg/services/api/auth.go:65-81 | a registered password of 72 bytes or more logs in with anything appended to it, so a wrong password is accepted |
| Password.ShortPasswordsKeyedApart | pkg/services/password/password_test.go:21-23 | distinct passwords of at most 72 bytes without a NUL byte have distinct bcrypt keys, so the test's wrong password is told apart |
| Password.LongPasswordKeyIsPrefix | pkg/services/types/api_types.go:30 | the binding sets no maximum length; the key of a password of 72 bytes or more is its first 72 bytes, whatever is appended |
| AuthService.AuthService.CreateUser | pkg/services/api/auth.go:35-63 | hash failure, duplicate and insert failure each leave the users unchanged with their error; otherwise exactly the new unverified document is appended; unique emails are preserved when the lookup reaches the store |
| AuthController.AuthController.GenerateAuthTokens | pkg/controllers/auth.go:161-198 | each failure returns empty tokens with its error; records are appended access first, refresh (6000 s) second, and a failed refresh insert leaves the access record |
| AuthController.AuthController.SendVerificationCode | pkg/controllers/auth.go:152-159 | on success a 6-letter lower-case code drawn from the source is mapped to the email with no expiry and returned; on failure "" and no change |
| AuthController.AuthController.ValidateAcc | pkg/controllers/auth.go:137-143 | "not found" only when the code is absent; otherwise the stored email (or "" on a cache error) goes to validation; the code store is not changed |
| AuthController.AuthController.VerifyToken | pkg/controllers/auth.go:200-210 | an unreachable store gives its error; otherwise found exactly when some record has the token string, returning the first such record whether blacklisted or not, and "no documents" when none has it |
| AuthController.AuthController.Register | pkg/controllers/auth.go:58-86 | a refused registration changes nothing; an accepted one appends the user, then stores the code; a code failure leaves the user stored |
| AuthController.AuthController.LoginUser | pkg/controllers/auth.go:96-118 | a failed login records nothing; after a successful one, the token-pair issue for that user and the access duration decides the outcome case by case (token errors record nothing, a failed second insert leaves the access record, both inserts record both); on success both tokens verify to that user's payloads |
| ProductService.AddAppendsOneEntry | pkg/services/api/product.go:149-154 | one add appends exactly one entry {product, 1} and the matching snapshots, leaving the rest of the user as it was |
| ProductService.RepeatedAddsDuplicateEntries | pkg/services/api/product.go:136-157 | n adds of one product append n entries each with count 1; the count is never incremented |
| ProductService.UniqueIdOccursOnce | pkg/services/api/product.go:115 | with unique product ids, an id occurs once when some product has it and never otherwise |
| ProductService.AtMostOneSnapshot | pkg/services/api/product.go:115-125 | with unique product ids an add pushes one snapshot if the product exists and none otherwise |
| ProductService.MissingProductStillAddsEntry | pkg/services/api/product.go:115-154 | an unknown product id leaves the snapshots as they were but still appends an entry |
| ProductService.ProductService.AddToCart | pkg/services/api/product.go:114-164 | a failed product query gives ErrCantFindProduct, a missing or unreachable user the lookup error, a failed update ErrCantUpdateUser, each with no change; otherwise only the user with that id gets the push |
| ProductController.Utf8Len | pkg/controllers/product.go:213 | the byte length is between the character count and four times it, equal to it exactly for ASCII text |
| ProductController.DecimalStringRoundTrip | pkg/controllers/product.go:209 | the decimal string written for a price parses back to the same integer |
| ProductController.SelectUpdate | pkg/controllers/product.go:208-222 | refused with "please provide a field to update" exactly when neither holds; the description is set iff it is longer than one byte, the price iff it is above 1, written as exactly `DecimalString(price)`, which parses back to the price |
| ProductController.PriceOneAndOneByteDescriptionRefused | pkg/controllers/product.go:213-221 | a price of 1 with a one-byte or empty description is refused |
| ProductController.TwoByteCharacterIsProvided | pkg/controllers/product.go:213-216 | a single two-byte character counts as a description |
| ProductController.Skip | pkg/controllers/product.go:101-102 | an int64, equal to (page-1)*limit whenever that fits |
| ProductController.FirstPageSkipsNothing | pkg/controllers/product.go:101-102 | page 1 skips nothing |
| ProductController.SkipNonNegativeIffFirstPageOrLater | pkg/controllers/product.go:126-127 | for a positive limit without overflow the offset is non-negative iff page >= 1; limit 0 gives 0 |
| ProductController.NextPageAdvancesByLimit | pkg/controllers/product.go:101-102 | consecutive pages are limit documents apart |
| ProductController.HugePageWrapsNegative | pkg/controllers/product.go:126-127 | a page number near the int64 maximum wraps the offset negative |
| UserController.UserByIdWithPassword | pkg/services/api/user.go:47-55 | the first user with that id; the zero user with "no documents" iff none; the zero user and no error when the lookup fails otherwise |
| UserController.StarsCountEveryStar | pkg/controllers/user.go:395-396 | after any sequence of stars, stars grow by their number, starredBy holds exactly the old ids and the starrers, and stars minus the size of starredBy never decreases |
| UserController.RepeatStarCountsTwice | pkg/controllers/user.go:396 | the same user starring twice adds two stars and one starredBy entry |
| UserController.UnverifiedHolderDoesNotBlock | pkg/controllers/user.go:242-256 | an unverified holder does not block, and afterwards two users hold the same brand name |
| UserController.VerifiedNewcomerBlocksEmptyName | pkg/controllers/user.go:242-251 | a verified user who never chose a brand name holds the empty one, so the empty name is refused as taken |
| UserController.VerifiedHolderIsRefusedOwnName | pkg/controllers/user.go:242-251 | a verified user who already holds the name is refused it |
| UserController.SetPasswordKeepsEmailMatch | pkg/controllers/user.go:141-143 | writing a password does not move the first user with any email |
| UserController.ChangedPasswordLogsIn | pkg/controllers/user.go:136-146 | after the change by email, login with that email and the new password succeeds |
| UserController.DeleteRemovesOnlyThatUser | pkg/controllers/user.go:363-366 | with unique ids, the user with that id is gone, every other user remains, and the count drops by one exactly when it existed |
| UserController.UserController.StarUserShop | pkg/controllers/user.go:380-405 | the shop with that id gets one more star and the caller in starredBy; no such shop is not an error |
| UserController.UserController.UpdateBrandName | pkg/controllers/user.go:234-263 | refused as taken exactly when the first holder is verified; otherwise the caller's brand name and update time are set |
| UserController.UserController.ChangePassword | pkg/controllers/user.go:115-150 | a missing user, a non-matching old password or a hash failure changes nothing, and a failed lookup always ends as a mismatch because the empty hash is refused; otherwise the new hash goes to the first user with the caller's email, after which login with the new password succeeds |
| UserController.UserController.DeleteUser | pkg/controllers/user.go:337-370 | a mismatch gives "password doesn't match" and another comparison error its own error, both with no change; a match deletes the caller's document |
| UserController.UserController.UpdateProfile | pkg/controllers/user.go:199-224 | facebook, instagram and phone number are overwritten with the given values, empty ones included |

## Left out

- `CreateProduct`, `RemoveFromCart`, `MakeOrder` and the account-validation service's `ValidateAcc`: the service file does not define the last three. `CreateProduct` writes a string into the int64 price field. Only the code lookup in front of `ValidateAcc` is modelled.
- Product `UpdateOne` after the field selection: the price is written as a string into a field the product document declares `int64`, which the typed product document cannot hold. The selection itself is modelled.
- Request binding and validation, HTTP status codes and response bodies, Cloudinary upload (`UpdateImage`), the listing queries themselves (only their `skip` is modelled), routing, configuration and Swagger documentation.
- `cursor.All` decode failures in `AddToCart`: the product query is modelled as either reachable or failing.
- `ProductService.MissingProductStillAddsEntry`: when no product has the id, the snapshot list stays a nil Go slice. The model takes the `$push` of it as pushing nothing. If the driver encodes that nil slice as BSON null, the server rejects `$each: null`, and the update then fails with ErrCantUpdateUser and adds no entry. That outcome is not modelled.
- Concurrency: the duplicate-email and brand-name read-then-write races. The model is sequential.
- `Token.NewPayload`: `IssuedAt` and `ExpiresAt` read the clock twice; the model uses one reading for both.
- `AuthService.AuthService.CreateUser`: `CreatedAT` and `UpdatedAT` read the clock twice; the model uses one reading for both.
- `AuthController.AuthController.GenerateAuthTokens`: each of the two tokens reads the clock; the model issues both at one reading.
- PASETO v2 internals (XChaCha20-Poly1305, the nonce's randomness, the token format) and bcrypt internals: these are foreign library calls, abstracted as described above.
- Invalid UTF-8: a Go string with invalid bytes has no counterpart in Dafny's `string`.
- `Password.KeyedByFirst72Bytes` and `Password.Discriminating` cover ASCII passwords only, where one character is one byte. Non-ASCII passwords never pass the `alphanum` binding.
- `unicode.IsSpace` is written out from the Unicode White_Space list. `strings.ToLower` is modelled on ASCII letters only, which is exact for the comparison with "bearer".
- MongoDB specifics:
  - update documents that repeat a top-level operator (two `$push` or two `$set` keys) are taken to apply both parts;
  - `stars` and `starredBy` are modelled as a number and an array. In the stored documents they are not. `CreateUser` writes `stars` as the empty string and `starredBy` as null. For every document it wrote, the server refuses both `$inc stars` and `$addToSet starredBy`. So `StarUserShop` fails for every registered user in the program as written. `UserController.StarsCountEveryStar` and `UserController.RepeatStarCountsTwice` describe only documents whose `stars` is numeric and whose `starredBy` is an array.
- The registration handler passes a 500-element `starredBy` that `CreateUser` drops; the model starts from the stored document.
- Wall-clock time, uuid generation, ObjectIDs, salts and the random source are parameters, as listed above.
