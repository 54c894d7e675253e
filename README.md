# Credential resolution and delegated-token header

This project models two parts of the PayPal SDK core:

- **`CredentialManager`** resolves API credentials out of a flat string-to-string configuration. `GetAccount` walks the entries in order and stops at the first key ending in `.apiUsername` that matches. With a null username any such key matches; otherwise the entry's value must equal the requested username. It then parses the account number out of the key and copies the present `account<N>.*` fields into an `Account`. `GetCredentials` turns that account into a certificate credential when the certificate path is non-empty, and into a signature credential otherwise. It attaches a subject authorization when the variant's subject field is non-empty. `GetAccount` fills only the certificate subject, from `account<N>.subject`, and never the signature subject. So a signature credential built from the configuration never carries a subject authorization, even when `account<N>.subject` is present and non-empty. It throws `MissingCredentialException` when no account matches. The `Validate` overloads then reject the first empty required field.
- **`SignatureHttpHeaderAuthStrategy.ProcessTokenAuthorization`** builds the third-party token header for a signature credential. It configures an `OAuthGenerator` with:
  - the user name and password
  - POST
  - the access token and token secret
  - a timestamp
  - the endpoint

  It then signs and returns a one-entry map holding `token=<token>,signature=<sig>,timestamp=<ts>`.

How the model stands in for the C# code:

- **Configuration.** The `Dictionary` is a sequence of key/value pairs in enumeration order (`Configuration`). Lemmas that need "the" value of a key require distinct keys.
- **Nulls and exceptions.** C# `null` strings are `Option<string>`. Exceptions are `Result` failures with one constructor per exception the code can raise, including the `ArgumentOutOfRangeException`, `FormatException` and `OverflowException` of the index parse.
- **The index parse.** `Substring` followed by `Convert.ToInt32` is written out in `Decimal` and `CredentialManager.AccountIndex`:
  - leading and trailing white space is trimmed
  - one optional sign is allowed
  - a format error takes precedence over overflow
  - the value must fit 32 bits

  The index is printed again to form the field keys, so `account01.apiUsername`, `account 1.apiUsername` and `account+1.apiUsername` all read their fields from `account1.*`. `CredentialProperties.PaddedIndexReadsOtherPrefix` proves the consequence for digit strings with a leading zero. The white-space and '+' cases follow from the contract of `CredentialManager.AccountIndex` together with `Decimal.ParseInt32OfSignedDigits`.
- **The credential hierarchy.** The two credential classes are the two constructors of `Authentication.Credential`. The `is` tests of `ValidateCredentials` become a `match`.
- **The signer and the clock.** The signature generator is a class whose setters fill the fields it will sign. `ComputeSignature` hands those fields to a `Signer` function that the caller supplies and that may fail with an `OAuthException`. The clock is a parameter: whole seconds since 1970-01-01 UTC.

## Model

| member | source | states |
|---|---|---|
| Configuration.Lookup | src/Manager/CredentialManager.cs:70-97 | `ContainsKey` and the indexer: no value exactly when no entry has the key, otherwise a value the configuration holds under that key |
| Configuration.LookupUnique | src/Manager/CredentialManager.cs:70-97 | with distinct keys, the indexer returns the one value stored under a key |
| Strings.IndexOf | src/Manager/CredentialManager.cs:68 | `IndexOf('.')`: -1 exactly when there is no '.', otherwise the position of a '.' with none before it |
| Decimal.NatToString | src/SOAP/SignatureHttpHeaderAuthStrategy.cs:73 | decimal rendering of a whole number: non-empty, digits only, no leading zero |
| Decimal.IntToString | src/Manager/CredentialManager.cs:70 | rendering of the index inside `accountPrefix + index`: non-empty, starting with '-' exactly for negative numbers |
| Decimal.TrimStart | src/Manager/CredentialManager.cs:68 | `Convert.ToInt32` drops exactly the leading white space: the result is a suffix, what was dropped is white, and what remains starts with no white space |
| Decimal.TrimEnd | src/Manager/CredentialManager.cs:68 | the same for trailing white space |
| Decimal.ParseInt32 | src/Manager/CredentialManager.cs:68 | `Convert.ToInt32`: trims white space and reads a sign and a magnitude; a success is a 32-bit integer; blank text is a format error |
| Decimal.ParseSigned | src/Manager/CredentialManager.cs:68 | on the trimmed text: empty is a format error; a leading '-' reads the rest as a negated magnitude, a leading '+' as a plain one, and anything else reads the whole text as a magnitude |
| Decimal.ParseMagnitude | src/Manager/CredentialManager.cs:68 | after the sign: success exactly when the rest is a non-empty digit string whose signed value fits 32 bits, and then the value is that signed value; a failure is an overflow exactly when the rest is a non-empty digit string, otherwise a format error |
| Decimal.DigitsValueOfNatToString | src/SOAP/SignatureHttpHeaderAuthStrategy.cs:73 | the rendered timestamp reads back as the number of seconds it was made from |
| Decimal.NatToStringInjective | src/SOAP/SignatureHttpHeaderAuthStrategy.cs:73 | different numbers of seconds give different timestamps |
| Decimal.ParseInt32OfIntToString | src/Manager/CredentialManager.cs:68-70 | parsing the rendering of a 32-bit index gives the index back |
| Decimal.ParseInt32OfNegative | src/Manager/CredentialManager.cs:68 | "-" followed by digits parses to the negated digit value when it fits |
| Decimal.ParseInt32OfDigits | src/Manager/CredentialManager.cs:68 | a digit string, leading zeros included, parses to its value when that fits |
| Decimal.ParseInt32OfSignedDigits | src/Manager/CredentialManager.cs:68 | any text that, once trimmed, is "", "+" or "-" followed by a non-empty digit string parses as that magnitude, negated after '-': it succeeds exactly when the value fits 32 bits, and otherwise is an overflow error |
| Decimal.ParseInt32Shape | src/Manager/CredentialManager.cs:68 | any text that is not a format error is, once trimmed, an optional sign followed by a non-empty digit string; every other shape is a format error |
| CredentialManager.Selects | src/Manager/CredentialManager.cs:64-66 | an entry selects only if its key ends in ".apiUsername"; with a null username every such key selects, otherwise only one whose value equals the username |
| CredentialManager.FirstSelected | src/Manager/CredentialManager.cs:62-66 | the entry the loop stops at: it selects, no earlier entry selects, and there is none exactly when no entry selects |
| CredentialManager.AccountIndex | src/Manager/CredentialManager.cs:68 | out of range exactly when the first '.' comes before position 7; otherwise `Convert.ToInt32` of the text between position 7 and the first '.': success exactly when it parses, with its value, FormatException exactly when it is a format error, and OverflowException exactly when it overflows |
| CredentialManager.AccountIndexOfCanonicalKey | src/Manager/CredentialManager.cs:68 | a key written `account<i>.<field>` yields index i |
| CredentialManager.AccountKey | src/Manager/CredentialManager.cs:70-96 | `accountPrefix + index + field`: the key ends in the field, and for a 32-bit index and a field starting with '.' it parses back to that index |
| CredentialManager.ReadAccount | src/Manager/CredentialManager.cs:69-98 | each of the seven fields is what `ContainsKey` and the indexer give for `account<index>.<field>`: unset exactly when the key is absent, otherwise a value the configuration holds under it; the signature subject is never set |
| CredentialManager.ResolveAccount | src/Manager/CredentialManager.cs:60-103 | null exactly when no entry selects; otherwise the index of the first selecting entry decides: its parse error, or the account read for that index |
| CredentialManager.GetAccount | src/Manager/CredentialManager.cs:60-103 | the loop returns the account read from the first selecting entry's index, or that index's parse error; it returns null exactly when no entry selects |
| CredentialManager.CopyAccount | src/Manager/CredentialManager.cs:69-98 | the account built field by field is the one whose fields are the lookups of `account<index>.<field>`, with the signature subject unset |
| CredentialManager.SubjectFor | src/Manager/CredentialManager.cs:122-137 | a subject authorization is attached exactly when the subject is non-empty, and it carries that subject |
| CredentialManager.BuildCredential | src/Manager/CredentialManager.cs:118-139 | a certificate credential exactly when the certificate path is non-empty, even if a signature is set; username, password and application ID copied; the variant's own fields copied; the subject attached by `SubjectFor` from the certificate subject or the signature subject respectively |
| CredentialManager.MissingMessage | src/Manager/CredentialManager.cs:116 | "Missing credentials for " followed by the name, and nothing after it for a null name |
| CredentialManager.ResolveCredentials | src/Manager/CredentialManager.cs:110-143 | MissingCredentialException exactly when no entry selects an account, with the message for the requested name; otherwise the first selecting key decides: its index error passes through unchanged, or the credential built from that index's account is returned exactly when its required fields are all present, and else the validation error for it is raised; a credential returned has every required field non-empty |
| CredentialManager.GetCredentials | src/Manager/CredentialManager.cs:110-143 | returns the resolved credential, missing-credential or parse error, or the first validation error; a returned credential has every required field non-empty |
| CredentialManager.ValidateSignature | src/Manager/CredentialManager.cs:167-181 | passes exactly when username, password and signature are non-empty; each error is raised exactly when its field is the first empty one in that order |
| CredentialManager.ValidateCertificate | src/Manager/CredentialManager.cs:187-207 | passes exactly when username, password, certificate file and private-key password are non-empty; each error is raised exactly when its field is the first empty one in that order |
| CredentialManager.ValidateCredentials | src/Manager/CredentialManager.cs:149-161 | passes exactly when every field the variant requires is non-empty; otherwise the error raised is the one for the first empty required field, in the variant's checking order |
| CredentialProperties.ReadAccountFields | src/Manager/CredentialManager.cs:69-98 | each account field is unset exactly when `account<index><field>` is absent; with distinct keys it holds that entry's value; the signature subject is never set |
| CredentialProperties.CanonicalKeyReadsOwnAccount | src/Manager/CredentialManager.cs:68-72 | when the selected key is `account<i>.apiUsername`, the account comes from prefix `account<i>` and its username is the value that selected it |
| CredentialProperties.PaddedDigitsAreNotRendered | src/Manager/CredentialManager.cs:68-70 | an index with a leading zero is never how the printed index reads, so its field keys are other keys |
| CredentialProperties.PaddedIndexReadsOtherPrefix | src/Manager/CredentialManager.cs:68-98 | `account0…<n>.apiUsername` alone selects an empty account read from `account<n>.*`, and resolution then fails with the username error |
| CredentialProperties.ResolvedCredentialFromConfig | src/Manager/CredentialManager.cs:118-142 | a returned credential is a certificate exactly when the certificate entry is non-empty; it carries the account's username, password, application ID and its variant's fields; only a certificate credential gets a subject; every required field is present |
| CredentialProperties.AccountKeysDiffer | src/Manager/CredentialManager.cs:70-96 | field keys of different indexes or different fields never coincide |
| CredentialProperties.OnlyUsernameKeyEndsWithSuffix | src/Manager/CredentialManager.cs:64-96 | of the keys an account reads, only the username key ends in ".apiUsername" |
| SignatureHttpHeaderAuth.OAuthGenerator.constructor | src/SOAP/SignatureHttpHeaderAuthStrategy.cs:42 | a new generator holds the consumer key and secret and nothing else |
| SignatureHttpHeaderAuth.OAuthGenerator.SetHTTPMethod | src/SOAP/SignatureHttpHeaderAuthStrategy.cs:43 | sets the HTTP method and leaves the other fields as they were |
| SignatureHttpHeaderAuth.OAuthGenerator.SetToken | src/SOAP/SignatureHttpHeaderAuthStrategy.cs:44 | sets the token and leaves the other fields as they were |
| SignatureHttpHeaderAuth.OAuthGenerator.SetTokenSecret | src/SOAP/SignatureHttpHeaderAuthStrategy.cs:45 | sets the token secret and leaves the other fields as they were |
| SignatureHttpHeaderAuth.OAuthGenerator.SetTokenTimestamp | src/SOAP/SignatureHttpHeaderAuthStrategy.cs:47 | sets the timestamp and leaves the other fields as they were |
| SignatureHttpHeaderAuth.OAuthGenerator.SetRequestURI | src/SOAP/SignatureHttpHeaderAuthStrategy.cs:49 | sets the request URI and leaves the other fields as they were |
| SignatureHttpHeaderAuth.OAuthGenerator.ComputeSignature | src/SOAP/SignatureHttpHeaderAuthStrategy.cs:52 | the signature, or the exception, for exactly what the generator has been given |
| SignatureHttpHeaderAuth.Timestamp | src/SOAP/SignatureHttpHeaderAuthStrategy.cs:68-75 | a non-empty decimal digit string that reads back as the seconds since the epoch |
| SignatureHttpHeaderAuth.AuthorizationValue | src/SOAP/SignatureHttpHeaderAuthStrategy.cs:54 | the header value reads back as its token, signature and timestamp when the token and the signature contain no ',' and the timestamp is a run of digits |
| SignatureHttpHeaderAuth.DelegatedInput | src/SOAP/SignatureHttpHeaderAuthStrategy.cs:42-49 | what the generator signs: the credential's user name and password as consumer key and secret, POST, the access token, the token secret, the timestamp and the endpoint |
| SignatureHttpHeaderAuth.TokenAuthorizationHeaders | src/SOAP/SignatureHttpHeaderAuthStrategy.cs:39-62 | a signer failure gives that failure; a success gives a map whose only key is the header; its value is the authorization value of the token (null as nothing), the signer's output for the delegated input, and the same timestamp the signer was given; it reads back as that token, that signature and the seconds passed in when neither contains ',' |
| SignatureHttpHeaderAuth.SignatureHttpHeaderAuthStrategy.constructor | src/SOAP/SignatureHttpHeaderAuthStrategy.cs:28 | the strategy keeps the endpoint URL it is given |
| SignatureHttpHeaderAuth.SignatureHttpHeaderAuthStrategy.ProcessTokenAuthorization | src/SOAP/SignatureHttpHeaderAuthStrategy.cs:36-63 | the signer's exception propagates; otherwise a map with the authorization header as its only key, whose value is `token=…,signature=…,timestamp=…` built from the same timestamp the signer was given |

## Left out

- The singleton `Instance`, the static and private constructors, and the log4net logging: they carry no behaviour.
- Dictionary enumeration order is taken to be insertion order. The .NET documentation leaves it unspecified.
- `EndsWith(".apiUsername")` is culture-sensitive in .NET. It is modelled as an ordinal suffix comparison.
- `Strings.IndexOf`: ordinal search over UTF-16 code units. Dafny characters are Unicode scalar values, so surrogate pairs are not modelled.
- `Decimal.ParseInt32`: `Convert.ToInt32` also accepts trailing NUL characters and follows the current culture's sign symbols. Neither is modelled; the model uses the invariant culture.
- `Decimal.IntToString`: `accountPrefix + index` renders the index with `Int32.ToString()` in the current culture. The model uses the invariant culture's rendering, with '-' as the negative sign.
- Configuration values are never null. A null value in the dictionary is not modelled.
- The `Account`, `SignatureCredential`, `CertificateCredential`, `SubjectAuthorization` and `TokenAuthorization` classes are not part of this model. Their fields are taken to be plain properties that start out null. So the access token and token secret may be null too. A null token is passed to `SetToken` as it is, and the header text renders it as nothing ("token=,signature=…").
- `BaseConstants` is not part of this model. The error messages are the distinct constructors of `InvalidReason`, and the header name is the `authorizationHeader` parameter.
- `OAuthGenerator` is not part of this model beyond the setters this code calls. The HMAC signature and the exceptions it raises are the `Signer` parameter. HTTPMethod is modelled with only the POST value used here.
- `SignatureHttpHeaderAuth.Timestamp`: it takes the seconds as a parameter. `DateTime.UtcNow`, the double `TotalSeconds`, and the rounding and 64-bit range of `Convert.ToInt64` are not modelled.
- `AbstractSignatureHttpHeaderAuthStrategy`, the base class that stores the endpoint and dispatches to `ProcessTokenAuthorization`, is not part of this model.
- `MerchantAPICallPreHandler` and its test file are not part of this model. The test fixture's credential cases are covered by the general contracts on certificate precedence (`CredentialManager.BuildCredential`, `CredentialProperties.ResolvedCredentialFromConfig`) and on validation.
- Concurrency: the C# code has none of its own, and the model is sequential.
