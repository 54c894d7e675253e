/**
 * `CredentialManager`: resolving an account out of the flat configuration,
 * building the credential variant it calls for, and validating it.
 */
module CredentialManager {
  import opened Wrappers
  import opened Strings
  import opened Decimal
  import opened Configuration
  import opened Authentication

  const AccountPrefix: string := "account"
  const UsernameSuffix: string := ".apiUsername"

  /** The `BaseConstants.ErrorMessages` strings; their text is not part of this model. */
  datatype InvalidReason =
    | ErrorUsername
    | ErrorPassword
    | ErrorSignature
    | ErrorCertificate
    | ErrorPrivateKeyPassword

  /** The exceptions that can leave `GetCredentials`. */
  datatype CredentialError =
    | MissingCredential(message: string)   // MissingCredentialException
    | InvalidCredential(reason: InvalidReason)  // InvalidCredentialException
    | IndexOutOfRange   // ArgumentOutOfRangeException from Substring
    | IndexFormat       // FormatException from Convert.ToInt32
    | IndexOverflow     // OverflowException from Convert.ToInt32

  // ---------------------------------------------------------------------------
  // Account selection

  /** The entry that `GetAccount` stops at: a username key whose value is the one asked for (any, when null). */
  predicate Selects(entry: Entry, apiUsername: Option<string>)
    ensures Selects(entry, apiUsername) ==> EndsWith(entry.0, UsernameSuffix)
    ensures apiUsername.None? ==> (Selects(entry, apiUsername) <==> EndsWith(entry.0, UsernameSuffix))
    ensures apiUsername.Some? ==>
              (Selects(entry, apiUsername) <==> EndsWith(entry.0, UsernameSuffix) && entry.1 == apiUsername.value)
  {
    EndsWith(entry.0, UsernameSuffix) && (apiUsername.None? || apiUsername.value == entry.1)
  }

  /** The position of the first entry, in enumeration order, that `Selects`. */
  function FirstSelected(config: Config, apiUsername: Option<string>): (r: Option<nat>)
    ensures r.Some? ==> r.value < |config| && Selects(config[r.value], apiUsername)
    ensures r.Some? ==> forall j :: 0 <= j < r.value ==> !Selects(config[j], apiUsername)
    ensures r.None? <==> forall j :: 0 <= j < |config| ==> !Selects(config[j], apiUsername)
  {
    FirstSelectedFrom(config, apiUsername, 0)
  }

  /** The position of the first entry at or after `from` that `Selects`. */
  function FirstSelectedFrom(config: Config, apiUsername: Option<string>, from: nat): (r: Option<nat>)
    requires from <= |config|
    ensures r.Some? ==> from <= r.value < |config| && Selects(config[r.value], apiUsername)
    ensures r.Some? ==> forall j :: from <= j < r.value ==> !Selects(config[j], apiUsername)
    ensures r.None? <==> forall j :: from <= j < |config| ==> !Selects(config[j], apiUsername)
    decreases |config| - from
  {
    if from == |config| then None
    else if Selects(config[from], apiUsername) then Some(from)
    else FirstSelectedFrom(config, apiUsername, from + 1)
  }

  /**
   * The account number in a username key: the text between the first seven
   * characters and the first '.', read by `Convert.ToInt32`. The seven
   * characters are skipped whatever they are; they are not compared with
   * "account".
   */
  function AccountIndex(key: string): (r: Result<int, CredentialError>)
    ensures r == Failure(IndexOutOfRange) <==> IndexOf(key, '.') < |AccountPrefix|
    ensures r.Failure? ==> r.error == IndexOutOfRange || r.error == IndexFormat || r.error == IndexOverflow
    ensures r.Success? ==> IsInt32(r.value)
    ensures IndexOf(key, '.') >= |AccountPrefix| ==>
              var parsed := ParseInt32(key[|AccountPrefix|..IndexOf(key, '.')]);
              (r.Success? <==> parsed.Success?)
              && (r.Success? ==> parsed == Success(r.value))
              && (r == Failure(IndexFormat) <==> parsed == Failure(FormatError))
              && (r == Failure(IndexOverflow) <==> parsed == Failure(OverflowError))
  {
    var dot := IndexOf(key, '.');
    if dot < |AccountPrefix| then Failure(IndexOutOfRange)
    else
      var digits := key[|AccountPrefix|..dot];
      match ParseInt32(digits)
      case Success(i) => Success(i)
      case Failure(FormatError) => Failure(IndexFormat)
      case Failure(OverflowError) => Failure(IndexOverflow)
  }

  /** In "account" + digits + rest, the first '.' is the one that starts rest. */
  lemma DotPosition(digits: string, rest: string)
    requires '.' !in digits && rest != [] && rest[0] == '.'
    ensures IndexOf(AccountPrefix + digits + rest, '.') == |AccountPrefix| + |digits|
  {
    NoDotInAccountPrefix();
    NotInConcat(AccountPrefix, digits, '.');
    assert '.' in rest;
    IndexOfConcat(AccountPrefix + digits, rest, '.');
  }

  lemma NoDotInAccountPrefix()
    ensures '.' !in AccountPrefix
  {
    assert forall j :: 0 <= j < |AccountPrefix| ==> AccountPrefix[j] != '.';
  }

  /** "account" + digits + rest, with the first '.' at the start of rest, yields the parsed digits as index. */
  lemma AccountIndexOfKey(digits: string, rest: string, index: int)
    requires '.' !in digits && rest != [] && rest[0] == '.'
    requires ParseInt32(digits) == Success(index)
    ensures AccountIndex(AccountPrefix + digits + rest) == Success(index)
  {
    var key := AccountPrefix + digits + rest;
    DotPosition(digits, rest);
    assert key[|AccountPrefix|..|AccountPrefix| + |digits|] == digits;
  }

  /** The rendering of an index never contains a '.'. */
  lemma NoDotInIntToString(index: int)
    ensures '.' !in IntToString(index)
  {
    var m: nat := if index < 0 then -index else index;
    var digits := NatToString(m);
    assert forall j :: 0 <= j < |digits| ==> IsDigit(digits[j]);
    if index < 0 {
      assert IntToString(index) == "-" + digits;
    }
  }

  /** A key written as "account" + i + "." + ... gives back the index i. */
  lemma AccountIndexOfCanonicalKey(index: int, rest: string)
    requires IsInt32(index) && rest != [] && rest[0] == '.'
    ensures AccountIndex(AccountPrefix + IntToString(index) + rest) == Success(index)
  {
    NoDotInIntToString(index);
    ParseInt32OfIntToString(index);
    AccountIndexOfKey(IntToString(index), rest, index);
  }

  /**
   * The configuration key of one field of account number `index`:
   * "account" + index + field. A username key written this way selects back
   * the same index.
   */
  function AccountKey(index: int, field: string): (k: string)
    ensures EndsWith(k, field)
    ensures IsInt32(index) && field != [] && field[0] == '.' ==> AccountIndex(k) == Success(index)
  {
    var k := AccountPrefix + IntToString(index) + field;
    assert k[|k| - |field|..] == field;
    if IsInt32(index) && field != [] && field[0] == '.' then
      AccountIndexOfCanonicalKey(index, field);
      k
    else k
  }

  /** The account whose fields are the `account<index>.*` entries that are present. */
  function ReadAccount(config: Config, index: int): (a: Account)
    ensures Finds(config, AccountKey(index, ".apiUsername"), a.apiUsername)
    ensures Finds(config, AccountKey(index, ".apiPassword"), a.apiPassword)
    ensures Finds(config, AccountKey(index, ".apiSignature"), a.apiSignature)
    ensures Finds(config, AccountKey(index, ".apiCertificate"), a.apiCertificate)
    ensures Finds(config, AccountKey(index, ".privateKeyPassword"), a.privateKeyPassword)
    ensures Finds(config, AccountKey(index, ".subject"), a.certificateSubject)
    ensures Finds(config, AccountKey(index, ".applicationId"), a.applicationId)
    ensures a.signatureSubject == None
  {
    Account(
      apiUsername := Lookup(config, AccountKey(index, ".apiUsername")),
      apiPassword := Lookup(config, AccountKey(index, ".apiPassword")),
      apiSignature := Lookup(config, AccountKey(index, ".apiSignature")),
      apiCertificate := Lookup(config, AccountKey(index, ".apiCertificate")),
      privateKeyPassword := Lookup(config, AccountKey(index, ".privateKeyPassword")),
      certificateSubject := Lookup(config, AccountKey(index, ".subject")),
      signatureSubject := None,
      applicationId := Lookup(config, AccountKey(index, ".applicationId")))
  }

  /** What `GetAccount` returns: no account (null), the selected account, or the exception its index raised. */
  function ResolveAccount(config: Config, apiUsername: Option<string>): (r: Result<Option<Account>, CredentialError>)
    ensures r == Success(None) <==> forall j :: 0 <= j < |config| ==> !Selects(config[j], apiUsername)
    ensures r != Success(None) ==>
              FirstSelected(config, apiUsername).Some?
              && var key := config[FirstSelected(config, apiUsername).value].0;
                 (r.Failure? ==> AccountIndex(key) == Failure(r.error))
                 && (r.Success? ==> AccountIndex(key).Success?
                                    && r.value == Some(ReadAccount(config, AccountIndex(key).value)))
  {
    match FirstSelected(config, apiUsername)
    case None => Success(None)
    case Some(k) =>
      match AccountIndex(config[k].0)
      case Failure(e) => Failure(e)
      case Success(index) => Success(Some(ReadAccount(config, index)))
  }

  /**
   * `GetAccount`: walk the configuration in order and stop at the first entry
   * that selects an account; then copy that account's present fields one by one.
   */
  method GetAccount(config: Config, apiUsername: Option<string>) returns (r: Result<Option<Account>, CredentialError>)
    ensures r == ResolveAccount(config, apiUsername)
    ensures r == Success(None) <==> forall j :: 0 <= j < |config| ==> !Selects(config[j], apiUsername)
  {
    var i := 0;
    while i < |config|
      invariant 0 <= i <= |config|
      invariant forall j :: 0 <= j < i ==> !Selects(config[j], apiUsername)
    {
      var (key, value) := config[i];
      if EndsWith(key, UsernameSuffix) {
        if apiUsername.None? || apiUsername.value == value {
          assert FirstSelected(config, apiUsername) == Some(i);
          var parsed := AccountIndex(key);
          if parsed.Failure? {
            return Failure(parsed.error);
          }
          var accnt := CopyAccount(config, parsed.value);
          return Success(Some(accnt));
        }
      }
      i := i + 1;
    }
    return Success(None);
  }

  /** The body of the match in `GetAccount`: a new account, then each present field copied in turn. */
  method CopyAccount(config: Config, index: int) returns (accnt: Account)
    ensures accnt == ReadAccount(config, index)
  {
    accnt := EmptyAccount;
    if ContainsKey(config, AccountKey(index, ".apiUsername")) {
      accnt := accnt.(apiUsername := Some(Get(config, AccountKey(index, ".apiUsername"))));
    }
    if ContainsKey(config, AccountKey(index, ".apiPassword")) {
      accnt := accnt.(apiPassword := Some(Get(config, AccountKey(index, ".apiPassword"))));
    }
    if ContainsKey(config, AccountKey(index, ".apiSignature")) {
      accnt := accnt.(apiSignature := Some(Get(config, AccountKey(index, ".apiSignature"))));
    }
    if ContainsKey(config, AccountKey(index, ".apiCertificate")) {
      accnt := accnt.(apiCertificate := Some(Get(config, AccountKey(index, ".apiCertificate"))));
    }
    if ContainsKey(config, AccountKey(index, ".privateKeyPassword")) {
      accnt := accnt.(privateKeyPassword := Some(Get(config, AccountKey(index, ".privateKeyPassword"))));
    }
    if ContainsKey(config, AccountKey(index, ".subject")) {
      accnt := accnt.(certificateSubject := Some(Get(config, AccountKey(index, ".subject"))));
    }
    if ContainsKey(config, AccountKey(index, ".applicationId")) {
      accnt := accnt.(applicationId := Some(Get(config, AccountKey(index, ".applicationId"))));
    }
  }

  // ---------------------------------------------------------------------------
  // Credential construction

  /** The subject authorization attached for a subject field: only a non-empty subject gives one. */
  function SubjectFor(subject: Option<string>): (r: Option<ThirdPartyAuthorization>)
    ensures r.None? <==> IsNullOrEmpty(subject)
    ensures r.Some? ==> r.value == SubjectAuthorization(subject.value) && subject.value != ""
  {
    if IsNullOrEmpty(subject) then None else Some(SubjectAuthorization(subject.value))
  }

  /** The credential variant an account calls for: a certificate path, when non-empty, wins. */
  function BuildCredential(a: Account): (c: Credential)
    ensures c.Certificate? <==> !IsNullOrEmpty(a.apiCertificate)
    ensures c.UserName() == a.apiUsername && c.Password() == a.apiPassword && c.ApplicationId() == a.applicationId
    ensures c.Certificate? ==>
              c.certificateCredential.certificateFile == a.apiCertificate
              && c.certificateCredential.privateKeyPassword == a.privateKeyPassword
              && c.ThirdParty() == SubjectFor(a.certificateSubject)
    ensures c.Signature? ==>
              c.signatureCredential.signature == a.apiSignature && c.ThirdParty() == SubjectFor(a.signatureSubject)
  {
    if !IsNullOrEmpty(a.apiCertificate) then
      Certificate(CertificateCredential(a.apiUsername, a.apiPassword, a.apiCertificate, a.privateKeyPassword,
                                        a.applicationId, SubjectFor(a.certificateSubject)))
    else
      Signature(SignatureCredential(a.apiUsername, a.apiPassword, a.apiSignature,
                                    a.applicationId, SubjectFor(a.signatureSubject)))
  }

  /** The message of the MissingCredentialException; C# renders a null name as nothing. */
  function MissingMessage(apiUserName: Option<string>): (m: string)
    ensures apiUserName.Some? ==> m == "Missing credentials for " + apiUserName.value
    ensures apiUserName.None? ==> m == "Missing credentials for "
  {
    "Missing credentials for " + AsString(apiUserName)
  }

  /** What `GetCredentials` returns or throws. */
  function ResolveCredentials(config: Config, apiUserName: Option<string>): (r: Result<Credential, CredentialError>)
    ensures r.Success? ==> RequiredFieldsPresent(r.value)
    ensures (r.Failure? && r.error.MissingCredential?) <==> forall j :: 0 <= j < |config| ==> !Selects(config[j], apiUserName)
    ensures r.Failure? && r.error.MissingCredential? ==> r.error.message == MissingMessage(apiUserName)
    ensures FirstSelected(config, apiUserName).Some? ==>
              var key := config[FirstSelected(config, apiUserName).value].0;
              (AccountIndex(key).Failure? ==> r == Failure(AccountIndex(key).error))
              && (AccountIndex(key).Success? ==>
                    var c := BuildCredential(ReadAccount(config, AccountIndex(key).value));
                    (r.Success? <==> RequiredFieldsPresent(c))
                    && (r.Success? ==> r.value == c)
                    && (r.Failure? ==> r == Failure(InvalidCredential(ValidateCredentials(c).value))))
  {
    match ResolveAccount(config, apiUserName)
    case Failure(e) => Failure(e)
    case Success(None) => Failure(MissingCredential(MissingMessage(apiUserName)))
    case Success(Some(a)) =>
      var credential := BuildCredential(a);
      match ValidateCredentials(credential)
      case Some(reason) => Failure(InvalidCredential(reason))
      case None => Success(credential)
  }

  /** `GetCredentials`: the selected account's credential, validated. */
  method GetCredentials(config: Config, apiUserName: Option<string>) returns (r: Result<Credential, CredentialError>)
    ensures r == ResolveCredentials(config, apiUserName)
    ensures r.Success? ==> RequiredFieldsPresent(r.value)
  {
    var found := GetAccount(config, apiUserName);
    if found.Failure? {
      return Failure(found.error);
    }
    if found.value.None? {
      return Failure(MissingCredential(MissingMessage(apiUserName)));
    }
    var accnt := found.value.value;
    var credential: Credential;
    if !IsNullOrEmpty(accnt.apiCertificate) {
      var certCredential := CertificateCredential(accnt.apiUsername, accnt.apiPassword, accnt.apiCertificate,
                                                  accnt.privateKeyPassword, None, None);
      certCredential := certCredential.(applicationId := accnt.applicationId);
      if !IsNullOrEmpty(accnt.certificateSubject) {
        certCredential := certCredential.(thirdPartyAuthorization := SubjectFor(accnt.certificateSubject));
      }
      credential := Certificate(certCredential);
    } else {
      var signCredential := SignatureCredential(accnt.apiUsername, accnt.apiPassword, accnt.apiSignature, None, None);
      signCredential := signCredential.(applicationId := accnt.applicationId);
      if !IsNullOrEmpty(accnt.signatureSubject) {
        signCredential := signCredential.(thirdPartyAuthorization := SubjectFor(accnt.signatureSubject));
      }
      credential := Signature(signCredential);
    }
    var failure := ValidateCredentials(credential);
    if failure.Some? {
      return Failure(InvalidCredential(failure.value));
    }
    return Success(credential);
  }

  // ---------------------------------------------------------------------------
  // Validation

  /** The fields a variant requires, each with the error for it, in the order they are checked. */
  function RequiredFields(c: Credential): seq<(Option<string>, InvalidReason)> {
    match c
    case Signature(s) =>
      [(s.userName, ErrorUsername), (s.password, ErrorPassword), (s.signature, ErrorSignature)]
    case Certificate(k) =>
      [(k.userName, ErrorUsername), (k.password, ErrorPassword), (k.certificateFile, ErrorCertificate),
       (k.privateKeyPassword, ErrorPrivateKeyPassword)]
  }

  /** Position `i` holds the first empty field of `fields`. */
  predicate FirstEmptyAt(fields: seq<(Option<string>, InvalidReason)>, i: int) {
    0 <= i < |fields| && IsNullOrEmpty(fields[i].0) && forall j :: 0 <= j < i ==> !IsNullOrEmpty(fields[j].0)
  }

  predicate RequiredFieldsPresent(c: Credential) {
    forall i :: 0 <= i < |RequiredFields(c)| ==> !IsNullOrEmpty(RequiredFields(c)[i].0)
  }

  /** `Validate(SignatureCredential)`: the error for the first empty field of username, password, signature. */
  function ValidateSignature(c: SignatureCredential): (r: Option<InvalidReason>)
    ensures r.None? <==> !IsNullOrEmpty(c.userName) && !IsNullOrEmpty(c.password) && !IsNullOrEmpty(c.signature)
    ensures r == Some(ErrorUsername) <==> IsNullOrEmpty(c.userName)
    ensures r == Some(ErrorPassword) <==> !IsNullOrEmpty(c.userName) && IsNullOrEmpty(c.password)
    ensures r == Some(ErrorSignature) <==>
              !IsNullOrEmpty(c.userName) && !IsNullOrEmpty(c.password) && IsNullOrEmpty(c.signature)
  {
    if IsNullOrEmpty(c.userName) then Some(ErrorUsername)
    else if IsNullOrEmpty(c.password) then Some(ErrorPassword)
    else if IsNullOrEmpty(c.signature) then Some(ErrorSignature)
    else None
  }

  /**
   * `Validate(CertificateCredential)`: the error for the first empty field of
   * username, password, certificate file, private-key password.
   */
  function ValidateCertificate(c: CertificateCredential): (r: Option<InvalidReason>)
    ensures r.None? <==> !IsNullOrEmpty(c.userName) && !IsNullOrEmpty(c.password)
                         && !IsNullOrEmpty(c.certificateFile) && !IsNullOrEmpty(c.privateKeyPassword)
    ensures r == Some(ErrorUsername) <==> IsNullOrEmpty(c.userName)
    ensures r == Some(ErrorPassword) <==> !IsNullOrEmpty(c.userName) && IsNullOrEmpty(c.password)
    ensures r == Some(ErrorCertificate) <==>
              !IsNullOrEmpty(c.userName) && !IsNullOrEmpty(c.password) && IsNullOrEmpty(c.certificateFile)
    ensures r == Some(ErrorPrivateKeyPassword) <==>
              !IsNullOrEmpty(c.userName) && !IsNullOrEmpty(c.password) && !IsNullOrEmpty(c.certificateFile)
              && IsNullOrEmpty(c.privateKeyPassword)
  {
    if IsNullOrEmpty(c.userName) then Some(ErrorUsername)
    else if IsNullOrEmpty(c.password) then Some(ErrorPassword)
    else if IsNullOrEmpty(c.certificateFile) then Some(ErrorCertificate)
    else if IsNullOrEmpty(c.privateKeyPassword) then Some(ErrorPrivateKeyPassword)
    else None
  }

  /**
   * `ValidateCredentials`: dispatch on the variant; passes exactly when every
   * required field is present, and otherwise reports the error of the first
   * empty one.
   */
  function ValidateCredentials(c: Credential): (r: Option<InvalidReason>)
    ensures r.None? <==> RequiredFieldsPresent(c)
    ensures r.Some? ==> exists i :: FirstEmptyAt(RequiredFields(c), i) && r.value == RequiredFields(c)[i].1
  {
    match c
    case Signature(s) =>
      var fields := RequiredFields(c);
      assert RequiredFieldsPresent(c) <==>
             !IsNullOrEmpty(fields[0].0) && !IsNullOrEmpty(fields[1].0) && !IsNullOrEmpty(fields[2].0);
      var r := ValidateSignature(s);
      assert r == Some(ErrorUsername) ==> FirstEmptyAt(fields, 0) && fields[0].1 == ErrorUsername;
      assert r == Some(ErrorPassword) ==> FirstEmptyAt(fields, 1) && fields[1].1 == ErrorPassword;
      assert r == Some(ErrorSignature) ==> FirstEmptyAt(fields, 2) && fields[2].1 == ErrorSignature;
      r
    case Certificate(k) =>
      var fields := RequiredFields(c);
      assert RequiredFieldsPresent(c) <==>
             !IsNullOrEmpty(fields[0].0) && !IsNullOrEmpty(fields[1].0)
             && !IsNullOrEmpty(fields[2].0) && !IsNullOrEmpty(fields[3].0);
      var r := ValidateCertificate(k);
      assert r == Some(ErrorUsername) ==> FirstEmptyAt(fields, 0) && fields[0].1 == ErrorUsername;
      assert r == Some(ErrorPassword) ==> FirstEmptyAt(fields, 1) && fields[1].1 == ErrorPassword;
      assert r == Some(ErrorCertificate) ==> FirstEmptyAt(fields, 2) && fields[2].1 == ErrorCertificate;
      assert r == Some(ErrorPrivateKeyPassword) ==> FirstEmptyAt(fields, 3) && fields[3].1 == ErrorPrivateKeyPassword;
      r
  }
}
