/** What resolution promises about the configuration it reads. */
module CredentialProperties {
  import opened Wrappers
  import opened Strings
  import opened Decimal
  import opened Configuration
  import opened Authentication
  import opened CredentialManager

  /** The optional per-account fields, as key suffixes. */
  const AccountFields: seq<string> :=
    [".apiUsername", ".apiPassword", ".apiSignature", ".apiCertificate", ".privateKeyPassword", ".subject", ".applicationId"]

  /** The account field a key suffix fills. */
  function FieldOf(a: Account, field: string): Option<string>
    requires field in AccountFields
  {
    if field == ".apiUsername" then a.apiUsername
    else if field == ".apiPassword" then a.apiPassword
    else if field == ".apiSignature" then a.apiSignature
    else if field == ".apiCertificate" then a.apiCertificate
    else if field == ".privateKeyPassword" then a.privateKeyPassword
    else if field == ".subject" then a.certificateSubject
    else a.applicationId
  }

  /**
   * Each field of the account is set exactly when `account<index><field>` is
   * a key of the configuration, and then holds that key's value; the
   * signature subject is never set.
   */
  lemma ReadAccountFields(config: Config, index: int, field: string, value: string)
    requires DistinctKeys(config) && field in AccountFields
    ensures FieldOf(ReadAccount(config, index), field).None? <==>
              forall j :: 0 <= j < |config| ==> config[j].0 != AccountKey(index, field)
    ensures (AccountKey(index, field), value) in config ==> FieldOf(ReadAccount(config, index), field) == Some(value)
    ensures ReadAccount(config, index).signatureSubject == None
  {
    FieldOfReadAccount(config, index, field);
    if (AccountKey(index, field), value) in config {
      LookupUnique(config, AccountKey(index, field), value);
    }
  }

  /** Each field of the account read for `index` is the lookup of its own key. */
  lemma FieldOfReadAccount(config: Config, index: int, field: string)
    requires field in AccountFields
    ensures FieldOf(ReadAccount(config, index), field) == Lookup(config, AccountKey(index, field))
  {
    var a := ReadAccount(config, index);
    if field == ".apiUsername" {
      assert FieldOf(a, field) == a.apiUsername;
    } else if field == ".apiPassword" {
      assert FieldOf(a, field) == a.apiPassword;
    } else if field == ".apiSignature" {
      assert FieldOf(a, field) == a.apiSignature;
    } else if field == ".apiCertificate" {
      assert FieldOf(a, field) == a.apiCertificate;
    } else if field == ".privateKeyPassword" {
      assert FieldOf(a, field) == a.privateKeyPassword;
    } else if field == ".subject" {
      assert FieldOf(a, field) == a.certificateSubject;
    } else {
      assert field == ".applicationId";
      assert FieldOf(a, field) == a.applicationId;
    }
  }

  /**
   * When the selected key is in the canonical form `account<i>.apiUsername`,
   * the account is read from the same prefix, and its username is the value
   * that selected it.
   */
  lemma CanonicalKeyReadsOwnAccount(config: Config, apiUsername: Option<string>, k: nat, index: int)
    requires DistinctKeys(config) && IsInt32(index)
    requires FirstSelected(config, apiUsername) == Some(k)
    requires config[k].0 == AccountKey(index, UsernameSuffix)
    ensures ResolveAccount(config, apiUsername) == Success(Some(ReadAccount(config, index)))
    ensures ReadAccount(config, index).apiUsername == Some(config[k].1)
  {
    AccountIndexOfCanonicalKey(index, UsernameSuffix);
    assert config[k] in config;
    LookupUnique(config, config[k].0, config[k].1);
  }

  /** A digit string with a leading zero is never how an index is rendered, whatever follows it. */
  lemma PaddedDigitsAreNotRendered(n: nat, digits: string, f: string, g: string)
    requires AllDigits(digits) && |digits| >= 2 && digits[0] == '0'
    requires f != [] && f[0] == '.' && g != [] && g[0] == '.'
    ensures AccountPrefix + IntToString(n) + f != AccountPrefix + digits + g
  {
    var rendered := IntToString(n);
    var s1 := AccountPrefix + rendered + f;
    var s2 := AccountPrefix + digits + g;
    NoDotInIntToString(n);
    assert '.' !in digits by {
      assert forall j :: 0 <= j < |digits| ==> IsDigit(digits[j]);
    }
    DotPosition(rendered, f);
    DotPosition(digits, g);
    if |rendered| == |digits| {
      assert rendered == NatToString(n) && rendered[0] != '0';
      assert s1[|AccountPrefix|] == rendered[0];
      assert s2[|AccountPrefix|] == digits[0];
    } else {
      assert IndexOf(s1, '.') != IndexOf(s2, '.');
    }
  }

  /**
   * The index is parsed and printed again, so a key whose index carries a
   * leading zero, such as "account01.apiUsername", selects an account whose
   * fields are then read from another prefix ("account1.*"). In a
   * configuration holding only that entry the account comes back empty, the
   * username that selected it is lost, and validation reports the username
   * as missing.
   */
  lemma PaddedIndexReadsOtherPrefix(digits: string, user: string)
    requires AllDigits(digits) && |digits| >= 2 && digits[0] == '0' && DigitsValue(digits) <= INT32_MAX
    ensures AccountIndex(AccountPrefix + digits + UsernameSuffix) == Success(DigitsValue(digits))
    ensures AccountKey(DigitsValue(digits), UsernameSuffix) != AccountPrefix + digits + UsernameSuffix
    ensures ResolveAccount([(AccountPrefix + digits + UsernameSuffix, user)], Some(user)) == Success(Some(EmptyAccount))
    ensures ResolveCredentials([(AccountPrefix + digits + UsernameSuffix, user)], Some(user))
              == Failure(InvalidCredential(ErrorUsername))
  {
    PaddedKeyIndex(digits);
    PaddedDigitsAreNotRendered(DigitsValue(digits), digits, UsernameSuffix, UsernameSuffix);
    PaddedKeySelected(digits, user);
    PaddedIndexAccountIsEmpty(digits, user);
    assert ValidateCredentials(BuildCredential(EmptyAccount)) == Some(ErrorUsername);
  }

  lemma PaddedKeyIndex(digits: string)
    requires AllDigits(digits) && |digits| >= 2 && digits[0] == '0' && DigitsValue(digits) <= INT32_MAX
    ensures AccountIndex(AccountPrefix + digits + UsernameSuffix) == Success(DigitsValue(digits))
  {
    assert '.' !in digits by {
      assert forall j :: 0 <= j < |digits| ==> IsDigit(digits[j]);
    }
    ParseInt32OfDigits(digits);
    AccountIndexOfKey(digits, UsernameSuffix, DigitsValue(digits));
  }

  lemma PaddedKeySelected(digits: string, user: string)
    ensures FirstSelected([(AccountPrefix + digits + UsernameSuffix, user)], Some(user)) == Some(0)
  {
    var key := AccountPrefix + digits + UsernameSuffix;
    assert key[|key| - |UsernameSuffix|..] == UsernameSuffix;
  }

  /** No field key of the re-rendered index is the one key of that configuration. */
  lemma PaddedIndexAccountIsEmpty(digits: string, user: string)
    requires AllDigits(digits) && |digits| >= 2 && digits[0] == '0'
    ensures ReadAccount([(AccountPrefix + digits + UsernameSuffix, user)], DigitsValue(digits)) == EmptyAccount
  {
    PaddedFieldAbsent(digits, user, ".apiUsername");
    PaddedFieldAbsent(digits, user, ".apiPassword");
    PaddedFieldAbsent(digits, user, ".apiSignature");
    PaddedFieldAbsent(digits, user, ".apiCertificate");
    PaddedFieldAbsent(digits, user, ".privateKeyPassword");
    PaddedFieldAbsent(digits, user, ".subject");
    PaddedFieldAbsent(digits, user, ".applicationId");
  }

  lemma PaddedFieldAbsent(digits: string, user: string, field: string)
    requires AllDigits(digits) && |digits| >= 2 && digits[0] == '0'
    requires field != [] && field[0] == '.'
    ensures Lookup([(AccountPrefix + digits + UsernameSuffix, user)], AccountKey(DigitsValue(digits), field)) == None
  {
    PaddedDigitsAreNotRendered(DigitsValue(digits), digits, field, UsernameSuffix);
  }

  /**
   * A credential that resolution returns is built from the selected account's
   * entries: the certificate variant exactly when the certificate entry is
   * non-empty, username, password and application ID copied, the
   * variant's own fields copied, the subject attached only to a certificate
   * credential, and every required field present.
   */
  lemma ResolvedCredentialFromConfig(config: Config, apiUserName: Option<string>, k: nat, index: int, c: Credential)
    requires FirstSelected(config, apiUserName) == Some(k)
    requires AccountIndex(config[k].0) == Success(index)
    requires ResolveCredentials(config, apiUserName) == Success(c)
    ensures c.Certificate? <==> !IsNullOrEmpty(Lookup(config, AccountKey(index, ".apiCertificate")))
    ensures c.UserName() == Lookup(config, AccountKey(index, ".apiUsername"))
    ensures c.Password() == Lookup(config, AccountKey(index, ".apiPassword"))
    ensures c.ApplicationId() == Lookup(config, AccountKey(index, ".applicationId"))
    ensures c.Certificate? ==>
              c.certificateCredential.certificateFile == Lookup(config, AccountKey(index, ".apiCertificate"))
              && c.certificateCredential.privateKeyPassword == Lookup(config, AccountKey(index, ".privateKeyPassword"))
              && c.ThirdParty() == SubjectFor(Lookup(config, AccountKey(index, ".subject")))
    ensures c.Signature? ==>
              c.signatureCredential.signature == Lookup(config, AccountKey(index, ".apiSignature"))
              && c.ThirdParty() == None
    ensures RequiredFieldsPresent(c)
  {
    assert BuildCredential(ReadAccount(config, index)) == c;
  }

  /** Two field keys are equal only for the same index and the same field. */
  lemma AccountKeysDiffer(i: int, j: int, f: string, g: string)
    requires IsInt32(i) && IsInt32(j) && f != [] && f[0] == '.' && g != [] && g[0] == '.'
    requires i != j || f != g
    ensures AccountKey(i, f) != AccountKey(j, g)
  {
    AccountIndexOfCanonicalKey(i, f);
    AccountIndexOfCanonicalKey(j, g);
    if i == j {
      var p := AccountPrefix + IntToString(i);
      assert AccountKey(i, f) == p + f && AccountKey(j, g) == p + g;
      assert (p + f)[|p|..] == f && (p + g)[|p|..] == g;
    }
  }

  /** p + f ends in u only if the shorter of f and u ends the other. */
  lemma NotEndsWithConcat(p: string, f: string, u: string)
    requires |f| <= |u| ==> u[|u| - |f|..] != f
    requires |f| > |u| ==> f[|f| - |u|..] != u
    ensures !EndsWith(p + f, u)
  {
    var s := p + f;
    if |u| <= |s| {
      var tail := s[|s| - |u|..];
      if |f| <= |u| {
        assert tail[|u| - |f|..] == f;
      } else {
        assert f[|f| - |u|..] == tail;
      }
    }
  }

  /** No other field suffix and ".apiUsername" end one another. */
  lemma FieldIsNoUsernameSuffix(f: string)
    requires f in AccountFields && f != UsernameSuffix
    ensures |f| <= |UsernameSuffix| ==> UsernameSuffix[|UsernameSuffix| - |f|..] != f
    ensures |f| > |UsernameSuffix| ==> f[|f| - |UsernameSuffix|..] != UsernameSuffix
  {
    if f == ".apiPassword" {
      assert UsernameSuffix[4] != f[4];
    } else if f == ".subject" {
      assert UsernameSuffix[|UsernameSuffix| - |f|..][0] != f[0];
    } else {
      assert f == ".apiSignature" || f == ".apiCertificate" || f == ".privateKeyPassword" || f == ".applicationId";
      assert f[|f| - |UsernameSuffix|..][0] != UsernameSuffix[0];
    }
  }

  /** Only the username field key ends in ".apiUsername". */
  lemma OnlyUsernameKeyEndsWithSuffix(i: int, f: string)
    requires f in AccountFields && f != UsernameSuffix
    ensures !EndsWith(AccountKey(i, f), UsernameSuffix)
  {
    var p := AccountPrefix + IntToString(i);
    assert AccountKey(i, f) == p + f;
    FieldIsNoUsernameSuffix(f);
    NotEndsWithConcat(p, f, UsernameSuffix);
  }
}
