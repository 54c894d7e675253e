/**
 * The records the credential manager produces. Their C# classes (Account,
 * SignatureCredential, CertificateCredential, SubjectAuthorization,
 * TokenAuthorization) are not part of this model; only the fields the core
 * reads and writes are kept. A C# null is `None`.
 */
module Authentication {
  import opened Wrappers

  /** One account read out of the configuration; every field starts unset. */
  datatype Account = Account(
    apiUsername: Option<string>,
    apiPassword: Option<string>,
    apiSignature: Option<string>,
    apiCertificate: Option<string>,
    privateKeyPassword: Option<string>,
    certificateSubject: Option<string>,
    signatureSubject: Option<string>,
    applicationId: Option<string>)

  const EmptyAccount: Account := Account(None, None, None, None, None, None, None, None)

  /** Delegated access granted by a third party: an access token and its secret. */
  datatype TokenAuthorization = TokenAuthorization(accessToken: Option<string>, tokenSecret: Option<string>)

  /** The third-party slot of a credential: a subject to act for, or a delegated token. */
  datatype ThirdPartyAuthorization =
    | SubjectAuthorization(subject: string)
    | Token(token: TokenAuthorization)

  datatype SignatureCredential = SignatureCredential(
    userName: Option<string>,
    password: Option<string>,
    signature: Option<string>,
    applicationId: Option<string>,
    thirdPartyAuthorization: Option<ThirdPartyAuthorization>)

  datatype CertificateCredential = CertificateCredential(
    userName: Option<string>,
    password: Option<string>,
    certificateFile: Option<string>,
    privateKeyPassword: Option<string>,
    applicationId: Option<string>,
    thirdPartyAuthorization: Option<ThirdPartyAuthorization>)

  /** `ICredential`: exactly one of the two variants. */
  datatype Credential =
    | Signature(signatureCredential: SignatureCredential)
    | Certificate(certificateCredential: CertificateCredential)
  {
    function UserName(): Option<string> {
      match this
      case Signature(s) => s.userName
      case Certificate(c) => c.userName
    }

    function Password(): Option<string> {
      match this
      case Signature(s) => s.password
      case Certificate(c) => c.password
    }

    function ApplicationId(): Option<string> {
      match this
      case Signature(s) => s.applicationId
      case Certificate(c) => c.applicationId
    }

    function ThirdParty(): Option<ThirdPartyAuthorization> {
      match this
      case Signature(s) => s.thirdPartyAuthorization
      case Certificate(c) => c.thirdPartyAuthorization
    }
  }
}
