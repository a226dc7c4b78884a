/** Secret-free identity of an authentication source: auth.rs. */
module ReuseKeys {
  import opened Wrappers

  datatype Authentication =
    | Password(secret: string)
    | KeyboardInteractive(secret: string)
    | PrivateKey(path: string, passphrase: Option<string>)
    | Agent
    | Auto(identityFiles: seq<string>, passphrase: Option<string>)

  datatype ReuseKey =
    | KeyFile(path: string)
    | AgentKey
    | KeyFiles(paths: seq<string>)
    | NonReusable

  function KeyOf(a: Authentication): ReuseKey {
    match a
    case Password(_) => NonReusable
    case KeyboardInteractive(_) => NonReusable
    case PrivateKey(path, passphrase) =>
      if passphrase.Some? then NonReusable else KeyFile(path)
    case Agent => AgentKey
    case Auto(files, passphrase) =>
      if passphrase.Some? || files == [] then NonReusable else KeyFiles(files)
  }

  predicate CanReuse(existing: ReuseKey, requested: ReuseKey) {
    match (existing, requested)
    case (KeyFile(p), KeyFile(q)) => p == q
    case (AgentKey, AgentKey) => true
    case (KeyFiles(ps), KeyFiles(qs)) => ps == qs
    case (_, _) => false
  }

  /** Every credential that carries a secret of its own. */
  predicate CarriesSecret(a: Authentication) {
    match a
    case Password(_) => true
    case KeyboardInteractive(_) => true
    case PrivateKey(_, passphrase) => passphrase.Some?
    case Agent => false
    case Auto(_, passphrase) => passphrase.Some?
  }

  /** A credential that names its source completely and brings no secret along. */
  predicate Shareable(a: Authentication) {
    match a
    case PrivateKey(_, passphrase) => passphrase == None
    case Agent => true
    case Auto(files, passphrase) => passphrase == None && files != []
    case _ => false
  }

  /** `CanReuse` is exactly equality off `NonReusable`, hence an equivalence there and empty on it. */
  lemma CanReuseIsEqualityOffNonReusable(k: ReuseKey, l: ReuseKey)
    ensures CanReuse(k, l) <==> k == l && k != NonReusable
  {
  }

  /** Two requests are interchangeable exactly when they bring the same credential and it can be shared. */
  lemma ReuseExactly(a: Authentication, b: Authentication)
    ensures CanReuse(KeyOf(a), KeyOf(b)) <==> a == b && Shareable(a)
    ensures KeyOf(a) == NonReusable <==> !Shareable(a)
    ensures Shareable(a) ==> !CarriesSecret(a)
  {
  }
}
