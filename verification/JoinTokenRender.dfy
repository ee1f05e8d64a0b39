/**
 The consumer side of the join-token protocol: which token a join KairosConfig renders
 (internal/controllers/bootstrap/tokens.go). The Secret is a cached read, as stale as it
 likes.
*/
module JoinTokenRender {
  import opened Wrappers
  import opened BootstrapTokens
  import opened K0sJoinTokens

  datatype SecretRef = SecretRef(namespace: string, name: string, key: string)

  datatype JoinSecret = JoinSecret(annotatedID: string, data: map<string, string>)

  datatype Fetched = Found(secret: JoinSecret) | Missing | ReadFailed

  datatype RenderError = NotReady | CrossNamespace | Failed | NoSuchKey | Unsupported

  datatype JoinConfig = JoinConfig(
    namespace: string,
    distribution: string,
    k3sRef: Option<SecretRef>,
    joinRef: Option<SecretRef>,
    wantID: string)   // the token-ID annotation, "" when absent

  /** What a read of a Secret returns, by namespace and name. */
  type Reader = (string, string) -> Fetched

  /** secretRefKey and the read: a reference into another namespace is refused before it. */
  function Fetch(own: string, ref: SecretRef, read: Reader): Result<JoinSecret, RenderError> {
    if ref.namespace != "" && ref.namespace != own then Err(CrossNamespace)
    else
      match read(own, ref.name)
      case Found(secret) => Ok(secret)
      case Missing => Err(NotReady)
      case ReadFailed => Err(Failed)
  }

  function KeyOf(ref: SecretRef): string {
    if ref.key == "" then "token" else ref.key
  }

  /** k0sIssuedControlPlaneJoinToken. */
  function IssuedToken(codec: Codec, own: string, ref: SecretRef, read: Reader, wantID: string): Result<string, RenderError> {
    match Fetch(own, ref, read)
    case Err(e) => Err(e)
    case Ok(secret) =>
      if secret.annotatedID != wantID then Err(NotReady)
      else if KeyOf(ref) !in secret.data || secret.data[KeyOf(ref)] == "" then Err(NotReady)
      else
        var token := secret.data[KeyOf(ref)];
        var d := codec.decode(token);
        if d.None? || d.value.token.id != wantID then Err(NotReady) else Ok(token)
  }

  /** tokenFromWorkerRef. */
  function PlainToken(own: string, ref: SecretRef, read: Reader): Result<string, RenderError> {
    match Fetch(own, ref, read)
    case Err(e) => Err(e)
    case Ok(secret) => if KeyOf(ref) in secret.data then Ok(secret.data[KeyOf(ref)]) else Err(NoSuchKey)
  }

  function EffectiveDistribution(d: string): string {
    if d == "" then "k0s" else d
  }

  /** resolveControlPlaneJoinToken. */
  function Resolve(codec: Codec, kc: JoinConfig, read: Reader): Result<string, RenderError> {
    var d := EffectiveDistribution(kc.distribution);
    if d == "k3s" then
      if kc.k3sRef.None? then Err(NotReady) else PlainToken(kc.namespace, kc.k3sRef.value, read)
    else if d == "k0s" then
      if kc.joinRef.None? then Err(NotReady)
      else if kc.wantID != "" then IssuedToken(codec, kc.namespace, kc.joinRef.value, read, kc.wantID)
      else PlainToken(kc.namespace, kc.joinRef.value, read)
    else Err(Unsupported)
  }

  /** Whatever Secret it reads, a k0s join config that names a token ID renders only a token with
      that ID, from its own namespace; and it renders as soon as the Secret holds that token. */
  lemma RendersOnlyItsToken(codec: Codec, kc: JoinConfig, read: Reader)
    requires kc.distribution in {"", "k0s"} && kc.wantID != "" && kc.joinRef.Some?
    ensures var ref := kc.joinRef.value;
            var key := if ref.key == "" then "token" else ref.key;
            Resolve(codec, kc, read).Ok? <==>
            && (ref.namespace == "" || ref.namespace == kc.namespace)
            && read(kc.namespace, ref.name).Found?
            && var s := read(kc.namespace, ref.name).secret;
               && s.annotatedID == kc.wantID && key in s.data && s.data[key] != ""
               && codec.decode(s.data[key]).Some? && codec.decode(s.data[key]).value.token.id == kc.wantID
    ensures Resolve(codec, kc, read).Ok? ==>
            codec.decode(Resolve(codec, kc, read).value).Some? && codec.decode(Resolve(codec, kc, read).value).value.token.id == kc.wantID
  {
  }

  /** Two Machines that exist never render the same join token, whatever each reads and whenever:
      the admissions kept their IDs apart. */
  lemma NoTwoMachinesRenderOneToken(codec: Codec, machines: map<string, Joiner>, a: string, b: string,
                                    kcA: JoinConfig, kcB: JoinConfig, readA: Reader, readB: Reader)
    requires Unique(machines) && a in machines && b in machines && a != b
    requires kcA.wantID == machines[a].tokenID != "" && kcB.wantID == machines[b].tokenID
    requires kcA.distribution in {"", "k0s"} && kcB.distribution in {"", "k0s"}
    requires kcB.wantID != ""
    ensures var rA, rB := Resolve(codec, kcA, readA), Resolve(codec, kcB, readB);
            rA.Ok? && rB.Ok? ==> rA.value != rB.value
  {
    if kcA.joinRef.Some? && kcB.joinRef.Some? {
      RendersOnlyItsToken(codec, kcA, readA);
      RendersOnlyItsToken(codec, kcB, readB);
    }
  }

  /** What an admission stored is what its config renders, once the config reads that Secret. */
  lemma StoredTokenRenders(codec: Codec, server: nat, ca: string, t: BootstrapToken, own: string, name: string)
    requires Lawful(codec) && ValidID(t.id) && codec.encode(server, ca, t).Some?
    ensures var secret := JoinSecret(t.id, map["token" := codec.encode(server, ca, t).value]);
            IssuedToken(codec, own, SecretRef("", name, ""), (_, _) => Found(secret), t.id) == Ok(codec.encode(server, ca, t).value)
  {
  }
}
