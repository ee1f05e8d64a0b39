/**
 The kubeconfig sanitizer (internal/kubeconfig/sanitize.go): validate everything the
 input carries, then rebuild the output from the certificates, the credentials and the
 caller's two arguments alone.

 The kubeconfig loader, the PEM and X.509 decoders and the URL parser are the fields of
 a `Codec`; `Lawful` is what is assumed of them.
 */
module KubeconfigSanitizer {
  import opened Wrappers
  import StringOrder

  type Bytes = string

  const MAX_SIZE := 64 * 1024

  datatype Cluster = Cluster(
    server: string, caFile: string, caData: Bytes, insecureSkipTLSVerify: bool,
    proxyURL: string, tlsServerName: string, extensions: nat)

  datatype AuthInfo = AuthInfo(
    tokenFile: string, clientCertificate: string, clientKey: string, exec: bool, authProvider: bool,
    username: string, password: string, impersonate: string, impersonateUID: string,
    impersonateGroups: nat, impersonateExtra: nat, extensions: nat,
    certData: Bytes, keyData: Bytes, token: string)

  datatype Context = Context(cluster: string, authInfo: string, extensions: nat)

  /** A loaded kubeconfig; an entry may be null. */
  datatype Config = Config(
    clusters: map<string, Option<Cluster>>, authInfos: map<string, Option<AuthInfo>>,
    contexts: map<string, Option<Context>>, currentContext: string,
    extensions: nat, preferencesExtensions: nat)

  datatype Block = Block(kind: string, body: Bytes)

  const CERTIFICATE := "CERTIFICATE"

  function Certificate(body: Bytes): Block {
    Block(CERTIFICATE, body)
  }

  datatype Codec = Codec(
    load: Bytes -> Option<Config>,             // clientcmd.Load
    write: Config -> Bytes,                    // clientcmd.Write
    decodePEM: Bytes -> Option<(Block, Bytes)>, // pem.Decode: a block and what follows it
    encodePEM: Block -> Bytes,                 // pem.EncodeToMemory
    certificateIsCA: Bytes -> Option<bool>,    // x509.ParseCertificate
    keyPair: (Bytes, Bytes) -> bool,           // tls.X509KeyPair
    blank: Bytes -> bool,                      // bytes.TrimSpace leaves nothing
    urlParses: string -> bool,
    isText: string -> bool)                    // a YAML file can carry it: UTF-8 without control characters
  {
    /** What is assumed of the codecs: a rebuild of texts loads as itself once written, what was
        loaded is text, an encoded certificate decodes as itself and leaves what follows, decoding
        consumes input, and there is no block in an empty text, which is blank. */
    ghost predicate Lawful() {
      && (forall n, s, ca, creds: Creds | isText(n) && isText(s) && isText(creds.token) ::
            load(write(Rebuilt(n, s, ca, creds))) == Some(Rebuilt(n, s, ca, creds)))
      && (forall raw | load(raw).Some? :: TextTokens(load(raw).value))
      && (forall body, rest :: decodePEM(encodePEM(Certificate(body)) + rest) == Some((Certificate(body), rest)))
      && (forall data :: decodePEM(data).Some? ==> |decodePEM(data).value.1| < |data|)
      && decodePEM("") == None
      && blank("")
    }

    ghost predicate TextTokens(cfg: Config) {
      forall k | k in cfg.authInfos && cfg.authInfos[k].Some? :: isText(cfg.authInfos[k].value.token)
    }
  }

  datatype Reason = Structure | Oversized | Unparseable | UnsafeCluster | UnsafeIdentity | Credentials

  datatype Creds = Creds(certData: Bytes, keyData: Bytes, token: string)

  // ---- entries ----

  /** All PEM blocks of a text, in order, and what is left after the last. */
  function Blocks(c: Codec, data: Bytes): (seq<Block>, Bytes)
    requires c.Lawful()
    decreases |data|
  {
    match c.decodePEM(data)
    case None => ([], data)
    case Some((b, rest)) => var (more, tail) := Blocks(c, rest); ([b] + more, tail)
  }

  function EncodeAll(c: Codec, blocks: seq<Block>): Bytes {
    if blocks == [] then "" else c.encodePEM(blocks[0]) + EncodeAll(c, blocks[1..])
  }

  /** S2 on a CA bundle: certificates only, at least one, one of them a CA, nothing behind them. */
  ghost predicate ValidBundle(c: Codec, data: Bytes)
    requires c.Lawful()
  {
    var (blocks, tail) := Blocks(c, data);
    && blocks != []
    && c.blank(tail)
    && (forall b | b in blocks :: b.kind == "CERTIFICATE" && c.certificateIsCA(b.body).Some?)
    && exists b | b in blocks :: c.certificateIsCA(b.body) == Some(true)
  }

  lemma ShiftOne<T>(done: seq<T>, b: T, more: seq<T>)
    ensures done + ([b] + more) == (done + [b]) + more
    ensures b in done + ([b] + more)
  {
    assert (done + ([b] + more))[|done|] == b;
  }

  /** Decoding one block more moves it from the rest to the list of blocks done. */
  lemma BlocksStep(c: Codec, data: Bytes, done: seq<Block>, rest: Bytes, b: Block, rest': Bytes)
    requires c.Lawful() && c.decodePEM(rest) == Some((b, rest'))
    requires Blocks(c, data).0 == done + Blocks(c, rest).0 && Blocks(c, data).1 == Blocks(c, rest).1
    ensures b in Blocks(c, data).0
    ensures Blocks(c, data).0 == (done + [b]) + Blocks(c, rest').0 && Blocks(c, data).1 == Blocks(c, rest').1
  {
    assert Blocks(c, rest).0 == [b] + Blocks(c, rest').0;
    ShiftOne(done, b, Blocks(c, rest').0);
  }

  /** The state of the loop over the blocks. */
  ghost predicate BundleSoFar(c: Codec, data: Bytes, done: seq<Block>, rest: Bytes, canonical: Bytes, sawCA: bool)
    requires c.Lawful()
  {
    && Blocks(c, data).0 == done + Blocks(c, rest).0 && Blocks(c, data).1 == Blocks(c, rest).1
    && canonical == EncodeAll(c, done)
    && (forall b | b in done :: b.kind == CERTIFICATE && c.certificateIsCA(b.body).Some?)
    && (sawCA <==> exists b | b in done :: c.certificateIsCA(b.body) == Some(true))
  }

  /** One block more: the state of the loop after it, if it is a certificate; and it is one of the
      blocks in any case. */
  lemma BundleNext(c: Codec, data: Bytes, done: seq<Block>, rest: Bytes, canonical: Bytes, sawCA: bool, b: Block, rest': Bytes)
    requires c.Lawful() && BundleSoFar(c, data, done, rest, canonical, sawCA) && c.decodePEM(rest) == Some((b, rest'))
    ensures b in Blocks(c, data).0
    ensures b.kind == CERTIFICATE && c.certificateIsCA(b.body).Some? ==>
              BundleSoFar(c, data, done + [b], rest', canonical + c.encodePEM(b), sawCA || c.certificateIsCA(b.body).value)
  {
    BlocksStep(c, data, done, rest, b, rest');
    EncodeAllSnoc(c, done, b);
    assert b in done + [b];
  }

  method ValidateCABundle(c: Codec, data: Bytes) returns (r: Option<Bytes>)
    requires c.Lawful()
    ensures r == if ValidBundle(c, data) then Some(EncodeAll(c, Blocks(c, data).0)) else None
  {
    var rest, canonical, blocks, sawCA := data, "", 0, false;
    ghost var done: seq<Block> := [];
    var next := c.decodePEM(rest);
    while next.Some?
      invariant next == c.decodePEM(rest) && blocks == |done|
      invariant BundleSoFar(c, data, done, rest, canonical, sawCA)
      decreases |rest|
    {
      var block := next.value.0;
      BundleNext(c, data, done, rest, canonical, sawCA, block, next.value.1);
      rest := next.value.1;
      blocks := blocks + 1;
      if block.kind != CERTIFICATE {
        return None;
      }
      var cert := c.certificateIsCA(block.body);
      if cert.None? {
        return None;
      }
      if cert.value {
        sawCA := true;
      }
      canonical := canonical + c.encodePEM(block);
      done := done + [block];
      next := c.decodePEM(rest);
    }
    assert Blocks(c, rest).0 == [];
    assert done + [] == done;
    if blocks == 0 || !c.blank(rest) || !sawCA {
      return None;
    }
    return Some(canonical);
  }

  lemma {:induction false} EncodeAllSnoc(c: Codec, blocks: seq<Block>, b: Block)
    ensures EncodeAll(c, blocks + [b]) == EncodeAll(c, blocks) + c.encodePEM(b)
  {
    if blocks != [] {
      assert (blocks + [b])[1..] == blocks[1..] + [b];
      EncodeAllSnoc(c, blocks[1..], b);
    } else {
      assert EncodeAll(c, [b]) == c.encodePEM(b) + "";
    }
  }

  ghost predicate ValidCluster(c: Codec, entry: Option<Cluster>)
    requires c.Lawful()
  {
    && entry.Some?
    && var e := entry.value;
    && e.caFile == "" && !e.insecureSkipTLSVerify && e.proxyURL == "" && e.tlsServerName == "" && e.extensions == 0
    && e.caData != "" && ValidBundle(c, e.caData)
  }

  method ValidateClusterEntry(c: Codec, entry: Option<Cluster>) returns (r: Result<Bytes, Reason>)
    requires c.Lawful()
    ensures r == if ValidCluster(c, entry) then Ok(EncodeAll(c, Blocks(c, entry.value.caData).0)) else Err(UnsafeCluster)
  {
    if entry.None? {
      return Err(UnsafeCluster);
    }
    var e := entry.value;
    if e.caFile != "" || e.insecureSkipTLSVerify || e.proxyURL != "" || e.tlsServerName != "" || e.extensions != 0 {
      return Err(UnsafeCluster);
    }
    if |e.caData| == 0 {
      return Err(UnsafeCluster);
    }
    var ca := ValidateCABundle(c, e.caData);
    if ca.None? {
      return Err(UnsafeCluster);
    }
    return Ok(ca.value);
  }

  /** Nothing but inline credentials: no files, plugins, passwords, impersonation or extensions. */
  ghost predicate Inline(u: AuthInfo) {
    && u.tokenFile == "" && u.clientCertificate == "" && u.clientKey == "" && !u.exec && !u.authProvider
    && u.username == "" && u.password == ""
    && u.impersonate == "" && u.impersonateUID == "" && u.impersonateGroups == 0 && u.impersonateExtra == 0
    && u.extensions == 0
  }

  /** validateUserEntry: S4, then the credential shape of S3. */
  function ValidateUserEntry(c: Codec, entry: Option<AuthInfo>): (r: Result<Creds, Reason>)
    ensures r.Ok? ==> (r.value.certData == "" && r.value.keyData == "" && r.value.token != "") ||
                      (r.value.certData != "" && r.value.keyData != "" && r.value.token == "" &&
                       c.keyPair(r.value.certData, r.value.keyData))
    ensures r.Ok? <==>
              && entry.Some? && Inline(entry.value)
              && (entry.value.token != "" || (entry.value.certData != "" && entry.value.keyData != ""))
              && (entry.value.token == "" || (entry.value.certData == "" && entry.value.keyData == ""))
              && (entry.value.token == "" ==> c.keyPair(entry.value.certData, entry.value.keyData))
    ensures r.Ok? ==> r.value == Creds(entry.value.certData, entry.value.keyData, entry.value.token)
    ensures r.Err? ==> r.error == if entry.None? || !Inline(entry.value) then UnsafeIdentity else Credentials
  {
    match entry
    case None => Err(UnsafeIdentity)
    case Some(u) =>
      if u.tokenFile != "" || u.clientCertificate != "" || u.clientKey != "" || u.exec || u.authProvider
         || u.username != "" || u.password != ""
         || u.impersonate != "" || u.impersonateUID != "" || u.impersonateGroups != 0 || u.impersonateExtra != 0
         || u.extensions != 0 then Err(UnsafeIdentity)
      else
        var hasCertPair := u.certData != "" || u.keyData != "";
        var hasToken := u.token != "";
        if hasCertPair && hasToken then Err(Credentials)
        else if hasCertPair then
          if u.certData == "" || u.keyData == "" then Err(Credentials)
          else if !c.keyPair(u.certData, u.keyData) then Err(Credentials)
          else Ok(Creds(u.certData, u.keyData, ""))
        else if hasToken then Ok(Creds("", "", u.token))
        else Err(Credentials)
  }

  predicate ValidContext(entry: Option<Context>) {
    entry.Some? && entry.value.extensions == 0
  }

  // ---- structure ----

  /** S1: one of each, cross-referenced, and current. */
  ghost predicate ValidStructure(cfg: Config) {
    exists cl, us, cx ::
      && cfg.clusters.Keys == {cl} && cfg.authInfos.Keys == {us} && cfg.contexts.Keys == {cx}
      && cfg.contexts[cx].Some?
      && cfg.contexts[cx].value.cluster == cl && cfg.contexts[cx].value.authInfo == us
      && cfg.currentContext == cx
  }

  method OnlyKey(keys: set<string>) returns (k: string)
    requires |keys| == 1
    ensures keys == {k}
  {
    k :| k in keys;
    assert |keys - {k}| == 0;
  }

  method ValidateStructure(cfg: Config) returns (r: Option<(string, string)>)
    requires forall k | k in cfg.contexts :: cfg.contexts[k].Some?
    ensures r.Some? <==> ValidStructure(cfg)
    ensures r.Some? ==> cfg.clusters.Keys == {r.value.0} && cfg.authInfos.Keys == {r.value.1}
  {
    if |cfg.clusters.Keys| != 1 || |cfg.authInfos.Keys| != 1 || |cfg.contexts.Keys| != 1 {
      if ValidStructure(cfg) {
        assert false;
      }
      return None;
    }
    var clusterName := OnlyKey(cfg.clusters.Keys);
    var userName := OnlyKey(cfg.authInfos.Keys);
    var contextName := OnlyKey(cfg.contexts.Keys);
    assert contextName in cfg.contexts.Keys;
    var ctx := cfg.contexts[contextName].value;
    if ctx.cluster != clusterName || ctx.authInfo != userName || cfg.currentContext != contextName {
      return None;
    }
    return Some((clusterName, userName));
  }

  // ---- the whole ----

  /** S5: the output is new objects only. */
  function Rebuilt(clusterName: string, server: string, ca: Bytes, creds: Creds): Config {
    var userName := clusterName + "-admin";
    var contextName := userName + "@" + clusterName;
    Config(
      map[clusterName := Some(Cluster(server, "", ca, false, "", "", 0))],
      map[userName := Some(AuthInfo("", "", "", false, false, "", "", "", "", 0, 0, 0, creds.certData, creds.keyData, creds.token))],
      map[contextName := Some(Context(clusterName, userName, 0))],
      contextName, 0, 0)
  }

  ghost predicate ArgumentsOk(c: Codec, clusterName: string, server: string) {
    clusterName != "" && server != "" && c.urlParses(server)
  }

  ghost predicate ConfigOk(c: Codec, cfg: Config)
    requires c.Lawful()
  {
    && cfg.extensions == 0 && cfg.preferencesExtensions == 0
    && (forall k | k in cfg.clusters :: ValidCluster(c, cfg.clusters[k]))
    && (forall k | k in cfg.authInfos :: ValidateUserEntry(c, cfg.authInfos[k]).Ok?)
    && (forall k | k in cfg.contexts :: cfg.contexts[k].Some? && cfg.contexts[k].value.extensions == 0)
    && ValidStructure(cfg)
  }

  /** The raw inputs Sanitize accepts. */
  ghost predicate Accepts(c: Codec, raw: Bytes, clusterName: string, server: string)
    requires c.Lawful()
  {
    && ArgumentsOk(c, clusterName, server)
    && |raw| <= 65_536
    && c.load(raw).Some?
    && ConfigOk(c, c.load(raw).value)
  }

  /** The one cluster of an accepted config. */
  ghost function OnlyCluster(c: Codec, cfg: Config): (cl: Cluster)
    requires c.Lawful() && ConfigOk(c, cfg)
    ensures forall k | k in cfg.clusters :: cfg.clusters[k] == Some(cl)
  {
    var k :| cfg.clusters.Keys == {k};
    assert k in cfg.clusters;
    cfg.clusters[k].value
  }

  /** The validated certificates of an accepted config, in order. */
  ghost function Certificates(c: Codec, cfg: Config): seq<Block>
    requires c.Lawful() && ConfigOk(c, cfg)
  {
    Blocks(c, OnlyCluster(c, cfg).caData).0
  }

  /** The credentials of an accepted config. */
  ghost function Identity(c: Codec, cfg: Config): (creds: Creds)
    requires c.Lawful() && ConfigOk(c, cfg)
    ensures forall k | k in cfg.authInfos :: ValidateUserEntry(c, cfg.authInfos[k]) == Ok(creds)
  {
    var k :| cfg.authInfos.Keys == {k};
    assert k in cfg.authInfos;
    ValidateUserEntry(c, cfg.authInfos[k]).value
  }

  /** What Sanitize returns for an accepted input. */
  ghost function Output(c: Codec, raw: Bytes, clusterName: string, server: string): Bytes
    requires c.Lawful() && Accepts(c, raw, clusterName, server)
  {
    var cfg := c.load(raw).value;
    c.write(Rebuilt(clusterName, server, EncodeAll(c, Certificates(c, cfg)), Identity(c, cfg)))
  }

  /** Whether `k` is the first key, in ascending order, whose user entry is refused with `reason`. */
  ghost predicate FirstBadUser(c: Codec, cfg: Config, reason: Reason) {
    exists k | k in cfg.authInfos ::
      && ValidateUserEntry(c, cfg.authInfos[k]) == Err(reason)
      && forall k' | k' in cfg.authInfos && StringOrder.Less(k', k) :: ValidateUserEntry(c, cfg.authInfos[k']).Ok?
  }

  /** The reason a refused input is refused with: the first check that fails, in order. */
  ghost predicate RightReason(c: Codec, raw: Bytes, clusterName: string, server: string, reason: Reason)
    requires c.Lawful()
  {
    if !ArgumentsOk(c, clusterName, server) then reason == Structure
    else if |raw| > 65_536 then reason == Oversized
    else if c.load(raw).None? then reason == Unparseable
    else RightConfigReason(c, c.load(raw).value, reason)
  }

  /** The same, of a config that loaded. */
  ghost predicate RightConfigReason(c: Codec, cfg: Config, reason: Reason)
    requires c.Lawful()
  {
    if cfg.extensions != 0 || cfg.preferencesExtensions != 0 then reason == UnsafeIdentity
    else if exists k | k in cfg.clusters :: !ValidCluster(c, cfg.clusters[k]) then reason == UnsafeCluster
    else if exists k | k in cfg.authInfos :: ValidateUserEntry(c, cfg.authInfos[k]).Err? then FirstBadUser(c, cfg, reason)
    else if exists k | k in cfg.contexts :: !ValidContext(cfg.contexts[k]) then reason == UnsafeIdentity
    else !ValidStructure(cfg) && reason == Structure
  }

  /** sortedKeys: the keys in ascending order. */
  method SortedKeys(keys: set<string>) returns (sorted: seq<string>)
    ensures forall k :: k in sorted <==> k in keys
    ensures forall i, j | 0 <= i < j < |sorted| :: StringOrder.Less(sorted[i], sorted[j])
  {
    sorted := [];
    var left := keys;
    while left != {}
      invariant left <= keys && forall k :: k in keys <==> k in sorted || k in left
      invariant forall i, j | 0 <= i < j < |sorted| :: StringOrder.Less(sorted[i], sorted[j])
      invariant forall i, k | 0 <= i < |sorted| && k in left :: StringOrder.Less(sorted[i], k)
      decreases |left|
    {
      var least := Least(left);
      sorted := sorted + [least];
      left := left - {least};
    }
  }

  method Least(keys: set<string>) returns (least: string)
    requires keys != {}
    ensures least in keys && forall k | k in keys && k != least :: StringOrder.Less(least, k)
  {
    least :| least in keys;
    var left := keys - {least};
    while left != {}
      invariant left <= keys && least in keys
      invariant forall k | k in keys - left && k != least :: StringOrder.Less(least, k)
      decreases |left|
    {
      var k :| k in left;
      StringOrder.LessTotal(k, least);
      if StringOrder.Less(k, least) {
        forall k' | k' in keys - left && k' != least
          ensures StringOrder.Less(k, k')
        {
          StringOrder.LessTransitive(k, least, k');
        }
        least := k;
      }
      left := left - {k};
    }
  }

  method ValidateClusters(c: Codec, cfg: Config) returns (r: Result<map<string, Bytes>, Reason>)
    requires c.Lawful()
    ensures r.Ok? <==> forall k | k in cfg.clusters :: ValidCluster(c, cfg.clusters[k])
    ensures r.Ok? ==> r.value.Keys == cfg.clusters.Keys &&
                      forall k | k in cfg.clusters :: r.value[k] == EncodeAll(c, Blocks(c, cfg.clusters[k].value.caData).0)
    ensures r.Err? ==> r.error == UnsafeCluster
  {
    var names := SortedKeys(cfg.clusters.Keys);
    var cas: map<string, Bytes> := map[];
    for i := 0 to |names|
      invariant forall k :: k in cas <==> k in names[..i]
      invariant forall k | k in names[..i] :: k in cfg.clusters && ValidCluster(c, cfg.clusters[k])
      invariant forall k | k in names[..i] :: cas[k] == EncodeAll(c, Blocks(c, cfg.clusters[k].value.caData).0)
    {
      assert names[i] in names;
      var ca := ValidateClusterEntry(c, cfg.clusters[names[i]]);
      if ca.Err? {
        return Err(ca.error);
      }
      cas := cas[names[i] := ca.value];
    }
    assert names[..|names|] == names;
    return Ok(cas);
  }

  /** A key that sorts before names[i] stands before it. */
  lemma EarlierKey(names: seq<string>, i: nat, k: string)
    requires forall p, q | 0 <= p < q < |names| :: StringOrder.Less(names[p], names[q])
    requires i < |names| && k in names && StringOrder.Less(k, names[i])
    ensures k in names[..i]
  {
    var j :| 0 <= j < |names| && names[j] == k;
    StringOrder.LessIrreflexive(k);
    if j > i {
      StringOrder.LessTransitive(k, names[i], k);
    }
  }

  /** The keys before names[i] are all the keys that sort before it, so the first refusal met is
      the first there is. */
  lemma FirstRefusal(c: Codec, cfg: Config, names: seq<string>, i: nat, reason: Reason)
    requires (forall p, q | 0 <= p < q < |names| :: StringOrder.Less(names[p], names[q])) && (forall k | k in cfg.authInfos :: k in names)
    requires i < |names| && (forall k | k in names[..i] :: k in cfg.authInfos && ValidateUserEntry(c, cfg.authInfos[k]).Ok?)
    requires names[i] in cfg.authInfos && ValidateUserEntry(c, cfg.authInfos[names[i]]) == Err(reason)
    ensures FirstBadUser(c, cfg, reason)
  {
    forall k | k in cfg.authInfos && StringOrder.Less(k, names[i])
      ensures ValidateUserEntry(c, cfg.authInfos[k]).Ok?
    {
      EarlierKey(names, i, k);
    }
  }

  /** The users of those names are accepted, with these credentials. */
  ghost predicate UsersSoFar(c: Codec, cfg: Config, names: seq<string>, creds: map<string, Creds>) {
    && (forall k :: k in creds <==> k in names)
    && forall k | k in creds :: k in cfg.authInfos && ValidateUserEntry(c, cfg.authInfos[k]) == Ok(creds[k])
  }

  lemma UsersNext(c: Codec, cfg: Config, names: seq<string>, creds: map<string, Creds>, k: string, user: Creds)
    requires UsersSoFar(c, cfg, names, creds) && k in cfg.authInfos && ValidateUserEntry(c, cfg.authInfos[k]) == Ok(user)
    ensures UsersSoFar(c, cfg, names + [k], creds[k := user])
  {
  }

  method ValidateUserAt(c: Codec, cfg: Config, names: seq<string>, i: nat, creds: map<string, Creds>)
    returns (r: Result<map<string, Creds>, Reason>)
    requires (forall p, q | 0 <= p < q < |names| :: StringOrder.Less(names[p], names[q])) && (forall k | k in cfg.authInfos :: k in names)
    requires i < |names| && names[i] in cfg.authInfos && UsersSoFar(c, cfg, names[..i], creds)
    ensures r.Ok? ==> UsersSoFar(c, cfg, names[..i + 1], r.value)
    ensures r.Err? ==> FirstBadUser(c, cfg, r.error)
  {
    var user := ValidateUserEntry(c, cfg.authInfos[names[i]]);
    if user.Err? {
      FirstRefusal(c, cfg, names, i, user.error);
      r := Err(user.error);
    } else {
      UsersNext(c, cfg, names[..i], creds, names[i], user.value);
      assert names[..i + 1] == names[..i] + [names[i]];
      r := Ok(creds[names[i] := user.value]);
    }
  }

  method ValidateUsers(c: Codec, cfg: Config) returns (r: Result<map<string, Creds>, Reason>)
    ensures r.Ok? <==> forall k | k in cfg.authInfos :: ValidateUserEntry(c, cfg.authInfos[k]).Ok?
    ensures r.Ok? ==> r.value.Keys == cfg.authInfos.Keys &&
                      forall k | k in cfg.authInfos :: ValidateUserEntry(c, cfg.authInfos[k]) == Ok(r.value[k])
    ensures r.Err? ==> FirstBadUser(c, cfg, r.error)
  {
    var names := SortedKeys(cfg.authInfos.Keys);
    var creds: map<string, Creds> := map[];
    for i := 0 to |names|
      invariant UsersSoFar(c, cfg, names[..i], creds)
    {
      assert names[i] in names;
      var next := ValidateUserAt(c, cfg, names, i, creds);
      if next.Err? {
        return next;
      }
      creds := next.value;
    }
    assert names[..|names|] == names;
    return Ok(creds);
  }

  method ValidateContexts(cfg: Config) returns (ok: bool)
    ensures ok <==> forall k | k in cfg.contexts :: ValidContext(cfg.contexts[k])
  {
    var names := SortedKeys(cfg.contexts.Keys);
    for i := 0 to |names|
      invariant forall k | k in names[..i] :: k in cfg.contexts && ValidContext(cfg.contexts[k])
    {
      assert names[i] in names;
      if !ValidContext(cfg.contexts[names[i]]) {
        return false;
      }
    }
    assert names[..|names|] == names;
    return true;
  }

  /** The checks on a config that loaded: its CA and its credentials, or the first refusal. */
  method ValidateConfig(c: Codec, cfg: Config) returns (r: Result<(Bytes, Creds), Reason>)
    requires c.Lawful()
    ensures r.Ok? <==> ConfigOk(c, cfg)
    ensures r.Ok? ==> r.value == (EncodeAll(c, Certificates(c, cfg)), Identity(c, cfg))
    ensures r.Err? ==> RightConfigReason(c, cfg, r.error)
  {
    if cfg.extensions != 0 {
      return Err(UnsafeIdentity);
    }
    if cfg.preferencesExtensions != 0 {
      return Err(UnsafeIdentity);
    }
    var cas := ValidateClusters(c, cfg);
    if cas.Err? {
      return Err(cas.error);
    }
    var users := ValidateUsers(c, cfg);
    if users.Err? {
      return Err(users.error);
    }
    var contexts := ValidateContexts(cfg);
    if !contexts {
      return Err(UnsafeIdentity);
    }
    var only := ValidateStructure(cfg);
    if only.None? {
      return Err(Structure);
    }
    var (inputCluster, inputUser) := only.value;
    assert inputCluster in cfg.clusters.Keys && inputUser in cfg.authInfos.Keys;
    return Ok((cas.value[inputCluster], users.value[inputUser]));
  }

  method Sanitize(c: Codec, raw: Bytes, clusterName: string, expectedServer: string) returns (r: Result<Bytes, Reason>)
    requires c.Lawful()
    ensures r.Ok? <==> Accepts(c, raw, clusterName, expectedServer)
    ensures r.Ok? ==> r.value == Output(c, raw, clusterName, expectedServer)
    ensures r.Err? ==> RightReason(c, raw, clusterName, expectedServer, r.error)
  {
    if clusterName == "" {
      return Err(Structure);
    }
    if expectedServer == "" {
      return Err(Structure);
    }
    if !c.urlParses(expectedServer) {
      return Err(Structure);
    }
    if |raw| > MAX_SIZE {
      return Err(Oversized);
    }
    var loaded := c.load(raw);
    if loaded.None? {
      return Err(Unparseable);
    }
    var parts := ValidateConfig(c, loaded.value);
    if parts.Err? {
      return Err(parts.error);
    }
    var out := Rebuilt(clusterName, expectedServer, parts.value.0, parts.value.1);
    return Ok(c.write(out));
  }

  /** IsFixedPoint: whether the input already is what Sanitize would make of it. */
  method IsFixedPoint(c: Codec, raw: Bytes, clusterName: string, expectedServer: string) returns (r: Result<bool, Reason>)
    requires c.Lawful()
    ensures r.Ok? <==> Accepts(c, raw, clusterName, expectedServer)
    ensures r.Ok? ==> (r.value <==> raw == Output(c, raw, clusterName, expectedServer))
  {
    var out := Sanitize(c, raw, clusterName, expectedServer);
    match out
    case Err(e) => return Err(e);
    case Ok(bytes) => return Ok(raw == bytes);
  }

  // ---- properties ----

  /** Re-encoding a list of blocks and decoding it again gives the list back, with nothing left over. */
  lemma {:induction false} BlocksOfEncoded(c: Codec, blocks: seq<Block>)
    requires c.Lawful() && forall b | b in blocks :: b.kind == CERTIFICATE
    ensures Blocks(c, EncodeAll(c, blocks)) == (blocks, "")
  {
    if blocks != [] {
      var rest := EncodeAll(c, blocks[1..]);
      assert blocks[0] == Certificate(blocks[0].body);
      assert c.decodePEM(c.encodePEM(blocks[0]) + rest) == Some((blocks[0], rest));
      BlocksOfEncoded(c, blocks[1..]);
      assert blocks == [blocks[0]] + blocks[1..];
    }
  }

  lemma EncodedNotEmpty(c: Codec, blocks: seq<Block>)
    requires c.Lawful() && blocks != [] && forall b | b in blocks :: b.kind == CERTIFICATE
    ensures EncodeAll(c, blocks) != ""
  {
    BlocksOfEncoded(c, blocks);
  }

  /** The config inside an output passes every check again, with the same certificates and
      credentials. */
  lemma RebuiltOk(c: Codec, cfg: Config, clusterName: string, server: string)
    requires c.Lawful() && ConfigOk(c, cfg)
    ensures var out := Rebuilt(clusterName, server, EncodeAll(c, Certificates(c, cfg)), Identity(c, cfg));
            ConfigOk(c, out) && Certificates(c, out) == Certificates(c, cfg) && Identity(c, out) == Identity(c, cfg)
  {
    var certs, creds := Certificates(c, cfg), Identity(c, cfg);
    var out := Rebuilt(clusterName, server, EncodeAll(c, certs), creds);
    assert exists k :: k in cfg.clusters by {
      var k :| cfg.clusters.Keys == {k};
      assert k in cfg.clusters;
    }
    assert exists k :: k in cfg.authInfos by {
      var k :| cfg.authInfos.Keys == {k};
      assert k in cfg.authInfos;
    }
    BlocksOfEncoded(c, certs);
    EncodedNotEmpty(c, certs);
    var userName := clusterName + "-admin";
    var contextName := userName + "@" + clusterName;
    assert ValidCluster(c, out.clusters[clusterName]);
    assert ValidateUserEntry(c, out.authInfos[userName]) == Ok(creds);
    assert out.contexts[contextName].value.cluster == clusterName;
    assert out.clusters.Keys == {clusterName} && out.authInfos.Keys == {userName} && out.contexts.Keys == {contextName};
    assert ValidStructure(out);
    assert clusterName in out.clusters && userName in out.authInfos;
  }

  /** What an output says once it is loaded: the given server under the given name, the validated
      certificates, one user of the validated credentials named after the cluster, one context that
      joins the two, and nothing else. */
  lemma OutputSays(c: Codec, raw: Bytes, clusterName: string, server: string)
    requires c.Lawful() && Accepts(c, raw, clusterName, server) && c.isText(clusterName) && c.isText(server)
    ensures var cfg, out := c.load(raw).value, c.load(Output(c, raw, clusterName, server));
            var user, context := clusterName + "-admin", clusterName + "-admin@" + clusterName;
            && out.Some?
            && out.value.clusters.Keys == {clusterName} && out.value.authInfos.Keys == {user} && out.value.contexts.Keys == {context}
            && out.value.clusters[clusterName].Some? && out.value.clusters[clusterName].value.server == server
            && Blocks(c, out.value.clusters[clusterName].value.caData).0 == Certificates(c, cfg)
            && out.value.authInfos[user].Some? && out.value.authInfos[user].value.token == Identity(c, cfg).token
            && out.value.authInfos[user].value.certData == Identity(c, cfg).certData
            && out.value.authInfos[user].value.keyData == Identity(c, cfg).keyData
            && out.value.contexts[context] == Some(Context(clusterName, user, 0))
            && out.value.currentContext == context && out.value.extensions == 0 && out.value.preferencesExtensions == 0
  {
    var cfg := c.load(raw).value;
    IdentityIsText(c, cfg);
    var rebuilt := Rebuilt(clusterName, server, EncodeAll(c, Certificates(c, cfg)), Identity(c, cfg));
    assert c.load(c.write(rebuilt)) == Some(rebuilt);
    BlocksOfEncoded(c, Certificates(c, cfg));
    assert clusterName + "-admin@" + clusterName == (clusterName + "-admin") + "@" + clusterName;
  }

  lemma IdentityIsText(c: Codec, cfg: Config)
    requires c.Lawful() && ConfigOk(c, cfg) && c.TextTokens(cfg)
    ensures c.isText(Identity(c, cfg).token)
  {
    var k :| cfg.authInfos.Keys == {k};
    assert k in cfg.authInfos;
  }

  /** An output is a fixed point, for the same arguments, exactly when it is small enough
      to be read again. The two arguments are text, as Kubernetes names and endpoints are. */
  lemma OutputIsFixedPoint(c: Codec, raw: Bytes, clusterName: string, server: string)
    requires c.Lawful() && Accepts(c, raw, clusterName, server) && c.isText(clusterName) && c.isText(server)
    ensures var out := Output(c, raw, clusterName, server);
            (Accepts(c, out, clusterName, server) <==> |out| <= 65_536) &&
            (Accepts(c, out, clusterName, server) ==> Output(c, out, clusterName, server) == out)
  {
    var cfg := c.load(raw).value;
    var rebuilt := Rebuilt(clusterName, server, EncodeAll(c, Certificates(c, cfg)), Identity(c, cfg));
    IdentityIsText(c, cfg);
    assert c.load(c.write(rebuilt)) == Some(rebuilt);
    RebuiltOk(c, cfg, clusterName, server);
  }

  /** Two accepted inputs give the same output exactly when they carry the same certificates
      and the same credentials: the server, the entry names, the namespace and every byte
      around the PEM blocks are without effect. */
  lemma OutputDependsOn(c: Codec, raw: Bytes, raw': Bytes, clusterName: string, server: string)
    requires c.Lawful() && Accepts(c, raw, clusterName, server) && Accepts(c, raw', clusterName, server)
    requires c.isText(clusterName) && c.isText(server)
    ensures var cfg, cfg' := c.load(raw).value, c.load(raw').value;
            Output(c, raw, clusterName, server) == Output(c, raw', clusterName, server) <==>
            Certificates(c, cfg) == Certificates(c, cfg') && Identity(c, cfg) == Identity(c, cfg')
  {
    var cfg, cfg' := c.load(raw).value, c.load(raw').value;
    var out := Rebuilt(clusterName, server, EncodeAll(c, Certificates(c, cfg)), Identity(c, cfg));
    var out' := Rebuilt(clusterName, server, EncodeAll(c, Certificates(c, cfg')), Identity(c, cfg'));
    if c.write(out) == c.write(out') {
      IdentityIsText(c, cfg);
      IdentityIsText(c, cfg');
      assert c.load(c.write(out)) == Some(out) && c.load(c.write(out')) == Some(out');
      RebuiltOk(c, cfg, clusterName, server);
      RebuiltOk(c, cfg', clusterName, server);
    }
  }
}
