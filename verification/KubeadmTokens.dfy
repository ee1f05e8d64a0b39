/**
 The bootstrap token of a kubeadm worker: reused, minted, extended, recovered and revoked
 (internal/controllers/bootstrap/kubeadm.go, and reconcileKubeadmWorkerToken with the token
 part of reconcileBootstrapData in internal/controllers/bootstrap/kairosconfig_controller.go).

 One KairosConfig. Its status is read from a cache and its writes may be lost; Secrets of the
 workload cluster are read live; every call may fail, a create also after it took effect.
 The bootstrap data Secret is modelled by the token its rendered data embeds.
*/
module KubeadmTokens {
  import opened Wrappers
  import StringOrder
  import opened BootstrapTokens
  import opened K0sTokenLifetime
  import opened KubeadmTokenTiming

  /** A Secret in kube-system. */
  datatype Sec = Sec(name: string, bootstrap: bool, id: string, half: string, owner: string, expires: Option<nat>)

  function SecretName(id: string): string {
    "bootstrap-token-" + id
  }

  function Token(id: string, half: string): string {
    id + "." + half
  }

  /** bootstrapTokenFromSecret: the token, if the Secret is a well-formed one for the ID. */
  function TokenOf(s: Sec, id: string): Option<string> {
    if s.bootstrap && s.id == id && ValidID(id) && Alnum(s.half, 16) then Some(Token(id, s.half)) else None
  }

  /** bootstrapTokenIDFromBootstrapData, of data that embeds the token. */
  function IDOf(token: string): string {
    if |token| == 23 && ValidID(token[..6]) && token[6] == '.' && Alnum(token[7..], 16) then token[..6] else ""
  }

  lemma IDOfToken(s: Sec, id: string)
    requires TokenOf(s, id).Some?
    ensures IDOf(TokenOf(s, id).value) == id
  {
    var t := Token(id, s.half);
    assert t[..6] == id && t[7..] == s.half;
  }

  // ---- which of several owned tokens is used ----

  predicate Usable(s: Sec) {
    TokenOf(s, s.id).Some? && s.name == SecretName(s.id)
  }

  /** A well-formed Secret of the name its ID calls for. */
  lemma UsableMeans(s: Sec)
    ensures Usable(s) <==>
            && s.bootstrap && s.name == "bootstrap-token-" + s.id
            && |s.id| == 6 && (forall c | c in s.id :: 'a' <= c <= 'z' || '0' <= c <= '9')
            && |s.half| == 16 && (forall c | c in s.half :: 'a' <= c <= 'z' || '0' <= c <= '9')
    ensures Usable(s) ==> TokenOf(s, s.id) == Some(s.id + "." + s.half)
  {
  }

  /** An unreadable expiration sorts first. */
  function Order(s: Sec): int {
    match s.expires
    case None => -1
    case Some(t) => t
  }

  /** tokenExpiresAfter: later, or by name on a tie. */
  predicate ExpiresAfter(a: Sec, b: Sec) {
    Order(a) > Order(b) || (Order(a) == Order(b) && StringOrder.Less(b.name, a.name))
  }

  predicate Before(a: Sec, b: Sec) {
    a == b || ExpiresAfter(b, a)
  }

  ghost predicate DistinctNames(list: seq<Sec>) {
    forall i, j | 0 <= i < j < |list| :: list[i].name != list[j].name
  }

  lemma BeforeTransitive(a: Sec, b: Sec, c: Sec)
    requires Before(a, b) && Before(b, c)
    ensures Before(a, c)
  {
    if a != b && b != c && Order(a) == Order(b) == Order(c) {
      StringOrder.LessTransitive(a.name, b.name, c.name);
    }
  }

  lemma BeforeTotal(a: Sec, b: Sec)
    requires a.name != b.name
    ensures ExpiresAfter(a, b) || Before(a, b)
  {
    StringOrder.LessTotal(a.name, b.name);
  }

  /** findOwnedBootstrapToken: of the usable ones the one that expires last, whatever the order
      they are listed in. */
  method FindOwned(list: seq<Sec>) returns (best: Option<Sec>)
    requires DistinctNames(list)
    ensures best.None? <==> forall s | s in list :: !Usable(s)
    ensures best.Some? ==> best.value in list && Usable(best.value) && forall s | s in list && Usable(s) :: Before(s, best.value)
    ensures best.Some? ==> forall s | s in list && Usable(s) && s.expires.Some? ::
              best.value.expires.Some? && s.expires.value <= best.value.expires.value
    ensures best.Some? ==> forall s | s in list && Usable(s) && s.expires == best.value.expires && s != best.value ::
              StringOrder.Less(s.name, best.value.name)
  {
    best := None;
    for i := 0 to |list|
      invariant best.None? <==> forall s | s in list[..i] :: !Usable(s)
      invariant best.Some? ==> best.value in list[..i] && Usable(best.value) && forall s | s in list[..i] && Usable(s) :: Before(s, best.value)
    {
      var s := list[i];
      assert list[..i + 1] == list[..i] + [s];
      if Usable(s) {
        if best.None? || ExpiresAfter(s, best.value) {
          LaterBeats(list[..i], best, s);
          best := Some(s);
        } else {
          BeforeTotal(s, best.value);
        }
      }
    }
    assert list[..|list|] == list;
  }

  lemma LaterBeats(seen: seq<Sec>, best: Option<Sec>, s: Sec)
    requires best.Some? ==> ExpiresAfter(s, best.value) && forall x | x in seen && Usable(x) :: Before(x, best.value)
    ensures best.Some? ==> forall x | x in seen && Usable(x) :: Before(x, s)
  {
    if best.Some? {
      forall x | x in seen && Usable(x)
        ensures Before(x, s)
      {
        BeforeTransitive(x, best.value, s);
      }
    }
  }

  /** The choice is unique. */
  lemma LastIsUnique(a: Sec, b: Sec)
    requires Before(a, b) && Before(b, a)
    ensures a == b
  {
    if a != b && Order(a) == Order(b) {
      StringOrder.LessTransitive(a.name, b.name, a.name);
      StringOrder.LessIrreflexive(a.name);
    }
  }

  // ---- one KairosConfig ----

  datatype Decision = Nothing | Regenerate | CapReached | NotReady

  /** The other Secrets, and everything of this one but its expiration, stay. */
  ghost predicate OnlyExpiries(a: map<string, Sec>, b: map<string, Sec>) {
    a.Keys == b.Keys && forall n | n in a :: b[n] == a[n].(expires := b[n].expires)
  }

  ghost predicate OwnedIn(secrets: map<string, Sec>, uid: string, s: Sec) {
    s.name in secrets && secrets[s.name] == s && s.owner == uid
  }

  ghost predicate WellNamed(secrets: map<string, Sec>) {
    forall n | n in secrets :: secrets[n].name == n
  }

  /** The token's Secret is there and usable, and no other Secret is owned. */
  ghost predicate Sole(secrets: map<string, Sec>, uid: string, token: string) {
    var id := IDOf(token);
    && SecretName(id) in secrets && TokenOf(secrets[SecretName(id)], id) == Some(token)
    && forall s :: OwnedIn(secrets, uid, s) <==> s == secrets[SecretName(id)]
  }

  lemma ExpiriesKeepSole(a: map<string, Sec>, b: map<string, Sec>, uid: string, token: string)
    requires WellNamed(a) && Sole(a, uid, token) && OnlyExpiries(a, b)
    ensures Sole(b, uid, token)
  {
    var n := SecretName(IDOf(token));
    assert OwnedIn(a, uid, a[n]);
    forall s
      ensures OwnedIn(b, uid, s) <==> s == b[n]
    {
      if OwnedIn(b, uid, s) {
        assert OwnedIn(a, uid, a[s.name]);
      }
    }
  }

  lemma ExpiriesKeepNone(a: map<string, Sec>, b: map<string, Sec>, uid: string)
    requires WellNamed(a) && OnlyExpiries(a, b) && forall s :: !OwnedIn(a, uid, s)
    ensures forall s :: !OwnedIn(b, uid, s)
  {
    forall s
      ensures !OwnedIn(b, uid, s)
    {
      if OwnedIn(b, uid, s) {
        assert OwnedIn(a, uid, a[s.name]);
      }
    }
  }

  lemma FirstIsSole(a: map<string, Sec>, uid: string, id: string, half: string, expires: Option<nat>)
    requires SecretName(id) !in a && ValidID(id) && Alnum(half, 16) && forall s :: !OwnedIn(a, uid, s)
    ensures Sole(a[SecretName(id) := Sec(SecretName(id), true, id, half, uid, expires)], uid, Token(id, half))
  {
    var sec := Sec(SecretName(id), true, id, half, uid, expires);
    var b := a[SecretName(id) := sec];
    IDOfToken(sec, id);
    forall s
      ensures OwnedIn(b, uid, s) <==> s == sec
    {
      if OwnedIn(b, uid, s) && s.name != SecretName(id) {
        assert OwnedIn(a, uid, s);
      }
    }
  }

  predicate LiveIn(secrets: map<string, Sec>, id: string) {
    ValidID(id) && SecretName(id) in secrets && TokenOf(secrets[SecretName(id)], id).Some?
  }

  /** There is a well-formed Secret of that ID and its name. */
  lemma LiveMeans(secrets: map<string, Sec>, id: string)
    ensures LiveIn(secrets, id) <==>
            "bootstrap-token-" + id in secrets &&
            var s := secrets["bootstrap-token-" + id];
            && s.bootstrap && s.id == id
            && |id| == 6 && (forall c | c in id :: 'a' <= c <= 'z' || '0' <= c <= '9')
            && |s.half| == 16 && (forall c | c in s.half :: 'a' <= c <= 'z' || '0' <= c <= '9')
  {
  }

  class KubeadmWorker {
    const uid: string
    var secrets: map<string, Sec>   // kube-system of the workload cluster
    var statusID: string            // status.bootstrapTokenID as stored
    var data: Option<string>        // the token in the bootstrap data Secret
    ghost var minted: seq<string>   // every token minted for this KairosConfig
    ghost var rendered: set<string> // every token a data Secret was written with
    ghost var trouble: bool         // some call reported a failure, or a write was lost

    /** The live Secrets with the owner label. */
    ghost predicate Owned(s: Sec)
      reads this
    {
      OwnedIn(secrets, uid, s)
    }

    ghost predicate Named()
      reads this
    {
      uid != "" && WellNamed(secrets)
    }

    /** Nothing minted yet, or one token: its Secret is there and usable, no other Secret is
        owned, and the status and the data name no other. */
    ghost predicate OneToken()
      reads this
    {
      && Named() && |minted| <= 1
      && (minted == [] ==> (forall s :: !OwnedIn(secrets, uid, s)) && statusID == "" && data == None && rendered == {})
      && (minted != [] ==>
            && Sole(secrets, uid, minted[0])
            && statusID in {"", IDOf(minted[0])} && data in {None, Some(minted[0])} && rendered <= {minted[0]})
    }

    constructor (uid: string, secrets: map<string, Sec>)
      requires uid != "" && forall n | n in secrets :: secrets[n].name == n && secrets[n].owner != uid
      ensures OneToken() && minted == [] && this.uid == uid && this.secrets == secrets
    {
      this.uid, this.secrets, statusID, data, minted, rendered, trouble := uid, secrets, "", None, [], {}, false;
    }

    /** A list call, by label. */
    method ListOwned() returns (list: seq<Sec>)
      requires Named()
      ensures DistinctNames(list) && forall s :: s in list <==> Owned(s)
    {
      list := [];
      var left := secrets.Keys;
      while left != {}
        invariant left <= secrets.Keys && DistinctNames(list)
        invariant forall s :: s in list <==> Owned(s) && s.name !in left
        decreases |left|
      {
        var n :| n in left;
        if secrets[n].owner == uid {
          list := list + [secrets[n]];
        }
        left := left - {n};
      }
    }

    /** extendBootstrapToken: only the expiration changes. */
    method Extend(name: string, ttl: nat, now: nat) returns (ok: bool)
      requires Named() && name in secrets
      modifies `secrets, `trouble
      ensures trouble == (old(trouble) || !ok)
      ensures Named() && OnlyExpiries(old(secrets), secrets) && forall n | n in secrets && n != name :: secrets[n] == old(secrets)[n]
      ensures ok ==> secrets[name].expires == Some(Refreshed(old(secrets)[name].expires, ttl, now))
      ensures secrets[name].expires in {old(secrets)[name].expires, Some(Refreshed(old(secrets)[name].expires, ttl, now))}
    {
      var s := secrets[name];
      if s.expires.Some? && s.expires.value > now + Enough(ttl) {
        return true;
      }
      ok := *;
      var applied: bool := *;
      if ok || applied {
        secrets := secrets[name := s.(expires := Some(Trunc(now + ttl)))];
      }
      trouble := trouble || !ok;
    }

    /** mintBootstrapToken; `id` and `half` are what the generator drew. A name already taken
        fails. */
    method Mint(id: string, half: string, ttl: nat, now: nat) returns (ok: bool)
      requires Named() && ValidID(id) && Alnum(half, 16)
      modifies `secrets, `minted, `trouble
      ensures Named() && (trouble <==> old(trouble) || !ok)
      ensures (secrets == old(secrets) && minted == old(minted)) ||
              (SecretName(id) !in old(secrets) && minted == old(minted) + [Token(id, half)] &&
               secrets == old(secrets)[SecretName(id) := Sec(SecretName(id), true, id, half, uid, Some(Trunc(now + ttl)))])
      ensures ok ==> minted != old(minted)
    {
      ok := *;
      var applied: bool := *;
      if SecretName(id) in secrets {
        ok := false;
      } else if ok || applied {
        secrets := secrets[SecretName(id) := Sec(SecretName(id), true, id, half, uid, Some(Trunc(now + ttl)))];
        minted := minted + [Token(id, half)];
      }
      trouble := trouble || !ok;
    }

    /** The Secret of an ID, where it is a usable token. */
    predicate Live(id: string)
      reads this
    {
      LiveIn(secrets, id)
    }

    /** A status value that is, or was, on record: none, or the one token's. */
    ghost predicate Known(id: string)
      reads this
    {
      id == "" || (minted != [] && id == IDOf(minted[0]))
    }

    lemma OneTokenIsLive(id: string)
      requires OneToken() && Known(id) && id != ""
      ensures Live(id) && TokenOf(secrets[SecretName(id)], id) == Some(minted[0])
    {
      IDOfToken(secrets[SecretName(id)], id);
    }

    /** The token found is extended before it is used. */
    method Reuse(name: string, id: string, ttl: nat, now: nat) returns (token: Option<string>)
      requires Named() && name in secrets && TokenOf(secrets[name], id).Some?
      modifies `secrets, `trouble
      ensures Named() && OnlyExpiries(old(secrets), secrets) && trouble == (old(trouble) || token.None?)
      ensures token.Some? ==>
                token == TokenOf(secrets[name], id) && secrets[name].expires == Some(Refreshed(old(secrets)[name].expires, ttl, now))
    {
      token := None;
      var t := TokenOf(secrets[name], id);
      var ok := Extend(name, ttl, now);
      if ok {
        token := t;
      }
    }

    /** The recorded token, else one already minted for this KairosConfig: the Secret to reuse. */
    method FindExisting(storedID: string) returns (ok: bool, name: Option<string>, id: string)
      requires Named()
      modifies `trouble
      ensures trouble == (old(trouble) || !ok)
      ensures ok && name.Some? ==> name.value in secrets && TokenOf(secrets[name.value], id).Some? && name.value == SecretName(id)
      ensures ok && storedID != "" ==> (name.Some? <==> Live(storedID)) && (name.Some? ==> id == storedID)
      ensures ok && storedID == "" ==> (name.None? <==> forall s | Owned(s) :: !Usable(s))
      ensures ok && storedID == "" && name.Some? ==>
                Owned(secrets[name.value]) && forall s | Owned(s) && Usable(s) :: Before(s, secrets[name.value])
    {
      ok, name, id := *, None, storedID;
      trouble := trouble || !ok;
      if storedID == "" {
        var list := ListOwned();
        var best := FindOwned(list);
        if best.Some? {
          name, id := Some(best.value.name), best.value.id;
        }
      } else if Live(storedID) {
        name := Some(SecretName(storedID));
      }
    }

    /** reuseOrMintBootstrapToken. A token is minted only when the recorded one is gone or unusable,
        or, with none recorded, when no usable one is owned; otherwise the existing one is used, and
        nothing but expirations changes. */
    method ReuseOrMint(storedID: string, newID: string, half: string, ttl: nat, now: nat) returns (token: Option<string>)
      requires Named() && ValidID(newID) && Alnum(half, 16)
      modifies `secrets, `minted, `trouble
      ensures Named() && trouble == (old(trouble) || token.None?)
      ensures minted == old(minted) || minted == old(minted) + [Token(newID, half)]
      ensures minted != old(minted) ==>
                if storedID == "" then forall s | old(Owned(s)) :: !Usable(s) else !old(Live(storedID))
      ensures minted == old(minted) ==> OnlyExpiries(old(secrets), secrets)
      ensures minted != old(minted) ==>
                secrets == old(secrets)[SecretName(newID) := Sec(SecretName(newID), true, newID, half, uid, Some(Trunc(now + ttl)))] &&
                SecretName(newID) !in old(secrets)
      ensures token.Some? ==> Live(IDOf(token.value)) && TokenOf(secrets[SecretName(IDOf(token.value))], IDOf(token.value)) == token
      ensures token.Some? && minted == old(minted) ==>
                if storedID != "" then IDOf(token.value) == storedID
                else exists s :: old(Owned(s)) && Usable(s) && TokenOf(s, s.id) == token
      ensures token.Some? && minted != old(minted) ==> token.value == Token(newID, half)
    {
      var ok, name, id := FindExisting(storedID);
      if !ok {
        return None;
      }
      if name.Some? {
        ghost var was := secrets[name.value];
        IDOfToken(was, id);
        token := Reuse(name.value, id, ttl, now);
        return;
      }
      ok := Mint(newID, half, ttl, now);
      token := None;
      if ok {
        token := Some(Token(newID, half));
        IDOfToken(secrets[SecretName(newID)], newID);
      }
    }

    /** ExtendWorkerToken: None is an error, Some(false) no usable token of that ID. */
    method ExtendWorkerToken(id: string, ttl: nat, now: nat) returns (found: Option<bool>)
      requires Named()
      modifies `secrets, `trouble
      ensures Named() && OnlyExpiries(old(secrets), secrets) && trouble == (old(trouble) || found.None?)
      ensures found == Some(true) ==>
                Live(id) && secrets[SecretName(id)].expires == Some(Refreshed(old(secrets)[SecretName(id)].expires, ttl, now))
      ensures found == Some(false) ==> !Live(id) && secrets == old(secrets)
    {
      if !ValidID(id) {
        return Some(false);
      }
      var reached: bool := *;
      if !reached {
        trouble := true;
        return None;
      }
      if !Live(id) {
        return Some(false);
      }
      var ok := Extend(SecretName(id), ttl, now);
      found := if ok then Some(true) else None;
    }

    /** RevokeWorkerToken: a Secret that is not there is revoked. */
    method RevokeWorkerToken(id: string) returns (ok: bool)
      requires Named()
      modifies `secrets, `trouble
      ensures Named() && (secrets == old(secrets) || (ValidID(id) && secrets == old(secrets) - {SecretName(id)}))
      ensures trouble == (old(trouble) || !ok)
      ensures ok && ValidID(id) ==> SecretName(id) !in secrets
    {
      if !ValidID(id) {
        return true;
      }
      ok := *;
      var applied: bool := *;
      if ok || applied {
        secrets := secrets - {SecretName(id)};
      }
      trouble := trouble || !ok;
    }

    /** reconcileKubeadmWorkerToken. With a Node the recorded token is revoked and forgotten; past
        the cap nothing is done; otherwise the token on record, or the one in the data Secret, is
        extended in place, and only one that is gone asks for a new render. `status'` is the status
        to be written; `refused` says that the trust check refused the cluster for good. */
    method ReconcileWorkerToken(nodeRef: bool, created: Option<nat>, status: string, dataView: Option<string>, belongs: bool,
                                refused: bool, ttl: nat, now: nat)
      returns (d: Decision, status': string)
      requires Named()
      modifies `secrets, `trouble
      ensures Named() && trouble == (old(trouble) || d == NotReady)
      ensures !nodeRef ==> OnlyExpiries(old(secrets), secrets)
      ensures nodeRef ==> secrets == old(secrets) || (!refused && ValidID(status) && secrets == old(secrets) - {SecretName(status)})
      ensures nodeRef && d == Nothing && !refused && ValidID(status) ==> SecretName(status) !in secrets
      ensures nodeRef ==> (d == Nothing && status' == "") || (d == NotReady && !refused && status' == status)
      ensures d == CapReached ==> !nodeRef && created.Some? && now > created.value + A_DAY
      ensures !nodeRef && created.Some? && now > created.value + A_DAY ==>
                d == CapReached && secrets == old(secrets) && status' == status
      ensures !nodeRef && d == Nothing ==>
                Live(status') && secrets[SecretName(status')].expires == Some(Refreshed(old(secrets)[SecretName(status')].expires, ttl, now))
      ensures !nodeRef && d == Regenerate ==> !Live(status') && secrets == old(secrets)
      ensures !nodeRef ==> status' == if d != CapReached && status == "" && dataView.Some? && belongs then IDOf(dataView.value) else status
    {
      status' := status;
      if nodeRef {
        if status == "" {
          return Nothing, status';
        }
        if !refused {
          var ok := RevokeWorkerToken(status);
          if !ok {
            return NotReady, status';
          }
        }
        return Nothing, "";
      }
      if created.Some? && now > created.value + REFRESH_CAP {
        return CapReached, status';
      }
      if status == "" && dataView.Some? && belongs {
        status' := IDOf(dataView.value);
      }
      if status' == "" {
        return Regenerate, status';
      }
      var found := ExtendWorkerToken(status', ttl, now);
      d := if found.None? then NotReady else if found.value then Nothing else Regenerate;
    }

    /** The deferred status patch, which may be lost. */
    method WriteStatus(read: string, status: string)
      modifies `statusID, `trouble
      ensures statusID == old(statusID) || statusID == status
      ensures read == status ==> statusID == old(statusID) && trouble == old(trouble)
      ensures trouble == (old(trouble) || (read != status && statusID != status))
    {
      var applied: bool := *;
      if status != read {
        if applied {
          statusID := status;
        }
        trouble := trouble || statusID != status;
      }
    }

    /** With one token or none, what a render uses is that one. */
    method TheToken(status: string, newID: string, half: string, ttl: nat, now: nat) returns (token: Option<string>)
      requires OneToken() && Known(status) && ValidID(newID) && Alnum(half, 16)
      modifies `secrets, `minted, `trouble
      ensures OneToken() && old(minted) <= minted && (token.Some? ==> minted == [token.value])
      ensures trouble == (old(trouble) || token.None?)
    {
      ghost var had, before := minted, secrets;
      if status != "" {
        OneTokenIsLive(status);
      }
      if had != [] {
        ghost var sec := secrets[SecretName(IDOf(had[0]))];
        assert Owned(sec) && Usable(sec);
        IDOfToken(sec, IDOf(had[0]));
      }
      token := ReuseOrMint(status, newID, half, ttl, now);
      if minted != had {
        FirstIsSole(before, uid, newID, half, Some(Trunc(now + ttl)));
      } else if had == [] {
        ExpiriesKeepNone(before, secrets, uid);
      } else {
        ExpiriesKeepSole(before, secrets, uid, had[0]);
      }
    }

    /** The render: the token, the data Secret, then the status, each of which may fail. */
    method Render(status: string, newID: string, half: string, ttl: nat, now: nat) returns (status': string)
      requires OneToken() && Known(status) && ValidID(newID) && Alnum(half, 16)
      modifies `secrets, `minted, `data, `rendered, `trouble
      ensures OneToken() && Known(status') && old(minted) <= minted
      ensures (old(trouble) ==> trouble) && (!trouble ==> minted != [] && data == Some(minted[0]) && status' == IDOf(minted[0]))
    {
      status' := status;
      var token := TheToken(status, newID, half, ttl, now);
      if token.Some? {
        status' := StoreRender(token.value, status);
      }
    }

    /** The data Secret that embeds the token, and the ID for the status. */
    method StoreRender(token: string, status: string) returns (status': string)
      modifies `data, `rendered, `trouble
      ensures (data == old(data) && rendered == old(rendered)) || (data == Some(token) && rendered == old(rendered) + {token})
      ensures status' == status || (status' == IDOf(token) && data == Some(token))
      ensures (old(trouble) ==> trouble) && (!trouble ==> data == Some(token) && status' == IDOf(token))
    {
      var ok: bool, applied: bool := *, *;
      if ok || applied {
        data := Some(token);
        rendered := rendered + {token};
      }
      status' := if ok then IDOf(token) else status;
      trouble := trouble || !ok;
    }

    /** One reconcile of a worker whose Machine has no Node. `status` and `dataView` are what the
        cache shows of the status and of the data Secret, `written` whether the status names a data
        Secret, `stale` whether its render must be redone for another reason. The token, once there,
        stays the same through every render, whichever writes were lost. */
    method Reconcile(status: string, written: bool, dataView: Option<string>, belongs: bool, stale: bool, created: Option<nat>,
                     newID: string, half: string, ttl: nat, now: nat)
      requires OneToken() && Known(status) && (dataView.Some? ==> minted != [] && dataView.value == minted[0])
      requires ValidID(newID) && Alnum(half, 16)
      modifies `secrets, `minted, `data, `rendered, `statusID, `trouble
      ensures OneToken() && old(minted) <= minted
      ensures !trouble && !(written && dataView.Some? && created.Some? && now > created.value + A_DAY) ==>
                && minted != [] && (!written || dataView.None? || stale ==> data == Some(minted[0]))
                && (status != IDOf(minted[0]) ==> statusID == IDOf(minted[0]))
      ensures written && dataView.Some? && created.Some? && now > created.value + A_DAY ==> secrets == old(secrets) && data == old(data)
    {
      var status' := status;
      if written && dataView.Some? {
        ghost var before := secrets;
        var d;
        d, status' := ReconcileWorkerToken(false, created, status, dataView, belongs, false, ttl, now);
        ExpiriesKeepSole(before, secrets, uid, minted[0]);
        if d == NotReady || d == CapReached || (d == Nothing && !stale) {
          WriteStatus(status, status');
          return;
        }
      }
      status' := Render(status', newID, half, ttl, now);
      WriteStatus(status, status');
    }
  }

  /** One reconcile of a worker whose Machine has a Node, and whose data Secret is there: the token on
      record is revoked and forgotten. Nothing is minted or rendered, unless the render must be
      redone for another reason; then a token is minted only where none usable is left, and the
      token rendered is usable and the one the status names. */
  method ReconcileJoined(w: KubeadmWorker, status: string, data: string, belongs: bool, refused: bool, stale: bool,
                         newID: string, half: string, ttl: nat, now: nat)
    requires w.Named() && ValidID(newID) && Alnum(half, 16)
    modifies w
    ensures w.Named() && (old(w.trouble) ==> w.trouble)
    ensures !stale ==>
              && w.minted == old(w.minted) && w.data == old(w.data) && w.rendered == old(w.rendered)
              && (w.secrets == old(w.secrets) || (status != "" && w.secrets == old(w.secrets) - {SecretName(status)}))
    ensures !stale && !w.trouble ==>
              && (status != "" ==> w.statusID == "")
              && (ValidID(status) && !refused ==> SecretName(status) !in w.secrets)
    ensures stale && !w.trouble ==>
              && w.data.Some? && w.Live(IDOf(w.data.value))
              && (status != IDOf(w.data.value) ==> w.statusID == IDOf(w.data.value))
    ensures w.minted == old(w.minted) ||
            (stale && w.minted == old(w.minted) + [Token(newID, half)] && forall s | old(w.Owned(s)) :: Usable(s) ==> s.name == SecretName(status))
  {
    var d, status' := w.ReconcileWorkerToken(true, None, status, Some(data), belongs, refused, ttl, now);
    if d != NotReady && stale {
      var token := w.ReuseOrMint(status', newID, half, ttl, now);
      if token.Some? {
        status' := w.StoreRender(token.value, status');
      }
    }
    w.WriteStatus(status, status');
  }

  /** One round of any run: what the reads show, what the generator draws, and what others make of
      the Secrets that are not this worker's. */
  datatype Round = Round(
    staleStatus: bool, written: bool, seesData: bool, belongs: bool, stale: bool, created: Option<nat>,
    newID: string, half: string, now: nat, others: map<string, Sec>)

  /** The other Secrets come and go. */
  function Disturbed(secrets: map<string, Sec>, uid: string, others: map<string, Sec>): map<string, Sec> {
    map n | n in secrets.Keys + others.Keys &&
            ((n in secrets && secrets[n].owner == uid) || (n in others && others[n].name == n && others[n].owner != uid))
      :: if n in secrets && secrets[n].owner == uid then secrets[n] else others[n]
  }

  lemma DisturbedKeeps(secrets: map<string, Sec>, uid: string, others: map<string, Sec>)
    requires WellNamed(secrets)
    ensures WellNamed(Disturbed(secrets, uid, others))
    ensures forall s :: OwnedIn(Disturbed(secrets, uid, others), uid, s) <==> OwnedIn(secrets, uid, s)
    ensures forall token :: Sole(secrets, uid, token) ==> Sole(Disturbed(secrets, uid, others), uid, token)
  {
    var after := Disturbed(secrets, uid, others);
    assert forall s :: OwnedIn(after, uid, s) <==> OwnedIn(secrets, uid, s);
    forall token | Sole(secrets, uid, token)
      ensures Sole(after, uid, token)
    {
      var sec := secrets[SecretName(IDOf(token))];
      assert OwnedIn(secrets, uid, sec) && OwnedIn(after, uid, sec);
      assert forall s :: OwnedIn(secrets, uid, s) <==> s == sec;
    }
  }

  /** Every run, however long, with any status reads stale, any writes lost and any calls failing:
      one token at most is minted for the KairosConfig, and every data Secret ever written embeds
      that token. */
  method AnyRun(worker: KubeadmWorker, rounds: seq<Round>, ttl: nat)
    requires worker.OneToken() && worker.minted == []
    requires forall r | r in rounds :: ValidID(r.newID) && Alnum(r.half, 16)
    modifies worker
    ensures |worker.minted| <= 1
    ensures forall t | t in worker.rendered :: worker.minted == [t]
  {
    for i := 0 to |rounds|
      invariant worker.OneToken()
    {
      var r := rounds[i];
      assert r in rounds;
      DisturbedKeeps(worker.secrets, worker.uid, r.others);
      worker.secrets := Disturbed(worker.secrets, worker.uid, r.others);
      worker.Reconcile(if r.staleStatus then "" else worker.statusID, r.written, if r.seesData then worker.data else None,
                       r.belongs, r.stale, r.created, r.newID, r.half, ttl, r.now);
    }
  }
}
