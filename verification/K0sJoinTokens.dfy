/**
 The k0s controller-join tokens of an HA control plane: issued one per joiner
 (internal/controllers/controlplane/ha_k0s_jointoken.go), and rendered by the joiner's
 bootstrap config (internal/controllers/bootstrap/tokens.go).

 Machine, KairosConfig and Secret reads are cached, so what a pass works on are snapshots
 (`view`, `slotView`), as stale as they like; a patch of the management Secret carries the
 revision read. Answers of the workload cluster to an identity read are parameters, and any
 write may fail, also after it took effect. Random token IDs are taken to be fresh.
*/
module K0sJoinTokens {
  import opened Wrappers
  import opened BootstrapTokens
  import opened K0sTokenLifetime

  datatype BootstrapToken = BootstrapToken(id: string, secret: string)

  /** A parsed join token; its server is the address of a member's join API, or None. */
  datatype Decoded = Decoded(server: Option<nat>, ca: string, token: BootstrapToken)

  /** The encoding of a join token (gzip, base64, kubeconfig), and its parser. */
  datatype Codec = Codec(encode: (nat, string, BootstrapToken) -> Option<string>, decode: string -> Option<Decoded>)

  ghost predicate Lawful(c: Codec) {
    forall server, ca, t :: c.encode(server, ca, t).Some? && ValidID(t.id) ==>
      c.encode(server, ca, t).value != "" && c.decode(c.encode(server, ca, t).value) == Some(Decoded(Some(server), ca, t))
  }

  /** The Secret that backs a token in the workload cluster. */
  datatype TokenSecret = TokenSecret(joinOnly: bool, secret: string, expires: Option<nat>)

  /** The management Secret: the ID annotation ("" when absent), the encoded token ("" when
      absent) and the resourceVersion. */
  datatype Slot = Slot(rv: nat, annotatedID: string, token: string)

  /** A Machine whose KairosConfig has the join role. tokenID is the annotation its KairosConfig
      was created with, "" for none. */
  datatype Joiner = Joiner(name: string, created: nat, tokenID: string, joined: bool, deleting: bool, removed: bool)

  predicate Pending(m: Joiner) {
    !m.deleting && !m.joined
  }

  /** The Machine is still joining. */
  ghost predicate Joining(m: Joiner) {
    !m.joined && !m.deleting
  }

  /** The token IDs the Machines of a list were admitted with. */
  ghost predicate Bound(ids: set<string>, view: seq<Joiner>) {
    forall id :: id in ids <==> id != "" && exists m | m in view :: m.tokenID == id
  }

  /** Every token of the list was generated, or given to a Machine. */
  predicate Known(view: seq<Joiner>, issued: set<string>) {
    forall m | m in view && m.tokenID != "" :: m.tokenID in issued
  }

  /** No two Machines were admitted with the same token. */
  ghost predicate Unique(machines: map<string, Joiner>) {
    forall a, b | a in machines && b in machines && machines[a].tokenID != "" && machines[a].tokenID == machines[b].tokenID :: a == b
  }

  ghost predicate Carried(machines: map<string, Joiner>, id: string) {
    exists k | k in machines :: machines[k].tokenID == id
  }

  /** The tokens that Machines still join with and that are not there. */
  ghost function Missing(machines: map<string, Joiner>, tokens: map<string, TokenSecret>): set<string> {
    set k | k in machines && Joining(machines[k]) && machines[k].tokenID != "" && machines[k].tokenID !in tokens :: machines[k].tokenID
  }

  /** The list shows every Machine, however far behind it is on how far each has come. */
  ghost predicate Complete(view: seq<Joiner>, machines: map<string, Joiner>) {
    forall k | k in machines ::
      exists m | m in view :: m.name == k && m.tokenID == machines[k].tokenID && (Joining(machines[k]) ==> Joining(m))
  }

  /** The list shows no joiner as done with a token that a Machine still joins with, unless it
      also shows one joining with it. */
  ghost predicate Spares(view: seq<Joiner>, machines: map<string, Joiner>) {
    forall k | k in machines && Joining(machines[k]) && machines[k].tokenID != "" ::
      (exists m | m in view :: PendingWith(m, machines[k].tokenID)) ||
      (forall m | m in view :: m.tokenID == machines[k].tokenID ==> Joining(m))
  }

  // ---- the token in the slot ----

  /** The issued token is there, is this one, is a controller-join token only, and has half an hour
      to live. */
  ghost predicate Alive(tokens: map<string, TokenSecret>, t: BootstrapToken, now: nat) {
    && t.id in tokens && tokens[t.id].joinOnly && tokens[t.id].secret == t.secret
    && tokens[t.id].expires.Some? && tokens[t.id].expires.value >= now + HALF_AN_HOUR
  }

  /** A joiner can use it: it lives, and points at a live member under the cluster's CA. */
  ghost predicate Good(tokens: map<string, TokenSecret>, d: Decoded, ca: string, live: seq<nat>, now: nat) {
    Alive(tokens, d.token, now) && d.server.Some? && d.server.value in live && d.ca == ca
  }

  /** checkIssuedK0sJoinToken. */
  method CheckIssued(ws: Option<TokenSecret>, stored: Decoded, ca: string, live: seq<nat>, now: nat) returns (ok: bool)
    ensures ok <==>
              && ws.Some? && ws.value.joinOnly && ws.value.secret == stored.token.secret
              && ws.value.expires.Some? && ws.value.expires.value >= now + 1_800_000_000_000
              && stored.server.Some? && stored.server.value in live && stored.ca == ca
  {
    if ws.None? {
      return false;
    }
    if !ws.value.joinOnly {
      return false;
    }
    if ws.value.secret != stored.token.secret {
      return false;
    }
    if ws.value.expires.None? {
      return false;
    }
    if ws.value.expires.value - now < RENEW_WITHIN {
      return false;
    }
    if stored.server.None? || stored.server.value !in live {
      return false;
    }
    return stored.ca == ca;
  }

  /** The slot's token may go to the joiner at hand: it is the controller's own, no Machine of
      the list has it, and it is still good. */
  ghost predicate Reusable(codec: Codec, view: seq<Joiner>, slot: Slot, tokens: map<string, TokenSecret>, ca: string, live: seq<nat>, now: nat) {
    slot.token != "" &&
    var d := codec.decode(slot.token);
    && d.Some? && slot.annotatedID != "" && d.value.token.id == slot.annotatedID
    && (forall m | m in view :: m.tokenID != slot.annotatedID)
    && Good(tokens, d.value, ca, live, now)
  }

  /** The slot holds exactly the token of that ID, and a joiner can use it. */
  ghost predicate Ready(codec: Codec, slot: Slot, id: string, tokens: map<string, TokenSecret>, ca: string, live: seq<nat>, now: nat) {
    && slot.annotatedID == id && codec.decode(slot.token).Some?
    && codec.decode(slot.token).value.token.id == id
    && Good(tokens, codec.decode(slot.token).value, ca, live, now)
  }

  /** supersededIDs: what a mint over this slot replaces. */
  function Superseded(codec: Codec, slot: Slot): seq<string> {
    var d := if slot.token == "" then None else codec.decode(slot.token);
    (if slot.annotatedID != "" then [slot.annotatedID] else []) +
    (if d.Some? && d.value.token.id != slot.annotatedID then [d.value.token.id] else [])
  }

  /** They are the token the Secret is annotated with, and the one it holds. */
  lemma SupersededIs(codec: Codec, slot: Slot, id: string)
    requires id != ""
    ensures id in Superseded(codec, slot) <==>
            id == slot.annotatedID || (slot.token != "" && codec.decode(slot.token).Some? && codec.decode(slot.token).value.token.id == id)
  {
  }

  /** The tokens outside `ids` are the same. */
  ghost predicate SameBut(a: map<string, TokenSecret>, b: map<string, TokenSecret>, ids: set<string>) {
    forall id | id !in ids :: (id in a <==> id in b) && (id in a ==> a[id] == b[id])
  }

  /** There is no token of that ID for this controller to delete. */
  ghost predicate Gone(tokens: map<string, TokenSecret>, id: string) {
    || |id| != 6 || !(forall c | c in id :: 'a' <= c <= 'z' || '0' <= c <= '9')
    || id !in tokens || !tokens[id].joinOnly
  }

  /** What an admission waits for without anything having failed. */
  ghost predicate Waits(view: seq<Joiner>, slotView: Option<Slot>, ca: Option<string>, live: Option<seq<nat>>,
                        pin: string, seen: Option<string>, again: Option<string>)
  {
    || (exists m | m in view :: Joining(m)) || slotView.None? || ca.None? || live.GetOr([]) == []
    || (pin != "" && (seen.None? || again.None?))
  }

  datatype Verdict = Verified | Changed | NoAnswer

  /** Why a pass produces no ID. */
  datatype Issue = Issued(id: string) | Held | Refused

  class JoinTokens {
    var frozen: bool
    var pin: string
    var slot: Slot
    var tokens: map<string, TokenSecret>   // in the workload cluster, by ID
    var machines: map<string, Joiner>      // the Machines that exist
    var issued: set<string>                // every ID ever generated, or given to a Machine
    ghost var trouble: bool                // some call reported a failure
    ghost var stale: bool                  // some read of the Secret at the end of a token was out of date
    ghost var leaked: bool                 // a create took effect unnoticed, or what it made could not be taken back
    ghost var lapsed: set<string>          // the tokens somebody else deleted
    ghost var misled: bool                 // some list read missed a Machine, or showed one as done that was not
    ghost var missed: bool                 // some admission's list missed a Machine
    ghost var shared: bool                 // some admission met a token in the Secret that a Machine it did not see carries

    /** Every Machine's token was generated. */
    ghost predicate Valid()
      reads this
    {
      (forall k | k in machines :: machines[k].name == k && (machines[k].tokenID != "" ==> machines[k].tokenID in issued))
    }

    /** The snapshot of the Secret is one of it: the same revision is the same Secret. */
    predicate SlotView(s: Slot)
      reads this
    {
      s.rv <= slot.rv && (s.rv == slot.rv ==> s == slot)
    }

    constructor (pin: string)
      ensures Valid() && machines == map[] && !frozen && lapsed == {} && !misled && !missed && !shared
    {
      frozen, this.pin, slot, tokens, machines, issued, trouble, lapsed := false, pin, Slot(0, "", ""), map[], map[], {}, false, {};
      misled, missed, shared, stale, leaked := false, false, false, false, false;
    }

    /** verifyWorkloadIdentity on the answer `seen`, None when the read failed. */
    method Verify(seen: Option<string>) returns (v: Verdict)
      modifies `frozen, `trouble
      ensures (old(trouble) ==> trouble) && (v == Changed && !frozen ==> trouble) && (v != Changed ==> trouble == old(trouble))
      ensures v == if old(frozen) || (pin != "" && seen.Some? && seen.value != pin) then Changed
                   else if pin != "" && seen.None? then NoAnswer else Verified
      ensures (v != Changed ==> !frozen) && (old(frozen) ==> frozen)
    {
      if frozen {
        return Changed;
      }
      if pin == "" {
        return Verified;
      }
      if seen.None? {
        return NoAnswer;
      }
      if seen.value != pin {
        frozen := *;
        trouble := trouble || !frozen;
        return Changed;
      }
      return Verified;
    }

    /** deleteK0sJoinToken: only a controller-join token is ever deleted. */
    method DeleteToken(id: string) returns (gone: bool)
      modifies `tokens, `trouble
      ensures trouble == (old(trouble) || !gone)
      ensures tokens == old(tokens) || (tokens == old(tokens) - {id} && id in old(tokens) && old(tokens)[id].joinOnly)
      ensures tokens != old(tokens) ==> ValidID(id)
      ensures gone ==> Gone(tokens, id)
    {
      if !ValidID(id) {
        return true;
      }
      var reached: bool := *;
      if !reached {
        trouble := true;
        return false;
      }
      if id !in tokens || !tokens[id].joinOnly {
        return true;
      }
      gone := *;
      if gone {
        tokens := tokens - {id};
      } else {
        trouble := true;
        var applied: bool := *;
        if applied {
          tokens := tokens - {id};
        }
      }
    }

    /** mintK0sControllerJoinToken: the token first, then, in one write pinned to the revision
        read, its encoding and its ID. A store that fails takes the token back, best effort. */
    method Mint(codec: Codec, slotView: Slot, ca: string, server: nat, tok: BootstrapToken, now: nat)
      returns (ok: bool, slot': Slot)
      requires Lawful(codec) && ValidID(tok.id) && tok.id !in issued && SlotView(slotView)
      modifies `tokens, `slot, `issued, `trouble, `leaked
      ensures (old(leaked) ==> leaked) && (!ok && !leaked ==> tokens == old(tokens))
      ensures issued == old(issued) + {tok.id} && trouble == (old(trouble) || !ok)
      ensures tokens == old(tokens) || (tok.id !in old(tokens) && tokens.Keys == old(tokens).Keys + {tok.id} && SameBut(old(tokens), tokens, {tok.id}))
      ensures slot == old(slot) || (slot.annotatedID == tok.id && slotView == old(slot) && slot.rv == old(slot).rv + 1)
      ensures ok ==> slot' == slot && Ready(codec, slot, tok.id, tokens, ca, [server], now)
      ensures ok ==> now + AN_HOUR < tokens[tok.id].expires.value + 1_000_000_000 && tokens[tok.id].expires.value <= now + AN_HOUR
    {
      issued := issued + {tok.id};
      slot' := slotView;
      ok := *;
      var applied: bool := *;
      if tok.id in tokens || !(ok || applied) {
        trouble := true;
        return false, slot';
      }
      ghost var before := tokens;
      tokens := tokens[tok.id := TokenSecret(true, tok.secret, Some(Minted(now)))];
      TruncBounds(now + TTL);
      if !ok {
        trouble, leaked := true, true;
        return false, slot';
      }
      var encoded := codec.encode(server, ca, tok);
      ok, applied := *, *;
      if encoded.None? || slotView.rv != slot.rv {
        ok, applied := false, false;
      }
      if ok || applied {
        slot := Slot(slot.rv + 1, tok.id, encoded.value);
      }
      if ok {
        slot' := slot;
      } else {
        trouble := true;
        var _ := TakeBack(tok.id);
        assert tokens - {tok.id} == before - {tok.id} == before;
      }
    }

    /** deleteK0sJoinTokenSecretBestEffort, of a Secret just created. */
    method TakeBack(id: string) returns (gone: bool)
      modifies `tokens, `leaked
      ensures leaked == (old(leaked) || !gone)
      ensures gone ==> tokens == old(tokens) - {id}
      ensures tokens == old(tokens) || tokens == old(tokens) - {id}
    {
      gone := *;
      if gone {
        tokens := tokens - {id};
      }
      leaked := leaked || !gone;
    }

    /** The tokens a mint replaced are deleted, best effort. */
    method DeleteSuperseded(ids: seq<string>, id: string)
      modifies `tokens, `trouble
      ensures tokens.Keys <= old(tokens).Keys && SameBut(old(tokens), tokens, set x | x in ids && x != id)
      ensures (old(trouble) ==> trouble) && (!trouble ==> forall x | x in ids && x != id :: Gone(tokens, x))
    {
      for i := 0 to |ids|
        invariant tokens.Keys <= old(tokens).Keys && SameBut(old(tokens), tokens, set x | x in ids && x != id)
        invariant (old(trouble) ==> trouble) && (!trouble ==> forall x | x in ids[..i] && x != id :: Gone(tokens, x))
      {
        assert ids[..i + 1] == ids[..i] + [ids[i]];
        if ids[i] != id {
          var _ := DeleteToken(ids[i]);
        }
      }
    }

    /** No joiner of the list is pending. */
    method NonePending(view: seq<Joiner>) returns (none: bool, bound: set<string>)
      ensures none <==> forall m | m in view :: m.joined || m.deleting
      ensures none ==> Bound(bound, view)
    {
      bound := {};
      for i := 0 to |view|
        invariant forall j | 0 <= j < i :: !Joining(view[j])
        invariant Bound(bound, view[..i])
      {
        assert view[..i + 1] == view[..i] + [view[i]];
        if Pending(view[i]) {
          assert view[i] in view;
          return false, bound;
        }
        if view[i].tokenID != "" {
          bound := bound + {view[i].tokenID};
        }
      }
      assert view[..|view|] == view;
      return true, bound;
    }

    /** Whether the slot's token is reused; None when it cannot be read back. */
    method TryReuse(codec: Codec, bound: set<string>, slotView: Slot, ca: string, live: seq<nat>, now: nat, view: seq<Joiner>)
      returns (reuse: Option<bool>)
      requires Bound(bound, view)
      modifies `trouble
      ensures reuse.Some? ==> (reuse.value <==> Reusable(codec, view, slotView, tokens, ca, live, now))
      ensures trouble == (old(trouble) || reuse.None?)
    {
      if slotView.token == "" {
        return Some(false);
      }
      var d := codec.decode(slotView.token);
      if d.None? || slotView.annotatedID == "" || d.value.token.id != slotView.annotatedID || slotView.annotatedID in bound {
        return Some(false);
      }
      var reached: bool := *;
      if !reached {
        trouble := true;
        return None;
      }
      var id := d.value.token.id;
      var good := CheckIssued(if id in tokens then Some(tokens[id]) else None, d.value, ca, live, now);
      reuse := Some(good);
    }

    /** A new token for the joiner at hand, stored and, if the cluster is still the pinned one,
        handed out; the tokens it replaces go. */
    method IssueNew(codec: Codec, slotView: Slot, ca: string, server: nat, tok: BootstrapToken, again: Option<string>, now: nat)
      returns (r: Issue, slot': Slot)
      requires Lawful(codec) && ValidID(tok.id) && tok.id !in issued && SlotView(slotView) && !frozen
      modifies `tokens, `slot, `issued, `frozen, `trouble, `leaked
      ensures issued == old(issued) + {tok.id} && (old(trouble) ==> trouble)
      ensures r.Held? && !trouble ==> pin != "" && again.None?
      ensures r.Refused? && !trouble ==> frozen && Gone(tokens, tok.id)
      ensures old(leaked) ==> leaked
      ensures r.Issued? && !trouble ==> forall x | x in Superseded(codec, slotView) && x != tok.id :: Gone(tokens, x)
      ensures SameBut(old(tokens), tokens, {tok.id} + set x | x in Superseded(codec, slotView))
      ensures tokens.Keys <= old(tokens).Keys + {tok.id}
      ensures slot == old(slot) || (slot.annotatedID == tok.id && slotView == old(slot))
      ensures r.Issued? ==> r.id == tok.id && Ready(codec, slot', tok.id, tokens, ca, [server], now) && slot' == slot
      ensures r.Issued? ==> !frozen && (pin == "" || again == Some(pin))
    {
      var ok;
      ok, slot' := Mint(codec, slotView, ca, server, tok, now);
      if !ok {
        return Held, slot';
      }
      var v := Verify(again);
      if v == Changed {
        var _ := DeleteToken(tok.id);
        return Refused, slot';
      }
      if v == NoAnswer {
        return Held, slot';
      }
      DeleteSuperseded(Superseded(codec, slotView), tok.id);
      return Issued(tok.id), slot';
    }

    /** ensureK0sControllerJoinToken. An ID is handed out only with no freeze, no pending joiner,
        and the pinned cluster answering; no Machine of the list has it; and its token is in the
        Secret and good. While a joiner of the list is pending no token changes at all, and at
        other times only the new one and those it replaces do. */
    method EnsureToken(codec: Codec, view: Option<seq<Joiner>>, slotView: Option<Slot>, ca: Option<string>, seen: Option<string>,
                       again: Option<string>, live: Option<seq<nat>>, tok: BootstrapToken, now: nat)
      returns (r: Issue, ghost slot': Slot)
      requires Lawful(codec) && ValidID(tok.id) && tok.id !in issued
      requires slotView.Some? ==> SlotView(slotView.value)
      requires view.Some? ==> Known(view.value, issued)
      modifies `tokens, `slot, `issued, `frozen, `trouble, `leaked
      ensures old(frozen) ==> r == Refused && frozen
      ensures r.Refused? && issued != old(issued) && !trouble ==> Gone(tokens, tok.id)
      ensures (old(trouble) ==> trouble) && (r.Refused? && !trouble ==> frozen || view.None?)
      ensures r.Held? && !trouble ==> view.Some? && Waits(view.value, slotView, ca, live, pin, seen, again)
      ensures r.Issued? && !trouble && r.id == tok.id && slotView.Some? ==> forall x | x in Superseded(codec, slotView.value) && x != tok.id :: Gone(tokens, x)
      ensures old(frozen) || slotView.None? || view.None? || (exists m | m in view.value :: !m.joined && !m.deleting) || (pin != "" && seen != Some(pin)) ==>
                !r.Issued? && tokens == old(tokens) && slot == old(slot) && issued == old(issued)
      ensures slotView.Some? ==>
                && SameBut(old(tokens), tokens, {tok.id} + set x | x in Superseded(codec, slotView.value))
                && (slot == old(slot) || (slot.annotatedID == tok.id && slotView.value == old(slot)))
      ensures issued == old(issued) || issued == old(issued) + {tok.id}
      ensures r.Issued? ==>
                && view.Some? && slotView.Some? && ca.Some? && live.Some?
                && !frozen && r.id != "" && (forall m | m in view.value :: m.tokenID != r.id) && Ready(codec, slot', r.id, tokens, ca.value, live.value, now)
      ensures r.Issued? ==> r.id == Choice(codec, view.value, slotView.value, old(tokens), ca.value, live.value, tok, now)
      ensures r.Issued? ==>
                || (tokens == old(tokens) && slot == old(slot) && issued == old(issued))
                || (r.id == tok.id && issued == old(issued) + {tok.id} && (pin == "" || again == Some(pin)))
    {
      slot' := slot;
      if frozen {
        return Refused, slot';
      }
      if view.None? {
        return Refused, slot';
      }
      var none, bound := NonePending(view.value);
      if !none || slotView.None? || ca.None? {
        return Held, slot';
      }
      var v := Verify(seen);
      if v != Verified {
        return if v == Changed then Refused else Held, slot';
      }
      if live.None? || |live.value| == 0 {
        return Held, slot';
      }
      var reuse := TryReuse(codec, bound, slotView.value, ca.value, live.value, now, view.value);
      if reuse.None? {
        return Held, slot';
      }
      if reuse.value {
        return Issued(slotView.value.annotatedID), slotView.value;
      }
      r, slot' := IssueNew(codec, slotView.value, ca.value, live.value[0], tok, again, now);
    }

    /** createControlPlaneMachine, as far as the token goes: a KairosConfig stamped with the ID and
        its Machine, or, when a write fails, neither Machine nor trace of one. */
    method CreateJoiner(name: string, id: string, now: nat) returns (ok: bool)
      requires Valid() && name !in machines && id != ""
      modifies `machines, `issued, `trouble
      ensures (old(trouble) ==> trouble) && (!ok && !frozen ==> trouble)
      ensures machines == old(machines) || machines == old(machines)[name := Admitted(name, id, now)]
      ensures ok ==> machines != old(machines)
      ensures old(frozen) ==> machines == old(machines)
      ensures Valid() && old(issued) <= issued <= old(issued) + {id}
    {
      if frozen {
        return false;
      }
      ok := *;
      var applied: bool := *;
      if ok || applied {
        machines := machines[name := Admitted(name, id, now)];
        issued := issued + {id};
        assert machines[name].tokenID == id;
      }
      trouble := trouble || !ok;
    }

    /** One admission: the token, then the Machine. Whatever fails and however stale the snapshots
        are, the tokens of the Machines stay apart, unless the token in the Secret is reused although
        a Machine that the list read does not have carries it. From a list that has every Machine, no
        token that one still joins with is lost. */
    method AdmitJoiner(codec: Codec, view: Option<seq<Joiner>>, slotView: Option<Slot>, ca: Option<string>, seen: Option<string>,
                       again: Option<string>, live: Option<seq<nat>>, tok: BootstrapToken, name: string, now: nat)
      returns (ok: bool)
      requires Valid() && Lawful(codec) && ValidID(tok.id) && tok.id !in issued && name !in machines
      requires slotView.Some? ==> SlotView(slotView.value)
      requires view.Some? ==> Known(view.value, issued)
      modifies `tokens, `slot, `issued, `machines, `frozen, `trouble, `leaked
      ensures Valid() && old(issued) <= issued
      ensures machines != old(machines) ==>
                && view.Some? && slotView.Some? && ca.Some? && live.Some?
                && machines == old(machines)[name := Admitted(name, Choice(codec, view.value, slotView.value, old(tokens), ca.value, live.value, tok, now), now)]
      ensures machines != old(machines) && Unique(old(machines)) ==>
                (Unique(machines) <==> !(Reusable(codec, view.value, slotView.value, old(tokens), ca.value, live.value, now) &&
                                         Carried(old(machines), slotView.value.annotatedID)))
      ensures old(frozen) || view.None? ==> machines == old(machines) && tokens == old(tokens) && slot == old(slot)
      ensures !ok && !trouble ==> frozen || view.None? || Waits(view.value, slotView, ca, live, pin, seen, again)
      ensures ok ==> name in machines && machines != old(machines)
      ensures machines != old(machines) ==>
                && machines.Keys == old(machines).Keys + {name} && (forall k | k in old(machines) :: machines[k] == old(machines)[k])
                && Joining(machines[name]) && machines[name].tokenID != ""
      ensures view.Some? && Complete(view.value, old(machines)) && Unique(old(machines)) ==> Unique(machines)
      ensures (view.Some? ==> Complete(view.value, old(machines))) ==> Missing(machines, tokens) <= Missing(old(machines), old(tokens))
    {
      ghost var had, drawn, before := tokens, issued, machines;
      var r, _ := EnsureToken(codec, view, slotView, ca, seen, again, live, tok, now);
      ok := false;
      if r.Issued? {
        ok := CreateJoiner(name, r.id, now);
        AdmissionUnique(codec, view.value, slotView.value, had, ca.value, live.value, tok, now, before, machines, drawn, name);
      }
      if view.Some? {
        AdmissionMisses(view.value, before, machines, had, tokens, name, if r.Issued? then r.id else "", now);
      }
    }

    // ---- maintenance ----

    /** removeK0sJoinToken: the token, then the Secret if it still holds it, then the mark, which
        is set only if nothing before it failed. */
    method RemoveToken(m: Joiner)
      requires Valid()
      modifies `tokens, `slot, `machines, `trouble, `stale
      ensures (old(stale) ==> stale) && (!trouble && !stale && m.tokenID != "" ==> slot.annotatedID != m.tokenID)
      ensures Valid() && OnlyMarked(old(machines), machines, m.name)
      ensures tokens == old(tokens) || tokens == old(tokens) - {m.tokenID}
      ensures (old(trouble) ==> trouble) && (!trouble ==> Gone(tokens, m.tokenID) && (m.name in machines ==> machines[m.name].removed))
      ensures slot == old(slot) || (old(slot).annotatedID == m.tokenID && slot.annotatedID == "" && slot.token == "")
      ensures machines != old(machines) ==> Gone(tokens, m.tokenID) && trouble == old(trouble)
    {
      var gone := DeleteToken(m.tokenID);
      if !gone {
        return;
      }
      var ok := ClearSlot(m.tokenID);
      if ok {
        MarkRemoved(m.name);
      }
    }

    /** The mark on a joiner's KairosConfig; the patch may fail. */
    method MarkRemoved(name: string)
      requires Valid()
      modifies `machines, `trouble
      ensures Valid() && OnlyMarked(old(machines), machines, name)
      ensures (old(trouble) ==> trouble) && (!trouble ==> name in machines ==> machines[name].removed)
      ensures machines != old(machines) ==> trouble == old(trouble)
    {
      var marked: bool := *;
      if marked && name in machines {
        machines := machines[name := machines[name].(removed := true)];
      }
      trouble := trouble || !marked;
    }

    /** The Secret is cleared if the snapshot of it still holds the token. */
    method ClearSlot(id: string) returns (ok: bool)
      modifies `slot, `trouble, `stale
      ensures (old(stale) ==> stale) && (ok && !stale && id != "" ==> slot.annotatedID != id)
      ensures slot == old(slot) || (old(slot).annotatedID == id && slot.annotatedID == "" && slot.token == "")
      ensures trouble == (old(trouble) || !ok)
    {
      ok := *;
      var read: Slot := *;
      if read.rv >= slot.rv {
        read := slot;
      }
      stale := stale || read != slot;
      if ok && read.annotatedID == id {
        ok := *;
        var applied: bool := *;
        if read.rv != slot.rv {
          ok := false;
        } else if ok || applied {
          slot := Slot(slot.rv + 1, "", "");
        }
      }
      trouble := trouble || !ok;
    }

    /** The newest creation among the joiners of a token. */
    method NewestOf(joiners: seq<Joiner>) returns (newest: nat)
      ensures newest == Newest(joiners)
    {
      newest := 0;
      for i := 0 to |joiners|
        invariant newest == Newest(joiners[..i])
      {
        assert joiners[..i + 1][..i] == joiners[..i];
        if joiners[i].created > newest {
          newest := joiners[i].created;
        }
      }
      assert joiners[..|joiners|] == joiners;
    }

    /** extendK0sJoinToken. */
    method ExtendToken(id: string, joiners: seq<Joiner>, now: nat)
      modifies `tokens, `trouble
      ensures (old(trouble) ==> trouble) && (!trouble && id in tokens && id in old(tokens) && !Gone(tokens, id) ==> tokens[id] == Extended(old(tokens)[id], joiners, now))
      ensures tokens == old(tokens) || (ValidID(id) && id in old(tokens) && tokens == old(tokens)[id := Extended(old(tokens)[id], joiners, now)])
    {
      var newest := NewestOf(joiners);
      if !ValidID(id) {
        return;
      }
      var reached: bool := *;
      if !reached {
        trouble := true;
        return;
      }
      if id !in tokens || !tokens[id].joinOnly {
        return;
      }
      if now - newest >= EXTEND_CAP {
        return;
      }
      var t := tokens[id];
      if t.expires.None? || t.expires.value - now >= RENEW_WITHIN {
        return;
      }
      var applied: bool := *;
      if applied {
        tokens := tokens[id := t.(expires := Some(Trunc(now + TTL)))];
      }
      trouble := trouble || !applied;
    }

    /** The joiners of a list that are still joining with a token, by token, and those that are
        done with one that was not removed yet. */
    method Classify(view: seq<Joiner>) returns (pending: map<string, seq<Joiner>>, done: seq<Joiner>)
      ensures pending == PendingBy(view) && done == DoneOf(view)
    {
      pending, done := map[], [];
      for i := 0 to |view|
        invariant pending == PendingBy(view[..i]) && done == DoneOf(view[..i])
      {
        assert view[..i + 1][..i] == view[..i];
        var m := view[i];
        if Pending(m) && m.tokenID == "" {
        } else if Pending(m) {
          pending := pending[m.tokenID := (if m.tokenID in pending then pending[m.tokenID] else []) + [m]];
        } else if m.tokenID != "" && !m.removed {
          done := done + [m];
        }
      }
      assert view[..|view|] == view;
    }

    /** The tokens of joiners that are done go, unless a pending one has the same. */
    method RemoveDone(done: seq<Joiner>, inUse: set<string>)
      requires Valid() && forall m | m in done :: m.tokenID != ""
      modifies `tokens, `slot, `machines, `trouble, `stale
      ensures (old(stale) ==> stale) && (!trouble && !stale ==> forall m | m in done && m.tokenID !in inUse :: slot.annotatedID != m.tokenID)
      ensures (old(trouble) ==> trouble) && (!trouble ==> forall m | m in done && m.tokenID !in inUse :: Gone(tokens, m.tokenID))
      ensures Valid() && OnlyMarks(old(machines), machines)
      ensures tokens.Keys <= old(tokens).Keys && SameBut(old(tokens), tokens, IDsOf(done) - inUse)
      ensures forall id | id in tokens :: tokens[id] == old(tokens)[id]
      ensures slot == old(slot) || old(slot).annotatedID in IDsOf(done) - inUse || slot.annotatedID == slot.token == ""
      ensures old(slot).annotatedID !in IDsOf(done) - inUse ==> slot == old(slot)
    {
      for i := 0 to |done|
        invariant Valid() && OnlyMarks(old(machines), machines)
        invariant (old(stale) ==> stale) && (!trouble && !stale ==> forall m | m in done[..i] && m.tokenID !in inUse :: slot.annotatedID != m.tokenID)
        invariant (old(trouble) ==> trouble) && (!trouble ==> forall m | m in done[..i] && m.tokenID !in inUse :: Gone(tokens, m.tokenID))
        invariant tokens.Keys <= old(tokens).Keys && SameBut(old(tokens), tokens, IDsOf(done) - inUse)
        invariant forall id | id in tokens :: tokens[id] == old(tokens)[id]
        invariant slot == old(slot) || slot.annotatedID == slot.token == ""
        invariant old(slot).annotatedID !in IDsOf(done) - inUse ==> slot == old(slot)
      {
        if done[i].tokenID !in inUse {
          assert done[i].tokenID in IDsOf(done) && done[i] in done;
          RemoveToken(done[i]);
        }
      }
    }

    /** Every pending joiner's token is looked at once. */
    method ExtendAll(pending: map<string, seq<Joiner>>, now: nat)
      modifies `tokens, `trouble
      ensures (old(trouble) ==> trouble) && (!trouble ==> forall id | id in pending && id in tokens && id in old(tokens) && !Gone(tokens, id) ::
                 tokens[id] == Extended(old(tokens)[id], pending[id], now))
      ensures tokens.Keys == old(tokens).Keys && SameBut(old(tokens), tokens, pending.Keys)
      ensures forall id | id in pending && id in tokens :: tokens[id] == old(tokens)[id] || tokens[id] == Extended(old(tokens)[id], pending[id], now)
    {
      var left := pending.Keys;
      while left != {}
        invariant (old(trouble) ==> trouble) && (!trouble ==> forall id | id in pending && id in tokens && id in old(tokens) && id !in left && !Gone(tokens, id) ::
                     tokens[id] == Extended(old(tokens)[id], pending[id], now))
        invariant left <= pending.Keys && tokens.Keys == old(tokens).Keys && SameBut(old(tokens), tokens, pending.Keys - left)
        invariant forall id | id in pending && id in tokens && id !in left ::
                    tokens[id] == old(tokens)[id] || tokens[id] == Extended(old(tokens)[id], pending[id], now)
        decreases |left|
      {
        var id :| id in left;
        ExtendToken(id, pending[id], now);
        left := left - {id};
      }
    }

    /** The done joiners' tokens go, then the pending ones' are extended. */
    method Tend(ghost view: seq<Joiner>, pending: map<string, seq<Joiner>>, done: seq<Joiner>, now: nat)
      requires Valid() && pending == PendingBy(view) && done == DoneOf(view)
      modifies `tokens, `slot, `machines, `trouble, `stale
      ensures (old(stale) ==> stale) && (!trouble && !stale ==> SlotCleared(slot, view))
      ensures Valid() && OnlyMarks(old(machines), machines) && (old(trouble) ==> trouble)
      ensures Tended(old(tokens), tokens, view, now) && (!trouble ==> AllTended(old(tokens), tokens, view, now))
      ensures old(slot).annotatedID !in IDsOf(DoneOf(view)) - PendingBy(view).Keys ==> slot == old(slot)
    {
      forall m | m in done
        ensures m.tokenID != ""
      {
        DoneOfIsExact(view, m);
      }
      RemoveDone(done, pending.Keys);
      ExtendAll(pending, now);
      ClearedIsCleared(slot, view);
    }

    /** The joiners were listed: nothing changes unless there is a token to look after and the cluster
        is verified. */
    method MaintainListed(view: seq<Joiner>, seen: Option<string>, now: nat) returns (again: bool)
      requires Valid() && !frozen
      modifies `tokens, `slot, `machines, `frozen, `trouble, `stale
      ensures (old(stale) ==> stale) && (!trouble && !stale && (pin == "" || seen == Some(pin)) ==> SlotCleared(slot, view))
      ensures Valid() && OnlyMarks(old(machines), machines) && (old(trouble) ==> trouble)
      ensures !trouble && (pin == "" || seen == Some(pin)) ==> AllTended(old(tokens), tokens, view, now)
      ensures pin != "" && seen != Some(pin) ==> tokens == old(tokens) && slot == old(slot) && machines == old(machines)
      ensures Tended(old(tokens), tokens, view, now)
      ensures old(slot).annotatedID !in IDsOf(DoneOf(view)) - PendingBy(view).Keys ==> slot == old(slot)
      ensures again <==> |PendingBy(view).Keys| > 0
    {
      var pending, done := Classify(view);
      again := |pending.Keys| > 0;
      ClearedIsCleared(slot, view);
      if again || |done| > 0 {
        var reached: bool := *;
        if !reached {
          trouble := true;
        } else {
          var v := Verify(seen);
          if v == Verified {
            Tend(view, pending, done, now);
          }
        }
      }
    }

    /** reconcileK0sJoinTokenLifetime. Frozen, or with the cluster not verified, nothing changes
        but the freeze. No token a pending joiner of the list has is deleted or replaced: it is
        left as it is or extended. Only tokens of joiners that are done, and of no pending one, are
        deleted or cleared from the Secret, and every other token stays as it is. Where nothing
        fails, all of them are, and every one that runs out is extended while its joiner is under a
        day old. */
    method Maintain(view: Option<seq<Joiner>>, seen: Option<string>, now: nat) returns (again: bool)
      requires Valid()
      modifies `tokens, `slot, `machines, `frozen, `trouble, `stale
      ensures Valid() && OnlyMarks(old(machines), machines) && (old(trouble) ==> trouble) && (old(frozen) ==> frozen)
      ensures old(frozen) || view.None? || (pin != "" && seen != Some(pin)) ==>
                tokens == old(tokens) && slot == old(slot) && machines == old(machines)
      ensures view.Some? ==> Tended(old(tokens), tokens, view.value, now) && Upheld(old(tokens), tokens, view.value, now)
      ensures !trouble && !old(frozen) && view.Some? && (pin == "" || seen == Some(pin)) ==>
                AllTended(old(tokens), tokens, view.value, now) && AllUpheld(old(tokens), tokens, view.value, now)
      ensures !trouble && !stale && !old(frozen) && view.Some? && (pin == "" || seen == Some(pin)) ==> SlotCleared(slot, view.value)
      ensures view.Some? && (forall m | m in view.value && m.tokenID == old(slot).annotatedID :: !m.joined && !m.deleting) ==> slot == old(slot)
      ensures !old(frozen) && (view.None? || exists m | m in view.value :: !m.joined && !m.deleting && m.tokenID != "") ==> again
      ensures (view.Some? ==> Spares(view.value, old(machines))) ==> Missing(machines, tokens) <= Missing(old(machines), old(tokens))
    {
      again := !frozen;
      if !frozen && view.Some? {
        again := MaintainListed(view.value, seen, now);
        SomeToKeep(view.value);
      }
      if view.Some? {
        TendedUpholds(old(tokens), tokens, view.value, now);
        SparedStay(view.value, old(machines), machines, old(tokens), tokens, now);
        SlotSpared(view.value, old(slot).annotatedID);
      }
    }

    /** Others let Machines join, leave or go, delete, change or add any token, and edit the Secret,
        the pin and the freeze. */
    method Disturb(machines: map<string, Joiner>, tokens: map<string, TokenSecret>, slot: Slot, pin: string, frozen: bool)
      requires Valid() && Onward(this.machines, machines)
      modifies this
      ensures Valid() && this.machines == machines && this.tokens == tokens && issued == old(issued)
      ensures misled == old(misled) && missed == old(missed) && shared == old(shared)
      ensures Unique(old(this.machines)) ==> Unique(machines)
      ensures lapsed == old(lapsed) + (old(this.tokens).Keys - tokens.Keys)
      ensures Missing(machines, tokens) <= Missing(old(this.machines), old(this.tokens)) + (old(this.tokens).Keys - tokens.Keys)
    {
      lapsed := lapsed + (this.tokens.Keys - tokens.Keys);
      this.machines, this.tokens, this.slot, this.pin, this.frozen := machines, tokens, slot, pin, frozen;
    }
  }

  /** What a pass over a list may do to the tokens. */
  ghost predicate Tended(a: map<string, TokenSecret>, b: map<string, TokenSecret>, view: seq<Joiner>, now: nat) {
    var pending, done := PendingBy(view), IDsOf(DoneOf(view));
    && b.Keys <= a.Keys && a.Keys - b.Keys <= done - pending.Keys
    && SameBut(a, b, pending.Keys + done) && (forall id | id in b && id !in pending :: b[id] == a[id])
    && (forall id | id in pending && id in a :: b[id] == a[id] || b[id] == Extended(a[id], pending[id], now))
  }

  /** What a pass in which nothing fails does to them. */
  ghost predicate AllTended(a: map<string, TokenSecret>, b: map<string, TokenSecret>, view: seq<Joiner>, now: nat) {
    var pending, done := PendingBy(view), IDsOf(DoneOf(view));
    && (forall id | id in pending && id in a && id in b && !Gone(b, id) :: b[id] == Extended(a[id], pending[id], now))
    && (forall id | id in done && id !in pending :: Gone(b, id))
  }

  /** What became of a token, by the joiners of a list. One that went is of a joiner that is done
      with it, and of none that is not; one that changed got an hour, has a joiner under a day old, and
      had less than half an hour left. */
  ghost predicate UpheldAt(a: map<string, TokenSecret>, b: map<string, TokenSecret>, view: seq<Joiner>, now: nat, id: string) {
    && (id in b ==> id in a)
    && (id in a && id !in b ==>
          && (exists m | m in view :: m.tokenID == id && (m.joined || m.deleting) && !m.removed)
          && (forall m | m in view && m.tokenID == id :: m.joined || m.deleting))
    && (id in a && id in b && b[id] != a[id] ==>
          && (exists m | m in view :: m.tokenID == id && !m.joined && !m.deleting && now < m.created + 86_400_000_000_000)
          && b[id].joinOnly == a[id].joinOnly && b[id].secret == a[id].secret
          && a[id].expires.Some? && a[id].expires.value < now + 1_800_000_000_000
          && b[id].expires.Some? && now + 3_599_000_000_000 < b[id].expires.value <= now + 3_600_000_000_000)
  }

  ghost predicate Upheld(a: map<string, TokenSecret>, b: map<string, TokenSecret>, view: seq<Joiner>, now: nat) {
    forall id :: UpheldAt(a, b, view, now, id)
  }

  /** And where nothing fails: a token goes whose joiners are all done with it, and one is extended
      that has a joiner under a day old and less than half an hour left. */
  ghost predicate AllUpheldOf(a: map<string, TokenSecret>, b: map<string, TokenSecret>, view: seq<Joiner>, now: nat, m: Joiner) {
    var id := m.tokenID;
    && (id != "" && (m.joined || m.deleting) && !m.removed ==> Gone(b, id) || exists x | x in view :: x.tokenID == id && !x.joined && !x.deleting)
    && (id != "" && !m.joined && !m.deleting && now < m.created + 86_400_000_000_000 && id in a && !Gone(a, id) &&
        a[id].expires.Some? && a[id].expires.value < now + 1_800_000_000_000 ==>
          id in b && b[id].expires.Some? && now + 3_599_000_000_000 < b[id].expires.value)
  }

  ghost predicate AllUpheld(a: map<string, TokenSecret>, b: map<string, TokenSecret>, view: seq<Joiner>, now: nat) {
    forall m | m in view :: AllUpheldOf(a, b, view, now, m)
  }

  lemma {:induction false} NewestIsOne(joiners: seq<Joiner>) returns (m: Joiner)
    requires joiners != []
    ensures m in joiners && m.created == Newest(joiners)
  {
    var init := joiners[..|joiners| - 1];
    m := joiners[|joiners| - 1];
    assert joiners == init + [m];
    if init != [] {
      var x := NewestIsOne(init);
      m := if x.created >= m.created then x else m;
    }
  }

  lemma TendedAt(a: map<string, TokenSecret>, b: map<string, TokenSecret>, view: seq<Joiner>, now: nat, id: string)
    requires Tended(a, b, view, now)
    ensures UpheldAt(a, b, view, now, id)
  {
    var pending := PendingBy(view);
    PendingByIsExact(view, id);
    if id in a && id !in b {
      assert id in a.Keys - b.Keys;
      var m :| m in DoneOf(view) && m.tokenID == id;
      DoneOfIsExact(view, m);
      forall x | x in view && x.tokenID == id
        ensures !PendingWith(x, id)
      {
      }
    } else if id in a && id in b && b[id] != a[id] {
      var x :| x in view && PendingWith(x, id);
      assert x in pending[id];
      var m := NewestIsOne(pending[id]);
      TruncBounds(now + TTL);
    }
  }

  lemma AllTendedOf(a: map<string, TokenSecret>, b: map<string, TokenSecret>, view: seq<Joiner>, now: nat, m: Joiner)
    requires Tended(a, b, view, now) && AllTended(a, b, view, now) && m in view
    ensures AllUpheldOf(a, b, view, now, m)
  {
    var id, pending := m.tokenID, PendingBy(view);
    PendingByIsExact(view, id);
    DoneOfIsExact(view, m);
    if id != "" && Joining(m) && id in a && !Gone(a, id) {
      assert PendingWith(m, id);
      assert id in b by {
        assert id !in a.Keys - b.Keys;
      }
      NewestIsNewer(pending[id], m);
      TruncBounds(now + TTL);
    }
  }

  lemma TendedUpholds(a: map<string, TokenSecret>, b: map<string, TokenSecret>, view: seq<Joiner>, now: nat)
    requires Tended(a, b, view, now)
    ensures Upheld(a, b, view, now)
    ensures AllTended(a, b, view, now) ==> AllUpheld(a, b, view, now)
  {
    forall id
      ensures UpheldAt(a, b, view, now, id)
    {
      TendedAt(a, b, view, now, id);
    }
    if AllTended(a, b, view, now) {
      forall m | m in view
        ensures AllUpheldOf(a, b, view, now, m)
      {
        AllTendedOf(a, b, view, now, m);
      }
    }
  }

  /** The Secret holds no token that a joiner of the list is done with, unless another joins with it. */
  ghost predicate SlotCleared(slot: Slot, view: seq<Joiner>) {
    forall m | m in view && m.tokenID == slot.annotatedID != "" && (m.joined || m.deleting) && !m.removed ::
      exists x | x in view :: x.tokenID == m.tokenID && !x.joined && !x.deleting
  }

  lemma ClearedIsCleared(slot: Slot, view: seq<Joiner>)
    ensures (forall m | m in DoneOf(view) && m.tokenID !in PendingBy(view) :: slot.annotatedID != m.tokenID) ==> SlotCleared(slot, view)
  {
    forall m | m in view && m.tokenID == slot.annotatedID != "" && (m.joined || m.deleting) && !m.removed
      ensures m in DoneOf(view)
      ensures m.tokenID in PendingBy(view) ==> exists x | x in view :: x.tokenID == m.tokenID && !x.joined && !x.deleting
    {
      DoneOfIsExact(view, m);
      PendingByIsExact(view, m.tokenID);
    }
  }

  lemma SlotSpared(view: seq<Joiner>, id: string)
    ensures (forall m | m in view && m.tokenID == id :: Joining(m)) ==> id !in IDsOf(DoneOf(view))
  {
    if id in IDsOf(DoneOf(view)) {
      var m :| m in DoneOf(view) && m.tokenID == id;
      DoneOfIsExact(view, m);
    }
  }

  lemma SomeToKeep(view: seq<Joiner>)
    ensures (exists m | m in view :: !m.joined && !m.deleting && m.tokenID != "") ==> |PendingBy(view).Keys| > 0
  {
    if m :| m in view && !m.joined && !m.deleting && m.tokenID != "" {
      assert PendingWith(m, m.tokenID);
      PendingByIsExact(view, m.tokenID);
      assert m.tokenID in PendingBy(view).Keys;
    }
  }

  /** The joiners that are done with a token that was not removed are exactly those of the list. */
  lemma {:induction false} DoneOfIsExact(view: seq<Joiner>, m: Joiner)
    ensures m in DoneOf(view) <==> m in view && !Joining(m) && m.tokenID != "" && !m.removed
  {
    if view != [] {
      var init := view[..|view| - 1];
      DoneOfIsExact(init, m);
      assert view == init + [view[|view| - 1]];
    }
  }

  /** Deleting only what joiners of the list are done with, and no pending one of it has, takes no
      token from a Machine the list spares. */
  lemma SparedStay(view: seq<Joiner>, a: map<string, Joiner>, b: map<string, Joiner>, before: map<string, TokenSecret>,
                   after: map<string, TokenSecret>, now: nat)
    requires OnlyMarks(a, b) && Tended(before, after, view, now)
    ensures Spares(view, a) ==> Missing(b, after) <= Missing(a, before)
  {
    if Spares(view, a) {
      forall id | id in Missing(b, after)
        ensures id in Missing(a, before)
      {
        var k :| k in b && Joining(b[k]) && b[k].tokenID == id != "" && id !in after;
        assert Joining(a[k]) && a[k].tokenID == id;
        if id in before {
          PendingByIsExact(view, id);
          assert id in before.Keys - after.Keys;
          var m :| m in DoneOf(view) && m.tokenID == id;
          DoneOfIsExact(view, m);
          assert false;
        }
      }
    }
  }

  function IDsOf(ms: seq<Joiner>): set<string> {
    set m | m in ms :: m.tokenID
  }

  function DoneOf(view: seq<Joiner>): seq<Joiner> {
    if view == [] then []
    else
      var m := view[|view| - 1];
      DoneOf(view[..|view| - 1]) + if !Pending(m) && m.tokenID != "" && !m.removed then [m] else []
  }

  function PendingBy(view: seq<Joiner>): map<string, seq<Joiner>> {
    if view == [] then map[]
    else
      var p, m := PendingBy(view[..|view| - 1]), view[|view| - 1];
      if Pending(m) && m.tokenID != "" then p[m.tokenID := (if m.tokenID in p then p[m.tokenID] else []) + [m]] else p
  }

  ghost predicate PendingWith(m: Joiner, id: string) {
    Joining(m) && m.tokenID == id != ""
  }

  /** The tokens a pass maintains are exactly those some pending joiner of the list has, each with
      exactly those joiners. */
  lemma {:induction false} PendingByIsExact(view: seq<Joiner>, id: string)
    ensures id in PendingBy(view) <==> exists m | m in view :: PendingWith(m, id)
    ensures id in PendingBy(view) ==> forall m :: m in PendingBy(view)[id] <==> m in view && PendingWith(m, id)
  {
    if view != [] {
      var init, m := view[..|view| - 1], view[|view| - 1];
      PendingByIsExact(init, id);
      assert view == init + [m] && m in view;
      if id in PendingBy(init) {
        var x :| x in init && PendingWith(x, id);
        assert x in view;
      }
    }
  }

  /** Joiners that only go away, or change in how far they are, keep their tokens apart. */
  lemma DeparturesKeepUnique(a: map<string, Joiner>, b: map<string, Joiner>)
    requires Unique(a) && b.Keys <= a.Keys && forall k | k in b :: b[k].tokenID == a[k].tokenID
    ensures Unique(b)
  {
  }

  /** An extension is one step of the token's life. */
  lemma ExtendedIsAPass(t: TokenSecret, joiners: seq<Joiner>, now: nat)
    requires t.expires.Some?
    ensures Extended(t, joiners, now).expires == After(t.expires, Newest(joiners), [Pass(now)])
  {
    assert [Pass(now)][..0] == [];
    assert After(t.expires, Newest(joiners), []) == t.expires;
  }

  function Newest(joiners: seq<Joiner>): nat {
    if joiners == [] then 0
    else
      var n := Newest(joiners[..|joiners| - 1]);
      if joiners[|joiners| - 1].created > n then joiners[|joiners| - 1].created else n
  }

  /** The token after an extension that reaches it. */
  function Extended(t: TokenSecret, joiners: seq<Joiner>, now: nat): TokenSecret {
    if t.expires.None? then t
    else t.(expires := Some(Extension(t.expires.value, Newest(joiners), now).GetOr(t.expires.value)))
  }

  /** The Machines are the same, but for marks that a token was removed. */
  ghost predicate OnlyMarks(a: map<string, Joiner>, b: map<string, Joiner>) {
    a.Keys == b.Keys && forall k | k in a :: b[k] == a[k].(removed := b[k].removed)
  }

  ghost predicate OnlyMarked(a: map<string, Joiner>, b: map<string, Joiner>, name: string) {
    OnlyMarks(a, b) && forall k | k in a && k != name :: b[k] == a[k]
  }

  function Admitted(name: string, id: string, now: nat): Joiner {
    Joiner(name, Trunc(now), id, false, false, false)
  }

  /** The ID an admission hands out. */
  ghost function Choice(codec: Codec, view: seq<Joiner>, slot: Slot, tokens: map<string, TokenSecret>, ca: string, live: seq<nat>,
                  tok: BootstrapToken, now: nat): string
  {
    if Reusable(codec, view, slot, tokens, ca, live, now) then slot.annotatedID else tok.id
  }

  /** Exactly when an admission keeps the tokens of the Machines apart: unless the token in the
      Secret is reused although a Machine, one the list read does not have, carries its ID. */
  lemma AdmissionUniqueIff(codec: Codec, view: seq<Joiner>, slot: Slot, tokens: map<string, TokenSecret>, ca: string, live: seq<nat>,
                           tok: BootstrapToken, now: nat, machines: map<string, Joiner>, issued: set<string>, name: string)
    requires Unique(machines) && name !in machines && ValidID(tok.id) && tok.id !in issued
    requires forall k | k in machines && machines[k].tokenID != "" :: machines[k].tokenID in issued
    ensures var id := Choice(codec, view, slot, tokens, ca, live, tok, now);
            Unique(machines[name := Admitted(name, id, now)]) <==>
            !(Reusable(codec, view, slot, tokens, ca, live, now) && Carried(machines, slot.annotatedID))
  {
    var id := Choice(codec, view, slot, tokens, ca, live, tok, now);
    var after := machines[name := Admitted(name, id, now)];
    assert after[name].tokenID == id != "";
    if Carried(machines, id) {
      var k :| k in machines && machines[k].tokenID == id;
      assert after[k].tokenID == id && k != name;
    }
  }

  /** What an admission does to the tokens of the Machines. */
  lemma AdmissionUnique(codec: Codec, view: seq<Joiner>, slot: Slot, tokens: map<string, TokenSecret>, ca: string, live: seq<nat>,
                        tok: BootstrapToken, now: nat, before: map<string, Joiner>, after: map<string, Joiner>, issued: set<string>, name: string)
    requires name !in before && ValidID(tok.id) && tok.id !in issued
    requires forall k | k in before && before[k].tokenID != "" :: before[k].tokenID in issued
    requires var id := Choice(codec, view, slot, tokens, ca, live, tok, now);
             (after == before || after == before[name := Admitted(name, id, now)]) && forall m | m in view :: m.tokenID != id
    ensures after != before && Unique(before) ==>
              (Unique(after) <==> !(Reusable(codec, view, slot, tokens, ca, live, now) && Carried(before, slot.annotatedID)))
    ensures Complete(view, before) && Unique(before) ==> Unique(after)
  {
    if Unique(before) {
      AdmissionUniqueIff(codec, view, slot, tokens, ca, live, tok, now, before, issued, name);
      if Complete(view, before) {
        CompleteShows(view, before, Choice(codec, view, slot, tokens, ca, live, tok, now));
      }
    }
  }

  /** Nor does it take one from a Machine that the list has. */
  lemma AdmissionMisses(view: seq<Joiner>, before: map<string, Joiner>, after: map<string, Joiner>, had: map<string, TokenSecret>,
                        tokens: map<string, TokenSecret>, name: string, id: string, now: nat)
    requires after == before || (after == before[name := Admitted(name, id, now)] && id in tokens)
    requires (exists m | m in view :: Joining(m)) ==> after == before && tokens == had
    ensures Complete(view, before) ==> Missing(after, tokens) <= Missing(before, had)
  {
    if Complete(view, before) && forall m | m in view :: !Joining(m) {
      forall k | k in before
        ensures !Joining(before[k])
      {
      }
      assert Missing(after, tokens) == {};
    }
  }

  /** A complete list shows who carries a token. */
  lemma CompleteShows(view: seq<Joiner>, machines: map<string, Joiner>, id: string)
    requires Complete(view, machines) && forall m | m in view :: m.tokenID != id
    ensures !Carried(machines, id)
  {
  }

  /** Such a list exists for every good token in use: the one that misses its Machine. */
  lemma HiddenMachineShares(codec: Codec, slot: Slot, tokens: map<string, TokenSecret>, ca: string, live: seq<nat>, tok: BootstrapToken,
                            now: nat, machines: map<string, Joiner>, issued: set<string>, name: string)
    requires Unique(machines) && name !in machines && ValidID(tok.id) && tok.id !in issued
    requires forall k | k in machines && machines[k].tokenID != "" :: machines[k].tokenID in issued
    requires slot.annotatedID != "" && slot.token != "" && Ready(codec, slot, slot.annotatedID, tokens, ca, live, now)
    requires Carried(machines, slot.annotatedID)
    ensures !Unique(machines[name := Admitted(name, Choice(codec, [], slot, tokens, ca, live, tok, now), now)])
  {
    AdmissionUniqueIff(codec, [], slot, tokens, ca, live, tok, now, machines, issued, name);
  }

  /** What can happen next in a run. Others may let Machines join, leave or go, delete, change or
      add any token, and edit the Secret, the pin and the freeze. */
  datatype Step =
    | Admission(name: string, view: Option<seq<Joiner>>, slotView: Option<Slot>, ca: Option<string>, seen: Option<string>,
                again: Option<string>, live: Option<seq<nat>>, tok: BootstrapToken, now: nat)
    | Maintenance(view: Option<seq<Joiner>>, seen: Option<string>, now: nat)
    | Others(machines: map<string, Joiner>, tokens: map<string, TokenSecret>, slot: Slot, pin: string, frozen: bool)

  /** Joiners come only by admission, keep their tokens, and never start joining again. */
  predicate Onward(a: map<string, Joiner>, b: map<string, Joiner>) {
    forall k | k in b :: k in a && b[k].name == k && b[k].tokenID == a[k].tokenID && (!b[k].joined && !b[k].deleting ==> !a[k].joined && !a[k].deleting)
  }

  /** What the caches and the generator keep to. */
  predicate Possible(j: JoinTokens, e: Step)
    reads j
  {
    match e
    case Admission(name, view, slotView, _, _, _, _, tok, _) =>
      && name !in j.machines && ValidID(tok.id) && tok.id !in j.issued
      && (slotView.Some? ==> j.SlotView(slotView.value)) && (view.Some? ==> Known(view.value, j.issued))
    case Maintenance(_, _, _) => true
    case Others(machines, _, slot, _, _) => Onward(j.machines, machines) && (slot == j.slot || slot.rv > j.slot.rv)
  }

  /** The list read is good enough: it has every Machine at an admission, and at a maintenance pass
      it spares those that still join. */
  ghost predicate Fair(machines: map<string, Joiner>, e: Step) {
    match e
    case Admission(_, view, _, _, _, _, _, _, _) => view.Some? ==> Complete(view.value, machines)
    case Maintenance(view, _, _) => view.Some? ==> Spares(view.value, machines)
    case Others(_, _, _, _, _) => true
  }

  /** The one case in which an admission can hand out a token twice: the token in the Secret is good
      for a joiner, and a Machine that the list read does not have carries it. */
  ghost predicate Reuses(machines: map<string, Joiner>, tokens: map<string, TokenSecret>, codec: Codec, e: Step) {
    match e
    case Admission(_, view, slotView, ca, _, _, live, _, now) =>
      && view.Some? && slotView.Some? && ca.Some? && live.Some?
      && Reusable(codec, view.value, slotView.value, tokens, ca.value, live.value, now) && Carried(machines, slotView.value.annotatedID)
    case _ => false
  }

  /** An admission over a list that misses a Machine. */
  ghost predicate Misses(machines: map<string, Joiner>, e: Step) {
    e.Admission? && e.view.Some? && !Complete(e.view.value, machines)
  }

  /** Every run of admissions, maintenance passes and whatever others do, with any call failing and
      over snapshots of any age: no two Machines carry one token, if every admission read a list that
      has every Machine, and otherwise unless some admission met that one case; and a token that a
      Machine still joins with is there unless somebody else deleted it, or
      some list read on the way missed a Machine or misreported one. A step that is not possible is
      skipped. */
  method AnyRun(j: JoinTokens, codec: Codec, steps: seq<Step>)
    requires j.Valid() && Lawful(codec) && j.machines == map[] && !j.misled && !j.missed && !j.shared
    modifies j
    ensures j.Valid()
    ensures !j.missed || !j.shared ==> Unique(j.machines)
    ensures !j.misled ==> Missing(j.machines, j.tokens) <= j.lapsed
  {
    for i := 0 to |steps|
      invariant j.Valid() && (!j.missed || !j.shared ==> Unique(j.machines)) && (!j.misled ==> Missing(j.machines, j.tokens) <= j.lapsed)
    {
      if Possible(j, steps[i]) {
        Take(j, codec, steps[i]);
      }
    }
  }

  /** One step, and what becomes of the tokens in it. */
  method Make(j: JoinTokens, codec: Codec, e: Step)
    requires j.Valid() && Lawful(codec) && Possible(j, e)
    modifies j
    ensures j.Valid() && j.misled == old(j.misled) && j.missed == old(j.missed) && j.shared == old(j.shared) && old(j.lapsed) <= j.lapsed
    ensures Unique(old(j.machines)) && (!Misses(old(j.machines), e) || !Reuses(old(j.machines), old(j.tokens), codec, e)) ==> Unique(j.machines)
    ensures Fair(old(j.machines), e) ==> Missing(j.machines, j.tokens) <= Missing(old(j.machines), old(j.tokens)) + j.lapsed
  {
    match e {
      case Admission(name, view, slotView, ca, seen, again, live, tok, now) =>
        var _ := j.AdmitJoiner(codec, view, slotView, ca, seen, again, live, tok, name, now);
      case Maintenance(view, seen, now) =>
        var _ := j.Maintain(view, seen, now);
      case Others(machines, tokens, slot, pin, frozen) =>
        j.Disturb(machines, tokens, slot, pin, frozen);
    }
  }

  method Take(j: JoinTokens, codec: Codec, e: Step)
    requires j.Valid() && Lawful(codec) && Possible(j, e)
    requires (!j.missed || !j.shared ==> Unique(j.machines)) && (!j.misled ==> Missing(j.machines, j.tokens) <= j.lapsed)
    modifies j
    ensures j.Valid() && (!j.missed || !j.shared ==> Unique(j.machines)) && (!j.misled ==> Missing(j.machines, j.tokens) <= j.lapsed)
    ensures j.misled == (old(j.misled) || !Fair(old(j.machines), e))
    ensures j.missed == (old(j.missed) || Misses(old(j.machines), e))
    ensures j.shared == (old(j.shared) || Reuses(old(j.machines), old(j.tokens), codec, e))
  {
    ghost var machines, tokens := j.machines, j.tokens;
    Make(j, codec, e);
    j.misled := j.misled || !Fair(machines, e);
    j.missed := j.missed || Misses(machines, e);
    j.shared := j.shared || Reuses(machines, tokens, codec, e);
  }

  // ---- a joiner's token, maintained ----

  /** The token of a Machine has half an hour to live from `last` on. */
  ghost predicate Kept(tokens: map<string, TokenSecret>, m: Joiner, last: nat) {
    && ValidID(m.tokenID) && m.tokenID in tokens && tokens[m.tokenID].joinOnly
    && tokens[m.tokenID].expires.Some? && tokens[m.tokenID].expires.value >= last + HALF_AN_HOUR
  }

  /** The token cleaner, and a maintenance pass after it. */
  datatype Upkeep = Upkeep(cleanedAt: nat, view: seq<Joiner>, seen: Option<string>, now: nat)

  function Cleaned(tokens: map<string, TokenSecret>, now: nat): map<string, TokenSecret> {
    map id | id in tokens && (tokens[id].expires.None? || tokens[id].expires.value > now) :: tokens[id]
  }

  /** The list shows the joiner, and the pass comes less than half an hour after the last, before the
      joiner is a day old. */
  ghost predicate OnTime(u: Upkeep, m: Joiner, last: nat) {
    && m in u.view && last <= u.cleanedAt < last + HALF_AN_HOUR
    && last <= u.now < last + HALF_AN_HOUR && u.now < m.created + A_DAY
  }

  function LastOf(issued: nat, steps: seq<Upkeep>): nat {
    if steps == [] then issued else steps[|steps| - 1].now
  }

  lemma {:induction false} NewestIsNewer(joiners: seq<Joiner>, m: Joiner)
    requires m in joiners
    ensures Newest(joiners) >= m.created
  {
    if m in joiners[..|joiners| - 1] {
      NewestIsNewer(joiners[..|joiners| - 1], m);
    }
  }

  lemma TendedIsKept(view: seq<Joiner>, m: Joiner, a: map<string, TokenSecret>, b: map<string, TokenSecret>, last: nat, now: nat)
    requires Tended(a, b, view, now) && AllTended(a, b, view, now) && Kept(a, m, last) && Joining(m) && m in view
    requires last <= now < last + HALF_AN_HOUR && now < m.created + A_DAY
    ensures Kept(b, m, now)
  {
    var id := m.tokenID;
    assert PendingWith(m, id);
    PendingByIsExact(view, id);
    NewestIsNewer(PendingBy(view)[id], m);
    TruncBounds(now + TTL);
    assert id in b by {
      assert id !in a.Keys - b.Keys;
    }
  }

  /** A joiner's token is maintained: over passes less than half an hour apart in which nothing
      failed, on a cluster that answers as the pinned one, the token of a Machine that still joins
      and is under a day old is never gone and never expired, token cleaner included. */
  method Upkept(j: JoinTokens, k: string, issued: nat, steps: seq<Upkeep>)
    requires j.Valid() && k in j.machines && Joining(j.machines[k]) && Kept(j.tokens, j.machines[k], issued)
    requires forall i | 0 <= i < |steps| ::
               OnTime(steps[i], j.machines[k], LastOf(issued, steps[..i])) && (j.pin == "" || steps[i].seen == Some(j.pin))
    modifies j
    ensures j.Valid() && k in j.machines && j.machines[k] == old(j.machines[k]).(removed := j.machines[k].removed)
    ensures !j.trouble && !j.frozen ==> Kept(j.tokens, j.machines[k], LastOf(issued, steps))
  {
    ghost var m := j.machines[k];
    for i := 0 to |steps|
      invariant j.Valid() && k in j.machines && j.machines[k] == m.(removed := j.machines[k].removed) && j.pin == old(j.pin)
      invariant !j.trouble && !j.frozen ==> Kept(j.tokens, m, LastOf(issued, steps[..i]))
    {
      assert OnTime(steps[i], m, LastOf(issued, steps[..i]));
      assert steps[..i + 1][i] == steps[i];
      j.tokens := Cleaned(j.tokens, steps[i].cleanedAt);
      ghost var before := j.tokens;
      var _ := j.Maintain(Some(steps[i].view), steps[i].seen, steps[i].now);
      if !j.trouble && !j.frozen {
        TendedIsKept(steps[i].view, m, before, j.tokens, LastOf(issued, steps[..i]), steps[i].now);
      }
    }
    assert steps[..|steps|] == steps;
  }
}
