/**
 The text of the identity freeze (internal/controllers/controlplane/ha_identity.go):
 what a kube-system UID is shown as, what the mismatch annotation says, and which pin is
 read back from it.
 */
module IdentityPin {
  import opened Wrappers

  const PINNED_SEP := "; pinned "
  const NO_PIN := "<none>"
  const MALFORMED := "<malformed>"

  predicate IsUidChar(c: char) {
    'A' <= c <= 'Z' || 'a' <= c <= 'z' || '0' <= c <= '9' || c == '-'
  }

  /** uidShape. */
  predicate UidShaped(uid: string) {
    1 <= |uid| <= 64 && forall c | c in uid :: IsUidChar(c)
  }

  function DisplayUID(uid: string): string {
    if uid == "" then NO_PIN else if UidShaped(uid) then uid else MALFORMED
  }

  /** The value tripIdentityFreeze writes. `via` and `at` are whatever named the apiserver and
      the time. */
  function MismatchValue(uid: string, via: string, at: string, pin: string): string {
    DisplayUID(uid) + " via " + via + " at " + at + PINNED_SEP + DisplayUID(pin)
  }

  predicate SeparatorAt(s: string, sep: string, i: nat) {
    i + |sep| <= |s| && s[i..i + |sep|] == sep
  }

  /** strings.LastIndex, looking at the first n positions. */
  function LastIndex(s: string, sep: string, n: nat): (r: Option<nat>)
    ensures r.Some? ==> SeparatorAt(s, sep, r.value) && r.value < n && forall i | r.value < i < n :: !SeparatorAt(s, sep, i)
    ensures r.None? ==> forall i | 0 <= i < n :: !SeparatorAt(s, sep, i)
  {
    if n == 0 then None
    else if SeparatorAt(s, sep, n - 1) then Some(n - 1)
    else LastIndex(s, sep, n - 1)
  }

  /** recordedPin: what follows the last separator. */
  function RecordedPin(mismatch: string): Option<string> {
    var i := LastIndex(mismatch, PINNED_SEP, |mismatch| + 1);
    if i.None? then None else Some(mismatch[i.value + |PINNED_SEP|..])
  }

  lemma DisplayHasNoSemicolon(uid: string)
    ensures ';' !in DisplayUID(uid)
  {
    assert !IsUidChar(';');
  }

  lemma SeparatorStartsHere(s: string, i: nat)
    requires SeparatorAt(s, PINNED_SEP, i)
    ensures i < |s| && s[i] == ';'
  {
    assert s[i..i + |PINNED_SEP|][0] == s[i];
  }

  /** A written mismatch names the pin it was measured against, whatever the apiserver was
      called: text smuggled into `via` cannot change it. */
  lemma RecordedPinOfMismatch(uid: string, via: string, at: string, pin: string)
    ensures RecordedPin(MismatchValue(uid, via, at, pin)) == Some(DisplayUID(pin))
  {
    var front := DisplayUID(uid) + " via " + via + " at " + at;
    var shown := DisplayUID(pin);
    var s := MismatchValue(uid, via, at, pin);
    assert s == front + PINNED_SEP + shown;
    assert s[|front|..|front| + |PINNED_SEP|] == PINNED_SEP;
    assert SeparatorAt(s, PINNED_SEP, |front|);
    DisplayHasNoSemicolon(pin);
    assert forall i | |front| < i < |s| :: s[i] != ';' by {
      forall i | |front| < i < |s|
        ensures s[i] != ';'
      {
        if i < |front| + |PINNED_SEP| {
          assert s[i] == PINNED_SEP[i - |front|];
        } else {
          assert s[i] == shown[i - |front| - |PINNED_SEP|];
        }
      }
    }
    var found := LastIndex(s, PINNED_SEP, |s| + 1);
    SeparatorStartsHere(s, found.value);
    assert s[|front| + |PINNED_SEP|..] == shown;
  }

  /** Which edits of the pin a freeze written against `pin` is lifted by: any that changes the
      pin, except from one text that is no UID to another. */
  lemma RepinSeenIff(pin: string, pin': string)
    ensures DisplayUID(pin) != DisplayUID(pin') <==>
            pin != pin' && !(pin != "" && pin' != "" && !UidShaped(pin) && !UidShaped(pin'))
  {
    assert !IsUidChar('<');
    assert NO_PIN[0] == '<' && MALFORMED[0] == '<' && |NO_PIN| != |MALFORMED|;
    assert UidShaped(pin) ==> pin[0] in pin;
    assert UidShaped(pin') ==> pin'[0] in pin';
  }
}
