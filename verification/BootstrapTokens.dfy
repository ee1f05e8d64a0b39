/** The form of a bootstrap token, which k0s and kubeadm share. */
module BootstrapTokens {

  predicate Alnum(s: string, n: nat) {
    |s| == n && forall c | c in s :: 'a' <= c <= 'z' || '0' <= c <= '9'
  }

  predicate ValidID(id: string) {
    Alnum(id, 6)
  }
}
