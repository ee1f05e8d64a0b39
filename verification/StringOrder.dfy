/** The order in which names are listed and certificates are sorted. */
module StringOrder {

  /** Go's order on strings: bytewise, a proper prefix first. */
  predicate Less(x: string, y: string) {
    y != "" && (x == "" || x[0] < y[0] || (x[0] == y[0] && Less(x[1..], y[1..])))
  }

  /** x comes first where the two part: it ends there, or has the smaller character. */
  ghost predicate PartsAt(x: string, y: string, k: nat) {
    k <= |x| && k < |y| && x[..k] == y[..k] && (k == |x| || x[k] < y[k])
  }

  lemma {:induction false} LessIff(x: string, y: string)
    ensures Less(x, y) <==> exists k: nat :: PartsAt(x, y, k)
  {
    if x == "" {
      assert y != "" ==> PartsAt(x, y, 0);
    } else if y != "" {
      LessIff(x[1..], y[1..]);
      if Less(x, y) {
        if x[0] < y[0] {
          assert PartsAt(x, y, 0);
        } else {
          var k: nat :| PartsAt(x[1..], y[1..], k);
          assert x[..k + 1] == [x[0]] + x[1..][..k] && y[..k + 1] == [y[0]] + y[1..][..k];
          assert PartsAt(x, y, k + 1);
        }
      }
      if k: nat :| PartsAt(x, y, k) {
        if k > 0 {
          assert x[..k][0] == y[..k][0] && x[..k][1..] == x[1..][..k - 1] && y[..k][1..] == y[1..][..k - 1];
          assert PartsAt(x[1..], y[1..], k - 1);
        }
      }
    }
  }

  lemma {:induction false} LessIrreflexive(x: string)
    ensures !Less(x, x)
  {
    if x != "" {
      LessIrreflexive(x[1..]);
    }
  }

  lemma {:induction false} LessTotal(x: string, y: string)
    ensures Less(x, y) || x == y || Less(y, x)
  {
    if x != "" && y != "" && x[0] == y[0] {
      LessTotal(x[1..], y[1..]);
      assert x == [x[0]] + x[1..] && y == [y[0]] + y[1..];
    }
  }

  lemma {:induction false} LessTransitive(x: string, y: string, z: string)
    requires Less(x, y) && Less(y, z)
    ensures Less(x, z)
  {
    if x != "" && x[0] == y[0] == z[0] {
      LessTransitive(x[1..], y[1..], z[1..]);
    }
  }
}
