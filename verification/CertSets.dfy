/**
 The comparison of two CA bundles as sets of DER certificates
 (internal/controllers/bootstrap/kubeadm.go, derCertSetsEqual and sortDER): both slices
 are sorted in place by their hex text and then compared position by position.
 */
module CertSets {
  import opened StringOrder

  type Byte = b: int | 0 <= b < 256

  type DER = seq<Byte>

  const HEX_DIGITS := "0123456789abcdef"

  /** hex.EncodeToString. */
  function Hex(d: DER): (h: string)
    ensures |h| == 2 * |d|
  {
    if d == [] then "" else [HEX_DIGITS[d[0] / 16], HEX_DIGITS[d[0] % 16]] + Hex(d[1..])
  }

  /** The order the certificates are sorted by. */
  predicate AtMost(x: DER, y: DER) {
    !Less(Hex(y), Hex(x))
  }

  predicate SortedDER(s: seq<DER>) {
    forall i, j | 0 <= i < j < |s| :: AtMost(s[i], s[j])
  }

  lemma {:induction false} HexDigitsDiffer(i: nat, j: nat)
    requires i < 16 && j < 16 && HEX_DIGITS[i] == HEX_DIGITS[j]
    ensures i == j
  {
    assert HEX_DIGITS[i] == if i < 10 then '0' + i as char else 'a' + (i - 10) as char;
    assert HEX_DIGITS[j] == if j < 10 then '0' + j as char else 'a' + (j - 10) as char;
  }

  lemma {:induction false} HexInjective(x: DER, y: DER)
    requires Hex(x) == Hex(y)
    ensures x == y
  {
    if x == [] || y == [] {
      assert |x| == |y|;
    } else {
      assert Hex(x)[0] == HEX_DIGITS[x[0] / 16] && Hex(x)[1] == HEX_DIGITS[x[0] % 16];
      assert Hex(y)[0] == HEX_DIGITS[y[0] / 16] && Hex(y)[1] == HEX_DIGITS[y[0] % 16];
      HexDigitsDiffer(x[0] / 16, y[0] / 16);
      HexDigitsDiffer(x[0] % 16, y[0] % 16);
      assert Hex(x)[2..] == Hex(x[1..]) && Hex(y)[2..] == Hex(y[1..]);
      HexInjective(x[1..], y[1..]);
      assert x == [x[0]] + x[1..] && y == [y[0]] + y[1..];
    }
  }

  lemma AtMostTotal(x: DER, y: DER)
    ensures AtMost(x, y) || AtMost(y, x)
  {
    if Less(Hex(x), Hex(y)) && Less(Hex(y), Hex(x)) {
      LessTransitive(Hex(x), Hex(y), Hex(x));
      LessIrreflexive(Hex(x));
    }
  }

  lemma AtMostTransitive(x: DER, y: DER, z: DER)
    requires AtMost(x, y) && AtMost(y, z)
    ensures AtMost(x, z)
  {
    if Less(Hex(z), Hex(x)) {
      LessTotal(Hex(y), Hex(z));
      if Less(Hex(y), Hex(z)) {
        LessTransitive(Hex(y), Hex(z), Hex(x));
      }
    }
  }

  /** The order is antisymmetric because hex text determines the bytes. */
  lemma AtMostAntisymmetric(x: DER, y: DER)
    requires AtMost(x, y) && AtMost(y, x)
    ensures x == y
  {
    LessTotal(Hex(x), Hex(y));
    HexInjective(x, y);
  }

  lemma SameHead(s: seq<DER>, t: seq<DER>)
    requires SortedDER(s) && SortedDER(t) && multiset(s) == multiset(t) && s != []
    ensures t != [] && s[0] == t[0]
  {
    assert |multiset(s)| == |multiset(t)|;
    assert s[0] in multiset(t) && t[0] in multiset(s);
    var i :| 0 <= i < |t| && t[i] == s[0];
    var j :| 0 <= j < |s| && s[j] == t[0];
    if s[0] != t[0] {
      assert AtMost(s[0], s[j]) && AtMost(t[0], t[i]);
      AtMostAntisymmetric(s[0], t[0]);
    }
  }

  /** Two sorted lists with the same elements are the same list. */
  lemma {:induction false} SortedUnique(s: seq<DER>, t: seq<DER>)
    requires SortedDER(s) && SortedDER(t) && multiset(s) == multiset(t)
    ensures s == t
  {
    if s == [] {
      assert |multiset(t)| == |t| == 0;
    } else {
      SameHead(s, t);
      assert s == [s[0]] + s[1..] && t == [t[0]] + t[1..];
      assert multiset(s[1..]) == multiset(s) - multiset{s[0]};
      assert multiset(t[1..]) == multiset(t) - multiset{t[0]};
      SortedUnique(s[1..], t[1..]);
    }
  }

  /** The first k + 1 entries are in order, but for what stands before position j. */
  predicate SortedExcept(s: seq<DER>, k: nat, j: nat)
    requires j <= k < |s|
  {
    forall p, q | 0 <= p < q <= k && q != j :: AtMost(s[p], s[q])
  }

  function SwapDown(s: seq<DER>, j: nat): seq<DER>
    requires 0 < j < |s|
  {
    s[j := s[j - 1]][j - 1 := s[j]]
  }

  lemma SwapDownKeeps(s: seq<DER>, k: nat, j: nat)
    requires 0 < j <= k < |s| && SortedExcept(s, k, j) && !AtMost(s[j - 1], s[j])
    ensures SortedExcept(SwapDown(s, j), k, j - 1)
    ensures multiset(SwapDown(s, j)) == multiset(s)
  {
    var t := SwapDown(s, j);
    AtMostTotal(s[j - 1], s[j]);
    forall p, q | 0 <= p < q <= k && q != j - 1
      ensures AtMost(t[p], t[q])
    {
      if q == j && p < j - 1 {
        assert AtMost(s[p], s[j - 1]);
      }
    }
  }

  lemma SortedExceptDone(s: seq<DER>, k: nat, j: nat)
    requires j <= k < |s| && SortedExcept(s, k, j) && (j == 0 || AtMost(s[j - 1], s[j]))
    ensures SortedDER(s[..k + 1])
  {
    forall p, q | 0 <= p < q <= k
      ensures AtMost(s[p], s[q])
    {
      if q == j && p < j - 1 {
        AtMostTransitive(s[p], s[j - 1], s[j]);
      }
    }
  }

  /** Moves a[k] down to its place among the sorted a[..k]. */
  method Insert(a: array<DER>, k: nat)
    requires k < a.Length && SortedDER(a[..k])
    modifies a
    ensures SortedDER(a[..k + 1])
    ensures multiset(a[..]) == multiset(old(a[..]))
  {
    var j := k;
    assert forall p, q | 0 <= p < q <= k && q != k :: AtMost(a[..k][p], a[..k][q]);
    while j > 0 && !AtMost(a[j - 1], a[j])
      invariant 0 <= j <= k
      invariant multiset(a[..]) == multiset(old(a[..]))
      invariant SortedExcept(a[..], k, j)
    {
      SwapDownKeeps(a[..], k, j);
      ghost var swapped := SwapDown(a[..], j);
      a[j], a[j - 1] := a[j - 1], a[j];
      assert a[..] == swapped;
      j := j - 1;
    }
    SortedExceptDone(a[..], k, j);
    assert a[..][..k + 1] == a[..k + 1];
  }

  /** sort.Slice by hex text, in place. */
  method SortDERInPlace(a: array<DER>)
    modifies a
    ensures SortedDER(a[..])
    ensures multiset(a[..]) == multiset(old(a[..]))
  {
    for k := 0 to a.Length
      invariant SortedDER(a[..k])
      invariant multiset(a[..]) == multiset(old(a[..]))
    {
      Insert(a, k);
    }
    assert a[..a.Length] == a[..];
  }

  /** Whether the two lists hold the same certificates, each as often. The slices may be
      one and the same; both are left sorted unless their lengths already differ. */
  method DerCertSetsEqual(a: array<DER>, b: array<DER>) returns (equal: bool)
    modifies a, b
    ensures equal <==> multiset(old(a[..])) == multiset(old(b[..]))
    ensures multiset(a[..]) == multiset(old(a[..])) && multiset(b[..]) == multiset(old(b[..]))
    ensures a.Length == b.Length ==> SortedDER(a[..]) && SortedDER(b[..])
    ensures a.Length != b.Length ==> a[..] == old(a[..]) && b[..] == old(b[..])
  {
    assert |multiset(a[..])| == a.Length && |multiset(b[..])| == b.Length;
    if a.Length != b.Length {
      return false;
    }
    SortDERInPlace(a);
    SortDERInPlace(b);
    if multiset(a[..]) == multiset(b[..]) {
      SortedUnique(a[..], b[..]);
    }
    equal := SamePositions(a, b);
  }

  /** The comparison position by position. */
  method SamePositions(a: array<DER>, b: array<DER>) returns (same: bool)
    requires a.Length == b.Length
    ensures same <==> a[..] == b[..]
  {
    for i := 0 to a.Length
      invariant forall j | 0 <= j < i :: a[j] == b[j]
    {
      if a[i] != b[i] {
        assert a[..][i] != b[..][i];
        return false;
      }
    }
    return true;
  }
}
