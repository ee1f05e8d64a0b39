/**
 The scan of the live installer ISO for the baked cloud-config
 (internal/kubevirtenv/baked_cloud_config.go). The image is streamed through one
 reused buffer; the tail of every window is carried to the front so that a marker
 lying across two reads is still seen.

 `ScanForMarkers` is proved equal to a search of the whole stream.
 */
module MarkerScan {

  type Byte = b: int | 0 <= b < 256

  type Bytes = seq<Byte>

  predicate OccursAt(s: Bytes, m: Bytes, i: nat) {
    i + |m| <= |s| && s[i..i + |m|] == m
  }

  /** bytes.Contains. */
  predicate Contains(s: Bytes, m: Bytes) {
    exists i: nat | 0 <= i <= |s| :: OccursAt(s, m, i)
  }

  /** The markers that occur nowhere in `data`, in the order given. */
  function Missing(markers: seq<Bytes>, data: Bytes): seq<Bytes> {
    if markers == [] then []
    else (if Contains(data, markers[0]) then [] else [markers[0]]) + Missing(markers[1..], data)
  }

  datatype ReadError = NoError | EOF | UnexpectedEOF | Broken

  datatype ScanResult = Scanned(missing: seq<Bytes>) | ScanFailed

  /** The stream behind an io.Reader: `data` is what it delivers, after which it
      either ends or, when `broken`, fails with an error that is not an EOF. */
  class Reader {
    const data: Bytes
    const broken: bool
    var pos: nat

    ghost predicate Valid()
      reads this
    {
      pos <= |data|
    }

    constructor (data: Bytes, broken: bool)
      ensures Valid() && pos == 0 && this.data == data && this.broken == broken
    {
      this.data, this.broken, this.pos := data, broken, 0;
    }

    /** io.ReadFull into buf[from..]. */
    method ReadFull(buf: array<Byte>, from: nat) returns (n: nat, err: ReadError)
      requires Valid() && from < buf.Length
      modifies this`pos, buf
      ensures Valid() && pos == old(pos) + n && from + n <= buf.Length
      ensures buf[..from] == old(buf[..from])
      ensures buf[from..from + n] == data[old(pos)..pos]
      ensures err == NoError <==> from + n == buf.Length
      ensures err != NoError ==> pos == |data|
      ensures err == Broken <==> err != NoError && broken
      ensures err == EOF ==> n == 0
    {
      n := if |data| - pos < buf.Length - from then |data| - pos else buf.Length - from;
      forall i | 0 <= i < n {
        buf[from + i] := data[pos + i];
      }
      pos := pos + n;
      err := if from + n == buf.Length then NoError
             else if broken then Broken
             else if n == 0 then EOF
             else UnexpectedEOF;
    }
  }

  /** An occurrence inside a window is an occurrence in the stream, at the window's offset. */
  lemma OccursInWindow(s: Bytes, lo: nat, hi: nat, m: Bytes, i: nat)
    requires lo <= hi <= |s|
    ensures OccursAt(s[lo..hi], m, i) <==> OccursAt(s, m, lo + i) && lo + i + |m| <= hi
  {
    if lo + i + |m| <= hi {
      var a, b := s[lo..hi][i..i + |m|], s[lo + i..lo + i + |m|];
      assert forall k | 0 <= k < |m| :: a[k] == b[k];
      assert a == b;
    }
  }

  lemma WindowContained(s: Bytes, lo: nat, hi: nat, lo': nat, hi': nat, m: Bytes)
    requires lo' <= lo <= hi <= hi' <= |s|
    requires Contains(s[lo..hi], m)
    ensures Contains(s[lo'..hi'], m)
  {
    var i: nat :| OccursAt(s[lo..hi], m, i);
    OccursInWindow(s, lo, hi, m, i);
    OccursInWindow(s, lo', hi', m, lo + i - lo');
  }

  /** The reason an overlap of one less than the longest marker is enough: an
      occurrence that ends in the new bytes starts inside the carried tail. */
  lemma ContainsAcrossWindow(s: Bytes, p: nat, q: nat, carry: nat, m: Bytes)
    requires carry <= p <= q <= |s|
    requires |m| <= carry + 1 || carry == p
    ensures Contains(s[0..q], m) <==> Contains(s[0..p], m) || Contains(s[p - carry..q], m)
  {
    if Contains(s[0..q], m) {
      var i: nat :| OccursAt(s[0..q], m, i);
      OccursInWindow(s, 0, q, m, i);
      OccursInWindow(s, 0, p, m, i);
      if p < i + |m| {
        OccursInWindow(s, p - carry, q, m, i - (p - carry));
      }
    }
    if Contains(s[0..p], m) {
      WindowContained(s, 0, p, 0, q, m);
    }
    if Contains(s[p - carry..q], m) {
      WindowContained(s, p - carry, q, 0, q, m);
    }
  }

  /** The length of the carried tail: one byte less than the longest marker. */
  method Overlap(markers: seq<Bytes>) returns (overlap: nat)
    ensures forall m | m in markers :: |m| <= overlap + 1
    ensures overlap == 0 || exists m | m in markers :: |m| == overlap + 1
  {
    overlap := 0;
    for i := 0 to |markers|
      invariant forall k | 0 <= k < i :: |markers[k]| <= overlap
      invariant overlap == 0 || exists k | 0 <= k < i :: |markers[k]| == overlap
    {
      if |markers[i]| > overlap {
        overlap := |markers[i]|;
      }
    }
    if overlap > 0 {
      overlap := overlap - 1;
    }
  }

  /** Marks every marker seen in `window` that was not marked yet. */
  method MarkFound(markers: seq<Bytes>, window: Bytes, found: array<bool>)
    requires found.Length == |markers|
    modifies found
    ensures forall i | 0 <= i < |markers| :: found[i] <==> old(found[i]) || Contains(window, markers[i])
  {
    for i := 0 to |markers|
      invariant forall k | 0 <= k < i :: found[k] <==> old(found[k]) || Contains(window, markers[k])
      invariant forall k | i <= k < |markers| :: found[k] == old(found[k])
    {
      if !found[i] && Contains(window, markers[i]) {
        found[i] := true;
      }
    }
  }

  /** Filtering one marker more appends it exactly when the data lacks it. */
  lemma {:induction false} MissingSnoc(markers: seq<Bytes>, m: Bytes, data: Bytes)
    ensures Missing(markers + [m], data) == Missing(markers, data) + if Contains(data, m) then [] else [m]
  {
    if markers != [] {
      assert (markers + [m])[1..] == markers[1..] + [m];
      MissingSnoc(markers[1..], m, data);
    }
  }

  /** Lists the markers left unmarked, in order. */
  method CollectMissing(markers: seq<Bytes>, found: array<bool>, ghost data: Bytes) returns (missing: seq<Bytes>)
    requires found.Length == |markers|
    requires forall i | 0 <= i < |markers| :: found[i] <==> Contains(data, markers[i])
    ensures missing == Missing(markers, data)
  {
    missing := [];
    for i := 0 to |markers|
      invariant missing == Missing(markers[..i], data)
    {
      MissingSnoc(markers[..i], markers[i], data);
      assert markers[..i] + [markers[i]] == markers[..i + 1];
      if !found[i] {
        missing := missing + [markers[i]];
      }
    }
    assert markers[..|markers|] == markers;
  }

  /** What `found` says after the first `pos` bytes: a mark for every marker in them. */
  ghost predicate MarksPrefix(found: seq<bool>, markers: seq<Bytes>, data: Bytes, pos: nat)
    requires pos <= |data|
  {
    |found| == |markers| && forall i | 0 <= i < |markers| :: found[i] <==> Contains(data[0..pos], markers[i])
  }

  /** One window of the loop carries `MarksPrefix` from the old position to the new one. */
  lemma MarksAdvance(was: seq<bool>, now: seq<bool>, markers: seq<Bytes>, data: Bytes, p: nat, q: nat, carry: nat)
    requires carry <= p <= q <= |data| && |was| == |now| == |markers|
    requires forall m | m in markers :: |m| <= carry + 1 || carry == p
    requires MarksPrefix(was, markers, data, p) || (p == 0 && forall i | 0 <= i < |was| :: !was[i])
    requires forall i | 0 <= i < |markers| :: now[i] <==> (was[i] || Contains(data[p - carry..q], markers[i]))
    ensures MarksPrefix(now, markers, data, q)
  {
    forall i | 0 <= i < |markers|
      ensures now[i] <==> Contains(data[0..q], markers[i])
    {
      assert markers[i] in markers;
      ContainsAcrossWindow(data, p, q, carry, markers[i]);
      if !MarksPrefix(was, markers, data, p) && Contains(data[0..0], markers[i]) {
        WindowContained(data, 0, 0, 0, q, markers[i]);
      }
    }
  }

  /** Carries the last bytes of the window buf[..filled] to the front of the buffer: it holds
      what the stream delivered last, as far as the window went back. */
  method CarryTail(buf: array<Byte>, filled: nat, overlap: nat, ghost seen: Bytes) returns (carry: nat)
    requires filled <= buf.Length && filled <= |seen| && buf[..filled] == seen[|seen| - filled..]
    modifies buf
    ensures carry == if filled < overlap then filled else overlap
    ensures buf[..carry] == seen[|seen| - carry..]
  {
    ghost var window := buf[..filled];
    carry := overlap;
    if filled < carry {
      carry := filled;
    }
    forall i | 0 <= i < carry {
      buf[i] := buf[filled - carry + i];
    }
    assert buf[..carry] == window[filled - carry..];
  }

  /** Reads once behind the `carry` bytes kept from the last window and searches the new window. */
  method ReadAndMark(r: Reader, markers: seq<Bytes>, buf: array<Byte>, carry: nat, found: array<bool>)
    returns (n: nat, err: ReadError)
    requires r.Valid() && carry <= r.pos && carry < buf.Length && found.Length == |markers|
    requires found as object != buf
    requires buf[..carry] == r.data[r.pos - carry..r.pos]
    requires forall m | m in markers :: |m| <= carry + 1 || carry == r.pos
    requires MarksPrefix(found[..], markers, r.data, r.pos) ||
             (r.pos == 0 && forall i | 0 <= i < |markers| :: !found[..][i])
    modifies r`pos, buf, found
    ensures r.Valid() && r.pos == old(r.pos) + n && carry + n <= buf.Length
    ensures err == NoError <==> carry + n == buf.Length
    ensures buf[..carry + n] == r.data[old(r.pos) - carry..r.pos]
    ensures MarksPrefix(found[..], markers, r.data, r.pos)
    ensures err != NoError ==> r.pos == |r.data| && (err == Broken <==> r.broken)
  {
    ghost var p, was := r.pos, found[..];
    n, err := r.ReadFull(buf, carry);
    var window := buf[..carry + n];
    assert window == buf[..carry] + buf[carry..carry + n];
    assert window == r.data[p - carry..r.pos];
    MarkFound(markers, window, found);
    assert buf[..carry + n] == window;
    forall i | 0 <= i < |markers|
      ensures found[..][i] <==> (was[i] || Contains(r.data[p - carry..r.pos], markers[i]))
    {
      assert found[..][i] == found[i];
    }
    MarksAdvance(was, found[..], markers, r.data, p, r.pos, carry);
  }

  /** The window is full: its tail is kept for the next one. */
  method CarryOver(r: Reader, buf: array<Byte>, window: nat, overlap: nat) returns (carry: nat)
    requires r.Valid() && window <= r.pos && window == buf.Length > overlap
    requires buf[..window] == r.data[r.pos - window..r.pos]
    modifies buf
    ensures carry == overlap <= r.pos && buf[..carry] == r.data[r.pos - carry..r.pos]
  {
    ghost var seen := r.data[..r.pos];
    assert r.data[r.pos - window..r.pos] == seen[|seen| - window..];
    carry := CarryTail(buf, window, overlap, seen);
    assert r.data[r.pos - carry..r.pos] == seen[|seen| - carry..];
  }

  /** Streams `r` and returns the markers it never saw. `chunk` is the read size. */
  method ScanForMarkers(r: Reader, markers: seq<Bytes>, chunk: nat) returns (res: ScanResult)
    requires r.Valid() && r.pos == 0 && chunk >= 1
    modifies r`pos
    ensures res == if r.broken then ScanFailed else Scanned(Missing(markers, r.data))
  {
    var found := new bool[|markers|](_ => false);
    var overlap := Overlap(markers);
    var buf := new Byte[overlap + chunk];
    var carry, n, err := 0, 0, NoError;
    while err == NoError
      invariant r.Valid()
      invariant carry <= r.pos && carry <= overlap
      invariant err == NoError ==> carry == overlap || carry == r.pos
      invariant err == NoError ==> buf[..carry] == r.data[r.pos - carry..r.pos]
      invariant MarksPrefix(found[..], markers, r.data, r.pos) ||
                (err == NoError && r.pos == 0 && forall i | 0 <= i < |markers| :: !found[..][i])
      invariant err != NoError ==> r.pos == |r.data| && (err == Broken <==> r.broken)
      decreases |r.data| - r.pos, if err == NoError then 1 else 0
    {
      n, err := ReadAndMark(r, markers, buf, carry, found);
      if err == NoError {
        carry := CarryOver(r, buf, carry + n, overlap);
      }
    }
    if err == Broken {
      return ScanFailed;
    }
    assert r.data[0..r.pos] == r.data;
    var missing := CollectMissing(markers, found, r.data);
    return Scanned(missing);
  }

  /** `Missing` is the filtered list: every entry is a given marker that is not in the
      data, every such marker is an entry, and one read more can only shorten it. */
  lemma {:induction false} MissingExact(markers: seq<Bytes>, data: Bytes, m: Bytes)
    ensures m in Missing(markers, data) <==> m in markers && !Contains(data, m)
    ensures |Missing(markers, data)| <= |markers|
  {
    if markers != [] {
      MissingExact(markers[1..], data, m);
    }
  }
}
